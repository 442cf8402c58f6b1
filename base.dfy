/** Values shared by every part of the query layer: optional values, driver
    outcomes, bound parameters and result rows. */
module Base {

  datatype Option<+T> = None | Some(value: T)

  datatype Result<+R, +E> = Success(value: R) | Failure(error: E)

  /** A bound parameter as the application passes it to the driver. */
  datatype Value = Null | Bool(b: bool) | Num(n: int) | Text(s: string)

  /** One row of a result set; its columns are not interpreted here. */
  datatype Row = Row(columns: seq<Value>)

  /** An error reported by the database driver. */
  datatype DbError = DbError(message: string)

  /** What the driver hands back for one statement: the row data together
      with metadata (command tag, field descriptions) that callers of the
      templated query never see. */
  datatype QueryResult = QueryResult(command: string, rowCount: int, rows: seq<Row>, fields: seq<string>)

  /** The reduced result `{rowCount, rows}` of a templated query. */
  datatype Projected = Projected(rowCount: int, rows: seq<Row>)

  /** A bind-vars argument that was left out stands for the empty list. */
  function ValuesOrEmpty(bindVars: Option<seq<Value>>): seq<Value>
  {
    match bindVars
    case None => []
    case Some(vs) => vs
  }
}
