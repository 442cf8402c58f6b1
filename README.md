# node-pg-query-template, modelled in Dafny

This library is a thin SQL access layer over a PostgreSQL connection pool. It attaches methods to every database client:

- `queryAsync` runs one statement. On a fresh lease from the pool, the connection goes back right after the statement. Inside a transaction, the statement runs on the client's own pinned connection.
- `transactionStart`, `commit` and `rollback` pin one leased connection for a BEGIN … COMMIT/ROLLBACK span.
- `sqlTmpl` is the parameter binder. It turns a tagged template into `{query, values}` with `$1 … $n` placeholders.
- `convertHandlebarsTemplateToQuery` splices trusted SQL blocks into `{{ }}` markers. It makes at most five passes.
- `queryTmpl` is the rewrite, then a routed query, then the `{rowCount, rows}` projection.
- `cursorQuery` / `readAsync` / `cursorTmpl` stream a result set in batches. A cursor gives its connection back once it ends.

The model has six modules, one per component:

| file | module | models |
|---|---|---|
| base.dfy | `Base` | values shared by all parts: options, results, bound values, rows, driver results |
| binder.dfy | `Binder` | `sqlTmpl`: a method with the source's loop, proved against the reference shape; placeholders read back |
| template.dfy | `Template` | `convertHandlebarsTemplateToQuery`: the bounded rewrite loop over a query object |
| leases.dfy | `Leases` | the pool: a `Pool` class with a ghost set of outstanding leases and a ghost log of requests; lease accounting over logs |
| cursors.dfy | `Cursors` | `cursorQuery` and `readAsync`: a `Cursor` class; draining releases exactly once |
| client.dfy | `PgClient` | a `Client` class (`inTransaction`, `returnClientToPool`) with `queryAsync`, `transactionStart`, `commit`, `rollback`, `queryTmpl`, `cursorTmpl` |

The code is callback-driven. Every operation here is a synchronous method, and the outcomes the driver reports are supplied as inputs: a statement's result or error, or a cursor batch or error.

The pool is a `Pool` object:
- `Connect` hands out a fresh lease number.
- `Release` requires that lease to be outstanding.
- `Execute`, `Open` and `Fetch` record the driver requests.

The pool's ghost log holds every lease, release, statement and fetch in order. This makes "COMMIT, then release" and "release exactly once, before the callback" statable. `Replay` is the pool's accounting over a log. `Pool.Valid()` ties the ghost set of outstanding leases to `Replay` of the log.

One pass of lodash's `_.template` is a function parameter `subst`, so every template property holds for any engine. JavaScript truthiness of `substVals` is the datatype `SubstArg` (`Falsy` / `Truthy(bindings)`).

Behaviours of the code that a reader might not expect, all modelled as written:
- The code does not refuse a second `transactionStart` on a client already in a transaction. Each call takes another lease and leaves the caller's pin and lease alone (`RestartKeepsFirstLease`).
- `commit` and `rollback` clear `inTransaction` but leave `returnClientToPool` set. So "pinned if and only if in a transaction" does not hold after a commit.
- `transactionStart` sets the flag before BEGIN is issued. It ignores BEGIN's outcome.
- In `cursorTmpl`, a left-out `substVals` becomes `[]`. That is truthy, so the rewrite still runs on a query that contains `{{`, and any `{{name}}` in it then makes the engine's pass fail, because `name` is missing from the empty context (see `Template.ConvertTemplate` under "## Left out").
- `sqlTmpl` called directly with two pieces and two values appends `undefined`, which is JavaScript's text for the missing third piece (`BindExample`). A tagged template always passes one more piece than values, and then the query has no `undefined` in it.
- Only `queryTmpl` reduces the result to `{rowCount, rows}`. `queryAsync` passes the driver's whole result on.

## Model

| member | source | states |
|---|---|---|
| `Binder.SqlTmpl` | index.js:169-181 | the query is `pieces[0] + "$1" + pieces[1] + … + "$n" + pieces[n]` (with `undefined` for a missing piece) and depends only on the pieces and the number of values; `values` is the substitutions, same order and length |
| `Binder.PrefixThenRest` | index.js:173-178 | what the loop has accumulated after k rounds, followed by the rest of the reference shape, is the whole reference shape |
| `Binder.DecimalRoundTrip` | index.js:174 | a placeholder number printed in decimal consists of digits and reads back as the same number |
| `Binder.BoundPlaceholdersAreConsecutive` | index.js:173-178 | when the pieces contain no `$` and no piece after a placeholder starts with a digit, every `$`-digit run of the bound query, read left to right, is exactly 1, 2, …, n in order |
| `Binder.DigitAfterPlaceholderMerges` | index.js:174 | a piece that starts with a digit merges into the preceding placeholder: pieces `"a="`, `"0"` around one value give `a=$10`, read as parameter 10 |
| `Binder.BindExample` | index.js:169-181 | a two-value tagged template binds to `SELECT * FROM t WHERE a=$1 AND b=$2` with three pieces; with only two pieces the text ends in `undefined` |
| `Template.ConvertTemplate` | index.js:90-104 | the rewrite changes only `obj.query`, and to the bounded expansion: unchanged for a falsy context, otherwise the loop of at most five passes that stops at the first text without `{{` |
| `Template.ExpandStopsAtFirstClean` | index.js:96-102 | the loop makes at most `fuel` passes; its result is the text after exactly that many passes; every text it rewrote still had a `{{`; it stops early only on a text without `{{` |
| `Template.ConvertedIsBoundedIteration` | index.js:95-102 | with a truthy context the rewrite is k ≤ 5 passes of the engine, each applied to a text with a marker, and fewer than 5 only when no marker is left |
| `Template.ConvertedLeavesQuery` | index.js:95-97 | a falsy context, or a query without `{{`, leaves the query unchanged |
| `Template.RunawayExpansionStops` | index.js:96-102 | if every pass leaves a marker, the loop ends after exactly the bound, without error, and a marker stays in the text |
| `Leases.LeaseAccounting` | index.js:50-54 | in any log the pool accepts, each lease is handed out at most once and released at most once, never before it was handed out; it is outstanding exactly when handed out and not yet released |
| `Leases.PooledCallBalanced` | index.js:50-54 | lease, statement, release on a fresh lease is accepted by the pool and leaves the outstanding leases as they were |
| `Leases.Pool.Connect` | index.js:50 | `pool.connect` hands out a lease that was not outstanding; the lease count grows by one |
| `Leases.Pool.Release` | index.js:52 | the release function gives back an outstanding lease; the lease count drops by one |
| `PgClient.Client.QueryAsync` | index.js:37-57 | without bind vars the statement runs with `[]`; inside a transaction it runs on the client's own connection and takes no lease; otherwise it takes exactly one fresh lease and releases it exactly once after the statement, error or not; the outcome is passed through and the outstanding leases are unchanged |
| `PgClient.Client.TransactionStart` | index.js:60-68 | returns a fresh client on a freshly leased connection, flagged `inTransaction`, keeping that lease's release function, with BEGIN issued on it; the calling client is untouched whatever its state, and BEGIN's outcome is ignored |
| `PgClient.Client.EndTransaction` | index.js:72-77 | clears the flag, issues the statement, then releases the stored lease exactly once whatever the statement's outcome, and passes that outcome on |
| `PgClient.Client.Commit` | index.js:71-78 | COMMIT on the client's connection, then release of its lease, even when COMMIT fails; flag cleared; outcome passed through |
| `PgClient.Client.Rollback` | index.js:81-88 | ROLLBACK on the client's connection, then release of its lease, even when ROLLBACK fails; flag cleared; outcome passed through |
| `PgClient.Client.QueryTmpl` | index.js:106-124 | rewrites `obj.query` as `ConvertTemplate` does, runs it with `obj.values` routed as in `queryAsync`, and hands back `{rowCount, rows}` of the result or the error unchanged |
| `PgClient.Client.CursorTmpl` | index.js:156-167 | rewrites `obj.query` (a left-out context becomes the truthy `[]`), then opens a cursor on the rewritten query with `obj.values` on a fresh lease, even on a client inside a transaction |
| `PgClient.TransactionOnOneConnection` | index.js:47-78 | start, one statement, commit: all statements run on the one connection leased at the start, no other lease is taken, and the pool ends with the leases it started with |
| `PgClient.RestartKeepsFirstLease` | index.js:60-68 | starting a transaction from a client already in one leaves the first lease outstanding: two leases are held |
| `Cursors.CursorQuery` | index.js:126-152 | leases a fresh connection and opens the cursor on it; the cursor keeps that lease |
| `Cursors.Cursor.EndConnection` | index.js:130 | the release function the cursor hands to its caller gives back the cursor's outstanding lease, with or without an error, and marks the cursor released |
| `Cursors.Cursor.Read` | index.js:132-147 | a read error releases the connection, passing the error, and fails; an empty batch releases and returns the empty batch; a non-empty batch returns the rows and keeps the lease |
| `Cursors.ReadKeepsLease` | index.js:134-145 | one read, seen by the pool's accounting: the lease is given back exactly when the read ends the cursor |
| `Cursors.DrainReleasesOnce` | index.js:134-145 | reading a cursor until it ends, with no call of `endConnection` in between, gives its lease back: afterwards it is no longer outstanding, other leases are untouched, and the whole log releases it exactly once |
| `Cursors.DrainExample` | index.js:134-145 | batches `[r1, r2]`, `[r3]`, `[]` give three fetches and one release, after the third |

## Left out

- Connection-string parsing and pool construction (index.js:13-26) are configuration over the URL parser and the pg library.
- The pool and pg `'error'` handlers and the `console.log` diagnostics (index.js:28-34, 118) are logging only.
- The prototype patching (`pg.Client.prototype.*`, `override`, index.js:9-11) is not modelled. The methods are members of the `Client` class instead.
- The bluebird promisification and callback scheduling are not modelled. Each operation is a synchronous method, and concurrent interleaving of calls is not modelled.
- Connection failures from `pool.connect` are not modelled. The code ignores `connectErr` and goes on to use the missing client, so a lease always succeeds here.
- The driver's behaviour is not modelled: the SQL meaning of BEGIN, COMMIT and ROLLBACK, pg-cursor's internals and the batch size the driver honours. Only the order of requests and the lease accounting are.
- lodash's `_.template` internals are not modelled: the `{{ }}` expression evaluation, escaping and the `_.templateSettings` assignment. One pass is the parameter `subst`.
- Physical connection reuse by the pool is not modelled. Every lease comes with its own connection number.
- An `obj.values` that is left out is modelled as `[]`, which the driver treats the same way as `undefined`.
- `cursorAsync` (index.js:154) is `cursorQuery` promisified, so it is `Cursors.CursorQuery` here.
- `Cursors.Cursor.Read` requires a cursor that has not ended. The code does not guard against this: a read after the end calls the release function a second time, which the pool refuses.
- `PgClient.Client.Commit` requires a stored release function whose lease is still outstanding. On a client that was never started, the code calls an undefined function; after a first commit or rollback it releases the same lease twice.
- `PgClient.Client.Rollback` requires a stored release function whose lease is still outstanding, for the same reasons as `commit`.
- `PgClient.Client.EndTransaction` carries the same requirement, as the shared body of `commit` and `rollback`.
- `Template.ConvertTemplate` models one pass of the template engine as a total function. A pass that throws, for example on a `{{name}}` whose `name` is missing from the context (always the case with `cursorTmpl`'s default `[]`), is outside the model. In the code, `queryTmpl` then throws at index.js:108 and `cursorTmpl` fails at index.js:164, both before any lease is taken; `PgClient.Client.QueryTmpl` and `PgClient.Client.CursorTmpl` always go on to lease.
- `Binder.BoundPlaceholdersAreConsecutive` counts every `$` followed by digits. PostgreSQL does not read `$1` as a parameter inside a quoted literal (`'$1'`), as part of an identifier (`col$1`) or inside a comment; pieces that put a placeholder in such a context are not covered by the lemma's reading.
- `Cursors.CursorQuery` hands the release function to the caller as `cursor.endConnection` (index.js:130), modelled as `Cursors.Cursor.EndConnection`. `Cursors.DrainReleasesOnce` states "released exactly once" only for a cursor that is read to its end without a call of `endConnection`; a caller that ends the cursor early and then reads on would release twice, which `Cursors.Cursor.Read`'s requirement excludes.
