/** The parameter binder `sqlTmpl`: a tagged-template call (literal pieces
    and substituted values) becomes `{query, values}` where the i-th value
    (counting from 1) is referred to by the placeholder `$i` and never
    appears in the query text. */
module Binder {
  import opened Base

  /** Decimal digits of a natural number, as JavaScript prints it. */
  function DecimalString(n: nat): (s: string)
    decreases n
  {
    if n < 10 then [DigitChar(n)] else DecimalString(n / 10) + [DigitChar(n % 10)]
  }

  function DigitChar(d: nat): char
    requires d < 10
  {
    ['0', '1', '2', '3', '4', '5', '6', '7', '8', '9'][d]
  }

  predicate IsDigit(c: char)
  {
    '0' <= c <= '9'
  }

  function DigitValue(c: char): nat
    requires IsDigit(c)
  {
    (c as int) - ('0' as int)
  }

  /** Reads a run of decimal digits back as a number. */
  function ParseDecimal(s: string): nat
    requires forall i :: 0 <= i < |s| ==> IsDigit(s[i])
  {
    if s == [] then 0 else 10 * ParseDecimal(s[..|s| - 1]) + DigitValue(s[|s| - 1])
  }

  lemma {:induction false} DecimalStringDigits(n: nat)
    ensures |DecimalString(n)| > 0
    ensures forall i :: 0 <= i < |DecimalString(n)| ==> IsDigit(DecimalString(n)[i])
    decreases n
  {
    if n >= 10 {
      DecimalStringDigits(n / 10);
    }
  }

  /** Printing a placeholder number and reading it back gives the number. */
  lemma {:induction false} DecimalRoundTrip(n: nat)
    ensures forall i :: 0 <= i < |DecimalString(n)| ==> IsDigit(DecimalString(n)[i])
    ensures ParseDecimal(DecimalString(n)) == n
    decreases n
  {
    DecimalStringDigits(n);
    var s := DecimalString(n);
    if n >= 10 {
      DecimalRoundTrip(n / 10);
      assert s[..|s| - 1] == DecimalString(n / 10);
    }
  }

  /** `pieces[i]` as JavaScript's `+` sees it: past the end it is `undefined`. */
  function Piece(pieces: seq<string>, i: nat): string
  {
    if i < |pieces| then pieces[i] else "undefined"
  }

  /** The placeholder for the value at zero-based position i. */
  function Placeholder(i: nat): string
  {
    "$" + DecimalString(i + 1)
  }

  /** The text the loop has accumulated after k iterations. */
  function Prefix(pieces: seq<string>, k: nat): string
  {
    if k == 0 then "" else Prefix(pieces, k - 1) + Piece(pieces, k - 1) + Placeholder(k - 1)
  }

  /** The reference shape `pieces[i] + "$(i+1)" + pieces[i+1] + ... + "$n" + pieces[n]`. */
  function Interleave(pieces: seq<string>, i: nat, n: nat): string
    requires i <= n
    decreases n - i
  {
    if i == n then Piece(pieces, n) else Piece(pieces, i) + Placeholder(i) + Interleave(pieces, i + 1, n)
  }

  lemma PrefixStep(pieces: seq<string>, k: nat, n: nat)
    requires 0 < k <= n
    ensures Prefix(pieces, k) + Interleave(pieces, k, n) == Prefix(pieces, k - 1) + Interleave(pieces, k - 1, n)
  {
    var before, piece, mark, rest := Prefix(pieces, k - 1), Piece(pieces, k - 1), Placeholder(k - 1), Interleave(pieces, k, n);
    assert Prefix(pieces, k) == before + piece + mark;
    assert Interleave(pieces, k - 1, n) == piece + mark + rest;
    assert (before + piece + mark) + rest == before + (piece + mark + rest);
  }

  lemma {:induction false} PrefixThenRest(pieces: seq<string>, k: nat, n: nat)
    requires k <= n
    ensures Prefix(pieces, k) + Interleave(pieces, k, n) == Interleave(pieces, 0, n)
    decreases k
  {
    if k > 0 {
      PrefixStep(pieces, k, n);
      PrefixThenRest(pieces, k - 1, n);
    } else {
      assert Prefix(pieces, 0) == "";
    }
  }

  /** `sqlTmpl(pieces, ...substitutions)`: the query is the pieces joined by
      the consecutive placeholders `$1 .. $n`, and the values are the
      substitutions, in order. The query is a function of the pieces and of
      the NUMBER of substitutions only: no substituted value reaches it. */
  method SqlTmpl(pieces: seq<string>, substitutions: seq<Value>) returns (query: string, values: seq<Value>)
    ensures query == Interleave(pieces, 0, |substitutions|)
    ensures values == substitutions
  {
    var result := "";
    var vals: seq<Value> := [];
    var i := 0;
    while i < |substitutions|
      invariant 0 <= i <= |substitutions|
      invariant result == Prefix(pieces, i)
      invariant vals == substitutions[..i]
    {
      result := result + Piece(pieces, i) + "$" + DecimalString(i + 1);
      vals := vals + [substitutions[i]];
      i := i + 1;
    }
    result := result + Piece(pieces, |substitutions|);
    PrefixThenRest(pieces, |substitutions|, |substitutions|);
    query, values := result, vals;
  }

  // Reading the placeholders back out of a bound query.

  /** The longest prefix of s made of decimal digits. */
  function DigitRun(s: string): (d: string)
    ensures |d| <= |s| && d == s[..|d|]
    ensures forall i :: 0 <= i < |d| ==> IsDigit(d[i])
  {
    if s != [] && IsDigit(s[0]) then [s[0]] + DigitRun(s[1..]) else []
  }

  /** The numbers of every `$` followed by a run of digits in a text, read
      left to right. The SQL lexical context (quoted literals, identifiers,
      comments) is not taken into account. */
  function Placeholders(s: string): seq<nat>
    decreases |s|
  {
    if s == [] then []
    else if s[0] == '$' then
      var d := DigitRun(s[1..]);
      [ParseDecimal(d)] + Placeholders(s[1 + |d|..])
    else Placeholders(s[1..])
  }

  predicate NoDollar(s: string)
  {
    forall i :: 0 <= i < |s| ==> s[i] != '$'
  }

  /** The numbers i+1, ..., n-1+1 = n. */
  function Numbers(i: nat, n: nat): seq<nat>
    requires i <= n
    decreases n - i
  {
    if i == n then [] else [i + 1] + Numbers(i + 1, n)
  }

  /** A piece that could glue a digit onto the placeholder before it. */
  predicate StartsWithDigit(s: string)
  {
    s != [] && IsDigit(s[0])
  }

  lemma {:induction false} SkipPlainText(p: string, t: string)
    requires NoDollar(p)
    ensures Placeholders(p + t) == Placeholders(t)
    decreases |p|
  {
    if p != [] {
      assert p[0] != '$';
      assert (p + t)[0] == p[0];
      assert (p + t)[1..] == p[1..] + t;
      SkipPlainText(p[1..], t);
    } else {
      assert p + t == t;
    }
  }

  lemma {:induction false} DigitRunStops(d: string, t: string)
    requires forall i :: 0 <= i < |d| ==> IsDigit(d[i])
    requires !StartsWithDigit(t)
    ensures DigitRun(d + t) == d
    decreases |d|
  {
    if d == [] {
      assert d + t == t;
    } else {
      assert (d + t)[1..] == d[1..] + t;
      DigitRunStops(d[1..], t);
    }
  }

  lemma {:induction false} ReadPlaceholder(k: nat, t: string)
    requires !StartsWithDigit(t)
    ensures Placeholders(Placeholder(k) + t) == [k + 1] + Placeholders(t)
  {
    var d := DecimalString(k + 1);
    var s := Placeholder(k) + t;
    DecimalRoundTrip(k + 1);
    assert s[0] == '$';
    assert s[1..] == d + t;
    DigitRunStops(d, t);
    assert s[1 + |d|..] == t;
  }

  lemma {:induction false} InterleaveStart(pieces: seq<string>, i: nat, n: nat)
    requires i <= n
    requires !StartsWithDigit(Piece(pieces, i))
    ensures !StartsWithDigit(Interleave(pieces, i, n))
  {
    if i < n {
      var rest := Placeholder(i) + Interleave(pieces, i + 1, n);
      assert Interleave(pieces, i, n) == Piece(pieces, i) + rest;
      if Piece(pieces, i) == [] {
        assert Interleave(pieces, i, n) == rest;
      } else {
        assert Interleave(pieces, i, n)[0] == Piece(pieces, i)[0];
      }
    }
  }

  lemma {:induction false} PlaceholdersOfInterleave(pieces: seq<string>, i: nat, n: nat)
    requires i <= n
    requires forall j :: i <= j <= n ==> NoDollar(Piece(pieces, j))
    requires forall j :: i < j <= n ==> !StartsWithDigit(Piece(pieces, j))
    ensures Placeholders(Interleave(pieces, i, n)) == Numbers(i, n)
    decreases n - i
  {
    if i == n {
      SkipPlainText(Piece(pieces, n), []);
      assert Piece(pieces, n) + [] == Piece(pieces, n);
    } else {
      var rest := Interleave(pieces, i + 1, n);
      PlaceholdersOfInterleave(pieces, i + 1, n);
      InterleaveStart(pieces, i + 1, n);
      ReadPlaceholder(i, rest);
      assert Interleave(pieces, i, n) == Piece(pieces, i) + (Placeholder(i) + rest);
      SkipPlainText(Piece(pieces, i), Placeholder(i) + rest);
    }
  }

  /** When the pieces carry no `$` of their own and no piece after a
      placeholder begins with a digit, the bound query holds exactly the
      placeholders `$1, ..., $n`, in this order. */
  lemma BoundPlaceholdersAreConsecutive(pieces: seq<string>, n: nat)
    requires forall j :: 0 <= j <= n ==> NoDollar(Piece(pieces, j))
    requires forall j :: 0 < j <= n ==> !StartsWithDigit(Piece(pieces, j))
    ensures Placeholders(Interleave(pieces, 0, n)) == Numbers(0, n)
    ensures |Numbers(0, n)| == n
    ensures forall k :: 0 <= k < n ==> Numbers(0, n)[k] == k + 1
  {
    PlaceholdersOfInterleave(pieces, 0, n);
    NumbersAt(0, n);
  }

  lemma {:induction false} NumbersAt(i: nat, n: nat)
    requires i <= n
    ensures |Numbers(i, n)| == n - i
    ensures forall k :: 0 <= k < n - i ==> Numbers(i, n)[k] == i + k + 1
    decreases n - i
  {
    if i < n {
      NumbersAt(i + 1, n);
    }
  }

  /** A piece that starts with a digit merges with the placeholder before
      it: `sqlTmpl` of the pieces `"a=", "0"` around one value reads as
      parameter 10. */
  lemma DigitAfterPlaceholderMerges()
    ensures Interleave(["a=", "0"], 0, 1) == "a=$10"
    ensures Placeholders(Interleave(["a=", "0"], 0, 1)) == [10]
  {
    assert Interleave(["a=", "0"], 0, 1) == "a=" + "$1" + "0";
    var s := "a=$10";
    assert s[1..] == "=$10";
    assert s[2..] == "$10";
    assert DigitRun("10") == "10" by {
      assert "10"[1..] == "0";
      assert "0"[1..] == [];
    }
    assert ParseDecimal("10") == 10 by {
      assert "10"[..1] == "1";
      assert "1"[..0] == [];
    }
    assert s[2..][1..] == "10";
    assert s[2..][3..] == [];
  }

  /** A tagged template with two values has three pieces (the last one may
      be empty) and binds as expected; called directly with only two pieces,
      the missing last piece is JavaScript's `undefined` and ends up in the
      text. */
  lemma BindExample()
    ensures Interleave(["SELECT * FROM t WHERE a=", " AND b=", ""], 0, 2)
         == "SELECT * FROM t WHERE a=$1 AND b=$2"
    ensures Interleave(["SELECT * FROM t WHERE a=", " AND b="], 0, 2)
         == "SELECT * FROM t WHERE a=$1 AND b=$2undefined"
  {
    var tagged := ["SELECT * FROM t WHERE a=", " AND b=", ""];
    var short := ["SELECT * FROM t WHERE a=", " AND b="];
    assert Placeholder(0) == "$1" && Placeholder(1) == "$2";
    assert Interleave(tagged, 0, 2) == tagged[0] + "$1" + (tagged[1] + "$2" + "");
    assert Interleave(short, 0, 2) == short[0] + "$1" + (short[1] + "$2" + "undefined");
  }
}
