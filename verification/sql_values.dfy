/** SQLite values as the `lotes` table stores them: how node-sqlite3 binds a JavaScript
    parameter, how a column's declared type (its affinity) converts the bound value, and
    the order `ORDER BY` uses to compare two values. */
module SqlValues {
  import opened Optional
  import opened Decimal
  import opened JsValues

  datatype SqlValue = SqlNull | SqlInteger(i: int) | SqlText(t: string)

  /** node-sqlite3 parameter binding: `undefined` and `null` become NULL, booleans become
      the integers 1 and 0, numbers stay numbers and strings stay text. */
  function Bind(v: JsValue): (r: SqlValue)
    ensures r.SqlNull? <==> v.Undefined? || v.Null?
    ensures v.Str? ==> r == SqlText(v.s)
    ensures v.Num? ==> r == SqlInteger(v.n)
  {
    match v
    case Undefined => SqlNull
    case Null => SqlNull
    case Bool(b) => SqlInteger(if b then 1 else 0)
    case Num(n) => SqlInteger(n)
    case Str(s) => SqlText(s)
  }

  /** A column declared TEXT stores an integer as its decimal text. */
  function TextAffinity(v: SqlValue): (r: SqlValue)
    ensures r.SqlNull? <==> v.SqlNull?
    ensures !r.SqlInteger?
    ensures v.SqlInteger? ==> r == SqlText(IntToDecimal(v.i))
    ensures v.SqlText? ==> r == v
  {
    match v
    case SqlInteger(n) => SqlText(IntToDecimal(n))
    case _ => v
  }

  /** A well-formed integer literal: an optional sign followed by at least one digit. */
  function ParseIntegerText(s: string): Option<int> {
    if |s| >= 2 && s[0] == '-' && AllDigits(s[1..]) then Some(-(DigitsValue(s[1..]) as int))
    else if |s| >= 2 && s[0] == '+' && AllDigits(s[1..]) then Some(DigitsValue(s[1..]))
    else if |s| >= 1 && AllDigits(s) then Some(DigitsValue(s))
    else None
  }

  /** A column declared INTEGER stores text that reads as an integer literal as that integer. */
  function IntegerAffinity(v: SqlValue): (r: SqlValue)
    ensures r.SqlNull? <==> v.SqlNull?
    ensures v.SqlInteger? ==> r == v
    ensures v.SqlText? && ParseIntegerText(v.t).Some? ==> r == SqlInteger(ParseIntegerText(v.t).value)
    ensures v.SqlText? && ParseIntegerText(v.t).None? ==> r == v
    ensures IntegerSettled(r)
  {
    match v
    case SqlText(s) => (match ParseIntegerText(s) case Some(n) => SqlInteger(n) case None => v)
    case _ => v
  }

  /** What a column declared TEXT ends up holding for a bound JSON value, kind by kind: NULL
      for an absent or null value, the decimal text of a number (1 and 0 for booleans), and
      a string as itself. */
  predicate TextColumnStores(v: JsValue, r: SqlValue) {
    match v
    case Undefined => r == SqlNull
    case Null => r == SqlNull
    case Bool(b) => r == SqlText(if b then "1" else "0")
    case Num(n) => r == SqlText(IntToDecimal(n))
    case Str(s) => r == SqlText(s)
  }

  /** What a column declared INTEGER ends up holding for a bound JSON value: NULL for an
      absent or null value, the number itself (1 and 0 for booleans), and a string as the
      integer it spells when it is an integer literal, otherwise as text. */
  predicate IntegerColumnStores(v: JsValue, r: SqlValue) {
    match v
    case Undefined => r == SqlNull
    case Null => r == SqlNull
    case Bool(b) => r == SqlInteger(if b then 1 else 0)
    case Num(n) => r == SqlInteger(n)
    case Str(s) =>
      if ParseIntegerText(s).Some? then r == SqlInteger(ParseIntegerText(s).value)
      else r == SqlText(s)
  }

  /** An INTEGER column never holds text that spells an integer: affinity converts it. */
  predicate IntegerSettled(v: SqlValue) {
    !(v.SqlText? && ParseIntegerText(v.t).Some?)
  }

  /** The text SQLite writes for an integer reads back as that integer, so a TEXT column and
      an INTEGER column agree on every integer. */
  lemma IntegerTextRoundTrip(n: int)
    ensures ParseIntegerText(IntToDecimal(n)) == Some(n)
  {
    if n < 0 {
      var s := IntToDecimal(n);
      assert s[1..] == NatToDecimal(-n);
      NegativeTextRoundTrip(s, -n);
    } else {
      NatToDecimalRoundTrip(n);
    }
  }

  lemma NegativeTextRoundTrip(s: string, m: nat)
    requires |s| >= 2 && s[0] == '-' && s[1..] == NatToDecimal(m)
    ensures ParseIntegerText(s) == Some(-(m as int))
  {
    NatToDecimalRoundTrip(m);
  }

  /** Storing an integer in a TEXT column and reading it through an INTEGER column gives
      the integer back. */
  lemma AffinityRoundTrip(n: int)
    ensures IntegerAffinity(TextAffinity(SqlInteger(n))) == SqlInteger(n)
  {
    IntegerTextRoundTrip(n);
  }

  // ---------------------------------------------------------------------------------------
  // Ordering. SQLite sorts NULL before numbers and numbers before text; text compares with
  // the BINARY collation, byte by byte over UTF-8, which for Unicode scalar values is the
  // lexicographic order of code points, a proper prefix coming first.

  /** Lexicographic `a <= b` on strings. */
  predicate StrLeq(a: string, b: string)
    decreases |a|
  {
    a == [] || (b != [] && (a[0] < b[0] || (a[0] == b[0] && StrLeq(a[1..], b[1..]))))
  }

  function Rank(v: SqlValue): nat {
    match v
    case SqlNull => 0
    case SqlInteger(_) => 1
    case SqlText(_) => 2
  }

  /** `a <= b` in the order `ORDER BY` uses. */
  predicate SqlLeq(a: SqlValue, b: SqlValue)
    ensures a.SqlNull? ==> SqlLeq(a, b)
    ensures b.SqlNull? && SqlLeq(a, b) ==> a.SqlNull?
    ensures a.SqlInteger? && b.SqlText? ==> SqlLeq(a, b)
    ensures a.SqlText? && !b.SqlText? ==> !SqlLeq(a, b)
    ensures a.SqlInteger? && b.SqlInteger? ==> (SqlLeq(a, b) <==> a.i <= b.i)
  {
    if Rank(a) != Rank(b) then Rank(a) < Rank(b)
    else match (a, b)
      case (SqlInteger(x), SqlInteger(y)) => x <= y
      case (SqlText(x), SqlText(y)) => StrLeq(x, y)
      case _ => true
  }

  lemma {:induction false} StrLeqTotal(a: string, b: string)
    ensures StrLeq(a, b) || StrLeq(b, a)
    decreases |a|
  {
    if a != [] && b != [] && a[0] == b[0] {
      StrLeqTotal(a[1..], b[1..]);
    }
  }

  lemma {:induction false} StrLeqTransitive(a: string, b: string, c: string)
    requires StrLeq(a, b) && StrLeq(b, c)
    ensures StrLeq(a, c)
    decreases |a|
  {
    if a != [] && a[0] == b[0] && b[0] == c[0] {
      StrLeqTransitive(a[1..], b[1..], c[1..]);
    }
  }

  lemma {:induction false} StrLeqAntisymmetric(a: string, b: string)
    requires StrLeq(a, b) && StrLeq(b, a)
    ensures a == b
    decreases |a|
  {
    if a != [] {
      StrLeqAntisymmetric(a[1..], b[1..]);
      assert a == [a[0]] + a[1..] && b == [b[0]] + b[1..];
    }
  }

  /** `ORDER BY` compares any two values. */
  lemma SqlLeqTotal(a: SqlValue, b: SqlValue)
    ensures SqlLeq(a, b) || SqlLeq(b, a)
  {
    if a.SqlText? && b.SqlText? {
      StrLeqTotal(a.t, b.t);
    }
  }

  lemma SqlLeqTransitive(a: SqlValue, b: SqlValue, c: SqlValue)
    requires SqlLeq(a, b) && SqlLeq(b, c)
    ensures SqlLeq(a, c)
  {
    if a.SqlText? && b.SqlText? && c.SqlText? {
      StrLeqTransitive(a.t, b.t, c.t);
    }
  }

  /** Two values that sort in both directions are equal, so ties in `ORDER BY` are ties
      between equal keys. */
  lemma SqlLeqAntisymmetric(a: SqlValue, b: SqlValue)
    requires SqlLeq(a, b) && SqlLeq(b, a)
    ensures a == b
  {
    if a.SqlText? && b.SqlText? {
      StrLeqAntisymmetric(a.t, b.t);
    }
  }

}
