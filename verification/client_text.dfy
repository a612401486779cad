/** The JavaScript string operations the client applies to form input: `trim`,
    `toUpperCase`/`toLowerCase` (over ASCII letters), and `parseInt(s, 10)`. */
module ClientText {
  import opened Optional
  import opened Decimal

  /** ECMAScript WhiteSpace and LineTerminator code points, the set `trim` and `parseInt`
      skip: TAB, LF, VT, FF, CR, SPACE, NBSP, the Zs space separators, LS, PS and BOM. */
  predicate IsJsWhiteSpace(c: char) {
    var n := c as int;
    || (0x09 <= n <= 0x0D)
    || n == 0x20 || n == 0xA0 || n == 0x1680
    || (0x2000 <= n <= 0x200A)
    || n == 0x2028 || n == 0x2029 || n == 0x202F || n == 0x205F
    || n == 0x3000 || n == 0xFEFF
  }

  predicate AllWhiteSpace(s: string) {
    forall i :: 0 <= i < |s| ==> IsJsWhiteSpace(s[i])
  }

  /** `s` with its leading white space removed. */
  function TrimStart(s: string): (r: string)
    ensures |r| <= |s| && r == s[|s| - |r|..]
    ensures forall k :: 0 <= k < |s| - |r| ==> IsJsWhiteSpace(s[k])
    ensures r == [] || !IsJsWhiteSpace(r[0])
    decreases |s|
  {
    if s != [] && IsJsWhiteSpace(s[0]) then
      var r := TrimStart(s[1..]);
      assert s[1..][|s| - 1 - |r|..] == s[|s| - |r|..];
      assert forall k :: 1 <= k < |s| - |r| ==> s[k] == s[1..][k - 1];
      r
    else s
  }

  /** `s` with its trailing white space removed. */
  function TrimEnd(s: string): (r: string)
    ensures |r| <= |s| && r == s[..|r|]
    ensures forall k :: |r| <= k < |s| ==> IsJsWhiteSpace(s[k])
    ensures r == [] || !IsJsWhiteSpace(r[|r| - 1])
    decreases |s|
  {
    if s != [] && IsJsWhiteSpace(s[|s| - 1]) then
      var r := TrimEnd(s[..|s| - 1]);
      assert s[..|s| - 1][..|r|] == s[..|r|];
      assert forall k :: |r| <= k < |s| - 1 ==> s[k] == s[..|s| - 1][k];
      r
    else s
  }

  /** Removing the white space around `s` leaves `s[lo..hi]`: everything outside it is
      white space, and its first and last characters are not. */
  ghost predicate TrimsTo(s: string, lo: int, hi: int) {
    && 0 <= lo <= hi <= |s|
    && (forall k :: 0 <= k < lo ==> IsJsWhiteSpace(s[k]))
    && (forall k :: hi <= k < |s| ==> IsJsWhiteSpace(s[k]))
    && (lo < hi ==> !IsJsWhiteSpace(s[lo]) && !IsJsWhiteSpace(s[hi - 1]))
  }

  /** `r` is `s` without its leading and trailing white space. */
  ghost predicate IsTrimOf(r: string, s: string) {
    exists lo, hi :: TrimsTo(s, lo, hi) && r == s[lo..hi]
  }

  /** `s.trim()`: the part of `s` between its leading and its trailing white space. */
  function Trim(s: string): (r: string)
    ensures IsTrimOf(r, s)
  {
    var a := TrimStart(s);
    var r := TrimEnd(a);
    TrimBounds(s, |s| - |a|, a, r);
    r
  }

  /** Trimming the end of what remains after trimming the start of `s` at `lo` trims `s`. */
  lemma TrimBounds(s: string, lo: int, a: string, r: string)
    requires 0 <= lo <= |s| && a == s[lo..]
    requires forall k :: 0 <= k < lo ==> IsJsWhiteSpace(s[k])
    requires a == [] || !IsJsWhiteSpace(a[0])
    requires |r| <= |a| && r == a[..|r|]
    requires forall k :: |r| <= k < |a| ==> IsJsWhiteSpace(a[k])
    requires r == [] || !IsJsWhiteSpace(r[|r| - 1])
    ensures TrimsTo(s, lo, lo + |r|)
    ensures r == s[lo..lo + |r|]
  {
    var hi := lo + |r|;
    forall k | hi <= k < |s|
      ensures IsJsWhiteSpace(s[k])
    {
      assert s[k] == a[k - lo];
    }
    if r != [] {
      assert s[lo] == a[0] == r[0];
      assert s[hi - 1] == a[|r| - 1] == r[|r| - 1];
    }
  }

  /** The bounds of a trimming are determined by `s`, except that an all-white-space `s`
      trims to the empty string at any position. */
  lemma TrimsToUnique(s: string, lo: int, hi: int, lo': int, hi': int)
    requires TrimsTo(s, lo, hi) && TrimsTo(s, lo', hi')
    ensures s[lo..hi] == s[lo'..hi']
  {
    if lo < hi && lo' < hi' {
      assert lo == lo' && hi == hi';
    }
  }

  /** Only one string is `s` trimmed, so `Trim` is the trimming `IsTrimOf` describes. */
  lemma TrimUnique(r: string, s: string)
    requires IsTrimOf(r, s)
    ensures r == Trim(s)
  {
    var lo, hi :| TrimsTo(s, lo, hi) && r == s[lo..hi];
    var lo', hi' :| TrimsTo(s, lo', hi') && Trim(s) == s[lo'..hi'];
    TrimsToUnique(s, lo, hi, lo', hi');
  }

  /** Trimming twice is trimming once. */
  lemma TrimIdempotent(s: string)
    ensures Trim(Trim(s)) == Trim(s)
  {
    var r := Trim(s);
    assert TrimStart(r) == r;
    assert TrimEnd(r) == r;
  }

  /** A string is empty after trimming exactly when it is all white space. */
  lemma TrimEmptyIffWhiteSpace(s: string)
    ensures Trim(s) == [] <==> AllWhiteSpace(s)
  {
    assert IsTrimOf(Trim(s), s);
    var lo, hi :| TrimsTo(s, lo, hi) && Trim(s) == s[lo..hi];
  }

  // ---------------------------------------------------------------------------------------
  // Case mapping, over ASCII letters only.

  function UpperChar(c: char): char {
    if 'a' <= c <= 'z' then (c as int - 32) as char else c
  }

  function LowerChar(c: char): char {
    if 'A' <= c <= 'Z' then (c as int + 32) as char else c
  }

  /** `s.toUpperCase()` */
  function ToUpper(s: string): (r: string)
    ensures |r| == |s|
    ensures forall i :: 0 <= i < |s| ==> r[i] == UpperChar(s[i])
  {
    seq(|s|, i requires 0 <= i < |s| => UpperChar(s[i]))
  }

  /** `s.toLowerCase()` */
  function ToLower(s: string): (r: string)
    ensures |r| == |s|
    ensures forall i :: 0 <= i < |s| ==> r[i] == LowerChar(s[i])
  {
    seq(|s|, i requires 0 <= i < |s| => LowerChar(s[i]))
  }

  /** `a` and `b` are the same text up to the case of ASCII letters. */
  predicate SameIgnoringCase(a: string, b: string) {
    |a| == |b| && forall i :: 0 <= i < |a| ==> LowerChar(a[i]) == LowerChar(b[i])
  }

  /** Lower-casing after upper-casing is plain lower-casing. */
  lemma LowerOfUpper(s: string)
    ensures ToLower(ToUpper(s)) == ToLower(s)
  {
  }

  /** Upper-casing keeps the text up to case and leaves no lower-case ASCII letter. */
  lemma ToUpperMeaning(s: string)
    ensures SameIgnoringCase(ToUpper(s), s)
    ensures forall i :: 0 <= i < |s| ==> !('a' <= ToUpper(s)[i] <= 'z')
  {
  }

  // ---------------------------------------------------------------------------------------
  // parseInt(s, 10)

  /** The longest prefix of `s` made of decimal digits. */
  function DigitPrefix(s: string): (p: string)
    ensures |p| <= |s| && p == s[..|p|] && AllDigits(p)
    ensures |p| < |s| ==> !IsDigit(s[|p|])
    decreases |s|
  {
    if s != [] && IsDigit(s[0]) then [s[0]] + DigitPrefix(s[1..]) else []
  }

  /** The number a sign-and-digits text starts with; `None` when no digit follows the
      optional sign. */
  function ParseSigned(u: string): (r: Option<int>)
    ensures r.Some? ==> u != [] && (r.value < 0 ==> u[0] == '-')
    ensures u != [] && IsDigit(u[0]) ==> r == Some(DigitsValue(DigitPrefix(u)))
    ensures u != [] && !IsDigit(u[0]) && u[0] != '-' && u[0] != '+' ==> r == None
    ensures u != [] && (u[0] == '-' || u[0] == '+') && DigitPrefix(u[1..]) == [] ==> r == None
    ensures u != [] && u[0] == '-' && DigitPrefix(u[1..]) != [] ==>
      r == Some(-(DigitsValue(DigitPrefix(u[1..])) as int))
    ensures u != [] && u[0] == '+' && DigitPrefix(u[1..]) != [] ==>
      r == Some(DigitsValue(DigitPrefix(u[1..])))
  {
    if u != [] && u[0] == '-' then
      var digits := DigitPrefix(u[1..]);
      if digits == [] then None else Some(-(DigitsValue(digits) as int))
    else
      var digits := DigitPrefix(if u != [] && u[0] == '+' then u[1..] else u);
      if digits == [] then None else Some(DigitsValue(digits))
  }

  /** `parseInt(s, 10)`: skip leading white space, read an optional sign, then as many
      digits as follow; `None` is NaN (no digit at all). */
  function ParseInt(s: string): (r: Option<int>)
    ensures AllWhiteSpace(s) ==> r == None
    ensures var u := TrimStart(s);
      u != [] && IsDigit(u[0]) ==> r == Some(DigitsValue(DigitPrefix(u)))
    ensures var u := TrimStart(s);
      u != [] && !IsDigit(u[0]) && u[0] != '-' && u[0] != '+' ==> r == None
    ensures var u := TrimStart(s);
      u != [] && (u[0] == '-' || u[0] == '+') && DigitPrefix(u[1..]) == [] ==> r == None
    ensures r.Some? && r.value < 0 ==> TrimStart(s)[0] == '-'
    ensures var u := TrimStart(s);
      u != [] && u[0] == '-' && DigitPrefix(u[1..]) != [] ==>
        r == Some(-(DigitsValue(DigitPrefix(u[1..])) as int))
    ensures var u := TrimStart(s);
      u != [] && u[0] == '+' && DigitPrefix(u[1..]) != [] ==>
        r == Some(DigitsValue(DigitPrefix(u[1..])))
  {
    var u := TrimStart(s);
    BlankTrimsToEmpty(s, u);
    ParseSigned(u)
  }

  /** What is left of an all-blank text after its leading white space is gone is empty. */
  lemma BlankTrimsToEmpty(s: string, u: string)
    requires |u| <= |s| && u == s[|s| - |u|..]
    requires u == [] || !IsJsWhiteSpace(u[0])
    ensures AllWhiteSpace(s) ==> u == []
  {
    if u != [] {
      assert u[0] == s[|s| - |u|];
    }
  }

  /** `parseInt` reads back every integer printed in decimal. */
  lemma ParseIntRoundTrip(n: int)
    ensures ParseInt(IntToDecimal(n)) == Some(n)
  {
    if n < 0 {
      ParseIntNegativeRoundTrip(-n);
    } else {
      ParseIntNatRoundTrip(n);
    }
  }

  lemma ParseIntNatRoundTrip(m: nat)
    ensures ParseInt(NatToDecimal(m)) == Some(m)
  {
    NatToDecimalRoundTrip(m);
    ParseIntDigits(NatToDecimal(m));
  }

  lemma ParseIntNegativeRoundTrip(m: nat)
    requires m > 0
    ensures ParseInt("-" + NatToDecimal(m)) == Some(-(m as int))
  {
    var d := NatToDecimal(m);
    NatToDecimalRoundTrip(m);
    assert DigitsValue(d) == m;
    ParseIntNegative(d);
  }

  lemma ParseIntDigits(d: string)
    requires d != [] && AllDigits(d)
    ensures ParseInt(d) == Some(DigitsValue(d))
  {
    TrimStartKeeps(d);
    DigitPrefixOfDigits(d);
    ParseSignedDigits(d, d);
  }

  lemma ParseIntNegative(d: string)
    requires d != [] && AllDigits(d)
    ensures ParseInt("-" + d) == Some(-(DigitsValue(d) as int))
  {
    var s := "-" + d;
    TrimStartKeeps(s);
    DigitPrefixOfDigits(d);
    assert s[1..] == d;
    ParseSignedNegative(s, d);
  }

  lemma TrimStartKeeps(s: string)
    requires s == [] || !IsJsWhiteSpace(s[0])
    ensures TrimStart(s) == s
  {
  }

  lemma ParseSignedNegative(u: string, d: string)
    requires u != [] && u[0] == '-' && DigitPrefix(u[1..]) == d && d != []
    ensures ParseSigned(u) == Some(-(DigitsValue(d) as int))
  {
  }

  lemma ParseSignedDigits(u: string, d: string)
    requires u != [] && IsDigit(u[0]) && DigitPrefix(u) == d && d != []
    ensures ParseSigned(u) == Some(DigitsValue(d))
  {
  }

  lemma {:induction false} DigitPrefixOfDigits(s: string)
    requires AllDigits(s)
    ensures DigitPrefix(s) == s
    decreases |s|
  {
    if s != [] {
      DigitPrefixOfDigits(s[1..]);
    }
  }

  /** `parseInt` stops at the first character that is not a digit: trailing text after a
      number (a decimal part, a unit) does not change the result. */
  lemma {:induction false} ParseIntIgnoresSuffix(n: nat, suffix: string)
    requires suffix == [] || !IsDigit(suffix[0])
    ensures ParseInt(NatToDecimal(n) + suffix) == Some(n)
  {
    var d := NatToDecimal(n);
    var s := d + suffix;
    TrimStartKeeps(s);
    DigitPrefixUpTo(d, suffix);
    NatToDecimalRoundTrip(n);
    ParseSignedDigits(s, d);
  }

  lemma {:induction false} DigitPrefixUpTo(d: string, suffix: string)
    requires AllDigits(d)
    requires suffix == [] || !IsDigit(suffix[0])
    ensures DigitPrefix(d + suffix) == d
    decreases |d|
  {
    if d != [] {
      DigitPrefixUpTo(d[1..], suffix);
      assert (d + suffix)[1..] == d[1..] + suffix;
      assert d == [d[0]] + d[1..];
    }
  }

}
