/**
 * The JavaScript string built-ins the core relies on: `trim`, `toLowerCase`,
 * `String(n)` on an integer and `padStart`. Strings are sequences of Unicode
 * scalar values here, not of UTF-16 code units.
 */
module Text {

  /** The characters ECMAScript `trim` strips: WhiteSpace and LineTerminator. */
  predicate IsWhitespace(c: char) {
    var u := c as int;
    || 0x09 <= u <= 0x0D || u == 0x20 || u == 0xA0 || u == 0x1680
    || 0x2000 <= u <= 0x200A || u == 0x2028 || u == 0x2029 || u == 0x202F
    || u == 0x205F || u == 0x3000 || u == 0xFEFF
  }

  predicate AllWhitespace(s: string) {
    forall i :: 0 <= i < |s| ==> IsWhitespace(s[i])
  }

  /** Neither end of `s` is whitespace: `s` is its own `trim`. */
  predicate IsTrimmed(s: string) {
    s == [] || (!IsWhitespace(s[0]) && !IsWhitespace(s[|s| - 1]))
  }

  /** `s` without its leading whitespace: a suffix of `s` after nothing but whitespace. */
  function TrimStart(s: string): (r: string)
    ensures |r| <= |s| && r == s[|s| - |r|..]
    ensures r == [] || !IsWhitespace(r[0])
    ensures forall i :: 0 <= i < |s| - |r| ==> IsWhitespace(s[i])
  {
    if s != [] && IsWhitespace(s[0]) then
      var r := TrimStart(s[1..]);
      DropOneMore(s, r);
      r
    else s
  }

  /** The step of `TrimStart`: one more whitespace character in front. */
  lemma DropOneMore(s: string, r: string)
    requires s != [] && IsWhitespace(s[0])
    requires |r| <= |s| - 1 && r == s[1..][|s| - 1 - |r|..]
    requires forall i :: 0 <= i < |s| - 1 - |r| ==> IsWhitespace(s[1..][i])
    ensures r == s[|s| - |r|..]
    ensures forall i :: 0 <= i < |s| - |r| ==> IsWhitespace(s[i])
  {
    assert forall i :: 1 <= i < |s| ==> s[i] == s[1..][i - 1];
  }

  /** `s` without its trailing whitespace: a prefix of `s` followed by nothing but whitespace. */
  function TrimEnd(s: string): (r: string)
    ensures |r| <= |s| && r == s[..|r|]
    ensures r == [] || !IsWhitespace(r[|r| - 1])
    ensures forall i :: |r| <= i < |s| ==> IsWhitespace(s[i])
  {
    if s != [] && IsWhitespace(s[|s| - 1]) then
      var r := TrimEnd(s[..|s| - 1]);
      TakeOneLess(s, s[..|s| - 1], r);
      r
    else s
  }

  /** The step of `TrimEnd`: one more whitespace character behind. */
  lemma TakeOneLess(s: string, t: string, r: string)
    requires s != [] && IsWhitespace(s[|s| - 1]) && t == s[..|s| - 1]
    requires |r| <= |t| && r == t[..|r|]
    requires forall i :: |r| <= i < |t| ==> IsWhitespace(t[i])
    ensures r == s[..|r|]
    ensures forall i :: |r| <= i < |s| ==> IsWhitespace(s[i])
  {
    assert forall i :: 0 <= i < |t| ==> s[i] == t[i];
  }

  /** String.prototype.trim. */
  function Trim(s: string): (r: string)
    ensures IsTrimmed(r)
    ensures r == [] <==> AllWhitespace(s)
  {
    var t := TrimStart(s);
    var r := TrimEnd(t);
    TrimBlank(s, t, r);
    r
  }

  lemma TrimBlank(s: string, t: string, r: string)
    requires t == TrimStart(s) && r == TrimEnd(t)
    ensures IsTrimmed(r)
    ensures r == [] <==> AllWhitespace(s)
  {
    if r != [] {
      assert r[0] == t[0];
    } else {
      assert s[..|s| - |t|] == s;
    }
  }

  /** Where the leading whitespace of `s` ends. */
  function TrimOffset(s: string): (i: nat)
    ensures i <= |s| && TrimStart(s) == s[i..]
  {
    |s| - |TrimStart(s)|
  }

  /** What `trim` keeps is the slice of `s` that starts where the leading whitespace ends. */
  lemma TrimSlice(s: string)
    ensures TrimOffset(s) + |Trim(s)| <= |s|
    ensures Trim(s) == s[TrimOffset(s)..TrimOffset(s) + |Trim(s)|]
  {
    var t := TrimStart(s);
    var r := TrimEnd(t);
    var i := TrimOffset(s);
    assert i == |s| - |t| && Trim(s) == r;
    SliceOfSuffix(s, t, r);
  }

  /** Everything `trim` cuts from either end of `s` is whitespace. */
  lemma TrimCutsWhitespace(s: string)
    ensures TrimOffset(s) + |Trim(s)| <= |s|
    ensures forall i :: 0 <= i < TrimOffset(s) ==> IsWhitespace(s[i])
    ensures forall i :: TrimOffset(s) + |Trim(s)| <= i < |s| ==> IsWhitespace(s[i])
  {
    var t := TrimStart(s);
    var r := TrimEnd(t);
    assert Trim(s) == r;
    WhitespaceAfter(s, t, r);
  }

  lemma SliceOfSuffix<T>(s: seq<T>, t: seq<T>, r: seq<T>)
    requires |t| <= |s| && t == s[|s| - |t|..]
    requires |r| <= |t| && r == t[..|r|]
    ensures r == s[|s| - |t|..|s| - |t| + |r|]
  {
  }

  lemma WhitespaceAfter(s: string, t: string, r: string)
    requires |t| <= |s| && t == s[|s| - |t|..]
    requires |r| <= |t| && forall i :: |r| <= i < |t| ==> IsWhitespace(t[i])
    ensures forall i :: |s| - |t| + |r| <= i < |s| ==> IsWhitespace(s[i])
  {
    var k := |s| - |t|;
    assert forall i :: k <= i < |s| ==> s[i] == t[i - k];
  }

  /** `trim` leaves a string without surrounding whitespace as it is, and only such strings. */
  lemma TrimFixedPoint(s: string)
    ensures Trim(s) == s <==> IsTrimmed(s)
  {
    if IsTrimmed(s) && s != [] {
      assert TrimStart(s) == s;
      assert TrimEnd(s) == s;
    }
  }

  /** `trim` is idempotent. */
  lemma TrimIdempotent(s: string)
    ensures Trim(Trim(s)) == Trim(s)
  {
    TrimFixedPoint(Trim(s));
  }

  /** The truthiness test `!s.trim()`: nothing but whitespace. */
  predicate IsBlank(s: string) {
    Trim(s) == []
  }

  /** An ASCII upper-case letter. */
  predicate IsUpper(c: char) {
    'A' <= c <= 'Z'
  }

  function LowerChar(c: char): (d: char)
    ensures !IsUpper(d)
    ensures !IsUpper(c) ==> d == c
    ensures IsUpper(c) ==> d as int == c as int + 32
  {
    if IsUpper(c) then (c as int + 32) as char else c
  }

  predicate IsLower(s: string) {
    forall i :: 0 <= i < |s| ==> !IsUpper(s[i])
  }

  /** String.prototype.toLowerCase on the ASCII letters. */
  function LowerCase(s: string): (r: string)
    ensures |r| == |s|
    ensures IsLower(r)
    ensures forall i :: 0 <= i < |s| ==>
      && (IsUpper(s[i]) ==> r[i] as int == s[i] as int + 32)
      && (!IsUpper(s[i]) ==> r[i] == s[i])
  {
    seq(|s|, i requires 0 <= i < |s| => LowerChar(s[i]))
  }

  /** Lower-casing changes exactly the strings that hold an upper-case letter. */
  lemma LowerCaseFixedPoint(s: string)
    ensures LowerCase(s) == s <==> IsLower(s)
  {
    if IsLower(s) {
      assert forall i :: 0 <= i < |s| ==> LowerCase(s)[i] == s[i];
    }
  }

  /** String.prototype.padStart(width, fill) with a one-character fill. */
  function PadStart(s: string, width: nat, fill: char): (r: string)
    ensures |r| == if |s| >= width then |s| else width
    decreases width - |s|
  {
    if |s| >= width then s else PadStart([fill] + s, width, fill)
  }

  /** The padded string is `s` behind nothing but fill characters. */
  lemma {:induction false} PadStartShape(s: string, width: nat, fill: char)
    ensures var r := PadStart(s, width, fill);
      && r[|r| - |s|..] == s
      && forall i :: 0 <= i < |r| - |s| ==> r[i] == fill
    decreases width - |s|
  {
    if |s| < width {
      var t := [fill] + s;
      PadStartShape(t, width, fill);
      var r := PadStart(s, width, fill);
      assert r[|r| - |t|..] == t;
      assert r[|r| - |s|..] == t[1..];
    }
  }

  predicate IsDigit(c: char) {
    '0' <= c <= '9'
  }

  predicate IsDigits(s: string) {
    forall i :: 0 <= i < |s| ==> IsDigit(s[i])
  }

  function DigitChar(d: nat): (c: char)
    requires d < 10
    ensures IsDigit(c)
  {
    ('0' as int + d) as char
  }

  function DigitValue(c: char): (d: nat)
    requires IsDigit(c)
    ensures d < 10
  {
    c as int - '0' as int
  }

  /** The decimal numeral of `n` (JavaScript `String(n)` for a non-negative integer). */
  function DecimalString(n: nat): (r: string)
    ensures r != [] && IsDigits(r)
    ensures r[0] == '0' ==> n == 0
    ensures |r| == 1 <==> n < 10
  {
    if n < 10 then [DigitChar(n)] else DecimalString(n / 10) + [DigitChar(n % 10)]
  }

  /** `String(n)` for any integer. */
  function IntString(n: int): (r: string)
    ensures r != []
    ensures n >= 0 ==> IsDigits(r)
    ensures n < 0 ==> r[0] == '-'
    ensures n >= 0 && r[0] == '0' ==> n == 0
    ensures n < 0 ==> |r| >= 2 && r[1] != '0'
  {
    if n < 0 then "-" + DecimalString(-n) else DecimalString(n)
  }

  /** `String(n)` reads back as `n`: its digits, after the sign when `n` is negative. */
  lemma IntStringValue(n: int)
    ensures n >= 0 ==> IsDigits(IntString(n)) && ParseDecimal(IntString(n)) == n
    ensures n < 0 ==> var r := IntString(n);
      r[0] == '-' && IsDigits(r[1..]) && ParseDecimal(r[1..]) == -n
  {
    if n < 0 {
      ParseDecimalString(-n);
      assert IntString(n)[1..] == DecimalString(-n);
    } else {
      ParseDecimalString(n);
    }
  }

  /** The value of a string of decimal digits. */
  function ParseDecimal(s: string): nat
    requires IsDigits(s)
  {
    if s == [] then 0 else 10 * ParseDecimal(s[..|s| - 1]) + DigitValue(s[|s| - 1])
  }

  /** Reading the numeral back gives the number: `DecimalString` loses nothing. */
  lemma {:induction false} ParseDecimalString(n: nat)
    ensures ParseDecimal(DecimalString(n)) == n
  {
    var r := DecimalString(n);
    if n >= 10 {
      ParseDecimalString(n / 10);
      assert r[..|r| - 1] == DecimalString(n / 10);
    }
  }

  /** A leading zero does not change the value of a numeral. */
  lemma {:induction false} ParseLeadingZero(s: string)
    requires IsDigits(s)
    ensures IsDigits("0" + s) && ParseDecimal("0" + s) == ParseDecimal(s)
  {
    if s != [] {
      ParseLeadingZero(s[..|s| - 1]);
      assert ("0" + s)[..|s|] == "0" + s[..|s| - 1];
    }
  }

  /** Numbers from 1000 to 9999 have four-digit numerals. */
  lemma FourDigits(n: nat)
    requires 1000 <= n <= 9999
    ensures |DecimalString(n)| == 4
  {
    var a := n / 10;
    assert 100 <= a <= 999;
    TwoDigits(a / 10);
    assert |DecimalString(a)| == 3;
  }

  /** Numbers from 10 to 99 have two-digit numerals. */
  lemma TwoDigits(n: nat)
    requires 10 <= n <= 99
    ensures |DecimalString(n)| == 2
  {
    assert |DecimalString(n / 10)| == 1;
  }
}
