/**
 * String helpers shared by the model: the case folding, whitespace trimming,
 * substring search and decimal rendering that the JavaScript and Python code
 * get from their standard libraries.
 */
module Text {
  import opened Base

  // ---------------------------------------------------------------------------
  // Case folding

  /**
   * Lower-casing of one character as Python's `str.lower` does it on the
   * characters that can change the outcome of the ASCII comparisons in the
   * worker: `A`-`Z`, and the Kelvin sign, which folds to an ASCII `k`.
   */
  function LowerChar(c: char): (r: char)
    ensures 'A' <= c <= 'Z' ==> r as int == c as int + 32
    ensures c == '\U{212A}' ==> r == 'k'
    ensures !('A' <= c <= 'Z') && c != '\U{212A}' ==> r == c
  {
    if 'A' <= c <= 'Z' then (c as int + 32) as char
    else if c == '\U{212A}' then 'k'
    else c
  }

  /** Character-wise lower-casing; the length never changes. */
  function Lower(s: string): (r: string)
    ensures |r| == |s|
    ensures forall i :: 0 <= i < |s| ==> r[i] == LowerChar(s[i])
  {
    if |s| == 0 then "" else [LowerChar(s[0])] + Lower(s[1..])
  }

  // ---------------------------------------------------------------------------
  // Whitespace

  /** The characters Python's `str.isspace` accepts (and so `str.strip` removes). */
  predicate PyIsSpace(c: char) {
    || c == ' ' || c == '\t' || c == '\n' || c == '\r' || c == '\U{0B}' || c == '\U{0C}'
    || ('\U{1C}' <= c <= '\U{1F}') || c == '\U{85}' || c == '\U{A0}' || c == '\U{1680}'
    || ('\U{2000}' <= c <= '\U{200A}') || c == '\U{2028}' || c == '\U{2029}'
    || c == '\U{202F}' || c == '\U{205F}' || c == '\U{3000}'
  }

  /** The characters JavaScript's `String.prototype.trim` removes. */
  predicate JsIsSpace(c: char) {
    || c == ' ' || c == '\t' || c == '\n' || c == '\r' || c == '\U{0B}' || c == '\U{0C}'
    || c == '\U{A0}' || c == '\U{1680}' || ('\U{2000}' <= c <= '\U{200A}')
    || c == '\U{2028}' || c == '\U{2029}' || c == '\U{202F}' || c == '\U{205F}'
    || c == '\U{3000}' || c == '\U{FEFF}'
  }

  /** The number of leading characters of `s` that satisfy `space`. */
  function LeadingCount(s: string, space: char -> bool): (k: nat)
    ensures k <= |s|
    ensures forall i :: 0 <= i < k ==> space(s[i])
    ensures k < |s| ==> !space(s[k])
  {
    if |s| > 0 && space(s[0]) then
      var k' := LeadingCount(s[1..], space);
      assert forall i :: 1 <= i < k' + 1 ==> s[i] == s[1..][i - 1];
      1 + k'
    else 0
  }

  /** The number of trailing characters of `s` that satisfy `space`. */
  function TrailingCount(s: string, space: char -> bool): (k: nat)
    ensures k <= |s|
    ensures forall i :: |s| - k <= i < |s| ==> space(s[i])
    ensures k < |s| ==> !space(s[|s| - k - 1])
  {
    if |s| > 0 && space(s[|s| - 1]) then
      var k' := TrailingCount(s[..|s| - 1], space);
      assert forall i :: |s| - 1 - k' <= i < |s| - 1 ==> s[i] == s[..|s| - 1][i];
      1 + k'
    else 0
  }

  /**
   * Drops leading and trailing characters that satisfy `space`: the result is
   * the slice of `s` between the two runs.
   */
  function Trim(s: string, space: char -> bool): (r: string)
    ensures LeadingCount(s, space) + |r| <= |s|
    ensures |r| > 0 ==> !space(r[0]) && !space(r[|r| - 1])
    ensures r == s[LeadingCount(s, space)..LeadingCount(s, space) + |r|]
    ensures forall i :: 0 <= i < LeadingCount(s, space) ==> space(s[i])
    ensures forall i :: LeadingCount(s, space) + |r| <= i < |s| ==> space(s[i])
  {
    var a := LeadingCount(s, space);
    var t := TrailingCount(s[a..], space);
    assert forall i :: a + (|s| - a - t) <= i < |s| ==> s[i] == s[a..][i - a];
    s[a..|s| - t]
  }

  /** Python's `str.strip()`. */
  function PyStrip(s: string): string {
    Trim(s, PyIsSpace)
  }

  /** JavaScript's `String.prototype.trim()`. */
  function JsTrim(s: string): string {
    Trim(s, JsIsSpace)
  }

  // ---------------------------------------------------------------------------
  // Substrings

  /** `t` occurs somewhere in `s` (Python's `t in s`, JavaScript's `s.includes(t)`). */
  predicate Contains(s: string, t: string)
    decreases |s|
  {
    t <= s || (|s| > 0 && Contains(s[1..], t))
  }

  /** `Contains` agrees with the positional definition of an occurrence. */
  lemma ContainsAt(s: string, t: string)
    ensures Contains(s, t) <==> exists i :: 0 <= i <= |s| - |t| && t <= s[i..]
  {
    if Contains(s, t) {
      var i := OccurrenceOf(s, t);
    }
    if exists i :: 0 <= i <= |s| - |t| && t <= s[i..] {
      var i :| 0 <= i <= |s| - |t| && t <= s[i..];
      OccurrenceContained(s, t, i);
    }
  }

  /** A position where `t` occurs in `s`, when it does. */
  lemma {:induction false} OccurrenceOf(s: string, t: string) returns (i: nat)
    requires Contains(s, t)
    ensures i <= |s| - |t| && t <= s[i..]
    decreases |s|
  {
    if t <= s {
      assert s[0..] == s;
      i := 0;
    } else {
      var j := OccurrenceOf(s[1..], t);
      assert s[1..][j..] == s[j + 1..];
      i := j + 1;
    }
  }

  /** An occurrence at any position makes `s` contain `t`. */
  lemma {:induction false} OccurrenceContained(s: string, t: string, i: nat)
    requires i <= |s| - |t| && t <= s[i..]
    ensures Contains(s, t)
    decreases i
  {
    if i == 0 {
      assert s[0..] == s;
    } else {
      assert s[1..][i - 1..] == s[i..];
      OccurrenceContained(s[1..], t, i - 1);
    }
  }

  /** Every string contains each of its own prefixes. */
  lemma PrefixContained(s: string, t: string)
    requires t <= s
    ensures Contains(s, t)
  {
  }

  // ---------------------------------------------------------------------------
  // Decimal numbers

  predicate IsDigit(c: char) {
    '0' <= c <= '9'
  }

  predicate AllDigits(s: string) {
    forall i :: 0 <= i < |s| ==> IsDigit(s[i])
  }

  function DigitChar(d: nat): (c: char)
    requires d < 10
    ensures IsDigit(c) && c as int - '0' as int == d
  {
    ('0' as int + d) as char
  }

  function DigitValue(c: char): (d: nat)
    requires IsDigit(c)
    ensures d < 10
  {
    c as int - '0' as int
  }

  /** The shortest decimal rendering of a natural number (JavaScript's `String(n)`). */
  function NatToString(n: nat): (r: string)
    ensures |r| > 0 && AllDigits(r)
    ensures |r| > 1 ==> r[0] != '0'
  {
    if n < 10 then [DigitChar(n)] else NatToString(n / 10) + [DigitChar(n % 10)]
  }

  /** The value of a string of decimal digits. */
  function ParseNat(s: string): nat
    requires AllDigits(s)
  {
    if |s| == 0 then 0 else ParseNat(s[..|s| - 1]) * 10 + DigitValue(s[|s| - 1])
  }

  lemma {:induction false} ParseNatToString(n: nat)
    ensures ParseNat(NatToString(n)) == n
  {
    if n >= 10 {
      var s := NatToString(n);
      assert s[..|s| - 1] == NatToString(n / 10);
      ParseNatToString(n / 10);
    }
  }

  /** Decimal rendering of an integer with a leading `-` for negatives. */
  function IntToString(i: int): (r: string)
    ensures |r| > 0
    ensures i >= 0 <==> AllDigits(r)
    ensures i < 0 <==> r[0] == '-'
  {
    if i < 0 then
      var r := "-" + NatToString(-i);
      assert !IsDigit(r[0]);
      r
    else NatToString(i)
  }

  /** Reads back an optionally negative decimal integer. */
  function ParseInt(s: string): Option<int> {
    if |s| > 1 && s[0] == '-' && AllDigits(s[1..]) then Some(-(ParseNat(s[1..]) as int))
    else if |s| > 0 && AllDigits(s) then Some(ParseNat(s))
    else None
  }

  lemma IntToStringRoundTrip(i: int)
    ensures ParseInt(IntToString(i)) == Some(i)
  {
    if i < 0 {
      assert IntToString(i)[1..] == NatToString(-i);
      ParseNatToString(-i);
    } else {
      ParseNatToString(i);
    }
  }
}
