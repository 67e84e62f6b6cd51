/**
 * The parts of the ECMAScript string library the application relies on:
 * `includes`, `startsWith`, `slice`, `trim`, `Array.prototype.join`,
 * `Number.parseInt` (radix left undefined) and the decimal rendering of a
 * non-negative integer by a template literal.
 */
module JsStrings {
  import opened Wrappers

  /** ECMAScript WhiteSpace and LineTerminator code points (what `trim` strips). */
  predicate IsWhitespace(c: char) {
    var n := c as int;
    n == 0x09 || n == 0x0A || n == 0x0B || n == 0x0C || n == 0x0D || n == 0x20 ||
    n == 0xA0 || n == 0x1680 || (0x2000 <= n <= 0x200A) || n == 0x2028 || n == 0x2029 ||
    n == 0x202F || n == 0x205F || n == 0x3000 || n == 0xFEFF
  }

  predicate AllWhitespace(s: string) {
    forall k :: 0 <= k < |s| ==> IsWhitespace(s[k])
  }

  /** `pat` occurs in `t` starting at index `i`. */
  predicate OccursAt(t: string, pat: string, i: int) {
    0 <= i && i + |pat| <= |t| && t[i..i + |pat|] == pat
  }

  /** `t.includes(pat)` */
  predicate Includes(t: string, pat: string) {
    exists i :: 0 <= i <= |t| - |pat| && OccursAt(t, pat, i)
  }

  /** `t.startsWith(pat)` */
  predicate StartsWith(t: string, pat: string) {
    |pat| <= |t| && t[..|pat|] == pat
  }

  /** A string placed between two others is included in the result. */
  lemma IncludesMiddle(a: string, pat: string, b: string)
    ensures Includes(a + pat + b, pat)
  {
    var t := a + pat + b;
    assert t[|a|..|a| + |pat|] == pat;
    assert OccursAt(t, pat, |a|);
  }

  /** How ECMAScript turns a relative index of `slice` into an absolute one. */
  function ClampIndex(rel: int, len: nat): (r: nat)
    ensures r <= len
    ensures 0 <= rel <= len ==> r == rel
  {
    if rel < 0 then (if len + rel < 0 then 0 else len + rel)
    else if rel > len then len
    else rel
  }

  /** `s.slice(start, end)`: negative indices count from the end; an empty result when they cross. */
  function Slice(s: string, start: int, end: int): (r: string)
    ensures |r| == if ClampIndex(start, |s|) < ClampIndex(end, |s|)
                   then ClampIndex(end, |s|) - ClampIndex(start, |s|) else 0
  {
    var from, to := ClampIndex(start, |s|), ClampIndex(end, |s|);
    if from < to then s[from..to] else []
  }

  /** Number of leading whitespace characters. */
  function LeadingWhitespace(s: string): (n: nat)
    ensures n <= |s|
    ensures AllWhitespace(s[..n])
    ensures n < |s| ==> !IsWhitespace(s[n])
  {
    if s == [] || !IsWhitespace(s[0]) then 0
    else
      var m := LeadingWhitespace(s[1..]);
      assert s[..m + 1] == [s[0]] + s[1..][..m];
      1 + m
  }

  /** Index just after the last non-whitespace character (0 when there is none). */
  function TrimmedEnd(s: string): (n: nat)
    ensures n <= |s|
    ensures AllWhitespace(s[n..])
    ensures n > 0 ==> !IsWhitespace(s[n - 1])
  {
    if s == [] || !IsWhitespace(s[|s| - 1]) then |s|
    else
      var m := TrimmedEnd(s[..|s| - 1]);
      assert s[m..] == s[..|s| - 1][m..] + [s[|s| - 1]];
      m
  }

  /** `s.trimStart()` */
  function TrimStart(s: string): string {
    s[LeadingWhitespace(s)..]
  }

  /** `s.trim()` */
  function Trim(s: string): string {
    s[LeadingWhitespace(s)..][..TrimmedEnd(s[LeadingWhitespace(s)..])]
  }

  /**
   * What `trim` gives: a contiguous piece of `s` that neither starts nor ends
   * with whitespace, everything cut off on either side being whitespace.
   */
  lemma TrimShape(s: string)
    ensures |Trim(s)| <= |s|
    ensures var r := Trim(s); r == [] || (!IsWhitespace(r[0]) && !IsWhitespace(r[|r| - 1]))
    ensures var r := Trim(s);
            exists i :: 0 <= i <= |s| - |r| && s[i..i + |r|] == r
                        && AllWhitespace(s[..i]) && AllWhitespace(s[i + |r|..])
  {
    var a := LeadingWhitespace(s);
    var t := s[a..];
    var b := TrimmedEnd(t);
    assert t[b..] == s[a + b..];
    assert s[a..a + b] == t[..b];
  }

  /** `xs.join(sep)` */
  function Join(xs: seq<string>, sep: string): string {
    if |xs| == 0 then []
    else if |xs| == 1 then xs[0]
    else Join(xs[..|xs| - 1], sep) + sep + xs[|xs| - 1]
  }

  predicate IsDecimalDigit(c: char) {
    '0' <= c <= '9'
  }

  function DigitChar(d: nat): (c: char)
    requires d < 10
    ensures IsDecimalDigit(c)
  {
    ['0', '1', '2', '3', '4', '5', '6', '7', '8', '9'][d]
  }

  /**
   * Decimal rendering of a non-negative integer, as `${n}` gives it: only
   * digits, and no leading zero except in "0" itself.
   */
  function NatToString(n: nat): (r: string)
    ensures |r| >= 1
    ensures forall k :: 0 <= k < |r| ==> IsDecimalDigit(r[k])
    ensures r[0] == '0' ==> n == 0 && |r| == 1
  {
    if n < 10 then [DigitChar(n)]
    else NatToString(n / 10) + [DigitChar(n % 10)]
  }

  /** A digit of the given radix (10 or 16, the two `parseInt` chooses between here). */
  predicate IsRadixDigit(c: char, radix: nat) {
    IsDecimalDigit(c) ||
    (radix == 16 && (('a' <= c <= 'f') || ('A' <= c <= 'F')))
  }

  function DigitValue(c: char): nat {
    if IsDecimalDigit(c) then c as nat - '0' as nat
    else if 'a' <= c <= 'z' then c as nat - 'a' as nat + 10
    else if 'A' <= c <= 'Z' then c as nat - 'A' as nat + 10
    else 0
  }

  /** Length of the longest prefix made of radix digits. */
  function DigitPrefixLength(s: string, radix: nat): (n: nat)
    ensures n <= |s|
    ensures forall k :: 0 <= k < n ==> IsRadixDigit(s[k], radix)
    ensures n < |s| ==> !IsRadixDigit(s[n], radix)
  {
    if s == [] || !IsRadixDigit(s[0], radix) then 0
    else 1 + DigitPrefixLength(s[1..], radix)
  }

  /** The value of a digit string, most significant digit first. */
  function DigitsValue(z: string, radix: nat): nat {
    if z == [] then 0
    else DigitsValue(z[..|z| - 1], radix) * radix + DigitValue(z[|z| - 1])
  }

  /**
   * `Number.parseInt(s)` with no radix: skip leading whitespace, take an
   * optional sign, a "0x"/"0X" prefix switches to radix 16, then the longest
   * run of digits; no digits gives NaN (`None`). Negative zero is 0 here.
   */
  function ParseInt(s: string): (r: Option<int>)
    ensures r.Some? ==> exists k :: 0 <= k < |s| && IsRadixDigit(s[k], 16)
  {
    var t := TrimStart(s);
    var sign := if |t| > 0 && t[0] == '-' then -1 else 1;
    var u := if |t| > 0 && (t[0] == '+' || t[0] == '-') then t[1..] else t;
    var hex := |u| >= 2 && u[0] == '0' && (u[1] == 'x' || u[1] == 'X');
    var radix := if hex then 16 else 10;
    var digits := if hex then u[2..] else u;
    var n := DigitPrefixLength(digits, radix);
    if n == 0 then None
    else
      assert IsRadixDigit(digits[0], 16);
      Some(sign * DigitsValue(digits[..n], radix))
  }

  lemma {:induction false} DigitsValueOfDecimal(n: nat)
    ensures DigitsValue(NatToString(n), 10) == n
  {
    if n >= 10 {
      var prefix := NatToString(n / 10);
      var r := prefix + [DigitChar(n % 10)];
      assert r[..|r| - 1] == prefix;
      DigitsValueOfDecimal(n / 10);
    }
  }

  /** Parsing the decimal rendering of a number gives the number back. */
  lemma ParseIntOfDecimal(n: nat)
    ensures ParseInt(NatToString(n)) == Some(n)
  {
    var s := NatToString(n);
    assert LeadingWhitespace(s) == 0;
    assert TrimStart(s) == s;
    assert DigitPrefixLength(s, 10) == |s|;
    assert s[..|s|] == s;
    DigitsValueOfDecimal(n);
  }
}
