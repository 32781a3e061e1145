/** The pieces of JavaScript string and regular-expression semantics the
    user-agent tests rely on: `indexOf`, the `.` and `\d` character
    classes, ASCII case folding under the `i` flag, and `parseInt` on a
    string of decimal digits. */
module Strings {

  /** `pat` occurs in `s` starting at index `i`. */
  predicate OccursAt(s: string, pat: string, i: int)
  {
    0 <= i && i + |pat| <= |s| && s[i..i + |pat|] == pat
  }

  /** `s.indexOf(pat, from)`: the first index at or after `from` where
      `pat` occurs, or -1 when there is none. */
  function IndexOfFrom(s: string, pat: string, from: nat): (r: int)
    requires from <= |s|
    ensures r == -1 || (from <= r && OccursAt(s, pat, r))
    ensures r == -1 <==> forall k :: from <= k ==> !OccursAt(s, pat, k)
    ensures r != -1 ==> forall k :: from <= k < r ==> !OccursAt(s, pat, k)
    decreases |s| - from
  {
    if from + |pat| > |s| then -1
    else if s[from..from + |pat|] == pat then from
    else IndexOfFrom(s, pat, from + 1)
  }

  /** `s.indexOf(pat)`. */
  function IndexOf(s: string, pat: string): (r: int)
    ensures r == -1 <==> forall k :: !OccursAt(s, pat, k)
    ensures r != -1 ==> OccursAt(s, pat, r) && forall k :: 0 <= k < r ==> !OccursAt(s, pat, k)
  {
    IndexOfFrom(s, pat, 0)
  }

  /** `s.indexOf(pat) !== -1`, equivalently a match of the literal regex `/pat/`. */
  predicate Contains(s: string, pat: string)
    ensures Contains(s, pat) <==> exists k :: OccursAt(s, pat, k)
  {
    IndexOf(s, pat) != -1
  }

  /** The characters the regex `.` does not match (no `s` flag). */
  predicate IsLineTerminator(c: char)
  {
    c == '\n' || c == '\r' || c == '\U{2028}' || c == '\U{2029}'
  }

  /** The regex class `\d`: ASCII digits only. */
  predicate IsDigit(c: char)
  {
    '0' <= c <= '9'
  }

  /** Case folding under the regex `i` flag without `u`. Letters outside
      ASCII never fold onto ASCII letters there, so for patterns made of
      ASCII letters folding the ASCII lower case is exact. */
  function FoldCase(c: char): char
  {
    if 'a' <= c <= 'z' then (c as int - 32) as char else c
  }

  /** `c` matches the pattern character `p` under the `i` flag. */
  predicate SameIgnoringCase(c: char, p: char)
  {
    FoldCase(c) == FoldCase(p)
  }

  /** Every character of `s[lo..hi]` is a digit. */
  ghost predicate AllDigits(s: string, lo: int, hi: int)
    requires 0 <= lo <= hi <= |s|
  {
    forall k :: lo <= k < hi ==> IsDigit(s[k])
  }

  /** Length of the longest run of digits in `s` starting at `i`: what a
      greedy `\d*` consumes there. */
  function DigitRun(s: string, i: nat): (n: nat)
    requires i <= |s|
    ensures i + n <= |s|
    ensures AllDigits(s, i, i + n)
    ensures i + n == |s| || !IsDigit(s[i + n])
    decreases |s| - i
  {
    if i < |s| && IsDigit(s[i]) then 1 + DigitRun(s, i + 1) else 0
  }

  /** A slice of a digit run is a string of digits. */
  lemma DigitSlice(s: string, lo: nat, hi: nat)
    requires lo <= hi <= |s| && AllDigits(s, lo, hi)
    ensures forall k :: 0 <= k < hi - lo ==> IsDigit(s[lo..hi][k])
  {
  }

  /** The value of a non-empty string of decimal digits. */
  function DecimalValue(ds: string): (v: nat)
    requires forall k :: 0 <= k < |ds| ==> IsDigit(ds[k])
    decreases |ds|
  {
    if |ds| == 0 then 0
    else
      assert IsDigit(ds[|ds| - 1]);
      10 * DecimalValue(ds[..|ds| - 1]) + (ds[|ds| - 1] as int - '0' as int)
  }

  /** A JavaScript number as far as the model needs one: an integer or NaN. */
  datatype JsNumber = Num(value: int) | NaN

  /** `n > m`; every comparison with NaN is false. */
  predicate GreaterThan(n: JsNumber, m: int)
  {
    n.Num? && n.value > m
  }

  /** Digits, a dot, digits: the text the version capture holds. */
  predicate IsDecimalText(t: string)
  {
    var n := DigitRun(t, 0);
    n < |t| && t[n] == '.' && DigitRun(t, n + 1) == |t| - (n + 1)
  }

  /** `parseInt(t)` with the default radix, on digits-dot-digits text (the
      only text it is given here): the value of the digits before the
      dot, or NaN when the text starts with the dot. */
  function ParseInt(t: string): (r: JsNumber)
    requires IsDecimalText(t)
    ensures r.NaN? <==> !IsDigit(t[0])
    ensures r.Num? ==> DigitRun(t, 0) > 0 && r.value == DecimalValue(t[..DigitRun(t, 0)])
  {
    var n := DigitRun(t, 0);
    DigitSlice(t, 0, n);
    assert t[0..n] == t[..n];
    if n == 0 then NaN else Num(DecimalValue(t[..n]))
  }

  /** Within a slice that contains the whole run, the run of digits is
      the same as in the full string. */
  lemma DigitRunInSlice(s: string, lo: nat, hi: nat, j: nat)
    requires lo + j <= hi <= |s|
    requires lo + j + DigitRun(s, lo + j) <= hi
    ensures DigitRun(s[lo..hi], j) == DigitRun(s, lo + j)
  {
  }

  /** An occurrence fixes the characters it covers. */
  lemma OccurrenceChars(s: string, pat: string)
    ensures forall k, j :: OccursAt(s, pat, k) && 0 <= j < |pat| ==> s[k + j] == pat[j]
  {
  }

  /** Every character of a pattern occurs in any string the pattern occurs in. */
  lemma OccurrenceHasChar(s: string, pat: string, j: nat)
    requires j < |pat|
    ensures forall k :: OccursAt(s, pat, k) ==> pat[j] in s
  {
  }

  /** An occurrence in `b` is an occurrence in `a + b`, shifted by `|a|`. */
  lemma OccursAfterPrefix(a: string, b: string, pat: string, k: int)
    requires OccursAt(b, pat, k)
    ensures OccursAt(a + b, pat, |a| + k)
  {
  }

  /** An occurrence in `a` is an occurrence in `a + b`. */
  lemma OccursBeforeSuffix(a: string, b: string, pat: string, k: int)
    requires OccursAt(a, pat, k)
    ensures OccursAt(a + b, pat, k)
  {
  }

  /** A two-character pattern occurs in `a + b` only inside `a`, inside
      `b`, or across the seam. */
  lemma PairOccurrencesInConcat(a: string, b: string, pat: string)
    requires |pat| == 2
    ensures forall k :: OccursAt(a + b, pat, k) ==>
              OccursAt(a, pat, k) || OccursAt(b, pat, k - |a|) ||
              (k == |a| - 1 && a[k] == pat[0] && b[0] == pat[1])
  {
  }
}
