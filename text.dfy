/**
 * The string operations the audit pipeline relies on: Python's `str.strip()` with no
 * argument, `str.startswith` and `str.endswith`.
 */
module Text {

  /** The characters Python's `str.isspace()` accepts, which are the ones `str.strip()` removes. */
  predicate IsSpace(c: char) {
    c == ' ' || ('\t' <= c <= '\r') || ('\U{1C}' <= c <= '\U{1F}')
    || c == '\U{85}' || c == '\U{A0}' || c == '\U{1680}'
    || ('\U{2000}' <= c <= '\U{200A}') || c == '\U{2028}' || c == '\U{2029}'
    || c == '\U{202F}' || c == '\U{205F}' || c == '\U{3000}'
  }

  /** A whitespace run (possibly empty). */
  predicate AllSpace(s: string) {
    forall i :: 0 <= i < |s| ==> IsSpace(s[i])
  }

  /** Neither the first nor the last character is whitespace. */
  predicate NoSurroundingSpace(s: string) {
    s == [] || (!IsSpace(s[0]) && !IsSpace(s[|s| - 1]))
  }

  predicate StartsWith(s: string, prefix: string) {
    |prefix| <= |s| && s[..|prefix|] == prefix
  }

  predicate EndsWith(s: string, suffix: string) {
    |suffix| <= |s| && s[|s| - |suffix|..] == suffix
  }

  /** `t` is a contiguous piece of `s`. */
  ghost predicate IsSliceOf(t: string, s: string) {
    exists i, j :: 0 <= i <= j <= |s| && t == s[i..j]
  }

  /**
   * The first index at or after `i` that does not hold whitespace (or `|s|`): how far
   * `str.strip()` advances from the left.
   */
  function SkipSpace(s: string, i: nat): (n: nat)
    requires i <= |s|
    ensures i <= n <= |s|
    ensures forall k :: i <= k < n ==> IsSpace(s[k])
    ensures n == |s| || !IsSpace(s[n])
    decreases |s| - i
  {
    if i < |s| && IsSpace(s[i]) then SkipSpace(s, i + 1) else i
  }

  /**
   * The last index `n`, going back from `j` but not below `lo`, with no whitespace just
   * before it: how far `str.strip()` retreats from the right.
   */
  function SkipSpaceBack(s: string, lo: nat, j: nat): (n: nat)
    requires lo <= j <= |s|
    ensures lo <= n <= j
    ensures forall k :: n <= k < j ==> IsSpace(s[k])
    ensures n == lo || !IsSpace(s[n - 1])
    decreases j - lo
  {
    if lo < j && IsSpace(s[j - 1]) then SkipSpaceBack(s, lo, j - 1) else j
  }

  /** The forward scan stops at the first non-whitespace index, wherever that is. */
  lemma SkipSpaceAt(s: string, i: nat, m: nat)
    requires i <= m <= |s|
    requires forall k :: i <= k < m ==> IsSpace(s[k])
    requires m == |s| || !IsSpace(s[m])
    ensures SkipSpace(s, i) == m
  {
  }

  /** The backward scan stops right after the last non-whitespace index above `lo`. */
  lemma SkipSpaceBackAt(s: string, lo: nat, j: nat, m: nat)
    requires lo <= m <= j <= |s|
    requires forall k :: m <= k < j ==> IsSpace(s[k])
    requires m == lo || !IsSpace(s[m - 1])
    ensures SkipSpaceBack(s, lo, j) == m
  {
  }

  /**
   * Python's `s.strip()`: the text between the whitespace run at the start and the one at
   * the end. The result is not surrounded by whitespace; `StripSlice` states what was cut.
   */
  function Strip(s: string): (r: string)
    ensures NoSurroundingSpace(r)
  {
    var i := SkipSpace(s, 0);
    s[i..SkipSpaceBack(s, i, |s|)]
  }

  /** What stripping cuts off is whitespace at either end: the result is the slice in between. */
  lemma StripSlice(s: string)
    ensures exists i, j :: 0 <= i <= j <= |s| && Strip(s) == s[i..j] && AllSpace(s[..i]) && AllSpace(s[j..])
  {
    var i := SkipSpace(s, 0);
    var j := SkipSpaceBack(s, i, |s|);
    assert AllSpace(s[..i]);
    assert AllSpace(s[j..]);
  }

  /** Stripping a text padded on both sides by whitespace runs gives back the text. */
  lemma StripPadded(before: string, t: string, after: string)
    requires AllSpace(before) && AllSpace(after) && NoSurroundingSpace(t)
    ensures Strip(before + t + after) == t
  {
    var s := before + t + after;
    var i, j := |before|, |before| + |t|;
    assert forall k :: 0 <= k < i ==> s[k] == before[k];
    assert forall k :: j <= k < |s| ==> s[k] == after[k - j];
    assert forall k :: i <= k < j ==> s[k] == t[k - i];
    if t == [] {
      SkipSpaceAt(s, 0, |s|);
      SkipSpaceBackAt(s, |s|, |s|, |s|);
    } else {
      SkipSpaceAt(s, 0, i);
      SkipSpaceBackAt(s, i, |s|, j);
      assert s[i..j] == t;
    }
  }

  /** Stripping twice is stripping once. */
  lemma StripIdempotent(s: string)
    ensures Strip(Strip(s)) == Strip(s)
  {
    var r := Strip(s);
    assert [] + r + [] == r;
    StripPadded([], r, []);
  }

  /** A stripped text that is all whitespace was all whitespace to begin with, and conversely. */
  lemma StripEmptyIffAllSpace(s: string)
    ensures Strip(s) == [] <==> AllSpace(s)
  {
    var i := SkipSpace(s, 0);
    var j := SkipSpaceBack(s, i, |s|);
    assert |Strip(s)| == j - i;
    if AllSpace(s) {
      assert s + [] + [] == s;
      StripPadded(s, [], []);
    }
  }
}
