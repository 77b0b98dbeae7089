/** Small scanning helpers shared by the hand-written matchers of the two URL patterns. */
module Scan {
  import opened Wrappers

  /** The literal `lit` occurs in `s` starting at index `i`. */
  predicate HasAt(s: string, i: int, lit: string) {
    0 <= i && i + |lit| <= |s| && s[i..i + |lit|] == lit
  }

  /** Length of the longest run of characters satisfying `p` that starts at index `j` of `s`:
      what a greedy `[...]+` or `.*` consumes from there. */
  function RunLength(s: string, j: nat, p: char -> bool): (n: nat)
    requires j <= |s|
    ensures j + n <= |s|
    ensures forall k | j <= k < j + n :: p(s[k])
    ensures j + n == |s| || !p(s[j + n])
    decreases |s| - j
  {
    if j < |s| && p(s[j]) then 1 + RunLength(s, j + 1, p) else 0
  }

  /** A run that is all `p` and cannot be extended is the one RunLength measures. */
  lemma RunLengthUnique(s: string, j: nat, p: char -> bool, m: nat)
    requires j + m <= |s|
    requires forall k | j <= k < j + m :: p(s[k])
    requires j + m == |s| || !p(s[j + m])
    ensures RunLength(s, j, p) == m
  {
  }

  /** The first index in [lo, hi) holding `ch`. */
  function FirstIndexOf(s: string, lo: nat, hi: nat, ch: char): (r: Option<nat>)
    requires hi <= |s|
    ensures r.Some? ==> lo <= r.value < hi && s[r.value] == ch
    ensures r.Some? ==> forall k | lo <= k < r.value :: s[k] != ch
    ensures r.None? ==> forall k | lo <= k < hi :: s[k] != ch
    decreases hi - lo
  {
    if lo >= hi then None
    else if s[lo] == ch then Some(lo)
    else FirstIndexOf(s, lo + 1, hi, ch)
  }
}
