/**
  The Python string operations the label rule depends on: `startswith`,
  `endswith`, slicing with clamped and negative indices, `find` of one
  character, and the digit test of `isdigit` on a single character.
 */
module PyStrings {

  /** `s.startswith(prefix)` */
  predicate StartsWith(s: string, prefix: string)
  {
    |prefix| <= |s| && s[..|prefix|] == prefix
  }

  /** `s.endswith(suffix)` */
  predicate EndsWith(s: string, suffix: string)
  {
    |suffix| <= |s| && s[|s| - |suffix|..] == suffix
  }

  /** ASCII digits; Python's `isdigit` also accepts other Unicode digits. */
  predicate IsDigit(c: char)
  {
    '0' <= c <= '9'
  }

  /** `s.isdigit()`: `s` is not empty and every character of it is a digit. */
  predicate IsDigits(s: string)
  {
    |s| > 0 && forall i :: 0 <= i < |s| ==> IsDigit(s[i])
  }

  /** The position a slice bound `i` denotes in a string of length `n`. */
  function SliceBound(i: int, n: nat): (k: nat)
    ensures k <= n
  {
    if i < 0 then (if n + i < 0 then 0 else n + i) else if n < i then n else i
  }

  /** `r` occurs in `s` starting at position `a`. */
  predicate PieceAt(s: string, a: int, r: string)
  {
    0 <= a <= |s| - |r| && r == s[a..a + |r|]
  }

  /** `s[i:j]`: out-of-range bounds are clamped, negative ones count from the end, an empty range gives "". */
  function Slice(s: string, i: int, j: int): (r: string)
    ensures |r| <= |s|
    ensures exists a :: PieceAt(s, a, r)
  {
    var a, b := SliceBound(i, |s|), SliceBound(j, |s|);
    if a < b then assert PieceAt(s, a, s[a..b]); s[a..b]
    else assert PieceAt(s, 0, []); []
  }

  /** `s.find(c)`: the first position of `c` in `s`, or -1. */
  function Find(s: string, c: char): (k: int)
    ensures -1 <= k < |s|
    ensures k == -1 <==> c !in s
    ensures 0 <= k ==> s[k] == c && forall j :: 0 <= j < k ==> s[j] != c
  {
    if |s| == 0 then -1
    else if s[0] == c then 0
    else
      var k := Find(s[1..], c);
      if k < 0 then -1
      else k + 1
  }

  /** Slicing `s[n:-m]` out of `p + d + q` with `|p| == n` and `|q| == m` gives back `d`. */
  lemma SliceStripsAffixes(p: string, d: string, q: string)
    requires 0 < |q|
    ensures Slice(p + d + q, |p|, -|q|) == d
  {
    var s := p + d + q;
    assert SliceBound(|p|, |s|) == |p|;
    assert SliceBound(-|q|, |s|) == |p| + |d|;
    if |d| > 0 {
      assert s[|p|..|p| + |d|] == d;
    }
  }

  /** Within range, a slice is the plain subsequence. */
  lemma SliceInRange(s: string, i: int, j: int)
    requires 0 <= i <= j <= |s|
    ensures Slice(s, i, j) == s[i..j]
  {
  }

  /** A negative bound `-m` means the position `len(s) - m`. */
  lemma SliceNegativeBound(s: string, i: int, m: int)
    requires 0 < m <= |s|
    ensures Slice(s, i, -m) == Slice(s, i, |s| - m)
  {
  }

  /** A bound past the end means the end. */
  lemma SliceClampsPastEnd(s: string, i: int, j: int)
    requires |s| <= j
    ensures Slice(s, i, j) == Slice(s, i, |s|)
  {
  }

  /** The clamping case: when the prefix and the suffix overlap, the slice is empty. */
  lemma SliceOverlapEmpty(s: string, n: int, m: int)
    requires 0 <= n && 0 < m <= |s| < n + m
    ensures Slice(s, n, -m) == ""
  {
  }
}
