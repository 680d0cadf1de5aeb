/** The combinatorics of borders behind the Knuth-Morris-Pratt search of the byte buffer. */
module Borders {
  /** A proper prefix of length `k` that is also a suffix. */
  predicate IsBorder(s: seq<bv8>, k: int) {
    0 <= k < |s| && s[..k] == s[|s| - k..]
  }

  ghost predicate IsLongestBorder(s: seq<bv8>, k: int) {
    IsBorder(s, k) && forall m :: IsBorder(s, m) ==> m <= k
  }

  predicate OccursAt(s: seq<bv8>, needle: seq<bv8>, k: int) {
    0 <= k <= |s| - |needle| && s[k..k + |needle|] == needle
  }

  /** Index-wise form of a border. */
  lemma {:induction false} BorderAt(s: seq<bv8>, k: int)
    ensures IsBorder(s, k) <==> 0 <= k < |s| && forall x :: 0 <= x < k ==> s[x] == s[|s| - k + x]
  {
    if 0 <= k < |s| && s[..k] == s[|s| - k..] {
      forall x | 0 <= x < k ensures s[x] == s[|s| - k + x] { assert s[..k][x] == s[|s| - k..][x]; }
    }
  }

  lemma {:induction false} OccursIndexwise(s: seq<bv8>, needle: seq<bv8>, k: int)
    ensures OccursAt(s, needle, k)
            <==> 0 <= k <= |s| - |needle| && forall x :: 0 <= x < |needle| ==> s[k + x] == needle[x]
  {
    if OccursAt(s, needle, k) {
      forall x | 0 <= x < |needle| ensures s[k + x] == needle[x] { assert s[k..k + |needle|][x] == s[k + x]; }
    }
  }

  lemma {:induction false} ShorterBorder(s: seq<bv8>, k: int, m: int)
    requires IsBorder(s, k) && IsBorder(s, m) && m < k
    ensures IsBorder(s[..k], m)
  {
    BorderAt(s, k);
    BorderAt(s, m);
    BorderAt(s[..k], m);
  }

  lemma {:induction false} BorderOfBorder(s: seq<bv8>, k: int, m: int)
    requires IsBorder(s, k) && IsBorder(s[..k], m)
    ensures IsBorder(s, m)
  {
    BorderAt(s, k);
    BorderAt(s, m);
    BorderAt(s[..k], m);
  }

  /** A border grows by one byte exactly when the next bytes agree. */
  lemma {:induction false} BorderGrows(s: seq<bv8>, j: int, m: int)
    requires 0 < j < |s| && 0 <= m < j
    ensures IsBorder(s[..j + 1], m + 1) <==> IsBorder(s[..j], m) && s[m] == s[j]
  {
    BorderAt(s[..j + 1], m + 1);
    BorderAt(s[..j], m);
    if IsBorder(s[..j + 1], m + 1) {
      assert s[..j + 1][m] == s[..j + 1][j + 1 - (m + 1) + m];
    }
  }

  /** Where a needle occurs inside a part already matched, the overlap is a border. */
  lemma {:induction false} OverlapIsBorder(s: seq<bv8>, needle: seq<bv8>, i: int, j: int, p: int)
    requires 0 < j < |needle| && j <= i < |s| && s[i - j..i] == needle[..j]
    requires OccursAt(s, needle, p) && i - j < p < i
    ensures IsBorder(needle[..j], i - p) && needle[i - p] == s[i]
  {
    OccursIndexwise(s, needle, p);
    BorderAt(needle[..j], i - p);
    assert needle[i - p] == s[p + (i - p)];
    forall x | 0 <= x < i - p ensures needle[..j][x] == needle[..j][j - (i - p) + x] {
      assert s[p + x] == s[i - j..i][p + x - (i - j)];
    }
  }

  lemma {:induction false} OccursByte(s: seq<bv8>, needle: seq<bv8>, k: int, x: int)
    requires OccursAt(s, needle, k) && 0 <= x < |needle|
    ensures s[k + x] == needle[x]
  {
    OccursIndexwise(s, needle, k);
  }

  // ---------------------------------------------------------------- the failure table

  /** `f + 1` is the length of the longest border of the needle's first `k + 1` bytes. */
  ghost predicate IsFailure(needle: seq<bv8>, k: int, f: int) {
    0 <= k < |needle| && -1 <= f < k && IsLongestBorder(needle[..k + 1], f + 1)
  }

  /** `i + 1` is a border of the first `j` bytes, and no longer border can be extended by byte `j`. */
  ghost predicate IsCandidate(needle: seq<bv8>, j: int, i: int) {
    && 0 < j < |needle| && -1 <= i < j - 1 && IsBorder(needle[..j], i + 1)
    && forall m :: IsBorder(needle[..j], m) && i + 1 < m ==> needle[m] != needle[j]
  }

  lemma {:induction false} FallBack(needle: seq<bv8>, j: int, i: int, next: int)
    requires IsCandidate(needle, j, i) && 0 <= i && needle[i + 1] != needle[j] && IsFailure(needle, i, next)
    ensures IsCandidate(needle, j, next)
  {
    var s := needle[..j];
    assert s[..i + 1] == needle[..i + 1];
    BorderOfBorder(s, i + 1, next + 1);
    forall m | IsBorder(s, m) && next + 1 < m ensures needle[m] != needle[j] {
      if m < i + 1 { ShorterBorder(s, i + 1, m); }
    }
  }

  /** Once byte `j` extends the candidate, or nothing is left to fall back to, the entry is known. */
  lemma {:induction false} CandidateSettles(needle: seq<bv8>, j: int, i: int)
    requires IsCandidate(needle, j, i) && (needle[i + 1] == needle[j] || i == -1)
    ensures IsFailure(needle, j, if needle[j] == needle[i + 1] then i + 1 else -1)
  {
    var t := needle[..j + 1];
    BorderGrows(needle, j, i + 1);
    forall m | IsBorder(t, m) && m > 0 ensures m <= i + 2 && needle[m - 1] == needle[j] {
      BorderGrows(needle, j, m - 1);
    }
  }
}
