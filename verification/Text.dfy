/** The `java.lang.String` operations the templates rely on. */
module Text {
  /** `pat` occurs in `s` at index `k`. */
  predicate OccursAt(s: string, pat: string, k: int) {
    0 <= k <= |s| - |pat| && s[k..k + |pat|] == pat
  }

  /** `String.indexOf(pat, from)` for a legal `from`: the least index at or after `from`, or -1. */
  function IndexOf(s: string, pat: string, from: nat): (k: int)
    requires from <= |s|
    ensures k == -1 || (from <= k && OccursAt(s, pat, k))
    ensures forall m :: from <= m && (k == -1 || m < k) ==> !OccursAt(s, pat, m)
    decreases |s| - from
  {
    if OccursAt(s, pat, from) then from
    else if from == |s| then -1
    else IndexOf(s, pat, from + 1)
  }

  predicate StartsWith(s: string, prefix: string) {
    |prefix| <= |s| && s[..|prefix|] == prefix
  }

  predicate EndsWith(s: string, suffix: string) {
    |suffix| <= |s| && s[|s| - |suffix|..] == suffix
  }

  /** ASCII case folding, as used by `equalsIgnoreCase`. */
  function Fold(c: char): char {
    if 'A' <= c <= 'Z' then (c as int + 32) as char else c
  }

  predicate EqualsIgnoreCase(a: string, b: string) {
    |a| == |b| && forall i :: 0 <= i < |a| ==> Fold(a[i]) == Fold(b[i])
  }

  /** Two characters are equal, or the upper and the lower case of one letter. */
  predicate SameLetter(c: char, d: char) {
    || c == d
    || ('A' <= c <= 'Z' && d as int == c as int + 32)
    || ('A' <= d <= 'Z' && c as int == d as int + 32)
  }

  lemma {:induction false} EqualsIgnoreCaseIff(a: string, b: string)
    ensures EqualsIgnoreCase(a, b) <==> |a| == |b| && forall i :: 0 <= i < |a| ==> SameLetter(a[i], b[i])
  {
    forall i | 0 <= i < |a| && |a| == |b| ensures Fold(a[i]) == Fold(b[i]) <==> SameLetter(a[i], b[i]) {}
  }

  function Concat(parts: seq<string>): string {
    if parts == [] then "" else parts[0] + Concat(parts[1..])
  }

  lemma {:induction false} ConcatAppend(a: seq<string>, b: seq<string>)
    ensures Concat(a + b) == Concat(a) + Concat(b)
  {
    if a == [] {
      assert a + b == b;
    } else {
      assert (a + b)[1..] == a[1..] + b;
      ConcatAppend(a[1..], b);
    }
  }
}
