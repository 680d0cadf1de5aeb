/** The leftmost matcher of query templates, `ExtraStringReplacer.match`. */
module TemplateMatch {
  import opened Wrappers
  import opened Text
  import opened TemplateParse

  predicate IsTemplate(path: string) {
    (StartsWith(path, "@{") || StartsWith(path, "${")) && EndsWith(path, "}")
  }

  function Next(paths: seq<string>, i: nat): Option<string> {
    if i + 1 < |paths| then Some(paths[i + 1]) else None
  }

  /**
   * The piece of the query for `path`, which `next` follows in the pattern, and where the search
   * goes on; `None` when a text is not found, where the source is thrown out by `substring`.
   */
  function PieceFor(path: string, next: Option<string>, query: string, start: nat): (r: Option<(string, nat)>)
    requires start <= |query|
    ensures r.Some? ==> r.value.1 <= |query|
  {
    if IsTemplate(path) then
      match next
      case Some(text) =>
        var endOfParam := IndexOf(query, text, start);
        if endOfParam < 0 then None else Some((query[start..endOfParam], endOfParam))
      case None => Some((query[start..], start))
    else
      var startOfString := IndexOf(query, path, start);
      if startOfString < 0 then None
      else Some((query[startOfString..startOfString + |path|], startOfString + |path|))
  }

  /** The segments found from index `start` of the query on. */
  function Segments(paths: seq<string>, query: string, start: nat): (r: Option<seq<string>>)
    requires start <= |query|
    decreases |paths|
  {
    if paths == [] then Some([])
    else match PieceFor(paths[0], Next(paths, 0), query, start)
      case None => None
      case Some((piece, next)) => Cons(piece, Segments(paths[1..], query, next))
  }

  function Cons(head: string, r: Option<seq<string>>): Option<seq<string>> {
    if r.Some? then Some([head] + r.value) else None
  }

  /** The list returned by the matcher: the exception of a literal that is missing gives `[]`. */
  function Matched(paths: seq<string>, query: string): seq<string> {
    var r := Segments(paths, query, 0);
    if r.Some? then r.value else []
  }

  function PrependTo(front: seq<string>, r: Option<seq<string>>): Option<seq<string>> {
    if r.Some? then Some(front + r.value) else None
  }

  lemma {:induction false} PrependCons(front: seq<string>, head: string, r: Option<seq<string>>)
    ensures PrependTo(front, Cons(head, r)) == PrependTo(front + [head], r)
  {
    if r.Some? { assert front + ([head] + r.value) == front + [head] + r.value; }
  }

  /** One round of the loop: the segments found so far, and those still to be found. */
  lemma {:induction false} PieceStep(paths: seq<string>, i: nat, query: string, start: nat, result: seq<string>)
    requires i < |paths| && start <= |query|
    ensures PrependTo(result, Segments(paths[i..], query, start))
            == match PieceFor(paths[i], Next(paths, i), query, start)
               case None => None
               case Some((piece, next)) => PrependTo(result + [piece], Segments(paths[i + 1..], query, next))
  {
    var rest := paths[i..];
    assert rest[0] == paths[i] && Next(rest, 0) == Next(paths, i) && rest[1..] == paths[i + 1..];
    var r := PieceFor(paths[i], Next(paths, i), query, start);
    if r.Some? {
      PrependCons(result, r.value.0, Segments(paths[i + 1..], query, r.value.1));
    }
  }

  /** The body of the loop. */
  method MatchOne(possiblePath: seq<string>, i: nat, query: string, start: nat) returns (r: Option<(string, nat)>)
    requires i < |possiblePath| && start <= |query|
    ensures r == PieceFor(possiblePath[i], Next(possiblePath, i), query, start)
  {
    var path := possiblePath[i];
    if IsTemplate(path) {
      if |possiblePath| > i + 1 {
        var next := possiblePath[i + 1];
        var endOfParam := IndexOf(query, next, start);
        if endOfParam < 0 { return None; }
        return Some((query[start..endOfParam], endOfParam));
      }
      return Some((query[start..], start));
    }
    var startOfString := IndexOf(query, path, start);
    if startOfString < 0 { return None; }
    return Some((query[startOfString..startOfString + |path|], startOfString + |path|));
  }

  method Match(possiblePath: seq<string>, query: string) returns (r: seq<string>)
    ensures r == Matched(possiblePath, query)
  {
    var result: seq<string> := [];
    var start := 0;
    ghost var whole := Segments(possiblePath, query, 0);
    assert possiblePath[0..] == possiblePath;
    assert whole.Some? ==> [] + whole.value == whole.value;
    for i := 0 to |possiblePath|
      invariant 0 <= start <= |query|
      invariant whole == PrependTo(result, Segments(possiblePath[i..], query, start))
    {
      PieceStep(possiblePath, i, query, start, result);
      var piece := MatchOne(possiblePath, i, query, start);
      if piece.None? { return []; }
      result := result + [piece.value.0];
      start := piece.value.1;
    }
    assert possiblePath[|possiblePath|..] == [] && result + [] == result;
    return result;
  }

  // ---------------------------------------------------------------- what a match is

  /** In a pattern that starts with a literal when `literal` holds, position `i` is a literal. */
  predicate IsLiteral(i: int, literal: bool) { (i % 2 == 0) == literal }

  /** Literals and captures alternate, and `isTemplate` tells them apart. */
  predicate Alternates(paths: seq<string>, literal: bool) {
    forall i :: 0 <= i < |paths| ==> IsTemplate(paths[i]) != IsLiteral(i, literal)
  }

  /** Cuts `i` and `i + 1` delimit a piece of the query. */
  predicate Piece(query: string, cuts: seq<nat>, i: nat) {
    i + 1 < |cuts| && cuts[i] <= cuts[i + 1] <= |query|
  }

  predicate PieceIs(query: string, cuts: seq<nat>, i: nat, text: string) {
    Piece(query, cuts, i) && cuts[i] + |text| == cuts[i + 1] && query[cuts[i]..cuts[i + 1]] == text
  }

  /**
   * An instance of the pattern inside the query: piece `i` runs from `cuts[i]` to `cuts[i + 1]`,
   * literals are reproduced and captures are anything. Text before and after is free.
   */
  predicate IsInstance(paths: seq<string>, literal: bool, query: string, cuts: seq<nat>) {
    && |cuts| == |paths| + 1
    && cuts[|paths|] <= |query|
    && (forall i :: 0 <= i < |paths| ==> Piece(query, cuts, i))
    && (forall i :: 0 <= i < |paths| && IsLiteral(i, literal) ==> PieceIs(query, cuts, i, paths[i]))
  }

  /** `found` lists the pieces cut out of the query. */
  predicate Reads(query: string, cuts: seq<nat>, found: seq<string>) {
    && |cuts| == |found| + 1
    && cuts[|found|] <= |query|
    && forall i :: 0 <= i < |found| ==> PieceIs(query, cuts, i, found[i])
  }

  ghost predicate Occurs(paths: seq<string>, literal: bool, query: string) {
    exists cuts :: IsInstance(paths, literal, query, cuts)
  }

  function FirstCut(path: string, query: string, start: nat): int
    requires start <= |query|
  {
    if IsTemplate(path) then start else IndexOf(query, path, start)
  }

  predicate EndsInCapture(paths: seq<string>) { |paths| == 1 && IsTemplate(paths[0]) }

  lemma {:induction false} FirstCutFound(path: string, next: Option<string>, query: string, start: nat)
    requires start <= |query| && PieceFor(path, next, query, start).Some?
    ensures start <= FirstCut(path, query, start) <= |query|
  {}

  /** The cuts the matcher takes. */
  ghost function GreedyCuts(paths: seq<string>, query: string, start: nat): (cuts: seq<nat>)
    requires start <= |query| && Segments(paths, query, start).Some?
    ensures |cuts| == |paths| + 1
    decreases |paths|
  {
    if paths == [] then [start]
    else if EndsInCapture(paths) then [start, |query|]
    else
      var piece := PieceFor(paths[0], Next(paths, 0), query, start);
      FirstCutFound(paths[0], Next(paths, 0), query, start);
      [FirstCut(paths[0], query, start)] + GreedyCuts(paths[1..], query, piece.value.1)
  }

  lemma {:induction false} PieceTail(query: string, cuts: seq<nat>, i: nat, text: string)
    requires |cuts| > 1
    ensures Piece(query, cuts[1..], i) == Piece(query, cuts, i + 1)
    ensures PieceIs(query, cuts[1..], i, text) == PieceIs(query, cuts, i + 1, text)
  {}

  lemma {:induction false} InstanceTail(paths: seq<string>, literal: bool, query: string, cuts: seq<nat>)
    requires paths != [] && IsInstance(paths, literal, query, cuts)
    ensures IsInstance(paths[1..], !literal, query, cuts[1..]) && Piece(query, cuts, 0)
    ensures literal ==> OccursAt(query, paths[0], cuts[0]) && cuts[1] == cuts[0] + |paths[0]|
  {
    forall i | 0 <= i < |paths| - 1
      ensures Piece(query, cuts[1..], i)
      ensures IsLiteral(i, !literal) ==> PieceIs(query, cuts[1..], i, paths[1..][i])
    {
      assert paths[1..][i] == paths[i + 1];
      PieceTail(query, cuts, i, paths[i + 1]);
    }
    assert literal ==> PieceIs(query, cuts, 0, paths[0]);
  }

  lemma {:induction false} InstanceCons(paths: seq<string>, literal: bool, query: string, cuts: seq<nat>, c: nat)
    requires paths != [] && IsInstance(paths[1..], !literal, query, cuts) && c <= cuts[0] <= |query|
    requires literal ==> c + |paths[0]| == cuts[0] && query[c..cuts[0]] == paths[0]
    ensures IsInstance(paths, literal, query, [c] + cuts)
  {
    var all := [c] + cuts;
    assert all[1..] == cuts;
    forall i | 0 <= i < |paths|
      ensures Piece(query, all, i)
      ensures IsLiteral(i, literal) ==> PieceIs(query, all, i, paths[i])
    {
      if i > 0 {
        assert paths[1..][i - 1] == paths[i];
        PieceTail(query, all, i - 1, paths[i]);
      }
    }
  }

  lemma {:induction false} ReadsCons(query: string, c: nat, cuts: seq<nat>, found: seq<string>)
    requires Reads(query, cuts, found) && c <= cuts[0] <= |query|
    ensures Reads(query, [c] + cuts, [query[c..cuts[0]]] + found)
  {
    var all, fs := [c] + cuts, [query[c..cuts[0]]] + found;
    assert all[1..] == cuts;
    forall i | 0 <= i < |fs| ensures PieceIs(query, all, i, fs[i]) {
      if i > 0 {
        assert fs[i] == found[i - 1];
        PieceTail(query, all, i - 1, fs[i]);
      }
    }
  }

  lemma {:induction false} FoundHere(query: string, pat: string, start: nat)
    requires start <= |query| && OccursAt(query, pat, start)
    ensures IndexOf(query, pat, start) == start
  {}

  lemma {:induction false} AlternatesTail(paths: seq<string>, literal: bool)
    requires paths != [] && Alternates(paths, literal)
    ensures Alternates(paths[1..], !literal)
  {
    forall i | 0 <= i < |paths| - 1 ensures IsTemplate(paths[1..][i]) == ((i % 2 == 0) == literal) {
      assert paths[1..][i] == paths[i + 1];
    }
  }

  /** `found` lists the pieces of the instance `cuts`, which begins at or after `start`. */
  ghost predicate Sound(paths: seq<string>, literal: bool, query: string, start: nat, cuts: seq<nat>, found: seq<string>) {
    && IsInstance(paths, literal, query, cuts) && |found| == |paths| && Reads(query, cuts, found)
    && start <= cuts[0] <= |query| && (!literal || paths == [] ==> cuts[0] == start)
  }

  lemma {:induction false} SoundCons(paths: seq<string>, literal: bool, query: string, start: nat, c: nat, cuts: seq<nat>, found: seq<string>)
    requires paths != [] && start <= c <= |query| && (!literal ==> c == start)
    requires var e := if literal then c + |paths[0]| else c; Sound(paths[1..], !literal, query, e, cuts, found)
    requires literal ==> OccursAt(query, paths[0], c) && cuts[0] == c + |paths[0]|
    ensures Sound(paths, literal, query, start, [c] + cuts, [query[c..cuts[0]]] + found)
  {
    InstanceCons(paths, literal, query, cuts, c);
    ReadsCons(query, c, cuts, found);
  }

  /** What the matcher returns is an instance, read piece by piece off its cuts. */
  lemma {:induction false} GreedySound(paths: seq<string>, literal: bool, query: string, start: nat)
    requires start <= |query| && Alternates(paths, literal) && Segments(paths, query, start).Some?
    ensures Sound(paths, literal, query, start, GreedyCuts(paths, query, start), Segments(paths, query, start).value)
    decreases |paths|
  {
    if paths != [] {
      AlternatesTail(paths, literal);
      var rest := paths[1..];
      if IsTemplate(paths[0]) {
        if |paths| == 1 {
          LastCapture(paths, query, start);
        } else {
          var e := IndexOf(query, paths[1], start);
          assert rest[0] == paths[1];
          FoundHere(query, rest[0], e);
          GreedySound(rest, true, query, e);
          SoundCons(paths, literal, query, start, start, GreedyCuts(rest, query, e), Segments(rest, query, e).value);
        }
      } else {
        var b := IndexOf(query, paths[0], start);
        var e := b + |paths[0]|;
        GreedySound(rest, false, query, e);
        SoundCons(paths, literal, query, start, b, GreedyCuts(rest, query, e), Segments(rest, query, e).value);
      }
    }
  }

  lemma {:induction false} LastCapture(paths: seq<string>, query: string, start: nat)
    requires |paths| == 1 && IsTemplate(paths[0]) && start <= |query|
    ensures Sound(paths, false, query, start, [start, |query|], [query[start..]])
  {
    var cuts := [start, |query|];
    assert PieceIs(query, cuts, 0, query[start..]);
  }

  /** Every piece cut by `cuts` starts no later than its counterpart in `other`. */
  predicate NotAfter(cuts: seq<nat>, other: seq<nat>) {
    |cuts| == |other| && forall i :: 0 <= i < |cuts| - 1 ==> cuts[i] <= other[i]
  }

  lemma {:induction false} NotAfterCons(c: nat, cuts: seq<nat>, other: seq<nat>)
    requires |other| > 1 && NotAfter(cuts, other[1..]) && c <= other[0]
    ensures NotAfter([c] + cuts, other)
  {
    var all := [c] + cuts;
    forall i | 0 <= i < |all| - 1 ensures all[i] <= other[i] {
      if i > 0 { assert all[i] == cuts[i - 1] && other[i] == other[1..][i - 1]; }
    }
  }

  ghost predicate GreedyExists(paths: seq<string>, query: string, start: nat, other: seq<nat>)
    requires start <= |query|
  {
    Segments(paths, query, start).Some? && NotAfter(GreedyCuts(paths, query, start), other)
  }

  lemma {:induction false} LiteralPiece(path: string, next: Option<string>, query: string, start: nat, at: nat)
    requires start <= |query| && !IsTemplate(path) && at == IndexOf(query, path, start)
    ensures PieceFor(path, next, query, start) == Some((query[at..at + |path|], at + |path|))
  {}

  lemma {:induction false} CapturePiece(path: string, next: string, query: string, start: nat, at: nat)
    requires start <= |query| && IsTemplate(path) && at == IndexOf(query, next, start)
    ensures PieceFor(path, Some(next), query, start) == Some((query[start..at], at))
  {}

  lemma {:induction false} GreedyUnfolds(paths: seq<string>, query: string, start: nat, piece: string, c: nat, e: nat)
    requires start <= |query| && paths != [] && e <= |query| && !EndsInCapture(paths)
    requires PieceFor(paths[0], Next(paths, 0), query, start) == Some((piece, e)) && c == FirstCut(paths[0], query, start)
    requires Segments(paths[1..], query, e).Some?
    ensures Segments(paths, query, start) == Some([piece] + Segments(paths[1..], query, e).value)
    ensures GreedyCuts(paths, query, start) == [c] + GreedyCuts(paths[1..], query, e)
  {}

  lemma {:induction false} GreedyCons(paths: seq<string>, query: string, start: nat, c: nat, e: nat, other: seq<nat>)
    requires start <= |query| && paths != [] && e <= |query|
    requires if IsTemplate(paths[0]) then |paths| > 1 && c == start && e == IndexOf(query, paths[1], start)
             else c == IndexOf(query, paths[0], start) && e == c + |paths[0]|
    requires |other| > 1 && c <= other[0] && GreedyExists(paths[1..], query, e, other[1..])
    ensures GreedyExists(paths, query, start, other)
  {
    if IsTemplate(paths[0]) {
      CapturePiece(paths[0], paths[1], query, start, e);
      GreedyUnfolds(paths, query, start, query[start..e], c, e);
    } else {
      LiteralPiece(paths[0], Next(paths, 0), query, start, c);
      GreedyUnfolds(paths, query, start, query[c..e], c, e);
    }
    NotAfterCons(c, GreedyCuts(paths[1..], query, e), other);
  }

  lemma {:induction false} GreedyLast(paths: seq<string>, query: string, start: nat, other: seq<nat>)
    requires start <= |query| && |other| == |paths| + 1
    requires paths != [] ==> |paths| == 1 && IsTemplate(paths[0]) && start <= other[0]
    ensures GreedyExists(paths, query, start, other)
  {}

  /** At a literal: it is found, and not after its place in the other instance. */
  lemma {:induction false} LiteralFirst(paths: seq<string>, query: string, start: nat, other: seq<nat>)
    requires paths != [] && start <= |query| && IsInstance(paths, true, query, other) && start <= other[0]
    ensures var at := IndexOf(query, paths[0], start); var to := at + |paths[0]|;
            0 <= at <= other[0] && to <= |query| && to <= other[1..][0]
  {
    InstanceTail(paths, true, query, other);
  }

  /** At a capture: the literal after it is found, and not after its place in the other instance. */
  lemma {:induction false} CaptureFirst(paths: seq<string>, query: string, start: nat, other: seq<nat>)
    requires |paths| > 1 && start <= |query| && IsInstance(paths, false, query, other) && start <= other[0]
    ensures 0 <= IndexOf(query, paths[1], start) <= other[1..][0]
  {
    InstanceTail(paths, false, query, other);
    InstanceTail(paths[1..], true, query, other[1..]);
  }

  /** Exchange argument: an instance is never ahead of the greedy one, so the greedy one exists. */
  lemma {:induction false} GreedyComplete(paths: seq<string>, literal: bool, query: string, start: nat, other: seq<nat>)
    requires start <= |query| && Alternates(paths, literal)
    requires IsInstance(paths, literal, query, other) && start <= other[0]
    ensures GreedyExists(paths, query, start, other)
    decreases |paths|
  {
    if paths == [] || (!literal && |paths| == 1) {
      GreedyLast(paths, query, start, other);
    } else if literal {
      var at := IndexOf(query, paths[0], start);
      var to := at + |paths[0]|;
      AlternatesTail(paths, literal);
      InstanceTail(paths, literal, query, other);
      LiteralFirst(paths, query, start, other);
      GreedyComplete(paths[1..], false, query, to, other[1..]);
      GreedyCons(paths, query, start, at, to, other);
    } else {
      var at := IndexOf(query, paths[1], start);
      AlternatesTail(paths, literal);
      InstanceTail(paths, literal, query, other);
      CaptureFirst(paths, query, start, other);
      GreedyComplete(paths[1..], true, query, at, other[1..]);
      GreedyCons(paths, query, start, start, at, other);
    }
  }

  /** A capture followed by a literal stops at the first place where that literal occurs. */
  lemma {:induction false} GreedyCapturesShortest(paths: seq<string>, literal: bool, query: string, start: nat, i: nat, k: nat)
    requires start <= |query| && Alternates(paths, literal) && Segments(paths, query, start).Some?
    requires i + 1 < |paths| && IsTemplate(paths[i])
    requires GreedyCuts(paths, query, start)[i] <= k < GreedyCuts(paths, query, start)[i + 1]
    ensures !OccursAt(query, paths[i + 1], k)
    decreases |paths|
  {
    AlternatesTail(paths, literal);
    var rest := paths[1..];
    assert rest[i] == paths[i + 1];
    if IsTemplate(paths[0]) {
      var e := IndexOf(query, paths[1], start);
      FoundHere(query, rest[0], e);
      if i > 0 { GreedyCapturesShortest(rest, true, query, e, i - 1, k); }
    } else {
      var e := IndexOf(query, paths[0], start) + |paths[0]|;
      GreedyCapturesShortest(rest, false, query, e, i - 1, k);
    }
  }

  lemma {:induction false} ReadsText(query: string, cuts: seq<nat>, found: seq<string>)
    requires Reads(query, cuts, found)
    ensures cuts[0] <= cuts[|found|] && Concat(found) == query[cuts[0]..cuts[|found|]]
    decreases |found|
  {
    if found != [] {
      forall i | 0 <= i < |found| - 1 ensures PieceIs(query, cuts[1..], i, found[1..][i]) {
        assert found[1..][i] == found[i + 1];
        PieceTail(query, cuts, i, found[i + 1]);
      }
      ReadsText(query, cuts[1..], found[1..]);
      assert PieceIs(query, cuts, 0, found[0]);
    }
  }

  predicate AbsentBetween(query: string, text: string, from: nat, to: nat) {
    forall k :: from <= k < to ==> !OccursAt(query, text, k)
  }

  /** The literal after capture `i` occurs nowhere inside the capture. */
  ghost predicate ShortestCapture(paths: seq<string>, query: string, cuts: seq<nat>, i: nat)
    requires |cuts| == |paths| + 1
  {
    i + 1 < |paths| && IsTemplate(paths[i]) ==> AbsentBetween(query, paths[i + 1], cuts[i], cuts[i + 1])
  }

  /** `found` lists the segments of the instance `cuts`, which no other instance precedes anywhere. */
  ghost predicate IsBestInstance(paths: seq<string>, literal: bool, query: string, cuts: seq<nat>, found: seq<string>) {
    && IsInstance(paths, literal, query, cuts)
    && |found| == |paths| && Reads(query, cuts, found)
    && (forall i :: 0 <= i < |paths| && IsLiteral(i, literal) ==> found[i] == paths[i])
    && cuts[0] <= cuts[|paths|] && Concat(found) == query[cuts[0]..cuts[|paths|]]
    && (forall other, i :: IsInstance(paths, literal, query, other) && 0 <= i < |paths| ==> cuts[i] <= other[i])
    && (forall i :: 0 <= i < |paths| ==> ShortestCapture(paths, query, cuts, i))
  }

  lemma {:induction false} GreedyIsShortest(paths: seq<string>, literal: bool, query: string, i: nat)
    requires Alternates(paths, literal) && Segments(paths, query, 0).Some?
    ensures ShortestCapture(paths, query, GreedyCuts(paths, query, 0), i)
  {
    if i + 1 < |paths| && IsTemplate(paths[i]) {
      var cuts, next := GreedyCuts(paths, query, 0), paths[i + 1];
      forall k | cuts[i] <= k < cuts[i + 1] ensures !OccursAt(query, next, k) {
        GreedyCapturesShortest(paths, literal, query, 0, i, k);
      }
    }
  }

  lemma {:induction false} LiteralsAreKept(paths: seq<string>, literal: bool, query: string, cuts: seq<nat>, found: seq<string>)
    requires IsInstance(paths, literal, query, cuts) && |found| == |paths| && Reads(query, cuts, found)
    ensures forall i :: 0 <= i < |paths| && IsLiteral(i, literal) ==> found[i] == paths[i]
  {
    forall i | 0 <= i < |paths| && IsLiteral(i, literal) ensures found[i] == paths[i] {
      assert PieceIs(query, cuts, i, paths[i]) && PieceIs(query, cuts, i, found[i]);
    }
  }

  lemma {:induction false} GreedyIsBest(paths: seq<string>, literal: bool, query: string)
    requires Alternates(paths, literal) && Segments(paths, query, 0).Some?
    ensures IsBestInstance(paths, literal, query, GreedyCuts(paths, query, 0), Matched(paths, query))
  {
    GreedySound(paths, literal, query, 0);
    var cuts := GreedyCuts(paths, query, 0);
    ReadsText(query, cuts, Matched(paths, query));
    LiteralsAreKept(paths, literal, query, cuts, Matched(paths, query));
    forall other, i | IsInstance(paths, literal, query, other) && 0 <= i < |paths| ensures cuts[i] <= other[i] {
      GreedyComplete(paths, literal, query, 0, other);
    }
    forall i | 0 <= i < |paths| ensures ShortestCapture(paths, query, cuts, i) {
      GreedyIsShortest(paths, literal, query, i);
    }
  }

  /**
   * Soundness and completeness of the matcher, for any alternating pattern: a list as long as the
   * pattern comes back exactly when the query contains an instance of it, and then it is one:
   * contiguous, keeping every literal, leftmost among all instances and with shortest captures.
   */
  lemma {:induction false} MatchIsLeftmostInstance(paths: seq<string>, literal: bool, query: string)
    requires Alternates(paths, literal)
    ensures |Matched(paths, query)| == |paths| <==> Occurs(paths, literal, query)
    ensures !Occurs(paths, literal, query) ==> Matched(paths, query) == []
    ensures Occurs(paths, literal, query) ==>
              exists cuts :: IsBestInstance(paths, literal, query, cuts, Matched(paths, query))
  {
    if Segments(paths, query, 0).Some? {
      GreedyIsBest(paths, literal, query);
    } else {
      if cuts :| IsInstance(paths, literal, query, cuts) { GreedyComplete(paths, literal, query, 0, cuts); }
      assert paths != [];
    }
  }
}
