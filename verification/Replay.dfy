/**
 * Choosing the recorded call that answers a request, `BasicReplayPlugin.findIndex`, and using each
 * recorded call once.
 */
module Replay {
  import opened Wrappers
  import opened JavaInt
  import opened Text
  import opened Sorting
  import opened Storage
  import opened Tags
  import opened Callbacks

  datatype Query = Query(kind: Option<string>, caller: string, tags: map<string, Option<string>>)

  /** Settings of the plugin, and what a protocol's own plugin says about repeatable messages. */
  datatype Config = Config(
    repeatableItems: set<string>,
    verifyContentRepeatable: CompactLine -> bool,
    blockExternal: bool,
    ignoreTrivialCalls: bool)

  datatype FindResult = FindResult(line: CompactLine, repeated: bool)

  // ---------------------------------------------------------------- matching

  predicate TypeMatching(kind: Option<string>, possible: Option<string>) {
    && !IsResponse(possible)
    && (kind.None? || kind.value == "" || (possible.Some? && EqualsIgnoreCase(kind.value, possible.value)))
  }

  predicate IsCandidate(line: CompactLine, query: Query) {
    TypeMatching(query.kind, line.kind) && EqualsIgnoreCase(line.caller, query.caller)
  }

  function IntIndex(line: CompactLine): int { Int32(line.index) }

  /** Lines with the type and the caller asked for, by index. */
  function Candidates(lines: seq<CompactLine>, query: Query): seq<CompactLine> {
    Matching(SortBy(IntIndex, lines), query)
  }

  function Matching(lines: seq<CompactLine>, query: Query): seq<CompactLine> {
    if lines == [] then []
    else (if IsCandidate(lines[0], query) then [lines[0]] else []) + Matching(lines[1..], query)
  }

  lemma {:induction false} MatchingIs(lines: seq<CompactLine>, query: Query)
    ensures forall l :: l in Matching(lines, query) <==> l in lines && IsCandidate(l, query)
    ensures SortedBy(IntIndex, lines) ==> SortedBy(IntIndex, Matching(lines, query))
    decreases |lines|
  {
    if lines != [] {
      var rest := Matching(lines[1..], query);
      MatchingIs(lines[1..], query);
      assert forall l :: l in lines <==> l == lines[0] || l in lines[1..];
      if SortedBy(IntIndex, lines) {
        forall k | 0 <= k < |rest| ensures IntIndex(lines[0]) <= IntIndex(rest[k]) {
          assert rest[k] in rest;
          var j :| 0 <= j < |lines| - 1 && lines[1..][j] == rest[k];
          assert lines[j + 1] == rest[k];
        }
      }
    }
  }

  predicate IsRepeatable(config: Config, line: CompactLine) {
    line.kind.Some? && line.kind.value in config.repeatableItems && config.verifyContentRepeatable(line)
  }

  /** The indexes kept as used are 32-bit; a line is used when one of them equals its index. */
  predicate IsUsed(used: set<int>, line: CompactLine) { line.index in used }

  // ---------------------------------------------------------------- the best match

  /** `best` has the highest score in the pool, and among equals the lowest index. */
  predicate IsBest(best: CompactLine, pool: set<CompactLine>, query: Query) {
    && best in pool
    && forall l :: l in pool ==>
         Score(l.tags, query.tags) < Score(best.tags, query.tags)
         || (Score(l.tags, query.tags) == Score(best.tags, query.tags) && IntIndex(best) <= IntIndex(l))
  }

  /** The lines a request could still consume. */
  function Unused(lines: seq<CompactLine>, query: Query, used: set<int>): set<CompactLine> {
    set l | l in lines && IsCandidate(l, query) && !IsUsed(used, l)
  }

  function Repeats(lines: seq<CompactLine>, query: Query, used: set<int>, config: Config): set<CompactLine> {
    set l | l in lines && IsCandidate(l, query) && IsUsed(used, l) && IsRepeatable(config, l)
  }

  /** A repeatable candidate when the real server may be asked instead. */
  predicate MustForward(lines: seq<CompactLine>, query: Query, config: Config) {
    !config.blockExternal && exists l :: l in lines && IsCandidate(l, query) && IsRepeatable(config, l)
  }

  /** What `findIndex` is to return. */
  predicate IsFound(r: Option<FindResult>, lines: seq<CompactLine>, query: Query, used: set<int>, config: Config) {
    if MustForward(lines, query, config) then r == None
    else if Unused(lines, query, used) != {} then
      r.Some? && !r.value.repeated && IsBest(r.value.line, Unused(lines, query, used), query)
    else if config.ignoreTrivialCalls && Repeats(lines, query, used, config) != {} then
      r.Some? && r.value.repeated && IsBest(r.value.line, Repeats(lines, query, used, config), query)
    else r == None
  }

  /** The best line of the pool seen so far, with its score; none and -1 while the pool is empty. */
  predicate IsBestSoFar(best: Option<CompactLine>, score: int, pool: set<CompactLine>, query: Query) {
    if best.None? then score == -1 && pool == {}
    else score == Score(best.value.tags, query.tags) && IsBest(best.value, pool, query)
  }

  predicate NoneAfter(pool: set<CompactLine>, line: CompactLine) { forall l :: l in pool ==> IntIndex(l) <= IntIndex(line) }

  lemma {:induction false} BestGrows(best: Option<CompactLine>, score: int, pool: set<CompactLine>, query: Query, line: CompactLine)
    requires IsBestSoFar(best, score, pool, query)
    requires NoneAfter(pool, line)
    ensures var s := Score(line.tags, query.tags);
            if s > score then IsBestSoFar(Some(line), s, pool + {line}, query)
            else IsBestSoFar(best, score, pool + {line}, query)
  {}

  function UnusedIn(seen: seq<CompactLine>, used: set<int>): set<CompactLine> {
    set l | l in seen && !IsUsed(used, l)
  }

  function RepeatsIn(seen: seq<CompactLine>, used: set<int>, config: Config): set<CompactLine> {
    set l | l in seen && config.ignoreTrivialCalls && IsUsed(used, l) && IsRepeatable(config, l)
  }

  predicate AnyRepeatable(seen: seq<CompactLine>, config: Config) { exists l :: l in seen && IsRepeatable(config, l) }

  lemma {:induction false} CandidatesAre(lines: seq<CompactLine>, query: Query)
    ensures forall l :: l in Candidates(lines, query) <==> l in lines && IsCandidate(l, query)
    ensures SortedBy(IntIndex, Candidates(lines, query))
  {
    SortIs(IntIndex, lines);
    MatchingIs(SortBy(IntIndex, lines), query);
  }

  lemma {:induction false} PoolsGrow(idx: seq<CompactLine>, k: nat, used: set<int>, config: Config)
    requires k < |idx| && SortedBy(IntIndex, idx)
    ensures UnusedIn(idx[..k + 1], used)
            == if IsUsed(used, idx[k]) then UnusedIn(idx[..k], used) else UnusedIn(idx[..k], used) + {idx[k]}
    ensures RepeatsIn(idx[..k + 1], used, config)
            == if config.ignoreTrivialCalls && IsUsed(used, idx[k]) && IsRepeatable(config, idx[k])
               then RepeatsIn(idx[..k], used, config) + {idx[k]} else RepeatsIn(idx[..k], used, config)
    ensures AnyRepeatable(idx[..k + 1], config) <==> AnyRepeatable(idx[..k], config) || IsRepeatable(config, idx[k])
    ensures NoneAfter(UnusedIn(idx[..k], used), idx[k]) && NoneAfter(RepeatsIn(idx[..k], used, config), idx[k])
  {
    assert idx[..k + 1] == idx[..k] + [idx[k]];
    assert forall l :: l in idx[..k + 1] <==> l in idx[..k] || l == idx[k];
  }

  lemma {:induction false} RepeatableForwards(lines: seq<CompactLine>, query: Query, config: Config, line: CompactLine)
    requires line in Candidates(lines, query) && IsRepeatable(config, line) && !config.blockExternal
    ensures MustForward(lines, query, config)
  {
    CandidatesAre(lines, query);
  }

  lemma {:induction false} PoolsAreAll(lines: seq<CompactLine>, query: Query, used: set<int>, config: Config)
    ensures UnusedIn(Candidates(lines, query), used) == Unused(lines, query, used)
    ensures RepeatsIn(Candidates(lines, query), used, config)
            == if config.ignoreTrivialCalls then Repeats(lines, query, used, config) else {}
    ensures MustForward(lines, query, config) <==> !config.blockExternal && AnyRepeatable(Candidates(lines, query), config)
  {
    CandidatesAre(lines, query);
  }

  lemma {:induction false} ScheduledStep(responses: seq<StorageItem>, k: nat, indexes: seq<CompactLine>, contexts: seq<TagMap>, batch: seq<StorageItem>)
    requires k < |responses|
    ensures batch + Scheduled(responses[k..], indexes, contexts)
            == (if IsAwaited(responses[k].index, indexes, contexts) then batch + [responses[k]] else batch)
               + Scheduled(responses[k + 1..], indexes, contexts)
  {
    assert responses[k..][0] == responses[k] && responses[k..][1..] == responses[k + 1..];
  }

  lemma {:induction false} UsedByGrows(batch: seq<StorageItem>, response: StorageItem)
    ensures UsedBy(batch + [response]) == UsedBy(batch) + {Int32(response.index)}
  {
    var all := batch + [response];
    assert all[|batch|] == response && forall i :: 0 <= i < |batch| ==> all[i] == batch[i];
  }

  /** The best lines once all candidates are seen give the answer. */
  function Chosen(best: Option<CompactLine>, repeated: Option<CompactLine>): Option<FindResult> {
    if best.Some? then Some(FindResult(best.value, false))
    else if repeated.Some? then Some(FindResult(repeated.value, true))
    else None
  }

  lemma {:induction false} ChosenIsFound(lines: seq<CompactLine>, query: Query, used: set<int>, config: Config,
                      best: Option<CompactLine>, score: int, repeated: Option<CompactLine>, repeatedScore: int)
    requires IsBestSoFar(best, score, UnusedIn(Candidates(lines, query), used), query)
    requires IsBestSoFar(repeated, repeatedScore, RepeatsIn(Candidates(lines, query), used, config), query)
    requires config.blockExternal || !AnyRepeatable(Candidates(lines, query), config)
    ensures IsFound(Chosen(best, repeated), lines, query, used, config)
  {
    PoolsAreAll(lines, query, used, config);
  }

  // ---------------------------------------------------------------- what is found, field by field

  /** The line is a call of the type asked for, if one is, and from the caller asked for. */
  predicate IsOfKind(line: CompactLine, query: Query) {
    && !(line.kind.Some? && EqualsIgnoreCase(line.kind.value, "RESPONSE"))
    && (query.kind.Some? && query.kind.value != "" ==> line.kind.Some? && EqualsIgnoreCase(query.kind.value, line.kind.value))
    && EqualsIgnoreCase(line.caller, query.caller)
  }

  /** A protocol may repeat the line: its type is one of those to repeat, and so is what it holds. */
  predicate MayRepeat(line: CompactLine, config: Config) {
    line.kind.Some? && line.kind.value in config.repeatableItems && config.verifyContentRepeatable(line)
  }

  lemma {:induction false} PoolsAre(lines: seq<CompactLine>, query: Query, used: set<int>, config: Config)
    ensures forall l :: l in Unused(lines, query, used) <==> l in lines && IsOfKind(l, query) && l.index !in used
    ensures forall l :: l in Repeats(lines, query, used, config)
                        <==> l in lines && IsOfKind(l, query) && l.index in used && MayRepeat(l, config)
    ensures MustForward(lines, query, config)
            <==> !config.blockExternal && exists l :: l in lines && IsOfKind(l, query) && MayRepeat(l, config)
  {
    assert forall l :: IsCandidate(l, query) <==> IsOfKind(l, query);
    assert forall l :: IsRepeatable(config, l) <==> MayRepeat(l, config);
  }

  /**
   * The answer of `findIndex`: nothing exactly when a line that may be repeated is left to the real server,
   * or no line that fits is left, used ones that may be repeated included; and otherwise no line it could
   * have found agrees on more tags, nor on as many under a lower index.
   */
  lemma {:induction false} FoundIs(r: Option<FindResult>, lines: seq<CompactLine>, query: Query, used: set<int>, config: Config)
    requires IsFound(r, lines, query, used, config)
    ensures r.None? <==>
              || (!config.blockExternal && exists l :: l in lines && IsOfKind(l, query) && MayRepeat(l, config))
              || forall l :: l in lines && IsOfKind(l, query) ==> l.index in used && !(config.ignoreTrivialCalls && MayRepeat(l, config))
    ensures r.Some? ==>
              var best := r.value.line;
              && best in lines && IsOfKind(best, query) && (best.index in used <==> r.value.repeated)
              && (r.value.repeated ==>
                    config.ignoreTrivialCalls && config.blockExternal && MayRepeat(best, config)
                    && forall l :: l in lines && IsOfKind(l, query) ==> l.index in used)
              && forall l :: l in lines && IsOfKind(l, query) && (r.value.repeated ==> MayRepeat(l, config))
                             && (l.index in used <==> r.value.repeated) ==>
                   Score(l.tags, query.tags) < Score(best.tags, query.tags)
                   || (Score(l.tags, query.tags) == Score(best.tags, query.tags) && Int32(best.index) <= Int32(l.index))
  {
    PoolsAre(lines, query, used, config);
    var unused, repeats := Unused(lines, query, used), Repeats(lines, query, used, config);
    if unused == {} {
      assert forall l :: l in lines && IsOfKind(l, query) ==> l.index in used;
    } else {
      var l :| l in unused;
    }
    if r.Some? && r.value.repeated {
      assert r.value.line in repeats;
    } else if r.Some? {
      assert r.value.line in unused;
    }
  }

  /** Of the unused lines that fit, this one alone agrees on every tag of the request, and nothing is left to the real server. */
  predicate IsOnlyMatch(line: CompactLine, lines: seq<CompactLine>, query: Query, used: set<int>, config: Config) {
    && line in lines && IsOfKind(line, query) && line.index !in used && AgreeOnAll(line.tags, query.tags)
    && (forall l :: l in lines && IsOfKind(l, query) && l.index !in used && AgreeOnAll(l.tags, query.tags) ==> l == line)
    && (config.blockExternal || forall l :: l in lines && IsOfKind(l, query) ==> !MayRepeat(l, config))
  }

  /** Such a line is what is found. */
  lemma {:induction false} OnlyMatchIsFound(r: Option<FindResult>, line: CompactLine, lines: seq<CompactLine>, query: Query,
                         used: set<int>, config: Config)
    requires IsFound(r, lines, query, used, config) && IsOnlyMatch(line, lines, query, used, config)
    ensures r == Some(FindResult(line, false))
  {
    FoundIs(r, lines, query, used, config);
    var best := r.value.line;
    ScoreIsFullIff(line.tags, query.tags);
    ScoreIsFullIff(best.tags, query.tags);
    assert line.index !in used;
  }

  class ReplayPlugin {
    const config: Config
    var indexes: seq<CompactLine>
    var repeatable: seq<CompactLine>
    var completedIndexes: set<int>
    var completedOutIndexes: set<int>
    var active: bool

    constructor (config: Config)
      ensures this.config == config && !active && indexes == [] && completedIndexes == {} && completedOutIndexes == {}
    {
      this.config := config;
      active := false;
      indexes, repeatable := [], [];
      completedIndexes, completedOutIndexes := {}, {};
    }

    /** `handleActivation`; `loaded` is the index the repository has once the StartPlay event is handled. */
    method HandleActivation(active: bool, loaded: seq<CompactLine>)
      modifies this
      ensures this.active == active
      ensures active == old(this.active) ==>
                indexes == old(indexes) && completedIndexes == old(completedIndexes)
                && completedOutIndexes == old(completedOutIndexes) && repeatable == old(repeatable)
      ensures active != old(this.active) ==> completedIndexes == {} && completedOutIndexes == {}
      ensures active && !old(this.active) ==>
                && indexes == WithoutLeadingResponses(loaded)
                && forall l :: l in repeatable <==> l in loaded && l.kind.Some? && l.kind.value in config.repeatableItems
      ensures !active && old(this.active) ==> indexes == [] && repeatable == old(repeatable)
    {
      if this.active != active {
        this.active := active;
        completedOutIndexes := {};
        completedIndexes := {};
        if active {
          indexes, repeatable := Clean(loaded);
        } else {
          indexes := [];
        }
      }
    }

    /** The responses in front of the first call are dropped. */
    method Clean(toCleanIndexes: seq<CompactLine>) returns (kept: seq<CompactLine>, repeatableLines: seq<CompactLine>)
      ensures kept == WithoutLeadingResponses(toCleanIndexes)
      ensures forall l :: l in repeatableLines
                          <==> l in toCleanIndexes && l.kind.Some? && l.kind.value in config.repeatableItems
    {
      var fromHereTheyAreNotResponses := false;
      kept, repeatableLines := [], [];
      assert toCleanIndexes[0..] == toCleanIndexes;
      for k := 0 to |toCleanIndexes|
        invariant WithoutLeadingResponses(toCleanIndexes)
                  == if fromHereTheyAreNotResponses then kept + toCleanIndexes[k..]
                     else WithoutLeadingResponses(toCleanIndexes[k..])
        invariant !fromHereTheyAreNotResponses ==> kept == []
        invariant forall l :: l in repeatableLines
                              <==> l in toCleanIndexes[..k] && l.kind.Some? && l.kind.value in config.repeatableItems
      {
        var toClean := toCleanIndexes[k];
        assert toCleanIndexes[k..] == [toClean] + toCleanIndexes[k + 1..];
        assert toCleanIndexes[..k + 1] == toCleanIndexes[..k] + [toClean];
        if toClean.kind.Some? && toClean.kind.value in config.repeatableItems {
          repeatableLines := repeatableLines + [toClean];
        }
        if fromHereTheyAreNotResponses {
          kept := kept + [toClean];
        } else if !IsResponse(toClean.kind) {
          fromHereTheyAreNotResponses := true;
          kept := kept + [toClean];
        }
      }
      assert toCleanIndexes[..|toCleanIndexes|] == toCleanIndexes;
    }

    /** A line replaces the best one so far only when it scores higher. */
    method KeepBetter(best: Option<CompactLine>, maxMatch: int, ghost pool: set<CompactLine>, query: Query, index: CompactLine)
      returns (better: Option<CompactLine>, score: int)
      requires IsBestSoFar(best, maxMatch, pool, query) && NoneAfter(pool, index)
      ensures IsBestSoFar(better, score, pool + {index}, query)
    {
      var currentMatch := TagsMatching(index.tags, query.tags);
      BestGrows(best, maxMatch, pool, query, index);
      better, score := best, maxMatch;
      if currentMatch > maxMatch {
        score := currentMatch;
        better := Some(index);
      }
    }

    /** The body of the loop over the candidates; `unused` and `repeats` are those weighed before. */
    method Weigh(index: CompactLine, query: Query, isRepeatableItem: bool,
                 best: Option<CompactLine>, maxMatch: int, ghost unused: set<CompactLine>,
                 bestRepeated: Option<CompactLine>, maxMatchRepeated: int, ghost repeats: set<CompactLine>)
      returns (better: Option<CompactLine>, score: int, betterRepeated: Option<CompactLine>, scoreRepeated: int)
      requires IsBestSoFar(best, maxMatch, unused, query) && NoneAfter(unused, index)
      requires IsBestSoFar(bestRepeated, maxMatchRepeated, repeats, query) && NoneAfter(repeats, index)
      ensures var used := IsUsed(completedIndexes, index);
              && IsBestSoFar(better, score, if used then unused else unused + {index}, query)
              && IsBestSoFar(betterRepeated, scoreRepeated,
                             if config.ignoreTrivialCalls && used && isRepeatableItem then repeats + {index} else repeats, query)
    {
      better, score, betterRepeated, scoreRepeated := best, maxMatch, bestRepeated, maxMatchRepeated;
      if index.index in completedIndexes {
        if config.ignoreTrivialCalls && isRepeatableItem {
          betterRepeated, scoreRepeated := KeepBetter(bestRepeated, maxMatchRepeated, repeats, query, index);
        }
      } else {
        better, score := KeepBetter(best, maxMatch, unused, query, index);
      }
    }

    method FindIndex(query: Query) returns (r: Option<FindResult>)
      ensures IsFound(r, indexes, query, completedIndexes, config)
    {
      var idx := Candidates(indexes, query);
      CandidatesAre(indexes, query);
      var bestIndex: Option<CompactLine> := None;
      var bestIndexRepeated: Option<CompactLine> := None;
      var maxMatch: int, maxMatchRepeated: int := -1, -1;
      for k := 0 to |idx|
        invariant IsBestSoFar(bestIndex, maxMatch, UnusedIn(idx[..k], completedIndexes), query)
        invariant IsBestSoFar(bestIndexRepeated, maxMatchRepeated, RepeatsIn(idx[..k], completedIndexes, config), query)
        invariant config.blockExternal || !AnyRepeatable(idx[..k], config)
      {
        var index := idx[k];
        PoolsGrow(idx, k, completedIndexes, config);
        var isRepeatableItem := IsRepeatable(config, index);
        if isRepeatableItem && !config.blockExternal {
          RepeatableForwards(indexes, query, config, index);
          return None;
        }
        bestIndex, maxMatch, bestIndexRepeated, maxMatchRepeated := Weigh(index, query, isRepeatableItem,
          bestIndex, maxMatch, UnusedIn(idx[..k], completedIndexes),
          bestIndexRepeated, maxMatchRepeated, RepeatsIn(idx[..k], completedIndexes, config));
      }
      assert idx[..|idx|] == idx;
      ChosenIsFound(indexes, query, completedIndexes, config, bestIndex, maxMatch, bestIndexRepeated, maxMatchRepeated);
      return Chosen(bestIndex, bestIndexRepeated);
    }

    /**
     * `loadAndPrepareTheAsyncResponses`, for a plugin that has callbacks: the batch to be sent back, or
     * `None` when a line without a type ends the search with an exception.
     */
    method LoadAndPrepareTheAsyncResponses(repo: ProtocolRepo, afterIndex: int, contexts: seq<TagMap>)
      returns (result: Option<seq<StorageItem>>)
      modifies this`completedOutIndexes
      ensures result.Some? <==> Responses(repo, afterIndex, old(completedOutIndexes)).Some?
      ensures result.Some? ==> result.value == Batch(repo, indexes, Replayed(afterIndex, contexts), old(completedOutIndexes))
      ensures completedOutIndexes == old(completedOutIndexes) + if result.Some? then UsedBy(result.value) else {}
    {
      var found := ReadResponsesFromScenario(repo, afterIndex, completedOutIndexes);
      if found.None? { return None; }
      var batch := Schedule(SortBy(ItemTime, found.value), contexts);
      return Some(batch);
    }

    /** The loop over the responses: those awaited are marked as used and kept. */
    method Schedule(responses: seq<StorageItem>, contexts: seq<TagMap>) returns (batch: seq<StorageItem>)
      modifies this`completedOutIndexes
      ensures batch == Scheduled(responses, indexes, contexts)
      ensures completedOutIndexes == old(completedOutIndexes) + UsedBy(batch)
    {
      batch := [];
      ghost var before := completedOutIndexes;
      assert responses[0..] == responses;
      for k := 0 to |responses|
        invariant Scheduled(responses, indexes, contexts) == batch + Scheduled(responses[k..], indexes, contexts)
        invariant completedOutIndexes == before + UsedBy(batch)
      {
        var response := responses[k];
        ScheduledStep(responses, k, indexes, contexts, batch);
        UsedByGrows(batch, response);
        var awaited := IsResponseAwaited(response.index, contexts);
        if awaited {
          completedOutIndexes := completedOutIndexes + {Int32(response.index)};
          batch := batch + [response];
        }
      }
      assert responses[|responses|..] == [] && batch + [] == batch;
    }

    /** The first line with the index, then the first connection with a tag in common with it. */
    method IsResponseAwaited(index: int, contexts: seq<TagMap>) returns (awaited: bool)
      ensures awaited == IsAwaited(index, indexes, contexts)
    {
      var k := 0;
      assert indexes[0..] == indexes;
      while k < |indexes| && indexes[k].index != index
        invariant 0 <= k <= |indexes|
        invariant IsAwaited(index, indexes, contexts) == IsAwaited(index, indexes[k..], contexts)
      {
        assert indexes[k..][0] == indexes[k] && indexes[k..][1..] == indexes[k + 1..];
        k := k + 1;
      }
      if k == |indexes| { return false; }
      assert indexes[k..][0] == indexes[k];
      for c := 0 to |contexts|
        invariant forall i :: 0 <= i < c ==> Score(indexes[k].tags, contexts[i]) == 0
      {
        var score := TagsMatching(indexes[k].tags, contexts[c]);
        if score > 0 { return true; }
      }
      return false;
    }

    /** `readStorageItem`: a copy without the type for a repeated call, nothing if that could go to the real server. */
    method ReadStorageItem(repo: ProtocolRepo, index: FindResult) returns (item: Option<StorageItem>)
      ensures item == ItemRead(repo, config, index)
    {
      item := Lookup(repo, index.line.index);
      if item.Some? && index.repeated {
        if !config.blockExternal { return None; }
        item := Some(StorageItem(item.value.index, item.value.timestamp, None, item.value.content));
      }
    }

    ghost function Now(): Memory
      reads this`completedIndexes, this`completedOutIndexes
    {
      Memory(completedIndexes, completedOutIndexes)
    }

    function Plays(repo: ProtocolRepo, hasCallbacks: bool): Playback
      reads this`indexes
    {
      Playback(indexes, repo, config, hasCallbacks)
    }

    /**
     * `sendAndExpect`: the line found, whether the request was answered, and the callbacks scheduled;
     * `Thrown` is a null reference inside the search for callbacks.
     */
    method SendAndExpect(query: Query, repo: ProtocolRepo, contexts: seq<TagMap>, hasCallbacks: bool) returns (served: Served)
      requires IsConsistent(repo)
      modifies this`completedIndexes, this`completedOutIndexes
      ensures Serves(Plays(repo, hasCallbacks), old(Now()), Request(query, true, contexts), served)
      ensures Now() == MemoryAfter(old(Now()), served)
    {
      var index := FindIndex(query);
      if index.None? { return Served(index, None, NotHandled); }
      var storageItem := ReadStorageItem(repo, index.value);
      if storageItem.None? && index.value.line.index == -1 && !config.blockExternal {
        return Served(index, None, NotHandled);
      }
      var item := if storageItem.Some? then storageItem.value else EMPTY_ITEM.(index := index.value.line.index);
      var outcome := Answer(item, index.value, repo, contexts, hasCallbacks);
      return Served(index, Some(item), outcome);
    }

    /** `sendAndForget`. */
    method SendAndForget(query: Query, repo: ProtocolRepo, contexts: seq<TagMap>, hasCallbacks: bool) returns (served: Served)
      requires IsConsistent(repo)
      modifies this`completedIndexes, this`completedOutIndexes
      ensures Serves(Plays(repo, hasCallbacks), old(Now()), Request(query, false, contexts), served)
      ensures Now() == MemoryAfter(old(Now()), served)
    {
      var index := FindIndex(query);
      if index.None? { return Served(index, None, NotHandled); }
      var storageItem := ReadStorageItem(repo, index.value);
      var item := if storageItem.Some? then storageItem.value else EMPTY_ITEM.(index := index.value.line.index);
      var outcome := Answer(item, index.value, repo, contexts, hasCallbacks);
      return Served(index, Some(item), outcome);
    }

    /** The common end of both: the call is marked as used, then its callbacks are prepared. */
    method Answer(item: StorageItem, index: FindResult, repo: ProtocolRepo, contexts: seq<TagMap>, hasCallbacks: bool)
      returns (outcome: Outcome)
      requires item.index == index.line.index
      modifies this`completedIndexes, this`completedOutIndexes
      ensures outcome == AnswerOf(Plays(repo, hasCallbacks), Replayed(index.line.index, contexts), old(completedOutIndexes))
      ensures Now() == MemoryAfter(old(Now()), Served(Some(index), Some(item), outcome))
    {
      completedIndexes := completedIndexes + {Int32(item.index)};
      if !hasCallbacks {
        assert completedOutIndexes + UsedBy([]) == completedOutIndexes;
        return Handled([]);
      }
      var result := LoadAndPrepareTheAsyncResponses(repo, item.index, contexts);
      outcome := if result.None? then Thrown else Handled(result.value);
    }

    /** `handle`: what was served, and whether the request stops here, `None` for an exception. */
    method Handle(request: Request, repo: ProtocolRepo, hasCallbacks: bool) returns (served: Served, blocks: Option<bool>)
      requires IsConsistent(repo)
      modifies this`completedIndexes, this`completedOutIndexes
      ensures if active then Serves(Plays(repo, hasCallbacks), old(Now()), request, served) else served == Served(None, None, NotHandled)
      ensures Now() == MemoryAfter(old(Now()), served)
      ensures blocks == match served.outcome
                        { case Thrown => None case NotHandled => Some(active && config.blockExternal) case Handled(_) => Some(true) }
    {
      if !active { return Served(None, None, NotHandled), Some(false); }
      if request.expectsAnswer {
        served := SendAndExpect(request.query, repo, request.contexts, hasCallbacks);
      } else {
        served := SendAndForget(request.query, repo, request.contexts, hasCallbacks);
      }
      match served.outcome
      case Thrown => blocks := None;
      case NotHandled => blocks := Some(config.blockExternal);
      case Handled(_) => blocks := Some(true);
    }

    /** A run of requests between two activations. */
    method HandleAll(requests: seq<Request>, repo: ProtocolRepo, hasCallbacks: bool) returns (results: seq<Served>)
      requires IsConsistent(repo) && active
      modifies this`completedIndexes, this`completedOutIndexes
      ensures IsRun(Plays(repo, hasCallbacks), old(Now()), requests, results)
      decreases |requests|
    {
      results := [];
      if requests != [] {
        var served, _ := Handle(requests[0], repo, hasCallbacks);
        var rest := HandleAll(requests[1..], repo, hasCallbacks);
        results := [served] + rest;
        assert results[1..] == rest;
      }
    }
  }

  /** A request, whether its sender waits for an answer, and the connections open at that moment. */
  datatype Request = Request(query: Query, expectsAnswer: bool, contexts: seq<TagMap>)

  datatype Outcome = NotHandled | Handled(batch: seq<StorageItem>) | Thrown

  /** The line found for a request, the item it is answered with, and what came of it. */
  datatype Served = Served(found: Option<FindResult>, item: Option<StorageItem>, outcome: Outcome)

  /** What stays the same between two activations. */
  datatype Playback = Playback(lines: seq<CompactLine>, repo: ProtocolRepo, config: Config, hasCallbacks: bool)

  /** The indexes of the calls and of the responses used so far. */
  datatype Memory = Memory(used: set<int>, usedOut: set<int>)

  /** A request whose sender waits is not answered for a line of index -1 that holds nothing to answer with. */
  predicate IsRefused(p: Playback, request: Request, found: Option<FindResult>) {
    found.None?
    || (request.expectsAnswer && found.value.line.index == -1 && !p.config.blockExternal
        && (found.value.repeated || Lookup(p.repo, -1).None?))
  }

  function ItemRead(repo: ProtocolRepo, config: Config, found: FindResult): Option<StorageItem> {
    var item := Lookup(repo, found.line.index);
    if item.None? || !found.repeated then item
    else if !config.blockExternal then None
    else Some(item.value.(kind := None))
  }

  /** The item a call is answered with; an empty one of its index if there is none. */
  function ItemFor(p: Playback, found: FindResult): StorageItem {
    var item := ItemRead(p.repo, p.config, found);
    if item.Some? then item.value else EMPTY_ITEM.(index := found.line.index)
  }

  /** The answer to a call: handled, with the batch of its callbacks, or a null reference in the search for them. */
  function AnswerOf(p: Playback, call: Replayed, usedOut: set<int>): Outcome {
    if !p.hasCallbacks then Handled([])
    else if Responses(p.repo, call.startAt, usedOut).None? then Thrown
    else Handled(Batch(p.repo, p.lines, call, usedOut))
  }

  predicate Serves(p: Playback, m: Memory, request: Request, r: Served) {
    && IsFound(r.found, p.lines, request.query, m.used, p.config)
    && if IsRefused(p, request, r.found) then r.outcome == NotHandled && r.item == None
       else r.item == Some(ItemFor(p, r.found.value))
            && r.outcome == AnswerOf(p, Replayed(r.found.value.line.index, request.contexts), m.usedOut)
  }

  /** A request that is not refused marks its call and its callbacks as used, even one that then throws. */
  function MemoryAfter(m: Memory, r: Served): Memory {
    if r.outcome.NotHandled? then m
    else Memory(Marked(m.used, r.found), m.usedOut + if r.outcome.Handled? then UsedBy(r.outcome.batch) else {})
  }

  predicate IsRun(p: Playback, m: Memory, requests: seq<Request>, results: seq<Served>)
    decreases |requests|
  {
    && |results| == |requests|
    && (requests != [] ==>
          Serves(p, m, requests[0], results[0]) && IsRun(p, MemoryAfter(m, results[0]), requests[1..], results[1..]))
  }

  /** The memory of an instance keeps items under their own indexes. */
  predicate IsConsistent(repo: ProtocolRepo) { forall id :: id in repo.inMemoryDb ==> repo.inMemoryDb[id].index == id }

  lemma {:induction false} RememberIsConsistent(repo: ProtocolRepo, items: seq<StorageItem>)
    requires IsConsistent(repo)
    ensures IsConsistent(Remember(repo, items))
    decreases |items|
  {
    if items != [] {
      RememberIsConsistent(Remembered(repo, items[0]), items[1..]);
    }
  }

  /** What `initializeContentForReplay` puts in memory is consistent. */
  lemma {:induction false} ReplayIsConsistent(store: Store, instanceId: string)
    requires instanceId in store.repos ==> IsConsistent(store.repos[instanceId])
    ensures IsConsistent(OpenedForReplay(store, instanceId).repos[instanceId])
  {
    var repo := RepoOf(store, instanceId);
    RememberIsConsistent(repo.(inMemoryDb := map[]), AllItems(store.files, instanceId));
  }

  function WithoutLeadingResponses(lines: seq<CompactLine>): seq<CompactLine> {
    if lines == [] then [] else if IsResponse(lines[0].kind) then WithoutLeadingResponses(lines[1..]) else lines
  }

  // ---------------------------------------------------------------- each call is consumed once

  function Marked(used: set<int>, r: Option<FindResult>): set<int> {
    if r.Some? then used + {Int32(r.value.line.index)} else used
  }

  /** The indexes of the calls used to answer, leaving out repetitions. */
  function FirstUses(results: seq<Served>): seq<int> {
    if results == [] then []
    else (if IsFirstUse(results[0]) then [results[0].found.value.line.index] else []) + FirstUses(results[1..])
  }

  predicate IsFirstUse(r: Served) { !r.outcome.NotHandled? && r.found.Some? && !r.found.value.repeated }

  predicate FitsInt(index: int) { -0x8000_0000 <= index <= 0x7FFF_FFFF }

  predicate Distinct(indexes: seq<int>) { forall i, j :: 0 <= i < j < |indexes| ==> indexes[i] != indexes[j] }

  function CallIndexes(lines: seq<CompactLine>): set<int> {
    set l | l in lines && !IsResponse(l.kind) :: l.index
  }

  /** Every line whose index does not fit is out of reach: a request for it always goes to the real server. */
  ghost predicate OversizedIsForwarded(p: Playback) {
    forall l, query :: l in p.lines && !FitsInt(l.index) && IsCandidate(l, query) ==> MustForward(p.lines, query, p.config)
  }

  lemma {:induction false} FirstUseIs(p: Playback, m: Memory, request: Request, r: Served)
    requires Serves(p, m, request, r) && IsFirstUse(r) && OversizedIsForwarded(p)
    ensures var line := r.found.value.line;
            && line in p.lines && line.index in CallIndexes(p.lines) && line.index !in m.used
            && line.index in MemoryAfter(m, r).used
  {
    var line := r.found.value.line;
    assert line in Unused(p.lines, request.query, m.used);
    assert FitsInt(line.index);
  }

  lemma {:induction false} FirstUsesAreFresh(p: Playback, m: Memory, requests: seq<Request>, results: seq<Served>)
    requires IsRun(p, m, requests, results) && OversizedIsForwarded(p)
    ensures Distinct(FirstUses(results))
    ensures forall i :: i in FirstUses(results) ==> i !in m.used && i in CallIndexes(p.lines)
    decreases |requests|
  {
    if requests != [] {
      var first, rest := results[0], FirstUses(results[1..]);
      FirstUsesAreFresh(p, MemoryAfter(m, first), requests[1..], results[1..]);
      assert m.used <= MemoryAfter(m, first).used;
      if IsFirstUse(first) {
        FirstUseIs(p, m, requests[0], first);
        assert forall k :: 0 <= k < |rest| ==> rest[k] in rest;
      }
    }
  }

  /**
   * Between two activations every recorded call answers at most one request for the first time, so there
   * are no more such answers than recorded calls.
   */
  lemma {:induction false} EachCallOnce(p: Playback, usedOut: set<int>, requests: seq<Request>, results: seq<Served>)
    requires IsRun(p, Memory({}, usedOut), requests, results) && OversizedIsForwarded(p)
    ensures Distinct(FirstUses(results))
    ensures |FirstUses(results)| <= |CallIndexes(p.lines)|
  {
    FirstUsesAreFresh(p, Memory({}, usedOut), requests, results);
    DistinctFits(FirstUses(results), CallIndexes(p.lines));
  }

  lemma {:induction false} DistinctFits(xs: seq<int>, pool: set<int>)
    requires Distinct(xs) && forall x :: x in xs ==> x in pool
    ensures |xs| <= |pool|
    decreases |xs|
  {
    if xs != [] {
      var first, rest := xs[0], xs[1..];
      assert first in xs;
      forall x | x in rest ensures x in pool - {first} {
        var k :| 0 <= k < |rest| && rest[k] == x;
        assert xs[k + 1] == x && first != x;
        assert x in xs;
      }
      assert pool == (pool - {first}) + {first};
      DistinctFits(rest, pool - {first});
    }
  }

  /** Every request that is answered gets the item under the index of its line. */
  lemma {:induction false} AnsweredItem(p: Playback, m: Memory, requests: seq<Request>, results: seq<Served>, k: nat)
    requires IsRun(p, m, requests, results) && k < |results| && results[k].found.Some? && !results[k].outcome.NotHandled?
    ensures results[k].item == Some(ItemFor(p, results[k].found.value))
    decreases k
  {
    if k > 0 { AnsweredItem(p, MemoryAfter(m, results[0]), requests[1..], results[1..], k - 1); }
  }

  // ---------------------------------------------------------------- when a call is not consumed once

  /** A pool that is not empty has a best line. */
  lemma {:induction false} BestExists(pool: set<CompactLine>, query: Query) returns (best: CompactLine)
    requires pool != {}
    ensures IsBest(best, pool, query)
    decreases |pool|
  {
    var l :| l in pool;
    if pool == {l} {
      best := l;
    } else {
      var rest := pool - {l};
      assert pool == rest + {l};
      best := BestExists(rest, query);
      if Beats(l, best, query) {
        forall x | x in rest ensures !Beats(x, l, query) { BeatsIsTransitive(x, l, best, query); }
        best := l;
      }
    }
  }

  /** `a` has a higher score, or the same score and a lower index. */
  predicate Beats(a: CompactLine, b: CompactLine, query: Query) {
    || Score(b.tags, query.tags) < Score(a.tags, query.tags)
    || (Score(b.tags, query.tags) == Score(a.tags, query.tags) && IntIndex(a) < IntIndex(b))
  }

  lemma {:induction false} BeatsIsTransitive(x: CompactLine, l: CompactLine, best: CompactLine, query: Query)
    requires Beats(l, best, query) && !Beats(x, best, query)
    ensures !Beats(x, l, query)
  {}

  lemma {:induction false} FoundExists(lines: seq<CompactLine>, query: Query, used: set<int>, config: Config) returns (r: Option<FindResult>)
    ensures IsFound(r, lines, query, used, config)
  {
    r := None;
    if !MustForward(lines, query, config) {
      if Unused(lines, query, used) != {} {
        var best := BestExists(Unused(lines, query, used), query);
        r := Some(FindResult(best, false));
      } else if config.ignoreTrivialCalls && Repeats(lines, query, used, config) != {} {
        var best := BestExists(Repeats(lines, query, used, config), query);
        r := Some(FindResult(best, true));
      }
    }
  }

  predicate AllFit(used: set<int>) { forall i :: i in used ==> FitsInt(i) }

  /** The same request over and over; every time an unused line is found for it. */
  lemma {:induction false} AlwaysFresh(p: Playback, m: Memory, request: Request, l: CompactLine, n: nat)
    returns (requests: seq<Request>, results: seq<Served>)
    requires l in p.lines && !FitsInt(l.index) && IsCandidate(l, request.query) && !request.expectsAnswer
    requires !MustForward(p.lines, request.query, p.config) && AllFit(m.used)
    ensures |requests| == n && IsRun(p, m, requests, results) && |FirstUses(results)| == n
    decreases n
  {
    requests, results := [], [];
    if n > 0 {
      assert l in Unused(p.lines, request.query, m.used);
      var found := FoundExists(p.lines, request.query, m.used, p.config);
      var first := Served(found, Some(ItemFor(p, found.value)), AnswerOf(p, Replayed(found.value.line.index, request.contexts), m.usedOut));
      var moreRequests, moreResults := AlwaysFresh(p, MemoryAfter(m, first), request, l, n - 1);
      requests, results := [request] + moreRequests, [first] + moreResults;
      assert requests[1..] == moreRequests && results[1..] == moreResults;
    }
  }

  lemma {:induction false} FirstUsesAreCalls(p: Playback, m: Memory, requests: seq<Request>, results: seq<Served>)
    requires IsRun(p, m, requests, results)
    ensures forall i :: i in FirstUses(results) ==> i in CallIndexes(p.lines)
    decreases |requests|
  {
    if requests != [] {
      FirstUsesAreCalls(p, MemoryAfter(m, results[0]), requests[1..], results[1..]);
      if IsFirstUse(results[0]) { assert results[0].found.value.line in Unused(p.lines, requests[0].query, m.used); }
    }
  }

  ghost predicate OnceInEveryRun(p: Playback, usedOut: set<int>) {
    forall requests, results :: IsRun(p, Memory({}, usedOut), requests, results) ==> Distinct(FirstUses(results))
  }

  /**
   * No run answers two requests with the same call as if it were new exactly when every line whose index
   * does not fit 32 bits is out of reach.
   */
  lemma {:induction false} EachCallOnceIff(p: Playback, usedOut: set<int>)
    ensures OnceInEveryRun(p, usedOut) <==> OversizedIsForwarded(p)
  {
    if OversizedIsForwarded(p) {
      forall requests, results | IsRun(p, Memory({}, usedOut), requests, results) ensures Distinct(FirstUses(results)) {
        EachCallOnce(p, usedOut, requests, results);
      }
    } else {
      var l, query :| l in p.lines && !FitsInt(l.index) && IsCandidate(l, query) && !MustForward(p.lines, query, p.config);
      var n := |CallIndexes(p.lines)| + 1;
      var requests, results := AlwaysFresh(p, Memory({}, usedOut), Request(query, false, []), l, n);
      FirstUsesAreCalls(p, Memory({}, usedOut), requests, results);
      if Distinct(FirstUses(results)) { DistinctFits(FirstUses(results), CallIndexes(p.lines)); }
    }
  }

  /** With external calls blocked nothing is forwarded: then every index of a call has to fit. */
  lemma {:induction false} BlockedEachCallOnceIff(p: Playback, usedOut: set<int>)
    requires p.config.blockExternal
    ensures OnceInEveryRun(p, usedOut) <==> forall l :: l in p.lines && !IsResponse(l.kind) ==> FitsInt(l.index)
  {
    EachCallOnceIff(p, usedOut);
    forall l | l in p.lines && !IsResponse(l.kind) ensures IsCandidate(l, QueryFor(l)) { SameText(l.caller); }
    assert forall query :: !MustForward(p.lines, query, p.config);
  }

  function QueryFor(l: CompactLine): Query { Query(None, l.caller, l.tags) }

  lemma {:induction false} SameText(s: string)
    ensures EqualsIgnoreCase(s, s)
  {}

  const OVERSIZED := CompactLine(0x1_0000_0000, 0, Some("QUERY"), "", map[])

  /** A recording of one call, of index 2^32: two requests in a row are both answered by it as if it were new. */
  lemma {:induction false} OversizedAnswersTwice(config: Config) returns (requests: seq<Request>, results: seq<Served>)
    requires config.blockExternal
    ensures IsRun(Playback([OVERSIZED], NEW_REPO, config, false), Memory({}, {}), requests, results)
    ensures FirstUses(results) == [0x1_0000_0000, 0x1_0000_0000]
  {
    var p := Playback([OVERSIZED], NEW_REPO, config, false);
    assert OVERSIZED in p.lines && !IsResponse(Some("QUERY"));
    requests, results := AlwaysFresh(p, Memory({}, {}), Request(QueryFor(OVERSIZED), false, []), OVERSIZED, 2);
    FirstUsesAreCalls(p, Memory({}, {}), requests, results);
    var uses := FirstUses(results);
    assert forall i :: i in CallIndexes(p.lines) ==> i == OVERSIZED.index;
    assert uses[0] in uses && uses[1] in uses;
    assert uses[0] == OVERSIZED.index && uses[1] == OVERSIZED.index;
    assert uses == [uses[0], uses[1]];
  }

  /** Two calls of `findIndex` on the same state can only differ among lines of equal index. */
  lemma {:induction false} FoundIsDetermined(a: Option<FindResult>, b: Option<FindResult>, lines: seq<CompactLine>, query: Query,
                          used: set<int>, config: Config)
    requires IsFound(a, lines, query, used, config) && IsFound(b, lines, query, used, config)
    ensures a.Some? <==> b.Some?
    ensures a.Some? ==> a.value.repeated == b.value.repeated && IntIndex(a.value.line) == IntIndex(b.value.line)
  {}

  // ---------------------------------------------------------------- the callbacks of a run

  function BatchOf(r: Served): seq<StorageItem> { if r.outcome.Handled? then r.outcome.batch else [] }

  /** Everything the plugin schedules in a run, in order. */
  function Batches(results: seq<Served>): seq<StorageItem> {
    if results == [] then [] else BatchOf(results[0]) + Batches(results[1..])
  }

  predicate IsAnswered(r: Served) { !r.outcome.NotHandled? && r.found.Some? }

  /** The calls that were answered, with the connections there were. */
  function AnsweredCalls(requests: seq<Request>, results: seq<Served>): seq<Replayed>
    requires |requests| == |results|
  {
    if results == [] then []
    else (if IsAnswered(results[0]) then [Replayed(results[0].found.value.line.index, requests[0].contexts)] else [])
         + AnsweredCalls(requests[1..], results[1..])
  }

  lemma {:induction false} AllScheduledCons(repo: ProtocolRepo, lines: seq<CompactLine>, call: Replayed, rest: seq<Replayed>, used: set<int>)
    ensures var batch := Batch(repo, lines, call, used);
            AllScheduled(repo, lines, [call] + rest, used) == batch + AllScheduled(repo, lines, rest, used + UsedBy(batch))
  {
    assert ([call] + rest)[0] == call && ([call] + rest)[1..] == rest;
  }

  lemma {:induction false} BatchServed(p: Playback, m: Memory, request: Request, r: Served)
    requires p.hasCallbacks && Serves(p, m, request, r) && IsAnswered(r)
    ensures BatchOf(r) == Batch(p.repo, p.lines, Replayed(r.found.value.line.index, request.contexts), m.usedOut)
    ensures MemoryAfter(m, r).usedOut == m.usedOut + UsedBy(BatchOf(r))
  {}

  /** What the plugin schedules over a run is what its answered calls schedule one after the other. */
  lemma {:induction false} BatchesAreScheduled(p: Playback, m: Memory, requests: seq<Request>, results: seq<Served>)
    requires p.hasCallbacks && IsRun(p, m, requests, results)
    ensures Batches(results) == AllScheduled(p.repo, p.lines, AnsweredCalls(requests, results), m.usedOut)
    decreases |requests|
  {
    if requests != [] {
      var r, rest := results[0], AnsweredCalls(requests[1..], results[1..]);
      BatchesAreScheduled(p, MemoryAfter(m, r), requests[1..], results[1..]);
      if IsAnswered(r) {
        BatchServed(p, m, requests[0], r);
        AllScheduledCons(p.repo, p.lines, Replayed(r.found.value.line.index, requests[0].contexts), rest, m.usedOut);
      } else {
        assert [] + rest == rest && [] + Batches(results[1..]) == Batches(results[1..]);
      }
    }
  }

  lemma {:induction false} NoCallbacksNoBatches(p: Playback, m: Memory, requests: seq<Request>, results: seq<Served>)
    requires !p.hasCallbacks && IsRun(p, m, requests, results)
    ensures Batches(results) == []
    decreases |requests|
  {
    if requests != [] { NoCallbacksNoBatches(p, MemoryAfter(m, results[0]), requests[1..], results[1..]); }
  }

  /** The plugin replays a recording it holds from the first call on. */
  predicate PlaysRecording(p: Playback) { IsRecording(p.repo.index) && forall l :: l in p.lines ==> l in p.repo.index }

  /** The item `x` was recorded as a response, and `c` is the last call before it. */
  ghost predicate IsCallbackOf(x: StorageItem, c: CompactLine, repo: ProtocolRepo) {
    exists l :: l in repo.index && IsResponse(l.kind) && FirstWithIndex(repo.outItems, l.index) == Some(x)
                && IsLastCallBefore(c, l, repo.index)
  }

  lemma {:induction false} AnsweredIsCall(p: Playback, m: Memory, request: Request, r: Served)
    requires PlaysRecording(p) && Serves(p, m, request, r) && IsAnswered(r)
    ensures r.found.value.line in p.repo.index && IsCall(r.found.value.line)
  {
    var line := r.found.value.line;
    assert line in Unused(p.lines, request.query, m.used) || line in Repeats(p.lines, request.query, m.used, p.config);
  }

  lemma {:induction false} CallbackIffResponse(x: StorageItem, c: CompactLine, repo: ProtocolRepo, contexts: seq<TagMap>, used: set<int>)
    requires IsRecording(repo.index) && c in repo.index && IsCall(c) && x.index !in used
    ensures IsResponseTo(x, repo, Replayed(c.index, contexts), used) <==> IsCallbackOf(x, c, repo)
  {
    forall l | l in repo.index && IsResponse(l.kind) && FirstWithIndex(repo.outItems, l.index) == Some(x)
      ensures Follows(l, repo.index, c.index, repo.outItems, used) <==> IsLastCallBefore(c, l, repo.index)
    {
      assert l.index == x.index;
      FollowsIffLastCall(c, l, repo.index, repo.outItems);
    }
  }

  /** Request `k` was answered by the call `x` was recorded after, and some connection waited for `x`. */
  ghost predicate IsDue(x: StorageItem, p: Playback, request: Request, r: Served) {
    p.hasCallbacks && IsAnswered(r) && IsCallbackOf(x, r.found.value.line, p.repo) && IsAwaited(x.index, p.lines, request.contexts)
  }

  lemma {:induction false} BatchIffDue(p: Playback, m: Memory, request: Request, r: Served, x: StorageItem)
    requires PlaysRecording(p) && OnlyResponses(m.usedOut, p.repo.index) && Serves(p, m, request, r) && x.index !in m.usedOut
    ensures !r.outcome.Thrown?
    ensures x in BatchOf(r) <==> IsDue(x, p, request, r)
  {
    if IsAnswered(r) {
      var c := r.found.value.line;
      AnsweredIsCall(p, m, request, r);
      FoundAre(p.repo, Replayed(c.index, request.contexts), m.usedOut);
      BatchIs(p.repo, p.lines, Replayed(c.index, request.contexts), m.usedOut);
      CallbackIffResponse(x, c, p.repo, request.contexts, m.usedOut);
    }
  }

  lemma {:induction false} MemoryStaysResponses(p: Playback, m: Memory, request: Request, r: Served)
    requires PlaysRecording(p) && OnlyResponses(m.usedOut, p.repo.index) && Serves(p, m, request, r)
    ensures OnlyResponses(MemoryAfter(m, r).usedOut, p.repo.index)
    ensures forall x :: x in BatchOf(r) ==> x.index !in m.usedOut && Int32(x.index) == x.index
  {
    if IsAnswered(r) {
      var call := Replayed(r.found.value.line.index, request.contexts);
      BatchIsNew(p.repo, p.lines, call, m.usedOut);
      assert m.usedOut + UsedBy([]) == m.usedOut;
    }
  }

  /** A response is marked as used only together with being scheduled. */
  lemma {:induction false} UnscheduledIsUnused(p: Playback, m: Memory, request: Request, r: Served, x: StorageItem)
    requires PlaysRecording(p) && OnlyResponses(m.usedOut, p.repo.index) && Serves(p, m, request, r)
    requires FirstWithIndex(p.repo.outItems, x.index) == Some(x) && x.index !in m.usedOut && x !in BatchOf(r)
    ensures x.index !in MemoryAfter(m, r).usedOut
  {
    if IsAnswered(r) {
      MemoryStaysResponses(p, m, request, r);
      forall y | y in BatchOf(r) ensures Int32(y.index) != x.index {
        BatchIffDue(p, m, request, r, y);
        assert FirstWithIndex(p.repo.outItems, y.index) == Some(y);
      }
    }
  }

  /** Over a run, a response not used before is scheduled exactly when some request it is due for was answered. */
  lemma {:induction false} ScheduledIffDue(p: Playback, m: Memory, requests: seq<Request>, results: seq<Served>, x: StorageItem)
    requires PlaysRecording(p) && OnlyResponses(m.usedOut, p.repo.index) && IsRun(p, m, requests, results)
    requires FirstWithIndex(p.repo.outItems, x.index) == Some(x) && x.index !in m.usedOut
    ensures x in Batches(results) <==> exists k :: 0 <= k < |results| && IsDue(x, p, requests[k], results[k])
    decreases |requests|
  {
    if requests != [] {
      var r, n := results[0], MemoryAfter(m, results[0]);
      BatchIffDue(p, m, requests[0], r, x);
      if x !in BatchOf(r) {
        MemoryStaysResponses(p, m, requests[0], r);
        UnscheduledIsUnused(p, m, requests[0], r, x);
        ScheduledIffDue(p, n, requests[1..], results[1..], x);
        DueLater(p, requests, results, x);
      } else {
        assert IsDue(x, p, requests[0], results[0]);
      }
    }
  }

  lemma {:induction false} DueLater(p: Playback, requests: seq<Request>, results: seq<Served>, x: StorageItem)
    requires |requests| == |results| > 0 && !IsDue(x, p, requests[0], results[0])
    ensures (exists k :: 0 <= k < |results| && IsDue(x, p, requests[k], results[k]))
            <==> exists k :: 0 <= k < |results| - 1 && IsDue(x, p, requests[1..][k], results[1..][k])
  {
    if k :| 0 <= k < |results| && IsDue(x, p, requests[k], results[k]) {
      assert IsDue(x, p, requests[1..][k - 1], results[1..][k - 1]);
    }
    if k :| 0 <= k < |results| - 1 && IsDue(x, p, requests[1..][k], results[1..][k]) {
      assert IsDue(x, p, requests[k + 1], results[k + 1]);
    }
  }

  lemma {:induction false} ScheduledIsCallback(p: Playback, m: Memory, requests: seq<Request>, results: seq<Served>, x: StorageItem)
    requires PlaysRecording(p) && OnlyResponses(m.usedOut, p.repo.index) && IsRun(p, m, requests, results)
    requires x in Batches(results)
    ensures FirstWithIndex(p.repo.outItems, x.index) == Some(x) && x.index !in m.usedOut
    decreases |requests|
  {
    MemoryStaysResponses(p, m, requests[0], results[0]);
    if x in BatchOf(results[0]) {
      BatchIffDue(p, m, requests[0], results[0], x);
    } else {
      ScheduledIsCallback(p, MemoryAfter(m, results[0]), requests[1..], results[1..], x);
    }
  }

  lemma {:induction false} NothingIsThrown(p: Playback, m: Memory, requests: seq<Request>, results: seq<Served>, k: nat)
    requires PlaysRecording(p) && OnlyResponses(m.usedOut, p.repo.index) && IsRun(p, m, requests, results) && k < |results|
    ensures !results[k].outcome.Thrown?
    decreases |requests|
  {
    if k == 0 {
      if IsAnswered(results[0]) {
        FoundAre(p.repo, Replayed(results[0].found.value.line.index, requests[0].contexts), m.usedOut);
      }
    } else {
      MemoryStaysResponses(p, m, requests[0], results[0]);
      NothingIsThrown(p, MemoryAfter(m, results[0]), requests[1..], results[1..], k - 1);
    }
  }

  /**
   * Callbacks over any run of the plugin between two activations, for a recording: no response is
   * scheduled twice, a response is scheduled exactly when some request was answered by the last call
   * recorded before it while a connection waited for it, and the search for callbacks never fails.
   */
  lemma {:induction false} CallbacksFollowTheirCall(p: Playback, used: set<int>, requests: seq<Request>, results: seq<Served>)
    requires PlaysRecording(p) && IsRun(p, Memory(used, {}), requests, results)
    ensures DistinctIndexes(Batches(results))
    ensures forall x :: x in Batches(results)
              <==> FirstWithIndex(p.repo.outItems, x.index) == Some(x)
                   && exists k :: 0 <= k < |results| && IsDue(x, p, requests[k], results[k])
    ensures forall r :: r in results ==> !r.outcome.Thrown?
  {
    var m := Memory(used, {});
    if p.hasCallbacks {
      BatchesAreScheduled(p, m, requests, results);
      ScheduledAtMostOnce(p.repo, p.lines, AnsweredCalls(requests, results), {});
    } else {
      NoCallbacksNoBatches(p, m, requests, results);
    }
    forall x
      ensures x in Batches(results)
              <==> FirstWithIndex(p.repo.outItems, x.index) == Some(x)
                   && exists k :: 0 <= k < |results| && IsDue(x, p, requests[k], results[k])
    {
      if x in Batches(results) { ScheduledIsCallback(p, m, requests, results, x); }
      if FirstWithIndex(p.repo.outItems, x.index) == Some(x) { ScheduledIffDue(p, m, requests, results, x); }
    }
    forall r | r in results ensures !r.outcome.Thrown? {
      var k :| 0 <= k < |results| && results[k] == r;
      NothingIsThrown(p, m, requests, results, k);
    }
  }
}
