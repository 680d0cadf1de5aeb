/**
 * The fidelity of a replay: whoever sends the calls of a recording again, in the order they were
 * recorded, gets for each of them exactly what was recorded for it.
 */
module Fidelity {
  import opened Wrappers
  import opened JavaInt
  import opened Text
  import opened FileNames
  import opened Sorting
  import opened Storage
  import opened Tags
  import opened Callbacks
  import opened Replay
  import Recording
  import RecordReplay
  import RecordPlugin

  // ---------------------------------------------------------------- the calls of a recording

  function OnlyCalls(lines: seq<CompactLine>): seq<CompactLine> {
    if lines == [] then []
    else (if IsResponse(lines[0].kind) then [] else [lines[0]]) + OnlyCalls(lines[1..])
  }

  /** The calls in the order of their ids, which is the order they were made in. */
  function Calls(lines: seq<CompactLine>): seq<CompactLine> { OnlyCalls(SortBy(IndexOfLine, lines)) }

  lemma {:induction false} OnlyCallsAre(lines: seq<CompactLine>)
    ensures forall l :: l in OnlyCalls(lines) <==> l in lines && !IsResponse(l.kind)
    ensures Rising(lines) ==> Rising(OnlyCalls(lines))
    decreases |lines|
  {
    if lines != [] {
      var rest := OnlyCalls(lines[1..]);
      OnlyCallsAre(lines[1..]);
      assert forall l :: l in lines <==> l == lines[0] || l in lines[1..];
      if Rising(lines) {
        assert forall k :: 0 <= k < |lines| - 1 ==> lines[1..][k] == lines[k + 1];
        forall k | 0 <= k < |rest| ensures lines[0].index < rest[k].index {
          assert rest[k] in lines[1..];
        }
      }
    }
  }

  lemma {:induction false} CallsAre(lines: seq<CompactLine>)
    requires IsRecording(lines)
    ensures Rising(Calls(lines))
    ensures forall l :: l in Calls(lines) <==> l in lines && !IsResponse(l.kind)
  {
    SortedRise(lines);
    OnlyCallsAre(SortBy(IndexOfLine, lines));
  }

  // ---------------------------------------------------------------- one call

  /** The request the client makes again: same type, same caller, same tags. */
  function QueryOf(call: CompactLine): Query { Query(call.kind, call.caller, call.tags) }

  /** A call fits its own request, and agrees on all its tags. */
  lemma {:induction false} FitsItself(call: CompactLine)
    requires !IsResponse(call.kind)
    ensures IsOfKind(call, QueryOf(call)) && IsCandidate(call, QueryOf(call))
    ensures AgreeOnAll(call.tags, call.tags) && Score(call.tags, call.tags) == |call.tags.Keys|
  {
    SameText(call.caller);
    assert call.kind.Some? ==> EqualsIgnoreCase(call.kind.value, call.kind.value);
    ScoreIsFullIff(call.tags, call.tags);
  }

  function IndexesUpTo(calls: seq<CompactLine>, k: nat): set<int>
    requires k <= |calls|
  {
    set j | 0 <= j < k :: calls[j].index
  }

  lemma {:induction false} CallAfter(p: Playback, calls: seq<CompactLine>, k: nat, l: CompactLine)
    requires IsRecording(p.lines) && calls == Calls(p.lines) && k < |calls|
    requires l in Unused(p.lines, QueryOf(calls[k]), IndexesUpTo(calls, k))
    ensures calls[k].index <= l.index
  {
    CallsAre(p.lines);
    var j :| 0 <= j < |calls| && calls[j] == l;
    assert forall i :: 0 <= i < k ==> calls[i].index in IndexesUpTo(calls, k);
  }

  /** With all earlier calls used, the recorded call itself is the best match of its own request. */
  lemma {:induction false} OwnCallIsFound(p: Playback, calls: seq<CompactLine>, k: nat)
    requires IsRecording(p.lines) && calls == Calls(p.lines) && k < |calls| && p.config.blockExternal
    ensures IsFound(Some(FindResult(calls[k], false)), p.lines, QueryOf(calls[k]), IndexesUpTo(calls, k), p.config)
  {
    var call, query, used := calls[k], QueryOf(calls[k]), IndexesUpTo(calls, k);
    CallsAre(p.lines);
    assert call in calls;
    FitsItself(call);
    assert call in Unused(p.lines, query, used) by {
      forall j | 0 <= j < k ensures calls[j].index != call.index { assert calls[j].index < calls[k].index; }
    }
    forall l | l in Unused(p.lines, query, used)
      ensures Score(l.tags, query.tags) < Score(call.tags, query.tags)
              || (Score(l.tags, query.tags) == Score(call.tags, query.tags) && IntIndex(call) <= IntIndex(l))
    {
      ScoreIsFullIff(l.tags, call.tags);
      CallAfter(p, calls, k, l);
    }
  }

  // ---------------------------------------------------------------- the whole recording

  /** Request `k` asks again for the `k`-th call. */
  predicate AsksAgain(requests: seq<Request>, calls: seq<CompactLine>) {
    |requests| == |calls| && forall k :: 0 <= k < |calls| ==> requests[k].query == QueryOf(calls[k])
  }

  /** Once the calls before it are used, call `k` is the best match of its own request. */
  predicate FindsItself(p: Playback, calls: seq<CompactLine>, k: nat)
    requires k < |calls|
  {
    && calls[k] in p.lines
    && IsFound(Some(FindResult(calls[k], false)), p.lines, QueryOf(calls[k]), IndexesUpTo(calls, k), p.config)
  }

  /** The requests ask again for the calls from `from` on. */
  predicate AsksFrom(requests: seq<Request>, calls: seq<CompactLine>, from: nat) {
    |requests| == |calls| - from && forall j :: 0 <= j < |requests| ==> requests[j].query == QueryOf(calls[from + j])
  }

  lemma {:induction false} AsksOn(requests: seq<Request>, calls: seq<CompactLine>, from: nat)
    requires AsksFrom(requests, calls, from) && requests != []
    ensures from < |calls| && requests[0].query == QueryOf(calls[from]) && AsksFrom(requests[1..], calls, from + 1)
  {
    assert requests[0].query == QueryOf(calls[from + 0]);
    forall j | 0 <= j < |requests| - 1 ensures requests[1..][j].query == QueryOf(calls[from + 1 + j]) {
      assert requests[1..][j] == requests[j + 1];
    }
  }

  lemma {:induction false} StepIsFaithful(p: Playback, m: Memory, calls: seq<CompactLine>, k: nat, request: Request, r: Served)
    requires IsRecording(p.lines) && p.config.blockExternal && k < |calls| && FindsItself(p, calls, k)
    requires m.used == IndexesUpTo(calls, k) && request.query == QueryOf(calls[k]) && Serves(p, m, request, r)
    ensures r.found == Some(FindResult(calls[k], false)) && IsAnswered(r)
    ensures MemoryAfter(m, r).used == IndexesUpTo(calls, k + 1)
  {
    FoundIsDetermined(r.found, Some(FindResult(calls[k], false)), p.lines, request.query, m.used, p.config);
    var line := r.found.value.line;
    assert line in Unused(p.lines, request.query, m.used);
    SameIndexSameLine(p.lines, line, calls[k]);
    assert IndexesUpTo(calls, k + 1) == IndexesUpTo(calls, k) + {calls[k].index};
  }

  lemma {:induction false} RunIsFaithful(p: Playback, m: Memory, calls: seq<CompactLine>, from: nat,
                                         requests: seq<Request>, results: seq<Served>, k: nat)
    requires IsRecording(p.lines) && p.config.blockExternal && forall j: nat :: j < |calls| ==> FindsItself(p, calls, j)
    requires AsksFrom(requests, calls, from) && m.used == IndexesUpTo(calls, from)
    requires IsRun(p, m, requests, results) && k < |results|
    ensures results[k].found == Some(FindResult(calls[from + k], false)) && IsAnswered(results[k])
    decreases |requests|
  {
    AsksOn(requests, calls, from);
    StepIsFaithful(p, m, calls, from, requests[0], results[0]);
    if k > 0 {
      RunIsFaithful(p, MemoryAfter(m, results[0]), calls, from + 1, requests[1..], results[1..], k - 1);
    }
  }

  /** Sending all calls of a recording again, in order, consumes call `k` for request `k`, for every `k`. */
  lemma {:induction false} ReplayIsFaithful(p: Playback, usedOut: set<int>, requests: seq<Request>, results: seq<Served>, k: nat)
    requires IsRecording(p.lines) && p.config.blockExternal && AsksAgain(requests, Calls(p.lines))
    requires IsRun(p, Memory({}, usedOut), requests, results) && k < |results|
    ensures results[k].found == Some(FindResult(Calls(p.lines)[k], false)) && IsAnswered(results[k])
  {
    var calls := Calls(p.lines);
    CallsAre(p.lines);
    forall j: nat | j < |calls| ensures FindsItself(p, calls, j) {
      assert calls[j] in calls;
      OwnCallIsFound(p, calls, j);
    }
    RunIsFaithful(p, Memory({}, usedOut), calls, 0, requests, results, k);
  }

  // ---------------------------------------------------------------- calls in any order

  /** Some calls of a recording, or all, each once and in any order. */
  predicate IsSelection(calls: seq<CompactLine>, lines: seq<CompactLine>) {
    && (forall k :: 0 <= k < |calls| ==> calls[k] in lines && !IsResponse(calls[k].kind))
    && (forall i, j :: 0 <= i < j < |calls| ==> calls[i] != calls[j])
  }

  /** The call `c` fits the request of `d` as well as `d` does. */
  predicate StandsInFor(c: CompactLine, d: CompactLine) { IsOfKind(c, QueryOf(d)) && AgreeOnAll(c.tags, d.tags) }

  /** No call stands in for one recorded after it. */
  predicate LaterCallsDiffer(lines: seq<CompactLine>) {
    forall c, d :: c in lines && d in lines && !IsResponse(d.kind) && c.index < d.index ==> !StandsInFor(c, d)
  }

  ghost predicate FaithfulInAnyOrder(p: Playback, usedOut: set<int>) {
    forall calls: seq<CompactLine>, requests: seq<Request>, results: seq<Served>, k: nat ::
      IsSelection(calls, p.lines) && AsksAgain(requests, calls) && IsRun(p, Memory({}, usedOut), requests, results)
      && k < |results| ==>
        results[k].found == Some(FindResult(calls[k], false)) && IsAnswered(results[k])
  }

  lemma {:induction false} OwnCallIsFoundAnyway(p: Playback, calls: seq<CompactLine>, k: nat)
    requires IsRecording(p.lines) && p.config.blockExternal && LaterCallsDiffer(p.lines)
    requires IsSelection(calls, p.lines) && k < |calls|
    ensures IsFound(Some(FindResult(calls[k], false)), p.lines, QueryOf(calls[k]), IndexesUpTo(calls, k), p.config)
  {
    var call, query, used := calls[k], QueryOf(calls[k]), IndexesUpTo(calls, k);
    FitsItself(call);
    assert call in Unused(p.lines, query, used) by {
      forall j | 0 <= j < k ensures calls[j].index != call.index {
        if calls[j].index == call.index { SameIndexSameLine(p.lines, calls[j], call); }
      }
    }
    PoolsAre(p.lines, query, used, p.config);
    forall l | l in Unused(p.lines, query, used)
      ensures Score(l.tags, query.tags) < Score(call.tags, query.tags)
              || (Score(l.tags, query.tags) == Score(call.tags, query.tags) && IntIndex(call) <= IntIndex(l))
    {
      ScoreIsFullIff(l.tags, call.tags);
      if AgreeOnAll(l.tags, call.tags) { assert StandsInFor(l, call); }
    }
  }

  lemma {:induction false} SelectionIsFaithful(p: Playback, usedOut: set<int>, calls: seq<CompactLine>,
                                               requests: seq<Request>, results: seq<Served>, k: nat)
    requires IsRecording(p.lines) && p.config.blockExternal && LaterCallsDiffer(p.lines) && IsSelection(calls, p.lines)
    requires AsksAgain(requests, calls) && IsRun(p, Memory({}, usedOut), requests, results) && k < |results|
    ensures results[k].found == Some(FindResult(calls[k], false)) && IsAnswered(results[k])
  {
    forall j: nat | j < |calls| ensures FindsItself(p, calls, j) { OwnCallIsFoundAnyway(p, calls, j); }
    RunIsFaithful(p, Memory({}, usedOut), calls, 0, requests, results, k);
  }

  lemma {:induction false} FindsStandIn(lines: seq<CompactLine>, config: Config, c: CompactLine, d: CompactLine, found: Option<FindResult>)
    requires IsRecording(lines) && config.blockExternal && IsFound(found, lines, QueryOf(d), {}, config)
    requires c in lines && d in lines && c.index < d.index && StandsInFor(c, d)
    ensures found.Some? && found != Some(FindResult(d, false))
  {
    PoolsAre(lines, QueryOf(d), {}, config);
    assert c in Unused(lines, QueryOf(d), {});
    ScoreIsFullIff(c.tags, d.tags);
    ScoreIsFullIff(d.tags, d.tags);
  }

  lemma {:induction false} OneRequest(p: Playback, m: Memory, request: Request, served: Served)
    requires Serves(p, m, request, served)
    ensures IsRun(p, m, [request], [served])
  {
    assert [request][1..] == [] && [served][1..] == [];
  }

  /** An earlier call that stands in for `d` answers in its place when `d` is asked for first. */
  lemma {:induction false} StandInAnswers(p: Playback, usedOut: set<int>, c: CompactLine, d: CompactLine)
    requires IsRecording(p.lines) && p.config.blockExternal
    requires c in p.lines && d in p.lines && !IsResponse(d.kind) && c.index < d.index && StandsInFor(c, d)
    ensures !FaithfulInAnyOrder(p, usedOut)
  {
    var m, request := Memory({}, usedOut), Request(QueryOf(d), false, []);
    var found := FoundExists(p.lines, request.query, {}, p.config);
    FindsStandIn(p.lines, p.config, c, d, found);
    var served := Served(found, Some(ItemFor(p, found.value)), AnswerOf(p, Replayed(found.value.line.index, []), usedOut));
    OneRequest(p, m, request, served);
    var calls, requests, results := [d], [request], [served];
    assert IsSelection(calls, p.lines) && AsksAgain(requests, calls);
    assert results[0].found != Some(FindResult(calls[0], false));
  }

  /**
   * Calls of a recording sent again in any order, some or all of them, are each answered by their own line
   * exactly when no call fits the request of a later one, all its tags included.
   */
  lemma {:induction false} FaithfulInAnyOrderIff(p: Playback, usedOut: set<int>)
    requires IsRecording(p.lines) && p.config.blockExternal
    ensures FaithfulInAnyOrder(p, usedOut) <==> LaterCallsDiffer(p.lines)
  {
    if LaterCallsDiffer(p.lines) {
      forall calls: seq<CompactLine>, requests: seq<Request>, results: seq<Served>, k: nat |
        IsSelection(calls, p.lines) && AsksAgain(requests, calls) && IsRun(p, Memory({}, usedOut), requests, results)
        && k < |results|
        ensures results[k].found == Some(FindResult(calls[k], false)) && IsAnswered(results[k])
      {
        SelectionIsFaithful(p, usedOut, calls, requests, results, k);
      }
    } else {
      var c, d :| c in p.lines && d in p.lines && !IsResponse(d.kind) && c.index < d.index && StandsInFor(c, d);
      StandInAnswers(p, usedOut, c, d);
    }
  }

  // ---------------------------------------------------------------- from the disk

  /** What the plugin keeps of the index it loads: everything from the first call on, so all the calls. */
  lemma {:induction false} CallsAreKept(lines: seq<CompactLine>)
    ensures forall l :: l in WithoutLeadingResponses(lines) ==> l in lines
    ensures forall l :: l in lines && !IsResponse(l.kind) ==> l in WithoutLeadingResponses(lines)
    ensures IsRecording(lines) ==> IsRecording(WithoutLeadingResponses(lines))
    decreases |lines|
  {
    if lines != [] && IsResponse(lines[0].kind) {
      CallsAreKept(lines[1..]);
      assert forall l :: l in lines <==> l == lines[0] || l in lines[1..];
      assert forall i :: 0 <= i < |lines| - 1 ==> lines[1..][i] == lines[i + 1];
    }
  }

  /** The plugin of an instance once its replay has started from what is on disk. */
  ghost function PlaybackOf(store: Store, instanceId: string, config: Config, hasCallbacks: bool): Playback {
    var repo := OpenedForReplay(store, instanceId).repos[instanceId];
    Playback(WithoutLeadingResponses(repo.index), repo, config, hasCallbacks)
  }

  /**
   * Whatever was recorded of a closed instance: the requests of its calls, made again in order, are
   * answered each by its own call, with exactly the recording on disk under the id of that call; and the
   * callbacks of the run are those recorded after its calls.
   */
  lemma {:induction false} DiskIsReplayed(store: Store, instanceId: string, config: Config, hasCallbacks: bool,
                       requests: seq<Request>, results: seq<Served>, k: nat)
    requires instanceId !in store.repos && RecordReplay.WellNamed(store.files) && config.blockExternal
    requires var p := PlaybackOf(store, instanceId, config, hasCallbacks);
             && IsRecording(p.repo.index) && AsksAgain(requests, Calls(p.lines))
             && IsRun(p, Memory({}, {}), requests, results) && k < |results|
    ensures var p := PlaybackOf(store, instanceId, config, hasCallbacks); var call := Calls(p.lines)[k];
            && IsConsistent(p.repo) && PlaysRecording(p)
            && results[k].found == Some(FindResult(call, false)) && !results[k].outcome.NotHandled? && !results[k].outcome.Thrown?
            && (IsOrdinaryId(call.index) ==>
                  var recorded := RecordReplay.Expected(store.files, instanceId, call.index);
                  results[k].item == if recorded.Some? then recorded else Some(EMPTY_ITEM.(index := call.index)))
  {
    var p := PlaybackOf(store, instanceId, config, hasCallbacks);
    ReplayIsConsistent(store, instanceId);
    CallsAreKept(p.repo.index);
    ReplayIsFaithful(p, {}, requests, results, k);
    CallbacksFollowTheirCall(p, {}, requests, results);
    RecordReplay.ReplayLoadsRecordings(store, instanceId);
    assert results[k] in results;
    AnsweredItem(p, Memory({}, {}), requests, results, k);
  }

  // ---------------------------------------------------------------- a recording stays one

  predicate AllTyped(recording: RecordPlugin.Config, events: seq<Recording.Event>) {
    forall k :: 0 <= k < |events| && RecordPlugin.IsOwn(recording, events[k]) ==> events[k].line.value.line.kind.Some?
  }

  lemma {:induction false} ActionIsTyped(recording: RecordPlugin.Config, j: RecordPlugin.Joint, action: RecordPlugin.Action)
    requires RecordPlugin.Possible(recording, j, action) && AllTyped(recording, j.sent)
    ensures AllTyped(recording, RecordPlugin.After(recording, j, action).sent)
  {
    RecordPlugin.ActionIsRun(recording, j, action);
    RecordPlugin.SentByAction(recording, j, action);
  }

  /** Every line the plugin sends has a type. */
  lemma {:induction false} RunIsTyped(recording: RecordPlugin.Config, j: RecordPlugin.Joint, actions: seq<RecordPlugin.Action>, k: RecordPlugin.Joint)
    requires RecordPlugin.JointLeads(recording, j, actions, k) && AllTyped(recording, j.sent)
    ensures AllTyped(recording, k.sent)
    decreases |actions|
  {
    if actions != [] {
      ActionIsTyped(recording, j, actions[0]);
      RunIsTyped(recording, RecordPlugin.After(recording, j, actions[0]), actions[1..], k);
    }
  }

  /** Lines with a type each, and with indexes of their own above `start`. */
  predicate IsRecordingAbove(start: int, lines: seq<CompactLine>) {
    IsRecording(lines) && forall l :: l in lines ==> start < l.index
  }

  lemma {:induction false} LinesAreRecording(recording: RecordPlugin.Config, start: int, top: int, writes: seq<Option<LineToWrite>>)
    requires RecordPlugin.OwnIdsApart(recording, start, top, writes) && -1 <= start && top <= INT_MAX
    requires forall x :: x in writes && RecordPlugin.IsOwnWrite(recording, x) ==> x.value.line.kind.Some?
    ensures IsRecordingAbove(start, Recording.Lines(writes, recording.instanceId))
    decreases |writes|
  {
    if writes != [] {
      var rest := Recording.Lines(writes[1..], recording.instanceId);
      assert forall i :: 0 <= i < |writes| - 1 ==> writes[1..][i] == writes[i + 1];
      LinesAreRecording(recording, start, top, writes[1..]);
      if RecordPlugin.IsOwnWrite(recording, writes[0]) {
        forall l | l in rest ensures l.index != writes[0].value.id {
          var w := RecordReplay.WriteOfLine(writes[1..], recording.instanceId, l);
          var i :| 0 <= i < |writes| - 1 && writes[1..][i] == Some(w);
          assert RecordPlugin.IsOwnWrite(recording, writes[i + 1]);
        }
        assert writes[0] in writes;
        ConsIsRecording(start, top, Stored(writes[0].value), rest);
      }
    }
  }

  lemma {:induction false} ConsIsRecording(start: int, top: int, first: CompactLine, rest: seq<CompactLine>)
    requires IsRecordingAbove(start, rest) && first.kind.Some? && start < first.index <= top && -1 <= start && top <= INT_MAX
    requires forall l :: l in rest ==> l.index != first.index
    ensures IsRecordingAbove(start, [first] + rest)
  {
    var all := [first] + rest;
    assert forall k :: 1 <= k < |all| ==> all[k] == rest[k - 1] && all[k] in rest;
  }

  lemma {:induction false} JoinedIsRecording(start: int, loaded: seq<CompactLine>, more: seq<CompactLine>)
    requires IsRecording(loaded) && IsRecordingAbove(start, more) && forall l :: l in loaded ==> l.index <= start
    ensures IsRecording(loaded + more)
  {
    var all := loaded + more;
    forall i, j | 0 <= i < j < |all| ensures all[i].index != all[j].index {
      if i < |loaded| <= j { assert loaded[i] in loaded && more[j - |loaded|] in more; }
    }
  }

  lemma {:induction false} PrefixIsRecording(lines: seq<CompactLine>, n: nat)
    requires IsRecording(lines) && n <= |lines|
    ensures IsRecording(lines[..n])
  {
    assert forall k :: 0 <= k < n ==> lines[..n][k] == lines[k];
  }

  lemma {:induction false} SortedIsRecording(lines: seq<CompactLine>)
    requires IsRecording(lines)
    ensures IsRecording(SortByTimestamp(lines))
  {
    var sorted := SortByTimestamp(lines);
    SortIs(TimeOf, lines);
    forall i, j | 0 <= i < j < |sorted| ensures sorted[i].index != sorted[j].index {
      if sorted[i].index == sorted[j].index { TwiceTheSame(lines, sorted, i, j); }
    }
  }

  /** What the plugin of an instance has sent by the end of a run: lines with a type and an id of their own. */
  lemma {:induction false} SentIsRecording(recording: RecordPlugin.Config, s: Recording.System, actions: seq<RecordPlugin.Action>,
                                           t: RecordPlugin.Joint, cap: int)
    requires RecordPlugin.IsRecordingRun(recording, s, actions, t, cap)
    ensures IsRecordingAbove(Recording.Next(s, Recording.Consume).store.counter,
                             LinesOf(t.sent, recording.instanceId))
  {
    var j := RecordPlugin.Started(s);
    RecordReplay.StepCapped(s, Recording.Consume, cap);
    RecordPlugin.SentWritesOwnTheirIds(recording, j, actions, t, cap + 1);
    RunIsTyped(recording, j, actions, t);
    forall x | x in Recording.Writes(t.sent) && RecordPlugin.IsOwnWrite(recording, x) ensures x.value.line.kind.Some? {
      RecordPlugin.WriteWasSent(t.sent, x);
    }
    LinesAreRecording(recording, j.system.store.counter, t.system.store.counter, Recording.Writes(t.sent));
  }

  lemma {:induction false} NoOwnLines(recording: RecordPlugin.Config, writes: seq<Option<LineToWrite>>)
    requires forall x :: x in writes ==> !RecordPlugin.IsOwnWrite(recording, x)
    ensures Recording.Lines(writes, recording.instanceId) == []
    decreases |writes|
  {
    if writes != [] {
      assert writes[0] in writes;
      NoOwnLines(recording, writes[1..]);
    }
  }

  function LinesOf(events: seq<Recording.Event>, instanceId: string): seq<CompactLine> {
    Recording.Lines(Recording.Writes(events), instanceId)
  }

  lemma {:induction false} LinesOfBoth(a: seq<Recording.Event>, b: seq<Recording.Event>, instanceId: string)
    ensures LinesOf(a + b, instanceId) == LinesOf(a, instanceId) + LinesOf(b, instanceId)
  {
    Recording.WritesAppend(a, b);
    Recording.LinesAppend(Recording.Writes(a), Recording.Writes(b), instanceId);
  }

  /** The lines handled in a run are the first of those sent in it. */
  lemma {:induction false} HandledLines(recording: RecordPlugin.Config, s: Recording.System, actions: seq<RecordPlugin.Action>,
                                        t: RecordPlugin.Joint, cap: int)
    requires RecordPlugin.IsRecordingRun(recording, s, actions, t, cap)
    ensures var steps := RecordPlugin.AllSteps(recording, RecordPlugin.Started(s), actions);
            LinesOf(Recording.Consumed(Recording.Next(s, Recording.Consume), steps), recording.instanceId)
            + LinesOf(t.system.queue, recording.instanceId)
            == LinesOf(t.sent, recording.instanceId)
  {
    var handled := Recording.Consumed(Recording.Next(s, Recording.Consume), RecordPlugin.AllSteps(recording, RecordPlugin.Started(s), actions));
    RecordPlugin.RecordingRunIsSession(recording, s, actions, t, cap);
    LinesOfBoth(handled, t.system.queue, recording.instanceId);
    LinesOfBoth(s.queue[1..], t.sent, recording.instanceId);
    RecordPlugin.NotQueued(recording, s);
    NoOwnLines(recording, Recording.Writes(s.queue));
    assert [] + LinesOf(t.sent, recording.instanceId) == LinesOf(t.sent, recording.instanceId);
  }

  /** What a session is to write: its index was a recording, and no line of it waited at its start. */
  lemma {:induction false} SessionLinesAreRecording(recording: RecordPlugin.Config, s: Recording.System, actions: seq<RecordPlugin.Action>,
                                                    t: RecordPlugin.Joint, cap: int)
    requires RecordPlugin.IsRecordingRun(recording, s, actions, t, cap)
    requires IsRecording(LoadedIndex(s.store.files, recording.instanceId)) && Recording.Lines(s.store.tasks, recording.instanceId) == []
    ensures IsRecording(Recording.SessionLines(s, RecordPlugin.AllSteps(recording, RecordPlugin.Started(s), actions), recording.instanceId))
  {
    var start, loaded := Recording.Next(s, Recording.Consume).store.counter, LoadedIndex(s.store.files, recording.instanceId);
    var sent := LinesOf(t.sent, recording.instanceId);
    SentIsRecording(recording, s, actions, t, cap);
    HandledLines(recording, s, actions, t, cap);
    RecordPlugin.CounterPassesIndex(s, recording.instanceId, cap);
    JoinedIsRecording(start, loaded, sent);
    var all := Recording.SessionLines(s, RecordPlugin.AllSteps(recording, RecordPlugin.Started(s), actions), recording.instanceId);
    assert loaded + [] == loaded;
    PrefixIsRecording(loaded + sent, |all|);
    assert all == (loaded + sent)[..|all|];
  }

  /** The index after a session is a recording again, so any number of sessions can be replayed. */
  lemma {:induction false} SessionKeepsRecording(recording: RecordPlugin.Config, s: Recording.System, actions: seq<RecordPlugin.Action>,
                                                 t: RecordPlugin.Joint, cap: int)
    requires RecordPlugin.IsRecordingRun(recording, s, actions, t, cap)
    requires IsRecording(LoadedIndex(s.store.files, recording.instanceId)) && Recording.Lines(s.store.tasks, recording.instanceId) == []
    ensures IsRecording(LoadedIndex(Recording.Next(t.system, Recording.Consume).store.files, recording.instanceId))
  {
    var steps := RecordPlugin.AllSteps(recording, RecordPlugin.Started(s), actions);
    var id := recording.instanceId;
    RecordPlugin.RecordingRunIsSession(recording, s, actions, t, cap);
    Recording.WrittenIndex(s, steps, t.system, id);
    SessionLinesAreRecording(recording, s, actions, t, cap);
    WrittenIsRecording(LoadedIndex(Recording.Next(t.system, Recording.Consume).store.files, id), LoadedIndex(s.store.files, id),
                       Recording.SessionLines(s, steps, id), Recording.Lines(t.system.store.tasks, id));
  }

  lemma {:induction false} WrittenIsRecording(written: seq<CompactLine>, loaded: seq<CompactLine>, all: seq<CompactLine>, waiting: seq<CompactLine>)
    requires IsRecording(all) && IsRecording(loaded) && Recording.IsWritten(written, loaded, all, waiting)
    ensures IsRecording(written)
  {
    PrefixIsRecording(all, |all| - |waiting|);
    SortedIsRecording(all[..|all| - |waiting|]);
  }

  // ---------------------------------------------------------------- from the calls of a run to their replay

  /** The request a client makes for a call. */
  function ClientQuery(call: RecordPlugin.Call): Query { Query(Some(call.kind), call.caller, call.tags) }

  /** Nothing of the instance is queued behind the FinalizeWrite, or still waits in the executor. */
  predicate NothingIsLate(t: RecordPlugin.Joint, instanceId: string) {
    LinesOf(t.system.queue, instanceId) == [] && Recording.Lines(t.system.store.tasks, instanceId) == []
  }

  /**
   * A session of an instance whose recordings were in order before: every line of its index had a type and
   * an index of its own, none of it waited, and nothing of it comes too late.
   */
  ghost predicate IsOrderlyRun(recording: RecordPlugin.Config, s: Recording.System, actions: seq<RecordPlugin.Action>,
                               t: RecordPlugin.Joint, cap: int) {
    && RecordPlugin.IsRecordingRun(recording, s, actions, t, cap)
    && RecordReplay.AllGood(RecordReplay.Pending(Recording.Next(s, Recording.Consume),
                                                 RecordPlugin.AllSteps(recording, RecordPlugin.Started(s), actions)))
    && IsRecording(LoadedIndex(s.store.files, recording.instanceId)) && Recording.Lines(s.store.tasks, recording.instanceId) == []
    && NothingIsLate(t, recording.instanceId)
  }

  /** The plugin of the instance when the replay of the session starts. */
  ghost function PlaybackAfter(recording: RecordPlugin.Config, t: RecordPlugin.Joint, config: Config, hasCallbacks: bool): Playback
    requires Recording.Enabled(t.system, Recording.Consume)
  {
    PlaybackOf(Recording.Next(t.system, Recording.Consume).store, recording.instanceId, config, hasCallbacks)
  }

  lemma {:induction false} PlaybackIs(store: Store, instanceId: string, config: Config, hasCallbacks: bool)
    requires instanceId !in store.repos
    ensures var p := PlaybackOf(store, instanceId, config, hasCallbacks);
            && p.repo.index == SortByTimestamp(LoadedIndex(store.files, instanceId))
            && p.lines == WithoutLeadingResponses(p.repo.index) && p.config == config && p.hasCallbacks == hasCallbacks
  {}

  predicate PlaysCalls(p: Playback) {
    PlaysRecording(p) && IsRecording(p.lines) && forall l :: l in p.repo.index && !IsResponse(l.kind) ==> l in p.lines
  }

  lemma {:induction false} PlaysKept(p: Playback)
    requires IsRecording(p.repo.index) && p.lines == WithoutLeadingResponses(p.repo.index)
    ensures PlaysCalls(p)
  {
    CallsAreKept(p.repo.index);
  }

  lemma {:induction false} PlaysStore(store: Store, instanceId: string, config: Config, hasCallbacks: bool)
    requires instanceId !in store.repos && IsRecording(LoadedIndex(store.files, instanceId))
    ensures PlaysCalls(PlaybackOf(store, instanceId, config, hasCallbacks))
  {
    PlaybackIs(store, instanceId, config, hasCallbacks);
    SortedIsRecording(LoadedIndex(store.files, instanceId));
    PlaysKept(PlaybackOf(store, instanceId, config, hasCallbacks));
  }

  lemma {:induction false} FinalizingCloses(s: Recording.System, instanceId: string)
    requires s.queue != [] && s.queue[0] == Recording.FinalizeWrite(instanceId)
    ensures instanceId !in Recording.Next(s, Recording.Consume).store.repos
  {}

  lemma {:induction false} PlaysSession(recording: RecordPlugin.Config, s: Recording.System, actions: seq<RecordPlugin.Action>,
                                        t: RecordPlugin.Joint, cap: int, config: Config, hasCallbacks: bool)
    requires IsOrderlyRun(recording, s, actions, t, cap)
    ensures PlaysCalls(PlaybackAfter(recording, t, config, hasCallbacks))
  {
    SessionKeepsRecording(recording, s, actions, t, cap);
    FinalizingCloses(t.system, recording.instanceId);
    PlaysStore(Recording.Next(t.system, Recording.Consume).store, recording.instanceId, config, hasCallbacks);
  }

  /** In an orderly run nothing of the instance is late. */
  lemma {:induction false} NotLate(recording: RecordPlugin.Config, t: RecordPlugin.Joint, w: LineToWrite)
    requires NothingIsLate(t, recording.instanceId) && w.instanceId == recording.instanceId
    ensures Some(w) !in t.system.store.tasks && Recording.WriteItem(Some(w)) !in t.system.queue
  {
    if Some(w) in t.system.store.tasks { RecordReplay.LineOfWrite(t.system.store.tasks, w); }
    if Recording.WriteItem(Some(w)) in t.system.queue {
      RecordPlugin.EventIsWritten(t.system.queue, Some(w));
      RecordReplay.LineOfWrite(Recording.Writes(t.system.queue), w);
    }
  }

  /** The line of a call that came back, and its item. */
  lemma {:induction false} CallIsLoaded(recording: RecordPlugin.Config, s: Recording.System, actions: seq<RecordPlugin.Action>,
                                        t: RecordPlugin.Joint, cap: int, a: nat, config: Config, hasCallbacks: bool)
    requires IsOrderlyRun(recording, s, actions, t, cap) && RecordPlugin.CameBack(actions, a)
    ensures var p := PlaybackAfter(recording, t, config, hasCallbacks);
            var call, id := actions[a].call, RecordPlugin.IdAt(recording, RecordPlugin.Started(s), actions, a);
            && CompactLine(id, actions[a].now, Some(call.kind), call.caller, call.tags) in p.repo.index
            && Lookup(p.repo, id) == (if call.shouldNotSave && recording.ignoreTrivialCalls then None
                                      else Some(StorageItem(id, call.start, Some(call.kind), call.content)))
  {
    var call, id := actions[a].call, RecordPlugin.IdAt(recording, RecordPlugin.Started(s), actions, a);
    RecordPlugin.PostedCallIsReplayed(recording, s, actions, t, cap, a);
    NotLate(recording, t, LineToWrite(recording.instanceId, id, CompactLine(0, actions[a].now, Some(call.kind), call.caller, call.tags),
      if call.shouldNotSave && recording.ignoreTrivialCalls then None else Some(StorageItem(0, call.start, Some(call.kind), call.content))));
  }

  /**
   * A request for every line, in order: for a call of the run the request its client made, and for a line
   * from before the session the request of that line.
   */
  ghost predicate AsksForCalls(recording: RecordPlugin.Config, s: Recording.System, actions: seq<RecordPlugin.Action>,
                               requests: seq<Request>, lines: seq<CompactLine>)
    requires Recording.Enabled(s, Recording.Consume)
  {
    && |requests| == |lines|
    && forall k :: 0 <= k < |lines| ==>
         || (requests[k].query == QueryOf(lines[k])
             && forall a: nat :: RecordPlugin.CameBack(actions, a) ==>
                  RecordPlugin.IdAt(recording, RecordPlugin.Started(s), actions, a) != lines[k].index)
         || (exists a: nat ::
               && RecordPlugin.CameBack(actions, a)
               && RecordPlugin.IdAt(recording, RecordPlugin.Started(s), actions, a) == lines[k].index
               && requests[k].query == ClientQuery(actions[a].call))
  }

  lemma {:induction false} ClientAsksAgain(recording: RecordPlugin.Config, s: Recording.System, actions: seq<RecordPlugin.Action>,
                                           t: RecordPlugin.Joint, cap: int, config: Config, hasCallbacks: bool, requests: seq<Request>)
    requires IsOrderlyRun(recording, s, actions, t, cap)
    requires AsksForCalls(recording, s, actions, requests, Calls(PlaybackAfter(recording, t, config, hasCallbacks).lines))
    ensures AsksAgain(requests, Calls(PlaybackAfter(recording, t, config, hasCallbacks).lines))
  {
    var p := PlaybackAfter(recording, t, config, hasCallbacks);
    var lines := Calls(p.lines);
    PlaysSession(recording, s, actions, t, cap, config, hasCallbacks);
    CallsAre(p.lines);
    forall k | 0 <= k < |lines| ensures requests[k].query == QueryOf(lines[k]) {
      if a: nat :| RecordPlugin.CameBack(actions, a)
                   && RecordPlugin.IdAt(recording, RecordPlugin.Started(s), actions, a) == lines[k].index
                   && requests[k].query == ClientQuery(actions[a].call)
      {
        var call := actions[a].call;
        CallIsLoaded(recording, s, actions, t, cap, a, config, hasCallbacks);
        assert lines[k] in lines;
        SameIndexSameLine(p.repo.index, lines[k], CompactLine(lines[k].index, actions[a].now, Some(call.kind), call.caller, call.tags));
      }
    }
  }

  /**
   * From the calls of a run to their replay: when the clients make their calls again in the order of their
   * ids, every call of the run finds the line of its own type, caller and tags, recorded at the time it came
   * back, and is answered with its start, type and content, unless it was trivial and to be ignored.
   */
  lemma {:induction false} RecordedCallIsAnswered(recording: RecordPlugin.Config, s: Recording.System, actions: seq<RecordPlugin.Action>,
                               t: RecordPlugin.Joint, cap: int, a: nat, config: Config, hasCallbacks: bool,
                               requests: seq<Request>, results: seq<Served>)
    returns (k: nat)
    requires IsOrderlyRun(recording, s, actions, t, cap) && config.blockExternal
    requires RecordPlugin.CameBack(actions, a) && !IsResponse(Some(actions[a].call.kind))
    requires var p := PlaybackAfter(recording, t, config, hasCallbacks);
             && AsksForCalls(recording, s, actions, requests, Calls(p.lines))
             && IsRun(p, Memory({}, {}), requests, results)
    ensures var p := PlaybackAfter(recording, t, config, hasCallbacks);
            var call, id := actions[a].call, RecordPlugin.IdAt(recording, RecordPlugin.Started(s), actions, a);
            && k < |results| && requests[k].query == Query(Some(call.kind), call.caller, call.tags)
            && results[k].found == Some(FindResult(CompactLine(id, actions[a].now, Some(call.kind), call.caller, call.tags), false))
            && IsAnswered(results[k]) && !results[k].outcome.Thrown?
            && results[k].item == Some(if call.shouldNotSave && recording.ignoreTrivialCalls then EMPTY_ITEM.(index := id)
                                       else StorageItem(id, call.start, Some(call.kind), call.content))
  {
    var p := PlaybackAfter(recording, t, config, hasCallbacks);
    var call, id := actions[a].call, RecordPlugin.IdAt(recording, RecordPlugin.Started(s), actions, a);
    var line := CompactLine(id, actions[a].now, Some(call.kind), call.caller, call.tags);
    CallIsLoaded(recording, s, actions, t, cap, a, config, hasCallbacks);
    PlaysSession(recording, s, actions, t, cap, config, hasCallbacks);
    ClientAsksAgain(recording, s, actions, t, cap, config, hasCallbacks, requests);
    CallsAre(p.lines);
    assert line in Calls(p.lines);
    k :| 0 <= k < |Calls(p.lines)| && Calls(p.lines)[k] == line;
    ReplayIsFaithful(p, {}, requests, results, k);
    NothingIsThrown(p, Memory({}, {}), requests, results, k);
    AnsweredItem(p, Memory({}, {}), requests, results, k);
  }

  /** Calls of the run, each once, in any order. */
  predicate AreCallsOfRun(actions: seq<RecordPlugin.Action>, at: seq<nat>) {
    && (forall k :: 0 <= k < |at| ==> RecordPlugin.CameBack(actions, at[k]) && !IsResponse(Some(actions[at[k]].call.kind)))
    && (forall i, j :: 0 <= i < j < |at| ==> at[i] != at[j])
  }

  /**
   * The same in any order, and for any of the calls, while no line of a call fits the request of a later
   * one with all its tags.
   */
  lemma {:induction false} RecordedCallsInAnyOrder(recording: RecordPlugin.Config, s: Recording.System, actions: seq<RecordPlugin.Action>,
                               t: RecordPlugin.Joint, cap: int, at: seq<nat>, config: Config, hasCallbacks: bool,
                               requests: seq<Request>, results: seq<Served>, k: nat)
    requires IsOrderlyRun(recording, s, actions, t, cap) && config.blockExternal
    requires AreCallsOfRun(actions, at) && |requests| == |at|
    requires forall i :: 0 <= i < |at| ==>
               var call := actions[at[i]].call; requests[i].query == Query(Some(call.kind), call.caller, call.tags)
    requires var p := PlaybackAfter(recording, t, config, hasCallbacks);
             LaterCallsDiffer(p.lines) && IsRun(p, Memory({}, {}), requests, results) && k < |results|
    ensures var p := PlaybackAfter(recording, t, config, hasCallbacks);
            var call, id := actions[at[k]].call, RecordPlugin.IdAt(recording, RecordPlugin.Started(s), actions, at[k]);
            && results[k].found == Some(FindResult(CompactLine(id, actions[at[k]].now, Some(call.kind), call.caller, call.tags), false))
            && IsAnswered(results[k]) && !results[k].outcome.Thrown?
            && results[k].item == Some(if call.shouldNotSave && recording.ignoreTrivialCalls then EMPTY_ITEM.(index := id)
                                       else StorageItem(id, call.start, Some(call.kind), call.content))
  {
    var p := PlaybackAfter(recording, t, config, hasCallbacks);
    PlaysSession(recording, s, actions, t, cap, config, hasCallbacks);
    var calls := LinesAt(recording, s, actions, t, cap, at, config, hasCallbacks);
    assert AsksAgain(requests, calls);
    SelectionIsFaithful(p, {}, calls, requests, results, k);
    NothingIsThrown(p, Memory({}, {}), requests, results, k);
    AnsweredItem(p, Memory({}, {}), requests, results, k);
    CallIsLoaded(recording, s, actions, t, cap, at[k], config, hasCallbacks);
  }

  /** The line of the call that action `a` ends. */
  ghost function LineAt(recording: RecordPlugin.Config, s: Recording.System, actions: seq<RecordPlugin.Action>, a: nat): CompactLine
    requires Recording.Enabled(s, Recording.Consume) && RecordPlugin.CameBack(actions, a)
  {
    var call := actions[a].call;
    CompactLine(RecordPlugin.IdAt(recording, RecordPlugin.Started(s), actions, a), actions[a].now, Some(call.kind), call.caller, call.tags)
  }

  lemma {:induction false} LinesDiffer(recording: RecordPlugin.Config, s: Recording.System, actions: seq<RecordPlugin.Action>,
                                       t: RecordPlugin.Joint, cap: int, a: nat, c: nat)
    requires IsOrderlyRun(recording, s, actions, t, cap) && RecordPlugin.CameBack(actions, a) && RecordPlugin.CameBack(actions, c)
    requires a != c
    ensures LineAt(recording, s, actions, a) != LineAt(recording, s, actions, c)
  {
    if a < c {
      RecordPlugin.IdsOfRunDiffer(recording, s, actions, t, cap, a, c);
    } else {
      RecordPlugin.IdsOfRunDiffer(recording, s, actions, t, cap, c, a);
    }
  }

  lemma {:induction false} LineIsPlayed(recording: RecordPlugin.Config, s: Recording.System, actions: seq<RecordPlugin.Action>,
                                        t: RecordPlugin.Joint, cap: int, a: nat, config: Config, hasCallbacks: bool)
    requires IsOrderlyRun(recording, s, actions, t, cap) && RecordPlugin.CameBack(actions, a)
    requires !IsResponse(Some(actions[a].call.kind))
    ensures LineAt(recording, s, actions, a) in PlaybackAfter(recording, t, config, hasCallbacks).lines
  {
    PlaysSession(recording, s, actions, t, cap, config, hasCallbacks);
    CallIsLoaded(recording, s, actions, t, cap, a, config, hasCallbacks);
  }

  /** The lines of the calls at some positions, all different. */
  lemma {:induction false} LinesAt(recording: RecordPlugin.Config, s: Recording.System, actions: seq<RecordPlugin.Action>,
                                   t: RecordPlugin.Joint, cap: int, at: seq<nat>, config: Config, hasCallbacks: bool)
    returns (calls: seq<CompactLine>)
    requires IsOrderlyRun(recording, s, actions, t, cap) && AreCallsOfRun(actions, at)
    ensures |calls| == |at| && forall i :: 0 <= i < |at| ==> calls[i] == LineAt(recording, s, actions, at[i])
    ensures IsSelection(calls, PlaybackAfter(recording, t, config, hasCallbacks).lines)
  {
    calls := seq(|at|, i requires 0 <= i < |at| => LineAt(recording, s, actions, at[i]));
    forall i | 0 <= i < |at|
      ensures calls[i] in PlaybackAfter(recording, t, config, hasCallbacks).lines && !IsResponse(calls[i].kind)
    {
      LineIsPlayed(recording, s, actions, t, cap, at[i], config, hasCallbacks);
    }
    forall i, j | 0 <= i < j < |at| ensures calls[i] != calls[j] {
      LinesDiffer(recording, s, actions, t, cap, at[i], at[j]);
    }
  }

  /**
   * From the callbacks of a run to their replay: in any replay, whatever is asked, a callback is scheduled
   * exactly when some request is answered by the last call recorded before it while a connection is open
   * that has a tag in common with it, and then with its start and content. A callback recorded in front of
   * the first call is not held by the plugin, and never is.
   */
  lemma {:induction false} RecordedCallbackIsScheduled(recording: RecordPlugin.Config, s: Recording.System, actions: seq<RecordPlugin.Action>,
                               t: RecordPlugin.Joint, cap: int, a: nat, config: Config, requests: seq<Request>, results: seq<Served>)
    requires IsOrderlyRun(recording, s, actions, t, cap) && RecordPlugin.IsCallback(actions, a)
    requires IsRun(PlaybackAfter(recording, t, config, true), Memory({}, {}), requests, results)
    ensures var p := PlaybackAfter(recording, t, config, true);
            var call, id := actions[a].call, RecordPlugin.IdAt(recording, RecordPlugin.Started(s), actions, a);
            var line := CompactLine(id, actions[a].now, Some("RESPONSE"), call.caller, call.tags);
            && line in p.repo.index
            && (StorageItem(id, call.start, Some("RESPONSE"), call.content) in Batches(results)
                <==> line in p.lines
                     && exists k, c :: 0 <= k < |results| && IsAnswered(results[k])
                                       && IsLastCallBefore(results[k].found.value.line, line, p.repo.index)
                                       && c in requests[k].contexts && HaveCommonTag(call.tags, c))
  {
    var p := PlaybackAfter(recording, t, config, true);
    var call, id := actions[a].call, RecordPlugin.IdAt(recording, RecordPlugin.Started(s), actions, a);
    var line := CompactLine(id, actions[a].now, Some("RESPONSE"), call.caller, call.tags);
    var x := StorageItem(id, call.start, Some("RESPONSE"), call.content);
    PlaysSession(recording, s, actions, t, cap, config, true);
    RecordPlugin.CallbackIsReplayed(recording, s, actions, t, cap, a);
    NotLate(recording, t, LineToWrite(recording.instanceId, id, CompactLine(0, actions[a].now, Some("RESPONSE"), call.caller, call.tags),
                                      Some(StorageItem(0, call.start, Some("RESPONSE"), call.content))));
    CallbacksFollowTheirCall(p, {}, requests, results);
    forall k | 0 <= k < |results|
      ensures IsDue(x, p, requests[k], results[k])
              <==> line in p.lines && IsAnswered(results[k]) && IsLastCallBefore(results[k].found.value.line, line, p.repo.index)
                   && exists c :: c in requests[k].contexts && HaveCommonTag(call.tags, c)
    {
      DueIff(p, line, x, requests[k], results[k]);
    }
  }

  lemma {:induction false} DueIff(p: Playback, line: CompactLine, x: StorageItem, request: Request, r: Served)
    requires PlaysRecording(p) && p.hasCallbacks
    requires line in p.repo.index && IsResponse(line.kind) && FirstWithIndex(p.repo.outItems, line.index) == Some(x)
    ensures IsDue(x, p, request, r)
            <==> line in p.lines && IsAnswered(r) && IsLastCallBefore(r.found.value.line, line, p.repo.index)
                 && exists c :: c in request.contexts && HaveCommonTag(line.tags, c)
  {
    assert x.index == line.index;
    if IsAnswered(r) {
      OnlyCallbackLine(p, line, x, r.found.value.line);
      AwaitedIff(p, line, request.contexts);
    }
  }

  lemma {:induction false} OnlyCallbackLine(p: Playback, line: CompactLine, x: StorageItem, c: CompactLine)
    requires PlaysRecording(p) && line in p.repo.index && IsResponse(line.kind)
    requires FirstWithIndex(p.repo.outItems, line.index) == Some(x)
    ensures IsCallbackOf(x, c, p.repo) <==> IsLastCallBefore(c, line, p.repo.index)
  {
    forall l | l in p.repo.index && FirstWithIndex(p.repo.outItems, l.index) == Some(x) ensures l == line {
      assert l.index == x.index == line.index;
      SameIndexSameLine(p.repo.index, l, line);
    }
  }

  lemma {:induction false} AwaitedIff(p: Playback, line: CompactLine, contexts: seq<TagMap>)
    requires PlaysRecording(p) && line in p.repo.index
    ensures IsAwaited(line.index, p.lines, contexts)
            <==> line in p.lines && exists c :: c in contexts && HaveCommonTag(line.tags, c)
  {
    IsAwaitedIff(line.index, p.lines, contexts);
    forall i | IsFirstWith(line.index, p.lines, i) ensures p.lines[i] == line {
      assert p.lines[i] in p.lines;
      SameIndexSameLine(p.repo.index, p.lines[i], line);
    }
    if line in p.lines { var i := FirstPosition(p.lines, line.index); }
  }

  lemma {:induction false} FirstPosition(lines: seq<CompactLine>, index: int) returns (i: int)
    requires exists l :: l in lines && l.index == index
    ensures IsFirstWith(index, lines, i)
    decreases |lines|
  {
    i := 0;
    if lines[0].index != index {
      var l :| l in lines && l.index == index;
      assert l in lines[1..];
      var j := FirstPosition(lines[1..], index);
      FirstIsLater(index, lines, j);
      i := j + 1;
    }
  }
}
