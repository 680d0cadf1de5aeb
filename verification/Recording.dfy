/**
 * Recording across threads: events are sent to a queue, the queue thread handles them one by one and
 * submits lines to a single-thread executor, and the executor writes them into the open recordings.
 * Every step is one action of one thread; runs are arbitrary interleavings.
 */
module Recording {
  import opened Wrappers
  import opened JavaInt
  import opened Text
  import opened FileNames
  import opened Sorting
  import opened Storage

  datatype Event =
    | StartWrite(instanceId: string)
    | WriteItem(line: Option<LineToWrite>)
    | FinalizeWrite(instanceId: string)
    | StartPlay(instanceId: string)
    | EndPlay(instanceId: string)

  datatype System = System(queue: seq<Event>, store: Store)

  datatype Step =
    | Send(event: Event)
    | Consume
    | RunTask
    | NewId

  /** The handlers of the repository. */
  ghost function Handled(store: Store, event: Event): Store {
    match event
    case StartWrite(id) => OpenedForWrite(store, id)
    case WriteItem(line) => Submitted(store, line)
    case FinalizeWrite(id) => Finalized(store, id)
    case StartPlay(id) => OpenedForReplay(store, id)
    case EndPlay(id) => PlayEnded(store, id)
  }

  /**
   * Finalizing waits for the executor, but goes on when the wait was in vain: it may happen in any state.
   * What the executor does during the wait are steps of its own.
   */
  ghost predicate Enabled(s: System, step: Step) {
    match step
    case Send(_) => true
    case Consume => s.queue != []
    case RunTask => s.store.tasks != []
    case NewId => true
  }

  ghost function Next(s: System, step: Step): System
    requires Enabled(s, step)
  {
    match step
    case Send(event) => s.(queue := s.queue + [event])
    case Consume => System(s.queue[1..], Handled(s.store, s.queue[0]))
    case RunTask => s.(store := TaskRun(s.store))
    case NewId => s.(store := s.store.(counter := Int32(s.store.counter + 1)))
  }

  ghost predicate Leads(s: System, steps: seq<Step>, t: System)
    decreases |steps|
  {
    if steps == [] then s == t else Enabled(s, steps[0]) && Leads(Next(s, steps[0]), steps[1..], t)
  }

  /** The wait of a finalization is a run of the executor's steps. */
  lemma {:induction false} TasksRunIsRun(s: System, n: nat) returns (steps: seq<Step>)
    ensures Leads(s, steps, s.(store := TasksRun(s.store, n)))
    ensures forall k :: 0 <= k < |steps| ==> steps[k] == RunTask
    decreases n
  {
    steps := [];
    if n > 0 && s.store.tasks != [] {
      var rest := TasksRunIsRun(s.(store := TaskRun(s.store)), n - 1);
      steps := [RunTask] + rest;
      assert steps[1..] == rest;
    }
  }

  lemma {:induction false} LeadsOn(s: System, a: seq<Step>, m: System, b: seq<Step>, t: System)
    requires Leads(s, a, m) && Leads(m, b, t)
    ensures Leads(s, a + b, t)
    decreases |a|
  {
    if a == [] {
      assert a + b == b;
    } else {
      assert (a + b)[0] == a[0] && (a + b)[1..] == a[1..] + b;
      LeadsOn(Next(s, a[0]), a[1..], m, b, t);
    }
  }

  lemma {:induction false} WaitIsRun(s: System, done: seq<nat>) returns (steps: seq<Step>)
    ensures Leads(s, steps, s.(store := Waited(s.store, done)))
    ensures forall k :: 0 <= k < |steps| ==> steps[k] == RunTask
    decreases |done|
  {
    steps := [];
    if done != [] {
      var t := s.(store := TasksRun(s.store, done[0]));
      steps := TasksRunIsRun(s, done[0]);
      if t.store.executorItems != 0 {
        var rest := WaitIsRun(t, done[1..]);
        LeadsOn(s, steps, t, rest, t.(store := Waited(t.store, done[1..])));
        steps := steps + rest;
      }
    }
  }

  function SentBy(step: Step): seq<Event> { if step.Send? then [step.event] else [] }

  function Sent(steps: seq<Step>): seq<Event> {
    if steps == [] then [] else SentBy(steps[0]) + Sent(steps[1..])
  }

  /** The event a step takes off the queue and handles. */
  ghost function Taken(s: System, step: Step): seq<Event>
    requires Enabled(s, step)
  {
    if step.Consume? then [s.queue[0]] else []
  }

  /** The events handled during a run, in order. */
  ghost function Consumed(s: System, steps: seq<Step>): seq<Event>
    decreases |steps|
  {
    if steps == [] || !Enabled(s, steps[0]) then []
    else Taken(s, steps[0]) + Consumed(Next(s, steps[0]), steps[1..])
  }

  function Writes(events: seq<Event>): seq<Option<LineToWrite>> {
    if events == [] then [] else (if events[0].WriteItem? then [events[0].line] else []) + Writes(events[1..])
  }

  /** The lines one instance gets out of a list of writes. */
  function Lines(writes: seq<Option<LineToWrite>>, instanceId: string): seq<CompactLine> {
    if writes == [] then []
    else (if writes[0].Some? && writes[0].value.instanceId == instanceId then [Stored(writes[0].value)] else [])
         + Lines(writes[1..], instanceId)
  }

  lemma {:induction false} LinesAppend(a: seq<Option<LineToWrite>>, b: seq<Option<LineToWrite>>, instanceId: string)
    ensures Lines(a + b, instanceId) == Lines(a, instanceId) + Lines(b, instanceId)
    decreases |a|
  {
    if a == [] {
      assert a + b == b;
    } else {
      assert (a + b)[1..] == a[1..] + b;
      LinesAppend(a[1..], b, instanceId);
    }
  }

  /** Opening and closing an instance, for recording or for replay. */
  predicate Concerns(event: Event, instanceId: string) { !event.WriteItem? && event.instanceId == instanceId }

  predicate Undisturbed(events: seq<Event>, instanceId: string) {
    forall i :: 0 <= i < |events| ==> !Concerns(events[i], instanceId)
  }

  // ---------------------------------------------------------------- the queue keeps order

  lemma {:induction false} QueueStep(s: System, step: Step)
    requires Enabled(s, step)
    ensures s.queue + SentBy(step) == Taken(s, step) + Next(s, step).queue
  {
    if step.Consume? { assert s.queue + [] == [s.queue[0]] + s.queue[1..]; }
  }

  lemma {:induction false} Regroup<T>(queue: seq<T>, sent: seq<T>, taken: seq<T>, next: seq<T>, later: seq<T>, consumed: seq<T>, end: seq<T>)
    requires queue + sent == taken + next && next + later == consumed + end
    ensures queue + (sent + later) == taken + consumed + end
  {
    calc {
      queue + (sent + later);
      queue + sent + later;
      taken + (next + later);
      taken + consumed + end;
    }
  }

  lemma {:induction false} QueueKeepsOrder(s: System, steps: seq<Step>, t: System)
    requires Leads(s, steps, t)
    ensures s.queue + Sent(steps) == Consumed(s, steps) + t.queue
    decreases |steps|
  {
    if steps == [] {
      assert s.queue + [] == [] + t.queue;
    } else {
      var step, rest, n := steps[0], steps[1..], Next(s, steps[0]);
      QueueStep(s, step);
      QueueKeepsOrder(n, rest, t);
      Regroup(s.queue, SentBy(step), Taken(s, step), n.queue, Sent(rest), Consumed(n, rest), t.queue);
    }
  }

  // ---------------------------------------------------------------- the executor's counter

  function Nulls(writes: seq<Option<LineToWrite>>): nat {
    if writes == [] then 0 else (if writes[0].None? then 1 else 0) + Nulls(writes[1..])
  }

  lemma {:induction false} NullsAppend(a: seq<Option<LineToWrite>>, b: seq<Option<LineToWrite>>)
    ensures Nulls(a + b) == Nulls(a) + Nulls(b)
    decreases |a|
  {
    if a == [] {
      assert a + b == b;
    } else {
      assert (a + b)[1..] == a[1..] + b;
      NullsAppend(a[1..], b);
    }
  }

  lemma {:induction false} CountOfHandled(store: Store, event: Event)
    ensures var h := Handled(store, event); var w := Writes([event]);
            && h.tasks == store.tasks + w
            && h.executorItems == store.executorItems + |w|
  {
    assert [event][1..] == [] && store.tasks + [] == store.tasks;
    assert Writes([event]) == if event.WriteItem? then [event.line] else [];
  }

  /** What keeps the counter up besides the lines that wait: null lines already run. */
  function Stuck(store: Store): int { store.executorItems - |store.tasks| + Nulls(store.tasks) }

  lemma {:induction false} StepCounts(s: System, step: Step)
    requires Enabled(s, step)
    ensures Stuck(Next(s, step).store) == Stuck(s.store) + Nulls(Writes(Taken(s, step)))
    ensures s.store.executorItems >= |s.store.tasks| ==> Next(s, step).store.executorItems >= |Next(s, step).store.tasks|
  {
    if step.Consume? {
      CountOfHandled(s.store, s.queue[0]);
      NullsAppend(s.store.tasks, Writes([s.queue[0]]));
    }
  }

  lemma {:induction false} ExecutorCounts(s: System, steps: seq<Step>, t: System)
    requires Leads(s, steps, t)
    ensures Stuck(t.store) == Stuck(s.store) + Nulls(Writes(Consumed(s, steps)))
    ensures s.store.executorItems >= |s.store.tasks| ==> t.store.executorItems >= |t.store.tasks|
    decreases |steps|
  {
    if steps != [] {
      var n := Next(s, steps[0]);
      StepCounts(s, steps[0]);
      ExecutorCounts(n, steps[1..], t);
      var first, rest := Taken(s, steps[0]), Consumed(n, steps[1..]);
      WritesAppend(first, rest);
      NullsAppend(Writes(first), Writes(rest));
    }
  }

  lemma {:induction false} WritesAppend(a: seq<Event>, b: seq<Event>)
    ensures Writes(a + b) == Writes(a) + Writes(b)
    decreases |a|
  {
    if a == [] {
      assert a + b == b;
    } else {
      assert (a + b)[0] == a[0] && (a + b)[1..] == a[1..] + b;
      WritesAppend(a[1..], b);
      var first := if a[0].WriteItem? then [a[0].line] else [];
      assert first + Writes(a[1..]) + Writes(b) == first + (Writes(a[1..]) + Writes(b));
    }
  }

  /**
   * The wait of a finalization can succeed exactly when the executor has nothing to do and no null line
   * was ever handled: a null line keeps the counter up for good.
   */
  lemma {:induction false} WaitSucceedsIff(s: System, steps: seq<Step>, t: System)
    requires s.store.tasks == [] && s.store.executorItems == 0 && Leads(s, steps, t)
    ensures t.store.executorItems == 0 <==> t.store.tasks == [] && Nulls(Writes(Consumed(s, steps))) == 0
  {
    ExecutorCounts(s, steps, t);
    NullsBound(t.store.tasks);
    assert t.store.tasks == [] ==> Nulls(t.store.tasks) == 0;
  }

  lemma {:induction false} NullsBound(writes: seq<Option<LineToWrite>>)
    ensures Nulls(writes) <= |writes|
    decreases |writes|
  {
    if writes != [] { NullsBound(writes[1..]); }
  }

  // ---------------------------------------------------------------- a recording session

  /** An instance is open for recording, with `base` as the lines it had and `pending` ones to come. */
  ghost predicate InSession(store: Store, instanceId: string, base: nat, all: seq<CompactLine>) {
    && instanceId in store.repos
    && var repo := store.repos[instanceId];
       && repo.initialized
       && repo.index + Lines(store.tasks, instanceId) == all
       && base <= |repo.index| && (repo.somethingWritten <==> base < |repo.index|)
  }

  lemma {:induction false} HandlingKeepsRepo(store: Store, event: Event, instanceId: string)
    requires instanceId in store.repos && !Concerns(event, instanceId)
    ensures instanceId in Handled(store, event).repos
    ensures Handled(store, event).repos[instanceId] == store.repos[instanceId]
  {}

  lemma {:induction false} SessionExtends(store: Store, h: Store, instanceId: string, base: nat, all: seq<CompactLine>, more: seq<Option<LineToWrite>>)
    requires InSession(store, instanceId, base, all)
    requires instanceId in h.repos && h.repos[instanceId] == store.repos[instanceId] && h.tasks == store.tasks + more
    ensures InSession(h, instanceId, base, all + Lines(more, instanceId))
  {
    LinesAppend(store.tasks, more, instanceId);
    var index := store.repos[instanceId].index;
    assert index + (Lines(store.tasks, instanceId) + Lines(more, instanceId)) == all + Lines(more, instanceId);
  }

  lemma {:induction false} SessionHandles(store: Store, instanceId: string, base: nat, all: seq<CompactLine>, event: Event)
    requires InSession(store, instanceId, base, all) && !Concerns(event, instanceId)
    ensures InSession(Handled(store, event), instanceId, base, all + Lines(Writes([event]), instanceId))
  {
    CountOfHandled(store, event);
    HandlingKeepsRepo(store, event, instanceId);
    SessionExtends(store, Handled(store, event), instanceId, base, all, Writes([event]));
  }

  lemma {:induction false} SessionRuns(store: Store, instanceId: string, base: nat, all: seq<CompactLine>)
    requires InSession(store, instanceId, base, all) && store.tasks != []
    ensures InSession(TaskRun(store), instanceId, base, all)
  {
    var first, rest := store.tasks[0], store.tasks[1..];
    var index := store.repos[instanceId].index;
    if first.Some? && first.value.instanceId == instanceId {
      assert index + ([Stored(first.value)] + Lines(rest, instanceId)) == index + [Stored(first.value)] + Lines(rest, instanceId);
    } else {
      assert [] + Lines(rest, instanceId) == Lines(rest, instanceId);
    }
  }

  lemma {:induction false} SessionStep(s: System, step: Step, instanceId: string, base: nat, all: seq<CompactLine>)
    requires Enabled(s, step) && InSession(s.store, instanceId, base, all) && Undisturbed(Taken(s, step), instanceId)
    ensures InSession(Next(s, step).store, instanceId, base, all + Lines(Writes(Taken(s, step)), instanceId))
  {
    if step.Consume? {
      assert !Concerns(Taken(s, step)[0], instanceId);
      SessionHandles(s.store, instanceId, base, all, s.queue[0]);
    } else {
      assert all + [] == all;
      if step.RunTask? { SessionRuns(s.store, instanceId, base, all); }
    }
  }

  lemma {:induction false} SessionGoesOn(s: System, steps: seq<Step>, t: System, instanceId: string, base: nat, all: seq<CompactLine>)
    requires Leads(s, steps, t) && InSession(s.store, instanceId, base, all)
    requires Undisturbed(Consumed(s, steps), instanceId)
    ensures InSession(t.store, instanceId, base, all + Lines(Writes(Consumed(s, steps)), instanceId))
    decreases |steps|
  {
    if steps == [] {
      assert all + [] == all;
    } else {
      var n := Next(s, steps[0]);
      var first, rest := Taken(s, steps[0]), Consumed(n, steps[1..]);
      UndisturbedParts(first, rest, instanceId);
      SessionStep(s, steps[0], instanceId, base, all);
      SessionGoesOn(n, steps[1..], t, instanceId, base, all + Lines(Writes(first), instanceId));
      AllLines(all, first, rest, instanceId);
    }
  }

  lemma {:induction false} AllLines(all: seq<CompactLine>, first: seq<Event>, rest: seq<Event>, instanceId: string)
    ensures all + Lines(Writes(first + rest), instanceId)
            == all + Lines(Writes(first), instanceId) + Lines(Writes(rest), instanceId)
  {
    WritesAppend(first, rest);
    LinesAppend(Writes(first), Writes(rest), instanceId);
  }

  lemma {:induction false} UndisturbedParts(a: seq<Event>, b: seq<Event>, instanceId: string)
    requires Undisturbed(a + b, instanceId)
    ensures Undisturbed(a, instanceId) && Undisturbed(b, instanceId)
  {
    forall i | 0 <= i < |a| ensures !Concerns(a[i], instanceId) { assert (a + b)[i] == a[i]; }
    forall i | 0 <= i < |b| ensures !Concerns(b[i], instanceId) { assert (a + b)[|a| + i] == b[i]; }
  }

  // ---------------------------------------------------------------- the index on disk

  lemma {:induction false} IndexStaysUnless(store: Store, event: Event, instanceId: string)
    requires !Concerns(event, instanceId)
    ensures LoadedIndex(Handled(store, event).files, instanceId) == LoadedIndex(store.files, instanceId)
  {
    if event.FinalizeWrite? { IndexNamesDiffer(event.instanceId, instanceId); }
  }

  lemma {:induction false} TaskKeepsIndex(store: Store, instanceId: string)
    requires store.tasks != []
    ensures LoadedIndex(TaskRun(store).files, instanceId) == LoadedIndex(store.files, instanceId)
  {
    if store.tasks[0].Some? {
      ItemIsNoIndex(store.tasks[0].value.id, store.tasks[0].value.instanceId, instanceId);
    }
  }

  /** While an instance is open nobody writes its index. */
  lemma {:induction false} IndexStays(s: System, steps: seq<Step>, t: System, instanceId: string)
    requires Leads(s, steps, t) && Undisturbed(Consumed(s, steps), instanceId)
    ensures LoadedIndex(t.store.files, instanceId) == LoadedIndex(s.store.files, instanceId)
    decreases |steps|
  {
    if steps != [] {
      var n := Next(s, steps[0]);
      UndisturbedParts(Taken(s, steps[0]), Consumed(n, steps[1..]), instanceId);
      IndexStays(n, steps[1..], t, instanceId);
      match steps[0]
      case Consume =>
        assert Taken(s, steps[0])[0] == s.queue[0];
        IndexStaysUnless(s.store, s.queue[0], instanceId);
      case RunTask => TaskKeepsIndex(s.store, instanceId);
      case _ =>
    }
  }

  /** The run from the handling of a StartWrite of a closed instance up to the FinalizeWrite at the head of the queue. */
  ghost predicate IsSession(s: System, steps: seq<Step>, t: System, instanceId: string) {
    && s.queue != [] && s.queue[0] == StartWrite(instanceId) && instanceId !in s.store.repos
    && Leads(Next(s, Consume), steps, t)
    && Undisturbed(Consumed(Next(s, Consume), steps), instanceId)
    && t.queue != [] && t.queue[0] == FinalizeWrite(instanceId)
  }

  lemma {:induction false} RunFrom(s: System, steps: seq<Step>, t: System, instanceId: string)
    requires s.queue != [] && s.queue[0] == StartWrite(instanceId)
    requires Leads(Next(s, Consume), steps, t)
    ensures Leads(s, [Consume] + steps, t) && Sent([Consume] + steps) == Sent(steps)
    ensures Consumed(s, [Consume] + steps) == [StartWrite(instanceId)] + Consumed(Next(s, Consume), steps)
  {
    assert ([Consume] + steps)[1..] == steps;
    assert [] + Sent(steps) == Sent(steps);
  }

  lemma {:induction false} SessionOpens(s: System, instanceId: string)
    requires s.queue != [] && s.queue[0] == StartWrite(instanceId) && instanceId !in s.store.repos
    ensures var loaded := LoadedIndex(s.store.files, instanceId);
            InSession(Next(s, Consume).store, instanceId, |loaded|, loaded + Lines(s.store.tasks, instanceId))
  {}

  /** The lines a session is to put into the index: those it loads, those waiting at its start, those queued in it. */
  ghost function SessionLines(s: System, steps: seq<Step>, instanceId: string): seq<CompactLine>
    requires Enabled(s, Consume)
  {
    LoadedIndex(s.store.files, instanceId) + Lines(s.store.tasks, instanceId)
    + Lines(Writes(Consumed(Next(s, Consume), steps)), instanceId)
  }

  /** What is in the index of the open instance so far; the rest of the session's lines still waits. */
  lemma {:induction false} SessionSplits(s: System, steps: seq<Step>, t: System, instanceId: string)
    requires IsSession(s, steps, t, instanceId)
    ensures InSession(t.store, instanceId, |LoadedIndex(s.store.files, instanceId)|, SessionLines(s, steps, instanceId))
    ensures LoadedIndex(t.store.files, instanceId) == LoadedIndex(s.store.files, instanceId)
  {
    var o := Next(s, Consume);
    var loaded := LoadedIndex(s.store.files, instanceId);
    SessionOpens(s, instanceId);
    SessionGoesOn(o, steps, t, instanceId, |loaded|, loaded + Lines(s.store.tasks, instanceId));
    IndexStays(o, steps, t, instanceId);
  }

  lemma {:induction false} SortKeepsLength(a: seq<CompactLine>, b: seq<CompactLine>)
    requires SortByTimestamp(a) == SortByTimestamp(b)
    ensures |a| == |b|
  {
    SortIs(TimeOf, a);
    SortIs(TimeOf, b);
  }

  lemma {:induction false} SessionCloses(t: System, instanceId: string, base: nat, all: seq<CompactLine>)
    requires t.queue != [] && t.queue[0] == FinalizeWrite(instanceId)
    requires InSession(t.store, instanceId, base, all) && |LoadedIndex(t.store.files, instanceId)| == base < |all|
    ensures var run := t.store.repos[instanceId].index; var written := LoadedIndex(Next(t, Consume).store.files, instanceId);
            && (base < |run| ==> written == SortByTimestamp(run))
            && (base == |run| ==> written == LoadedIndex(t.store.files, instanceId))
            && (written == SortByTimestamp(all) <==> Lines(t.store.tasks, instanceId) == [])
  {
    var run, waiting := t.store.repos[instanceId].index, Lines(t.store.tasks, instanceId);
    var written := LoadedIndex(Next(t, Consume).store.files, instanceId);
    SortIs(TimeOf, run);
    SortIs(TimeOf, all);
    if waiting == [] { assert run + [] == run; }
  }

  /** The index a finalization leaves: the lines run so far, sorted, or what was there if none was run. */
  predicate IsWritten(written: seq<CompactLine>, loaded: seq<CompactLine>, all: seq<CompactLine>, waiting: seq<CompactLine>) {
    && |loaded| + |waiting| <= |all| && all[|all| - |waiting|..] == waiting
    && written == (if |loaded| + |waiting| < |all| then SortByTimestamp(all[..|all| - |waiting|]) else loaded)
    && (|loaded| < |all| ==> (written == SortByTimestamp(all) <==> waiting == []))
  }

  lemma {:induction false} WrittenIndex(s: System, steps: seq<Step>, t: System, instanceId: string)
    requires IsSession(s, steps, t, instanceId)
    ensures IsWritten(LoadedIndex(Next(t, Consume).store.files, instanceId), LoadedIndex(s.store.files, instanceId),
                      SessionLines(s, steps, instanceId), Lines(t.store.tasks, instanceId))
  {
    var loaded, all := LoadedIndex(s.store.files, instanceId), SessionLines(s, steps, instanceId);
    SessionSplits(s, steps, t, instanceId);
    var run, waiting := t.store.repos[instanceId].index, Lines(t.store.tasks, instanceId);
    assert all[..|run|] == run && all[|run|..] == waiting;
    if |loaded| < |all| { SessionCloses(t, instanceId, |loaded|, all); }
  }

  lemma {:induction false} IndexStart(s: System, steps: seq<Step>, instanceId: string)
    requires Enabled(s, Consume)
    ensures LoadedIndex(s.store.files, instanceId) <= SessionLines(s, steps, instanceId)
  {}

  /**
   * In every interleaving, timed-out waits included, the index after a finalization has the lines loaded
   * at the start and those of the session the executor has run, sorted by timestamp, lines of one time in
   * the order they were added. The session's lines are those already waiting at its start and one for each
   * write queued between its StartWrite and its FinalizeWrite; all of them are in the index exactly when
   * none of them still waits.
   */
  lemma {:induction false} RecordingLosesNothing(s: System, steps: seq<Step>, t: System, instanceId: string)
    requires IsSession(s, steps, t, instanceId)
    ensures s.queue + Sent(steps) == [StartWrite(instanceId)] + Consumed(Next(s, Consume), steps) + t.queue
    ensures IsInOrder(LoadedIndex(Next(t, Consume).store.files, instanceId), LoadedIndex(s.store.files, instanceId),
                      SessionLines(s, steps, instanceId), Lines(t.store.tasks, instanceId))
  {
    RunFrom(s, steps, t, instanceId);
    QueueKeepsOrder(s, [Consume] + steps, t);
    WrittenIndex(s, steps, t, instanceId);
    WrittenInOrder(LoadedIndex(s.store.files, instanceId), SessionLines(s, steps, instanceId), Lines(t.store.tasks, instanceId),
                   LoadedIndex(Next(t, Consume).store.files, instanceId));
  }

  /**
   * The index has all lines but those still waiting, which come last: in the order of time, lines of one
   * time as they were added; without any line of the session it is the index loaded at the start.
   */
  ghost predicate IsInOrder(written: seq<CompactLine>, loaded: seq<CompactLine>, all: seq<CompactLine>, waiting: seq<CompactLine>) {
    && |loaded| + |waiting| <= |all| && all[|all| - |waiting|..] == waiting
    && (if |loaded| + |waiting| < |all| then IsInTimeOrder(written, all[..|all| - |waiting|]) else written == loaded)
    && (|loaded| < |all| ==> (IsInTimeOrder(written, all) <==> waiting == []))
  }

  lemma {:induction false} WrittenInOrder(loaded: seq<CompactLine>, all: seq<CompactLine>, waiting: seq<CompactLine>, written: seq<CompactLine>)
    requires IsWritten(written, loaded, all, waiting)
    ensures IsInOrder(written, loaded, all, waiting)
  {
    var run := all[..|all| - |waiting|];
    SortsByTime(run);
    SortIs(TimeOf, run);
    if waiting == [] {
      assert run == all;
    } else {
      FewerLines(written, all);
    }
  }

  lemma {:induction false} FewerLines(few: seq<CompactLine>, many: seq<CompactLine>)
    requires |few| < |many|
    ensures !IsInTimeOrder(few, many)
  {
    assert |multiset(few)| < |multiset(many)|;
  }

  /** A wait that succeeds loses nothing: the executor is idle then, if its counter never ran behind. */
  lemma {:induction false} SuccessfulWaitIsIdle(s: System, steps: seq<Step>, t: System, instanceId: string)
    requires IsSession(s, steps, t, instanceId) && s.store.executorItems >= |s.store.tasks| && t.store.executorItems == 0
    ensures Lines(t.store.tasks, instanceId) == []
  {
    ExecutorCounts(Next(s, Consume), steps, t);
    assert t.store.tasks == [];
  }

  /**
   * When nothing waits at the end, only the queued writes are in the index exactly when no write of the
   * instance was waiting at its start.
   */
  lemma {:induction false} OnlySessionLinesIff(s: System, steps: seq<Step>, t: System, instanceId: string)
    requires IsSession(s, steps, t, instanceId) && Lines(t.store.tasks, instanceId) == []
    requires Lines(Writes(Consumed(Next(s, Consume), steps)), instanceId) != []
    ensures LoadedIndex(Next(t, Consume).store.files, instanceId)
            == SortByTimestamp(LoadedIndex(s.store.files, instanceId)
                               + Lines(Writes(Consumed(Next(s, Consume), steps)), instanceId))
            <==> Lines(s.store.tasks, instanceId) == []
  {
    WrittenIndex(s, steps, t, instanceId);
    var loaded, early := LoadedIndex(s.store.files, instanceId), Lines(s.store.tasks, instanceId);
    var session := Lines(Writes(Consumed(Next(s, Consume), steps)), instanceId);
    SortIs(TimeOf, loaded + early + session);
    SortIs(TimeOf, loaded + session);
    if early == [] { assert loaded + early == loaded; }
  }

  /** A session whose only write still waits when the wait is over: the line is lost, and its task is dropped. */
  lemma {:induction false} LateLineIsLost(instanceId: string, w: LineToWrite) returns (s: System, steps: seq<Step>, t: System)
    requires w.instanceId == instanceId
    ensures IsSession(s, steps, t, instanceId) && SessionLines(s, steps, instanceId) == [Stored(w)]
    ensures Waited(t.store, [0]) == t.store
    ensures var u := Next(t, Consume).store;
            LoadedIndex(u.files, instanceId) == [] && u.tasks == [Some(w)] && TaskRun(u).files == map[]
  {
    s := System([StartWrite(instanceId), WriteItem(Some(w)), FinalizeWrite(instanceId)], Store(map[], 0, [], 0, map[]));
    steps := [Consume];
    var o := Next(s, Consume);
    t := Next(o, Consume);
    assert o.queue == [WriteItem(Some(w)), FinalizeWrite(instanceId)] && t.queue == [FinalizeWrite(instanceId)];
    assert steps[1..] == [] && Leads(t, [], t) && Leads(o, steps, t);
    assert Consumed(t, []) == [] && Consumed(o, steps) == [WriteItem(Some(w))] + [];
    assert Writes([WriteItem(Some(w))]) == [Some(w)] + Writes([]);
    assert Lines([Some(w)], instanceId) == [Stored(w)] + Lines([], instanceId);
    assert t.store.tasks == [Some(w)];
  }
}
