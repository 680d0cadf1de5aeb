/**
 * Where the recorded lines come from, `BasicRecordPlugin`: an id is drawn before a call goes out, and the
 * line is sent to the queue, under that id, when the call has come back.
 */
module RecordPlugin {
  import opened Wrappers
  import opened JavaInt
  import opened FileNames
  import opened Sorting
  import opened Storage
  import opened Recording
  import opened RecordReplay

  /** A call as the plugin sees it: its context is an object of its own, here a number. */
  datatype Call = Call(context: nat, kind: string, caller: string, start: int, content: nat,
                       tags: map<string, Option<string>>, shouldNotSave: bool)

  datatype Phase = PreCall | PostCall | AsyncResponse

  /** The plugin of one instance, while it is active. */
  datatype State = State(counter: int, ids: map<nat, int>, posted: set<nat>, sent: seq<Event>)

  datatype Config = Config(instanceId: string, ignoreTrivialCalls: bool)

  /** The line built for a call; `now` is the clock when it is built. */
  function LineOf(call: Call, kind: string, now: int): CompactLine {
    CompactLine(0, now, Some(kind), call.caller, call.tags)
  }

  /** The event for a call that came back: the item is left out only for a trivial call that is to be ignored. */
  function PostEvent(config: Config, call: Call, id: int, now: int): Event {
    var item := StorageItem(0, call.start, Some(call.kind), call.content);
    WriteItem(Some(LineToWrite(config.instanceId, id, LineOf(call, call.kind, now),
                               if call.shouldNotSave && config.ignoreTrivialCalls then None else Some(item))))
  }

  function AsyncEvent(config: Config, call: Call, id: int, now: int): Event {
    var item := StorageItem(0, call.start, Some(RESPONSE), call.content);
    WriteItem(Some(LineToWrite(config.instanceId, id, LineOf(call, RESPONSE, now), Some(item))))
  }

  /** One phase of one call; a call that comes back without an id is not recorded. */
  function Stepped(config: Config, s: State, phase: Phase, call: Call, now: int): State {
    var next := Int32(s.counter + 1);
    match phase
    case PreCall => s.(counter := next, ids := s.ids[call.context := next])
    case PostCall =>
      if call.context !in s.ids then s
      else s.(posted := s.posted + {call.context}, sent := s.sent + [PostEvent(config, call, s.ids[call.context], now)])
    case AsyncResponse =>
      var drawn := s.(counter := next, ids := s.ids[call.context := next]);
      drawn.(posted := s.posted + {call.context}, sent := s.sent + [AsyncEvent(config, call, next, now)])
  }

  class Plugin {
    const config: Config
    const repository: FileStorageRepository
    /** The "id" tag of every call's context. */
    var ids: map<nat, int>
    var sent: seq<Event>
    ghost var posted: set<nat>

    ghost function Now(): State
      reads this, repository
    {
      State(repository.storageCounter, ids, posted, sent)
    }

    constructor (config: Config, repository: FileStorageRepository)
      ensures this.config == config && this.repository == repository
      ensures Now() == State(repository.storageCounter, map[], {}, [])
    {
      this.config := config;
      this.repository := repository;
      ids, sent, posted := map[], [], {};
    }

    /** `postCall`: one event for every call that came back. */
    method PostCallEvent(call: Call, id: int, now: int) returns (event: Event)
      ensures event == PostEvent(config, call, id, now)
    {
      var storageItem := StorageItem(0, call.start, Some(call.kind), call.content);
      var compactLine := CompactLine(storageItem.index, now, storageItem.kind, call.caller, call.tags);
      if !call.shouldNotSave || !config.ignoreTrivialCalls {
        event := WriteItem(Some(LineToWrite(config.instanceId, id, compactLine, Some(storageItem))));
      } else {
        event := WriteItem(Some(LineToWrite(config.instanceId, id, compactLine, None)));
      }
    }

    /** `handle` of an active plugin. */
    method Handle(phase: Phase, call: Call, now: int)
      modifies this, repository`storageCounter
      ensures Now() == Stepped(config, old(Now()), phase, call, now)
    {
      match phase
      case PreCall =>
        var id := repository.GenerateIndex();
        ids := ids[call.context := id];
      case PostCall =>
        if call.context in ids {
          var event := PostCallEvent(call, ids[call.context], now);
          sent := sent + [event];
          posted := posted + {call.context};
        }
      case AsyncResponse =>
        var id := repository.GenerateIndex();
        ids := ids[call.context := id];
        var storageItem := StorageItem(0, call.start, Some(RESPONSE), call.content);
        var compactLine := CompactLine(storageItem.index, now, storageItem.kind, call.caller, call.tags);
        sent := sent + [WriteItem(Some(LineToWrite(config.instanceId, id, compactLine, Some(storageItem))))];
        posted := posted + {call.context};
    }
  }

  // ---------------------------------------------------------------- the plugin among all others

  /** The plugin's calls, and everything else the program does: other instances, the queue, the executor. */
  datatype Action = Own(phase: Phase, call: Call, now: int) | Other(step: Recording.Step)

  /** The whole system, the plugin's ids, and every event sent since the start, whoever sent it. */
  datatype Joint = Joint(system: System, ids: map<nat, int>, posted: set<nat>, sent: seq<Event>)

  function PluginOf(j: Joint): State { State(j.system.store.counter, j.ids, j.posted, j.sent) }

  predicate IsOwn(config: Config, event: Event) {
    event.WriteItem? && event.line.Some? && event.line.value.instanceId == config.instanceId
  }

  /** Only the plugin records for its instance, and no call comes back twice. */
  ghost predicate Possible(config: Config, j: Joint, action: Action) {
    match action
    case Own(_, call, _) => call.context !in j.posted
    case Other(step) => Enabled(j.system, step) && (step.Send? ==> !IsOwn(config, step.event))
  }

  /** The steps of the system in an action: ids are drawn from its counter, events go to its queue. */
  function StepsOf(config: Config, j: Joint, action: Action): seq<Recording.Step> {
    match action
    case Other(step) => [step]
    case Own(PreCall, _, _) => [NewId]
    case Own(PostCall, call, now) =>
      if call.context in j.ids then [Send(PostEvent(config, call, j.ids[call.context], now))] else []
    case Own(AsyncResponse, call, now) =>
      [NewId, Send(AsyncEvent(config, call, Int32(j.system.store.counter + 1), now))]
  }

  ghost function After(config: Config, j: Joint, action: Action): Joint
    requires Possible(config, j, action)
  {
    match action
    case Other(step) => j.(system := Next(j.system, step), sent := j.sent + SentBy(step))
    case Own(phase, call, now) =>
      var p := Stepped(config, PluginOf(j), phase, call, now);
      var events := Sent(StepsOf(config, j, action));
      Joint(System(j.system.queue + events, j.system.store.(counter := p.counter)), p.ids, p.posted, p.sent)
  }

  ghost predicate JointLeads(config: Config, j: Joint, actions: seq<Action>, k: Joint)
    decreases |actions|
  {
    if actions == [] then j == k
    else Possible(config, j, actions[0]) && JointLeads(config, After(config, j, actions[0]), actions[1..], k)
  }

  ghost function AllSteps(config: Config, j: Joint, actions: seq<Action>): seq<Recording.Step>
    decreases |actions|
  {
    if actions == [] || !Possible(config, j, actions[0]) then []
    else StepsOf(config, j, actions[0]) + AllSteps(config, After(config, j, actions[0]), actions[1..])
  }

  lemma {:induction false} SentAppend(a: seq<Recording.Step>, b: seq<Recording.Step>)
    ensures Sent(a + b) == Sent(a) + Sent(b)
    decreases |a|
  {
    if a == [] {
      assert a + b == b;
    } else {
      assert (a + b)[0] == a[0] && (a + b)[1..] == a[1..] + b;
      SentAppend(a[1..], b);
      assert SentBy(a[0]) + Sent(a[1..]) + Sent(b) == SentBy(a[0]) + (Sent(a[1..]) + Sent(b));
    }
  }

  lemma {:induction false} SentOne(step: Recording.Step)
    ensures Sent([step]) == SentBy(step)
  {
    assert [step][1..] == [] && SentBy(step) + [] == SentBy(step);
  }

  lemma {:induction false} SentByAction(config: Config, j: Joint, action: Action)
    ensures Sent(StepsOf(config, j, action)) ==
      match action
      case Other(step) => SentBy(step)
      case Own(PreCall, _, _) => []
      case Own(PostCall, call, now) =>
        if call.context in j.ids then [PostEvent(config, call, j.ids[call.context], now)] else []
      case Own(AsyncResponse, call, now) => [AsyncEvent(config, call, Int32(j.system.store.counter + 1), now)]
  {
    match action
    case Other(step) => SentOne(step);
    case Own(PreCall, _, _) => SentOne(NewId);
    case Own(PostCall, call, now) =>
      if call.context in j.ids { SentOne(Send(PostEvent(config, call, j.ids[call.context], now))); }
    case Own(AsyncResponse, call, now) =>
      var send := Send(AsyncEvent(config, call, Int32(j.system.store.counter + 1), now));
      SentOne(NewId);
      SentOne(send);
      SentAppend([NewId], [send]);
      assert [NewId] + [send] == [NewId, send];
  }

  lemma {:induction false} LeadsOne(s: System, step: Recording.Step)
    requires Enabled(s, step)
    ensures Recording.Leads(s, [step], Next(s, step))
  {
    assert [step][1..] == [];
  }

  lemma {:induction false} LeadsTwo(s: System, first: Recording.Step, second: Recording.Step)
    requires Enabled(s, first) && Enabled(Next(s, first), second)
    ensures Recording.Leads(s, [first, second], Next(Next(s, first), second))
  {
    LeadsOne(s, first);
    LeadsOne(Next(s, first), second);
    LeadsOn(s, [first], Next(s, first), [second], Next(Next(s, first), second));
    assert [first] + [second] == [first, second];
  }

  lemma {:induction false} ActionIsRun(config: Config, j: Joint, action: Action)
    requires Possible(config, j, action)
    ensures Recording.Leads(j.system, StepsOf(config, j, action), After(config, j, action).system)
    ensures After(config, j, action).sent == j.sent + Sent(StepsOf(config, j, action))
  {
    SentByAction(config, j, action);
    assert j.system.queue + [] == j.system.queue && j.sent + [] == j.sent;
    match action
    case Other(step) => LeadsOne(j.system, step);
    case Own(PreCall, _, _) => LeadsOne(j.system, NewId);
    case Own(PostCall, call, now) =>
      if call.context in j.ids { LeadsOne(j.system, Send(PostEvent(config, call, j.ids[call.context], now))); }
    case Own(AsyncResponse, call, now) =>
      var send := Send(AsyncEvent(config, call, Int32(j.system.store.counter + 1), now));
      LeadsTwo(j.system, NewId, send);
  }

  lemma {:induction false} RunsJoin(j: Joint, a: seq<Recording.Step>, m: Joint, b: seq<Recording.Step>, k: Joint)
    requires Recording.Leads(j.system, a, m.system) && m.sent == j.sent + Sent(a)
    requires Recording.Leads(m.system, b, k.system) && k.sent == m.sent + Sent(b)
    ensures Recording.Leads(j.system, a + b, k.system) && k.sent == j.sent + Sent(a + b)
  {
    LeadsOn(j.system, a, m.system, b, k.system);
    SentAppend(a, b);
    assert j.sent + Sent(a) + Sent(b) == j.sent + (Sent(a) + Sent(b));
  }

  /** A joint run is a run of the system, and what was sent is what the system was sent. */
  lemma {:induction false} JointIsRun(config: Config, j: Joint, actions: seq<Action>, k: Joint)
    requires JointLeads(config, j, actions, k)
    ensures Recording.Leads(j.system, AllSteps(config, j, actions), k.system)
    ensures k.sent == j.sent + Sent(AllSteps(config, j, actions))
    decreases |actions|
  {
    if actions != [] {
      var m := After(config, j, actions[0]);
      ActionIsRun(config, j, actions[0]);
      JointIsRun(config, m, actions[1..], k);
      RunsJoin(j, StepsOf(config, j, actions[0]), m, AllSteps(config, m, actions[1..]), k);
    }
  }

  // ---------------------------------------------------------------- every line has an id of its own

  function IdOf(event: Event): int {
    if event.WriteItem? && event.line.Some? then event.line.value.id else -1
  }

  /**
   * Ids come from the counter after `start`; no two calls share one, no two lines of the instance do, and
   * the ids of lines sent belong to calls that are over.
   */
  ghost predicate IdsApart(config: Config, start: int, s: State) {
    && 0 <= start <= s.counter
    && (forall c :: c in s.ids ==> start < s.ids[c] <= s.counter)
    && (forall c, d :: c in s.ids && d in s.ids && c != d ==> s.ids[c] != s.ids[d])
    && (forall k :: 0 <= k < |s.sent| && IsOwn(config, s.sent[k]) ==> start < IdOf(s.sent[k]) <= s.counter)
    && (forall i, j :: 0 <= i < j < |s.sent| && IsOwn(config, s.sent[i]) && IsOwn(config, s.sent[j])
          ==> IdOf(s.sent[i]) != IdOf(s.sent[j]))
    && (forall k, c :: 0 <= k < |s.sent| && IsOwn(config, s.sent[k]) && c in s.ids && c !in s.posted
          ==> IdOf(s.sent[k]) != s.ids[c])
  }

  function Drawn(s: State, context: nat): State {
    s.(counter := Int32(s.counter + 1), ids := s.ids[context := Int32(s.counter + 1)])
  }

  function Emitted(s: State, context: nat, event: Event): State {
    s.(posted := s.posted + {context}, sent := s.sent + [event])
  }

  lemma {:induction false} DrawKeepsApart(config: Config, start: int, s: State, context: nat)
    requires IdsApart(config, start, s) && s.counter < INT_MAX && context !in s.posted
    ensures IdsApart(config, start, Drawn(s, context))
  {}

  lemma {:induction false} EmitKeepsApart(config: Config, start: int, s: State, context: nat, event: Event)
    requires IdsApart(config, start, s) && context in s.ids && context !in s.posted
    requires event.WriteItem? && event.line.Some? && IdOf(event) == s.ids[context]
    ensures IdsApart(config, start, Emitted(s, context, event))
  {
    var t := Emitted(s, context, event);
    assert forall k :: 0 <= k < |s.sent| ==> t.sent[k] == s.sent[k];
    assert t.sent[|s.sent|] == event;
  }

  lemma {:induction false} StepKeepsApart(config: Config, start: int, s: State, phase: Phase, call: Call, now: int)
    requires IdsApart(config, start, s) && s.counter < INT_MAX && call.context !in s.posted
    ensures IdsApart(config, start, Stepped(config, s, phase, call, now))
  {
    match phase
    case PreCall => DrawKeepsApart(config, start, s, call.context);
    case PostCall =>
      if call.context in s.ids {
        EmitKeepsApart(config, start, s, call.context, PostEvent(config, call, s.ids[call.context], now));
      }
    case AsyncResponse =>
      DrawKeepsApart(config, start, s, call.context);
      EmitKeepsApart(config, start, Drawn(s, call.context), call.context, AsyncEvent(config, call, s.counter + 1, now));
  }

  /** Whoever else moves the counter moves it up, and what others send is not of this instance. */
  lemma {:induction false} OthersKeepApart(config: Config, start: int, s: State, counter: int, events: seq<Event>)
    requires IdsApart(config, start, s) && s.counter <= counter
    requires forall k :: 0 <= k < |events| ==> !IsOwn(config, events[k])
    ensures IdsApart(config, start, s.(counter := counter, sent := s.sent + events))
  {
    var sent := s.sent + events;
    assert forall k :: 0 <= k < |s.sent| ==> sent[k] == s.sent[k];
    assert forall k :: |s.sent| <= k < |sent| ==> !IsOwn(config, sent[k]);
  }

  /** Other instances send lines under ids on their way already, too. */
  predicate OthersWithin(actions: seq<Action>, cap: int)
    decreases |actions|
  {
    actions != [] ==>
      match actions[0]
      case Own(PostCall, _, _) => OthersWithin(actions[1..], cap)
      case Own(_, _, _) => OthersWithin(actions[1..], cap + 1)
      case Other(step) => WritesUpTo(Writes(SentBy(step)), cap) && OthersWithin(actions[1..], cap + 1)
  }

  function CapAfter(action: Action, cap: int): int { if action.Own? && action.phase.PostCall? then cap else cap + 1 }

  /** A bound on the start and on the number of actions, each drawing one id at most. */
  ghost predicate HasRoomFor(j: Joint, actions: seq<Action>, cap: int) {
    Capped(j.system, cap) && OthersWithin(actions, cap) && cap + |actions| < INT_MAX - 1
  }

  lemma {:induction false} ActionKeeps(config: Config, start: int, j: Joint, action: Action, cap: int)
    requires Possible(config, j, action) && Capped(j.system, cap) && cap < INT_MAX - 1
    requires action.Other? ==> WritesUpTo(Writes(SentBy(action.step)), cap)
    requires IdsApart(config, start, PluginOf(j))
    ensures Capped(After(config, j, action).system, CapAfter(action, cap))
    ensures IdsApart(config, start, PluginOf(After(config, j, action)))
  {
    match action
    case Other(step) =>
      StepCapped(j.system, step, cap);
      CounterNeverFalls(j.system, step);
      OthersKeepApart(config, start, PluginOf(j), Next(j.system, step).store.counter, SentBy(step));
    case Own(phase, call, now) =>
      StepKeepsApart(config, start, PluginOf(j), phase, call, now);
      OwnCapped(config, j, action, cap);
  }

  lemma {:induction false} OwnCapped(config: Config, j: Joint, action: Action, cap: int)
    requires action.Own? && Possible(config, j, action) && Capped(j.system, cap) && cap < INT_MAX - 1
    requires forall c :: c in j.ids ==> j.ids[c] <= cap
    ensures Capped(After(config, j, action).system, CapAfter(action, cap))
  {
    var events, top := Sent(StepsOf(config, j, action)), CapAfter(action, cap);
    OwnEvents(config, j, action);
    OneWriteUpTo(events, top);
    SendingCapped(j.system, events, Stepped(config, PluginOf(j), action.phase, action.call, action.now).counter, cap, top);
  }

  lemma {:induction false} SendingCapped(s: System, events: seq<Event>, counter: int, cap: int, top: int)
    requires Capped(s, cap) && 0 <= counter <= top && cap <= top && WritesUpTo(Writes(events), top)
    ensures Capped(System(s.queue + events, s.store.(counter := counter)), top)
  {
    WritesAppend(s.queue, events);
    WritesUpToJoined(Writes(s.queue), Writes(events), top);
  }

  lemma {:induction false} OneWriteUpTo(events: seq<Event>, cap: int)
    requires |events| <= 1 && (events != [] ==> events[0].WriteItem? && events[0].line.Some? && IdOf(events[0]) <= cap)
    ensures WritesUpTo(Writes(events), cap)
  {
    WritesAre(events);
  }

  /** An action of the plugin sends one line at most, under the id its call has then. */
  lemma {:induction false} OwnEvents(config: Config, j: Joint, action: Action)
    requires action.Own?
    ensures var events := Sent(StepsOf(config, j, action));
            && |events| <= 1
            && (events != [] ==> events[0].WriteItem? && IsOwn(config, events[0])
                                 && IdOf(events[0]) == Stepped(config, PluginOf(j), action.phase, action.call, action.now).ids[action.call.context])
  {
    SentByAction(config, j, action);
  }

  lemma {:induction false} JointKeepsApart(config: Config, start: int, j: Joint, actions: seq<Action>, k: Joint, cap: int)
    requires JointLeads(config, j, actions, k) && HasRoomFor(j, actions, cap) && IdsApart(config, start, PluginOf(j))
    ensures IdsApart(config, start, PluginOf(k)) && k.system.store.counter < INT_MAX
    decreases |actions|
  {
    if actions != [] {
      ActionKeeps(config, start, j, actions[0], cap);
      JointKeepsApart(config, start, After(config, j, actions[0]), actions[1..], k, CapAfter(actions[0], cap));
    }
  }

  /** What the events ask to be written. */
  lemma {:induction false} WritesAre(events: seq<Event>)
    requires forall k :: 0 <= k < |events| ==> events[k].WriteItem?
    ensures |Writes(events)| == |events| && forall k :: 0 <= k < |events| ==> Writes(events)[k] == events[k].line
    decreases |events|
  {
    if events != [] { WritesAre(events[1..]); }
  }

  predicate IsOwnWrite(config: Config, write: Option<LineToWrite>) { write.Some? && write.value.instanceId == config.instanceId }

  /** The lines of the instance have ids above `start`, and no two of them the same. */
  predicate OwnIdsApart(config: Config, start: int, top: int, writes: seq<Option<LineToWrite>>) {
    && (forall k :: 0 <= k < |writes| && IsOwnWrite(config, writes[k]) ==> start < writes[k].value.id <= top)
    && (forall i, j :: 0 <= i < j < |writes| && IsOwnWrite(config, writes[i]) && IsOwnWrite(config, writes[j])
          ==> writes[i].value.id != writes[j].value.id)
  }

  lemma {:induction false} WriteWasSent(events: seq<Event>, x: Option<LineToWrite>)
    requires x in Writes(events)
    ensures WriteItem(x) in events
    decreases |events|
  {
    if events[0] != WriteItem(x) { WriteWasSent(events[1..], x); }
  }

  predicate EventIdsApart(config: Config, start: int, top: int, events: seq<Event>) {
    && (forall k :: 0 <= k < |events| && IsOwn(config, events[k]) ==> start < IdOf(events[k]) <= top)
    && (forall i, j :: 0 <= i < j < |events| && IsOwn(config, events[i]) && IsOwn(config, events[j])
          ==> IdOf(events[i]) != IdOf(events[j]))
  }

  lemma {:induction false} FirstApart(config: Config, start: int, top: int, events: seq<Event>, x: Option<LineToWrite>)
    requires EventIdsApart(config, start, top, events) && events != [] && IsOwn(config, events[0])
    requires x in Writes(events[1..]) && IsOwnWrite(config, x)
    ensures x.value.id != IdOf(events[0])
  {
    WriteWasSent(events[1..], x);
    var m :| 0 <= m < |events| - 1 && events[1..][m] == WriteItem(x);
    assert events[m + 1] == WriteItem(x) && IsOwn(config, events[m + 1]);
  }

  lemma {:induction false} ConsApart(config: Config, start: int, top: int, first: Option<LineToWrite>, rest: seq<Option<LineToWrite>>)
    requires OwnIdsApart(config, start, top, rest)
    requires IsOwnWrite(config, first) ==> start < first.value.id <= top
    requires IsOwnWrite(config, first) ==> forall x :: x in rest && IsOwnWrite(config, x) ==> x.value.id != first.value.id
    ensures OwnIdsApart(config, start, top, [first] + rest)
  {
    var all := [first] + rest;
    assert all[0] == first && forall k :: 1 <= k < |all| ==> all[k] == rest[k - 1] && all[k] in rest;
  }

  lemma {:induction false} WritesApart(config: Config, start: int, top: int, events: seq<Event>)
    requires EventIdsApart(config, start, top, events)
    ensures OwnIdsApart(config, start, top, Writes(events))
    decreases |events|
  {
    if events != [] {
      var first, rest := events[0], Writes(events[1..]);
      assert forall k :: 0 <= k < |events| - 1 ==> events[1..][k] == events[k + 1];
      WritesApart(config, start, top, events[1..]);
      if first.WriteItem? {
        if IsOwn(config, first) {
          forall x | x in rest && IsOwnWrite(config, x) ensures x.value.id != IdOf(first) {
            FirstApart(config, start, top, events, x);
          }
        }
        ConsApart(config, start, top, first.line, rest);
      } else {
        assert [] + rest == rest;
      }
    }
  }

  /**
   * However the calls of an instance interleave, and whatever other instances, the queue and the executor
   * do to the counter, no two lines sent for the instance carry the same id, and all lie above the counter
   * the run started from.
   */
  lemma {:induction false} SentWritesOwnTheirIds(config: Config, j: Joint, actions: seq<Action>, k: Joint, cap: int)
    requires j.ids == map[] && j.posted == {} && j.sent == []
    requires JointLeads(config, j, actions, k) && HasRoomFor(j, actions, cap)
    ensures OwnIdsApart(config, j.system.store.counter, k.system.store.counter, Writes(k.sent))
    ensures k.system.store.counter < INT_MAX
  {
    JointKeepsApart(config, j.system.store.counter, j, actions, k, cap);
    WritesApart(config, j.system.store.counter, k.system.store.counter, k.sent);
  }

  // ---------------------------------------------------------------- every recorded call is replayed

  /** The plugin as it is when its StartWrite is handled: no call has begun. */
  ghost function Started(s: System): Joint
    requires Enabled(s, Consume)
  {
    Joint(Next(s, Consume), map[], {}, [])
  }

  /**
   * What is there when the plugin's StartWrite comes to the head of the queue: no line of the instance is
   * queued, those still in the executor were numbered before, and every file of it has a line in its index.
   */
  ghost predicate IsCleanStart(config: Config, s: System, cap: int) {
    && s.queue != [] && s.queue[0] == StartWrite(config.instanceId) && config.instanceId !in s.store.repos
    && (forall x :: x in Writes(s.queue) ==> !IsOwnWrite(config, x))
    && (forall x :: x in s.store.tasks && IsOwnWrite(config, x) ==> x.value.id <= s.store.counter)
    && Capped(s, cap) && WellNamed(s.store.files)
    && Covered(s.store.files, LoadedIndex(s.store.files, config.instanceId), config.instanceId)
  }

  /** From there to the FinalizeWrite of the plugin, whatever else happens. */
  ghost predicate IsRecordingRun(config: Config, s: System, actions: seq<Action>, k: Joint, cap: int) {
    && IsCleanStart(config, s, cap)
    && JointLeads(config, Started(s), actions, k)
    && OthersWithin(actions, cap + 1) && cap + 1 + |actions| < INT_MAX - 1
    && Undisturbed(Consumed(Next(s, Consume), AllSteps(config, Started(s), actions)), config.instanceId)
    && k.system.queue != [] && k.system.queue[0] == FinalizeWrite(config.instanceId)
  }

  lemma {:induction false} RecordingRunIsSession(config: Config, s: System, actions: seq<Action>, k: Joint, cap: int)
    requires IsRecordingRun(config, s, actions, k, cap)
    ensures var steps := AllSteps(config, Started(s), actions);
            && IsSession(s, steps, k.system, config.instanceId)
            && Consumed(Next(s, Consume), steps) + k.system.queue == s.queue[1..] + k.sent
            && k.sent == Sent(steps)
  {
    var steps := AllSteps(config, Started(s), actions);
    JointIsRun(config, Started(s), actions, k);
    assert [] + Sent(steps) == Sent(steps);
    QueueKeepsOrder(Next(s, Consume), steps, k.system);
  }

  /** Ids in the executor are old, those sent are new: no two pending lines of the instance share one. */
  lemma {:induction false} OwnIdsOf(config: Config, start: int, top: int, tasks: seq<Option<LineToWrite>>, queued: seq<Option<LineToWrite>>,
                 sent: seq<Option<LineToWrite>>, w: LineToWrite)
    requires forall x :: x in tasks && IsOwnWrite(config, x) ==> x.value.id <= start
    requires forall x :: x in queued ==> !IsOwnWrite(config, x)
    requires OwnIdsApart(config, start, top, sent) && IsOwnWrite(config, Some(w)) && w.id > start
    requires Some(w) in tasks + (queued + sent)
    ensures OwnsId(w, tasks + (queued + sent)) && multiset(tasks + (queued + sent))[Some(w)] == 1
  {
    var all, base := tasks + (queued + sent), |tasks| + |queued|;
    var p :| 0 <= p < |all| && all[p] == Some(w);
    SentAt(config, start, tasks, queued, sent, p);
    forall i | 0 <= i < |all| && IsOwnWrite(config, all[i]) && all[i].value.id == w.id ensures i == p {
      SentAt(config, start, tasks, queued, sent, i);
      assert sent[i - base].value.id == sent[p - base].value.id;
    }
    OnlyAt(all, p);
  }

  lemma {:induction false} SentAt(config: Config, start: int, tasks: seq<Option<LineToWrite>>, queued: seq<Option<LineToWrite>>,
               sent: seq<Option<LineToWrite>>, i: nat)
    requires forall x :: x in tasks && IsOwnWrite(config, x) ==> x.value.id <= start
    requires forall x :: x in queued ==> !IsOwnWrite(config, x)
    requires i < |tasks + (queued + sent)|
    requires IsOwnWrite(config, (tasks + (queued + sent))[i]) && (tasks + (queued + sent))[i].value.id > start
    ensures var base := |tasks| + |queued|; base <= i && sent[i - base] == (tasks + (queued + sent))[i]
  {
    InOneOfThree(tasks, queued, sent, i);
  }

  lemma {:induction false} InOneOfThree<T>(a: seq<T>, b: seq<T>, c: seq<T>, i: nat)
    requires i < |a + (b + c)|
    ensures var x := (a + (b + c))[i];
            if i < |a| then x in a else if i < |a| + |b| then x in b else x == c[i - |a| - |b|]
  {}

  lemma {:induction false} OnlyAt<T>(xs: seq<T>, p: nat)
    requires p < |xs| && forall i :: 0 <= i < |xs| && xs[i] == xs[p] ==> i == p
    ensures multiset(xs)[xs[p]] == 1
  {
    var a, b := xs[..p], xs[p + 1..];
    assert xs == a + [xs[p]] + b;
    assert xs[p] !in a && xs[p] !in b;
  }

  lemma {:induction false} PrefixOwns(front: seq<Option<LineToWrite>>, back: seq<Option<LineToWrite>>, w: LineToWrite)
    requires OwnsId(w, front + back) && multiset(front + back)[Some(w)] == 1 && Some(w) in front
    ensures OwnsId(w, front) && multiset(front)[Some(w)] == 1
  {
    assert forall i :: 0 <= i < |front| ==> (front + back)[i] == front[i];
    assert Some(w) in multiset(front);
  }

  lemma {:induction false} OwnIdIsNew(config: Config, s: System, actions: seq<Action>, k: Joint, cap: int, w: LineToWrite)
    requires IsRecordingRun(config, s, actions, k, cap) && w.instanceId == config.instanceId
    requires Some(w) in Writes(s.queue[1..] + k.sent)
    ensures OwnIdsApart(config, Next(s, Consume).store.counter, k.system.store.counter, Writes(k.sent))
    ensures Next(s, Consume).store.counter < w.id < INT_MAX
  {
    StepCapped(s, Consume, cap);
    SentWritesOwnTheirIds(config, Started(s), actions, k, cap + 1);
    WritesAppend(s.queue[1..], k.sent);
    NotQueued(config, s);
    OwnIdIn(config, Next(s, Consume).store.counter, k.system.store.counter, Writes(s.queue), Writes(k.sent), w);
  }

  lemma {:induction false} OwnIdIn(config: Config, start: int, top: int, queued: seq<Option<LineToWrite>>, sent: seq<Option<LineToWrite>>, w: LineToWrite)
    requires OwnIdsApart(config, start, top, sent) && forall x :: x in queued ==> !IsOwnWrite(config, x)
    requires Some(w) in queued + sent && IsOwnWrite(config, Some(w))
    ensures start < w.id <= top
  {
    assert Some(w) in sent;
    var i :| 0 <= i < |sent| && sent[i] == Some(w);
  }

  lemma {:induction false} NotQueued(config: Config, s: System)
    requires s.queue != [] && s.queue[0].StartWrite? && forall x :: x in Writes(s.queue) ==> !IsOwnWrite(config, x)
    ensures Writes(s.queue[1..]) == Writes(s.queue)
  {
    assert [] + Writes(s.queue[1..]) == Writes(s.queue[1..]);
  }

  lemma {:induction false} CounterPassesIndex(s: System, instanceId: string, cap: int)
    requires s.queue != [] && s.queue[0] == StartWrite(instanceId) && instanceId !in s.store.repos
    requires Capped(s, cap) && cap < INT_MAX - 1
    ensures s.store.counter <= Next(s, Consume).store.counter
    ensures forall l :: l in LoadedIndex(s.store.files, instanceId) ==> l.index < Next(s, Consume).store.counter
  {
    BumpIs(s.store.counter, LoadedIndex(s.store.files, instanceId));
  }

  /** What is pending when the session starts, and what the queue keeps at its end, is all there is to write. */
  lemma {:induction false} PendingIsPart(config: Config, s: System, actions: seq<Action>, k: Joint, cap: int)
    requires IsRecordingRun(config, s, actions, k, cap)
    ensures Pending(Next(s, Consume), AllSteps(config, Started(s), actions)) + Writes(k.system.queue)
            == s.store.tasks + (Writes(s.queue) + Writes(k.sent))
  {
    var done := Consumed(Next(s, Consume), AllSteps(config, Started(s), actions));
    RecordingRunIsSession(config, s, actions, k, cap);
    WritesAppend(done, k.system.queue);
    WritesAppend(s.queue[1..], k.sent);
    NotQueued(config, s);
    assert Next(s, Consume).store.tasks == s.store.tasks;
    assert s.store.tasks + Writes(done) + Writes(k.system.queue) == s.store.tasks + (Writes(done) + Writes(k.system.queue));
  }

  lemma {:induction false} WriteIsSent(config: Config, s: System, actions: seq<Action>, k: Joint, cap: int, w: LineToWrite)
    requires IsRecordingRun(config, s, actions, k, cap)
    requires Some(w) in Writes(Consumed(Next(s, Consume), AllSteps(config, Started(s), actions)))
    ensures Some(w) in Writes(s.queue[1..] + k.sent)
  {
    var done := Consumed(Next(s, Consume), AllSteps(config, Started(s), actions));
    RecordingRunIsSession(config, s, actions, k, cap);
    WritesAppend(done, k.system.queue);
    assert Some(w) in Writes(done) + Writes(k.system.queue);
  }

  /** The ids the plugin draws are fresh: nothing of the instance, pending or on disk, has one of them. */
  lemma {:induction false} RecordedCallIsFresh(config: Config, s: System, actions: seq<Action>, k: Joint, cap: int, w: LineToWrite)
    requires IsRecordingRun(config, s, actions, k, cap) && w.instanceId == config.instanceId
    requires Some(w) in Writes(Consumed(Next(s, Consume), AllSteps(config, Started(s), actions)))
    ensures IsFresh(s, AllSteps(config, Started(s), actions), w)
  {
    var pending := Pending(Next(s, Consume), AllSteps(config, Started(s), actions));
    PendingIsPart(config, s, actions, k, cap);
    WriteIsSent(config, s, actions, k, cap, w);
    OwnIdIsNew(config, s, actions, k, cap, w);
    CounterPassesIndex(s, config.instanceId, cap);
    assert Some(w) in pending && Some(w) in pending + Writes(k.system.queue);
    OwnIdsOf(config, Next(s, Consume).store.counter, k.system.store.counter, s.store.tasks, Writes(s.queue), Writes(k.sent), w);
    PrefixOwns(pending, Writes(k.system.queue), w);
    TenBillion();
    NoFileAbove(s.store.files, LoadedIndex(s.store.files, config.instanceId), config.instanceId, w.id);
  }

  /**
   * What is handled of the instance before the FinalizeWrite is replayed, unless it still waited in the
   * executor then: its line is in the index, and its item, if it has one with a type, under its id.
   */
  lemma {:induction false} WrittenIsReplayed(config: Config, s: System, actions: seq<Action>, k: Joint, cap: int, w: LineToWrite)
    requires IsRecordingRun(config, s, actions, k, cap) && w.instanceId == config.instanceId
    requires WriteItem(Some(w)) in Consumed(Next(s, Consume), AllSteps(config, Started(s), actions))
    requires AllGood(Pending(Next(s, Consume), AllSteps(config, Started(s), actions)))
    ensures var store := Next(k.system, Consume).store; var v := OpenedForReplay(store, config.instanceId);
            && WellNamed(store.files) && config.instanceId !in store.repos && IsOrdinaryId(w.id) && config.instanceId in v.repos
            && ReadById(v, config.instanceId, w.id)
               == (if Some(w) in k.system.store.tasks || !HasType(ItemOf(w)) then None else ItemOf(w))
            && (Some(w) in k.system.store.tasks || Stored(w) in v.repos[config.instanceId].index)
  {
    var steps := AllSteps(config, Started(s), actions);
    EventIsWritten(Consumed(Next(s, Consume), steps), Some(w));
    RecordedCallIsFresh(config, s, actions, k, cap, w);
    RecordingRunIsSession(config, s, actions, k, cap);
    RecordThenReplay(s, steps, k.system, w);
    WriteReachesDisk(s, steps, k.system, w);
    if Some(w) !in k.system.store.tasks {
      LineIsWritten(s, steps, k.system, w);
      SortIs(TimeOf, LoadedIndex(Next(k.system, Consume).store.files, config.instanceId));
    }
  }

  lemma {:induction false} EventIsWritten(events: seq<Event>, x: Option<LineToWrite>)
    requires WriteItem(x) in events
    ensures x in Writes(events)
    decreases |events|
  {
    if events[0] != WriteItem(x) { EventIsWritten(events[1..], x); }
  }

  // ---------------------------------------------------------------- from the calls of a run to their replay

  /** Before action `a`. */
  ghost function JointAt(config: Config, j: Joint, actions: seq<Action>, a: nat): Joint
    requires a <= |actions|
    decreases a
  {
    if a == 0 || !Possible(config, j, actions[0]) then j
    else JointAt(config, After(config, j, actions[0]), actions[1..], a - 1)
  }

  /** Action `a` is the end of a call that began in the run. */
  predicate CameBack(actions: seq<Action>, a: int) {
    && 0 <= a < |actions| && actions[a].Own? && actions[a].phase.PostCall?
    && exists b :: 0 <= b < a && Begins(actions[b], actions[a].call.context)
  }

  predicate Begins(action: Action, context: nat) {
    action.Own? && action.phase.PreCall? && action.call.context == context
  }

  predicate IsCallback(actions: seq<Action>, a: int) {
    0 <= a < |actions| && actions[a].Own? && actions[a].phase.AsyncResponse?
  }

  /** The id an action records its call under: drawn when the call began, or right now for a callback. */
  function IdIn(before: Joint, call: Call, phase: Phase): int {
    if phase.PostCall? && call.context in before.ids then before.ids[call.context] else Int32(before.system.store.counter + 1)
  }

  ghost function IdAt(config: Config, j: Joint, actions: seq<Action>, a: nat): int
    requires a < |actions| && actions[a].Own?
  {
    IdIn(JointAt(config, j, actions, a), actions[a].call, actions[a].phase)
  }

  predicate Sends(before: Joint, action: Action) {
    action.Own? && (action.phase.AsyncResponse? || (action.phase.PostCall? && action.call.context in before.ids))
  }

  function EventOf(config: Config, before: Joint, action: Action): Event
    requires action.Own?
  {
    var id := IdIn(before, action.call, action.phase);
    if action.phase.PostCall? then PostEvent(config, action.call, id, action.now) else AsyncEvent(config, action.call, id, action.now)
  }

  lemma {:induction false} IdsStay(config: Config, j: Joint, actions: seq<Action>, a: nat, context: nat)
    requires a <= |actions| && context in j.ids
    ensures context in JointAt(config, j, actions, a).ids
    decreases a
  {
    if a > 0 && Possible(config, j, actions[0]) {
      IdsStay(config, After(config, j, actions[0]), actions[1..], a - 1, context);
    }
  }

  /** A call that has begun has an id. */
  lemma {:induction false} BegunHasId(config: Config, j: Joint, actions: seq<Action>, k: Joint, b: nat, a: nat, context: nat)
    requires JointLeads(config, j, actions, k) && b < a <= |actions| && Begins(actions[b], context)
    ensures context in JointAt(config, j, actions, a).ids
    decreases a
  {
    var m := After(config, j, actions[0]);
    if b == 0 {
      IdsStay(config, m, actions[1..], a - 1, context);
    } else {
      BegunHasId(config, m, actions[1..], k, b - 1, a - 1, context);
    }
  }

  lemma {:induction false} SentGrows(config: Config, j: Joint, actions: seq<Action>, k: Joint)
    requires JointLeads(config, j, actions, k)
    ensures j.sent <= k.sent
  {
    JointIsRun(config, j, actions, k);
  }

  lemma {:induction false} ActionSends(config: Config, j: Joint, action: Action)
    requires Possible(config, j, action) && Sends(j, action)
    ensures After(config, j, action).sent == j.sent + [EventOf(config, j, action)]
  {}

  /** Every call that comes back, and every callback, sends its event, behind those sent before. */
  lemma {:induction false} EventIsSent(config: Config, j: Joint, actions: seq<Action>, k: Joint, a: nat)
    requires JointLeads(config, j, actions, k) && a < |actions| && Sends(JointAt(config, j, actions, a), actions[a])
    ensures var before := JointAt(config, j, actions, a); var n := |before.sent|;
            |j.sent| <= n < |k.sent| && k.sent[n] == EventOf(config, before, actions[a])
    decreases a
  {
    var m := After(config, j, actions[0]);
    SentGrows(config, m, actions[1..], k);
    if a == 0 {
      ActionSends(config, j, actions[0]);
    } else {
      EventIsSent(config, m, actions[1..], k, a - 1);
      ActionIsRun(config, j, actions[0]);
    }
  }

  lemma {:induction false} SentBefore(config: Config, j: Joint, actions: seq<Action>, k: Joint, a: nat, c: nat)
    requires JointLeads(config, j, actions, k) && a < c <= |actions| && Sends(JointAt(config, j, actions, a), actions[a])
    ensures |JointAt(config, j, actions, a).sent| < |JointAt(config, j, actions, c).sent|
    decreases a
  {
    var m := After(config, j, actions[0]);
    if a == 0 {
      ActionSends(config, j, actions[0]);
      SentOnTheWay(config, m, actions[1..], k, c - 1);
    } else {
      SentBefore(config, m, actions[1..], k, a - 1, c - 1);
    }
  }

  lemma {:induction false} SentOnTheWay(config: Config, j: Joint, actions: seq<Action>, k: Joint, c: nat)
    requires JointLeads(config, j, actions, k) && c <= |actions|
    ensures |j.sent| <= |JointAt(config, j, actions, c).sent|
    decreases c
  {
    if c > 0 {
      ActionIsRun(config, j, actions[0]);
      SentOnTheWay(config, After(config, j, actions[0]), actions[1..], k, c - 1);
    }
  }

  predicate Ends(actions: seq<Action>, a: int) { CameBack(actions, a) || IsCallback(actions, a) }

  lemma {:induction false} EndSends(config: Config, j: Joint, actions: seq<Action>, k: Joint, a: nat)
    requires JointLeads(config, j, actions, k) && Ends(actions, a)
    ensures Sends(JointAt(config, j, actions, a), actions[a])
  {
    if CameBack(actions, a) {
      var b :| 0 <= b < a && Begins(actions[b], actions[a].call.context);
      BegunHasId(config, j, actions, k, b, a, actions[a].call.context);
    }
  }

  lemma {:induction false} EndIsSent(config: Config, j: Joint, actions: seq<Action>, k: Joint, a: nat)
    requires JointLeads(config, j, actions, k) && Ends(actions, a)
    ensures var n := |JointAt(config, j, actions, a).sent|;
            n < |k.sent| && IsOwn(config, k.sent[n]) && IdOf(k.sent[n]) == IdAt(config, j, actions, a)
  {
    EndSends(config, j, actions, k, a);
    EventIsSent(config, j, actions, k, a);
  }

  lemma {:induction false} RunKeepsApart(config: Config, s: System, actions: seq<Action>, k: Joint, cap: int)
    requires IsRecordingRun(config, s, actions, k, cap)
    ensures IdsApart(config, Started(s).system.store.counter, PluginOf(k))
  {
    StepCapped(s, Consume, cap);
    JointKeepsApart(config, Started(s).system.store.counter, Started(s), actions, k, cap + 1);
  }

  lemma {:induction false} SentIdsDiffer(config: Config, s: System, actions: seq<Action>, k: Joint, cap: int, m: nat, n: nat)
    requires IsRecordingRun(config, s, actions, k, cap) && m < n < |k.sent| && IsOwn(config, k.sent[m]) && IsOwn(config, k.sent[n])
    ensures IdOf(k.sent[m]) != IdOf(k.sent[n])
  {
    RunKeepsApart(config, s, actions, k, cap);
    ApartIn(config, Started(s).system.store.counter, PluginOf(k), m, n);
  }

  lemma {:induction false} ApartIn(config: Config, start: int, s: State, m: nat, n: nat)
    requires IdsApart(config, start, s) && m < n < |s.sent| && IsOwn(config, s.sent[m]) && IsOwn(config, s.sent[n])
    ensures IdOf(s.sent[m]) != IdOf(s.sent[n])
  {}

  /** No two calls or callbacks of a run are recorded under the same id. */
  lemma {:induction false} IdsOfRunDiffer(config: Config, s: System, actions: seq<Action>, k: Joint, cap: int, a: nat, c: nat)
    requires IsRecordingRun(config, s, actions, k, cap) && Ends(actions, a) && Ends(actions, c) && a < c
    ensures IdAt(config, Started(s), actions, a) != IdAt(config, Started(s), actions, c)
  {
    var j := Started(s);
    EndIsSent(config, j, actions, k, a);
    EndIsSent(config, j, actions, k, c);
    EndSends(config, j, actions, k, a);
    SentBefore(config, j, actions, k, a, c);
    SentIdsDiffer(config, s, actions, k, cap, |JointAt(config, j, actions, a).sent|, |JointAt(config, j, actions, c).sent|);
  }

  lemma {:induction false} SentIsHandledOrQueued(config: Config, s: System, actions: seq<Action>, k: Joint, cap: int, event: Event)
    requires IsRecordingRun(config, s, actions, k, cap) && event in k.sent
    ensures event in Consumed(Next(s, Consume), AllSteps(config, Started(s), actions)) || event in k.system.queue
  {
    RecordingRunIsSession(config, s, actions, k, cap);
    var handled := Consumed(Next(s, Consume), AllSteps(config, Started(s), actions));
    assert event in s.queue[1..] + k.sent;
    assert event in handled + k.system.queue;
  }

  /** What becomes of the event of action `a`. */
  lemma {:induction false} EventIsReplayed(config: Config, s: System, actions: seq<Action>, k: Joint, cap: int, a: nat, w: LineToWrite)
    requires IsRecordingRun(config, s, actions, k, cap) && Ends(actions, a)
    requires EventOf(config, JointAt(config, Started(s), actions, a), actions[a]) == WriteItem(Some(w))
    requires AllGood(Pending(Next(s, Consume), AllSteps(config, Started(s), actions)))
    requires WriteItem(Some(w)) !in k.system.queue
    ensures var store := Next(k.system, Consume).store; var v := OpenedForReplay(store, config.instanceId);
            && WellNamed(store.files) && config.instanceId !in store.repos && IsOrdinaryId(w.id) && config.instanceId in v.repos
            && ReadById(v, config.instanceId, w.id)
               == (if Some(w) in k.system.store.tasks || !HasType(ItemOf(w)) then None else ItemOf(w))
            && (Some(w) in k.system.store.tasks || Stored(w) in v.repos[config.instanceId].index)
  {
    EndSends(config, Started(s), actions, k, a);
    EventIsSent(config, Started(s), actions, k, a);
    SentIsHandledOrQueued(config, s, actions, k, cap, WriteItem(Some(w)));
    WrittenIsReplayed(config, s, actions, k, cap, w);
  }

  /**
   * Every call of the run that began and came back is replayed as it was: unless its event was sent behind
   * the FinalizeWrite, or its line still waited in the executor then, the index has a line with its type,
   * caller and tags and the time it came back; and under its id there is the item with its start, type
   * and content, unless it was trivial and to be ignored.
   */
  lemma {:induction false} PostedCallIsReplayed(config: Config, s: System, actions: seq<Action>, k: Joint, cap: int, a: nat)
    requires IsRecordingRun(config, s, actions, k, cap) && CameBack(actions, a)
    requires AllGood(Pending(Next(s, Consume), AllSteps(config, Started(s), actions)))
    ensures var v := OpenedForReplay(Next(k.system, Consume).store, config.instanceId);
            var call, now, id := actions[a].call, actions[a].now, IdAt(config, Started(s), actions, a);
            var ignored := call.shouldNotSave && config.ignoreTrivialCalls;
            var w := LineToWrite(config.instanceId, id, CompactLine(0, now, Some(call.kind), call.caller, call.tags),
                                 if ignored then None else Some(StorageItem(0, call.start, Some(call.kind), call.content)));
            var waiting := Some(w) in k.system.store.tasks;
            && config.instanceId in v.repos
            && (WriteItem(Some(w)) !in k.system.queue ==>
                  && ReadById(v, config.instanceId, id)
                     == (if waiting || ignored then None else Some(StorageItem(id, call.start, Some(call.kind), call.content)))
                  && (!waiting ==>
                        CompactLine(id, now, Some(call.kind), call.caller, call.tags) in v.repos[config.instanceId].index))
  {
    var before, call := JointAt(config, Started(s), actions, a), actions[a].call;
    EndSends(config, Started(s), actions, k, a);
    var w := EventOf(config, before, actions[a]).line.value;
    if WriteItem(Some(w)) !in k.system.queue { EventIsReplayed(config, s, actions, k, cap, a, w); }
  }

  /** So is every callback: its line and its item are those of a RESPONSE, and it is found among the responses. */
  lemma {:induction false} CallbackIsReplayed(config: Config, s: System, actions: seq<Action>, k: Joint, cap: int, a: nat)
    requires IsRecordingRun(config, s, actions, k, cap) && IsCallback(actions, a)
    requires AllGood(Pending(Next(s, Consume), AllSteps(config, Started(s), actions)))
    ensures var v := OpenedForReplay(Next(k.system, Consume).store, config.instanceId);
            var call, now, id := actions[a].call, actions[a].now, IdAt(config, Started(s), actions, a);
            var w := LineToWrite(config.instanceId, id, CompactLine(0, now, Some("RESPONSE"), call.caller, call.tags),
                                 Some(StorageItem(0, call.start, Some("RESPONSE"), call.content)));
            var waiting := Some(w) in k.system.store.tasks;
            && config.instanceId in v.repos
            && (WriteItem(Some(w)) !in k.system.queue ==>
                  && FirstWithIndex(v.repos[config.instanceId].outItems, id)
                     == (if waiting then None else Some(StorageItem(id, call.start, Some("RESPONSE"), call.content)))
                  && ReadById(v, config.instanceId, id) == FirstWithIndex(v.repos[config.instanceId].outItems, id)
                  && (!waiting ==>
                        CompactLine(id, now, Some("RESPONSE"), call.caller, call.tags) in v.repos[config.instanceId].index))
  {
    var before, call := JointAt(config, Started(s), actions, a), actions[a].call;
    EndSends(config, Started(s), actions, k, a);
    var w := EventOf(config, before, actions[a]).line.value;
    if WriteItem(Some(w)) !in k.system.queue {
      EventIsReplayed(config, s, actions, k, cap, a, w);
      ReplayLoadsRecordings(Next(k.system, Consume).store, config.instanceId);
    }
  }
}
