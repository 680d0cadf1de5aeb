/**
 * The event queue, `EventsQueue`: senders count an event before they queue it, the consumer thread
 * counts it off after handling it, and `isEmpty` only looks at the count.
 */
module EventsQueue {
  type Event = nat

  /** Where the consumer thread of the current instance is. */
  datatype Consumer = Waiting | Handling(event: Event) | Handled(event: Event)

  datatype State = State(
    size: int,
    /** Counted by a sender, not yet queued. */
    halfSent: multiset<Event>,
    items: seq<Event>,
    consumer: Consumer,
    /** Consumers of instances that were cleaned away while they handled an event. */
    orphans: nat,
    /** Everything ever queued, and everything handled, in order. */
    added: seq<Event>,
    handled: seq<Event>)

  const INITIAL := State(0, multiset{}, [], Waiting, 0, [], [])

  predicate IsEmpty(s: State) { s.size == 0 }

  /** The events some thread still has to do something about. */
  function Outstanding(s: State): nat {
    |s.halfSent| + |s.items| + (if s.consumer.Waiting? then 0 else 1) + s.orphans
  }

  datatype Step =
    | Count(event: Event)   // send: size.incrementAndGet()
    | Add(event: Event)     // send: items.add(event)
    | Poll                  // consumer: items.poll()
    | Handle                // consumer: handle(item)
    | Discount              // consumer: size.decrementAndGet()
    | Clean                 // clean(), from any thread
    | OrphanDiscount        // the decrement of a consumer whose instance was cleaned away

  predicate Enabled(s: State, step: Step) {
    match step
    case Count(_) => true
    case Add(event) => event in s.halfSent
    case Poll => s.consumer.Waiting? && s.items != []
    case Handle => s.consumer.Handling?
    case Discount => s.consumer.Handled?
    case Clean => true
    case OrphanDiscount => s.orphans > 0
  }

  function Next(s: State, step: Step): State
    requires Enabled(s, step)
  {
    match step
    case Count(event) => s.(size := s.size + 1, halfSent := s.halfSent + multiset{event})
    case Add(event) =>
      s.(halfSent := s.halfSent - multiset{event}, items := s.items + [event], added := s.added + [event])
    case Poll => s.(items := s.items[1..], consumer := Handling(s.items[0]))
    case Handle => s.(consumer := Handled(s.consumer.event), handled := s.handled + [s.consumer.event])
    case Discount => s.(size := s.size - 1, consumer := Waiting)
    case Clean =>
      s.(size := 0, items := [], consumer := Waiting, orphans := s.orphans + if s.consumer.Waiting? then 0 else 1)
    case OrphanDiscount => s.(size := s.size - 1, orphans := s.orphans - 1)
  }

  /** The steps can be taken one after another from `s`, and lead to `t`. */
  predicate Leads(s: State, steps: seq<Step>, t: State)
    decreases |steps|
  {
    if steps == [] then s == t
    else Enabled(s, steps[0]) && Leads(Next(s, steps[0]), steps[1..], t)
  }

  predicate NoClean(steps: seq<Step>) { forall i :: 0 <= i < |steps| ==> steps[i] != Clean }

  lemma {:induction false} LeadsOn(s: State, first: seq<Step>, t: State, second: seq<Step>, u: State)
    requires Leads(s, first, t) && Leads(t, second, u)
    ensures Leads(s, first + second, u)
    decreases |first|
  {
    if first == [] {
      assert first + second == second;
    } else {
      assert (first + second)[1..] == first[1..] + second;
      LeadsOn(Next(s, first[0]), first[1..], t, second, u);
    }
  }

  // ---------------------------------------------------------------- the counter is a barrier

  /** How far the counter is behind the work that is really outstanding. */
  function Deficit(s: State): int { Outstanding(s) - s.size }

  lemma {:induction false} StepKeepsDeficit(s: State, step: Step)
    requires Enabled(s, step) && step != Clean
    ensures Deficit(Next(s, step)) == Deficit(s)
  {}

  lemma {:induction false} RunKeepsDeficit(s: State, steps: seq<Step>, t: State)
    requires Leads(s, steps, t) && NoClean(steps)
    ensures Deficit(t) == Deficit(s)
    decreases |steps|
  {
    if steps != [] {
      StepKeepsDeficit(s, steps[0]);
      RunKeepsDeficit(Next(s, steps[0]), steps[1..], t);
    }
  }

  function InFlight(s: State): seq<Event> {
    if s.consumer.Handling? then [s.consumer.event] else []
  }

  /** What was handled, what is being handled and what is queued: together, what was queued, in order. */
  predicate InOrder(s: State) { s.handled + InFlight(s) + s.items == s.added }

  lemma {:induction false} StepKeepsOrder(s: State, step: Step)
    requires Enabled(s, step) && step != Clean && InOrder(s)
    ensures InOrder(Next(s, step))
  {
    match step
    case Add(event) => assert s.handled + InFlight(s) + (s.items + [event]) == s.handled + InFlight(s) + s.items + [event];
    case Poll => assert s.items == [s.items[0]] + s.items[1..];
    case Handle => assert s.handled + [s.consumer.event] + [] + s.items == s.handled + [s.consumer.event] + s.items;
    case _ =>
  }

  lemma {:induction false} RunKeepsOrder(s: State, steps: seq<Step>, t: State)
    requires Leads(s, steps, t) && NoClean(steps) && InOrder(s)
    ensures InOrder(t)
    decreases |steps|
  {
    if steps != [] {
      StepKeepsOrder(s, steps[0]);
      RunKeepsOrder(Next(s, steps[0]), steps[1..], t);
    }
  }

  /**
   * In every interleaving of senders and consumer, as long as nobody cleans: the counter is the number
   * of events half sent, queued or in flight; events are handled in the order they were queued; and the
   * queue looks empty only when every event counted so far was queued and handled.
   */
  lemma {:induction false} CounterIsBarrier(steps: seq<Step>, s: State)
    requires Leads(INITIAL, steps, s) && NoClean(steps)
    ensures s.size == |s.halfSent| + |s.items| + if s.consumer.Waiting? then 0 else 1
    ensures s.handled <= s.added
    ensures IsEmpty(s) ==> s.halfSent == multiset{} && s.handled == s.added
  {
    RunKeepsDeficit(INITIAL, steps, s);
    RunKeepsOrder(INITIAL, steps, s);
    assert s.orphans == 0 by { NoOrphans(INITIAL, steps, s); }
    assert s.handled + (InFlight(s) + s.items) == s.added;
  }

  lemma {:induction false} NoOrphans(s: State, steps: seq<Step>, t: State)
    requires Leads(s, steps, t) && NoClean(steps) && s.orphans == 0
    ensures t.orphans == 0
    decreases |steps|
  {
    if steps != [] { NoOrphans(Next(s, steps[0]), steps[1..], t); }
  }

  // ---------------------------------------------------------------- what clean does to the barrier

  /** From here on, until somebody cleans again, the queue looks empty exactly when nothing is left to do. */
  ghost predicate BarrierHolds(s: State) {
    forall steps, t :: Leads(s, steps, t) && NoClean(steps) ==> (IsEmpty(t) <==> Outstanding(t) == 0)
  }

  /** All that is outstanding can be finished. */
  lemma {:induction false} Finish(s: State) returns (steps: seq<Step>, t: State)
    ensures Leads(s, steps, t) && NoClean(steps) && Outstanding(t) == 0
    decreases 4 * |s.halfSent| + 3 * |s.items|
              + (match s.consumer case Waiting => 0 case Handling(_) => 2 case Handled(_) => 1) + s.orphans
  {
    if Outstanding(s) == 0 {
      return [], s;
    }
    var step: Step;
    if s.halfSent != multiset{} {
      var event :| event in s.halfSent;
      step := Add(event);
    } else if s.consumer.Handling? {
      step := Handle;
    } else if s.consumer.Handled? {
      step := Discount;
    } else if s.items != [] {
      step := Poll;
    } else {
      step := OrphanDiscount;
    }
    var rest;
    rest, t := Finish(Next(s, step));
    steps := [step] + rest;
    assert steps[1..] == rest;
  }

  /** Cleaning leaves a working barrier exactly when no event is half sent or in flight at that moment. */
  lemma {:induction false} CleanKeepsBarrierIff(s: State)
    ensures BarrierHolds(Next(s, Clean)) <==> s.halfSent == multiset{} && s.consumer.Waiting? && s.orphans == 0
  {
    var c := Next(s, Clean);
    if Deficit(c) == 0 {
      forall steps, t | Leads(c, steps, t) && NoClean(steps)
        ensures IsEmpty(t) <==> Outstanding(t) == 0
      {
        RunKeepsDeficit(c, steps, t);
      }
    } else {
      var steps, t := Finish(c);
      RunKeepsDeficit(c, steps, t);
      assert Leads(c, steps, t) && NoClean(steps) && !(IsEmpty(t) <==> Outstanding(t) == 0);
    }
  }

  /**
   * The shutdown path: `clean` called by the handler of an event. The consumer then counts that event
   * off, the counter falls to -1, and when the next event is queued the queue looks empty while the
   * event waits.
   */
  lemma {:induction false} CleanInsideHandler(s: State, next: Event)
    requires s.consumer.Handling? && s.halfSent == multiset{} && s.orphans == 0
    ensures var t := Next(Next(s, Clean), OrphanDiscount);
            && t.size == -1 && Outstanding(t) == 0
            && var u := Next(t, Count(next)); var v := Next(u, Add(next));
               IsEmpty(v) && v.items == [next] && !BarrierHolds(t)
  {
    var t := Next(Next(s, Clean), OrphanDiscount);
    assert Leads(t, [], t) && NoClean([]);
    assert next in Next(t, Count(next)).halfSent;
  }
}
