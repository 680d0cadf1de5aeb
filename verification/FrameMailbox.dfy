/**
 * The mailbox between the socket and its readers, `BaseProxySocket.read`: the socket thread adds
 * frames to a queue while a reader, one at a time, moves them to its own list and looks there for
 * the first one its state accepts.
 */
module FrameMailbox {
  import opened Wrappers

  /** A queued frame; frames are objects, told apart by the order in which they were queued. */
  datatype Frame = Frame(id: nat, bytes: seq<bv8>)

  /** The reader holding the semaphore: emptying the queue, or scanning what it received. */
  datatype Reader =
    | Idle
    | Draining
    /** The queue was seen empty when `seen` frames had been queued so far. */
    | Scanning(seen: nat)

  datatype State = State(enqueued: seq<Frame>, inputQueue: seq<Frame>, received: seq<Frame>, taken: seq<Frame>,
                         reader: Reader)
  {
    function Pending(): seq<Frame> { received + inputQueue }
  }

  const INITIAL := State([], [], [], [], Idle)

  datatype Step =
    | Enqueue(bytes: seq<bv8>)
    | Begin
    | Poll
    | SeeEmpty
    | Scan(accepts: Frame -> bool)

  /** The first received frame a state accepts; the length of the list if there is none. */
  function FirstAccepted(received: seq<Frame>, accepts: Frame -> bool): (i: nat)
    ensures i <= |received|
    ensures i < |received| ==> accepts(received[i])
    ensures forall k :: 0 <= k < i ==> !accepts(received[k])
  {
    if received == [] || accepts(received[0]) then 0 else 1 + FirstAccepted(received[1..], accepts)
  }

  predicate Enabled(s: State, step: Step) {
    match step
    case Enqueue(_) => true
    case Begin => s.reader.Idle?
    case Poll => s.reader.Draining? && s.inputQueue != []
    case SeeEmpty => s.reader.Draining? && s.inputQueue == []
    case Scan(_) => s.reader.Scanning?
  }

  function Next(s: State, step: Step): State
    requires Enabled(s, step)
  {
    match step
    case Enqueue(bytes) =>
      var frame := Frame(|s.enqueued|, bytes);
      s.(enqueued := s.enqueued + [frame], inputQueue := s.inputQueue + [frame])
    case Begin => s.(reader := Draining)
    case Poll => s.(inputQueue := s.inputQueue[1..], received := s.received + [s.inputQueue[0]])
    case SeeEmpty => s.(reader := Scanning(|s.enqueued|))
    case Scan(accepts) =>
      var i := FirstAccepted(s.received, accepts);
      if i == |s.received| then s.(reader := Idle)
      else s.(reader := Idle, received := s.received[..i] + s.received[i + 1..], taken := s.taken + [s.received[i]])
  }

  /** The state after a list of steps, each of which must be possible when its turn comes. */
  ghost predicate Reaches(steps: seq<Step>, s: State)
  {
    if steps == [] then s == INITIAL
    else
      var last := |steps| - 1;
      exists before :: Reaches(steps[..last], before) && Enabled(before, steps[last]) && s == Next(before, steps[last])
  }

  // ---------------------------------------------------------------- conservation

  predicate Numbered(frames: seq<Frame>) { forall i :: 0 <= i < |frames| ==> frames[i].id == i }

  predicate Increasing(frames: seq<Frame>) {
    forall i, j :: 0 <= i < j < |frames| ==> frames[i].id < frames[j].id
  }

  predicate Distinct(frames: seq<Frame>) {
    forall i, j :: 0 <= i < j < |frames| ==> frames[i] != frames[j]
  }

  /**
   * `pending` is the sequence of the frames queued so far without those already taken, in order of
   * arrival; as frames are numbered by arrival, there is only one such sequence.
   */
  ghost predicate IsUntaken(pending: seq<Frame>, enqueued: seq<Frame>, taken: seq<Frame>) {
    && Increasing(pending)
    && (forall f :: f in pending <==> f in enqueued && f !in taken)
  }

  /** The reader has received what was queued before it saw the queue empty, and nothing later. */
  ghost predicate ReaderKnows(s: State) {
    s.reader.Scanning? ==>
      && (forall f :: f in s.received ==> f.id < s.reader.seen)
      && (forall f :: f in s.inputQueue ==> s.reader.seen <= f.id)
      && s.reader.seen <= |s.enqueued|
  }

  ghost predicate Invariant(s: State) {
    && Numbered(s.enqueued)
    && Distinct(s.taken) && (forall f :: f in s.taken ==> f in s.enqueued)
    && IsUntaken(s.Pending(), s.enqueued, s.taken)
    && ReaderKnows(s)
  }

  function Without(frames: seq<Frame>, i: nat): seq<Frame>
    requires i < |frames|
  {
    frames[..i] + frames[i + 1..]
  }

  lemma {:induction false} WithoutIs(frames: seq<Frame>, i: nat)
    requires i < |frames| && Increasing(frames)
    ensures Increasing(Without(frames, i))
    ensures forall f :: f in Without(frames, i) <==> f in frames && f != frames[i]
  {
    forall f | f in frames && f != frames[i] ensures f in Without(frames, i) {
      var k :| 0 <= k < |frames| && frames[k] == f;
      assert k < i ==> Without(frames, i)[k] == f;
      assert k > i ==> Without(frames, i)[k - 1] == f;
    }
  }

  lemma {:induction false} EnqueueKeeps(s: State, bytes: seq<bv8>)
    requires Invariant(s)
    ensures Invariant(Next(s, Enqueue(bytes)))
  {
    var t := Next(s, Enqueue(bytes));
    var frame := Frame(|s.enqueued|, bytes);
    assert t.Pending() == s.Pending() + [frame];
    assert forall f :: f in s.enqueued ==> f.id < |s.enqueued|;
  }

  lemma {:induction false} PollKeeps(s: State)
    requires Invariant(s) && Enabled(s, Poll)
    ensures Invariant(Next(s, Poll))
  {
    assert Next(s, Poll).Pending() == s.Pending();
  }

  lemma {:induction false} SeeEmptyKeeps(s: State)
    requires Invariant(s) && Enabled(s, SeeEmpty)
    ensures Invariant(Next(s, SeeEmpty))
  {
    assert Next(s, SeeEmpty).Pending() == s.Pending() == s.received;
    assert forall f :: f in s.enqueued ==> f.id < |s.enqueued|;
  }

  lemma {:induction false} ScanKeeps(s: State, accepts: Frame -> bool)
    requires Invariant(s) && Enabled(s, Scan(accepts))
    ensures Invariant(Next(s, Scan(accepts)))
  {
    var t := Next(s, Scan(accepts));
    var i := FirstAccepted(s.received, accepts);
    if i < |s.received| {
      assert s.Pending()[i] == s.received[i] && s.received[i] in s.Pending();
      assert t.Pending() == Without(s.Pending(), i);
      WithoutIs(s.Pending(), i);
    }
  }

  lemma {:induction false} InvariantHolds(steps: seq<Step>, s: State)
    requires Reaches(steps, s)
    ensures Invariant(s)
    decreases |steps|
  {
    if steps != [] {
      var last := |steps| - 1;
      var before :| Reaches(steps[..last], before) && Enabled(before, steps[last]) && s == Next(before, steps[last]);
      InvariantHolds(steps[..last], before);
      match steps[last]
      case Enqueue(bytes) => EnqueueKeeps(before, bytes);
      case Begin => assert s.Pending() == before.Pending();
      case Poll => PollKeeps(before);
      case SeeEmpty => SeeEmptyKeeps(before);
      case Scan(accepts) => ScanKeeps(before, accepts);
    }
  }

  /**
   * In every interleaving nothing is lost, duplicated or reordered: what a reader received followed by
   * the queue is what was queued, without what was already returned, in order of arrival.
   */
  lemma {:induction false} MailboxConserves(steps: seq<Step>, s: State)
    requires Reaches(steps, s)
    ensures IsUntaken(s.received + s.inputQueue, s.enqueued, s.taken)
    ensures Distinct(s.taken) && (forall f :: f in s.taken ==> f in s.enqueued)
  {
    InvariantHolds(steps, s);
  }

  /** What a scan is meant to do to the pending frames and to those returned. */
  ghost predicate TakesEarliest(s: State, t: State, accepts: Frame -> bool, i: nat) {
    && i < |s.Pending()| && accepts(s.Pending()[i])
    && (forall f :: f in s.Pending() && accepts(f) ==> s.Pending()[i].id <= f.id)
    && t.taken == s.taken + [s.Pending()[i]]
    && t.Pending() == Without(s.Pending(), i)
  }

  ghost predicate TakesNone(s: State, t: State, accepts: Frame -> bool)
    requires s.reader.Scanning?
  {
    && t.taken == s.taken && t.Pending() == s.Pending()
    && (forall f :: f in s.Pending() && accepts(f) ==> s.reader.seen <= f.id)
  }

  /**
   * A scan that succeeds returns the earliest of all pending frames its state accepts and removes just
   * that one; a scan that fails removes nothing, and can only have missed frames queued after the
   * queue was seen empty.
   */
  lemma {:induction false} ScanTakesEarliest(steps: seq<Step>, s: State, accepts: Frame -> bool)
    requires Reaches(steps, s) && Enabled(s, Scan(accepts))
    ensures var t := Next(s, Scan(accepts));
            TakesNone(s, t, accepts) || exists i :: TakesEarliest(s, t, accepts, i)
    ensures (exists f :: f in s.Pending() && accepts(f) && f.id < s.reader.seen)
            <==> Next(s, Scan(accepts)).taken != s.taken
  {
    InvariantHolds(steps, s);
    var t := Next(s, Scan(accepts));
    var i := FirstAccepted(s.received, accepts);
    if i < |s.received| {
      EarliestInReceived(s, accepts, i);
      assert TakesEarliest(s, t, accepts, i);
      assert s.Pending()[i] in s.Pending() && |t.taken| == |s.taken| + 1;
    } else {
      assert forall f :: f in s.Pending() ==> f in s.received || f in s.inputQueue;
      assert TakesNone(s, t, accepts);
    }
  }

  lemma {:induction false} EarliestInReceived(s: State, accepts: Frame -> bool, i: nat)
    requires Invariant(s) && Enabled(s, Scan(accepts)) && i < |s.received| && i == FirstAccepted(s.received, accepts)
    ensures TakesEarliest(s, Next(s, Scan(accepts)), accepts, i)
  {
    var all := s.Pending();
    assert all[i] == s.received[i];
    assert Next(s, Scan(accepts)).Pending() == Without(all, i);
    forall k | 0 <= k < i ensures !accepts(all[k]) { assert all[k] == s.received[k]; }
    forall f | f in all && accepts(f) ensures all[i].id <= f.id {
      var k :| 0 <= k < |all| && all[k] == f;
      assert i <= k;
    }
  }

  // ---------------------------------------------------------------- the loops of the source

  class FrameReader {
    var inputQueue: seq<Frame>
    var received: seq<Frame>

    constructor ()
      ensures inputQueue == [] && received == []
    {
      inputQueue, received := [], [];
    }

    /** The socket thread adds frames. */
    method Arrive(frames: seq<Frame>)
      modifies this`inputQueue
      ensures inputQueue == old(inputQueue) + frames
    {
      inputQueue := inputQueue + frames;
    }

    /** One round of `read`: empty the queue, then look for the first frame the state accepts. */
    method ReadPass(accepts: Frame -> bool) returns (founded: Option<Frame>)
      modifies this
      ensures inputQueue == []
      ensures var all := old(received + inputQueue); var i := FirstAccepted(all, accepts);
              if i < |all| then founded == Some(all[i]) && received == Without(all, i)
              else founded == None && received == all
    {
      ghost var all := received + inputQueue;
      while inputQueue != []
        invariant received + inputQueue == all
        decreases |inputQueue|
      {
        var toAdd := inputQueue[0];
        inputQueue := inputQueue[1..];
        received := received + [toAdd];
      }
      assert received[0..] == all;
      var i := 0;
      while i < |received|
        invariant 0 <= i <= |received| && received == all && inputQueue == []
        invariant FirstAccepted(all, accepts) == i + FirstAccepted(all[i..], accepts)
      {
        var fr := received[i];
        if accepts(fr) {
          received := received[..i] + received[i + 1..];
          return Some(fr);
        }
        assert all[i..][1..] == all[i + 1..];
        i := i + 1;
      }
      return None;
    }

    /**
     * `read`, with one element of `arrivals` for every round before its deadline: the frames that
     * reach the queue before the round sees it empty. `None` is the case in which the source returns
     * the empty list or throws.
     */
    method Read(accepts: Frame -> bool, arrivals: seq<seq<Frame>>) returns (founded: Option<Frame>)
      modifies this
      ensures (founded, received + inputQueue) == ReadOutcome(old(received + inputQueue), arrivals, accepts)
    {
      founded := None;
      ghost var start := received + inputQueue;
      var k := 0;
      assert arrivals[0..] == arrivals;
      while k < |arrivals| && founded == None
        invariant 0 <= k <= |arrivals|
        invariant ReadOutcome(start, arrivals, accepts)
                  == if founded == None then ReadOutcome(received + inputQueue, arrivals[k..], accepts)
                     else (founded, received + inputQueue)
      {
        ghost var before := received + inputQueue;
        assert arrivals[k..][0] == arrivals[k] && arrivals[k..][1..] == arrivals[k + 1..];
        Arrive(arrivals[k]);
        assert received + inputQueue == before + arrivals[k];
        founded := ReadPass(accepts);
        assert received + inputQueue == received;
        k := k + 1;
      }
    }
  }

  /** The frame found, and the frames pending afterwards. */
  function ReadOutcome(pending: seq<Frame>, arrivals: seq<seq<Frame>>, accepts: Frame -> bool): (Option<Frame>, seq<Frame>)
    decreases |arrivals|
  {
    if arrivals == [] then (None, pending)
    else
      var all := pending + arrivals[0];
      var i := FirstAccepted(all, accepts);
      if i < |all| then (Some(all[i]), Without(all, i)) else ReadOutcome(all, arrivals[1..], accepts)
  }

  function Flatten(arrivals: seq<seq<Frame>>): seq<Frame> {
    if arrivals == [] then [] else arrivals[0] + Flatten(arrivals[1..])
  }

  /** A read gives up exactly when no frame pending or arriving in time is accepted, and then keeps all. */
  lemma {:induction false} ReadGivesUpIff(pending: seq<Frame>, arrivals: seq<seq<Frame>>, accepts: Frame -> bool)
    requires arrivals != []
    ensures ReadOutcome(pending, arrivals, accepts).0 == None
            <==> forall f :: f in pending + Flatten(arrivals) ==> !accepts(f)
    ensures ReadOutcome(pending, arrivals, accepts).0 == None
            ==> ReadOutcome(pending, arrivals, accepts).1 == pending + Flatten(arrivals)
    decreases |arrivals|
  {
    var all := pending + arrivals[0];
    assert pending + Flatten(arrivals) == all + Flatten(arrivals[1..]);
    var i := FirstAccepted(all, accepts);
    if i < |all| {
      assert all[i] in all + Flatten(arrivals[1..]);
    } else if |arrivals| == 1 {
      assert arrivals[1..] == [] && all + [] == all;
    } else {
      ReadGivesUpIff(all, arrivals[1..], accepts);
    }
  }
}
