/**
 * Incremental framing, `BaseProxySocket.onRead`: chunks of a TCP stream are appended to a buffer, and
 * messages are cut off its front as long as some protocol state, or the frame splitter, accepts them.
 */
module Framing {
  import opened Wrappers
  import opened Buffers

  type Bytes = seq<bv8>

  /** A protocol event built out of a frame; what kinds there are is up to the protocol. */
  datatype Event = Event(kind: string, bytes: Bytes)

  /**
   * What a protocol answers about the bytes at the front of the buffer. States and splitter are not
   * part of this model; they enter as functions.
   */
  datatype Protocol = Protocol(
    stateCount: nat,
    /** `canRunEvent` of state `i` on the buffer, with the number of bytes its execution consumes. */
    stateRuns: (nat, Bytes) -> Option<nat>,
    /** The splitter: the length of the one frame at the front. */
    frame: Bytes -> Option<nat>,
    /** `buildPossibleEvents` on one frame. */
    events: Bytes -> seq<Event>,
    /** `canRunEvent` of state `i` on such an event. */
    stateAccepts: (nat, Event) -> bool)

  datatype Delivery =
    | Dispatched(state: nat, bytes: Bytes)
    | DispatchedEvent(state: nat, event: Event, bytes: Bytes)
    | Queued(bytes: Bytes)

  /** The first of the states from `i` on that runs on the buffer, and what it consumes. */
  function FirstState(p: Protocol, buffer: Bytes, i: nat): Option<(nat, nat)>
    requires i <= p.stateCount
    decreases p.stateCount - i
  {
    if i == p.stateCount then None
    else match p.stateRuns(i, buffer)
      case Some(n) => Some((i, n))
      case None => FirstState(p, buffer, i + 1)
  }

  function AcceptingState(p: Protocol, event: Event, i: nat): Option<nat>
    requires i <= p.stateCount
    decreases p.stateCount - i
  {
    if i == p.stateCount then None
    else if p.stateAccepts(i, event) then Some(i)
    else AcceptingState(p, event, i + 1)
  }

  /** The first event some state accepts, with the first such state. */
  function FirstEvent(p: Protocol, events: seq<Event>): Option<(nat, Event)> {
    if events == [] then None
    else match AcceptingState(p, events[0], 0)
      case Some(i) => Some((i, events[0]))
      case None => FirstEvent(p, events[1..])
  }

  /** What happens to one frame. */
  function FrameDelivery(p: Protocol, frame: Bytes): Delivery {
    match FirstEvent(p, p.events(frame))
    case Some((i, event)) => DispatchedEvent(i, event, frame)
    case None => Queued(frame)
  }

  /** The message cut off the front of the buffer, if any. */
  function Decide(p: Protocol, buffer: Bytes): (d: Option<Delivery>)
    requires Consumes(p)
    ensures d.Some? ==> 0 < |d.value.bytes| <= |buffer| && d.value.bytes == buffer[..|d.value.bytes|]
  {
    if buffer == [] then None
    else match FirstState(p, buffer, 0)
      case Some((i, n)) =>
        FirstStateIs(p, buffer, 0);
        Some(Dispatched(i, buffer[..n]))
      case None =>
        match p.frame(buffer)
        case Some(n) => Some(FrameDelivery(p, buffer[..n]))
        case None => None
  }

  /** Every message takes at least one byte, and no more than there are. */
  ghost predicate Consumes(p: Protocol) {
    && (forall i: nat, b: Bytes :: i < p.stateCount && p.stateRuns(i, b).Some? ==> 0 < p.stateRuns(i, b).value <= |b|)
    && (forall b: Bytes :: p.frame(b).Some? ==> 0 < p.frame(b).value <= |b|)
  }

  /** The state found runs and all before it decline; if none is found all decline. */
  lemma {:induction false} FirstStateIs(p: Protocol, buffer: Bytes, i: nat)
    requires i <= p.stateCount
    ensures FirstState(p, buffer, i).Some? ==>
              var (k, n) := FirstState(p, buffer, i).value;
              && i <= k < p.stateCount && p.stateRuns(k, buffer) == Some(n)
              && forall j :: i <= j < k ==> p.stateRuns(j, buffer).None?
    ensures FirstState(p, buffer, i).None? ==> forall j :: i <= j < p.stateCount ==> p.stateRuns(j, buffer).None?
    decreases p.stateCount - i
  {
    if i < p.stateCount { FirstStateIs(p, buffer, i + 1); }
  }

  lemma {:induction false} AcceptingStateIs(p: Protocol, event: Event, i: nat)
    requires i <= p.stateCount
    ensures AcceptingState(p, event, i).Some? ==>
              var k := AcceptingState(p, event, i).value;
              i <= k < p.stateCount && p.stateAccepts(k, event) && forall j :: i <= j < k ==> !p.stateAccepts(j, event)
    ensures AcceptingState(p, event, i).None? ==> forall j :: i <= j < p.stateCount ==> !p.stateAccepts(j, event)
    decreases p.stateCount - i
  {
    if i < p.stateCount { AcceptingStateIs(p, event, i + 1); }
  }

  predicate Declined(p: Protocol, event: Event) { forall j :: 0 <= j < p.stateCount ==> !p.stateAccepts(j, event) }

  /** The event found is the first some state accepts, by the first such state; if none is found all decline all. */
  lemma {:induction false} FirstEventIs(p: Protocol, events: seq<Event>)
    ensures FirstEvent(p, events).Some? ==>
              var (i, event) := FirstEvent(p, events).value;
              && i < p.stateCount && p.stateAccepts(i, event) && (forall j :: 0 <= j < i ==> !p.stateAccepts(j, event))
              && exists k :: 0 <= k < |events| && events[k] == event && forall m :: 0 <= m < k ==> Declined(p, events[m])
    ensures FirstEvent(p, events).None? ==> forall m :: 0 <= m < |events| ==> Declined(p, events[m])
    decreases |events|
  {
    if events != [] {
      AcceptingStateIs(p, events[0], 0);
      if AcceptingState(p, events[0], 0).None? {
        FirstEventIs(p, events[1..]);
        assert Declined(p, events[0]);
        assert forall m :: 0 <= m < |events| - 1 ==> events[1..][m] == events[m + 1];
        if FirstEvent(p, events).Some? {
          var (i, event) := FirstEvent(p, events).value;
          var k :| 0 <= k < |events| - 1 && events[1..][k] == event && forall m :: 0 <= m < k ==> Declined(p, events[1..][m]);
          assert events[k + 1] == event;
          forall m | 0 <= m < k + 1 ensures Declined(p, events[m]) { if m > 0 { assert events[1..][m - 1] == events[m]; } }
        } else {
          forall m | 0 <= m < |events| ensures Declined(p, events[m]) { if m > 0 { assert events[1..][m - 1] == events[m]; } }
        }
      }
    }
  }

  predicate NoStateRuns(p: Protocol, buffer: Bytes) { forall j :: 0 <= j < p.stateCount ==> p.stateRuns(j, buffer).None? }

  /**
   * Which message is cut off a buffer: that of the first state which runs on it; only when none runs, the
   * frame at its front, as the first event of it that some state accepts, by the first such state; and the
   * frame is queued only when every state declines every event. Nothing is cut off only when no state runs
   * and there is no frame.
   */
  lemma {:induction false} DecideMeans(p: Protocol, buffer: Bytes)
    requires Consumes(p)
    ensures Decide(p, buffer).None? <==> buffer == [] || (NoStateRuns(p, buffer) && p.frame(buffer).None?)
    ensures Decide(p, buffer).Some? ==>
              var bytes := Decide(p, buffer).value.bytes;
              match Decide(p, buffer).value
              case Dispatched(i, _) =>
                i < p.stateCount && p.stateRuns(i, buffer) == Some(|bytes|) && forall j :: 0 <= j < i ==> p.stateRuns(j, buffer).None?
              case DispatchedEvent(i, event, _) =>
                && NoStateRuns(p, buffer) && p.frame(buffer) == Some(|bytes|)
                && i < p.stateCount && p.stateAccepts(i, event) && (forall j :: 0 <= j < i ==> !p.stateAccepts(j, event))
                && exists k :: 0 <= k < |p.events(bytes)| && p.events(bytes)[k] == event
                               && forall m :: 0 <= m < k ==> Declined(p, p.events(bytes)[m])
              case Queued(_) =>
                && NoStateRuns(p, buffer) && p.frame(buffer) == Some(|bytes|)
                && forall m :: 0 <= m < |p.events(bytes)| ==> Declined(p, p.events(bytes)[m])
  {
    FirstStateIs(p, buffer, 0);
    if buffer != [] && FirstState(p, buffer, 0).None? && p.frame(buffer).Some? {
      FirstEventIs(p, p.events(buffer[..p.frame(buffer).value]));
    }
  }

  datatype Outcome = Outcome(deliveries: seq<Delivery>, leftover: Bytes)

  /** One outcome after another. */
  function Then(first: seq<Delivery>, second: Outcome): Outcome {
    Outcome(first + second.deliveries, second.leftover)
  }

  /** All messages that can be cut off a buffer, and what stays in it. */
  function Drain(p: Protocol, buffer: Bytes): Outcome
    requires Consumes(p)
    decreases |buffer|
  {
    match Decide(p, buffer)
    case None => Outcome([], buffer)
    case Some(d) => Then([d], Drain(p, buffer[|d.bytes|..]))
  }

  function Feed(p: Protocol, leftover: Bytes, chunks: seq<Bytes>): Outcome
    requires Consumes(p)
    decreases |chunks|
  {
    if chunks == [] then Outcome([], leftover)
    else
      var first := Drain(p, leftover + chunks[0]);
      Then(first.deliveries, Feed(p, first.leftover, chunks[1..]))
  }

  lemma {:induction false} ThenThen(a: seq<Delivery>, b: seq<Delivery>, o: Outcome)
    ensures Then(a, Then(b, o)) == Then(a + b, o)
  {
    assert a + (b + o.deliveries) == a + b + o.deliveries;
  }

  lemma {:induction false} ThenNothing(o: Outcome)
    ensures Then([], o) == o
  {
    assert [] + o.deliveries == o.deliveries;
  }

  function Flatten(chunks: seq<Bytes>): Bytes {
    if chunks == [] then [] else chunks[0] + Flatten(chunks[1..])
  }

  function Frames(ds: seq<Delivery>): seq<Bytes> {
    if ds == [] then [] else (if ds[0].Queued? then [ds[0].bytes] else []) + Frames(ds[1..])
  }

  function Contents(ds: seq<Delivery>): Bytes {
    if ds == [] then [] else ds[0].bytes + Contents(ds[1..])
  }

  lemma {:induction false} FramesAppend(a: seq<Delivery>, b: seq<Delivery>)
    ensures Frames(a + b) == Frames(a) + Frames(b)
    decreases |a|
  {
    if a == [] {
      assert a + b == b;
    } else {
      assert (a + b)[1..] == a[1..] + b;
      FramesAppend(a[1..], b);
    }
  }

  /** What a socket holds. */
  datatype Snapshot = Snapshot(delivered: seq<Delivery>, inputQueue: seq<Bytes>, buffer: Bytes)

  /** Handing over the messages of `o` and keeping its leftover. */
  function Applied(s: Snapshot, o: Outcome): Snapshot {
    Snapshot(s.delivered + o.deliveries, s.inputQueue + Frames(o.deliveries), o.leftover)
  }

  lemma {:induction false} AppliedTwice(s: Snapshot, first: Outcome, rest: Outcome)
    ensures Applied(Applied(s, first), rest) == Applied(s, Then(first.deliveries, rest))
  {
    FramesAppend(first.deliveries, rest.deliveries);
    assert s.delivered + first.deliveries + rest.deliveries == s.delivered + (first.deliveries + rest.deliveries);
  }

  lemma {:induction false} AppliedOne(s: Snapshot, d: Delivery, rest: Bytes)
    ensures Applied(s, Outcome([d], rest))
            == Snapshot(s.delivered + [d], if d.Queued? then s.inputQueue + [d.bytes] else s.inputQueue, rest)
  {
    assert [d][1..] == [] && s.inputQueue + [] == s.inputQueue;
    assert Frames([d]) == if d.Queued? then [d.bytes] else [];
  }

  lemma {:induction false} AppliedNothing(s: Snapshot)
    ensures Applied(s, Outcome([], s.buffer)) == s
  {
    assert s.delivered + [] == s.delivered && s.inputQueue + [] == s.inputQueue;
  }

  // ---------------------------------------------------------------- the socket

  class ProxySocket {
    const protocol: Protocol
    const tempBuffer: BBuffer
    /** Frames no state took, waiting for `read`. */
    var inputQueue: seq<Bytes>
    /** The messages handed over so far, in order. */
    var delivered: seq<Delivery>

    ghost function Now(): Snapshot
      reads this, tempBuffer, tempBuffer.bytes
    {
      Snapshot(delivered, inputQueue, tempBuffer.bytes[..])
    }

    constructor (protocol: Protocol, tempBuffer: BBuffer)
      ensures this.protocol == protocol && this.tempBuffer == tempBuffer && inputQueue == [] && delivered == []
    {
      this.protocol := protocol;
      this.tempBuffer := tempBuffer;
      inputQueue := [];
      delivered := [];
    }

    method FindState(buffer: Bytes) returns (found: Option<(nat, nat)>)
      ensures found == FirstState(protocol, buffer, 0)
      ensures found.Some? ==> found.value.0 < protocol.stateCount && protocol.stateRuns(found.value.0, buffer) == Some(found.value.1)
      ensures forall j :: 0 <= j < protocol.stateCount && (found.Some? ==> j < found.value.0) ==> protocol.stateRuns(j, buffer).None?
    {
      FirstStateIs(protocol, buffer, 0);
      var i := 0;
      while i < protocol.stateCount
        invariant 0 <= i <= protocol.stateCount
        invariant FirstState(protocol, buffer, 0) == FirstState(protocol, buffer, i)
      {
        var n := protocol.stateRuns(i, buffer);
        if n.Some? { return Some((i, n.value)); }
        i := i + 1;
      }
      return None;
    }

    /** The two nested loops over possible events and states, left at the first match. */
    method FindEvent(frame: Bytes) returns (found: Option<(nat, Event)>)
      ensures found == FirstEvent(protocol, protocol.events(frame))
    {
      var events := protocol.events(frame);
      var k := 0;
      assert events[0..] == events;
      while k < |events|
        invariant 0 <= k <= |events|
        invariant FirstEvent(protocol, events) == FirstEvent(protocol, events[k..])
      {
        var item := events[k];
        assert events[k..][1..] == events[k + 1..];
        var i := 0;
        while i < protocol.stateCount
          invariant 0 <= i <= protocol.stateCount
          invariant AcceptingState(protocol, item, 0) == AcceptingState(protocol, item, i)
        {
          if protocol.stateAccepts(i, item) { return Some((i, item)); }
          i := i + 1;
        }
        k := k + 1;
      }
      return None;
    }

    /** A message consumed `length` bytes: `truncate` drops them. */
    method CutFront(length: nat)
      requires length <= tempBuffer.bytes.Length
      modifies tempBuffer
      ensures tempBuffer.bytes[..] == old(tempBuffer.bytes[length..]) && fresh(tempBuffer.bytes)
    {
      tempBuffer.SetPosition(length);
      tempBuffer.Truncate();
    }

    /** Takes one message off the buffer, if there is one; false when nothing can be done yet. */
    method ReadOne() returns (run: bool)
      requires Consumes(protocol) && tempBuffer.bytes.Length > 0
      modifies this, tempBuffer
      ensures tempBuffer.bytes == old(tempBuffer.bytes) || fresh(tempBuffer.bytes)
      ensures run == Decide(protocol, old(Now()).buffer).Some?
      ensures match Decide(protocol, old(Now()).buffer) {
                case None => Now() == old(Now())
                case Some(d) => Now() == Applied(old(Now()), Outcome([d], old(Now()).buffer[|d.bytes|..]))
              }
    {
      run := false;
      ghost var front := tempBuffer.bytes[..];
      var state := FindState(tempBuffer.bytes[..]);
      FirstStateIs(protocol, front, 0);
      ghost var d := Decide(protocol, front);
      if d.Some? { AppliedOne(Now(), d.value, front[|d.value.bytes|..]); }
      if state.Some? {
        var (i, n) := state.value;
        delivered := delivered + [Dispatched(i, tempBuffer.bytes[..n])];
        CutFront(n);
        run := true;
      }
      if !run {
        var length := protocol.frame(tempBuffer.bytes[..]);
        if length.Some? {
          var frame := tempBuffer.bytes[..length.value];
          var found := FindEvent(frame);
          if found.Some? {
            delivered := delivered + [DispatchedEvent(found.value.0, found.value.1, frame)];
          } else {
            inputQueue := inputQueue + [frame];
            delivered := delivered + [Queued(frame)];
          }
          CutFront(length.value);
          run := true;
        }
      }
    }

    method OnRead(byteArray: Bytes)
      requires Consumes(protocol)
      modifies this, tempBuffer, tempBuffer.bytes
      ensures Now() == Applied(old(Now()), Drain(protocol, old(Now()).buffer + byteArray))
      ensures tempBuffer.bytes == old(tempBuffer.bytes) || fresh(tempBuffer.bytes)
    {
      tempBuffer.SetPosition(tempBuffer.Size());
      AppendIsPlain(tempBuffer.bytes[..], byteArray);
      var ok := tempBuffer.Write(byteArray);
      tempBuffer.SetPosition(0);
      ghost var whole := Applied(Now(), Drain(protocol, Now().buffer));
      var run := true;
      while run && tempBuffer.Size() > 0
        invariant tempBuffer.bytes == old(tempBuffer.bytes) || fresh(tempBuffer.bytes)
        invariant Applied(Now(), Drain(protocol, Now().buffer)) == whole
        invariant !run ==> Decide(protocol, Now().buffer).None?
        decreases tempBuffer.Size(), run
      {
        ghost var before := Now();
        run := ReadOne();
        ghost var d := Decide(protocol, before.buffer);
        if d.Some? {
          ghost var rest := before.buffer[|d.value.bytes|..];
          AppliedTwice(before, Outcome([d.value], rest), Drain(protocol, rest));
        }
      }
      AppliedNothing(Now());
    }

    /** Any number of reads in a row. */
    method OnReads(chunks: seq<Bytes>)
      requires Consumes(protocol)
      modifies this, tempBuffer, tempBuffer.bytes
      ensures Now() == Applied(old(Now()), Feed(protocol, old(Now()).buffer, chunks))
      ensures tempBuffer.bytes == old(tempBuffer.bytes) || fresh(tempBuffer.bytes)
      decreases |chunks|
    {
      AppliedNothing(Now());
      if chunks != [] {
        ghost var before := Now();
        ghost var first := Drain(protocol, before.buffer + chunks[0]);
        OnRead(chunks[0]);
        OnReads(chunks[1..]);
        AppliedTwice(before, first, Feed(protocol, first.leftover, chunks[1..]));
      }
    }
  }

  lemma {:induction false} DrainStep(p: Protocol, buffer: Bytes, d: Delivery)
    requires Consumes(p) && Decide(p, buffer) == Some(d)
    ensures Drain(p, buffer) == Then([d], Drain(p, buffer[|d.bytes|..]))
  {}

  // ---------------------------------------------------------------- chunking

  /** Bytes that arrive later do not change a decision already taken. */
  ghost predicate PrefixStable(p: Protocol)
    requires Consumes(p)
  {
    forall a: Bytes, b: Bytes :: Decide(p, a).Some? ==> Decide(p, a + b) == Decide(p, a)
  }

  lemma {:induction false} DrainInTwo(p: Protocol, a: Bytes, b: Bytes)
    requires Consumes(p) && PrefixStable(p)
    ensures Drain(p, a + b) == Then(Drain(p, a).deliveries, Drain(p, Drain(p, a).leftover + b))
    decreases |a|
  {
    match Decide(p, a)
    case None => ThenNothing(Drain(p, a + b));
    case Some(d) =>
      var rest := a[|d.bytes|..];
      assert Decide(p, a + b) == Some(d) && (a + b)[|d.bytes|..] == rest + b;
      DrainInTwo(p, rest, b);
      ThenThen([d], Drain(p, rest).deliveries, Drain(p, Drain(p, rest).leftover + b));
  }

  lemma {:induction false} FeedIsDrain(p: Protocol, leftover: Bytes, chunks: seq<Bytes>, all: Bytes)
    requires Consumes(p) && PrefixStable(p) && Decide(p, leftover).None? && all == leftover + Flatten(chunks)
    ensures Feed(p, leftover, chunks) == Drain(p, all)
    decreases |chunks|
  {
    if chunks == [] {
      assert all == leftover;
    } else {
      var joined, after := leftover + chunks[0], Flatten(chunks[1..]);
      assert all == joined + after;
      DrainLeavesNothing(p, joined);
      FeedIsDrain(p, Drain(p, joined).leftover, chunks[1..], Drain(p, joined).leftover + after);
      DrainInTwo(p, joined, after);
    }
  }

  lemma {:induction false} DrainLeavesNothing(p: Protocol, buffer: Bytes)
    requires Consumes(p)
    ensures Decide(p, Drain(p, buffer).leftover).None?
    decreases |buffer|
  {
    match Decide(p, buffer)
    case None =>
    case Some(d) => DrainLeavesNothing(p, buffer[|d.bytes|..]);
  }

  /** However the stream is cut into chunks, the messages and the leftover are those of the whole. */
  ghost predicate ChunkingIrrelevant(p: Protocol)
    requires Consumes(p)
  {
    forall chunks: seq<Bytes> :: Feed(p, [], chunks) == Drain(p, Flatten(chunks))
  }

  /** Chunking does not matter exactly for protocols whose decisions are stable under more input. */
  lemma {:induction false} ChunkingIrrelevantIff(p: Protocol)
    requires Consumes(p)
    ensures ChunkingIrrelevant(p) <==> PrefixStable(p)
  {
    if PrefixStable(p) {
      forall chunks: seq<Bytes> ensures Feed(p, [], chunks) == Drain(p, Flatten(chunks)) {
        assert [] + Flatten(chunks) == Flatten(chunks);
        FeedIsDrain(p, [], chunks, Flatten(chunks));
      }
    }
    if !PrefixStable(p) {
      var a: Bytes, b: Bytes :| Decide(p, a).Some? && Decide(p, a + b) != Decide(p, a);
      TwoChunksDiffer(p, a, b);
      assert Feed(p, [], [a, b]) != Drain(p, Flatten([a, b]));
    }
  }

  lemma {:induction false} TwoChunksDiffer(p: Protocol, a: Bytes, b: Bytes)
    requires Consumes(p) && Decide(p, a).Some? && Decide(p, a + b) != Decide(p, a)
    ensures Feed(p, [], [a, b]) != Drain(p, Flatten([a, b]))
  {
    var d := Decide(p, a).value;
    assert [a, b][1..] == [b] && [b][1..] == [] && Flatten([b]) == b + [];
    assert Flatten([a, b]) == a + b;
    assert [] + a == a;
    DrainStep(p, a, d);
    assert Feed(p, [], [a, b]).deliveries[0] == d;
    if Decide(p, a + b).Some? {
      DrainStep(p, a + b, Decide(p, a + b).value);
      assert Drain(p, a + b).deliveries[0] == Decide(p, a + b).value;
    }
  }

  /** Nothing is lost or reordered: messages and leftover together are all the bytes received. */
  lemma {:induction false} DrainConserves(p: Protocol, buffer: Bytes)
    requires Consumes(p)
    ensures Contents(Drain(p, buffer).deliveries) + Drain(p, buffer).leftover == buffer
    decreases |buffer|
  {
    match Decide(p, buffer)
    case None =>
    case Some(d) =>
      DrainConserves(p, buffer[|d.bytes|..]);
      DrainStep(p, buffer, d);
      ContentsOfThen(d, Drain(p, buffer[|d.bytes|..]), buffer);
  }

  lemma {:induction false} ContentsOfThen(d: Delivery, rest: Outcome, buffer: Bytes)
    requires d.bytes <= buffer && Contents(rest.deliveries) + rest.leftover == buffer[|d.bytes|..]
    ensures Contents(Then([d], rest).deliveries) + Then([d], rest).leftover == buffer
  {
    assert ([d] + rest.deliveries)[1..] == rest.deliveries;
    Regroup(d.bytes, Contents(rest.deliveries), rest.leftover);
    assert buffer == d.bytes + buffer[|d.bytes|..];
  }

  lemma {:induction false} ContentsAppend(a: seq<Delivery>, b: seq<Delivery>)
    ensures Contents(a + b) == Contents(a) + Contents(b)
    decreases |a|
  {
    if a == [] {
      assert a + b == b;
    } else {
      assert (a + b)[1..] == a[1..] + b;
      ContentsAppend(a[1..], b);
    }
  }

  lemma {:induction false} FeedConserves(p: Protocol, leftover: Bytes, chunks: seq<Bytes>)
    requires Consumes(p)
    ensures Contents(Feed(p, leftover, chunks).deliveries) + Feed(p, leftover, chunks).leftover
            == leftover + Flatten(chunks)
    decreases |chunks|
  {
    if chunks != [] {
      var joined := leftover + chunks[0];
      var first := Drain(p, joined);
      DrainConserves(p, joined);
      FeedConserves(p, first.leftover, chunks[1..]);
      var rest := Feed(p, first.leftover, chunks[1..]);
      ContentsAppend(first.deliveries, rest.deliveries);
      Regroup(Contents(first.deliveries), Contents(rest.deliveries), rest.leftover);
      Regroup(Contents(first.deliveries), first.leftover, Flatten(chunks[1..]));
      Regroup(leftover, chunks[0], Flatten(chunks[1..]));
    }
  }

  lemma {:induction false} Regroup(a: Bytes, b: Bytes, c: Bytes)
    ensures a + b + c == a + (b + c)
  {}
}
