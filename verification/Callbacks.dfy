/**
 * The callbacks recorded after a call: `readResponsesFromScenario` picks the responses that follow the
 * call in the recording, and the replay plugin schedules those some connection is waiting for.
 */
module Callbacks {
  import opened Wrappers
  import opened JavaInt
  import opened Sorting
  import opened Storage
  import opened Tags

  type TagMap = map<string, Option<string>>

  function IndexOfLine(line: CompactLine): int { line.index }

  function ItemTime(item: StorageItem): int { item.timestamp }

  function After(lines: seq<CompactLine>, startAt: int): seq<CompactLine> {
    if lines == [] then []
    else (if lines[0].index > startAt then [lines[0]] else []) + After(lines[1..], startAt)
  }

  function Cons(front: seq<StorageItem>, r: Option<seq<StorageItem>>): Option<seq<StorageItem>> {
    if r.Some? then Some(front + r.value) else None
  }

  /**
   * The responses up to the next call. Indexes already used are passed over; a line without a type ends
   * the walk with the exception of a null reference, here `None`.
   */
  function Walk(lines: seq<CompactLine>, outItems: seq<StorageItem>, used: set<int>): Option<seq<StorageItem>>
    decreases |lines|
  {
    if lines == [] then Some([])
    else
      var item := lines[0];
      if Int32(item.index) in used then Walk(lines[1..], outItems, used)
      else if item.kind.None? then None
      else if IsResponse(item.kind) then
        var outItem := FirstWithIndex(outItems, item.index);
        Cons(if outItem.Some? then [outItem.value] else [], Walk(lines[1..], outItems, used))
      else Some([])
  }

  function Responses(repo: ProtocolRepo, startAt: int, used: set<int>): Option<seq<StorageItem>> {
    Walk(After(SortBy(IndexOfLine, repo.index), startAt), repo.outItems, used)
  }

  lemma {:induction false} ConsTwice(a: seq<StorageItem>, b: seq<StorageItem>, r: Option<seq<StorageItem>>)
    ensures Cons(a, Cons(b, r)) == Cons(a + b, r)
  {
    if r.Some? { assert a + (b + r.value) == a + b + r.value; }
  }

  method ReadResponsesFromScenario(ctx: ProtocolRepo, startAt: int, used: set<int>) returns (r: Option<seq<StorageItem>>)
    ensures r == Responses(ctx, startAt, used)
  {
    var result: seq<StorageItem> := [];
    var items := After(SortBy(IndexOfLine, ctx.index), startAt);
    ghost var whole := Walk(items, ctx.outItems, used);
    assert items[0..] == items && (whole.Some? ==> [] + whole.value == whole.value);
    for k := 0 to |items|
      invariant whole == Cons(result, Walk(items[k..], ctx.outItems, used))
    {
      var item := items[k];
      assert items[k..][0] == item && items[k..][1..] == items[k + 1..];
      if Int32(item.index) in used { continue; }
      if item.kind.None? { return None; }
      if IsResponse(item.kind) {
        var outItem := FirstWithIndex(ctx.outItems, item.index);
        ConsTwice(result, if outItem.Some? then [outItem.value] else [], Walk(items[k + 1..], ctx.outItems, used));
        if outItem.Some? {
          result := result + [outItem.value];
        } else {
          assert result + [] == result;
        }
      } else {
        assert result + [] == result;
        return Some(result);
      }
    }
    assert items[|items|..] == [] && result + [] == result;
    return Some(result);
  }

  /** Some connection waits for the response: the first line with its index has a tag in common with it. */
  predicate IsAwaited(index: int, lines: seq<CompactLine>, contexts: seq<TagMap>) {
    if lines == [] then false
    else if lines[0].index == index then exists c :: c in contexts && Score(lines[0].tags, c) > 0
    else IsAwaited(index, lines[1..], contexts)
  }

  /** Line `i` is the first with the index. */
  predicate IsFirstWith(index: int, lines: seq<CompactLine>, i: int) {
    0 <= i < |lines| && lines[i].index == index && forall j :: 0 <= j < i ==> lines[j].index != index
  }

  /** A response is awaited exactly when the first line with its index and some connection have a tag in common. */
  lemma {:induction false} IsAwaitedIff(index: int, lines: seq<CompactLine>, contexts: seq<TagMap>)
    ensures IsAwaited(index, lines, contexts)
            <==> exists i, c :: IsFirstWith(index, lines, i) && c in contexts && HaveCommonTag(lines[i].tags, c)
    decreases |lines|
  {
    if lines != [] {
      if lines[0].index == index {
        forall c | c in contexts ensures Score(lines[0].tags, c) > 0 <==> HaveCommonTag(lines[0].tags, c) {
          ScoreIsPositiveIff(lines[0].tags, c);
        }
        assert IsFirstWith(index, lines, 0);
      } else {
        IsAwaitedIff(index, lines[1..], contexts);
        forall i ensures IsFirstWith(index, lines, i + 1) <==> IsFirstWith(index, lines[1..], i) {
          FirstIsLater(index, lines, i);
        }
        if i, c :| IsFirstWith(index, lines, i) && c in contexts && HaveCommonTag(lines[i].tags, c) {
          assert IsFirstWith(index, lines[1..], i - 1) && lines[1..][i - 1] == lines[i];
        }
        if i, c :| IsFirstWith(index, lines[1..], i) && c in contexts && HaveCommonTag(lines[1..][i].tags, c) {
          assert IsFirstWith(index, lines, i + 1) && lines[1..][i] == lines[i + 1];
        }
      }
    }
  }

  lemma {:induction false} FirstIsLater(index: int, lines: seq<CompactLine>, i: int)
    requires lines != [] && lines[0].index != index
    ensures IsFirstWith(index, lines, i + 1) <==> IsFirstWith(index, lines[1..], i)
  {
    var rest := lines[1..];
    assert forall j :: 0 <= j < |rest| ==> rest[j] == lines[j + 1];
    if IsFirstWith(index, rest, i) {
      forall j | 0 <= j < i + 1 ensures lines[j].index != index { if j > 0 { assert rest[j - 1] == lines[j]; } }
    }
  }

  /** The responses that are scheduled, out of those found. */
  function Scheduled(responses: seq<StorageItem>, lines: seq<CompactLine>, contexts: seq<TagMap>): seq<StorageItem> {
    if responses == [] then []
    else (if IsAwaited(responses[0].index, lines, contexts) then [responses[0]] else [])
         + Scheduled(responses[1..], lines, contexts)
  }

  function UsedBy(batch: seq<StorageItem>): set<int> { set r | r in batch :: Int32(r.index) }

  // ---------------------------------------------------------------- any index whatever

  /** An unused line that is no response ends the walk: a call, or a line without a type. */
  predicate Ends(line: CompactLine, used: set<int>) { Int32(line.index) !in used && !IsResponse(line.kind) }

  predicate Reached(lines: seq<CompactLine>, k: int, used: set<int>) {
    0 <= k < |lines| && forall j :: 0 <= j < k ==> !Ends(lines[j], used)
  }

  /** Line `k` is reached, is an unused response, and `x` is its item. */
  predicate Yields(lines: seq<CompactLine>, k: int, outItems: seq<StorageItem>, used: set<int>, x: StorageItem) {
    && Reached(lines, k, used) && IsResponse(lines[k].kind) && Int32(lines[k].index) !in used
    && FirstWithIndex(outItems, lines[k].index) == Some(x)
  }

  predicate Throws(lines: seq<CompactLine>, k: int, used: set<int>) {
    Reached(lines, k, used) && Ends(lines[k], used) && lines[k].kind.None?
  }

  lemma {:induction false} ReachedLater(lines: seq<CompactLine>, outItems: seq<StorageItem>, used: set<int>, k: int, x: StorageItem)
    requires lines != [] && !Ends(lines[0], used) && k > 0
    ensures Reached(lines, k, used) <==> Reached(lines[1..], k - 1, used)
    ensures Throws(lines, k, used) <==> Throws(lines[1..], k - 1, used)
    ensures Yields(lines, k, outItems, used, x) <==> Yields(lines[1..], k - 1, outItems, used, x)
  {
    var rest := lines[1..];
    assert forall j :: 0 <= j < |rest| ==> rest[j] == lines[j + 1];
    if Reached(rest, k - 1, used) {
      forall j | 0 <= j < k ensures !Ends(lines[j], used) {
        if j > 0 { assert rest[j - 1] == lines[j]; }
      }
    }
  }

  lemma {:induction false} ThrowsLater(lines: seq<CompactLine>, outItems: seq<StorageItem>, used: set<int>, x: StorageItem)
    requires lines != [] && !Ends(lines[0], used)
    ensures (exists k :: Throws(lines, k, used)) <==> exists k :: Throws(lines[1..], k, used)
  {
    if k :| Throws(lines, k, used) { ReachedLater(lines, outItems, used, k, x); }
    if k :| Throws(lines[1..], k, used) { ReachedLater(lines, outItems, used, k + 1, x); }
  }

  lemma {:induction false} YieldsLater(lines: seq<CompactLine>, outItems: seq<StorageItem>, used: set<int>, x: StorageItem)
    requires lines != [] && !Ends(lines[0], used)
    ensures (exists k :: Yields(lines, k, outItems, used, x))
            <==> Yields(lines, 0, outItems, used, x) || exists k :: Yields(lines[1..], k, outItems, used, x)
  {
    if k :| k > 0 && Yields(lines, k, outItems, used, x) { ReachedLater(lines, outItems, used, k, x); }
    if k :| Yields(lines[1..], k, outItems, used, x) { ReachedLater(lines, outItems, used, k + 1, x); }
  }

  /** The walk over any lines: whether it finds a response, and when it meets a null reference. */
  lemma {:induction false} WalkFinds(lines: seq<CompactLine>, outItems: seq<StorageItem>, used: set<int>, x: StorageItem)
    ensures Walk(lines, outItems, used).None? <==> exists k :: Throws(lines, k, used)
    ensures Walk(lines, outItems, used).Some? ==>
              (x in Walk(lines, outItems, used).value <==> exists k :: Yields(lines, k, outItems, used, x))
    decreases |lines|
  {
    if lines != [] {
      if Ends(lines[0], used) {
        assert Throws(lines, 0, used) <==> lines[0].kind.None?;
        assert forall k :: Reached(lines, k, used) ==> k == 0;
      } else {
        WalkFinds(lines[1..], outItems, used, x);
        ThrowsLater(lines, outItems, used, x);
        YieldsLater(lines, outItems, used, x);
      }
    }
  }

  /**
   * The responses found for a call, whatever the index holds: of the later lines in the order of their
   * indexes, the unused responses before the first unused line that is none; a null reference exactly
   * when that line has no type.
   */
  lemma {:induction false} ResponsesFound(repo: ProtocolRepo, startAt: int, used: set<int>, x: StorageItem)
    ensures var lines := After(SortBy(IndexOfLine, repo.index), startAt); var r := Responses(repo, startAt, used);
            && SortedBy(IndexOfLine, SortBy(IndexOfLine, repo.index))
            && (forall l :: l in lines <==> l in repo.index && startAt < l.index)
            && (r.None? <==> exists k :: Throws(lines, k, used))
            && (r.Some? ==> (x in r.value <==> exists k :: Yields(lines, k, repo.outItems, used, x)))
  {
    SortIs(IndexOfLine, repo.index);
    AfterIs(SortBy(IndexOfLine, repo.index), startAt);
    WalkFinds(After(SortBy(IndexOfLine, repo.index), startAt), repo.outItems, used, x);
  }

  // ---------------------------------------------------------------- calls and the responses after them

  predicate IsCall(line: CompactLine) { line.kind.Some? && !IsResponse(line.kind) }

  /** A recording as the plugin makes it: every line has a type, and its own 32-bit index. */
  predicate IsRecording(lines: seq<CompactLine>) {
    && (forall l :: l in lines ==> l.kind.Some? && Int32(l.index) == l.index)
    && (forall i, j :: 0 <= i < j < |lines| ==> lines[i].index != lines[j].index)
  }

  /** Only responses are ever marked as used here. */
  predicate OnlyResponses(used: set<int>, lines: seq<CompactLine>) {
    forall l :: l in lines && l.index in used ==> IsResponse(l.kind)
  }

  /** No call was recorded between the two indexes. */
  predicate NoCallBetween(lines: seq<CompactLine>, from: int, to: int) {
    forall l :: l in lines && IsCall(l) ==> !(from < l.index < to)
  }

  /** The response `l` follows `startAt` before any other call, is not used, and its item is known. */
  predicate Follows(l: CompactLine, lines: seq<CompactLine>, startAt: int, outItems: seq<StorageItem>, used: set<int>) {
    && l in lines && IsResponse(l.kind) && startAt < l.index && l.index !in used
    && NoCallBetween(lines, startAt, l.index)
    && FirstWithIndex(outItems, l.index).Some?
  }

  predicate Rising(lines: seq<CompactLine>) { forall i, j :: 0 <= i < j < |lines| ==> lines[i].index < lines[j].index }

  lemma {:induction false} WalkIs(lines: seq<CompactLine>, startAt: int, outItems: seq<StorageItem>, used: set<int>)
    requires Rising(lines) && (forall l :: l in lines ==> l.kind.Some? && Int32(l.index) == l.index && startAt < l.index)
    requires OnlyResponses(used, lines)
    ensures Walk(lines, outItems, used).Some?
    ensures forall x :: x in Walk(lines, outItems, used).value
                        <==> exists l :: Follows(l, lines, startAt, outItems, used) && FirstWithIndex(outItems, l.index) == Some(x)
    decreases |lines|
  {
    if lines != [] {
      var first, rest := lines[0], lines[1..];
      assert first in lines && forall l :: l in lines <==> l == first || l in rest;
      assert forall k :: 0 <= k < |rest| ==> rest[k] == lines[k + 1] && first.index < rest[k].index;
      assert forall l :: l in rest ==> first.index < l.index;
      WalkIs(rest, startAt, outItems, used);
      if IsResponse(first.kind) {
        FollowsPastResponse(first, rest, lines, startAt, outItems, used);
      } else {
        forall l ensures !Follows(l, lines, startAt, outItems, used) {
          if l in lines { CallStops(l, first, lines, startAt, outItems, used); }
        }
      }
    }
  }

  /** Nothing from a call on follows an earlier index. */
  lemma {:induction false} CallStops(l: CompactLine, call: CompactLine, lines: seq<CompactLine>, startAt: int,
                  outItems: seq<StorageItem>, used: set<int>)
    requires call in lines && IsCall(call) && startAt < call.index && (l == call || call.index < l.index)
    ensures !Follows(l, lines, startAt, outItems, used)
  {}

  lemma {:induction false} FollowsPastResponse(first: CompactLine, rest: seq<CompactLine>, lines: seq<CompactLine>, startAt: int,
                            outItems: seq<StorageItem>, used: set<int>)
    requires IsResponse(first.kind) && (forall l :: l in lines <==> l == first || l in rest)
    requires startAt < first.index && forall l :: l in rest ==> first.index < l.index
    ensures forall l :: l in rest ==> (Follows(l, lines, startAt, outItems, used) <==> Follows(l, rest, startAt, outItems, used))
    ensures Follows(first, lines, startAt, outItems, used)
            <==> first.index !in used && FirstWithIndex(outItems, first.index).Some?
    ensures first !in rest
  {}

  lemma {:induction false} AfterIs(lines: seq<CompactLine>, startAt: int)
    ensures forall l :: l in After(lines, startAt) <==> l in lines && startAt < l.index
    ensures Rising(lines) ==> Rising(After(lines, startAt))
    decreases |lines|
  {
    if lines != [] {
      var rest := After(lines[1..], startAt);
      AfterIs(lines[1..], startAt);
      assert forall l :: l in lines <==> l == lines[0] || l in lines[1..];
      if Rising(lines) {
        forall k | 0 <= k < |rest| ensures lines[0].index < rest[k].index {
          assert rest[k] in lines[1..];
          var j :| 0 <= j < |lines| - 1 && lines[1..][j] == rest[k];
          assert lines[j + 1] == rest[k];
        }
      }
    }
  }

  /** Lines with their own indexes rise once they are sorted by them. */
  lemma {:induction false} SortedRise(lines: seq<CompactLine>)
    requires IsRecording(lines)
    ensures Rising(SortBy(IndexOfLine, lines))
    ensures forall l :: l in SortBy(IndexOfLine, lines) <==> l in lines
  {
    var sorted := SortBy(IndexOfLine, lines);
    SortIs(IndexOfLine, lines);
    forall i, j | 0 <= i < j < |sorted| ensures sorted[i].index < sorted[j].index {
      if sorted[i].index == sorted[j].index { TwiceTheSame(lines, sorted, i, j); }
      assert IndexOfLine(sorted[i]) <= IndexOfLine(sorted[j]);
    }
  }

  lemma {:induction false} CountedTwice<T>(xs: seq<T>, i: nat, j: nat)
    requires i < j < |xs| && xs[i] == xs[j]
    ensures multiset(xs)[xs[i]] >= 2
  {
    assert xs == xs[..i] + [xs[i]] + xs[i + 1..j] + [xs[j]] + xs[j + 1..];
  }

  lemma {:induction false} TwiceTheSame(lines: seq<CompactLine>, sorted: seq<CompactLine>, i: nat, j: nat)
    requires multiset(lines) == multiset(sorted) && i < j < |sorted| && sorted[i].index == sorted[j].index
    ensures exists a, b :: 0 <= a < b < |lines| && lines[a].index == lines[b].index
  {
    var x, y := sorted[i], sorted[j];
    assert x in multiset(lines) && y in multiset(lines);
    var a :| 0 <= a < |lines| && lines[a] == x;
    if x == y {
      CountedTwice(sorted, i, j);
      assert lines == lines[..a] + [x] + lines[a + 1..];
      assert x in multiset(lines[..a] + lines[a + 1..]);
      var c :| 0 <= c < |lines[..a] + lines[a + 1..]| && (lines[..a] + lines[a + 1..])[c] == x;
      if c < a { assert lines[c] == x; } else { assert lines[c + 1] == x; }
    } else {
      var b :| 0 <= b < |lines| && lines[b] == y;
      assert a != b;
    }
  }

  /**
   * The responses found for a call are exactly the unused ones recorded after it and before the next
   * call, wherever the lines stand in the index.
   */
  lemma {:induction false} ResponsesAre(repo: ProtocolRepo, startAt: int, used: set<int>)
    requires IsRecording(repo.index) && OnlyResponses(used, repo.index)
    ensures Responses(repo, startAt, used).Some?
    ensures forall x :: x in Responses(repo, startAt, used).value
                        <==> exists l :: Follows(l, repo.index, startAt, repo.outItems, used)
                                         && FirstWithIndex(repo.outItems, l.index) == Some(x)
  {
    var sorted := SortBy(IndexOfLine, repo.index);
    SortedRise(repo.index);
    AfterIs(sorted, startAt);
    WalkIs(After(sorted, startAt), startAt, repo.outItems, used);
    forall l ensures Follows(l, After(sorted, startAt), startAt, repo.outItems, used)
                     <==> Follows(l, repo.index, startAt, repo.outItems, used) {}
  }

  // ---------------------------------------------------------------- whole runs

  predicate DistinctIndexes(items: seq<StorageItem>) {
    forall i, j :: 0 <= i < j < |items| ==> items[i].index != items[j].index
  }

  predicate RisingItems(items: seq<StorageItem>) {
    forall i, j :: 0 <= i < j < |items| ==> items[i].index < items[j].index
  }

  lemma {:induction false} WalkRises(lines: seq<CompactLine>, outItems: seq<StorageItem>, used: set<int>, from: int)
    requires Rising(lines) && (forall l :: l in lines ==> from < l.index) && Walk(lines, outItems, used).Some?
    ensures RisingItems(Walk(lines, outItems, used).value)
    ensures forall x :: x in Walk(lines, outItems, used).value ==> from < x.index
    decreases |lines|
  {
    if lines != [] {
      var first, rest := lines[0], lines[1..];
      assert first in lines;
      forall l | l in rest ensures first.index < l.index && from < l.index {
        var k :| 0 <= k < |rest| && rest[k] == l;
        assert lines[k + 1] == l;
      }
      if Int32(first.index) in used {
        WalkRises(rest, outItems, used, from);
      } else if IsResponse(first.kind) {
        WalkRises(rest, outItems, used, first.index);
        var tail := Walk(rest, outItems, used).value;
        assert forall k :: 0 <= k < |tail| ==> tail[k] in tail;
      }
    }
  }

  lemma {:induction false} SortedDistinct(items: seq<StorageItem>)
    requires RisingItems(items)
    ensures DistinctIndexes(SortBy(ItemTime, items))
  {
    var sorted := SortBy(ItemTime, items);
    SortIs(ItemTime, items);
    forall i, j | 0 <= i < j < |sorted| ensures sorted[i].index != sorted[j].index {
      if sorted[i] == sorted[j] {
        NoDuplicates(items, sorted[i]);
        CountedTwice(sorted, i, j);
      } else {
        assert sorted[i] in items && sorted[j] in items;
      }
    }
  }

  lemma {:induction false} NoDuplicates(items: seq<StorageItem>, x: StorageItem)
    requires RisingItems(items)
    ensures multiset(items)[x] <= 1
    decreases |items|
  {
    if items != [] {
      NoDuplicates(items[1..], x);
      assert items == [items[0]] + items[1..];
      forall k | 0 <= k < |items| - 1 ensures items[1..][k] != items[0] {
        assert items[1..][k] == items[k + 1];
      }
    }
  }

  lemma {:induction false} ScheduledAre(responses: seq<StorageItem>, lines: seq<CompactLine>, contexts: seq<TagMap>)
    ensures forall x :: x in Scheduled(responses, lines, contexts)
                        <==> x in responses && IsAwaited(x.index, lines, contexts)
    decreases |responses|
  {
    if responses != [] {
      ScheduledAre(responses[1..], lines, contexts);
      assert forall x :: x in responses <==> x == responses[0] || x in responses[1..];
    }
  }

  /** By time, and responses of one time in the order they were recorded in. */
  predicate InOrder(items: seq<StorageItem>) {
    && DistinctIndexes(items)
    && forall i, j :: 0 <= i < j < |items| ==>
         items[i].timestamp < items[j].timestamp || (items[i].timestamp == items[j].timestamp && items[i].index < items[j].index)
  }

  function ItemIndex(item: StorageItem): int { item.index }

  lemma {:induction false} SortedInOrder(items: seq<StorageItem>)
    requires RisingItems(items)
    ensures InOrder(SortBy(ItemTime, items))
  {
    SortedDistinct(items);
    SortOfRising(ItemTime, ItemIndex, items);
    var sorted := SortBy(ItemTime, items);
    forall i, j | 0 <= i < j < |sorted|
      ensures sorted[i].timestamp < sorted[j].timestamp
              || (sorted[i].timestamp == sorted[j].timestamp && sorted[i].index < sorted[j].index)
    {
      assert ItemTime(sorted[i]) == sorted[i].timestamp && ItemTime(sorted[j]) == sorted[j].timestamp;
    }
  }

  predicate ComesFirst(x: StorageItem, y: StorageItem) {
    x.index != y.index && (x.timestamp < y.timestamp || (x.timestamp == y.timestamp && x.index < y.index))
  }

  lemma {:induction false} HeadBefore(items: seq<StorageItem>, x: StorageItem)
    requires items != [] && InOrder(items) && x in items[1..]
    ensures ComesFirst(items[0], x)
  {
    var j :| 0 <= j < |items| - 1 && items[1..][j] == x;
    assert items[j + 1] == x;
  }

  lemma {:induction false} ConsInOrder(first: StorageItem, tail: seq<StorageItem>)
    requires InOrder(tail) && forall x :: x in tail ==> ComesFirst(first, x)
    ensures InOrder([first] + tail)
  {
    var all := [first] + tail;
    assert forall k :: 1 <= k < |all| ==> all[k] == tail[k - 1] && all[k] in tail;
  }

  lemma {:induction false} TailInOrder(items: seq<StorageItem>)
    requires items != [] && InOrder(items)
    ensures InOrder(items[1..])
  {
    assert forall k :: 0 <= k < |items| - 1 ==> items[1..][k] == items[k + 1];
  }

  lemma {:induction false} ScheduledInOrder(responses: seq<StorageItem>, lines: seq<CompactLine>, contexts: seq<TagMap>)
    requires InOrder(responses)
    ensures InOrder(Scheduled(responses, lines, contexts))
    decreases |responses|
  {
    if responses != [] {
      var tail := Scheduled(responses[1..], lines, contexts);
      TailInOrder(responses);
      ScheduledInOrder(responses[1..], lines, contexts);
      ScheduledAre(responses[1..], lines, contexts);
      forall x | x in tail ensures ComesFirst(responses[0], x) { HeadBefore(responses, x); }
      ConsInOrder(responses[0], tail);
      assert [] + tail == tail;
    }
  }

  /** One replayed call: where its responses start, and the connections there are. */
  datatype Replayed = Replayed(startAt: int, contexts: seq<TagMap>)

  /** What a replayed call schedules; `lines` are the lines the plugin holds. */
  function Batch(repo: ProtocolRepo, lines: seq<CompactLine>, call: Replayed, used: set<int>): seq<StorageItem> {
    var responses := Responses(repo, call.startAt, used);
    if responses.None? then [] else Scheduled(SortBy(ItemTime, responses.value), lines, call.contexts)
  }

  /** Everything scheduled over a run of replayed calls, in order. */
  function AllScheduled(repo: ProtocolRepo, lines: seq<CompactLine>, calls: seq<Replayed>, used: set<int>): seq<StorageItem>
    decreases |calls|
  {
    if calls == [] then []
    else
      var batch := Batch(repo, lines, calls[0], used);
      batch + AllScheduled(repo, lines, calls[1..], used + UsedBy(batch))
  }

  /** The item of a response is scheduled for a call it follows. */
  ghost predicate IsResponseTo(x: StorageItem, repo: ProtocolRepo, call: Replayed, used: set<int>) {
    exists l :: Follows(l, repo.index, call.startAt, repo.outItems, used) && FirstWithIndex(repo.outItems, l.index) == Some(x)
  }

  lemma {:induction false} FoundAre(repo: ProtocolRepo, call: Replayed, used: set<int>)
    requires IsRecording(repo.index) && OnlyResponses(used, repo.index)
    ensures Responses(repo, call.startAt, used).Some?
    ensures var sorted := SortBy(ItemTime, Responses(repo, call.startAt, used).value);
            && InOrder(sorted)
            && forall x :: x in sorted <==> IsResponseTo(x, repo, call, used)
  {
    ResponsesAre(repo, call.startAt, used);
    var found := Responses(repo, call.startAt, used).value;
    var sorted := SortBy(IndexOfLine, repo.index);
    SortedRise(repo.index);
    AfterIs(sorted, call.startAt);
    WalkRises(After(sorted, call.startAt), repo.outItems, used, call.startAt);
    SortedInOrder(found);
    SortIs(ItemTime, found);
  }

  /**
   * A batch is in the order of time, and of recording among responses of one time, and holds exactly the
   * responses to the call that are awaited.
   */
  lemma {:induction false} BatchIs(repo: ProtocolRepo, lines: seq<CompactLine>, call: Replayed, used: set<int>)
    requires IsRecording(repo.index) && OnlyResponses(used, repo.index)
    ensures var batch := Batch(repo, lines, call, used);
            && DistinctIndexes(batch)
            && (forall i, j :: 0 <= i < j < |batch| ==>
                  batch[i].timestamp < batch[j].timestamp || (batch[i].timestamp == batch[j].timestamp && batch[i].index < batch[j].index))
            && forall x :: x in batch <==> IsResponseTo(x, repo, call, used) && IsAwaited(x.index, lines, call.contexts)
  {
    FoundAre(repo, call, used);
    ScheduledAre(SortBy(ItemTime, Responses(repo, call.startAt, used).value), lines, call.contexts);
    ScheduledInOrder(SortBy(ItemTime, Responses(repo, call.startAt, used).value), lines, call.contexts);
  }

  lemma {:induction false} BatchIsNew(repo: ProtocolRepo, lines: seq<CompactLine>, call: Replayed, used: set<int>)
    requires IsRecording(repo.index) && OnlyResponses(used, repo.index)
    ensures var batch := Batch(repo, lines, call, used);
            && DistinctIndexes(batch)
            && (forall x :: x in batch ==> IsResponseTo(x, repo, call, used))
            && (forall x :: x in batch ==> x.index !in used && Int32(x.index) == x.index)
            && OnlyResponses(used + UsedBy(batch), repo.index)
  {
    BatchIs(repo, lines, call, used);
    BatchMarksResponses(repo, lines, call, used);
    forall x | IsResponseTo(x, repo, call, used) ensures x.index !in used && Int32(x.index) == x.index {
      ResponseIndex(x, repo, call, used);
    }
  }

  lemma {:induction false} ResponseIndex(x: StorageItem, repo: ProtocolRepo, call: Replayed, used: set<int>)
    requires IsRecording(repo.index) && IsResponseTo(x, repo, call, used)
    ensures x.index !in used && Int32(x.index) == x.index
  {
    var l :| Follows(l, repo.index, call.startAt, repo.outItems, used) && FirstWithIndex(repo.outItems, l.index) == Some(x);
    assert x.index == l.index;
  }

  lemma {:induction false} BatchMarksResponses(repo: ProtocolRepo, lines: seq<CompactLine>, call: Replayed, used: set<int>)
    requires IsRecording(repo.index) && OnlyResponses(used, repo.index)
    requires forall x :: x in Batch(repo, lines, call, used) ==> IsResponseTo(x, repo, call, used)
    ensures OnlyResponses(used + UsedBy(Batch(repo, lines, call, used)), repo.index)
  {
    var batch := Batch(repo, lines, call, used);
    forall l | l in repo.index && l.index in used + UsedBy(batch) ensures IsResponse(l.kind) {
      if l.index !in used {
        var x :| x in batch && Int32(x.index) == l.index;
        var m :| Follows(m, repo.index, call.startAt, repo.outItems, used) && FirstWithIndex(repo.outItems, m.index) == Some(x);
        assert m.index == l.index;
        SameIndexSameLine(repo.index, l, m);
      }
    }
  }

  lemma {:induction false} SameIndexSameLine(lines: seq<CompactLine>, l: CompactLine, m: CompactLine)
    requires IsRecording(lines) && l in lines && m in lines && l.index == m.index
    ensures l == m
  {
    var i :| 0 <= i < |lines| && lines[i] == l;
    var j :| 0 <= j < |lines| && lines[j] == m;
    assert i == j;
  }

  /**
   * Over any run of replayed calls no response is scheduled twice, and each one scheduled follows some
   * replayed call with no other call recorded between the two.
   */
  lemma {:induction false} ScheduledAtMostOnce(repo: ProtocolRepo, lines: seq<CompactLine>, calls: seq<Replayed>, used: set<int>)
    requires IsRecording(repo.index) && OnlyResponses(used, repo.index)
    ensures var all := AllScheduled(repo, lines, calls, used);
            && DistinctIndexes(all)
            && (forall x :: x in all ==> x.index !in used)
            && (forall x :: x in all ==> exists c :: c in calls && IsResponseTo(x, repo, c, {}))
    decreases |calls|
  {
    if calls != [] {
      var batch := Batch(repo, lines, calls[0], used);
      var rest := AllScheduled(repo, lines, calls[1..], used + UsedBy(batch));
      BatchIsNew(repo, lines, calls[0], used);
      ScheduledAtMostOnce(repo, lines, calls[1..], used + UsedBy(batch));
      forall i, j | 0 <= i < |batch| && 0 <= j < |rest| ensures batch[i].index != rest[j].index {
        assert batch[i] in batch && rest[j] in rest;
        assert Int32(batch[i].index) in UsedBy(batch);
      }
      forall x | x in batch ensures IsResponseTo(x, repo, calls[0], {}) {
        var l :| Follows(l, repo.index, calls[0].startAt, repo.outItems, used) && FirstWithIndex(repo.outItems, l.index) == Some(x);
        assert Follows(l, repo.index, calls[0].startAt, repo.outItems, {});
      }
      forall x | x in rest ensures exists c :: c in calls && IsResponseTo(x, repo, c, {}) {
        var c :| c in calls[1..] && IsResponseTo(x, repo, c, {});
        assert c in calls;
      }
    }
  }

  // ---------------------------------------------------------------- one call for each response

  /** `c` is the last call recorded before `l`. */
  predicate IsLastCallBefore(c: CompactLine, l: CompactLine, lines: seq<CompactLine>) {
    && c in lines && IsCall(c) && c.index < l.index
    && forall d :: d in lines && IsCall(d) && d.index < l.index ==> d.index <= c.index
  }

  /** A response follows a call of the recording exactly when that is the last call before it. */
  lemma {:induction false} FollowsIffLastCall(c: CompactLine, l: CompactLine, lines: seq<CompactLine>, outItems: seq<StorageItem>)
    requires c in lines && IsCall(c)
    requires l in lines && IsResponse(l.kind) && FirstWithIndex(outItems, l.index).Some?
    ensures Follows(l, lines, c.index, outItems, {}) <==> IsLastCallBefore(c, l, lines)
  {
    if Follows(l, lines, c.index, outItems, {}) {
      forall d | d in lines && IsCall(d) && d.index < l.index ensures d.index <= c.index {}
    }
  }

  /** The stretches of different calls do not meet. */
  lemma {:induction false} LastCallIsUnique(c: CompactLine, d: CompactLine, l: CompactLine, lines: seq<CompactLine>)
    requires IsRecording(lines) && IsLastCallBefore(c, l, lines) && IsLastCallBefore(d, l, lines)
    ensures c == d
  {
    SameIndexSameLine(lines, c, d);
  }

  /** Together they cover every line recorded after the first call. */
  lemma {:induction false} LastCallExists(l: CompactLine, lines: seq<CompactLine>, first: CompactLine)
    requires first in lines && IsCall(first) && first.index < l.index
    ensures exists c :: IsLastCallBefore(c, l, lines)
    decreases |lines|
  {
    var head, rest := lines[0], lines[1..];
    assert forall x :: x in lines <==> x == head || x in rest;
    if d :| d in rest && IsCall(d) && d.index < l.index {
      LastCallExists(l, rest, d);
      var c :| IsLastCallBefore(c, l, rest);
      if IsCall(head) && head.index < l.index && c.index < head.index {
        assert IsLastCallBefore(head, l, lines);
      } else {
        assert IsLastCallBefore(c, l, lines);
      }
    } else {
      assert IsLastCallBefore(first, l, lines);
    }
  }
}
