/** Recording followed by replay: what was recorded is what is loaded, and ids are never used twice. */
module RecordReplay {
  import opened Wrappers
  import opened JavaInt
  import opened Text
  import opened PaddedNames
  import opened FileNames
  import opened Sorting
  import opened Storage
  import opened Recording

  /** Ids of ten digits, and instance names without an extension inside. */
  predicate IsGood(w: LineToWrite) { IsOrdinaryId(w.id) && !Contains(w.instanceId, EXTENSION) }

  ghost predicate IsItemFile(name: string, file: File) {
    exists id: nat, other: string ::
      && IsOrdinaryId(id) && !Contains(other, EXTENSION) && name == ItemName(id, other)
      && file.ItemFile? && file.item.index == id
  }

  ghost predicate IsIndexFile(name: string, file: File) {
    file.IndexFile? && exists other: string :: name == IndexName(other)
  }

  /** Every file is a recording under its own id, or an index. */
  ghost predicate WellNamed(files: map<string, File>) {
    forall name :: name in files ==> IsItemFile(name, files[name]) || IsIndexFile(name, files[name])
  }

  predicate AllGood(writes: seq<Option<LineToWrite>>) {
    forall i :: 0 <= i < |writes| && writes[i].Some? ==> IsGood(writes[i].value)
  }

  // ---------------------------------------------------------------- what replay loads

  /** The recording of an instance under an id. */
  function Recorded(files: map<string, File>, instanceId: string, id: int): Option<StorageItem> {
    var name := ItemName(id, instanceId);
    if name in files && files[name].ItemFile? then Some(files[name].item) else None
  }

  /** Exactly the instance's own recordings pass the file name filter. */
  lemma {:induction false} ReadIffOwn(files: map<string, File>, name: string, instanceId: string)
    requires WellNamed(files) && name in files
    ensures IsRead(name, instanceId) && files[name].ItemFile?
            <==> exists id: nat :: IsOrdinaryId(id) && name == ItemName(id, instanceId)
    ensures IsRead(name, instanceId) && files[name].ItemFile?
            ==> IsOrdinaryId(files[name].item.index) && name == ItemName(files[name].item.index, instanceId)
  {
    if IsItemFile(name, files[name]) {
      var id: nat, other: string :|
        && IsOrdinaryId(id) && !Contains(other, EXTENSION) && name == ItemName(id, other)
        && files[name].ItemFile? && files[name].item.index == id;
      if other == instanceId {
        OwnItemIsRead(id, instanceId);
      } else {
        ForeignItemIsSkipped(id, other, instanceId);
        forall k: nat | IsOrdinaryId(k) ensures name != ItemName(k, instanceId) {
          ItemNamesDiffer(id, other, k, instanceId);
        }
      }
    } else {
      var other: string :| name == IndexName(other);
      IndexIsNotRead(other, instanceId);
      forall k: nat ensures name != ItemName(k, instanceId) { ItemIsNoIndex(k, instanceId, other); }
    }
  }

  predicate Ascending(items: seq<StorageItem>) {
    forall i, j :: 0 <= i < j < |items| ==> items[i].index < items[j].index
  }

  /** `x` is the recording of its id, under a listed name. */
  predicate Belongs(x: StorageItem, listing: seq<string>, files: map<string, File>, instanceId: string) {
    && x.index >= 0 && IsOrdinaryId(x.index)
    && ItemName(x.index, instanceId) in listing
    && Recorded(files, instanceId, x.index) == Some(x)
  }

  lemma {:induction false} ItemsBelong(listing: seq<string>, files: map<string, File>, instanceId: string)
    requires WellNamed(files) && forall n :: n in listing ==> n in files
    ensures forall x :: x in ItemsOf(listing, files, instanceId) ==> Belongs(x, listing, files, instanceId)
    decreases |listing|
  {
    if listing != [] {
      var name, rest := listing[0], listing[1..];
      ItemsBelong(rest, files, instanceId);
      ReadIffOwn(files, name, instanceId);
    }
  }

  lemma {:induction false} ItemsComplete(listing: seq<string>, files: map<string, File>, instanceId: string, id: nat)
    requires WellNamed(files) && forall n :: n in listing ==> n in files
    requires IsOrdinaryId(id) && ItemName(id, instanceId) in listing
    ensures Recorded(files, instanceId, id).Some?
    ensures Recorded(files, instanceId, id).value in ItemsOf(listing, files, instanceId)
    decreases |listing|
  {
    var name, rest := listing[0], listing[1..];
    if name == ItemName(id, instanceId) {
      ReadIffOwn(files, name, instanceId);
    } else {
      ItemsComplete(rest, files, instanceId, id);
    }
  }

  /** A sorted listing yields the instance's recordings in the order of their ids. */
  lemma {:induction false} ItemsAscend(listing: seq<string>, files: map<string, File>, instanceId: string)
    requires WellNamed(files) && forall n :: n in listing ==> n in files
    requires forall i, j :: 0 <= i < j < |listing| ==> Before(listing[i], listing[j])
    ensures Ascending(ItemsOf(listing, files, instanceId))
    decreases |listing|
  {
    if listing != [] {
      var name, rest := listing[0], listing[1..];
      var tail := ItemsOf(rest, files, instanceId);
      ItemsAscend(rest, files, instanceId);
      ItemsBelong(rest, files, instanceId);
      ReadIffOwn(files, name, instanceId);
      if IsRead(name, instanceId) && files[name].ItemFile? {
        forall x | x in tail ensures files[name].item.index < x.index {
          EarlierName(listing, files[name].item.index, x.index, instanceId);
        }
      }
    }
  }

  lemma {:induction false} EarlierName(listing: seq<string>, a: nat, b: nat, instanceId: string)
    requires listing != [] && IsOrdinaryId(a) && IsOrdinaryId(b)
    requires forall i, j :: 0 <= i < j < |listing| ==> Before(listing[i], listing[j])
    requires listing[0] == ItemName(a, instanceId) && ItemName(b, instanceId) in listing[1..]
    ensures a < b
  {
    var k :| 0 <= k < |listing| - 1 && listing[1..][k] == ItemName(b, instanceId);
    assert Before(listing[0], listing[k + 1]);
    ItemNamesSortAsIds(a, b, instanceId);
  }

  // ---------------------------------------------------------------- what the memory finds

  lemma {:induction false} FirstOfAppend(items: seq<StorageItem>, item: StorageItem, id: int)
    ensures FirstWithIndex(items + [item], id)
            == if FirstWithIndex(items, id).Some? then FirstWithIndex(items, id)
               else if item.index == id then Some(item) else None
    decreases |items|
  {
    if items == [] {
      assert items + [item] == [item] && [item][1..] == [];
    } else {
      assert (items + [item])[1..] == items[1..] + [item];
      FirstOfAppend(items[1..], item, id);
    }
  }

  lemma {:induction false} LookupRemembered(repo: ProtocolRepo, item: StorageItem, id: int)
    ensures item.index != id || item.kind.None? ==> Lookup(Remembered(repo, item), id) == Lookup(repo, id)
    ensures item.index == id && item.kind.Some? && Lookup(repo, id) == None ==> Lookup(Remembered(repo, item), id) == Some(item)
  {
    FirstOfAppend(repo.outItems, item, id);
  }

  lemma {:induction false} RememberMisses(repo: ProtocolRepo, items: seq<StorageItem>, id: int)
    requires forall x :: x in items && x.index == id ==> x.kind.None?
    ensures Lookup(Remember(repo, items), id) == Lookup(repo, id)
    decreases |items|
  {
    if items != [] {
      LookupRemembered(repo, items[0], id);
      RememberMisses(Remembered(repo, items[0]), items[1..], id);
    }
  }

  lemma {:induction false} RememberFinds(repo: ProtocolRepo, items: seq<StorageItem>, x: StorageItem)
    requires Ascending(items) && x in items && x.kind.Some? && Lookup(repo, x.index) == None
    ensures Lookup(Remember(repo, items), x.index) == Some(x)
    decreases |items|
  {
    var next, rest := Remembered(repo, items[0]), items[1..];
    LookupRemembered(repo, items[0], x.index);
    if items[0] == x {
      RememberMisses(next, rest, x.index);
    } else {
      var k :| 0 < k < |items| && items[k] == x;
      assert items[0].index < items[k].index;
      assert rest[k - 1] == x;
      RememberFinds(next, rest, x);
    }
  }

  /** What replay should find under an id: the recording, if it has a type. */
  function Expected(files: map<string, File>, instanceId: string, id: nat): Option<StorageItem> {
    var item := Recorded(files, instanceId, id);
    if HasType(item) then item else None
  }

  predicate HasType(item: Option<StorageItem>) { item.Some? && item.value.kind.Some? }

  lemma {:induction false} LoadedFinds(files: map<string, File>, instanceId: string, id: nat)
    requires WellNamed(files) && IsOrdinaryId(id)
    ensures Lookup(Remember(NEW_REPO, AllItems(files, instanceId)), id) == Expected(files, instanceId, id)
  {
    var listing := Sorted(files.Keys);
    var items := AllItems(files, instanceId);
    ItemsBelong(listing, files, instanceId);
    ItemsAscend(listing, files, instanceId);
    if Expected(files, instanceId, id).Some? {
      ItemsComplete(listing, files, instanceId, id);
      var x := Recorded(files, instanceId, id).value;
      assert Belongs(x, listing, files, instanceId);
      assert x.index == id by { SameRecording(files, instanceId, id, x.index); }
      RememberFinds(NEW_REPO, items, x);
    } else {
      RememberMisses(NEW_REPO, items, id);
    }
  }

  lemma {:induction false} RememberParts(repo: ProtocolRepo, items: seq<StorageItem>, id: int)
    ensures (forall x :: x in items && x.index == id ==> !IsResponse(x.kind)) ==>
              FirstWithIndex(Remember(repo, items).outItems, id) == FirstWithIndex(repo.outItems, id)
    ensures (forall x :: x in items && x.index == id ==> x.kind.None? || IsResponse(x.kind)) ==>
              (id in Remember(repo, items).inMemoryDb <==> id in repo.inMemoryDb)
    decreases |items|
  {
    if items != [] {
      FirstOfAppend(repo.outItems, items[0], id);
      RememberParts(Remembered(repo, items[0]), items[1..], id);
    }
  }

  /** Responses are found among the out items, everything else among the others. */
  lemma {:induction false} LoadedApart(files: map<string, File>, instanceId: string, id: nat)
    requires WellNamed(files) && IsOrdinaryId(id)
    ensures FirstWithIndex(Remember(NEW_REPO, AllItems(files, instanceId)).outItems, id)
            == var x := Expected(files, instanceId, id); if x.Some? && IsResponse(x.value.kind) then x else None
  {
    var items := AllItems(files, instanceId);
    ItemsBelong(Sorted(files.Keys), files, instanceId);
    assert forall x :: x in items && x.index == id ==> Recorded(files, instanceId, id) == Some(x);
    RememberParts(NEW_REPO, items, id);
    LoadedFinds(files, instanceId, id);
  }

  lemma {:induction false} SameRecording(files: map<string, File>, instanceId: string, id: nat, k: nat)
    requires WellNamed(files) && IsOrdinaryId(id) && Recorded(files, instanceId, id).Some?
    requires Recorded(files, instanceId, id).value.index == k
    ensures k == id
  {
    var name := ItemName(id, instanceId);
    OwnItemIsRead(id, instanceId);
    ReadIffOwn(files, name, instanceId);
    ItemNamesDiffer(id, instanceId, k, instanceId);
  }

  /**
   * Starting to replay a closed instance loads its index, sorted by timestamp, lines of one time as they
   * stood, and under every id exactly what was recorded there, the responses apart from the rest; nothing
   * of another instance gets in.
   */
  lemma {:induction false} ReplayLoadsRecordings(store: Store, instanceId: string)
    requires instanceId !in store.repos && WellNamed(store.files)
    ensures var v := OpenedForReplay(store, instanceId);
            && instanceId in v.repos
            && v.repos[instanceId].index == SortByTimestamp(LoadedIndex(store.files, instanceId))
            && IsInTimeOrder(v.repos[instanceId].index, LoadedIndex(store.files, instanceId))
            && forall id: nat :: IsOrdinaryId(id) ==>
                 var x := Expected(store.files, instanceId, id);
                 && ReadById(v, instanceId, id) == x
                 && FirstWithIndex(v.repos[instanceId].outItems, id) == if x.Some? && IsResponse(x.value.kind) then x else None
  {
    SortsByTime(LoadedIndex(store.files, instanceId));
    var v := OpenedForReplay(store, instanceId);
    assert NEW_REPO.(inMemoryDb := map[]) == NEW_REPO;
    var filled := Remember(NEW_REPO, AllItems(store.files, instanceId));
    assert v.repos[instanceId].inMemoryDb == filled.inMemoryDb && v.repos[instanceId].outItems == filled.outItems;
    forall id: nat | IsOrdinaryId(id)
      ensures var x := Expected(store.files, instanceId, id);
              && ReadById(v, instanceId, id) == x
              && FirstWithIndex(v.repos[instanceId].outItems, id) == if x.Some? && IsResponse(x.value.kind) then x else None
    {
      LoadedFinds(store.files, instanceId, id);
      LoadedApart(store.files, instanceId, id);
    }
  }

  // ---------------------------------------------------------------- one replay after another

  lemma {:induction false} ClosedStays(s: System, steps: seq<Step>, t: System, instanceId: string)
    requires Leads(s, steps, t) && Undisturbed(Consumed(s, steps), instanceId) && instanceId !in s.store.repos
    ensures instanceId !in t.store.repos
    decreases |steps|
  {
    if steps != [] {
      var n := Next(s, steps[0]);
      UndisturbedParts(Taken(s, steps[0]), Consumed(n, steps[1..]), instanceId);
      if steps[0].Consume? { assert Taken(s, steps[0])[0] == s.queue[0]; }
      ClosedStays(n, steps[1..], t, instanceId);
    }
  }

  /**
   * A replay that has ended leaves nothing behind: whatever else goes on before the next one of the same
   * instance, that one loads what is on disk when it starts.
   */
  lemma {:induction false} NextReplayLoadsAnew(s: System, steps: seq<Step>, t: System, instanceId: string)
    requires s.queue != [] && s.queue[0] == EndPlay(instanceId) && Leads(Next(s, Consume), steps, t)
    requires Undisturbed(Consumed(Next(s, Consume), steps), instanceId)
    requires t.queue != [] && t.queue[0] == StartPlay(instanceId) && WellNamed(t.store.files)
    ensures Next(s, Consume).store.files == s.store.files && Next(s, Consume).store.tasks == s.store.tasks
    ensures forall other :: other != instanceId && other in s.store.repos ==>
              other in Next(s, Consume).store.repos && Next(s, Consume).store.repos[other] == s.store.repos[other]
    ensures instanceId !in t.store.repos
    ensures var v := Next(t, Consume).store;
            && instanceId in v.repos
            && IsInTimeOrder(v.repos[instanceId].index, LoadedIndex(t.store.files, instanceId))
            && forall id: nat :: IsOrdinaryId(id) ==> ReadById(v, instanceId, id) == Expected(t.store.files, instanceId, id)
  {
    ClosedStays(Next(s, Consume), steps, t, instanceId);
    ReplayLoadsRecordings(t.store, instanceId);
  }

  // ---------------------------------------------------------------- from the recording to the replay

  /** No other write carries the id of `w` for its instance. */
  predicate OwnsId(w: LineToWrite, writes: seq<Option<LineToWrite>>) {
    forall i :: 0 <= i < |writes| && writes[i].Some?
      ==> (writes[i].value.instanceId == w.instanceId && writes[i].value.id == w.id ==> writes[i].value == w)
  }

  /** The writes that are still to be run: those waiting in the executor, and those the run will queue there. */
  ghost function Pending(s: System, steps: seq<Step>): seq<Option<LineToWrite>> {
    s.store.tasks + Writes(Consumed(s, steps))
  }

  lemma {:induction false} PendingAfter(s: System, steps: seq<Step>)
    requires steps != [] && Enabled(s, steps[0])
    ensures var rest := Pending(Next(s, steps[0]), steps[1..]);
            Pending(s, steps) == if steps[0].RunTask? then [s.store.tasks[0]] + rest else rest
  {
    var n := Next(s, steps[0]);
    var first, later := Taken(s, steps[0]), Consumed(n, steps[1..]);
    WritesAppend(first, later);
    if steps[0].Consume? { CountOfHandled(s.store, s.queue[0]); }
    PendingMoves(s.store.tasks, Writes(first), Writes(later), n.store.tasks, steps[0].RunTask?);
  }

  lemma {:induction false} PendingMoves(tasks: seq<Option<LineToWrite>>, first: seq<Option<LineToWrite>>, later: seq<Option<LineToWrite>>,
                     next: seq<Option<LineToWrite>>, run: bool)
    requires if run then tasks != [] && first == [] && next == tasks[1..] else next == tasks + first
    ensures tasks + (first + later) == if run then [tasks[0]] + (next + later) else next + later
  {}

  /** The item a write leaves on disk. */
  function ItemOf(w: LineToWrite): Option<StorageItem> {
    if w.item.None? then None else Some(w.item.value.(index := w.id))
  }

  /** The write `w` is pending once and has no file yet, or it is done and its item is on disk. */
  predicate Settled(files: map<string, File>, pending: seq<Option<LineToWrite>>, w: LineToWrite) {
    && multiset(pending)[Some(w)] <= 1
    && Recorded(files, w.instanceId, w.id) == if Some(w) in pending then None else ItemOf(w)
  }

  /** The names on disk and among the pending writes are good, and `w` is on its way. */
  ghost predicate OnItsWay(files: map<string, File>, pending: seq<Option<LineToWrite>>, w: LineToWrite) {
    WellNamed(files) && AllGood(pending) && OwnsId(w, pending) && IsOrdinaryId(w.id) && Settled(files, pending, w)
  }

  lemma {:induction false} TaskKeepsNames(store: Store)
    requires WellNamed(store.files) && store.tasks != []
    requires store.tasks[0].Some? ==> IsGood(store.tasks[0].value)
    ensures WellNamed(TaskRun(store).files)
  {
    var files := TaskRun(store).files;
    forall name | name in files ensures IsItemFile(name, files[name]) || IsIndexFile(name, files[name]) {
      if name !in store.files || files[name] != store.files[name] {
        var w := store.tasks[0].value;
        assert name == ItemName(w.id, w.instanceId) && files[name].item.index == w.id;
      }
    }
  }

  lemma {:induction false} HandlingKeepsNames(store: Store, event: Event)
    requires WellNamed(store.files)
    ensures WellNamed(Handled(store, event).files)
  {
    var h := Handled(store, event);
    forall name | name in h.files ensures IsItemFile(name, h.files[name]) || IsIndexFile(name, h.files[name]) {
      if name !in store.files || h.files[name] != store.files[name] {
        assert name == IndexName(event.instanceId);
      }
    }
  }

  lemma {:induction false} HandlingKeepsItems(store: Store, event: Event, instanceId: string, id: int)
    ensures Recorded(Handled(store, event).files, instanceId, id) == Recorded(store.files, instanceId, id)
  {
    if event.FinalizeWrite? { ItemIsNoIndex(id, instanceId, event.instanceId); }
  }

  lemma {:induction false} PendingTail(first: Option<LineToWrite>, rest: seq<Option<LineToWrite>>, w: LineToWrite)
    requires AllGood([first] + rest) && OwnsId(w, [first] + rest)
    ensures AllGood(rest) && OwnsId(w, rest) && (first.Some? ==> IsGood(first.value))
    ensures first.Some? && first.value.instanceId == w.instanceId && first.value.id == w.id ==> first.value == w
    ensures multiset([first] + rest)[Some(w)] == multiset(rest)[Some(w)] + if first == Some(w) then 1 else 0
  {
    assert forall i :: 0 <= i < |rest| ==> ([first] + rest)[i + 1] == rest[i];
    assert ([first] + rest)[0] == first;
  }

  lemma {:induction false} TaskSettles(store: Store, rest: seq<Option<LineToWrite>>, w: LineToWrite)
    requires store.tasks != [] && w.instanceId in store.repos
    requires OnItsWay(store.files, [store.tasks[0]] + rest, w)
    ensures OnItsWay(TaskRun(store).files, rest, w)
  {
    var first := store.tasks[0];
    PendingTail(first, rest, w);
    TaskKeepsNames(store);
    assert Some(w) in [first] + rest <==> first == Some(w) || Some(w) in rest;
    if first == Some(w) {
      assert multiset(rest)[Some(w)] == 0;
    } else if first.Some? {
      ItemNamesDiffer(first.value.id, first.value.instanceId, w.id, w.instanceId);
    }
  }

  lemma {:induction false} StaysOnItsWay(s: System, steps: seq<Step>, t: System, w: LineToWrite, base: nat, all: seq<CompactLine>)
    requires Leads(s, steps, t) && InSession(s.store, w.instanceId, base, all)
    requires Undisturbed(Consumed(s, steps), w.instanceId)
    requires OnItsWay(s.store.files, Pending(s, steps), w)
    ensures OnItsWay(t.store.files, t.store.tasks, w)
    decreases |steps|
  {
    if steps == [] {
      assert t.store.tasks + [] == t.store.tasks;
    } else {
      var n := Next(s, steps[0]);
      var first, rest := Taken(s, steps[0]), Consumed(n, steps[1..]);
      UndisturbedParts(first, rest, w.instanceId);
      SessionStep(s, steps[0], w.instanceId, base, all);
      PendingAfter(s, steps);
      match steps[0] {
        case Consume =>
          HandlingKeepsNames(s.store, s.queue[0]);
          HandlingKeepsItems(s.store, s.queue[0], w.instanceId, w.id);
        case RunTask => TaskSettles(s.store, Pending(n, steps[1..]), w);
        case _ =>
      }
      StaysOnItsWay(n, steps[1..], t, w, base, all + Lines(Writes(first), w.instanceId));
    }
  }

  /** The write `w` is queued in the session, once, under an id nothing else of its instance has. */
  ghost predicate IsFresh(s: System, steps: seq<Step>, w: LineToWrite)
    requires Enabled(s, Consume)
  {
    var pending := Pending(Next(s, Consume), steps);
    && Some(w) in Writes(Consumed(Next(s, Consume), steps))
    && multiset(pending)[Some(w)] == 1 && OwnsId(w, pending)
    && Recorded(s.store.files, w.instanceId, w.id) == None
  }

  /**
   * Record then replay: once the recording is finalized, playing the instance gives the lines it had and
   * those of the session, sorted by timestamp, exactly when none of them waited in the executor any more;
   * and under the id of a recorded write it gives exactly its item, unless that write was waiting, or
   * brought no item or one without a type.
   */
  lemma {:induction false} RecordThenReplay(s: System, steps: seq<Step>, t: System, w: LineToWrite)
    requires IsSession(s, steps, t, w.instanceId)
    requires WellNamed(s.store.files) && AllGood(Pending(Next(s, Consume), steps)) && IsFresh(s, steps, w)
    ensures var v := OpenedForReplay(Next(t, Consume).store, w.instanceId);
            && w.instanceId in v.repos
            && (v.repos[w.instanceId].index == SortByTimestamp(SessionLines(s, steps, w.instanceId))
                <==> Lines(t.store.tasks, w.instanceId) == [])
            && (IsInTimeOrder(v.repos[w.instanceId].index, SessionLines(s, steps, w.instanceId))
                <==> Lines(t.store.tasks, w.instanceId) == [])
            && ReadById(v, w.instanceId, w.id) == if Some(w) in t.store.tasks || !HasType(ItemOf(w)) then None else ItemOf(w)
  {
    WriteReachesDisk(s, steps, t, w);
    IndexIsWritten(s, steps, t, w.instanceId);
    ReplayLoadsRecordings(Next(t, Consume).store, w.instanceId);
    SortsByTime(SessionLines(s, steps, w.instanceId));
    if Lines(t.store.tasks, w.instanceId) != [] {
      WrittenIsShorter(s, steps, t, w.instanceId);
      SortIs(TimeOf, LoadedIndex(Next(t, Consume).store.files, w.instanceId));
      FewerLines(SortByTimestamp(LoadedIndex(Next(t, Consume).store.files, w.instanceId)), SessionLines(s, steps, w.instanceId));
    }
  }

  lemma {:induction false} IndexIsWritten(s: System, steps: seq<Step>, t: System, instanceId: string)
    requires IsSession(s, steps, t, instanceId)
    requires Lines(Writes(Consumed(Next(s, Consume), steps)), instanceId) != []
    ensures SortByTimestamp(LoadedIndex(Next(t, Consume).store.files, instanceId))
            == SortByTimestamp(SessionLines(s, steps, instanceId))
            <==> Lines(t.store.tasks, instanceId) == []
  {
    var all, written := SessionLines(s, steps, instanceId), LoadedIndex(Next(t, Consume).store.files, instanceId);
    WrittenIndex(s, steps, t, instanceId);
    if Lines(t.store.tasks, instanceId) == [] {
      SortIs(TimeOf, all);
      SortOfSorted(TimeOf, SortByTimestamp(all));
    } else {
      WrittenIsShorter(s, steps, t, instanceId);
      if SortByTimestamp(written) == SortByTimestamp(all) { SortKeepsLength(written, all); }
    }
  }

  lemma {:induction false} WrittenIsShorter(s: System, steps: seq<Step>, t: System, instanceId: string)
    requires IsSession(s, steps, t, instanceId) && Lines(t.store.tasks, instanceId) != []
    ensures |LoadedIndex(Next(t, Consume).store.files, instanceId)| < |SessionLines(s, steps, instanceId)|
  {
    var all, waiting := SessionLines(s, steps, instanceId), Lines(t.store.tasks, instanceId);
    WrittenIndex(s, steps, t, instanceId);
    SortIs(TimeOf, all[..|all| - |waiting|]);
  }

  lemma {:induction false} WriteReachesDisk(s: System, steps: seq<Step>, t: System, w: LineToWrite)
    requires IsSession(s, steps, t, w.instanceId)
    requires WellNamed(s.store.files) && AllGood(Pending(Next(s, Consume), steps)) && IsFresh(s, steps, w)
    ensures var u := Next(t, Consume).store;
            && WellNamed(u.files) && w.instanceId !in u.repos && IsOrdinaryId(w.id)
            && Recorded(u.files, w.instanceId, w.id) == (if Some(w) in t.store.tasks then None else ItemOf(w))
            && Lines(Writes(Consumed(Next(s, Consume), steps)), w.instanceId) != []
            && OwnsId(w, t.store.tasks)
  {
    var o := Next(s, Consume);
    var loaded, early := LoadedIndex(s.store.files, w.instanceId), Lines(s.store.tasks, w.instanceId);
    WriteIsGood(o.store.tasks, Writes(Consumed(o, steps)), w);
    assert Some(w) in Pending(o, steps);
    SessionOpens(s, w.instanceId);
    StaysOnItsWay(o, steps, t, w, |loaded|, loaded + early);
    FinalizedKeeps(t.store, w);
  }

  lemma {:induction false} FinalizedKeeps(store: Store, w: LineToWrite)
    requires WellNamed(store.files)
    ensures WellNamed(Finalized(store, w.instanceId).files)
    ensures Recorded(Finalized(store, w.instanceId).files, w.instanceId, w.id) == Recorded(store.files, w.instanceId, w.id)
    ensures w.instanceId !in Finalized(store, w.instanceId).repos
  {
    HandlingKeepsNames(store, FinalizeWrite(w.instanceId));
    HandlingKeepsItems(store, FinalizeWrite(w.instanceId), w.instanceId, w.id);
  }

  lemma {:induction false} WriteIsGood(front: seq<Option<LineToWrite>>, writes: seq<Option<LineToWrite>>, w: LineToWrite)
    requires AllGood(front + writes) && Some(w) in writes
    ensures IsGood(w) && Lines(writes, w.instanceId) != []
  {
    var i :| 0 <= i < |writes| && writes[i] == Some(w);
    assert (front + writes)[|front| + i] == Some(w);
    LineOfWrite(writes, w);
  }

  lemma {:induction false} LineOfWrite(writes: seq<Option<LineToWrite>>, w: LineToWrite)
    requires Some(w) in writes
    ensures Stored(w) in Lines(writes, w.instanceId)
    decreases |writes|
  {
    if writes[0] != Some(w) { LineOfWrite(writes[1..], w); }
  }

  lemma {:induction false} WriteOfLine(writes: seq<Option<LineToWrite>>, instanceId: string, l: CompactLine) returns (w: LineToWrite)
    requires l in Lines(writes, instanceId)
    ensures Some(w) in writes && w.instanceId == instanceId && Stored(w) == l
    decreases |writes|
  {
    var first := writes[0];
    if first.Some? && first.value.instanceId == instanceId && Stored(first.value) == l {
      w := first.value;
    } else {
      w := WriteOfLine(writes[1..], instanceId, l);
    }
  }

  lemma {:induction false} NotWaiting(tasks: seq<Option<LineToWrite>>, w: LineToWrite)
    requires OwnsId(w, tasks) && Some(w) !in tasks
    ensures Stored(w) !in Lines(tasks, w.instanceId)
  {
    if Stored(w) in Lines(tasks, w.instanceId) { var late := WriteOfLine(tasks, w.instanceId, Stored(w)); }
  }

  lemma {:induction false} InFront<T>(all: seq<T>, back: seq<T>, x: T)
    requires |back| <= |all| && all[|all| - |back|..] == back && x in all && x !in back
    ensures x in all[..|all| - |back|]
  {
    assert all == all[..|all| - |back|] + back;
  }

  /** The line of a recorded write is in the index unless the write still waits. */
  lemma {:induction false} LineIsWritten(s: System, steps: seq<Step>, t: System, w: LineToWrite)
    requires IsSession(s, steps, t, w.instanceId)
    requires WellNamed(s.store.files) && AllGood(Pending(Next(s, Consume), steps)) && IsFresh(s, steps, w)
    requires Some(w) !in t.store.tasks
    ensures Stored(w) in LoadedIndex(Next(t, Consume).store.files, w.instanceId)
  {
    var all, waiting := SessionLines(s, steps, w.instanceId), Lines(t.store.tasks, w.instanceId);
    var loaded, n := LoadedIndex(s.store.files, w.instanceId), |all| - |waiting|;
    WrittenIndex(s, steps, t, w.instanceId);
    WriteReachesDisk(s, steps, t, w);
    LineOfWrite(Writes(Consumed(Next(s, Consume), steps)), w);
    NotWaiting(t.store.tasks, w);
    InFront(all, waiting, Stored(w));
    SortIs(TimeOf, all[..n]);
    IndexStart(s, steps, w.instanceId);
  }

  // ---------------------------------------------------------------- fresh ids

  /** The ids generated during a run. */
  ghost function Generated(s: System, steps: seq<Step>): seq<int>
    decreases |steps|
  {
    if steps == [] || !Enabled(s, steps[0]) then []
    else (if steps[0].NewId? then [Next(s, steps[0]).store.counter] else []) + Generated(Next(s, steps[0]), steps[1..])
  }

  /** The counter has room for one more id all along the run. */
  ghost predicate NeverWraps(s: System, steps: seq<Step>)
    decreases |steps|
  {
    && 0 <= s.store.counter < INT_MAX && SmallIndexes(s.store.files)
    && (steps != [] && Enabled(s, steps[0]) ==> NeverWraps(Next(s, steps[0]), steps[1..]))
  }

  ghost predicate SmallIndexes(files: map<string, File>) {
    forall name, l :: name in files && files[name].IndexFile? && l in files[name].lines ==> l.index < INT_MAX - 1
  }

  predicate IdsUpTo(lines: seq<CompactLine>, cap: int) { forall l :: l in lines ==> l.index <= cap }

  predicate WritesUpTo(writes: seq<Option<LineToWrite>>, cap: int) {
    forall i :: 0 <= i < |writes| && writes[i].Some? ==> writes[i].value.id <= cap
  }

  /** The counter, and every id on disk, in memory, in the executor and in the queue, is at most `cap`. */
  ghost predicate Capped(s: System, cap: int) {
    && 0 <= s.store.counter <= cap
    && (forall name :: name in s.store.files && s.store.files[name].IndexFile? ==> IdsUpTo(s.store.files[name].lines, cap))
    && (forall id :: id in s.store.repos ==> IdsUpTo(s.store.repos[id].index, cap))
    && WritesUpTo(s.store.tasks, cap) && WritesUpTo(Writes(s.queue), cap)
  }

  /** Writes are sent under ids that are on the way already: a step raises the cap by one at most. */
  predicate SentWithin(steps: seq<Step>, cap: int)
    decreases |steps|
  {
    steps != [] ==> WritesUpTo(Writes(SentBy(steps[0])), cap) && SentWithin(steps[1..], cap + 1)
  }

  /** A bound on the start and on the number of steps: enough for the counter not to wrap. */
  ghost predicate HasRoom(s: System, steps: seq<Step>, cap: int) {
    Capped(s, cap) && SentWithin(steps, cap) && cap + |steps| < INT_MAX - 1
  }

  lemma {:induction false} WritesUpToJoined(a: seq<Option<LineToWrite>>, b: seq<Option<LineToWrite>>, cap: int)
    requires WritesUpTo(a, cap) && WritesUpTo(b, cap)
    ensures WritesUpTo(a + b, cap)
  {}

  lemma {:induction false} BumpedUpTo(counter: int, index: seq<CompactLine>, cap: int)
    requires 0 <= counter <= cap < INT_MAX && IdsUpTo(index, cap)
    ensures 0 <= Bumped(counter, index) <= cap + 1
  {
    if index != [] { MaxIndexIn(index); }
  }

  lemma {:induction false} WritingCapped(store: Store, instanceId: string, cap: int)
    requires Capped(System([], store), cap) && cap < INT_MAX
    ensures Capped(System([], OpenedForWrite(store, instanceId)), cap + 1)
  {
    BumpedUpTo(store.counter, LoadedIndex(store.files, instanceId), cap);
  }

  lemma {:induction false} PlayingCapped(store: Store, instanceId: string, cap: int)
    requires Capped(System([], store), cap) && cap < INT_MAX
    ensures Capped(System([], OpenedForReplay(store, instanceId)), cap + 1)
  {
    SortIs(TimeOf, LoadedIndex(store.files, instanceId));
    BumpedUpTo(store.counter, SortByTimestamp(LoadedIndex(store.files, instanceId)), cap);
  }

  lemma {:induction false} FinalizingCapped(store: Store, instanceId: string, cap: int)
    requires Capped(System([], store), cap)
    ensures Capped(System([], Finalized(store, instanceId)), cap + 1)
  {
    if instanceId in store.repos { SortIs(TimeOf, store.repos[instanceId].index); }
  }

  lemma {:induction false} HandlingCapped(store: Store, event: Event, cap: int)
    requires Capped(System([], store), cap) && WritesUpTo(Writes([event]), cap) && cap < INT_MAX
    ensures Capped(System([], Handled(store, event)), cap + 1)
  {
    match event
    case StartWrite(id) => WritingCapped(store, id, cap);
    case StartPlay(id) => PlayingCapped(store, id, cap);
    case WriteItem(line) =>
      CountOfHandled(store, event);
      WritesUpToJoined(store.tasks, Writes([event]), cap + 1);
    case FinalizeWrite(id) => FinalizingCapped(store, id, cap);
    case EndPlay(id) =>
  }

  lemma {:induction false} WritesUpToParts(a: seq<Option<LineToWrite>>, b: seq<Option<LineToWrite>>, cap: int)
    requires WritesUpTo(a + b, cap)
    ensures WritesUpTo(a, cap) && WritesUpTo(b, cap)
  {
    assert forall i :: 0 <= i < |a| ==> (a + b)[i] == a[i];
    assert forall i :: 0 <= i < |b| ==> (a + b)[|a| + i] == b[i];
  }

  lemma {:induction false} TaskCapped(s: System, cap: int)
    requires Capped(s, cap) && s.store.tasks != []
    ensures Capped(s.(store := TaskRun(s.store)), cap + 1)
  {
    assert forall i :: 0 <= i < |s.store.tasks| - 1 ==> s.store.tasks[1..][i] == s.store.tasks[i + 1];
  }

  lemma {:induction false} StepCapped(s: System, step: Step, cap: int)
    requires Enabled(s, step) && Capped(s, cap) && cap < INT_MAX && WritesUpTo(Writes(SentBy(step)), cap)
    ensures Capped(Next(s, step), cap + 1)
  {
    match step
    case Send(event) =>
      WritesAppend(s.queue, [event]);
      WritesUpToJoined(Writes(s.queue), Writes([event]), cap);
    case Consume =>
      assert s.queue == [s.queue[0]] + s.queue[1..];
      WritesAppend([s.queue[0]], s.queue[1..]);
      WritesUpToParts(Writes([s.queue[0]]), Writes(s.queue[1..]), cap);
      HandlingCapped(s.store, s.queue[0], cap);
    case RunTask => TaskCapped(s, cap);
    case NewId =>
  }

  lemma {:induction false} RoomIsEnough(s: System, steps: seq<Step>, cap: int)
    requires HasRoom(s, steps, cap)
    ensures NeverWraps(s, steps)
    decreases |steps|
  {
    if steps != [] && Enabled(s, steps[0]) {
      StepCapped(s, steps[0], cap);
      RoomIsEnough(Next(s, steps[0]), steps[1..], cap + 1);
    }
  }

  function Draws(n: nat): (steps: seq<Step>)
    ensures |steps| == n
  {
    if n == 0 then [] else [NewId] + Draws(n - 1)
  }

  lemma {:induction false} NextId(counter: int, k: nat)
    ensures Int32(Int32(counter + 1) + 1 + k) == Int32(counter + 2 + k)
  {}

  lemma {:induction false} DrawnIdsAre(s: System, n: nat, k: nat)
    requires k < n
    ensures |Generated(s, Draws(n))| == n && Generated(s, Draws(n))[k] == Int32(s.store.counter + 1 + k)
    decreases n
  {
    var next := Next(s, NewId);
    assert Draws(n)[1..] == Draws(n - 1);
    assert Generated(s, Draws(n)) == [next.store.counter] + Generated(next, Draws(n - 1));
    if n > 1 {
      DrawnIdsAre(next, n - 1, if k > 0 then k - 1 else 0);
      if k > 0 { NextId(s.store.counter, k - 1); }
    }
  }

  /** However many ids are drawn in a row, all lie above the counter exactly while the 32-bit counter does not wrap. */
  lemma {:induction false} DrawnIdsGrowIff(s: System, n: nat)
    requires 0 <= s.store.counter <= INT_MAX
    ensures (forall id :: id in Generated(s, Draws(n)) ==> id > s.store.counter) <==> s.store.counter + n <= INT_MAX
  {
    if s.store.counter + n <= INT_MAX {
      DrawnIdsGrow(s, n);
    } else {
      var id := DrawnIdWraps(s, n);
    }
  }

  lemma {:induction false} DrawnIdsGrow(s: System, n: nat)
    requires 0 <= s.store.counter && s.store.counter + n <= INT_MAX
    ensures forall id :: id in Generated(s, Draws(n)) ==> id > s.store.counter
  {
    var ids := Generated(s, Draws(n));
    if n > 0 { DrawnIdsAre(s, n, 0); }
    forall k | 0 <= k < |ids| ensures ids[k] > s.store.counter {
      DrawnIdsAre(s, n, k);
      NoWrap(s.store.counter, k);
    }
  }

  lemma {:induction false} DrawnIdWraps(s: System, n: nat) returns (id: int)
    requires 0 <= s.store.counter <= INT_MAX < s.store.counter + n
    ensures id in Generated(s, Draws(n)) && id < 0
  {
    var k := INT_MAX - s.store.counter;
    DrawnIdsAre(s, n, k);
    id := Generated(s, Draws(n))[k];
    WrappedId();
  }

  lemma {:induction false} WrappedId()
    ensures Int32(INT_MAX + 1) == -0x8000_0000
  {}

  lemma {:induction false} NoWrap(counter: int, k: nat)
    requires 0 <= counter && counter + 1 + k <= INT_MAX
    ensures Int32(counter + 1 + k) == counter + 1 + k
  {}

  lemma {:induction false} MaxIndexIn(lines: seq<CompactLine>)
    requires lines != []
    ensures exists l :: l in lines && l.index == MaxIndex(lines)
    decreases |lines|
  {
    if |lines| > 1 { MaxIndexIn(lines[1..]); } else { assert lines[0] in lines; }
  }

  /** Opening an instance raises the counter above every index it loads, and never lowers it. */
  lemma {:induction false} BumpIs(counter: int, index: seq<CompactLine>)
    requires 0 <= counter < INT_MAX && forall l :: l in index ==> l.index < INT_MAX - 1
    ensures counter <= Bumped(counter, index)
    ensures forall l :: l in index ==> l.index < Bumped(counter, index)
  {
    if index != [] { MaxIndexIn(index); }
  }

  lemma {:induction false} OpeningNeverLowers(store: Store, instanceId: string)
    requires 0 <= store.counter < INT_MAX && SmallIndexes(store.files)
    ensures store.counter <= OpenedForWrite(store, instanceId).counter
    ensures store.counter <= OpenedForReplay(store, instanceId).counter
  {
    var loaded := LoadedIndex(store.files, instanceId);
    assert forall l :: l in loaded ==> l.index < INT_MAX - 1;
    SortIs(TimeOf, loaded);
    BumpIs(store.counter, loaded);
    BumpIs(store.counter, SortByTimestamp(loaded));
  }

  lemma {:induction false} CounterNeverFalls(s: System, step: Step)
    requires Enabled(s, step) && 0 <= s.store.counter < INT_MAX && SmallIndexes(s.store.files)
    ensures s.store.counter <= Next(s, step).store.counter
    ensures step.NewId? ==> Next(s, step).store.counter == s.store.counter + 1
  {
    if step.Consume? && (s.queue[0].StartWrite? || s.queue[0].StartPlay?) {
      OpeningNeverLowers(s.store, s.queue[0].instanceId);
    }
  }

  predicate StrictlyIncreasing(ids: seq<int>) { forall i, j :: 0 <= i < j < |ids| ==> ids[i] < ids[j] }

  /** Ids grow over every run: they are pairwise distinct, and above the counter the run started from. */
  lemma {:induction false} IdsGrow(s: System, steps: seq<Step>, t: System)
    requires Leads(s, steps, t) && NeverWraps(s, steps)
    ensures s.store.counter <= t.store.counter < INT_MAX
    ensures StrictlyIncreasing(Generated(s, steps))
    ensures forall id :: id in Generated(s, steps) ==> s.store.counter < id <= t.store.counter
    decreases |steps|
  {
    if steps != [] {
      CounterNeverFalls(s, steps[0]);
      IdsGrow(Next(s, steps[0]), steps[1..], t);
      var rest := Generated(Next(s, steps[0]), steps[1..]);
      assert forall k :: 0 <= k < |rest| ==> rest[k] in rest;
    }
  }

  lemma {:induction false} IdsAreFresh(s: System, steps: seq<Step>, t: System, cap: int)
    requires Leads(s, steps, t) && HasRoom(s, steps, cap)
    ensures s.store.counter <= t.store.counter < INT_MAX
    ensures StrictlyIncreasing(Generated(s, steps))
    ensures forall id :: id in Generated(s, steps) ==> s.store.counter < id <= t.store.counter
  {
    RoomIsEnough(s, steps, cap);
    IdsGrow(s, steps, t);
  }

  /** Every id generated after an instance was opened lies above all indexes in the index it loaded. */
  lemma {:induction false} IdsExceedLoadedIndex(s: System, steps: seq<Step>, t: System, instanceId: string, cap: int)
    requires s.queue != [] && (s.queue[0] == StartWrite(instanceId) || s.queue[0] == StartPlay(instanceId))
    requires instanceId !in s.store.repos && Leads(Next(s, Consume), steps, t)
    requires Capped(s, cap) && SentWithin(steps, cap + 1) && cap + 1 + |steps| < INT_MAX - 1
    ensures forall id, l :: id in Generated(Next(s, Consume), steps) && l in LoadedIndex(s.store.files, instanceId)
                            ==> l.index < id
  {
    var loaded := LoadedIndex(s.store.files, instanceId);
    SortIs(TimeOf, loaded);
    BumpIs(s.store.counter, loaded);
    BumpIs(s.store.counter, SortByTimestamp(loaded));
    StepCapped(s, Consume, cap);
    IdsAreFresh(Next(s, Consume), steps, t, cap + 1);
  }

  // ---------------------------------------------------------------- no recording is overwritten

  /** Every recording of the instance on disk has a line. */
  ghost predicate Covered(files: map<string, File>, lines: seq<CompactLine>, instanceId: string) {
    forall id: nat :: IsOrdinaryId(id) && ItemName(id, instanceId) in files ==> exists l :: l in lines && l.index == id
  }

  lemma {:induction false} TaskKeepsCovered(store: Store, instanceId: string)
    requires store.tasks != [] && (store.tasks[0].Some? ==> IsGood(store.tasks[0].value))
    requires instanceId in store.repos && Covered(store.files, store.repos[instanceId].index, instanceId)
    ensures instanceId in TaskRun(store).repos
    ensures Covered(TaskRun(store).files, TaskRun(store).repos[instanceId].index, instanceId)
  {
    var u := TaskRun(store);
    forall id: nat | IsOrdinaryId(id) && ItemName(id, instanceId) in u.files
      ensures exists l :: l in u.repos[instanceId].index && l.index == id
    {
      if ItemName(id, instanceId) in store.files {
        var l :| l in store.repos[instanceId].index && l.index == id;
        assert l in u.repos[instanceId].index;
      } else {
        var w := store.tasks[0].value;
        ItemNamesDiffer(id, instanceId, w.id, w.instanceId);
        assert Stored(w) in u.repos[instanceId].index;
      }
    }
  }

  lemma {:induction false} HandlingKeepsCovered(store: Store, event: Event, instanceId: string)
    requires !Concerns(event, instanceId)
    requires instanceId in store.repos && Covered(store.files, store.repos[instanceId].index, instanceId)
    ensures instanceId in Handled(store, event).repos
    ensures Covered(Handled(store, event).files, Handled(store, event).repos[instanceId].index, instanceId)
  {
    HandlingKeepsRepo(store, event, instanceId);
    forall id: nat | ItemName(id, instanceId) in Handled(store, event).files ensures ItemName(id, instanceId) in store.files {
      if event.FinalizeWrite? { ItemIsNoIndex(id, instanceId, event.instanceId); }
    }
  }

  lemma {:induction false} RunKeepsCovered(s: System, steps: seq<Step>, t: System, instanceId: string)
    requires Leads(s, steps, t) && Undisturbed(Consumed(s, steps), instanceId) && AllGood(Pending(s, steps))
    requires instanceId in s.store.repos && Covered(s.store.files, s.store.repos[instanceId].index, instanceId)
    ensures instanceId in t.store.repos && Covered(t.store.files, t.store.repos[instanceId].index, instanceId)
    decreases |steps|
  {
    if steps != [] {
      var n := Next(s, steps[0]);
      UndisturbedParts(Taken(s, steps[0]), Consumed(n, steps[1..]), instanceId);
      PendingAfter(s, steps);
      match steps[0] {
        case Consume =>
          assert Taken(s, steps[0])[0] == s.queue[0];
          HandlingKeepsCovered(s.store, s.queue[0], instanceId);
        case RunTask =>
          GoodTail(s.store.tasks[0], Pending(n, steps[1..]));
          TaskKeepsCovered(s.store, instanceId);
        case _ =>
      }
      RunKeepsCovered(n, steps[1..], t, instanceId);
    }
  }

  lemma {:induction false} GoodTail(first: Option<LineToWrite>, rest: seq<Option<LineToWrite>>)
    requires AllGood([first] + rest)
    ensures AllGood(rest) && (first.Some? ==> IsGood(first.value))
  {
    assert forall i :: 0 <= i < |rest| ==> ([first] + rest)[i + 1] == rest[i];
    assert ([first] + rest)[0] == first;
  }

  /** A session keeps it so: after it, too, every recording of the instance on disk has a line in its index. */
  lemma {:induction false} SessionKeepsCovered(s: System, steps: seq<Step>, t: System, instanceId: string)
    requires IsSession(s, steps, t, instanceId) && AllGood(Pending(Next(s, Consume), steps))
    requires Covered(s.store.files, LoadedIndex(s.store.files, instanceId), instanceId)
    ensures Covered(Next(t, Consume).store.files, LoadedIndex(Next(t, Consume).store.files, instanceId), instanceId)
  {
    RunKeepsCovered(Next(s, Consume), steps, t, instanceId);
    SessionSplits(s, steps, t, instanceId);
    var u := Next(t, Consume).store;
    var run := t.store.repos[instanceId].index;
    IndexHolds(s, steps, t, instanceId);
    forall id: nat | IsOrdinaryId(id) && ItemName(id, instanceId) in u.files
      ensures exists l :: l in LoadedIndex(u.files, instanceId) && l.index == id
    {
      ItemIsNoIndex(id, instanceId, instanceId);
      var l :| l in run && l.index == id;
      assert l in LoadedIndex(u.files, instanceId);
    }
  }

  lemma {:induction false} IndexHolds(s: System, steps: seq<Step>, t: System, instanceId: string)
    requires IsSession(s, steps, t, instanceId)
    ensures instanceId in t.store.repos
    ensures forall l :: l in t.store.repos[instanceId].index ==> l in LoadedIndex(Next(t, Consume).store.files, instanceId)
  {
    SessionSplits(s, steps, t, instanceId);
    var run := t.store.repos[instanceId].index;
    SortIs(TimeOf, run);
    var loaded, all := LoadedIndex(s.store.files, instanceId), SessionLines(s, steps, instanceId);
    if |run| == |loaded| { assert all[..|run|] == run && all[..|loaded|] == loaded; }
  }

  lemma {:induction false} NoFileAbove(files: map<string, File>, lines: seq<CompactLine>, instanceId: string, id: nat)
    requires Covered(files, lines, instanceId) && IsOrdinaryId(id) && forall l :: l in lines ==> l.index < id
    ensures ItemName(id, instanceId) !in files
  {}

  /**
   * A recording made under an id generated after its instance was opened never overwrites one that was
   * there: none of the ids generated names a file on disk, and no two of them name the same.
   */
  lemma {:induction false} FileNamesAreFresh(s: System, steps: seq<Step>, t: System, instanceId: string, cap: int)
    requires s.queue != [] && s.queue[0] == StartWrite(instanceId) && instanceId !in s.store.repos
    requires Leads(Next(s, Consume), steps, t)
    requires Capped(s, cap) && SentWithin(steps, cap + 1) && cap + 1 + |steps| < INT_MAX - 1
    requires Covered(s.store.files, LoadedIndex(s.store.files, instanceId), instanceId)
    ensures var ids := Generated(Next(s, Consume), steps);
            && (forall id :: id in ids ==> IsOrdinaryId(id) && ItemName(id, instanceId) !in s.store.files)
            && (forall i, j, x: string, y: string :: 0 <= i < j < |ids| ==> ItemName(ids[i], x) != ItemName(ids[j], y))
  {
    var ids := Generated(Next(s, Consume), steps);
    StepCapped(s, Consume, cap);
    IdsAreFresh(Next(s, Consume), steps, t, cap + 1);
    IdsExceedLoadedIndex(s, steps, t, instanceId, cap);
    TenBillion();
    forall id | id in ids ensures IsOrdinaryId(id) && ItemName(id, instanceId) !in s.store.files {
      NoFileAbove(s.store.files, LoadedIndex(s.store.files, instanceId), instanceId, id);
    }
    forall i, j, x: string, y: string | 0 <= i < j < |ids| ensures ItemName(ids[i], x) != ItemName(ids[j], y) {
      assert ids[i] in ids && ids[j] in ids;
      ItemNamesDiffer(ids[i], x, ids[j], y);
    }
  }
}
