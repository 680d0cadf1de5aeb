/**
 * The recordings on disk and in memory, `FileStorageRepository`. The file system is a map from names to
 * contents, and writing a value as JSON and reading it back is the identity.
 */
module Storage {
  import opened Wrappers
  import opened JavaInt
  import opened Text
  import opened PaddedNames
  import opened Sorting
  import opened FileNames

  datatype CompactLine = CompactLine(index: int, timestamp: int, kind: Option<string>, caller: string,
                                     tags: map<string, Option<string>>)

  datatype StorageItem = StorageItem(index: int, timestamp: int, kind: Option<string>, content: nat)

  datatype LineToWrite = LineToWrite(instanceId: string, id: int, line: CompactLine, item: Option<StorageItem>)

  datatype ProtocolRepo = ProtocolRepo(index: seq<CompactLine>, inMemoryDb: map<int, StorageItem>,
                                       outItems: seq<StorageItem>, initialized: bool, somethingWritten: bool)

  const NEW_REPO := ProtocolRepo([], map[], [], false, false)

  /** What an empty JSON object is read as. */
  const EMPTY_ITEM := StorageItem(0, 0, None, 0)

  datatype File = ItemFile(item: StorageItem) | IndexFile(lines: seq<CompactLine>)

  datatype Store = Store(
    repos: map<string, ProtocolRepo>,
    counter: int,
    /** Submitted to the single-thread executor, not run yet; `None` is the null line. */
    tasks: seq<Option<LineToWrite>>,
    executorItems: int,
    files: map<string, File>)

  const RESPONSE := "RESPONSE"

  predicate IsResponse(kind: Option<string>) { kind.Some? && EqualsIgnoreCase(kind.value, RESPONSE) }

  // ---------------------------------------------------------------- lines in order

  function TimeOf(line: CompactLine): int { line.timestamp }

  function SortByTimestamp(lines: seq<CompactLine>): seq<CompactLine> { SortBy(TimeOf, lines) }

  /** The lines of one time, in order. */
  function AtTime(lines: seq<CompactLine>, time: int): (r: seq<CompactLine>)
    ensures forall l :: l in r <==> l in lines && l.timestamp == time
  {
    if lines == [] then []
    else
      var front, last := lines[..|lines| - 1], lines[|lines| - 1];
      assert lines == front + [last];
      AtTime(front, time) + if last.timestamp == time then [last] else []
  }

  /** The same lines in the order of time; lines of one time stand as they stood. */
  ghost predicate IsInTimeOrder(sorted: seq<CompactLine>, lines: seq<CompactLine>) {
    && (forall i, j :: 0 <= i < j < |sorted| ==> sorted[i].timestamp <= sorted[j].timestamp)
    && multiset(sorted) == multiset(lines)
    && (forall time :: AtTime(sorted, time) == AtTime(lines, time))
  }

  lemma {:induction false} AtTimeIs(lines: seq<CompactLine>, time: int)
    ensures AtTime(lines, time) == WithKey(TimeOf, lines, time)
    decreases |lines|
  {
    if lines != [] { AtTimeIs(lines[..|lines| - 1], time); }
  }

  lemma {:induction false} SortsByTime(lines: seq<CompactLine>)
    ensures IsInTimeOrder(SortByTimestamp(lines), lines)
  {
    var sorted := SortByTimestamp(lines);
    SortIs(TimeOf, lines);
    forall i, j | 0 <= i < j < |sorted| ensures sorted[i].timestamp <= sorted[j].timestamp {
      assert TimeOf(sorted[i]) <= TimeOf(sorted[j]);
    }
    forall time ensures AtTime(sorted, time) == AtTime(lines, time) {
      AtTimeIs(sorted, time);
      AtTimeIs(lines, time);
      SortIsStable(TimeOf, lines, time);
    }
  }

  function MaxIndex(lines: seq<CompactLine>): (m: int)
    requires lines != []
    ensures forall l :: l in lines ==> l.index <= m
  {
    if |lines| == 1 then lines[0].index
    else
      var m := MaxIndex(lines[1..]);
      assert forall l :: l in lines ==> l == lines[0] || l in lines[1..];
      if lines[0].index > m then lines[0].index else m
  }

  // ---------------------------------------------------------------- names in order

  lemma {:induction false} BeforeTotal(a: string, b: string)
    ensures a == b || Before(a, b) || Before(b, a)
    ensures !(Before(a, b) && Before(b, a))
    decreases |a|
  {
    if a != "" && b != "" {
      BeforeTotal(a[1..], b[1..]);
      assert a == [a[0]] + a[1..] && b == [b[0]] + b[1..];
    }
  }

  lemma {:induction false} BeforeTransitive(a: string, b: string, c: string)
    requires Before(a, b) && Before(b, c)
    ensures Before(a, c)
    decreases |a|
  {
    if a != "" && a[0] == b[0] == c[0] { BeforeTransitive(a[1..], b[1..], c[1..]); }
  }

  predicate IsFirst(m: string, names: set<string>) {
    m in names && forall x :: x in names ==> x == m || Before(m, x)
  }

  lemma {:induction false} FirstExists(names: set<string>)
    requires names != {}
    ensures exists m :: IsFirst(m, names)
    decreases |names|
  {
    var x :| x in names;
    if names == {x} {
      assert IsFirst(x, names);
    } else {
      var rest := names - {x};
      assert names == {x} + rest;
      FirstExists(rest);
      var m :| IsFirst(m, rest);
      BeforeTotal(m, x);
      if Before(m, x) {
        assert IsFirst(m, names);
      } else {
        forall y | y in names ensures y == x || Before(x, y) {
          if y in rest && y != m { BeforeTransitive(x, m, y); }
        }
        assert IsFirst(x, names);
      }
    }
  }

  /** The listing of a directory, sorted. */
  ghost function Sorted(names: set<string>): (listing: seq<string>)
    ensures forall n :: n in listing <==> n in names
    ensures forall i, j :: 0 <= i < j < |listing| ==> Before(listing[i], listing[j])
    decreases |names|
  {
    if names == {} then []
    else
      FirstExists(names);
      var m :| IsFirst(m, names);
      [m] + Sorted(names - {m})
  }

  // ---------------------------------------------------------------- reading recordings

  ghost predicate IsListing(listing: seq<string>, files: map<string, File>) {
    && (forall n :: n in listing <==> n in files)
    && (forall i, j :: 0 <= i < j < |listing| ==> Before(listing[i], listing[j]))
  }

  /** There is only one sorted listing. */
  lemma {:induction false} ListingUnique(a: seq<string>, b: seq<string>)
    requires forall n :: n in a <==> n in b
    requires forall i, j :: 0 <= i < j < |a| ==> Before(a[i], a[j])
    requires forall i, j :: 0 <= i < j < |b| ==> Before(b[i], b[j])
    ensures a == b
    decreases |a|
  {
    if a == [] {
      if b != [] { HasElement(b); }
    } else {
      assert a[0] in b && b != [];
      assert b[0] in a;
      FirstsAgree(a, b);
      TailMembers(a, b);
      TailMembers(b, a);
      ListingUnique(a[1..], b[1..]);
      assert a == [a[0]] + a[1..] && b == [b[0]] + b[1..];
    }
  }

  lemma {:induction false} HasElement(b: seq<string>)
    requires b != []
    ensures exists n :: n in b
  {
    assert b[0] in b;
  }

  lemma {:induction false} FirstsAgree(a: seq<string>, b: seq<string>)
    requires a != [] && b != [] && a[0] in b && b[0] in a
    requires forall i, j :: 0 <= i < j < |a| ==> Before(a[i], a[j])
    requires forall i, j :: 0 <= i < j < |b| ==> Before(b[i], b[j])
    ensures a[0] == b[0]
  {
    BeforeTotal(a[0], b[0]);
  }

  lemma {:induction false} TailMembers(a: seq<string>, b: seq<string>)
    requires a != [] && b != [] && a[0] == b[0] && forall n :: n in a ==> n in b
    requires forall i, j :: 0 <= i < j < |a| ==> Before(a[i], a[j])
    ensures forall n :: n in a[1..] ==> n in b[1..]
  {
    forall n | n in a[1..] ensures n in b[1..] {
      var k :| 0 <= k < |a| - 1 && a[1..][k] == n;
      assert Before(a[0], a[k + 1]);
      NotBeforeItself(n);
      assert n in b && n != b[0];
    }
  }

  /** The loop over the listing, without its file names that are no recordings of this instance. */
  function ItemsOf(listing: seq<string>, files: map<string, File>, instanceId: string): seq<StorageItem> {
    if listing == [] then []
    else
      var name := listing[0];
      (if IsRead(name, instanceId) && name in files && files[name].ItemFile? then [files[name].item] else [])
      + ItemsOf(listing[1..], files, instanceId)
  }

  lemma {:induction false} ItemsStep(result: seq<StorageItem>, listing: seq<string>, files: map<string, File>, instanceId: string, k: nat)
    requires k < |listing|
    ensures var name := listing[k];
            result + ItemsOf(listing[k..], files, instanceId)
            == (if IsRead(name, instanceId) && name in files && files[name].ItemFile? then result + [files[name].item]
                else result) + ItemsOf(listing[k + 1..], files, instanceId)
  {
    assert listing[k..][0] == listing[k] && listing[k..][1..] == listing[k + 1..];
  }

  ghost function AllItems(files: map<string, File>, instanceId: string): seq<StorageItem> {
    ItemsOf(Sorted(files.Keys), files, instanceId)
  }

  function LoadedIndex(files: map<string, File>, instanceId: string): seq<CompactLine> {
    var name := IndexName(instanceId);
    if name in files && files[name].IndexFile? then files[name].lines else []
  }

  /** Items without a type are dropped, responses are kept apart from the rest. */
  function Remember(repo: ProtocolRepo, items: seq<StorageItem>): ProtocolRepo
    decreases |items|
  {
    if items == [] then repo
    else Remember(Remembered(repo, items[0]), items[1..])
  }

  function Remembered(repo: ProtocolRepo, item: StorageItem): ProtocolRepo {
    if item.kind.None? then repo
    else if IsResponse(item.kind) then repo.(outItems := repo.outItems + [item])
    else repo.(inMemoryDb := repo.inMemoryDb[item.index := item])
  }

  function Bumped(counter: int, index: seq<CompactLine>): int {
    if index == [] then counter
    else
      var next := MaxIndex(index) + 1;
      Int32(if counter > next then counter else next)
  }

  function RepoOf(s: Store, instanceId: string): ProtocolRepo {
    if instanceId in s.repos then s.repos[instanceId] else NEW_REPO
  }

  // ---------------------------------------------------------------- the operations as functions

  function OpenedForWrite(s: Store, instanceId: string): Store {
    var repo := RepoOf(s, instanceId);
    if repo.initialized then s.(repos := s.repos[instanceId := repo])
    else
      var index := LoadedIndex(s.files, instanceId);
      s.(repos := s.repos[instanceId := repo.(index := index, initialized := true)],
         counter := Bumped(s.counter, index))
  }

  ghost function OpenedForReplay(s: Store, instanceId: string): Store {
    var repo := RepoOf(s, instanceId);
    if repo.initialized && repo.index != [] && repo.inMemoryDb != map[] then
      s.(repos := s.repos[instanceId := repo])
    else
      var filled := Remember(repo.(inMemoryDb := map[]), AllItems(s.files, instanceId));
      var index := SortByTimestamp(LoadedIndex(s.files, instanceId));
      s.(repos := s.repos[instanceId := filled.(index := index, initialized := true)],
         counter := Bumped(s.counter, index))
  }

  function Submitted(s: Store, item: Option<LineToWrite>): Store {
    s.(tasks := s.tasks + [item], executorItems := s.executorItems + 1)
  }

  /** The line as it is stored: its index is the id it was recorded under. */
  function Stored(w: LineToWrite): CompactLine { w.line.(index := w.id) }

  /**
   * One task of the executor. A null line returns before the counter is lowered; a line for an
   * instance that is not open fails and is dropped.
   */
  function TaskRun(s: Store): Store
    requires s.tasks != []
  {
    var rest := s.(tasks := s.tasks[1..]);
    match s.tasks[0]
    case None => rest
    case Some(w) =>
      var counted := rest.(executorItems := s.executorItems - 1);
      if w.instanceId !in s.repos then counted
      else
        var repo := s.repos[w.instanceId];
        var written := repo.(index := repo.index + [Stored(w)], somethingWritten := true);
        counted.(repos := s.repos[w.instanceId := written],
                 files := if w.item.None? then s.files
                          else s.files[ItemName(w.id, w.instanceId) := ItemFile(w.item.value.(index := w.id))])
  }

  /** The executor runs up to `n` tasks. */
  function TasksRun(s: Store, n: nat): Store
    decreases n
  {
    if n == 0 || s.tasks == [] then s else TasksRun(TaskRun(s), n - 1)
  }

  /** The rounds a finalization waits for the executor; then it goes on in any case. */
  const WAIT_ROUNDS := 100

  /** The wait: after round `k`, in which `done[k]` tasks are run, it ends if the counter is down. */
  function Waited(s: Store, done: seq<nat>): Store
    decreases |done|
  {
    if done == [] then s
    else
      var t := TasksRun(s, done[0]);
      if t.executorItems == 0 then t else Waited(t, done[1..])
  }

  /** Finalizing, once the wait for the executor is over. */
  function Finalized(s: Store, instanceId: string): Store {
    if instanceId !in s.repos then s
    else
      var repo := s.repos[instanceId];
      var closed := s.(repos := s.repos - {instanceId});
      if !repo.somethingWritten then closed
      else closed.(files := s.files[IndexName(instanceId) := IndexFile(SortByTimestamp(repo.index))])
  }

  function PlayEnded(s: Store, instanceId: string): Store { s.(repos := s.repos - {instanceId}) }

  /** What `readFromScenarioById` gives for an open instance. */
  function ReadById(s: Store, instanceId: string, id: int): Option<StorageItem>
    requires instanceId in s.repos
  {
    Lookup(s.repos[instanceId], id)
  }

  function Lookup(repo: ProtocolRepo, id: int): Option<StorageItem> {
    if id in repo.inMemoryDb then Some(repo.inMemoryDb[id]) else FirstWithIndex(repo.outItems, id)
  }

  function FirstWithIndex(items: seq<StorageItem>, id: int): (r: Option<StorageItem>)
    ensures r.Some? ==> r.value in items && r.value.index == id
    ensures r.None? ==> forall i :: i in items ==> i.index != id
  {
    if items == [] then None
    else if items[0].index == id then Some(items[0])
    else FirstWithIndex(items[1..], id)
  }

  // ---------------------------------------------------------------- the class

  class FileStorageRepository {
    var protocolRepo: map<string, ProtocolRepo>
    var storageCounter: int
    var executor: seq<Option<LineToWrite>>
    var executorItems: int
    var files: map<string, File>

    ghost function Now(): Store
      reads this
    {
      Store(protocolRepo, storageCounter, executor, executorItems, files)
    }

    constructor (files: map<string, File>)
      ensures Now() == Store(map[], 0, [], 0, files)
    {
      protocolRepo, storageCounter, executor, executorItems := map[], 0, [], 0;
      this.files := files;
    }

    /** `generateIndex`; the increment of a 32-bit counter wraps around. */
    method GenerateIndex() returns (id: int)
      modifies this`storageCounter
      ensures id == Int32(old(storageCounter) + 1) && storageCounter == id
    {
      storageCounter := Int32(storageCounter + 1);
      return storageCounter;
    }

    /** The counter moves past every index of the loaded lines. */
    method BumpCounter(index: seq<CompactLine>)
      modifies this`storageCounter
      ensures storageCounter == Bumped(old(storageCounter), index)
    {
      if index != [] {
        var maxRepoIndex := MaxIndex(index);
        var maxIndex := if storageCounter > maxRepoIndex + 1 then storageCounter else maxRepoIndex + 1;
        storageCounter := Int32(maxIndex);
      }
    }

    method InitializeContentForWrite(instanceId: string)
      modifies this
      ensures Now() == OpenedForWrite(old(Now()), instanceId)
      ensures instanceId in protocolRepo && protocolRepo[instanceId].initialized && files == old(files)
      ensures instanceId in old(protocolRepo) && old(protocolRepo)[instanceId].initialized ==>
                protocolRepo[instanceId] == old(protocolRepo)[instanceId] && storageCounter == old(storageCounter)
      ensures instanceId !in old(protocolRepo) ==>
                && protocolRepo[instanceId].index == LoadedIndex(files, instanceId) && !protocolRepo[instanceId].somethingWritten
    {
      var currRepo := if instanceId in protocolRepo then protocolRepo[instanceId] else NEW_REPO;
      if !currRepo.initialized {
        currRepo := currRepo.(index := LoadedIndex(files, instanceId));
        BumpCounter(currRepo.index);
        currRepo := currRepo.(initialized := true);
      }
      protocolRepo := protocolRepo[instanceId := currRepo];
    }

    /** `readAllItems`; `listing` is the sorted listing of the directory. */
    method ReadAllItems(instanceId: string, listing: seq<string>) returns (result: seq<StorageItem>)
      requires IsListing(listing, files)
      ensures result == AllItems(files, instanceId)
    {
      ListingUnique(listing, Sorted(files.Keys));
      result := [];
      assert listing[0..] == listing;
      for k := 0 to |listing|
        invariant result + ItemsOf(listing[k..], files, instanceId) == AllItems(files, instanceId)
      {
        var fileName := listing[k];
        ItemsStep(result, listing, files, instanceId, k);
        if EndsWith(fileName, Suffix(instanceId)) {
          var nameOnly := Removed(fileName, Suffix(instanceId));
          if !EqualsIgnoreCase(nameOnly, "index") && IsLong(nameOnly) && files[fileName].ItemFile? {
            result := result + [files[fileName].item];
          }
        }
      }
      assert listing[|listing|..] == [] && result + [] == result;
    }

    /** The loop that fills the memory of an instance with its recordings. */
    method LoadItems(repo: ProtocolRepo, items: seq<StorageItem>) returns (currRepo: ProtocolRepo)
      ensures currRepo == Remember(repo, items)
    {
      currRepo := repo;
      assert items[0..] == items;
      for k := 0 to |items|
        invariant Remember(repo, items) == Remember(currRepo, items[k..])
      {
        var item := items[k];
        assert items[k..][0] == item && items[k..][1..] == items[k + 1..];
        if item.kind.Some? {
          if IsResponse(item.kind) {
            currRepo := currRepo.(outItems := currRepo.outItems + [item]);
          } else {
            currRepo := currRepo.(inMemoryDb := currRepo.inMemoryDb[item.index := item]);
          }
        }
      }
      assert items[|items|..] == [];
    }

    method InitializeContentForReplay(instanceId: string, listing: seq<string>)
      requires IsListing(listing, files)
      modifies this
      ensures Now() == OpenedForReplay(old(Now()), instanceId)
      ensures instanceId !in old(protocolRepo) ==>
                instanceId in protocolRepo && IsInTimeOrder(protocolRepo[instanceId].index, LoadedIndex(files, instanceId))
    {
      SortsByTime(LoadedIndex(files, instanceId));
      var currRepo := if instanceId in protocolRepo then protocolRepo[instanceId] else NEW_REPO;
      if !currRepo.initialized || currRepo.index == [] || currRepo.inMemoryDb == map[] {
        var items := ReadAllItems(instanceId, listing);
        currRepo := LoadItems(currRepo.(inMemoryDb := map[]), items);
        currRepo := currRepo.(index := SortByTimestamp(LoadedIndex(files, instanceId)));
        BumpCounter(currRepo.index);
        currRepo := currRepo.(initialized := true);
      }
      protocolRepo := protocolRepo[instanceId := currRepo];
    }

    method RecordInteraction(item: Option<LineToWrite>)
      modifies this
      ensures Now() == Submitted(old(Now()), item)
    {
      executorItems := executorItems + 1;
      executor := executor + [item];
    }

    /** The executor thread runs its oldest task. */
    method RunTask()
      requires executor != []
      modifies this
      ensures Now() == TaskRun(old(Now()))
    {
      var item := executor[0];
      executor := executor[1..];
      if item.Some? {
        var w := item.value;
        var line := w.line.(index := w.id);
        if w.instanceId in protocolRepo {
          var repo := protocolRepo[w.instanceId];
          repo := repo.(index := repo.index + [line], somethingWritten := true);
          protocolRepo := protocolRepo[w.instanceId := repo];
          if w.item.Some? {
            var number := PadLeftZeros(Number(w.id), 10);
            var id := number + "." + w.instanceId + ".json";
            assert id == ItemName(w.id, w.instanceId);
            files := files[id := ItemFile(w.item.value.(index := w.id))];
          }
        }
        executorItems := executorItems - 1;
      }
    }

    /** The executor works while another thread sleeps. */
    method RunTasks(n: nat)
      modifies this
      ensures Now() == TasksRun(old(Now()), n)
      decreases n
    {
      if n > 0 && executor != [] {
        RunTask();
        RunTasks(n - 1);
      }
    }

    /** `Sleeper.sleepNoException` on the executor's counter. */
    method WaitForExecutor(done: seq<nat>)
      modifies this
      ensures Now() == Waited(old(Now()), done)
    {
      ghost var whole := Waited(Now(), done);
      assert done[0..] == done;
      var i := 0;
      while i < |done|
        invariant i <= |done| && Waited(Now(), done[i..]) == whole
      {
        assert done[i..][0] == done[i] && done[i..][1..] == done[i + 1..];
        RunTasks(done[i]);
        if executorItems == 0 { return; }
        i := i + 1;
      }
      assert done[|done|..] == [];
    }

    /** `finalizeRecording`; `done` tells how many tasks the executor runs in each round of the wait. */
    method FinalizeRecording(instanceId: string, done: seq<nat>)
      requires |done| == WAIT_ROUNDS
      modifies this
      ensures Now() == Finalized(Waited(old(Now()), done), instanceId)
      ensures var repos := Waited(old(Now()), done).repos;
              instanceId in repos && repos[instanceId].somethingWritten ==>
                && IndexName(instanceId) in files && files[IndexName(instanceId)].IndexFile?
                && IsInTimeOrder(files[IndexName(instanceId)].lines, repos[instanceId].index)
    {
      WaitForExecutor(done);
      ghost var before := Now();
      if instanceId !in protocolRepo { return; }
      var repo := protocolRepo[instanceId];
      protocolRepo := protocolRepo - {instanceId};
      if !repo.somethingWritten { return; }
      SortsByTime(repo.index);
      var indexFile := IndexName(instanceId);
      if indexFile in files {
        files := files - {indexFile};
      }
      files := files[indexFile := IndexFile(SortByTimestamp(repo.index))];
      assert files == before.files[indexFile := IndexFile(SortByTimestamp(repo.index))];
    }

    method FinalizePlay(instanceId: string)
      modifies this`protocolRepo
      ensures Now() == PlayEnded(old(Now()), instanceId)
    {
      protocolRepo := protocolRepo - {instanceId};
    }

    method GetIndexes(instanceId: string) returns (r: Option<seq<CompactLine>>)
      ensures r == if instanceId in protocolRepo then Some(protocolRepo[instanceId].index) else None
    {
      if instanceId !in protocolRepo { return None; }
      return Some(protocolRepo[instanceId].index);
    }

    /** `readFromScenarioById`; of an instance that is not open the file itself is read, or an empty object. */
    method ReadFromScenarioById(instanceId: string, id: int) returns (r: Option<StorageItem>)
      ensures instanceId in protocolRepo ==> r == ReadById(Now(), instanceId, id)
      ensures instanceId !in protocolRepo ==>
                var name := ItemName(id, instanceId);
                r == Some(if name in files && files[name].ItemFile? then files[name].item else EMPTY_ITEM)
    {
      if instanceId !in protocolRepo {
        var number := PadLeftZeros(Number(id), 10);
        var filePath := number + "." + instanceId + ".json";
        assert filePath == ItemName(id, instanceId);
        return Some(if filePath in files && files[filePath].ItemFile? then files[filePath].item else EMPTY_ITEM);
      }
      var ctx := protocolRepo[instanceId];
      if id in ctx.inMemoryDb { return Some(ctx.inMemoryDb[id]); }
      return FirstWithIndex(ctx.outItems, id);
    }
  }
}
