/**
 * When a mock answers, `BasicMockPlugin`: from its n-th request on, a given number of times. The request
 * counter is 32 bits wide and wraps; the schedule does not depend on it.
 */
module Mock {
  import opened Wrappers
  import opened JavaInt

  datatype MockStorage = MockStorage(index: int, nthRequest: int, count: int)

  // ---------------------------------------------------------------- one mock as an automaton

  datatype Automaton = Automaton(counter: int, nthRequest: int, count: int)

  function UsedOnce(count: int): int { if count > 0 then count - 1 else count }

  predicate Fires(a: Automaton) {
    if a.nthRequest > 0 then Int32(a.counter + 1) == a.nthRequest else a.count > 0
  }

  /** The mock after one more request selected it. */
  function Stepped(a: Automaton): Automaton {
    var counted := a.(counter := Int32(a.counter + 1));
    if !Fires(a) then counted
    else counted.(nthRequest := if a.nthRequest > 0 then -1 else a.nthRequest, count := UsedOnce(a.count))
  }

  function After(n: int, c: int, k: nat): Automaton {
    if k == 0 then Automaton(0, n, c) else Stepped(After(n, c, k - 1))
  }

  /** The schedule: the first answer comes at request n, and there are max(1, c) in a row; without n, c from the start. */
  predicate IsDue(n: int, c: int, k: int) {
    if n > 0 then n <= k < n + (if c > 1 then c else 1) else 0 < k <= c
  }

  /** The fields of a mock after `k` requests, in closed form. */
  function ClosedForm(n: int, c: int, k: nat): Automaton {
    var answers := if n <= 0 then k else if k < n then 0 else k - n + 1;
    Automaton(Int32(k), if n > 0 && k >= n then -1 else n, if c <= answers && c > 0 then 0 else if c > 0 then c - answers else c)
  }

  lemma {:induction false} CountsUp(k: nat)
    ensures Int32(Int32(k) + 1) == Int32(k + 1)
    ensures k < INT_MAX ==> Int32(k + 1) == k + 1
  {}

  lemma {:induction false} FiresWhenDue(n: int, c: int, k: nat)
    requires n <= INT_MAX
    ensures Fires(ClosedForm(n, c, k)) <==> IsDue(n, c, k + 1)
  {
    CountsUp(k);
  }

  lemma {:induction false} StepOfClosedForm(n: int, c: int, k: nat)
    requires n <= INT_MAX
    ensures Stepped(ClosedForm(n, c, k)) == ClosedForm(n, c, k + 1)
  {
    FiresWhenDue(n, c, k);
    CountsUp(k);
  }

  lemma {:induction false} AfterIsClosedForm(n: int, c: int, k: nat)
    requires n <= INT_MAX
    ensures After(n, c, k) == ClosedForm(n, c, k)
    decreases k
  {
    if k > 0 {
      AfterIsClosedForm(n, c, k - 1);
      StepOfClosedForm(n, c, k - 1);
    }
  }

  /** The k-th request that selects a mock is answered exactly when the schedule says so. */
  lemma {:induction false} KthRequestIff(n: int, c: int, k: nat)
    requires n <= INT_MAX && k > 0
    ensures Fires(After(n, c, k - 1)) <==> IsDue(n, c, k)
  {
    AfterIsClosedForm(n, c, k - 1);
    FiresWhenDue(n, c, k - 1);
  }

  // ---------------------------------------------------------------- the plugin

  type States = map<int, Automaton>

  function Handled(states: States, founded: int): States {
    if founded > 0 && founded in states then states[founded := Stepped(states[founded])] else states
  }

  predicate Answers(states: States, founded: int) {
    founded > 0 && founded in states && Fires(states[founded])
  }

  /** No two files share an index, and every index has a counter. */
  predicate AreLoaded(counters: map<int, int>, mocks: map<string, MockStorage>) {
    && (forall a, b :: a in mocks && b in mocks && mocks[a].index == mocks[b].index ==> a == b)
    && (forall a :: a in mocks ==> mocks[a].index in counters)
  }

  ghost function StatesOf(counters: map<int, int>, mocks: map<string, MockStorage>): States
    requires AreLoaded(counters, mocks)
  {
    map name | name in mocks :: mocks[name].index := Automaton(counters[mocks[name].index], mocks[name].nthRequest, mocks[name].count)
  }

  lemma {:induction false} StateIs(counters: map<int, int>, mocks: map<string, MockStorage>, name: string)
    requires AreLoaded(counters, mocks) && name in mocks
    ensures var m := mocks[name]; var s := StatesOf(counters, mocks);
            m.index in s && s[m.index] == Automaton(counters[m.index], m.nthRequest, m.count)
  {}

  predicate HoldsState(states: States, counters: map<int, int>, mock: MockStorage) {
    mock.index in counters && mock.index in states
    && states[mock.index] == Automaton(counters[mock.index], mock.nthRequest, mock.count)
  }

  predicate IsIndexOf(mocks: map<string, MockStorage>, index: int) { exists n :: n in mocks && mocks[n].index == index }

  lemma {:induction false} StatesHave(counters: map<int, int>, mocks: map<string, MockStorage>)
    requires AreLoaded(counters, mocks)
    ensures forall i :: i in StatesOf(counters, mocks) <==> IsIndexOf(mocks, i)
  {}

  /** States are known by their indexes and the state under each. */
  lemma {:induction false} StatesAre(counters: map<int, int>, mocks: map<string, MockStorage>, states: States)
    requires AreLoaded(counters, mocks)
    requires forall n :: n in mocks ==> HoldsState(states, counters, mocks[n])
    requires forall i :: i in states ==> IsIndexOf(mocks, i)
    ensures StatesOf(counters, mocks) == states
  {
    StatesHave(counters, mocks);
    forall i | i in states ensures StatesOf(counters, mocks)[i] == states[i] {
      var n :| n in mocks && mocks[n].index == i;
      StateIs(counters, mocks, n);
    }
  }

  lemma {:induction false} StillLoaded(counters: map<int, int>, mocks: map<string, MockStorage>, name: string, counter: int, mock: MockStorage)
    requires AreLoaded(counters, mocks) && name in mocks && mock.index == mocks[name].index
    ensures AreLoaded(counters[mock.index := counter], mocks[name := mock])
  {}

  lemma {:induction false} OthersKept(counters: map<int, int>, mocks: map<string, MockStorage>, name: string, state: Automaton, mock: MockStorage, n: string)
    requires AreLoaded(counters, mocks) && name in mocks && mock.index == mocks[name].index
    requires n in mocks && n != name
    ensures HoldsState(StatesOf(counters, mocks)[mock.index := state], counters[mock.index := state.counter], mocks[n])
  {
    StateIs(counters, mocks, n);
    assert mocks[n].index != mock.index;
  }

  lemma {:induction false} SameIndexes(mocks: map<string, MockStorage>, name: string, mock: MockStorage, i: int)
    requires name in mocks && mock.index == mocks[name].index && IsIndexOf(mocks, i)
    ensures IsIndexOf(mocks[name := mock], i)
  {
    var n :| n in mocks && mocks[n].index == i;
    assert n in mocks[name := mock] && mocks[name := mock][n].index == i;
  }

  /** When one mock and its counter change, the other mocks keep their state. */
  lemma {:induction false} OneChanged(counters: map<int, int>, mocks: map<string, MockStorage>, name: string, state: Automaton, mock: MockStorage)
    requires AreLoaded(counters, mocks) && name in mocks && mock.index == mocks[name].index
    requires mock.nthRequest == state.nthRequest && mock.count == state.count
    ensures AreLoaded(counters[mock.index := state.counter], mocks[name := mock])
    ensures StatesOf(counters[mock.index := state.counter], mocks[name := mock]) == StatesOf(counters, mocks)[mock.index := state]
  {
    var c, m, after := counters[mock.index := state.counter], mocks[name := mock], StatesOf(counters, mocks)[mock.index := state];
    StillLoaded(counters, mocks, name, state.counter, mock);
    forall n | n in m ensures HoldsState(after, c, m[n]) {
      if n != name { OthersKept(counters, mocks, name, state, mock, n); }
    }
    forall i | i in after ensures IsIndexOf(m, i) {
      StatesHave(counters, mocks);
      assert mocks[name].index == mock.index;
      SameIndexes(mocks, name, mock, i);
    }
    StatesAre(c, m, after);
  }

  /** The mock with the fields of a state. */
  function WithState(mock: MockStorage, state: Automaton): MockStorage {
    mock.(nthRequest := state.nthRequest, count := state.count)
  }

  lemma {:induction false} NoMock(counters: map<int, int>, mocks: map<string, MockStorage>, index: int)
    requires AreLoaded(counters, mocks) && forall n :: n in mocks ==> mocks[n].index != index
    ensures index !in StatesOf(counters, mocks)
  {}

  predicate DistinctNames(files: seq<(string, MockStorage)>) {
    forall i, j :: 0 <= i < j < |files| ==> files[i].0 != files[j].0
  }

  predicate DistinctIndexes(files: seq<(string, MockStorage)>) {
    forall i, j :: 0 <= i < j < |files| ==> files[i].1.index != files[j].1.index
  }

  function IndexesOf(files: seq<(string, MockStorage)>): set<int> { set j | 0 <= j < |files| :: files[j].1.index }

  lemma {:induction false} DistinctGrows(files: seq<(string, MockStorage)>, k: nat)
    requires k < |files| && DistinctNames(files) && DistinctIndexes(files[..k])
    ensures files[..k + 1] == files[..k] + [files[k]] && DistinctNames(files[..k + 1])
    ensures DistinctIndexes(files[..k + 1]) <==> files[k].1.index !in IndexesOf(files[..k])
    ensures IndexesOf(files[..k + 1]) == IndexesOf(files[..k]) + {files[k].1.index}
    ensures !DistinctIndexes(files[..k + 1]) ==> !DistinctIndexes(files)
  {
    var front, more := files[..k], files[..k + 1];
    assert forall j :: 0 <= j < k ==> more[j] == front[j] == files[j];
    assert more[k] == files[k];
    forall i ensures i in IndexesOf(more) <==> i in IndexesOf(front) || i == files[k].1.index {
      if i in IndexesOf(front) {
        var j :| 0 <= j < k && front[j].1.index == i;
        assert more[j].1.index == i;
      }
      if i == files[k].1.index { assert more[k].1.index == i; }
    }
  }

  /** The maps hold just these files, each with a counter at zero. */
  ghost predicate LoadedFrom(files: seq<(string, MockStorage)>, counters: map<int, int>, mocks: map<string, MockStorage>) {
    && (forall n :: n in mocks ==> exists j :: 0 <= j < |files| && files[j] == (n, mocks[n]))
    && (forall j :: 0 <= j < |files| ==> files[j].0 in mocks && mocks[files[j].0] == files[j].1)
    && (forall j :: 0 <= j < |files| ==> files[j].1.index in counters && counters[files[j].1.index] == 0)
    && AreLoaded(counters, mocks)
  }

  lemma {:induction false} LoadOne(files: seq<(string, MockStorage)>, file: (string, MockStorage), counters: map<int, int>,
                mocks: map<string, MockStorage>)
    requires LoadedFrom(files, counters, mocks) && DistinctNames(files + [file]) && file.1.index !in IndexesOf(files)
    ensures LoadedFrom(files + [file], counters[file.1.index := 0], mocks[file.0 := file.1])
  {
    var all, c, m := files + [file], counters[file.1.index := 0], mocks[file.0 := file.1];
    assert all[|files|] == file;
    assert forall j :: 0 <= j < |files| ==> all[j] == files[j] && files[j].0 != file.0;
    forall n | n in m ensures exists j :: 0 <= j < |all| && all[j] == (n, m[n]) {
      if n != file.0 {
        var j :| 0 <= j < |files| && files[j] == (n, mocks[n]);
        assert all[j] == (n, m[n]);
      }
    }
    LoadedOne(files, file, counters, mocks);
  }

  lemma {:induction false} LoadedOne(files: seq<(string, MockStorage)>, file: (string, MockStorage), counters: map<int, int>,
                  mocks: map<string, MockStorage>)
    requires LoadedFrom(files, counters, mocks) && file.1.index !in IndexesOf(files)
    ensures AreLoaded(counters[file.1.index := 0], mocks[file.0 := file.1])
  {
    forall n | n in mocks ensures mocks[n].index != file.1.index {
      var j :| 0 <= j < |files| && files[j] == (n, mocks[n]);
      assert files[j].1.index in IndexesOf(files);
    }
  }

  lemma {:induction false} LoadedStates(files: seq<(string, MockStorage)>, counters: map<int, int>, mocks: map<string, MockStorage>)
    requires LoadedFrom(files, counters, mocks)
    ensures forall k :: 0 <= k < |files| ==>
              var m := files[k].1; var s := StatesOf(counters, mocks);
              m.index in s && s[m.index] == Automaton(0, m.nthRequest, m.count)
  {
    forall k | 0 <= k < |files|
      ensures var m := files[k].1; var s := StatesOf(counters, mocks);
              m.index in s && s[m.index] == Automaton(0, m.nthRequest, m.count)
    {
      StateIs(counters, mocks, files[k].0);
    }
  }

  class MockPlugin {
    var counters: map<int, int>
    var mocks: map<string, MockStorage>

    ghost predicate Valid()
      reads this
    {
      AreLoaded(counters, mocks)
    }

    ghost function Now(): States
      requires Valid()
      reads this
    {
      StatesOf(counters, mocks)
    }

    constructor ()
      ensures Valid() && mocks == map[]
    {
      counters, mocks := map[], map[];
    }

    /** `loadMocks`; two files with the same id are refused. */
    method LoadMocks(files: seq<(string, MockStorage)>) returns (ok: bool)
      requires DistinctNames(files)
      modifies this
      ensures ok <==> DistinctIndexes(files)
      ensures Valid()
      ensures ok ==> forall k :: 0 <= k < |files| ==>
                var m := files[k].1;
                m.index in Now() && Now()[m.index] == Automaton(0, m.nthRequest, m.count)
    {
      counters := map[];
      mocks := map[];
      var presentAlready: set<int> := {};
      for k := 0 to |files|
        invariant presentAlready == IndexesOf(files[..k])
        invariant DistinctIndexes(files[..k])
        invariant LoadedFrom(files[..k], counters, mocks)
      {
        var (file, si) := files[k];
        DistinctGrows(files, k);
        if si.index in presentAlready { return false; }
        LoadOne(files[..k], files[k], counters, mocks);
        presentAlready := presentAlready + {si.index};
        mocks := mocks[file := si];
        counters := counters[si.index := 0];
      }
      assert files[..|files|] == files;
      LoadedStates(files, counters, mocks);
      return true;
    }

    method FindMock(index: int) returns (name: Option<string>)
      ensures name.Some? ==> name.value in mocks && mocks[name.value].index == index
      ensures name.None? ==> forall n :: n in mocks ==> mocks[n].index != index
    {
      var left := mocks.Keys;
      while left != {}
        invariant left <= mocks.Keys
        invariant forall n :: n in mocks && n !in left ==> mocks[n].index != index
        decreases left
      {
        var n :| n in left;
        if mocks[n].index == index { return Some(n); }
        left := left - {n};
      }
      return None;
    }

    /** `handle`, once `checkMatching` has gone over the mocks and left `foundedIndex`. */
    method Handle(foundedIndex: int) returns (answered: bool)
      requires Valid()
      modifies this
      ensures Valid() && Now() == Handled(old(Now()), foundedIndex)
      ensures answered == Answers(old(Now()), foundedIndex)
    {
      answered := false;
      if foundedIndex > 0 {
        var found := FindMock(foundedIndex);
        if found.Some? {
          var name := found.value;
          var founded := mocks[name];
          ghost var state := Automaton(counters[foundedIndex], founded.nthRequest, founded.count);
          StateIs(counters, mocks, name);
          OneChanged(counters, mocks, name, Stepped(state), WithState(founded, Stepped(state)));
          var counter, mock, fires := HandleMock(counters[foundedIndex], founded);
          counters := counters[foundedIndex := counter];
          mocks := mocks[name := mock];
          answered := fires;
        } else {
          NoMock(counters, mocks, foundedIndex);
        }
      }
    }

    /** The part of `handle` that concerns the mock found. */
    method HandleMock(count: int, mock: MockStorage) returns (counter: int, founded: MockStorage, answered: bool)
      ensures var state := Automaton(count, mock.nthRequest, mock.count);
              && counter == Stepped(state).counter && founded == WithState(mock, Stepped(state))
              && answered == Fires(state)
    {
      counter := Int32(count + 1);
      founded := mock;
      answered := false;
      if founded.nthRequest > 0 {
        var isNth := counter == founded.nthRequest;
        if isNth {
          founded := founded.(nthRequest := -1);
          if founded.count > 0 {
            founded := founded.(count := founded.count - 1);
          }
          answered := true;
        }
      } else if founded.count > 0 {
        founded := founded.(count := founded.count - 1);
        answered := true;
      }
    }

    /** A run of requests, each with the mock it selects. */
    method HandleAll(founded: seq<int>) returns (answers: seq<bool>)
      requires Valid()
      modifies this
      ensures Valid() && answers == AnswersOf(old(Now()), founded)
    {
      answers := [];
      if founded != [] {
        var first := Handle(founded[0]);
        var rest := HandleAll(founded[1..]);
        answers := [first] + rest;
      }
    }
  }

  // ---------------------------------------------------------------- many mocks, any interleaving

  function AnswersOf(states: States, founded: seq<int>): (answers: seq<bool>)
    ensures |answers| == |founded|
  {
    if founded == [] then [] else [Answers(states, founded[0])] + AnswersOf(Handled(states, founded[0]), founded[1..])
  }

  function Occurrences(founded: seq<int>, index: int): nat {
    if founded == [] then 0 else (if founded[0] == index then 1 else 0) + Occurrences(founded[1..], index)
  }

  lemma {:induction false} OccurrencesSnoc(founded: seq<int>, last: int, index: int)
    ensures Occurrences(founded + [last], index) == Occurrences(founded, index) + if last == index then 1 else 0
    decreases |founded|
  {
    if founded == [] {
      assert founded + [last] == [last] && [last][1..] == [];
    } else {
      assert (founded + [last])[1..] == founded[1..] + [last];
      OccurrencesSnoc(founded[1..], last, index);
    }
  }

  /** Every mock with a positive index has taken as many steps as `steps` says. */
  ghost predicate HasTaken(states: States, start: States, steps: int -> nat) {
    && states.Keys == start.Keys
    && forall i :: i in start && i > 0 ==> states[i] == After(start[i].nthRequest, start[i].count, steps(i))
  }

  lemma {:induction false} AnswersAre(states: States, start: States, done: seq<int>, founded: seq<int>, j: nat)
    requires j < |founded|
    requires HasTaken(states, start, i => Occurrences(done, i))
    ensures var i := founded[j];
            AnswersOf(states, founded)[j]
            <==> i > 0 && i in start
                 && Fires(After(start[i].nthRequest, start[i].count, Occurrences(done + founded[..j], i)))
    decreases |founded|
  {
    if j == 0 {
      assert done + founded[..0] == done;
    } else {
      var first := founded[0];
      forall i ensures Occurrences(done + [first], i) == Occurrences(done, i) + if first == i then 1 else 0 {
        OccurrencesSnoc(done, first, i);
      }
      AnswersAre(Handled(states, first), start, done + [first], founded[1..], j - 1);
      assert done + [first] + founded[1..][..j - 1] == done + founded[..j];
    }
  }

  /**
   * In any interleaving of requests over any number of freshly loaded mocks, request `j` is answered
   * exactly when its mock exists and the number of requests that selected it so far is one the
   * schedule of that mock names.
   */
  lemma {:induction false} ScheduleIsKept(start: States, founded: seq<int>, j: nat)
    requires j < |founded|
    requires forall i :: i in start ==> start[i].counter == 0 && start[i].nthRequest <= INT_MAX
    ensures var i := founded[j];
            AnswersOf(start, founded)[j]
            <==> i > 0 && i in start && IsDue(start[i].nthRequest, start[i].count, Occurrences(founded[..j + 1], i))
  {
    var i := founded[j];
    AnswersAre(start, start, [], founded, j);
    assert [] + founded[..j] == founded[..j] && founded[..j + 1] == founded[..j] + [i];
    OccurrencesSnoc(founded[..j], i, i);
    if i in start { KthRequestIff(start[i].nthRequest, start[i].count, Occurrences(founded[..j + 1], i)); }
  }
}
