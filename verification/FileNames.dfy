/**
 * The names under which recordings are stored, and the filter that picks one instance's recordings
 * out of a directory shared by all of them.
 */
module FileNames {
  import opened Text
  import opened PaddedNames

  const EXTENSION := ".json"

  function Suffix(instanceId: string): string { "." + instanceId + EXTENSION }

  function ItemName(id: int, instanceId: string): string { Name(id) + Suffix(instanceId) }

  function IndexName(instanceId: string): string { "index" + Suffix(instanceId) }

  /** `s.replace(w, "")`: every occurrence of `w`, from the left, is taken out. */
  function Removed(s: string, w: string): string
    requires w != ""
    decreases |s|
  {
    if s == "" then ""
    else if StartsWith(s, w) then Removed(s[|w|..], w)
    else [s[0]] + Removed(s[1..], w)
  }

  const LONG_MAX := 9223372036854775807

  /** `Long.parseLong` accepts the text: an optional sign and decimal digits of a number in range. */
  predicate IsLong(s: string) {
    if s != "" && (s[0] == '+' || s[0] == '-') then
      s[1..] != "" && AllDigits(s[1..]) && Value(s[1..]) <= LONG_MAX + if s[0] == '-' then 1 else 0
    else
      s != "" && AllDigits(s) && Value(s) <= LONG_MAX
  }

  /** The tests a file name passes in `readAllItems` before its content is read. */
  predicate IsRead(name: string, instanceId: string) {
    && EndsWith(name, Suffix(instanceId))
    && var nameOnly := Removed(name, Suffix(instanceId));
       !EqualsIgnoreCase(nameOnly, "index") && IsLong(nameOnly)
  }

  predicate IsOrdinaryId(id: int) { 0 <= id < Pow10(10) }

  predicate Contains(s: string, w: string) { exists k :: 0 <= k <= |s| && StartsWith(s[k..], w) }

  // ---------------------------------------------------------------- names tell recordings apart

  lemma {:induction false} ItemNameAt(id: nat, instanceId: string)
    requires IsOrdinaryId(id)
    ensures var n := ItemName(id, instanceId);
            && |n| == 16 + |instanceId|
            && n[..10] == Name(id) && AllDigits(n[..10]) && n[10] == '.' && n[10..] == Suffix(instanceId)
            && n[11..|n| - 5] == instanceId && n[|n| - 5..] == EXTENSION
  {
    NameIs(id);
    var n := ItemName(id, instanceId);
    assert n[11..|n| - 5] == instanceId;
  }

  lemma {:induction false} ItemIsNoIndex(id: int, x: string, y: string)
    ensures ItemName(id, x) != IndexName(y)
  {
    assert ItemName(id, x)[0] == Name(id)[0] && IndexName(y)[0] == 'i';
  }

  lemma {:induction false} ItemNamesDiffer(a: nat, x: string, b: nat, y: string)
    requires IsOrdinaryId(a) && IsOrdinaryId(b)
    ensures ItemName(a, x) == ItemName(b, y) <==> a == b && x == y
    ensures ItemName(a, x) != IndexName(y)
  {
    ItemNameAt(a, x);
    ItemNameAt(b, y);
    NamesSortAsNumbers(a, b);
    assert IndexName(y)[0] == 'i' && IsDigit(ItemName(a, x)[..10][0]);
  }

  lemma {:induction false} IndexNamesDiffer(x: string, y: string)
    ensures IndexName(x) == IndexName(y) <==> x == y
  {
    var n, m := IndexName(x), IndexName(y);
    assert n[6..|n| - 5] == x && m[6..|m| - 5] == y;
  }

  /** With the same instance, names sort as the ids do. */
  lemma {:induction false} BeforeSuffix(a: string, b: string, w: string)
    requires |a| == |b|
    ensures Before(a + w, b + w) <==> Before(a, b)
    decreases |a|
  {
    if a == "" {
      assert a + w == w && b + w == w;
      NotBeforeItself(w);
    } else {
      assert (a + w)[1..] == a[1..] + w && (b + w)[1..] == b[1..] + w;
      BeforeSuffix(a[1..], b[1..], w);
    }
  }

  lemma {:induction false} NotBeforeItself(w: string)
    ensures !Before(w, w)
    decreases |w|
  {
    if w != "" { NotBeforeItself(w[1..]); }
  }

  lemma {:induction false} ItemNamesSortAsIds(a: nat, b: nat, instanceId: string)
    requires IsOrdinaryId(a) && IsOrdinaryId(b)
    ensures Before(ItemName(a, instanceId), ItemName(b, instanceId)) <==> a < b
  {
    NameIs(a);
    NameIs(b);
    NamesSortAsNumbers(a, b);
    BeforeSuffix(Name(a), Name(b), Suffix(instanceId));
  }

  // ---------------------------------------------------------------- what an instance reads

  /** Text in front of the first place where `w` could begin survives the removal. */
  lemma {:induction false} RemovedKeeps(s: string, w: string, k: nat)
    requires w != "" && k <= |s|
    requires forall m :: 0 <= m < k ==> !StartsWith(s[m..], w)
    ensures Removed(s, w) == s[..k] + Removed(s[k..], w)
    decreases k
  {
    if k == 0 {
      assert s[0..] == s;
    } else {
      assert s[0..] == s;
      forall m | 0 <= m < k - 1 ensures !StartsWith(s[1..][m..], w) {
        assert s[1..][m..] == s[m + 1..];
      }
      RemovedKeeps(s[1..], w, k - 1);
      assert s[1..][k - 1..] == s[k..];
      assert [s[0]] + s[1..][..k - 1] == s[..k];
    }
  }

  lemma {:induction false} StartsAlike(t: string, w: string, k: nat)
    requires StartsWith(t, w) && k < |w|
    ensures t[k] == w[k]
  {
    assert t[..|w|][k] == t[k];
  }

  lemma {:induction false} NoDotNoSuffix(s: string, instanceId: string, m: nat)
    requires m < |s| && s[m] != '.'
    ensures !StartsWith(s[m..], Suffix(instanceId))
  {
    var w := Suffix(instanceId);
    if StartsWith(s[m..], w) { StartsAlike(s[m..], w, 0); }
  }

  /** Removing an instance's suffix leaves the ten digits alone. */
  lemma {:induction false} RemovedFromItem(id: nat, other: string, instanceId: string)
    requires IsOrdinaryId(id)
    ensures Removed(ItemName(id, other), Suffix(instanceId)) == Name(id) + Removed(Suffix(other), Suffix(instanceId))
  {
    var n, w := ItemName(id, other), Suffix(instanceId);
    ItemNameAt(id, other);
    forall m | 0 <= m < 10 ensures !StartsWith(n[m..], w) {
      assert n[..10][m] == n[m];
      NoDotNoSuffix(n, instanceId, m);
    }
    RemovedKeeps(n, w, 10);
  }

  lemma {:induction false} RemovedItself(w: string, rest: string)
    requires w != ""
    ensures Removed(w + rest, w) == Removed(rest, w)
  {
    assert (w + rest)[..|w|] == w && (w + rest)[|w|..] == rest;
  }

  lemma {:induction false} NameIsLong(id: nat)
    requires IsOrdinaryId(id)
    ensures IsLong(Name(id)) && !EqualsIgnoreCase(Name(id), "index")
  {
    NameIs(id);
    TenBillion();
  }

  /** An instance reads its own recordings. */
  lemma {:induction false} OwnItemIsRead(id: nat, instanceId: string)
    requires IsOrdinaryId(id)
    ensures IsRead(ItemName(id, instanceId), instanceId)
  {
    var n, w := ItemName(id, instanceId), Suffix(instanceId);
    RemovedFromItem(id, instanceId, instanceId);
    assert w + "" == w;
    RemovedItself(w, "");
    assert Removed(n, w) == Name(id);
    NameIsLong(id);
    assert n[|n| - |w|..] == w;
  }

  lemma {:induction false} TenBillion()
    ensures Pow10(10) == 10000000000
  {
    assert Pow10(2) == 100;
    assert Pow10(4) == 10000;
    assert Pow10(6) == 1000000;
    assert Pow10(8) == 100000000;
  }

  lemma {:induction false} DigitsAppend(a: string, b: string)
    ensures AllDigits(a + b) <==> AllDigits(a) && AllDigits(b)
  {
    if AllDigits(a + b) {
      forall i | 0 <= i < |a| ensures IsDigit(a[i]) { assert (a + b)[i] == a[i]; }
      forall i | 0 <= i < |b| ensures IsDigit(b[i]) { assert (a + b)[|a| + i] == b[i]; }
    }
  }

  lemma {:induction false} LongIff(number: string, extra: string)
    requires number != "" && AllDigits(number)
    ensures IsLong(number + extra) <==> AllDigits(extra) && Value(number + extra) <= LONG_MAX
  {
    assert (number + extra)[0] == number[0];
    DigitsAppend(number, extra);
  }

  /** The suffix looked for lies in the suffix of the name: it starts with a dot, the rest of the name is digits. */
  lemma {:induction false} EndsAfterDigits(number: string, own: string, w: string)
    requires AllDigits(number) && w != "" && w[0] == '.'
    ensures EndsWith(number + own, w) <==> EndsWith(own, w)
  {
    var n := number + own;
    if |w| <= |own| {
      assert n[|n| - |w|..] == own[|own| - |w|..];
    } else if |w| <= |n| {
      assert n[|n| - |w|] == number[|n| - |w|] && n[|n| - |w|..][0] == n[|n| - |w|];
    }
  }

  /**
   * A recording is read by exactly those instances whose suffix ends its own one, and leaves nothing
   * but digits of it when every occurrence is taken out.
   */
  lemma {:induction false} ItemIsReadIff(id: nat, other: string, instanceId: string)
    requires IsOrdinaryId(id)
    ensures var extra := Removed(Suffix(other), Suffix(instanceId));
            IsRead(ItemName(id, other), instanceId)
            <==> EndsWith(Suffix(other), Suffix(instanceId)) && AllDigits(extra) && Value(Name(id) + extra) <= LONG_MAX
  {
    var extra := Removed(Suffix(other), Suffix(instanceId));
    NameIs(id);
    RemovedFromItem(id, other, instanceId);
    EndsAfterDigits(Name(id), Suffix(other), Suffix(instanceId));
    LongIff(Name(id), extra);
    assert (Name(id) + extra)[0] == Name(id)[0];
  }

  /** An index file is never read as a recording, whoever it belongs to. */
  lemma {:induction false} IndexIsNotRead(other: string, instanceId: string)
    ensures !IsRead(IndexName(other), instanceId)
  {
    var n, w := IndexName(other), Suffix(instanceId);
    NoDotNoSuffix(n, instanceId, 0);
    assert n[0..] == n;
    assert Removed(n, w)[0] == 'i';
  }

  /** The recordings of another instance are skipped, if no `.json` is hidden inside its id. */
  lemma {:induction false} ForeignItemIsSkipped(id: nat, other: string, instanceId: string)
    requires IsOrdinaryId(id) && other != instanceId && !Contains(other, EXTENSION)
    ensures !IsRead(ItemName(id, other), instanceId)
  {
    var n, w := ItemName(id, other), Suffix(instanceId);
    ItemNameAt(id, other);
    if EndsWith(n, w) {
      if StartsWith(n[10..], w) { SuffixInFront(n, w, other, instanceId); }
      RemovedFromItem(id, other, instanceId);
      assert Removed(n, w)[10] == '.';
      assert Removed(n, w)[0] == n[..10][0];
    }
  }

  /** A foreign name carries the suffix right after its ten digits only with an extension inside its id. */
  lemma {:induction false} SuffixInFront(n: string, w: string, other: string, instanceId: string)
    requires w == Suffix(instanceId) && |n| == 16 + |other| && n[10..] == Suffix(other)
    requires n[11..|n| - 5] == other && n[|n| - 5..] == EXTENSION
    requires StartsWith(n[10..], w)
    ensures other == instanceId || Contains(other, EXTENSION)
  {
    var e := 10 + |w|;
    assert w == n[10..e];
    assert w[|w| - 5..] == EXTENSION && w[1..|w| - 5] == instanceId;
    assert n[e - 5..e] == EXTENSION;
    if e == |n| {
      assert w == n[10..] && n[10..][1..|n| - 15] == other;
    } else {
      LastExtension(n, e);
      assert other[e - 16..][..5] == n[e - 5..e];
      assert StartsWith(other[e - 16..], EXTENSION);
    }
  }

  /** Two occurrences of the extension do not overlap. */
  lemma {:induction false} LastExtension(n: string, e: nat)
    requires 5 <= e < |n| && n[e - 5..e] == EXTENSION && n[|n| - 5..] == EXTENSION
    ensures e <= |n| - 5
  {
    assert n[|n| - 5..][0] == n[|n| - 5] == '.';
    assert n[e - 4] == n[e - 5..e][1] && n[e - 3] == n[e - 5..e][2];
    assert n[e - 2] == n[e - 5..e][3] && n[e - 1] == n[e - 5..e][4];
  }

  /** Without that condition recordings do leak: instance `a` reads what `a.json.a` recorded. */
  lemma {:induction false} HiddenExtensionLeaks(id: nat, instanceId: string)
    requires IsOrdinaryId(id)
    ensures IsRead(ItemName(id, instanceId + EXTENSION + "." + instanceId), instanceId)
  {
    var other := instanceId + EXTENSION + "." + instanceId;
    var n, w := ItemName(id, other), Suffix(instanceId);
    assert Suffix(other) == w + w && w == w + "";
    RemovedFromItem(id, other, instanceId);
    RemovedItself(w, w);
    RemovedItself(w, "");
    assert Removed(n, w) == Name(id);
    NameIsLong(id);
    assert n == Name(id) + w + w && n[|n| - |w|..] == w;
  }
}
