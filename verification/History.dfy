/**
 The connection history that several browser tabs share (webssh/src/history.ts and
 `persistHistoryMutation` in webssh/src/main.ts): each change reads the stored list, merges
 last-writer-wins and writes it back under a lock.
 */
module History {

  import opened Wrappers

  /** `key` is user, host and port; `data` is everything else that is saved. */
  datatype Entry = Entry(key: string, updatedAt: int, data: string)

  // ----- Normalising -----

  /** Stable insertion: after every entry that is not older. */
  function Insert(s: seq<Entry>, e: Entry): seq<Entry> {
    if s == [] then [e]
    else if s[0].updatedAt >= e.updatedAt then [s[0]] + Insert(s[1..], e)
    else [e] + s
  }

  /** The stable sort, newest first. */
  function Sorted(s: seq<Entry>): seq<Entry> {
    if s == [] then [] else Insert(Sorted(s[..|s| - 1]), s[|s| - 1])
  }

  function Keys(s: seq<Entry>): set<string> { set e <- s :: e.key }

  /** The first entry of every key. */
  function FirstOfEach(s: seq<Entry>): seq<Entry> {
    if s == [] then []
    else
      var r := FirstOfEach(s[..|s| - 1]);
      if s[|s| - 1].key in Keys(r) then r else r + [s[|s| - 1]]
  }

  function Normalize(s: seq<Entry>): seq<Entry> { FirstOfEach(Sorted(s)) }

  /** A map and its insertion order hold the list `r`. */
  ghost predicate Mirrors(unique: map<string, Entry>, order: seq<string>, r: seq<Entry>) {
    && unique.Keys == Keys(r) && |order| == |r|
    && forall j :: 0 <= j < |r| ==> order[j] == r[j].key && order[j] in unique && unique[order[j]] == r[j]
  }

  lemma MirrorsAppend(unique: map<string, Entry>, order: seq<string>, r: seq<Entry>, e: Entry)
    requires Mirrors(unique, order, r) && e.key !in unique
    ensures Mirrors(unique[e.key := e], order + [e.key], r + [e])
  {
    assert Keys(r + [e]) == Keys(r) + {e.key} by {
      assert forall x :: x in r + [e] <==> x in r || x == e;
    }
  }

  method NormalizeHistory(entries: seq<Entry>) returns (r: seq<Entry>)
    ensures r == Normalize(entries)
  {
    hide Sorted, Insert, Keys, Mirrors;
    var sorted := Sorted(entries);
    var unique: map<string, Entry>, order: seq<string> := map[], [];
    MirrorsNothing();
    for i := 0 to |sorted|
      invariant Mirrors(unique, order, FirstOfEach(sorted[..i]))
    {
      assert sorted[..i + 1][..i] == sorted[..i];
      var entry := sorted[i];
      MirroredKeys(unique, order, FirstOfEach(sorted[..i]));
      if entry.key !in unique {
        MirrorsAppend(unique, order, FirstOfEach(sorted[..i]), entry);
        unique, order := unique[entry.key := entry], order + [entry.key];
      }
    }
    assert sorted[..|sorted|] == sorted;
    MirroredKeys(unique, order, Normalize(entries));
    r := seq(|order|, j requires 0 <= j < |order| && order[j] in unique => unique[order[j]]);
  }

  lemma MirrorsNothing()
    ensures Mirrors(map[], [], [])
  {
  }

  lemma MirroredKeys(unique: map<string, Entry>, order: seq<string>, r: seq<Entry>)
    requires Mirrors(unique, order, r)
    ensures unique.Keys == Keys(r) && |order| == |r|
    ensures forall j :: 0 <= j < |order| ==> order[j] in unique && unique[order[j]] == r[j]
  {
  }

  // ----- Merging -----

  function Without(s: seq<Entry>, key: string): seq<Entry> {
    if s == [] then []
    else (if s[0].key == key then [] else [s[0]]) + Without(s[1..], key)
  }

  function Find(s: seq<Entry>, key: string): (r: Option<Entry>)
    ensures r.None? <==> key !in Keys(s)
    ensures r.Some? ==> r.value in s && r.value.key == key
  {
    if s == [] then None else if s[0].key == key then Some(s[0]) else
      assert s == [s[0]] + s[1..];
      Find(s[1..], key)
  }

  function Upsert(s: seq<Entry>, e: Entry): seq<Entry> { [e] + Without(s, e.key) }

  /** The merged list, and whether the entry was taken. */
  function UpsertIfNewer(s: seq<Entry>, e: Entry, now: int): (seq<Entry>, bool) {
    var existing := Find(s, e.key);
    if existing.Some? && existing.value.updatedAt >= e.updatedAt && existing.value.updatedAt <= now
    then (Normalize(s), false)
    else (Normalize(Upsert(s, e)), true)
  }

  // ----- The locked change -----

  datatype Mutation = Put(entry: Entry) | Delete(target: string)

  /** One change by one tab, with the clock and whether the browser lets it write. */
  datatype Change = Change(tab: nat, mutation: Mutation, now: int, writable: bool)

  datatype Outcome = Outcome(stored: Option<seq<Entry>>, profiles: seq<Entry>, persisted: bool, applied: bool)

  function Base(stored: Option<seq<Entry>>, profiles: seq<Entry>): seq<Entry> {
    if stored.Some? then Normalize(stored.value) else profiles
  }

  /** What a change makes of the list it starts from, and whether that counts as applied. */
  function Changed(base: seq<Entry>, m: Mutation, now: int): (seq<Entry>, bool) {
    match m
    case Put(entry) => UpsertIfNewer(base, entry, now)
    case Delete(target) => (Without(base, target), |Without(base, target)| != |base|)
  }

  function Persist(stored: Option<seq<Entry>>, profiles: seq<Entry>, m: Mutation, now: int, writable: bool): Outcome {
    var base := Base(stored, profiles);
    var (next, applied) := Changed(base, m, now);
    if !applied then Outcome(stored, next, true, false)
    else if !writable then Outcome(stored, base, false, false)
    else Outcome(Some(next), next, true, true)
  }

  class LocalStorage {
    var profiles: Option<seq<Entry>>
    constructor () ensures profiles == None { profiles := None; }
  }

  class Tab {
    var profiles: seq<Entry>
    const storage: LocalStorage

    constructor (storage: LocalStorage)
      ensures this.storage == storage && profiles == []
    {
      this.storage := storage;
      profiles := [];
    }

    /** `write` of `persistHistoryMutation`, run under the lock. */
    method PersistHistoryMutation(m: Mutation, now: int, writable: bool) returns (persisted: bool, applied: bool)
      modifies this, storage
      ensures Outcome(storage.profiles, profiles, persisted, applied)
           == Persist(old(storage.profiles), old(profiles), m, now, writable)
    {
      var base := profiles;
      if storage.profiles.Some? { base := NormalizeHistory(storage.profiles.value); }
      match m {
        case Put(entry) =>
          var (entries, taken) := UpsertIfNewer(base, entry, now);
          profiles := entries;
          if !taken { return true, false; }
        case Delete(target) =>
          profiles := Without(base, target);
          if |profiles| == |base| { return true, false; }
      }
      if !writable {
        profiles := base;
        return false, false;
      }
      storage.profiles := Some(profiles);
      return true, true;
    }
  }

  // ----- What normalising means -----

  ghost function Elements(s: seq<Entry>): set<Entry> { set e | e in s }

  /** The newest entry of every key. */
  ghost function Newest(all: set<Entry>): set<Entry> {
    set e | e in all && forall x | x in all :: x.key == e.key ==> x.updatedAt <= e.updatedAt
  }

  /** No two entries carry the same time. */
  ghost predicate DistinctTimes(all: set<Entry>) {
    forall a, b :: a in all && b in all && a.updatedAt == b.updatedAt ==> a == b
  }

  ghost predicate NewestFirst(s: seq<Entry>) {
    forall i, j :: 0 <= i < j < |s| ==> s[i].updatedAt >= s[j].updatedAt
  }

  ghost predicate StrictlyNewestFirst(s: seq<Entry>) {
    forall i, j :: 0 <= i < j < |s| ==> s[i].updatedAt > s[j].updatedAt
  }

  ghost predicate UniqueKeys(s: seq<Entry>) {
    forall i, j :: 0 <= i < j < |s| ==> s[i].key != s[j].key
  }

  /** The list that a set of entries should be stored as. */
  ghost predicate Represents(s: seq<Entry>, all: set<Entry>) {
    Elements(s) == Newest(all) && StrictlyNewestFirst(s) && UniqueKeys(s)
  }

  /** Some entry of `all` has the key of `e` and is not older. */
  ghost predicate Kept(all: set<Entry>, e: Entry) {
    exists x :: x in all && x.key == e.key && x.updatedAt >= e.updatedAt
  }

  ghost predicate AllKept(kept: set<Entry>, all: set<Entry>) { forall e | e in all :: Kept(kept, e) }

  lemma ElementsAppend(s: seq<Entry>, e: Entry)
    ensures Elements(s + [e]) == Elements(s) + {e} == Elements([e] + s)
    ensures s + [e] != [] && (s + [e])[..|s|] == s && ([e] + s)[1..] == s
  {
  }

  lemma InsertKeepsElements(s: seq<Entry>, e: Entry)
    ensures Elements(Insert(s, e)) == Elements(s) + {e}
  {
    if s == [] {
      assert Insert(s, e) == s + [e];
    } else if s[0].updatedAt >= e.updatedAt {
      InsertKeepsElements(s[1..], e);
      ElementsAppend(s[1..], s[0]);
      ElementsAppend(Insert(s[1..], e), s[0]);
      assert s == [s[0]] + s[1..];
    } else {
      ElementsAppend(s, e);
    }
  }

  lemma PrependInOrder(e: Entry, s: seq<Entry>)
    requires NewestFirst(s) && forall x | x in Elements(s) :: x.updatedAt <= e.updatedAt
    ensures NewestFirst([e] + s)
  {
    assert forall i :: 0 <= i < |s| ==> s[i] in Elements(s);
  }

  lemma AppendInOrder(s: seq<Entry>, e: Entry)
    requires NewestFirst(s) && forall x | x in Elements(s) :: x.updatedAt >= e.updatedAt
    ensures NewestFirst(s + [e])
  {
    assert forall i :: 0 <= i < |s| ==> s[i] in Elements(s);
  }

  lemma {:induction false} InsertKeepsOrder(s: seq<Entry>, e: Entry)
    requires NewestFirst(s)
    ensures NewestFirst(Insert(s, e))
  {
    if s != [] {
      if s[0].updatedAt >= e.updatedAt {
        InsertKeepsOrder(s[1..], e);
        InsertKeepsElements(s[1..], e);
        PrependInOrder(s[0], Insert(s[1..], e));
      } else {
        PrependInOrder(e, s);
      }
    }
  }

  lemma {:induction false} SortedFacts(s: seq<Entry>)
    ensures NewestFirst(Sorted(s)) && Elements(Sorted(s)) == Elements(s)
  {
    if s != [] {
      hide Insert, NewestFirst, Elements;
      var n := |s| - 1;
      SortedFacts(s[..n]);
      InsertKeepsOrder(Sorted(s[..n]), s[n]);
      InsertKeepsElements(Sorted(s[..n]), s[n]);
      assert s == s[..n] + [s[n]];
      ElementsAppend(s[..n], s[n]);
    } else {
      assert Sorted(s) == [];
    }
  }

  lemma LastIsOldest(s: seq<Entry>)
    requires s != [] && NewestFirst(s)
    ensures NewestFirst(s[..|s| - 1])
    ensures forall x | x in Elements(s[..|s| - 1]) :: x.updatedAt >= s[|s| - 1].updatedAt
  {
  }

  lemma AppendUnique(s: seq<Entry>, e: Entry)
    requires UniqueKeys(s) && e.key !in Keys(s)
    ensures UniqueKeys(s + [e])
  {
    assert forall i :: 0 <= i < |s| ==> s[i].key in Keys(s);
  }

  lemma AllKeptGrows(kept: set<Entry>, all: set<Entry>, e: Entry, more: set<Entry>)
    requires AllKept(kept, all) && kept <= more && Kept(more, e)
    ensures AllKept(more, all + {e})
  {
    forall x | x in all + {e} ensures Kept(more, x) {
      if x != e { assert Kept(kept, x); }
    }
  }

  ghost predicate Picks(r: seq<Entry>, s: seq<Entry>) {
    NewestFirst(r) && UniqueKeys(r) && Elements(r) <= Elements(s) && AllKept(Elements(r), Elements(s))
  }

  lemma PickOrSkip(r: seq<Entry>, s: seq<Entry>, e: Entry)
    requires Picks(r, s) && forall x | x in Elements(s) :: x.updatedAt >= e.updatedAt
    ensures Picks(if e.key in Keys(r) then r else r + [e], s + [e])
  {
    hide NewestFirst, UniqueKeys, AllKept, Elements;
    ElementsAppend(s, e);
    ElementsAppend(r, e);
    if e.key in Keys(r) {
      OneOfKey(r, e);
      AllKeptGrows(Elements(r), Elements(s), e, Elements(r));
    } else {
      AppendInOrder(r, e);
      AppendUnique(r, e);
      AllKeptGrows(Elements(r), Elements(s), e, Elements(r + [e]));
    }
  }

  lemma OneOfKey(r: seq<Entry>, e: Entry)
    requires e.key in Keys(r) && forall x | x in Elements(r) :: x.updatedAt >= e.updatedAt
    ensures Kept(Elements(r), e)
  {
    var x :| x in r && x.key == e.key;
    assert x in Elements(r);
  }

  lemma PicksNothing()
    ensures Picks([], [])
  {
  }

  lemma {:induction false} FirstOfEachFacts(s: seq<Entry>)
    requires NewestFirst(s)
    ensures Picks(FirstOfEach(s), s)
  {
    hide NewestFirst, Picks, Keys, Elements;
    if s == [] {
      PicksNothing();
    } else {
      var n := |s| - 1;
      LastIsOldest(s);
      FirstOfEachFacts(s[..n]);
      PickOrSkip(FirstOfEach(s[..n]), s[..n], s[n]);
      assert s == s[..n] + [s[n]];
    }
  }

  /** For any list: unique keys, newest first, nothing invented, and the newest of every key is kept. */
  lemma NormalizeFacts(s: seq<Entry>)
    ensures var r := Normalize(s);
      NewestFirst(r) && UniqueKeys(r) && Elements(r) <= Elements(s) && AllKept(Elements(r), Elements(s))
  {
    assert Picks(Normalize(s), s) by { SortedFacts(s); FirstOfEachFacts(Sorted(s)); }
  }

  // ----- One pass instead of a sort -----

  /** The entry of a key that one pass over the list is left with: a later one only if it is newer. */
  function Best(s: seq<Entry>, key: string): Option<Entry> {
    if s == [] then None
    else
      var before, e := Best(s[..|s| - 1], key), s[|s| - 1];
      if e.key == key && (before.None? || before.value.updatedAt < e.updatedAt) then Some(e) else before
  }

  lemma {:induction false} FindInserted(s: seq<Entry>, e: Entry, key: string)
    requires NewestFirst(s)
    ensures var found := Find(s, key);
      Find(Insert(s, e), key) ==
        if e.key == key && (found.None? || found.value.updatedAt < e.updatedAt) then Some(e) else found
  {
    if s != [] {
      assert NewestFirst(s[1..]);
      FindInserted(s[1..], e, key);
      if Find(s, key).Some? { assert Find(s, key).value.updatedAt <= s[0].updatedAt; }
      assert ([s[0]] + Insert(s[1..], e))[1..] == Insert(s[1..], e) && ([e] + s)[1..] == s;
    }
  }

  lemma {:induction false} FindSorted(s: seq<Entry>, key: string)
    ensures Find(Sorted(s), key) == Best(s, key)
  {
    if s != [] {
      hide Find;
      FindSorted(s[..|s| - 1], key);
      SortedFacts(s[..|s| - 1]);
      FindInserted(Sorted(s[..|s| - 1]), s[|s| - 1], key);
    }
  }

  lemma {:induction false} FindAppended(s: seq<Entry>, e: Entry, key: string)
    ensures Find(s + [e], key) == if Find(s, key).Some? then Find(s, key) else if e.key == key then Some(e) else None
  {
    if s == [] {
      assert s + [e] == [e] && [e][1..] == [];
    } else {
      FindAppended(s[1..], e, key);
      assert (s + [e])[1..] == s[1..] + [e];
    }
  }

  lemma {:induction false} FindFirstOfEach(s: seq<Entry>, key: string)
    ensures Find(FirstOfEach(s), key) == Find(s, key)
  {
    if s != [] {
      var front, e := s[..|s| - 1], s[|s| - 1];
      FirstOfEachStep(s);
      hide *;
      FindFirstOfEach(front, key);
      FindFirstOfEach(front, e.key);
      FindAppended(front, e, key);
      FindAppended(FirstOfEach(front), e, key);
      assert s == front + [e];
    }
  }

  lemma FirstOfEachStep(s: seq<Entry>)
    requires s != []
    ensures var front, e := FirstOfEach(s[..|s| - 1]), s[|s| - 1];
      FirstOfEach(s) == if Find(front, e.key).Some? then front else front + [e]
  {
  }

  /** For every list, with equal times too: sorting and keeping first entries is one pass per key. */
  lemma NormalizeIsOnePass(s: seq<Entry>, key: string)
    ensures Find(Normalize(s), key) == Best(s, key)
  {
    hide Find, Best;
    FindSorted(s, key);
    FindFirstOfEach(Sorted(s), key);
  }

  lemma SameKeySameEntry(s: seq<Entry>, a: Entry, b: Entry)
    requires UniqueKeys(s) && a in Elements(s) && b in Elements(s) && a.key == b.key
    ensures a == b
  {
  }

  lemma DistinctIsStrict(s: seq<Entry>)
    requires NewestFirst(s) && UniqueKeys(s) && DistinctTimes(Elements(s))
    ensures StrictlyNewestFirst(s)
  {
    forall i, j | 0 <= i < j < |s| ensures s[i].updatedAt > s[j].updatedAt {
      assert s[i] in Elements(s) && s[j] in Elements(s);
    }
  }

  lemma KeptAreNewest(s: seq<Entry>, all: set<Entry>)
    requires UniqueKeys(s) && Elements(s) <= all && AllKept(Elements(s), all) && DistinctTimes(all)
    ensures Elements(s) == Newest(all)
  {
    hide UniqueKeys, Elements, DistinctTimes;
    forall e | e in Newest(all) ensures e in Elements(s) {
      assert Kept(Elements(s), e);
      var x :| x in Elements(s) && x.key == e.key && x.updatedAt >= e.updatedAt;
      SameTimeSameEntry(all, x, e);
    }
    forall e | e in Elements(s) ensures e in Newest(all) {
      forall x | x in all && x.key == e.key ensures x.updatedAt <= e.updatedAt {
        assert Kept(Elements(s), x);
        var y :| y in Elements(s) && y.key == x.key && y.updatedAt >= x.updatedAt;
        SameKeySameEntry(s, y, e);
      }
    }
  }

  lemma SameTimeSameEntry(all: set<Entry>, a: Entry, b: Entry)
    requires DistinctTimes(all) && a in all && b in all && a.updatedAt == b.updatedAt
    ensures a == b
  {
  }

  /** With distinct times, normalising stores exactly the newest entries. */
  lemma NormalizeRepresents(s: seq<Entry>)
    requires DistinctTimes(Elements(s))
    ensures Represents(Normalize(s), Elements(s))
  {
    hide Normalize, UniqueKeys, NewestFirst, StrictlyNewestFirst, AllKept;
    NormalizeFacts(s);
    KeptAreNewest(Normalize(s), Elements(s));
    DistinctIsStrict(Normalize(s));
  }

  lemma TailElements(s: seq<Entry>)
    requires StrictlyNewestFirst(s)
    ensures s != [] ==> s[0] in Elements(s) && StrictlyNewestFirst(s[1..]) && Elements(s[1..]) == Elements(s) - {s[0]}
    ensures forall x | x in Elements(s) :: x.updatedAt <= s[0].updatedAt
    ensures s == [] <==> Elements(s) == {}
  {
    if s != [] {
      assert s[0] in Elements(s);
      ElementsAppend(s[1..], s[0]);
      assert s == [s[0]] + s[1..];
      assert s[0] !in s[1..];
    }
  }

  /** A set of entries is represented by one list only. */
  lemma {:induction false} SameElementsSameList(a: seq<Entry>, b: seq<Entry>)
    requires StrictlyNewestFirst(a) && StrictlyNewestFirst(b) && Elements(a) == Elements(b)
    ensures a == b
  {
    TailElements(a);
    TailElements(b);
    if a != [] {
      assert a[0] == b[0] by { FirstIsLatest(a, b[0]); FirstIsLatest(b, a[0]); }
      hide Elements, StrictlyNewestFirst;
      SameElementsSameList(a[1..], b[1..]);
      assert a == [a[0]] + a[1..] && b == [b[0]] + b[1..];
    }
  }

  lemma FirstIsLatest(s: seq<Entry>, e: Entry)
    requires StrictlyNewestFirst(s) && e in Elements(s)
    ensures e == s[0] || e.updatedAt < s[0].updatedAt
  {
  }

  // ----- What a change does to the stored set -----

  /** The entries after a change that was stored. */
  ghost function After(all: set<Entry>, m: Mutation): set<Entry> {
    match m
    case Put(entry) => all + {entry}
    case Delete(target) => set e | e in all && e.key != target
  }

  lemma NoElements()
    ensures Elements([]) == {}
  {
  }

  lemma {:induction false} WithoutElements(s: seq<Entry>, key: string)
    ensures Elements(Without(s, key)) == set e | e in Elements(s) && e.key != key
  {
    hide Elements;
    if s == [] {
      NoElements();
    } else {
      var rest := Without(s[1..], key);
      WithoutElements(s[1..], key);
      assert s == [s[0]] + s[1..];
      ElementsAppend(s[1..], s[0]);
      ElementsAppend(rest, s[0]);
      assert Without(s, key) == (if s[0].key == key then rest else [s[0]] + rest);
    }
  }

  lemma {:induction false} WithoutNothing(s: seq<Entry>, key: string)
    ensures |Without(s, key)| <= |s| && (|Without(s, key)| == |s| ==> key !in Keys(s) && Without(s, key) == s)
  {
    if s != [] {
      WithoutNothing(s[1..], key);
      assert s == [s[0]] + s[1..];
    }
  }

  lemma PrependStrict(e: Entry, s: seq<Entry>)
    requires StrictlyNewestFirst(s) && UniqueKeys(s)
    requires forall x | x in Elements(s) :: x.updatedAt < e.updatedAt && x.key != e.key
    ensures StrictlyNewestFirst([e] + s) && UniqueKeys([e] + s)
  {
    assert forall i :: 0 <= i < |s| ==> s[i] in Elements(s);
  }

  /** The first entry is newer than the rest and of another key. */
  lemma FirstStandsOut(s: seq<Entry>)
    requires s != [] && StrictlyNewestFirst(s) && UniqueKeys(s)
    ensures StrictlyNewestFirst(s[1..]) && UniqueKeys(s[1..])
    ensures forall x | x in Elements(s[1..]) :: x.updatedAt < s[0].updatedAt && x.key != s[0].key
  {
  }

  lemma {:induction false} WithoutKeepsOrder(s: seq<Entry>, key: string)
    requires StrictlyNewestFirst(s) && UniqueKeys(s)
    ensures StrictlyNewestFirst(Without(s, key)) && UniqueKeys(Without(s, key))
  {
    if s == [] {
      assert Without(s, key) == [];
    } else {
      hide StrictlyNewestFirst, UniqueKeys, Elements;
      var rest := Without(s[1..], key);
      FirstStandsOut(s);
      WithoutKeepsOrder(s[1..], key);
      WithoutElements(s[1..], key);
      PrependStrict(s[0], rest);
      assert Without(s, key) == (if s[0].key == key then rest else [s[0]] + rest);
    }
  }

  /** Keeping an entry that is not older than the new one. */
  lemma KeptIsNewest(all: set<Entry>, e: Entry, kept: Entry)
    requires DistinctTimes(all + {e}) && kept in Newest(all) && kept.key == e.key && kept.updatedAt >= e.updatedAt
    ensures Newest(all + {e}) == Newest(all)
  {
    assert kept in all;
    if kept.updatedAt == e.updatedAt { assert kept == e; }
  }

  /** Every entry has a newest one of its key. */
  lemma {:induction false} NewestExists(all: set<Entry>, x: Entry)
    requires x in all
    ensures Kept(Newest(all), x)
    decreases all
  {
    if z :| z in all && z.key == x.key && z.updatedAt > x.updatedAt {
      var smaller := all - {x};
      NewestExists(smaller, z);
      var y :| y in Newest(smaller) && y.key == z.key && y.updatedAt >= z.updatedAt;
      assert y in Newest(all);
    } else {
      assert x in Newest(all);
    }
  }

  /** Replacing an older entry of the key, if there is one. */
  lemma ReplacedIsNewest(all: set<Entry>, e: Entry, up: set<Entry>)
    requires forall x | x in Newest(all) :: x.key == e.key ==> x.updatedAt < e.updatedAt
    requires up == {e} + set x | x in Newest(all) && x.key != e.key
    ensures Newest(up) == up == Newest(all + {e})
  {
    forall x | x in all && x.key == e.key ensures x.updatedAt < e.updatedAt {
      NewestExists(all, x);
      var y :| y in Newest(all) && y.key == x.key && y.updatedAt >= x.updatedAt;
    }
    assert e in Newest(all + {e});
    forall x | x in up ensures x in Newest(all + {e}) { }
    forall x | x in Newest(all + {e}) ensures x in up {
      if x != e { assert x in Newest(all); }
    }
    assert up <= all + {e};
  }

  lemma UpsertRepresents(base: seq<Entry>, all: set<Entry>, e: Entry)
    requires DistinctTimes(all + {e}) && Elements(base) == Newest(all)
    requires forall x | x in Newest(all) :: x.key == e.key ==> x.updatedAt < e.updatedAt
    ensures Represents(Normalize(Upsert(base, e)), all + {e})
  {
    hide Normalize, StrictlyNewestFirst, UniqueKeys;
    var up := Upsert(base, e);
    WithoutElements(base, e.key);
    ElementsAppend(Without(base, e.key), e);
    ReplacedIsNewest(all, e, Elements(up));
    assert Elements(up) <= all + {e};
    NormalizeRepresents(up);
  }

  lemma PutRepresents(base: seq<Entry>, all: set<Entry>, e: Entry, now: int)
    requires DistinctTimes(all + {e}) && Represents(base, all)
    requires forall x | x in all :: x.updatedAt <= now
    ensures Represents(UpsertIfNewer(base, e, now).0, all + {e})
    ensures !UpsertIfNewer(base, e, now).1 ==> Newest(all + {e}) == Newest(all)
  {
    hide Normalize, Upsert, StrictlyNewestFirst;
    var existing := Find(base, e.key);
    if existing.Some? {
      assert existing.value in Elements(base);
      assert existing.value in all;
    }
    if existing.Some? && existing.value.updatedAt >= e.updatedAt {
      KeptIsNewest(all, e, existing.value);
      BaseIsNormal(base, all);
    } else {
      forall x | x in Newest(all) && x.key == e.key ensures x.updatedAt < e.updatedAt {
        assert x in Elements(base);
        assert x.key in Keys(base);
        SameKeySameEntry(base, x, existing.value);
      }
      UpsertRepresents(base, all, e);
    }
  }

  /** A list that represents a set is left alone by normalising. */
  lemma BaseIsNormal(base: seq<Entry>, all: set<Entry>)
    requires DistinctTimes(all) && Represents(base, all)
    ensures Normalize(base) == base
  {
    hide Normalize;
    assert forall x | x in Elements(base) :: x in all;
    NormalizeRepresents(base);
    assert Newest(Elements(base)) == Elements(base);
    SameElementsSameList(Normalize(base), base);
  }

  lemma DeleteRepresents(base: seq<Entry>, all: set<Entry>, target: string)
    requires Represents(base, all)
    ensures Represents(Without(base, target), After(all, Delete(target)))
    ensures |Without(base, target)| == |base| ==> After(all, Delete(target)) == all
  {
    hide StrictlyNewestFirst, UniqueKeys;
    WithoutElements(base, target);
    WithoutNothing(base, target);
    WithoutKeepsOrder(base, target);
    var left := After(all, Delete(target));
    assert Newest(left) == set e | e in Newest(all) && e.key != target;
    assert Elements(Without(base, target)) == Newest(left);
    if |Without(base, target)| == |base| {
      forall x | x in all ensures x.key != target {
        NewestExists(all, x);
        var y :| y in Newest(all) && y.key == x.key && y.updatedAt >= x.updatedAt;
        assert y in Elements(base);
        assert y.key in Keys(base);
      }
    }
  }

  // ----- One change -----

  ghost function Added(m: Mutation): set<Entry> { if m.Put? then {m.entry} else {} }

  lemma DistinctAfter(all: set<Entry>, m: Mutation)
    requires DistinctTimes(all + Added(m))
    ensures DistinctTimes(After(all, m)) && (m.Put? ==> After(all, m) == all + Added(m) == all + {m.entry})
  {
  }

  /** A change to a list that stands for a set stands for the changed set, and without effect is the list itself. */
  lemma ChangedRepresents(base: seq<Entry>, all: set<Entry>, m: Mutation, now: int)
    requires Represents(base, all) && DistinctTimes(all + Added(m)) && forall x | x in all :: x.updatedAt <= now
    ensures var (next, applied) := Changed(base, m, now);
      Represents(next, After(all, m)) && Normalize(next) == next && (!applied ==> next == base)
  {
    hide Normalize, Represents, Without, DistinctTimes;
    DistinctAfter(all, m);
    DistinctPart(all, Added(m));
    BaseIsNormal(base, all);
    match m {
      case Put(e) => PutRepresents(base, all, e, now);
      case Delete(target) =>
        DeleteRepresents(base, all, target);
        WithoutNothing(base, target);
    }
    BaseIsNormal(Changed(base, m, now).0, After(all, m));
  }

  lemma DistinctPart(a: set<Entry>, b: set<Entry>)
    requires DistinctTimes(a + b)
    ensures DistinctTimes(a)
  {
  }

  // ----- Any sequence of changes by any tabs -----

  /** The shared store, the lists of the tabs that have changed something, and the list all others loaded. */
  datatype World = World(stored: Option<seq<Entry>>, tabs: map<nat, seq<Entry>>, loaded: seq<Entry>)

  function ListOf(w: World, tab: nat): seq<Entry> { if tab in w.tabs then w.tabs[tab] else w.loaded }

  function OutcomeOf(w: World, c: Change): Outcome {
    Persist(w.stored, ListOf(w, c.tab), c.mutation, c.now, c.writable)
  }

  function Next(w: World, c: Change): World {
    World(OutcomeOf(w, c).stored, w.tabs[c.tab := OutcomeOf(w, c).profiles], w.loaded)
  }

  /** The history: what a change would start from. */
  function Current(w: World): seq<Entry> { Base(w.stored, w.loaded) }

  /** The history stands for a set of entries; as long as nothing is stored, all tabs hold it. */
  ghost predicate Stands(w: World, all: set<Entry>) {
    && Represents(Current(w), all)
    && (w.stored.None? ==> forall tab | tab in w.tabs :: w.tabs[tab] == w.loaded)
  }

  lemma StartsFromCurrent(w: World, all: set<Entry>, tab: nat)
    requires Stands(w, all)
    ensures Base(w.stored, ListOf(w, tab)) == Current(w)
  {
  }

  lemma ChangeStands(w: World, all: set<Entry>, c: Change)
    requires Stands(w, all) && DistinctTimes(all + Added(c.mutation))
    requires forall x | x in all :: x.updatedAt <= c.now
    ensures Stands(Next(w, c), if OutcomeOf(w, c).persisted then After(all, c.mutation) else all)
    ensures OutcomeOf(w, c).applied ==> Next(w, c).stored.Some? && Current(Next(w, c)) == Next(w, c).stored.value
    ensures !OutcomeOf(w, c).applied ==> Next(w, c).stored == w.stored
  {
    hide Normalize, Represents, DistinctTimes, Changed;
    StartsFromCurrent(w, all, c.tab);
    ChangedRepresents(Current(w), all, c.mutation, c.now);
  }

  /**
   Whatever became of a change, the tab that made it shows the history and no other tab's list moves; the
   change counts as applied exactly when the history changed, and fails only where a change was not allowed
   to be written.
   */
  lemma ActingTabShowsHistory(w: World, all: set<Entry>, c: Change, other: nat)
    requires Stands(w, all) && DistinctTimes(all + Added(c.mutation)) && other != c.tab
    requires forall x | x in all :: x.updatedAt <= c.now
    ensures ListOf(Next(w, c), c.tab) == Current(Next(w, c)) && ListOf(Next(w, c), other) == ListOf(w, other)
    ensures OutcomeOf(w, c).applied <==> Current(Next(w, c)) != Current(w)
    ensures OutcomeOf(w, c).persisted <==> c.writable || !OutcomeOf(w, c.(writable := true)).applied
  {
    hide Normalize, Represents, DistinctTimes, Changed;
    StartsFromCurrent(w, all, c.tab);
    ChangedRepresents(Current(w), all, c.mutation, c.now);
    AppliedChanges(Current(w), all, c.mutation, c.now);
  }

  /** What counts as applied is not the list itself. */
  lemma AppliedChanges(base: seq<Entry>, all: set<Entry>, m: Mutation, now: int)
    requires Represents(base, all) && forall x | x in all :: x.updatedAt <= now
    ensures Changed(base, m, now).1 ==> Changed(base, m, now).0 != base
  {
    hide Normalize, Without;
    if m.Put? && Changed(base, m, now).1 { TakenIsNew(base, m.entry, now); }
  }

  /** An entry that is taken was not in the list, and is in the merged one. */
  lemma TakenIsNew(base: seq<Entry>, e: Entry, now: int)
    requires UniqueKeys(base) && (forall x | x in Elements(base) :: x.updatedAt <= now) && UpsertIfNewer(base, e, now).1
    ensures e !in base && e in UpsertIfNewer(base, e, now).0
  {
    hide Normalize;
    FoundDecides(base, e);
    UpsertElements(base, e);
  }

  /** Normalising a list without two entries of a key keeps every entry. */
  lemma NormalizeKeepsUnique(s: seq<Entry>)
    requires UniqueKeys(s)
    ensures Elements(Normalize(s)) == Elements(s)
  {
    NormalizeFacts(s);
    hide Normalize;
    forall e | e in Elements(s) ensures e in Elements(Normalize(s)) {
      assert Kept(Elements(Normalize(s)), e);
      var x :| x in Elements(Normalize(s)) && x.key == e.key && x.updatedAt >= e.updatedAt;
      SameKeySameEntry(s, x, e);
    }
  }

  /**
   Whatever the times: an entry is taken unless the list holds one of its key that is no older and not from
   the future, and taken or not the other keys keep their entries.
   */
  lemma TakenExactly(s: seq<Entry>, e: Entry, now: int)
    requires UniqueKeys(s)
    ensures var (next, taken) := UpsertIfNewer(s, e, now);
      && (taken <==> forall x | x in s && x.key == e.key :: x.updatedAt < e.updatedAt || x.updatedAt > now)
      && Elements(next) == if taken then {e} + set x | x in Elements(s) && x.key != e.key else Elements(s)
  {
    UpsertElements(s, e);
    NormalizeKeepsUnique(s);
    hide Normalize, Upsert;
    if Find(s, e.key).Some? {
      forall x | x in s && x.key == e.key ensures x == Find(s, e.key).value {
        SameKeySameEntry(s, x, Find(s, e.key).value);
      }
    } else {
      forall x | x in s ensures x.key != e.key { assert x.key in Keys(s); }
    }
  }

  lemma {:induction false} UniqueWithout(s: seq<Entry>, key: string)
    requires UniqueKeys(s)
    ensures UniqueKeys(Without(s, key)) && forall x | x in Without(s, key) :: x in s && x.key != key
  {
    if s != [] {
      hide Without;
      WithoutStep(s, key);
      FirstIsAlone(s);
      hide UniqueKeys;
      UniqueWithout(s[1..], key);
      UniquePrepend(s[0], Without(s[1..], key));
    }
  }

  lemma WithoutStep(s: seq<Entry>, key: string)
    requires s != []
    ensures Without(s, key) == if s[0].key == key then Without(s[1..], key) else [s[0]] + Without(s[1..], key)
  {
  }

  lemma FirstIsAlone(s: seq<Entry>)
    requires s != [] && UniqueKeys(s)
    ensures UniqueKeys(s[1..]) && forall x | x in s[1..] :: x in s && x.key != s[0].key
  {
  }

  lemma UniquePrepend(e: Entry, s: seq<Entry>)
    requires UniqueKeys(s) && forall x | x in s :: x.key != e.key
    ensures UniqueKeys([e] + s)
  {
  }

  lemma UpsertElements(s: seq<Entry>, e: Entry)
    requires UniqueKeys(s)
    ensures Elements(Normalize(Upsert(s, e))) == {e} + set x | x in Elements(s) && x.key != e.key
  {
    WithoutElements(s, e.key);
    UniqueWithout(s, e.key);
    hide Without, Normalize;
    assert UniqueKeys(Upsert(s, e));
    NormalizeKeepsUnique(Upsert(s, e));
    assert Elements(Upsert(s, e)) == {e} + Elements(Without(s, e.key));
  }

  ghost function Run(w: World, cs: seq<Change>): World {
    if cs == [] then w else Next(Run(w, cs[..|cs| - 1]), cs[|cs| - 1])
  }

  /** What the history should stand for: every change that was reported as stored, in turn. */
  ghost function SetAfter(w: World, all: set<Entry>, cs: seq<Change>): set<Entry> {
    if cs == [] then all
    else
      var before, c := SetAfter(w, all, cs[..|cs| - 1]), cs[|cs| - 1];
      if OutcomeOf(Run(w, cs[..|cs| - 1]), c).persisted then After(before, c.mutation) else before
  }

  /** All entries ever seen carry distinct times, and none held is later than the clock of a change. */
  ghost predicate Timely(w: World, all: set<Entry>, cs: seq<Change>) {
    cs == [] ||
    var before, c := cs[..|cs| - 1], cs[|cs| - 1];
    && Timely(w, all, before)
    && DistinctTimes(SetAfter(w, all, before) + Added(c.mutation))
    && forall x | x in SetAfter(w, all, before) :: x.updatedAt <= c.now
  }

  /**
   After any serial run of changes by any tabs, from a store that is there or not, the history
   stands for exactly what the stored changes left: unique keys, the newest entry of each,
   newest first, none lost.
   */
  lemma {:induction false} NoUpdateIsLost(w: World, all: set<Entry>, cs: seq<Change>)
    requires Stands(w, all) && Timely(w, all, cs)
    ensures Stands(Run(w, cs), SetAfter(w, all, cs))
  {
    if cs != [] {
      hide Stands, Next, OutcomeOf, DistinctTimes;
      var n := |cs| - 1;
      NoUpdateIsLost(w, all, cs[..n]);
      ChangeStands(Run(w, cs[..n]), SetAfter(w, all, cs[..n]), cs[n]);
    }
  }

  ghost predicate AllPuts(cs: seq<Change>) {
    forall c <- cs :: c.mutation.Put? && c.writable
  }

  ghost function Entries(cs: seq<Change>): set<Entry> {
    set c <- cs | c.mutation.Put? :: c.mutation.entry
  }

  lemma EntriesAppend(cs: seq<Change>, c: Change)
    requires c.mutation.Put?
    ensures Entries(cs + [c]) == Entries(cs) + {c.mutation.entry}
  {
    forall e | e in Entries(cs + [c]) ensures e in Entries(cs) + {c.mutation.entry} {
      var d :| d in cs + [c] && d.mutation.Put? && d.mutation.entry == e;
      if d != c { assert d in cs; }
    }
    forall e | e in Entries(cs) ensures e in Entries(cs + [c]) {
      var d :| d in cs && d.mutation.Put? && d.mutation.entry == e;
      assert d in cs + [c];
    }
    assert c in cs + [c];
  }

  lemma AllPutsPrefix(cs: seq<Change>)
    requires AllPuts(cs) && cs != []
    ensures AllPuts(cs[..|cs| - 1]) && cs[|cs| - 1].mutation.Put? && cs[|cs| - 1].writable
  {
  }

  lemma WritablePersists(w: World, c: Change)
    requires c.writable
    ensures OutcomeOf(w, c).persisted
  {
    hide Changed;
  }

  lemma {:induction false} PutsAccumulate(w: World, all: set<Entry>, cs: seq<Change>)
    requires AllPuts(cs)
    ensures SetAfter(w, all, cs) == all + Entries(cs)
  {
    hide AllPuts, OutcomeOf, Entries, Run;
    if cs == [] {
      NoEntries();
    } else {
      var n := |cs| - 1;
      AllPutsPrefix(cs);
      PutsAccumulate(w, all, cs[..n]);
      LastEntry(cs);
      WritablePersists(Run(w, cs[..n]), cs[n]);
    }
  }

  lemma NoEntries()
    ensures Entries([]) == {}
  {
  }

  lemma LastEntry(cs: seq<Change>)
    requires cs != [] && cs[|cs| - 1].mutation.Put?
    ensures Entries(cs) == Entries(cs[..|cs| - 1]) + {cs[|cs| - 1].mutation.entry}
  {
    hide Entries;
    EntriesAppend(cs[..|cs| - 1], cs[|cs| - 1]);
    assert cs == cs[..|cs| - 1] + [cs[|cs| - 1]];
  }

  // ----- What the store holds after updates -----

  /** The history has an entry of every one of these keys that is not older. */
  ghost predicate AllOld(current: seq<Entry>, updates: set<Entry>) { AllKept(Elements(current), updates) }

  /** In a list of unique keys, the entry found is the one that counts. */
  lemma FoundDecides(s: seq<Entry>, e: Entry)
    requires UniqueKeys(s)
    ensures Kept(Elements(s), e) <==> (Find(s, e.key).Some? && Find(s, e.key).value.updatedAt >= e.updatedAt)
  {
    var found := Find(s, e.key);
    if found.Some? { assert found.value in Elements(s); }
    if Kept(Elements(s), e) {
      var x :| x in Elements(s) && x.key == e.key && x.updatedAt >= e.updatedAt;
      assert x.key in Keys(s);
      SameKeySameEntry(s, x, found.value);
    }
  }

  /** An update leaves store and history alone if the history is not older, and is stored with them otherwise. */
  lemma PutStores(w: World, all: set<Entry>, c: Change)
    requires Stands(w, all) && DistinctTimes(all + Added(c.mutation)) && forall x | x in all :: x.updatedAt <= c.now
    requires c.mutation.Put? && c.writable
    ensures if Kept(Elements(Current(w)), c.mutation.entry) then Next(w, c).stored == w.stored
            else Next(w, c).stored == Some(Current(Next(w, c)))
  {
    var e := c.mutation.entry;
    assert UniqueKeys(Current(w)) && Elements(Current(w)) == Newest(all);
    FoundDecides(Current(w), e);
    StartsFromCurrent(w, all, c.tab);
    ChangeStands(w, all, c);
    FoundInTime(Current(w), all, e.key, c.now);
    hide Normalize, Represents, DistinctTimes, Upsert, Kept, UniqueKeys, Elements, Stands;
  }

  lemma FoundInTime(s: seq<Entry>, all: set<Entry>, key: string, now: int)
    requires Elements(s) == Newest(all) && forall x | x in all :: x.updatedAt <= now
    ensures Find(s, key).Some? ==> Find(s, key).value.updatedAt <= now
  {
    if Find(s, key).Some? { assert Find(s, key).value in Elements(s); }
  }

  lemma SameStoreSameHistory(v: World, w: World)
    requires v.stored == w.stored && v.loaded == w.loaded
    ensures Current(v) == Current(w)
  {
  }

  lemma {:induction false} LoadedStays(w: World, cs: seq<Change>)
    ensures Run(w, cs).loaded == w.loaded
  {
    if cs != [] {
      hide OutcomeOf;
      LoadedStays(w, cs[..|cs| - 1]);
    }
  }

  lemma AllOldStep(current: seq<Entry>, updates: set<Entry>, e: Entry)
    ensures AllOld(current, updates + {e}) <==> AllOld(current, updates) && Kept(Elements(current), e)
  {
    hide Kept;
  }

  lemma NothingIsOld(current: seq<Entry>)
    ensures AllOld(current, {})
  {
  }

  /**
   After any updates, in any order and by any tabs: if the history was not older than any of
   them, the store is what it was, there or not; otherwise it holds the history.
   */
  lemma {:induction false} StoreAfter(w: World, all: set<Entry>, cs: seq<Change>)
    requires Stands(w, all) && Timely(w, all, cs) && AllPuts(cs)
    ensures Run(w, cs).stored == if AllOld(Current(w), Entries(cs)) then w.stored else Some(Current(Run(w, cs)))
  {
    if cs == [] {
      NoEntries();
      NothingIsOld(Current(w));
    } else {
      var n, c := |cs| - 1, cs[|cs| - 1];
      var before := Run(w, cs[..n]);
      TimelyStep(w, all, cs);
      assert Run(w, cs) == Next(before, c);
      hide *;
      AllPutsPrefix(cs);
      LastEntry(cs);
      StoreAfter(w, all, cs[..n]);
      NoUpdateIsLost(w, all, cs[..n]);
      PutStores(before, SetAfter(w, all, cs[..n]), c);
      AllOldStep(Current(w), Entries(cs[..n]), c.mutation.entry);
      LoadedStays(w, cs[..n]);
      LoadedStays(w, cs);
      if AllOld(Current(w), Entries(cs[..n])) {
        SameStoreSameHistory(before, w);
      } else if Kept(Elements(Current(before)), c.mutation.entry) {
        SameStoreSameHistory(Next(before, c), before);
      }
    }
  }

  lemma TimelyStep(w: World, all: set<Entry>, cs: seq<Change>)
    requires Timely(w, all, cs) && cs != []
    ensures var before, c := cs[..|cs| - 1], cs[|cs| - 1];
      && Timely(w, all, before) && DistinctTimes(SetAfter(w, all, before) + Added(c.mutation))
      && forall x | x in SetAfter(w, all, before) :: x.updatedAt <= c.now
  {
  }

  /** Two serial orders of the same updates, from any tabs, leave the same history and the same stored list. */
  lemma OrderDoesNotMatter(w: World, all: set<Entry>, xs: seq<Change>, ys: seq<Change>)
    requires Stands(w, all) && Timely(w, all, xs) && Timely(w, all, ys)
    requires AllPuts(xs) && AllPuts(ys) && Entries(xs) == Entries(ys)
    ensures Current(Run(w, xs)) == Current(Run(w, ys)) && Run(w, xs).stored == Run(w, ys).stored
  {
    assert Current(Run(w, xs)) == Current(Run(w, ys)) by {
      hide Normalize, Timely, Run, AllPuts, Current;
      NoUpdateIsLost(w, all, xs);
      NoUpdateIsLost(w, all, ys);
      PutsAccumulate(w, all, xs);
      PutsAccumulate(w, all, ys);
      SameElementsSameList(Current(Run(w, xs)), Current(Run(w, ys)));
    }
    hide *;
    StoreAfter(w, all, xs);
    StoreAfter(w, all, ys);
  }

  /** Where the theorems start: any stored list with distinct times, or none and a normalised list in every tab. */
  lemma AnyStoreStands(stored: seq<Entry>, loaded: seq<Entry>)
    ensures DistinctTimes(Elements(stored)) ==> Stands(World(Some(stored), map[], loaded), Elements(stored))
    ensures DistinctTimes(Elements(loaded)) ==>
              Stands(World(None, map[], Normalize(loaded)), Elements(loaded))
  {
    hide Normalize;
    if DistinctTimes(Elements(stored)) { NormalizeRepresents(stored); }
    if DistinctTimes(Elements(loaded)) { NormalizeRepresents(loaded); }
  }
}
