/** Maps with live iterators: `runtime/composite_value.go`, `runtime/map_iterator.go` and
    the map cases of `deleteValue`, `clearValue` and `setIndexValueMode`.

    An iterator holds entry identities, not keys, so an entry that is deleted and stored
    again is a different entry, and keys that are not equal to themselves still name one. */
module MapIteration {

  datatype Value = Nil | Datum(content: nat)

  /** A key that is not equal to itself (NaN) gets a sequence number when it is stored. */
  datatype Key = Key(nonReflexive: bool, sequence: nat, text: string)

  datatype Entry = Entry(identity: nat, key: Value, value: Value)

  const NO_ENTRY := Entry(0, Nil, Nil)

  datatype Map = Map(entries: map<Key, Entry>, keys: map<nat, Key>, nextEntry: nat, nextNonReflexive: nat)

  const EMPTY := Map(map[], map[], 0, 0)

  /** Indexing yields the zero entry for a missing key. */
  function At(m: Map, key: Key): Entry { if key in m.entries then m.entries[key] else NO_ENTRY }

  // ----- operations ----------------------------------------------------------------------------

  function KeyForStore(m: Map, key: Key): (Map, Key) {
    if key.nonReflexive
    then (m.(nextNonReflexive := m.nextNonReflexive + 1), key.(sequence := m.nextNonReflexive + 1))
    else (m, key)
  }

  function StoreEntry(m: Map, key: Key, keyValue: Value, value: Value): Map {
    var identity := At(m, key).identity;
    if identity != 0 then m.(entries := m.entries[key := Entry(identity, keyValue, value)])
    else
      var id := m.nextEntry + 1;
      Map(m.entries[key := Entry(id, keyValue, value)], m.keys[id := key], id, m.nextNonReflexive)
  }

  function Store(m: Map, key: Key, keyValue: Value, value: Value): Map {
    var (n, stored) := KeyForStore(m, key);
    StoreEntry(n, stored, keyValue, value)
  }

  function Delete(m: Map, key: Key): Map {
    m.(keys := m.keys - {At(m, key).identity}, entries := m.entries - {key})
  }

  function Clear(m: Map): Map { m.(entries := map[], keys := map[]) }

  /** Identities and keys are inverse to each other and never run ahead of the counters. */
  ghost predicate Inverse(m: Map) {
    && (forall k :: k in m.entries ==> m.entries[k].identity in m.keys && m.keys[m.entries[k].identity] == k)
    && (forall i :: i in m.keys ==> 0 < i <= m.nextEntry && m.keys[i] in m.entries && m.entries[m.keys[i]].identity == i)
    && (forall k :: k in m.entries && k.nonReflexive ==> 0 < k.sequence <= m.nextNonReflexive)
  }

  // ----- the iterator ---------------------------------------------------------------------------

  datatype Yield = Yield(identity: nat, key: Value, value: Value)

  datatype Iterator = Iterator(entries: seq<nat>, position: nat, yielded: seq<Yield>)

  /** Position of the next identity that is still an entry, or the end. */
  function Skip(m: Map, entries: seq<nat>, position: nat): (p: nat)
    ensures position <= p
    ensures forall i :: position <= i < p && i < |entries| ==> entries[i] !in m.keys
    ensures p < |entries| ==> entries[p] in m.keys
    decreases |entries| - position
  {
    if position >= |entries| || entries[position] in m.keys then position else Skip(m, entries, position + 1)
  }

  /** An exhausted iterator forgets its snapshot. */
  function Advance(m: Map, it: Iterator): Iterator {
    var p := Skip(m, it.entries, it.position);
    if p >= |it.entries| then it.(entries := [], position := p)
    else
      var entry := At(m, m.keys[it.entries[p]]);
      it.(position := p + 1, yielded := it.yielded + [Yield(it.entries[p], entry.key, entry.value)])
  }

  ghost predicate Snapshot(m: Map, entries: seq<nat>) {
    && (forall i, j :: 0 <= i < j < |entries| ==> entries[i] != entries[j])
    && (forall id :: id in entries <==> id in m.keys)
  }

  // ----- the objects ------------------------------------------------------------------------------

  class VmMap {
    var entries: map<Key, Entry>
    var entryKeys: map<nat, Key>
    var nextEntryId: nat
    var nextNonReflexiveId: nat

    function View(): Map
      reads this
    {
      Map(entries, entryKeys, nextEntryId, nextNonReflexiveId)
    }

    constructor ()
      ensures View() == EMPTY
    {
      entries, entryKeys, nextEntryId, nextNonReflexiveId := map[], map[], 0, 0;
    }

    method StoreAt(key: Key, keyValue: Value, value: Value)
      modifies this
      ensures View() == Store(old(View()), key, keyValue, value)
    {
      var stored := key;
      if key.nonReflexive {
        nextNonReflexiveId := nextNonReflexiveId + 1;
        stored := key.(sequence := nextNonReflexiveId);
      }
      var identity := At(View(), stored).identity;
      if identity == 0 {
        nextEntryId := nextEntryId + 1;
        identity := nextEntryId;
        entryKeys := entryKeys[identity := stored];
      }
      entries := entries[stored := Entry(identity, keyValue, value)];
    }

    method DeleteAt(key: Key)
      modifies this
      ensures View() == Delete(old(View()), key)
    {
      entryKeys := entryKeys - {At(View(), key).identity};
      entries := entries - {key};
    }

    method ClearAll()
      modifies this
      ensures View() == Clear(old(View()))
    {
      entries, entryKeys := map[], map[];
    }

    /** `initMapIterator`: the entries in any order. */
    method Identities() returns (ids: seq<nat>)
      requires Inverse(View())
      ensures Snapshot(View(), ids)
    {
      ids := [];
      var pending := entries.Keys;
      while pending != {}
        invariant pending <= entries.Keys
        invariant forall i, j :: 0 <= i < j < |ids| ==> ids[i] != ids[j]
        invariant forall id :: id in ids <==> id in entryKeys && entryKeys[id] !in pending
        decreases pending
      {
        var key :| key in pending;
        pending := pending - {key};
        ids := ids + [entries[key].identity];
      }
    }
  }

  class MapIterator {
    const target: VmMap
    var entries: seq<nat>
    var position: nat

    constructor (target: VmMap)
      requires Inverse(target.View())
      ensures this.target == target && position == 0 && Snapshot(target.View(), entries)
    {
      this.target := target;
      position := 0;
      new;
      entries := target.Identities();
    }

    /** `nextMapIterator`; the yield is what it pushes together with true. */
    method Next(ghost before: Iterator) returns (found: bool, key: Value, value: Value)
      requires before.entries == entries && before.position == position
      modifies this
      ensures var after := Advance(target.View(), before);
        && entries == after.entries && position == after.position
        && (!found ==> after.yielded == before.yielded)
        && (found ==>
            0 < position <= |entries| && after.yielded == before.yielded + [Yield(entries[position - 1], key, value)])
    {
      while position < |entries|
        invariant entries == before.entries && before.position <= position
        invariant Skip(target.View(), entries, before.position) == Skip(target.View(), entries, position)
      {
        var candidate := entries[position];
        position := position + 1;
        if candidate in target.entryKeys {
          var entry := At(target.View(), target.entryKeys[candidate]);
          return true, entry.key, entry.value;
        }
      }
      entries := [];
      return false, Nil, Nil;
    }
  }

  // ----- the index stays inverse --------------------------------------------------------------------

  lemma {:induction false} StoreKeepsInverse(m: Map, key: Key, keyValue: Value, value: Value)
    requires Inverse(m)
    ensures Inverse(Store(m, key, keyValue, value))
  {
  }

  lemma {:induction false} DeleteKeepsInverse(m: Map, key: Key)
    requires Inverse(m)
    ensures Inverse(Delete(m, key))
  {
  }

  /** A key that is not equal to itself is stored as one more entry, beside all others. */
  lemma {:induction false} NonReflexiveIsNew(m: Map, key: Key, keyValue: Value, value: Value)
    requires Inverse(m) && key.nonReflexive
    ensures var n := Store(m, key, keyValue, value);
      |n.entries| == |m.entries| + 1 && (forall k :: k in m.entries ==> k in n.entries && n.entries[k] == m.entries[k])
  {
    var stored := KeyForStore(m, key).1;
    assert stored !in m.entries;
    assert Store(m, key, keyValue, value).entries.Keys == m.entries.Keys + {stored};
  }

  // ----- a map under iteration ----------------------------------------------------------------------

  datatype Step =
    | Put(key: Key, keyValue: Value, value: Value)
    | Remove(key: Key)
    | RemoveAll
    | Next

  datatype State = State(m: Map, it: Iterator)

  function Do(s: State, step: Step): State {
    match step
    case Put(key, keyValue, value) => s.(m := Store(s.m, key, keyValue, value))
    case Remove(key) => s.(m := Delete(s.m, key))
    case RemoveAll => s.(m := Clear(s.m))
    case Next => s.(it := Advance(s.m, s.it))
  }

  function Run(s: State, steps: seq<Step>): State
    decreases |steps|
  {
    if steps == [] then s else Run(Do(s, steps[0]), steps[1..])
  }

  /** What a change means to lookups; the iterator is left alone. */
  lemma {:induction false} ChangesLookups(s: State, key: Key, keyValue: Value, value: Value, other: Key)
    requires Inverse(s.m)
    ensures var t := Do(s, Put(key, keyValue, value));
      && t.it == s.it && (other in s.m.entries && other != key ==> other in t.m.entries && t.m.entries[other] == s.m.entries[other])
      && (!key.nonReflexive ==> key in t.m.entries && t.m.entries[key].value == value && t.m.entries[key].key == keyValue
                                && t.m.entries.Keys == s.m.entries.Keys + {key})
      && (key.nonReflexive ==> |t.m.entries| == |s.m.entries| + 1)
    ensures var t := Do(s, Remove(key));
      t.it == s.it && key !in t.m.entries && (other != key ==> At(t.m, other) == At(s.m, other))
    ensures Do(s, RemoveAll).it == s.it && Do(s, RemoveAll).m.entries == map[]
  {
    if key.nonReflexive { NonReflexiveSize(s.m, key, keyValue, value); }
  }

  lemma {:induction false} NonReflexiveSize(m: Map, key: Key, keyValue: Value, value: Value)
    requires Inverse(m) && key.nonReflexive
    ensures |Store(m, key, keyValue, value).entries| == |m.entries| + 1
    ensures forall other :: other in m.entries ==> At(Store(m, key, keyValue, value), other) == m.entries[other]
  {
    var stored := KeyForStore(m, key).1;
    assert stored !in m.entries;
    assert Store(m, key, keyValue, value).entries.Keys == m.entries.Keys + {stored};
    assert |m.entries.Keys + {stored}| == |m.entries.Keys| + 1;
  }

  lemma {:induction false} DoKeepsInverse(s: State, step: Step)
    requires Inverse(s.m)
    ensures Inverse(Do(s, step).m) && s.m.nextEntry <= Do(s, step).m.nextEntry
  {
    match step
    case Put(key, keyValue, value) => StoreKeepsInverse(s.m, key, keyValue, value);
    case Remove(key) => DeleteKeepsInverse(s.m, key);
    case _ =>
  }

  /** Identities are never reused: what is gone stays gone, what stays keeps its key. */
  lemma {:induction false} IdentityKept(s: State, step: Step, id: nat)
    requires Inverse(s.m) && id <= s.m.nextEntry && id in Do(s, step).m.keys
    ensures id in s.m.keys && Do(s, step).m.keys[id] == s.m.keys[id]
  {
  }

  lemma {:induction false} GoneForGood(s: State, steps: seq<Step>, id: nat)
    requires Inverse(s.m) && id <= s.m.nextEntry && id in Run(s, steps).m.keys
    ensures id in s.m.keys && Run(s, steps).m.keys[id] == s.m.keys[id]
    decreases |steps|
  {
    hide Do;
    if steps != [] {
      DoKeepsInverse(s, steps[0]);
      GoneForGood(Do(s, steps[0]), steps[1..], id);
      IdentityKept(s, steps[0], id);
    }
  }

  // ----- what an iteration yields -------------------------------------------------------------------

  function Ids(yielded: seq<Yield>): seq<nat> { seq(|yielded|, i requires 0 <= i < |yielded| => yielded[i].identity) }

  ghost predicate Distinct(ids: seq<nat>) { forall i, j :: 0 <= i < j < |ids| ==> ids[i] != ids[j] }

  /** `all` is the snapshot taken at the start: yields come from the part already passed,
      and every passed identity that is still an entry was yielded. */
  ghost predicate Progress(s: State, all: seq<nat>) {
    var passed := if s.it.entries == [] then |all| else s.it.position;
    && (s.it.entries == [] || s.it.entries == all) && passed <= |all|
    && (forall id :: id in all ==> id <= s.m.nextEntry)
    && Distinct(Ids(s.it.yielded))
    && (forall id :: id in Ids(s.it.yielded) ==> id in all[..passed])
    && (forall id :: id in all[..passed] && id in s.m.keys ==> id in Ids(s.it.yielded))
  }

  /** A yield shows an entry that exists at that moment, under its key and current value. */
  lemma {:induction false} YieldsLiveEntry(m: Map, it: Iterator)
    requires Inverse(m)
    ensures var after := Advance(m, it).yielded;
      after == it.yielded
      || (|after| == |it.yielded| + 1 && after[..|it.yielded|] == it.yielded
          && var y := after[|it.yielded|];
             y.identity in m.keys && m.keys[y.identity] in m.entries
             && m.entries[m.keys[y.identity]] == Entry(y.identity, y.key, y.value))
  {
  }

  lemma {:induction false} ExhaustKeepsProgress(s: State, all: seq<nat>)
    requires Progress(s, all) && Skip(s.m, s.it.entries, s.it.position) >= |s.it.entries|
    ensures Progress(Do(s, Next), all)
  {
    hide Ids;
    assert all[..|all|] == all;
    forall id | id in all && id in s.m.keys ensures id in Ids(s.it.yielded) {
      var i :| 0 <= i < |all| && all[i] == id;
      assert s.it.entries != [] && i < s.it.position ==> id in all[..s.it.position];
    }
  }

  lemma {:induction false} IdsOfMore(yielded: seq<Yield>, y: Yield)
    ensures Ids(yielded + [y]) == Ids(yielded) + [y.identity]
  {
  }

  lemma {:induction false} YieldKeepsProgress(s: State, all: seq<nat>)
    requires Progress(s, all) && Distinct(all) && Skip(s.m, s.it.entries, s.it.position) < |s.it.entries|
    ensures Progress(Do(s, Next), all)
  {
    hide Ids;
    var p := Skip(s.m, s.it.entries, s.it.position);
    var t := Do(s, Next);
    var id := all[p];
    IdsOfMore(s.it.yielded, t.it.yielded[|s.it.yielded|]);
    assert Ids(t.it.yielded) == Ids(s.it.yielded) + [id];
    assert id !in all[..s.it.position];
    assert t.it.entries == all && t.it.position == p + 1 && t.m == s.m;
    assert Distinct(Ids(t.it.yielded)) by { assert id !in Ids(s.it.yielded); }
    forall x | x in Ids(t.it.yielded) ensures x in all[..p + 1] {
      if x == id { assert all[..p + 1][p] == id; } else { assert x in all[..s.it.position]; }
    }
    forall x | x in all[..p + 1] && x in t.m.keys ensures x in Ids(t.it.yielded) {
      var i :| 0 <= i < p + 1 && all[i] == x;
      if i < s.it.position { assert x in all[..s.it.position]; }
    }
  }

  lemma {:induction false} NextKeepsProgress(s: State, all: seq<nat>)
    requires Progress(s, all) && Distinct(all)
    ensures Progress(Do(s, Next), all)
  {
    hide Do, Progress;
    if Skip(s.m, s.it.entries, s.it.position) < |s.it.entries| { YieldKeepsProgress(s, all); } else { ExhaustKeepsProgress(s, all); }
  }

  lemma {:induction false} ChangeKeepsProgress(s: State, step: Step, all: seq<nat>)
    requires Inverse(s.m) && Progress(s, all) && !step.Next?
    ensures Progress(Do(s, step), all)
  {
    DoKeepsInverse(s, step);
    forall id | id in all && id in Do(s, step).m.keys ensures id in s.m.keys { IdentityKept(s, step, id); }
    hide Inverse, Store, Delete;
  }

  lemma {:induction false} RunKeepsProgress(s: State, steps: seq<Step>, all: seq<nat>)
    requires Inverse(s.m) && Progress(s, all) && Distinct(all)
    ensures Inverse(Run(s, steps).m) && Progress(Run(s, steps), all)
    decreases |steps|
  {
    hide Do, Inverse, Progress;
    if steps != [] {
      DoKeepsInverse(s, steps[0]);
      if steps[0].Next? { NextKeepsProgress(s, all); } else { ChangeKeepsProgress(s, steps[0], all); }
      RunKeepsProgress(Do(s, steps[0]), steps[1..], all);
    }
  }

  /** Whatever is stored, deleted or cleared meanwhile: an iteration yields no entry twice
      and none that was not there at the start, and once exhausted it has yielded every
      entry that was there from start to end, which all still have the key they had. */
  lemma {:induction false} IterationIsExact(m: Map, all: seq<nat>, steps: seq<Step>)
    requires Inverse(m) && Snapshot(m, all)
    ensures var s := Run(State(m, Iterator(all, 0, [])), steps);
      && Distinct(Ids(s.it.yielded))
      && (forall id :: id in Ids(s.it.yielded) ==> id in m.keys)
      && (s.it.entries == [] ==> forall id :: id in m.keys && id in s.m.keys ==> id in Ids(s.it.yielded))
      && (forall id :: id in m.keys && id in s.m.keys ==> s.m.keys[id] == m.keys[id])
  {
    var start := State(m, Iterator(all, 0, []));
    assert Progress(start, all);
    RunKeepsProgress(start, steps, all);
    var s := Run(start, steps);
    forall id | id in m.keys && id in s.m.keys ensures s.m.keys[id] == m.keys[id] { GoneForGood(start, steps, id); }
    hide Run;
    assert s.it.entries == [] ==> all[..|all|] == all;
  }

  /** An entry deleted before the iterator reached it is never yielded, even if its key
      is stored again. */
  lemma {:induction false} DeletedIsNotYielded(s: State, steps: seq<Step>, id: nat)
    requires Inverse(s.m) && id <= s.m.nextEntry && id !in s.m.keys && id !in Ids(s.it.yielded)
    ensures id !in Ids(Run(s, steps).it.yielded)
    decreases |steps|
  {
    if steps != [] {
      var t := Do(s, steps[0]);
      DoKeepsInverse(s, steps[0]);
      if id in t.m.keys { IdentityKept(s, steps[0], id); }
      assert id !in Ids(t.it.yielded) by {
        YieldsLiveEntry(s.m, s.it);
        if t.it.yielded != s.it.yielded { IdsOfMore(s.it.yielded, t.it.yielded[|s.it.yielded|]); }
      }
      hide Do, Inverse;
      DeletedIsNotYielded(t, steps[1..], id);
    }
  }

  // ----- the delete that forgets the index --------------------------------------------------------

  /** Deletion through reflection removes the entry but not its identity. */
  function ReflectDelete(m: Map, key: Key): Map { m.(entries := m.entries - {key}) }

  /** It keeps the index right only when there was nothing to delete. */
  lemma {:induction false} ReflectDeleteKeepsInverse(m: Map, key: Key)
    requires Inverse(m)
    ensures Inverse(ReflectDelete(m, key)) <==> key !in m.entries
  {
    var n := ReflectDelete(m, key);
    if key in m.entries {
      assert m.entries[key].identity in n.keys && key !in n.entries;
    } else {
      assert n.entries == m.entries;
    }
  }

  /** So an iterator yields zero values for an entry deleted that way. */
  lemma {:induction false} ReflectDeleteIsYielded(key: Key, keyValue: Value, value: Value)
    requires !key.nonReflexive
    ensures var m := Store(EMPTY, key, keyValue, value);
      Snapshot(m, [1]) && Advance(ReflectDelete(m, key), Iterator([1], 0, [])).yielded == [Yield(1, Nil, Nil)]
  {
    var m := Store(EMPTY, key, keyValue, value);
    assert m.keys == map[1 := key];
    assert Skip(ReflectDelete(m, key), [1], 0) == 0;
  }

  /** One call of the iterator cannot tell that deletion from none exactly if it is not the
      deleted entry's turn, or the entry was zero anyway. */
  lemma {:induction false} ReflectDeleteUnnoticed(m: Map, key: Key, it: Iterator)
    requires Inverse(m)
    ensures var p := Skip(m, it.entries, it.position);
      Advance(ReflectDelete(m, key), it) == Advance(m, it)
      <==> p >= |it.entries| || m.keys[it.entries[p]] != key || m.entries[key] == Entry(it.entries[p], Nil, Nil)
  {
    var n, p := ReflectDelete(m, key), Skip(m, it.entries, it.position);
    SkipByKeys(m, n, it.entries, it.position);
    if p < |it.entries| {
      var id := it.entries[p];
      var shown, gone := At(m, m.keys[id]), At(n, m.keys[id]);
      assert Advance(m, it).yielded == it.yielded + [Yield(id, shown.key, shown.value)];
      assert Advance(n, it).yielded == it.yielded + [Yield(id, gone.key, gone.value)];
      assert Advance(n, it).yielded[|it.yielded|] == Yield(id, gone.key, gone.value);
      assert Advance(m, it).yielded[|it.yielded|] == Yield(id, shown.key, shown.value);
    }
  }

  lemma {:induction false} SkipByKeys(m: Map, n: Map, entries: seq<nat>, position: nat)
    requires forall id :: id in entries ==> (id in m.keys <==> id in n.keys)
    ensures Skip(m, entries, position) == Skip(n, entries, position)
    decreases |entries| - position
  {
    if position < |entries| && entries[position] !in m.keys { SkipByKeys(m, n, entries, position + 1); }
  }

  /** If the key is stored again, the entry is a new one, but the old identity now yields it. */
  lemma {:induction false} ReflectDeleteThenStore(m: Map, key: Key, keyValue: Value, value: Value, it: Iterator)
    requires Inverse(m) && key in m.entries && !key.nonReflexive && forall id :: id in it.entries ==> id <= m.nextEntry
    requires var p := Skip(m, it.entries, it.position); p < |it.entries| && it.entries[p] == m.entries[key].identity
    ensures var n := Store(ReflectDelete(m, key), key, keyValue, value);
      && key in n.entries && n.entries[key].identity == m.nextEntry + 1 != m.entries[key].identity
      && Advance(n, it).yielded == it.yielded + [Yield(m.entries[key].identity, keyValue, value)]
  {
    var n := Store(ReflectDelete(m, key), key, keyValue, value);
    assert n.keys == m.keys[m.nextEntry + 1 := key];
    SkipByKeys(m, n, it.entries, it.position);
  }
}
