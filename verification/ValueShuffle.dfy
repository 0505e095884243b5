/** Reordering map entries and struct fields, at any depth, changes neither the verdict of
    `validateValues`, nor the totals it compares with the limits, nor what can be decoded. */
module ValueShuffle {
  import opened Options
  import opened KeyedSort
  import opened ValueCodec
  import opened ValueValidation
  import opened ValuePlain

  // ----- rearranged sequences -----------------------------------------------------------------

  ghost predicate Rearranged<T>(a: seq<T>, b: seq<T>) {
    multiset(a) == multiset(b)
  }

  function Drop<T>(s: seq<T>, i: nat): (r: seq<T>)
    requires i < |s|
    ensures |r| == |s| - 1 && multiset(s) == multiset(r) + multiset{s[i]}
    ensures forall k :: 0 <= k < |r| ==> r[k] == s[if k < i then k else k + 1]
  {
    assert s == s[..i] + [s[i]] + s[i + 1..];
    s[..i] + s[i + 1..]
  }

  /** A rearrangement stays one under an elementwise function. */
  lemma {:induction false} MapRearranged<T, U>(f: T -> U, a: seq<T>, b: seq<T>, fa: seq<U>, fb: seq<U>)
    requires Rearranged(a, b) && |fa| == |a| && |fb| == |b|
    requires forall i :: 0 <= i < |a| ==> fa[i] == f(a[i])
    requires forall i :: 0 <= i < |b| ==> fb[i] == f(b[i])
    ensures |a| == |b| && multiset(fa) == multiset(fb)
    decreases |a|
  {
    SameLength(a, b);
    if a != [] {
      var i := HeadIn(a, b);
      MapRearranged(f, Drop(a, 0), Drop(b, i), Drop(fa, 0), Drop(fb, i));
    }
  }

  lemma SameLength<T>(a: seq<T>, b: seq<T>)
    requires Rearranged(a, b)
    ensures |a| == |b|
  {
    assert |multiset(a)| == |a| && |multiset(b)| == |b|;
  }

  lemma HeadIn<T>(a: seq<T>, b: seq<T>) returns (i: nat)
    requires Rearranged(a, b) && a != []
    ensures i < |b| && b[i] == a[0] && Rearranged(Drop(a, 0), Drop(b, i))
  {
    assert a[0] in multiset(b);
    i :| 0 <= i < |b| && b[i] == a[0];
    assert multiset(Drop(a, 0)) == multiset(a) - multiset{a[0]};
    assert multiset(Drop(b, i)) == multiset(b) - multiset{a[0]};
  }

  function Total<T>(f: T -> Tally, s: seq<T>): Tally {
    if s == [] then ZERO else f(s[0]).Add(Total(f, s[1..]))
  }

  lemma {:induction false} TotalDrop<T>(f: T -> Tally, s: seq<T>, i: nat)
    requires i < |s|
    ensures Total(f, s) == f(s[i]).Add(Total(f, Drop(s, i)))
  {
    hide Drop;
    if i == 0 {
      DropHead(s);
    } else {
      DropTail(s, i);
      TotalDrop(f, s[1..], i - 1);
    }
  }

  lemma {:induction false} DropHead<T>(s: seq<T>)
    requires s != []
    ensures Drop(s, 0) == s[1..]
  {
  }

  lemma {:induction false} DropTail<T>(s: seq<T>, i: nat)
    requires 0 < i < |s|
    ensures Drop(s, i) != [] && Drop(s, i)[0] == s[0] && Drop(s, i)[1..] == Drop(s[1..], i - 1)
  {
  }

  lemma {:induction false} TotalRearranged<T>(f: T -> Tally, a: seq<T>, b: seq<T>)
    requires Rearranged(a, b)
    ensures Total(f, a) == Total(f, b)
    decreases |a|
  {
    SameLength(a, b);
    if a != [] {
      var i := HeadIn(a, b);
      TotalDrop(f, a, 0);
      TotalDrop(f, b, i);
      TotalRearranged(f, Drop(a, 0), Drop(b, i));
    }
  }

  ghost predicate Distinct<T>(s: seq<T>) {
    forall i, j :: 0 <= i < j < |s| ==> s[i] != s[j]
  }

  lemma {:induction false} DistinctRearranged<T>(a: seq<T>, b: seq<T>)
    requires Rearranged(a, b) && Distinct(a)
    ensures Distinct(b)
    decreases |a|
  {
    SameLength(a, b);
    if a != [] {
      var i := HeadIn(a, b);
      DistinctRearranged(Drop(a, 0), Drop(b, i));
      assert a[0] !in Drop(b, i) by { assert a[0] !in multiset(Drop(a, 0)); }
      DistinctWith(b, i);
    }
  }

  lemma {:induction false} DistinctWith<T>(s: seq<T>, i: nat)
    requires i < |s| && Distinct(Drop(s, i)) && s[i] !in Drop(s, i)
    ensures Distinct(s)
  {
    var r := Drop(s, i);
    forall p, q | 0 <= p < q < |s| ensures s[p] != s[q] {
      var p', q' := if p < i then p else p - 1, if q < i then q else q - 1;
      if p != i { assert p' < |r| && r[p'] == s[p]; }
      if q != i { assert q' < |r| && r[q'] == s[q]; }
    }
  }

  /** What relates a rearrangement to `ys` place by place relates the original to a
      rearrangement of `ys`. */
  lemma {:induction false} Align<T, U>(related: (T, U) -> bool, xs: seq<T>, moved: seq<T>, ys: seq<U>) returns (zs: seq<U>)
    requires Rearranged(xs, moved) && |ys| == |moved| && forall k :: 0 <= k < |ys| ==> related(moved[k], ys[k])
    ensures Rearranged(zs, ys) && |zs| == |xs| && forall i :: 0 <= i < |xs| ==> related(xs[i], zs[i])
    decreases |xs|
  {
    hide Drop, Rearranged;
    SameLength(xs, moved);
    if xs == [] {
      zs := ys;
      Same(ys);
    } else {
      var k := HeadIn(xs, moved);
      var others := Align(related, Drop(xs, 0), Drop(moved, k), Drop(ys, k));
      zs := [ys[k]] + others;
      DropHead(xs);
      Reinserted(ys, k, others);
      forall i | 0 <= i < |xs| ensures related(xs[i], zs[i]) {
        if i > 0 { assert xs[i] == xs[1..][i - 1] && zs[i] == others[i - 1]; }
      }
    }
  }

  lemma {:induction false} Same<T>(s: seq<T>)
    ensures Rearranged(s, s)
  {
  }

  lemma {:induction false} Reinserted<T>(s: seq<T>, k: nat, others: seq<T>)
    requires k < |s| && Rearranged(others, Drop(s, k))
    ensures Rearranged([s[k]] + others, s)
  {
    assert multiset([s[k]] + others) == multiset{s[k]} + multiset(others);
  }

  // ----- reordering at any depth ------------------------------------------------------------------

  /** `w` is `v` with map entries and struct fields reordered at any depth. */
  ghost predicate Shuffled(v: Value, w: Value)
    decreases v, 1
  {
    v.typ == w.typ && ShuffledData(v.data, w.data)
  }

  ghost predicate ShuffledData(d: Data, e: Data)
    decreases d, 1
  {
    match d
    case Slice(items) =>
      e.Slice? && |items| == |e.items| && forall i :: 0 <= i < |items| ==> Shuffled(items[i], e.items[i])
    case Map(entries) =>
      e.Map? && exists es: seq<Entry> :: Rearranged(es, e.entries) && ShuffledEntries(entries, es)
    case Struct(fields) =>
      e.Struct? && exists fs: seq<Field> :: Rearranged(fs, e.fields) && ShuffledFields(fields, fs)
    case Optional(inner) => e.Optional? && Shuffled(inner, e.inner)
    case _ => d == e
  }

  ghost predicate ShuffledEntry(a: Entry, b: Entry)
    decreases a, 2
  {
    Shuffled(a.key, b.key) && Shuffled(a.value, b.value)
  }

  ghost predicate ShuffledField(a: Field, b: Field)
    decreases a, 2
  {
    a.id == b.id && Shuffled(a.value, b.value)
  }

  ghost predicate ShuffledEntries(a: seq<Entry>, b: seq<Entry>)
    decreases a, 0
  {
    |a| == |b| && forall i :: 0 <= i < |a| ==> ShuffledEntry(a[i], b[i])
  }

  ghost predicate ShuffledFields(a: seq<Field>, b: seq<Field>)
    decreases a, 0
  {
    |a| == |b| && forall i :: 0 <= i < |a| ==> ShuffledField(a[i], b[i])
  }

  // ----- totals ------------------------------------------------------------------------------------

  lemma {:induction false} EntriesTotal(entries: seq<Entry>)
    ensures SizeEntries(entries) == Total(SizeEntry, entries)
  {
    hide SizeEntry;
    if entries != [] { EntriesTotal(entries[1..]); }
  }

  lemma {:induction false} FieldsTotal(fields: seq<Field>)
    ensures SizeFields(fields) == Total(SizeField, fields)
  {
    hide SizeField;
    if fields != [] { FieldsTotal(fields[1..]); }
  }

  lemma {:induction false} SameTotals<T>(f: T -> Tally, a: seq<T>, b: seq<T>)
    requires |a| == |b| && forall i :: 0 <= i < |a| ==> f(a[i]) == f(b[i])
    ensures Total(f, a) == Total(f, b)
  {
    if a != [] { SameTotals(f, a[1..], b[1..]); }
  }

  lemma {:induction false} SameItemSizes(a: seq<Value>, b: seq<Value>)
    requires |a| == |b| && forall i :: 0 <= i < |a| ==> Size(a[i]) == Size(b[i])
    ensures SizeItems(a) == SizeItems(b)
  {
    hide Size;
    if a != [] { SameItemSizes(a[1..], b[1..]); }
  }

  lemma {:induction false} ShuffleSize(v: Value, w: Value)
    requires Shuffled(v, w)
    ensures Size(w) == Size(v)
    decreases v, 1
  {
    hide SizeData, ShuffledData;
    ShuffleDataSize(v.data, w.data);
  }

  lemma {:induction false} ShuffleDataSize(d: Data, e: Data)
    requires ShuffledData(d, e)
    ensures SizeData(e) == SizeData(d)
    decreases d, 1
  {
    hide Size, Shuffled, SizeItems, SizeEntries, SizeFields, Rearranged, ShuffledEntries, ShuffledFields;
    match d
    case Slice(items) => ShuffleItemsSize(items, e.items);
    case Map(entries) => ShuffleMapSize(entries, e);
    case Struct(fields) => ShuffleStructSize(fields, e);
    case Optional(inner) => ShuffleSize(inner, e.inner);
    case _ =>
  }

  lemma {:induction false} ShuffleItemsSize(a: seq<Value>, b: seq<Value>)
    requires |a| == |b| && forall i :: 0 <= i < |a| ==> Shuffled(a[i], b[i])
    ensures SizeItems(b) == SizeItems(a)
    decreases a, 1
  {
    hide Size, Shuffled;
    forall i | 0 <= i < |a| ensures Size(a[i]) == Size(b[i]) { ShuffleSize(a[i], b[i]); }
    SameItemSizes(a, b);
  }

  lemma {:induction false} ShuffleMapSize(entries: seq<Entry>, e: Data)
    requires ShuffledData(Map(entries), e)
    ensures e.Map? && SizeEntries(e.entries) == SizeEntries(entries)
    decreases entries, 1
  {
    hide Size, Shuffled, SizeEntries, Rearranged, Total;
    var es: seq<Entry> :| Rearranged(es, e.entries) && ShuffledEntries(entries, es);
    forall i | 0 <= i < |entries| ensures SizeEntry(entries[i]) == SizeEntry(es[i]) {
      assert ShuffledEntry(entries[i], es[i]) && entries[i].key < entries[i] && entries[i].value < entries[i];
      ShuffleSize(entries[i].key, es[i].key);
      ShuffleSize(entries[i].value, es[i].value);
    }
    SameTotals(SizeEntry, entries, es);
    TotalRearranged(SizeEntry, es, e.entries);
    EntriesTotal(entries);
    EntriesTotal(e.entries);
  }

  lemma {:induction false} ShuffleStructSize(fields: seq<Field>, e: Data)
    requires ShuffledData(Struct(fields), e)
    ensures e.Struct? && SizeFields(e.fields) == SizeFields(fields)
    decreases fields, 1
  {
    hide Size, Shuffled, SizeFields, Rearranged, Total;
    var fs: seq<Field> :| Rearranged(fs, e.fields) && ShuffledFields(fields, fs);
    forall i | 0 <= i < |fields| ensures SizeField(fields[i]) == SizeField(fs[i]) {
      assert ShuffledField(fields[i], fs[i]) && fields[i].value < fields[i];
      ShuffleSize(fields[i].value, fs[i].value);
    }
    SameTotals(SizeField, fields, fs);
    TotalRearranged(SizeField, fs, e.fields);
    FieldsTotal(fields);
    FieldsTotal(e.fields);
  }

  // ----- verdict -------------------------------------------------------------------------------------

  /** Where entry `k` of the reordered map comes from. */
  lemma {:induction false} FromEntry(entries: seq<Entry>, e: Data, k: nat) returns (i: nat)
    requires ShuffledData(Map(entries), e) && e.Map? && k < |e.entries|
    ensures i < |entries| && ShuffledEntry(entries[i], e.entries[k])
  {
    hide Shuffled;
    var es: seq<Entry> :| Rearranged(es, e.entries) && ShuffledEntries(entries, es);
    assert e.entries[k] in multiset(e.entries);
    i :| 0 <= i < |es| && es[i] == e.entries[k];
  }

  lemma {:induction false} FromField(fields: seq<Field>, e: Data, k: nat) returns (i: nat)
    requires ShuffledData(Struct(fields), e) && e.Struct? && k < |e.fields|
    ensures i < |fields| && ShuffledField(fields[i], e.fields[k])
  {
    hide Shuffled;
    var fs: seq<Field> :| Rearranged(fs, e.fields) && ShuffledFields(fields, fs);
    assert e.fields[k] in multiset(e.fields);
    i :| 0 <= i < |fs| && fs[i] == e.fields[k];
  }

  lemma {:induction false} ShuffleShaped(env: Env, v: Value, w: Value)
    requires Shuffled(v, w) && Shaped(env, v)
    ensures Shaped(env, w)
  {
    hide Rearranged, ShuffledEntries, ShuffledFields;
    match v.data
    case Slice(items) =>
      forall item | item in w.data.items ensures env.slice(w.typ, item.typ) {
        var k :| 0 <= k < |items| && w.data.items[k] == item;
        assert Shuffled(items[k], item) && items[k] in items;
      }
    case Map(entries) =>
      forall e | e in w.data.entries ensures env.mapping(w.typ, e.key.typ, e.value.typ) {
        var k :| 0 <= k < |w.data.entries| && w.data.entries[k] == e;
        var i := FromEntry(entries, w.data, k);
        assert entries[i] in entries;
      }
    case Optional(inner) => assert Shuffled(inner, w.data.inner);
    case _ =>
  }

  lemma {:induction false} ShuffleProper(env: Env, v: Value, w: Value, depth: nat)
    requires Proper(env, v, depth) && Shuffled(v, w)
    ensures Proper(env, w, depth)
    decreases v, 1
  {
    hide ProperData, ShuffledData, ResourceOk, Shaped;
    if v.data.Resource? {
      ResourceFixed(v.data, w.data);
    } else {
      ShuffleShaped(env, v, w);
      ShuffleDataProper(env, v.data, w.data, depth);
    }
  }

  lemma {:induction false} ResourceFixed(d: Data, e: Data)
    requires d.Resource? && ShuffledData(d, e)
    ensures e == d
  {
  }

  lemma {:induction false} ShuffleDataProper(env: Env, d: Data, e: Data, depth: nat)
    requires !d.Resource? && ProperData(env, d, depth) && ShuffledData(d, e)
    ensures !e.Resource? && ProperData(env, e, depth)
    decreases d, 1
  {
    hide Proper, Shuffled, Rearranged, ShuffledEntries, ShuffledFields;
    match d
    case Slice(items) =>
      forall i | 0 <= i < |items| ensures Proper(env, e.items[i], depth + 1) { ShuffleProper(env, items[i], e.items[i], depth + 1); }
    case Map(entries) => ShuffleMapProper(env, entries, e, depth + 1);
    case Struct(fields) => ShuffleStructProper(env, fields, e, depth + 1);
    case Optional(inner) => ShuffleProper(env, inner, e.inner, depth + 1);
    case _ =>
  }

  lemma {:induction false} ShuffleMapProper(env: Env, entries: seq<Entry>, e: Data, depth: nat)
    requires ShuffledData(Map(entries), e) && e.Map? && forall i :: 0 <= i < |entries| ==> ProperEntry(env, entries[i], depth)
    ensures forall k :: 0 <= k < |e.entries| ==> ProperEntry(env, e.entries[k], depth)
    decreases entries, 1
  {
    hide Proper, Shuffled, ShuffledData;
    forall k | 0 <= k < |e.entries| ensures ProperEntry(env, e.entries[k], depth) {
      var i := FromEntry(entries, e, k);
      assert ProperEntry(env, entries[i], depth) && entries[i].key < entries[i] && entries[i].value < entries[i];
      ShuffleProper(env, entries[i].key, e.entries[k].key, depth);
      ShuffleProper(env, entries[i].value, e.entries[k].value, depth);
    }
  }

  function FieldIds(fields: seq<Field>): (ids: seq<FieldId>)
    ensures |ids| == |fields| && forall i :: 0 <= i < |ids| ==> ids[i] == FieldIdOf(fields[i])
  {
    seq(|fields|, i requires 0 <= i < |fields| => fields[i].id)
  }

  function FieldIdOf(f: Field): FieldId { f.id }

  lemma {:induction false} ShuffleDistinct(fields: seq<Field>, e: Data)
    requires ShuffledData(Struct(fields), e) && e.Struct? && Distinct(FieldIds(fields))
    ensures Distinct(FieldIds(e.fields))
  {
    hide Shuffled, Distinct;
    var fs: seq<Field> :| Rearranged(fs, e.fields) && ShuffledFields(fields, fs);
    assert forall i :: 0 <= i < |fields| ==> ShuffledField(fields[i], fs[i]);
    assert FieldIds(fields) == FieldIds(fs);
    MapRearranged(FieldIdOf, fs, e.fields, FieldIds(fs), FieldIds(e.fields));
    DistinctRearranged(FieldIds(fs), FieldIds(e.fields));
  }

  lemma {:induction false} ShuffleStructProper(env: Env, fields: seq<Field>, e: Data, depth: nat)
    requires ShuffledData(Struct(fields), e) && e.Struct?
    requires forall i :: 0 <= i < |fields| ==> fields[i].id != 0 && ProperField(env, fields[i], depth)
    requires forall i, j :: 0 <= i < j < |fields| ==> fields[i].id != fields[j].id
    ensures forall k :: 0 <= k < |e.fields| ==> e.fields[k].id != 0 && ProperField(env, e.fields[k], depth)
    ensures forall i, j :: 0 <= i < j < |e.fields| ==> e.fields[i].id != e.fields[j].id
    decreases fields, 1
  {
    hide Proper, Shuffled, ShuffledData;
    forall k | 0 <= k < |e.fields| ensures e.fields[k].id != 0 && ProperField(env, e.fields[k], depth) {
      var i := FromField(fields, e, k);
      assert ProperField(env, fields[i], depth) && fields[i].value < fields[i];
      ShuffleProper(env, fields[i].value, e.fields[k].value, depth);
    }
    ShuffleDistinct(fields, e);
    forall i, j | 0 <= i < j < |e.fields| ensures e.fields[i].id != e.fields[j].id {
      assert FieldIds(e.fields)[i] != FieldIds(e.fields)[j];
    }
  }

  // ----- readability ---------------------------------------------------------------------------------

  lemma {:induction false} ShuffleReadable(env: Env, v: Value, w: Value, depth: nat)
    requires Readable(env, v, depth) && Shuffled(v, w)
    ensures Readable(env, w, depth)
    decreases v, 1
  {
    hide ReadableData, ShuffledData;
    ShuffleDataReadable(env, v.data, w.data, depth);
  }

  lemma {:induction false} ShuffleDataReadable(env: Env, d: Data, e: Data, depth: nat)
    requires ReadableData(env, d, depth) && ShuffledData(d, e)
    ensures ReadableData(env, e, depth)
    decreases d, 1
  {
    hide Readable, Shuffled, Rearranged, ShuffledEntries, ShuffledFields, ReadableEntry, ReadableField;
    match d
    case Slice(items) =>
      forall i | 0 <= i < |items| ensures Readable(env, e.items[i], depth + 1) {
        ShuffleReadable(env, items[i], e.items[i], depth + 1);
      }
    case Map(entries) => ShuffleEntriesReadable(env, entries, e, depth + 1);
    case Struct(fields) => ShuffleFieldsReadable(env, fields, e, depth + 1);
    case Optional(inner) => ShuffleReadable(env, inner, e.inner, depth + 1);
    case _ =>
  }

  lemma {:induction false} ShuffleEntriesReadable(env: Env, entries: seq<Entry>, e: Data, depth: nat)
    requires ShuffledData(Map(entries), e) && forall i :: 0 <= i < |entries| ==> ReadableEntry(env, entries[i], depth)
    ensures e.Map? && |e.entries| == |entries| && forall k :: 0 <= k < |e.entries| ==> ReadableEntry(env, e.entries[k], depth)
    decreases entries, 1
  {
    hide Readable, Shuffled;
    var es: seq<Entry> :| Rearranged(es, e.entries) && ShuffledEntries(entries, es);
    SameLength(es, e.entries);
    forall k | 0 <= k < |e.entries| ensures ReadableEntry(env, e.entries[k], depth) {
      assert e.entries[k] in multiset(e.entries);
      var i :| 0 <= i < |es| && es[i] == e.entries[k];
      assert ShuffledEntry(entries[i], es[i]) && ReadableEntry(env, entries[i], depth);
      assert entries[i].key < entries[i] && entries[i].value < entries[i];
      ShuffleReadable(env, entries[i].key, es[i].key, depth);
      ShuffleReadable(env, entries[i].value, es[i].value, depth);
    }
  }

  lemma {:induction false} ShuffleFieldsReadable(env: Env, fields: seq<Field>, e: Data, depth: nat)
    requires ShuffledData(Struct(fields), e) && forall i :: 0 <= i < |fields| ==> ReadableField(env, fields[i], depth)
    ensures e.Struct? && |e.fields| == |fields| && forall k :: 0 <= k < |e.fields| ==> ReadableField(env, e.fields[k], depth)
    decreases fields, 1
  {
    hide Readable, Shuffled;
    var fs: seq<Field> :| Rearranged(fs, e.fields) && ShuffledFields(fields, fs);
    SameLength(fs, e.fields);
    forall k | 0 <= k < |e.fields| ensures ReadableField(env, e.fields[k], depth) {
      assert e.fields[k] in multiset(e.fields);
      var i :| 0 <= i < |fs| && fs[i] == e.fields[k];
      assert ShuffledField(fields[i], fs[i]) && ReadableField(env, fields[i], depth) && fields[i].value < fields[i];
      ShuffleReadable(env, fields[i].value, fs[i].value, depth);
    }
  }
}
