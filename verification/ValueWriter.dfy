/** The encoder of `rpc/endpoint_value_codec.go` as it runs: one growing buffer, map keys
    encoded on the side, and a sort that may leave records with equal keys in any order. */
module ValueWriter {
  import opened Options
  import opened WireCodec
  import opened KeyedSort
  import opened ValueCodec
  import opened ValueValidation
  import opened ValuePlain
  import opened ValueShuffle
  import opened ValueRoundTrip
  import opened ValueCanonical
  import opened ValueOrder

  // ----- growing the output ------------------------------------------------------------------------

  lemma {:induction false} ItemsMore(items: seq<Value>, item: Value)
    ensures PlainItems(items + [item]) == PlainItems(items) + Plain(item)
  {
    hide Plain;
    if items == [] {
      assert items + [item] == [item] && [item][1..] == [];
    } else {
      assert (items + [item])[1..] == items[1..] + [item];
      ItemsMore(items[1..], item);
    }
  }

  lemma {:induction false} EntriesMore(entries: seq<Entry>, e: Entry)
    ensures PlainEntries(entries + [e]) == PlainEntries(entries) + PlainEntry(e)
  {
    hide PlainEntry;
    if entries == [] {
      assert entries + [e] == [e] && [e][1..] == [];
    } else {
      assert (entries + [e])[1..] == entries[1..] + [e];
      EntriesMore(entries[1..], e);
    }
  }

  lemma {:induction false} FieldsMore(fields: seq<Field>, f: Field)
    ensures PlainFields(fields + [f]) == PlainFields(fields) + PlainField(f)
  {
    hide PlainField;
    if fields == [] {
      assert fields + [f] == [f] && [f][1..] == [];
    } else {
      assert (fields + [f])[1..] == fields[1..] + [f];
      FieldsMore(fields[1..], f);
    }
  }

  // ----- the sort ------------------------------------------------------------------------------------

  ghost predicate Smallest<T>(s: seq<Keyed<T>>, i: nat) {
    i < |s| && forall k :: 0 <= k < |s| ==> LexLe(s[i].key, s[k].key)
  }

  /** Ascending keys and the same records; the order among equal keys is not promised. */
  method SortRecords<T>(records: seq<Keyed<T>>) returns (sorted: seq<Keyed<T>>)
    ensures Sorted(sorted) && Rearranged(records, sorted)
  {
    hide LexLe, Sorted, Rearranged, Drop;
    sorted := [];
    var rest := records;
    assert sorted + rest == records;
    NothingSorted(records);
    while rest != []
      invariant Sorted(sorted) && Before(sorted, rest) && Rearranged(records, sorted + rest)
      decreases |rest|
    {
      var i := FirstSmallest(rest);
      Moved(records, sorted, rest, i);
      sorted, rest := sorted + [rest[i]], Drop(rest, i);
    }
    assert sorted + rest == sorted;
  }

  ghost predicate Before<T>(sorted: seq<Keyed<T>>, rest: seq<Keyed<T>>) {
    sorted == [] || forall k :: 0 <= k < |rest| ==> LexLe(sorted[|sorted| - 1].key, rest[k].key)
  }

  lemma {:induction false} NothingSorted<T>(records: seq<Keyed<T>>)
    ensures Sorted<T>([]) && Before([], records) && Rearranged(records, records)
  {
  }

  /** Moving a smallest record over keeps the order and the records. */
  lemma {:induction false} Moved<T>(records: seq<Keyed<T>>, sorted: seq<Keyed<T>>, rest: seq<Keyed<T>>, i: nat)
    requires Sorted(sorted) && Before(sorted, rest) && Rearranged(records, sorted + rest) && Smallest(rest, i)
    ensures var more, less := sorted + [rest[i]], Drop(rest, i);
      Sorted(more) && Before(more, less) && Rearranged(records, more + less)
  {
    hide LexLe, Rearranged;
    MovedRecords(records, sorted, rest, i);
    var more := sorted + [rest[i]];
    assert forall k :: 0 <= k < |sorted| ==> more[k] == sorted[k];
  }

  lemma {:induction false} MovedRecords<T>(records: seq<T>, sorted: seq<T>, rest: seq<T>, i: nat)
    requires i < |rest| && Rearranged(records, sorted + rest)
    ensures Rearranged(records, sorted + [rest[i]] + Drop(rest, i))
  {
    hide Drop;
    assert multiset(sorted + [rest[i]] + Drop(rest, i)) == multiset(sorted) + (multiset{rest[i]} + multiset(Drop(rest, i)));
    assert multiset(sorted + rest) == multiset(sorted) + multiset(rest);
  }

  method FirstSmallest<T>(s: seq<Keyed<T>>) returns (i: nat)
    requires s != []
    ensures Smallest(s, i)
  {
    hide LexLe;
    i := 0;
    LexTotal(s[0].key, s[0].key);
    for k := 1 to |s|
      invariant i < k && forall j :: 0 <= j < k ==> LexLe(s[i].key, s[j].key)
    {
      LexTotal(s[k].key, s[i].key);
      LexTotal(s[k].key, s[k].key);
      if !LexLe(s[i].key, s[k].key) {
        forall j | 0 <= j < k ensures LexLe(s[k].key, s[j].key) { LexTransitive(s[k].key, s[i].key, s[j].key); }
        i := k;
      }
    }
  }

  // ----- the writer ------------------------------------------------------------------------------------

  /** What was written for `v`: a reordering of it, ascending at every depth. */
  ghost predicate Wrote(v: Value, w: Value) {
    Shuffled(v, w) && Ascending(w)
  }

  /** `encodeBinaryValue` on a validated value. */
  method EncodeBinaryValue(encoder: WireEncoder, env: Env, v: Value, depth: nat) returns (ghost w: Value)
    requires Proper(env, v, depth) && Size(v).Within(env)
    modifies encoder
    ensures encoder.data == old(encoder.data) + Plain(w) && Wrote(v, w) && InByteOrder(w)
    decreases v, 2
  {
    hide InByteOrder, Uvarint, Delimited, PlainData, SizeData, ProperData, ShuffledData, WroteData;
    SizePositive(v);
    encoder.Raw(v.typ);
    encoder.Uint(Tag(v.data));
    ghost var d;
    if v.data.Resource? {
      EncodeResource(encoder, v.data.ref);
      d := v.data;
      LeafWrote(d);
    } else {
      d := EncodeBinaryData(encoder, env, v.data, depth);
    }
    w := Value(v.typ, d);
    WroteValue(v, d);
    WroteInOrder(env, v, w, depth);
  }

  ghost predicate WroteData(d: Data, e: Data) {
    ShuffledData(d, e) && Ascending(Value([], e))
  }

  lemma {:induction false} WroteValue(v: Value, d: Data)
    requires WroteData(v.data, d)
    ensures Wrote(v, Value(v.typ, d)) && Tag(d) == Tag(v.data)
  {
    hide Rearranged, ShuffledEntries, ShuffledFields, Sorted, AscendingEntry, AscendingField;
    assert Ascending(Value(v.typ, d));
  }

  lemma {:induction false} WroteInOrder(env: Env, v: Value, w: Value, depth: nat)
    requires Proper(env, v, depth) && Wrote(v, w)
    ensures InByteOrder(w)
  {
    hide Proper, Shuffled, Ascending, InByteOrder;
    ShuffleProper(env, v, w, depth);
    AscendingIsByteOrder(env, w, depth);
  }

  lemma {:induction false} LeafWrote(d: Data)
    requires !d.Slice? && !d.Map? && !d.Struct? && !d.Optional?
    ensures WroteData(d, d) && PlainData(d) == EncodeData(d)
  {
    assert Ascending(Value([], d));
  }

  method EncodeResource(encoder: WireEncoder, ref: ResourceRef)
    requires |ref.typeHash| < U64_LIMIT
    modifies encoder
    ensures encoder.data == old(encoder.data) + PlainData(Resource(ref))
  {
    hide Uvarint;
    encoder.Uint(ref.epoch);
    encoder.Uint(ref.objectId);
    encoder.Raw(ref.typeHash);
  }

  method EncodeBinaryData(encoder: WireEncoder, env: Env, d: Data, depth: nat) returns (ghost e: Data)
    requires ProperData(env, d, depth) && SizeData(d).Within(env) && !d.Resource?
    modifies encoder
    ensures encoder.data == old(encoder.data) + PlainData(e) && WroteData(d, e)
    decreases d, 1
  {
    hide Uvarint, Plain, ZigZag, PlainItems, PlainEntries, PlainFields, Proper, ProperEntry, ProperField, Size, SizeItems,
      SizeEntries, SizeFields, WroteData, Wrote;
    match d
    case Slice(items) => e := EncodeSlice(encoder, env, items, depth + 1);
    case Map(entries) => e := EncodeMap(encoder, env, entries, depth + 1);
    case Struct(fields) => e := EncodeStruct(encoder, env, fields, depth + 1);
    case Optional(inner) =>
      ghost var w := EncodeBinaryValue(encoder, env, inner, depth + 1);
      e := Optional(w);
      WroteOptional(inner, w);
    case Resource(_) => assert false;
    case _ =>
      EncodeLeaf(encoder, d);
      e := d;
      LeafWrote(d);
  }

  lemma {:induction false} WroteOptional(inner: Value, w: Value)
    requires Wrote(inner, w)
    ensures WroteData(Optional(inner), Optional(w))
  {
    hide Shuffled;
    assert Ascending(Value([], Optional(w)));
  }

  method EncodeLeaf(encoder: WireEncoder, d: Data)
    requires !d.Slice? && !d.Map? && !d.Struct? && !d.Optional? && !d.Resource?
    requires d.Str? ==> |d.text| < U64_LIMIT
    requires d.Raw? ==> |d.raw| < U64_LIMIT
    modifies encoder
    ensures encoder.data == old(encoder.data) + EncodeData(d)
  {
    hide Uvarint, ZigZag;
    match d
    case Nil =>
    case Bool(b) => encoder.data := encoder.data + [if b then 1 else 0];
    case Int(i) => encoder.Int(i);
    case Uint(u) => encoder.Uint(u);
    case Float(w) => encoder.data := encoder.data + w;
    case Complex(re, im) => encoder.data := encoder.data + re + im;
    case Str(s) => encoder.Raw(s);
    case Raw(s) => encoder.Raw(s);
  }

  method EncodeSlice(encoder: WireEncoder, env: Env, items: seq<Value>, depth: nat) returns (ghost e: Data)
    requires SizeItems(items).Within(env) && forall i :: 0 <= i < |items| ==> Proper(env, items[i], depth)
    modifies encoder
    ensures encoder.data == old(encoder.data) + PlainData(e) && WroteData(Slice(items), e)
    decreases items, 0
  {
    hide Uvarint, Plain, PlainItems, Proper, Size, SizeItems, Wrote, WroteData;
    ItemsCover(items);
    encoder.Uint(|items|);
    ghost var start := encoder.data;
    ghost var ws: seq<Value> := [];
    NothingPlain();
    for k := 0 to |items|
      invariant encoder.data == start + PlainItems(ws) && |ws| == k
      invariant forall i :: 0 <= i < k ==> Wrote(items[i], ws[i])
    {
      ghost var w := EncodeBinaryValue(encoder, env, items[k], depth);
      ItemsMore(ws, w);
      ws := ws + [w];
    }
    e := Slice(ws);
    WroteSlice(items, ws);
  }

  lemma {:induction false} NothingPlain()
    ensures PlainItems([]) == [] && PlainEntries([]) == [] && PlainFields([]) == []
  {
  }

  lemma {:induction false} WroteSlice(items: seq<Value>, ws: seq<Value>)
    requires |ws| == |items| && forall i :: 0 <= i < |items| ==> Wrote(items[i], ws[i])
    ensures WroteData(Slice(items), Slice(ws))
  {
    hide Shuffled;
    assert forall i :: 0 <= i < |items| ==> Shuffled(items[i], ws[i]) && Ascending(ws[i]);
    assert Ascending(Value([], Slice(ws)));
  }

  // ----- maps ------------------------------------------------------------------------------------------

  /** The record of an entry: the key as it was written, with the entry it belongs to. */
  ghost predicate KeyWritten(r: Keyed<Entry>) {
    exists key :: Wrote(r.payload.key, key) && Plain(key) == r.key
  }

  /** What was written for a record. */
  ghost predicate EntryWritten(r: Keyed<Entry>, w: Entry) {
    Wrote(r.payload.key, w.key) && Wrote(r.payload.value, w.value) && Plain(w.key) == r.key
  }

  /** Keys are encoded into buffers of their own, which also order the entries. */
  method EncodeMap(encoder: WireEncoder, env: Env, entries: seq<Entry>, depth: nat) returns (ghost e: Data)
    requires SizeEntries(entries).Within(env) && forall i :: 0 <= i < |entries| ==> ProperEntry(env, entries[i], depth)
    modifies encoder
    ensures encoder.data == old(encoder.data) + PlainData(e) && WroteData(Map(entries), e)
    decreases entries, 1
  {
    hide Uvarint, Plain, PlainEntries, Proper, Size, SizeEntries, Wrote, WroteData, Sorted, Rearranged;
    EntriesCover(entries);
    var keyed: seq<Keyed<Entry>> := [];
    for k := 0 to |entries|
      invariant |keyed| == k && encoder.data == old(encoder.data)
      invariant forall i :: 0 <= i < k ==> keyed[i].payload == entries[i] && KeyWritten(keyed[i])
    {
      var buffer := new WireEncoder();
      assert entries[k].key < entries[k] && ProperEntry(env, entries[k], depth);
      ghost var key := EncodeBinaryValue(buffer, env, entries[k].key, depth);
      assert buffer.data == Plain(key);
      assert KeyWritten(Keyed(buffer.data, entries[k]));
      keyed := keyed + [Keyed(buffer.data, entries[k])];
    }
    var sorted := SortRecords(keyed);
    SortedFrom(keyed, sorted);
    encoder.Uint(|entries|);
    ghost var ws := WriteEntries(encoder, env, entries, sorted, depth);
    e := Map(ws);
    WroteMap(entries, keyed, sorted, ws);
  }

  lemma {:induction false} SortedFrom<T>(keyed: seq<Keyed<T>>, sorted: seq<Keyed<T>>)
    requires Rearranged(keyed, sorted)
    ensures |sorted| == |keyed| && forall k :: 0 <= k < |sorted| ==> sorted[k] in keyed
  {
    SameLength(keyed, sorted);
    forall k | 0 <= k < |sorted| ensures sorted[k] in keyed { assert sorted[k] in multiset(sorted); }
  }

  method WriteEntries(encoder: WireEncoder, env: Env, entries: seq<Entry>, sorted: seq<Keyed<Entry>>, depth: nat)
    returns (ghost ws: seq<Entry>)
    requires SizeEntries(entries).Within(env) && forall i :: 0 <= i < |entries| ==> ProperEntry(env, entries[i], depth)
    requires forall k :: 0 <= k < |sorted| ==> sorted[k].payload in entries && KeyWritten(sorted[k])
    modifies encoder
    ensures encoder.data == old(encoder.data) + PlainEntries(ws)
    ensures |ws| == |sorted| && forall k :: 0 <= k < |ws| ==> EntryWritten(sorted[k], ws[k])
    decreases entries, 0
  {
    hide Plain, PlainEntries, Proper, Size, SizeEntries, Wrote;
    EntriesCover(entries);
    NothingPlain();
    ws := [];
    for k := 0 to |sorted|
      invariant encoder.data == old(encoder.data) + PlainEntries(ws)
      invariant |ws| == k && forall i :: 0 <= i < k ==> EntryWritten(sorted[i], ws[i])
    {
      var entry := sorted[k].payload;
      ghost var i :| 0 <= i < |entries| && entries[i] == entry;
      assert entry.value < entry && ProperEntry(env, entries[i], depth);
      ghost var key :| Wrote(entry.key, key) && Plain(key) == sorted[k].key;
      encoder.data := encoder.data + sorted[k].key;
      ghost var value := EncodeBinaryValue(encoder, env, entry.value, depth);
      EntriesMore(ws, Entry(key, value));
      ws := ws + [Entry(key, value)];
    }
  }

  lemma {:induction false} WroteMap(entries: seq<Entry>, keyed: seq<Keyed<Entry>>, sorted: seq<Keyed<Entry>>, ws: seq<Entry>)
    requires |keyed| == |entries| && forall i :: 0 <= i < |keyed| ==> keyed[i].payload == entries[i]
    requires Sorted(sorted) && Rearranged(keyed, sorted)
    requires |ws| == |sorted| && forall k :: 0 <= k < |ws| ==> EntryWritten(sorted[k], ws[k])
    ensures |ws| == |entries| && WroteData(Map(entries), Map(ws))
  {
    hide Plain, Shuffled, Rearranged, PlainRecords, LexLe;
    SameLength(keyed, sorted);
    var es := Align((r, w) => EntryWritten(r, w), keyed, sorted, ws);
    forall i | 0 <= i < |entries| ensures ShuffledEntry(entries[i], es[i]) { assert EntryWritten(keyed[i], es[i]); }
    assert Rearranged(es, ws) && ShuffledEntries(entries, es);
    assert ShuffledData(Map(entries), Map(ws));
    forall k | 0 <= k < |ws| ensures AscendingEntry(ws[k]) && PlainRecords(ws)[k].key == sorted[k].key {
      assert EntryWritten(sorted[k], ws[k]);
    }
    assert Ascending(Value([], Map(ws)));
  }

  // ----- structs ---------------------------------------------------------------------------------------

  ghost predicate FieldWritten(r: Keyed<Field>, w: Field) {
    r.key == [r.payload.id] && w.id == r.payload.id && Wrote(r.payload.value, w.value)
  }

  method EncodeStruct(encoder: WireEncoder, env: Env, fields: seq<Field>, depth: nat) returns (ghost e: Data)
    requires SizeFields(fields).Within(env) && forall i :: 0 <= i < |fields| ==> ProperField(env, fields[i], depth)
    modifies encoder
    ensures encoder.data == old(encoder.data) + PlainData(e) && WroteData(Struct(fields), e)
    decreases fields, 1
  {
    hide Uvarint, Plain, PlainFields, Proper, Size, SizeFields, Wrote, WroteData, Sorted, Rearranged;
    FieldsCover(fields);
    var keyed := seq(|fields|, i requires 0 <= i < |fields| => Keyed([fields[i].id], fields[i]));
    var sorted := SortRecords(keyed);
    SortedFrom(keyed, sorted);
    encoder.Uint(|fields|);
    ghost var ws := WriteFields(encoder, env, fields, sorted, depth);
    e := Struct(ws);
    WroteStruct(fields, keyed, sorted, ws);
  }

  method WriteFields(encoder: WireEncoder, env: Env, fields: seq<Field>, sorted: seq<Keyed<Field>>, depth: nat)
    returns (ghost ws: seq<Field>)
    requires SizeFields(fields).Within(env) && forall i :: 0 <= i < |fields| ==> ProperField(env, fields[i], depth)
    requires forall k :: 0 <= k < |sorted| ==> sorted[k].payload in fields && sorted[k].key == [sorted[k].payload.id]
    modifies encoder
    ensures encoder.data == old(encoder.data) + PlainFields(ws)
    ensures |ws| == |sorted| && forall k :: 0 <= k < |ws| ==> FieldWritten(sorted[k], ws[k])
    decreases fields, 0
  {
    hide Uvarint, Plain, PlainFields, Proper, Size, SizeFields, Wrote;
    FieldsCover(fields);
    NothingPlain();
    ws := [];
    for k := 0 to |sorted|
      invariant encoder.data == old(encoder.data) + PlainFields(ws)
      invariant |ws| == k && forall i :: 0 <= i < k ==> FieldWritten(sorted[i], ws[i])
    {
      var f := sorted[k].payload;
      ghost var i :| 0 <= i < |fields| && fields[i] == f;
      assert f.value < f && ProperField(env, fields[i], depth);
      encoder.Uint(f.id);
      ghost var value := EncodeBinaryValue(encoder, env, f.value, depth);
      FieldsMore(ws, Field(f.id, value));
      ws := ws + [Field(f.id, value)];
    }
  }

  lemma {:induction false} WroteStruct(fields: seq<Field>, keyed: seq<Keyed<Field>>, sorted: seq<Keyed<Field>>, ws: seq<Field>)
    requires |keyed| == |fields| && forall i :: 0 <= i < |keyed| ==> keyed[i].payload == fields[i]
    requires Sorted(sorted) && Rearranged(keyed, sorted)
    requires |ws| == |sorted| && forall k :: 0 <= k < |ws| ==> FieldWritten(sorted[k], ws[k])
    ensures |ws| == |fields| && WroteData(Struct(fields), Struct(ws))
  {
    hide Shuffled, Rearranged, FieldRecords, LexLe;
    SameLength(keyed, sorted);
    var fs := Align((r, w) => FieldWritten(r, w), keyed, sorted, ws);
    forall i | 0 <= i < |fields| ensures ShuffledField(fields[i], fs[i]) { assert FieldWritten(keyed[i], fs[i]); }
    assert Rearranged(fs, ws) && ShuffledFields(fields, fs);
    assert ShuffledData(Struct(fields), Struct(ws));
    forall k | 0 <= k < |ws| ensures AscendingField(ws[k]) && FieldRecords(ws)[k].key == sorted[k].key {
      assert FieldWritten(sorted[k], ws[k]);
    }
    assert Ascending(Value([], Struct(ws)));
  }

  // ----- the list ---------------------------------------------------------------------------------------

  /** `EncodeValues`: success is decided by validation and the length of what was written,
      which decodes to a reordering of the values, in ascending order at every depth. */
  method WriteValues(env: Env, values: seq<Value>) returns (payload: Option<Bytes>, ghost written: seq<Value>)
    ensures payload.Some? ==> Accepted(env, values) && |payload.value| <= env.maxBytes
    ensures payload.None? && Accepted(env, values) ==> |Uvarint(|written|) + PlainItems(written)| > env.maxBytes
    ensures Accepted(env, values) ==> |written| == |values| && forall i :: 0 <= i < |values| ==> Wrote(values[i], written[i]) && InByteOrder(written[i])
    ensures payload.Some? ==> payload.value == Uvarint(|written|) + PlainItems(written)
    ensures payload.Some? && TrimBehaves(env) ==> DecodeValues(env, payload.value) == Some(written)
    ensures payload.Some? && (forall i :: 0 <= i < |values| ==> Unambiguous(values[i])) ==> payload == EncodeValues(env, values)
  {
    hide InByteOrder, Uvarint, Plain, PlainItems, EncodeItems, Proper, SizeItems, Size, Wrote, TrimBehaves, ValidateItems, DecodeValues, Unambiguous;
    AcceptedExactly(env, values);
    written := [];
    if ValidateItems(env, values, 0, ZERO).None? { return None, written; }
    var encoder := new WireEncoder();
    ItemsCover(values);
    encoder.Uint(|values|);
    NothingPlain();
    for k := 0 to |values|
      invariant encoder.data == Uvarint(|values|) + PlainItems(written) && |written| == k
      invariant forall i :: 0 <= i < k ==> Wrote(values[i], written[i]) && InByteOrder(written[i])
    {
      ghost var w := EncodeBinaryValue(encoder, env, values[k], 0);
      ItemsMore(written, w);
      written := written + [w];
    }
    if |encoder.data| > env.maxBytes { return None, written; }
    WroteItems(values, written);
    payload := Some(encoder.data);
    if TrimBehaves(env) { WrittenRoundTrip(env, values, written); }
  }

  lemma {:induction false} WroteItems(values: seq<Value>, written: seq<Value>)
    requires |written| == |values| && forall i :: 0 <= i < |values| ==> Wrote(values[i], written[i])
    ensures ShuffledItems(values, written)
    ensures (forall i :: 0 <= i < |values| ==> Unambiguous(values[i])) ==> PlainItems(written) == EncodeItems(values)
  {
    hide Shuffled, Ascending, Plain, Encode, PlainItems, EncodeItems, Unambiguous;
    assert forall i :: 0 <= i < |values| ==> Shuffled(values[i], written[i]);
    if forall i :: 0 <= i < |values| ==> Unambiguous(values[i]) {
      forall i | 0 <= i < |values| ensures Plain(written[i]) == Encode(values[i]) {
        assert Wrote(values[i], written[i]);
        AscendingEncodes(values[i], written[i]);
      }
      ItemsAgree(values, written);
    }
  }
}
