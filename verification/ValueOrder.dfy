/** Orders on the wire: what the encoder may write when its sort leaves ties open, what the
    decoder makes of it, and which payloads re-encoding reproduces. */
module ValueOrder {
  import opened Options
  import opened WireCodec
  import opened KeyedSort
  import opened ValueCodec
  import opened ValueValidation
  import opened ValuePlain
  import opened ValueShuffle
  import opened ValueRoundTrip
  import opened ValueCanonical

  // ----- any sort -----------------------------------------------------------------------------------------

  /** Entries by encoded key and fields by identity, at every depth; ties are left open. */
  ghost predicate Ascending(v: Value)
    decreases v, 1
  {
    match v.data
    case Slice(items) => forall i :: 0 <= i < |items| ==> Ascending(items[i])
    case Map(entries) => Sorted(PlainRecords(entries)) && forall i :: 0 <= i < |entries| ==> AscendingEntry(entries[i])
    case Struct(fields) => Sorted(FieldRecords(fields)) && forall i :: 0 <= i < |fields| ==> AscendingField(fields[i])
    case Optional(inner) => Ascending(inner)
    case _ => true
  }

  ghost predicate AscendingEntry(e: Entry)
    decreases e, 2
  {
    Ascending(e.key) && Ascending(e.value)
  }

  ghost predicate AscendingField(f: Field)
    decreases f, 2
  {
    Ascending(f.value)
  }

  function PlainRecord(e: Entry): Keyed<Bytes> { Keyed(Plain(e.key), PlainEntry(e)) }
  function FieldRecord(f: Field): Keyed<Bytes> { Keyed([f.id], PlainField(f)) }

  function PlainRecords(entries: seq<Entry>): (r: seq<Keyed<Bytes>>)
    ensures |r| == |entries| && forall i :: 0 <= i < |r| ==> r[i] == PlainRecord(entries[i])
  {
    seq(|entries|, i requires 0 <= i < |entries| => PlainRecord(entries[i]))
  }

  function FieldRecords(fields: seq<Field>): (r: seq<Keyed<Bytes>>)
    ensures |r| == |fields| && forall i :: 0 <= i < |r| ==> r[i] == FieldRecord(fields[i])
  {
    seq(|fields|, i requires 0 <= i < |fields| => FieldRecord(fields[i]))
  }

  lemma {:induction false} JoinEntries(entries: seq<Entry>)
    ensures Join(PlainRecords(entries)) == PlainEntries(entries)
  {
    hide PlainEntry, PlainRecords;
    if entries != [] {
      assert PlainRecords(entries)[1..] == PlainRecords(entries[1..]);
      JoinEntries(entries[1..]);
    }
  }

  lemma {:induction false} JoinFields(fields: seq<Field>)
    ensures Join(FieldRecords(fields)) == PlainFields(fields)
  {
    hide PlainField, FieldRecords;
    if fields != [] {
      assert FieldRecords(fields)[1..] == FieldRecords(fields[1..]);
      JoinFields(fields[1..]);
    }
  }

  /** However ties are broken: when equal encoded keys have equal entries, the bytes written
      are the encoding, so encoding is a function of the value. */
  lemma {:induction false} AscendingEncodes(v: Value, w: Value)
    requires Shuffled(v, w) && Ascending(w) && Unambiguous(v)
    ensures Plain(w) == Encode(v)
    decreases v, 1
  {
    hide PlainData, EncodeData, ShuffledData, Uvarint, Delimited;
    AscendingDataEncodes(v, w);
  }

  lemma {:induction false} AscendingDataEncodes(v: Value, w: Value)
    requires ShuffledData(v.data, w.data) && Ascending(w) && Unambiguous(v)
    ensures Tag(w.data) == Tag(v.data) && PlainData(w.data) == EncodeData(v.data)
    decreases v, 0
  {
    hide Plain, Encode, Shuffled, Rearranged, ShuffledEntries, ShuffledFields, Coherent, Sorted, Sort, Join, Uvarint, PlainItems,
      PlainEntries, PlainFields, EncodeItems, EncodedEntries, EncodedFields, PlainRecords, FieldRecords, AscendingEntry, AscendingField;
    match v.data
    case Slice(items) =>
      forall i | 0 <= i < |items| ensures Plain(w.data.items[i]) == Encode(items[i]) { AscendingEncodes(items[i], w.data.items[i]); }
      ItemsAgree(items, w.data.items);
    case Map(entries) => AscendingMap(entries, w.data);
    case Struct(fields) => AscendingStruct(fields, w.data);
    case Optional(inner) => AscendingEncodes(inner, w.data.inner);
    case _ =>
  }

  lemma {:induction false} ItemsAgree(a: seq<Value>, b: seq<Value>)
    requires |a| == |b| && forall i :: 0 <= i < |a| ==> Plain(b[i]) == Encode(a[i])
    ensures PlainItems(b) == EncodeItems(a)
  {
    hide Plain, Encode;
    if a != [] { ItemsAgree(a[1..], b[1..]); }
  }

  lemma {:induction false} AscendingRecord(e: Entry, w: Entry)
    requires ShuffledEntry(e, w) && AscendingEntry(w) && UnambiguousEntry(e)
    ensures EncodeEntry(e) == PlainRecord(w)
    decreases e, 2
  {
    hide Plain, Encode, Shuffled, Ascending, Unambiguous;
    AscendingEncodes(e.key, w.key);
    AscendingEncodes(e.value, w.value);
  }

  lemma {:induction false} AscendingFieldRecord(f: Field, w: Field)
    requires ShuffledField(f, w) && AscendingField(w) && UnambiguousField(f)
    ensures EncodeField(f) == FieldRecord(w)
    decreases f, 2
  {
    hide Plain, Encode, Shuffled, Ascending, Unambiguous, Uvarint;
    AscendingEncodes(f.value, w.value);
  }

  lemma {:induction false} AscendingMap(entries: seq<Entry>, e: Data)
    requires ShuffledData(Map(entries), e) && e.Map? && Sorted(PlainRecords(e.entries)) && Coherent(EncodedEntries(entries))
    requires forall i :: 0 <= i < |e.entries| ==> AscendingEntry(e.entries[i])
    requires forall i :: 0 <= i < |entries| ==> UnambiguousEntry(entries[i])
    ensures PlainData(e) == EncodeData(Map(entries))
    decreases entries, 1
  {
    hide Plain, Encode, ShuffledEntry, AscendingEntry, UnambiguousEntry, Sorted, Coherent, Sort, Join, Uvarint, PlainEntries,
      EncodedEntries, PlainRecords, EncodeEntry, PlainRecord;
    var es: seq<Entry> :| Rearranged(es, e.entries) && ShuffledEntries(entries, es);
    SameLength(es, e.entries);
    forall i | 0 <= i < |entries| ensures EncodedEntries(entries)[i] == PlainRecords(es)[i] {
      assert es[i] in multiset(e.entries);
      var k :| 0 <= k < |e.entries| && e.entries[k] == es[i];
      AscendingRecord(entries[i], es[i]);
    }
    assert EncodedEntries(entries) == PlainRecords(es);
    MapRearranged(PlainRecord, es, e.entries, PlainRecords(es), PlainRecords(e.entries));
    SortUnique(EncodedEntries(entries), PlainRecords(e.entries));
    JoinEntries(e.entries);
  }

  lemma {:induction false} AscendingStruct(fields: seq<Field>, e: Data)
    requires ShuffledData(Struct(fields), e) && e.Struct? && Sorted(FieldRecords(e.fields)) && Coherent(EncodedFields(fields))
    requires forall i :: 0 <= i < |e.fields| ==> AscendingField(e.fields[i])
    requires forall i :: 0 <= i < |fields| ==> UnambiguousField(fields[i])
    ensures PlainData(e) == EncodeData(Struct(fields))
    decreases fields, 1
  {
    hide Plain, Encode, ShuffledField, AscendingField, UnambiguousField, Sorted, Coherent, Sort, Join, Uvarint, PlainFields,
      EncodedFields, FieldRecords, EncodeField, FieldRecord;
    var fs: seq<Field> :| Rearranged(fs, e.fields) && ShuffledFields(fields, fs);
    SameLength(fs, e.fields);
    forall i | 0 <= i < |fields| ensures EncodedFields(fields)[i] == FieldRecords(fs)[i] {
      assert fs[i] in multiset(e.fields);
      var k :| 0 <= k < |e.fields| && e.fields[k] == fs[i];
      AscendingFieldRecord(fields[i], fs[i]);
    }
    assert EncodedFields(fields) == FieldRecords(fs);
    MapRearranged(FieldRecord, fs, e.fields, FieldRecords(fs), FieldRecords(e.fields));
    SortUnique(EncodedFields(fields), FieldRecords(e.fields));
    JoinFields(e.fields);
  }

  // ----- the canonical order is one of them ---------------------------------------------------------

  lemma {:induction false} CanonAscending(v: Value)
    ensures Ascending(Canon(v))
    decreases v, 1
  {
    hide Sort, Sorted, CanonEntries, CanonFields, Payloads, PlainRecords, FieldRecords, AscendingEntry, AscendingField;
    match v.data
    case Slice(items) => forall i | 0 <= i < |items| ensures Ascending(Canon(items[i])) { CanonAscending(items[i]); }
    case Map(entries) => CanonAscendingMap(entries);
    case Struct(fields) => CanonAscendingStruct(fields);
    case Optional(inner) => CanonAscending(inner);
    case _ =>
  }

  lemma {:induction false} CanonAscendingMap(entries: seq<Entry>)
    ensures var canon := Payloads(Sort(CanonEntries(entries)));
      Sorted(PlainRecords(canon)) && forall i :: 0 <= i < |canon| ==> AscendingEntry(canon[i])
    decreases entries, 0
  {
    hide Sort, Encode, Plain, Canon, Ascending, PlainEntry, CanonEntries;
    var sorted := Sort(CanonEntries(entries));
    SortSorted(CanonEntries(entries));
    forall k | 0 <= k < |sorted| ensures AscendingEntry(sorted[k].payload) && Plain(sorted[k].payload.key) == sorted[k].key {
      assert sorted[k] in multiset(sorted);
      var i :| 0 <= i < |entries| && CanonEntries(entries)[i] == sorted[k];
      var e := entries[i];
      assert sorted[k] == CanonEntry(e) && e.key < e && e.value < e;
      CanonAscending(e.key);
      CanonAscending(e.value);
      PlainCanon(e.key);
    }
  }

  lemma {:induction false} CanonAscendingStruct(fields: seq<Field>)
    ensures var canon := Payloads(Sort(CanonFields(fields)));
      Sorted(FieldRecords(canon)) && forall i :: 0 <= i < |canon| ==> AscendingField(canon[i])
    decreases fields, 0
  {
    hide Sort, Canon, Ascending, PlainField, CanonFields;
    var sorted := Sort(CanonFields(fields));
    SortSorted(CanonFields(fields));
    forall k | 0 <= k < |sorted| ensures AscendingField(sorted[k].payload) && [sorted[k].payload.id] == sorted[k].key {
      assert sorted[k] in multiset(sorted);
      var i :| 0 <= i < |fields| && CanonFields(fields)[i] == sorted[k];
      assert sorted[k] == CanonField(fields[i]) && fields[i].value < fields[i];
      CanonAscending(fields[i].value);
    }
  }

  // ----- and the only one that encoding leaves alone ----------------------------------------------------

  lemma {:induction false} AscendingIsCanon(v: Value)
    requires Ascending(v)
    ensures Canon(v) == v
    decreases v, 1
  {
    hide Sort, Sorted, CanonEntries, CanonFields, Payloads, PlainRecords, FieldRecords, AscendingEntry, AscendingField;
    match v.data
    case Slice(items) =>
      forall i | 0 <= i < |items| ensures Canon(items[i]) == items[i] { AscendingIsCanon(items[i]); }
      assert CanonItems(items) == items;
    case Map(entries) => AscendingMapIsCanon(entries);
    case Struct(fields) => AscendingStructIsCanon(fields);
    case Optional(inner) => AscendingIsCanon(inner);
    case _ =>
  }

  lemma {:induction false} AscendingMapIsCanon(entries: seq<Entry>)
    requires Sorted(PlainRecords(entries)) && forall i :: 0 <= i < |entries| ==> AscendingEntry(entries[i])
    ensures Payloads(Sort(CanonEntries(entries))) == entries
    decreases entries, 0
  {
    hide Sort, Encode, Plain, Canon, Ascending, PlainEntry, CanonEntries, PlainRecords, LexLe;
    var keyed := CanonEntries(entries);
    forall i | 0 <= i < |entries| ensures keyed[i] == Keyed(PlainRecords(entries)[i].key, entries[i]) {
      var e := entries[i];
      assert AscendingEntry(e) && keyed[i] == CanonEntry(e) && e.key < e && e.value < e;
      AscendingIsCanon(e.key);
      AscendingIsCanon(e.value);
      PlainCanon(e.key);
    }
    SortOfSorted(keyed);
  }

  lemma {:induction false} AscendingStructIsCanon(fields: seq<Field>)
    requires Sorted(FieldRecords(fields)) && forall i :: 0 <= i < |fields| ==> AscendingField(fields[i])
    ensures Payloads(Sort(CanonFields(fields))) == fields
    decreases fields, 0
  {
    hide Sort, Canon, Ascending, PlainField, CanonFields, FieldRecords, LexLe;
    var keyed := CanonFields(fields);
    forall i | 0 <= i < |fields| ensures keyed[i] == Keyed(FieldRecords(fields)[i].key, fields[i]) {
      var f := fields[i];
      assert AscendingField(f) && keyed[i] == CanonField(f) && f.value < f;
      AscendingIsCanon(f.value);
    }
    SortOfSorted(keyed);
  }

  /** The canonical values are exactly those written in ascending order. */
  lemma {:induction false} CanonicalExactly(v: Value)
    ensures Canon(v) == v <==> Ascending(v)
  {
    hide Canon, Ascending;
    CanonAscending(v);
    if Ascending(v) { AscendingIsCanon(v); }
  }

  /** A value and its canonical form have the same encoding. */
  lemma {:induction false} EncodeCanon(v: Value)
    ensures Encode(Canon(v)) == Encode(v)
  {
    hide Encode, Plain, Canon, Ascending;
    CanonAscending(v);
    AscendingIsCanon(Canon(v));
    PlainCanon(v);
    PlainCanon(Canon(v));
  }

  // ----- what ascending means on the wire ---------------------------------------------------------------

  /** At every depth field identities grow as numbers, and the bytes of each map key come
      before those of the next. */
  ghost predicate InByteOrder(v: Value)
    decreases v, 1
  {
    match v.data
    case Slice(items) => forall i :: 0 <= i < |items| ==> InByteOrder(items[i])
    case Map(entries) =>
      && (forall i :: 0 < i < |entries| ==> ByteOrder(Plain(entries[i - 1].key), Plain(entries[i].key)))
      && (forall i :: 0 <= i < |entries| ==> EntryInByteOrder(entries[i]))
    case Struct(fields) =>
      && (forall i :: 0 < i < |fields| ==> fields[i - 1].id < fields[i].id)
      && (forall i :: 0 <= i < |fields| ==> FieldInByteOrder(fields[i]))
    case Optional(inner) => InByteOrder(inner)
    case _ => true
  }

  ghost predicate EntryInByteOrder(e: Entry)
    decreases e, 2
  {
    InByteOrder(e.key) && InByteOrder(e.value)
  }

  ghost predicate FieldInByteOrder(f: Field)
    decreases f, 2
  {
    InByteOrder(f.value)
  }

  /** A validated value in ascending order is in byte order. */
  lemma {:induction false} AscendingIsByteOrder(env: Env, v: Value, depth: nat)
    requires Proper(env, v, depth) && Ascending(v)
    ensures InByteOrder(v)
    decreases v, 1
  {
    hide Sorted, PlainRecords, FieldRecords, AscendingEntry, AscendingField, ProperEntry, ProperField, Shaped, ByteOrder, Plain, EntryInByteOrder, FieldInByteOrder;
    match v.data
    case Slice(items) => forall i | 0 <= i < |items| ensures InByteOrder(items[i]) { AscendingIsByteOrder(env, items[i], depth + 1); }
    case Map(entries) => EntriesInByteOrder(env, entries, depth + 1);
    case Struct(fields) => FieldsInByteOrder(env, fields, depth + 1);
    case Optional(inner) => AscendingIsByteOrder(env, inner, depth + 1);
    case _ =>
  }

  lemma {:induction false} EntriesInByteOrder(env: Env, entries: seq<Entry>, depth: nat)
    requires Sorted(PlainRecords(entries))
    requires forall i :: 0 <= i < |entries| ==> ProperEntry(env, entries[i], depth) && AscendingEntry(entries[i])
    ensures forall i :: 0 < i < |entries| ==> ByteOrder(Plain(entries[i - 1].key), Plain(entries[i].key))
    ensures forall i :: 0 <= i < |entries| ==> EntryInByteOrder(entries[i])
    decreases entries, 0
  {
    hide Proper, Ascending, ByteOrder, Plain, LexLe, InByteOrder;
    var records := PlainRecords(entries);
    forall i | 0 < i < |entries| ensures ByteOrder(Plain(entries[i - 1].key), Plain(entries[i].key)) {
      assert LexLe(records[i - 1].key, records[i].key);
      LexIsByteOrder(records[i - 1].key, records[i].key);
    }
    forall i | 0 <= i < |entries| ensures EntryInByteOrder(entries[i]) {
      assert ProperEntry(env, entries[i], depth) && AscendingEntry(entries[i]) && entries[i].key < entries[i] && entries[i].value < entries[i];
      AscendingIsByteOrder(env, entries[i].key, depth);
      AscendingIsByteOrder(env, entries[i].value, depth);
    }
  }

  lemma {:induction false} OneByte(a: nat, b: nat)
    requires LexLe([a], [b])
    ensures a <= b
  {
  }

  lemma {:induction false} FieldsInByteOrder(env: Env, fields: seq<Field>, depth: nat)
    requires Sorted(FieldRecords(fields)) && forall i, j :: 0 <= i < j < |fields| ==> fields[i].id != fields[j].id
    requires forall i :: 0 <= i < |fields| ==> ProperField(env, fields[i], depth) && AscendingField(fields[i])
    ensures forall i :: 0 < i < |fields| ==> fields[i - 1].id < fields[i].id
    ensures forall i :: 0 <= i < |fields| ==> FieldInByteOrder(fields[i])
    decreases fields, 0
  {
    hide Proper, Ascending, PlainField, InByteOrder, LexLe;
    var records := FieldRecords(fields);
    forall i | 0 < i < |fields| ensures fields[i - 1].id < fields[i].id {
      assert LexLe(records[i - 1].key, records[i].key);
      assert records[i - 1].key == [fields[i - 1].id] && records[i].key == [fields[i].id];
      OneByte(fields[i - 1].id, fields[i].id);
    }
    forall i | 0 <= i < |fields| ensures FieldInByteOrder(fields[i]) {
      assert ProperField(env, fields[i], depth) && AscendingField(fields[i]) && fields[i].value < fields[i];
      AscendingIsByteOrder(env, fields[i].value, depth);
    }
  }

  // ----- re-encoding ------------------------------------------------------------------------------------

  /** A payload decodes only if it is the plain encoding of what it decodes to, and encoding
      that again reproduces the payload exactly if the payload was in ascending order. */
  lemma {:induction false} ReencodeExactly(env: Env, payload: Bytes, values: seq<Value>)
    requires TrimBehaves(env) && DecodeValues(env, payload) == Some(values)
    ensures payload == Uvarint(|values|) + PlainItems(values)
    ensures EncodeValues(env, values) == Some(payload) <==> forall i :: 0 <= i < |values| ==> Ascending(values[i])
  {
    hide DecodeCount, DecodeItems, PlainItems, Readable, EncodeItems, ValidateItems, Uvarint, TrimBehaves, Canon, Ascending, CanonItems;
    var (count, body) := DecodeCount(env, payload).value;
    CountExactly(env, payload, count, body);
    ItemsInvert(env, count, body, 0);
    assert body == PlainItems(values) + [] == PlainItems(values);
    PlainCanonItems(values);
    forall i | 0 <= i < |values| ensures Canon(values[i]) == values[i] <==> Ascending(values[i]) { CanonicalExactly(values[i]); }
    if EncodeValues(env, values) == Some(payload) {
      ValuesRoundTrip(env, values);
      forall i | 0 <= i < |values| ensures Ascending(values[i]) { assert CanonItems(values)[i] == Canon(values[i]); }
    }
    if forall i :: 0 <= i < |values| ==> Ascending(values[i]) { assert CanonItems(values) == values; }
  }
}
