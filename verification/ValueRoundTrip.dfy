/** The round trip of the value codec, in whatever order entries and fields are written,
    and the canonical form as one such order. */
module ValueRoundTrip {
  import opened Options
  import opened WireCodec
  import opened KeyedSort
  import opened ValueCodec
  import opened ValueValidation
  import opened ValuePlain
  import opened ValueShuffle

  /** Trimming a type name keeps it valid UTF-8 and never lengthens it. */
  ghost predicate TrimBehaves(env: Env) {
    forall b: Bytes :: env.utf8(b) ==> env.utf8(env.trim(b)) && |env.trim(b)| <= |b|
  }

  // ----- sizes of parts -------------------------------------------------------------

  ghost predicate Covers(whole: Tally, part: Tally) {
    part.bytes <= whole.bytes && part.elements <= whole.elements
  }

  lemma SizePositive(v: Value)
    ensures Size(v).elements >= 1 && |v.typ| <= Size(v).bytes
    ensures Covers(Size(v), SizeData(v.data))
  {
  }

  lemma {:induction false} ItemsCover(items: seq<Value>)
    ensures |items| <= SizeItems(items).elements
    ensures forall i :: 0 <= i < |items| ==> Covers(SizeItems(items), Size(items[i]))
  {
    hide Size;
    if items != [] {
      ItemsCover(items[1..]);
      SizePositive(items[0]);
      forall i | 0 <= i < |items| ensures Covers(SizeItems(items), Size(items[i])) {
        if i > 0 { assert items[i] == items[1..][i - 1]; }
      }
    }
  }

  lemma {:induction false} EntriesCover(entries: seq<Entry>)
    ensures |entries| <= SizeEntries(entries).elements
    ensures forall i :: 0 <= i < |entries| ==> Covers(SizeEntries(entries), SizeEntry(entries[i]))
  {
    hide Size;
    if entries != [] {
      EntriesCover(entries[1..]);
      SizePositive(entries[0].key);
      forall i | 0 <= i < |entries| ensures Covers(SizeEntries(entries), SizeEntry(entries[i])) {
        if i > 0 { assert entries[i] == entries[1..][i - 1]; }
      }
    }
  }

  lemma {:induction false} FieldsCover(fields: seq<Field>)
    ensures |fields| <= SizeFields(fields).elements
    ensures forall i :: 0 <= i < |fields| ==> Covers(SizeFields(fields), SizeField(fields[i]))
  {
    hide Size;
    if fields != [] {
      FieldsCover(fields[1..]);
      SizePositive(fields[0].value);
      forall i | 0 <= i < |fields| ensures Covers(SizeFields(fields), SizeField(fields[i])) {
        if i > 0 { assert fields[i] == fields[1..][i - 1]; }
      }
    }
  }

  // ----- records in sorted order ------------------------------------------------------

  function EntryBytes(e: Entry): Bytes { EncodeEntry(e).payload }
  function EntryCanon(e: Entry): Entry { CanonEntry(e).payload }
  function FieldBytes(f: Field): Bytes { EncodeField(f).payload }
  function FieldCanon(f: Field): Field { CanonField(f).payload }

  /** Entries under their encoded keys, in the order they are written. */
  function SortedEntries(entries: seq<Entry>): (r: seq<Keyed<Entry>>)
    ensures |r| == |entries|
    ensures forall k :: 0 <= k < |r| ==> r[k].payload in entries && r[k].key == Encode(r[k].payload.key)
  {
    var keyed := seq(|entries|, i requires 0 <= i < |entries| => Keyed(Encode(entries[i].key), entries[i]));
    var r := Sort(keyed);
    assert forall k :: 0 <= k < |r| ==> r[k] in multiset(keyed);
    r
  }

  function SortedFields(fields: seq<Field>): (r: seq<Keyed<Field>>)
    ensures |r| == |fields|
    ensures forall k :: 0 <= k < |r| ==> r[k].payload in fields && r[k].key == [r[k].payload.id]
  {
    var keyed := seq(|fields|, i requires 0 <= i < |fields| => Keyed([fields[i].id], fields[i]));
    var r := Sort(keyed);
    assert forall k :: 0 <= k < |r| ==> r[k] in multiset(keyed);
    r
  }

  lemma EntriesSortedOnce(entries: seq<Entry>)
    ensures Sort(EncodedEntries(entries)) == MapPayload(EntryBytes, SortedEntries(entries))
    ensures Sort(CanonEntries(entries)) == MapPayload(EntryCanon, SortedEntries(entries))
  {
    hide Encode, Canon, Sort, EncodedEntries, CanonEntries;
    var keyed := seq(|entries|, i requires 0 <= i < |entries| => Keyed(Encode(entries[i].key), entries[i]));
    assert EncodedEntries(entries) == MapPayload(EntryBytes, keyed);
    assert CanonEntries(entries) == MapPayload(EntryCanon, keyed);
    SortMap(EntryBytes, keyed);
    SortMap(EntryCanon, keyed);
  }

  lemma FieldsSortedOnce(fields: seq<Field>)
    ensures Sort(EncodedFields(fields)) == MapPayload(FieldBytes, SortedFields(fields))
    ensures Sort(CanonFields(fields)) == MapPayload(FieldCanon, SortedFields(fields))
  {
    hide Encode, Canon, Sort, Uvarint, EncodedFields, CanonFields;
    var keyed := seq(|fields|, i requires 0 <= i < |fields| => Keyed([fields[i].id], fields[i]));
    assert EncodedFields(fields) == MapPayload(FieldBytes, keyed);
    assert CanonFields(fields) == MapPayload(FieldCanon, keyed);
    SortMap(FieldBytes, keyed);
    SortMap(FieldCanon, keyed);
  }

  // ----- validated values are readable ------------------------------------------------------------

  lemma {:induction false} ProperReadable(env: Env, v: Value, depth: nat)
    requires TrimBehaves(env) && Proper(env, v, depth) && Size(v).Within(env)
    ensures Readable(env, v, depth)
    decreases v, 1
  {
    hide ProperData, SizeData, ReadableData, Shaped;
    SizePositive(v);
    if v.data.Resource? {
      ResourceReadable(env, v.typ, v.data.ref, depth);
    } else {
      ProperDataReadable(env, v.data, depth);
    }
  }

  lemma {:induction false} ResourceReadable(env: Env, typ: Bytes, ref: ResourceRef, depth: nat)
    requires TrimBehaves(env) && env.utf8(typ) && |typ| <= env.maxBytes && ResourceOk(env, typ, ref)
    ensures ReadableData(env, Resource(ref), depth)
  {
  }

  lemma {:induction false} ProperDataReadable(env: Env, d: Data, depth: nat)
    requires TrimBehaves(env) && !d.Resource? && ProperData(env, d, depth) && SizeData(d).Within(env)
    ensures ReadableData(env, d, depth)
    decreases d, 1
  {
    hide Proper, Size, Readable, SizeItems, SizeEntries, SizeFields, TrimBehaves;
    match d
    case Slice(items) =>
      ItemsCover(items);
      forall i | 0 <= i < |items| ensures Readable(env, items[i], depth + 1) { ProperReadable(env, items[i], depth + 1); }
    case Map(entries) =>
      EntriesCover(entries);
      forall i | 0 <= i < |entries| ensures ReadableEntry(env, entries[i], depth + 1) {
        var e := entries[i];
        assert ProperEntry(env, e, depth + 1) && e.key < e && e.value < e;
        ProperReadable(env, e.key, depth + 1);
        ProperReadable(env, e.value, depth + 1);
      }
    case Struct(fields) =>
      FieldsCover(fields);
      forall i | 0 <= i < |fields| ensures ReadableField(env, fields[i], depth + 1) {
        var f := fields[i];
        assert ProperField(env, f, depth + 1) && f.value < f;
        ProperReadable(env, f.value, depth + 1);
      }
    case Optional(inner) => ProperReadable(env, inner, depth + 1);
    case _ =>
  }

  // ----- round trip ---------------------------------------------------------------------------------

  /** Whatever order the entries and fields of a validated value are written in, decoding
      consumes exactly what was written and returns the value in that order. */
  lemma {:induction false} RoundTrip(env: Env, v: Value, w: Value, depth: nat, rest: Bytes)
    requires TrimBehaves(env) && Proper(env, v, depth) && Size(v).Within(env) && Shuffled(v, w)
    ensures Decode(env, Plain(w) + rest, depth) == Some((w, rest))
  {
    hide Decode, Plain, Readable, Proper, Size, Shuffled, TrimBehaves;
    ProperReadable(env, v, depth);
    ShuffleReadable(env, v, w, depth);
    PlainDecodes(env, w, depth, rest);
  }

  // ----- the canonical order --------------------------------------------------------------------------

  lemma {:induction false} CanonShuffled(v: Value)
    ensures Shuffled(v, Canon(v))
    decreases v, 1
  {
    hide ShuffledData, CanonData;
    CanonDataShuffled(v.data);
  }

  lemma {:induction false} CanonDataShuffled(d: Data)
    ensures ShuffledData(d, CanonData(d))
    decreases d, 1
  {
    hide Shuffled, Canon, Sort, Rearranged, ShuffledEntries, ShuffledFields, CanonEntries, CanonFields, Payloads;
    match d
    case Slice(items) => forall i | 0 <= i < |items| ensures Shuffled(items[i], Canon(items[i])) { CanonShuffled(items[i]); }
    case Map(entries) => CanonEntriesShuffled(entries);
    case Struct(fields) => CanonFieldsShuffled(fields);
    case Optional(inner) => CanonShuffled(inner);
    case _ =>
  }

  function PayloadOf<T>(x: Keyed<T>): T { x.payload }

  lemma {:induction false} PayloadsRearranged<T>(s: seq<Keyed<T>>)
    ensures Rearranged(Payloads(s), Payloads(Sort(s)))
  {
    hide Sort;
    MapRearranged(PayloadOf, s, Sort(s), Payloads(s), Payloads(Sort(s)));
  }

  lemma {:induction false} CanonEntriesShuffled(entries: seq<Entry>)
    ensures ShuffledEntries(entries, Payloads(CanonEntries(entries)))
    ensures Rearranged(Payloads(CanonEntries(entries)), Payloads(Sort(CanonEntries(entries))))
    decreases entries, 0
  {
    hide Shuffled, Canon, Encode, Rearranged, Sort;
    PayloadsRearranged(CanonEntries(entries));
    forall i | 0 <= i < |entries| ensures ShuffledEntry(entries[i], CanonEntry(entries[i]).payload) {
      assert entries[i].key < entries[i] && entries[i].value < entries[i];
      CanonShuffled(entries[i].key);
      CanonShuffled(entries[i].value);
    }
  }

  lemma {:induction false} CanonFieldsShuffled(fields: seq<Field>)
    ensures ShuffledFields(fields, Payloads(CanonFields(fields)))
    ensures Rearranged(Payloads(CanonFields(fields)), Payloads(Sort(CanonFields(fields))))
    decreases fields, 0
  {
    hide Shuffled, Canon, Encode, Rearranged, Sort;
    PayloadsRearranged(CanonFields(fields));
    forall i | 0 <= i < |fields| ensures ShuffledField(fields[i], CanonField(fields[i]).payload) {
      assert fields[i].value < fields[i];
      CanonShuffled(fields[i].value);
    }
  }

  lemma {:induction false} CanonSize(v: Value)
    ensures Size(Canon(v)) == Size(v)
  {
    hide Size, Canon, Shuffled;
    CanonShuffled(v);
    ShuffleSize(v, Canon(v));
  }

  lemma {:induction false} CanonProper(env: Env, v: Value, depth: nat)
    requires Proper(env, v, depth)
    ensures Proper(env, Canon(v), depth)
  {
    hide Proper, Canon, Shuffled;
    CanonShuffled(v);
    ShuffleProper(env, v, Canon(v), depth);
  }

  /** Encoding writes the canonical form. */
  lemma {:induction false} PlainCanon(v: Value)
    ensures Plain(Canon(v)) == Encode(v)
    decreases v, 1
  {
    hide PlainData, EncodeData, CanonData, Uvarint, Delimited;
    PlainCanonData(v.data);
  }

  lemma {:induction false} PlainCanonData(d: Data)
    ensures Tag(CanonData(d)) == Tag(d) && PlainData(CanonData(d)) == EncodeData(d)
    decreases d, 1
  {
    hide Plain, Encode, Canon, Sort, Join, Uvarint, PlainItems, PlainEntries, PlainFields, EncodeItems, EncodedEntries,
      EncodedFields, CanonEntries, CanonFields, CanonItems, Payloads;
    match d
    case Slice(items) => PlainCanonItems(items);
    case Map(entries) => PlainCanonMap(entries);
    case Struct(fields) => PlainCanonStruct(fields);
    case Optional(inner) => PlainCanon(inner);
    case _ =>
  }

  lemma {:induction false} PlainCanonItems(items: seq<Value>)
    ensures |CanonItems(items)| == |items| && PlainItems(CanonItems(items)) == EncodeItems(items)
    decreases items, 0
  {
    hide Plain, Encode, Canon;
    if items != [] {
      PlainCanon(items[0]);
      PlainCanonItems(items[1..]);
      assert CanonItems(items)[1..] == CanonItems(items[1..]);
    }
  }

  lemma {:induction false} PlainCanonMap(entries: seq<Entry>)
    ensures |Payloads(Sort(CanonEntries(entries)))| == |entries|
    ensures PlainEntries(Payloads(Sort(CanonEntries(entries)))) == Join(Sort(EncodedEntries(entries)))
    decreases entries, 1
  {
    hide Plain, Encode, Canon, Sort, Join, PlainEntries, EncodedEntries, CanonEntries, Payloads, MapPayload, EntryBytes, EntryCanon, PlainEntry;
    EntriesSortedOnce(entries);
    var sorted := SortedEntries(entries);
    forall k | 0 <= k < |sorted| ensures PlainEntry(EntryCanon(sorted[k].payload)) == EntryBytes(sorted[k].payload) {
      var i :| 0 <= i < |entries| && entries[i] == sorted[k].payload;
      PlainCanonEntry(entries[i]);
    }
    JoinPlainEntries(sorted);
  }

  lemma {:induction false} PlainCanonEntry(e: Entry)
    ensures PlainEntry(EntryCanon(e)) == EntryBytes(e)
    decreases e, 2
  {
    hide Plain, Encode, Canon;
    PlainCanon(e.key);
    PlainCanon(e.value);
  }

  lemma {:induction false} JoinPlainEntries(sorted: seq<Keyed<Entry>>)
    requires forall k :: 0 <= k < |sorted| ==> PlainEntry(EntryCanon(sorted[k].payload)) == EntryBytes(sorted[k].payload)
    ensures PlainEntries(Payloads(MapPayload(EntryCanon, sorted))) == Join(MapPayload(EntryBytes, sorted))
  {
    hide PlainEntry, EntryCanon, EntryBytes, MapPayload, Payloads;
    if sorted == [] {
      NoPayload(EntryCanon);
      NoPayload(EntryBytes);
    } else {
      FirstPayload(EntryCanon, sorted);
      MapPayloadHead(EntryBytes, sorted);
      JoinPlainEntries(sorted[1..]);
    }
  }

  lemma {:induction false} PlainCanonStruct(fields: seq<Field>)
    ensures |Payloads(Sort(CanonFields(fields)))| == |fields|
    ensures PlainFields(Payloads(Sort(CanonFields(fields)))) == Join(Sort(EncodedFields(fields)))
    decreases fields, 1
  {
    hide Plain, Encode, Canon, Sort, Join, PlainFields, EncodedFields, CanonFields, Payloads, MapPayload, FieldBytes, FieldCanon, PlainField;
    FieldsSortedOnce(fields);
    var sorted := SortedFields(fields);
    forall k | 0 <= k < |sorted| ensures PlainField(FieldCanon(sorted[k].payload)) == FieldBytes(sorted[k].payload) {
      var i :| 0 <= i < |fields| && fields[i] == sorted[k].payload;
      PlainCanonField(fields[i]);
    }
    JoinPlainFields(sorted);
  }

  lemma {:induction false} PlainCanonField(f: Field)
    ensures PlainField(FieldCanon(f)) == FieldBytes(f)
    decreases f, 2
  {
    hide Plain, Encode, Canon, Uvarint;
    PlainCanon(f.value);
  }

  lemma {:induction false} JoinPlainFields(sorted: seq<Keyed<Field>>)
    requires forall k :: 0 <= k < |sorted| ==> PlainField(FieldCanon(sorted[k].payload)) == FieldBytes(sorted[k].payload)
    ensures PlainFields(Payloads(MapPayload(FieldCanon, sorted))) == Join(MapPayload(FieldBytes, sorted))
  {
    hide PlainField, FieldCanon, FieldBytes, MapPayload, Payloads;
    if sorted == [] {
      NoPayload(FieldCanon);
      NoPayload(FieldBytes);
    } else {
      FirstPayload(FieldCanon, sorted);
      MapPayloadHead(FieldBytes, sorted);
      JoinPlainFields(sorted[1..]);
    }
  }

  lemma {:induction false} FirstPayload<T, U>(f: T -> U, sorted: seq<Keyed<T>>)
    requires sorted != []
    ensures var p := Payloads(MapPayload(f, sorted));
      p != [] && p[0] == f(sorted[0].payload) && p[1..] == Payloads(MapPayload(f, sorted[1..]))
  {
  }

  lemma {:induction false} NoPayload<T, U>(f: T -> U)
    ensures MapPayload(f, []) == [] && Payloads(MapPayload(f, [])) == []
  {
  }

  /** The encoding decodes to the canonical form. */
  lemma {:induction false} CanonRoundTrip(env: Env, v: Value, depth: nat, rest: Bytes)
    requires TrimBehaves(env) && Proper(env, v, depth) && Size(v).Within(env)
    ensures Decode(env, Encode(v) + rest, depth) == Some((Canon(v), rest))
  {
    hide Decode, Plain, Encode, Canon, Proper, Size, Shuffled, TrimBehaves;
    CanonShuffled(v);
    PlainCanon(v);
    RoundTrip(env, v, Canon(v), depth, rest);
  }
}
