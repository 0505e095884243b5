/** What the canonical form is worth: it is valid whenever the value is, it has the
    same encoding, and equal encodings mean equal canonical forms.  On top of these
    stand `EncodeValues` and `DecodeValues`. */
module ValueCanonical {
  import opened Options
  import opened WireCodec
  import opened KeyedSort
  import opened ValueCodec
  import opened ValueValidation
  import opened ValuePlain
  import opened ValueShuffle
  import opened ValueRoundTrip

  /** Equal encodings and equal canonical forms are the same thing. */
  lemma EncodingIsCanonical(env: Env, v: Value, w: Value, depth: nat)
    requires TrimBehaves(env)
    requires Proper(env, v, depth) && Size(v).Within(env)
    requires Proper(env, w, depth) && Size(w).Within(env)
    ensures Encode(v) == Encode(w) <==> Canon(v) == Canon(w)
  {
    hide Encode, Canon, Decode, Plain, Proper, Size;
    CanonRoundTrip(env, v, depth, []);
    CanonRoundTrip(env, w, depth, []);
    PlainCanon(v);
    PlainCanon(w);
  }

  // ----- order of entries and fields ----------------------------------------------------

  /** In every map, entries with equal encoded keys have equal encodings; distinct
      keys are the usual case. */
  ghost predicate Unambiguous(v: Value)
    decreases v, 1
  {
    match v.data
    case Slice(items) => forall i :: 0 <= i < |items| ==> Unambiguous(items[i])
    case Map(entries) =>
      Coherent(EncodedEntries(entries)) && forall i :: 0 <= i < |entries| ==> UnambiguousEntry(entries[i])
    case Struct(fields) =>
      Coherent(EncodedFields(fields)) && forall i :: 0 <= i < |fields| ==> UnambiguousField(fields[i])
    case Optional(inner) => Unambiguous(inner)
    case _ => true
  }

  ghost predicate UnambiguousEntry(e: Entry)
    decreases e, 2
  {
    Unambiguous(e.key) && Unambiguous(e.value)
  }

  ghost predicate UnambiguousField(f: Field)
    decreases f, 2
  {
    Unambiguous(f.value)
  }

  /** Reordering at any depth leaves the encoding unchanged. */
  lemma {:induction false} ShuffleEncodes(v: Value, w: Value)
    requires Shuffled(v, w) && Unambiguous(v)
    ensures Encode(v) == Encode(w)
    decreases v, 1
  {
    hide EncodeData, Uvarint;
    ShuffleDataEncodes(v, w.data);
  }

  lemma {:induction false} ShuffleDataEncodes(v: Value, e: Data)
    requires ShuffledData(v.data, e) && Unambiguous(v)
    ensures Tag(v.data) == Tag(e) && EncodeData(v.data) == EncodeData(e)
    decreases v, 0
  {
    hide Encode, Sort, Join, Uvarint, Shuffled, EncodeItems, Coherent;
    match v.data
    case Slice(items) =>
      forall i | 0 <= i < |items| ensures Encode(items[i]) == Encode(e.items[i]) {
        assert Unambiguous(items[i]);
        ShuffleEncodes(items[i], e.items[i]);
      }
      SameItems(items, e.items);
    case Map(entries) => ShuffleEntries(entries, e);
    case Struct(fields) => ShuffleFields(fields, e);
    case Optional(inner) => ShuffleEncodes(inner, e.inner);
    case _ =>
  }

  lemma {:induction false} SameItems(a: seq<Value>, b: seq<Value>)
    requires |a| == |b| && forall i :: 0 <= i < |a| ==> Encode(a[i]) == Encode(b[i])
    ensures EncodeItems(a) == EncodeItems(b)
  {
    hide Encode;
    if a != [] {
      SameItems(a[1..], b[1..]);
    }
  }

  lemma {:induction false} ShuffleEntries(entries: seq<Entry>, e: Data)
    requires ShuffledData(Map(entries), e) && Coherent(EncodedEntries(entries))
    requires forall i :: 0 <= i < |entries| ==> UnambiguousEntry(entries[i])
    ensures e.Map? && |e.entries| == |entries| && Sort(EncodedEntries(entries)) == Sort(EncodedEntries(e.entries))
    decreases entries, 1
  {
    hide Encode, Sort, Shuffled, Unambiguous, Coherent, Rearranged;
    var es: seq<Entry> :| Rearranged(es, e.entries) && ShuffledEntries(entries, es);
    forall i | 0 <= i < |entries| ensures EncodeEntry(entries[i]) == EncodeEntry(es[i]) {
      assert ShuffledEntry(entries[i], es[i]) && UnambiguousEntry(entries[i]);
      assert entries[i].key < entries[i] && entries[i].value < entries[i];
      ShuffleEncodes(entries[i].key, es[i].key);
      ShuffleEncodes(entries[i].value, es[i].value);
    }
    assert EncodedEntries(entries) == EncodedEntries(es);
    MapRearranged(EncodeEntry, es, e.entries, EncodedEntries(es), EncodedEntries(e.entries));
    SortPermutation(EncodedEntries(entries), EncodedEntries(e.entries));
  }

  lemma {:induction false} ShuffleFields(fields: seq<Field>, e: Data)
    requires ShuffledData(Struct(fields), e) && Coherent(EncodedFields(fields))
    requires forall i :: 0 <= i < |fields| ==> UnambiguousField(fields[i])
    ensures e.Struct? && |e.fields| == |fields| && Sort(EncodedFields(fields)) == Sort(EncodedFields(e.fields))
    decreases fields, 1
  {
    hide Encode, Sort, Shuffled, Unambiguous, Coherent, Uvarint, Rearranged;
    var fs: seq<Field> :| Rearranged(fs, e.fields) && ShuffledFields(fields, fs);
    forall i | 0 <= i < |fields| ensures EncodeField(fields[i]) == EncodeField(fs[i]) {
      assert ShuffledField(fields[i], fs[i]) && UnambiguousField(fields[i]);
      assert fields[i].value < fields[i];
      ShuffleEncodes(fields[i].value, fs[i].value);
    }
    assert EncodedFields(fields) == EncodedFields(fs);
    MapRearranged(EncodeField, fs, e.fields, EncodedFields(fs), EncodedFields(e.fields));
    SortPermutation(EncodedFields(fields), EncodedFields(e.fields));
  }

  /** The source sorts with an unstable sort.  When equal encoded keys have equal records,
      whatever sorted order it comes to writes the same bytes. */
  lemma {:induction false} AnySortEncodes(entries: seq<Entry>, written: seq<Keyed<Bytes>>)
    requires Coherent(EncodedEntries(entries)) && Sorted(written) && multiset(written) == multiset(EncodedEntries(entries))
    ensures Uvarint(|entries|) + Join(written) == EncodeData(Map(entries))
  {
    hide Sort, Sorted, Coherent, EncodedEntries, Join, Uvarint;
    SortUnique(EncodedEntries(entries), written);
  }

  // ----- the transport-neutral API ------------------------------------------------------

  function EncodeValues(env: Env, values: seq<Value>): Option<Bytes> {
    var _ :- ValidateItems(env, values, 0, ZERO);
    var encoded := Uvarint(|values|) + EncodeItems(values);
    if |encoded| <= env.maxBytes then Some(encoded) else None
  }

  function DecodeValues(env: Env, payload: Bytes): Option<seq<Value>> {
    if |payload| > env.maxBytes then None
    else
      var (count, body) :- DecodeCount(env, payload);
      var (values, rest) :- DecodeItems(env, count, body, 0);
      if rest != [] then None
      else
        var _ :- ValidateItems(env, values, 0, ZERO);
        Some(values)
  }

  ghost predicate ShuffledItems(a: seq<Value>, b: seq<Value>) {
    |a| == |b| && forall i :: 0 <= i < |a| ==> Shuffled(a[i], b[i])
  }

  ghost predicate Accepted(env: Env, values: seq<Value>) {
    SizeItems(values).Within(env) && forall i :: 0 <= i < |values| ==> Proper(env, values[i], 0)
  }

  lemma {:induction false} AcceptedExactly(env: Env, values: seq<Value>)
    ensures ValidateItems(env, values, 0, ZERO).Some? <==> Accepted(env, values)
  {
    hide ValidateItems, Proper, SizeItems;
    ValidateItemsMeans(env, values, 0, ZERO);
    assert ZERO.Add(SizeItems(values)) == SizeItems(values);
  }

  lemma {:induction false} ShuffleAccepted(env: Env, values: seq<Value>, written: seq<Value>)
    requires Accepted(env, values) && ShuffledItems(values, written)
    ensures Accepted(env, written)
  {
    hide Proper, SizeItems, Shuffled;
    ShuffleItemsSize(values, written);
    forall i | 0 <= i < |values| ensures Proper(env, written[i], 0) { ShuffleProper(env, values[i], written[i], 0); }
  }

  /** Whatever order the values of an accepted list are written in, `DecodeValues` accepts the
      payload and returns them in that order. */
  lemma {:induction false} WrittenRoundTrip(env: Env, values: seq<Value>, written: seq<Value>)
    requires TrimBehaves(env) && Accepted(env, values) && ShuffledItems(values, written)
    requires |Uvarint(|values|) + PlainItems(written)| <= env.maxBytes
    ensures DecodeValues(env, Uvarint(|values|) + PlainItems(written)) == Some(written)
  {
    hide Proper, Size, Shuffled, Readable, DecodeCount, DecodeItems, PlainItems, ValidateItems, SizeItems, Uvarint, TrimBehaves;
    var payload := Uvarint(|values|) + PlainItems(written);
    ShuffleAccepted(env, values, written);
    AcceptedExactly(env, written);
    ItemsCover(written);
    CountExactly(env, payload, |values|, PlainItems(written));
    forall i | 0 <= i < |written| ensures Readable(env, written[i], 0) { ProperReadable(env, written[i], 0); }
    PlainItemsDecode(env, written, 0, []);
    assert PlainItems(written) + [] == PlainItems(written);
  }

  /** Whatever `EncodeValues` accepts, `DecodeValues` returns in canonical form. */
  lemma {:induction false} ValuesRoundTrip(env: Env, values: seq<Value>)
    requires TrimBehaves(env) && EncodeValues(env, values).Some?
    ensures DecodeValues(env, EncodeValues(env, values).value) == Some(CanonItems(values))
  {
    hide Proper, Canon, Shuffled, DecodeValues, EncodeItems, PlainItems, ValidateItems, SizeItems, Uvarint, TrimBehaves;
    AcceptedExactly(env, values);
    PlainCanonItems(values);
    forall i | 0 <= i < |values| ensures Shuffled(values[i], Canon(values[i])) { CanonShuffled(values[i]); }
    WrittenRoundTrip(env, values, CanonItems(values));
  }
}
