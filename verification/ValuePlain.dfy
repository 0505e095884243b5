/** Exactly what the value decoder of `rpc/endpoint_value_codec.go` accepts: the plain
    encoding, entries and fields in the order given, of any value within its limits. */
module ValuePlain {
  import opened Options
  import opened WireCodec
  import opened ValueCodec

  // ----- the encoding in the order given --------------------------------------------------------

  function Plain(v: Value): Bytes
    decreases v, 1
  {
    Delimited(v.typ) + (Uvarint(Tag(v.data)) + PlainData(v.data))
  }

  function PlainData(d: Data): Bytes
    decreases d, 1
  {
    match d
    case Slice(items) => Uvarint(|items|) + PlainItems(items)
    case Map(entries) => Uvarint(|entries|) + PlainEntries(entries)
    case Struct(fields) => Uvarint(|fields|) + PlainFields(fields)
    case Optional(inner) => Plain(inner)
    case _ => EncodeData(d)
  }

  function PlainItems(items: seq<Value>): Bytes
    decreases items, 0
  {
    if items == [] then [] else Plain(items[0]) + PlainItems(items[1..])
  }

  function PlainEntry(e: Entry): Bytes
    decreases e, 2
  {
    Plain(e.key) + Plain(e.value)
  }

  function PlainEntries(entries: seq<Entry>): Bytes
    decreases entries, 0
  {
    if entries == [] then [] else PlainEntry(entries[0]) + PlainEntries(entries[1..])
  }

  function PlainField(f: Field): Bytes
    decreases f, 2
  {
    Uvarint(f.id) + Plain(f.value)
  }

  function PlainFields(fields: seq<Field>): Bytes
    decreases fields, 0
  {
    if fields == [] then [] else PlainField(fields[0]) + PlainFields(fields[1..])
  }

  // ----- the decoder's own limits ---------------------------------------------------------------

  predicate Text(env: Env, s: Bytes) { |s| <= env.maxBytes && env.utf8(s) }

  ghost predicate Readable(env: Env, v: Value, depth: nat)
    decreases v, 1
  {
    depth <= env.maxDepth && Text(env, v.typ) && v.typ != [] && ReadableData(env, v.data, depth)
  }

  ghost predicate ReadableData(env: Env, d: Data, depth: nat)
    decreases d, 1
  {
    match d
    case Str(s) => Text(env, s)
    case Raw(s) => |s| <= env.maxBytes
    case Slice(items) => |items| <= env.maxElements && forall i :: 0 <= i < |items| ==> Readable(env, items[i], depth + 1)
    case Map(entries) => |entries| <= env.maxElements && forall i :: 0 <= i < |entries| ==> ReadableEntry(env, entries[i], depth + 1)
    case Struct(fields) => |fields| <= env.maxElements && forall i :: 0 <= i < |fields| ==> ReadableField(env, fields[i], depth + 1)
    case Optional(inner) => Readable(env, inner, depth + 1)
    case Resource(ref) => Text(env, ref.typeHash)
    case _ => true
  }

  ghost predicate ReadableEntry(env: Env, e: Entry, depth: nat)
    decreases e, 2
  {
    Readable(env, e.key, depth) && Readable(env, e.value, depth)
  }

  ghost predicate ReadableField(env: Env, f: Field, depth: nat)
    decreases f, 2
  {
    f.id != 0 && Readable(env, f.value, depth)
  }

  // ----- primitive reads, both ways -----------------------------------------------------------------

  lemma {:induction false} TextExactly(env: Env, buf: Bytes, s: Bytes, rest: Bytes)
    ensures DecodeString(env, buf) == Some((s, rest)) <==> Text(env, s) && buf == Delimited(s) + rest
    ensures DecodeDelimited(buf, env.maxBytes) == Some((s, rest)) <==> |s| <= env.maxBytes && buf == Delimited(s) + rest
  {
    DelimitedExactly(buf, s, rest, env.maxBytes);
    hide DecodeDelimited, Delimited;
    if DecodeString(env, buf) == Some((s, rest)) {
      var read := DecodeDelimited(buf, env.maxBytes).value;
      assert read.0 == s && read.1 == rest;
      assert read == (s, rest);
    }
  }

  lemma {:induction false} DelimitedExactly(buf: Bytes, s: Bytes, rest: Bytes, limit: U64)
    ensures DecodeDelimited(buf, limit) == Some((s, rest)) <==> |s| <= limit && buf == Delimited(s) + rest
  {
    hide DecodeUint, Uvarint;
    if DecodeDelimited(buf, limit) == Some((s, rest)) {
      var (size, body) := DecodeUint(buf).value;
      UintRoundTrip(size, buf, body);
      assert body == s + rest;
      assert Uvarint(size) + (s + rest) == Uvarint(size) + s + rest;
    }
    if |s| <= limit && buf == Delimited(s) + rest { DelimitedRoundTrip(s, limit, rest); }
  }

  lemma {:induction false} IntExactly(buf: Bytes, i: I64, rest: Bytes)
    ensures DecodeInt(buf) == Some((i, rest)) <==> buf == Uvarint(ZigZag(i)) + rest
  {
    if DecodeInt(buf) == Some((i, rest)) {
      var u := DecodeUint(buf).value.0;
      UintRoundTrip(u, buf, rest);
      assert ZigZag(UnZigZag(u)) == u;
    }
    if buf == Uvarint(ZigZag(i)) + rest { IntRoundTrip(i, rest); }
  }

  lemma {:induction false} WordExactly(buf: Bytes, w: Word, rest: Bytes)
    ensures DecodeWord(buf) == Some((w, rest)) <==> buf == w + rest
  {
    if buf == w + rest { assert buf[..8] == w && buf[8..] == rest; }
  }

  lemma {:induction false} BoolExactly(buf: Bytes, b: bool, rest: Bytes)
    ensures DecodeBool(buf) == Some((b, rest)) <==> buf == [if b then 1 else 0] + rest
  {
    if DecodeBool(buf) == Some((b, rest)) { assert buf == [buf[0]] + buf[1..]; }
  }

  lemma {:induction false} CountExactly(env: Env, buf: Bytes, count: nat, rest: Bytes)
    ensures DecodeCount(env, buf) == Some((count, rest)) <==> count <= env.maxElements && buf == Uvarint(count) + rest
  {
    hide DecodeUint, Uvarint;
    UintRoundTrip(count, buf, rest);
  }

  // ----- whatever decodes was the plain encoding ------------------------------------------------------

  lemma {:induction false} DecodeInverts(env: Env, buf: Bytes, depth: nat)
    ensures match Decode(env, buf, depth)
      case Some((v, rest)) => Readable(env, v, depth) && buf == Plain(v) + rest
      case None => true
    decreases Measure(env, depth), 1, 0
  {
    hide DecodeData, DecodeUint, DecodeString, PlainData, ReadableData, Uvarint, Delimited;
    var decoded := Decode(env, buf, depth);
    if decoded.Some? {
      var (typ, tagged) := DecodeString(env, buf).value;
      var (kind, body) := DecodeUint(tagged).value;
      var (data, rest) := DecodeData(env, kind, body, depth).value;
      TextExactly(env, buf, typ, tagged);
      UintRoundTrip(kind, tagged, body);
      DataInverts(env, kind, body, depth);
      assert buf == Delimited(typ) + (Uvarint(kind) + (PlainData(data) + rest));
      Regroup(Delimited(typ), Uvarint(kind), PlainData(data), rest);
    }
  }

  lemma {:induction false} Regroup(a: Bytes, b: Bytes, c: Bytes, d: Bytes)
    ensures a + (b + (c + d)) == (a + (b + c)) + d
  {
  }

  lemma {:induction false} Spread(a: Bytes, b: Bytes, c: Bytes, d: Bytes)
    ensures ((a + b) + c) + d == a + (b + (c + d))
  {
  }

  ghost predicate Inverted(env: Env, kind: U64, buf: Bytes, depth: nat)
    requires depth <= env.maxDepth
  {
    match DecodeData(env, kind, buf, depth)
    case Some((d, rest)) => ReadableData(env, d, depth) && Tag(d) == kind && buf == PlainData(d) + rest
    case None => true
  }

  lemma {:induction false} DataInverts(env: Env, kind: U64, buf: Bytes, depth: nat)
    requires depth <= env.maxDepth
    ensures Inverted(env, kind, buf, depth)
    decreases Measure(env, depth), 0, 1
  {
    hide Decode, DecodeItems, DecodeEntries, DecodeFields, DecodeCount, Uvarint, Plain, PlainItems, PlainEntries, PlainFields, Readable;
    match kind
    case 8 => SliceInverts(env, buf, depth);
    case 9 => MapInverts(env, buf, depth);
    case 10 => StructInverts(env, buf, depth);
    case 11 => DecodeInverts(env, buf, depth + 1);
    case 12 => ResourceInverts(env, buf, depth);
    case _ => LeafInverts(env, kind, buf, depth);
  }

  lemma {:induction false} LeafInverts(env: Env, kind: U64, buf: Bytes, depth: nat)
    requires depth <= env.maxDepth && kind != 8 && kind != 9 && kind != 10 && kind != 11 && kind != 12
    ensures Inverted(env, kind, buf, depth)
  {
    hide DecodeUint, DecodeInt, DecodeString, DecodeDelimited, DecodeWord, DecodeBool, Uvarint, Delimited;
    var decoded := DecodeData(env, kind, buf, depth);
    if decoded.Some? {
      var (d, rest) := decoded.value;
      match d
      case Nil => assert [] + rest == rest;
      case Bool(b) =>
        var read := DecodeBool(buf).value;
        assert read.0 == b && read.1 == rest;
        assert read == (b, rest);
        BoolExactly(buf, b, rest);
      case Int(i) =>
        var read := DecodeInt(buf).value;
        assert read.0 == i && read.1 == rest && read == (i, rest);
        IntExactly(buf, i, rest);
      case Uint(u) =>
        var read := DecodeUint(buf).value;
        assert read.0 == u && read.1 == rest && read == (u, rest);
        UintRoundTrip(u, buf, rest);
      case Float(w) =>
        var read := DecodeWord(buf).value;
        assert read.0 == w && read.1 == rest && read == (w, rest);
        WordExactly(buf, w, rest);
      case Complex(re, im) =>
        var first := DecodeWord(buf).value;
        var second := DecodeWord(first.1).value;
        assert first.0 == re && first == (re, first.1) && second.0 == im && second == (im, rest);
        WordExactly(buf, re, first.1);
        WordExactly(first.1, im, rest);
        assert re + (im + rest) == (re + im) + rest;
      case Str(s) =>
        var read := DecodeString(env, buf).value;
        assert read.0 == s && read.1 == rest && read == (s, rest);
        TextExactly(env, buf, s, rest);
      case Raw(s) =>
        var read := DecodeDelimited(buf, env.maxBytes).value;
        assert read.0 == s && read.1 == rest && read == (s, rest);
        TextExactly(env, buf, s, rest);
      case _ => assert false;
    }
  }

  lemma {:induction false} ResourceInverts(env: Env, buf: Bytes, depth: nat)
    requires depth <= env.maxDepth
    ensures Inverted(env, 12, buf, depth)
  {
    hide DecodeUint, DecodeString, Uvarint, Delimited;
    var decoded := DecodeData(env, 12, buf, depth);
    if decoded.Some? {
      var (epoch, a) := DecodeUint(buf).value;
      var (objectId, b) := DecodeUint(a).value;
      var (typeHash, rest) := DecodeString(env, b).value;
      UintRoundTrip(epoch, buf, a);
      UintRoundTrip(objectId, a, b);
      TextExactly(env, b, typeHash, rest);
      Regroup(Uvarint(epoch), Uvarint(objectId), Delimited(typeHash), rest);
    }
  }

  lemma {:induction false} SliceInverts(env: Env, buf: Bytes, depth: nat)
    requires depth <= env.maxDepth
    ensures Inverted(env, 8, buf, depth)
    decreases Measure(env, depth), 0, 0
  {
    hide DecodeItems, DecodeCount, Uvarint, PlainItems, Readable;
    if DecodeData(env, 8, buf, depth).Some? {
      var (count, body) := DecodeCount(env, buf).value;
      var (items, rest) := DecodeItems(env, count, body, depth + 1).value;
      CountExactly(env, buf, count, body);
      ItemsInvert(env, count, body, depth + 1);
      assert Uvarint(count) + (PlainItems(items) + rest) == (Uvarint(count) + PlainItems(items)) + rest;
    }
  }

  lemma {:induction false} ItemsInvert(env: Env, count: nat, buf: Bytes, depth: nat)
    ensures match DecodeItems(env, count, buf, depth)
      case Some((items, rest)) =>
        |items| == count && (forall i :: 0 <= i < |items| ==> Readable(env, items[i], depth)) && buf == PlainItems(items) + rest
      case None => true
    decreases Measure(env, depth), 2, count
  {
    hide Decode, Plain, Readable;
    var decoded := DecodeItems(env, count, buf, depth);
    if count == 0 {
      assert buf == [] + buf;
    } else if decoded.Some? {
      var (item, body) := Decode(env, buf, depth).value;
      var (others, rest) := DecodeItems(env, count - 1, body, depth).value;
      DecodeInverts(env, buf, depth);
      ItemsInvert(env, count - 1, body, depth);
      var items := [item] + others;
      assert items[1..] == others;
      assert Plain(item) + (PlainItems(others) + rest) == (Plain(item) + PlainItems(others)) + rest;
    }
  }

  lemma {:induction false} MapInverts(env: Env, buf: Bytes, depth: nat)
    requires depth <= env.maxDepth
    ensures Inverted(env, 9, buf, depth)
    decreases Measure(env, depth), 0, 0
  {
    hide DecodeEntries, DecodeCount, Uvarint, PlainEntries, ReadableEntry;
    if DecodeData(env, 9, buf, depth).Some? {
      var (count, body) := DecodeCount(env, buf).value;
      var (entries, rest) := DecodeEntries(env, count, body, depth + 1).value;
      CountExactly(env, buf, count, body);
      EntriesInvert(env, count, body, depth + 1);
      assert Uvarint(count) + (PlainEntries(entries) + rest) == (Uvarint(count) + PlainEntries(entries)) + rest;
    }
  }

  lemma {:induction false} EntriesInvert(env: Env, count: nat, buf: Bytes, depth: nat)
    ensures match DecodeEntries(env, count, buf, depth)
      case Some((entries, rest)) =>
        |entries| == count && (forall i :: 0 <= i < |entries| ==> ReadableEntry(env, entries[i], depth)) && buf == PlainEntries(entries) + rest
      case None => true
    decreases Measure(env, depth), 2, count
  {
    hide Decode, Plain, Readable;
    var decoded := DecodeEntries(env, count, buf, depth);
    if count == 0 {
      assert buf == [] + buf;
    } else if decoded.Some? {
      var (key, a) := Decode(env, buf, depth).value;
      var (value, b) := Decode(env, a, depth).value;
      var (others, rest) := DecodeEntries(env, count - 1, b, depth).value;
      DecodeInverts(env, buf, depth);
      DecodeInverts(env, a, depth);
      EntriesInvert(env, count - 1, b, depth);
      var entries := [Entry(key, value)] + others;
      assert entries[1..] == others;
      assert ReadableEntry(env, entries[0], depth) && PlainEntry(entries[0]) == Plain(key) + Plain(value);
      assert Plain(key) + (Plain(value) + (PlainEntries(others) + rest)) == ((Plain(key) + Plain(value)) + PlainEntries(others)) + rest;
    }
  }

  lemma {:induction false} StructInverts(env: Env, buf: Bytes, depth: nat)
    requires depth <= env.maxDepth
    ensures Inverted(env, 10, buf, depth)
    decreases Measure(env, depth), 0, 0
  {
    hide DecodeFields, DecodeCount, Uvarint, PlainFields, ReadableField;
    if DecodeData(env, 10, buf, depth).Some? {
      var (count, body) := DecodeCount(env, buf).value;
      var (fields, rest) := DecodeFields(env, count, body, depth + 1).value;
      CountExactly(env, buf, count, body);
      FieldsInvert(env, count, body, depth + 1);
      assert Uvarint(count) + (PlainFields(fields) + rest) == (Uvarint(count) + PlainFields(fields)) + rest;
    }
  }

  lemma {:induction false} FieldsInvert(env: Env, count: nat, buf: Bytes, depth: nat)
    ensures match DecodeFields(env, count, buf, depth)
      case Some((fields, rest)) =>
        |fields| == count && (forall i :: 0 <= i < |fields| ==> ReadableField(env, fields[i], depth)) && buf == PlainFields(fields) + rest
      case None => true
    decreases Measure(env, depth), 2, count
  {
    hide Decode, DecodeUint, Plain, Readable, Uvarint;
    var decoded := DecodeFields(env, count, buf, depth);
    if count == 0 {
      assert buf == [] + buf;
    } else if decoded.Some? {
      var (id, a) := DecodeUint(buf).value;
      var (value, b) := Decode(env, a, depth).value;
      var (others, rest) := DecodeFields(env, count - 1, b, depth).value;
      UintRoundTrip(id, buf, a);
      DecodeInverts(env, a, depth);
      FieldsInvert(env, count - 1, b, depth);
      var fields := [Field(id, value)] + others;
      assert fields[1..] == others;
      assert ReadableField(env, fields[0], depth) && PlainField(fields[0]) == Uvarint(id) + Plain(value);
      assert Uvarint(id) + (Plain(value) + (PlainFields(others) + rest)) == ((Uvarint(id) + Plain(value)) + PlainFields(others)) + rest;
    }
  }

  // ----- and every plain encoding decodes ---------------------------------------------------------------

  lemma {:induction false} PlainDecodes(env: Env, v: Value, depth: nat, rest: Bytes)
    requires Readable(env, v, depth)
    ensures Decode(env, Plain(v) + rest, depth) == Some((v, rest))
    decreases v, 1
  {
    hide DecodeData, DecodeUint, DecodeString, PlainData, ReadableData, Uvarint, Delimited;
    var body := PlainData(v.data) + rest;
    var tagged := Uvarint(Tag(v.data)) + body;
    Regroup(Delimited(v.typ), Uvarint(Tag(v.data)), PlainData(v.data), rest);
    TextExactly(env, Plain(v) + rest, v.typ, tagged);
    UintRoundTrip(Tag(v.data), tagged, body);
    PlainDataDecodes(env, v.data, depth, rest);
  }

  lemma {:induction false} PlainDataDecodes(env: Env, d: Data, depth: nat, rest: Bytes)
    requires depth <= env.maxDepth && ReadableData(env, d, depth)
    ensures DecodeData(env, Tag(d), PlainData(d) + rest, depth) == Some((d, rest))
    decreases d, 1
  {
    hide Decode, DecodeItems, DecodeEntries, DecodeFields, DecodeCount, Uvarint, Plain, PlainItems, PlainEntries, PlainFields, Readable, ReadableEntry, ReadableField;
    var buf := PlainData(d) + rest;
    match d
    case Slice(items) =>
      var body := PlainItems(items) + rest;
      assert buf == Uvarint(|items|) + body;
      CountExactly(env, buf, |items|, body);
      PlainItemsDecode(env, items, depth + 1, rest);
    case Map(entries) =>
      var body := PlainEntries(entries) + rest;
      assert buf == Uvarint(|entries|) + body;
      CountExactly(env, buf, |entries|, body);
      PlainEntriesDecode(env, entries, depth + 1, rest);
    case Struct(fields) =>
      var body := PlainFields(fields) + rest;
      assert buf == Uvarint(|fields|) + body;
      CountExactly(env, buf, |fields|, body);
      PlainFieldsDecode(env, fields, depth + 1, rest);
    case Optional(inner) => PlainDecodes(env, inner, depth + 1, rest);
    case _ => PlainLeafDecodes(env, d, depth, rest);
  }

  lemma {:induction false} PlainLeafDecodes(env: Env, d: Data, depth: nat, rest: Bytes)
    requires depth <= env.maxDepth && ReadableData(env, d, depth) && !d.Slice? && !d.Map? && !d.Struct? && !d.Optional?
    ensures DecodeData(env, Tag(d), PlainData(d) + rest, depth) == Some((d, rest))
  {
    hide DecodeUint, DecodeInt, DecodeString, DecodeDelimited, DecodeWord, DecodeBool, Uvarint, Delimited;
    var buf := PlainData(d) + rest;
    match d
    case Nil => assert buf == rest;
    case Bool(b) => BoolExactly(buf, b, rest);
    case Int(i) => IntExactly(buf, i, rest);
    case Uint(u) => UintRoundTrip(u, buf, rest);
    case Float(w) => WordExactly(buf, w, rest);
    case Complex(re, im) =>
      assert buf == re + (im + rest);
      WordExactly(buf, re, im + rest);
      WordExactly(im + rest, im, rest);
    case Str(s) => TextExactly(env, buf, s, rest);
    case Raw(s) => TextExactly(env, buf, s, rest);
    case Resource(ref) =>
      var hash := Delimited(ref.typeHash) + rest;
      Regroup(Uvarint(ref.epoch), Uvarint(ref.objectId), Delimited(ref.typeHash), rest);
      UintRoundTrip(ref.epoch, buf, Uvarint(ref.objectId) + hash);
      UintRoundTrip(ref.objectId, Uvarint(ref.objectId) + hash, hash);
      TextExactly(env, hash, ref.typeHash, rest);
  }

  lemma {:induction false} PlainItemsDecode(env: Env, items: seq<Value>, depth: nat, rest: Bytes)
    requires forall i :: 0 <= i < |items| ==> Readable(env, items[i], depth)
    ensures DecodeItems(env, |items|, PlainItems(items) + rest, depth) == Some((items, rest))
    decreases items, 0
  {
    hide Decode, Plain, Readable;
    if items == [] {
      assert [] + rest == rest;
    } else {
      var tail := PlainItems(items[1..]) + rest;
      assert PlainItems(items) == Plain(items[0]) + PlainItems(items[1..]);
      Spread([], Plain(items[0]), PlainItems(items[1..]), rest);
      assert [] + Plain(items[0]) == Plain(items[0]) && [] + (Plain(items[0]) + tail) == Plain(items[0]) + tail;
      PlainDecodes(env, items[0], depth, tail);
      PlainItemsDecode(env, items[1..], depth, rest);
      assert items == [items[0]] + items[1..];
    }
  }

  lemma {:induction false} PlainEntriesDecode(env: Env, entries: seq<Entry>, depth: nat, rest: Bytes)
    requires forall i :: 0 <= i < |entries| ==> ReadableEntry(env, entries[i], depth)
    ensures DecodeEntries(env, |entries|, PlainEntries(entries) + rest, depth) == Some((entries, rest))
    decreases entries, 0
  {
    hide Decode, Plain, Readable;
    if entries == [] {
      assert [] + rest == rest;
    } else {
      var e, others := entries[0], PlainEntries(entries[1..]);
      var tail := others + rest;
      assert ReadableEntry(env, e, depth) && e.key < e && e.value < e;
      assert PlainEntries(entries) == (Plain(e.key) + Plain(e.value)) + others;
      Spread(Plain(e.key), Plain(e.value), others, rest);
      PlainDecodes(env, e.key, depth, Plain(e.value) + tail);
      PlainDecodes(env, e.value, depth, tail);
      PlainEntriesDecode(env, entries[1..], depth, rest);
      assert entries == [e] + entries[1..];
    }
  }

  lemma {:induction false} PlainFieldsDecode(env: Env, fields: seq<Field>, depth: nat, rest: Bytes)
    requires forall i :: 0 <= i < |fields| ==> ReadableField(env, fields[i], depth)
    ensures DecodeFields(env, |fields|, PlainFields(fields) + rest, depth) == Some((fields, rest))
    decreases fields, 0
  {
    hide Decode, DecodeUint, Plain, Readable, Uvarint;
    if fields == [] {
      assert [] + rest == rest;
    } else {
      var f, tail := fields[0], PlainFields(fields[1..]) + rest;
      var buf := PlainFields(fields) + rest;
      assert ReadableField(env, f, depth) && f.value < f;
      assert PlainFields(fields) == (Uvarint(f.id) + Plain(f.value)) + PlainFields(fields[1..]);
      Spread(Uvarint(f.id), Plain(f.value), PlainFields(fields[1..]), rest);
      hide PlainFields, PlainField;
      UintRoundTrip(f.id, buf, Plain(f.value) + tail);
      PlainDecodes(env, f.value, depth, tail);
      PlainFieldsDecode(env, fields[1..], depth, rest);
      assert fields == [f] + fields[1..];
    }
  }

  /** The decoder accepts exactly the plain encodings of values within its limits, consumes
      exactly the encoding, and returns exactly the value, in the order it was written. */
  lemma {:induction false} DecodeExactly(env: Env, buf: Bytes, v: Value, depth: nat, rest: Bytes)
    ensures Decode(env, buf, depth) == Some((v, rest)) <==> Readable(env, v, depth) && buf == Plain(v) + rest
  {
    hide Decode, Plain, Readable;
    DecodeInverts(env, buf, depth);
    if Readable(env, v, depth) && buf == Plain(v) + rest { PlainDecodes(env, v, depth, rest); }
  }
}
