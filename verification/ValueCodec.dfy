/** RPC values and their canonical binary form: `rpc/endpoint_value_codec.go` with
    the validation of `rpc/value.go`. */
module ValueCodec {
  import opened Options
  import opened WireCodec
  import opened KeyedSort

  /** Floats are opaque 8-byte IEEE 754 words. */
  type Word = w: Bytes | |w| == 8 witness [0, 0, 0, 0, 0, 0, 0, 0]
  type FieldId = n: nat | n < 0x1_0000_0000

  datatype ResourceRef = ResourceRef(epoch: U64, objectId: U64, typeHash: Bytes)

  datatype Value = Value(typ: Bytes, data: Data)

  datatype Data =
    | Nil
    | Bool(b: bool)
    | Int(i: I64)
    | Uint(u: U64)
    | Float(word: Word)
    | Complex(re: Word, im: Word)
    | Str(text: Bytes)
    | Raw(raw: Bytes)
    | Slice(items: seq<Value>)
    | Map(entries: seq<Entry>)
    | Struct(fields: seq<Field>)
    | Optional(inner: Value)
    | Resource(ref: ResourceRef)

  datatype Entry = Entry(key: Value, value: Value)

  datatype Field = Field(id: FieldId, value: Value)

  /** Limits, UTF-8 validity (section 4 of RFC 3629) and the type-text rules, the
      latter as given predicates over type names. */
  datatype Env = Env(
    maxDepth: nat, maxElements: U64, maxBytes: U64,
    utf8: Bytes -> bool,
    leaf: (Bytes, Data) -> bool,
    slice: (Bytes, Bytes) -> bool,
    sliceType: Bytes -> bool,
    mapping: (Bytes, Bytes, Bytes) -> bool,
    mapType: Bytes -> bool,
    message: Bytes -> bool,
    optional: (Bytes, Bytes) -> bool,
    trim: Bytes -> Bytes)

  // ----- encoding -------------------------------------------------------------------

  function Tag(d: Data): U64 {
    match d
    case Nil => 0 case Bool(_) => 1 case Int(_) => 2 case Uint(_) => 3 case Float(_) => 4 case Complex(_, _) => 5
    case Str(_) => 6 case Raw(_) => 7 case Slice(_) => 8 case Map(_) => 9 case Struct(_) => 10 case Optional(_) => 11
    case Resource(_) => 12
  }

  function Encode(v: Value): Bytes
    decreases v, 0
  {
    Delimited(v.typ) + (Uvarint(Tag(v.data)) + EncodeData(v.data))
  }

  function EncodeData(d: Data): Bytes
    decreases d, 0
  {
    match d
    case Nil => []
    case Bool(b) => [if b then 1 else 0]
    case Int(i) => Uvarint(ZigZag(i))
    case Uint(u) => Uvarint(u)
    case Float(w) => w
    case Complex(re, im) => re + im
    case Str(s) => Delimited(s)
    case Raw(s) => Delimited(s)
    case Slice(items) => Uvarint(|items|) + EncodeItems(items)
    case Map(entries) => Uvarint(|entries|) + Join(Sort(EncodedEntries(entries)))
    case Struct(fields) => Uvarint(|fields|) + Join(Sort(EncodedFields(fields)))
    case Optional(inner) => Encode(inner)
    case Resource(ref) => Uvarint(ref.epoch) + (Uvarint(ref.objectId) + Delimited(ref.typeHash))
  }

  function EncodeItems(items: seq<Value>): Bytes
    decreases items, 0
  {
    if items == [] then [] else Encode(items[0]) + EncodeItems(items[1..])
  }

  /** A record to be written: sort key and the bytes that go out for it. */
  function EncodeEntry(e: Entry): Keyed<Bytes>
    decreases e, 1
  {
    Keyed(Encode(e.key), Encode(e.key) + Encode(e.value))
  }

  function EncodeField(f: Field): Keyed<Bytes>
    decreases f, 1
  {
    Keyed([f.id], Uvarint(f.id) + Encode(f.value))
  }

  function EncodedEntries(entries: seq<Entry>): (r: seq<Keyed<Bytes>>)
    ensures |r| == |entries| && forall i :: 0 <= i < |r| ==> r[i] == EncodeEntry(entries[i])
    decreases entries, 0
  {
    if entries == [] then [] else [EncodeEntry(entries[0])] + EncodedEntries(entries[1..])
  }

  function EncodedFields(fields: seq<Field>): (r: seq<Keyed<Bytes>>)
    ensures |r| == |fields| && forall i :: 0 <= i < |r| ==> r[i] == EncodeField(fields[i])
    decreases fields, 0
  {
    if fields == [] then [] else [EncodeField(fields[0])] + EncodedFields(fields[1..])
  }

  function Join(records: seq<Keyed<Bytes>>): Bytes {
    if records == [] then [] else records[0].payload + Join(records[1..])
  }

  // ----- canonical form -------------------------------------------------------------

  function Canon(v: Value): Value
    decreases v, 0
  {
    Value(v.typ, CanonData(v.data))
  }

  function CanonData(d: Data): Data
    decreases d, 0
  {
    match d
    case Slice(items) => Slice(CanonItems(items))
    case Map(entries) => Map(Payloads(Sort(CanonEntries(entries))))
    case Struct(fields) => Struct(Payloads(Sort(CanonFields(fields))))
    case Optional(inner) => Optional(Canon(inner))
    case _ => d
  }

  function CanonItems(items: seq<Value>): (r: seq<Value>)
    ensures |r| == |items| && forall i :: 0 <= i < |r| ==> r[i] == Canon(items[i])
    decreases items, 0
  {
    if items == [] then [] else [Canon(items[0])] + CanonItems(items[1..])
  }

  function CanonEntry(e: Entry): Keyed<Entry>
    decreases e, 1
  {
    Keyed(Encode(e.key), Entry(Canon(e.key), Canon(e.value)))
  }

  function CanonField(f: Field): Keyed<Field>
    decreases f, 1
  {
    Keyed([f.id], Field(f.id, Canon(f.value)))
  }

  function CanonEntries(entries: seq<Entry>): (r: seq<Keyed<Entry>>)
    ensures |r| == |entries| && forall i :: 0 <= i < |r| ==> r[i] == CanonEntry(entries[i])
    decreases entries, 0
  {
    if entries == [] then [] else [CanonEntry(entries[0])] + CanonEntries(entries[1..])
  }

  function CanonFields(fields: seq<Field>): (r: seq<Keyed<Field>>)
    ensures |r| == |fields| && forall i :: 0 <= i < |r| ==> r[i] == CanonField(fields[i])
    decreases fields, 0
  {
    if fields == [] then [] else [CanonField(fields[0])] + CanonFields(fields[1..])
  }

  function Payloads<T>(s: seq<Keyed<T>>): (r: seq<T>)
    ensures |r| == |s| && forall i :: 0 <= i < |r| ==> r[i] == s[i].payload
  {
    seq(|s|, i requires 0 <= i < |s| => s[i].payload)
  }

  // ----- decoding -------------------------------------------------------------------

  function Measure(env: Env, depth: nat): nat {
    if depth > env.maxDepth then 0 else env.maxDepth + 1 - depth
  }

  function DecodeString(env: Env, buf: Bytes): Option<(Bytes, Bytes)> {
    var (s, rest) :- DecodeDelimited(buf, env.maxBytes);
    if env.utf8(s) then Some((s, rest)) else None
  }

  function DecodeCount(env: Env, buf: Bytes): Option<(nat, Bytes)> {
    var (count, rest) :- DecodeUint(buf);
    if count <= env.maxElements then Some((count, rest)) else None
  }

  function DecodeWord(buf: Bytes): Option<(Word, Bytes)> {
    var (w, rest) :- DecodeFixed(buf, 8);
    Some((w, rest))
  }

  function Decode(env: Env, buf: Bytes, depth: nat): Option<(Value, Bytes)>
    decreases Measure(env, depth), 1, 0
  {
    if depth > env.maxDepth then None
    else
      var (typ, rest) :- DecodeString(env, buf);
      if typ == [] then None
      else
        var (kind, body) :- DecodeUint(rest);
        var (data, tail) :- DecodeData(env, kind, body, depth);
        Some((Value(typ, data), tail))
  }

  function DecodeData(env: Env, kind: U64, buf: Bytes, depth: nat): Option<(Data, Bytes)>
    requires depth <= env.maxDepth
    decreases Measure(env, depth), 0, 0
  {
    match kind
    case 0 => Some((Nil, buf))
    case 1 => var (b, rest) :- DecodeBool(buf); Some((Bool(b), rest))
    case 2 => var (i, rest) :- DecodeInt(buf); Some((Int(i), rest))
    case 3 => var (u, rest) :- DecodeUint(buf); Some((Uint(u), rest))
    case 4 => var (w, rest) :- DecodeWord(buf); Some((Float(w), rest))
    case 5 => var (re, rest) :- DecodeWord(buf); var (im, tail) :- DecodeWord(rest); Some((Complex(re, im), tail))
    case 6 => var (s, rest) :- DecodeString(env, buf); Some((Str(s), rest))
    case 7 => var (s, rest) :- DecodeDelimited(buf, env.maxBytes); Some((Raw(s), rest))
    case 8 =>
      var (count, rest) :- DecodeCount(env, buf);
      var (items, tail) :- DecodeItems(env, count, rest, depth + 1);
      Some((Slice(items), tail))
    case 9 =>
      var (count, rest) :- DecodeCount(env, buf);
      var (entries, tail) :- DecodeEntries(env, count, rest, depth + 1);
      Some((Map(entries), tail))
    case 10 =>
      var (count, rest) :- DecodeCount(env, buf);
      var (fields, tail) :- DecodeFields(env, count, rest, depth + 1);
      Some((Struct(fields), tail))
    case 11 => var (inner, rest) :- Decode(env, buf, depth + 1); Some((Optional(inner), rest))
    case 12 =>
      var (epoch, rest) :- DecodeUint(buf);
      var (objectId, rest2) :- DecodeUint(rest);
      var (typeHash, tail) :- DecodeString(env, rest2);
      Some((Resource(ResourceRef(epoch, objectId, typeHash)), tail))
    case _ => None
  }

  function DecodeItems(env: Env, count: nat, buf: Bytes, depth: nat): Option<(seq<Value>, Bytes)>
    decreases Measure(env, depth), 2, count
  {
    if count == 0 then Some(([], buf))
    else
      var (item, rest) :- Decode(env, buf, depth);
      var (items, tail) :- DecodeItems(env, count - 1, rest, depth);
      Some(([item] + items, tail))
  }

  function DecodeEntries(env: Env, count: nat, buf: Bytes, depth: nat): Option<(seq<Entry>, Bytes)>
    decreases Measure(env, depth), 2, count
  {
    if count == 0 then Some(([], buf))
    else
      var (key, rest) :- Decode(env, buf, depth);
      var (value, rest2) :- Decode(env, rest, depth);
      var (entries, tail) :- DecodeEntries(env, count - 1, rest2, depth);
      Some(([Entry(key, value)] + entries, tail))
  }

  function DecodeFields(env: Env, count: nat, buf: Bytes, depth: nat): Option<(seq<Field>, Bytes)>
    decreases Measure(env, depth), 2, count
  {
    if count == 0 then Some(([], buf))
    else
      var (id, rest) :- DecodeUint(buf);
      if id == 0 || id > 0xFFFF_FFFF then None
      else
        var (value, rest2) :- Decode(env, rest, depth);
        var (fields, tail) :- DecodeFields(env, count - 1, rest2, depth);
        Some(([Field(id, value)] + fields, tail))
  }
}
