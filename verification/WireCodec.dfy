/** Primitive wire values of `rpc/wire_codec.go`: canonical varints, zig-zag
    integers and length-delimited bytes. */
module WireCodec {
  import opened Options

  type Byte = n: nat | n < 256
  type Bytes = seq<Byte>

  const U64_LIMIT: nat := 0x1_0000_0000_0000_0000

  type U64 = n: nat | n < U64_LIMIT
  type I64 = n: int | -0x8000_0000_0000_0000 <= n < 0x8000_0000_0000_0000

  const MAX_VARINT_LEN := 10

  // ----- encoding -----------------------------------------------------------------

  function Uvarint(x: nat): (bytes: Bytes)
    ensures 1 <= |bytes|
  {
    if x < 128 then [x] else [x % 128 + 128] + Uvarint(x / 128)
  }

  function ZigZag(i: I64): U64 {
    if i >= 0 then 2 * i else -2 * i - 1
  }

  function UnZigZag(u: U64): I64 {
    if u % 2 == 0 then u / 2 else -(u / 2) - 1
  }

  function Delimited(s: Bytes): Bytes {
    Uvarint(|s|) + s
  }

  // ----- decoding -----------------------------------------------------------------

  datatype Scan = Truncated | Overflow | Read(value: nat, size: nat)

  /** `binary.Uvarint` from byte `i` on: at most ten bytes, the tenth at most 1. */
  function ScanVarint(buf: Bytes, i: nat): (scan: Scan)
    requires i <= |buf| && i <= MAX_VARINT_LEN
    ensures scan.Read? ==> i < scan.size <= |buf| && scan.size <= MAX_VARINT_LEN
    decreases |buf| - i
  {
    if i == |buf| then Truncated
    else if i == MAX_VARINT_LEN then Overflow
    else if buf[i] < 128 then if i == MAX_VARINT_LEN - 1 && buf[i] > 1 then Overflow else Read(buf[i], i + 1)
    else
      match ScanVarint(buf, i + 1)
      case Read(v, n) => Read(buf[i] - 128 + 128 * v, n)
      case other => other
  }

  /** A varint is accepted only in the form the encoder would have chosen. */
  function DecodeUint(buf: Bytes): (r: Option<(U64, Bytes)>)
    ensures r.Some? ==> |r.value.1| < |buf|
  {
    match ScanVarint(buf, 0)
    case Read(v, n) =>
      ScanBound(buf, 0);
      if Uvarint(v) == buf[..n] then Some((v, buf[n..])) else None
    case _ => None
  }

  function DecodeInt(buf: Bytes): Option<(I64, Bytes)> {
    var (u, rest) :- DecodeUint(buf);
    Some((UnZigZag(u), rest))
  }

  function DecodeFixed(buf: Bytes, size: nat): (r: Option<(Bytes, Bytes)>)
    ensures r.Some? ==> |r.value.0| == size && buf == r.value.0 + r.value.1
  {
    if size <= |buf| then Some((buf[..size], buf[size..])) else None
  }

  /** Length-delimited bytes within the decoder's limit. */
  function DecodeDelimited(buf: Bytes, limit: nat): Option<(Bytes, Bytes)> {
    var (size, rest) :- DecodeUint(buf);
    if size <= limit then DecodeFixed(rest, size) else None
  }

  function DecodeBool(buf: Bytes): Option<(bool, Bytes)> {
    if buf == [] || buf[0] > 1 then None else Some((buf[0] == 1, buf[1..]))
  }

  // ----- round trips ----------------------------------------------------------------

  /** Values that still fit when `k` septets have been read. */
  function Capacity(k: nat): nat
    requires k < MAX_VARINT_LEN
  {
    match k
    case 0 => U64_LIMIT
    case 1 => 0x200_0000_0000_0000
    case 2 => 0x4_0000_0000_0000
    case 3 => 0x800_0000_0000
    case 4 => 0x10_0000_0000
    case 5 => 0x2000_0000
    case 6 => 0x40_0000
    case 7 => 0x8000
    case 8 => 0x100
    case 9 => 2
  }

  lemma {:induction false} ScanEncoded(before: Bytes, x: nat, rest: Bytes)
    requires |before| < MAX_VARINT_LEN && x < Capacity(|before|)
    ensures ScanVarint(before + Uvarint(x) + rest, |before|) == Read(x, |before| + |Uvarint(x)|)
    decreases x
  {
    var buf := before + Uvarint(x) + rest;
    if x < 128 {
      assert buf[|before|] == x;
    } else {
      var first := x % 128 + 128;
      assert |before| < 9 && x / 128 < Capacity(|before| + 1);
      ScanEncoded(before + [first], x / 128, rest);
      assert buf == before + [first] + Uvarint(x / 128) + rest;
    }
  }

  lemma {:induction false} ScanBound(buf: Bytes, i: nat)
    requires i <= |buf| && i < MAX_VARINT_LEN
    ensures ScanVarint(buf, i).Read? ==> ScanVarint(buf, i).value < Capacity(i)
    decreases |buf| - i
  {
    if i < |buf| && buf[i] >= 128 && i + 1 < MAX_VARINT_LEN {
      ScanBound(buf, i + 1);
    }
  }

  /** The varint decoder accepts exactly the encodings of 64-bit values. */
  lemma UintRoundTrip(x: nat, buf: Bytes, rest: Bytes)
    ensures DecodeUint(buf) == Some((x, rest)) <==> x < U64_LIMIT && buf == Uvarint(x) + rest
  {
    if x < U64_LIMIT && buf == Uvarint(x) + rest {
      ScanEncoded([], x, rest);
      assert [] + Uvarint(x) + rest == buf;
    }
    if DecodeUint(buf) == Some((x, rest)) {
      ScanBound(buf, 0);
      var n := ScanVarint(buf, 0).size;
      assert buf == buf[..n] + buf[n..];
    }
  }

  lemma IntRoundTrip(i: I64, rest: Bytes)
    ensures DecodeInt(Uvarint(ZigZag(i)) + rest) == Some((i, rest))
  {
    UintRoundTrip(ZigZag(i), Uvarint(ZigZag(i)) + rest, rest);
  }

  lemma DelimitedRoundTrip(s: Bytes, limit: nat, rest: Bytes)
    requires |s| <= limit && |s| < U64_LIMIT
    ensures DecodeDelimited(Delimited(s) + rest, limit) == Some((s, rest))
  {
    assert Delimited(s) + rest == Uvarint(|s|) + (s + rest);
    UintRoundTrip(|s|, Delimited(s) + rest, s + rest);
  }

  // ----- the buffers --------------------------------------------------------------

  class WireEncoder {
    var data: Bytes

    constructor () ensures data == [] { data := []; }

    method Uint(value: U64)
      modifies this
      ensures data == old(data) + Uvarint(value)
    {
      var x: nat := value;
      while x >= 128
        invariant old(data) + Uvarint(value) == data + Uvarint(x)
      {
        data := data + [x % 128 + 128];
        x := x / 128;
      }
      data := data + [x];
    }

    method Int(value: I64)
      modifies this
      ensures data == old(data) + Uvarint(ZigZag(value))
    {
      Uint(ZigZag(value));
    }

    method Raw(value: Bytes)
      requires |value| < U64_LIMIT
      modifies this
      ensures data == old(data) + Delimited(value)
    {
      Uint(|value|);
      data := data + value;
    }
  }

  /** The loop of `binary.Uvarint`. */
  method ReadSeptets(buf: Bytes) returns (scan: Scan)
    ensures scan == ScanVarint(buf, 0)
  {
    hide Partial;
    var value: nat, scale: nat, i: nat := 0, 1, 0;
    ghost var whole := ScanVarint(buf, 0);
    PartialStart(whole);
    while i < |buf| && i < MAX_VARINT_LEN && buf[i] >= 128
      invariant i <= |buf| && i <= MAX_VARINT_LEN
      invariant Partial(whole, ScanVarint(buf, i), value, scale)
    {
      PartialStep(whole, ScanVarint(buf, i + 1), value, scale, buf[i] - 128);
      value, scale, i := Accumulate(value, scale, buf[i] - 128), scale * 128, i + 1;
    }
    PartialEnd(whole, ScanVarint(buf, i), value, scale);
    if i == |buf| {
      return Truncated;
    }
    if i == MAX_VARINT_LEN || (i == MAX_VARINT_LEN - 1 && buf[i] > 1) {
      return Overflow;
    }
    scan := Read(Accumulate(value, scale, buf[i]), i + 1);
  }

  class WireDecoder {
    const data: Bytes
    const limit: nat
    var offset: nat

    constructor (data: Bytes, limit: nat)
      ensures this.data == data && this.limit == limit && offset == 0
    {
      this.data, this.limit, offset := data, limit, 0;
    }

    ghost predicate Valid() reads this { offset <= |data| }

    ghost function Rest(): Bytes
      requires Valid()
      reads this
    {
      data[offset..]
    }

    /** Reads a varint, then rejects a form the encoder would not have chosen. */
    method Uint() returns (r: Option<U64>)
      requires Valid()
      modifies this`offset
      ensures Valid() && (r.Some? <==> DecodeUint(old(Rest())).Some?)
      ensures if r.Some? then DecodeUint(old(Rest())) == Some((r.value, Rest())) else offset == old(offset)
    {
      var buf := data[offset..];
      var scan := ReadSeptets(buf);
      if !scan.Read? {
        return None;
      }
      ScanBound(buf, 0);
      var canonical := new WireEncoder();
      canonical.Uint(scan.value);
      if canonical.data != buf[..scan.size] {
        return None;
      }
      offset := offset + scan.size;
      assert data[offset..] == buf[scan.size..];
      r := Some(scan.value);
    }

    method RawView() returns (r: Option<Bytes>)
      requires Valid()
      modifies this`offset
      ensures Valid() && (r.Some? <==> DecodeDelimited(old(Rest()), limit).Some?)
      ensures r.Some? ==> DecodeDelimited(old(Rest()), limit) == Some((r.value, Rest()))
    {
      var size := Uint();
      if size.None? || size.value > limit || size.value > |data| - offset {
        return None;
      }
      ghost var rest := Rest();
      r := Some(data[offset..offset + size.value]);
      offset := offset + size.value;
      assert r.value == rest[..size.value] && Rest() == rest[size.value..];
    }
  }

  function Accumulate(value: nat, scale: nat, septet: nat): nat {
    value + septet * scale
  }

  /** Progress of the septet loop: what is read plus what remains. */
  ghost predicate Partial(whole: Scan, tail: Scan, value: nat, scale: nat) {
    && (!tail.Read? ==> whole == tail)
    && (tail.Read? ==> whole == Read(Accumulate(value, scale, tail.value), tail.size))
  }

  lemma PartialStart(whole: Scan)
    ensures Partial(whole, whole, 0, 1)
  {
  }

  lemma PartialStep(whole: Scan, tail: Scan, value: nat, scale: nat, septet: nat)
    requires Partial(whole, if tail.Read? then Read(septet + 128 * tail.value, tail.size) else tail, value, scale)
    ensures Partial(whole, tail, Accumulate(value, scale, septet), scale * 128)
  {
    if tail.Read? {
      assert (septet + 128 * tail.value) * scale == septet * scale + tail.value * (scale * 128);
    }
  }

  lemma PartialEnd(whole: Scan, tail: Scan, value: nat, scale: nat)
    requires Partial(whole, tail, value, scale)
    ensures whole == if tail.Read? then Read(Accumulate(value, scale, tail.value), tail.size) else tail
  {
  }
}
