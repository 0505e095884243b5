/** Physical fragments of the RPC transport: `rpc/endpoint_fragment.go`. */
module FragmentCodec {
  import opened Options
  import opened WireCodec

  /** The limits that matter here, as `validateWireLimits` admits them. */
  datatype Limits = Limits(frame: nat, message: nat, inFlight: nat) {
    predicate Valid() { 256 <= frame && 0 < message <= inFlight < U64_LIMIT }
  }

  datatype Fragment = Fragment(id: U64, total: U64, offset: U64, data: Bytes)

  const MAGIC: Bytes := [0x4D, 0x47, 0x52, 0x46]
  const VERSION: Byte := 1
  const HEADER_LIMIT: nat := 35

  /** Bounds both ends check: a chunk inside its message, and control messages whole. */
  predicate WellFormed(f: Fragment) {
    && 0 < f.total && f.data != [] && f.offset + |f.data| <= f.total
    && (f.id == 0 ==> f.offset == 0 && |f.data| == f.total)
  }

  function Header(f: Fragment): Bytes {
    MAGIC + [VERSION] + Uvarint(f.id) + Uvarint(f.total) + Uvarint(f.offset)
  }

  function EncodeFragment(f: Fragment, maxFrame: nat): Option<Bytes> {
    var bytes := Header(f) + f.data;
    if WellFormed(f) && |bytes| <= maxFrame then Some(bytes) else None
  }

  function DecodeFragment(bytes: Bytes, limits: Limits): Option<Fragment> {
    if |bytes| > limits.frame || |bytes| <= |MAGIC| + 1 || bytes[..|MAGIC|] != MAGIC || bytes[|MAGIC|] != VERSION then None
    else
      var (id, afterId) :- DecodeUint(bytes[|MAGIC| + 1..]);
      var (total, afterTotal) :- DecodeUint(afterId);
      var (offset, data) :- DecodeUint(afterTotal);
      var f := Fragment(id, total, offset, data);
      if WellFormed(f) && total <= limits.message && total <= limits.inFlight then Some(f) else None
  }

  lemma {:induction false} DecodeHeader(f: Fragment, rest: Bytes)
    ensures DecodeUint(Uvarint(f.id) + Uvarint(f.total) + Uvarint(f.offset) + rest)
         == Some((f.id, Uvarint(f.total) + Uvarint(f.offset) + rest))
    ensures DecodeUint(Uvarint(f.total) + Uvarint(f.offset) + rest) == Some((f.total, Uvarint(f.offset) + rest))
    ensures DecodeUint(Uvarint(f.offset) + rest) == Some((f.offset, rest))
  {
    hide DecodeUint, Uvarint;
    var a, b, c := Uvarint(f.id), Uvarint(f.total), Uvarint(f.offset);
    assert a + b + c + rest == a + (b + c + rest);
    UintRoundTrip(f.id, a + b + c + rest, b + c + rest);
    assert b + c + rest == b + (c + rest);
    UintRoundTrip(f.total, b + c + rest, c + rest);
    UintRoundTrip(f.offset, c + rest, rest);
  }

  lemma {:induction false} DecodeEncoded(f: Fragment, bytes: Bytes, limits: Limits)
    requires EncodeFragment(f, limits.frame) == Some(bytes) && f.total <= limits.message && f.total <= limits.inFlight
    ensures DecodeFragment(bytes, limits) == Some(f)
  {
    hide DecodeUint, Uvarint;
    DecodeHeader(f, f.data);
    assert bytes[..|MAGIC|] == MAGIC && bytes[|MAGIC|] == VERSION;
    assert bytes[|MAGIC| + 1..] == Uvarint(f.id) + Uvarint(f.total) + Uvarint(f.offset) + f.data;
  }

  lemma {:induction false} EncodeDecoded(f: Fragment, bytes: Bytes, limits: Limits)
    requires DecodeFragment(bytes, limits) == Some(f)
    ensures EncodeFragment(f, limits.frame) == Some(bytes) && f.total <= limits.message && f.total <= limits.inFlight
  {
    hide DecodeUint, Uvarint;
    var body := bytes[|MAGIC| + 1..];
    var (id, afterId) := DecodeUint(body).value;
    var (total, afterTotal) := DecodeUint(afterId).value;
    UintRoundTrip(f.id, body, afterId);
    UintRoundTrip(f.total, afterId, afterTotal);
    UintRoundTrip(f.offset, afterTotal, f.data);
    assert bytes == MAGIC + [VERSION] + body;
    assert body == Uvarint(f.id) + (Uvarint(f.total) + (Uvarint(f.offset) + f.data));
    assert Header(f) + f.data == MAGIC + [VERSION] + body;
  }

  /** The decoder accepts exactly the encodings of fragments within its limits, so each
      fragment has one encoding and each accepted frame one meaning. */
  lemma {:induction false} FragmentRoundTrip(f: Fragment, bytes: Bytes, limits: Limits)
    ensures DecodeFragment(bytes, limits) == Some(f)
       <==> EncodeFragment(f, limits.frame) == Some(bytes) && f.total <= limits.message && f.total <= limits.inFlight
  {
    hide DecodeFragment, EncodeFragment;
    if DecodeFragment(bytes, limits) == Some(f) { EncodeDecoded(f, bytes, limits); }
    if EncodeFragment(f, limits.frame) == Some(bytes) && f.total <= limits.message && f.total <= limits.inFlight {
      DecodeEncoded(f, bytes, limits);
    }
  }

  lemma {:induction false} VarintLength(x: U64)
    ensures |Uvarint(x)| <= MAX_VARINT_LEN
  {
    ScanEncoded([], x, []);
  }

  /** The header never exceeds its reserved size, so a chunk of the remaining size fits. */
  lemma {:induction false} ChunkFits(f: Fragment, maxFrame: nat)
    requires WellFormed(f) && |f.data| + HEADER_LIMIT <= maxFrame
    ensures EncodeFragment(f, maxFrame) == Some(Header(f) + f.data)
  {
    VarintLength(f.id);
    VarintLength(f.total);
    VarintLength(f.offset);
  }

  /** `encodeEndpointFragmentTo`, appending to the encoder's buffer. */
  method EncodeFragmentTo(f: Fragment, maxFrame: nat) returns (r: Option<Bytes>)
    ensures r == EncodeFragment(f, maxFrame)
  {
    if f.total == 0 || |f.data| == 0 || f.offset > f.total || |f.data| > f.total - f.offset
       || (f.id == 0 && (f.offset != 0 || |f.data| != f.total)) {
      return None;
    }
    var encoder := new WireEncoder();
    encoder.data := MAGIC;
    encoder.data := encoder.data + [VERSION];
    encoder.Uint(f.id);
    encoder.Uint(f.total);
    encoder.Uint(f.offset);
    encoder.data := encoder.data + f.data;
    if |encoder.data| > maxFrame {
      return None;
    }
    return Some(encoder.data);
  }
}
