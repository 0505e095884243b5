/** The wire formats on concrete bytes, and what a varint is worth. */
module WireVectors {
  import opened Options
  import opened WireCodec
  import opened ValueCodec
  import opened ValuePlain
  import FragmentCodec
  import LeaseRenewal

  /** Seven bits to a byte, the lowest first. */
  function Weigh(bytes: Bytes): nat {
    if bytes == [] then 0 else bytes[0] % 128 + 128 * Weigh(bytes[1..])
  }

  /** A varint weighs its number, every byte but the last asks for more, and none is spent on a
      leading zero. */
  lemma {:induction false} UvarintWeighs(x: nat)
    ensures var b := Uvarint(x);
      && Weigh(b) == x && b[|b| - 1] < 128 && (forall i :: 0 <= i < |b| - 1 ==> b[i] >= 128)
      && (|b| > 1 ==> b[|b| - 1] != 0)
  {
    if x >= 128 {
      UvarintWeighs(x / 128);
      var b, rest := Uvarint(x), Uvarint(x / 128);
      assert b[1..] == rest;
      if |rest| == 1 { assert rest == [x / 128] by { OneByte(x / 128); } }
    }
  }

  lemma {:induction false} OneByte(x: nat)
    requires |Uvarint(x)| == 1
    ensures Uvarint(x) == [x] && x < 128
  {
  }

  /** Small integers of either sign take small codes: 0, -1, 1, -2, 2 are 0, 1, 2, 3, 4. */
  lemma {:induction false} ZigZagAlternates(n: nat)
    requires n < 0x7FFF_FFFF_FFFF_FFFF
    ensures ZigZag(0) == 0 && ZigZag(-(n as int) - 1) == ZigZag(n) + 1 && ZigZag(n + 1) == ZigZag(-(n as int) - 1) + 1
  {
  }

  /** The thirteen kinds of data, as they stand on the wire after the type text. */
  lemma {:induction false} KindBytes(d: Data)
    ensures Plain(Value([97], d))[..2] == [1, 97]
    ensures |Plain(Value([97], d))| > 2 && Plain(Value([97], d))[2] == match d
      case Nil => 0 case Bool(_) => 1 case Int(_) => 2 case Uint(_) => 3 case Float(_) => 4 case Complex(_, _) => 5
      case Str(_) => 6 case Raw(_) => 7 case Slice(_) => 8 case Map(_) => 9 case Struct(_) => 10 case Optional(_) => 11
      case Resource(_) => 12
  {
    hide PlainData;
    assert Uvarint(1) == [1] && Uvarint(Tag(d)) == [Tag(d)];
    assert Plain(Value([97], d)) == ([1] + [97]) + ([Tag(d)] + PlainData(d));
  }

  lemma {:induction false} Typed(letter: Byte, d: Data, body: Bytes)
    requires PlainData(d) == body && Tag(d) < 128
    ensures Plain(Value([letter], d)) == [1, letter, Tag(d)] + body
  {
    hide PlainData;
    assert Uvarint(1) == [1] && Uvarint(Tag(d)) == [Tag(d)];
    assert Plain(Value([letter], d)) == ([1] + [letter]) + ([Tag(d)] + PlainData(d));
  }

  /** A struct with one field, byte by byte. */
  lemma {:induction false} StructBytes()
    ensures Plain(Value([97], Struct([Field(2, Value([98], Bool(true)))]))) == [1, 97, 10, 1, 2, 1, 98, 1, 1]
  {
    hide Plain;
    Singles();
    var field := Field(2, Value([98], Bool(true)));
    Typed(98, Bool(true), [1]);
    assert PlainField(field) == [2] + [1, 98, 1, 1];
    assert [field][1..] == [] && PlainFields([field]) == PlainField(field) + PlainFields([]);
    assert PlainData(Struct([field])) == [1] + ([2, 1, 98, 1, 1] + []) == [1, 2, 1, 98, 1, 1];
    Typed(97, Struct([field]), [1, 2, 1, 98, 1, 1]);
  }

  lemma {:induction false} EntryBytes()
    ensures PlainEntry(Entry(Value([98], Str([99])), Value([100], Int(-1)))) == [1, 98, 6, 1, 99] + [1, 100, 2, 1]
  {
    hide Plain;
    Singles();
    assert PlainData(Str([99])) == [1] + [99] == [1, 99];
    Typed(98, Str([99]), [1, 99]);
    assert PlainData(Int(-1)) == [1];
    Typed(100, Int(-1), [1]);
  }

  /** A map with one entry, byte by byte. */
  lemma {:induction false} MapBytes()
    ensures Plain(Value([97], Map([Entry(Value([98], Str([99])), Value([100], Int(-1)))]))) == [1, 97, 9, 1, 1, 98, 6, 1, 99, 1, 100, 2, 1]
  {
    hide Plain, PlainEntry;
    Singles();
    EntryBytes();
    var entry := Entry(Value([98], Str([99])), Value([100], Int(-1)));
    assert [entry][1..] == [] && PlainEntries([entry]) == PlainEntry(entry) + PlainEntries([]);
    assert PlainData(Map([entry])) == [1] + ([1, 98, 6, 1, 99, 1, 100, 2, 1] + []);
    Typed(97, Map([entry]), [1, 1, 98, 6, 1, 99, 1, 100, 2, 1]);
  }

  lemma {:induction false} Singles()
    ensures Uvarint(1) == [1] && Uvarint(2) == [2] && Uvarint(6) == [6] && Uvarint(9) == [9] && Uvarint(10) == [10]
    ensures Uvarint(300) == [172, 2]
  {
    assert Uvarint(2) == [2];
  }

  /** A fragment of message 3, 300 bytes long, from its start, and a renewal of binding 2 and
      operation 6. */
  lemma {:induction false} FrameBytes(data: Bytes)
    ensures FragmentCodec.Header(FragmentCodec.Fragment(3, 300, 0, data)) == [0x4D, 0x47, 0x52, 0x46, 1, 3, 172, 2, 0]
    ensures LeaseRenewal.EncodeTargetList([LeaseRenewal.Target(LeaseRenewal.Binding, 2), LeaseRenewal.Target(LeaseRenewal.Operation, 6)])
      == [2, 1, 2, 2, 6]
  {
    Singles();
    assert Uvarint(3) == [3] && Uvarint(0) == [0];
    var second := [LeaseRenewal.Target(LeaseRenewal.Operation, 6)];
    assert second[1..] == [];
    assert LeaseRenewal.EncodeTargets(second) == [2] + ([6] + []);
    var both := [LeaseRenewal.Target(LeaseRenewal.Binding, 2), LeaseRenewal.Target(LeaseRenewal.Operation, 6)];
    assert both[1..] == second;
  }
}
