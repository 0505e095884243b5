/** The fragmenting writer and the reassembling reader: `writeLoop` and `readLoop` of
    `rpc/endpoint_transport.go` and `endpointAssembly.append`. */
module Transport {
  import opened Options
  import opened WireCodec
  import opened FragmentCodec

  datatype Message = Message(control: bool, payload: Bytes)

  // ----- reader ------------------------------------------------------------------------------

  datatype Assembly = Idle | Collecting(id: U64, total: U64, received: Bytes)

  /** `previous` is the identity of the last complete data message. */
  datatype Reader = Reader(assembly: Assembly, previous: U64)

  datatype Taken = Partial | Complete(message: Message) | SequenceError

  function Fill(r: Reader, a: Assembly, f: Fragment): (Reader, Taken)
    requires a.Collecting?
  {
    var received := a.received + f.data;
    if f.offset != |a.received| then (r, SequenceError)
    else if |received| != a.total then (r.(assembly := a.(received := received)), Partial)
    else (Reader(Idle, a.id), Complete(Message(false, received)))
  }

  function Take(r: Reader, f: Fragment): (Reader, Taken) {
    if f.id == 0 then
      if f.offset != 0 || |f.data| != f.total then (r, SequenceError) else (r, Complete(Message(true, f.data)))
    else if r.assembly.Idle? then
      if f.offset != 0 || f.id != (r.previous + 1) % U64_LIMIT then (r, SequenceError)
      else Fill(r, Collecting(f.id, f.total, []), f)
    else if f.id != r.assembly.id || f.total != r.assembly.total then (r, SequenceError)
    else Fill(r, r.assembly, f)
  }

  datatype Reading = Reading(reader: Reader, messages: seq<Message>, failed: bool)

  function ReadFrame(limits: Limits, reading: Reading, bytes: Bytes): Reading {
    if reading.failed then reading
    else
      match DecodeFragment(bytes, limits)
      case None => reading.(failed := true)
      case Some(f) =>
        var (reader, taken) := Take(reading.reader, f);
        match taken
        case Partial => reading.(reader := reader)
        case Complete(message) => reading.(reader := reader, messages := reading.messages + [message])
        case SequenceError => reading.(failed := true)
  }

  function ReadAll(limits: Limits, frames: seq<Bytes>): Reading {
    if frames == [] then Reading(Reader(Idle, 0), [], false)
    else ReadFrame(limits, ReadAll(limits, frames[..|frames| - 1]), frames[|frames| - 1])
  }

  /** `endpointAssembly`, with the buffer it copies into. */
  class Reassembler {
    var data: array?<Byte>
    var messageId: U64
    var received: nat
    var previous: U64

    ghost predicate Valid()
      reads this, data
    {
      data != null ==> received < data.Length < U64_LIMIT
    }

    ghost function View(): Reader
      requires Valid()
      reads this, data
    {
      Reader(if data == null then Idle else Collecting(messageId, data.Length, data[..received]), previous)
    }

    constructor ()
      ensures Valid() && View() == Reader(Idle, 0) && data == null
    {
      data, messageId, received, previous := null, 0, 0, 0;
    }

    method Append(f: Fragment) returns (taken: Taken)
      requires Valid() && (f.id == 0 || WellFormed(f))
      modifies this, data
      ensures taken.SequenceError? ==> Take(old(View()), f).1 == taken
      ensures !taken.SequenceError? ==> Valid() && (View(), taken) == Take(old(View()), f)
      ensures data == null || data == old(data) || fresh(data)
    {
      if f.id == 0 {
        if f.offset != 0 || |f.data| != f.total {
          return SequenceError;
        }
        return Complete(Message(true, f.data));
      }
      if data == null {
        if f.offset != 0 || f.id != (previous + 1) % U64_LIMIT {
          return SequenceError;
        }
        messageId := f.id;
        data := new Byte[f.total](i => 0);
        received := 0;
      } else if f.id != messageId || f.total != data.Length {
        return SequenceError;
      }
      if f.offset != received {
        return SequenceError;
      }
      ghost var before := data[..received];
      forall i | 0 <= i < |f.data| {
        data[received + i] := f.data[i];
      }
      assert data[..received + |f.data|] == before + f.data;
      received := received + |f.data|;
      if received != data.Length {
        return Partial;
      }
      var message := data[..];
      assert message == data[..received];
      previous := messageId;
      data, messageId, received := null, 0, 0;
      return Complete(Message(false, message));
    }
  }

  method ReadLoop(limits: Limits, frames: seq<Bytes>) returns (messages: seq<Message>, failed: bool)
    ensures messages == ReadAll(limits, frames).messages && failed == ReadAll(limits, frames).failed
  {
    var assembly := new Reassembler();
    messages, failed := [], false;
    for n := 0 to |frames|
      invariant fresh(assembly) && (assembly.data != null ==> fresh(assembly.data))
      invariant messages == ReadAll(limits, frames[..n]).messages && failed == ReadAll(limits, frames[..n]).failed
      invariant !failed ==> assembly.Valid() && assembly.View() == ReadAll(limits, frames[..n]).reader
    {
      assert frames[..n + 1][..n] == frames[..n];
      if !failed {
        var fragment := DecodeFragment(frames[n], limits);
        if fragment == None {
          failed := true;
        } else {
          var taken := assembly.Append(fragment.value);
          match taken
          case Partial =>
          case Complete(message) => messages := messages + [message];
          case SequenceError => failed := true;
        }
      }
    }
    assert frames[..|frames|] == frames;
  }

  // ----- writer ------------------------------------------------------------------------------

  const BURST: nat := 4

  type FrameLimit = n: nat | 256 <= n witness 256
  type Payload = s: Bytes | |s| < U64_LIMIT witness []

  /** What a transport write comes to; a late error may follow a frame that got through. */
  datatype Delivery = Delivered | DeliveredThenFailed | Lost

  /** The deadline of a data message is refreshed when its first fragment is built. */
  datatype Refresh = Unchanged | Reencoded(payload: Payload) | EncodingFailed

  /** What one turn of the write loop meets: the queues, the state of the chosen write,
      the negotiated frame size and the fate of the frame. */
  datatype Turn = Turn(
    data: Option<Payload>, control: Option<Payload>, expired: bool, detached: bool,
    refresh: Refresh, frame: FrameLimit, delivery: Delivery)

  /** The loop's variables, followed by its history: frames written, data messages
      begun, messages completed, and control frames since `current` last made progress. */
  datatype Writer = Writer(
    current: Option<Payload>, payload: Payload, offset: nat, messageId: U64, burst: nat, failed: bool,
    frames: seq<Bytes>, begun: seq<Payload>, log: seq<Message>, waited: nat)
  {
    predicate Shaped() { offset <= |payload| }
  }

  const START := Writer(None, [], 0, 0, 0, false, [], [], [], 0)

  function ChunkEnd(position: nat, frame: FrameLimit, size: nat): (end: nat)
    ensures position <= size ==> position <= end <= size
  {
    if position + frame - HEADER_LIMIT < size then position + frame - HEADER_LIMIT else size
  }

  function SendControl(w: Writer, payload: Payload, turn: Turn): Writer {
    if turn.expired then w.(failed := turn.detached)
    else
      var chunk := payload[..ChunkEnd(0, turn.frame, |payload|)];
      match EncodeFragment(Fragment(0, |payload|, 0, chunk), turn.frame)
      case None => w.(failed := true)
      case Some(bytes) =>
        if turn.delivery.Lost? then w.(failed := true)
        else
          w.(frames := w.frames + [bytes], burst := w.burst + 1, log := w.log + [Message(true, payload)],
             waited := if w.current.Some? then w.waited + 1 else 0, failed := turn.delivery.DeliveredThenFailed?)
  }

  /** The data message is fixed at its first fragment, under the next identity. */
  function Begin(w: Writer, turn: Turn): Writer
    requires w.current.Some? && (w.offset == 0 ==> w.messageId < U64_LIMIT - 1)
  {
    if w.offset != 0 then w
    else
      var payload := if turn.refresh.Reencoded? then turn.refresh.payload else w.current.value;
      w.(payload := payload, messageId := w.messageId + 1, begun := w.begun + [payload])
  }

  function Advance(w: Writer, bytes: Bytes, end: nat, turn: Turn): Writer {
    var x := w.(frames := w.frames + [bytes], burst := 0, waited := 0, failed := turn.delivery.DeliveredThenFailed?);
    if end == |w.payload|
    then x.(current := None, payload := [], offset := 0, log := w.log + [Message(false, w.payload)])
    else x.(offset := end)
  }

  function NextFragment(w: Writer, frame: FrameLimit): Fragment
    requires w.Shaped()
  {
    Fragment(w.messageId, |w.payload|, w.offset, w.payload[w.offset..ChunkEnd(w.offset, frame, |w.payload|)])
  }

  function SendData(w: Writer, turn: Turn): Writer
    requires w.current.Some? && w.Shaped()
  {
    if turn.expired then
      if w.offset != 0 || turn.detached then w.(failed := true) else w.(current := None)
    else if w.offset == 0 && (turn.refresh.EncodingFailed? || w.messageId == U64_LIMIT - 1) then w.(failed := true)
    else
      var x := Begin(w, turn);
      match EncodeFragment(NextFragment(x, turn.frame), turn.frame)
      case None => w.(failed := true)
      case Some(bytes) =>
        if turn.delivery.Lost? then w.(failed := true)
        else Advance(x, bytes, ChunkEnd(x.offset, turn.frame, |x.payload|), turn)
  }

  function PickData(w: Writer, turn: Turn): Writer {
    if w.current.None? then w.(current := turn.data, waited := 0) else w
  }

  function WriteTurn(w: Writer, turn: Turn): (r: Writer)
    requires w.Shaped()
    ensures r.Shaped()
  {
    if w.failed then w
    else
      var x := PickData(w, turn);
      if turn.control.Some? && (x.current.None? || x.burst < BURST) then SendControl(x, turn.control.value, turn)
      else if x.current.Some? then SendData(x, turn)
      else x
  }

  function WriteAll(turns: seq<Turn>): (r: Writer)
    ensures r.Shaped()
  {
    if turns == [] then START
    else WriteTurn(WriteAll(turns[..|turns| - 1]), turns[|turns| - 1])
  }

  /** The variables of `writeLoop`. */
  class FragmentWriter {
    var current: Option<Payload>
    var payload: Payload
    var offset: nat
    var messageId: U64
    var burst: nat
    var failed: bool
    var frames: seq<Bytes>

    /** After a failure only what went out matters. */
    ghost predicate Shows(w: Writer)
      reads this
    {
      && w.Shaped() && frames == w.frames && failed == w.failed
      && (!failed ==>
          current == w.current && payload == w.payload && offset == w.offset && messageId == w.messageId && burst == w.burst)
    }

    constructor ()
      ensures Shows(START)
    {
      current, payload, offset, messageId, burst, failed, frames := None, [], 0, 0, 0, false, [];
    }

    method Transmit(fragment: Fragment, turn: Turn) returns (ok: bool)
      modifies this`frames, this`failed
      requires !failed
      ensures ok == (EncodeFragment(fragment, turn.frame).Some? && !turn.delivery.Lost?)
      ensures failed == (!ok || turn.delivery.DeliveredThenFailed?)
      ensures frames == if ok then old(frames) + [EncodeFragment(fragment, turn.frame).value] else old(frames)
    {
      var bytes := EncodeFragmentTo(fragment, turn.frame);
      ok := bytes != None && !turn.delivery.Lost?;
      failed := !ok || turn.delivery.DeliveredThenFailed?;
      if ok {
        frames := frames + [bytes.value];
      }
    }

    method WriteControl(control: Payload, turn: Turn, ghost w: Writer)
      requires Shows(w) && !failed
      modifies this
      ensures Shows(SendControl(w, control, turn))
    {
      hide EncodeFragment;
      if turn.expired {
        failed := turn.detached;
        return;
      }
      var ok := Transmit(Fragment(0, |control|, 0, control[..ChunkEnd(0, turn.frame, |control|)]), turn);
      if ok {
        burst := burst + 1;
      }
    }

    method WriteData(turn: Turn, ghost w: Writer)
      requires Shows(w) && !failed && current.Some?
      modifies this
      ensures Shows(SendData(w, turn))
    {
      hide EncodeFragment;
      if turn.expired {
        failed := offset != 0 || turn.detached;
        current := None;
        return;
      }
      if offset == 0 {
        if turn.refresh.EncodingFailed? || messageId == U64_LIMIT - 1 {
          failed := true;
          return;
        }
        payload := if turn.refresh.Reencoded? then turn.refresh.payload else current.value;
        messageId := messageId + 1;
      }
      var end := ChunkEnd(offset, turn.frame, |payload|);
      var ok := Transmit(Fragment(messageId, |payload|, offset, payload[offset..end]), turn);
      if ok {
        burst := 0;
        offset := end;
        if offset == |payload| {
          current, payload, offset := None, [], 0;
        }
      }
    }
  }

  /** `writeLoop`: one turn after another until an error ends it. */
  method WriteLoop(turns: seq<Turn>) returns (frames: seq<Bytes>, failed: bool)
    ensures frames == WriteAll(turns).frames && failed == WriteAll(turns).failed
  {
    hide SendControl, SendData;
    var writer := new FragmentWriter();
    for n := 0 to |turns|
      invariant fresh(writer) && writer.Shows(WriteAll(turns[..n]))
    {
      assert turns[..n + 1][..n] == turns[..n];
      ghost var w := WriteAll(turns[..n]);
      var turn := turns[n];
      if !writer.failed {
        if writer.current == None {
          writer.current := turn.data;
        }
        w := PickData(w, turn);
        if turn.control.Some? && (writer.current == None || writer.burst < BURST) {
          writer.WriteControl(turn.control.value, turn, w);
        } else if writer.current != None {
          writer.WriteData(turn, w);
        }
      }
    }
    assert turns[..|turns|] == turns;
    return writer.frames, writer.failed;
  }

  // ----- the reader follows the writer --------------------------------------------------------

  /** Messages small enough for the reader, in frames it accepts. */
  ghost predicate Admissible(limits: Limits, turn: Turn) {
    && turn.frame <= limits.frame
    && (turn.data.Some? ==> |turn.data.value| <= limits.message)
    && (turn.control.Some? ==> |turn.control.value| <= limits.message)
    && (turn.refresh.Reencoded? ==> |turn.refresh.payload| <= limits.message)
  }

  /** Where the reader stands when it has read all that `w` wrote. */
  ghost function Peer(w: Writer): Reader
    requires w.offset != 0 ==> w.Shaped() && 0 < w.messageId
  {
    if w.offset == 0 then Reader(Idle, w.messageId)
    else Reader(Collecting(w.messageId, |w.payload|, w.payload[..w.offset]), w.messageId - 1)
  }

  ghost predicate Working(limits: Limits, w: Writer) {
    && (w.offset != 0 ==> w.current.Some? && w.offset < |w.payload| <= limits.message && 0 < w.messageId)
    && (w.current.Some? ==> |w.current.value| <= limits.message)
  }

  ghost predicate Synchronized(limits: Limits, w: Writer) {
    Working(limits, w) && ReadAll(limits, w.frames) == Reading(Peer(w), w.log, false)
  }

  lemma {:induction false} ReadOneMore(limits: Limits, frames: seq<Bytes>, bytes: Bytes)
    ensures ReadAll(limits, frames + [bytes]) == ReadFrame(limits, ReadAll(limits, frames), bytes)
  {
    assert (frames + [bytes])[..|frames|] == frames;
  }

  lemma {:induction false} ControlStays(limits: Limits, w: Writer, payload: Payload, turn: Turn)
    requires limits.Valid() && Synchronized(limits, w) && Admissible(limits, turn) && |payload| <= limits.message
    ensures Synchronized(limits, SendControl(w, payload, turn))
  {
    hide EncodeFragment, DecodeFragment, ReadAll;
    var x := SendControl(w, payload, turn);
    if x.frames != w.frames {
      var f := Fragment(0, |payload|, 0, payload[..ChunkEnd(0, turn.frame, |payload|)]);
      var bytes := EncodeFragment(f, turn.frame).value;
      EncodedWithin(f, turn.frame, limits);
      ReadOneMore(limits, w.frames, bytes);
      assert f.data == payload;
      assert x.frames == w.frames + [bytes];
    }
  }

  lemma {:induction false} EncodedWithin(f: Fragment, frame: nat, limits: Limits)
    requires EncodeFragment(f, frame).Some? && frame <= limits.frame && limits.Valid() && f.total <= limits.message
    ensures DecodeFragment(EncodeFragment(f, frame).value, limits) == Some(f) && WellFormed(f)
  {
    DecodeEncoded(f, EncodeFragment(f, frame).value, limits);
  }

  lemma {:induction false} FragmentTaken(w: Writer, frame: FrameLimit)
    requires w.Shaped() && 0 < w.messageId && WellFormed(NextFragment(w, frame))
    ensures var end := ChunkEnd(w.offset, frame, |w.payload|);
      Take(if w.offset == 0 then Reader(Idle, w.messageId - 1) else Peer(w), NextFragment(w, frame))
      == if end == |w.payload| then (Reader(Idle, w.messageId), Complete(Message(false, w.payload)))
         else (Reader(Collecting(w.messageId, |w.payload|, w.payload[..end]), w.messageId - 1), Partial)
  {
    var end := ChunkEnd(w.offset, frame, |w.payload|);
    assert w.payload[..w.offset] + w.payload[w.offset..end] == w.payload[..end];
    assert w.payload[..|w.payload|] == w.payload;
  }

  lemma {:induction false} DataStays(limits: Limits, w: Writer, turn: Turn)
    requires limits.Valid() && w.Shaped() && w.current.Some? && Synchronized(limits, w) && Admissible(limits, turn)
    ensures Synchronized(limits, SendData(w, turn))
  {
    hide EncodeFragment, DecodeFragment, ReadAll, Take;
    var y := SendData(w, turn);
    if y.frames != w.frames {
      var x := Begin(w, turn);
      var f := NextFragment(x, turn.frame);
      var bytes := EncodeFragment(f, turn.frame).value;
      assert y.frames == w.frames + [bytes];
      EncodedWithin(f, turn.frame, limits);
      ReadOneMore(limits, w.frames, bytes);
      FragmentTaken(x, turn.frame);
    }
  }

  lemma {:induction false} TurnStays(limits: Limits, w: Writer, turn: Turn)
    requires limits.Valid() && w.Shaped() && Synchronized(limits, w) && Admissible(limits, turn)
    ensures Synchronized(limits, WriteTurn(w, turn))
  {
    hide SendControl, SendData, ReadAll;
    var x := PickData(w, turn);
    if turn.control.Some? { ControlStays(limits, x, turn.control.value, turn); }
    if x.current.Some? { DataStays(limits, x, turn); }
  }

  /** Whatever the queues, deadlines, drops and frame sizes: the reader meets no
      sequence error and has exactly the messages completed so far, in order. */
  lemma {:induction false} TransportRoundTrip(limits: Limits, turns: seq<Turn>)
    requires limits.Valid() && forall i :: 0 <= i < |turns| ==> Admissible(limits, turns[i])
    ensures var w := WriteAll(turns);
      var r := ReadAll(limits, w.frames);
      !r.failed && r.messages == w.log
    ensures Synchronized(limits, WriteAll(turns))
  {
    hide WriteTurn, Admissible;
    if turns != [] {
      var n := |turns| - 1;
      TransportRoundTrip(limits, turns[..n]);
      TurnStays(limits, WriteAll(turns[..n]), turns[n]);
    }
  }

  // ----- lanes ------------------------------------------------------------------------------------

  function DataOf(log: seq<Message>): seq<Bytes> {
    if log == [] then []
    else
      var m := log[|log| - 1];
      DataOf(log[..|log| - 1]) + if m.control then [] else [m.payload]
  }

  /** Every data message begun is delivered once, in order, except one still under way;
      and no data fragment waits for more than four control fragments. */
  ghost predicate Fair(w: Writer) {
    && w.begun == DataOf(w.log) + (if w.offset == 0 then [] else [w.payload])
    && w.waited <= w.burst
    && w.waited <= BURST
    && (w.offset != 0 ==> w.current.Some?)
  }

  lemma {:induction false} DataOfMore(log: seq<Message>, m: Message)
    ensures DataOf(log + [m]) == DataOf(log) + if m.control then [] else [m.payload]
  {
    assert (log + [m])[..|log|] == log;
  }

  lemma {:induction false} TurnIsFair(w: Writer, turn: Turn)
    requires w.Shaped() && Fair(w)
    ensures Fair(WriteTurn(w, turn))
  {
    hide EncodeFragment, DataOf;
    var x := PickData(w, turn);
    if turn.control.Some? {
      DataOfMore(x.log, Message(true, turn.control.value));
    }
    if x.current.Some? && (x.offset == 0 ==> x.messageId < U64_LIMIT - 1) {
      DataOfMore(x.log, Message(false, Begin(x, turn).payload));
    }
  }

  lemma {:induction false} LanesAreFair(turns: seq<Turn>)
    ensures Fair(WriteAll(turns))
  {
    hide WriteTurn;
    if turns != [] {
      var n := |turns| - 1;
      LanesAreFair(turns[..n]);
      TurnIsFair(WriteAll(turns[..n]), turns[n]);
    }
  }

  // ----- progress ---------------------------------------------------------------------------------

  /** Nothing went wrong in this turn, and messages are not empty; a control message
      fits one frame, as `writeContext` checks before it queues one. */
  ghost predicate Healthy(turn: Turn) {
    && !turn.expired && turn.delivery.Delivered? && !turn.refresh.EncodingFailed?
    && (turn.data.Some? ==> turn.data.value != [])
    && (turn.control.Some? ==> 0 < |turn.control.value| <= turn.frame - HEADER_LIMIT)
    && (turn.refresh.Reencoded? ==> turn.refresh.payload != [])
  }

  /** A healthy turn with anything to send puts exactly one frame on the wire. */
  lemma {:induction false} HealthyTurnSends(w: Writer, turn: Turn)
    requires w.Shaped() && !w.failed && Healthy(turn) && w.messageId < U64_LIMIT - 1
    requires w.offset != 0 ==> w.current.Some? && w.offset < |w.payload| && 0 < w.messageId
    requires w.current.Some? ==> w.current.value != []
    ensures !WriteTurn(w, turn).failed
    ensures |WriteTurn(w, turn).frames| == |w.frames| + if w.current.Some? || turn.data.Some? || turn.control.Some? then 1 else 0
  {
    hide EncodeFragment;
    var x := PickData(w, turn);
    if turn.control.Some? {
      var payload := turn.control.value;
      ChunkFits(Fragment(0, |payload|, 0, payload[..ChunkEnd(0, turn.frame, |payload|)]), turn.frame);
    }
    if x.current.Some? {
      ChunkFits(NextFragment(Begin(x, turn), turn.frame), turn.frame);
    }
  }

  ghost predicate Ready(w: Writer) {
    && w.Shaped() && !w.failed && w.messageId < U64_LIMIT - 1 && (w.current.Some? ==> w.current.value != [])
    && (w.offset != 0 ==> w.current.Some? && w.offset < |w.payload| && 0 < w.messageId)
  }

  /** The queued control message goes out unless a data message is under way and four control
      fragments have gone since its last one; it goes out whole, and the wait it costs the data
      message is counted. */
  lemma {:induction false} ControlGoes(w: Writer, turn: Turn)
    requires Ready(w) && Healthy(turn) && turn.control.Some? && ((w.current.None? && turn.data.None?) || w.burst < BURST)
    ensures var r := WriteTurn(w, turn);
      && r.log == w.log + [Message(true, turn.control.value)] && r.burst == w.burst + 1 && r.begun == w.begun && r.offset == w.offset
      && r.current == (if w.current.Some? then w.current else turn.data)
      && r.waited == (if w.current.Some? then w.waited + 1 else if turn.data.Some? then 1 else 0)
  {
    hide EncodeFragment;
    var payload := turn.control.value;
    ChunkFits(Fragment(0, |payload|, 0, payload[..ChunkEnd(0, turn.frame, |payload|)]), turn.frame);
  }

  function FirstPayload(w: Writer, turn: Turn): Payload
    requires w.current.Some? || turn.data.Some?
  {
    if turn.refresh.Reencoded? then turn.refresh.payload else if w.current.Some? then w.current.value else turn.data.value
  }

  /** Otherwise the data message goes on, and control has its turn again.  A message that only
      begins goes out as its refreshed encoding, if there is one. */
  lemma {:induction false} DataGoes(w: Writer, turn: Turn)
    requires Ready(w) && Healthy(turn) && (w.current.Some? || turn.data.Some?)
    requires turn.control.None? || w.burst >= BURST
    ensures var r := WriteTurn(w, turn);
      && |r.frames| == |w.frames| + 1 && r.burst == 0 && r.waited == 0
      && (w.offset != 0 ==> r.begun == w.begun)
      && (w.offset == 0 ==> r.begun == w.begun + [FirstPayload(w, turn)]) && (w.messageId < U64_LIMIT - 2 ==> Ready(r))
  {
    hide EncodeFragment;
    var x := PickData(w, turn);
    ChunkFits(NextFragment(Begin(x, turn), turn.frame), turn.frame);
  }

  /** While control messages are queued, at least one of any two healthy turns sends one. */
  lemma {:induction false} ControlWaitsOnce(w: Writer, turn: Turn, next: Turn)
    requires Ready(w) && w.messageId < U64_LIMIT - 2 && Healthy(turn) && Healthy(next) && turn.control.Some? && next.control.Some?
    ensures var r := WriteTurn(w, turn);
      r.log == w.log + [Message(true, turn.control.value)] || WriteTurn(r, next).log == r.log + [Message(true, next.control.value)]
  {
    hide WriteTurn, Healthy;
    if (w.current.None? && turn.data.None?) || w.burst < BURST {
      ControlGoes(w, turn);
    } else {
      DataGoes(w, turn);
      ControlGoes(WriteTurn(w, turn), next);
    }
  }

  /** What has expired is never begun: a waiting message is dropped, and the connection fails if
      nobody is told, or if the message was already under way. */
  lemma {:induction false} ExpiredIsDropped(w: Writer, turn: Turn)
    requires w.Shaped() && !w.failed && turn.expired
    ensures var r := WriteTurn(w, turn);
      && r.frames == w.frames && r.log == w.log && r.begun == w.begun
      && (turn.control.Some? && (w.burst < BURST || (w.current.None? && turn.data.None?)) ==> r.failed == turn.detached)
      && (turn.control.None? && (w.current.Some? || turn.data.Some?) ==>
           r.failed == (w.offset != 0 || turn.detached) && (!r.failed ==> r.current.None?))
  {
  }
}
