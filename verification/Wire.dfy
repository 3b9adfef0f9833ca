/** The bytes of a packet: a header of 32 bytes, then data frames of 20 bytes each and their payload. Writing and
    reading are inverse to each other, in both directions. */
module Wire {
  import opened MachineWords
  import opened WireBytes
  import opened Receiver

  const PACKET_HEADER: nat := 32
  const FRAME_HEADER: nat := 20
  const MAX_REFS: nat := 16
  const MAGIC: nat := 0x52554400

  // ----- frames ----------------------------------------------------------------------------------

  /** The flag bits of `write_data_frame_header`. */
  function FlagsOf(rel: Reliability): uint8 {
    match rel
    case Unreliable => 0
    case UnreliableSequenced => 4
    case ReliableUnordered => 1
    case ReliableOrdered => 3
  }

  predicate ReliableBit(flags: uint8) { flags % 2 == 1 }

  predicate OrderedBit(flags: uint8) { flags / 2 % 2 == 1 }

  predicate SequencedBit(flags: uint8) { flags / 4 % 2 == 1 }

  /** `frame_flags_are_valid`: no unknown bit, ordered only with reliable, sequenced with neither. */
  predicate FlagsValid(flags: uint8) {
    && flags < 8 && (OrderedBit(flags) ==> ReliableBit(flags))
    && (SequencedBit(flags) ==> !ReliableBit(flags) && !OrderedBit(flags))
  }

  /** `reliability_from_flags` */
  function RelOf(flags: uint8): Reliability {
    if ReliableBit(flags) then if OrderedBit(flags) then ReliableOrdered else ReliableUnordered
    else if SequencedBit(flags) then UnreliableSequenced
    else Unreliable
  }

  /** Valid flags and reliabilities are in one-to-one correspondence. */
  lemma FlagsOneToOne(flags: uint8, rel: Reliability)
    ensures FlagsValid(flags) && RelOf(flags) == rel <==> flags == FlagsOf(rel)
  {
  }

  /** The fields fit their width. */
  predicate Fits(f: Frame) {
    f.flow < TWO_16 && f.fragIndex < TWO_16 && f.fragCount < TWO_16 && f.channel < TWO_16 && |f.payload| < TWO_16
  }

  /** The widths of the fields: type, flags, header length, flow, payload length, message id, fragment index,
      fragment count, channel, number on the channel. */
  function FrameWidths(): (w: seq<nat>)
    ensures |w| == 10 && Size(w) == FRAME_HEADER
  {
    FrameSize();
    [1, 1, 2, 2, 2, 4, 2, 2, 2, 2]
  }

  lemma {:induction false} FrameSize()
    ensures Size([1, 1, 2, 2, 2, 4, 2, 2, 2, 2]) == FRAME_HEADER
  {
    assert [2][1..] == [] && Size([2]) == 2;
    assert [2, 2][1..] == [2] && Size([2, 2]) == 4;
    assert [2, 2, 2][1..] == [2, 2] && Size([2, 2, 2]) == 6;
    assert [2, 2, 2, 2][1..] == [2, 2, 2] && Size([2, 2, 2, 2]) == 8;
    assert [4, 2, 2, 2, 2][1..] == [2, 2, 2, 2] && Size([4, 2, 2, 2, 2]) == 12;
    assert [2, 4, 2, 2, 2, 2][1..] == [4, 2, 2, 2, 2] && Size([2, 4, 2, 2, 2, 2]) == 14;
    assert [2, 2, 4, 2, 2, 2, 2][1..] == [2, 4, 2, 2, 2, 2] && Size([2, 2, 4, 2, 2, 2, 2]) == 16;
    assert [2, 2, 2, 4, 2, 2, 2, 2][1..] == [2, 2, 4, 2, 2, 2, 2] && Size([2, 2, 2, 4, 2, 2, 2, 2]) == 18;
    assert [1, 2, 2, 2, 4, 2, 2, 2, 2][1..] == [2, 2, 2, 4, 2, 2, 2, 2] && Size([1, 2, 2, 2, 4, 2, 2, 2, 2]) == 19;
    assert [1, 1, 2, 2, 2, 4, 2, 2, 2, 2][1..] == [1, 2, 2, 2, 4, 2, 2, 2, 2];
    assert Size([1, 1, 2, 2, 2, 4, 2, 2, 2, 2]) == 20;
  }

  function FrameFields(f: Frame): (v: seq<nat>)
    ensures |v| == 10
  {
    [1, FlagsOf(f.rel), FRAME_HEADER, f.flow, |f.payload|, f.msgId, f.fragIndex, f.fragCount, f.channel, f.channelSeq]
  }

  /** `write_data_frame_header`, and the payload after it. */
  function EncodeFrame(f: Frame): (b: Bytes)
    ensures |b| == FRAME_HEADER + |f.payload|
  {
    Pack(FrameFields(f), FrameWidths()) + f.payload
  }

  function EncodeFrames(frames: seq<Frame>): Bytes {
    if frames == [] then [] else EncodeFrame(frames[0]) + EncodeFrames(frames[1..])
  }

  function Fields(b: Bytes): (v: seq<nat>)
    requires FRAME_HEADER <= |b|
    ensures |v| == 10 && Fit(v, FrameWidths())
  {
    PackUnpacked(b, FrameWidths());
    Unpack(b, FrameWidths())
  }

  /** What a header says the payload is. */
  function PayloadLen(b: Bytes): nat { if |b| >= FRAME_HEADER then Fields(b)[4] else 0 }

  /** The part of the checks of `validate_packet_frames` that concerns the form. */
  predicate WellFormed(b: Bytes) {
    && |b| >= FRAME_HEADER && FRAME_HEADER + PayloadLen(b) <= |b|
    && Fields(b)[0] == 1 && Fields(b)[1] < 256 && FlagsValid(Fields(b)[1]) && Fields(b)[2] == FRAME_HEADER
  }

  function FrameWith(v: seq<nat>, payload: Bytes): (f: Frame)
    requires |v| == 10 && Fit(v, FrameWidths())
    ensures |payload| < TWO_16 ==> Fits(f)
  {
    Widths(v);
    Frame(RelOf(v[1]), v[3], v[5], v[6], v[7], v[8], v[9], payload)
  }

  lemma Widths(v: seq<nat>)
    requires |v| == 10 && Fit(v, FrameWidths())
    ensures v[1] < 256 && v[3] < TWO_16 && v[4] < TWO_16 && v[5] < TWO_32 && v[6] < TWO_16 && v[7] < TWO_16
    ensures v[8] < TWO_16 && v[9] < TWO_16
  {
    Bounds();
    assert v[1] < Bound(FrameWidths()[1]) && v[3] < Bound(FrameWidths()[3]) && v[4] < Bound(FrameWidths()[4]);
  }

  /** A frame's fields, read from its header; the payload is what the header says. */
  function ReadFrame(b: Bytes): (f: Frame)
    requires FRAME_HEADER <= |b| && FRAME_HEADER + PayloadLen(b) <= |b|
    ensures Fits(f)
  {
    Widths(Fields(b));
    FrameWith(Fields(b), b[FRAME_HEADER..FRAME_HEADER + PayloadLen(b)])
  }

  /** The most fragments a message can have. */
  function MaxFrags(cfg: Config): nat
    requires 0 < cfg.framePayload
  {
    (cfg.maxPayload + cfg.framePayload - 1) / cfg.framePayload
  }

  /** The part that concerns the values. */
  predicate FrameAccepted(cfg: Config, f: Frame, allowReliable: bool)
    requires 0 < cfg.framePayload
  {
    && (IsReliable(f.rel) ==> allowReliable)
    && f.flow < cfg.maxFlows && f.channel < cfg.maxChannels
    && f.fragIndex < f.fragCount <= MAX_FRAGS
    && (if f.fragCount == 1 then |f.payload| <= cfg.framePayload && |f.payload| <= cfg.maxPayload
        else
          && f.fragCount <= MaxFrags(cfg) && 0 < |f.payload| <= cfg.framePayload
          && f.fragIndex * cfg.framePayload + |f.payload| <= cfg.maxPayload
          && (f.fragIndex + 1 < f.fragCount ==> |f.payload| == cfg.framePayload))
  }

  lemma FieldsFit(f: Frame)
    requires Fits(f)
    ensures Fit(FrameFields(f), FrameWidths())
  {
    Bounds();
  }

  lemma FieldsWith(f: Frame)
    requires Fits(f)
    ensures Fit(FrameFields(f), FrameWidths()) && FrameWith(FrameFields(f), f.payload) == f
    ensures FlagsValid(FlagsOf(f.rel))
  {
    FieldsFit(f);
    FlagsOneToOne(FlagsOf(f.rel), f.rel);
  }

  /** What is written is well formed and reads as it was. */
  lemma ReadWritten(f: Frame, rest: Bytes)
    requires Fits(f)
    ensures var b := EncodeFrame(f) + rest;
      WellFormed(b) && ReadFrame(b) == f && b[FRAME_HEADER + PayloadLen(b)..] == rest
  {
    var b := EncodeFrame(f) + rest;
    FieldsWith(f);
    UnpackPacked(FrameFields(f), FrameWidths(), f.payload + rest);
    assert b == Pack(FrameFields(f), FrameWidths()) + (f.payload + rest);
    assert Fields(b) == FrameFields(f);
    assert b[FRAME_HEADER..FRAME_HEADER + |f.payload|] == f.payload;
  }

  lemma WithFields(v: seq<nat>, payload: Bytes)
    requires |v| == 10 && Fit(v, FrameWidths()) && v[0] == 1 && v[1] < 256 && FlagsValid(v[1]) && v[2] == FRAME_HEADER
    requires |payload| == v[4]
    ensures FrameFields(FrameWith(v, payload)) == v
  {
    Widths(v);
    FlagsOneToOne(v[1], RelOf(v[1]));
  }

  /** What reads well formed is what would be written. */
  lemma WrittenRead(b: Bytes)
    requires WellFormed(b)
    ensures b == EncodeFrame(ReadFrame(b)) + b[FRAME_HEADER + PayloadLen(b)..]
  {
    var payload := b[FRAME_HEADER..FRAME_HEADER + PayloadLen(b)];
    WithFields(Fields(b), payload);
    PackUnpacked(b, FrameWidths());
    assert b == b[..FRAME_HEADER] + payload + b[FRAME_HEADER + PayloadLen(b)..];
  }

  // ----- the frames of a packet ------------------------------------------------------------------

  /** What the two loops over the frames make of the payload; None if a check fails. */
  function DecodeFrames(cfg: Config, b: Bytes, allowReliable: bool): Option<seq<Frame>>
    requires 0 < cfg.framePayload
    decreases |b|
  {
    if b == [] then Some([])
    else if !WellFormed(b) || !FrameAccepted(cfg, ReadFrame(b), allowReliable) then None
    else
      var rest := DecodeFrames(cfg, b[FRAME_HEADER + PayloadLen(b)..], allowReliable);
      if rest == None then None else Some([ReadFrame(b)] + rest.value)
  }

  predicate AllAccepted(cfg: Config, frames: seq<Frame>, allowReliable: bool)
    requires 0 < cfg.framePayload
  {
    forall k :: 0 <= k < |frames| ==> Fits(frames[k]) && FrameAccepted(cfg, frames[k], allowReliable)
  }

  lemma AcceptedTail(cfg: Config, frames: seq<Frame>, allowReliable: bool)
    requires 0 < cfg.framePayload && frames != []
    ensures AllAccepted(cfg, frames, allowReliable) <==>
      Fits(frames[0]) && FrameAccepted(cfg, frames[0], allowReliable) && AllAccepted(cfg, frames[1..], allowReliable)
  {
    assert forall k :: 0 <= k < |frames[1..]| ==> frames[1..][k] == frames[k + 1];
    assert forall k :: 0 < k < |frames| ==> frames[k] == frames[1..][k - 1];
  }

  /** Decoding takes off the first frame. */
  lemma {:induction false} DecodeFirst(cfg: Config, f: Frame, rest: Bytes, allowReliable: bool)
    requires 0 < cfg.framePayload && Fits(f) && FrameAccepted(cfg, f, allowReliable)
    requires DecodeFrames(cfg, rest, allowReliable).Some?
    ensures DecodeFrames(cfg, EncodeFrame(f) + rest, allowReliable) ==
      Some([f] + DecodeFrames(cfg, rest, allowReliable).value)
  {
    ReadWritten(f, rest);
  }

  lemma {:induction false} DecodeEncoded(cfg: Config, frames: seq<Frame>, allowReliable: bool)
    requires 0 < cfg.framePayload && AllAccepted(cfg, frames, allowReliable)
    ensures DecodeFrames(cfg, EncodeFrames(frames), allowReliable) == Some(frames)
  {
    if frames != [] {
      var rest := EncodeFrames(frames[1..]);
      AcceptedTail(cfg, frames, allowReliable);
      DecodeEncoded(cfg, frames[1..], allowReliable);
      assert EncodeFrames(frames) == EncodeFrame(frames[0]) + rest;
      DecodeFirst(cfg, frames[0], rest, allowReliable);
      assert [frames[0]] + frames[1..] == frames;
    }
  }

  lemma {:induction false} EncodeDecoded(cfg: Config, b: Bytes, allowReliable: bool)
    requires 0 < cfg.framePayload && DecodeFrames(cfg, b, allowReliable).Some?
    ensures var frames := DecodeFrames(cfg, b, allowReliable).value;
      AllAccepted(cfg, frames, allowReliable) && EncodeFrames(frames) == b
    decreases |b|
  {
    if b != [] {
      var rest := b[FRAME_HEADER + PayloadLen(b)..];
      WrittenRead(b);
      EncodeDecoded(cfg, rest, allowReliable);
      var frames := DecodeFrames(cfg, b, allowReliable).value;
      assert frames[0] == ReadFrame(b) && frames[1..] == DecodeFrames(cfg, rest, allowReliable).value;
      AcceptedTail(cfg, frames, allowReliable);
    }
  }

  /** Reading the payload of a packet gives some frames exactly if it is their encoding and all are acceptable. */
  lemma {:induction false} FramesRoundTrip(cfg: Config, b: Bytes, frames: seq<Frame>, allowReliable: bool)
    requires 0 < cfg.framePayload
    ensures DecodeFrames(cfg, b, allowReliable) == Some(frames) <==>
            b == EncodeFrames(frames) && AllAccepted(cfg, frames, allowReliable)
  {
    if AllAccepted(cfg, frames, allowReliable) { DecodeEncoded(cfg, frames, allowReliable); }
    if DecodeFrames(cfg, b, allowReliable).Some? { EncodeDecoded(cfg, b, allowReliable); }
  }

  predicate GoodFrame(cfg: Config, b: Bytes, allowReliable: bool)
    requires 0 < cfg.framePayload
  {
    WellFormed(b) && FrameAccepted(cfg, ReadFrame(b), allowReliable)
  }

  function Prepend(f: Frame, rest: Option<seq<Frame>>): Option<seq<Frame>> {
    if rest == None then None else Some([f] + rest.value)
  }

  /** The checks of the frame at the front, and the bytes after it. */
  method NextFrame(cfg: Config, b: Bytes, allowReliable: bool) returns (next: Option<(Frame, Bytes)>)
    requires 0 < cfg.framePayload && b != []
    ensures next == None ==> DecodeFrames(cfg, b, allowReliable) == None
    ensures next.Some? ==> |next.value.1| < |b|
    ensures next.Some? ==>
      DecodeFrames(cfg, b, allowReliable) == Prepend(next.value.0, DecodeFrames(cfg, next.value.1, allowReliable))
  {
    if !GoodFrame(cfg, b, allowReliable) { return None; }
    return Some((ReadFrame(b), b[FRAME_HEADER + PayloadLen(b)..]));
  }

  /** The loop of `validate_packet_frames`. */
  method ValidatePacketFrames(cfg: Config, payload: Bytes, allowReliable: bool) returns (ok: bool)
    requires 0 < cfg.framePayload
    ensures ok == DecodeFrames(cfg, payload, allowReliable).Some?
  {
    var b := payload;
    while b != []
      invariant DecodeFrames(cfg, payload, allowReliable).Some? == DecodeFrames(cfg, b, allowReliable).Some?
      decreases |b|
    {
      var next := NextFrame(cfg, b, allowReliable);
      if next == None { return false; }
      b := next.value.1;
    }
    return true;
  }

  /** Reading the frame at the front of a payload that was validated. */
  method TakeFrame(cfg: Config, b: Bytes, allowReliable: bool, ghost left: seq<Frame>) returns (f: Frame, rest: Bytes)
    requires 0 < cfg.framePayload && b != [] && DecodeFrames(cfg, b, allowReliable) == Some(left)
    ensures |rest| < |b| && left != [] && f == left[0] && DecodeFrames(cfg, rest, allowReliable) == Some(left[1..])
  {
    var next := NextFrame(cfg, b, allowReliable);
    f, rest := next.value.0, next.value.1;
  }

  lemma FirstPasses(done: seq<Frame>, left: seq<Frame>)
    requires left != []
    ensures done + left == (done + [left[0]]) + left[1..]
  {
    assert left == [left[0]] + left[1..];
  }

  /** The loop of `process_packet` that reads the frames, after validation. */
  method ReadFrames(cfg: Config, payload: Bytes, allowReliable: bool,
                    ghost whole: seq<Frame>) returns (frames: seq<Frame>)
    requires 0 < cfg.framePayload && DecodeFrames(cfg, payload, allowReliable) == Some(whole)
    ensures frames == whole
  {
    var b := payload;
    frames := [];
    ghost var left := whole;
    while b != []
      invariant DecodeFrames(cfg, b, allowReliable) == Some(left) && whole == frames + left
      decreases |b|
    {
      var f, rest := TakeFrame(cfg, b, allowReliable, left);
      FirstPasses(frames, left);
      b, frames, left := rest, frames + [f], left[1..];
    }
    assert left == [];
  }

  // ----- packets ---------------------------------------------------------------------------------

  /** The fields of the packet header, and the frames. */
  datatype Packet =
    Packet(ackOnly: bool, connId: uint64, seq_: uint32, ackMax: uint32, ackBits: uint64, frames: seq<Frame>)

  /** The widths of the fields: magic and flags, connection, packet number, newest number received, bits of the
      numbers before it, header length, payload length. */
  function HeaderWidths(): (w: seq<nat>)
    ensures |w| == 7 && Size(w) == PACKET_HEADER
  {
    HeaderSize();
    [4, 8, 4, 4, 8, 2, 2]
  }

  lemma {:induction false} HeaderSize()
    ensures Size([4, 8, 4, 4, 8, 2, 2]) == PACKET_HEADER
  {
    assert [2][1..] == [] && Size([2]) == 2;
    assert [2, 2][1..] == [2] && Size([2, 2]) == 4;
    assert [8, 2, 2][1..] == [2, 2] && Size([8, 2, 2]) == 12;
    assert [4, 8, 2, 2][1..] == [8, 2, 2] && Size([4, 8, 2, 2]) == 16;
    assert [4, 4, 8, 2, 2][1..] == [4, 8, 2, 2] && Size([4, 4, 8, 2, 2]) == 20;
    assert [8, 4, 4, 8, 2, 2][1..] == [4, 4, 8, 2, 2] && Size([8, 4, 4, 8, 2, 2]) == 28;
    assert [4, 8, 4, 4, 8, 2, 2][1..] == [8, 4, 4, 8, 2, 2] && Size([4, 8, 4, 4, 8, 2, 2]) == 32;
  }

  /** `write_packet_header`, with the payload length it has in the end. */
  function HeaderFields(p: Packet, payloadLen: nat): (v: seq<nat>)
    ensures |v| == 7
  {
    [MAGIC + (if p.ackOnly then 1 else 0), p.connId, p.seq_, p.ackMax, p.ackBits, PACKET_HEADER, payloadLen]
  }

  function EncodePacket(p: Packet): (b: Bytes)
    ensures |b| == PACKET_HEADER + |EncodeFrames(p.frames)|
  {
    Pack(HeaderFields(p, |EncodeFrames(p.frames)|), HeaderWidths()) + EncodeFrames(p.frames)
  }

  function PacketFields(b: Bytes): (v: seq<nat>)
    requires PACKET_HEADER <= |b|
    ensures |v| == 7 && Fit(v, HeaderWidths())
  {
    PackUnpacked(b, HeaderWidths());
    Unpack(b, HeaderWidths())
  }

  /** Magic, flags, header length and packet length. */
  predicate HeaderValid(b: Bytes, mtu: nat) {
    && PACKET_HEADER <= |b| <= mtu && PacketFields(b)[0] in {MAGIC, MAGIC + 1}
    && PacketFields(b)[5] == PACKET_HEADER && PACKET_HEADER + PacketFields(b)[6] == |b|
  }

  function HeaderOf(v: seq<nat>): Packet
    requires |v| == 7 && Fit(v, HeaderWidths())
  {
    PacketWidths(v);
    Packet(v[0] == MAGIC + 1, v[1], v[2], v[3], v[4], [])
  }

  lemma PacketWidths(v: seq<nat>)
    requires |v| == 7 && Fit(v, HeaderWidths())
    ensures v[1] < TWO_64 && v[2] < TWO_32 && v[3] < TWO_32 && v[4] < TWO_64
  {
    Bounds();
    assert v[1] < Bound(HeaderWidths()[1]) && v[2] < Bound(HeaderWidths()[2]) && v[3] < Bound(HeaderWidths()[3]);
  }

  /** The checks `process_packet` makes before it changes anything, and the packet it then works on. */
  function DecodePacket(cfg: Config, mtu: nat, b: Bytes): Option<Packet>
    requires 0 < cfg.framePayload
  {
    if !HeaderValid(b, mtu) then None
    else
      var h := HeaderOf(PacketFields(b));
      if h.ackOnly then if h.seq_ != 0 || |b| != PACKET_HEADER then None else Some(h)
      else
        var frames := DecodeFrames(cfg, b[PACKET_HEADER..], h.seq_ != 0);
        if |b| == PACKET_HEADER || frames == None then None else Some(h.(frames := frames.value))
  }

  /** A packet an endpoint of this configuration sends and accepts. */
  predicate PacketOk(cfg: Config, mtu: nat, p: Packet)
    requires 0 < cfg.framePayload
  {
    && |EncodePacket(p)| <= mtu
    && (if p.ackOnly then p.seq_ == 0 && p.frames == [] else p.frames != [] && AllAccepted(cfg, p.frames, p.seq_ != 0))
  }

  lemma HeaderFit(p: Packet, payloadLen: nat)
    requires payloadLen < TWO_16
    ensures Fit(HeaderFields(p, payloadLen), HeaderWidths())
    ensures HeaderOf(HeaderFields(p, payloadLen)) == p.(frames := [])
  {
    Bounds();
  }

  lemma {:induction false} HeaderWritten(p: Packet, payload: Bytes)
    requires |payload| < TWO_16
    ensures var b := Pack(HeaderFields(p, |payload|), HeaderWidths()) + payload;
      && PacketFields(b) == HeaderFields(p, |payload|) && HeaderOf(PacketFields(b)) == p.(frames := [])
      && b[PACKET_HEADER..] == payload
  {
    HeaderFit(p, |payload|);
    UnpackPacked(HeaderFields(p, |payload|), HeaderWidths(), payload);
  }

  lemma {:induction false} HeaderBytes(b: Bytes, mtu: nat, p: Packet)
    requires HeaderValid(b, mtu) && p.(frames := []) == HeaderOf(PacketFields(b))
    ensures Pack(HeaderFields(p, |b| - PACKET_HEADER), HeaderWidths()) == b[..PACKET_HEADER]
  {
    SameFields(PacketFields(b), p, |b| - PACKET_HEADER);
    PackUnpacked(b, HeaderWidths());
  }

  lemma {:induction false} HeaderRead(b: Bytes, header: Bytes, p: Packet)
    requires PACKET_HEADER <= |b| && header == b[..PACKET_HEADER] && EncodeFrames(p.frames) == b[PACKET_HEADER..]
    requires header == Pack(HeaderFields(p, |b| - PACKET_HEADER), HeaderWidths())
    ensures b == EncodePacket(p)
  {
    assert b == header + b[PACKET_HEADER..];
  }

  lemma SameFields(v: seq<nat>, p: Packet, payloadLen: nat)
    requires |v| == 7 && Fit(v, HeaderWidths()) && p.(frames := []) == HeaderOf(v)
    requires v[0] in {MAGIC, MAGIC + 1} && v[5] == PACKET_HEADER && v[6] == payloadLen
    ensures HeaderFields(p, payloadLen) == v
  {
  }

  /** Bytes are taken for a packet exactly if they are its encoding and the packet is one that may be sent: nothing
      else is accepted, and everything that is sent is, with the same frames. */
  lemma PacketRoundTrip(cfg: Config, mtu: uint16, b: Bytes, p: Packet)
    requires 0 < cfg.framePayload
    ensures DecodePacket(cfg, mtu, b) == Some(p) <==> b == EncodePacket(p) && PacketOk(cfg, mtu, p)
  {
    if b == EncodePacket(p) && PacketOk(cfg, mtu, p) { SentIsAccepted(cfg, mtu, p); }
    if DecodePacket(cfg, mtu, b) == Some(p) { AcceptedIsSent(cfg, mtu, b); }
  }

  lemma SentIsAccepted(cfg: Config, mtu: uint16, p: Packet)
    requires 0 < cfg.framePayload && PacketOk(cfg, mtu, p)
    ensures DecodePacket(cfg, mtu, EncodePacket(p)) == Some(p)
  {
    var b, payload := EncodePacket(p), EncodeFrames(p.frames);
    HeaderWritten(p, payload);
    assert b[PACKET_HEADER..] == payload && HeaderOf(PacketFields(b)) == p.(frames := []);
    assert HeaderValid(b, mtu);
    NonEmpty(p.frames);
    if !p.ackOnly { FramesRoundTrip(cfg, payload, p.frames, p.seq_ != 0); }
  }

  lemma {:induction false} PayloadDecoded(cfg: Config, mtu: uint16, b: Bytes)
    requires 0 < cfg.framePayload && DecodePacket(cfg, mtu, b).Some?
    ensures var p := DecodePacket(cfg, mtu, b).value;
      && p.(frames := []) == HeaderOf(PacketFields(b)) && EncodeFrames(p.frames) == b[PACKET_HEADER..]
      && (if p.ackOnly then p.seq_ == 0 && p.frames == []
          else p.frames != [] && AllAccepted(cfg, p.frames, p.seq_ != 0))
  {
    var p := DecodePacket(cfg, mtu, b).value;
    if !p.ackOnly { FramesRoundTrip(cfg, b[PACKET_HEADER..], p.frames, p.seq_ != 0); }
    NonEmpty(p.frames);
  }

  lemma AcceptedIsSent(cfg: Config, mtu: uint16, b: Bytes)
    requires 0 < cfg.framePayload && DecodePacket(cfg, mtu, b).Some?
    ensures var p := DecodePacket(cfg, mtu, b).value; b == EncodePacket(p) && PacketOk(cfg, mtu, p)
  {
    var p := DecodePacket(cfg, mtu, b).value;
    PayloadDecoded(cfg, mtu, b);
    HeaderBytes(b, mtu, p);
    HeaderRead(b, b[..PACKET_HEADER], p);
  }

  lemma {:induction false} NonEmpty(frames: seq<Frame>)
    ensures EncodeFrames(frames) == [] <==> frames == []
  {
  }
}
