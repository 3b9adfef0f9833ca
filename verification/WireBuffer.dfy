/** Building a packet in the buffer of a batch slot: the header first, then one frame after the other as long as it
    fits, each time with the payload length in the header renewed. */
module WireBuffer {
  import opened MachineWords
  import opened WireBytes
  import opened Receiver
  import opened Wire

  /** Nothing outside of a part of the buffer has changed. */
  twostate predicate Outside(a: array<uint8>, start: nat, end: nat)
    reads a
  {
    forall k :: 0 <= k < a.Length && !(start <= k < end) ==> a[k] == old(a[k])
  }

  /** `store_u16` and its like at an offset; everything else in the buffer stays. */
  method Store(a: array<uint8>, at: nat, v: nat, w: nat)
    requires at + w <= a.Length
    modifies a
    ensures a[at..at + w] == Le(v, w) && Outside(a, at, at + w)
  {
    var x := v;
    for i := 0 to w
      invariant Outside(a, at, at + w)
      invariant a[at..at + i] + Le(x, w - i) == Le(v, w)
    {
      ghost var done := a[at..at + i];
      a[at + i] := x % 256;
      assert a[at..at + i + 1] == done + [x % 256];
      assert Le(x, w - i) == [x % 256] + Le(x / 256, w - i - 1);
      x := x / 256;
    }
  }

  /** The buffer holds a record with these fields from `start` to `at`. */
  ghost predicate Record(a: array<uint8>, start: nat, at: nat, values: seq<nat>, widths: seq<nat>)
    reads a
  {
    |values| == |widths| && start <= at <= a.Length && a[start..at] == Pack(values, widths)
  }

  /** The next field of a record. */
  method StoreField(a: array<uint8>, start: nat, at: nat, v: nat, w: nat, ghost values: seq<nat>,
                    ghost widths: seq<nat>)
    returns (next: nat, ghost values': seq<nat>, ghost widths': seq<nat>)
    requires at + w <= a.Length && Record(a, start, at, values, widths)
    modifies a
    ensures next == at + w && values' == values + [v] && widths' == widths + [w]
    ensures Record(a, start, next, values', widths') && Outside(a, start, next)
  {
    Store(a, at, v, w);
    assert a[start..at] == old(a[start..at]);
    PackAppend(values, widths, v, w);
    assert a[start..at + w] == a[start..at] + a[at..at + w];
    next, values', widths' := at + w, values + [v], widths + [w];
  }

  /** `memcpy` into the buffer. */
  method Copy(a: array<uint8>, at: nat, bytes: Bytes)
    requires at + |bytes| <= a.Length
    modifies a
    ensures a[at..at + |bytes|] == bytes && Outside(a, at, at + |bytes|)
  {
    for i := 0 to |bytes|
      invariant Outside(a, at, at + |bytes|)
      invariant a[at..at + i] == bytes[..i]
    {
      a[at + i] := bytes[i];
    }
  }

  /** `write_data_frame_header` */
  method WriteFrameHeader(a: array<uint8>, at: nat, f: Frame)
    requires at + FRAME_HEADER <= a.Length
    modifies a
    ensures Record(a, at, at + FRAME_HEADER, FrameFields(f), FrameWidths()) && Outside(a, at, at + FRAME_HEADER)
  {
    var n := WriteFrameStart(a, at, f);
    n := WriteFrameMiddle(a, at, n, f);
    WriteFrameEnd(a, at, n, f);
  }

  /** Type, flags, header length and flow. */
  method WriteFrameStart(a: array<uint8>, at: nat, f: Frame) returns (n: nat)
    requires at + FRAME_HEADER <= a.Length
    modifies a
    ensures n == at + 6 && Record(a, at, n, FrameFields(f)[..4], FrameWidths()[..4]) && Outside(a, at, n)
  {
    ghost var v, w;
    n, v, w := StoreField(a, at, at, 1, 1, [], []);
    n, v, w := StoreField(a, at, n, FlagsOf(f.rel), 1, v, w);
    n, v, w := StoreField(a, at, n, FRAME_HEADER, 2, v, w);
    n, v, w := StoreField(a, at, n, f.flow, 2, v, w);
    assert v == FrameFields(f)[..4] && w == FrameWidths()[..4];
  }

  /** Payload length, message id and fragment index. */
  method WriteFrameMiddle(a: array<uint8>, at: nat, from: nat, f: Frame) returns (n: nat)
    requires from == at + 6 && at + FRAME_HEADER <= a.Length
    requires Record(a, at, from, FrameFields(f)[..4], FrameWidths()[..4])
    modifies a
    ensures n == at + 14 && Record(a, at, n, FrameFields(f)[..7], FrameWidths()[..7]) && Outside(a, at, n)
  {
    ghost var v, w;
    n, v, w := StoreField(a, at, from, |f.payload|, 2, FrameFields(f)[..4], FrameWidths()[..4]);
    n, v, w := StoreField(a, at, n, f.msgId, 4, v, w);
    n, v, w := StoreField(a, at, n, f.fragIndex, 2, v, w);
    assert v == FrameFields(f)[..7] && w == FrameWidths()[..7];
  }

  /** Fragment count, channel and its number. */
  method WriteFrameEnd(a: array<uint8>, at: nat, from: nat, f: Frame)
    requires from == at + 14 && at + FRAME_HEADER <= a.Length
    requires Record(a, at, from, FrameFields(f)[..7], FrameWidths()[..7])
    modifies a
    ensures Record(a, at, at + FRAME_HEADER, FrameFields(f), FrameWidths()) && Outside(a, at, at + FRAME_HEADER)
  {
    ghost var v, w;
    var n;
    n, v, w := StoreField(a, at, from, f.fragCount, 2, FrameFields(f)[..7], FrameWidths()[..7]);
    n, v, w := StoreField(a, at, n, f.channel, 2, v, w);
    n, v, w := StoreField(a, at, n, f.channelSeq, 2, v, w);
    assert v == FrameFields(f) && w == FrameWidths();
  }

  /** The fields of the packet header before the payload length. */
  function HeaderStart(p: Packet): (v: seq<nat>)
    ensures |v| == 6
  {
    [MAGIC + (if p.ackOnly then 1 else 0), p.connId, p.seq_, p.ackMax, p.ackBits, PACKET_HEADER]
  }

  const HeaderStartWidths: seq<nat> := [4, 8, 4, 4, 8, 2]

  lemma {:induction false} HeaderInTwo(p: Packet, payloadLen: nat)
    ensures Pack(HeaderFields(p, payloadLen), HeaderWidths()) ==
      Pack(HeaderStart(p), HeaderStartWidths) + Le(payloadLen, 2)
    ensures |Pack(HeaderStart(p), HeaderStartWidths)| == 30
  {
    assert HeaderFields(p, payloadLen) == HeaderStart(p) + [payloadLen];
    assert HeaderWidths() == HeaderStartWidths + [2];
    PackAppend(HeaderStart(p), HeaderStartWidths, payloadLen, 2);
  }

  /** The fields up to the header length. */
  method WriteHeaderStart(a: array<uint8>, p: Packet)
    requires PACKET_HEADER <= a.Length
    modifies a
    ensures a[..30] == Pack(HeaderStart(p), HeaderStartWidths)
  {
    ghost var v, w;
    var n;
    n, v, w := StoreField(a, 0, 0, MAGIC + (if p.ackOnly then 1 else 0), 4, [], []);
    n, v, w := StoreField(a, 0, n, p.connId, 8, v, w);
    n, v, w := StoreField(a, 0, n, p.seq_, 4, v, w);
    assert v == HeaderStart(p)[..3] && w == HeaderStartWidths[..3];
    WriteHeaderMiddle(a, n, p);
    assert a[..30] == a[0..30];
  }

  method WriteHeaderMiddle(a: array<uint8>, from: nat, p: Packet)
    requires from == 16 && PACKET_HEADER <= a.Length && Record(a, 0, from, HeaderStart(p)[..3], HeaderStartWidths[..3])
    modifies a
    ensures Record(a, 0, 30, HeaderStart(p), HeaderStartWidths)
  {
    ghost var v, w;
    var n;
    n, v, w := StoreField(a, 0, from, p.ackMax, 4, HeaderStart(p)[..3], HeaderStartWidths[..3]);
    n, v, w := StoreField(a, 0, n, p.ackBits, 8, v, w);
    n, v, w := StoreField(a, 0, n, PACKET_HEADER, 2, v, w);
    assert v == HeaderStart(p) && w == HeaderStartWidths;
  }

  lemma {:induction false} EncodeAppend(frames: seq<Frame>, f: Frame)
    ensures EncodeFrames(frames + [f]) == EncodeFrames(frames) + EncodeFrame(f)
  {
    if frames == [] {
      assert (frames + [f])[1..] == [];
    } else {
      assert (frames + [f])[1..] == frames[1..] + [f];
      EncodeAppend(frames[1..], f);
    }
  }

  /** The parts of a packet that `Append` leaves, or continues. */
  lemma {:induction false} PacketParts(p: Packet, b: Bytes)
    requires b == EncodePacket(p)
    ensures b[..30] == Pack(HeaderStart(p), HeaderStartWidths) && b[PACKET_HEADER..] == EncodeFrames(p.frames)
  {
    HeaderInTwo(p, |EncodeFrames(p.frames)|);
  }

  lemma {:induction false} PacketExtended(p: Packet, f: Frame, b: Bytes)
    requires var all := EncodeFrames(p.frames) + EncodeFrame(f); b == Pack(HeaderFields(p, |all|), HeaderWidths()) + all
    ensures b == EncodePacket(p.(frames := p.frames + [f]))
  {
    EncodeAppend(p.frames, f);
    assert HeaderFields(p.(frames := p.frames + [f]), |b| - PACKET_HEADER) == HeaderFields(p, |b| - PACKET_HEADER);
  }

  lemma Continued(data: Bytes, before: Bytes, more: Bytes)
    requires PACKET_HEADER <= |before| && |before| + |more| <= |data|
    requires data[..|before|] == before && data[|before|..|before| + |more|] == more
    ensures data[..30] == before[..30] && data[PACKET_HEADER..|before| + |more|] == before[PACKET_HEADER..] + more
  {
  }

  /** A slot of the send batch. */
  class PacketBuffer {
    const data: array<uint8>
    var len: nat
    var count: nat
    ghost var packet: Packet

    /** The buffer holds the encoding of the packet, which is at most as long as a packet may be. */
    ghost predicate Valid()
      reads this, data
    {
      len <= data.Length && data[..len] == EncodePacket(packet) && count == |packet.frames| <= MAX_REFS
    }

    constructor (mtu: uint16, p: Packet)
      requires PACKET_HEADER <= mtu && p.frames == []
      ensures Valid() && fresh(data) && packet == p && data.Length == mtu
    {
      data := new uint8[mtu];
      len, count, packet := PACKET_HEADER, 0, p;
      new;
      WriteHeaderStart(data, p);
      Store(data, 30, 0, 2);
      HeaderInTwo(p, 0);
      assert data[..32] == data[..30] + data[30..32];
    }

    /** `append_msg_to_batch_packet`: a frame that fits is added, another leaves the packet as it is. */
    method Append(f: Frame) returns (ok: bool)
      requires Valid()
      modifies this, data
      ensures Valid() && ok ==
        (|EncodePacket(old(packet))| + FRAME_HEADER + |f.payload| <= data.Length && |old(packet).frames| < MAX_REFS)
      ensures packet == if ok then old(packet).(frames := old(packet).frames + [f]) else old(packet)
    {
      if len + FRAME_HEADER + |f.payload| > data.Length || count >= MAX_REFS { return false; }
      ghost var next := packet.(frames := packet.frames + [f]);
      AddFrame(f, EncodeFrames(packet.frames) + EncodeFrame(f));
      PacketExtended(packet, f, data[..len]);
      assert data[..len] == EncodePacket(next);
      count, packet := count + 1, next;
      return true;
    }

    /** The frame and the new payload length. */
    method AddFrame(f: Frame, ghost all: Bytes)
      requires Valid() && len + FRAME_HEADER + |f.payload| <= data.Length
      requires all == EncodeFrames(packet.frames) + EncodeFrame(f)
      modifies this`len, data
      ensures len <= data.Length && data[..len] == Pack(HeaderFields(packet, |all|), HeaderWidths()) + all
    {
      ghost var before := data[..len];
      PacketParts(packet, before);
      WriteFrame(f, before);
      Continued(data[..], before, EncodeFrame(f));
      len := len + FRAME_HEADER + |f.payload|;
      Relength(all);
    }

    /** Header and payload of the frame, after what there is. */
    method WriteFrame(f: Frame, ghost before: Bytes)
      requires len + FRAME_HEADER + |f.payload| <= data.Length && data[..len] == before
      modifies data
      ensures data[..len] == before && data[len..len + FRAME_HEADER + |f.payload|] == EncodeFrame(f)
    {
      WriteFrameHeader(data, len, f);
      ghost var header := data[len..len + FRAME_HEADER];
      Copy(data, len + FRAME_HEADER, f.payload);
      assert data[len..len + FRAME_HEADER] == header;
      assert data[len..len + FRAME_HEADER + |f.payload|] ==
        data[len..len + FRAME_HEADER] + data[len + FRAME_HEADER..len + FRAME_HEADER + |f.payload|];
    }

    /** The payload length in the header is renewed; the bytes of header and payload around it stay. */
    method Relength(ghost all: Bytes)
      requires PACKET_HEADER + |all| == len <= data.Length
      requires data[..30] == Pack(HeaderStart(packet), HeaderStartWidths) && data[PACKET_HEADER..len] == all
      modifies data
      ensures data[..len] == Pack(HeaderFields(packet, |all|), HeaderWidths()) + all
    {
      Store(data, 30, len - PACKET_HEADER, 2);
      HeaderInTwo(packet, |all|);
      assert data[..30] == old(data[..30]) && data[PACKET_HEADER..len] == old(data[PACKET_HEADER..len]);
      assert data[..len] == data[..30] + data[30..32] + data[PACKET_HEADER..len];
    }
  }
}
