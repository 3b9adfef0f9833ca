/** The sending application's side of a connection as history: the messages `rudp_send` accepted, in
    order, and the frames they are cut into. The k-th accepted message has id k + 1. */
module SentMessages {
  import opened MachineWords
  import opened SerialNumbers
  import opened Receiver

  /** `number` is the sequence number of UNRELIABLE_SEQUENCED messages; the source stores 0 for the
      kinds that have none. */
  datatype Message = Message(rel: Reliability, flow: nat, channel: nat, number: uint16, payload: Bytes)

  predicate Admissible(cfg: Config, m: Message) {
    m.flow < cfg.maxFlows && m.channel < cfg.maxChannels && |m.payload| <= cfg.maxPayload
  }

  ghost predicate AllAdmissible(cfg: Config, accepted: seq<Message>) {
    && |accepted| < UINT32_MAX
    && forall j :: 0 <= j < |accepted| ==> Admissible(cfg, accepted[j])
  }

  // ----- fragments -------------------------------------------------------------------------------

  /** Number of fragments of a message of this length; an empty message has one empty fragment. */
  function FragCount(cfg: Config, len: nat): nat
    requires 0 < cfg.framePayload
  {
    if len == 0 then 1 else (len + cfg.framePayload - 1) / cfg.framePayload
  }

  function FragEnd(cfg: Config, len: nat, i: nat): nat {
    if (i + 1) * cfg.framePayload < len then (i + 1) * cfg.framePayload else len
  }

  lemma FragBounds(cfg: Config, len: nat, i: nat)
    requires 0 < cfg.framePayload && i < FragCount(cfg, len)
    ensures 0 <= i * cfg.framePayload <= FragEnd(cfg, len, i) <= len
    ensures FragEnd(cfg, len, i) <= i * cfg.framePayload + cfg.framePayload
    ensures i + 1 < FragCount(cfg, len) ==> FragEnd(cfg, len, i) == i * cfg.framePayload + cfg.framePayload
    ensures i + 1 == FragCount(cfg, len) ==> FragEnd(cfg, len, i) == len
    ensures len > 0 ==> i * cfg.framePayload < FragEnd(cfg, len, i)
  {
    var fp := cfg.framePayload;
    var n := FragCount(cfg, len);
    assert (i + 1) * fp == i * fp + fp;
    if len > 0 {
      CeilingDivision(len, fp, n);
      MulMonotone(i, n - 1, fp);
      if i + 1 < n { MulMonotone(i + 1, n - 1, fp); }
    }
  }

  lemma CeilingDivision(len: nat, d: nat, n: nat)
    requires 0 < len && 0 < d && n == (len + d - 1) / d
    ensures 0 < n && (n - 1) * d < len <= n * d
  {
    var t := len + d - 1;
    assert t == n * d + t % d;
    assert (n - 1) * d == n * d - d;
  }

  lemma MulMonotone(a: nat, b: nat, d: nat)
    requires a <= b
    ensures a * d <= b * d
  {
    if a < b { assert b * d == a * d + (b - a) * d; }
  }

  lemma MulStrict(a: nat, b: nat, d: nat)
    requires a < b
    ensures a * d + d <= b * d
  {
    MulMonotone(a + 1, b, d);
    assert (a + 1) * d == a * d + d;
  }

  function FragPayload(cfg: Config, payload: Bytes, i: nat): (p: Bytes)
    requires 0 < cfg.framePayload && i < FragCount(cfg, |payload|)
    ensures |p| <= cfg.framePayload
  {
    FragBounds(cfg, |payload|, i);
    payload[i * cfg.framePayload..FragEnd(cfg, |payload|, i)]
  }

  /** A message within the configured size needs at most 256 fragments. */
  lemma FragCountBound(cfg: Config, len: nat)
    requires ValidConfig(cfg) && len <= cfg.maxPayload
    ensures 1 <= FragCount(cfg, len) <= MAX_FRAGS
  {
    if len > 0 {
      var n := FragCount(cfg, len);
      CeilingDivision(len, cfg.framePayload, n);
      if n > MAX_FRAGS {
        MulMonotone(MAX_FRAGS, n - 1, cfg.framePayload);
      }
    }
  }

  // ----- channel positions -----------------------------------------------------------------------

  predicate OrderedOnChannel(m: Message, channel: nat) {
    m.rel.ReliableOrdered? && m.channel == channel
  }

  /** Indices of the ordered messages accepted on a channel, in order of acceptance. */
  function OrderedOn(accepted: seq<Message>, channel: nat): (r: seq<nat>)
    ensures forall k :: 0 <= k < |r| ==> r[k] < |accepted| && OrderedOnChannel(accepted[r[k]], channel)
    ensures |r| <= |accepted|
  {
    if accepted == [] then []
    else
      var n := |accepted| - 1;
      OrderedOn(accepted[..n], channel) + (if OrderedOnChannel(accepted[n], channel) then [n] else [])
  }

  /** The unbounded channel sequence number of message j: how many ordered messages precede it. */
  function Position(accepted: seq<Message>, j: nat): nat
    requires j < |accepted|
  {
    |OrderedOn(accepted[..j], accepted[j].channel)|
  }

  /** Acceptance extends the list of a channel and leaves its beginning alone. */
  lemma {:induction false} OrderedOnPrefix(accepted: seq<Message>, j: nat, channel: nat)
    requires j <= |accepted|
    ensures OrderedOn(accepted[..j], channel) <= OrderedOn(accepted, channel)
    decreases |accepted|
  {
    if j == |accepted| {
      assert accepted[..j] == accepted;
    } else {
      var n := |accepted| - 1;
      assert accepted[..n][..j] == accepted[..j];
      OrderedOnPrefix(accepted[..n], j, channel);
    }
  }

  /** The message at its position in the channel's list is the message itself. */
  lemma {:induction false} PositionFinds(accepted: seq<Message>, j: nat)
    requires j < |accepted| && accepted[j].rel.ReliableOrdered?
    ensures var r := OrderedOn(accepted, accepted[j].channel);
      Position(accepted, j) < |r| && r[Position(accepted, j)] == j
  {
    var channel := accepted[j].channel;
    var upto := accepted[..j + 1];
    assert upto[..j] == accepted[..j];
    assert OrderedOn(upto, channel) == OrderedOn(upto[..j], channel) + [j];
    OrderedOnPrefix(accepted, j + 1, channel);
  }

  /** Conversely, the k-th entry of a channel's list has position k. */
  lemma {:induction false} EntryPosition(accepted: seq<Message>, channel: nat, k: nat)
    requires k < |OrderedOn(accepted, channel)|
    ensures Position(accepted, OrderedOn(accepted, channel)[k]) == k
    decreases |accepted|
  {
    var n := |accepted| - 1;
    var before := OrderedOn(accepted[..n], channel);
    if k < |before| {
      EntryPosition(accepted[..n], channel, k);
      var j := before[k];
      assert accepted[..n][..j] == accepted[..j];
    }
  }

  lemma PositionStable(accepted: seq<Message>, m: Message, j: nat)
    requires j < |accepted|
    ensures Position(accepted + [m], j) == Position(accepted, j)
  {
    assert (accepted + [m])[..j] == accepted[..j];
  }

  // ----- frames ----------------------------------------------------------------------------------

  function ChannelSeqOf(accepted: seq<Message>, j: nat): uint16
    requires j < |accepted|
  {
    if accepted[j].rel.ReliableOrdered? then Wrap16(Position(accepted, j)) else accepted[j].number
  }

  /** Fragment i of message j as it is written into a packet. */
  function FrameOf(cfg: Config, accepted: seq<Message>, j: nat, i: nat): Frame
    requires 0 < cfg.framePayload && j < |accepted| < UINT32_MAX
    requires i < FragCount(cfg, |accepted[j].payload|)
  {
    var m := accepted[j];
    Frame(m.rel, m.flow, j + 1, i, FragCount(cfg, |m.payload|), m.channel, ChannelSeqOf(accepted, j),
          FragPayload(cfg, m.payload, i))
  }

  /** The whole message as `deliver_frame` gets it. */
  function WholeOf(cfg: Config, accepted: seq<Message>, j: nat): Frame
    requires 0 < cfg.framePayload && j < |accepted| < UINT32_MAX
  {
    var m := accepted[j];
    Frame(m.rel, m.flow, j + 1, 0, FragCount(cfg, |m.payload|), m.channel, ChannelSeqOf(accepted, j),
          m.payload)
  }

  /** An unfragmented message travels whole. */
  lemma SingleFragment(cfg: Config, accepted: seq<Message>, j: nat)
    requires ValidConfig(cfg) && j < |accepted| < UINT32_MAX
    requires FragCount(cfg, |accepted[j].payload|) == 1
    ensures FrameOf(cfg, accepted, j, 0) == WholeOf(cfg, accepted, j)
  {
    FragBounds(cfg, |accepted[j].payload|, 0);
    assert 0 * cfg.framePayload == 0;
    assert accepted[j].payload[0..|accepted[j].payload|] == accepted[j].payload;
  }
}
