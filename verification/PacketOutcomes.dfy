/** What the receiver does with a packet: its frames one after the other, and when its number is acknowledged. */
module PacketOutcomes {
  import opened MachineWords
  import opened Receiver
  import opened SerialNumbers
  import opened EndToEnd
  import AckTracker
  import Session

  /** Each frame is processed in the state those before it left; which of them counted as handled. */
  ghost predicate Chain(cfg: Config, c: nat, frames: seq<Frame>, now: uint64, states: seq<Rx>, handled: seq<bool>) {
    && |states| == |frames| + 1 && |handled| == |frames|
    && forall k :: 0 <= k < |frames| ==>
         && Shape(cfg, states[k]) && c < |states[k].conns|
         && (states[k + 1], handled[k]) == Processed(cfg, states[k], c, frames[k], now)
  }

  lemma ChainTail(cfg: Config, c: nat, frames: seq<Frame>, now: uint64, states: seq<Rx>, handled: seq<bool>)
    requires Chain(cfg, c, frames, now, states, handled) && frames != []
    ensures Chain(cfg, c, frames[1..], now, states[1..], handled[1..])
  {
    forall k | 0 <= k < |frames[1..]|
      ensures Shape(cfg, states[1..][k]) && c < |states[1..][k].conns|
      ensures (states[1..][k + 1], handled[1..][k]) == Processed(cfg, states[1..][k], c, frames[1..][k], now)
    {
      assert (states[k + 2], handled[k + 1]) == Processed(cfg, states[k + 1], c, frames[k + 1], now);
    }
  }

  ghost predicate All(handled: seq<bool>) { forall k :: 0 <= k < |handled| ==> handled[k] }

  lemma AllTail(handled: seq<bool>)
    requires handled != []
    ensures All(handled) <==> handled[0] && All(handled[1..])
  {
    assert handled == [handled[0]] + handled[1..];
  }

  lemma {:induction false} FramesInTurn(cfg: Config, c: nat, frames: seq<Frame>, now: uint64, states: seq<Rx>,
                                        handled: seq<bool>)
    requires Chain(cfg, c, frames, now, states, handled) && Shape(cfg, states[0]) && c < |states[0].conns|
    ensures Handled(cfg, states[0], c, frames, now) == (states[|frames|], All(handled))
    decreases |frames|
  {
    if frames != [] {
      ChainTail(cfg, c, frames, now, states, handled);
      assert (states[0 + 1], handled[0]) == Processed(cfg, states[0], c, frames[0], now);
      FramesInTurn(cfg, c, frames[1..], now, states[1..], handled[1..]);
      AllTail(handled);
    }
  }

  /** A packet's number is acknowledged exactly if it has one, every frame was handled, and one is reliable or packets
      without reliable frames are acknowledged too; nothing but the frames changes anything else. */
  lemma {:induction false} PacketOutcome(q: Session.Params, p: Sent, now: uint64, states: seq<Rx>, handled: seq<bool>)
    requires Chain(q.cfg, q.conn, p.frames, now, states, handled)
    requires Shape(q.cfg, states[0]) && q.conn < |states[0].conns|
    ensures var rx1, rx' := states[|p.frames|], AfterPacket(q, states[0], p, now);
      && q.conn < |rx1.conns|
      && if p.number != 0 && (forall k :: 0 <= k < |handled| ==> handled[k])
            && (q.skipUnreliableAcks ==> exists k :: 0 <= k < |p.frames| && IsReliable(p.frames[k].rel))
         then rx' == rx1.(conns := rx1.conns[q.conn := rx1.conns[q.conn].(
                            ack := AckTracker.Inserted(rx1.conns[q.conn].ack, Wrap32(p.number)).0)])
         else rx' == rx1
  {
    FramesInTurn(q.cfg, q.conn, p.frames, now, states, handled);
  }
}
