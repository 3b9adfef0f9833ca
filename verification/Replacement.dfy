/** What `rudp_send` does to the messages that are queued already, and what it puts beside them, in the fields of the
    messages. */
module Replacement {
  import opened MachineWords
  import opened Receiver
  import opened SentMessages
  import opened MessagePool
  import opened PoolTallies
  import opened Sender
  import opened SenderSend
  import opened SenderSteps

  // ----- who is replaced -------------------------------------------------------------------------

  /** A queued message that a submission on connection c with these options makes obsolete: both are unreliable and of
      one kind, on one connection, flow and channel, with one replace key, which may be zero for the sequenced kind
      only. */
  predicate Obsolete(m: Msg, c: nat, o: SendOpts) {
    && (o.rel == UnreliableSequenced || (o.rel == Unreliable && o.replaceKey != 0))
    && m.owner == c && m.rel == o.rel && m.flow == o.flow && m.channel == o.channel && m.replaceKey == o.replaceKey
  }

  /** The slots vs hold the fragments of the new message, in order. */
  predicate HoldFragments(cfg: TxConfig, tx: Tx, tx': Tx, c: nat, data: Bytes, o: SendOpts, vs: seq<nat>)
    requires c < |tx.conns| && 0 < cfg.framePayload
  {
    && |vs| == FragCount(Shared(cfg), |data|)
    && forall i :: 0 <= i < |vs| ==>
         && vs[i] < |tx'.msgs| && vs[i] < |tx'.place|
         && tx'.place[vs[i]] == Queued(if IsReliable(o.rel) then Rel else Unrel)
         && var m := tx'.msgs[vs[i]];
         && m.owner == c && m.rel == o.rel && m.flow == o.flow && m.channel == o.channel
         && m.priority == o.priority && m.replaceKey == o.replaceKey
         && m.msgId == tx.conns[c].nextMsgId && m.fragIndex == i && m.fragCount == |vs|
         && m.payload == FragPayload(Shared(cfg), data, i)
  }

  /** Slot w before and after: if its message is obsolete the slot is free or used for the new message, and otherwise
      it is as it was. */
  predicate Outcome(tx: Tx, tx': Tx, c: nat, o: SendOpts, vs: seq<nat>, w: nat)
    requires w < |tx.msgs| == |tx.place| == |tx'.msgs| == |tx'.place|
  {
    if tx.place[w].Queued? && Obsolete(tx.msgs[w], c, o) then w in vs || tx'.place[w] == Free
    else if tx.place[w] != Free then w !in vs && tx'.place[w] == tx.place[w] && tx'.msgs[w] == tx.msgs[w]
    else w in vs || tx'.place[w] == Free
  }

  /** A slot is in the unreliable ring of the flow and replaced exactly if its message is queued and obsolete. */
  lemma {:induction false} ReplacedMeans(cfg: TxConfig, tx: Tx, c: nat, o: SendOpts, w: nat)
    requires Idle(cfg, tx) && ListValid(tx, UnrelRing(tx, c, o)) && w < |tx.msgs|
    ensures w in Replaced(tx, UnrelRing(tx, c, o), o) <==> tx.place[w].Queued? && Obsolete(tx.msgs[w], c, o)
  {
    if w in UnrelRing(tx, c, o) { InBoxMeans(cfg, tx, Ring(c, o.flow, Unrel), w); }
    assert MsgOk(cfg.maxConns, cfg.maxFlows, tx.msgs[w], tx.place[w]);
    if tx.place[w].Queued? && Obsolete(tx.msgs[w], c, o) {
      assert Home(cfg.slots, tx.msgs[w], tx.place[w]) == Some(Ring(c, o.flow, Unrel));
    }
  }

  /** After an accepted submission, a message that was queued is gone exactly if it is obsolete; every other message is
      where it was; and the fragments of the new one are queued. */
  lemma SendOutcome(cfg: TxConfig, tx: Tx, c: nat, data: Bytes, o: SendOpts, now: uint64)
    requires Idle(cfg, tx) && c < cfg.maxConns && Send(cfg, tx, c, data, o, now).1 == Accepted
    ensures var tx' := Send(cfg, tx, c, data, o, now).0;
      && |tx.msgs| == |tx.place| == |tx'.msgs| == |tx'.place|
      && exists vs :: HoldFragments(cfg, tx, tx', c, data, o, vs)
                      && forall w :: 0 <= w < |tx.msgs| ==> Outcome(tx, tx', c, o, vs, w)
  {
    var tx' := Send(cfg, tx, c, data, o, now).0;
    var vs :| SubmitEffect(cfg, tx, tx', c, data, o, now, vs);
    FragmentsHeld(cfg, tx, tx', c, data, o, now, vs);
    forall w | 0 <= w < |tx.msgs|
      ensures Outcome(tx, tx', c, o, vs, w)
    {
      ReplacedMeans(cfg, tx, c, o, w);
      SlotOutcome(cfg, tx, tx', c, data, o, now, vs, w);
    }
  }

  lemma FragmentsHeld(cfg: TxConfig, tx: Tx, tx': Tx, c: nat, data: Bytes, o: SendOpts, now: uint64, vs: seq<nat>)
    requires SubmitEffect(cfg, tx, tx', c, data, o, now, vs)
    ensures HoldFragments(cfg, tx, tx', c, data, o, vs)
  {
    var ms := FragMsgs(cfg, tx.conns[c], c, data, o, now);
    forall i | 0 <= i < |vs|
      ensures tx'.msgs[vs[i]] == FragMsg(cfg, tx.conns[c], c, data, o, now, i)
    {
      assert tx'.msgs[vs[i]] == ms[i];
    }
  }

  lemma SlotOutcome(cfg: TxConfig, tx: Tx, tx': Tx, c: nat, data: Bytes, o: SendOpts, now: uint64, vs: seq<nat>, w: nat)
    requires Core(cfg, tx) && SubmitEffect(cfg, tx, tx', c, data, o, now, vs) && w < |tx.msgs|
    requires w in Replaced(tx, UnrelRing(tx, c, o), o) <==> tx.place[w].Queued? && Obsolete(tx.msgs[w], c, o)
    ensures Outcome(tx, tx', c, o, vs, w)
  {
    if w in vs {
      var i :| 0 <= i < |vs| && vs[i] == w;
      assert tx.place[vs[i]].Free? || vs[i] in Replaced(tx, UnrelRing(tx, c, o), o);
    }
  }

  /** What does not become obsolete stays queued. */
  lemma FragmentsStay(cfg: TxConfig, tx: Tx, tx1: Tx, tx2: Tx, c: nat, data: Bytes, o: SendOpts, vs: seq<nat>,
                      o2: SendOpts, vs2: seq<nat>)
    requires c < |tx.conns| && 0 < cfg.framePayload && HoldFragments(cfg, tx, tx1, c, data, o, vs)
    requires |tx1.msgs| == |tx1.place| == |tx2.msgs| == |tx2.place|
    requires forall w :: 0 <= w < |tx1.msgs| ==> Outcome(tx1, tx2, c, o2, vs2, w)
    requires o.flow != o2.flow || o.channel != o2.channel || o.rel != o2.rel || o.replaceKey != o2.replaceKey
    ensures HoldFragments(cfg, tx, tx2, c, data, o, vs)
  {
    forall i | 0 <= i < |vs|
      ensures tx2.msgs[vs[i]] == tx1.msgs[vs[i]] && tx2.place[vs[i]] == tx1.place[vs[i]]
    {
      assert Outcome(tx1, tx2, c, o2, vs2, vs[i]);
    }
  }

  /** Two accepted submissions on one connection that differ in flow, channel, kind or replace key: the fragments of
      the first are queued still after the second. */
  lemma DifferentStay(cfg: TxConfig, tx: Tx, tx1: Tx, tx2: Tx, c: nat, data: Bytes, o: SendOpts, now: uint64,
                      data2: Bytes, o2: SendOpts, now2: uint64)
    requires Idle(cfg, tx) && c < cfg.maxConns && Send(cfg, tx, c, data, o, now) == (tx1, Accepted)
    requires Idle(cfg, tx1) && Send(cfg, tx1, c, data2, o2, now2) == (tx2, Accepted)
    requires o.flow != o2.flow || o.channel != o2.channel || o.rel != o2.rel || o.replaceKey != o2.replaceKey
    ensures c < |tx.conns| && 0 < cfg.framePayload && exists vs :: HoldFragments(cfg, tx, tx2, c, data, o, vs)
  {
    SendOutcome(cfg, tx, c, data, o, now);
    SendOutcome(cfg, tx1, c, data2, o2, now2);
    var vs :| HoldFragments(cfg, tx, tx1, c, data, o, vs);
    var vs2 :| HoldFragments(cfg, tx1, tx2, c, data2, o2, vs2) &&
               forall w :: 0 <= w < |tx1.msgs| ==> Outcome(tx1, tx2, c, o2, vs2, w);
    FragmentsStay(cfg, tx, tx1, tx2, c, data, o, vs, o2, vs2);
  }

  // ----- when it is too late ---------------------------------------------------------------------

  /** A time some milliseconds after now has come; the sum is cut at the largest time there is. */
  predicate Passed(now: uint64, ms: nat, later: uint64) { later >= now + ms * 1_000_000 || later == UINT64_MAX }

  /** A message may have a delay of its own, and its flow one; it is dropped at the head of its ring exactly if one of
      them has passed since it was submitted, and never if it is ordered and reliable. */
  lemma ExpiresWhen(cfg: TxConfig, cn: ConnTx, c: nat, data: Bytes, o: SendOpts, now: uint64, i: nat, later: uint64)
    requires ValidTx(cfg) && o.flow < |cn.flows| && o.channel < |cn.orderedSeq| && i < FragCount(Shared(cfg), |data|)
    ensures HeadExpired(FragMsg(cfg, cn, c, data, o, now, i), later) <==>
            && o.rel != ReliableOrdered
            && ((o.deadlineMs != 0 && Passed(now, o.deadlineMs, later))
                || (cn.flows[o.flow].maxDelayMs != 0 && Passed(now, cn.flows[o.flow].maxDelayMs, later)))
  {
  }
}
