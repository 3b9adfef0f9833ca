/** `bk_plan`: the next time and number of every stream in two arrays, and the least of them taken each time. */
module Plan {
  import opened MachineWords
  import opened SlotMerge

  function Clamp(x: nat): uint64 { if x > UINT64_MAX then UINT64_MAX else x }

  /** `add_interval`: the sum stops at the maximum. */
  function AddInterval(a: uint64, b: uint64): (s: uint64)
    ensures s == Clamp(a + b)
  {
    if UINT64_MAX - a < b then UINT64_MAX else a + b
  }

  /** What is left until every stream has stopped. */
  function Left(next: seq<uint64>): nat {
    if next == [] then 0 else Left(next[..|next| - 1]) + (UINT64_MAX - next[|next| - 1])
  }

  lemma {:induction false} LeftShrinks(next: seq<uint64>, i: nat, t: uint64)
    requires i < |next| && next[i] < t
    ensures Left(next[i := t]) < Left(next)
    decreases |next|
  {
    var n: nat := |next| - 1;
    if i == n {
      assert next[i := t][..n] == next[..n];
    } else {
      assert next[i := t][..n] == next[..n][i := t];
      LeftShrinks(next[..n], i, t);
    }
  }

  /** The arrays hold the next time and number of every stream, up to the maximum of 64 bits. */
  ghost predicate Holds(streams: seq<Stream>, start: nat, emitted: seq<Slot>, sched: seq<uint64>, seqs: seq<uint64>) {
    && |sched| == |seqs| == |streams| && Intervals(streams) && IsMerge(streams, start, emitted)
    && (forall i: nat :: i < |streams| ==> sched[i] == Clamp(NextTime(streams, start, emitted, i)))
    && (forall i: nat :: i < |streams| ==> seqs[i] == Clamp(Count(emitted, i) + 1))
  }

  function SlotOf(s: Stream, i: nat, sched: uint64, seq_: uint64, measure: bool): Slot {
    Slot(sched, seq_, i, Flags(s.mustDeliver, s.broadcast, s.direction, measure), s.traffic)
  }

  /** Emitting the least slot. Its number is exact, since a time below the maximum has a number below it. */
  lemma EmitHolds(streams: seq<Stream>, start: nat, emitted: seq<Slot>, sched: seq<uint64>, seqs: seq<uint64>, i: nat,
                  measure: bool)
    requires Holds(streams, start, emitted, sched, seqs) && i < |streams| && sched[i] < UINT64_MAX
    requires forall j :: 0 <= j < |streams| ==> !Before(sched[j], j, sched[i], i)
    ensures Holds(streams, start, emitted + [SlotOf(streams[i], i, sched[i], seqs[i], measure)],
                  sched[i := AddInterval(sched[i], streams[i].interval)], seqs[i := AddInterval(seqs[i], 1)])
  {
    var slot := SlotOf(streams[i], i, sched[i], seqs[i], measure);
    assert streams[i] in streams;
    TimeAtLeast(start, streams[i].interval, Count(emitted, i));
    forall j: nat | j < |streams|
      ensures !Before(NextTime(streams, start, emitted, j), j, slot.sched, i)
    {
      assert sched[j] == Clamp(NextTime(streams, start, emitted, j));
    }
    MergeLast(streams, start, emitted, slot);
    forall j: nat | j < |streams|
      ensures Count(emitted + [slot], j) == Count(emitted, j) + (if j == i then 1 else 0)
    {
      CountLast(emitted, slot, j);
    }
  }

  class Plan {
    const streams: seq<Stream>
    const nextSched: array<uint64>
    const nextSeq: array<uint64>
    var measureStart: uint64
    var measureStop: uint64
    ghost const start: uint64
    ghost var emitted: seq<Slot>

    ghost predicate Valid()
      reads this, nextSched, nextSeq
    {
      nextSched != nextSeq && Holds(streams, start, emitted, nextSched[..], nextSeq[..])
    }

    /** `bk_plan_new`, after its checks of the streams. */
    constructor (streams: seq<Stream>, start: uint64, measureStart: uint64, measureStop: uint64)
      requires Intervals(streams)
      ensures Valid() && fresh(nextSched) && fresh(nextSeq) && emitted == []
      ensures this.streams == streams && this.start == start
      ensures this.measureStart == measureStart && this.measureStop == measureStop
    {
      this.streams := streams;
      this.measureStart, this.measureStop := measureStart, measureStop;
      nextSched := new uint64[|streams|](_ => start);
      nextSeq := new uint64[|streams|](_ => 1);
      this.start := start;
      emitted := [];
    }

    /** `bk_plan_set_window` */
    method SetWindow(measureStart: uint64, measureStop: uint64)
      requires Valid()
      modifies this`measureStart, this`measureStop
      ensures Valid() && this.measureStart == measureStart && this.measureStop == measureStop
    {
      this.measureStart, this.measureStop := measureStart, measureStop;
    }

    /** The index of the least next time, the first of them if there are several; none if all streams have stopped. */
    method Least() returns (best: Option<nat>)
      requires Valid()
      ensures best == None ==> forall i :: 0 <= i < |streams| ==> nextSched[i] == UINT64_MAX
      ensures best.Some? ==> best.value < |streams| && nextSched[best.value] < UINT64_MAX
      ensures best.Some? ==> forall j :: 0 <= j < |streams| ==>
        !Before(nextSched[j], j, nextSched[best.value], best.value)
    {
      best := None;
      var sched: uint64 := UINT64_MAX;
      for i := 0 to |streams|
        invariant best == None ==> sched == UINT64_MAX && forall j :: 0 <= j < i ==> nextSched[j] == UINT64_MAX
        invariant best.Some? ==> best.value < i && sched == nextSched[best.value] < UINT64_MAX
        invariant best.Some? ==> forall j :: 0 <= j < i ==> !Before(nextSched[j], j, sched, best.value)
      {
        if nextSched[i] < sched {
          sched := nextSched[i];
          best := Some(i);
        }
      }
    }

    /** `bk_plan_peek_ns` */
    method PeekNs() returns (t: uint64)
      requires Valid()
      ensures forall i: nat :: i < |streams| ==> t <= NextTime(streams, start, emitted, i)
      ensures t < UINT64_MAX ==> exists i: nat :: i < |streams| && t == NextTime(streams, start, emitted, i)
    {
      t := UINT64_MAX;
      for i := 0 to |streams|
        invariant forall j :: 0 <= j < i ==> t <= nextSched[j]
        invariant t < UINT64_MAX ==> exists j: nat :: j < i && t == nextSched[j]
      {
        if nextSched[i] < t { t := nextSched[i]; }
      }
    }

    /** `bk_plan_next`: the next slot of the merge if it is due; its measure flag says if it is in the window. */
    method Next(now: uint64) returns (out: Option<Slot>)
      requires Valid()
      modifies this`emitted, nextSched, nextSeq
      ensures Valid()
      ensures out == None ==> NothingDue(streams, start, emitted, now) && emitted == old(emitted)
      ensures out.Some? ==> emitted == old(emitted) + [out.value] && out.value.sched <= now
      ensures out.Some? ==> out.value.flags.measure == (measureStart <= out.value.sched < measureStop)
      ensures out.Some? ==> Left(nextSched[..]) < old(Left(nextSched[..]))
    {
      var best := Least();
      if best == None || nextSched[best.value] > now { return None; }
      var i := best.value;
      var measure := measureStart <= nextSched[i] < measureStop;
      var slot := SlotOf(streams[i], i, nextSched[i], nextSeq[i], measure);
      EmitHolds(streams, start, emitted, nextSched[..], nextSeq[..], i, measure);
      emitted := emitted + [slot];
      Advance(i);
      return Some(slot);
    }

    /** The stream's next time and number, both stopping at the maximum. */
    method Advance(i: nat)
      requires nextSched != nextSeq && i < |streams| == nextSched.Length == nextSeq.Length
      requires nextSched[i] < UINT64_MAX && 0 < streams[i].interval
      modifies nextSched, nextSeq
      ensures nextSched[..] == old(nextSched[..])[i := AddInterval(old(nextSched[i]), streams[i].interval)]
      ensures nextSeq[..] == old(nextSeq[..])[i := AddInterval(old(nextSeq[i]), 1)]
      ensures Left(nextSched[..]) < old(Left(nextSched[..]))
    {
      LeftShrinks(nextSched[..], i, AddInterval(nextSched[i], streams[i].interval));
      nextSched[i] := AddInterval(nextSched[i], streams[i].interval);
      if nextSeq[i] != UINT64_MAX { nextSeq[i] := nextSeq[i] + 1; }
    }

    /** The loop `while (bk_plan_next(plan, cutoff, &slot))`: the slots that are due, and no others. */
    method Drain(cutoff: uint64) returns (slots: seq<Slot>)
      requires Valid()
      modifies this`emitted, nextSched, nextSeq
      ensures Valid() && emitted == old(emitted) + slots && NothingDue(streams, start, emitted, cutoff)
      ensures forall e :: e in slots ==> e.sched <= cutoff && e.flags.measure == (measureStart <= e.sched < measureStop)
    {
      slots := [];
      while true
        invariant Valid() && emitted == old(emitted) + slots
        invariant forall e :: e in slots ==>
          e.sched <= cutoff && e.flags.measure == (measureStart <= e.sched < measureStop)
        decreases Left(nextSched[..])
      {
        var next := Next(cutoff);
        if next == None { return; }
        slots := slots + [next.value];
      }
    }
  }
}
