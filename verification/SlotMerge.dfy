/** The order in which a plan emits its slots. Each stream is an arithmetic progression of times; a merge takes the
    earliest remaining slot each time, the stream of the lower index first if two are due together. */
module SlotMerge {
  import opened MachineWords
  import opened Arithmetic

  /** `bk_stream` */
  datatype Stream = Stream(interval: uint64, traffic: uint8, direction: nat, mustDeliver: bool, broadcast: bool)

  datatype Flags = Flags(mustDeliver: bool, broadcast: bool, direction: nat, measure: bool)

  /** `bk_slot` */
  datatype Slot = Slot(sched: uint64, seq_: uint64, stream: nat, flags: Flags, traffic: uint8)

  // ----- one stream ------------------------------------------------------------------------------

  /** The time of the slot with number k, counting from 0. */
  function Time(start: nat, interval: nat, k: nat): (t: nat)
    ensures t >= start
  {
    if k == 0 then start else Time(start, interval, k - 1) + interval
  }

  lemma {:induction false} TimeIs(start: nat, interval: nat, k: nat)
    ensures Time(start, interval, k) == start + k * interval
  {
    if k > 0 {
      TimeIs(start, interval, k - 1);
      assert k * interval == (k - 1) * interval + interval;
    }
  }

  lemma {:induction false} TimeGrows(start: nat, interval: nat, j: nat, k: nat)
    requires 0 < interval && j < k
    ensures Time(start, interval, j) < Time(start, interval, k)
    decreases k
  {
    if j < k - 1 { TimeGrows(start, interval, j, k - 1); }
  }

  lemma {:induction false} TimeAtLeast(start: nat, interval: nat, k: nat)
    requires 0 < interval
    ensures k <= Time(start, interval, k)
  {
    if k > 0 { TimeAtLeast(start, interval, k - 1); }
  }

  // ----- the merge -------------------------------------------------------------------------------

  predicate Before(t: nat, i: nat, u: nat, j: nat) { t < u || (t == u && i < j) }

  /** How many slots of a stream were emitted. */
  function Count(emitted: seq<Slot>, i: nat): nat {
    if emitted == [] then 0
    else Count(emitted[..|emitted| - 1], i) + (if emitted[|emitted| - 1].stream == i then 1 else 0)
  }

  /** The time of the next slot of a stream. */
  function NextTime(streams: seq<Stream>, start: nat, emitted: seq<Slot>, i: nat): nat
    requires i < |streams|
  {
    Time(start, streams[i].interval, Count(emitted, i))
  }

  predicate Describes(e: Slot, s: Stream) {
    && e.traffic == s.traffic && e.flags.mustDeliver == s.mustDeliver
    && e.flags.broadcast == s.broadcast && e.flags.direction == s.direction
  }

  /** The slot is the next one of its stream, and no stream has an earlier one. */
  predicate IsLeast(streams: seq<Stream>, start: nat, before: seq<Slot>, e: Slot) {
    && e.stream < |streams| && Describes(e, streams[e.stream])
    && e.sched == NextTime(streams, start, before, e.stream) < UINT64_MAX
    && e.seq_ == Count(before, e.stream) + 1
    && forall j: nat :: j < |streams| ==> !Before(NextTime(streams, start, before, j), j, e.sched, e.stream)
  }

  predicate IsMerge(streams: seq<Stream>, start: nat, emitted: seq<Slot>) {
    emitted == [] ||
    var n := |emitted| - 1;
    IsMerge(streams, start, emitted[..n]) && IsLeast(streams, start, emitted[..n], emitted[n])
  }

  /** No slot is left that is due; a time that does not fit below the maximum never is. */
  predicate NothingDue(streams: seq<Stream>, start: nat, emitted: seq<Slot>, now: int) {
    forall i: nat :: i < |streams| ==>
      NextTime(streams, start, emitted, i) > now || NextTime(streams, start, emitted, i) >= UINT64_MAX
  }

  predicate Intervals(streams: seq<Stream>) { forall s :: s in streams ==> 0 < s.interval }

  lemma {:induction false} CountLast(emitted: seq<Slot>, e: Slot, i: nat)
    ensures Count(emitted + [e], i) == Count(emitted, i) + (if e.stream == i then 1 else 0)
  {
    assert (emitted + [e])[..|emitted|] == emitted;
  }

  lemma {:induction false} MergeLast(streams: seq<Stream>, start: nat, emitted: seq<Slot>, e: Slot)
    requires IsMerge(streams, start, emitted) && IsLeast(streams, start, emitted, e)
    ensures IsMerge(streams, start, emitted + [e])
  {
    assert (emitted + [e])[..|emitted|] == emitted;
  }

  /** Everything emitted is before everything that remains. */
  lemma {:induction false} EmittedBeforeRest(streams: seq<Stream>, start: nat, emitted: seq<Slot>, a: nat, j: nat)
    requires IsMerge(streams, start, emitted) && Intervals(streams) && a < |emitted| && j < |streams|
    ensures Before(emitted[a].sched, emitted[a].stream, NextTime(streams, start, emitted, j), j)
    decreases |emitted|
  {
    var n: nat := |emitted| - 1;
    var front, e := emitted[..n], emitted[n];
    assert streams[j] in streams;
    if a < n { EmittedBeforeRest(streams, start, front, a, j); }
    assert !Before(NextTime(streams, start, front, j), j, e.sched, e.stream);
    if e.stream == j { TimeGrows(start, streams[j].interval, Count(front, j), Count(emitted, j)); }
  }

  /** The slots are emitted in the order of their times, ties in the order of the streams. */
  lemma {:induction false} MergeOrdered(streams: seq<Stream>, start: nat, emitted: seq<Slot>)
    requires IsMerge(streams, start, emitted) && Intervals(streams)
    ensures forall a, b :: 0 <= a < b < |emitted| ==>
      Before(emitted[a].sched, emitted[a].stream, emitted[b].sched, emitted[b].stream)
  {
    forall a, b | 0 <= a < b < |emitted|
      ensures Before(emitted[a].sched, emitted[a].stream, emitted[b].sched, emitted[b].stream)
    {
      MergePrefix(streams, start, emitted, b + 1);
      assert emitted[..b + 1][..b] == emitted[..b];
      EmittedBeforeRest(streams, start, emitted[..b], a, emitted[b].stream);
    }
  }

  lemma {:induction false} MergePrefix(streams: seq<Stream>, start: nat, emitted: seq<Slot>, m: nat)
    requires IsMerge(streams, start, emitted) && m <= |emitted|
    ensures IsMerge(streams, start, emitted[..m])
    decreases |emitted|
  {
    if m == |emitted| {
      assert emitted[..m] == emitted;
    } else {
      MergePrefix(streams, start, emitted[..|emitted| - 1], m);
      assert emitted[..|emitted| - 1][..m] == emitted[..m];
    }
  }

  /** The slot of stream i with number k. */
  predicate IsSlot(e: Slot, start: nat, s: Stream, i: nat, k: nat) {
    e.stream == i && e.seq_ == k + 1 && e.sched == Time(start, s.interval, k) && Describes(e, s)
  }

  /** What was emitted of a stream are its first slots. */
  lemma {:induction false} MergeHas(streams: seq<Stream>, start: nat, emitted: seq<Slot>, i: nat, k: nat)
    requires IsMerge(streams, start, emitted) && i < |streams|
    ensures k < Count(emitted, i) <==> exists e :: e in emitted && IsSlot(e, start, streams[i], i, k)
    decreases |emitted|
  {
    if emitted != [] {
      var n := |emitted| - 1;
      var front, e := emitted[..n], emitted[n];
      MergeHas(streams, start, front, i, k);
      assert emitted == front + [e];
      assert forall x :: x in emitted <==> x in front || x == e;
      if e.stream == i && k == Count(front, i) { assert IsSlot(e, start, streams[i], i, k); }
    }
  }

  /** When nothing is due any more and nothing later was emitted, exactly the slots up to now have been emitted. */
  lemma {:induction false} DueExactly(streams: seq<Stream>, start: nat, emitted: seq<Slot>, now: int, i: nat, k: nat)
    requires IsMerge(streams, start, emitted) && Intervals(streams) && i < |streams|
    requires NothingDue(streams, start, emitted, now) && now < UINT64_MAX
    requires forall e :: e in emitted && e.stream == i ==> e.sched <= now
    ensures Time(start, streams[i].interval, k) <= now <==>
      exists e :: e in emitted && IsSlot(e, start, streams[i], i, k)
  {
    MergeHas(streams, start, emitted, i, k);
    assert streams[i] in streams;
    var c := Count(emitted, i);
    if k < c {
      var e :| e in emitted && IsSlot(e, start, streams[i], i, k);
      assert e.sched <= now;
    } else {
      assert NextTime(streams, start, emitted, i) > now;
      if c < k { TimeGrows(start, streams[i].interval, c, k); }
    }
  }

  // ----- how many slots lie in a window ----------------------------------------------------------

  /** Slots with numbers below n in [lo, hi). */
  function Within(start: nat, interval: nat, lo: int, hi: int, n: nat): nat {
    if n == 0 then 0
    else Within(start, interval, lo, hi, n - 1) + (if lo <= Time(start, interval, n - 1) < hi then 1 else 0)
  }

  /** Emitted slots of a stream in [lo, hi). */
  function EmittedWithin(emitted: seq<Slot>, i: nat, lo: int, hi: int): nat {
    if emitted == [] then 0
    else
      var e := emitted[|emitted| - 1];
      EmittedWithin(emitted[..|emitted| - 1], i, lo, hi) + (if e.stream == i && lo <= e.sched < hi then 1 else 0)
  }

  lemma {:induction false} EmittedAreWithin(streams: seq<Stream>, start: nat, emitted: seq<Slot>, i: nat, lo: int,
                                            hi: int)
    requires IsMerge(streams, start, emitted) && i < |streams|
    ensures EmittedWithin(emitted, i, lo, hi) == Within(start, streams[i].interval, lo, hi, Count(emitted, i))
  {
    if emitted != [] { EmittedAreWithin(streams, start, emitted[..|emitted| - 1], i, lo, hi); }
  }

  /** How many of the first n slots are before x: the first ones. */
  function Below(start: nat, interval: nat, x: int, n: nat): (b: nat)
    requires 0 < interval
    ensures b <= n
    ensures b > 0 ==> Time(start, interval, b - 1) < x
    ensures b < n ==> Time(start, interval, b) >= x
  {
    if n == 0 then 0
    else if Time(start, interval, n - 1) < x then n
    else Below(start, interval, x, n - 1)
  }

  lemma {:induction false} WithinIsDifference(start: nat, interval: nat, lo: int, hi: int, n: nat)
    requires 0 < interval && lo <= hi
    ensures Below(start, interval, lo, n) <= Below(start, interval, hi, n)
    ensures Within(start, interval, lo, hi, n) == Below(start, interval, hi, n) - Below(start, interval, lo, n)
  {
    if n > 0 {
      WithinIsDifference(start, interval, lo, hi, n - 1);
      var t := Time(start, interval, n - 1);
      if t < lo {
        AllBelow(start, interval, lo, n - 1);
        AllBelow(start, interval, hi, n - 1);
      } else if t < hi {
        AllBelow(start, interval, hi, n - 1);
      }
    }
  }

  /** If the next slot is before x then all are. */
  lemma {:induction false} AllBelow(start: nat, interval: nat, x: int, n: nat)
    requires 0 < interval && Time(start, interval, n) < x
    ensures Below(start, interval, x, n) == n
  {
  }

  /** The slots a stream has between two times, if none before the second is left out. */
  lemma {:induction false} WindowBounds(start: nat, interval: nat, lo: int, hi: int, n: nat)
    requires 0 < interval && lo <= hi && Time(start, interval, n) >= hi
    ensures var c := Within(start, interval, lo, hi, n);
      && (c > 0 ==> (c - 1) * interval < hi - lo)
      && (start <= lo ==> hi - lo < (c + 1) * interval)
      && (start >= lo ==> hi - start <= c * interval && (c > 0 ==> (c - 1) * interval < hi - start))
  {
    var a, b := Below(start, interval, lo, n), Below(start, interval, hi, n);
    WithinIsDifference(start, interval, lo, hi, n);
    CountBounds(start, interval, lo, hi, a, b, b - a);
  }

  /** Slots a to b - 1 are those of the window, c many. */
  lemma CountBounds(start: nat, interval: nat, lo: int, hi: int, a: nat, b: nat, c: nat)
    requires 0 < interval && lo <= hi && c == b - a && hi <= Time(start, interval, b)
    requires a > 0 ==> Time(start, interval, a - 1) < lo
    requires a < b ==> lo <= Time(start, interval, a) && Time(start, interval, b - 1) < hi
    ensures c > 0 ==> (c - 1) * interval < hi - lo
    ensures start <= lo ==> hi - lo < (c + 1) * interval
    ensures start >= lo ==> hi - start <= c * interval && (c > 0 ==> (c - 1) * interval < hi - start)
  {
    TimeIs(start, interval, b);
    if b > a { FirstToLast(start, interval, lo, hi, a, b); }
    if a > 0 {
      OneBefore(start, interval, lo, hi, a, b);
    } else {
      Distribute(b + 1, b, interval);
    }
  }

  /** The slots a to b - 1 are in the window. */
  lemma FirstToLast(start: nat, interval: nat, lo: int, hi: int, a: nat, b: nat)
    requires a < b && lo <= Time(start, interval, a) && Time(start, interval, b - 1) < hi
    ensures (b - a - 1) * interval < hi - lo
    ensures start >= lo && a == 0 ==> (b - a - 1) * interval < hi - start
  {
    TimeIs(start, interval, a);
    TimeIs(start, interval, b - 1);
    Distribute(b - 1, a, interval);
  }

  /** Slot a - 1 is before the window, slot b after it. */
  lemma OneBefore(start: nat, interval: nat, lo: int, hi: int, a: nat, b: nat)
    requires 0 < a <= b && Time(start, interval, a - 1) < lo && hi <= Time(start, interval, b)
    ensures start < lo && hi - lo < (b - a + 1) * interval
  {
    TimeIs(start, interval, a - 1);
    TimeIs(start, interval, b);
    Distribute(b, a - 1, interval);
  }

  /** `expectedSlotRange` for one stream: the quotient of duration and interval, rounded down and up. */
  function PerStreamMin(duration: nat, interval: nat): nat
    requires 0 < interval
  {
    duration / interval
  }

  function PerStreamMax(duration: nat, interval: nat): nat
    requires 0 < interval
  {
    duration / interval + (if duration % interval != 0 then 1 else 0)
  }

  /** Which whole numbers of intervals lie in the range. */
  lemma RangeMeans(duration: nat, interval: nat, c: nat)
    requires 0 < interval
    ensures PerStreamMin(duration, interval) <= c <==> duration < (c + 1) * interval
    ensures c <= PerStreamMax(duration, interval) <==> (c == 0 || (c - 1) * interval < duration)
  {
    var q, r := duration / interval, duration % interval;
    assert duration == q * interval + r;
    assert (q + 1) * interval == q * interval + interval;
    if q <= c { Monotone(q + 1, c + 1, interval); } else { Monotone(c + 1, q, interval); }
    if c > 0 {
      if c - 1 < q {
        Monotone(c - 1, q - 1, interval);
        assert (q - 1) * interval == q * interval - interval;
      } else if c - 1 == q {
      } else {
        Monotone(q + 1, c - 1, interval);
      }
    }
  }

  /** The slots of a stream in a window are never more than `expectedSlotRange` allows. They are enough exactly if
      the stream did not start later than an interval, and what the duration is over a multiple of it, after the
      window; in particular if it did not start after the window. */
  lemma {:induction false} WindowCount(start: nat, interval: nat, lo: nat, hi: nat, n: nat)
    requires 0 < interval && lo <= hi && Time(start, interval, n) >= hi
    ensures var c := Within(start, interval, lo, hi, n);
      && c <= PerStreamMax(hi - lo, interval)
      && (PerStreamMin(hi - lo, interval) <= c <==>
          hi - lo < interval || start < lo + interval + (hi - lo) % interval)
  {
    var c := Within(start, interval, lo, hi, n);
    WindowBounds(start, interval, lo, hi, n);
    RangeMeans(hi - lo, interval, c);
    if start > lo { LateStart(hi - lo, interval, start - lo, c); }
  }

  /** A start d after the window leaves c slots. */
  lemma LateStart(duration: nat, interval: nat, d: nat, c: nat)
    requires 0 < interval && duration - d <= c * interval && (c > 0 ==> (c - 1) * interval < duration - d)
    ensures duration < (c + 1) * interval <==> duration < interval || d < interval + duration % interval
  {
    var q, r := duration / interval, duration % interval;
    assert duration == q * interval + r;
    assert (c + 1) * interval == c * interval + interval;
    if d < interval + r {
      assert (q - 1) * interval == q * interval - interval;
      if c <= q - 1 { Monotone(c, q - 1, interval); }
      if q <= c { Monotone(q + 1, c + 1, interval); assert (q + 1) * interval == q * interval + interval; }
    } else if interval <= duration {
      if c > 0 && q <= c { Monotone(q - 1, c - 1, interval); assert (q - 1) * interval == q * interval - interval; }
      if c < q { Monotone(c + 1, q, interval); }
      if q == 0 { assert q * interval == 0; }
    } else {
      assert c * interval >= 0 by { Monotone(0, c, interval); }
    }
  }
}
