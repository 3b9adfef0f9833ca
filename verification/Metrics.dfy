/** The metrics object: what it does for a slot, a reception, an expected flow and a sampling tick. Its two hash
    tables are a set and a map here; module GrowingTable shows that the tables of the source are that. */
module Metrics {
  import opened MachineWords
  import opened Histogram
  import opened MetricsSeries
  import opened MetricsFlows
  import opened MetricsAmounts
  import opened MetricsOutcomes
  import opened MetricsInvariants
  import opened MetricsSampling

  // ----- the object ------------------------------------------------------------------------------

  datatype Raw = Raw(slots: nat, submitted: nat, recvMeasured: nat, recvUnmeasured: nat, violations: nat)

  class Metrics {
    const maxOrigin: uint32
    const maxLocal: uint32
    const legacy: bool
    const deadline: nat
    const period: uint64
    var seen: set<SeenKey>
    var latest: map<FlowKey, Latest>
    var deadlines: seq<Deadline>
    var accounts: Accounts
    var raw: Raw
    var nextSample: uint64
    var cohort: Option<(uint64, uint64)>

    /** The tables are in order and every series is tied to them. */
    ghost predicate Valid()
      reads this
    {
      && 0 < period && (cohort.Some? ==> cohort.value.0 < cohort.value.1)
      && FlowsOk(latest)
      && |accounts.classes| == N_CLASSES && KeysOk(accounts.traffic)
      && Tied(accounts, seen, latest)
      && DeadlinesOk(accounts.traffic, deadlines, deadline)
      && raw.violations <= raw.recvMeasured
      && raw.violations <= DeliveredInAll(accounts)
    }

    /** `metrics_accepts_header` */
    predicate Accepts(h: Header)
      reads this
    {
      cohort == None || (cohort.value.0 < h.sched <= cohort.value.1)
    }

    constructor (maxOrigin: uint32, maxLocal: uint32, deadline: nat, period: uint64)
      ensures Valid() && SumsOk(accounts) && seen == {} && latest == map[] && deadlines == []
      ensures accounts == Accounts([NoClass(), NoClass()], NoHist(), []) && raw == Raw(0, 0, 0, 0, 0)
      ensures nextSample == 0 && cohort == None
      ensures (maxOrigin > 0 ==> this.maxOrigin == maxOrigin) && (maxOrigin == 0 ==> this.maxOrigin == 1)
      ensures this.legacy == (maxLocal == 0) && (maxLocal > 0 ==> this.maxLocal == maxLocal)
      ensures this.deadline == deadline && (period > 0 ==> this.period == period)
    {
      this.maxOrigin := if maxOrigin == 0 then 1 else maxOrigin;
      this.legacy := maxLocal == 0;
      this.maxLocal := if maxLocal == 0 then 1 else maxLocal;
      this.deadline := deadline;
      this.period := if period == 0 then 10_000_000 else period;
      seen := {};
      latest := map[];
      deadlines := [];
      accounts := Accounts([NoClass(), NoClass()], NoHist(), []);
      raw := Raw(0, 0, 0, 0, 0);
      nextSample := 0;
      cohort := None;
      new;
      NothingTied(accounts);
    }

    /** `bk_metrics_on_slot`. With direction 3 there is no series to credit, and only the class is: exactly
        then do the sums stop agreeing. */
    method OnSlot(h: Header, submitted: bool)
      requires Valid() && SumsOk(accounts)
      modifies this`accounts, this`raw
      ensures Valid()
      ensures Accepts(h) <==> (cohort.Some? ==> cohort.value.0 < h.sched && h.sched <= cohort.value.1)
      ensures SumsOk(accounts) <==> !(Accepts(h) && h.measure && N_DIRECTIONS <= h.direction)
      ensures raw ==
        if Accepts(h) then old(raw).(slots := old(raw.slots) + 1, submitted := old(raw.submitted) + Flag(submitted))
                     else old(raw)
      ensures Accepts(h) && h.measure && h.direction < N_DIRECTIONS ==>
        Happened(old(accounts), accounts, KeyOf(h), Slot(h.broadcast, submitted))
      ensures Accepts(h) && h.measure && N_DIRECTIONS <= h.direction ==>
        ClassHappened(old(accounts), accounts, ClassOf(h), Slot(h.broadcast, submitted))
      ensures !(Accepts(h) && h.measure) ==> accounts == old(accounts)
    {
      if !Accepts(h) { return; }
      raw := raw.(slots := raw.slots + 1, submitted := raw.submitted + Flag(submitted));
      if !h.measure { return; }
      if h.direction >= N_DIRECTIONS {
        ClassSlot(h, submitted);
      } else {
        CreditSound(accounts, KeyOf(h), SlotAmount(h, submitted), seen, latest, deadlines, deadline);
        SlotHappens(accounts, h, submitted, Configured(KeyOf(h)));
        SeriesSlot(h, submitted);
      }
    }

    /** A measured slot of a valid direction. */
    method SeriesSlot(h: Header, submitted: bool)
      requires |accounts.classes| == N_CLASSES
      modifies this`accounts
      ensures accounts ==
        Credited(WithSeries(old(accounts), KeyOf(h), Configured(KeyOf(h))), KeyOf(h), SlotAmount(h, submitted))
    {
      Series(KeyOf(h));
      Credit(KeyOf(h), SlotAmount(h, submitted));
    }

    /** A measured slot whose direction has no series. */
    method ClassSlot(h: Header, submitted: bool)
      requires SumsOk(accounts) && Tied(accounts, seen, latest)
      modifies this`accounts
      ensures !SumsOk(accounts) && Tied(accounts, seen, latest)
      ensures ClassHappened(old(accounts), accounts, ClassOf(h), Slot(h.broadcast, submitted))
    {
      CreditedClassBreaks(accounts, ClassOf(h), SlotAmount(h, submitted));
      TiedClassOnly(accounts, ClassOf(h), SlotAmount(h, submitted), seen, latest);
      SlotGains(accounts.classes[ClassOf(h)], h, submitted);
      assert SlotAmount(h, submitted).counts.slots == 1;
      accounts := CreditedClass(accounts, ClassOf(h), SlotAmount(h, submitted));
    }

    /** The deadline a new series gets. */
    function Configured(key: SeriesKey): nat
      reads this`deadlines
    {
      DeadlineOf(deadlines, key.traffic, key.direction, deadline)
    }

    /** `traffic_get` with `create`. */
    method Series(key: SeriesKey)
      modifies this`accounts
      ensures accounts == WithSeries(old(accounts), key, Configured(key))
    {
      accounts := WithSeries(accounts, key, Configured(key));
    }

    /** Crediting a class and its series. */
    method Credit(key: SeriesKey, delta: ClassM)
      requires |accounts.classes| == N_CLASSES && key.cls < N_CLASSES
      requires Find(accounts.traffic, key) < |accounts.traffic|
      modifies this`accounts
      ensures accounts == Credited(old(accounts), key, delta)
    {
      accounts := Credited(accounts, key, delta);
    }

    /** The guards of `latest_get`, and the local index it uses. */
    function FlowOf(local: uint32, origin: uint32, key: SeriesKey): (f: Option<FlowKey>)
      ensures f.Some? <==> origin < maxOrigin && key.direction < N_DIRECTIONS && (legacy || local < maxLocal)
      ensures f.Some? ==> f.value == FlowKey(if legacy then 0 else local, origin, key)
    {
      if origin >= maxOrigin || key.direction >= N_DIRECTIONS then None
      else if legacy then Some(FlowKey(0, origin, key))
      else if local >= maxLocal then None
      else Some(FlowKey(local, origin, key))
    }

    /** `latest_get` with `create`: the record, a new one if there was none. */
    method Flow(f: FlowKey) returns (l: Latest)
      modifies this`latest
      ensures l == RecordOf(old(latest), f) && latest == old(latest)[f := l]
    {
      if f !in latest { latest := latest[f := NewLatest]; }
      l := latest[f];
      assert latest[f := l] == latest;
    }

    /** `bk_metrics_expect_latest` */
    method ExpectLatest(local: uint32, origin: uint32, traffic: uint8, direction: nat, first: uint64) returns (ok: bool)
      requires Valid() && SumsOk(accounts)
      modifies this`accounts, this`latest
      ensures Valid() && SumsOk(accounts)
      ensures ok == FlowOf(local, origin, SeriesKey(traffic, direction, LOSS_TOLERANT)).Some?
      ensures !ok ==> latest == old(latest) && accounts == old(accounts)
      ensures ok ==>
        var f := FlowOf(local, origin, SeriesKey(traffic, direction, LOSS_TOLERANT)).value;
        && RecordExpected(old(latest), latest, f, first)
        && Happened(old(accounts), accounts, f.key, Expectation(RecordOf(old(latest), f)))
    {
      var f := FlowOf(local, origin, SeriesKey(traffic, direction, LOSS_TOLERANT));
      if f.None? { return false; }
      ghost var before, was := accounts, latest;
      ExpectFlow(f.value, first);
      ExpectationSound(before, f.value, first, seen, was, deadlines, deadline);
      ExpectationHappens(before, f.value.key, Configured(f.value.key), RecordOf(was, f.value));
      ExpectedRecord(was, latest, f.value, first);
      return true;
    }

    /** The record, the series and what is credited. */
    method ExpectFlow(f: FlowKey, first: uint64)
      requires |accounts.classes| == N_CLASSES && f.key.cls < N_CLASSES
      modifies this`accounts, this`latest
      ensures latest == old(latest)[f := FlowExpected(RecordOf(old(latest), f), first)]
      ensures accounts ==
        Credited(WithSeries(old(accounts), f.key, Configured(f.key)), f.key,
                 ExpectationAmount(RecordOf(old(latest), f)))
    {
      var l := Flow(f);
      Series(f.key);
      Credit(f.key, ExpectationAmount(l));
      latest := latest[f := FlowExpected(l, first)];
    }

    /** A measured reception is looked up in `seen`; the first one is a delivery, the others are duplicates. */
    method Remember(k: SeenKey, h: Header, recv: uint64) returns (isNew: bool)
      requires |accounts.classes| == N_CLASSES && k.key == KeyOf(h)
      modifies this`accounts, this`seen
      ensures isNew == (k !in old(seen)) && seen == old(seen) + {k}
      ensures accounts == Counted(old(accounts), h, recv, Configured(k.key), isNew)
    {
      Series(k.key);
      isNew := k !in seen;
      seen := seen + {k};
      if isNew {
        Credit(k.key, DeliveryAmount(h, recv, accounts.traffic[Find(accounts.traffic, k.key)].deadline));
      } else {
        Credit(k.key, OfCounts(DuplicateCounts));
      }
    }

    /** What a delivery says of its flow. */
    method LearnDelivery(f: FlowKey, h: Header, recv: uint64)
      requires |accounts.classes| == N_CLASSES && f.key == KeyOf(h)
      requires Find(accounts.traffic, f.key) < |accounts.traffic|
      modifies this`accounts, this`latest
      ensures accounts == Credited(old(accounts), f.key, FlowAmount(RecordOf(old(latest), f), h, recv))
      ensures latest == old(latest)[f := FlowAfter(RecordOf(old(latest), f), h, recv)]
    {
      var l := Flow(f);
      Credit(f.key, FlowAmount(l, h, recv));
      latest := latest[f := FlowAfter(l, h, recv)];
    }

    /** The header and the receiving connection are such that the reception is counted at all. */
    predicate Counts_(local: uint32, h: Header)
      reads this
    {
      Accepts(h) && h.direction < N_DIRECTIONS && (legacy || local < maxLocal)
    }

    function SeenKeyOf(local: uint32, h: Header): SeenKey { SeenKey(local, h.origin, KeyOf(h), h.seq_) }

    /** Two receptions are the same delivery exactly if all of this agrees. */
    lemma SameDelivery(local: uint32, h: Header, local': uint32, h': Header)
      ensures SeenKeyOf(local, h) == SeenKeyOf(local', h') <==>
        && local == local' && h.origin == h'.origin && h.traffic == h'.traffic && h.direction == h'.direction
        && h.mustDeliver == h'.mustDeliver && h.seq_ == h'.seq_
    {
    }

    /** `bk_metrics_on_recv` */
    method OnRecv(local: uint32, h: Header, recv: uint64)
      requires Valid() && SumsOk(accounts)
      modifies this`accounts, this`raw, this`seen, this`latest
      ensures Valid() && SumsOk(accounts)
      ensures seen == old(seen) + (if Counts_(local, h) && h.measure then {SeenKeyOf(local, h)} else {})
      ensures raw == if !Counts_(local, h) then old(raw)
                     else if !h.measure then old(raw).(recvUnmeasured := old(raw).recvUnmeasured + 1)
                     else old(raw).(recvMeasured := old(raw).recvMeasured + 1, violations := old(raw).violations +
                       Flag(SeenKeyOf(local, h) !in old(seen) && OutOfOrder(h, recv)))
      ensures !(Counts_(local, h) && h.measure) ==> accounts == old(accounts) && latest == old(latest)
      ensures Counts_(local, h) <==>
        && (cohort.Some? ==> cohort.value.0 < h.sched && h.sched <= cohort.value.1)
        && h.direction < N_DIRECTIONS && (legacy || local < maxLocal)
      ensures Counts_(local, h) && h.measure ==>
        Received(old(accounts), accounts, old(latest), latest, FlowOf(local, h.origin, KeyOf(h)), h, recv,
                 Configured(KeyOf(h)), SeenKeyOf(local, h) !in old(seen))
    {
      if !Counts_(local, h) { return; }
      if !h.measure {
        raw := raw.(recvUnmeasured := raw.recvUnmeasured + 1);
        return;
      }
      var isNew := CountMeasured(local, h, recv);
      raw := raw.(recvMeasured := raw.recvMeasured + 1,
                  violations := raw.violations + Flag(isNew && OutOfOrder(h, recv)));
    }

    predicate OutOfOrder(h: Header, recv: uint64) { h.sched > h.send || h.send > recv }

    method CountMeasured(local: uint32, h: Header, recv: uint64) returns (isNew: bool)
      requires Sound(accounts, seen, latest, deadlines, deadline) && FlowsOk(latest) && h.direction < N_DIRECTIONS
      modifies this`accounts, this`seen, this`latest
      ensures Sound(accounts, seen, latest, deadlines, deadline) && FlowsOk(latest)
      ensures isNew == (SeenKeyOf(local, h) !in old(seen)) && seen == old(seen) + {SeenKeyOf(local, h)}
      ensures DeliveredInAll(accounts) == old(DeliveredInAll(accounts)) + Flag(isNew)
      ensures Received(old(accounts), accounts, old(latest), latest, FlowOf(local, h.origin, KeyOf(h)), h, recv,
                       Configured(KeyOf(h)), isNew)
    {
      ghost var before, was := accounts, latest;
      ghost var k, f := SeenKeyOf(local, h), FlowOf(local, h.origin, KeyOf(h));
      isNew := Receive(local, h, recv);
      BookedOutcome(before, accounts, k, f, h, recv, old(seen), was, latest, deadlines, deadline, isNew);
    }

    /** The series, `seen` and the record of the flow. */
    method Receive(local: uint32, h: Header, recv: uint64) returns (isNew: bool)
      requires |accounts.classes| == N_CLASSES
      modifies this`accounts, this`seen, this`latest
      ensures isNew == (SeenKeyOf(local, h) !in old(seen))
      ensures seen == old(seen) + {SeenKeyOf(local, h)}
      ensures accounts == Booked(old(accounts), h, recv, Configured(KeyOf(h)), isNew,
                                 RecordAt(old(latest), FlowOf(local, h.origin, KeyOf(h))))
      ensures latest == FlowsAfter(old(latest), FlowOf(local, h.origin, KeyOf(h)), h, recv, isNew)
    {
      isNew := Remember(SeenKeyOf(local, h), h, recv);
      var f := FlowOf(local, h.origin, KeyOf(h));
      if isNew && f.Some? { LearnDelivery(f.value, h, recv); }
    }

    /** `bk_metrics_set_traffic_deadline`: the deadline that is configured, also of series that exist already. */
    method SetTrafficDeadline(id: uint8, direction: int, ns: uint64) returns (ok: bool)
      requires Valid() && SumsOk(accounts)
      modifies this`deadlines, this`accounts
      ensures Valid() && SumsOk(accounts) && ok == (0 <= direction < N_DIRECTIONS)
      ensures !ok ==> deadlines == old(deadlines) && accounts == old(accounts)
      ensures ok ==> accounts == old(accounts).(traffic := accounts.traffic)
      ensures ok ==> accounts.traffic == Redated(old(accounts.traffic), |old(accounts.traffic)|, id, direction, ns)
      ensures ok ==> Reconfigured(old(deadlines), deadlines, deadline, id, direction, ns)
    {
      if direction < 0 || direction >= N_DIRECTIONS { return false; }
      SetConfigured(id, direction, ns);
      RedatedDeadlines(accounts.traffic, old(deadlines), deadlines, deadline, id, direction, ns);
      SetOfSeries(id, direction, ns);
      return true;
    }

    /** The first loop: the configured deadline is replaced, or one is added. */
    method SetConfigured(id: uint8, direction: nat, ns: uint64)
      modifies this`deadlines
      ensures Reconfigured(old(deadlines), deadlines, deadline, id, direction, ns)
    {
      var i := 0;
      while i < |deadlines| && !(deadlines[i].traffic == id && deadlines[i].direction == direction)
        invariant i <= |deadlines|
        invariant forall j :: 0 <= j < i ==> deadlines[j].traffic != id || deadlines[j].direction != direction
      {
        i := i + 1;
      }
      ghost var before := deadlines;
      if i < |deadlines| {
        deadlines := deadlines[i := deadlines[i].(ns := ns)];
      } else {
        deadlines := deadlines + [Deadline(id, direction, ns)];
      }
      forall key: SeriesKey
        ensures DeadlineOf(deadlines, key.traffic, key.direction, deadline) ==
          (if key.traffic == id && key.direction == direction then ns
           else DeadlineOf(before, key.traffic, key.direction, deadline))
      {
        if i < |before| {
          ReplacedDeadline(before, i, ns, key.traffic, key.direction, deadline);
        } else {
          AddedDeadline(before, Deadline(id, direction, ns), key.traffic, key.direction, deadline);
        }
      }
    }

    /** The second loop: the series that exist get it too. */
    method SetOfSeries(id: uint8, direction: nat, ns: uint64)
      requires SumsOk(accounts) && Tied(accounts, seen, latest)
      modifies this`accounts
      ensures SumsOk(accounts) && Tied(accounts, seen, latest)
      ensures accounts ==
        old(accounts).(traffic := Redated(old(accounts).traffic, |old(accounts).traffic|, id, direction, ns))
    {
      ghost var before := accounts;
      for j := 0 to |accounts.traffic|
        invariant accounts == before.(traffic := Redated(before.traffic, j, id, direction, ns))
      {
        if accounts.traffic[j].key.traffic == id && accounts.traffic[j].key.direction == direction {
          accounts := accounts.(traffic := accounts.traffic[j := accounts.traffic[j].(deadline := ns)]);
        }
        assert accounts.traffic == Redated(before.traffic, j + 1, id, direction, ns);
      }
      RedatedKeeps(before, |before.traffic|, id, direction, ns, seen, latest);
    }

    /** `bk_metrics_set_cohort` */
    method SetCohort(start: uint64, stop: uint64) returns (ok: bool)
      requires Valid()
      modifies this`cohort
      ensures Valid() && ok == (start < stop) && cohort == if ok then Some((start, stop)) else old(cohort)
    {
      if start >= stop { return false; }
      cohort := Some((start, stop));
      return true;
    }

    /** `bk_metrics_reset`: the configured deadlines survive, everything measured goes. */
    method Reset()
      modifies this`accounts, this`raw, this`seen, this`latest, this`nextSample, this`cohort
      requires 0 < period
      ensures Valid() && SumsOk(accounts) && seen == {} && latest == map[]
      ensures accounts == Accounts([NoClass(), NoClass()], NoHist(), []) && raw == Raw(0, 0, 0, 0, 0)
      ensures nextSample == 0 && cohort == None
    {
      accounts := Accounts([NoClass(), NoClass()], NoHist(), []);
      seen, latest := {}, map[];
      nextSample, cohort := 0, None;
      raw := Raw(0, 0, 0, 0, 0);
      NothingTied(accounts);
    }

    /** One sample of every flow of the table that is to be sampled, in the order of its slots. */
    method SampleAll(order: seq<FlowKey>, at: uint64)
      requires forall f :: f in order ==> f in latest
      modifies this`accounts
      ensures accounts == SampledOnce(old(accounts), order, latest, at, deadlines, deadline)
    {
      for i := 0 to |order|
        invariant accounts == SampledOnce(old(accounts), order[..i], latest, at, deadlines, deadline)
      {
        assert order[..i + 1][..i] == order[..i];
        var f := order[i];
        if Sampled(latest, f) {
          Series(f.key);
          accounts := StaleSampled(accounts, f.key, Sample(SaturatingSub(at, latest[f].sched)));
        }
      }
      assert order[..|order|] == order;
    }

    /** The time a tick counts as; None before the cohort starts. */
    function TickTime(now: uint64): Option<uint64>
      reads this`cohort
      requires cohort.Some? ==> cohort.value.0 < cohort.value.1
    {
      if cohort == None then Some(now)
      else if now < cohort.value.0 then None
      else if now >= cohort.value.1 then Some(cohort.value.1 - 1)
      else Some(now)
    }

    /** `bk_metrics_tick`: a sample for every period that has passed. The loop ends because the period is not
        zero, and a sum that would overflow ends it too. */
    method Tick(now: uint64, order: seq<FlowKey>)
      requires Valid() && SumsOk(accounts)
      requires Enumerates(order, latest)
      modifies this`accounts, this`nextSample
      ensures Valid() && SumsOk(accounts)
      ensures TickTime(now) == None ==> accounts == old(accounts) && nextSample == old(nextSample)
      ensures TickTime(now).Some? ==>
        var first := if old(nextSample) == 0 then TickTime(now).value else old(nextSample);
        && AgedUntil(old(accounts), accounts, latest, first, TickTime(now).value, period)
        && nextSample == Capped(NextDue(first, TickTime(now).value, period))
        && accounts.staleness.count ==
           old(accounts.staleness.count) + Due(first, TickTime(now).value, period, |SampledFlows(latest)|)
    {
      var time := TickTime(now);
      if time == None { return; }
      if nextSample == 0 { nextSample := time.value; }
      SampledUntilSound(accounts, order, seen, latest, nextSample, time.value, period, deadlines, deadline);
      SampledUntilAges(accounts, order, latest, nextSample, time.value, period, deadlines, deadline);
      SampleUntil(order, time.value);
    }

    /** The loop of the tick. */
    method SampleUntil(order: seq<FlowKey>, time: uint64)
      requires 0 < period && forall f :: f in order ==> f in latest
      modifies this`accounts, this`nextSample
      ensures accounts == SampledUntil(old(accounts), order, latest, old(nextSample), time, period, deadlines, deadline)
      ensures nextSample == Capped(NextDue(old(nextSample), time, period))
    {
      ghost var end := SampledUntil(accounts, order, latest, nextSample, time, period, deadlines, deadline);
      ghost var next := NextDue(nextSample, time, period);
      while nextSample <= time
        invariant SampledUntil(accounts, order, latest, nextSample, time, period, deadlines, deadline) == end
        invariant NextDue(nextSample, time, period) == next
        decreases UINT64_MAX - nextSample
      {
        SampleAll(order, nextSample);
        if UINT64_MAX - nextSample < period {
          nextSample := UINT64_MAX;
          break;
        }
        nextSample := nextSample + period;
      }
    }
  }
}
