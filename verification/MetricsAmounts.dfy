/** What a slot, a reception and an expected flow add to the sums of the metrics, and the record of a flow they
    leave behind. */
module MetricsAmounts {
  import opened MachineWords
  import opened MetricsSeries
  import opened MetricsFlows

  /** The fields of `bk_header` the metrics read. Two bits hold the direction, so 3 is possible. */
  datatype Header = Header(origin: uint32, traffic: uint8, direction: nat, mustDeliver: bool, broadcast: bool,
                           measure: bool, seq_: uint64, sched: uint64, send: uint64)

  function ClassOf(h: Header): (cls: nat)
    ensures cls < N_CLASSES && (cls == MUST_DELIVER <==> h.mustDeliver)
  {
    if h.mustDeliver then MUST_DELIVER else LOSS_TOLERANT
  }

  function KeyOf(h: Header): SeriesKey { SeriesKey(h.traffic, h.direction, ClassOf(h)) }

  function SaturatingSub(a: uint64, b: uint64): uint64 { if a >= b then a - b else 0 }

  // ----- the amounts of each operation -----------------------------------------------------------

  function OfCounts(c: Counts): (m: ClassM)
    ensures AmountOk(m)
  {
    NoHistOk();
    ClassM(c, NoHist(), NoHist(), NoHist())
  }

  function SlotAmount(h: Header, submitted: bool): (m: ClassM)
    ensures AmountOk(m)
  {
    OfCounts(NoCounts.(slots := 1, slotsBroadcast := Flag(h.broadcast), submitted := Flag(submitted)))
  }

  function ExpectationAmount(l: Latest): (m: ClassM)
    ensures AmountOk(m)
  {
    OfCounts(NoCounts.(expected := Flag(!l.expected)))
  }

  const DuplicateCounts := NoCounts.(duplicates := 1)

  /** A first delivery: latencies from the schedule and from the sending; must-deliver traffic may make its deadline. */
  function DeliveryAmount(h: Header, recv: uint64, deadline: nat): (m: ClassM)
    ensures AmountOk(m)
  {
    var late := SaturatingSub(recv, h.sched);
    NoHistOk();
    SampleOk(late);
    SampleOk(SaturatingSub(recv, h.send));
    ClassM(NoCounts.(delivered := 1, deadlineHit := Flag(h.mustDeliver && late <= deadline)),
           Sample(late), Sample(SaturatingSub(recv, h.send)), NoHist())
  }

  function ReceptionAmount(h: Header, recv: uint64, deadline: nat, isNew: bool): (m: ClassM)
    ensures AmountOk(m)
  {
    if isNew then DeliveryAmount(h, recv, deadline) else OfCounts(DuplicateCounts)
  }

  /** What a delivery says of its flow: it is expected, it has been observed, it may be newer than the last. */
  function FlowAmount(l: Latest, h: Header, recv: uint64): (m: ClassM)
    ensures AmountOk(m)
  {
    NoHistOk();
    SampleOk(SaturatingSub(recv, l.recv));
    ClassM(NoCounts.(expected := Flag(!l.expected), observed := Flag(!l.has)), NoHist(), NoHist(),
           if l.has && h.sched > l.sched then Sample(SaturatingSub(recv, l.recv)) else NoHist())
  }

  function FlowAfter(l: Latest, h: Header, recv: uint64): Latest {
    if !l.has || h.sched > l.sched then Latest(true, true, h.sched, recv) else l
  }

  /** `bk_metrics_expect_latest`: an earlier first schedule replaces a later one until something arrives. */
  function FlowExpected(l: Latest, first: uint64): Latest {
    l.(expected := true, sched := if !l.has && (!l.expected || first < l.sched) then first else l.sched)
  }

  datatype Deadline = Deadline(traffic: nat, direction: nat, ns: nat)

  /** `traffic_deadline` */
  function DeadlineOf(deadlines: seq<Deadline>, traffic: nat, direction: nat, other: nat): nat {
    if deadlines == [] then other
    else if deadlines[0].traffic == traffic && deadlines[0].direction == direction then deadlines[0].ns
    else DeadlineOf(deadlines[1..], traffic, direction, other)
  }
}
