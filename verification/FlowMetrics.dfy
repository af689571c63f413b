/** Packet-level flow measurements, in whole microseconds and bytes.

    Active periods, subflows and bulk runs all cut a packet list at large gaps.  Runs is that cut;
    the theorems say how the separately computed metrics agree. */
module FlowMetrics {
  import opened Wrappers

  const ACTIVITY_GAP := 5_000_000
  const SUBFLOW_GAP := 1_000_000
  const BULK_GAP := 1_000_000
  const BULK_MIN_PACKETS := 4

  datatype Packet = Packet(time: int, direction: nat, payload: nat)

  function Sum(s: seq<int>): int {
    if s == [] then 0 else Sum(s[..|s| - 1]) + s[|s| - 1]
  }

  function Times(packets: seq<Packet>): seq<int> {
    seq(|packets|, i requires 0 <= i < |packets| => packets[i].time)
  }

  function InDirection(packets: seq<Packet>, d: nat): seq<Packet> {
    if packets == [] then []
    else
      var n := |packets| - 1;
      InDirection(packets[..n], d) + (if packets[n].direction == d then [packets[n]] else [])
  }

  function Payloads(packets: seq<Packet>): seq<int> {
    seq(|packets|, i requires 0 <= i < |packets| => packets[i].payload)
  }

  /** The differences between consecutive times. */
  function Gaps(times: seq<int>): seq<int> {
    if |times| <= 1 then []
    else Gaps(times[..|times| - 1]) + [times[|times| - 1] - times[|times| - 2]]
  }

  /** Payload bytes of one direction. */
  function Bytes(packets: seq<Packet>, d: nat): int {
    Sum(Payloads(InDirection(packets, d)))
  }

  // ---------------------------------------------------------------- the accumulator

  /** What NFStream reports about one packet. */
  datatype Observed = Observed(direction: nat, milliseconds: int, payloadSize: int, ipSize: int)

  function AtLeastZero(x: int): nat {
    if x < 0 then 0 else x
  }

  class Accumulator {
    var packets: seq<Packet>
    var payloads: seq<seq<int>>
    var headers: seq<seq<int>>
    var iats: seq<seq<int>>
    var flowIats: seq<int>
    var lastDirectionTime: seq<Option<int>>
    var lastTime: Option<int>

    constructor ()
      ensures Valid() && packets == []
    {
      packets, flowIats, lastTime := [], [], None;
      payloads, headers, iats, lastDirectionTime := [[], []], [[], []], [[], []], [None, None];
    }

    predicate TwoDirections()
      reads this
    {
      |payloads| == |headers| == |iats| == |lastDirectionTime| == 2
    }

    function Direction(d: nat): Lists
      requires TwoDirections() && d < 2
      reads this
    {
      Lists(payloads[d], iats[d], lastDirectionTime[d])
    }

    /** Every list is determined by the packets recorded so far. */
    ghost predicate Valid()
      reads this
    {
      && TwoDirections()
      && RecordedFlow(packets) == Lists(Payloads(packets), flowIats, lastTime)
      && Direction(0) == Recorded(packets, 0) && Direction(1) == Recorded(packets, 1)
      && |headers[0]| == |payloads[0]| && |headers[1]| == |payloads[1]|
    }

    /** Only the packet's own direction changes. */
    method RecordDirection(p: Packet, header: nat)
      requires TwoDirections() && p.direction < 2
      modifies `payloads, `headers, `iats, `lastDirectionTime
      ensures TwoDirections()
      ensures Direction(p.direction) == Extended(old(Direction(p.direction)), p)
      ensures Direction(1 - p.direction) == old(Direction(1 - p.direction))
      ensures headers == old(headers)[p.direction := old(headers)[p.direction] + [header]]
    {
      var d := p.direction;
      if lastDirectionTime[d].Some? {
        iats := iats[d := iats[d] + [p.time - lastDirectionTime[d].value]];
      }
      lastDirectionTime := lastDirectionTime[d := Some(p.time)];
      payloads := payloads[d := payloads[d] + [p.payload]];
      headers := headers[d := headers[d] + [header]];
    }

    method RecordPacket(o: Observed)
      requires Valid() && o.direction < 2
      modifies this
      ensures Valid()
      ensures packets == old(packets) + [Packet(o.milliseconds * 1000, o.direction,
                                                if o.payloadSize < 0 then 0 else o.payloadSize)]
      ensures headers == old(headers)[o.direction :=
                old(headers)[o.direction] + [AtLeastZero(o.ipSize - AtLeastZero(o.payloadSize))]]
    {
      var p := Packet(o.milliseconds * 1000, o.direction, AtLeastZero(o.payloadSize));
      RecordNext(packets, p, 0);
      RecordNext(packets, p, 1);
      RecordFlowNext(packets, p);
      if lastTime.Some? {
        flowIats := flowIats + [p.time - lastTime.value];
      }
      lastTime := Some(p.time);
      RecordDirection(p, AtLeastZero(o.ipSize - p.payload));
      packets := packets + [p];
    }
  }

  /** What the accumulator keeps for one direction. */
  datatype Lists = Lists(payloads: seq<int>, iats: seq<int>, last: Option<int>)

  function Extended(lists: Lists, p: Packet): Lists {
    Lists(lists.payloads + [p.payload],
          if lists.last.Some? then lists.iats + [p.time - lists.last.value] else lists.iats,
          Some(p.time))
  }

  function Recorded(packets: seq<Packet>, d: nat): Lists {
    if packets == [] then Lists([], [], None)
    else
      var before, p := Recorded(packets[..|packets| - 1], d), packets[|packets| - 1];
      if p.direction == d then Extended(before, p) else before
  }

  /** The same for the whole flow. */
  function RecordedFlow(packets: seq<Packet>): Lists {
    if packets == [] then Lists([], [], None)
    else Extended(RecordedFlow(packets[..|packets| - 1]), packets[|packets| - 1])
  }

  lemma RecordNext(packets: seq<Packet>, p: Packet, d: nat)
    ensures Recorded(packets + [p], d) ==
            if p.direction == d then Extended(Recorded(packets, d), p) else Recorded(packets, d)
  {
    assert (packets + [p])[..|packets|] == packets;
  }

  lemma RecordFlowNext(packets: seq<Packet>, p: Packet)
    ensures RecordedFlow(packets + [p]) == Extended(RecordedFlow(packets), p)
    ensures Payloads(packets + [p]) == Payloads(packets) + [p.payload]
  {
    assert (packets + [p])[..|packets|] == packets;
  }

  lemma {:induction false} RecordedWholeFlow(packets: seq<Packet>)
    ensures RecordedFlow(packets) == Lists(Payloads(packets), Gaps(Times(packets)), LastTime(packets))
  {
    if packets != [] {
      var n := |packets| - 1;
      RecordedWholeFlow(packets[..n]);
      AppendPacket(packets[..n], packets[n]);
      assert packets == packets[..n] + [packets[n]];
    }
  }

  /** Main theorem: whatever the interleaving, the accumulator's lists for one direction are the
      payloads, the inter-arrival gaps and the last time of that direction's packets alone. */
  lemma {:induction false} RecordedPerDirection(packets: seq<Packet>, d: nat)
    ensures var mine := InDirection(packets, d);
            Recorded(packets, d) == Lists(Payloads(mine), Gaps(Times(mine)), LastTime(mine))
  {
    if packets != [] {
      var before, p := packets[..|packets| - 1], packets[|packets| - 1];
      var mine := InDirection(before, d);
      RecordedPerDirection(before, d);
      if p.direction == d {
        ExtendedByPacket(mine, p);
        assert InDirection(packets, d) == mine + [p];
      } else {
        assert InDirection(packets, d) == mine;
      }
    }
  }

  lemma ExtendedByPacket(packets: seq<Packet>, p: Packet)
    ensures var all := packets + [p];
            Extended(Lists(Payloads(packets), Gaps(Times(packets)), LastTime(packets)), p)
            == Lists(Payloads(all), Gaps(Times(all)), LastTime(all))
  {
    AppendPacket(packets, p);
  }

  function LastTime(packets: seq<Packet>): Option<int> {
    if packets == [] then None else Some(packets[|packets| - 1].time)
  }

  lemma AppendPacket(packets: seq<Packet>, p: Packet)
    ensures Times(packets + [p]) == Times(packets) + [p.time]
    ensures Payloads(packets + [p]) == Payloads(packets) + [p.payload]
    ensures Gaps(Times(packets + [p])) ==
            if packets == [] then [] else Gaps(Times(packets)) + [p.time - packets[|packets| - 1].time]
  {
    var times := Times(packets) + [p.time];
    assert Times(packets + [p]) == times;
    assert times[..|packets|] == Times(packets);
  }

  // ---------------------------------------------------------------- active periods and idle gaps

  /** The lengths of the periods without a gap above the limit; the last entry is still growing. */
  function ActivePeriods(times: seq<int>, gap: int): seq<int> {
    if times == [] then []
    else if |times| == 1 then [0]
    else
      var n := |times| - 1;
      var before, delta := ActivePeriods(times[..n], gap), times[n] - times[n - 1];
      if delta > gap || before == [] then before + [0]
      else before[|before| - 1 := before[|before| - 1] + delta]
  }

  function LargeGaps(times: seq<int>, gap: int): seq<int> {
    if |times| <= 1 then []
    else
      var n := |times| - 1;
      LargeGaps(times[..n], gap) + (if times[n] - times[n - 1] > gap then [times[n] - times[n - 1]] else [])
  }

  function Differences(ends: seq<int>, starts: seq<int>): seq<int>
    requires |ends| == |starts|
  {
    seq(|ends|, i requires 0 <= i < |ends| => ends[i] - starts[i])
  }

  method PeriodMetrics(times: seq<int>, gap: int) returns (active: seq<int>, idle: seq<int>)
    ensures active == ActivePeriods(times, gap) && idle == LargeGaps(times, gap)
  {
    if times == [] {
      return [], [];
    }
    var starts, ends: seq<int> := [times[0]], [];
    idle := [];
    assert times[..1] == [times[0]];
    for i := 1 to |times|
      invariant |starts| == |ends| + 1
      invariant Differences(ends + [times[i - 1]], starts) == ActivePeriods(times[..i], gap)
      invariant idle == LargeGaps(times[..i], gap)
    {
      assert times[..i + 1][..i] == times[..i];
      var delta := times[i] - times[i - 1];
      if delta > gap {
        ends := ends + [times[i - 1]];
        idle := idle + [delta];
        starts := starts + [times[i]];
      }
    }
    ends := ends + [times[|times| - 1]];
    assert times[..|times|] == times;
    active := Differences(ends, starts);
  }

  lemma SumSnoc(s: seq<int>, x: int)
    ensures Sum(s + [x]) == Sum(s) + x
  {
    assert (s + [x])[..|s|] == s;
  }

  lemma SumGrowLast(s: seq<int>, x: int)
    requires s != []
    ensures Sum(s[|s| - 1 := s[|s| - 1] + x]) == Sum(s) + x
  {
    assert s[|s| - 1 := s[|s| - 1] + x][..|s| - 1] == s[..|s| - 1];
  }

  lemma {:induction false} GapsTelescope(times: seq<int>)
    requires times != []
    ensures Sum(Gaps(times)) == times[|times| - 1] - times[0]
  {
    if |times| > 1 {
      var n := |times| - 1;
      GapsTelescope(times[..n]);
      SumSnoc(Gaps(times[..n]), times[n] - times[n - 1]);
    }
  }

  lemma {:induction false} PeriodsCover(times: seq<int>, gap: int)
    requires times != []
    ensures |ActivePeriods(times, gap)| == |LargeGaps(times, gap)| + 1
    ensures Sum(ActivePeriods(times, gap)) + Sum(LargeGaps(times, gap)) == times[|times| - 1] - times[0]
  {
    if |times| == 1 {
      assert [0][..0] == [];
    } else {
      var n := |times| - 1;
      PeriodsCover(times[..n], gap);
      var before, delta := ActivePeriods(times[..n], gap), times[n] - times[n - 1];
      if delta > gap {
        SumSnoc(before, 0);
        SumSnoc(LargeGaps(times[..n], gap), delta);
      } else {
        SumGrowLast(before, delta);
        assert LargeGaps(times, gap) == LargeGaps(times[..n], gap);
      }
    }
  }

  /** Main theorem: active and idle time together make up the flow's inter-arrival time, which is the
      time from the first packet to the last; and there is one more active period than idle gaps. */
  lemma ActiveAndIdleMakeUpFlow(packets: seq<Packet>, gap: int)
    requires packets != []
    ensures var times := Times(packets);
            && Sum(ActivePeriods(times, gap)) + Sum(LargeGaps(times, gap)) == Sum(Gaps(times))
            && Sum(Gaps(times)) == packets[|packets| - 1].time - packets[0].time
            && |ActivePeriods(times, gap)| == |LargeGaps(times, gap)| + 1
  {
    GapsTelescope(Times(packets));
    PeriodsCover(Times(packets), gap);
  }

  // ---------------------------------------------------------------- runs

  /** Cut a packet list wherever two neighbours are further apart than the gap. */
  function Runs(packets: seq<Packet>, gap: int): (runs: seq<seq<Packet>>)
    ensures (packets == [] <==> runs == []) && forall i :: 0 <= i < |runs| ==> runs[i] != []
    ensures packets != [] ==> LastOf(runs[|runs| - 1]) == LastOf(packets)
  {
    if packets == [] then []
    else
      var n := |packets| - 1;
      var runs := Runs(packets[..n], gap);
      if runs == [] || packets[n].time - packets[n - 1].time > gap then runs + [[packets[n]]]
      else runs[|runs| - 1 := runs[|runs| - 1] + [packets[n]]]
  }

  function LastOf(packets: seq<Packet>): Packet
    requires packets != []
  {
    packets[|packets| - 1]
  }

  function Flatten(runs: seq<seq<Packet>>): seq<Packet> {
    if runs == [] then [] else Flatten(runs[..|runs| - 1]) + runs[|runs| - 1]
  }

  /** No gap above the limit inside a run, and one between every two runs. */
  ghost predicate MaximalRuns(runs: seq<seq<Packet>>, gap: int) {
    && (forall i :: 0 <= i < |runs| ==> runs[i] != [] && CloseTogether(runs[i], gap))
    && (forall i :: 0 < i < |runs| ==> runs[i][0].time - LastOf(runs[i - 1]).time > gap)
  }

  ghost predicate CloseTogether(run: seq<Packet>, gap: int) {
    forall j :: 0 < j < |run| ==> run[j].time - run[j - 1].time <= gap
  }

  /** The loop of the subflow and bulk functions. */
  method GroupRuns(packets: seq<Packet>, gap: int) returns (runs: seq<seq<Packet>>)
    ensures runs == Runs(packets, gap)
  {
    runs := [];
    for i := 0 to |packets|
      invariant runs == Runs(packets[..i], gap)
    {
      assert packets[..i + 1][..i] == packets[..i];
      ghost var before := runs;
      assert i > 0 ==> LastOf(packets[..i]) == packets[i - 1];
      if runs == [] || packets[i].time - LastOf(runs[|runs| - 1]).time > gap {
        runs := runs + [[]];
      }
      runs := runs[|runs| - 1 := runs[|runs| - 1] + [packets[i]]];
      assert [] + [packets[i]] == [packets[i]];
      assert runs == before + [[packets[i]]] || runs == before[|before| - 1 := before[|before| - 1] + [packets[i]]];
    }
    assert packets[..|packets|] == packets;
  }

  lemma {:induction false} RunsFlatten(packets: seq<Packet>, gap: int)
    ensures Flatten(Runs(packets, gap)) == packets
  {
    if packets != [] {
      var n := |packets| - 1;
      var before, runs := Runs(packets[..n], gap), Runs(packets, gap);
      RunsFlatten(packets[..n], gap);
      assert packets == packets[..n] + [packets[n]];
      if before == [] || packets[n].time - packets[n - 1].time > gap {
        assert runs[..|runs| - 1] == before;
      } else {
        assert runs[..|runs| - 1] == before[..|before| - 1];
      }
    }
  }

  lemma {:induction false} RunsAreMaximal(packets: seq<Packet>, gap: int)
    ensures MaximalRuns(Runs(packets, gap), gap)
  {
    if packets != [] {
      var n := |packets| - 1;
      var before := Runs(packets[..n], gap);
      RunsAreMaximal(packets[..n], gap);
      if before == [] || packets[n].time - packets[n - 1].time > gap {
        OpenRun(before, packets[n], gap);
      } else {
        GrowLastRun(before, packets[n], gap);
      }
    }
  }

  lemma OpenRun(runs: seq<seq<Packet>>, p: Packet, gap: int)
    requires MaximalRuns(runs, gap) && (runs == [] || p.time - LastOf(runs[|runs| - 1]).time > gap)
    ensures MaximalRuns(runs + [[p]], gap)
  {
  }

  lemma GrowLastRun(runs: seq<seq<Packet>>, p: Packet, gap: int)
    requires MaximalRuns(runs, gap) && runs != [] && p.time - LastOf(runs[|runs| - 1]).time <= gap
    ensures MaximalRuns(runs[|runs| - 1 := runs[|runs| - 1] + [p]], gap)
  {
    var last := runs[|runs| - 1];
    var grown: seq<seq<Packet>> := runs[|runs| - 1 := last + [p]];
    assert CloseTogether(last, gap);
    assert CloseTogether(last + [p], gap);
    forall i: nat | 0 < i < |grown|
      ensures grown[i][0].time - LastOf(grown[i - 1]).time > gap
    {
      assert runs[i][0].time - LastOf(runs[i - 1]).time > gap;
    }
  }

  function Span(run: seq<Packet>): int {
    if run == [] then 0 else LastOf(run).time - run[0].time
  }

  /** Active periods are the spans of the runs: the two programs cut at the same places. */
  lemma {:induction false} PeriodsAreRunSpans(packets: seq<Packet>, gap: int)
    ensures |ActivePeriods(Times(packets), gap)| == |Runs(packets, gap)|
    ensures forall i :: 0 <= i < |Runs(packets, gap)| ==>
                          ActivePeriods(Times(packets), gap)[i] == Span(Runs(packets, gap)[i])
  {
    if packets != [] {
      var n := |packets| - 1;
      PeriodsAreRunSpans(packets[..n], gap);
      assert Times(packets)[..n] == Times(packets[..n]);
    }
  }

  /** There is one more run than large gaps. */
  lemma RunsCountGaps(packets: seq<Packet>, gap: int)
    requires packets != []
    ensures |Runs(packets, gap)| == 1 + |LargeGaps(Times(packets), gap)|
  {
    PeriodsAreRunSpans(packets, gap);
    PeriodsCover(Times(packets), gap);
  }

  lemma {:induction false} WiderGapCutsLess(times: seq<int>, narrow: int, wide: int)
    requires narrow <= wide
    ensures |LargeGaps(times, wide)| <= |LargeGaps(times, narrow)|
  {
    if |times| > 1 {
      WiderGapCutsLess(times[..|times| - 1], narrow, wide);
    }
  }

  // ---------------------------------------------------------------- subflows

  function DirectionCount(runs: seq<seq<Packet>>, d: nat): int {
    if runs == [] then 0 else DirectionCount(runs[..|runs| - 1], d) + |InDirection(runs[|runs| - 1], d)|
  }

  function DirectionBytes(runs: seq<seq<Packet>>, d: nat): int {
    if runs == [] then 0 else DirectionBytes(runs[..|runs| - 1], d) + Bytes(runs[|runs| - 1], d)
  }

  lemma {:induction false} InDirectionConcat(a: seq<Packet>, b: seq<Packet>, d: nat)
    ensures InDirection(a + b, d) == InDirection(a, d) + InDirection(b, d)
  {
    if b == [] {
      assert a + b == a;
    } else {
      var n := |b| - 1;
      assert (a + b)[..|a + b| - 1] == a + b[..n];
      InDirectionConcat(a, b[..n], d);
    }
  }

  lemma {:induction false} SumConcat(a: seq<int>, b: seq<int>)
    ensures Sum(a + b) == Sum(a) + Sum(b)
  {
    if b == [] {
      assert a + b == a;
    } else {
      assert (a + b)[..|a + b| - 1] == a + b[..|b| - 1];
      SumConcat(a, b[..|b| - 1]);
    }
  }

  lemma BytesConcat(a: seq<Packet>, b: seq<Packet>, d: nat)
    ensures Bytes(a + b, d) == Bytes(a, d) + Bytes(b, d)
  {
    var x, y := InDirection(a, d), InDirection(b, d);
    InDirectionConcat(a, b, d);
    assert Payloads(x + y) == Payloads(x) + Payloads(y);
    SumConcat(Payloads(x), Payloads(y));
  }

  lemma {:induction false} TotalsOfRuns(runs: seq<seq<Packet>>, d: nat)
    ensures DirectionCount(runs, d) == |InDirection(Flatten(runs), d)|
    ensures DirectionBytes(runs, d) == Bytes(Flatten(runs), d)
  {
    if runs == [] {
      assert Payloads([]) == [];
    } else {
      var init, last := runs[..|runs| - 1], runs[|runs| - 1];
      TotalsOfRuns(init, d);
      InDirectionConcat(Flatten(init), last, d);
      BytesConcat(Flatten(init), last, d);
    }
  }

  datatype Subflows = Subflows(count: nat, fwdPackets: real, bwdPackets: real, fwdBytes: real, bwdBytes: real)

  function Average(total: int, count: nat): (average: real)
    requires count > 0
    ensures IsAverage(average, count, total)
  {
    total as real / count as real
  }

  ghost predicate IsAverage(average: real, count: nat, total: int) {
    average * count as real == total as real
  }

  /** Averages times count give the flow's per-direction totals. */
  ghost predicate Averages(r: Subflows, packets: seq<Packet>) {
    && IsAverage(r.fwdPackets, r.count, |InDirection(packets, 0)|)
    && IsAverage(r.bwdPackets, r.count, |InDirection(packets, 1)|)
    && IsAverage(r.fwdBytes, r.count, Bytes(packets, 0))
    && IsAverage(r.bwdBytes, r.count, Bytes(packets, 1))
  }

  lemma AveragesOverRuns(packets: seq<Packet>, runs: seq<seq<Packet>>)
    requires Flatten(runs) == packets && runs != []
    ensures Averages(Subflows(|runs|,
                              Average(DirectionCount(runs, 0), |runs|), Average(DirectionCount(runs, 1), |runs|),
                              Average(DirectionBytes(runs, 0), |runs|), Average(DirectionBytes(runs, 1), |runs|)),
                     packets)
  {
    TotalsOfRuns(runs, 0);
    TotalsOfRuns(runs, 1);
  }

  /** Main theorem: averages times count give the flow's per-direction totals, and the count is one
      more than the number of gaps over a second. */
  method SubflowMetrics(packets: seq<Packet>) returns (r: Subflows)
    ensures packets == [] ==> r == Subflows(0, 0.0, 0.0, 0.0, 0.0)
    ensures packets != [] ==> Averages(r, packets) && r.count == 1 + |LargeGaps(Times(packets), 1_000_000)|
  {
    if packets == [] {
      return Subflows(0, 0.0, 0.0, 0.0, 0.0);
    }
    var groups := GroupRuns(packets, SUBFLOW_GAP);
    var count := |groups|;
    r := Subflows(count,
                  Average(DirectionCount(groups, 0), count), Average(DirectionCount(groups, 1), count),
                  Average(DirectionBytes(groups, 0), count), Average(DirectionBytes(groups, 1), count));
    RunsFlatten(packets, SUBFLOW_GAP);
    RunsCountGaps(packets, SUBFLOW_GAP);
    AveragesOverRuns(packets, groups);
  }

  // ---------------------------------------------------------------- bulk transfer

  function Carrying(packets: seq<Packet>, d: nat): seq<Packet> {
    if packets == [] then []
    else
      var p := packets[|packets| - 1];
      Carrying(packets[..|packets| - 1], d) + (if p.direction == d && p.payload > 0 then [p] else [])
  }

  function Qualifying(runs: seq<seq<Packet>>): seq<seq<Packet>> {
    if runs == [] then []
    else
      var run := runs[|runs| - 1];
      Qualifying(runs[..|runs| - 1]) + (if |run| >= BULK_MIN_PACKETS then [run] else [])
  }

  function Duration(runs: seq<seq<Packet>>): nat {
    if runs == [] then 0 else Duration(runs[..|runs| - 1]) + AtLeastZero(Span(runs[|runs| - 1]))
  }

  /** For each run, the time from its first packet to its last. */
  function Spans(runs: seq<seq<Packet>>): seq<int> {
    seq(|runs|, i requires 0 <= i < |runs| =>
      if runs[i] != [] && runs[i][0].time < runs[i][|runs[i]| - 1].time then
        runs[i][|runs[i]| - 1].time - runs[i][0].time
      else 0)
  }

  lemma {:induction false} DurationIsSpans(runs: seq<seq<Packet>>)
    ensures Duration(runs) == Sum(Spans(runs))
  {
    if runs != [] {
      var n := |runs| - 1;
      DurationIsSpans(runs[..n]);
      assert Spans(runs)[..n] == Spans(runs[..n]);
    }
  }

  /** Exactly the runs of at least four packets, each as often as it occurs. */
  ghost predicate AreLong(some: seq<seq<Packet>>, runs: seq<seq<Packet>>) {
    forall run :: multiset(some)[run] == if |run| >= 4 then multiset(runs)[run] else 0
  }

  lemma QualifyingAreLong(runs: seq<seq<Packet>>)
    ensures AreLong(Qualifying(runs), runs)
  {
    forall run
      ensures multiset(Qualifying(runs))[run] == if |run| >= 4 then multiset(runs)[run] else 0
    {
      QualifyingAre(runs, run);
    }
  }

  lemma {:induction false} QualifyingAre(runs: seq<seq<Packet>>, run: seq<Packet>)
    ensures multiset(Qualifying(runs))[run] == if |run| >= 4 then multiset(runs)[run] else 0
  {
    if runs != [] {
      var n := |runs| - 1;
      QualifyingAre(runs[..n], run);
      assert runs == runs[..n] + [runs[n]];
    }
  }

  lemma {:induction false} QualifyingRuns(runs: seq<seq<Packet>>)
    ensures |Flatten(Qualifying(runs))| <= |Flatten(runs)|
    ensures Sum(Payloads(Flatten(Qualifying(runs)))) <= Sum(Payloads(Flatten(runs)))
  {
    if runs != [] {
      var init, last := runs[..|runs| - 1], runs[|runs| - 1];
      QualifyingRuns(init);
      PayloadsConcat(Flatten(init), last);
      PayloadsConcat(Flatten(Qualifying(init)), last);
      PayloadsNonnegative(last);
      if |last| >= BULK_MIN_PACKETS {
        assert Qualifying(runs)[..|Qualifying(init)|] == Qualifying(init);
      } else {
        assert Qualifying(runs) == Qualifying(init);
      }
    }
  }

  lemma PayloadsConcat(a: seq<Packet>, b: seq<Packet>)
    ensures Sum(Payloads(a + b)) == Sum(Payloads(a)) + Sum(Payloads(b))
  {
    assert Payloads(a + b) == Payloads(a) + Payloads(b);
    SumConcat(Payloads(a), Payloads(b));
  }

  lemma {:induction false} PayloadsNonnegative(packets: seq<Packet>)
    ensures 0 <= Sum(Payloads(packets))
  {
    if packets != [] {
      var n := |packets| - 1;
      assert Payloads(packets)[..n] == Payloads(packets[..n]);
      PayloadsNonnegative(packets[..n]);
    }
  }

  /** Packets without payload add no bytes. */
  lemma {:induction false} CarryingHasAllBytes(packets: seq<Packet>, d: nat)
    ensures Sum(Payloads(Carrying(packets, d))) == Bytes(packets, d)
    ensures |Carrying(packets, d)| <= |InDirection(packets, d)|
  {
    if packets != [] {
      var n := |packets| - 1;
      CarryingHasAllBytes(packets[..n], d);
      PayloadsConcat(Carrying(packets[..n], d), [packets[n]]);
      PayloadsConcat(InDirection(packets[..n], d), [packets[n]]);
      assert Payloads([packets[n]]) == [packets[n].payload];
      SumSnoc([], packets[n].payload);
      assert [] + [packets[n].payload] == [packets[n].payload];
      if packets[n].direction == d && packets[n].payload == 0 {
        assert Carrying(packets, d) == Carrying(packets[..n], d);
      }
      if packets[n].direction != d {
        assert Carrying(packets, d) == Carrying(packets[..n], d);
        assert InDirection(packets, d) == InDirection(packets[..n], d);
      }
    }
  }

  datatype Bulk = Bulk(bytes: int, packets: int, rate: real)

  method SelectCarrying(packets: seq<Packet>, d: nat) returns (selected: seq<Packet>)
    ensures selected == Carrying(packets, d)
  {
    selected := [];
    for i := 0 to |packets|
      invariant selected == Carrying(packets[..i], d)
    {
      assert packets[..i + 1][..i] == packets[..i];
      if packets[i].direction == d && packets[i].payload > 0 {
        selected := selected + [packets[i]];
      }
    }
    assert packets[..|packets|] == packets;
  }

  /** Bytes per second over a duration in microseconds; none over no time. */
  ghost predicate IsRate(rate: real, bytes: int, microseconds: int) {
    if microseconds > 0 then rate * microseconds as real == bytes as real * 1_000_000.0 else rate == 0.0
  }

  function Rate(bytes: int, microseconds: int): (rate: real)
    ensures IsRate(rate, bytes, microseconds)
  {
    if microseconds <= 0 then 0.0
    else
      var seconds := microseconds as real / 1_000_000.0;
      bytes as real / seconds
  }

  /** Runs of payload packets of one direction: together they are exactly those packets, and they
      are cut only and always at large gaps. */
  ghost predicate BulkRuns(runs: seq<seq<Packet>>, packets: seq<Packet>, d: nat) {
    MaximalRuns(runs, 1_000_000) && Flatten(runs) == Carrying(packets, d)
  }

  lemma BulkIsBounded(runs: seq<seq<Packet>>, packets: seq<Packet>, d: nat)
    requires BulkRuns(runs, packets, d)
    ensures 0 <= Sum(Payloads(Flatten(Qualifying(runs)))) <= Bytes(packets, d)
    ensures |Flatten(Qualifying(runs))| <= |InDirection(packets, d)|
  {
    QualifyingRuns(runs);
    CarryingHasAllBytes(packets, d);
    PayloadsNonnegative(Flatten(Qualifying(runs)));
  }

  /** Main theorem: bulk runs are maximal runs of the direction's payload packets, each of at least
      four; so bulk bytes and packets never exceed the direction's, and the rate is the bytes over the
      time those runs span. */
  method BulkMetrics(packets: seq<Packet>, d: nat) returns (r: Bulk, ghost runs: seq<seq<Packet>>)
    ensures BulkRuns(runs, packets, d)
    ensures AreLong(Qualifying(runs), runs)
    ensures r.bytes == Sum(Payloads(Flatten(Qualifying(runs)))) && 0 <= r.bytes <= Bytes(packets, d)
    ensures r.packets == |Flatten(Qualifying(runs))| && r.packets <= |InDirection(packets, d)|
    ensures IsRate(r.rate, r.bytes, Sum(Spans(Qualifying(runs))))
  {
    var payloadPackets := SelectCarrying(packets, d);
    var all := GroupRuns(payloadPackets, BULK_GAP);
    runs := all;
    RunsAreMaximal(payloadPackets, BULK_GAP);
    RunsFlatten(payloadPackets, BULK_GAP);
    BulkIsBounded(all, packets, d);
    var qualifying := Qualifying(all);
    QualifyingAreLong(all);
    DurationIsSpans(qualifying);
    var bytes := Sum(Payloads(Flatten(qualifying)));
    r := Bulk(bytes, |Flatten(qualifying)|, Rate(bytes, Duration(qualifying)));
  }

  /** With the wider activity gap there are never more active periods than subflows. */
  lemma NoMorePeriodsThanSubflows(packets: seq<Packet>)
    ensures ACTIVITY_GAP == 5_000_000 && SUBFLOW_GAP == 1_000_000
    ensures |ActivePeriods(Times(packets), ACTIVITY_GAP)| <= |Runs(packets, SUBFLOW_GAP)|
  {
    if packets != [] {
      PeriodsCover(Times(packets), ACTIVITY_GAP);
      RunsCountGaps(packets, SUBFLOW_GAP);
      WiderGapCutsLess(Times(packets), SUBFLOW_GAP, ACTIVITY_GAP);
    }
  }
}
