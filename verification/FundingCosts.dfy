/** Funding settlements between entry and exit, charged on the position that was really open. */
module FundingCosts {
  import opened Basics
  import opened Market
  import opened Armed
  import opened Trade
  import opened Shape
  import opened Runs
  import opened Costs
  import opened LedgerFacts
  import opened EventLog
  import opened Reconstruction

  datatype Observation = Observation(settlementTime: int, rate: Option<real>, mark: Option<real>)

  datatype Dataset = Dataset(coverageStart: int, coverageEnd: int, expected: seq<int>, observations: seq<Observation>)

  datatype Application = Application(
    eventType: EventType,
    settlementTime: int,
    rate: Option<real>,
    mark: Option<real>,
    openFraction: real,
    cashFlow: Option<real>)

  datatype Funded = Funded(
    applications: seq<Application>,
    cashFlow: real,
    dataMissing: bool,
    missing: seq<int>,
    eligible: bool,
    net: Option<real>,
    netR: Option<real>)

  datatype FundingError = UnpricedPositionChange

  predicate PositionChange(t: EventType) { t in {Tp1Fill, StopFill, Tp2Fill, TimeExit} }

  // ----- The open fraction ----------------------------------------------------------------------

  function FractionAfter(events: seq<ReplayEvent>, time: int, fraction: real): Result<real, FundingError> {
    if events == [] || events[0].time >= time then Ok(fraction)
    else if PositionChange(events[0].eventType) then
      if events[0].fraction.None? then Err(UnpricedPositionChange)
      else FractionAfter(events[1..], time, fraction - events[0].fraction.value)
    else FractionAfter(events[1..], time, fraction)
  }

  /** `_open_fraction_at`. */
  method OpenFractionAt(events: seq<ReplayEvent>, settlementTime: int) returns (r: Result<real, FundingError>)
    ensures r == FractionAfter(events, settlementTime, 1.0)
  {
    var fraction := 1.0;
    var i := 0;
    while i < |events|
      invariant 0 <= i <= |events|
      invariant FractionAfter(events, settlementTime, 1.0) == FractionAfter(events[i..], settlementTime, fraction)
    {
      var event := events[i];
      assert events[i..][0] == event && events[i..][1..] == events[i + 1..];
      if event.time >= settlementTime {
        break;
      }
      if PositionChange(event.eventType) {
        if event.fraction.None? {
          return Err(UnpricedPositionChange);
        }
        fraction := fraction - event.fraction.value;
      }
      i := i + 1;
    }
    r := Ok(fraction);
  }

  /** The part of a time-ordered log strictly before `time`. */
  function Before(events: seq<ReplayEvent>, time: int): seq<ReplayEvent> {
    if events == [] || events[0].time >= time then [] else [events[0]] + Before(events[1..], time)
  }

  lemma {:induction false} BeforeIsPrefix(events: seq<ReplayEvent>, time: int)
    ensures var n := |Before(events, time)|;
            n <= |events| && Before(events, time) == events[..n]
            && (forall i :: 0 <= i < n ==> events[i].time < time) && (n < |events| ==> events[n].time >= time)
  {
    if events != [] && events[0].time < time { BeforeIsPrefix(events[1..], time); }
  }

  lemma {:induction false} FractionOfPrefix(events: seq<ReplayEvent>, time: int, fraction: real)
    ensures FractionAfter(events, time, fraction) == FractionAfter(Before(events, time), time, fraction)
  {
    if events != [] && events[0].time < time {
      var rest := Before(events[1..], time);
      assert ([events[0]] + rest)[1..] == rest;
      if !PositionChange(events[0].eventType) {
        FractionOfPrefix(events[1..], time, fraction);
      } else if events[0].fraction.Some? {
        FractionOfPrefix(events[1..], time, fraction - events[0].fraction.value);
      }
    }
  }

  lemma {:induction false} OpenLogFraction(x: Setting, open: seq<ReplayEvent>, time: int)
    requires EntryOfOne(x) && OpenLog(x, open) && open[|open| - 1].time < time
    ensures FractionAfter(open, time, 1.0) == Ok(if |open| == 1 then 1.0 else 0.5)
  {
    var e1, e2 := open[1..], if |open| > 1 then open[2..] else [];
    assert e1 == [] || e1[0] == open[1];
    if |open| > 1 {
      assert e1[1..] == e2;
      assert FractionAfter(e1, time, 1.0) == FractionAfter(e2, time, 0.5);
      if |open| > 2 {
        assert e2[0] == open[2] && e2[1..] == [];
        assert FractionAfter(e2, time, 0.5) == FractionAfter([], time, 0.5);
      }
    }
  }

  lemma {:induction false} OpenPrefix(x: Setting, events: seq<ReplayEvent>, n: nat)
    requires OpenLog(x, events) && 1 <= n <= |events|
    ensures OpenLog(x, events[..n])
  {
  }

  /**
   * Strictly between entry and exit of a closed replay, the open fraction is 1 or 1/2, and it is the one the
   * reducer reads from exactly the events before the settlement.
   */
  lemma {:induction false} FractionIsReduced(
      q: TradeRequest, cs: seq<Candle>, batches: seq<Batch>, fee: real, slippage: real, time: int)
    requires Accepted(q, cs, batches, fee, slippage)
    requires var t := TradeReplay(q, cs, batches, fee, slippage).value;
             && IsClosed(t) && t.armed.entryTime.Some? && t.exitTime.Some?
             && t.armed.entryTime.value < time < t.exitTime.value
    ensures var t := TradeReplay(q, cs, batches, fee, slippage).value;
            var f := FractionAfter(t.events, time, 1.0);
            && f.Ok? && (f.value == 1.0 || f.value == 0.5)
            && Reduce(EMPTY_LOG, Before(t.events, time)).Ok?
            && Reduce(EMPTY_LOG, Before(t.events, time)).value.openFraction == f.value
  {
    AcceptedLaunches(q, cs, batches, fee, slippage);
    LaunchedLog(q, cs, batches, fee, slippage);
    LaunchArrives(q, cs, batches, fee, slippage);
    var g := LaunchOf(q, cs, batches, fee, slippage);
    var t := TradeReplay(q, cs, batches, fee, slippage).value;
    ClosedFraction(g.x, t.events, t.exitReason.value, t.exitTime.value, time);
  }

  lemma {:induction false} ClosedFraction(x: Setting, events: seq<ReplayEvent>, why: ExitReason, exit: int, time: int)
    requires EntryOfOne(x) && ClosedLog(x, events, why, exit) && x.armed.events[0].time < time < exit
    ensures var f := FractionAfter(events, time, 1.0);
            && f.Ok? && (f.value == 1.0 || f.value == 0.5)
            && Reduce(EMPTY_LOG, Before(events, time)).Ok?
            && Reduce(EMPTY_LOG, Before(events, time)).value.openFraction == f.value
  {
    var before := Before(events, time);
    var open := events[..|events| - 2];
    BeforeIsPrefix(events, time);
    assert open[0] == events[0];
    var n := |before|;
    assert 1 <= n <= |events| - 2;
    assert before == open[..n];
    OpenPrefix(x, open, n);
    FractionOfPrefix(events, time, 1.0);
    assert before[n - 1] == events[n - 1];
    OpenLogFraction(x, before, time);
    OpenReads(x, before);
  }

  // ----- Applying funding -------------------------------------------------------------------------

  predicate Ascending(times: seq<int>) {
    forall i, j :: 0 <= i < j < |times| ==> times[i] < times[j]
  }

  function TimesOf(observations: seq<Observation>): seq<int> {
    if observations == [] then []
    else TimesOf(observations[..|observations| - 1]) + [observations[|observations| - 1].settlementTime]
  }

  /** What a dataset is validated to satisfy when it is built. */
  predicate ValidDataset(d: Dataset) {
    && d.coverageStart < d.coverageEnd
    && Ascending(d.expected) && Ascending(TimesOf(d.observations))
    && (forall t :: t in d.expected ==> d.coverageStart <= t < d.coverageEnd)
    && (forall t :: t in TimesOf(d.observations) ==> t in d.expected)
  }

  /** The observation of a settlement, if the dataset has one. */
  function ObservationAt(observations: seq<Observation>, time: int): Option<Observation> {
    if observations == [] then None
    else if observations[|observations| - 1].settlementTime == time then Some(observations[|observations| - 1])
    else ObservationAt(observations[..|observations| - 1], time)
  }

  predicate CompleteObservation(o: Option<Observation>) {
    o.Some? && o.value.rate.Some? && o.value.mark.Some?
  }

  /** LONG pays a positive rate, SHORT receives it. */
  function SettlementCash(d: Direction, o: Observation, fraction: real): real
    requires o.rate.Some? && o.mark.Some?
  {
    (if d == Long then -1.0 else 1.0) * o.mark.value * o.rate.value * fraction
  }

  function ApplicationOf(d: Direction, o: Option<Observation>, time: int, fraction: real): Application {
    if CompleteObservation(o) then
      Application(FundingEvent, time, o.value.rate, o.value.mark, fraction, Some(SettlementCash(d, o.value, fraction)))
    else
      Application(FundingDataMissing, time, if o.Some? then o.value.rate else None,
        if o.Some? then o.value.mark else None,
                  fraction, None)
  }

  function Relevant(times: seq<int>, entry: int, exit: int): seq<int> {
    if times == [] then []
    else Relevant(times[..|times| - 1], entry, exit)
         + (if entry < times[|times| - 1] < exit then [times[|times| - 1]] else [])
  }

  /** The signed sum of mark, rate and the open fraction over the settlements whose observation is complete. */
  function SettledCash(d: Direction, events: seq<ReplayEvent>, observations: seq<Observation>, times: seq<int>): real {
    if times == [] then 0.0
    else
      var time := times[|times| - 1];
      var o := ObservationAt(observations, time);
      var f := FractionAfter(events, time, 1.0);
      SettledCash(d, events, observations, times[..|times| - 1])
      + (if CompleteObservation(o) && f.Ok? then SettlementCash(d, o.value, f.value) else 0.0)
  }

  /** The settlements without a complete observation, in their order. */
  function MissingTimes(observations: seq<Observation>, times: seq<int>): (m: seq<int>)
    ensures m == [] <==> AllComplete(observations, times)
  {
    if times == [] then []
    else
      var last := times[|times| - 1];
      assert times == times[..|times| - 1] + [last];
      MissingTimes(observations, times[..|times| - 1]) +
        (if CompleteObservation(ObservationAt(observations, last)) then [] else [last])
  }

  predicate AllComplete(observations: seq<Observation>, times: seq<int>) {
    forall i :: 0 <= i < |times| ==> CompleteObservation(ObservationAt(observations, times[i]))
  }

  /** The dataset covers the trade from its entry through its exit. */
  predicate Covers(d: Option<Dataset>, entry: int, exit: int) {
    d.Some? && d.value.coverageStart <= entry && exit < d.value.coverageEnd
  }

  /** A costed replay that funding can be applied to. */
  predicate Fundable(k: CostedResult) {
    IsClosed(k.trade) && k.trade.armed.entryTime.Some? && k.trade.exitTime.Some? && k.pnl.Some?
  }

  /** The risk of one unit, positive for every costed result with a profit and loss. */
  function Risk(k: CostedResult): real {
    Abs(k.trade.request.armed.entryPrice - k.trade.request.armed.stopPrice)
  }

  /** Every settlement the trade was open at can be priced: no position change before it lacks its fraction. */
  predicate FractionsKnown(events: seq<ReplayEvent>, times: seq<int>) {
    forall i :: 0 <= i < |times| ==> FractionAfter(events, times[i], 1.0).Ok?
  }

  /** What settling a list of times has produced. */
  ghost predicate Settled(d: Direction, events: seq<ReplayEvent>, observations: seq<Observation>, times: seq<int>,
                          applications: seq<Application>, missing: seq<int>, total: real) {
    && FractionsKnown(events, times)
    && |applications| == |times|
    && (forall i :: 0 <= i < |times| ==>
          applications[i] == ApplicationOf(d, ObservationAt(observations, times[i]), times[i],
            FractionAfter(events, times[i], 1.0).value))
    && total == SettledCash(d, events, observations, times)
    && missing == MissingTimes(observations, times)
  }

  lemma {:induction false} SettledOneMore(
      d: Direction, events: seq<ReplayEvent>, observations: seq<Observation>, times: seq<int>, i: nat,
      applications: seq<Application>, missing: seq<int>, total: real)
    requires i < |times| && Settled(d, events, observations, times[..i], applications, missing, total)
    requires FractionAfter(events, times[i], 1.0).Ok?
    ensures var f := FractionAfter(events, times[i], 1.0).value;
            var o := ObservationAt(observations, times[i]);
            Settled(d, events, observations, times[..i + 1], applications + [ApplicationOf(d, o, times[i], f)],
                    if CompleteObservation(o) then missing else missing + [times[i]],
                    if CompleteObservation(o) then total + SettlementCash(d, o.value, f) else total)
  {
    hide AllComplete;
    var now, next := times[..i], times[..i + 1];
    assert next[..i] == now && next[i] == times[i];
  }

  /** The settlement loop. */
  method SettleAll(d: Direction, events: seq<ReplayEvent>, observations: seq<Observation>, times: seq<int>)
    returns (failed: Option<FundingError>, applications: seq<Application>, missing: seq<int>, total: real)
    ensures failed.None? <==> FractionsKnown(events, times)
    ensures failed.None? ==> Settled(d, events, observations, times, applications, missing, total)
  {
    applications, missing, total := [], [], 0.0;
    for i := 0 to |times|
      invariant Settled(d, events, observations, times[..i], applications, missing, total)
    {
      var time := times[i];
      var observation := ObservationAt(observations, time);
      var fraction := OpenFractionAt(events, time);
      if fraction.Err? {
        return Some(fraction.error), applications, missing, total;
      }
      SettledOneMore(d, events, observations, times, i, applications, missing, total);
      if CompleteObservation(observation) {
        total := total + SettlementCash(d, observation.value, fraction.value);
      } else {
        missing := missing + [time];
      }
      applications := applications + [ApplicationOf(d, observation, time, fraction.value)];
    }
    assert times[..|times|] == times;
    failed := None;
  }

  // ----- Settlements, written out ------------------------------------------------------------------

  /**
   * One application in plain numbers: the rate and mark observed at its time, and, if both are there, mark times
   * rate times the open fraction, paid by LONG and received by SHORT.
   */
  predicate Charged(d: Direction, observations: seq<Observation>, a: Application) {
    && (forall o :: o in observations && o.settlementTime == a.settlementTime ==> a.rate == o.rate && a.mark == o.mark)
    && ((forall o :: o in observations ==> o.settlementTime != a.settlementTime) ==> a.rate == None && a.mark == None)
    && if a.rate.Some? && a.mark.Some? then
         && a.eventType == FundingEvent && a.cashFlow.Some?
         && if d == Long then a.cashFlow.value == -(a.mark.value * a.rate.value * a.openFraction)
            else a.cashFlow.value == a.mark.value * a.rate.value * a.openFraction
       else a.eventType == FundingDataMissing && a.cashFlow == None
  }

  /** What the applications add up to. */
  function CashSum(applications: seq<Application>): real {
    if applications == [] then 0.0
    else
      var last := applications[|applications| - 1];
      CashSum(applications[..|applications| - 1]) + (if last.cashFlow.Some? then last.cashFlow.value else 0.0)
  }

  lemma {:induction false} ObservedAt(observations: seq<Observation>, time: int)
    requires Ascending(TimesOf(observations))
    ensures var o := ObservationAt(observations, time);
            && (o.Some? ==> o.value in observations && o.value.settlementTime == time)
            && forall x :: x in observations && x.settlementTime == time ==> o == Some(x)
    ensures |TimesOf(observations)| == |observations|
    ensures forall i :: 0 <= i < |observations| ==> TimesOf(observations)[i] == observations[i].settlementTime
    decreases |observations|
  {
    if observations != [] {
      var init, last := observations[..|observations| - 1], observations[|observations| - 1];
      assert TimesOf(init) == TimesOf(observations)[..|TimesOf(observations)| - 1];
      ObservedAt(init, time);
      assert observations == init + [last];
      forall x | x in init ensures x.settlementTime != last.settlementTime {
        var i :| 0 <= i < |init| && init[i] == x;
        assert TimesOf(observations)[i] < TimesOf(observations)[|init|];
      }
    }
  }

  lemma {:induction false} ApplicationCharges(
      d: Direction, observations: seq<Observation>, time: int, fraction: real)
    requires Ascending(TimesOf(observations))
    ensures Charged(d, observations, ApplicationOf(d, ObservationAt(observations, time), time, fraction))
  {
    ObservedAt(observations, time);
    var o := ObservationAt(observations, time);
    if CompleteObservation(o) { Signs(o.value.mark.value, o.value.rate.value, fraction); }
  }

  lemma {:induction false} Signs(mark: real, rate: real, fraction: real)
    ensures -1.0 * mark * rate * fraction == -(mark * rate * fraction)
    ensures 1.0 * mark * rate * fraction == mark * rate * fraction
  {
  }

  /** What the settlement loop produces is charged in plain numbers and adds up to its total. */
  lemma {:induction false} SettledIsCharged(
      d: Direction, events: seq<ReplayEvent>, observations: seq<Observation>, times: seq<int>,
      applications: seq<Application>, missing: seq<int>, total: real)
    requires Ascending(TimesOf(observations))
    requires Settled(d, events, observations, times, applications, missing, total)
    ensures forall i :: 0 <= i < |times| ==>
              Charged(d, observations, applications[i]) && applications[i].settlementTime == times[i]
    ensures total == CashSum(applications)
    decreases |times|
  {
    hide Charged;
    forall i | 0 <= i < |times| ensures Charged(d, observations, applications[i]) {
      ApplicationCharges(d, observations, times[i], FractionAfter(events, times[i], 1.0).value);
    }
    if times != [] {
      var n := |times| - 1;
      var init := times[..n];
      assert forall i :: 0 <= i < n ==> init[i] == times[i];
      SettledIsCharged(d, events, observations, init, applications[..n], MissingTimes(observations, init),
                       SettledCash(d, events, observations, init));
    }
  }

  /** With marks and rates not below zero LONG never receives and SHORT never pays. */
  lemma {:induction false} LongNeverReceives(
      d: Direction, observations: seq<Observation>, applications: seq<Application>)
    requires forall i :: 0 <= i < |applications| ==> Charged(d, observations, applications[i])
    requires forall i :: 0 <= i < |applications| ==> 0.0 <= applications[i].openFraction
    requires forall o :: o in observations ==>
               && (o.rate.Some? ==> 0.0 <= o.rate.value) && (o.mark.Some? ==> 0.0 <= o.mark.value)
    ensures if d == Long then CashSum(applications) <= 0.0 else CashSum(applications) >= 0.0
    decreases |applications|
  {
    if applications != [] {
      var n := |applications| - 1;
      var last := applications[n];
      LongNeverReceives(d, observations, applications[..n]);
      if last.rate.Some? && last.mark.Some? {
        var o :| o in observations && o.settlementTime == last.settlementTime;
        NotBelowZero(last.mark.value, last.rate.value, last.openFraction);
      }
    }
  }

  lemma {:induction false} NotBelowZero(a: real, b: real, c: real)
    requires 0.0 <= a && 0.0 <= b && 0.0 <= c
    ensures 0.0 <= a * b * c
  {
    var ab := a * b;
    assert 0.0 <= ab;
    assert 0.0 <= ab * c;
  }

  /** The same settlements on the other side move the same money the other way. */
  lemma {:induction false} FlippedFunding(
      d: Direction, observations: seq<Observation>, a: seq<Application>, b: seq<Application>)
    requires |a| == |b|
    requires forall i :: 0 <= i < |a| ==> Charged(d, observations, a[i])
    requires forall i :: 0 <= i < |b| ==> Charged(if d == Long then Short else Long, observations, b[i])
    requires forall i :: 0 <= i < |a| ==>
               a[i].settlementTime == b[i].settlementTime && a[i].openFraction == b[i].openFraction
    ensures CashSum(a) == -CashSum(b)
    decreases |a|
  {
    if a != [] {
      var n := |a| - 1;
      FlippedFunding(d, observations, a[..n], b[..n]);
      SameObserved(d, observations, a[n], b[n]);
    }
  }

  lemma {:induction false} SameObserved(d: Direction, observations: seq<Observation>, a: Application, b: Application)
    requires Charged(d, observations, a) && Charged(if d == Long then Short else Long, observations, b)
    requires a.settlementTime == b.settlementTime && a.openFraction == b.openFraction
    ensures a.rate == b.rate && a.mark == b.mark
    ensures (if a.cashFlow.Some? then a.cashFlow.value else 0.0) ==
      -(if b.cashFlow.Some? then b.cashFlow.value else 0.0)
  {
    if o :| o in observations && o.settlementTime == a.settlementTime {
    }
  }

  /** `apply_funding`. */
  method ApplyFunding(k: CostedResult, dataset: Option<Dataset>) returns (r: Result<Funded, FundingError>)
    requires dataset.Some? ==> ValidDataset(dataset.value)
    requires k.pnl.Some? ==> Risk(k) > 0.0
    ensures !Fundable(k) ==> r == Ok(Funded([], 0.0, false, [], false, None, None))
    ensures Fundable(k) && k.scenario == ZERO ==>
      r == Ok(Funded([], 0.0, false, [], true, Some(k.pnl.value.net), Some(k.pnl.value.netR)))
    ensures Fundable(k) && k.scenario != ZERO &&
            !Covers(dataset, k.trade.armed.entryTime.value, k.trade.exitTime.value) ==>
              r == Ok(Funded([], 0.0, true, [], false, None, None))
    ensures Fundable(k) && k.scenario != ZERO &&
            Covers(dataset, k.trade.armed.entryTime.value, k.trade.exitTime.value) ==>
              var times := Relevant(dataset.value.expected, k.trade.armed.entryTime.value, k.trade.exitTime.value);
              var d := k.trade.request.armed.direction;
              && (r.Ok? <==> FractionsKnown(k.trade.events, times))
              && (r.Ok? ==>
                    var total := SettledCash(d, k.trade.events, dataset.value.observations, times);
                    var complete := AllComplete(dataset.value.observations, times);
                    && r.value.cashFlow == total
                    && |r.value.applications| == |times|
                    && (forall i :: 0 <= i < |times| ==>
                          r.value.applications[i] ==
                          ApplicationOf(d, ObservationAt(dataset.value.observations, times[i]), times[i],
                                        FractionAfter(k.trade.events, times[i], 1.0).value))
                    && r.value.dataMissing == !complete
                    && r.value.missing == MissingTimes(dataset.value.observations, times)
                    && r.value.eligible == complete
                    && r.value.net == (if complete then Some(k.pnl.value.net + total) else None)
                    && r.value.netR == (if complete then Some((k.pnl.value.net + total) / Risk(k)) else None))
    ensures r.Ok? && r.value.applications != [] ==>
              var data, d := dataset.value, k.trade.request.armed.direction;
              && dataset.Some? && Fundable(k) && k.scenario != ZERO
              && (forall i :: 0 <= i < |r.value.applications| ==>
                    Charged(d, data.observations, r.value.applications[i]))
    ensures r.Ok? ==> r.value.cashFlow == CashSum(r.value.applications)
  {
    hide Charged;
    if !Fundable(k) {
      return Ok(Funded([], 0.0, false, [], false, None, None));
    }
    if k.scenario == ZERO {
      return Ok(Funded([], 0.0, false, [], true, Some(k.pnl.value.net), Some(k.pnl.value.netR)));
    }
    var entry, exit := k.trade.armed.entryTime.value, k.trade.exitTime.value;
    if dataset.None? || dataset.value.coverageStart > entry || dataset.value.coverageEnd <= exit {
      return Ok(Funded([], 0.0, true, [], false, None, None));
    }
    var data := dataset.value;
    var times := Relevant(data.expected, entry, exit);
    var failed, applications, missing, total :=
      SettleAll(k.trade.request.armed.direction, k.trade.events, data.observations, times);
    if failed.Some? {
      return Err(failed.value);
    }
    SettledIsCharged(k.trade.request.armed.direction, k.trade.events, data.observations, times, applications, missing,
                     total);
    if missing != [] {
      return Ok(Funded(applications, total, true, missing, false, None, None));
    }
    var net := k.pnl.value.net + total;
    r := Ok(Funded(applications, total, false, [], true, Some(net), Some(net / Risk(k))));
  }

  lemma {:induction false} RelevantInside(times: seq<int>, entry: int, exit: int)
    ensures forall i :: 0 <= i < |Relevant(times, entry, exit)| ==> entry < Relevant(times, entry, exit)[i] < exit
    ensures forall t :: t in Relevant(times, entry, exit) <==> t in times && entry < t < exit
    decreases |times|
  {
    if times != [] {
      RelevantInside(times[..|times| - 1], entry, exit);
      assert times == times[..|times| - 1] + [times[|times| - 1]];
    }
  }

  /** The signed sum of mark, rate and the fraction that the log shows open just before each settlement. */
  function ReducedCash(d: Direction, events: seq<ReplayEvent>, observations: seq<Observation>, times: seq<int>): real {
    if times == [] then 0.0
    else
      var time := times[|times| - 1];
      var o, before := ObservationAt(observations, time), Reduce(EMPTY_LOG, Before(events, time));
      ReducedCash(d, events, observations, times[..|times| - 1])
      + (if CompleteObservation(o) && before.Ok? then SettlementCash(d, o.value, before.value.openFraction) else 0.0)
  }

  /** At every settlement the open fraction is known, is 1 or 1/2, and is what the log shows. */
  predicate ChargesOpenPosition(events: seq<ReplayEvent>, times: seq<int>) {
    forall i :: 0 <= i < |times| ==>
      var f, before := FractionAfter(events, times[i], 1.0), Reduce(EMPTY_LOG, Before(events, times[i]));
      && f.Ok? && (f.value == 1.0 || f.value == 0.5)
      && before.Ok? && before.value.openFraction == f.value
  }

  lemma {:induction false} SettledIsReduced(
      d: Direction, events: seq<ReplayEvent>, observations: seq<Observation>, times: seq<int>)
    requires ChargesOpenPosition(events, times)
    ensures SettledCash(d, events, observations, times) == ReducedCash(d, events, observations, times)
    decreases |times|
  {
    if times != [] {
      var init := times[..|times| - 1];
      assert forall i :: 0 <= i < |init| ==> init[i] == times[i];
      SettledIsReduced(d, events, observations, init);
    }
  }

  /**
   * On a closed costed replay funding never fails, charges each settlement on the fraction the log shows open, and
   * so adds up to the signed sum over those fractions.
   */
  lemma {:induction false} FundingUsesOpenPosition(
      q: TradeRequest, cs: seq<Candle>, s: Scenario, batches: seq<Batch>, data: Dataset)
    requires ValidRequest(q) && ValidBatches(batches) && ReplayWithCosts(q, cs, s, batches).Ok?
    requires Fundable(ReplayWithCosts(q, cs, s, batches).value)
    ensures Risk(ReplayWithCosts(q, cs, s, batches).value) > 0.0
    ensures var t := ReplayWithCosts(q, cs, s, batches).value.trade;
            var times := Relevant(data.expected, t.armed.entryTime.value, t.exitTime.value);
            && FractionsKnown(t.events, times) && ChargesOpenPosition(t.events, times)
            && SettledCash(q.armed.direction, t.events, data.observations, times) ==
               ReducedCash(q.armed.direction, t.events, data.observations, times)
  {
    hide Total, CandleStep;
    CostedUnfolds(q, cs, s, batches);
    var cost := CostRequest(q, ArmedReplay(q.armed, cs, batches).value, s);
    var t := ReplayWithCosts(q, cs, s, batches).value.trade;
    var times := Relevant(data.expected, t.armed.entryTime.value, t.exitTime.value);
    RelevantInside(data.expected, t.armed.entryTime.value, t.exitTime.value);
    AcceptedLaunches(cost, cs, batches, RatesOf(s).fee, RatesOf(s).slippage);
    forall i | 0 <= i < |times|
      ensures FractionAfter(t.events, times[i], 1.0).Ok?
      ensures var f := FractionAfter(t.events, times[i], 1.0).value;
              && (f == 1.0 || f == 0.5)
              && Reduce(EMPTY_LOG, Before(t.events, times[i])).Ok?
              && Reduce(EMPTY_LOG, Before(t.events, times[i])).value.openFraction == f
    {
      FractionIsReduced(cost, cs, batches, RatesOf(s).fee, RatesOf(s).slippage, times[i]);
    }
    SettledIsReduced(q.armed.direction, t.events, data.observations, times);
  }
}
