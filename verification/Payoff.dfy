/** What closed trades pay, what they cost, and what the deadline chooses. */
module Payoff {
  import opened Basics
  import opened Market
  import opened Armed
  import opened Trade
  import opened Shape
  import opened Runs
  import opened Costs
  import opened LedgerFacts

  // ----- Gross payoff by exit reason ---------------------------------------------------------------

  function Signed(d: Direction, x: real): real { if d == Long then x else -x }

  /** The average exit price of a closed log: half at TP1 and half at the end, or all at the end. */
  function AverageExit(l: Levels, why: ExitReason, timePrice: real, tookTp1: bool): real {
    var last := match why
      case SL => l.stop
      case BREAKEVEN_AFTER_TP1 => l.breakeven
      case TP2 => l.tp2
      case TIME_EXIT => timePrice;
    if tookTp1 then (l.tp1 + last) / 2.0 else last
  }

  lemma {:induction false} ExitSides(d: Direction, e: ReplayEvent, r: Rates)
    requires Priced(e)
    ensures var g := Gross(ExecutionFillOf(e, d, r));
            g == if e.eventType == EntryFill then Signed(d, -(e.price.value * e.fraction.value))
                 else Signed(d, e.price.value * e.fraction.value)
  {
  }

  lemma {:induction false} ClosedGross(
      x: Setting, events: seq<ReplayEvent>, why: ExitReason, time: int, d: Direction, r: Rates)
    requires EntryOfOne(x) && ClosedLog(x, events, why, time)
    ensures AllPriced(events) && events[|events| - 2].price.Some? && events[0].price.Some?
    ensures Total(FillsOf(events, d, r), Gross) ==
            Signed(d, AverageExit(x.levels, why, events[|events| - 2].price.value, |events| > 3)
                      - events[0].price.value)
  {
    hide FillsOf, Total, ExecutionFillOf;
    ClosedFills(x, events, why, time, d, r);
    var n, fills := |events|, FillsOf(events, d, r);
    assert events[..n - 2][0] == events[0];
    ExitSides(d, events[0], r);
    ExitSides(d, events[n - 2], r);
    if n == 3 {
      assert fills == [fills[0], fills[1]];
      Total2(fills[0], fills[1], Gross);
    } else {
      assert events[..n - 2][1] == events[1];
      ExitSides(d, events[1], r);
      assert fills == [fills[0], fills[1], fills[2]];
      Total3(fills[0], fills[1], fills[2], Gross);
    }
  }

  lemma {:induction false} OrdinaryExit(x: Setting, s: State, c: Candle, b: Option<Batch>, isEntry: bool)
    requires Arrives(x, c, b, isEntry)
    requires Held(x, s, if isEntry then x.armed.events[0].time else c.openTime)
    requires isEntry ==> s.leg.position == FULL
    requires c.openTime < x.deadline
    ensures var r := CandleStep(x, s, c, b, isEntry); r.Exited? ==> r.reason != TIME_EXIT
  {
    if !isEntry { HalfMeansActive(x, s, c.openTime); }
    CandlePathShape(x, Activate(x, s, c.openTime), c, b, isEntry);
  }

  lemma {:induction false} DeadlineTimeExit(x: Setting, s: State, c: Candle, b: Option<Batch>)
    requires Arrives(x, c, b, false) && Held(x, s, c.openTime) && c.openTime >= x.deadline
    ensures var r := CandleStep(x, s, c, b, false);
            r.Exited? && (r.reason == TIME_EXIT ==>
              r.time == c.openTime && |r.state.events| >= 2
              && r.state.events[|r.state.events| - 2].price == Some(c.open))
  {
    hide FillEvents;
    HalfMeansActive(x, s, c.openTime);
    var s1 := Activate(x, s, c.openTime);
    DeadlinePathShape(x, s1, c, b);
    FillEventsAt(x.request.armed.signalId, [TimeFill(s1.leg.position, c)]);
  }

  /** A time exit happens at the open of the first candle at or after the deadline. */
  lemma {:induction false} TimeExitPrice(
      q: TradeRequest, cs: seq<Candle>, batches: seq<Batch>, fee: real, slippage: real) returns (k: nat)
    requires Accepted(q, cs, batches, fee, slippage) && Triggers(q, cs, batches)
    requires TradeReplay(q, cs, batches, fee, slippage).value.exitReason == Some(TIME_EXIT)
    ensures var t := TradeReplay(q, cs, batches, fee, slippage).value;
            && k < |cs| && t.exitTime == Some(cs[k].openTime)
            && t.deadline.Some? && cs[k].openTime >= t.deadline.value
            && (forall j :: 0 <= j < k ==> cs[j].openTime < t.deadline.value)
            && |t.events| >= 3 && t.events[|t.events| - 2].price == Some(cs[k].open)
  {
    hide Walk, CandleStep;
    AcceptedLaunches(q, cs, batches, fee, slippage);
    LaunchedLog(q, cs, batches, fee, slippage);
    var g := LaunchOf(q, cs, batches, fee, slippage);
    var last: State;
    last, k := RunStops(q, cs, batches, fee, slippage);
    var b := BatchAt(g.table, cs[k].openTime);
    if cs[k].openTime < g.x.deadline {
      OrdinaryExit(g.x, last, cs[k], b, k == g.entryIndex);
    } else {
      DeadlineTimeExit(g.x, last, cs[k], b);
    }
  }

  /** Candle `k` is the first of the series to open at or after `time`. */
  predicate FirstFrom(cs: seq<Candle>, time: int, k: nat) {
    k < |cs| && cs[k].openTime >= time && forall j :: 0 <= j < k ==> cs[j].openTime < time
  }

  predicate TookTp1(t: TradeResult) {
    exists i :: 0 <= i < |t.events| && t.events[i].eventType == Tp1Fill
  }

  /** The run of a closed trade: what its result reports is what its log tells. */
  lemma {:induction false} ClosedRun(
      q: TradeRequest, cs: seq<Candle>, batches: seq<Batch>, fee: real, slippage: real) returns (x: Setting)
    requires Accepted(q, cs, batches, fee, slippage)
    requires IsClosed(TradeReplay(q, cs, batches, fee, slippage).value)
    ensures Triggers(q, cs, batches) && EntryOfOne(x)
    ensures var t := TradeReplay(q, cs, batches, fee, slippage).value;
            && t.exitReason.Some? && t.exitTime.Some? && t.armed.entryPrice.Some? && t.deadline.Some?
            && t.armed == x.armed && x.levels == LevelsOf(q, t.armed.entryPrice.value)
            && |t.events| > 0 && t.events[0].price == t.armed.entryPrice
            && ClosedLog(x, t.events, t.exitReason.value, t.exitTime.value)
  {
    AcceptedLaunches(q, cs, batches, fee, slippage);
    LaunchArrives(q, cs, batches, fee, slippage);
    LaunchedLog(q, cs, batches, fee, slippage);
    x := LaunchOf(q, cs, batches, fee, slippage).x;
  }

  /** The gross payoff of every closed trade, by exit reason, in both directions. */
  lemma {:induction false} PayoffClassified(
      q: TradeRequest, cs: seq<Candle>, batches: seq<Batch>, fee: real, slippage: real, r: Rates)
    returns (timePrice: real)
    requires Accepted(q, cs, batches, fee, slippage)
    requires IsClosed(TradeReplay(q, cs, batches, fee, slippage).value)
    ensures var t := TradeReplay(q, cs, batches, fee, slippage).value;
            && AllPriced(t.events) && t.exitReason.Some? && t.armed.entryPrice.Some? && t.deadline.Some?
            && var entry, why := t.armed.entryPrice.value, t.exitReason.value;
               && Total(FillsOf(t.events, q.armed.direction, r), Gross) ==
                  Signed(q.armed.direction, AverageExit(LevelsOf(q, entry), why, timePrice, TookTp1(t)) - entry)
               && (why == BREAKEVEN_AFTER_TP1 || why == TP2 ==> TookTp1(t))
               && (why == TIME_EXIT ==> exists k: nat :: FirstFrom(cs, t.deadline.value, k) && cs[k].open == timePrice)
  {
    hide TradeReplay, ArmedReplay, Total, FillsOf, Gross, LevelsOf, ValidRequest;
    var t := TradeReplay(q, cs, batches, fee, slippage).value;
    var x := ClosedRun(q, cs, batches, fee, slippage);
    ClosedGross(x, t.events, t.exitReason.value, t.exitTime.value, q.armed.direction, r);
    ClosedTp1(x, t, t.exitReason.value, t.exitTime.value);
    timePrice := t.events[|t.events| - 2].price.value;
    if t.exitReason.value == TIME_EXIT {
      var k := TimeExitPrice(q, cs, batches, fee, slippage);
      assert FirstFrom(cs, t.deadline.value, k);
    }
  }

  lemma {:induction false} ClosedTp1(x: Setting, t: TradeResult, why: ExitReason, time: int)
    requires EntryOfOne(x) && ClosedLog(x, t.events, why, time)
    ensures TookTp1(t) <==> |t.events| > 3
  {
  }
}
