/** What the cash ledger of a closed trade adds up to. */
module LedgerFacts {
  import opened Basics
  import opened Market
  import opened Armed
  import opened Trade
  import opened Shape
  import opened Runs
  import opened Costs

  // ----- Sums --------------------------------------------------------------------------------

  lemma {:induction false} FillsConcat(a: seq<ReplayEvent>, b: seq<ReplayEvent>, d: Direction, r: Rates)
    requires AllPriced(a) && AllPriced(b)
    ensures AllPriced(a + b) && FillsOf(a + b, d, r) == FillsOf(a, d, r) + FillsOf(b, d, r)
    decreases |b|
  {
    if b == [] {
      assert a + b == a;
    } else {
      assert (a + b)[..|a + b| - 1] == a + b[..|b| - 1];
      FillsConcat(a, b[..|b| - 1], d, r);
    }
  }

  lemma {:induction false} TotalConcat(a: seq<ExecutionFill>, b: seq<ExecutionFill>, m: ExecutionFill -> real)
    ensures Total(a + b, m) == Total(a, m) + Total(b, m)
    decreases |b|
  {
    if b == [] {
      assert a + b == a;
    } else {
      assert (a + b)[..|a + b| - 1] == a + b[..|b| - 1];
      TotalConcat(a, b[..|b| - 1], m);
    }
  }

  lemma {:induction false} OneFill(e: ReplayEvent, d: Direction, r: Rates)
    requires IsFill(e.eventType) ==> Priced(e)
    ensures AllPriced([e])
    ensures FillsOf([e], d, r) == if IsFill(e.eventType) then [ExecutionFillOf(e, d, r)] else []
  {
  }

  lemma {:induction false} Total2(a: ExecutionFill, b: ExecutionFill, m: ExecutionFill -> real)
    ensures Total([a, b], m) == m(a) + m(b)
  {
    assert [a, b][..1] == [a] && [a][..0] == [] && [a][0] == a && [a, b][1] == b;
    assert Total([a], m) == Total([], m) + m(a);
  }

  lemma {:induction false} Total3(a: ExecutionFill, b: ExecutionFill, c: ExecutionFill, m: ExecutionFill -> real)
    ensures Total([a, b, c], m) == m(a) + m(b) + m(c)
  {
    assert [a, b, c][..2] == [a, b] && [a, b, c][2] == c;
    Total2(a, b, m);
  }

  // ----- The fills of a closed log ---------------------------------------------------------------

  /** The two or three fills of a closed log, in order: the entry, TP1 if taken, the closing fill. */
  function FillEventsOf(x: Setting, events: seq<ReplayEvent>): seq<ReplayEvent>
    requires 3 <= |events| <= 5
  {
    if |events| == 3 then [events[0], events[1]] else [events[0], events[1], events[|events| - 2]]
  }

  lemma {:induction false} TwoFills(a: ReplayEvent, b: ReplayEvent, d: Direction, r: Rates)
    requires Priced(a) && Priced(b) && IsFill(a.eventType) && IsFill(b.eventType)
    ensures AllPriced([a, b]) && FillsOf([a, b], d, r) == [ExecutionFillOf(a, d, r), ExecutionFillOf(b, d, r)]
  {
    OneFill(a, d, r);
    OneFill(b, d, r);
    FillsConcat([a], [b], d, r);
  }

  lemma {:induction false} ClosedFills(
      x: Setting, events: seq<ReplayEvent>, why: ExitReason, time: int, d: Direction, r: Rates)
    requires EntryOfOne(x) && ClosedLog(x, events, why, time)
    ensures AllPriced(events)
    ensures var f := FillEventsOf(x, events);
            && (forall i :: 0 <= i < |f| ==> Priced(f[i]) && IsFill(f[i].eventType))
            && |f| == (if |events| == 3 then 2 else 3)
            && |FillsOf(events, d, r)| == |f|
            && forall i :: 0 <= i < |f| ==> FillsOf(events, d, r)[i] == ExecutionFillOf(f[i], d, r)
  {
    hide FillsOf;
    var n := |events|;
    var open := events[..n - 2];
    assert open[0] == events[0];
    if n > 3 { assert open[1] == events[1]; }
    if n > 4 { assert open[2] == events[2]; }
    assert Priced(events[n - 2]) && IsFill(events[n - 2].eventType);
    assert events[n - 1].eventType == ClosedEvent;
    assert AllPriced(events);
    TailFills(events, d, r);
    HeadFills(x, open, d, r);
  }

  lemma {:induction false} TailFills(events: seq<ReplayEvent>, d: Direction, r: Rates)
    requires |events| >= 3 && AllPriced(events)
    requires IsFill(events[|events| - 2].eventType) && events[|events| - 1].eventType == ClosedEvent
    ensures AllPriced(events[..|events| - 2])
    ensures FillsOf(events, d, r) ==
      FillsOf(events[..|events| - 2], d, r) + [ExecutionFillOf(events[|events| - 2], d, r)]
  {
    var n := |events|;
    assert events[..n - 1][..n - 2] == events[..n - 2];
    assert events[..n - 1][n - 2] == events[n - 2];
  }

  lemma {:induction false} HeadFills(x: Setting, open: seq<ReplayEvent>, d: Direction, r: Rates)
    requires EntryOfOne(x) && OpenLog(x, open)
    ensures AllPriced(open)
    ensures FillsOf(open, d, r) == if |open| == 1 then [ExecutionFillOf(open[0], d, r)]
                                   else [ExecutionFillOf(open[0], d, r), ExecutionFillOf(open[1], d, r)]
  {
    if |open| == 1 {
      assert open == [open[0]];
      OneFill(open[0], d, r);
    } else {
      TwoFills(open[0], open[1], d, r);
      if |open| == 2 {
        assert open == [open[0], open[1]];
      } else {
        assert open[..2] == [open[0], open[1]];
        assert !IsFill(open[2].eventType);
      }
    }
  }

  // ----- Conservation ---------------------------------------------------------------------------

  /** The fractions of a closed log: one for the entry, then one, or two halves. */
  lemma {:induction false} ClosedFractions(
      x: Setting, events: seq<ReplayEvent>, why: ExitReason, time: int, d: Direction, r: Rates)
    requires EntryOfOne(x) && ClosedLog(x, events, why, time)
    ensures AllPriced(events)
    ensures var fills := FillsOf(events, d, r);
            && 2 <= |fills| <= 3
            && fills[0].eventType == EntryFill && fills[0].fraction == 1.0
            && (forall i :: 1 <= i < |fills| ==> fills[i].eventType != EntryFill)
            && (if |fills| == 2 then fills[1].fraction == 1.0 else fills[1].fraction == 0.5 == fills[2].fraction)
  {
    hide FillsOf;
    ClosedFills(x, events, why, time, d, r);
    var n := |events|;
    assert events[..n - 2][0] == events[0];
    if n > 3 { assert events[..n - 2][1] == events[1]; }
  }

  /** Entries count one, exits add up to one. */
  lemma {:induction false} ClosedBalances(
      x: Setting, events: seq<ReplayEvent>, why: ExitReason, time: int, d: Direction, r: Rates)
    requires EntryOfOne(x) && ClosedLog(x, events, why, time)
    ensures AllPriced(events)
    ensures var fills := FillsOf(events, d, r);
            && 2 <= |fills| <= 3
            && fills[0].eventType == EntryFill && fills[0].fraction == 1.0
            && Total(fills, ExitFraction) == 1.0
            && (forall i :: 1 <= i < |fills| ==> fills[i].eventType != EntryFill)
            && (if |fills| == 2 then fills[1].fraction == 1.0 else fills[1].fraction == 0.5 == fills[2].fraction)
  {
    hide FillsOf, Total, ClosedLog, EntryOfOne, AllPriced;
    ClosedFractions(x, events, why, time, d, r);
    var fills := FillsOf(events, d, r);
    if |fills| == 2 {
      assert fills == [fills[0], fills[1]];
      Total2(fills[0], fills[1], ExitFraction);
    } else {
      assert fills == [fills[0], fills[1], fills[2]];
      Total3(fills[0], fills[1], fills[2], ExitFraction);
    }
  }

  /** The checks that guard the ledger never fire on a closed log. */
  lemma {:induction false} ClosedLedger(
      q: TradeRequest, x: Setting, t: TradeResult, s: Scenario, why: ExitReason, time: int)
    requires ValidRequest(q) && EntryOfOne(x) && ClosedLog(x, t.events, why, time)
    ensures AllPriced(t.events)
    ensures Ledger(q, t, s).Ok? && (IsClosed(t) <==> Ledger(q, t, s).value.pnl.Some?)
    ensures Ledger(q, t, s).value.fills == FillsOf(t.events, q.armed.direction, RatesOf(s))
    ensures Total(Ledger(q, t, s).value.fills, ExitFraction) == 1.0
  {
    ClosedBalances(x, t.events, why, time, q.armed.direction, RatesOf(s));
  }

  lemma {:induction false} LedgerAccepts(
      q: TradeRequest, cost: TradeRequest, cs: seq<Candle>, s: Scenario, batches: seq<Batch>)
    requires ValidRequest(q) && ValidRequest(cost) && ValidBatches(batches) && cost.armed == q.armed
    requires TradeReplay(cost, cs, batches, RatesOf(s).fee, RatesOf(s).slippage).Ok?
    ensures var t := TradeReplay(cost, cs, batches, RatesOf(s).fee, RatesOf(s).slippage).value;
            && Ledger(q, t, s).Ok?
            && (IsClosed(t) <==> Ledger(q, t, s).value.pnl.Some?)
            && (IsClosed(t) ==> Total(Ledger(q, t, s).value.fills, ExitFraction) == 1.0)
  {
    var r := RatesOf(s);
    var t := TradeReplay(cost, cs, batches, r.fee, r.slippage).value;
    AcceptedLaunches(cost, cs, batches, r.fee, r.slippage);
    if t.armed.state == TRIGGERED {
      var g := LaunchOf(cost, cs, batches, r.fee, r.slippage);
      LaunchedLog(cost, cs, batches, r.fee, r.slippage);
      match RunOf(g, cs)
      case Exited(st, _, why, time) => ClosedLedger(q, g.x, t, s, why, time);
      case Running(st) => HeadFills(g.x, t.events, q.armed.direction, r);
    } else {
      UntriggeredPriced(q.armed, cs, BatchTable(cs, batches).value, 0, 0, 0);
    }
  }

  /** The fractions that leave: those of every fill but entries. */
  function Leaving(fills: seq<ExecutionFill>): real {
    if fills == [] then 0.0
    else (if fills[0].eventType == EntryFill then 0.0 else fills[0].fraction) + Leaving(fills[1..])
  }

  lemma {:induction false} LeavingIs(fills: seq<ExecutionFill>)
    ensures Total(fills, ExitFraction) == Leaving(fills)
  {
    if fills != [] {
      LeavingIs(fills[1..]);
      TotalConcat([fills[0]], fills[1..], ExitFraction);
      assert fills == [fills[0]] + fills[1..];
      assert [fills[0]][..0] == [];
      assert Total([fills[0]], ExitFraction) == Total([], ExitFraction) + ExitFraction(fills[0]);
    }
  }

  /** When the ledger refuses a result, in the order of its checks. */
  lemma {:induction false} LedgerRefusesExactly(q: TradeRequest, t: TradeResult, s: Scenario)
    ensures var closed := t.armed.state == TRIGGERED && t.position == Some(FLAT);
            if exists i :: 0 <= i < |t.events| && IsFill(t.events[i].eventType) && !Priced(t.events[i]) then
              Ledger(q, t, s) == Err(UnpricedFill)
            else
              && AllPriced(t.events)
              && var fills := FillsOf(t.events, q.armed.direction, RatesOf(s));
                 if !closed then
                   Ledger(q, t, s).Ok? && Ledger(q, t, s).value.pnl == None && Ledger(q, t, s).value.fills == fills
                 else if |fills| < 2 || fills[0].eventType != EntryFill then Ledger(q, t, s) == Err(UnbalancedLedger)
                 else if fills[0].fraction != 1.0 then Ledger(q, t, s) == Err(UnbalancedLedger)
                 else if Leaving(fills) != 1.0 then Ledger(q, t, s) == Err(UnbalancedLedger)
                 else if q.armed.entryPrice == q.armed.stopPrice then Ledger(q, t, s) == Err(NonPositiveRisk)
                 else Ledger(q, t, s).Ok? && Ledger(q, t, s).value.pnl.Some? && Ledger(q, t, s).value.fills == fills
  {
    hide FillsOf, Total, Leaving;
    if AllPriced(t.events) { LeavingIs(FillsOf(t.events, q.armed.direction, RatesOf(s))); }
  }

  lemma {:induction false} UntriggeredPriced(
      r: ArmedRequest, cs: seq<Candle>, table: Batches, i: nat, fallback: nat, aggregate: nat)
    requires ValidCandles(cs) && i <= |cs|
    ensures var a := ArmedFrom(r, cs, table, i, fallback, aggregate);
            a.state != TRIGGERED ==> AllPriced(a.events)
    decreases |cs| - i
  {
    if i < |cs| {
      var c := cs[i];
      var b := BatchAt(table, c.openTime);
      var fallback' := if Complete(b) then fallback else fallback + 1;
      var aggregate' := if Complete(b) then aggregate + 1 else aggregate;
      if c.openTime < r.confirmationClose {
        UntriggeredPriced(r, cs, table, i + 1, fallback, aggregate);
      } else if c.openTime < r.expiresAt {
        if Complete(b) { RefusalsAreNoFills(r, Ordered(b.value.trades)); }
        if Decide(r, c, b).Wait? { UntriggeredPriced(r, cs, table, i + 1, fallback', aggregate'); }
      }
    }
  }

  lemma {:induction false} RefusalsAreNoFills(r: ArmedRequest, trades: seq<AggTrade>)
    ensures var d := DecideTrades(r, trades); d.Refuse? ==> !IsFill(d.event.eventType)
    decreases |trades|
  {
    if trades != [] { RefusalsAreNoFills(r, trades[1..]); }
  }

  predicate LedgerError(e: ReplayError) {
    e == UnpricedFill || e == UnbalancedLedger || e == NonPositiveRisk
  }

  lemma {:induction false} TableErrors(cs: seq<Candle>, table: Batches, batches: seq<Batch>)
    requires ValidCandles(cs)
    ensures TableFrom(cs, table, batches).Err? ==> !LedgerError(TableFrom(cs, table, batches).error)
    decreases |batches|
  {
    if batches != [] && AddBatch(cs, table, batches[0]).Ok? {
      TableErrors(cs, AddBatch(cs, table, batches[0]).value, batches[1..]);
    }
  }

  lemma {:induction false} ReplayErrors(
      q: TradeRequest, cs: seq<Candle>, batches: seq<Batch>, fee: real, slippage: real)
    ensures ArmedReplay(q.armed, cs, batches).Err? ==> !LedgerError(ArmedReplay(q.armed, cs, batches).error)
    ensures TradeReplay(q, cs, batches, fee, slippage).Err? ==>
      !LedgerError(TradeReplay(q, cs, batches, fee, slippage).error)
  {
    if ValidCandles(cs) { TableErrors(cs, map[], batches); }
  }

  /** An accepted costed replay is the ledger of an accepted replay with the cost-aware breakeven. */
  lemma {:induction false} CostedUnfolds(q: TradeRequest, cs: seq<Candle>, s: Scenario, batches: seq<Batch>)
    requires ValidRequest(q)
    ensures var k := ReplayWithCosts(q, cs, s, batches);
            && (ArmedReplay(q.armed, cs, batches).Err? ==> k.Err? && k.error == ArmedReplay(q.armed, cs, batches).error)
            && (ArmedReplay(q.armed, cs, batches).Ok? ==>
                  var cost := CostRequest(q, ArmedReplay(q.armed, cs, batches).value, s);
                  var t := TradeReplay(cost, cs, batches, RatesOf(s).fee, RatesOf(s).slippage);
                  && cost.armed == q.armed
                  && (k == Err(NegativeBreakeven)
                      || (t.Err? && k == Err(t.error))
                      || (t.Ok? && ValidRequest(cost) && k == Ledger(q, t.value, s))))
  {
  }

  /** `replay_with_costs` never fails on its own balance checks, for any valid request and data. */
  lemma {:induction false} BalanceErrorsUnreachable(q: TradeRequest, cs: seq<Candle>, s: Scenario, batches: seq<Batch>)
    requires ValidRequest(q) && ValidBatches(batches)
    ensures match ReplayWithCosts(q, cs, s, batches)
            case Err(e) => !LedgerError(e)
            case Ok(k) => (IsClosed(k.trade) <==> k.pnl.Some?) && (k.pnl.Some? ==> Total(k.fills, ExitFraction) == 1.0)
  {
    CostedUnfolds(q, cs, s, batches);
    ReplayErrors(q, cs, batches, RatesOf(s).fee, RatesOf(s).slippage);
    if ArmedReplay(q.armed, cs, batches).Ok? {
      var cost := CostRequest(q, ArmedReplay(q.armed, cs, batches).value, s);
      ReplayErrors(cost, cs, batches, RatesOf(s).fee, RatesOf(s).slippage);
      var t := TradeReplay(cost, cs, batches, RatesOf(s).fee, RatesOf(s).slippage);
      if t.Ok? && ValidRequest(cost) {
        LedgerAccepts(q, cost, cs, s, batches);
      }
    }
  }
}
