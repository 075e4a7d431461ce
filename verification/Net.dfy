/** Net results: the cost identity, the breakeven guarantee, and the deadline's choice of ledger. */
module Net {
  import opened Basics
  import opened Market
  import opened Armed
  import opened Trade
  import opened Shape
  import opened Runs
  import opened Costs
  import opened LedgerFacts
  import opened Payoff

  // ----- Net = gross - slippage - fees --------------------------------------------------------------

  /** Plan levels and candles that are nowhere below zero. */
  predicate NonNegativePrices(q: TradeRequest, cs: seq<Candle>) {
    && 0.0 <= q.armed.stopPrice && 0.0 <= q.armed.entryPrice && 0.0 <= q.tp1 && 0.0 <= q.tp2
    && (q.breakeven.Some? ==> 0.0 <= q.breakeven.value)
    && (forall i :: 0 <= i < |cs| ==> 0.0 <= cs[i].low)
  }

  predicate NonNegativeFills(events: seq<ReplayEvent>) {
    forall i :: 0 <= i < |events| && IsFill(events[i].eventType) ==>
      Priced(events[i]) && 0.0 <= events[i].price.value && 0.0 <= events[i].fraction.value
  }

  lemma {:induction false} FillIdentity(e: ReplayEvent, d: Direction, r: Rates)
    requires Priced(e) && 0.0 <= e.price.value && 0.0 <= e.fraction.value && 0.0 <= r.slippage
    ensures var f := ExecutionFillOf(e, d, r); Simulated(f) == Gross(f) - SlippageOf(f)
  {
  }

  lemma {:induction false} FillsIdentity(events: seq<ReplayEvent>, d: Direction, r: Rates)
    requires NonNegativeFills(events) && 0.0 <= r.slippage
    ensures AllPriced(events)
    ensures var f := FillsOf(events, d, r); Total(f, Simulated) == Total(f, Gross) - Total(f, SlippageOf)
    decreases |events|
  {
    if events != [] {
      var init, last := events[..|events| - 1], events[|events| - 1];
      FillsIdentity(init, d, r);
      if IsFill(last.eventType) {
        FillIdentity(last, d, r);
        var fills, f := FillsOf(init, d, r), ExecutionFillOf(last, d, r);
        Appended(fills, f, Simulated);
        Appended(fills, f, Gross);
        Appended(fills, f, SlippageOf);
      } else {
        assert FillsOf(events, d, r) == FillsOf(init, d, r);
      }
    }
  }

  lemma {:induction false} Appended(fills: seq<ExecutionFill>, f: ExecutionFill, m: ExecutionFill -> real)
    ensures Total(fills + [f], m) == Total(fills, m) + m(f)
  {
  }

  lemma {:induction false} ClosedFillsNonNegative(
      q: TradeRequest, cs: seq<Candle>, batches: seq<Batch>, fee: real, slippage: real)
    requires Accepted(q, cs, batches, fee, slippage) && NonNegativePrices(q, cs)
    requires IsClosed(TradeReplay(q, cs, batches, fee, slippage).value)
    ensures NonNegativeFills(TradeReplay(q, cs, batches, fee, slippage).value.events)
  {
    hide ClosedLog, CandleStep;
    AcceptedLaunches(q, cs, batches, fee, slippage);
    LaunchedLog(q, cs, batches, fee, slippage);
    TriggeredShape(q.armed, cs, BatchTable(cs, batches).value, 0, 0, 0);
    var g := LaunchOf(q, cs, batches, fee, slippage);
    var t := TradeReplay(q, cs, batches, fee, slippage).value;
    var entry := t.armed.entryPrice.value;
    var at := cs[Positions(cs)[t.armed.entryCandleOpen.value]];
    assert 0.0 <= at.low <= at.open;
    if t.exitReason == Some(TIME_EXIT) {
      var k := TimeExitPrice(q, cs, batches, fee, slippage);
      assert 0.0 <= cs[k].low <= cs[k].open;
    }
    LogNonNegative(g.x, t.events, t.exitReason.value, t.exitTime.value);
  }

  lemma {:induction false} LogNonNegative(x: Setting, events: seq<ReplayEvent>, why: ExitReason, time: int)
    requires EntryOfOne(x) && ClosedLog(x, events, why, time)
    requires 0.0 <= x.armed.events[0].price.value
    requires 0.0 <= x.levels.stop && 0.0 <= x.levels.tp1 && 0.0 <= x.levels.tp2 && 0.0 <= x.levels.breakeven
    requires why == TIME_EXIT ==> events[|events| - 2].price.Some? && 0.0 <= events[|events| - 2].price.value
    ensures NonNegativeFills(events)
  {
  }

  /** For prices nowhere below zero, what a closed trade nets is gross less slippage less fees. */
  lemma {:induction false} NetIsGrossLessCosts(q: TradeRequest, cs: seq<Candle>, s: Scenario, batches: seq<Batch>)
    requires ValidRequest(q) && ValidBatches(batches) && NonNegativePrices(q, cs)
    ensures var k := ReplayWithCosts(q, cs, s, batches);
            k.Ok? && k.value.pnl.Some? ==>
              k.value.pnl.value.net == k.value.pnl.value.gross - k.value.totalSlippage - k.value.totalFee
  {
    var k := ReplayWithCosts(q, cs, s, batches);
    CostedUnfolds(q, cs, s, batches);
    if k.Ok? && k.value.pnl.Some? {
      var cost := CostRequest(q, ArmedReplay(q.armed, cs, batches).value, s);
      ClosedFillsNonNegative(cost, cs, batches, RatesOf(s).fee, RatesOf(s).slippage);
      FillsIdentity(k.value.trade.events, q.armed.direction, RatesOf(s));
    }
  }

  // ----- Breakeven -------------------------------------------------------------------------------------

  /** What half of the entry is worth in cash after slippage and fee: paid by LONG, received by SHORT. */
  function HalfEntryCash(d: Direction, entry: real, r: Rates): real {
    if d == Long then 0.5 * (entry * (1.0 + r.slippage)) * (1.0 + r.fee)
    else 0.5 * (entry * (1.0 - r.slippage)) * (1.0 - r.fee)
  }

  /** What leaving half at `price` moves in cash after slippage and fee: received by LONG, paid by SHORT. */
  function HalfExitCash(d: Direction, price: real, r: Rates): real {
    if d == Long then 0.5 * (price * (1.0 - r.slippage)) * (1.0 - r.fee)
    else 0.5 * (price * (1.0 + r.slippage)) * (1.0 + r.fee)
  }

  /** The second half leaves no worse than the entry cost it. */
  predicate Covers(d: Direction, price: real, entry: real, r: Rates) {
    if d == Long then HalfExitCash(d, price, r) >= HalfEntryCash(d, entry, r)
    else HalfExitCash(d, price, r) <= HalfEntryCash(d, entry, r)
  }

  /** One tick worse for the position. */
  function OneTickWorse(d: Direction, price: real, tick: real): real {
    if d == Long then price - tick else price + tick
  }

  /** What one unit of exit price is worth after slippage and fee. */
  function Factor(d: Direction, r: Rates): real {
    if d == Long then (1.0 - r.slippage) * (1.0 - r.fee) else (1.0 + r.slippage) * (1.0 + r.fee)
  }

  lemma {:induction false} PositiveProduct(a: real, b: real)
    requires 0.0 < a && 0.0 < b
    ensures 0.0 < a * b
  {
  }

  lemma {:induction false} LongFactorPositive(fee: real, slippage: real)
    requires ValidRates(fee, slippage)
    ensures (1.0 - slippage) * (1.0 - fee) > 0.0
  {
    PositiveProduct(1.0 - slippage, 1.0 - fee);
  }

  lemma {:induction false} ShortFactorPositive(fee: real, slippage: real)
    requires ValidRates(fee, slippage)
    ensures (1.0 + slippage) * (1.0 + fee) > 0.0
  {
  }

  lemma {:induction false} FactorPositive(d: Direction, r: Rates)
    requires ValidRates(r.fee, r.slippage)
    ensures Factor(d, r) > 0.0
  {
    LongFactorPositive(r.fee, r.slippage);
    ShortFactorPositive(r.fee, r.slippage);
  }

  /** What the whole entry is worth after slippage and fee. */
  function EntryBasis(d: Direction, entry: real, r: Rates): real {
    if d == Long then entry * (1.0 + r.slippage) * (1.0 + r.fee) else entry * (1.0 - r.slippage) * (1.0 - r.fee)
  }

  lemma {:induction false} BreakevenRounds(q: TradeRequest, entry: real, s: Scenario, a: real, k: real, b: real)
    requires q.tick > 0.0 && b == CostAwareBreakeven(q, entry, s)
    requires a == EntryBasis(q.armed.direction, entry, RatesOf(s)) && k == Factor(q.armed.direction, RatesOf(s))
    ensures k > 0.0
    ensures b == if q.armed.direction == Long then CeilToTick(a / k, q.tick) else FloorToTick(a / k, q.tick)
  {
  }

  lemma {:induction false} RoundedIsTight(d: Direction, a: real, k: real, b: real, tick: real)
    requires tick > 0.0 && k > 0.0
    requires b == if d == Long then CeilToTick(a / k, tick) else FloorToTick(a / k, tick)
    ensures var worse := OneTickWorse(d, b, tick);
            if d == Long then worse * k < a <= b * k else b * k <= a < worse * k
  {
    TickBounds(d, a / k, b, tick);
    QuotientTimes(a, k);
    TightAround(d, a, k, a / k, b, OneTickWorse(d, b, tick));
  }

  /** The computed breakeven covers the entry, and one tick worse would not. */
  lemma {:induction false} BreakevenIsTight(q: TradeRequest, entry: real, s: Scenario)
    requires q.tick > 0.0
    ensures var b := CostAwareBreakeven(q, entry, s);
            var d := q.armed.direction;
            && Covers(d, b, entry, RatesOf(s))
            && !Covers(d, OneTickWorse(d, b, q.tick), entry, RatesOf(s))
  {
    var r, d := RatesOf(s), q.armed.direction;
    var b := CostAwareBreakeven(q, entry, s);
    TightBreakeven(q, entry, s, b, EntryBasis(d, entry, r), Factor(d, r));
  }

  lemma {:induction false} TightBreakeven(q: TradeRequest, entry: real, s: Scenario, b: real, a: real, k: real)
    requires q.tick > 0.0 && b == CostAwareBreakeven(q, entry, s)
    requires a == EntryBasis(q.armed.direction, entry, RatesOf(s)) && k == Factor(q.armed.direction, RatesOf(s))
    ensures Covers(q.armed.direction, b, entry, RatesOf(s))
    ensures !Covers(q.armed.direction, OneTickWorse(q.armed.direction, b, q.tick), entry, RatesOf(s))
  {
    BreakevenRounds(q, entry, s, a, k, b);
    RoundedIsTight(q.armed.direction, a, k, b, q.tick);
    CoversAround(q.armed.direction, b, OneTickWorse(q.armed.direction, b, q.tick), entry, RatesOf(s), a, k);
  }

  lemma {:induction false} CoversAround(
      d: Direction, better: real, worse: real, entry: real, r: Rates, a: real, k: real)
    requires a == EntryBasis(d, entry, r) && k == Factor(d, r)
    requires if d == Long then worse * k < a <= better * k else better * k <= a < worse * k
    ensures Covers(d, better, entry, r) && !Covers(d, worse, entry, r)
  {
  }

  lemma {:induction false} TightAround(d: Direction, a: real, k: real, z: real, b: real, worse: real)
    requires k > 0.0 && z * k == a
    requires if d == Long then worse < z <= b else b <= z < worse
    ensures if d == Long then worse * k < a <= b * k else b * k <= a < worse * k
  {
  }

  lemma {:induction false} TickBounds(d: Direction, raw: real, rounded: real, tick: real)
    requires tick > 0.0 && rounded == if d == Long then CeilToTick(raw, tick) else FloorToTick(raw, tick)
    ensures if d == Long then OneTickWorse(d, rounded, tick) < raw <= rounded
            else rounded <= raw < OneTickWorse(d, rounded, tick)
  {
    if d == Long {
      var units := CeilBrackets(raw, tick);
    } else {
      var units := FloorBrackets(raw, tick);
    }
  }

  // ----- Runs that end at the breakeven stop ------------------------------------------------------------

  /** A costed run that ends at its breakeven stop. */
  predicate EndsAtBreakeven(k: CostedResult) {
    k.trade.exitReason == Some(BREAKEVEN_AFTER_TP1) && k.trade.armed.entryPrice.Some?
  }

  /** The ledger moves half of the entry's cash at the entry price and the exit's at the stop: that is what is
   * compared. */
  predicate MovesHalves(d: Direction, fills: seq<ExecutionFill>, r: Rates)
    requires |fills| == 3
  {
    0.0 <= fills[0].price && 0.0 <= fills[2].price ==>
      && Simulated(fills[0]) - FeeOf(fills[0]) == Signed(d, -2.0 * HalfEntryCash(d, fills[0].price, r))
      && Simulated(fills[2]) - FeeOf(fills[2]) == Signed(d, HalfExitCash(d, fills[2].price, r))
  }

  lemma {:induction false} HalfExitMoves(e: ReplayEvent, d: Direction, r: Rates)
    requires e.eventType == StopFill && e.price.Some? && e.fraction == Some(0.5) && 0.0 <= e.price.value
    requires ValidRates(r.fee, r.slippage)
    ensures var f := ExecutionFillOf(e, d, r);
            Simulated(f) - FeeOf(f) == Signed(d, HalfExitCash(d, e.price.value, r))
  {
  }

  lemma {:induction false} EntryMoves(e: ReplayEvent, d: Direction, r: Rates)
    requires e.eventType == EntryFill && e.price.Some? && e.fraction == Some(1.0) && 0.0 <= e.price.value
    requires ValidRates(r.fee, r.slippage)
    ensures var f := ExecutionFillOf(e, d, r);
            Simulated(f) - FeeOf(f) == Signed(d, -2.0 * HalfEntryCash(d, e.price.value, r))
  {
  }

  /** Its three fills: the last is at the computed breakeven, or at the entry when that is zero and reads as absent. */
  lemma {:induction false} BreakevenRunFills(q: TradeRequest, cs: seq<Candle>, s: Scenario, batches: seq<Batch>)
    requires ValidRequest(q) && ValidBatches(batches)
    requires ReplayWithCosts(q, cs, s, batches).Ok?
    requires EndsAtBreakeven(ReplayWithCosts(q, cs, s, batches).value)
    ensures var k := ReplayWithCosts(q, cs, s, batches).value;
            && |k.fills| == 3
            && k.fills[0].eventType == EntryFill && k.fills[0].price == k.trade.armed.entryPrice.value
            && k.fills[2].eventType == StopFill && k.fills[2].fraction == 0.5
            && var computed := CostAwareBreakeven(q, k.fills[0].price, s);
               k.fills[2].price == if computed != 0.0 then computed else k.fills[0].price
    ensures MovesHalves(q.armed.direction, ReplayWithCosts(q, cs, s, batches).value.fills, RatesOf(s))
  {
    hide Walk, CostAwareBreakeven, Total, MovesHalves;
    CostedUnfolds(q, cs, s, batches);
    var k := ReplayWithCosts(q, cs, s, batches).value;
    var cost := CostRequest(q, ArmedReplay(q.armed, cs, batches).value, s);
    var r := RatesOf(s);
    var x := ClosedRun(cost, cs, batches, r.fee, r.slippage);
    var ev := k.trade.events;
    ClosedFills(x, ev, BREAKEVEN_AFTER_TP1, k.trade.exitTime.value, q.armed.direction, r);
    assert ev[..|ev| - 2][0] == ev[0];
    HalvesMove(ev[0], ev[|ev| - 2], q.armed.direction, r, k.fills);
  }

  lemma {:induction false} HalvesMove(
      entry: ReplayEvent, exit: ReplayEvent, d: Direction, r: Rates, fills: seq<ExecutionFill>)
    requires entry.eventType == EntryFill && entry.price.Some? && entry.fraction == Some(1.0)
    requires exit.eventType == StopFill && exit.price.Some? && exit.fraction == Some(0.5)
    requires |fills| == 3 && fills[0] == ExecutionFillOf(entry, d, r) && fills[2] == ExecutionFillOf(exit, d, r)
    requires ValidRates(r.fee, r.slippage)
    ensures MovesHalves(d, fills, r)
  {
    hide Simulated, FeeOf, HalfEntryCash, HalfExitCash;
    if 0.0 <= fills[0].price && 0.0 <= fills[2].price {
      EntryMoves(entry, d, r);
      HalfExitMoves(exit, d, r);
    }
  }

  /** The exit proceeds of the second half cover half the entry cost, and one tick worse they would not. */
  predicate BreaksEven(d: Direction, price: real, entry: real, tick: real, r: Rates) {
    Covers(d, price, entry, r) && !Covers(d, OneTickWorse(d, price, tick), entry, r)
  }

  /** Every costed run ending BREAKEVEN_AFTER_TP1 with a non-zero breakeven leaves its second half just even. */
  lemma {:induction false} BreakevenBreaksEven(q: TradeRequest, cs: seq<Candle>, s: Scenario, batches: seq<Batch>)
    requires ValidRequest(q) && ValidBatches(batches)
    requires ReplayWithCosts(q, cs, s, batches).Ok?
    requires EndsAtBreakeven(ReplayWithCosts(q, cs, s, batches).value)
    requires CostAwareBreakeven(q, ReplayWithCosts(q, cs, s, batches).value.trade.armed.entryPrice.value, s) != 0.0
    ensures var fills := ReplayWithCosts(q, cs, s, batches).value.fills;
            && |fills| == 3 && fills[0].eventType == EntryFill && fills[2].eventType == StopFill
            && fills[2].fraction == 0.5
            && BreaksEven(q.armed.direction, fills[2].price, fills[0].price, q.tick, RatesOf(s))
            && MovesHalves(q.armed.direction, fills, RatesOf(s))
  {
    BreakevenRunFills(q, cs, s, batches);
    BreakevenIsTight(q, ReplayWithCosts(q, cs, s, batches).value.fills[0].price, s);
  }

  /** Leaving at the entry price covers the entry only when trading is free. */
  lemma {:induction false} EntryCoversItself(d: Direction, entry: real, r: Rates)
    requires entry > 0.0 && ValidRates(r.fee, r.slippage)
    ensures Covers(d, entry, entry, r) <==> r.fee == 0.0 && r.slippage == 0.0
  {
  }

  lemma {:induction false} FreeEntryIsTight(d: Direction, entry: real, tick: real)
    requires tick > 0.0
    ensures BreaksEven(d, entry, entry, tick, Rates(0.0, 0.0))
  {
  }

  /**
   * A run that ends at its breakeven stop leaves its second half just even exactly when the computed breakeven is
   * not zero, or nothing is charged at all: a zero breakeven falls back to the entry price.
   */
  lemma {:induction false} BreakevenExactly(q: TradeRequest, cs: seq<Candle>, s: Scenario, batches: seq<Batch>)
    requires ValidRequest(q) && ValidBatches(batches)
    requires ReplayWithCosts(q, cs, s, batches).Ok?
    requires EndsAtBreakeven(ReplayWithCosts(q, cs, s, batches).value)
    requires ReplayWithCosts(q, cs, s, batches).value.trade.armed.entryPrice.value > 0.0
    ensures var fills := ReplayWithCosts(q, cs, s, batches).value.fills;
            && |fills| == 3
            && (BreaksEven(q.armed.direction, fills[2].price, fills[0].price, q.tick, RatesOf(s)) <==>
                  CostAwareBreakeven(q, fills[0].price, s) != 0.0 || s == ZERO)
  {
    BreakevenRunFills(q, cs, s, batches);
    var entry := ReplayWithCosts(q, cs, s, batches).value.fills[0].price;
    if CostAwareBreakeven(q, entry, s) != 0.0 {
      BreakevenBreaksEven(q, cs, s, batches);
    } else {
      EntryCoversItself(q.armed.direction, entry, RatesOf(s));
      if s == ZERO { FreeEntryIsTight(q.armed.direction, entry, q.tick); }
    }
  }

  // ----- The failing case is reached ---------------------------------------------------------------------

  const SHORT_SIGNAL := ArmedRequest("S", "X", Short, 0.5, 2.0, 1.0, 1.0, 0, MINUTE)

  const SHORT_CANDLES := [
    Candle(0, 0.6, 0.7, 0.5, 0.6, 0.0),
    Candle(MINUTE, 0.4, 0.45, 0.2, 0.3, 0.0),
    Candle(2 * MINUTE, 0.4, 0.6, 0.3, 0.5, 0.0)]

  /** A SHORT plan below one tick. */
  const SHORT_PLAN := TradeRequest(SHORT_SIGNAL, 0.3, 0.1, 1.0, 16, None)

  lemma {:induction false} HalfTickRoundsToZero()
    ensures CostAwareBreakeven(SHORT_PLAN, 0.5, BASELINE) == 0.0
  {
    var raw := 0.5 * (1.0 - 0.0002) * (1.0 - 0.0006) / ((1.0 + 0.0002) * (1.0 + 0.0006));
    assert 0.0 <= raw < 1.0;
    assert (raw / 1.0).Floor == 0;
  }

  lemma {:induction false} ShortTriggers()
    ensures ValidCandles(SHORT_CANDLES) && BatchTable(SHORT_CANDLES, []) == Ok(map[])
    ensures ArmedReplay(SHORT_SIGNAL, SHORT_CANDLES, []).Ok?
    ensures var a := ArmedReplay(SHORT_SIGNAL, SHORT_CANDLES, []).value;
            && a.state == TRIGGERED && a.entryPrice == Some(0.5) && a.entryTime == Some(0)
            && a.entryCandleOpen == Some(0)
            && !a.stopAlsoTouched && |a.events| == 1
  {
    assert Decide(SHORT_SIGNAL, SHORT_CANDLES[0], None).Enter?;
  }

  /** Entry in the first candle, TP1 in the second, the breakeven stop at the entry price in the third. */
  lemma {:induction false} ShortWalk(x: Setting)
    requires |x.armed.events| == 1 && !x.armed.stopAlsoTouched && x.deadline > 2 * MINUTE
    requires x.levels == Levels(Short, 1.0, 0.3, 0.1, 0.5)
    ensures var r := Walk(x, Initial(x.armed), SHORT_CANDLES, map[], 0, 0);
            r.Exited? && r.reason == BREAKEVEN_AFTER_TP1
  {
    var r0 := CandleStep(x, Initial(x.armed), SHORT_CANDLES[0], None, true);
    assert r0.Running? && r0.state.leg == Leg(FULL, None) && !r0.state.active;
    var r1 := CandleStep(x, r0.state, SHORT_CANDLES[1], None, false);
    assert r1.Running? && r1.state.leg == Leg(HALF_AFTER_TP1, Some(2 * MINUTE)) && !r1.state.active;
    var r2 := CandleStep(x, r1.state, SHORT_CANDLES[2], None, false);
    assert r2.Exited? && r2.reason == BREAKEVEN_AFTER_TP1;
    hide CandleStep;
    assert Walk(x, r1.state, SHORT_CANDLES, map[], 2, 0) == r2;
    assert Walk(x, r0.state, SHORT_CANDLES, map[], 1, 0) == r2;
  }

  /** The plan runs to its breakeven stop, is accepted, and does not break even there. */
  lemma {:induction false} BreakevenCanFail()
    ensures ValidRequest(SHORT_PLAN) && ReplayWithCosts(SHORT_PLAN, SHORT_CANDLES, BASELINE, []).Ok?
    ensures var k := ReplayWithCosts(SHORT_PLAN, SHORT_CANDLES, BASELINE, []).value;
            && EndsAtBreakeven(k) && |k.fills| == 3
            && !BreaksEven(Short, k.fills[2].price, k.fills[0].price, SHORT_PLAN.tick, RatesOf(BASELINE))
  {
    HalfTickRoundsToZero();
    ShortTriggers();
    var r := RatesOf(BASELINE);
    var cost := CostRequest(SHORT_PLAN, ArmedReplay(SHORT_SIGNAL, SHORT_CANDLES, []).value, BASELINE);
    ShortReplay(cost, r);
    LedgerAccepts(SHORT_PLAN, cost, SHORT_CANDLES, BASELINE, []);
    BreakevenExactly(SHORT_PLAN, SHORT_CANDLES, BASELINE, []);
    BreakevenRunFills(SHORT_PLAN, SHORT_CANDLES, BASELINE, []);
  }

  lemma {:induction false} ShortReplay(cost: TradeRequest, r: Rates)
    requires cost == SHORT_PLAN.(breakeven := Some(0.0)) && r == RatesOf(BASELINE)
    ensures TradeReplay(cost, SHORT_CANDLES, [], r.fee, r.slippage).Ok?
    ensures TradeReplay(cost, SHORT_CANDLES, [], r.fee, r.slippage).value.exitReason == Some(BREAKEVEN_AFTER_TP1)
  {
    ShortTriggers();
    var x := SettingOf(cost, ArmedReplay(SHORT_SIGNAL, SHORT_CANDLES, []).value, r.fee, r.slippage);
    ShortWalk(x);
    assert Positions(SHORT_CANDLES)[0] == 0;
  }
}
