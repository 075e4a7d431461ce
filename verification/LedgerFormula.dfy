/** What a costed replay reports, written out in prices and the scenario's two rates. */
module LedgerFormula {
  import opened Basics
  import opened Market
  import opened Armed
  import opened Trade
  import opened Shape
  import opened Runs
  import opened Costs
  import opened LedgerFacts
  import opened Payoff
  import opened Net

  /** The fee rate of a scenario: 6 basis points, or nothing. */
  function FeeRate(s: Scenario): real { if s == ZERO then 0.0 else 0.0006 }

  /** The slippage rate of a scenario: 2 basis points, 5 under stress, or nothing. */
  function SlippageRate(s: Scenario): real {
    if s == ZERO then 0.0 else if s == BASELINE then 0.0002 else 0.0005
  }

  // ----- One fill ------------------------------------------------------------------------------------------------

  /** What one unit of price becomes: a buyer pays more, a seller receives less. */
  function Worsened(buys: bool, price: real, slippage: real): real {
    if buys then price * (1.0 + slippage) else price * (1.0 - slippage)
  }

  lemma {:induction false} Slips(buys: bool, price: real, slippage: real)
    requires 0.0 <= price && 0.0 <= slippage < 1.0
    ensures 0.0 <= slippage * price
    ensures Worsened(buys, price, slippage) == if buys then price + slippage * price else price - slippage * price
    ensures 0.0 <= Worsened(buys, price, slippage)
  {
    Scaled(slippage, 1.0, price);
    Scaled(0.0, slippage, price);
  }

  lemma {:induction false} NonNegativeProduct(a: real, b: real)
    requires 0.0 <= a && 0.0 <= b
    ensures 0.0 <= a * b
  {
  }

  lemma {:induction false} Reordered(a: real, b: real, c: real)
    ensures a * (b * c) == c * (a * b) && a * (b * c) == a * b * c
  {
  }

  lemma {:induction false} Fields(
      e: ReplayEvent, d: Direction, r: Rates, price: real, fraction: real, buys: bool, cash: real)
    requires e.price == Some(price) && e.fraction == Some(fraction)
    requires buys == ((d == Long) == (e.eventType == EntryFill))
    requires cash == Worsened(buys, price, r.slippage) * fraction
    ensures var f := ExecutionFillOf(e, d, r);
            && f.side == (if buys then BUY else SELL) && f.fraction == fraction && f.price == price
            && f.eventType == e.eventType && f.id == e.Id()
            && f.fee == Charge(cash, r.fee) && Simulated(f) == (if buys then -cash else cash)
            && f.slippageCost == Charge(Worsened(buys, price, r.slippage) - price, fraction)
  {
  }

  function Charge(x: real, k: real): real { Abs(x) * k }

  lemma {:induction false} ChargeIs(x: real, k: real)
    ensures 0.0 <= x ==> Charge(x, k) == k * x
    ensures x <= 0.0 ==> Charge(x, k) == k * -x
  {
  }

  lemma {:induction false} SlippageIs(buys: bool, price: real, slippage: real, fraction: real)
    requires 0.0 <= price && 0.0 <= slippage < 1.0
    ensures Charge(Worsened(buys, price, slippage) - price, fraction) == slippage * (price * fraction)
  {
    hide Worsened, Charge;
    Slips(buys, price, slippage);
    ChargeIs(Worsened(buys, price, slippage) - price, fraction);
    Reordered(slippage, price, fraction);
    Reordered(fraction, slippage, price);
  }

  lemma {:induction false} CashIsPaid(buys: bool, price: real, slippage: real, fraction: real, cash: real)
    requires 0.0 <= price && 0.0 <= slippage < 1.0 && 0.0 <= fraction
    requires cash == Worsened(buys, price, slippage) * fraction
    ensures 0.0 <= cash
  {
    hide Worsened;
    Slips(buys, price, slippage);
    NonNegativeProduct(Worsened(buys, price, slippage), fraction);
  }

  /** One fill: cash at the worsened price, the fee on that cash, and what the worsening costs. */
  lemma {:induction false} FillParts(
      e: ReplayEvent, d: Direction, r: Rates, price: real, fraction: real, buys: bool, cash: real)
    requires e.price == Some(price) && e.fraction == Some(fraction)
    requires buys == ((d == Long) == (e.eventType == EntryFill))
    requires 0.0 <= price && 0.0 <= fraction && ValidRates(r.fee, r.slippage)
    requires cash == Worsened(buys, price, r.slippage) * fraction
    ensures Priced(e)
    ensures var f := ExecutionFillOf(e, d, r);
            && Simulated(f) == (if buys then -cash else cash)
            && FeeOf(f) == r.fee * cash && SlippageOf(f) == r.slippage * (price * fraction)
  {
    hide ExecutionFillOf, Worsened, Charge, Simulated;
    Fields(e, d, r, price, fraction, buys, cash);
    CashIsPaid(buys, price, r.slippage, fraction, cash);
    ChargeIs(cash, r.fee);
    SlippageIs(buys, price, r.slippage, fraction);
  }

  // ----- A closed log --------------------------------------------------------------------------------------------

  /** Cash, fees and slippage of a list of fills. */
  predicate AddsUp(fills: seq<ExecutionFill>, cash: real, fees: real, slippage: real) {
    Total(fills, Simulated) == cash && Total(fills, FeeOf) == fees && Total(fills, SlippageOf) == slippage
  }

  lemma {:induction false} AddsUp2(a: ExecutionFill, b: ExecutionFill)
    ensures AddsUp([a, b], Simulated(a) + Simulated(b), FeeOf(a) + FeeOf(b), SlippageOf(a) + SlippageOf(b))
  {
    Total2(a, b, Simulated);
    Total2(a, b, FeeOf);
    Total2(a, b, SlippageOf);
  }

  lemma {:induction false} AddsUp3(a: ExecutionFill, b: ExecutionFill, c: ExecutionFill)
    ensures AddsUp([a, b, c], Simulated(a) + Simulated(b) + Simulated(c), FeeOf(a) + FeeOf(b) + FeeOf(c),
                   SlippageOf(a) + SlippageOf(b) + SlippageOf(c))
  {
    Total3(a, b, c, Simulated);
    Total3(a, b, c, FeeOf);
    Total3(a, b, c, SlippageOf);
  }

  /** The two halves leave for what the whole would at their average price. */
  lemma {:induction false} HalvesAverage(buys: bool, a: real, b: real, slippage: real)
    ensures Worsened(buys, a, slippage) * 0.5 + Worsened(buys, b, slippage) * 0.5 ==
            Worsened(buys, (a + b) / 2.0, slippage)
  {
  }

  /** In and out at once. */
  lemma {:induction false} WholeParts(
      a: ReplayEvent, b: ReplayEvent, d: Direction, r: Rates, entry: real, exit: real, cin: real, cout: real)
    requires a.eventType == EntryFill && a.price == Some(entry) && a.fraction == Some(1.0)
    requires b.eventType != EntryFill && b.price == Some(exit) && b.fraction == Some(1.0)
    requires 0.0 <= entry && 0.0 <= exit && ValidRates(r.fee, r.slippage)
    requires cin == Worsened(d == Long, entry, r.slippage) && cout == Worsened(d != Long, exit, r.slippage)
    ensures AddsUp([ExecutionFillOf(a, d, r), ExecutionFillOf(b, d, r)], Signed(d, cout - cin),
                   r.fee * cin + r.fee * cout, r.slippage * entry + r.slippage * exit)
  {
    hide ExecutionFillOf, Worsened, Total, Simulated;
    FillParts(a, d, r, entry, 1.0, d == Long, cin);
    FillParts(b, d, r, exit, 1.0, d != Long, cout);
    AddsUp2(ExecutionFillOf(a, d, r), ExecutionFillOf(b, d, r));
  }

  /** In at once, out in two halves. */
  lemma {:induction false} HalfParts(
      a: ReplayEvent, b: ReplayEvent, c: ReplayEvent, d: Direction, r: Rates, entry: real, first: real, last: real,
      cin: real, c1: real, c2: real)
    requires a.eventType == EntryFill && a.price == Some(entry) && a.fraction == Some(1.0)
    requires b.eventType != EntryFill && b.price == Some(first) && b.fraction == Some(0.5)
    requires c.eventType != EntryFill && c.price == Some(last) && c.fraction == Some(0.5)
    requires 0.0 <= entry && 0.0 <= first && 0.0 <= last && ValidRates(r.fee, r.slippage)
    requires cin == Worsened(d == Long, entry, r.slippage)
    requires c1 == Worsened(d != Long, first, r.slippage) * 0.5 && c2 == Worsened(d != Long, last, r.slippage) * 0.5
    ensures AddsUp([ExecutionFillOf(a, d, r), ExecutionFillOf(b, d, r), ExecutionFillOf(c, d, r)],
                   Signed(d, c1 + c2 - cin), r.fee * cin + r.fee * c1 + r.fee * c2,
                   r.slippage * entry + r.slippage * (first * 0.5) + r.slippage * (last * 0.5))
  {
    hide ExecutionFillOf, Worsened, Total, Simulated;
    FillParts(a, d, r, entry, 1.0, d == Long, cin);
    FillParts(b, d, r, first, 0.5, d != Long, c1);
    FillParts(c, d, r, last, 0.5, d != Long, c2);
    AddsUp3(ExecutionFillOf(a, d, r), ExecutionFillOf(b, d, r), ExecutionFillOf(c, d, r));
  }

  lemma {:induction false} SumOfProducts(k: real, a: real, b: real, c: real)
    ensures k * a + k * b + k * c == k * (a + b + c) && k * a + k * b == k * (a + b)
  {
  }

  /** A closed log moves the entry's cash one way and the exit's, at its average price, the other. */
  lemma {:induction false} ClosedCash(
      x: Setting, events: seq<ReplayEvent>, why: ExitReason, time: int, d: Direction, r: Rates, entry: real, exit: real)
    requires EntryOfOne(x) && ClosedLog(x, events, why, time) && NonNegativeFills(events)
    requires ValidRates(r.fee, r.slippage)
    requires events[0].price == Some(entry) && events[|events| - 2].price.Some?
    requires exit == AverageExit(x.levels, why, events[|events| - 2].price.value, |events| > 3)
    ensures AllPriced(events)
    ensures var cin, cout := Worsened(d == Long, entry, r.slippage), Worsened(d != Long, exit, r.slippage);
            AddsUp(FillsOf(events, d, r), Signed(d, cout - cin), r.fee * (cin + cout), r.slippage * (entry + exit))
  {
    hide FillsOf, Total, ExecutionFillOf, Worsened;
    ClosedFills(x, events, why, time, d, r);
    var n, fills := |events|, FillsOf(events, d, r);
    var cin, cout := Worsened(d == Long, entry, r.slippage), Worsened(d != Long, exit, r.slippage);
    var last := events[n - 2].price.value;
    assert events[..n - 2][0] == events[0];
    if n == 3 {
      assert fills == [fills[0], fills[1]];
      WholeParts(events[0], events[1], d, r, entry, exit, cin, cout);
      SumOfProducts(r.fee, cin, cout, 0.0);
      SumOfProducts(r.slippage, entry, exit, 0.0);
    } else {
      assert events[..n - 2][1] == events[1];
      var tp1 := x.levels.tp1;
      var c1, c2 := Worsened(d != Long, tp1, r.slippage) * 0.5, Worsened(d != Long, last, r.slippage) * 0.5;
      assert fills == [fills[0], fills[1], fills[2]];
      HalfParts(events[0], events[1], events[n - 2], d, r, entry, tp1, last, cin, c1, c2);
      HalvesAverage(d != Long, tp1, last, r.slippage);
      SumOfProducts(r.fee, cin, c1, c2);
      SumOfProducts(r.slippage, entry, tp1 * 0.5, last * 0.5);
    }
  }

  // ----- A costed replay -----------------------------------------------------------------------------------------

  /** The prices a closed trade leaves at: TP1 for the first half if it was taken, and what the exit reason says. */
  ghost predicate LeavesAt(q: TradeRequest, cs: seq<Candle>, t: TradeResult, exit: real) {
    && t.exitReason.Some? && t.breakeven.Some? && t.deadline.Some?
    && exists last :: LastPrice(q, cs, t, last) && exit == (if TookTp1(t) then (q.tp1 + last) / 2.0 else last)
  }

  ghost predicate LastPrice(q: TradeRequest, cs: seq<Candle>, t: TradeResult, last: real)
    requires t.exitReason.Some? && t.breakeven.Some? && t.deadline.Some?
  {
    match t.exitReason.value
    case SL => last == q.armed.stopPrice
    case BREAKEVEN_AFTER_TP1 => TookTp1(t) && last == t.breakeven.value
    case TP2 => TookTp1(t) && last == q.tp2
    case TIME_EXIT => exists k: nat :: FirstFrom(cs, t.deadline.value, k) && last == cs[k].open
  }

  /** A closed costed trade, written out: LONG pays above the entry and receives below the exit, SHORT the reverse. */
  predicate WrittenOut(d: Direction, f: real, s: real, entry: real, exit: real, risk: real, k: CostedResult) {
    && k.pnl.Some?
    && k.totalSlippage == s * (entry + exit)
    && (if d == Long then
          && k.totalFee == f * (entry * (1.0 + s) + exit * (1.0 - s))
          && k.pnl.value.gross == exit - entry
          && k.pnl.value.net == exit * (1.0 - s) * (1.0 - f) - entry * (1.0 + s) * (1.0 + f)
        else
          && k.totalFee == f * (entry * (1.0 - s) + exit * (1.0 + s))
          && k.pnl.value.gross == entry - exit
          && k.pnl.value.net == entry * (1.0 - s) * (1.0 - f) - exit * (1.0 + s) * (1.0 + f))
    && risk > 0.0 && k.pnl.value.grossR == k.pnl.value.gross / risk && k.pnl.value.netR == k.pnl.value.net / risk
  }

  lemma {:induction false} NetOf(f: real, cin: real, cout: real)
    ensures cout - cin - f * (cin + cout) == cout * (1.0 - f) - cin * (1.0 + f)
    ensures cin - cout - f * (cin + cout) == cin * (1.0 - f) - cout * (1.0 + f)
  {
  }

  /** From cash in and out to the reported fields. */
  lemma {:induction false} Written(
      d: Direction, f: real, s: real, entry: real, exit: real, risk: real, k: CostedResult, cin: real, cout: real)
    requires cin == Worsened(d == Long, entry, s) && cout == Worsened(d != Long, exit, s)
    requires k.pnl.Some? && k.totalFee == f * (cin + cout) && k.totalSlippage == s * (entry + exit)
    requires k.pnl.value.net == Signed(d, cout - cin) - k.totalFee
    requires k.pnl.value.gross == Signed(d, exit - entry) && risk > 0.0
    requires k.pnl.value.grossR == k.pnl.value.gross / risk && k.pnl.value.netR == k.pnl.value.net / risk
    ensures WrittenOut(d, f, s, entry, exit, risk, k)
  {
    NetOf(f, cin, cout);
  }

  /** The closed log behind a costed trade, and its ledger. */
  ghost predicate Backs(x: Setting, q: TradeRequest, cs: seq<Candle>, s: Scenario, k: CostedResult) {
    var t, d, r := k.trade, q.armed.direction, RatesOf(s);
    && t.exitReason.Some? && t.exitTime.Some? && t.armed.entryPrice.Some? && t.breakeven.Some? && t.deadline.Some?
    && EntryOfOne(x) && ClosedLog(x, t.events, t.exitReason.value, t.exitTime.value) && |t.events| >= 3
    && NonNegativeFills(t.events) && AllPriced(t.events)
    && t.events[0].price == t.armed.entryPrice && t.events[|t.events| - 2].price.Some?
    && x.levels == Levels(d, q.armed.stopPrice, q.tp1, q.tp2, t.breakeven.value)
    && (TookTp1(t) <==> |t.events| > 3)
    && (t.exitReason.value in {BREAKEVEN_AFTER_TP1, TP2} ==> TookTp1(t))
    && (t.exitReason == Some(TIME_EXIT) ==>
          exists j: nat :: FirstFrom(cs, t.deadline.value, j) && cs[j].open == t.events[|t.events| - 2].price.value)
    && Accounts(k, FillsOf(t.events, d, r), Abs(q.armed.entryPrice - q.armed.stopPrice))
  }

  /** The reported sums are those of the fills. */
  predicate Accounts(k: CostedResult, fills: seq<ExecutionFill>, risk: real) {
    && k.pnl.Some? && k.totalFee == Total(fills, FeeOf) && k.totalSlippage == Total(fills, SlippageOf)
    && k.pnl.value.gross == Total(fills, Gross) && k.pnl.value.net == Total(fills, Simulated) - k.totalFee
    && risk > 0.0 && k.pnl.value.grossR == k.pnl.value.gross / risk && k.pnl.value.netR == k.pnl.value.net / risk
  }

  lemma {:induction false} LedgerAccounts(q: TradeRequest, t: TradeResult, s: Scenario)
    requires Ledger(q, t, s).Ok? && Ledger(q, t, s).value.pnl.Some?
    ensures IsClosed(t) && AllPriced(t.events) && Ledger(q, t, s).value.trade == t
    ensures Accounts(Ledger(q, t, s).value, FillsOf(t.events, q.armed.direction, RatesOf(s)),
                     Abs(q.armed.entryPrice - q.armed.stopPrice))
  {
    hide Total, FillsOf;
  }

  lemma {:induction false} TradeBacked(
      q: TradeRequest, cost: TradeRequest, cs: seq<Candle>, s: Scenario, batches: seq<Batch>) returns (x: Setting)
    requires ValidRequest(q) && ValidRequest(cost) && ValidBatches(batches)
    requires cost == q.(breakeven := cost.breakeven) && NonNegativePrices(cost, cs)
    requires TradeReplay(cost, cs, batches, RatesOf(s).fee, RatesOf(s).slippage).Ok?
    requires var t := TradeReplay(cost, cs, batches, RatesOf(s).fee, RatesOf(s).slippage).value;
             Ledger(q, t, s).Ok? && Ledger(q, t, s).value.pnl.Some?
    ensures var t := TradeReplay(cost, cs, batches, RatesOf(s).fee, RatesOf(s).slippage).value;
            Backs(x, q, cs, s, Ledger(q, t, s).value)
  {
    hide TradeReplay, Ledger, Total, FillsOf, ClosedLog, FirstFrom, Gross, ExecutionFillOf;
    var r := RatesOf(s);
    var t := TradeReplay(cost, cs, batches, r.fee, r.slippage).value;
    LedgerAccounts(q, t, s);
    x := ClosedRun(cost, cs, batches, r.fee, r.slippage);
    ClosedTp1(x, t, t.exitReason.value, t.exitTime.value);
    ClosedFillsNonNegative(cost, cs, batches, r.fee, r.slippage);
    ClosedEnds(x, t.events, t.exitReason.value, t.exitTime.value);
    ReportsBreakeven(cost, cs, batches, r.fee, r.slippage, x);
    if t.exitReason == Some(TIME_EXIT) {
      var j := TimeExitPrice(cost, cs, batches, r.fee, r.slippage);
      assert FirstFrom(cs, t.deadline.value, j) by { ShowFirst(cs, t.deadline.value, j); }
    }
  }

  lemma {:induction false} ShowFirst(cs: seq<Candle>, time: int, j: nat)
    requires j < |cs| && cs[j].openTime >= time && forall i :: 0 <= i < j ==> cs[i].openTime < time
    ensures FirstFrom(cs, time, j)
  {
  }

  lemma {:induction false} ClosedEnds(x: Setting, events: seq<ReplayEvent>, why: ExitReason, time: int)
    requires ClosedLog(x, events, why, time)
    ensures |events| >= 3 && events[|events| - 2].price.Some?
    ensures why in {BREAKEVEN_AFTER_TP1, TP2} ==> |events| > 3
  {
  }

  lemma {:induction false} ReportsBreakeven(
      q: TradeRequest, cs: seq<Candle>, batches: seq<Batch>, fee: real, slippage: real, x: Setting)
    requires Accepted(q, cs, batches, fee, slippage) && Triggers(q, cs, batches)
    requires TradeReplay(q, cs, batches, fee, slippage).value.armed.entryPrice.Some?
    requires x.levels == LevelsOf(q, TradeReplay(q, cs, batches, fee, slippage).value.armed.entryPrice.value)
    ensures TradeReplay(q, cs, batches, fee, slippage).value.breakeven == Some(x.levels.breakeven)
  {
    hide Walk, ArmedFrom;
    AcceptedLaunches(q, cs, batches, fee, slippage);
  }

  /**
   * Every closed costed trade with prices nowhere below zero: net, fees, slippage and both multiples of the risk,
   * in the entry price, the exit prices of its exit reason, and the scenario's rates.
   */
  lemma {:induction false} NetFormula(q: TradeRequest, cs: seq<Candle>, s: Scenario, batches: seq<Batch>)
    returns (exit: real)
    requires ValidRequest(q) && ValidBatches(batches) && NonNegativePrices(q, cs)
    requires ReplayWithCosts(q, cs, s, batches).Ok? && ReplayWithCosts(q, cs, s, batches).value.pnl.Some?
    ensures var k := ReplayWithCosts(q, cs, s, batches).value;
            && k.trade.armed.entryPrice.Some? && LeavesAt(q, cs, k.trade, exit)
            && WrittenOut(q.armed.direction, FeeRate(s), SlippageRate(s), k.trade.armed.entryPrice.value, exit,
                          if q.armed.direction == Long then q.armed.entryPrice - q.armed.stopPrice
                          else q.armed.stopPrice - q.armed.entryPrice, k)
  {
    hide TradeReplay, ArmedReplay, Total, FillsOf, Worsened, FirstFrom, ClosedLog, Ledger, NonNegativePrices;
    var k, r, d := ReplayWithCosts(q, cs, s, batches).value, RatesOf(s), q.armed.direction;
    var x := CostedBacked(q, cs, s, batches);
    var t := k.trade;
    var entry, last := t.armed.entryPrice.value, t.events[|t.events| - 2].price.value;
    exit := AverageExit(x.levels, t.exitReason.value, last, |t.events| > 3);
    ClosedCash(x, t.events, t.exitReason.value, t.exitTime.value, d, r, entry, exit);
    ClosedGross(x, t.events, t.exitReason.value, t.exitTime.value, d, r);
    Written(d, r.fee, r.slippage, entry, exit, Abs(q.armed.entryPrice - q.armed.stopPrice), k,
            Worsened(d == Long, entry, r.slippage), Worsened(d != Long, exit, r.slippage));
    BackedLeaves(x, q, cs, s, k);
  }

  lemma {:induction false} BackedLeaves(x: Setting, q: TradeRequest, cs: seq<Candle>, s: Scenario, k: CostedResult)
    requires Backs(x, q, cs, s, k)
    ensures var t := k.trade;
            LeavesAt(q, cs, t, AverageExit(x.levels, t.exitReason.value, t.events[|t.events| - 2].price.value,
                                           |t.events| > 3))
  {
    hide ClosedLog, FirstFrom, Accounts, FillsOf, NonNegativeFills, AllPriced, TookTp1;
    var t := k.trade;
    var last := match t.exitReason.value
      case SL => q.armed.stopPrice
      case BREAKEVEN_AFTER_TP1 => t.breakeven.value
      case TP2 => q.tp2
      case TIME_EXIT => t.events[|t.events| - 2].price.value;
    assert LastPrice(q, cs, t, last);
  }

  lemma {:induction false} CostedBacked(q: TradeRequest, cs: seq<Candle>, s: Scenario, batches: seq<Batch>)
    returns (x: Setting)
    requires ValidRequest(q) && ValidBatches(batches) && NonNegativePrices(q, cs)
    requires ReplayWithCosts(q, cs, s, batches).Ok? && ReplayWithCosts(q, cs, s, batches).value.pnl.Some?
    ensures Backs(x, q, cs, s, ReplayWithCosts(q, cs, s, batches).value)
  {
    hide Backs, TradeReplay, Ledger, CostAwareBreakeven;
    CostedUnfolds(q, cs, s, batches);
    x := TradeBacked(q, CostRequest(q, ArmedReplay(q.armed, cs, batches).value, s), cs, s, batches);
  }

  // ----- A trade that is still open ------------------------------------------------------------------------------

  /** What an open trade has paid so far: for the entry, and for the half that left at TP1. */
  predicate OpenWrittenOut(d: Direction, f: real, s: real, entry: real, tp1: real, half: bool, k: CostedResult) {
    var paid := entry * (if d == Long then 1.0 + s else 1.0 - s);
    var left := if half then tp1 * (if d == Long then 1.0 - s else 1.0 + s) * 0.5 else 0.0;
    && k.pnl == None && |k.fills| == (if half then 2 else 1)
    && k.totalFee == f * paid + f * left
    && k.totalSlippage == s * entry + (if half then s * (tp1 * 0.5) else 0.0)
  }

  lemma {:induction false} OpenParts(
      x: Setting, open: seq<ReplayEvent>, d: Direction, r: Rates, entry: real, k: CostedResult)
    requires EntryOfOne(x) && OpenLog(x, open) && x.armed.events[0].price == Some(entry)
    requires 0.0 <= entry && 0.0 <= x.levels.tp1 && ValidRates(r.fee, r.slippage)
    requires AllPriced(open) && k.pnl == None && k.fills == FillsOf(open, d, r)
    requires k.totalFee == Total(k.fills, FeeOf) && k.totalSlippage == Total(k.fills, SlippageOf)
    ensures OpenWrittenOut(d, r.fee, r.slippage, entry, x.levels.tp1, |open| > 1, k)
  {
    hide ExecutionFillOf, Total, FillsOf;
    HeadFills(x, open, d, r);
    var cin := Worsened(d == Long, entry, r.slippage);
    FillParts(open[0], d, r, entry, 1.0, d == Long, cin);
    if |open| == 1 {
      One(ExecutionFillOf(open[0], d, r), FeeOf);
      One(ExecutionFillOf(open[0], d, r), SlippageOf);
    } else {
      var tp1 := x.levels.tp1;
      FillParts(open[1], d, r, tp1, 0.5, d != Long, Worsened(d != Long, tp1, r.slippage) * 0.5);
      AddsUp2(ExecutionFillOf(open[0], d, r), ExecutionFillOf(open[1], d, r));
    }
  }

  lemma {:induction false} One(f: ExecutionFill, m: ExecutionFill -> real)
    ensures Total([f], m) == m(f)
  {
    assert [f][..0] == [];
  }

  /** Every costed trade that is still open: no profit or loss, and the costs of what it has filled. */
  lemma {:induction false} OpenFormula(q: TradeRequest, cs: seq<Candle>, s: Scenario, batches: seq<Batch>)
    requires ValidRequest(q) && ValidBatches(batches) && NonNegativePrices(q, cs)
    requires ReplayWithCosts(q, cs, s, batches).Ok?
    requires ReplayWithCosts(q, cs, s, batches).value.trade.armed.state == TRIGGERED
    requires !IsClosed(ReplayWithCosts(q, cs, s, batches).value.trade)
    ensures var k := ReplayWithCosts(q, cs, s, batches).value;
            && k.trade.armed.entryPrice.Some?
            && OpenWrittenOut(q.armed.direction, FeeRate(s), SlippageRate(s), k.trade.armed.entryPrice.value, q.tp1,
                              k.trade.position == Some(HALF_AFTER_TP1), k)
  {
    hide Total, FillsOf, Walk, CostAwareBreakeven, ArmedFrom;
    CostedUnfolds(q, cs, s, batches);
    var r, k := RatesOf(s), ReplayWithCosts(q, cs, s, batches).value;
    var cost := CostRequest(q, ArmedReplay(q.armed, cs, batches).value, s);
    AcceptedLaunches(cost, cs, batches, r.fee, r.slippage);
    RunKeeps(cost, cs, batches, r.fee, r.slippage);
    LaunchArrives(cost, cs, batches, r.fee, r.slippage);
    TriggeredShape(q.armed, cs, BatchTable(cs, batches).value, 0, 0, 0);
    var g := LaunchOf(cost, cs, batches, r.fee, r.slippage);
    var at := cs[Positions(cs)[k.trade.armed.entryCandleOpen.value]];
    assert 0.0 <= at.low <= at.open;
    OpenParts(g.x, k.trade.events, q.armed.direction, r, k.trade.armed.entryPrice.value, k);
  }

  // ----- Errors --------------------------------------------------------------------------------------------------

  /**
   * When a costed replay fails: for the candles and batches as the armed replay does, and once triggered for a
   * computed breakeven that is negative, or is not strictly between stop and TP2; zero stands for the entry.
   */
  lemma {:induction false} CostedFailsExactly(q: TradeRequest, cs: seq<Candle>, s: Scenario, batches: seq<Batch>)
    requires ValidRequest(q) && ValidBatches(batches)
    ensures var a, k := ArmedReplay(q.armed, cs, batches), ReplayWithCosts(q, cs, s, batches);
            if a.Err? then k == Err(a.error)
            else if a.value.state != TRIGGERED then k.Ok?
            else
              && a.value.entryPrice.Some?
              && var computed := CostAwareBreakeven(q, a.value.entryPrice.value, s);
                 var breakeven := if computed == 0.0 then a.value.entryPrice.value else computed;
                 if computed < 0.0 then k == Err(NegativeBreakeven)
                 else if !(if q.armed.direction == Long then q.armed.stopPrice < breakeven && breakeven < q.tp2
                           else q.armed.stopPrice > breakeven && breakeven > q.tp2)
                 then k == Err(BreakevenOutsideStopAndTp2)
                 else k.Ok?
  {
    hide Walk, ArmedFrom, CostAwareBreakeven, Ledger;
    var r, a := RatesOf(s), ArmedReplay(q.armed, cs, batches);
    if a.Ok? {
      if a.value.state == TRIGGERED { TriggeredShape(q.armed, cs, BatchTable(cs, batches).value, 0, 0, 0); }
      var cost := CostRequest(q, a.value, s);
      if TradeReplay(cost, cs, batches, r.fee, r.slippage).Ok? && ValidRequest(cost) {
        LedgerAccepts(q, cost, cs, s, batches);
      }
    }
  }
}
