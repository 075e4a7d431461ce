/** Fees, slippage, the cost-aware breakeven, and the cash ledger over a replay's fills. */
module Costs {
  import opened Basics
  import opened Market
  import opened Armed
  import opened Trade

  datatype Scenario = ZERO | BASELINE | STRESS

  datatype Rates = Rates(fee: real, slippage: real)

  function RatesOf(s: Scenario): (r: Rates)
    ensures ValidRates(r.fee, r.slippage)
  {
    match s
    case ZERO => Rates(0.0, 0.0)
    case BASELINE => Rates(0.0006, 0.0002)
    case STRESS => Rates(0.0006, 0.0005)
  }

  // ----- Ticks ---------------------------------------------------------------------------

  function Multiple(n: int, tick: real): real { n as real * tick }

  /** The least multiple of the tick that is not below the price. */
  function CeilToTick(price: real, tick: real): (r: real)
    requires tick > 0.0
  {
    -((-price / tick).Floor as real) * tick
  }

  /** The greatest multiple of the tick that is not above the price. */
  function FloorToTick(price: real, tick: real): (r: real)
    requires tick > 0.0
  {
    (price / tick).Floor as real * tick
  }

  lemma {:induction false} FloorBrackets(price: real, tick: real) returns (n: int)
    requires tick > 0.0
    ensures FloorToTick(price, tick) == Multiple(n, tick) <= price < Multiple(n, tick) + tick
    ensures forall m :: Multiple(m, tick) <= price ==> Multiple(m, tick) <= FloorToTick(price, tick)
  {
    var units := price / tick;
    n := units.Floor;
    QuotientTimes(price, tick);
    Scaled(n as real, units, tick);
    NextUnit(price, tick, units, n as real);
    forall m: int | Multiple(m, tick) <= price ensures Multiple(m, tick) <= Multiple(n, tick) {
      if m <= n { Scaled(m as real, n as real, tick); } else { NextMultiple(n, m, tick); }
    }
  }

  lemma {:induction false} NextMultiple(n: int, m: int, tick: real)
    requires n < m && tick > 0.0
    ensures Multiple(n, tick) + tick <= Multiple(m, tick)
  {
    Scaled(n as real + 1.0, m as real, tick);
    Distributes(n as real, 1.0, tick);
  }

  lemma {:induction false} NextUnit(price: real, tick: real, units: real, n: real)
    requires tick > 0.0 && units * tick == price && units < n + 1.0
    ensures price < n * tick + tick
  {
    ScaledStrictly(units - n, 1.0, tick);
    Distributes(units, -n, tick);
  }

  lemma {:induction false} QuotientTimes(a: real, b: real)
    requires b > 0.0
    ensures a / b * b == a
  {
  }

  lemma {:induction false} Distributes(n: real, m: real, k: real)
    ensures (n + m) * k == n * k + m * k
  {
  }

  lemma {:induction false} NegatedMultiple(n: int, tick: real)
    ensures Multiple(-n, tick) == -Multiple(n, tick)
  {
  }

  lemma {:induction false} CeilBrackets(price: real, tick: real) returns (n: int)
    requires tick > 0.0
    ensures Multiple(n, tick) - tick < price <= Multiple(n, tick) == CeilToTick(price, tick)
    ensures forall m :: price <= Multiple(m, tick) ==> CeilToTick(price, tick) <= Multiple(m, tick)
  {
    var below := FloorBrackets(-price, tick);
    n := -below;
    NegatedMultiple(below, tick);
    assert CeilToTick(price, tick) == -FloorToTick(-price, tick);
    forall m: int | price <= Multiple(m, tick) ensures CeilToTick(price, tick) <= Multiple(m, tick) {
      NegatedMultiple(m, tick);
      assert Multiple(-m, tick) <= -price;
    }
  }

  lemma {:induction false} Scaled(a: real, b: real, k: real)
    requires a <= b && 0.0 <= k
    ensures a * k <= b * k
  {
  }

  lemma {:induction false} ScaledStrictly(a: real, b: real, k: real)
    requires a < b && 0.0 < k
    ensures a * k < b * k
  {
  }

  /** `cost_aware_breakeven`. */
  function CostAwareBreakeven(q: TradeRequest, entry: real, s: Scenario): real
    requires q.tick > 0.0
  {
    var fee, slippage := RatesOf(s).fee, RatesOf(s).slippage;
    if q.armed.direction == Long then
      CeilToTick(entry * (1.0 + slippage) * (1.0 + fee) / ((1.0 - slippage) * (1.0 - fee)), q.tick)
    else
      FloorToTick(entry * (1.0 - slippage) * (1.0 - fee) / ((1.0 + slippage) * (1.0 + fee)), q.tick)
  }

  // ----- The ledger ------------------------------------------------------------------------

  datatype Side = BUY | SELL

  datatype ExecutionFill = ExecutionFill(
    id: EventId,
    eventType: EventType,
    side: Side,
    fraction: real,
    price: real,
    simulated: real,
    fee: real,
    slippageCost: real)

  predicate IsFill(t: EventType) {
    t in {EntryFill, Tp1Fill, StopFill, Tp2Fill, TimeExit}
  }

  predicate Priced(e: ReplayEvent) { e.price.Some? && e.fraction.Some? }

  function SideOf(d: Direction, t: EventType): Side {
    if (d == Long) == (t == EntryFill) then BUY else SELL
  }

  /** `_execution_fill`. */
  function ExecutionFillOf(e: ReplayEvent, d: Direction, r: Rates): ExecutionFill
    requires Priced(e)
  {
    var side := SideOf(d, e.eventType);
    var simulated := e.price.value * (if side == BUY then 1.0 + r.slippage else 1.0 - r.slippage);
    var fraction := e.fraction.value;
    ExecutionFill(e.Id(), e.eventType, side, fraction, e.price.value, simulated,
                  Abs(simulated * fraction) * r.fee, Abs(simulated - e.price.value) * fraction)
  }

  predicate AllPriced(events: seq<ReplayEvent>) {
    forall i :: 0 <= i < |events| ==> IsFill(events[i].eventType) ==> Priced(events[i])
  }

  function FillsOf(events: seq<ReplayEvent>, d: Direction, r: Rates): seq<ExecutionFill>
    requires AllPriced(events)
  {
    if events == [] then []
    else
      var last := events[|events| - 1];
      FillsOf(events[..|events| - 1], d, r) + (if IsFill(last.eventType) then [ExecutionFillOf(last, d, r)] else [])
  }

  function Gross(f: ExecutionFill): real {
    if f.side == BUY then -(f.price * f.fraction) else f.price * f.fraction
  }

  function Simulated(f: ExecutionFill): real {
    if f.side == BUY then -(f.simulated * f.fraction) else f.simulated * f.fraction
  }

  function FeeOf(f: ExecutionFill): real { f.fee }

  function SlippageOf(f: ExecutionFill): real { f.slippageCost }

  /** The part of an exit fill that closes position: everything but the entry. */
  function ExitFraction(f: ExecutionFill): real {
    if f.eventType == EntryFill then 0.0 else f.fraction
  }

  function Total(fills: seq<ExecutionFill>, measure: ExecutionFill -> real): real {
    if fills == [] then 0.0 else Total(fills[..|fills| - 1], measure) + measure(fills[|fills| - 1])
  }

  datatype Pnl = Pnl(gross: real, simulated: real, net: real, grossR: real, netR: real)

  datatype CostedResult = CostedResult(
    scenario: Scenario,
    trade: TradeResult,
    fills: seq<ExecutionFill>,
    totalFee: real,
    totalSlippage: real,
    pnl: Option<Pnl>)

  predicate IsClosed(t: TradeResult) {
    t.armed.state == TRIGGERED && t.position == Some(FLAT)
  }

  /** The request that is actually replayed: the cost-aware breakeven replaces whatever was asked. */
  function CostRequest(q: TradeRequest, a: ArmedResult, s: Scenario): TradeRequest
    requires q.tick > 0.0
  {
    if a.state == TRIGGERED && a.entryPrice.Some?
    then q.(breakeven := Some(CostAwareBreakeven(q, a.entryPrice.value, s)))
    else q
  }

  /** The ledger of one finished or unfinished trade, with the balance checks in their order. */
  function Ledger(q: TradeRequest, t: TradeResult, s: Scenario): Result<CostedResult, ReplayError> {
    if !AllPriced(t.events) then Err(UnpricedFill)
    else
      var fills := FillsOf(t.events, q.armed.direction, RatesOf(s));
      var base := CostedResult(s, t, fills, Total(fills, FeeOf), Total(fills, SlippageOf), None);
      if !IsClosed(t) then Ok(base)
      else if |fills| < 2 || fills[0].eventType != EntryFill then Err(UnbalancedLedger)
      else if fills[0].fraction != 1.0 || Total(fills, ExitFraction) != 1.0 then Err(UnbalancedLedger)
      else
        var gross, simulated := Total(fills, Gross), Total(fills, Simulated);
        var net := simulated - base.totalFee;
        var risk := Abs(q.armed.entryPrice - q.armed.stopPrice);
        if risk <= 0.0 then Err(NonPositiveRisk)
        else Ok(base.(pnl := Some(Pnl(gross, simulated, net, gross / risk, net / risk))))
  }

  /** `replay_with_costs`. */
  function ReplayWithCosts(
      q: TradeRequest, cs: seq<Candle>, s: Scenario, batches: seq<Batch>): Result<CostedResult, ReplayError>
    requires q.tick > 0.0
  {
    match ArmedReplay(q.armed, cs, batches)
    case Err(e) => Err(e)
    case Ok(a) =>
      var cost := CostRequest(q, a, s);
      if a.state == TRIGGERED && cost.breakeven.Some? && cost.breakeven.value < 0.0 then Err(NegativeBreakeven)
      else
        match TradeReplay(cost, cs, batches, RatesOf(s).fee, RatesOf(s).slippage)
        case Err(e) => Err(e)
        case Ok(t) => Ledger(q, t, s)
  }
}
