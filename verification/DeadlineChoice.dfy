/** The deadline exit is the worse of two whole ledgers. */
module DeadlineChoice {
  import opened Basics
  import opened Market
  import opened Armed
  import opened Trade
  import opened Shape
  import opened Runs
  import opened Costs
  import opened LedgerFacts
  import opened Payoff
  import opened Net

  /** Net cash of a log: every simulated cash flow less every fee. */
  function LedgerNet(events: seq<ReplayEvent>, d: Direction, r: Rates): real
    requires AllPriced(events)
  {
    Total(FillsOf(events, d, r), Simulated) - Total(FillsOf(events, d, r), FeeOf)
  }

  lemma {:induction false} NetConcat(a: seq<ReplayEvent>, b: seq<ReplayEvent>, d: Direction, r: Rates)
    requires AllPriced(a) && AllPriced(b)
    ensures AllPriced(a + b) && LedgerNet(a + b, d, r) == LedgerNet(a, d, r) + LedgerNet(b, d, r)
  {
    FillsConcat(a, b, d, r);
    TotalConcat(FillsOf(a, d, r), FillsOf(b, d, r), Simulated);
    TotalConcat(FillsOf(a, d, r), FillsOf(b, d, r), FeeOf);
  }

  /** A fill that leaves the position, at a price and fraction not below zero. */
  predicate LeavingFill(f: Fill) {
    f.eventType in {Tp1Fill, StopFill, Tp2Fill, TimeExit} && 0.0 <= f.price && 0.0 <= f.fraction
  }

  lemma {:induction false} ExitCashIsLedgerCash(id: string, f: Fill, d: Direction, r: Rates)
    requires LeavingFill(f) && ValidRates(r.fee, r.slippage)
    ensures var x := ExecutionFillOf(FillEvent(id, f), d, r);
            Simulated(x) - FeeOf(x) == ExitCash(d, r.fee, r.slippage, f)
  {
  }

  /** The deadline's cash comparison speaks about the ledger: exit fills contribute exactly that cash. */
  lemma {:induction false} CashIsLedgerNet(id: string, fills: seq<Fill>, d: Direction, r: Rates)
    requires forall i :: 0 <= i < |fills| ==> LeavingFill(fills[i])
    requires ValidRates(r.fee, r.slippage)
    ensures AllPriced(FillEvents(id, fills))
    ensures LedgerNet(FillEvents(id, fills), d, r) == CashOf(d, r.fee, r.slippage, fills)
    decreases |fills|
  {
    if fills != [] {
      var init, last := fills[..|fills| - 1], fills[|fills| - 1];
      CashIsLedgerNet(id, init, d, r);
      ExitCashIsLedgerCash(id, last, d, r);
      OneNet(FillEvent(id, last), d, r);
      NetConcat(FillEvents(id, init), [FillEvent(id, last)], d, r);
    }
  }

  lemma {:induction false} OneNet(e: ReplayEvent, d: Direction, r: Rates)
    requires IsFill(e.eventType) ==> Priced(e)
    ensures AllPriced([e])
    ensures LedgerNet([e], d, r) ==
            if IsFill(e.eventType) then Simulated(ExecutionFillOf(e, d, r)) - FeeOf(ExecutionFillOf(e, d, r)) else 0.0
  {
    OneFill(e, d, r);
    if IsFill(e.eventType) {
      var f := ExecutionFillOf(e, d, r);
      assert [] + [f] == [f];
      Appended([], f, Simulated);
      Appended([], f, FeeOf);
    }
  }

  /** Closing along fills adds their cash to the ledger, and CLOSED adds nothing. */
  lemma {:induction false} ClosingNet(x: Setting, s: State, p: Path, d: Direction, r: Rates)
    requires p.Shut? && p.fills != [] && AllPriced(s.events) && ValidRates(r.fee, r.slippage)
    requires forall i :: 0 <= i < |p.fills| ==> LeavingFill(p.fills[i])
    ensures var ev := Follow(x, s, p).state.events;
            AllPriced(ev) && LedgerNet(ev, d, r) == LedgerNet(s.events, d, r) + CashOf(d, r.fee, r.slippage, p.fills)
  {
    var id := x.request.armed.signalId;
    var fillEvents := FillEvents(id, p.fills);
    var closed := ClosedBy(id, p.fills[|p.fills| - 1]);
    CashIsLedgerNet(id, p.fills, d, r);
    NetConcat(s.events, fillEvents, d, r);
    OneNet(closed, d, r);
    NetConcat(s.events + fillEvents, [closed], d, r);
  }

  predicate LevelsNonNegative(l: Levels) {
    0.0 <= l.stop && 0.0 <= l.tp1 && 0.0 <= l.tp2 && 0.0 <= l.breakeven
  }

  lemma {:induction false} ShapedFillsLeave(l: Levels, leg: Leg, active: bool, p: Path, lo: int, hi: int, close: int)
    requires PathShape(l, leg, active, p, lo, hi, close) && LevelsNonNegative(l)
    ensures forall i :: 0 <= i < |p.fills| ==> LeavingFill(p.fills[i])
  {
  }

  function Lesser(a: real, b: real): real { if a <= b then a else b }

  /** The ledger net of leaving a deadline state through `fills`. */
  function NetThrough(x: Setting, s: State, fills: seq<Fill>, r: Rates): real
    requires AllPriced(s.events)
    requires AllPriced(s.events + FillEvents(x.request.armed.signalId, fills))
  {
    LedgerNet(s.events + FillEvents(x.request.armed.signalId, fills), x.levels.direction, r)
  }

  lemma {:induction false} NetThroughIs(x: Setting, s: State, fills: seq<Fill>, r: Rates)
    requires AllPriced(s.events) && ValidRates(r.fee, r.slippage)
    requires forall i :: 0 <= i < |fills| ==> LeavingFill(fills[i])
    ensures AllPriced(s.events + FillEvents(x.request.armed.signalId, fills))
    ensures NetThrough(x, s, fills, r) ==
            LedgerNet(s.events, x.levels.direction, r) + CashOf(x.levels.direction, r.fee, r.slippage, fills)
  {
    CashIsLedgerNet(x.request.armed.signalId, fills, x.levels.direction, r);
    NetConcat(s.events, FillEvents(x.request.armed.signalId, fills), x.levels.direction, r);
  }

  /** One deadline step: its ledger is the minimum over the risk path, if any, and the time exit. */
  lemma {:induction false} DeadlineStepIsMin(x: Setting, s: State, c: Candle, b: Option<Batch>, r: Rates)
    requires Arrives(x, c, b, false) && Held(x, s, c.openTime) && c.openTime >= x.deadline
    requires EntryOfOne(x) && LevelsNonNegative(x.levels) && 0.0 <= c.open
    requires x.fee == r.fee && x.slippage == r.slippage && ValidRates(r.fee, r.slippage)
    ensures var s1 := Activate(x, s, c.openTime);
            var risk := RiskPath(x.levels, s1.leg.position, s1.active, c, b);
            var out := CandleStep(x, s, c, b, false).state.events;
            && AllPriced(s1.events) && AllPriced(out)
            && WorseOf(x, s1, c, risk, r, LedgerNet(out, x.levels.direction, r))
  {
    HalfMeansActive(x, s, c.openTime);
    var s1 := Activate(x, s, c.openTime);
    OpenPriced(x, s1.events);
    RiskFillsLeave(x, s1, c, b);
    ClosingNet(x, CountSource(s1, b), DeadlinePath(x, s1, c, b), x.levels.direction, r);
    ChosenIsWorse(x, s1, c, b, r);
  }

  /** The chosen path's ledger is the worse one. */
  lemma {:induction false} ChosenIsWorse(x: Setting, s: State, c: Candle, b: Option<Batch>, r: Rates)
    requires AllPriced(s.events) && ValidRates(r.fee, r.slippage) && 0.0 <= c.open
    requires x.fee == r.fee && x.slippage == r.slippage
    requires var risk := RiskPath(x.levels, s.leg.position, s.active, c, b);
             risk.RiskExit? ==> forall i :: 0 <= i < |risk.fills| ==> LeavingFill(risk.fills[i])
    ensures WorseOf(x, s, c, RiskPath(x.levels, s.leg.position, s.active, c, b), r,
                    LedgerNet(s.events, x.levels.direction, r)
                    + CashOf(x.levels.direction, r.fee, r.slippage, DeadlinePath(x, s, c, b).fills))
  {
    var risk := RiskPath(x.levels, s.leg.position, s.active, c, b);
    var time := [TimeFill(s.leg.position, c)];
    NetThroughIs(x, s, time, r);
    if risk.RiskExit? { NetThroughIs(x, s, risk.fills, r); }
  }

  lemma {:induction false} OpenPriced(x: Setting, events: seq<ReplayEvent>)
    requires EntryOfOne(x) && OpenLog(x, events)
    ensures AllPriced(events)
  {
  }

  lemma {:induction false} RiskFillsLeave(x: Setting, s: State, c: Candle, b: Option<Batch>)
    requires Arrives(x, c, b, false) && Poised(s.leg, s.active) && LevelsNonNegative(x.levels)
    ensures var risk := RiskPath(x.levels, s.leg.position, s.active, c, b);
            risk.RiskExit? ==> forall i :: 0 <= i < |risk.fills| ==> LeavingFill(risk.fills[i])
  {
    var risk := RiskPath(x.levels, s.leg.position, s.active, c, b);
    if risk.RiskExit? {
      RiskPathShape(x, s, c, b);
      ShapedFillsLeave(x.levels, s.leg, s.active, Shut(risk.fills, risk.reason, s.leg.activation), c.openTime,
        c.CloseTime(), c.CloseTime());
    }
  }

  /** The trade was still open when the first candle at or after its deadline opened. */
  ghost predicate ReachesDeadline(t: TradeResult, cs: seq<Candle>) {
    && IsClosed(t) && t.exitTime.Some? && t.deadline.Some?
    && exists k: nat :: FirstFrom(cs, t.deadline.value, k) && t.exitTime.value >= cs[k].openTime
  }

  lemma {:induction false} StopsAtDeadline(
      q: TradeRequest, cs: seq<Candle>, batches: seq<Batch>, r: Rates) returns (g: Launch, s: State, k: nat)
    requires Accepted(q, cs, batches, r.fee, r.slippage)
    requires ReachesDeadline(TradeReplay(q, cs, batches, r.fee, r.slippage).value, cs)
    ensures var t := TradeReplay(q, cs, batches, r.fee, r.slippage).value;
            && Triggers(q, cs, batches) && g == LaunchOf(q, cs, batches, r.fee, r.slippage)
            && FirstFrom(cs, g.x.deadline, k) && t.deadline == Some(g.x.deadline)
            && Arrives(g.x, cs[k], BatchAt(g.table, cs[k].openTime), false)
            && Held(g.x, s, cs[k].openTime)
            && g.entryIndex < k && Walk(g.x, Initial(g.x.armed), cs[..k], g.table, g.entryIndex, g.entryIndex) ==
              Running(s)
            && t == ResultOf(g.x, CandleStep(g.x, s, cs[k], BatchAt(g.table, cs[k].openTime), false))
            && CandleStep(g.x, s, cs[k], BatchAt(g.table, cs[k].openTime), false).Exited?
  {
    AcceptedLaunches(q, cs, batches, r.fee, r.slippage);
    LaunchedLog(q, cs, batches, r.fee, r.slippage);
    g := LaunchOf(q, cs, batches, r.fee, r.slippage);
    s, k := RunStops(q, cs, batches, r.fee, r.slippage);
    LaunchArrives(q, cs, batches, r.fee, r.slippage);
    StopIsFirst(g, cs, s, k);
  }

  lemma {:induction false} StopIsFirst(g: Launch, cs: seq<Candle>, s: State, k: nat)
    requires ClosingStep(g, cs, s, k)
    requires exists first: nat :: FirstFrom(cs, g.x.deadline, first) && RunOf(g, cs).time >= cs[first].openTime
    requires cs[g.entryIndex].openTime < g.x.deadline
    ensures FirstFrom(cs, g.x.deadline, k) && k != g.entryIndex
  {
    var first: nat :| FirstFrom(cs, g.x.deadline, first) && RunOf(g, cs).time >= cs[first].openTime;
    GridIndex(cs, k, first);
  }

  /** What the run of `g` holds when candle `k` has opened and the breakeven stop has had its chance to activate. */
  predicate HoldsAtOpen(g: Launch, cs: seq<Candle>, st: State, k: nat) {
    && |g.x.armed.events| == 1 && g.entryIndex < k < |cs|
    && (var soFar := Walk(g.x, Initial(g.x.armed), cs[..k], g.table, g.entryIndex, g.entryIndex);
        soFar.Running? && st == Activate(g.x, soFar.state, cs[k].openTime))
    && Held(g.x, st, cs[k].openTime)
    && (st.leg.position == HALF_AFTER_TP1 <==> st.active)
  }

  /** What candle `k`'s risk path would close the held state with. */
  function RiskAt(g: Launch, cs: seq<Candle>, st: State, k: nat): Risk
    requires k < |cs|
  {
    RiskPath(g.x.levels, st.leg.position, st.active, cs[k], BatchAt(g.table, cs[k].openTime))
  }

  /** The net of a costed replay is the ledger of the replay under its cost-aware request. */
  lemma {:induction false} CostedNet(q: TradeRequest, cs: seq<Candle>, s: Scenario, batches: seq<Batch>)
    returns (cost: TradeRequest)
    requires ValidRequest(q) && ValidBatches(batches) && NonNegativePrices(q, cs)
    requires ReplayWithCosts(q, cs, s, batches).Ok?
    ensures cost.armed == q.armed && NonNegativePrices(cost, cs)
    ensures Accepted(cost, cs, batches, RatesOf(s).fee, RatesOf(s).slippage)
    ensures var k := ReplayWithCosts(q, cs, s, batches).value;
            && k.trade == TradeReplay(cost, cs, batches, RatesOf(s).fee, RatesOf(s).slippage).value
            && (IsClosed(k.trade) && AllPriced(k.trade.events) ==>
                  k.pnl.Some? && k.pnl.value.net == LedgerNet(k.trade.events, q.armed.direction, RatesOf(s)))
  {
    CostedUnfolds(q, cs, s, batches);
    cost := CostRequest(q, ArmedReplay(q.armed, cs, batches).value, s);
    LedgerAccepts(q, cost, cs, s, batches);
  }

  /** A trade that reaches its deadline candle nets the worse of its two possible whole ledgers. */
  lemma {:induction false} DeadlineIsWorse(q: TradeRequest, cs: seq<Candle>, s: Scenario, batches: seq<Batch>)
    returns (g: Launch, st: State, k: nat)
    requires ValidRequest(q) && ValidBatches(batches) && NonNegativePrices(q, cs)
    requires ReplayWithCosts(q, cs, s, batches).Ok?
    requires ReachesDeadline(ReplayWithCosts(q, cs, s, batches).value.trade, cs)
    ensures var t := ReplayWithCosts(q, cs, s, batches).value.trade;
            && Triggers(t.request, cs, batches)
            && g == LaunchOf(t.request, cs, batches, RatesOf(s).fee, RatesOf(s).slippage)
            && FirstFrom(cs, t.deadline.value, k) && HoldsAtOpen(g, cs, st, k)
            && st.events <= t.events && AllPriced(st.events)
    ensures var pnl := ReplayWithCosts(q, cs, s, batches).value.pnl;
            pnl.Some? && WorseOf(g.x, st, cs[k], RiskAt(g, cs, st, k), RatesOf(s), pnl.value.net)
  {
    hide HoldsAtOpen, WorseOf, RiskAt, ReplayWithCosts, TradeReplay, LedgerNet, NonNegativePrices, FirstFrom;
    var cost := CostedNet(q, cs, s, batches);
    g, st, k := DeadlineLedger(cost, cs, batches, RatesOf(s));
  }

  /** The same choice on the replay itself, before the ledger is packaged. */
  lemma {:induction false} DeadlineLedger(q: TradeRequest, cs: seq<Candle>, batches: seq<Batch>, r: Rates)
    returns (g: Launch, st: State, k: nat)
    requires Accepted(q, cs, batches, r.fee, r.slippage) && NonNegativePrices(q, cs)
    requires ReachesDeadline(TradeReplay(q, cs, batches, r.fee, r.slippage).value, cs)
    ensures var t := TradeReplay(q, cs, batches, r.fee, r.slippage).value;
            && Triggers(q, cs, batches) && g == LaunchOf(q, cs, batches, r.fee, r.slippage) && t.request == q
            && FirstFrom(cs, t.deadline.value, k) && HoldsAtOpen(g, cs, st, k)
            && st.events <= t.events && AllPriced(st.events) && AllPriced(t.events)
            && WorseOf(g.x, st, cs[k], RiskAt(g, cs, st, k), r, LedgerNet(t.events, q.armed.direction, r))
  {
    AcceptedLaunches(q, cs, batches, r.fee, r.slippage);
    var last;
    g, last, k := StopsAtDeadline(q, cs, batches, r);
    var c, b := cs[k], BatchAt(g.table, cs[k].openTime);
    LaunchArrives(q, cs, batches, r.fee, r.slippage);
    LevelsAreNonNegative(q, cs, batches, r);
    assert 0.0 <= c.low <= c.open;
    st := Activate(g.x, last, c.openTime);
    HalfMeansActive(g.x, last, c.openTime);
    DeadlineStepIsMin(g.x, last, c, b, r);
    StepAppends(g.x, last, c, b, false);
  }

  /** `net` is the smaller of the ledgers through the risk path, if there is one, and through the time exit. */
  ghost predicate WorseOf(x: Setting, st: State, c: Candle, risk: Risk, r: Rates, net: real) {
    var id, time := x.request.armed.signalId, [TimeFill(st.leg.position, c)];
    && AllPriced(st.events)
    && AllPriced(st.events + FillEvents(id, time))
    && (risk.RiskExit? ==> AllPriced(st.events + FillEvents(id, risk.fills)))
    && net == if risk.RiskExit? then Lesser(NetThrough(x, st, risk.fills, r), NetThrough(x, st, time, r))
              else NetThrough(x, st, time, r)
  }

  lemma {:induction false} LevelsAreNonNegative(q: TradeRequest, cs: seq<Candle>, batches: seq<Batch>, r: Rates)
    requires Triggers(q, cs, batches) && NonNegativePrices(q, cs)
    ensures LevelsNonNegative(LaunchOf(q, cs, batches, r.fee, r.slippage).x.levels)
  {
    TriggeredShape(q.armed, cs, BatchTable(cs, batches).value, 0, 0, 0);
    var a := ArmedReplay(q.armed, cs, batches).value;
    var at := cs[Positions(cs)[a.entryCandleOpen.value]];
    assert 0.0 <= at.low <= at.open;
  }
}
