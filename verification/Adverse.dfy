/** Replaying on candles alone is a sound lower bound for replaying on their trades. */
module Adverse {
  import opened Basics
  import opened Sorting
  import opened Market
  import opened Armed
  import opened Trade
  import opened Shape
  import opened Runs
  import opened Costs
  import opened LedgerFacts
  import opened Payoff
  import opened Net
  import opened DeadlineChoice

  // ----- Trades against their candle ---------------------------------------------------------------

  predicate AnyTouches(d: Direction, trades: seq<AggTrade>, level: real, favorable: bool) {
    trades != [] && (Touches(d, trades[0].price, level, favorable) || AnyTouches(d, trades[1..], level, favorable))
  }

  lemma {:induction false} AnyTouchesIs(d: Direction, trades: seq<AggTrade>, level: real, favorable: bool)
    ensures AnyTouches(d, trades, level, favorable) <==>
      exists t :: t in trades && Touches(d, t.price, level, favorable)
  {
    if trades != [] {
      AnyTouchesIs(d, trades[1..], level, favorable);
      assert trades == [trades[0]] + trades[1..];
      assert trades[0] in trades;
    }
  }

  /** A candle touches a level exactly when one of the trades that reproduce it does. */
  lemma {:induction false} RangeTouches(d: Direction, c: Candle, trades: seq<AggTrade>, level: real, favorable: bool)
    requires trades != [] && Reproduces(c, trades)
    ensures AnyTouches(d, trades, level, favorable) <==>
            Touches(d, if favorable then Best(d, c) else Worst(d, c), level, favorable)
  {
    PriceRange(trades);
    AnyTouchesIs(d, trades, level, favorable);
    var hi :| hi in trades && hi.price == MaxPrice(trades);
    var lo :| lo in trades && lo.price == MinPrice(trades);
    if Touches(d, if favorable then Best(d, c) else Worst(d, c), level, favorable) {
      assert Touches(d, hi.price, level, favorable) || Touches(d, lo.price, level, favorable);
    }
  }

  // ----- One candle's path, on trades and on the bar -----------------------------------------------

  predicate OrderedLevels(l: Levels) {
    && BreakevenOrdered(l)
    && if l.direction == Long then l.stop < l.tp1 < l.tp2 else l.stop > l.tp1 > l.tp2
  }

  lemma {:induction false} TicksFromHalf(l: Levels, leg: Leg, active: bool, trades: seq<AggTrade>, close: int)
    requires leg.position == HALF_AFTER_TP1
    ensures var p := Ticks(l, leg, active, trades, close);
            && (p.Shut? <==> AnyTouches(l.direction, trades, ProtectiveStop(l, active), false)
                             || AnyTouches(l.direction, trades, l.tp2, true))
            && (p.Open? ==> p == Open([], leg))
            && (p.Shut? && !AnyTouches(l.direction, trades, ProtectiveStop(l, active), false) ==>
                  |p.fills| == 1 && IsTp2(l, p.fills[0]) && p.reason == TP2)
    decreases |trades|
  {
    if trades != [] { TicksFromHalf(l, leg, active, trades[1..], close); }
  }

  lemma {:induction false} TicksFromFull(l: Levels, trades: seq<AggTrade>, close: int)
    requires OrderedLevels(l)
    ensures var p := Ticks(l, Leg(FULL, None), false, trades, close);
            && (p.Shut? <==>
                  AnyTouches(l.direction, trades, l.stop, false) || AnyTouches(l.direction, trades, l.tp2, true))
            && (p.Open? ==>
                  p.leg == if AnyTouches(l.direction, trades, l.tp1, true) then Leg(HALF_AFTER_TP1, Some(close))
                           else Leg(FULL, None))
            && (p.Shut? && !AnyTouches(l.direction, trades, l.stop, false) ==>
                  |p.fills| == 2 && IsTp1(l, p.fills[0]) && IsTp2(l, p.fills[1]) && p.reason == TP2)
    decreases |trades|
  {
    if trades != [] {
      var p := Tick(l, Leg(FULL, None), false, trades[0], close);
      if p.Open? && p.leg.position == HALF_AFTER_TP1 {
        TicksFromHalf(l, p.leg, false, trades[1..], close);
      } else if p.Open? {
        TicksFromFull(l, trades[1..], close);
      }
    }
  }

  // ----- Cash of closing paths ------------------------------------------------------------------------

  lemma {:induction false} ExitCashFactor(d: Direction, r: Rates, f: Fill)
    ensures ExitCash(d, r.fee, r.slippage, f) == Signed(d, f.price * Factor(d, r)) * f.fraction
  {
  }

  lemma {:induction false} CashOne(d: Direction, r: Rates, f: Fill)
    ensures CashOf(d, r.fee, r.slippage, [f]) == Signed(d, f.price * Factor(d, r)) * f.fraction
  {
  }

  lemma {:induction false} CashTwo(d: Direction, r: Rates, f: Fill, g: Fill)
    ensures CashOf(d, r.fee, r.slippage, [f, g]) ==
            Signed(d, f.price * Factor(d, r)) * f.fraction + Signed(d, g.price * Factor(d, r)) * g.fraction
  {
    ExitCashFactor(d, r, g);
    CashOne(d, r, f);
    assert [f, g][..1] == [f] && [f, g][1] == g;
  }

  lemma {:induction false} CashHalves(l: Levels, r: Rates, f: Fill, g: Fill)
    requires f.fraction == 0.5 && g.fraction == 0.5
    ensures CashOf(l.direction, r.fee, r.slippage, [f, g]) ==
            Signed(l.direction, f.price * Factor(l.direction, r)) * 0.5 +
              Signed(l.direction, g.price * Factor(l.direction, r)) * 0.5
  {
    CashTwo(l.direction, r, f, g);
  }

  /** Better levels are worth more cash, per unit of fraction. */
  lemma {:induction false} BetterIsWorthMore(d: Direction, r: Rates, worse: real, better: real)
    requires ValidRates(r.fee, r.slippage)
    requires if d == Long then worse <= better else worse >= better
    ensures Signed(d, worse * Factor(d, r)) <= Signed(d, better * Factor(d, r))
  {
    FactorPositive(d, r);
    if d == Long { Scaled(worse, better, Factor(d, r)); } else { Scaled(better, worse, Factor(d, r)); }
  }

  /** Cash per unit of fraction at each level, worst first. */
  lemma {:induction false} LevelCash(l: Levels, r: Rates) returns (stop: real, tp1: real, tp2: real, breakeven: real)
    requires OrderedLevels(l) && ValidRates(r.fee, r.slippage)
    ensures stop == Signed(l.direction, l.stop * Factor(l.direction, r))
    ensures tp1 == Signed(l.direction, l.tp1 * Factor(l.direction, r))
    ensures tp2 == Signed(l.direction, l.tp2 * Factor(l.direction, r))
    ensures breakeven == Signed(l.direction, l.breakeven * Factor(l.direction, r))
    ensures stop <= tp1 <= tp2 && breakeven <= tp2
  {
    var d := l.direction;
    stop, tp1 := Signed(d, l.stop * Factor(d, r)), Signed(d, l.tp1 * Factor(d, r));
    tp2, breakeven := Signed(d, l.tp2 * Factor(d, r)), Signed(d, l.breakeven * Factor(d, r));
    BetterIsWorthMore(d, r, l.stop, l.tp1);
    BetterIsWorthMore(d, r, l.tp1, l.tp2);
    BetterIsWorthMore(d, r, l.breakeven, l.tp2);
  }

  function PathCash(l: Levels, r: Rates, p: Path): real {
    CashOf(l.direction, r.fee, r.slippage, p.fills)
  }

  lemma {:induction false} FullCashTwo(l: Levels, r: Rates, f: Fill, g: Fill)
    requires OrderedLevels(l) && ValidRates(r.fee, r.slippage)
    requires f.fraction == 0.5 && g.fraction == 0.5 && f.price == l.tp1 && (g.price == l.stop || g.price == l.tp2)
    ensures CashOf(l.direction, r.fee, r.slippage, [f, g]) >= Signed(l.direction, l.stop * Factor(l.direction, r))
    ensures g.price == l.tp2 ==>
      CashOf(l.direction, r.fee, r.slippage, [f, g]) ==
      Signed(l.direction, l.tp1 * Factor(l.direction, r)) * 0.5 +
        Signed(l.direction, l.tp2 * Factor(l.direction, r)) * 0.5
  {
    var stop, tp1, tp2, breakeven := LevelCash(l, r);
    CashHalves(l, r, f, g);
    assert Signed(l.direction, f.price * Factor(l.direction, r)) == tp1;
    if g.price == l.tp2 {
      assert Signed(l.direction, g.price * Factor(l.direction, r)) == tp2;
    } else {
      assert Signed(l.direction, g.price * Factor(l.direction, r)) == stop;
    }
  }

  /** Any shaped closing path from FULL is worth at least the stop; through both targets it is worth the same always. */
  lemma {:induction false} FullCash(l: Levels, r: Rates, p: Path, lo: int, hi: int, close: int)
    requires OrderedLevels(l) && ValidRates(r.fee, r.slippage)
    requires p.Shut? && PathShape(l, Leg(FULL, None), false, p, lo, hi, close)
    ensures PathCash(l, r, p) >= Signed(l.direction, l.stop * Factor(l.direction, r))
    ensures p.reason == TP2 ==>
      PathCash(l, r, p) ==
      Signed(l.direction, l.tp1 * Factor(l.direction, r)) * 0.5 +
        Signed(l.direction, l.tp2 * Factor(l.direction, r)) * 0.5
    ensures |p.fills| == 1 ==> PathCash(l, r, p) == Signed(l.direction, l.stop * Factor(l.direction, r))
  {
    if |p.fills| == 1 {
      assert p.fills == [p.fills[0]];
      CashOne(l.direction, r, p.fills[0]);
    } else {
      assert p.fills == [p.fills[0], p.fills[1]];
      FullCashTwo(l, r, p.fills[0], p.fills[1]);
    }
  }

  lemma {:induction false} HalfCash(l: Levels, r: Rates, leg: Leg, p: Path, lo: int, hi: int, close: int)
    requires OrderedLevels(l) && ValidRates(r.fee, r.slippage) && leg.position == HALF_AFTER_TP1
    requires p.Shut? && PathShape(l, leg, true, p, lo, hi, close)
    ensures PathCash(l, r, p) >= Signed(l.direction, l.breakeven * Factor(l.direction, r)) * 0.5
    ensures p.reason == TP2 ==> PathCash(l, r, p) == Signed(l.direction, l.tp2 * Factor(l.direction, r)) * 0.5
    ensures p.reason != TP2 ==> PathCash(l, r, p) == Signed(l.direction, l.breakeven * Factor(l.direction, r)) * 0.5
  {
    var stop, tp1, tp2, breakeven := LevelCash(l, r);
    CashOne(l.direction, r, p.fills[0]);
    assert p.fills == [p.fills[0]];
  }

  /** On one candle the bar closes exactly when the trades do, for no more cash, and otherwise leaves the same leg. */
  predicate NoBetter(l: Levels, r: Rates, bar: Path, ticks: Path) {
    && (bar.Shut? <==> ticks.Shut?)
    && (bar.Open? ==> bar.leg == ticks.leg)
    && (bar.Shut? ==> PathCash(l, r, bar) <= PathCash(l, r, ticks))
  }

  lemma {:induction false} BarNoBetterFromFull(l: Levels, r: Rates, c: Candle, trades: seq<AggTrade>, close: int)
    requires OrderedLevels(l) && ValidRates(r.fee, r.slippage) && close == c.CloseTime()
    requires trades != [] && Reproduces(c, trades) && Ascending(TradeLeq, trades)
    requires forall i :: 0 <= i < |trades| ==> c.openTime <= trades[i].time < close
    ensures NoBetter(l, r, Bar(l, Leg(FULL, None), false, false, c), Ticks(l, Leg(FULL, None), false, trades, close))
  {
    var bar, ticks := Bar(l, Leg(FULL, None), false, false, c), Ticks(l, Leg(FULL, None), false, trades, close);
    RangeTouches(l.direction, c, trades, l.stop, false);
    RangeTouches(l.direction, c, trades, l.tp1, true);
    RangeTouches(l.direction, c, trades, l.tp2, true);
    TicksFromFull(l, trades, close);
    if ticks.Shut? {
      TicksShape(l, Leg(FULL, None), false, trades, c.openTime, close, close);
      BarShape(l, Leg(FULL, None), false, false, c);
      FullCash(l, r, bar, c.openTime, close, close);
      FullCash(l, r, ticks, c.openTime, close, close);
    }
  }

  lemma {:induction false} BarNoBetterFromHalf(
      l: Levels, r: Rates, leg: Leg, c: Candle, trades: seq<AggTrade>, close: int)
    requires OrderedLevels(l) && ValidRates(r.fee, r.slippage) && close == c.CloseTime()
    requires leg.position == HALF_AFTER_TP1 && leg.activation.Some?
    requires trades != [] && Reproduces(c, trades) && Ascending(TradeLeq, trades)
    requires forall i :: 0 <= i < |trades| ==> c.openTime <= trades[i].time < close
    ensures NoBetter(l, r, Bar(l, leg, true, false, c), Ticks(l, leg, true, trades, close))
  {
    var bar, ticks := Bar(l, leg, true, false, c), Ticks(l, leg, true, trades, close);
    RangeTouches(l.direction, c, trades, l.breakeven, false);
    RangeTouches(l.direction, c, trades, l.tp2, true);
    TicksFromHalf(l, leg, true, trades, close);
    if ticks.Shut? {
      TicksShape(l, leg, true, trades, c.openTime, close, close);
      BarShape(l, leg, true, false, c);
      HalfCash(l, r, leg, bar, c.openTime, close, close);
      HalfCash(l, r, leg, ticks, c.openTime, close, close);
    }
  }

  /** On every leg a replay can reach, a deadline candle's risk path is what the ordinary rules would close with. */
  lemma {:induction false} RiskIsOrdinaryExit(x: Setting, s: State, c: Candle, b: Option<Batch>)
    requires x.armed.events != []
    requires Poised(s.leg, s.active) && (s.leg.position == HALF_AFTER_TP1 <==> s.active)
    requires OrderedLevels(x.levels) && c.low <= c.high
    ensures RiskPath(x.levels, s.leg.position, s.active, c, b) == RiskOf(CandlePath(x, s, c, b, false))
  {
    if Complete(b) {
      TicksIgnoreActivation(x.levels, s.leg, s.active, Ordered(b.value.trades), c.CloseTime());
    }
  }

  // ----- Two runs, candle by candle ----------------------------------------------------------------------

  /** Two states that hold the same position with equal money in it; their events may cite different trades. */
  predicate Twins(x: Setting, s: State, t: State, open: int) {
    Held(x, s, open) && Held(x, t, open) && s.leg == t.leg && s.active == t.active
  }

  /** `thin` is `b`, or nothing in place of a batch that is incomplete or has trades. */
  predicate Thinner(b: Option<Batch>, thin: Option<Batch>) {
    thin == b || (thin == None && (Complete(b) ==> b.value.trades != []))
  }

  /** Fills that differ in nothing but the event they cite. */
  predicate SameMoney(f: ExecutionFill, g: ExecutionFill) {
    f.(id := g.id) == g
  }

  lemma {:induction false} TotalsAgree(f: seq<ExecutionFill>, g: seq<ExecutionFill>, m: ExecutionFill -> real)
    requires |f| == |g| && forall i :: 0 <= i < |f| ==> SameMoney(f[i], g[i])
    requires forall a, b :: SameMoney(a, b) ==> m(a) == m(b)
    ensures Total(f, m) == Total(g, m)
  {
    if f != [] {
      TotalsAgree(f[..|f| - 1], g[..|g| - 1], m);
      assert SameMoney(f[|f| - 1], g[|g| - 1]);
    }
  }

  lemma {:induction false} CitesOnly(a: ReplayEvent, b: ReplayEvent, d: Direction, r: Rates)
    requires Priced(a) && a.eventType == b.eventType && a.price == b.price && a.fraction == b.fraction
    ensures SameMoney(ExecutionFillOf(a, d, r), ExecutionFillOf(b, d, r))
  {
  }

  lemma {:induction false} SameOpenNet(x: Setting, a: seq<ReplayEvent>, b: seq<ReplayEvent>, d: Direction, r: Rates)
    requires EntryOfOne(x) && OpenLog(x, a) && OpenLog(x, b) && (|a| == 1 <==> |b| == 1)
    ensures AllPriced(a) && AllPriced(b) && LedgerNet(a, d, r) == LedgerNet(b, d, r)
  {
    HeadFills(x, a, d, r);
    HeadFills(x, b, d, r);
    if |a| > 1 { CitesOnly(a[1], b[1], d, r); }
    TotalsAgree(FillsOf(a, d, r), FillsOf(b, d, r), Simulated);
    TotalsAgree(FillsOf(a, d, r), FillsOf(b, d, r), FeeOf);
  }

  /** What two steps that started as twins may differ in: where they cite, and a worse ledger on the thin side. */
  predicate StepNoBetter(x: Setting, u: Run, v: Run, open: int, close: int, r: Rates) {
    if u.Running? then v.Running? && Twins(x, u.state, v.state, close)
    else
      && v.Exited?
      && open <= u.time < close && open <= v.time < close
      && AllPriced(u.state.events) && AllPriced(v.state.events)
      && LedgerNet(v.state.events, x.levels.direction, r) <= LedgerNet(u.state.events, x.levels.direction, r)
  }

  lemma {:induction false} ClosingNoBetter(x: Setting, s: State, t: State, p: Path, q: Path, open: int, r: Rates)
    requires EntryOfOne(x) && ValidRates(r.fee, r.slippage) && Twins(x, s, t, open)
    requires p.Shut? && q.Shut? && p.fills != [] && q.fills != []
    requires forall i :: 0 <= i < |p.fills| ==> LeavingFill(p.fills[i])
    requires forall i :: 0 <= i < |q.fills| ==> LeavingFill(q.fills[i])
    requires PathCash(x.levels, r, q) <= PathCash(x.levels, r, p)
    ensures var u, v := Follow(x, s, p), Follow(x, t, q);
            && AllPriced(u.state.events) && AllPriced(v.state.events)
            && LedgerNet(v.state.events, x.levels.direction, r) <= LedgerNet(u.state.events, x.levels.direction, r)
  {
    SameOpenNet(x, s.events, t.events, x.levels.direction, r);
    ClosingNet(x, s, p, x.levels.direction, r);
    ClosingNet(x, t, q, x.levels.direction, r);
  }

  lemma {:induction false} BarNoBetter(x: Setting, s: State, c: Candle, b: Option<Batch>, thin: Option<Batch>, r: Rates)
    requires |x.armed.events| == 1 && Arrives(x, c, b, false) && Thinner(b, thin)
    requires Poised(s.leg, s.active) && (s.leg.position == HALF_AFTER_TP1 <==> s.active)
    requires OrderedLevels(x.levels) && ValidRates(r.fee, r.slippage)
    requires Complete(b) ==> Reproduces(c, Ordered(b.value.trades))
    ensures NoBetter(x.levels, r, CandlePath(x, s, c, thin, false), CandlePath(x, s, c, b, false))
  {
    if Complete(b) && thin.None? {
      var trades := Ordered(b.value.trades);
      OrderedFacts(b.value.trades);
      assert forall i :: 0 <= i < |trades| ==> trades[i] in trades;
      if s.leg.position == FULL {
        BarNoBetterFromFull(x.levels, r, c, trades, c.CloseTime());
      } else {
        BarNoBetterFromHalf(x.levels, r, s.leg, c, trades, c.CloseTime());
      }
    }
  }

  lemma {:induction false} PathFillsLeave(x: Setting, s: State, c: Candle, b: Option<Batch>)
    requires Arrives(x, c, b, false) && Poised(s.leg, s.active) && LevelsNonNegative(x.levels)
    ensures forall i :: 0 <= i < |CandlePath(x, s, c, b, false).fills| ==>
      LeavingFill(CandlePath(x, s, c, b, false).fills[i])
  {
    CandlePathShape(x, s, c, b, false);
    ShapedFillsLeave(x.levels, s.leg, s.active, CandlePath(x, s, c, b, false), c.openTime, c.CloseTime(),
      c.CloseTime());
  }

  /** What a candle must satisfy for the comparison: a fitting batch, prices not below zero. */
  predicate Comparable(x: Setting, c: Candle, b: Option<Batch>, r: Rates) {
    && EntryOfOne(x) && Arrives(x, c, b, false)
    && OrderedLevels(x.levels) && LevelsNonNegative(x.levels) && ValidRates(r.fee, r.slippage)
    && x.fee == r.fee && x.slippage == r.slippage
    && ValidCandle(c) && 0.0 <= c.low
    && (Complete(b) ==> Reproduces(c, Ordered(b.value.trades)))
  }

  /** A path reads only the position, not the events that led to it. */
  lemma {:induction false} TwinsPath(x: Setting, s: State, t: State, c: Candle, b: Option<Batch>)
    requires x.armed.events != [] && s.leg == t.leg && s.active == t.active
    ensures CandlePath(x, s, c, b, false) == CandlePath(x, t, c, b, false)
  {
  }

  /** Following open paths to one leg leaves twins. */
  lemma {:induction false} FollowTwins(x: Setting, s: State, t: State, p: Path, q: Path, open: int, close: int)
    requires p.Open? && q.Open? && p.leg == q.leg && s.active == t.active
    requires StepOutcome(x, Follow(x, s, p), open, close) && StepOutcome(x, Follow(x, t, q), open, close)
    ensures var u, v := Follow(x, s, p), Follow(x, t, q);
            u.Running? && v.Running? && Twins(x, u.state, v.state, close)
  {
    hide Held, FillEvents;
  }

  lemma {:induction false} FollowExits(x: Setting, s: State, p: Path, open: int, close: int)
    requires p.Shut? && p.fills != [] && StepOutcome(x, Follow(x, s, p), open, close)
    ensures Follow(x, s, p).Exited? && open <= Follow(x, s, p).time < close
  {
    hide ClosedLog, FillEvents;
  }

  lemma {:induction false} OrdinaryNoBetter(
      x: Setting, s: State, t: State, c: Candle, b: Option<Batch>, thin: Option<Batch>, r: Rates)
    requires Comparable(x, c, b, r) && Thinner(b, thin)
    requires Twins(x, s, t, c.openTime) && (s.leg.position == HALF_AFTER_TP1 <==> s.active)
    ensures StepNoBetter(x, Follow(x, s, CandlePath(x, s, c, b, false)), Follow(x, t, CandlePath(x, t, c, thin, false)),
                         c.openTime, c.CloseTime(), r)
  {
    hide CandlePath, Follow, StepOutcome, LedgerNet, PathCash, PathShape, OpenLog, Complete;
    var p, q := CandlePath(x, s, c, b, false), CandlePath(x, t, c, thin, false);
    TwinsPath(x, s, t, c, thin);
    BarNoBetter(x, s, c, b, thin, r);
    CandlePathShape(x, s, c, b, false);
    CandlePathShape(x, t, c, thin, false);
    FollowKeeps(x, s, p, c.openTime, c.CloseTime());
    FollowKeeps(x, t, q, c.openTime, c.CloseTime());
    if p.Open? {
      FollowTwins(x, s, t, p, q, c.openTime, c.CloseTime());
    } else {
      FollowExits(x, s, p, c.openTime, c.CloseTime());
      FollowExits(x, t, q, c.openTime, c.CloseTime());
      PathFillsLeave(x, s, c, b);
      PathFillsLeave(x, t, c, thin);
      ClosingNoBetter(x, s, t, p, q, c.openTime, r);
    }
  }

  /** At the deadline the thinner candle closes for no more cash. */
  lemma {:induction false} DeadlineCashNoMore(
      x: Setting, s: State, t: State, c: Candle, b: Option<Batch>, thin: Option<Batch>, r: Rates)
    requires Comparable(x, c, b, r) && Thinner(b, thin)
    requires Twins(x, s, t, c.openTime) && (s.leg.position == HALF_AFTER_TP1 <==> s.active)
    ensures PathCash(x.levels, r, DeadlinePath(x, t, c, thin)) <= PathCash(x.levels, r, DeadlinePath(x, s, c, b))
  {
    hide RiskPath;
    BarNoBetter(x, s, c, b, thin, r);
    RiskIsOrdinaryExit(x, s, c, b);
    RiskIsOrdinaryExit(x, t, c, thin);
    assert CandlePath(x, t, c, thin, false) == CandlePath(x, s, c, thin, false);
    DeadlineCash(x, s, c, b, r);
    DeadlineCash(x, t, c, thin, r);
  }

  lemma {:induction false} DeadlineNoBetter(
      x: Setting, s: State, t: State, c: Candle, b: Option<Batch>, thin: Option<Batch>, r: Rates)
    requires Comparable(x, c, b, r) && Thinner(b, thin)
    requires Twins(x, s, t, c.openTime) && (s.leg.position == HALF_AFTER_TP1 <==> s.active)
    ensures StepNoBetter(x, Follow(x, s, DeadlinePath(x, s, c, b)), Follow(x, t, DeadlinePath(x, t, c, thin)),
                         c.openTime, c.CloseTime(), r)
  {
    hide RiskPath, PathCash, LedgerNet, ClosedLog;
    var p, q := DeadlinePath(x, s, c, b), DeadlinePath(x, t, c, thin);
    DeadlineStepCloses(x, s, c, b);
    DeadlineStepCloses(x, t, c, thin);
    RiskFillsLeave(x, s, c, b);
    RiskFillsLeave(x, t, c, thin);
    DeadlineCashNoMore(x, s, t, c, b, thin, r);
    ClosingNoBetter(x, s, t, p, q, c.openTime, r);
  }

  /** The deadline path costs the smaller of the two cash flows. */
  lemma {:induction false} DeadlineCash(x: Setting, s: State, c: Candle, b: Option<Batch>, r: Rates)
    requires x.fee == r.fee && x.slippage == r.slippage
    ensures var risk := RiskPath(x.levels, s.leg.position, s.active, c, b);
            var time := CashOf(x.levels.direction, r.fee, r.slippage, [TimeFill(s.leg.position, c)]);
            PathCash(x.levels, r, DeadlinePath(x, s, c, b)) ==
            if risk.RiskExit? then Lesser(CashOf(x.levels.direction, r.fee, r.slippage, risk.fills), time) else time
  {
  }

  /** Activating and counting leave twins that are ready for the candle's prices. */
  lemma {:induction false} TwinsActivate(
      x: Setting, s: State, t: State, c: Candle, b: Option<Batch>, thin: Option<Batch>)
    requires Twins(x, s, t, c.openTime)
    ensures var s2, t2 := CountSource(Activate(x, s, c.openTime), b), CountSource(Activate(x, t, c.openTime), thin);
            Twins(x, s2, t2, c.openTime) && (s2.leg.position == HALF_AFTER_TP1 <==> s2.active)
  {
    hide OpenLog;
    HalfMeansActive(x, s, c.openTime);
    HalfMeansActive(x, t, c.openTime);
  }

  lemma {:induction false} CandleNoBetter(
      x: Setting, s: State, t: State, c: Candle, b: Option<Batch>, thin: Option<Batch>, r: Rates)
    requires Comparable(x, c, b, r) && Thinner(b, thin) && Twins(x, s, t, c.openTime)
    ensures StepNoBetter(x, CandleStep(x, s, c, b, false), CandleStep(x, t, c, thin, false), c.openTime, c.CloseTime(),
      r)
  {
    hide CandleStep, Follow, StepNoBetter, Comparable, Twins, Activate, CountSource, CandlePath, DeadlinePath;
    EntryComparable(x, c, b, r);
    TwinsActivate(x, s, t, c, b, thin);
    var s2, t2 := CountSource(Activate(x, s, c.openTime), b), CountSource(Activate(x, t, c.openTime), thin);
    StepFollows(x, s, c, b);
    StepFollows(x, t, c, thin);
    if c.openTime >= x.deadline {
      DeadlineNoBetter(x, s2, t2, c, b, thin, r);
    } else {
      OrdinaryNoBetter(x, s2, t2, c, b, thin, r);
    }
  }

  lemma {:induction false} EntryComparable(x: Setting, c: Candle, b: Option<Batch>, r: Rates)
    requires Comparable(x, c, b, r)
    ensures x.armed.events != []
  {
  }

  /** A step after the entry candle: activate, count, then follow the candle's path or the deadline's. */
  lemma {:induction false} StepFollows(x: Setting, s: State, c: Candle, b: Option<Batch>)
    requires x.armed.events != []
    ensures var s2 := CountSource(Activate(x, s, c.openTime), b);
            CandleStep(x, s, c, b, false) ==
            if c.openTime >= x.deadline then Follow(x, s2, DeadlinePath(x, s2, c, b))
            else Follow(x, s2, CandlePath(x, s2, c, b, false))
  {
  }

  // ----- Whole runs ---------------------------------------------------------------------------------------

  /** The comparison of two whole runs over the same candles. */
  predicate RunNoBetter(x: Setting, cs: seq<Candle>, u: Run, v: Run, r: Rates) {
    if u.Running? then v.Running?
    else
      && v.Exited?
      && (exists k :: 0 <= k < |cs| &&
            cs[k].openTime <= u.time < cs[k].CloseTime() && cs[k].openTime <= v.time < cs[k].CloseTime())
      && AllPriced(u.state.events) && AllPriced(v.state.events)
      && LedgerNet(v.state.events, x.levels.direction, r) <= LedgerNet(u.state.events, x.levels.direction, r)
  }

  lemma {:induction false} WalkNoBetter(
      x: Setting, s: State, t: State, cs: seq<Candle>, table: Batches, thin: Batches, i: nat, entryIndex: nat,
      r: Rates)
    requires ValidCandles(cs) && entryIndex < i <= |cs| && EntryOfOne(x)
    requires forall k :: i <= k < |cs| ==> Comparable(x, cs[k], BatchAt(table, cs[k].openTime), r)
    requires forall k :: i <= k < |cs| ==> Thinner(BatchAt(table, cs[k].openTime), BatchAt(thin, cs[k].openTime))
    requires i < |cs| ==> Twins(x, s, t, cs[i].openTime)
    ensures RunNoBetter(x, cs, Walk(x, s, cs, table, i, entryIndex), Walk(x, t, cs, thin, i, entryIndex), r)
    decreases |cs| - i
  {
    hide CandleStep;
    if i < |cs| {
      var c := cs[i];
      var b, b' := BatchAt(table, c.openTime), BatchAt(thin, c.openTime);
      CandleNoBetter(x, s, t, c, b, b', r);
      var u, v := CandleStep(x, s, c, b, false), CandleStep(x, t, c, b', false);
      if u.Running? {
        WalkNoBetter(x, u.state, v.state, cs, table, thin, i + 1, entryIndex, r);
      }
    }
  }

  // ----- Thinning the batches ------------------------------------------------------------------------------

  /** `fewer` keeps some of the batches; what it drops lies after `entryOpen` and is incomplete or has trades. */
  predicate Thins(batches: seq<Batch>, fewer: seq<Batch>, entryOpen: int) {
    && (forall i, j :: 0 <= i < j < |fewer| ==> fewer[i].openTime != fewer[j].openTime)
    && (forall b :: b in fewer ==> b in batches)
    && (forall b :: b in batches && b !in fewer ==> entryOpen < b.openTime && (b.complete ==> b.trades != []))
  }

  lemma {:induction false} ThinTable(cs: seq<Candle>, batches: seq<Batch>, fewer: seq<Batch>, entryOpen: int)
    requires ValidCandles(cs) && BatchTable(cs, batches).Ok? && Thins(batches, fewer, entryOpen)
    ensures BatchTable(cs, fewer).Ok?
    ensures forall t :: Thinner(BatchAt(BatchTable(cs, batches).value, t), BatchAt(BatchTable(cs, fewer).value, t))
    ensures forall t :: t <= entryOpen ==>
      BatchAt(BatchTable(cs, batches).value, t) == BatchAt(BatchTable(cs, fewer).value, t)
  {
    BatchTableExact(cs, batches);
    BatchTableExact(cs, fewer);
    forall i | 0 <= i < |fewer| ensures Fits(cs, fewer[i]) {
      assert fewer[i] in batches;
    }
    var table, thin := BatchTable(cs, batches).value, BatchTable(cs, fewer).value;
    forall t | BatchAt(table, t) != BatchAt(thin, t)
      ensures t > entryOpen && Thinner(BatchAt(table, t), BatchAt(thin, t))
    {
      if t !in thin {
        assert table[t] in batches && table[t].openTime == t && table[t] !in fewer;
      }
    }
  }

  /** The armed phase reads no batch after the entry candle. */
  lemma {:induction false} ArmedReadsToEntry(
      r: ArmedRequest, cs: seq<Candle>, table: Batches, thin: Batches, i: nat, fallback: nat, aggregate: nat)
    requires ValidCandles(cs) && i <= |cs|
    requires ArmedFrom(r, cs, table, i, fallback, aggregate).entryCandleOpen.Some?
    requires var open := ArmedFrom(r, cs, table, i, fallback, aggregate).entryCandleOpen.value;
             forall t :: t <= open ==> BatchAt(table, t) == BatchAt(thin, t)
    ensures i < |cs| && cs[i].openTime <= ArmedFrom(r, cs, table, i, fallback, aggregate).entryCandleOpen.value
    ensures ArmedFrom(r, cs, thin, i, fallback, aggregate) == ArmedFrom(r, cs, table, i, fallback, aggregate)
    decreases |cs| - i
  {
    var c := cs[i];
    var b := BatchAt(table, c.openTime);
    var fallback' := if Complete(b) then fallback else fallback + 1;
    var aggregate' := if Complete(b) then aggregate + 1 else aggregate;
    if c.openTime < r.confirmationClose {
      ArmedReadsToEntry(r, cs, table, thin, i + 1, fallback, aggregate);
    } else if c.openTime < r.expiresAt && Decide(r, c, b).Wait? {
      ArmedReadsToEntry(r, cs, table, thin, i + 1, fallback', aggregate');
    }
  }

  lemma {:induction false} ThinLaunch(
      q: TradeRequest, cs: seq<Candle>, batches: seq<Batch>, fewer: seq<Batch>, fee: real, slippage: real)
    requires Triggers(q, cs, batches)
    requires ArmedReplay(q.armed, cs, batches).value.entryCandleOpen.Some?
    requires Thins(batches, fewer, ArmedReplay(q.armed, cs, batches).value.entryCandleOpen.value)
    ensures ArmedReplay(q.armed, cs, fewer) == ArmedReplay(q.armed, cs, batches)
    ensures BatchTable(cs, fewer).Ok?
    ensures LaunchOf(q, cs, fewer, fee, slippage) ==
      LaunchOf(q, cs, batches, fee, slippage).(table := BatchTable(cs, fewer).value)
  {
    var open := ArmedReplay(q.armed, cs, batches).value.entryCandleOpen.value;
    ThinTable(cs, batches, fewer, open);
    ArmedReadsToEntry(q.armed, cs, BatchTable(cs, batches).value, BatchTable(cs, fewer).value, 0, 0, 0);
  }

  /** The run of a launch against the run of the same launch with a thinner table. */
  lemma {:induction false} LaunchNoBetter(
      q: TradeRequest, cs: seq<Candle>, batches: seq<Batch>, fewer: seq<Batch>, r: Rates)
    requires ValidRequest(q) && ValidBatches(batches) && NonNegativePrices(q, cs)
    requires TradeReplay(q, cs, batches, r.fee, r.slippage).Ok? && Triggers(q, cs, batches)
    requires ArmedReplay(q.armed, cs, batches).value.entryCandleOpen.Some?
    requires Thins(batches, fewer, ArmedReplay(q.armed, cs, batches).value.entryCandleOpen.value)
    ensures Triggers(q, cs, fewer)
    ensures var g, h := LaunchOf(q, cs, batches, r.fee, r.slippage), LaunchOf(q, cs, fewer, r.fee, r.slippage);
            h.x == g.x && RunNoBetter(g.x, cs, RunOf(g, cs), RunOf(h, cs), r)
  {
    hide Arrives, ResultOf, Positions, BatchTable;
    ThinLaunch(q, cs, batches, fewer, r.fee, r.slippage);
    AcceptedLaunches(q, cs, batches, r.fee, r.slippage);
    LaunchArrives(q, cs, batches, r.fee, r.slippage);
    LevelsAreNonNegative(q, cs, batches, r);
    TableBatchesValid(cs, batches);
    var g, h := LaunchOf(q, cs, batches, r.fee, r.slippage), LaunchOf(q, cs, fewer, r.fee, r.slippage);
    var i := g.entryIndex;
    var c, s0 := cs[i], Initial(g.x.armed);
    ThinTable(cs, batches, fewer, g.x.armed.entryCandleOpen.value);
    var b := BatchAt(g.table, c.openTime);
    assert BatchAt(h.table, c.openTime) == b;
    StepKeeps(g.x, s0, c, b, true);
    var u := CandleStep(g.x, s0, c, b, true);
    if u.Running? {
      CandlesComparable(g, cs, r);
      WalkNoBetter(g.x, u.state, u.state, cs, g.table, h.table, i + 1, i, r);
    } else {
      RunNetSelf(g, cs, u, r, c);
    }
  }

  lemma {:induction false} CandlesComparable(g: Launch, cs: seq<Candle>, r: Rates)
    requires ValidCandles(cs) && ValidTable(cs, g.table) && EntryOfOne(g.x)
    requires forall i :: 0 <= i < |cs| ==> 0.0 <= cs[i].low
    requires OrderedLevels(g.x.levels) && LevelsNonNegative(g.x.levels) && ValidRates(r.fee, r.slippage)
    requires g.x.fee == r.fee && g.x.slippage == r.slippage
    requires forall i :: g.entryIndex <= i < |cs| ==>
      Arrives(g.x, cs[i], BatchAt(g.table, cs[i].openTime), i == g.entryIndex)
    ensures forall k :: g.entryIndex < k < |cs| ==> Comparable(g.x, cs[k], BatchAt(g.table, cs[k].openTime), r)
  {
  }

  lemma {:induction false} RunNetSelf(g: Launch, cs: seq<Candle>, u: Run, r: Rates, c: Candle)
    requires EntryOfOne(g.x) && c in cs && u.Exited? && StepOutcome(g.x, u, c.openTime, c.CloseTime())
    ensures RunNoBetter(g.x, cs, u, u, r)
  {
  }

  /** Two exit times in the minute of one candle. */
  ghost predicate SameCandle(cs: seq<Candle>, a: int, b: int) {
    exists k :: 0 <= k < |cs| && cs[k].openTime <= a < cs[k].CloseTime() && cs[k].openTime <= b < cs[k].CloseTime()
  }

  /**
   * OHLC_ADVERSE is a sound lower bound: without some non-empty trade batches after the entry candle, the
   * replay is accepted, stays open exactly when it did, and otherwise closes in the same candle for no more.
   */
  lemma {:induction false} AdverseIsLowerBound(
      q: TradeRequest, cs: seq<Candle>, s: Scenario, batches: seq<Batch>, fewer: seq<Batch>)
    requires ValidRequest(q) && ValidBatches(batches) && NonNegativePrices(q, cs)
    requires ReplayWithCosts(q, cs, s, batches).Ok?
    requires var a := ReplayWithCosts(q, cs, s, batches).value.trade.armed;
             a.entryCandleOpen.Some? && a.state == TRIGGERED && Thins(batches, fewer, a.entryCandleOpen.value)
    ensures ReplayWithCosts(q, cs, s, fewer).Ok?
    ensures var full, thin := ReplayWithCosts(q, cs, s, batches).value, ReplayWithCosts(q, cs, s, fewer).value;
            && thin.trade.armed == full.trade.armed
            && (full.pnl.Some? <==> thin.pnl.Some?)
            && (full.pnl.Some? ==>
                  && full.trade.exitTime.Some? && thin.trade.exitTime.Some?
                  && SameCandle(cs, full.trade.exitTime.value, thin.trade.exitTime.value)
                  && thin.pnl.value.net <= full.pnl.value.net)
  {
    hide RunOf, LaunchOf, LedgerNet, Thins, SameCandle, AllPriced, FillsOf, ArmedReplay, LevelsOf, CandleStep,
      Positions;
    var r := RatesOf(s);
    CostedUnfolds(q, cs, s, batches);
    var cost := CostRequest(q, ArmedReplay(q.armed, cs, batches).value, s);
    AcceptedLaunches(cost, cs, batches, r.fee, r.slippage);
    ReplayNoBetter(cost, cs, batches, fewer, r);
    LedgerAccepts(q, cost, cs, s, batches);
    LedgerAccepts(q, cost, cs, s, fewer);
    PnlIsLedgerNet(q, TradeReplay(cost, cs, batches, r.fee, r.slippage).value, s);
    PnlIsLedgerNet(q, TradeReplay(cost, cs, fewer, r.fee, r.slippage).value, s);
    CostedUnfolds(q, cs, s, fewer);
  }

  lemma {:induction false} PnlIsLedgerNet(q: TradeRequest, t: TradeResult, s: Scenario)
    requires Ledger(q, t, s).Ok?
    ensures AllPriced(t.events)
    ensures var pnl := Ledger(q, t, s).value.pnl;
            pnl.Some? ==> pnl.value.net == LedgerNet(t.events, q.armed.direction, RatesOf(s))
  {
  }

  /** The same bound on the replay, before the ledger is packaged. */
  lemma {:induction false} ReplayNoBetter(
      q: TradeRequest, cs: seq<Candle>, batches: seq<Batch>, fewer: seq<Batch>, r: Rates)
    requires ValidRequest(q) && ValidBatches(batches) && NonNegativePrices(q, cs)
    requires TradeReplay(q, cs, batches, r.fee, r.slippage).Ok? && Triggers(q, cs, batches)
    requires ArmedReplay(q.armed, cs, batches).value.entryCandleOpen.Some?
    requires Thins(batches, fewer, ArmedReplay(q.armed, cs, batches).value.entryCandleOpen.value)
    ensures ArmedReplay(q.armed, cs, fewer) == ArmedReplay(q.armed, cs, batches)
    ensures ValidBatches(fewer) && TradeReplay(q, cs, fewer, r.fee, r.slippage).Ok?
    ensures var t := TradeReplay(q, cs, batches, r.fee, r.slippage).value;
            var u := TradeReplay(q, cs, fewer, r.fee, r.slippage).value;
            && (IsClosed(t) <==> IsClosed(u))
            && (IsClosed(t) ==>
                  && t.exitTime.Some? && u.exitTime.Some? && SameCandle(cs, t.exitTime.value, u.exitTime.value)
                  && AllPriced(t.events) && AllPriced(u.events)
                  && LedgerNet(u.events, q.armed.direction, r) <= LedgerNet(t.events, q.armed.direction, r))
  {
    hide CandleStep;
    ThinLaunch(q, cs, batches, fewer, r.fee, r.slippage);
    LaunchNoBetter(q, cs, batches, fewer, r);
    ThinAccepted(q, cs, batches, fewer, r.fee, r.slippage);
    AcceptedLaunches(q, cs, batches, r.fee, r.slippage);
    LaunchedLog(q, cs, batches, r.fee, r.slippage);
    LaunchedLog(q, cs, fewer, r.fee, r.slippage);
  }

  lemma {:induction false} ThinAccepted(
      q: TradeRequest, cs: seq<Candle>, batches: seq<Batch>, fewer: seq<Batch>, fee: real, slippage: real)
    requires TradeReplay(q, cs, batches, fee, slippage).Ok? && Triggers(q, cs, batches) && ValidBatches(batches)
    requires ArmedReplay(q.armed, cs, fewer) == ArmedReplay(q.armed, cs, batches)
    requires BatchTable(cs, fewer).Ok? && forall b :: b in fewer ==> b in batches
    ensures ValidBatches(fewer) && TradeReplay(q, cs, fewer, fee, slippage).Ok?
    ensures TradeReplay(q, cs, fewer, fee, slippage).value ==
            ResultOf(LaunchOf(q, cs, fewer, fee, slippage).x, RunOf(LaunchOf(q, cs, fewer, fee, slippage), cs))
  {
    forall i | 0 <= i < |fewer| ensures ValidBatch(fewer[i]) {
      assert fewer[i] in batches;
    }
  }
}
