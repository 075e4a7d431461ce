/** Reflecting every price turns a LONG replay into the SHORT replay of the reflected market, event for event. */
module Mirror {
  import opened Basics
  import opened Sorting
  import opened Market
  import opened Armed
  import opened Trade
  import opened Runs
  import opened Shape
  import opened Costs
  import opened Payoff

  // ----- Reflections -----------------------------------------------------------------------------

  function Flip(d: Direction): Direction { if d == Long then Short else Long }

  function MirrorTrade(k: real, t: AggTrade): AggTrade { t.(price := k - t.price) }

  function MirrorTrades(k: real, ts: seq<AggTrade>): seq<AggTrade> {
    if ts == [] then [] else [MirrorTrade(k, ts[0])] + MirrorTrades(k, ts[1..])
  }

  function MirrorBatch(k: real, b: Batch): Batch { b.(trades := MirrorTrades(k, b.trades)) }

  function MirrorBatches(k: real, bs: seq<Batch>): seq<Batch> {
    if bs == [] then [] else [MirrorBatch(k, bs[0])] + MirrorBatches(k, bs[1..])
  }

  function MirrorOption(k: real, b: Option<Batch>): Option<Batch> {
    if b.None? then None else Some(MirrorBatch(k, b.value))
  }

  function MirrorTable(k: real, table: Batches): Batches {
    map t | t in table :: MirrorBatch(k, table[t])
  }

  /** High and low change places. */
  function MirrorCandle(k: real, c: Candle): Candle {
    c.(open := k - c.open, high := k - c.low, low := k - c.high, close := k - c.close)
  }

  function MirrorCandles(k: real, cs: seq<Candle>): (ms: seq<Candle>)
    ensures |ms| == |cs| && forall i :: 0 <= i < |cs| ==> ms[i] == MirrorCandle(k, cs[i])
  {
    seq(|cs|, i requires 0 <= i < |cs| => MirrorCandle(k, cs[i]))
  }

  function MirrorPrice(k: real, p: Option<real>): Option<real> {
    if p.None? then None else Some(k - p.value)
  }

  function MirrorEvent(k: real, e: ReplayEvent): ReplayEvent { e.(price := MirrorPrice(k, e.price)) }

  function MirrorEvents(k: real, es: seq<ReplayEvent>): (ms: seq<ReplayEvent>)
    ensures |ms| == |es| && forall i :: 0 <= i < |es| ==> ms[i] == MirrorEvent(k, es[i])
  {
    seq(|es|, i requires 0 <= i < |es| => MirrorEvent(k, es[i]))
  }

  function MirrorArmed(k: real, r: ArmedRequest): ArmedRequest {
    r.(direction := Flip(r.direction), entryPrice := k - r.entryPrice,
       invalidationPrice := k - r.invalidationPrice, stopPrice := k - r.stopPrice)
  }

  function MirrorArmedResult(k: real, a: ArmedResult): ArmedResult {
    a.(request := MirrorArmed(k, a.request), events := MirrorEvents(k, a.events),
      entryPrice := MirrorPrice(k, a.entryPrice))
  }

  function MirrorRequest(k: real, q: TradeRequest): TradeRequest {
    q.(armed := MirrorArmed(k, q.armed), tp1 := k - q.tp1, tp2 := k - q.tp2, breakeven := MirrorPrice(k, q.breakeven))
  }

  function MirrorLevels(k: real, l: Levels): Levels {
    Levels(Flip(l.direction), k - l.stop, k - l.tp1, k - l.tp2, k - l.breakeven)
  }

  function MirrorFill(k: real, f: Fill): Fill { f.(price := k - f.price) }

  function MirrorFills(k: real, fs: seq<Fill>): (ms: seq<Fill>)
    ensures |ms| == |fs| && forall i :: 0 <= i < |fs| ==> ms[i] == MirrorFill(k, fs[i])
  {
    seq(|fs|, i requires 0 <= i < |fs| => MirrorFill(k, fs[i]))
  }

  function MirrorPath(k: real, p: Path): Path { p.(fills := MirrorFills(k, p.fills)) }

  function MirrorRisk(k: real, risk: Risk): Risk {
    if risk.NoRisk? then NoRisk else risk.(fills := MirrorFills(k, risk.fills))
  }

  function MirrorResult(k: real, t: TradeResult): TradeResult {
    t.(request := MirrorRequest(k, t.request), armed := MirrorArmedResult(k, t.armed),
       events := MirrorEvents(k, t.events), breakeven := MirrorPrice(k, t.breakeven))
  }

  function MirrorState(k: real, s: State): State { s.(events := MirrorEvents(k, s.events)) }

  function MirrorRun(k: real, r: Run): Run { r.(state := MirrorState(k, r.state)) }

  function MirrorSetting(k: real, x: Setting): Setting {
    x.(request := MirrorRequest(k, x.request), armed := MirrorArmedResult(k, x.armed),
      levels := MirrorLevels(k, x.levels))
  }

  // ----- Candles and trades ---------------------------------------------------------------------------

  lemma {:induction false} MirrorCandlesValid(k: real, cs: seq<Candle>)
    ensures ValidCandles(MirrorCandles(k, cs)) <==> ValidCandles(cs)
    ensures ValidCandles(cs) ==> Positions(MirrorCandles(k, cs)) == Positions(cs)
  {
    var ms := MirrorCandles(k, cs);
    assert forall i :: 0 <= i < |cs| ==> (ValidCandle(ms[i]) <==> ValidCandle(cs[i]));
    if ValidCandles(cs) {
      forall t ensures t in Positions(ms) <==> t in Positions(cs) {
        if t in Positions(ms) { assert cs[Positions(ms)[t]].openTime == t; }
        if t in Positions(cs) { assert ms[Positions(cs)[t]].openTime == t; }
      }
      forall t | t in Positions(cs) ensures Positions(ms)[t] == Positions(cs)[t] {
        var i, j := Positions(cs)[t], Positions(ms)[t];
        assert cs[i].openTime == cs[0].openTime + i * MINUTE && cs[j].openTime == cs[0].openTime + j * MINUTE;
      }
    }
  }

  lemma {:induction false} MirrorInsert(k: real, t: AggTrade, ts: seq<AggTrade>)
    ensures Insert(MirrorTrade(k, t), MirrorTrades(k, ts), TradeLeq) == MirrorTrades(k, Insert(t, ts, TradeLeq))
  {
    if ts != [] && !TradeLeq(t, ts[0]) {
      MirrorInsert(k, t, ts[1..]);
    } else {
      assert ([t] + ts)[1..] == ts;
    }
  }

  lemma {:induction false} MirrorOrdered(k: real, ts: seq<AggTrade>)
    ensures Ordered(MirrorTrades(k, ts)) == MirrorTrades(k, Ordered(ts))
  {
    if ts != [] {
      MirrorOrdered(k, ts[1..]);
      MirrorInsert(k, ts[0], Ordered(ts[1..]));
    }
  }

  lemma {:induction false} MirrorTradesAt(k: real, ts: seq<AggTrade>)
    ensures |MirrorTrades(k, ts)| == |ts|
    ensures forall i :: 0 <= i < |ts| ==> MirrorTrades(k, ts)[i] == MirrorTrade(k, ts[i])
  {
    if ts != [] { MirrorTradesAt(k, ts[1..]); }
  }

  lemma {:induction false} MirrorExtremes(k: real, ts: seq<AggTrade>)
    requires ts != []
    ensures MirrorTrades(k, ts) != []
    ensures MaxPrice(MirrorTrades(k, ts)) == k - MinPrice(ts)
    ensures MinPrice(MirrorTrades(k, ts)) == k - MaxPrice(ts)
  {
    MirrorTradesAt(k, ts);
    if |ts| > 1 { MirrorExtremes(k, ts[1..]); }
  }

  lemma {:induction false} MirrorReproduces(k: real, c: Candle, ts: seq<AggTrade>)
    ensures Reproduces(MirrorCandle(k, c), MirrorTrades(k, ts)) <==> Reproduces(c, ts)
  {
    MirrorTradesAt(k, ts);
    if ts != [] { MirrorExtremes(k, ts); }
  }

  lemma {:induction false} MirrorTableFrom(k: real, cs: seq<Candle>, table: Batches, bs: seq<Batch>)
    requires ValidCandles(cs) && ValidCandles(MirrorCandles(k, cs))
    ensures var m := TableFrom(MirrorCandles(k, cs), MirrorTable(k, table), MirrorBatches(k, bs));
            var r := TableFrom(cs, table, bs);
            m == if r.Err? then Err(r.error) else Ok(MirrorTable(k, r.value))
    decreases |bs|
  {
    hide Positions;
    MirrorCandlesValid(k, cs);
    if bs != [] {
      var b := bs[0];
      MirrorOrdered(k, b.trades);
      MirrorTradesAt(k, b.trades);
      if b.openTime in Positions(cs) {
        MirrorReproduces(k, cs[Positions(cs)[b.openTime]], Ordered(b.trades));
      }
      var next := AddBatch(cs, table, b);
      if next.Ok? {
        assert MirrorTable(k, next.value) == MirrorTable(k, table)[b.openTime := MirrorBatch(k, b)];
        MirrorTableFrom(k, cs, next.value, bs[1..]);
      }
      assert MirrorBatches(k, bs)[1..] == MirrorBatches(k, bs[1..]);
    }
  }

  // ----- Paths -----------------------------------------------------------------------------------------

  lemma {:induction false} MirrorTick(k: real, l: Levels, leg: Leg, active: bool, t: AggTrade, close: int)
    ensures Tick(MirrorLevels(k, l), leg, active, MirrorTrade(k, t), close) ==
      MirrorPath(k, Tick(l, leg, active, t, close))
  {
    var p, m := Tick(l, leg, active, t, close), Tick(MirrorLevels(k, l), leg, active, MirrorTrade(k, t), close);
    assert m.fills == MirrorFills(k, p.fills);
  }

  lemma {:induction false} MirrorTicks(k: real, l: Levels, leg: Leg, active: bool, ts: seq<AggTrade>, close: int)
    ensures Ticks(MirrorLevels(k, l), leg, active, MirrorTrades(k, ts), close) ==
      MirrorPath(k, Ticks(l, leg, active, ts, close))
    decreases |ts|
  {
    if ts == [] {
      assert MirrorFills(k, []) == [];
    } else {
      var p := Tick(l, leg, active, ts[0], close);
      MirrorTick(k, l, leg, active, ts[0], close);
      assert MirrorTrades(k, ts)[1..] == MirrorTrades(k, ts[1..]);
      if p.Open? {
        MirrorTicks(k, l, p.leg, active, ts[1..], close);
        MirrorPrepend(k, p.fills, Ticks(l, p.leg, active, ts[1..], close));
      }
    }
  }

  lemma {:induction false} MirrorPrepend(k: real, fills: seq<Fill>, p: Path)
    ensures Prepend(MirrorFills(k, fills), MirrorPath(k, p)) == MirrorPath(k, Prepend(fills, p))
  {
    assert MirrorFills(k, fills + p.fills) == MirrorFills(k, fills) + MirrorFills(k, p.fills);
  }

  lemma {:induction false} MirrorBar(k: real, l: Levels, leg: Leg, active: bool, forceStop: bool, c: Candle)
    ensures Bar(MirrorLevels(k, l), leg, active, forceStop, MirrorCandle(k, c)) ==
      MirrorPath(k, Bar(l, leg, active, forceStop, c))
  {
    var p := Bar(l, leg, active, forceStop, c);
    var m := Bar(MirrorLevels(k, l), leg, active, forceStop, MirrorCandle(k, c));
    assert m.fills == MirrorFills(k, p.fills);
  }

  lemma {:induction false} MirrorRiskBar(k: real, l: Levels, position: Position, active: bool, c: Candle)
    ensures RiskBar(MirrorLevels(k, l), position, active, MirrorCandle(k, c)) ==
      MirrorRisk(k, RiskBar(l, position, active, c))
  {
    var p, m := RiskBar(l, position, active, c), RiskBar(MirrorLevels(k, l), position, active, MirrorCandle(k, c));
    if p.RiskExit? { assert m.fills == MirrorFills(k, p.fills); }
  }

  lemma {:induction false} MirrorRiskPath(
      k: real, l: Levels, position: Position, active: bool, c: Candle, b: Option<Batch>)
    ensures RiskPath(MirrorLevels(k, l), position, active, MirrorCandle(k, c), MirrorOption(k, b)) ==
            MirrorRisk(k, RiskPath(l, position, active, c, b))
  {
    MirrorRiskBar(k, l, position, active, c);
    if Complete(b) {
      MirrorOrdered(k, b.value.trades);
      MirrorTicks(k, l, Leg(position, None), active, Ordered(b.value.trades), c.CloseTime());
    }
  }

  // ----- The deadline comparison --------------------------------------------------------------------------

  function FractionSum(fills: seq<Fill>): real {
    if fills == [] then 0.0 else FractionSum(fills[..|fills| - 1]) + fills[|fills| - 1].fraction
  }

  lemma {:induction false} FractionSumConcat(a: seq<Fill>, b: seq<Fill>)
    ensures FractionSum(a + b) == FractionSum(a) + FractionSum(b)
    decreases |b|
  {
    if b == [] {
      assert a + b == a;
    } else {
      assert (a + b)[..|a + b| - 1] == a + b[..|b| - 1];
      FractionSumConcat(a, b[..|b| - 1]);
    }
  }

  lemma {:induction false} FractionSumSmall(f: Fill, g: Fill)
    ensures FractionSum([]) == 0.0 && FractionSum([f]) == f.fraction && FractionSum([f, g]) == f.fraction + g.fraction
  {
    assert [f][..0] == [] && [f, g][..1] == [f];
  }

  lemma {:induction false} TickCloses(l: Levels, leg: Leg, active: bool, t: AggTrade, close: int)
    requires leg.position != FLAT
    ensures var p := Tick(l, leg, active, t, close);
            && FractionSum(p.fills) == FractionOf(leg.position) - (if p.Open? then FractionOf(p.leg.position) else 0.0)
            && (p.Open? ==> p.leg.position != FLAT)
  {
    var ref := AtTrade(t.id);
    FractionSumSmall(Tp1At(l, t.time, ref, AGG_TRADE), Tp2At(l, t.time, ref, AGG_TRADE));
    FractionSumSmall(Tp2At(l, t.time, ref, AGG_TRADE), StopAt(l, t.time, ref, AGG_TRADE));
    FractionSumSmall(StopAt(l, t.time, ref, AGG_TRADE), StopAt(l, t.time, ref, AGG_TRADE));
    FractionSumSmall(HalfStopFill(l, active, t.time, ref, AGG_TRADE), StopAt(l, t.time, ref, AGG_TRADE));
  }

  /** A closing path closes all that is open. */
  lemma {:induction false} TicksCloseAll(l: Levels, leg: Leg, active: bool, ts: seq<AggTrade>, close: int)
    requires leg.position != FLAT
    ensures var p := Ticks(l, leg, active, ts, close);
            && FractionSum(p.fills) == FractionOf(leg.position) - (if p.Open? then FractionOf(p.leg.position) else 0.0)
            && (p.Open? ==> p.leg.position != FLAT)
    decreases |ts|
  {
    if ts != [] {
      var p := Tick(l, leg, active, ts[0], close);
      TickCloses(l, leg, active, ts[0], close);
      if p.Open? {
        TicksCloseAll(l, p.leg, active, ts[1..], close);
        FractionSumConcat(p.fills, Ticks(l, p.leg, active, ts[1..], close).fills);
      }
    }
  }

  lemma {:induction false} RiskClosesAll(l: Levels, position: Position, active: bool, c: Candle, b: Option<Batch>)
    requires position != FLAT
    ensures var risk := RiskPath(l, position, active, c, b);
            risk.RiskExit? ==> FractionSum(risk.fills) == FractionOf(position)
  {
    var risk := RiskPath(l, position, active, c, b);
    if Complete(b) {
      TicksCloseAll(l, Leg(position, None), active, Ordered(b.value.trades), c.CloseTime());
    } else if risk.RiskExit? {
      FractionSumSmall(risk.fills[0], risk.fills[|risk.fills| - 1]);
    }
  }

  lemma {:induction false} MirrorExitCash(k: real, d: Direction, f: Fill)
    ensures ExitCash(Flip(d), 0.0, 0.0, MirrorFill(k, f)) == ExitCash(d, 0.0, 0.0, f) - Signed(d, k * f.fraction)
  {
    assert (k - f.price) * f.fraction == k * f.fraction - f.price * f.fraction;
  }

  /** What reflecting takes from a LONG cash flow: the reflected fraction of `k`. */
  function Shift(k: real, fills: seq<Fill>): real {
    if fills == [] then 0.0 else Shift(k, fills[..|fills| - 1]) + k * fills[|fills| - 1].fraction
  }

  lemma {:induction false} Distribute(k: real, a: real, b: real)
    ensures k * (a + b) == k * a + k * b
  {
  }

  lemma {:induction false} ShiftIsFraction(k: real, fills: seq<Fill>)
    ensures Shift(k, fills) == k * FractionSum(fills)
    decreases |fills|
  {
    if fills != [] {
      ShiftIsFraction(k, fills[..|fills| - 1]);
      Distribute(k, FractionSum(fills[..|fills| - 1]), fills[|fills| - 1].fraction);
    }
  }

  /** Without rates, reflecting shifts a cash flow by the reflected fraction and nothing else. */
  lemma {:induction false} MirrorCash(k: real, d: Direction, fills: seq<Fill>)
    ensures CashOf(Flip(d), 0.0, 0.0, MirrorFills(k, fills)) == CashOf(d, 0.0, 0.0, fills) - Signed(d, Shift(k, fills))
    decreases |fills|
  {
    if fills != [] {
      var init, last := fills[..|fills| - 1], fills[|fills| - 1];
      assert MirrorFills(k, fills)[..|fills| - 1] == MirrorFills(k, init);
      MirrorCash(k, d, init);
      MirrorExitCash(k, d, last);
    }
  }

  lemma {:induction false} SameShift(k: real, a: seq<Fill>, b: seq<Fill>)
    requires FractionSum(a) == FractionSum(b)
    ensures Shift(k, a) == Shift(k, b)
  {
    ShiftIsFraction(k, a);
    ShiftIsFraction(k, b);
  }

  /** Between flows of the same fraction, reflecting keeps which one is worth less. */
  lemma {:induction false} MirrorComparison(k: real, d: Direction, a: seq<Fill>, b: seq<Fill>)
    requires FractionSum(a) == FractionSum(b)
    ensures CashOf(Flip(d), 0.0, 0.0, MirrorFills(k, a)) <= CashOf(Flip(d), 0.0, 0.0, MirrorFills(k, b)) <==>
            CashOf(d, 0.0, 0.0, a) <= CashOf(d, 0.0, 0.0, b)
  {
    SameShift(k, a, b);
    MirrorCash(k, d, a);
    MirrorCash(k, d, b);
  }

  lemma {:induction false} MirrorTimeFill(k: real, position: Position, c: Candle)
    ensures [TimeFill(position, MirrorCandle(k, c))] == MirrorFills(k, [TimeFill(position, c)])
    ensures FractionSum([TimeFill(position, c)]) == FractionOf(position)
  {
    FractionSumSmall(TimeFill(position, c), TimeFill(position, c));
  }

  lemma {:induction false} MirrorDeadlinePath(k: real, x: Setting, s: State, c: Candle, b: Option<Batch>)
    requires x.fee == 0.0 && x.slippage == 0.0 && s.leg.position != FLAT
    ensures DeadlinePath(MirrorSetting(k, x), MirrorState(k, s), MirrorCandle(k, c), MirrorOption(k, b)) ==
            MirrorPath(k, DeadlinePath(x, s, c, b))
  {
    var l := x.levels;
    var risk, time := RiskPath(l, s.leg.position, s.active, c, b), [TimeFill(s.leg.position, c)];
    MirrorRiskPath(k, l, s.leg.position, s.active, c, b);
    MirrorTimeFill(k, s.leg.position, c);
    RiskClosesAll(l, s.leg.position, s.active, c, b);
    if risk.RiskExit? { MirrorComparison(k, l.direction, risk.fills, time); }
  }

  // ----- Steps and walks -------------------------------------------------------------------------------------

  lemma {:induction false} MirrorFillEvents(k: real, id: string, fills: seq<Fill>)
    ensures FillEvents(id, MirrorFills(k, fills)) == MirrorEvents(k, FillEvents(id, fills))
    decreases |fills|
  {
    if fills != [] {
      var init := fills[..|fills| - 1];
      assert MirrorFills(k, fills)[..|fills| - 1] == MirrorFills(k, init);
      MirrorFillEvents(k, id, init);
    }
  }

  lemma {:induction false} MirrorAppend(k: real, a: seq<ReplayEvent>, b: seq<ReplayEvent>)
    ensures MirrorEvents(k, a + b) == MirrorEvents(k, a) + MirrorEvents(k, b)
  {
  }

  lemma {:induction false} MirrorFollow(k: real, x: Setting, s: State, p: Path)
    requires p.Shut? ==> p.fills != []
    ensures Follow(MirrorSetting(k, x), MirrorState(k, s), MirrorPath(k, p)) == MirrorRun(k, Follow(x, s, p))
  {
    var id := x.request.armed.signalId;
    MirrorFillEvents(k, id, p.fills);
    MirrorAppend(k, s.events, FillEvents(id, p.fills));
    if p.Shut? {
      var closed := ClosedBy(id, p.fills[|p.fills| - 1]);
      MirrorAppend(k, s.events + FillEvents(id, p.fills), [closed]);
      assert MirrorEvents(k, [closed]) == [MirrorEvent(k, closed)];
    }
  }

  lemma {:induction false} MirrorActivate(k: real, x: Setting, s: State, open: int)
    ensures Activate(MirrorSetting(k, x), MirrorState(k, s), open) == MirrorState(k, Activate(x, s, open))
  {
    if s.leg.activation.Some? {
      var e := ActivationEvent(x.request.armed.signalId, s.leg.activation.value, x.levels.breakeven);
      MirrorAppend(k, s.events, [e]);
      assert MirrorEvents(k, [e]) == [MirrorEvent(k, e)];
    }
  }

  lemma {:induction false} MirrorAfterEntry(k: real, e: ReplayEvent, ts: seq<AggTrade>)
    ensures TradesAfterEntry(MirrorEvent(k, e), MirrorTrades(k, ts)) == MirrorTrades(k, TradesAfterEntry(e, ts))
  {
    if ts != [] {
      MirrorAfterEntry(k, e, ts[1..]);
      assert MirrorTrades(k, ts)[1..] == MirrorTrades(k, ts[1..]);
      var rest := TradesAfterEntry(e, ts[1..]);
      assert ([ts[0]] + rest)[1..] == rest;
      assert [] + rest == rest && [] + MirrorTrades(k, rest) == MirrorTrades(k, rest);
    }
  }

  lemma {:induction false} MirrorCandlePath(k: real, x: Setting, s: State, c: Candle, b: Option<Batch>, isEntry: bool)
    requires x.armed.events != []
    ensures CandlePath(MirrorSetting(k, x), MirrorState(k, s), MirrorCandle(k, c), MirrorOption(k, b), isEntry) ==
            MirrorPath(k, CandlePath(x, s, c, b, isEntry))
  {
    hide Bar, Ticks, Best, Worst, Ordered;
    if Complete(b) {
      MirrorOrdered(k, b.value.trades);
      MirrorAfterEntry(k, x.armed.events[0], Ordered(b.value.trades));
      MirrorTicks(k, x.levels, s.leg, s.active, CandleTrades(x.armed.events[0], b.value, isEntry), c.CloseTime());
    } else {
      MirrorBar(k, x.levels, s.leg, s.active, isEntry && x.armed.stopAlsoTouched, c);
    }
  }

  lemma {:induction false} MirrorDeadlineStep(k: real, x: Setting, s: State, c: Candle, b: Option<Batch>)
    requires x.fee == 0.0 && x.slippage == 0.0 && s.leg.position != FLAT
    ensures Follow(MirrorSetting(k, x), CountSource(MirrorState(k, s), MirrorOption(k, b)),
                   DeadlinePath(MirrorSetting(k, x), MirrorState(k, s), MirrorCandle(k, c), MirrorOption(k, b))) ==
            MirrorRun(k, Follow(x, CountSource(s, b), DeadlinePath(x, s, c, b)))
  {
    MirrorDeadlinePath(k, x, s, c, b);
    MirrorFollow(k, x, CountSource(s, b), DeadlinePath(x, s, c, b));
  }

  lemma {:induction false} MirrorOrdinaryStep(k: real, x: Setting, s: State, c: Candle, b: Option<Batch>, isEntry: bool)
    requires x.armed.events != []
    ensures var counted := if isEntry then s else CountSource(s, b);
            Follow(MirrorSetting(k, x), MirrorState(k, counted),
                   CandlePath(MirrorSetting(k, x), MirrorState(k, s), MirrorCandle(k, c), MirrorOption(k, b),
                     isEntry)) ==
            MirrorRun(k, Follow(x, counted, CandlePath(x, s, c, b, isEntry)))
  {
    MirrorCandlePath(k, x, s, c, b, isEntry);
    MirrorFollow(k, x, if isEntry then s else CountSource(s, b), CandlePath(x, s, c, b, isEntry));
  }

  lemma {:induction false} MirrorStep(k: real, x: Setting, s: State, c: Candle, b: Option<Batch>, isEntry: bool)
    requires x.armed.events != [] && x.fee == 0.0 && x.slippage == 0.0 && s.leg.position != FLAT
    ensures CandleStep(MirrorSetting(k, x), MirrorState(k, s), MirrorCandle(k, c), MirrorOption(k, b), isEntry) ==
            MirrorRun(k, CandleStep(x, s, c, b, isEntry))
  {
    hide Follow;
    MirrorActivate(k, x, s, c.openTime);
    if c.openTime >= x.deadline {
      MirrorDeadlineStep(k, x, Activate(x, s, c.openTime), c, b);
    } else {
      MirrorOrdinaryStep(k, x, Activate(x, s, c.openTime), c, b, isEntry);
    }
  }

  function StepAt(x: Setting, s: State, cs: seq<Candle>, table: Batches, i: nat, entryIndex: nat): Run
    requires x.armed.events != [] && i < |cs|
  {
    CandleStep(x, s, cs[i], BatchAt(table, cs[i].openTime), i == entryIndex)
  }

  lemma {:induction false} MirrorStepAt(
      k: real, x: Setting, s: State, cs: seq<Candle>, table: Batches, i: nat, entryIndex: nat)
    requires x.armed.events != [] && x.fee == 0.0 && x.slippage == 0.0 && s.leg.position != FLAT && i < |cs|
    ensures StepAt(MirrorSetting(k, x), MirrorState(k, s), MirrorCandles(k, cs), MirrorTable(k, table), i,
      entryIndex) ==
            MirrorRun(k, StepAt(x, s, cs, table, i, entryIndex))
    ensures var r := StepAt(x, s, cs, table, i, entryIndex); r.Running? ==> r.state.leg.position != FLAT
  {
    var c := cs[i];
    var b := BatchAt(table, c.openTime);
    assert BatchAt(MirrorTable(k, table), c.openTime) == MirrorOption(k, b);
    MirrorStep(k, x, s, c, b, i == entryIndex);
    StepNeverFlat(x, s, c, b, i == entryIndex);
  }

  lemma {:induction false} MirrorWalk(
      k: real, x: Setting, s: State, cs: seq<Candle>, table: Batches, i: nat, entryIndex: nat)
    requires x.armed.events != [] && x.fee == 0.0 && x.slippage == 0.0 && s.leg.position != FLAT && i <= |cs|
    ensures Walk(MirrorSetting(k, x), MirrorState(k, s), MirrorCandles(k, cs), MirrorTable(k, table), i, entryIndex) ==
            MirrorRun(k, Walk(x, s, cs, table, i, entryIndex))
    decreases |cs| - i
  {
    hide CandleStep;
    if i < |cs| {
      var r := StepAt(x, s, cs, table, i, entryIndex);
      MirrorStepAt(k, x, s, cs, table, i, entryIndex);
      if r.Running? { MirrorWalk(k, x, r.state, cs, table, i + 1, entryIndex); }
    }
  }

  // ----- The armed phase ----------------------------------------------------------------------------------------

  function MirrorDecision(k: real, d: Decision): Decision {
    match d
    case Wait => Wait
    case Enter(e, price, stopAlso) => Enter(MirrorEvent(k, e), k - price, stopAlso)
    case Refuse(state, e) => Refuse(state, MirrorEvent(k, e))
  }

  lemma {:induction false} MirrorDecideTrades(k: real, r: ArmedRequest, ts: seq<AggTrade>)
    ensures DecideTrades(MirrorArmed(k, r), MirrorTrades(k, ts)) == MirrorDecision(k, DecideTrades(r, ts))
    decreases |ts|
  {
    if ts != [] {
      MirrorDecideTrades(k, r, ts[1..]);
      assert MirrorTrades(k, ts)[1..] == MirrorTrades(k, ts[1..]);
    }
  }

  lemma {:induction false} MirrorDecideBar(k: real, r: ArmedRequest, c: Candle)
    ensures DecideBar(MirrorArmed(k, r), MirrorCandle(k, c)) == MirrorDecision(k, DecideBar(r, c))
  {
  }

  lemma {:induction false} MirrorDecide(k: real, r: ArmedRequest, c: Candle, b: Option<Batch>)
    ensures Decide(MirrorArmed(k, r), MirrorCandle(k, c), MirrorOption(k, b)) == MirrorDecision(k, Decide(r, c, b))
  {
    hide DecideBar, DecideTrades, Ordered, MirrorTrades;
    assert Abs((k - c.open) - (k - r.entryPrice)) == Abs(c.open - r.entryPrice);
    MirrorDecideBar(k, r, c);
    if Complete(b) {
      MirrorOrdered(k, b.value.trades);
      MirrorDecideTrades(k, r, Ordered(b.value.trades));
    }
  }

  lemma {:induction false} MirrorArmedFrom(
      k: real, r: ArmedRequest, cs: seq<Candle>, table: Batches, i: nat, fallback: nat, aggregate: nat)
    requires i <= |cs|
    ensures ArmedFrom(MirrorArmed(k, r), MirrorCandles(k, cs), MirrorTable(k, table), i, fallback, aggregate) ==
            MirrorArmedResult(k, ArmedFrom(r, cs, table, i, fallback, aggregate))
    decreases |cs| - i
  {
    if i == |cs| {
      assert MirrorEvents(k, []) == [];
    } else {
      var c := cs[i];
      var b := BatchAt(table, c.openTime);
      assert BatchAt(MirrorTable(k, table), c.openTime) == MirrorOption(k, b);
      var fallback' := if Complete(b) then fallback else fallback + 1;
      var aggregate' := if Complete(b) then aggregate + 1 else aggregate;
      if c.openTime < r.confirmationClose {
        MirrorArmedFrom(k, r, cs, table, i + 1, fallback, aggregate);
      } else if c.openTime >= r.expiresAt {
        assert MirrorEvents(k, [ExpiryEvent(r)]) == [ExpiryEvent(r)];
      } else {
        MirrorDecide(k, r, c, b);
        var d := Decide(r, c, b);
        if d.Wait? {
          MirrorArmedFrom(k, r, cs, table, i + 1, fallback', aggregate');
        } else {
          assert MirrorEvents(k, [d.event]) == [MirrorEvent(k, d.event)];
        }
      }
    }
  }

  lemma {:induction false} MirrorArmedReplay(k: real, r: ArmedRequest, cs: seq<Candle>, bs: seq<Batch>)
    ensures ArmedReplay(MirrorArmed(k, r), MirrorCandles(k, cs), MirrorBatches(k, bs)) ==
            if ArmedReplay(r, cs, bs).Err? then ArmedReplay(r, cs, bs)
            else Ok(MirrorArmedResult(k, ArmedReplay(r, cs, bs).value))
    ensures ValidCandles(cs) && BatchTable(cs, bs).Ok? ==>
              ValidCandles(MirrorCandles(k, cs))
              && BatchTable(MirrorCandles(k, cs), MirrorBatches(k, bs)) == Ok(MirrorTable(k, BatchTable(cs, bs).value))
  {
    MirrorCandlesValid(k, cs);
    if ValidCandles(cs) {
      MirrorTableFrom(k, cs, map[], bs);
      assert MirrorTable(k, map[]) == map[];
      if BatchTable(cs, bs).Ok? { MirrorArmedFrom(k, r, cs, BatchTable(cs, bs).value, 0, 0, 0); }
    }
  }

  // ----- The theorem ------------------------------------------------------------------------------------------

  /** Neither the breakeven price nor its reflection is the zero that reads as absent. */
  predicate NoZeroBreakeven(k: real, q: TradeRequest) {
    q.breakeven.Some? ==> q.breakeven.value != 0.0 && q.breakeven.value != k
  }

  /** The effective breakeven is reflected: no zero arises, or falling back to the entry happens to agree. */
  predicate BreakevenMirrors(k: real, q: TradeRequest, entry: real) {
    NoZeroBreakeven(k, q) || entry == q.breakeven.value || k == 0.0
  }

  lemma {:induction false} EffectiveMirrors(k: real, q: TradeRequest, entry: real)
    ensures EffectiveBreakeven(MirrorRequest(k, q), k - entry) == k - EffectiveBreakeven(q, entry) <==>
            BreakevenMirrors(k, q, entry)
  {
  }

  /** The breakeven condition at the entry of a replay; a signal that does not trigger has none to meet. */
  predicate Reflects(k: real, q: TradeRequest, cs: seq<Candle>, bs: seq<Batch>) {
    Triggers(q, cs, bs) ==>
      var entry := ArmedReplay(q.armed, cs, bs).value.entryPrice;
      entry.Some? && BreakevenMirrors(k, q, entry.value)
  }

  lemma {:induction false} MirrorTriggers(k: real, q: TradeRequest, cs: seq<Candle>, bs: seq<Batch>)
    requires Triggers(q, cs, bs)
    ensures Triggers(MirrorRequest(k, q), MirrorCandles(k, cs), MirrorBatches(k, bs))
  {
    MirrorArmedReplay(k, q.armed, cs, bs);
  }

  lemma {:induction false} MirrorSettingOf(k: real, q: TradeRequest, a: ArmedResult)
    requires a.entryPrice.Some? && a.entryTime.Some? && BreakevenMirrors(k, q, a.entryPrice.value)
    ensures SettingOf(MirrorRequest(k, q), MirrorArmedResult(k, a), 0.0, 0.0) ==
      MirrorSetting(k, SettingOf(q, a, 0.0, 0.0))
  {
    EffectiveMirrors(k, q, a.entryPrice.value);
  }

  lemma {:induction false} MirrorLaunch(k: real, q: TradeRequest, cs: seq<Candle>, bs: seq<Batch>)
    requires Triggers(q, cs, bs) && Reflects(k, q, cs, bs)
    ensures Triggers(MirrorRequest(k, q), MirrorCandles(k, cs), MirrorBatches(k, bs))
    ensures var g := LaunchOf(q, cs, bs, 0.0, 0.0);
            LaunchOf(MirrorRequest(k, q), MirrorCandles(k, cs), MirrorBatches(k, bs), 0.0, 0.0) ==
            Launch(MirrorSetting(k, g.x), MirrorTable(k, g.table), g.entryIndex)
  {
    MirrorTriggers(k, q, cs, bs);
    MirrorArmedReplay(k, q.armed, cs, bs);
    MirrorCandlesValid(k, cs);
    TriggeredShape(q.armed, cs, BatchTable(cs, bs).value, 0, 0, 0);
    MirrorSettingOf(k, q, ArmedReplay(q.armed, cs, bs).value);
  }

  lemma {:induction false} MirrorRunOf(k: real, g: Launch, cs: seq<Candle>)
    requires |g.x.armed.events| == 1 && g.entryIndex < |cs| && g.x.fee == 0.0 && g.x.slippage == 0.0
    ensures RunOf(Launch(MirrorSetting(k, g.x), MirrorTable(k, g.table), g.entryIndex), MirrorCandles(k, cs)) ==
            MirrorRun(k, RunOf(g, cs))
  {
    assert Initial(MirrorSetting(k, g.x).armed) == MirrorState(k, Initial(g.x.armed));
    MirrorWalk(k, g.x, Initial(g.x.armed), cs, g.table, g.entryIndex, g.entryIndex);
  }

  lemma {:induction false} TriggeredReplay(q: TradeRequest, cs: seq<Candle>, bs: seq<Batch>)
    requires Triggers(q, cs, bs)
    ensures var g := LaunchOf(q, cs, bs, 0.0, 0.0);
            TradeReplay(q, cs, bs, 0.0, 0.0) ==
            if BreakevenOrdered(g.x.levels) then Ok(ResultOf(g.x, RunOf(g, cs))) else Err(BreakevenOutsideStopAndTp2)
  {
  }

  lemma {:induction false} MirrorResultOf(k: real, x: Setting, r: Run)
    ensures ResultOf(MirrorSetting(k, x), MirrorRun(k, r)) == MirrorResult(k, ResultOf(x, r))
    ensures BreakevenOrdered(MirrorLevels(k, x.levels)) <==> BreakevenOrdered(x.levels)
  {
  }

  lemma {:induction false} MirrorTriggered(k: real, q: TradeRequest, cs: seq<Candle>, bs: seq<Batch>)
    requires Triggers(q, cs, bs) && Reflects(k, q, cs, bs)
    ensures var t := TradeReplay(q, cs, bs, 0.0, 0.0);
            TradeReplay(MirrorRequest(k, q), MirrorCandles(k, cs), MirrorBatches(k, bs), 0.0, 0.0) ==
            if t.Err? then t else Ok(MirrorResult(k, t.value))
  {
    var g := LaunchOf(q, cs, bs, 0.0, 0.0);
    MirrorLaunch(k, q, cs, bs);
    MirrorRunOf(k, g, cs);
    TriggeredReplay(q, cs, bs);
    TriggeredReplay(MirrorRequest(k, q), MirrorCandles(k, cs), MirrorBatches(k, bs));
    MirrorResultOf(k, g.x, RunOf(g, cs));
  }

  /** The effective breakeven that a triggered replay reports, if it is accepted. */
  lemma {:induction false} ReportedBreakeven(q: TradeRequest, cs: seq<Candle>, bs: seq<Batch>)
    requires Triggers(q, cs, bs)
    ensures ArmedReplay(q.armed, cs, bs).value.entryPrice.Some?
    ensures var t := TradeReplay(q, cs, bs, 0.0, 0.0);
            t.Ok? ==>
              t.value.breakeven == Some(EffectiveBreakeven(q, ArmedReplay(q.armed, cs, bs).value.entryPrice.value))
  {
    TriggeredShape(q.armed, cs, BatchTable(cs, bs).value, 0, 0, 0);
    TriggeredReplay(q, cs, bs);
  }

  /**
   * With zero deadline rates, reflecting all prices and flipping the direction gives the reflected result, that is
   * the same errors, or the same event types, times, references and fractions, whenever the breakeven reflects.
   */
  lemma {:induction false} MirrorSymmetry(k: real, q: TradeRequest, cs: seq<Candle>, bs: seq<Batch>)
    requires Reflects(k, q, cs, bs)
    ensures var t := TradeReplay(q, cs, bs, 0.0, 0.0);
            TradeReplay(MirrorRequest(k, q), MirrorCandles(k, cs), MirrorBatches(k, bs), 0.0, 0.0) ==
            if t.Err? then t else Ok(MirrorResult(k, t.value))
  {
    MirrorArmedReplay(k, q.armed, cs, bs);
    if Triggers(q, cs, bs) { MirrorTriggered(k, q, cs, bs); }
  }

  /**
   * An accepted replay is mirrored exactly when it does not trigger, or neither its breakeven nor the reflection of
   * it is zero, or the entry price it falls back to is that breakeven, or prices are reflected at zero.
   */
  lemma {:induction false} MirrorExactly(k: real, q: TradeRequest, cs: seq<Candle>, bs: seq<Batch>)
    requires TradeReplay(q, cs, bs, 0.0, 0.0).Ok?
    ensures var t := TradeReplay(q, cs, bs, 0.0, 0.0).value;
            && (t.armed.state == TRIGGERED ==> t.armed.entryPrice.Some?)
            && (TradeReplay(MirrorRequest(k, q), MirrorCandles(k, cs), MirrorBatches(k, bs), 0.0, 0.0) ==
                Ok(MirrorResult(k, t)) <==>
                t.armed.state == TRIGGERED ==> BreakevenMirrors(k, q, t.armed.entryPrice.value))
  {
    AcceptedLaunches(q, cs, bs, 0.0, 0.0);
    if Triggers(q, cs, bs) {
      MirrorArmedReplay(k, q.armed, cs, bs);
      ReportedBreakeven(q, cs, bs);
      var entry := ArmedReplay(q.armed, cs, bs).value.entryPrice.value;
      ReportedBreakeven(MirrorRequest(k, q), MirrorCandles(k, cs), MirrorBatches(k, bs));
      EffectiveMirrors(k, q, entry);
      if BreakevenMirrors(k, q, entry) { MirrorSymmetry(k, q, cs, bs); }
    } else {
      MirrorSymmetry(k, q, cs, bs);
    }
  }

  /** It fails for an accepted replay: a LONG entry at 10 under a breakeven of 0, reflected at 100. */
  lemma {:induction false} MirrorCanFail() returns (q: TradeRequest, cs: seq<Candle>)
    ensures ValidRequest(q) && TradeReplay(q, cs, [], 0.0, 0.0).Ok?
    ensures TradeReplay(MirrorRequest(100.0, q), MirrorCandles(100.0, cs), MirrorBatches(100.0, []), 0.0, 0.0) !=
            Ok(MirrorResult(100.0, TradeReplay(q, cs, [], 0.0, 0.0).value))
  {
    var armed := ArmedRequest("S", "X", Long, 10.0, 5.0, 5.0, 1.0, 0, MINUTE);
    q := TradeRequest(armed, 20.0, 30.0, 1.0, 16, Some(0.0));
    cs := [Candle(0, 10.0, 10.0, 10.0, 10.0, 0.0)];
    assert BatchTable(cs, []) == Ok(map[]);
    assert Decide(armed, cs[0], None).Enter?;
    assert ArmedReplay(armed, cs, []).value.entryPrice == Some(10.0);
    TriggeredReplay(q, cs, []);
    MirrorExactly(100.0, q, cs, []);
  }

  lemma {:induction false} MirrorClosedLog(k: real, x: Setting, events: seq<ReplayEvent>, why: ExitReason, time: int)
    requires EntryOfOne(x) && ClosedLog(x, events, why, time)
    ensures EntryOfOne(MirrorSetting(k, x)) && ClosedLog(MirrorSetting(k, x), MirrorEvents(k, events), why, time)
  {
    var n, ms := |events|, MirrorEvents(k, events);
    var open, mirrored := events[..n - 2], ms[..n - 2];
    assert open[0] == events[0] && mirrored[0] == ms[0];
    if n > 3 { assert open[1] == events[1] && mirrored[1] == ms[1]; }
    if n > 4 { assert open[2] == events[2] && mirrored[2] == ms[2]; }
  }

  /** A closed trade and its reflection have the same gross profit and loss. */
  lemma {:induction false} MirrorGross(k: real, q: TradeRequest, cs: seq<Candle>, bs: seq<Batch>, r: Rates)
    requires Reflects(k, q, cs, bs) && Accepted(q, cs, bs, 0.0, 0.0)
    requires IsClosed(TradeReplay(q, cs, bs, 0.0, 0.0).value)
    ensures var m := TradeReplay(MirrorRequest(k, q), MirrorCandles(k, cs), MirrorBatches(k, bs), 0.0, 0.0);
            var t := TradeReplay(q, cs, bs, 0.0, 0.0);
            && m.Ok? && IsClosed(m.value) && AllPriced(m.value.events) && AllPriced(t.value.events)
            && Total(FillsOf(m.value.events, Flip(q.armed.direction), r), Gross) ==
               Total(FillsOf(t.value.events, q.armed.direction, r), Gross)
  {
    MirrorSymmetry(k, q, cs, bs);
    AcceptedLaunches(q, cs, bs, 0.0, 0.0);
    LaunchedLog(q, cs, bs, 0.0, 0.0);
    var g := LaunchOf(q, cs, bs, 0.0, 0.0);
    var t := TradeReplay(q, cs, bs, 0.0, 0.0).value;
    MirrorClosedGross(k, g.x, t.events, t.exitReason.value, t.exitTime.value, q.armed.direction, r);
  }

  lemma {:induction false} MirrorClosedGross(
      k: real, x: Setting, events: seq<ReplayEvent>, why: ExitReason, time: int, d: Direction, r: Rates)
    requires EntryOfOne(x) && ClosedLog(x, events, why, time)
    ensures AllPriced(events) && AllPriced(MirrorEvents(k, events))
    ensures Total(FillsOf(MirrorEvents(k, events), Flip(d), r), Gross) == Total(FillsOf(events, d, r), Gross)
  {
    hide FillsOf;
    MirrorClosedLog(k, x, events, why, time);
    ClosedGross(x, events, why, time, d, r);
    ClosedGross(MirrorSetting(k, x), MirrorEvents(k, events), why, time, Flip(d), r);
  }
}
