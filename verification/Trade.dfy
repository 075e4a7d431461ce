/** The triggered position: price paths, the deadline comparison, and the replay loop. */
module Trade {
  import opened Basics
  import opened Market
  import opened Armed

  datatype TradeRequest = TradeRequest(
    armed: ArmedRequest,
    tp1: real,
    tp2: real,
    tick: real,
    maxHoldingBars: int,
    breakeven: Option<real>)

  datatype Position = FULL | HALF_AFTER_TP1 | FLAT

  datatype ExitReason = SL | BREAKEVEN_AFTER_TP1 | TP2 | TIME_EXIT

  datatype TradeResult = TradeResult(
    request: TradeRequest,
    armed: ArmedResult,
    position: Option<Position>,
    events: seq<ReplayEvent>,
    openFraction: real,
    breakeven: Option<real>,
    activation: Option<int>,
    deadline: Option<int>,
    exitReason: Option<ExitReason>,
    exitTime: Option<int>,
    ordering: OrderingSource,
    fallbackCount: nat)

  /** The facts a trade request is validated to satisfy when it is built. */
  predicate ValidRequest(q: TradeRequest) {
    var a := q.armed;
    && q.tick > 0.0
    && (q.breakeven.Some? ==> q.breakeven.value >= 0.0)
    && (if a.direction == Long then a.stopPrice < a.entryPrice < q.tp1 < q.tp2
        else a.stopPrice > a.entryPrice > q.tp1 > q.tp2)
    && q.maxHoldingBars in {16, 32, 48}
  }

  /** `_deadline`: the quarter hour of the entry plus the holding bars. */
  function Deadline(entryTime: int, maxHoldingBars: int): int {
    entryTime - entryTime % QUARTER + QUARTER * maxHoldingBars
  }

  // ----- Price paths -----------------------------------------------------------------

  /** The price levels of an open position. */
  datatype Levels = Levels(direction: Direction, stop: real, tp1: real, tp2: real, breakeven: real)

  datatype Fill = Fill(
    eventType: EventType,
    reason: Reason,
    price: real,
    fraction: real,
    time: int,
    ref: SourceRef,
    source: Source)

  /** Which part is still open, and when the breakeven stop starts to count. */
  datatype Leg = Leg(position: Position, activation: Option<int>)

  /** The effect of a stretch of prices on a position: it stays open, or its last fill closes it. */
  datatype Path =
    | Open(fills: seq<Fill>, leg: Leg)
    | Shut(fills: seq<Fill>, reason: ExitReason, activation: Option<int>)

  function Prepend(fills: seq<Fill>, p: Path): Path {
    p.(fills := fills + p.fills)
  }

  function ProtectiveStop(l: Levels, active: bool): real {
    if active then l.breakeven else l.stop
  }

  function HalfStopFill(l: Levels, active: bool, time: int, ref: SourceRef, source: Source): Fill {
    Fill(StopFill, if active then BreakevenStop else InitialStop, ProtectiveStop(l, active), 0.5, time, ref, source)
  }

  function HalfStopReason(active: bool): ExitReason {
    if active then BREAKEVEN_AFTER_TP1 else SL
  }

  function Tp1At(l: Levels, time: int, ref: SourceRef, source: Source): Fill {
    Fill(Tp1Fill, Tp1Target, l.tp1, 0.5, time, ref, source)
  }

  function Tp2At(l: Levels, time: int, ref: SourceRef, source: Source): Fill {
    Fill(Tp2Fill, Tp2Target, l.tp2, 0.5, time, ref, source)
  }

  function StopAt(l: Levels, time: int, ref: SourceRef, source: Source): Fill {
    Fill(StopFill, InitialStop, l.stop, 1.0, time, ref, source)
  }

  /** One aggregate trade in the candle closing at `close`. */
  function Tick(l: Levels, leg: Leg, active: bool, t: AggTrade, close: int): (p: Path)
    ensures p.Shut? ==> p.fills != []
  {
    var ref := AtTrade(t.id);
    if leg.position == FULL then
      if Touches(l.direction, t.price, l.stop, false) then Shut([StopAt(l, t.time, ref, AGG_TRADE)], SL, None)
      else if Touches(l.direction, t.price, l.tp1, true) then
        if Touches(l.direction, t.price, l.tp2, true) then
          Shut([Tp1At(l, t.time, ref, AGG_TRADE), Tp2At(l, t.time, ref, AGG_TRADE)], TP2, None)
        else Open([Tp1At(l, t.time, ref, AGG_TRADE)], Leg(HALF_AFTER_TP1, Some(close)))
      else Open([], leg)
    else if leg.position == HALF_AFTER_TP1 then
      if Touches(l.direction, t.price, ProtectiveStop(l, active), false) then
        Shut([HalfStopFill(l, active, t.time, ref, AGG_TRADE)], HalfStopReason(active), leg.activation)
      else if Touches(l.direction, t.price, l.tp2, true) then
        Shut([Tp2At(l, t.time, ref, AGG_TRADE)], TP2, leg.activation)
      else Open([], leg)
    else Open([], leg)
  }

  function Ticks(l: Levels, leg: Leg, active: bool, trades: seq<AggTrade>, close: int): (p: Path)
    ensures p.Shut? ==> p.fills != []
    decreases |trades|
  {
    if trades == [] then Open([], leg)
    else
      match Tick(l, leg, active, trades[0], close)
      case Shut(f, why, act) => Shut(f, why, act)
      case Open(f, leg') => Prepend(f, Ticks(l, leg', active, trades[1..], close))
  }

  /** One candle without usable trades: adverse touches first. */
  function Bar(l: Levels, leg: Leg, active: bool, forceStop: bool, c: Candle): (p: Path)
    ensures p.Shut? ==> p.fills != []
  {
    var ref := AtTime(c.openTime);
    var worst, best := Worst(l.direction, c), Best(l.direction, c);
    if leg.position == FULL then
      if Touches(l.direction, worst, l.stop, false) || forceStop then
        Shut([StopAt(l, c.openTime, ref, KLINE_1M)], SL, None)
      else if Touches(l.direction, best, l.tp1, true) then
        if Touches(l.direction, best, l.tp2, true) then
          Shut([Tp1At(l, c.openTime, ref, KLINE_1M), Tp2At(l, c.openTime, ref, KLINE_1M)], TP2, None)
        else Open([Tp1At(l, c.openTime, ref, KLINE_1M)], Leg(HALF_AFTER_TP1, Some(c.CloseTime())))
      else Open([], leg)
    else if leg.position == HALF_AFTER_TP1 then
      if active && Touches(l.direction, worst, l.breakeven, false) then
        Shut([HalfStopFill(l, true, c.openTime, ref, KLINE_1M)], BREAKEVEN_AFTER_TP1, leg.activation)
      else if Touches(l.direction, best, l.tp2, true) then
        Shut([Tp2At(l, c.openTime, ref, KLINE_1M)], TP2, leg.activation)
      else Open([], leg)
    else Open([], leg)
  }

  /** The closing fills of a deadline candle, if its prices close the position before any time exit. */
  datatype Risk = NoRisk | RiskExit(fills: seq<Fill>, reason: ExitReason)

  function RiskOf(p: Path): Risk {
    match p
    case Open(_, _) => NoRisk
    case Shut(f, why, _) => RiskExit(f, why)
  }

  /** `_deadline_risk_path` on a candle without complete trades, exactly as it branches. */
  function RiskBar(l: Levels, position: Position, active: bool, c: Candle): (k: Risk)
    ensures k.RiskExit? ==> k.fills != []
  {
    var ref := AtTime(c.openTime);
    var worst, best := Worst(l.direction, c), Best(l.direction, c);
    if position == FULL then
      if Touches(l.direction, worst, l.stop, false) then RiskExit([StopAt(l, c.openTime, ref, KLINE_1M)], SL)
      else if Touches(l.direction, best, l.tp1, true) && Touches(l.direction, best, l.tp2, true) then
        RiskExit([Tp1At(l, c.openTime, ref, KLINE_1M), Tp2At(l, c.openTime, ref, KLINE_1M)], TP2)
      else NoRisk
    else if Touches(l.direction, worst, ProtectiveStop(l, active), false) then
      RiskExit([HalfStopFill(l, active, c.openTime, ref, KLINE_1M)], HalfStopReason(active))
    else if Touches(l.direction, best, l.tp2, true) then RiskExit([Tp2At(l, c.openTime, ref, KLINE_1M)], TP2)
    else NoRisk
  }

  function RiskPath(l: Levels, position: Position, active: bool, c: Candle, b: Option<Batch>): (k: Risk)
    ensures k.RiskExit? ==> k.fills != []
  {
    if Complete(b) then RiskOf(Ticks(l, Leg(position, None), active, Ordered(b.value.trades), c.CloseTime()))
    else RiskBar(l, position, active, c)
  }

  function ExitCash(d: Direction, fee: real, slippage: real, f: Fill): real {
    match d
    case Long => f.price * (1.0 - slippage) * f.fraction * (1.0 - fee)
    case Short => -(f.price * (1.0 + slippage) * f.fraction * (1.0 + fee))
  }

  function CashOf(d: Direction, fee: real, slippage: real, fills: seq<Fill>): real {
    if fills == [] then 0.0
    else CashOf(d, fee, slippage, fills[..|fills| - 1]) + ExitCash(d, fee, slippage, fills[|fills| - 1])
  }

  // ----- The step machine --------------------------------------------------------------

  /** Everything about a triggered replay that its candle loop does not change. */
  datatype Setting = Setting(
    request: TradeRequest,
    armed: ArmedResult,
    levels: Levels,
    deadline: int,
    fee: real,
    slippage: real)

  datatype State = State(leg: Leg, active: bool, events: seq<ReplayEvent>, fallbackCount: nat, aggregateUsed: bool)

  datatype Run =
    | Running(state: State)
    | Exited(state: State, activation: Option<int>, reason: ExitReason, time: int)

  function FractionOf(p: Position): real {
    match p
    case FULL => 1.0
    case HALF_AFTER_TP1 => 0.5
    case FLAT => 0.0
  }

  function FillEvent(signalId: string, f: Fill): ReplayEvent {
    ReplayEvent(signalId, f.eventType, f.time, f.source, f.ref, f.reason, Some(f.price), Some(f.fraction))
  }

  function FillEvents(signalId: string, fills: seq<Fill>): seq<ReplayEvent> {
    if fills == [] then []
    else FillEvents(signalId, fills[..|fills| - 1]) + [FillEvent(signalId, fills[|fills| - 1])]
  }

  /** The CLOSED event that repeats the last fill's time, price and source. */
  function ClosedBy(signalId: string, f: Fill): ReplayEvent {
    ReplayEvent(signalId, ClosedEvent, f.time, f.source, f.ref, f.reason, Some(f.price), None)
  }

  function ActivationEvent(signalId: string, time: int, breakeven: real): ReplayEvent {
    ReplayEvent(signalId, BreakevenActivated, time, KLINE_1M, AtTime(time), BreakevenNextMinute, Some(breakeven), None)
  }

  function Activate(x: Setting, s: State, openTime: int): State {
    if s.leg.activation.Some? && !s.active && openTime >= s.leg.activation.value then
      s.(active := true,
         events := s.events + [ActivationEvent(x.request.armed.signalId, s.leg.activation.value, x.levels.breakeven)])
    else s
  }

  function CountSource(s: State, b: Option<Batch>): State {
    if Complete(b) then s.(aggregateUsed := true) else s.(fallbackCount := s.fallbackCount + 1)
  }

  function Follow(x: Setting, s: State, p: Path): Run
    requires p.Shut? ==> p.fills != []
  {
    var id := x.request.armed.signalId;
    match p
    case Open(fills, leg) => Running(s.(leg := leg, events := s.events + FillEvents(id, fills)))
    case Shut(fills, why, act) =>
      var last := fills[|fills| - 1];
      Exited(s.(leg := Leg(FLAT, None), events := s.events + FillEvents(id, fills) + [ClosedBy(id, last)]),
             act, why, last.time)
  }

  /** On the entry candle only trades after the entry count. */
  function TradesAfterEntry(entry: ReplayEvent, trades: seq<AggTrade>): seq<AggTrade> {
    if trades == [] then []
    else
      var keep := if entry.ref.AtTrade? && entry.source == AGG_TRADE
                  then trades[0].time > entry.time || (trades[0].time == entry.time && trades[0].id > entry.ref.id)
                  else trades[0].time >= entry.time;
      (if keep then [trades[0]] else []) + TradesAfterEntry(entry, trades[1..])
  }

  function CandleTrades(entry: ReplayEvent, b: Batch, isEntry: bool): seq<AggTrade> {
    if isEntry then TradesAfterEntry(entry, Ordered(b.trades)) else Ordered(b.trades)
  }

  /** The ordinary price path of a candle. */
  function CandlePath(x: Setting, s: State, c: Candle, b: Option<Batch>, isEntry: bool): (p: Path)
    requires x.armed.events != []
    ensures p.Shut? ==> p.fills != []
  {
    if Complete(b)
    then Ticks(x.levels, s.leg, s.active, CandleTrades(x.armed.events[0], b.value, isEntry), c.CloseTime())
    else Bar(x.levels, s.leg, s.active, isEntry && x.armed.stopAlsoTouched, c)
  }

  function TimeFill(position: Position, c: Candle): Fill {
    Fill(TimeExit, MaxHoldingReached, c.open, FractionOf(position), c.openTime, AtTime(c.openTime), KLINE_1M)
  }

  /** The deadline candle: the risk path if it is no better than leaving at the open. */
  function DeadlinePath(x: Setting, s: State, c: Candle, b: Option<Batch>): (p: Path)
    ensures p.Shut? && p.fills != []
  {
    var d := x.levels.direction;
    var timeFill := TimeFill(s.leg.position, c);
    match RiskPath(x.levels, s.leg.position, s.active, c, b)
    case RiskExit(fills, why) =>
      if CashOf(d, x.fee, x.slippage, fills) <= CashOf(d, x.fee, x.slippage, [timeFill])
      then Shut(fills, why, s.leg.activation)
      else Shut([timeFill], TIME_EXIT, s.leg.activation)
    case NoRisk => Shut([timeFill], TIME_EXIT, s.leg.activation)
  }

  function CandleStep(x: Setting, s: State, c: Candle, b: Option<Batch>, isEntry: bool): Run
    requires x.armed.events != []
  {
    var s1 := Activate(x, s, c.openTime);
    if c.openTime >= x.deadline then
      Follow(x, CountSource(s1, b), DeadlinePath(x, s1, c, b))
    else
      Follow(x, if isEntry then s1 else CountSource(s1, b), CandlePath(x, s1, c, b, isEntry))
  }

  function Walk(x: Setting, s: State, cs: seq<Candle>, table: Batches, i: nat, entryIndex: nat): Run
    requires x.armed.events != [] && i <= |cs|
    decreases |cs| - i
  {
    if i == |cs| then Running(s)
    else
      match CandleStep(x, s, cs[i], BatchAt(table, cs[i].openTime), i == entryIndex)
      case Exited(s', act, why, time) => Exited(s', act, why, time)
      case Running(s') => Walk(x, s', cs, table, i + 1, entryIndex)
  }

  // ----- The whole replay ---------------------------------------------------------------

  /** `request.breakeven_price or entry_price`: an absent and a zero breakeven both mean the entry fill. */
  function EffectiveBreakeven(q: TradeRequest, entryPrice: real): real {
    if q.breakeven.Some? && q.breakeven.value != 0.0 then q.breakeven.value else entryPrice
  }

  function LevelsOf(q: TradeRequest, entryPrice: real): Levels {
    Levels(q.armed.direction, q.armed.stopPrice, q.tp1, q.tp2, EffectiveBreakeven(q, entryPrice))
  }

  predicate BreakevenOrdered(l: Levels) {
    if l.direction == Long then l.stop < l.breakeven < l.tp2 else l.stop > l.breakeven > l.tp2
  }

  predicate ValidRates(fee: real, slippage: real) {
    0.0 <= fee < 1.0 && 0.0 <= slippage < 1.0
  }

  function Untriggered(q: TradeRequest, a: ArmedResult): TradeResult {
    TradeResult(q, a, None, a.events, 0.0, None, None, None, None, None,
                if a.fallbackCount > 0 || a.ordering != AGG_TRADES then OHLC_ADVERSE else AGG_TRADES, a.fallbackCount)
  }

  function SettingOf(q: TradeRequest, a: ArmedResult, fee: real, slippage: real): Setting
    requires a.entryPrice.Some? && a.entryTime.Some?
  {
    Setting(q, a, LevelsOf(q, a.entryPrice.value), Deadline(a.entryTime.value, q.maxHoldingBars), fee, slippage)
  }

  function Initial(a: ArmedResult): State {
    State(Leg(FULL, None), false, a.events, a.fallbackCount, a.ordering == AGG_TRADES)
  }

  function ResultOf(x: Setting, r: Run): TradeResult {
    var s := r.state;
    var ordering := if s.fallbackCount > 0 || !s.aggregateUsed then OHLC_ADVERSE else AGG_TRADES;
    match r
    case Running(_) =>
      TradeResult(x.request, x.armed, Some(s.leg.position), s.events, FractionOf(s.leg.position),
                  Some(x.levels.breakeven), s.leg.activation, Some(x.deadline), None, None, ordering, s.fallbackCount)
    case Exited(_, act, why, time) =>
      TradeResult(x.request, x.armed, Some(FLAT), s.events, 0.0, Some(x.levels.breakeven),
                  act, Some(x.deadline), Some(why), Some(time), ordering, s.fallbackCount)
  }

  /** `replay_trade` as a function: the declared error order, then the step machine from the entry candle. */
  function TradeReplay(q: TradeRequest, cs: seq<Candle>, batches: seq<Batch>, fee: real, slippage: real)
    : Result<TradeResult, ReplayError>
  {
    match ArmedReplay(q.armed, cs, batches)
    case Err(e) => Err(e)
    case Ok(a) =>
      if a.state != TRIGGERED then Ok(Untriggered(q, a))
      else
        TriggeredShape(q.armed, cs, BatchTable(cs, batches).value, 0, 0, 0);
        var x := SettingOf(q, a, fee, slippage);
        if !BreakevenOrdered(x.levels) then Err(BreakevenOutsideStopAndTp2)
        else if !ValidRates(fee, slippage) then Err(BadDeadlineRates)
        else
          var entryIndex := Positions(cs)[a.entryCandleOpen.value];
          Ok(ResultOf(x, Walk(x, Initial(a), cs, BatchTable(cs, batches).value, entryIndex, entryIndex)))
  }

  /** What a triggered armed result is known to hold: one ENTRY_FILL of fraction one on a candle of the series. */
  predicate TriggeredResult(r: ArmedRequest, cs: seq<Candle>, a: ArmedResult)
    requires ValidCandles(cs)
  {
    && a.state == TRIGGERED
    && a.entryPrice.Some? && a.entryTime.Some? && a.entryCandleOpen.Some?
    && a.entryCandleOpen.value in Positions(cs)
    && r.confirmationClose <= a.entryCandleOpen.value < r.expiresAt
    && (a.entryPrice.value == r.entryPrice || a.entryPrice.value == cs[Positions(cs)[a.entryCandleOpen.value]].open)
    && |a.events| == 1
    && var e := a.events[0];
       && e.signalId == r.signalId && e.eventType == EntryFill
       && e.time == a.entryTime.value
       && e.price == a.entryPrice && e.fraction == Some(1.0)
       && (e.source == AGG_TRADE <==> e.ref.AtTrade?)
       && (e.source == KLINE_1M ==> e.time == a.entryCandleOpen.value)
  }

  lemma {:induction false} EnteringTrades(r: ArmedRequest, trades: seq<AggTrade>)
    ensures var d := DecideTrades(r, trades);
            d.Enter? ==>
              exists t :: t in trades && t.time == d.event.time && d.event.ref == AtTrade(t.id) &&
                d.event == EntryAt(r, t.time, AGG_TRADE, AtTrade(t.id), EntryNormalCross, r.entryPrice)
    decreases |trades|
  {
    if trades != [] {
      assert trades[0] in trades;
      EnteringTrades(r, trades[1..]);
    }
  }

  /** What is decided at candle `i` is a shaped entry or no entry. */
  lemma {:induction false} DecidedShape(
      r: ArmedRequest, cs: seq<Candle>, i: nat, b: Option<Batch>, fallback: nat, aggregate: nat)
    requires ValidCandles(cs) && i < |cs| && r.confirmationClose <= cs[i].openTime < r.expiresAt
    requires !Decide(r, cs[i], b).Wait?
    ensures var a := Conclude(r, cs[i], Decide(r, cs[i], b), fallback, aggregate);
            a.state == TRIGGERED ==> TriggeredResult(r, cs, a)
  {
    hide Worst, Best, Touches;
    if Complete(b) { EnteringTrades(r, Ordered(b.value.trades)); }
  }

  lemma {:induction false} TriggeredShape(
      r: ArmedRequest, cs: seq<Candle>, table: Batches, i: nat, fallback: nat, aggregate: nat)
    requires ValidCandles(cs) && i <= |cs|
    ensures var a := ArmedFrom(r, cs, table, i, fallback, aggregate);
            a.state == TRIGGERED ==> TriggeredResult(r, cs, a)
    decreases |cs| - i
  {
    hide Decide, TriggeredResult;
    if i < |cs| {
      var c := cs[i];
      var b := BatchAt(table, c.openTime);
      var fallback' := if Complete(b) then fallback else fallback + 1;
      var aggregate' := if Complete(b) then aggregate + 1 else aggregate;
      if c.openTime < r.confirmationClose {
        TriggeredShape(r, cs, table, i + 1, fallback, aggregate);
      } else if c.openTime < r.expiresAt {
        if Decide(r, c, b).Wait? {
          TriggeredShape(r, cs, table, i + 1, fallback', aggregate');
        } else {
          DecidedShape(r, cs, i, b, fallback', aggregate');
        }
      }
    }
  }
}
