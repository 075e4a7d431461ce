/** The ARMED signal: which candle or trade decides it, and how. */
module Armed {
  import opened Basics
  import opened Market

  datatype ArmedRequest = ArmedRequest(
    signalId: string,
    symbol: string,
    direction: Direction,
    entryPrice: real,
    invalidationPrice: real,
    stopPrice: real,
    atr: real,
    confirmationClose: int,
    expiresAt: int)

  datatype ArmedState = ARMED | TRIGGERED | INVALIDATED | MISSED | EXPIRED

  datatype EventType =
    | EntryFill | InvalidatedEvent | MissedEvent | ExpiredEvent
    | Tp1Fill | BreakevenActivated | StopFill | Tp2Fill | TimeExit | ClosedEvent
    | FundingEvent | FundingDataMissing | LateEventIgnored

  datatype Reason =
    | EntryNormalCross | EntryGapWithinLimit | EntryAndInvalidationSameCandle
    | StructureInvalidatedBeforeEntry | EntryGapTooLarge | EntryWindowExpired
    | InitialStop | Tp1Target | BreakevenNextMinute | BreakevenStop | Tp2Target | MaxHoldingReached
    | FundingApplied | FundingRequiredDataMissing | LateEntryAfterTerminal

  datatype Source = KLINE_1M | AGG_TRADE

  /** What an event cites: a candle or deadline time, or an aggregate trade. */
  datatype SourceRef = AtTime(time: int) | AtTrade(id: nat)

  /** The fields the event digest covers; the digest is taken to be injective on them. */
  datatype EventId = EventId(signalId: string, eventType: EventType, time: int, source: Source, ref: SourceRef)

  datatype ReplayEvent = ReplayEvent(
    signalId: string,
    eventType: EventType,
    time: int,
    source: Source,
    ref: SourceRef,
    reason: Reason,
    price: Option<real>,
    fraction: Option<real>)
  {
    function Id(): EventId { EventId(signalId, eventType, time, source, ref) }
  }

  datatype OrderingSource = AGG_TRADES | OHLC_ADVERSE

  datatype ArmedResult = ArmedResult(
    request: ArmedRequest,
    state: ArmedState,
    events: seq<ReplayEvent>,
    entryPrice: Option<real>,
    entryTime: Option<int>,
    entryCandleOpen: Option<int>,
    stopAlsoTouched: bool,
    ordering: OrderingSource,
    fallbackCount: nat)

  function Ordering(fallbackCount: nat, aggregateCount: nat): OrderingSource {
    if fallbackCount > 0 || aggregateCount == 0 then OHLC_ADVERSE else AGG_TRADES
  }

  function GapLimit(r: ArmedRequest): real { 0.15 * r.atr }

  function Abs(x: real): real { if x < 0.0 then -x else x }

  // ----- Specification -------------------------------------------------------------

  /** What one candle, or one trade list, says about an armed signal. */
  datatype Decision =
    | Wait
    | Enter(event: ReplayEvent, fillPrice: real, stopAlso: bool)
    | Refuse(state: ArmedState, event: ReplayEvent)

  function EntryAt(
      r: ArmedRequest, time: int, source: Source, ref: SourceRef, reason: Reason, price: real): ReplayEvent {
    ReplayEvent(r.signalId, EntryFill, time, source, ref, reason, Some(price), Some(1.0))
  }

  function RefusalAt(
      r: ArmedRequest, eventType: EventType, time: int, source: Source, ref: SourceRef, reason: Reason): ReplayEvent {
    ReplayEvent(r.signalId, eventType, time, source, ref, reason, None, None)
  }

  /** First passage over an ordered trade list; entry is tested before invalidation. */
  function DecideTrades(r: ArmedRequest, trades: seq<AggTrade>): (d: Decision)
    ensures d.Enter? ==> !d.stopAlso && d.fillPrice == r.entryPrice
    ensures d.Refuse? ==> d.state == INVALIDATED
    decreases |trades|
  {
    if trades == [] then Wait
    else
      var t := trades[0];
      if Touches(r.direction, t.price, r.entryPrice, true) then
        Enter(EntryAt(r, t.time, AGG_TRADE, AtTrade(t.id), EntryNormalCross, r.entryPrice), r.entryPrice, false)
      else if Touches(r.direction, t.price, r.invalidationPrice, false) then
        Refuse(INVALIDATED, RefusalAt(r, InvalidatedEvent, t.time, AGG_TRADE, AtTrade(t.id),
          StructureInvalidatedBeforeEntry))
      else DecideTrades(r, trades[1..])
  }

  predicate GapEntry(r: ArmedRequest, c: Candle) {
    Touches(r.direction, c.open, r.entryPrice, true)
  }

  predicate EntryTouched(r: ArmedRequest, c: Candle) {
    Touches(r.direction, Best(r.direction, c), r.entryPrice, true)
  }

  predicate InvalidationTouched(r: ArmedRequest, c: Candle) {
    Touches(r.direction, Worst(r.direction, c), r.invalidationPrice, false)
  }

  function DecideBar(r: ArmedRequest, c: Candle): Decision {
    if GapEntry(r, c) || EntryTouched(r, c) then
      var price := if GapEntry(r, c) then c.open else r.entryPrice;
      var reason := if InvalidationTouched(r, c) then EntryAndInvalidationSameCandle
                    else if GapEntry(r, c) then EntryGapWithinLimit
                    else EntryNormalCross;
      Enter(EntryAt(r, c.openTime, KLINE_1M, AtTime(c.openTime), reason, price), price, InvalidationTouched(r, c))
    else if InvalidationTouched(r, c) then
      Refuse(INVALIDATED, RefusalAt(r, InvalidatedEvent, c.openTime, KLINE_1M, AtTime(c.openTime),
        StructureInvalidatedBeforeEntry))
    else Wait
  }

  /** The decision of one candle inside the entry window. */
  function Decide(r: ArmedRequest, c: Candle, b: Option<Batch>): Decision {
    if GapEntry(r, c) && Abs(c.open - r.entryPrice) > GapLimit(r) then
      Refuse(MISSED, RefusalAt(r, MissedEvent, c.openTime, KLINE_1M, AtTime(c.openTime), EntryGapTooLarge))
    else if Complete(b) && !GapEntry(r, c) then DecideTrades(r, Ordered(b.value.trades))
    else DecideBar(r, c)
  }

  function ExpiryEvent(r: ArmedRequest): ReplayEvent {
    RefusalAt(r, ExpiredEvent, r.expiresAt, KLINE_1M, AtTime(r.expiresAt), EntryWindowExpired)
  }

  function Unfilled(
      r: ArmedRequest, state: ArmedState, events: seq<ReplayEvent>, fallback: nat, aggregate: nat): ArmedResult {
    ArmedResult(r, state, events, None, None, None, false, Ordering(fallback, aggregate), fallback)
  }

  function Conclude(r: ArmedRequest, c: Candle, d: Decision, fallback: nat, aggregate: nat): ArmedResult
    requires !d.Wait?
  {
    match d
    case Enter(e, price, stopAlso) =>
      ArmedResult(r, TRIGGERED, [e], Some(price), Some(e.time), Some(c.openTime), stopAlso,
        Ordering(fallback, aggregate), fallback)
    case Refuse(state, e) => Unfilled(r, state, [e], fallback, aggregate)
  }

  function ArmedFrom(
      r: ArmedRequest, cs: seq<Candle>, table: Batches, i: nat, fallback: nat, aggregate: nat): ArmedResult
    requires i <= |cs|
    decreases |cs| - i
  {
    if i == |cs| then Unfilled(r, ARMED, [], fallback, aggregate)
    else
      var c := cs[i];
      if c.openTime < r.confirmationClose then ArmedFrom(r, cs, table, i + 1, fallback, aggregate)
      else if c.openTime >= r.expiresAt then Unfilled(r, EXPIRED, [ExpiryEvent(r)], fallback, aggregate)
      else
        var b := BatchAt(table, c.openTime);
        var fallback' := if Complete(b) then fallback else fallback + 1;
        var aggregate' := if Complete(b) then aggregate + 1 else aggregate;
        var d := Decide(r, c, b);
        if d.Wait? then ArmedFrom(r, cs, table, i + 1, fallback', aggregate')
        else Conclude(r, c, d, fallback', aggregate')
  }

  function ArmedReplay(r: ArmedRequest, cs: seq<Candle>, batches: seq<Batch>): Result<ArmedResult, ReplayError> {
    if !ValidCandles(cs) then Err(InvalidCandles)
    else
      match BatchTable(cs, batches)
      case Err(e) => Err(e)
      case Ok(table) => Ok(ArmedFrom(r, cs, table, 0, 0, 0))
  }

  // ----- Replay loops ----------------------------------------------------------------

  /** The trade loop of `replay_armed`. */
  method ScanTrades(r: ArmedRequest, trades: seq<AggTrade>) returns (d: Decision)
    ensures d == DecideTrades(r, trades)
  {
    var k := 0;
    while k < |trades|
      invariant 0 <= k <= |trades|
      invariant DecideTrades(r, trades) == DecideTrades(r, trades[k..])
    {
      var trade := trades[k];
      assert trades[k..][0] == trade && trades[k..][1..] == trades[k + 1..];
      var tradeEntry := if r.direction == Long then trade.price >= r.entryPrice else trade.price <= r.entryPrice;
      var tradeInvalidation :=
        if r.direction == Long then trade.price <= r.invalidationPrice else trade.price >= r.invalidationPrice;
      if tradeEntry {
        return Enter(EntryAt(r, trade.time, AGG_TRADE, AtTrade(trade.id), EntryNormalCross, r.entryPrice),
          r.entryPrice, false);
      }
      if tradeInvalidation {
        return Refuse(INVALIDATED,
                      RefusalAt(r, InvalidatedEvent, trade.time, AGG_TRADE, AtTrade(trade.id),
                        StructureInvalidatedBeforeEntry));
      }
      k := k + 1;
    }
    d := Wait;
  }

  /** The body of the candle loop of `replay_armed` for a candle inside the entry window. */
  method DecideCandle(r: ArmedRequest, c: Candle, batch: Option<Batch>) returns (d: Decision)
    ensures d == Decide(r, c, batch)
  {
    var gapLimit := 0.15 * r.atr;
    var completeAggregate := batch.Some? && batch.value.complete;
    var ref := AtTime(c.openTime);
    var gapEntry := if r.direction == Long then c.open >= r.entryPrice else c.open <= r.entryPrice;
    var invalidationTouched :=
      if r.direction == Long then c.low <= r.invalidationPrice else c.high >= r.invalidationPrice;
    var entryTouched := if r.direction == Long then c.high >= r.entryPrice else c.low <= r.entryPrice;
    if gapEntry && Abs(c.open - r.entryPrice) > gapLimit {
      return Refuse(MISSED, RefusalAt(r, MissedEvent, c.openTime, KLINE_1M, ref, EntryGapTooLarge));
    }
    if completeAggregate && !gapEntry {
      d := ScanTrades(r, Ordered(batch.value.trades));
      return;
    }
    if gapEntry || entryTouched {
      var fillPrice := if gapEntry then c.open else r.entryPrice;
      var reason := if invalidationTouched then EntryAndInvalidationSameCandle
                    else if gapEntry then EntryGapWithinLimit
                    else EntryNormalCross;
      return Enter(EntryAt(r, c.openTime, KLINE_1M, ref, reason, fillPrice), fillPrice, invalidationTouched);
    }
    if invalidationTouched {
      return Refuse(INVALIDATED,
                    RefusalAt(r, InvalidatedEvent, c.openTime, KLINE_1M, ref, StructureInvalidatedBeforeEntry));
    }
    d := Wait;
  }

  /** `replay_armed`. */
  method ReplayArmed(
      r: ArmedRequest, cs: seq<Candle>, batches: seq<Batch>) returns (result: Result<ArmedResult, ReplayError>)
    ensures result == ArmedReplay(r, cs, batches)
  {
    if !ValidCandles(cs) {
      return Err(InvalidCandles);
    }
    var built := AggregateTradeMap(cs, batches);
    if built.Err? {
      return Err(built.error);
    }
    var byOpen := built.value;
    var fallback, aggregate := 0, 0;
    var position := 0;
    while position < |cs|
      invariant 0 <= position <= |cs| && 0 <= fallback && 0 <= aggregate
      invariant ArmedFrom(r, cs, byOpen, 0, 0, 0) == ArmedFrom(r, cs, byOpen, position, fallback, aggregate)
    {
      var c := cs[position];
      position := position + 1;
      if c.openTime < r.confirmationClose {
        continue;
      }
      if c.openTime >= r.expiresAt {
        return Ok(Unfilled(r, EXPIRED, [ExpiryEvent(r)], fallback, aggregate));
      }
      var batch := BatchAt(byOpen, c.openTime);
      if batch.Some? && batch.value.complete {
        aggregate := aggregate + 1;
      } else {
        fallback := fallback + 1;
      }
      var d := DecideCandle(r, c, batch);
      if !d.Wait? {
        return Ok(Conclude(r, c, d, fallback, aggregate));
      }
    }
    result := Ok(Unfilled(r, ARMED, [], fallback, aggregate));
  }
}
