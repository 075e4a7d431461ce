/** The armed replay in full, stated over prices: which candle decides, what the result then is, and its counts. */
module ArmedOutcome {
  import opened Basics
  import opened Market
  import opened Armed
  import opened Runs
  import opened Passage

  // ----- What a candle shows ---------------------------------------------------------------------------------

  /** The candle opens at the entry or beyond it. */
  predicate OpensBeyond(r: ArmedRequest, c: Candle) { Helps(r.direction, r.entryPrice, c.open) }

  /** The gap between the open and the entry is wider than 0.15 ATR. */
  predicate GapTooWide(r: ArmedRequest, c: Candle) {
    c.open - r.entryPrice > 0.15 * r.atr || r.entryPrice - c.open > 0.15 * r.atr
  }

  predicate RangeEnters(r: ArmedRequest, c: Candle) {
    if r.direction == Long then c.high >= r.entryPrice else c.low <= r.entryPrice
  }

  predicate RangeInvalidates(r: ArmedRequest, c: Candle) {
    if r.direction == Long then c.low <= r.invalidationPrice else c.high >= r.invalidationPrice
  }

  /** Nothing about the candle decides the signal. */
  predicate Undecided(r: ArmedRequest, c: Candle, b: Option<Batch>) {
    && !OpensBeyond(r, c)
    && if Complete(b) then NoneReaches(r.direction, r.invalidationPrice, r.entryPrice, b.value.trades)
       else !RangeEnters(r, c) && !RangeInvalidates(r, c)
  }

  // ----- Results ---------------------------------------------------------------------------------------------

  predicate EntersAt(
      a: ArmedResult, c: Candle, price: real, time: int, source: Source, ref: SourceRef, why: Reason, stopAlso: bool) {
    && a.state == TRIGGERED && a.entryPrice == Some(price) && a.entryTime == Some(time)
    && a.entryCandleOpen == Some(c.openTime) && a.stopAlsoTouched == stopAlso
    && a.events == [ReplayEvent(a.request.signalId, EntryFill, time, source, ref, why, Some(price), Some(1.0))]
  }

  predicate EndsAt(
      a: ArmedResult, state: ArmedState, eventType: EventType, time: int, source: Source, ref: SourceRef, why: Reason) {
    && a.state == state && a.entryPrice == None && a.entryTime == None && a.entryCandleOpen == None
    && !a.stopAlsoTouched
    && a.events == [ReplayEvent(a.request.signalId, eventType, time, source, ref, why, None, None)]
  }

  /** The trades decide: the first one at either level, the entry taking precedence. */
  predicate DecidedByTrade(r: ArmedRequest, c: Candle, trades: seq<AggTrade>, a: ArmedResult, t: AggTrade) {
    && FirstReaching(r.direction, r.invalidationPrice, r.entryPrice, trades, t)
    && if Helps(r.direction, r.entryPrice, t.price)
       then EntersAt(a, c, r.entryPrice, t.time, AGG_TRADE, AtTrade(t.id), EntryNormalCross, false)
       else EndsAt(a, INVALIDATED, InvalidatedEvent, t.time, AGG_TRADE, AtTrade(t.id), StructureInvalidatedBeforeEntry)
  }

  /** What a deciding candle makes of the signal. */
  ghost predicate DecidedAt(r: ArmedRequest, c: Candle, b: Option<Batch>, a: ArmedResult) {
    var invalid, at := RangeInvalidates(r, c), AtTime(c.openTime);
    if OpensBeyond(r, c) && GapTooWide(r, c) then
      EndsAt(a, MISSED, MissedEvent, c.openTime, KLINE_1M, at, EntryGapTooLarge)
    else if OpensBeyond(r, c) then
      EntersAt(a, c, c.open, c.openTime, KLINE_1M, at,
               if invalid then EntryAndInvalidationSameCandle else EntryGapWithinLimit, invalid)
    else if Complete(b) then
      exists t :: DecidedByTrade(r, c, b.value.trades, a, t)
    else if RangeEnters(r, c) then
      EntersAt(a, c, r.entryPrice, c.openTime, KLINE_1M, at,
               if invalid then EntryAndInvalidationSameCandle else EntryNormalCross, invalid)
    else
      invalid && EndsAt(a, INVALIDATED, InvalidatedEvent, c.openTime, KLINE_1M, at, StructureInvalidatedBeforeEntry)
  }

  /** The candles from `i` up to `k` without a complete batch. */
  function WithoutTrades(cs: seq<Candle>, table: Batches, i: nat, k: nat): nat
    requires i <= k <= |cs|
  {
    if i == k then 0
    else WithoutTrades(cs, table, i, k - 1) + (if Complete(BatchAt(table, cs[k - 1].openTime)) then 0 else 1)
  }

  /** The counts after the candles from `i` up to `k`: those without trades, and whether all, and any, had them. */
  predicate CountsSources(a: ArmedResult, cs: seq<Candle>, table: Batches, i: nat, k: nat) {
    && i <= k <= |cs|
    && a.fallbackCount == WithoutTrades(cs, table, i, k)
    && a.ordering == if a.fallbackCount == 0 && i < k then AGG_TRADES else OHLC_ADVERSE
  }

  // ----- One decision ----------------------------------------------------------------------------------------

  lemma {:induction false} TradesDecide(r: ArmedRequest, trades: seq<AggTrade>) returns (t: Option<AggTrade>)
    requires StrictlyOrdered(trades)
    ensures t.None? <==> NoneReaches(r.direction, r.invalidationPrice, r.entryPrice, trades)
    ensures t.Some? ==> FirstReaching(r.direction, r.invalidationPrice, r.entryPrice, trades, t.value)
    ensures DecideTrades(r, trades) ==
            if t.None? then Wait
            else if Helps(r.direction, r.entryPrice, t.value.price) then
              Enter(EntryAt(r, t.value.time, AGG_TRADE, AtTrade(t.value.id), EntryNormalCross, r.entryPrice),
                    r.entryPrice, false)
            else Refuse(INVALIDATED, RefusalAt(r, InvalidatedEvent, t.value.time, AGG_TRADE, AtTrade(t.value.id),
                                               StructureInvalidatedBeforeEntry))
    decreases |trades|
  {
    if trades == [] {
      t := None;
    } else {
      TailOrdered(trades);
      t := Some(trades[0]);
      if !Reaches(r.direction, r.invalidationPrice, r.entryPrice, trades[0].price) {
        t := TradesDecide(r, trades[1..]);
      }
    }
  }

  lemma {:induction false} SameTrades(d: Direction, adverse: real, favorable: real, a: seq<AggTrade>, b: seq<AggTrade>)
    requires forall t :: t in a <==> t in b
    ensures NoneReaches(d, adverse, favorable, a) <==> NoneReaches(d, adverse, favorable, b)
    ensures forall t :: FirstReaching(d, adverse, favorable, a, t) <==> FirstReaching(d, adverse, favorable, b, t)
  {
  }

  lemma {:induction false} CandleDecides(r: ArmedRequest, c: Candle, b: Option<Batch>, fallback: nat, aggregate: nat)
    requires b.Some? ==> ValidBatch(b.value)
    requires ValidCandle(c)
    ensures Decide(r, c, b).Wait? <==> Undecided(r, c, b)
    ensures !Decide(r, c, b).Wait? ==>
              var a := Conclude(r, c, Decide(r, c, b), fallback, aggregate);
              a.request == r && DecidedAt(r, c, b, a) && a.fallbackCount == fallback
              && a.ordering == Ordering(fallback, aggregate)
  {
    hide Reaches, Ordered;
    if Complete(b) {
      OrderedStrictly(b.value);
      SameTrades(r.direction, r.invalidationPrice, r.entryPrice, Ordered(b.value.trades), b.value.trades);
      var t := TradesDecide(r, Ordered(b.value.trades));
      if t.Some? && !OpensBeyond(r, c) {
        assert DecidedByTrade(r, c, b.value.trades, Conclude(r, c, Decide(r, c, b), fallback, aggregate), t.value);
      }
    }
  }

  // ----- The whole loop --------------------------------------------------------------------------------------

  /** What the replay makes of the signal when the candles before `k` decided nothing. */
  ghost predicate EndsThere(r: ArmedRequest, cs: seq<Candle>, table: Batches, a: ArmedResult, i: nat, k: nat) {
    && i <= k <= |cs| && a.request == r
    && if k == |cs| then
         && a == ArmedResult(r, ARMED, [], None, None, None, false, a.ordering, a.fallbackCount)
         && CountsSources(a, cs, table, i, k)
       else if cs[k].openTime >= r.expiresAt then
         && EndsAt(a, EXPIRED, ExpiredEvent, r.expiresAt, KLINE_1M, AtTime(r.expiresAt), EntryWindowExpired)
         && CountsSources(a, cs, table, i, k)
       else
         && !Undecided(r, cs[k], BatchAt(table, cs[k].openTime))
         && DecidedAt(r, cs[k], BatchAt(table, cs[k].openTime), a)
         && CountsSources(a, cs, table, i, k + 1)
  }

  lemma {:induction false} LoopEnds(
      r: ArmedRequest, cs: seq<Candle>, table: Batches, first: nat, i: nat, fallback: nat, aggregate: nat)
    returns (k: nat)
    requires ValidCandles(cs) && first <= i <= |cs|
    requires forall t :: t in table ==> ValidBatch(table[t])
    requires forall j :: first <= j < |cs| ==> cs[j].openTime >= r.confirmationClose
    requires fallback == WithoutTrades(cs, table, first, i) && fallback + aggregate == i - first
    ensures i <= k && EndsThere(r, cs, table, ArmedFrom(r, cs, table, i, fallback, aggregate), first, k)
    ensures forall j :: i <= j < k ==>
              cs[j].openTime < r.expiresAt && Undecided(r, cs[j], BatchAt(table, cs[j].openTime))
    decreases |cs| - i
  {
    hide DecidedAt, Undecided, Decide, Conclude;
    k := i;
    if i < |cs| && cs[i].openTime < r.expiresAt {
      var b := BatchAt(table, cs[i].openTime);
      var fallback' := if Complete(b) then fallback else fallback + 1;
      var aggregate' := if Complete(b) then aggregate + 1 else aggregate;
      CandleDecides(r, cs[i], b, fallback', aggregate');
      if Decide(r, cs[i], b).Wait? {
        k := LoopEnds(r, cs, table, first, i + 1, fallback', aggregate');
      }
    }
  }

  lemma {:induction false} WindowOpens(r: ArmedRequest, cs: seq<Candle>, table: Batches, i: nat) returns (first: nat)
    requires ValidCandles(cs) && i <= |cs|
    requires forall j :: 0 <= j < i ==> cs[j].openTime < r.confirmationClose
    ensures i <= first <= |cs|
    ensures forall j :: 0 <= j < |cs| ==> (j < first <==> cs[j].openTime < r.confirmationClose)
    ensures ArmedFrom(r, cs, table, i, 0, 0) == ArmedFrom(r, cs, table, first, 0, 0)
    decreases |cs| - i
  {
    first := i;
    if i < |cs| && cs[i].openTime < r.confirmationClose {
      first := WindowOpens(r, cs, table, i + 1);
    } else {
      forall j | i <= j < |cs| ensures cs[j].openTime >= r.confirmationClose {
        GridIndex(cs, i, j);
      }
    }
  }

  /**
   * The whole armed replay. The window opens with candle `first`, no candle before `k` decides, and the result is
   * what candle `k` makes of the signal in prices, or that the series, or the window, is over; the counts are those
   * of the candles looked at.
   */
  lemma {:induction false} ArmedExactly(r: ArmedRequest, cs: seq<Candle>, batches: seq<Batch>)
    returns (first: nat, k: nat)
    requires ArmedReplay(r, cs, batches).Ok? && ValidBatches(batches)
    ensures ValidCandles(cs) && BatchTable(cs, batches).Ok?
    ensures forall j :: 0 <= j < |cs| ==> (j < first <==> cs[j].openTime < r.confirmationClose)
    ensures EndsThere(r, cs, BatchTable(cs, batches).value, ArmedReplay(r, cs, batches).value, first, k)
    ensures forall j :: first <= j < k ==>
              cs[j].openTime < r.expiresAt
              && Undecided(r, cs[j], BatchAt(BatchTable(cs, batches).value, cs[j].openTime))
  {
    var table := BatchTable(cs, batches).value;
    TableBatchesValid(cs, batches);
    first := WindowOpens(r, cs, table, 0);
    k := LoopEnds(r, cs, table, first, first, 0, 0);
  }

  /** The armed replay fails exactly for candles off their grid or prices, or for batches that do not fit them. */
  lemma {:induction false} ArmedFailsExactly(r: ArmedRequest, cs: seq<Candle>, batches: seq<Batch>)
    ensures var a := ArmedReplay(r, cs, batches);
            if !ValidCandles(cs) then a == Err(InvalidCandles)
            else
              && (a.Ok? <==> && (forall i :: 0 <= i < |batches| ==> Fits(cs, batches[i]))
                             && (forall i, j :: 0 <= i < j < |batches| ==> batches[i].openTime != batches[j].openTime))
              && (a.Err? ==> exists k :: 0 <= k < |batches| && RefusedFor(cs, batches, k, a.error))
  {
    hide Fits;
    if ValidCandles(cs) {
      BatchTableExact(cs, batches);
      if BatchTable(cs, batches).Err? { var k := BatchErrorExactly(cs, batches); }
    }
  }

  /** The entry on a bar reports the stop touched if and only if the candle's range reaches the invalidation. */
  lemma {:induction false} StopAlsoExactly(r: ArmedRequest, cs: seq<Candle>, batches: seq<Batch>) returns (k: nat)
    requires ArmedReplay(r, cs, batches).Ok? && ValidBatches(batches)
    requires ArmedReplay(r, cs, batches).value.state == TRIGGERED
    ensures var a := ArmedReplay(r, cs, batches).value;
            && BatchTable(cs, batches).Ok?
            && k < |cs| && a.entryCandleOpen == Some(cs[k].openTime)
            && var b := BatchAt(BatchTable(cs, batches).value, cs[k].openTime);
               var onBar := !Complete(b)
                            || (if r.direction == Long then cs[k].open >= r.entryPrice
                                else cs[k].open <= r.entryPrice);
               && (a.stopAlsoTouched <==>
                     && onBar
                     && if r.direction == Long then cs[k].low <= r.invalidationPrice
                        else cs[k].high >= r.invalidationPrice)
               && |a.events| == 1 && (a.events[0].source == KLINE_1M <==> onBar)
  {
    var first;
    first, k := ArmedExactly(r, cs, batches);
  }
}
