/** Candles, aggregate-trade batches and the touch test both replay loops use. */
module Market {
  import opened Basics
  import opened Sorting

  datatype Direction = Long | Short

  const QUARTER := 900_000

  datatype AggTrade = AggTrade(id: nat, time: int, price: real)

  datatype Batch = Batch(openTime: int, complete: bool, trades: seq<AggTrade>)

  datatype Candle = Candle(openTime: int, open: real, high: real, low: real, close: real, quoteVolume: real) {
    function CloseTime(): int { openTime + MINUTE }
  }

  datatype ReplayError =
    | InvalidCandles
    | DuplicateBatch
    | BatchWithoutCandle
    | EmptyBatchContradictsCandle
    | TradesContradictCandle
    | BreakevenOutsideStopAndTp2
    | BadDeadlineRates
    | NegativeBreakeven
    | UnpricedFill
    | UnbalancedLedger
    | NonPositiveRisk

  type Batches = map<int, Batch>

  predicate ValidCandle(c: Candle) {
    && c.openTime % MINUTE == 0
    && c.low <= c.open <= c.high
    && c.low <= c.close <= c.high
    && 0.0 <= c.quoteVolume
  }

  /** The strict one-minute grid that `validate_replay_candles` accepts. */
  predicate ValidCandles(cs: seq<Candle>) {
    && cs != []
    && (forall i :: 0 <= i < |cs| ==> ValidCandle(cs[i]))
    && (forall i :: 0 <= i < |cs| ==> cs[i].openTime == cs[0].openTime + i * MINUTE)
  }

  /** What the batch model itself guarantees: unique ids, every trade inside its minute. */
  predicate ValidBatch(b: Batch) {
    && (forall i, j :: 0 <= i < j < |b.trades| ==> b.trades[i].id != b.trades[j].id)
    && (forall t :: t in b.trades ==> b.openTime <= t.time < b.openTime + MINUTE)
  }

  // ----- Price touches -------------------------------------------------------------

  predicate Touches(d: Direction, price: real, level: real, favorable: bool) {
    match d
    case Long => if favorable then price >= level else price <= level
    case Short => if favorable then price <= level else price >= level
  }

  /** The candle extreme that hurts the position. */
  function Worst(d: Direction, c: Candle): real {
    if d == Long then c.low else c.high
  }

  /** The candle extreme that helps the position. */
  function Best(d: Direction, c: Candle): real {
    if d == Long then c.high else c.low
  }

  // ----- Ordered trades ------------------------------------------------------------

  predicate TradeLeq(a: AggTrade, b: AggTrade) {
    a.time < b.time || (a.time == b.time && a.id <= b.id)
  }

  function Ordered(trades: seq<AggTrade>): seq<AggTrade> {
    Sort(trades, TradeLeq)
  }

  lemma {:induction false} OrderedFacts(trades: seq<AggTrade>)
    ensures |Ordered(trades)| == |trades|
    ensures forall t :: t in Ordered(trades) <==> t in trades
    ensures Ascending(TradeLeq, Ordered(trades))
  {
    SortSorts(trades, TradeLeq);
  }

  function MaxPrice(trades: seq<AggTrade>): real
    requires trades != []
  {
    if |trades| == 1 then trades[0].price
    else if trades[0].price > MaxPrice(trades[1..]) then trades[0].price else MaxPrice(trades[1..])
  }

  function MinPrice(trades: seq<AggTrade>): real
    requires trades != []
  {
    if |trades| == 1 then trades[0].price
    else if trades[0].price < MinPrice(trades[1..]) then trades[0].price else MinPrice(trades[1..])
  }

  lemma {:induction false} PriceRange(trades: seq<AggTrade>)
    requires trades != []
    ensures forall t :: t in trades ==> MinPrice(trades) <= t.price <= MaxPrice(trades)
    ensures exists t :: t in trades && t.price == MaxPrice(trades)
    ensures exists t :: t in trades && t.price == MinPrice(trades)
  {
    assert trades[0] in trades;
    if |trades| > 1 {
      PriceRange(trades[1..]);
      var hi :| hi in trades[1..] && hi.price == MaxPrice(trades[1..]);
      var lo :| lo in trades[1..] && lo.price == MinPrice(trades[1..]);
      assert hi in trades && lo in trades;
      assert trades == [trades[0]] + trades[1..];
    }
  }

  // ----- The batch table -----------------------------------------------------------

  /** Whether the ordered trades of a complete batch reproduce the candle. */
  predicate Reproduces(c: Candle, ordered: seq<AggTrade>) {
    if ordered == [] then
      c.quoteVolume == 0.0 && c.open == c.high == c.low == c.close
    else
      && ordered[0].price == c.open
      && ordered[|ordered| - 1].price == c.close
      && MaxPrice(ordered) == c.high
      && MinPrice(ordered) == c.low
  }

  function Positions(cs: seq<Candle>): (m: map<int, nat>)
    requires ValidCandles(cs)
    ensures forall t :: t in m <==> exists i :: 0 <= i < |cs| && cs[i].openTime == t
    ensures forall t :: t in m ==> m[t] < |cs| && cs[m[t]].openTime == t
  {
    map i: nat | 0 <= i < |cs| :: cs[i].openTime := i
  }

  function AddBatch(cs: seq<Candle>, table: Batches, b: Batch): Result<Batches, ReplayError>
    requires ValidCandles(cs)
  {
    if b.openTime in table then Err(DuplicateBatch)
    else if b.openTime !in Positions(cs) then Err(BatchWithoutCandle)
    else if b.complete && !Reproduces(cs[Positions(cs)[b.openTime]], Ordered(b.trades)) then
      Err(if b.trades == [] then EmptyBatchContradictsCandle else TradesContradictCandle)
    else Ok(table[b.openTime := b])
  }

  function TableFrom(cs: seq<Candle>, table: Batches, batches: seq<Batch>): Result<Batches, ReplayError>
    requires ValidCandles(cs)
    decreases |batches|
  {
    if batches == [] then Ok(table)
    else
      match AddBatch(cs, table, batches[0])
      case Err(e) => Err(e)
      case Ok(next) => TableFrom(cs, next, batches[1..])
  }

  function BatchTable(cs: seq<Candle>, batches: seq<Batch>): Result<Batches, ReplayError>
    requires ValidCandles(cs)
  {
    TableFrom(cs, map[], batches)
  }

  function BatchAt(table: Batches, openTime: int): Option<Batch> {
    if openTime in table then Some(table[openTime]) else None
  }

  predicate Complete(b: Option<Batch>) {
    b.Some? && b.value.complete
  }

  /** A batch that may stand in a table over `cs`: it has its candle, and it reproduces it if complete. */
  predicate Fits(cs: seq<Candle>, b: Batch)
    requires ValidCandles(cs)
  {
    && b.openTime in Positions(cs)
    && (b.complete ==> Reproduces(cs[Positions(cs)[b.openTime]], Ordered(b.trades)))
  }

  /** Every batch fits its own candle, none is in the table yet, and no two share a candle. */
  predicate Admissible(cs: seq<Candle>, table: Batches, batches: seq<Batch>)
    requires ValidCandles(cs)
  {
    && (forall i :: 0 <= i < |batches| ==> Fits(cs, batches[i]) && batches[i].openTime !in table)
    && (forall i, j :: 0 <= i < j < |batches| ==> batches[i].openTime != batches[j].openTime)
  }

  /** `result` is `table` with exactly `batches` filed under their open times. */
  ghost predicate Files(table: Batches, batches: seq<Batch>, result: Batches) {
    && (forall t :: t in table ==> t in result && result[t] == table[t])
    && (forall b :: b in batches ==> b.openTime in result && result[b.openTime] == b)
    && (forall t :: t in result && t !in table ==> result[t] in batches && result[t].openTime == t)
  }

  lemma {:induction false} AddBatchFits(cs: seq<Candle>, table: Batches, b: Batch)
    requires ValidCandles(cs)
    ensures AddBatch(cs, table, b).Ok? <==> b.openTime !in table && Fits(cs, b)
  {
  }

  lemma {:induction false} AdmissibleStep(cs: seq<Candle>, table: Batches, batches: seq<Batch>)
    requires ValidCandles(cs) && batches != []
    ensures Admissible(cs, table, batches) <==>
            && batches[0].openTime !in table && Fits(cs, batches[0])
            && Admissible(cs, table[batches[0].openTime := batches[0]], batches[1..])
  {
  }

  lemma {:induction false} TableFromExact(cs: seq<Candle>, table: Batches, batches: seq<Batch>)
    requires ValidCandles(cs)
    ensures TableFrom(cs, table, batches).Ok? <==> Admissible(cs, table, batches)
    ensures TableFrom(cs, table, batches).Ok? ==> Files(table, batches, TableFrom(cs, table, batches).value)
    decreases |batches|
  {
    if batches != [] {
      AdmissibleStep(cs, table, batches);
      AddBatchFits(cs, table, batches[0]);
      if AddBatch(cs, table, batches[0]).Ok? {
        var next := table[batches[0].openTime := batches[0]];
        TableFromExact(cs, next, batches[1..]);
        if Admissible(cs, table, batches) {
          FilesStep(table, batches, TableFrom(cs, next, batches[1..]).value);
        }
      }
    }
  }

  lemma {:induction false} FilesStep(table: Batches, batches: seq<Batch>, result: Batches)
    requires batches != [] && batches[0].openTime !in table
    requires Files(table[batches[0].openTime := batches[0]], batches[1..], result)
    ensures Files(table, batches, result)
  {
  }

  /** The table is built exactly when every batch fits a distinct candle, and then it is that set of batches. */
  lemma {:induction false} BatchTableExact(cs: seq<Candle>, batches: seq<Batch>)
    requires ValidCandles(cs)
    ensures BatchTable(cs, batches).Ok? <==> Admissible(cs, map[], batches)
    ensures BatchTable(cs, batches).Ok? ==> Files(map[], batches, BatchTable(cs, batches).value)
  {
    TableFromExact(cs, map[], batches);
  }

  /** Why a batch is refused after those before it, if it is. */
  predicate RefusedFor(cs: seq<Candle>, batches: seq<Batch>, k: nat, why: ReplayError)
    requires ValidCandles(cs) && k < |batches|
  {
    var b := batches[k];
    if exists j :: 0 <= j < k && batches[j].openTime == b.openTime then why == DuplicateBatch
    else if forall i :: 0 <= i < |cs| ==> cs[i].openTime != b.openTime then why == BatchWithoutCandle
    else !Fits(cs, b) && why == if b.trades == [] then EmptyBatchContradictsCandle else TradesContradictCandle
  }

  lemma {:induction false} TableErrorExactly(cs: seq<Candle>, table: Batches, batches: seq<Batch>, n: nat)
    returns (k: nat)
    requires ValidCandles(cs) && n <= |batches| && TableFrom(cs, table, batches[n..]).Err?
    requires forall t :: t in table <==> exists j :: 0 <= j < n && batches[j].openTime == t
    ensures n <= k < |batches| && RefusedFor(cs, batches, k, TableFrom(cs, table, batches[n..]).error)
    ensures forall i :: n <= i < k ==> Fits(cs, batches[i])
    ensures forall i, j :: 0 <= i < j < k && n <= j ==> batches[i].openTime != batches[j].openTime
    decreases |batches| - n
  {
    k := n;
    var b := batches[n];
    assert batches[n..][0] == b && batches[n..][1..] == batches[n + 1..];
    var added := AddBatch(cs, table, b);
    AddBatchFits(cs, table, b);
    if added.Ok? {
      k := TableErrorExactly(cs, added.value, batches, n + 1);
    }
  }

  /** A refused table names the first batch that does not fit, and why. */
  lemma {:induction false} BatchErrorExactly(cs: seq<Candle>, batches: seq<Batch>) returns (k: nat)
    requires ValidCandles(cs) && BatchTable(cs, batches).Err?
    ensures k < |batches| && RefusedFor(cs, batches, k, BatchTable(cs, batches).error)
    ensures forall i :: 0 <= i < k ==> Fits(cs, batches[i])
    ensures forall i, j :: 0 <= i < j < k ==> batches[i].openTime != batches[j].openTime
  {
    assert batches[0..] == batches;
    k := TableErrorExactly(cs, map[], batches, 0);
  }

  /** A usable table: every entry is filed under its own open time and fits its candle. */
  predicate ValidTable(cs: seq<Candle>, table: Batches)
    requires ValidCandles(cs)
  {
    forall t :: t in table ==> table[t].openTime == t && Fits(cs, table[t])
  }

  lemma {:induction false} BuiltTableValid(cs: seq<Candle>, batches: seq<Batch>)
    requires ValidCandles(cs) && BatchTable(cs, batches).Ok?
    ensures ValidTable(cs, BatchTable(cs, batches).value)
  {
    BatchTableExact(cs, batches);
    var table := BatchTable(cs, batches).value;
    forall t | t in table ensures table[t].openTime == t && Fits(cs, table[t]) {
      var i :| 0 <= i < |batches| && batches[i] == table[t];
    }
  }

  /** `_aggregate_trade_map`. */
  method AggregateTradeMap(cs: seq<Candle>, batches: seq<Batch>) returns (r: Result<Batches, ReplayError>)
    requires ValidCandles(cs)
    ensures r == BatchTable(cs, batches)
  {
    var byOpen: Batches := map[];
    var candlePositions := Positions(cs);
    for k := 0 to |batches|
      invariant TableFrom(cs, map[], batches) == TableFrom(cs, byOpen, batches[k..])
    {
      var batch := batches[k];
      assert batches[k..] == [batch] + batches[k + 1..];
      if batch.openTime in byOpen {
        return Err(DuplicateBatch);
      }
      if batch.openTime !in candlePositions {
        return Err(BatchWithoutCandle);
      }
      if batch.complete {
        var c := cs[candlePositions[batch.openTime]];
        var ordered := Ordered(batch.trades);
        OrderedFacts(batch.trades);
        if ordered == [] {
          if c.quoteVolume != 0.0 || !(c.open == c.high == c.low == c.close) {
            return Err(EmptyBatchContradictsCandle);
          }
        } else if ordered[0].price != c.open || ordered[|ordered| - 1].price != c.close
                  || MaxPrice(ordered) != c.high || MinPrice(ordered) != c.low {
          return Err(TradesContradictCandle);
        }
      }
      byOpen := byOpen[batch.openTime := batch];
    }
    r := Ok(byOpen);
  }
}
