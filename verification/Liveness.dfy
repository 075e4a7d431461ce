/** The requested window is long enough: every accepted replay over it reaches an end. */
module Liveness {
  import opened Basics
  import opened Market
  import opened Armed
  import opened Trade
  import opened Runs

  /** `_request_end`: the deadline of an entry in the last minute of the window, plus one candle. */
  function RequestEnd(expiresAt: int, holding: int): int {
    var lastEntry := expiresAt - MINUTE;
    var bucket := lastEntry - (lastEntry / MINUTE % 15) * MINUTE;
    bucket + MINUTE * (15 * holding + 1)
  }

  /** For a minute-aligned expiry the window ends one candle after the latest deadline an entry can have. */
  lemma {:induction false} RequestEndIsLastDeadline(expiresAt: int, holding: int, entryTime: int)
    requires expiresAt % MINUTE == 0 && entryTime < expiresAt
    ensures Deadline(entryTime, holding) + MINUTE <= RequestEnd(expiresAt, holding)
    ensures entryTime >= expiresAt - MINUTE ==> Deadline(entryTime, holding) + MINUTE == RequestEnd(expiresAt, holding)
  {
    var last := expiresAt / MINUTE - 1;
    var bucket, entered := last / 15, entryTime / QUARTER;
    assert expiresAt - MINUTE == last * MINUTE;
    assert RequestEnd(expiresAt, holding) == bucket * QUARTER + holding * QUARTER + MINUTE;
    assert Deadline(entryTime, holding) == entered * QUARTER + holding * QUARTER;
    assert entered <= bucket;
    assert entryTime >= last * MINUTE ==> bucket <= entered;
  }

  /** The candles are the full grid of the requested window. */
  predicate CoversWindow(q: TradeRequest, cs: seq<Candle>) {
    && ValidCandles(cs)
    && cs[0].openTime == q.armed.confirmationClose
    && cs[|cs| - 1].CloseTime() == RequestEnd(q.armed.expiresAt, q.maxHoldingBars)
  }

  lemma {:induction false} ArmedDecides(
      r: ArmedRequest, cs: seq<Candle>, table: Batches, i: nat, fallback: nat, aggregate: nat)
    requires ValidCandles(cs) && i <= |cs|
    requires exists k :: i <= k < |cs| && cs[k].openTime >= r.expiresAt && cs[k].openTime >= r.confirmationClose
    ensures ArmedFrom(r, cs, table, i, fallback, aggregate).state != ARMED
    decreases |cs| - i
  {
    var c := cs[i];
    var b := BatchAt(table, c.openTime);
    var fallback' := if Complete(b) then fallback else fallback + 1;
    var aggregate' := if Complete(b) then aggregate + 1 else aggregate;
    if c.openTime < r.confirmationClose {
      ArmedDecides(r, cs, table, i + 1, fallback, aggregate);
    } else if c.openTime < r.expiresAt {
      if Complete(b) { var d := DecideTrades(r, Ordered(b.value.trades)); }
      if Decide(r, c, b).Wait? { ArmedDecides(r, cs, table, i + 1, fallback', aggregate'); }
    }
  }

  /** A walk with a candle at or after the deadline ahead of it exits there at the latest. */
  lemma {:induction false} WalkExitsByDeadline(
      x: Setting, s: State, cs: seq<Candle>, table: Batches, i: nat, entryIndex: nat, k: nat)
    requires x.armed.events != [] && i <= k < |cs| && cs[k].openTime >= x.deadline
    ensures Walk(x, s, cs, table, i, entryIndex).Exited?
    ensures StopIndex(x, s, cs, table, i, entryIndex) <= k
    decreases |cs| - i
  {
    var r := CandleStep(x, s, cs[i], BatchAt(table, cs[i].openTime), i == entryIndex);
    if i == k {
      assert r.Exited?;
    } else if r.Running? {
      WalkExitsByDeadline(x, r.state, cs, table, i + 1, entryIndex, k);
    }
  }

  /** Over its requested window an accepted replay is never left armed or open, and leaves by its deadline candle. */
  lemma {:induction false} WindowDecides(
      q: TradeRequest, cs: seq<Candle>, batches: seq<Batch>, fee: real, slippage: real)
    requires Accepted(q, cs, batches, fee, slippage) && CoversWindow(q, cs)
    requires q.armed.expiresAt % MINUTE == 0 && q.armed.confirmationClose < q.armed.expiresAt
    ensures var t := TradeReplay(q, cs, batches, fee, slippage).value;
            && t.armed.state in {TRIGGERED, INVALIDATED, MISSED, EXPIRED}
            && (t.armed.state == TRIGGERED ==>
                  && t.position == Some(FLAT) && t.exitTime.Some? && t.deadline.Some?
                  && t.exitTime.value < t.deadline.value + MINUTE)
  {
    var t := TradeReplay(q, cs, batches, fee, slippage).value;
    var end := RequestEnd(q.armed.expiresAt, q.maxHoldingBars);
    AcceptedLaunches(q, cs, batches, fee, slippage);
    GridIndex(cs, 0, |cs| - 1);
    RequestEndIsLastDeadline(q.armed.expiresAt, q.maxHoldingBars, q.armed.expiresAt - 1);
    var last := cs[|cs| - 1];
    assert last.openTime >= q.armed.expiresAt;
    ArmedDecides(q.armed, cs, BatchTable(cs, batches).value, 0, 0, 0);
    if t.armed.state == TRIGGERED {
      var g := LaunchOf(q, cs, batches, fee, slippage);
      TriggeredShape(q.armed, cs, g.table, 0, 0, 0);
      LaunchArrives(q, cs, batches, fee, slippage);
      ExitsInWindow(q, cs, batches, fee, slippage);
    }
  }

  lemma {:induction false} ExitsInWindow(
      q: TradeRequest, cs: seq<Candle>, batches: seq<Batch>, fee: real, slippage: real)
    requires Triggers(q, cs, batches) && ValidRequest(q) && ValidBatches(batches) && CoversWindow(q, cs)
    requires q.armed.expiresAt % MINUTE == 0
    ensures var g := LaunchOf(q, cs, batches, fee, slippage);
            RunOf(g, cs).Exited? && RunOf(g, cs).time < g.x.deadline + MINUTE
  {
    hide Positions, Complete, ArmedFrom;
    var g := LaunchOf(q, cs, batches, fee, slippage);
    TriggeredShape(q.armed, cs, g.table, 0, 0, 0);
    LaunchArrives(q, cs, batches, fee, slippage);
    var entryTime, open := g.x.armed.events[0].time, g.x.armed.entryCandleOpen.value;
    assert open < q.armed.expiresAt && open % MINUTE == 0 && entryTime < open + MINUTE;
    assert entryTime < q.armed.expiresAt;
    RequestEndIsLastDeadline(q.armed.expiresAt, q.maxHoldingBars, entryTime);
    DeadlineAligned(entryTime, q.maxHoldingBars);
    var k := OnGrid(cs, g.entryIndex, g.x.deadline);
    WalkExitsByDeadline(g.x, Initial(g.x.armed), cs, g.table, g.entryIndex, g.entryIndex, k);
    var s, stop := RunStops(q, cs, batches, fee, slippage);
    GridIndex(cs, stop, k);
  }

  lemma {:induction false} DeadlineAligned(entryTime: int, holding: int)
    ensures Deadline(entryTime, holding) % MINUTE == 0
  {
  }

  /** A minute at or after candle `i` and before the end of the series opens one of its candles. */
  lemma {:induction false} OnGrid(cs: seq<Candle>, i: nat, time: int) returns (k: nat)
    requires ValidCandles(cs) && i < |cs| && time % MINUTE == 0
    requires cs[i].openTime <= time < cs[|cs| - 1].CloseTime()
    ensures i <= k < |cs| && cs[k].openTime == time
  {
    k := (time - cs[0].openTime) / MINUTE;
    GridIndex(cs, 0, i);
    GridIndex(cs, 0, |cs| - 1);
    assert cs[0].openTime % MINUTE == 0;
    Divides(time, cs[0].openTime);
  }

  lemma {:induction false} Divides(a: int, b: int)
    requires a % MINUTE == 0 && b % MINUTE == 0
    ensures a - b == (a - b) / MINUTE * MINUTE
  {
  }
}
