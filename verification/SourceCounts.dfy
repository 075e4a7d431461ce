/** Which candles a replay looked at, and what it says about its sources. */
module SourceCounts {
  import opened Basics
  import opened Market
  import opened Armed
  import opened Trade
  import opened Shape
  import opened Runs
  import opened ArmedOutcome

  /** The counts of a state that has looked at the candles from `first` up to `i`. */
  predicate Counted(s: State, cs: seq<Candle>, table: Batches, first: nat, i: nat) {
    && first < i <= |cs|
    && s.fallbackCount == WithoutTrades(cs, table, first, i)
    && (s.fallbackCount == 0 ==> s.aggregateUsed)
  }

  lemma {:induction false} StepCounts(x: Setting, s: State, c: Candle, b: Option<Batch>, isEntry: bool)
    requires x.armed.events != [] && (isEntry ==> c.openTime < x.deadline)
    ensures var n := CandleStep(x, s, c, b, isEntry).state;
            if isEntry then n.fallbackCount == s.fallbackCount && n.aggregateUsed == s.aggregateUsed
            else if Complete(b) then n.fallbackCount == s.fallbackCount && n.aggregateUsed
            else n.fallbackCount == s.fallbackCount + 1 && n.aggregateUsed == s.aggregateUsed
  {
    hide CandlePath, DeadlinePath, FillEvents;
  }

  /** Every candle after the entry candle up to the one that exits is counted, and no other. */
  lemma {:induction false} WalkCounts(
      x: Setting, s: State, cs: seq<Candle>, table: Batches, first: nat, i: nat, e: nat) returns (last: nat)
    requires x.armed.events != [] && first <= e < i <= |cs| && Counted(s, cs, table, first, i)
    ensures i <= last && Counted(Walk(x, s, cs, table, i, e).state, cs, table, first, last)
    ensures last == if Walk(x, s, cs, table, i, e).Running? then |cs| else StopIndex(x, s, cs, table, i, e) + 1
    decreases |cs| - i
  {
    hide CandleStep;
    last := i;
    if i < |cs| {
      var b := BatchAt(table, cs[i].openTime);
      var r := CandleStep(x, s, cs[i], b, false);
      StepCounts(x, s, cs[i], b, false);
      if r.Running? {
        last := WalkCounts(x, r.state, cs, table, first, i + 1, e);
      } else {
        last := i + 1;
      }
    }
  }

  lemma {:induction false} RunCounts(x: Setting, s: State, cs: seq<Candle>, table: Batches, first: nat, e: nat)
    returns (last: nat)
    requires x.armed.events != [] && first <= e < |cs| && Counted(s, cs, table, first, e + 1)
    requires cs[e].openTime < x.deadline
    ensures e < last && Counted(Walk(x, s, cs, table, e, e).state, cs, table, first, last)
    ensures last == if Walk(x, s, cs, table, e, e).Running? then |cs| else StopIndex(x, s, cs, table, e, e) + 1
  {
    hide CandleStep;
    var b := BatchAt(table, cs[e].openTime);
    var r := CandleStep(x, s, cs[e], b, true);
    StepCounts(x, s, cs[e], b, true);
    last := e + 1;
    if r.Running? {
      last := WalkCounts(x, r.state, cs, table, first, e + 1, e);
    }
  }

  /** A triggered signal was decided inside the candle it enters on. */
  lemma {:induction false} EntryCounted(q: TradeRequest, cs: seq<Candle>, batches: seq<Batch>, fee: real, slip: real)
    returns (first: nat)
    requires Accepted(q, cs, batches, fee, slip) && Triggers(q, cs, batches)
    ensures var g := LaunchOf(q, cs, batches, fee, slip);
            && Counted(Initial(g.x.armed), cs, g.table, first, g.entryIndex + 1)
            && forall j :: 0 <= j < |cs| ==> (j < first <==> cs[j].openTime < q.armed.confirmationClose)
  {
    hide WithoutTrades;
    var k;
    first, k := ArmedExactly(q.armed, cs, batches);
    var g := LaunchOf(q, cs, batches, fee, slip);
    GridIndex(cs, g.entryIndex, k);
    assert k == g.entryIndex;
  }

  /**
   * The replay counts the candles it looked at that had no complete batch: from the first of the entry window up to
   * the deciding candle, and of a triggered trade up to the one it leaves in. It claims trade ordering exactly when
   * there was no such candle and at least one candle.
   */
  lemma {:induction false} SourcesCounted(
      q: TradeRequest, cs: seq<Candle>, batches: seq<Batch>, fee: real, slip: real) returns (first: nat, last: nat)
    requires Accepted(q, cs, batches, fee, slip)
    ensures BatchTable(cs, batches).Ok?
    ensures forall j :: 0 <= j < |cs| ==> (j < first <==> cs[j].openTime < q.armed.confirmationClose)
    ensures var t := TradeReplay(q, cs, batches, fee, slip).value;
            && first <= last <= |cs|
            && t.fallbackCount == WithoutTrades(cs, BatchTable(cs, batches).value, first, last)
            && t.ordering == (if t.fallbackCount == 0 && first < last then AGG_TRADES else OHLC_ADVERSE)
            && (t.exitTime.Some? ==>
                  first < last && cs[last - 1].openTime <= t.exitTime.value < cs[last - 1].CloseTime())
            && (t.armed.state == TRIGGERED && t.exitTime.None? ==> last == |cs|)
            && (t.armed.state != TRIGGERED ==>
                  t == TradeResult(q, t.armed, None, t.armed.events, 0.0, None, None, None, None, None,
                                   t.armed.ordering, t.armed.fallbackCount))
  {
    hide WithoutTrades, CandleStep, Arrives, Held;
    var t := TradeReplay(q, cs, batches, fee, slip).value;
    AcceptedLaunches(q, cs, batches, fee, slip);
    if t.armed.state == TRIGGERED {
      var g := LaunchOf(q, cs, batches, fee, slip);
      LaunchArrives(q, cs, batches, fee, slip);
      first := EntryCounted(q, cs, batches, fee, slip);
      last := RunCounts(g.x, Initial(g.x.armed), cs, g.table, first, g.entryIndex);
      if RunOf(g, cs).Exited? { ExitInside(q, cs, batches, fee, slip, last); }
    } else {
      var k;
      first, k := ArmedExactly(q.armed, cs, batches);
      last := if k < |cs| && t.armed.state != EXPIRED then k + 1 else k;
    }
  }

  lemma {:induction false} ExitInside(
      q: TradeRequest, cs: seq<Candle>, batches: seq<Batch>, fee: real, slip: real, last: nat)
    requires ValidRequest(q) && ValidBatches(batches) && Triggers(q, cs, batches)
    requires var g := LaunchOf(q, cs, batches, fee, slip);
             && RunOf(g, cs).Exited?
             && last == StopIndex(g.x, Initial(g.x.armed), cs, g.table, g.entryIndex, g.entryIndex) + 1
    ensures 1 <= last <= |cs|
    ensures var time := RunOf(LaunchOf(q, cs, batches, fee, slip), cs).time;
            cs[last - 1].openTime <= time < cs[last - 1].CloseTime()
  {
    hide CandleStep;
    var s, k := RunStops(q, cs, batches, fee, slip);
    assert k == last - 1;
  }
}
