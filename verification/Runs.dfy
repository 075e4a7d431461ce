/** From an accepted replay to its step machine: the facts every whole-run theorem starts from. */
module Runs {
  import opened Basics
  import opened Market
  import opened Armed
  import opened Trade
  import opened Shape

  predicate ValidBatches(batches: seq<Batch>) {
    forall i :: 0 <= i < |batches| ==> ValidBatch(batches[i])
  }

  predicate Triggers(q: TradeRequest, cs: seq<Candle>, batches: seq<Batch>) {
    ArmedReplay(q.armed, cs, batches).Ok? && ArmedReplay(q.armed, cs, batches).value.state == TRIGGERED
  }

  /** A triggered replay about to enter its candle loop. */
  datatype Launch = Launch(x: Setting, table: Batches, entryIndex: nat)

  function LaunchOf(q: TradeRequest, cs: seq<Candle>, batches: seq<Batch>, fee: real, slippage: real): (g: Launch)
    requires Triggers(q, cs, batches)
    ensures |g.x.armed.events| == 1 && g.entryIndex < |cs|
    ensures g.x.armed.entryCandleOpen == Some(cs[g.entryIndex].openTime)
  {
    var a := ArmedReplay(q.armed, cs, batches).value;
    TriggeredShape(q.armed, cs, BatchTable(cs, batches).value, 0, 0, 0);
    Launch(SettingOf(q, a, fee, slippage), BatchTable(cs, batches).value, Positions(cs)[a.entryCandleOpen.value])
  }

  function RunOf(g: Launch, cs: seq<Candle>): Run
    requires |g.x.armed.events| == 1 && g.entryIndex < |cs|
  {
    Walk(g.x, Initial(g.x.armed), cs, g.table, g.entryIndex, g.entryIndex)
  }

  predicate Accepted(q: TradeRequest, cs: seq<Candle>, batches: seq<Batch>, fee: real, slippage: real) {
    ValidRequest(q) && ValidBatches(batches) && TradeReplay(q, cs, batches, fee, slippage).Ok?
  }

  /** An accepted triggered replay is the run of its launch. */
  lemma {:induction false} AcceptedLaunches(
      q: TradeRequest, cs: seq<Candle>, batches: seq<Batch>, fee: real, slippage: real)
    requires TradeReplay(q, cs, batches, fee, slippage).Ok?
    ensures var t := TradeReplay(q, cs, batches, fee, slippage).value;
            && ArmedReplay(q.armed, cs, batches).Ok? && t.armed == ArmedReplay(q.armed, cs, batches).value
            && ValidCandles(cs) && BatchTable(cs, batches).Ok?
            && (t.armed.state == TRIGGERED ==>
                  var g := LaunchOf(q, cs, batches, fee, slippage);
                  && Triggers(q, cs, batches)
                  && t == ResultOf(g.x, RunOf(g, cs))
                  && BreakevenOrdered(g.x.levels) && ValidRates(fee, slippage))
            && (t.armed.state != TRIGGERED ==> t == Untriggered(q, t.armed))
  {
  }

  /** Where the entry stands: inside its candle, and inside a complete batch unless at the open. */
  lemma {:induction false} EntryStands(
      r: ArmedRequest, cs: seq<Candle>, table: Batches, i: nat, fallback: nat, aggregate: nat)
    requires ValidCandles(cs) && i <= |cs|
    requires forall t :: t in table ==> ValidBatch(table[t]) && table[t].openTime == t
    ensures var a := ArmedFrom(r, cs, table, i, fallback, aggregate);
            a.state == TRIGGERED ==>
              && a.entryCandleOpen.Some? && |a.events| == 1
              && a.entryCandleOpen.value <= a.events[0].time < a.entryCandleOpen.value + MINUTE
              && (Complete(BatchAt(table, a.entryCandleOpen.value)) || a.events[0].time == a.entryCandleOpen.value)
    decreases |cs| - i
  {
    if i < |cs| {
      var c := cs[i];
      var b := BatchAt(table, c.openTime);
      var fallback' := if Complete(b) then fallback else fallback + 1;
      var aggregate' := if Complete(b) then aggregate + 1 else aggregate;
      if c.openTime < r.confirmationClose {
        EntryStands(r, cs, table, i + 1, fallback, aggregate);
      } else if c.openTime < r.expiresAt {
        if Complete(b) {
          OrderedFacts(b.value.trades);
          EnteringTrades(r, Ordered(b.value.trades));
        }
        if Decide(r, c, b).Wait? { EntryStands(r, cs, table, i + 1, fallback', aggregate'); }
      }
    }
  }

  lemma {:induction false} TableBatchesValid(cs: seq<Candle>, batches: seq<Batch>)
    requires ValidCandles(cs) && BatchTable(cs, batches).Ok? && ValidBatches(batches)
    ensures ValidTable(cs, BatchTable(cs, batches).value)
    ensures forall t :: t in BatchTable(cs, batches).value ==> ValidBatch(BatchTable(cs, batches).value[t])
  {
    BuiltTableValid(cs, batches);
    BatchTableExact(cs, batches);
    var table := BatchTable(cs, batches).value;
    forall t | t in table ensures ValidBatch(table[t]) {
      var i :| 0 <= i < |batches| && batches[i] == table[t];
    }
  }

  lemma {:induction false} GridIndex(cs: seq<Candle>, i: nat, j: nat)
    requires ValidCandles(cs) && i < |cs| && j < |cs|
    ensures cs[j].openTime - cs[i].openTime == (j - i) * MINUTE
  {
  }

  /** Every candle from the entry on arrives as the step invariant expects. */
  lemma {:induction false} LaunchArrives(
      q: TradeRequest, cs: seq<Candle>, batches: seq<Batch>, fee: real, slippage: real)
    requires Triggers(q, cs, batches) && ValidRequest(q) && ValidBatches(batches)
    ensures var g := LaunchOf(q, cs, batches, fee, slippage);
            && cs[g.entryIndex].openTime < g.x.deadline
            && g.x.armed.events[0].signalId == q.armed.signalId
            && g.x.armed.events[0].eventType == EntryFill
            && g.x.armed.events[0].fraction == Some(1.0)
            && g.x.armed.events[0].price == g.x.armed.entryPrice
            && g.x.armed.entryPrice.Some?
            && g.x.armed.entryTime == Some(g.x.armed.events[0].time)
            && forall i :: g.entryIndex <= i < |cs| ==>
                 Arrives(g.x, cs[i], BatchAt(g.table, cs[i].openTime), i == g.entryIndex)
  {
    hide Complete;
    var g := LaunchOf(q, cs, batches, fee, slippage);
    TableBatchesValid(cs, batches);
    TriggeredShape(q.armed, cs, g.table, 0, 0, 0);
    EntryStands(q.armed, cs, g.table, 0, 0, 0);
    var e := g.x.armed.events[0];
    assert e.time - e.time % QUARTER > e.time - QUARTER;
    forall i | g.entryIndex <= i < |cs|
      ensures Arrives(g.x, cs[i], BatchAt(g.table, cs[i].openTime), i == g.entryIndex)
    {
      GridIndex(cs, g.entryIndex, i);
    }
  }

  lemma {:induction false} WalkKeeps(x: Setting, s: State, cs: seq<Candle>, table: Batches, i: nat, entryIndex: nat)
    requires ValidCandles(cs) && entryIndex <= i <= |cs| && |x.armed.events| == 1
    requires forall k :: i <= k < |cs| ==> Arrives(x, cs[k], BatchAt(table, cs[k].openTime), k == entryIndex)
    requires HeldAt(x, s, cs, i, entryIndex)
    requires i < |cs| || i > entryIndex
    ensures match Walk(x, s, cs, table, i, entryIndex)
            case Running(s') => Held(x, s', cs[0].openTime + |cs| * MINUTE)
            case Exited(s', _, why, time) => ClosedLog(x, s'.events, why, time)
    decreases |cs| - i
  {
    if i < |cs| {
      var c := cs[i];
      StepKeeps(x, s, c, BatchAt(table, c.openTime), i == entryIndex);
      var r := CandleStep(x, s, c, BatchAt(table, c.openTime), i == entryIndex);
      if r.Running? {
        WalkKeeps(x, r.state, cs, table, i + 1, entryIndex);
      }
    }
  }

  /** Every accepted triggered replay ends either on a held position or with a closed log. */
  lemma {:induction false} RunKeeps(q: TradeRequest, cs: seq<Candle>, batches: seq<Batch>, fee: real, slippage: real)
    requires Triggers(q, cs, batches) && ValidRequest(q) && ValidBatches(batches)
    ensures var g := LaunchOf(q, cs, batches, fee, slippage);
            match RunOf(g, cs)
            case Running(s) => Held(g.x, s, cs[0].openTime + |cs| * MINUTE)
            case Exited(s, _, why, time) => ClosedLog(g.x, s.events, why, time)
  {
    var g := LaunchOf(q, cs, batches, fee, slippage);
    LaunchArrives(q, cs, batches, fee, slippage);
    WalkKeeps(g.x, Initial(g.x.armed), cs, g.table, g.entryIndex, g.entryIndex);
  }

  predicate EntryOfOne(x: Setting) {
    |x.armed.events| == 1 && x.armed.events[0].eventType == EntryFill && x.armed.events[0].fraction == Some(1.0)
    && x.armed.events[0].price.Some?
  }

  /** The log of an accepted triggered replay: open, or closed with its reason and time. */
  lemma {:induction false} LaunchedLog(q: TradeRequest, cs: seq<Candle>, batches: seq<Batch>, fee: real, slippage: real)
    requires ValidRequest(q) && ValidBatches(batches) && Triggers(q, cs, batches)
    ensures var g := LaunchOf(q, cs, batches, fee, slippage);
            var t := ResultOf(g.x, RunOf(g, cs));
            && EntryOfOne(g.x)
            && match RunOf(g, cs)
               case Running(_) => OpenLog(g.x, t.events) && t.position != Some(FLAT)
               case Exited(_, _, why, time) =>
                 && ClosedLog(g.x, t.events, why, time)
                 && t.position == Some(FLAT) && t.exitReason == Some(why) && t.exitTime == Some(time)
  {
    RunKeeps(q, cs, batches, fee, slippage);
    LaunchArrives(q, cs, batches, fee, slippage);
  }

  // ----- Where a run stops ------------------------------------------------------------------

  /** The candle at which the walk exits, or the length of the series if it does not. */
  function StopIndex(x: Setting, s: State, cs: seq<Candle>, table: Batches, i: nat, entryIndex: nat): (k: nat)
    requires x.armed.events != [] && i <= |cs|
    ensures i <= k <= |cs|
    decreases |cs| - i
  {
    if i == |cs| then i
    else
      match CandleStep(x, s, cs[i], BatchAt(table, cs[i].openTime), i == entryIndex)
      case Exited(_, _, _, _) => i
      case Running(s') => StopIndex(x, s', cs, table, i + 1, entryIndex)
  }

  /** The state in which the walk meets the candle it stops at. */
  function LastState(x: Setting, s: State, cs: seq<Candle>, table: Batches, i: nat, entryIndex: nat): State
    requires x.armed.events != [] && i <= |cs|
    decreases |cs| - i
  {
    if i == |cs| then s
    else
      match CandleStep(x, s, cs[i], BatchAt(table, cs[i].openTime), i == entryIndex)
      case Exited(_, _, _, _) => s
      case Running(s') => LastState(x, s', cs, table, i + 1, entryIndex)
  }

  /** A walk that exits is its last step. */
  lemma {:induction false} WalkIsLastStep(
      x: Setting, s: State, cs: seq<Candle>, table: Batches, i: nat, entryIndex: nat)
    requires |x.armed.events| == 1 && i <= |cs|
    ensures var k := StopIndex(x, s, cs, table, i, entryIndex);
            var last := LastState(x, s, cs, table, i, entryIndex);
            Walk(x, s, cs, table, i, entryIndex) ==
            if k == |cs| then Running(last)
            else CandleStep(x, last, cs[k], BatchAt(table, cs[k].openTime), k == entryIndex)
    ensures var k := StopIndex(x, s, cs, table, i, entryIndex);
            Walk(x, s, cs, table, i, entryIndex).Exited? <==> k < |cs|
    decreases |cs| - i
  {
    if i < |cs| {
      var r := CandleStep(x, s, cs[i], BatchAt(table, cs[i].openTime), i == entryIndex);
      if r.Running? {
        WalkIsLastStep(x, r.state, cs, table, i + 1, entryIndex);
        assert StopIndex(x, s, cs, table, i, entryIndex) == StopIndex(x, r.state, cs, table, i + 1, entryIndex);
        assert LastState(x, s, cs, table, i, entryIndex) == LastState(x, r.state, cs, table, i + 1, entryIndex);
        assert Walk(x, s, cs, table, i, entryIndex) == Walk(x, r.state, cs, table, i + 1, entryIndex);
      }
    }
  }

  /** Up to the candle it stops at the walk is still running, in the state in which it meets that candle. */
  lemma {:induction false} WalkToStop(x: Setting, s: State, cs: seq<Candle>, table: Batches, i: nat, entryIndex: nat)
    requires x.armed.events != [] && i <= |cs|
    ensures var k := StopIndex(x, s, cs, table, i, entryIndex);
            Walk(x, s, cs[..k], table, i, entryIndex) == Running(LastState(x, s, cs, table, i, entryIndex))
    decreases |cs| - i
  {
    hide CandleStep;
    if i < |cs| {
      var r := CandleStep(x, s, cs[i], BatchAt(table, cs[i].openTime), i == entryIndex);
      if r.Running? { WalkToStop(x, r.state, cs, table, i + 1, entryIndex); }
    }
  }

  lemma {:induction false} DeadlineStepExits(x: Setting, s: State, c: Candle, b: Option<Batch>, isEntry: bool)
    requires |x.armed.events| == 1
    ensures CandleStep(x, s, c, b, isEntry).Running? ==> c.openTime < x.deadline
  {
  }

  /** Every candle walked through without exit opened before the deadline. */
  lemma {:induction false} PassedBeforeDeadline(
      x: Setting, s: State, cs: seq<Candle>, table: Batches, i: nat, entryIndex: nat)
    requires |x.armed.events| == 1 && i <= |cs|
    ensures forall j :: i <= j < StopIndex(x, s, cs, table, i, entryIndex) ==> cs[j].openTime < x.deadline
    decreases |cs| - i
  {
    if i < |cs| {
      var r := CandleStep(x, s, cs[i], BatchAt(table, cs[i].openTime), i == entryIndex);
      if r.Running? {
        DeadlineStepExits(x, s, cs[i], BatchAt(table, cs[i].openTime), i == entryIndex);
        PassedBeforeDeadline(x, r.state, cs, table, i + 1, entryIndex);
      }
    }
  }

  /** A state between candles `i - 1` and `i` of a run from `entryIndex`. */
  predicate HeldAt(x: Setting, s: State, cs: seq<Candle>, i: nat, entryIndex: nat)
    requires cs != []
  {
    if i == entryIndex then s == Initial(x.armed) else Held(x, s, cs[0].openTime + i * MINUTE)
  }

  lemma {:induction false} LastStateHeld(x: Setting, s: State, cs: seq<Candle>, table: Batches, i: nat, entryIndex: nat)
    requires ValidCandles(cs) && entryIndex <= i <= |cs| && |x.armed.events| == 1
    requires forall k :: i <= k < |cs| ==> Arrives(x, cs[k], BatchAt(table, cs[k].openTime), k == entryIndex)
    requires HeldAt(x, s, cs, i, entryIndex)
    ensures HeldAt(x, LastState(x, s, cs, table, i, entryIndex), cs, StopIndex(x, s, cs, table, i, entryIndex),
      entryIndex)
    decreases |cs| - i
  {
    if i < |cs| {
      var c := cs[i];
      var b := BatchAt(table, c.openTime);
      StepKeeps(x, s, c, b, i == entryIndex);
      if CandleStep(x, s, c, b, i == entryIndex).Running? {
        LastStateHeld(x, CandleStep(x, s, c, b, i == entryIndex).state, cs, table, i + 1, entryIndex);
      }
    }
  }

  /** The step that closes a run: candle `k`, met in a held state, no candle before it past the deadline. */
  predicate ClosingStep(g: Launch, cs: seq<Candle>, s: State, k: nat) {
    && ValidCandles(cs) && |g.x.armed.events| == 1 && g.entryIndex <= k < |cs|
    && var b := BatchAt(g.table, cs[k].openTime);
       && Arrives(g.x, cs[k], b, k == g.entryIndex)
       && HeldAt(g.x, s, cs, k, g.entryIndex)
       && (k != g.entryIndex ==> Held(g.x, s, cs[k].openTime))
       && RunOf(g, cs) == CandleStep(g.x, s, cs[k], b, k == g.entryIndex)
       && RunOf(g, cs).Exited?
       && cs[k].openTime <= RunOf(g, cs).time < cs[k].CloseTime()
       && Walk(g.x, Initial(g.x.armed), cs[..k], g.table, g.entryIndex, g.entryIndex) == Running(s)
       && forall j :: 0 <= j < k ==> cs[j].openTime < g.x.deadline
  }

  /** Every run that exits has its closing step. */
  lemma {:induction false} RunStops(
      q: TradeRequest, cs: seq<Candle>, batches: seq<Batch>, fee: real, slippage: real) returns (s: State, k: nat)
    requires ValidRequest(q) && ValidBatches(batches) && Triggers(q, cs, batches)
    requires RunOf(LaunchOf(q, cs, batches, fee, slippage), cs).Exited?
    ensures ClosingStep(LaunchOf(q, cs, batches, fee, slippage), cs, s, k)
    ensures var g := LaunchOf(q, cs, batches, fee, slippage);
            k == StopIndex(g.x, Initial(g.x.armed), cs, g.table, g.entryIndex, g.entryIndex)
  {
    hide CandleStep, LaunchOf;
    var g := LaunchOf(q, cs, batches, fee, slippage);
    var s0 := Initial(g.x.armed);
    LaunchArrives(q, cs, batches, fee, slippage);
    k := StopIndex(g.x, s0, cs, g.table, g.entryIndex, g.entryIndex);
    s := LastState(g.x, s0, cs, g.table, g.entryIndex, g.entryIndex);
    WalkIsLastStep(g.x, s0, cs, g.table, g.entryIndex, g.entryIndex);
    WalkToStop(g.x, s0, cs, g.table, g.entryIndex, g.entryIndex);
    PassedBeforeDeadline(g.x, s0, cs, g.table, g.entryIndex, g.entryIndex);
    LastStateHeld(g.x, s0, cs, g.table, g.entryIndex, g.entryIndex);
    StepKeeps(g.x, s, cs[k], BatchAt(g.table, cs[k].openTime), k == g.entryIndex);
    forall j | 0 <= j < k ensures cs[j].openTime < g.x.deadline {
      GridIndex(cs, j, g.entryIndex);
    }
  }
}
