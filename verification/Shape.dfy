/** Every event log a triggered replay can produce: the invariant of the step machine. */
module Shape {
  import opened Basics
  import opened Sorting
  import opened Market
  import opened Armed
  import opened Trade
  import opened Replay

  // ----- Shapes of price paths ---------------------------------------------------------

  predicate IsTp1(l: Levels, f: Fill) { f == Tp1At(l, f.time, f.ref, f.source) }

  predicate IsTp2(l: Levels, f: Fill) { f == Tp2At(l, f.time, f.ref, f.source) }

  predicate IsStop(l: Levels, f: Fill) { f == StopAt(l, f.time, f.ref, f.source) }

  predicate IsHalfStop(l: Levels, active: bool, f: Fill) { f == HalfStopFill(l, active, f.time, f.ref, f.source) }

  predicate Within(fills: seq<Fill>, lo: int, hi: int) {
    && (forall i :: 0 <= i < |fills| ==> lo <= fills[i].time < hi)
    && (forall i, j :: 0 <= i < j < |fills| ==> fills[i].time <= fills[j].time)
  }

  /** FULL and HALF as they can stand when prices are about to be applied. */
  predicate Poised(leg: Leg, active: bool) {
    || (leg == Leg(FULL, None) && !active)
    || (leg.position == HALF_AFTER_TP1 && leg.activation.Some?)
  }

  /** What a path from `leg` may look like: at most TP1 and one closing fill, in time order. */
  predicate PathShape(l: Levels, leg: Leg, active: bool, p: Path, lo: int, hi: int, close: int) {
    var f := p.fills;
    && Within(f, lo, hi)
    && match p
       case Open(_, leg') =>
         || (f == [] && leg' == leg)
         || (leg.position == FULL && |f| == 1 && IsTp1(l, f[0]) && leg' == Leg(HALF_AFTER_TP1, Some(close)))
       case Shut(_, why, _) =>
         if leg.position == HALF_AFTER_TP1 then
           |f| == 1 && ((IsHalfStop(l, active, f[0]) && why == HalfStopReason(active))
             || (IsTp2(l, f[0]) && why == TP2))
         else
           || (|f| == 1 && IsStop(l, f[0]) && why == SL)
           || (|f| == 2 && IsTp1(l, f[0])
             && ((IsHalfStop(l, false, f[1]) && why == SL) || (IsTp2(l, f[1]) && why == TP2)))
  }

  lemma {:induction false} TickShape(l: Levels, leg: Leg, active: bool, t: AggTrade, lo: int, hi: int, close: int)
    requires Poised(leg, active) && lo <= t.time < hi
    ensures var p := Tick(l, leg, active, t, close);
            && PathShape(l, leg, active, p, lo, hi, close)
            && (forall i :: 0 <= i < |p.fills| ==> p.fills[i].time == t.time)
            && (p.Open? ==> Poised(p.leg, active))
  {
  }

  /** A shaped path still open at `mid`, continued by a shaped path, is shaped. */
  lemma {:induction false} PrependShape(
      l: Levels, leg: Leg, active: bool, p: Path, rest: Path, lo: int, mid: int, hi: int, close: int)
    requires Poised(leg, active) && p.Open? && lo <= mid
    requires PathShape(l, leg, active, p, lo, hi, close)
    requires forall i :: 0 <= i < |p.fills| ==> p.fills[i].time == mid
    requires PathShape(l, p.leg, active, rest, mid, hi, close)
    ensures PathShape(l, leg, active, Prepend(p.fills, rest), lo, hi, close)
  {
  }

  lemma {:induction false} TicksShape(
      l: Levels, leg: Leg, active: bool, trades: seq<AggTrade>, lo: int, hi: int, close: int)
    requires Poised(leg, active) && Ascending(TradeLeq, trades)
    requires forall i :: 0 <= i < |trades| ==> lo <= trades[i].time < hi
    ensures PathShape(l, leg, active, Ticks(l, leg, active, trades, close), lo, hi, close)
    decreases |trades|
  {
    if trades != [] {
      var t, rest := trades[0], trades[1..];
      var p := Tick(l, leg, active, t, close);
      TickShape(l, leg, active, t, lo, hi, close);
      if p.Open? {
        forall i | 0 <= i < |rest| ensures t.time <= rest[i].time < hi {
          assert rest[i] == trades[i + 1];
          assert TradeLeq(t, trades[i + 1]);
        }
        TicksShape(l, p.leg, active, rest, t.time, hi, close);
        PrependShape(l, leg, active, p, Ticks(l, p.leg, active, rest, close), lo, t.time, hi, close);
      }
    }
  }

  lemma {:induction false} BarShape(l: Levels, leg: Leg, active: bool, forceStop: bool, c: Candle)
    requires Poised(leg, active)
    ensures PathShape(l, leg, active, Bar(l, leg, active, forceStop, c), c.openTime, c.CloseTime(), c.CloseTime())
  {
  }

  lemma {:induction false} RiskBarShape(l: Levels, leg: Leg, active: bool, c: Candle, activation: Option<int>)
    requires Poised(leg, active)
    ensures var k := RiskBar(l, leg.position, active, c);
            k.RiskExit? ==> PathShape(l, leg, active, Shut(k.fills, k.reason, activation), c.openTime, c.CloseTime(),
              c.CloseTime())
  {
  }

  // ----- Shapes of logs ------------------------------------------------------------------

  predicate IsFillEvent(x: Setting, e: ReplayEvent, t: EventType, why: Reason, price: real, fraction: real) {
    e == ReplayEvent(x.request.armed.signalId, t, e.time, e.source, e.ref, why, Some(price), Some(fraction))
  }

  predicate InTimeOrder(events: seq<ReplayEvent>) {
    forall i, j :: 0 <= i < j < |events| ==> events[i].time <= events[j].time
  }

  /** The log up to its last fill: the entry, then TP1, then the activation of the breakeven stop. */
  predicate OpenLog(x: Setting, events: seq<ReplayEvent>) {
    var id := x.request.armed.signalId;
    && |x.armed.events| == 1
    && 1 <= |events| <= 3
    && events[0] == x.armed.events[0]
    && (|events| > 1 ==> IsFillEvent(x, events[1], Tp1Fill, Tp1Target, x.levels.tp1, 0.5))
    && (|events| > 2 ==> events[2] == ActivationEvent(id, events[2].time, x.levels.breakeven))
    && InTimeOrder(events)
  }

  /** The fill that closes a position: `half` after TP1, `active` once the breakeven stop counts. */
  predicate ClosingFill(x: Setting, e: ReplayEvent, why: ExitReason, half: bool, active: bool) {
    var rest := if half then 0.5 else 1.0;
    match why
    case SL => !active && IsFillEvent(x, e, StopFill, InitialStop, x.levels.stop, rest)
    case BREAKEVEN_AFTER_TP1 => half && active && IsFillEvent(x, e, StopFill, BreakevenStop, x.levels.breakeven, 0.5)
    case TP2 => half && IsFillEvent(x, e, Tp2Fill, Tp2Target, x.levels.tp2, 0.5)
    case TIME_EXIT =>
      half == active && e.price.Some? && IsFillEvent(x, e, TimeExit, MaxHoldingReached, e.price.value, rest)
  }

  /** A whole closed log: an open log, its closing fill, and CLOSED. */
  predicate ClosedLog(x: Setting, events: seq<ReplayEvent>, why: ExitReason, time: int) {
    var n := |events|;
    && 3 <= n <= 5
    && OpenLog(x, events[..n - 2])
    && ClosingFill(x, events[n - 2], why, n > 3, n == 5)
    && events[n - 1] == events[n - 2].(eventType := ClosedEvent, fraction := None)
    && events[n - 2].time == time
    && InTimeOrder(events)
  }

  /** Between candles: the state is the one its log tells, and a pending breakeven stop is due by `open`. */
  predicate Held(x: Setting, s: State, open: int) {
    && OpenLog(x, s.events)
    && s.events[|s.events| - 1].time <= open
    && match s.leg.position
       case FULL => s.leg.activation == None && !s.active && |s.events| == 1
       case HALF_AFTER_TP1 =>
         && s.leg.activation.Some? && s.leg.activation.value <= open
         && |s.events| == (if s.active then 3 else 2)
         && (if s.active then s.events[2].time == s.leg.activation.value
             else s.events[1].time <= s.leg.activation.value)
       case FLAT => false
  }

  /** What a candle brings: a batch of its own minute, and the entry before it or inside it. */
  predicate Arrives(x: Setting, c: Candle, b: Option<Batch>, isEntry: bool) {
    && |x.armed.events| == 1
    && (b.Some? ==> ValidBatch(b.value) && b.value.openTime == c.openTime)
    && var e := x.armed.events[0];
       if isEntry then
         && c.openTime <= e.time < c.CloseTime()
         && c.openTime < x.deadline
         && (Complete(b) || e.time == c.openTime)
       else e.time <= c.openTime
  }

  lemma {:induction false} AfterEntryFacts(e: ReplayEvent, trades: seq<AggTrade>)
    requires Ascending(TradeLeq, trades)
    ensures Ascending(TradeLeq, TradesAfterEntry(e, trades))
    ensures forall t :: t in TradesAfterEntry(e, trades) ==> t in trades && e.time <= t.time
  {
    if trades != [] {
      var rest := TradesAfterEntry(e, trades[1..]);
      AfterEntryFacts(e, trades[1..]);
      assert forall t :: t in trades[1..] ==> t in trades && TradeLeq(trades[0], t);
      assert trades[0] in trades;
    }
  }

  /** Once the breakeven stop has had its chance to activate, HALF and active are the same thing. */
  lemma {:induction false} HalfMeansActive(x: Setting, s: State, open: int)
    requires Held(x, s, open)
    ensures var s1 := Activate(x, s, open);
            Held(x, s1, open) && Poised(s1.leg, s1.active) && (s1.leg.position == HALF_AFTER_TP1 <==> s1.active)
  {
  }

  /** The path of an ordinary candle. */
  lemma {:induction false} CandlePathShape(x: Setting, s: State, c: Candle, b: Option<Batch>, isEntry: bool)
    requires Arrives(x, c, b, isEntry) && Poised(s.leg, s.active)
    ensures var lo := if isEntry then x.armed.events[0].time else c.openTime;
            PathShape(x.levels, s.leg, s.active, CandlePath(x, s, c, b, isEntry), lo, c.CloseTime(), c.CloseTime())
  {
    var e := x.armed.events[0];
    if Complete(b) {
      OrderedFacts(b.value.trades);
      AfterEntryFacts(e, Ordered(b.value.trades));
      var trades := CandleTrades(e, b.value, isEntry);
      var lo := if isEntry then e.time else c.openTime;
      assert forall i :: 0 <= i < |trades| ==> trades[i] in trades;
      TicksShape(x.levels, s.leg, s.active, trades, lo, c.CloseTime(), c.CloseTime());
    } else {
      BarShape(x.levels, s.leg, s.active, isEntry && x.armed.stopAlsoTouched, c);
    }
  }

  lemma {:induction false} TicksNeverFlat(l: Levels, leg: Leg, active: bool, trades: seq<AggTrade>, close: int)
    requires leg.position != FLAT
    ensures var p := Ticks(l, leg, active, trades, close); p.Open? ==> p.leg.position != FLAT
    decreases |trades|
  {
    if trades != [] {
      var p := Tick(l, leg, active, trades[0], close);
      if p.Open? { TicksNeverFlat(l, p.leg, active, trades[1..], close); }
    }
  }

  /** A candle that leaves a position running does not leave it flat. */
  lemma {:induction false} StepNeverFlat(x: Setting, s: State, c: Candle, b: Option<Batch>, isEntry: bool)
    requires x.armed.events != [] && s.leg.position != FLAT
    ensures var r := CandleStep(x, s, c, b, isEntry); r.Running? ==> r.state.leg.position != FLAT
  {
    hide DeadlinePath;
    if Complete(b) {
      TicksNeverFlat(x.levels, s.leg, Activate(x, s, c.openTime).active,
                     CandleTrades(x.armed.events[0], b.value, isEntry), c.CloseTime());
    }
  }

  /** Following a path appends to the log. */
  lemma {:induction false} FollowAppends(x: Setting, s: State, p: Path)
    requires p.Shut? ==> p.fills != []
    ensures s.events <= Follow(x, s, p).state.events
  {
    hide FillEvents, FillEvent, ClosedBy;
  }

  /** A candle appends to the log: first the activation, if it is due, then the fills. */
  lemma {:induction false} StepAppends(x: Setting, s: State, c: Candle, b: Option<Batch>, isEntry: bool)
    requires x.armed.events != []
    ensures s.events <= Activate(x, s, c.openTime).events <= CandleStep(x, s, c, b, isEntry).state.events
  {
    hide Follow, CandlePath, DeadlinePath, ActivationEvent;
    var s1 := Activate(x, s, c.openTime);
    assert s.events <= s1.events;
    FollowAppends(x, CountSource(s1, b), DeadlinePath(x, s1, c, b));
    FollowAppends(x, if isEntry then s1 else CountSource(s1, b), CandlePath(x, s1, c, b, isEntry));
  }

  /** A trade does to a leg without its activation time what it does to the leg, but for that time. */
  lemma {:induction false} TickIgnoresActivation(l: Levels, leg: Leg, active: bool, t: AggTrade, close: int)
    ensures var p, q := Tick(l, leg, active, t, close), Tick(l, Leg(leg.position, None), active, t, close);
            && p.fills == q.fills
            && (p.Shut? <==> q.Shut?)
            && (p.Shut? ==> p.reason == q.reason)
            && (p.Open? ==> (p.leg == leg && q.leg == Leg(leg.position, None)) || p.leg == q.leg)
  {
  }

  /** The risk path forgets the activation time; its fills do not depend on it. */
  lemma {:induction false} TicksIgnoreActivation(l: Levels, leg: Leg, active: bool, trades: seq<AggTrade>, close: int)
    ensures RiskOf(Ticks(l, Leg(leg.position, None), active, trades, close)) ==
      RiskOf(Ticks(l, leg, active, trades, close))
    decreases |trades|
  {
    hide Tick;
    if trades != [] {
      TickIgnoresActivation(l, leg, active, trades[0], close);
      if Tick(l, leg, active, trades[0], close).Open? { TicksIgnoreActivation(l, leg, active, trades[1..], close); }
    }
  }

  /** A deadline's closing risk path is shaped. */
  lemma {:induction false} RiskPathShape(x: Setting, s: State, c: Candle, b: Option<Batch>)
    requires Arrives(x, c, b, false) && Poised(s.leg, s.active)
    ensures var k := RiskPath(x.levels, s.leg.position, s.active, c, b);
            k.RiskExit? ==>
              PathShape(x.levels, s.leg, s.active, Shut(k.fills, k.reason, s.leg.activation), c.openTime,
                c.CloseTime(), c.CloseTime())
  {
    if Complete(b) {
      OrderedFacts(b.value.trades);
      var trades := Ordered(b.value.trades);
      assert forall i :: 0 <= i < |trades| ==> trades[i] in trades;
      TicksShape(x.levels, s.leg, s.active, trades, c.openTime, c.CloseTime(), c.CloseTime());
      TicksIgnoreActivation(x.levels, s.leg, s.active, trades, c.CloseTime());
    } else {
      RiskBarShape(x.levels, s.leg, s.active, c, s.leg.activation);
    }
  }

  /** The path of the deadline candle: a shaped risk path, or the time exit. */
  lemma {:induction false} DeadlinePathShape(x: Setting, s: State, c: Candle, b: Option<Batch>)
    requires Arrives(x, c, b, false) && Poised(s.leg, s.active)
    ensures var p := DeadlinePath(x, s, c, b);
            || p == Shut([TimeFill(s.leg.position, c)], TIME_EXIT, s.leg.activation)
            || PathShape(x.levels, s.leg, s.active, p, c.openTime, c.CloseTime(), c.CloseTime())
  {
    RiskPathShape(x, s, c, b);
  }

  // ----- The invariant ------------------------------------------------------------------

  lemma {:induction false} FillEventsAt(id: string, fills: seq<Fill>)
    requires 1 <= |fills| <= 2
    ensures |fills| == 1 ==> FillEvents(id, fills) == [FillEvent(id, fills[0])]
    ensures |fills| == 2 ==> FillEvents(id, fills) == [FillEvent(id, fills[0]), FillEvent(id, fills[1])]
  {
    FillEventsSmall(id, fills[0], fills[|fills| - 1]);
    assert fills == if |fills| == 1 then [fills[0]] else [fills[0], fills[1]];
  }

  /** An open log, its closing fill and CLOSED make a closed log. */
  lemma {:induction false} ClosesLog(x: Setting, open: seq<ReplayEvent>, f: ReplayEvent, why: ExitReason)
    requires OpenLog(x, open) && open[|open| - 1].time <= f.time
    requires ClosingFill(x, f, why, |open| > 1, |open| == 3)
    ensures ClosedLog(x, open + [f] + [f.(eventType := ClosedEvent, fraction := None)], why, f.time)
  {
  }

  lemma {:induction false} Tp1OpensLog(x: Setting, s: State, f: Fill, lo: int, close: int)
    requires Held(x, s, lo) && s.leg.position == FULL && IsTp1(x.levels, f) && lo <= f.time < close
    ensures var ev := s.events + [FillEvent(x.request.armed.signalId, f)];
            && OpenLog(x, ev) && |ev| == 2
            && Held(x, s.(leg := Leg(HALF_AFTER_TP1, Some(close)), events := ev), close)
  {
  }

  lemma {:induction false} FollowOpenKeeps(x: Setting, s: State, p: Path, lo: int, close: int)
    requires Held(x, s, lo) && lo <= close && p.Open?
    requires PathShape(x.levels, s.leg, s.active, p, lo, close, close)
    ensures Follow(x, s, p).Running? && Held(x, Follow(x, s, p).state, close)
  {
    var id := x.request.armed.signalId;
    if p.fills == [] {
      assert s.events + FillEvents(id, p.fills) == s.events;
    } else {
      FillEventsAt(id, p.fills);
      Tp1OpensLog(x, s, p.fills[0], lo, close);
    }
  }

  lemma {:induction false} FollowShutCloses(x: Setting, s: State, p: Path, lo: int, close: int)
    requires Held(x, s, lo) && (s.leg.position == HALF_AFTER_TP1 <==> s.active) && p.Shut?
    requires PathShape(x.levels, s.leg, s.active, p, lo, close, close)
    ensures p.fills != []
    ensures var r := Follow(x, s, p);
            r.Exited? && ClosedLog(x, r.state.events, r.reason, r.time) && lo <= r.time < close
  {
    hide ClosedLog, OpenLog;
    var id := x.request.armed.signalId;
    FillEventsAt(id, p.fills);
    if |p.fills| == 1 {
      ClosesLog(x, s.events, FillEvent(id, p.fills[0]), p.reason);
    } else {
      var ev := s.events + [FillEvent(id, p.fills[0])];
      Tp1OpensLog(x, s, p.fills[0], lo, close);
      ClosesLog(x, ev, FillEvent(id, p.fills[1]), p.reason);
      assert s.events + FillEvents(id, p.fills) == ev + [FillEvent(id, p.fills[1])];
    }
  }

  /** Following a shaped path from a held state holds the next state or closes the log. */
  lemma {:induction false} FollowKeeps(x: Setting, s: State, p: Path, lo: int, close: int)
    requires Held(x, s, lo) && (s.leg.position == HALF_AFTER_TP1 <==> s.active) && lo <= close
    requires PathShape(x.levels, s.leg, s.active, p, lo, close, close)
    ensures p.Shut? ==> p.fills != []
    ensures StepOutcome(x, Follow(x, s, p), lo, close)
  {
    if p.Open? { FollowOpenKeeps(x, s, p, lo, close); } else { FollowShutCloses(x, s, p, lo, close); }
  }

  /** After a candle: held until the next one, or a closed log whose exit lies inside it. */
  predicate StepOutcome(x: Setting, r: Run, open: int, close: int) {
    match r
    case Running(s) => Held(x, s, close)
    case Exited(s, _, why, time) => ClosedLog(x, s.events, why, time) && open <= time < close
  }

  lemma {:induction false} TimeExitCloses(x: Setting, s: State, c: Candle)
    requires Held(x, s, c.openTime) && (s.leg.position == HALF_AFTER_TP1 <==> s.active)
    ensures var r := Follow(x, s, Shut([TimeFill(s.leg.position, c)], TIME_EXIT, s.leg.activation));
            r.Exited? && r.time == c.openTime && StepOutcome(x, r, c.openTime, c.CloseTime())
  {
    var id := x.request.armed.signalId;
    FillEventsAt(id, [TimeFill(s.leg.position, c)]);
    ClosesLog(x, s.events, FillEvent(id, TimeFill(s.leg.position, c)), TIME_EXIT);
  }

  lemma {:induction false} EntryStepKeeps(x: Setting, s: State, c: Candle, b: Option<Batch>)
    requires Arrives(x, c, b, true) && Held(x, s, x.armed.events[0].time) && s.leg.position == FULL
    ensures StepOutcome(x, CandleStep(x, s, c, b, true), c.openTime, c.CloseTime())
  {
    CandlePathShape(x, s, c, b, true);
    FollowKeeps(x, s, CandlePath(x, s, c, b, true), x.armed.events[0].time, c.CloseTime());
  }

  lemma {:induction false} DeadlineStepCloses(x: Setting, s: State, c: Candle, b: Option<Batch>)
    requires Arrives(x, c, b, false) && Held(x, s, c.openTime) && (s.leg.position == HALF_AFTER_TP1 <==> s.active)
    ensures var r := Follow(x, s, DeadlinePath(x, s, c, b));
            r.Exited? && StepOutcome(x, r, c.openTime, c.CloseTime())
  {
    DeadlinePathShape(x, s, c, b);
    var p := DeadlinePath(x, s, c, b);
    if p == Shut([TimeFill(s.leg.position, c)], TIME_EXIT, s.leg.activation) {
      TimeExitCloses(x, s, c);
    } else {
      FollowKeeps(x, s, p, c.openTime, c.CloseTime());
    }
  }

  /** One candle: the next state is held again, or the log is a closed log ending inside the candle. */
  lemma {:induction false} StepKeeps(x: Setting, s: State, c: Candle, b: Option<Batch>, isEntry: bool)
    requires Arrives(x, c, b, isEntry)
    requires Held(x, s, if isEntry then x.armed.events[0].time else c.openTime)
    requires isEntry ==> s.leg.position == FULL
    ensures StepOutcome(x, CandleStep(x, s, c, b, isEntry), c.openTime, c.CloseTime())
  {
    hide OpenLog;
    if isEntry {
      EntryStepKeeps(x, s, c, b);
    } else {
      HalfMeansActive(x, s, c.openTime);
      var s1 := Activate(x, s, c.openTime);
      var s2 := CountSource(s1, b);
      assert Held(x, s2, c.openTime);
      if c.openTime >= x.deadline {
        DeadlinePathIgnoresCounts(x, s1, s2, c, b);
        DeadlineStepCloses(x, s2, c, b);
      } else {
        CandlePathShape(x, s1, c, b, false);
        FollowKeeps(x, s2, CandlePath(x, s1, c, b, false), c.openTime, c.CloseTime());
      }
    }
  }
}
