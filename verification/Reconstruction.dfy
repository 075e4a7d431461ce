/** The event log of a replay rebuilds the replay's own final state. */
module Reconstruction {
  import opened Basics
  import opened Market
  import opened Armed
  import opened Trade
  import opened Shape
  import opened Runs
  import opened EventLog

  predicate EachTypeOnce(events: seq<ReplayEvent>) {
    forall i, j :: 0 <= i < j < |events| ==> events[i].eventType != events[j].eventType
  }

  function Ids(events: seq<ReplayEvent>): seq<EventId> {
    if events == [] then [] else Ids(events[..|events| - 1]) + [events[|events| - 1].Id()]
  }

  lemma {:induction false} IdsOf(events: seq<ReplayEvent>)
    ensures |Ids(events)| == |events|
    ensures forall i :: 0 <= i < |events| ==> Ids(events)[i] == events[i].Id()
    decreases |events|
  {
    if events != [] { IdsOf(events[..|events| - 1]); }
  }

  function LastTime(events: seq<ReplayEvent>): Option<int> {
    if events == [] then None else Some(events[|events| - 1].time)
  }

  /** The reduced state that has applied every one of `events`, without a duplicate. */
  function Account(
      l: Lifecycle, p: Option<Position>, fraction: real, active: bool, why: Option<Reason>, closed: bool,
      events: seq<ReplayEvent>): Reduced {
    Reduced(l, p, fraction, active, why, closed, Ids(events), LastTime(events), 0)
  }

  /** `e` has a new type and does not precede the log. */
  predicate Extends(events: seq<ReplayEvent>, e: ReplayEvent) {
    && (forall i :: 0 <= i < |events| ==> events[i].eventType != e.eventType)
    && (events != [] ==> events[|events| - 1].time <= e.time)
  }

  /** One more event of a new type, not before the last one, is simply applied. */
  lemma {:induction false} ReadsOn(events: seq<ReplayEvent>, e: ReplayEvent, s: Reduced, next: Reduced)
    requires Reduce(EMPTY_LOG, events) == Ok(s) && s.applied == Ids(events) && s.lastTime == LastTime(events)
    requires Extends(events, e) && Transition(s, e) == Ok(next)
    ensures Reduce(EMPTY_LOG, events + [e]) == Ok(next.(applied := Ids(events + [e]), lastTime := Some(e.time)))
  {
    ResumeIsReduce(EMPTY_LOG, events, [e]);
    IdsOf(events);
    var all := events + [e];
    assert all[|all| - 1] == e && all[..|all| - 1] == events;
    assert e.Id() !in s.applied;
    OneEvent(s, e);
  }

  lemma {:induction false} OneEvent(s: Reduced, e: ReplayEvent)
    requires Apply(s, e).Ok?
    ensures Reduce(s, [e]) == Ok(Apply(s, e).value)
  {
  }

  lemma {:induction false} EntryReads(e: ReplayEvent)
    requires e.eventType == EntryFill && e.fraction == Some(1.0)
    ensures Reduce(EMPTY_LOG, [e]) == Ok(Account(Lifecycle.TRIGGERED, Some(FULL), 1.0, false, None, false, [e]))
  {
    assert Reduce(EMPTY_LOG, []) == Ok(EMPTY_LOG);
    assert [] + [e] == [e];
    ReadsOn([], e, EMPTY_LOG,
      EMPTY_LOG.(lifecycle := Lifecycle.TRIGGERED, position := Some(FULL), openFraction := 1.0));
  }

  lemma {:induction false} HalfReads(events: seq<ReplayEvent>, e: ReplayEvent)
    requires Reduce(EMPTY_LOG, events) == Ok(Account(Lifecycle.TRIGGERED, Some(FULL), 1.0, false, None, false, events))
    requires Extends(events, e) && e.eventType == Tp1Fill && e.fraction == Some(0.5)
    ensures Reduce(EMPTY_LOG, events + [e]) ==
      Ok(Account(Lifecycle.TRIGGERED, Some(HALF_AFTER_TP1), 0.5, false, None, false, events + [e]))
  {
    var s := Account(Lifecycle.TRIGGERED, Some(FULL), 1.0, false, None, false, events);
    ReadsOn(events, e, s, s.(position := Some(HALF_AFTER_TP1), openFraction := 0.5));
  }

  lemma {:induction false} ActiveReads(events: seq<ReplayEvent>, e: ReplayEvent)
    requires Reduce(EMPTY_LOG, events) ==
      Ok(Account(Lifecycle.TRIGGERED, Some(HALF_AFTER_TP1), 0.5, false, None, false, events))
    requires Extends(events, e) && e.eventType == BreakevenActivated
    ensures Reduce(EMPTY_LOG, events + [e]) ==
      Ok(Account(Lifecycle.TRIGGERED, Some(HALF_AFTER_TP1), 0.5, true, None, false, events + [e]))
  {
    var s := Account(Lifecycle.TRIGGERED, Some(HALF_AFTER_TP1), 0.5, false, None, false, events);
    ReadsOn(events, e, s, s.(breakevenActive := true));
  }

  predicate IsExit(e: ReplayEvent) { e.eventType in {StopFill, Tp2Fill, TimeExit} }

  lemma {:induction false} ExitReads(
      events: seq<ReplayEvent>, e: ReplayEvent, p: Position, fraction: real, active: bool)
    requires Reduce(EMPTY_LOG, events) ==
      Ok(Account(Lifecycle.TRIGGERED, Some(p), fraction, active, None, false, events))
    requires Extends(events, e) && IsExit(e) && e.fraction == Some(fraction)
    ensures Reduce(EMPTY_LOG, events + [e]) ==
      Ok(Account(Lifecycle.CLOSED, Some(FLAT), 0.0, active, Some(e.reason), false, events + [e]))
  {
    var s := Account(Lifecycle.TRIGGERED, Some(p), fraction, active, None, false, events);
    ReadsOn(events, e, s,
            s.(lifecycle := Lifecycle.CLOSED, position := Some(FLAT), openFraction := 0.0,
              terminalReason := Some(e.reason)));
  }

  lemma {:induction false} LastReads(events: seq<ReplayEvent>, e: ReplayEvent, active: bool, why: Reason)
    requires Reduce(EMPTY_LOG, events) ==
      Ok(Account(Lifecycle.CLOSED, Some(FLAT), 0.0, active, Some(why), false, events))
    requires Extends(events, e) && e.eventType == ClosedEvent
    ensures Reduce(EMPTY_LOG, events + [e]) ==
      Ok(Account(Lifecycle.CLOSED, Some(FLAT), 0.0, active, Some(why), true, events + [e]))
  {
    var s := Account(Lifecycle.CLOSED, Some(FLAT), 0.0, active, Some(why), false, events);
    ReadsOn(events, e, s, s.(closedSeen := true));
  }

  /** What a log of distinct, ordered, once-only events of one replay reduces to. */
  predicate Reads(
      events: seq<ReplayEvent>, l: Lifecycle, p: Option<Position>, fraction: real, active: bool, closed: bool) {
    && Reduce(EMPTY_LOG, events).Ok?
    && var s := Reduce(EMPTY_LOG, events).value;
       && s.lifecycle == l && s.position == p && s.openFraction == fraction
       && s.breakevenActive == active && s.closedSeen == closed && s.duplicates == 0
       && s.applied == Ids(events) && s.lastTime == LastTime(events)
  }

  function OpenPosition(n: nat): Position { if n == 1 then FULL else HALF_AFTER_TP1 }

  function OpenAccount(events: seq<ReplayEvent>): Reduced {
    Account(Lifecycle.TRIGGERED, Some(OpenPosition(|events|)), if |events| == 1 then 1.0 else 0.5,
            |events| == 3, None, false, events)
  }

  /** The events of an open log by type. */
  lemma {:induction false} OpenTypes(x: Setting, events: seq<ReplayEvent>)
    requires EntryOfOne(x) && OpenLog(x, events)
    ensures events[0].eventType == EntryFill && events[0].fraction == Some(1.0)
    ensures |events| > 1 ==>
      events[1].eventType == Tp1Fill && events[1].fraction == Some(0.5) && events[0].time <= events[1].time
    ensures |events| > 2 ==> events[2].eventType == BreakevenActivated && events[1].time <= events[2].time
  {
  }

  /** An open log reads as a triggered position: full, half, or half with an active breakeven stop. */
  lemma {:induction false} OpenReads(x: Setting, events: seq<ReplayEvent>)
    requires EntryOfOne(x) && OpenLog(x, events)
    ensures EachTypeOnce(events) && Reduce(EMPTY_LOG, events) == Ok(OpenAccount(events))
  {
    OpenTypes(x, events);
    EntryReads(events[0]);
    if |events| == 1 {
      assert events == [events[0]];
    } else {
      HalfReads([events[0]], events[1]);
      if |events| == 2 {
        assert events == [events[0]] + [events[1]];
      } else {
        ActiveReads([events[0]] + [events[1]], events[2]);
        assert events == [events[0]] + [events[1]] + [events[2]];
      }
    }
  }

  /** The events of a closed log, and their order. */
  lemma {:induction false} ClosedTypes(x: Setting, events: seq<ReplayEvent>, why: ExitReason, time: int)
    requires EntryOfOne(x) && ClosedLog(x, events, why, time)
    ensures var n := |events|;
            && IsExit(events[n - 2]) && events[n - 2].fraction == Some(if n == 3 then 1.0 else 0.5)
            && events[n - 1].eventType == ClosedEvent
            && events[n - 3].time <= events[n - 2].time <= events[n - 1].time
            && (forall i :: 0 <= i < n - 2 ==> !IsExit(events[i]) && events[i].eventType != ClosedEvent)
  {
  }

  /** A closed log reads as closed and flat. */
  lemma {:induction false} ClosedReads(x: Setting, events: seq<ReplayEvent>, why: ExitReason, time: int)
    requires EntryOfOne(x) && ClosedLog(x, events, why, time)
    ensures EachTypeOnce(events)
    ensures Reads(events, Lifecycle.CLOSED, Some(FLAT), 0.0, |events| == 5, true)
    ensures Reduce(EMPTY_LOG, events).value.terminalReason == Some(events[|events| - 2].reason)
  {
    hide Reduce, OpenLog, IsFillEvent;
    var n := |events|;
    var open, exit, last := events[..n - 2], events[n - 2], events[n - 1];
    OpenReads(x, open);
    ClosedTypes(x, events, why, time);
    assert Extends(open, exit);
    ExitReads(open, exit, OpenPosition(|open|), if |open| == 1 then 1.0 else 0.5, |open| == 3);
    LastReads(open + [exit], last, |open| == 3, exit.reason);
    assert events == open + [exit] + [last];
  }

  function LifecycleOf(s: ArmedState): Lifecycle {
    match s
    case ARMED => Lifecycle.ARMED
    case TRIGGERED => Lifecycle.TRIGGERED
    case INVALIDATED => Lifecycle.INVALIDATED
    case MISSED => Lifecycle.MISSED
    case EXPIRED => Lifecycle.EXPIRED
  }

  predicate TradesRefuse(r: ArmedRequest, d: Decision) {
    d.Refuse? ==> d.state == ArmedState.INVALIDATED && d.event.eventType == InvalidatedEvent
  }

  lemma {:induction false} TradeRefusals(r: ArmedRequest, trades: seq<AggTrade>)
    ensures TradesRefuse(r, DecideTrades(r, trades))
    decreases |trades|
  {
    if trades != [] { TradeRefusals(r, trades[1..]); }
  }

  /** The at most one event of an untriggered signal names its state. */
  lemma {:induction false} UntriggeredLog(
      r: ArmedRequest, cs: seq<Candle>, table: Batches, i: nat, fallback: nat, aggregate: nat)
    requires i <= |cs|
    ensures var a := ArmedFrom(r, cs, table, i, fallback, aggregate);
            a.state != ArmedState.TRIGGERED ==>
              if a.state == ArmedState.ARMED then a.events == []
              else
                && |a.events| == 1
                && a.events[0].eventType == (match a.state case INVALIDATED => InvalidatedEvent
                                                           case MISSED => MissedEvent
                                                           case _ => ExpiredEvent)
    decreases |cs| - i
  {
    if i < |cs| {
      var c := cs[i];
      var b := BatchAt(table, c.openTime);
      var fallback' := if Complete(b) then fallback else fallback + 1;
      var aggregate' := if Complete(b) then aggregate + 1 else aggregate;
      if c.openTime < r.confirmationClose {
        UntriggeredLog(r, cs, table, i + 1, fallback, aggregate);
      } else if c.openTime < r.expiresAt {
        if Complete(b) { TradeRefusals(r, Ordered(b.value.trades)); }
        if Decide(r, c, b).Wait? { UntriggeredLog(r, cs, table, i + 1, fallback', aggregate'); }
      }
    }
  }

  lemma {:induction false} UntriggeredReads(events: seq<ReplayEvent>, state: ArmedState)
    requires state != ArmedState.TRIGGERED
    requires if state == ArmedState.ARMED then events == []
             else |events| == 1 && events[0].eventType == (match state case INVALIDATED => InvalidatedEvent
                                                                      case MISSED => MissedEvent
                                                                      case _ => ExpiredEvent)
    ensures Reads(events, LifecycleOf(state), None, 0.0, false, false)
    ensures Reduce(EMPTY_LOG, events).value.terminalReason == if events == [] then None else Some(events[0].reason)
  {
  }

  /** The reason a replay ended for, if it did. */
  function EndReason(t: TradeResult): Option<Reason> {
    if t.armed.state != ArmedState.TRIGGERED then
      if t.armed.events == [] then None else Some(t.armed.events[0].reason)
    else
      match t.exitReason
      case None => None
      case Some(SL) => Some(InitialStop)
      case Some(BREAKEVEN_AFTER_TP1) => Some(BreakevenStop)
      case Some(TP2) => Some(Tp2Target)
      case Some(TIME_EXIT) => Some(MaxHoldingReached)
  }

  /** The reducer's account of a replay result. */
  predicate Tells(events: seq<ReplayEvent>, t: TradeResult) {
    && Reduce(EMPTY_LOG, events).Ok? && Reduce(EMPTY_LOG, events).value.terminalReason == EndReason(t)
    && if t.armed.state != ArmedState.TRIGGERED then
      Reads(events, LifecycleOf(t.armed.state), None, 0.0, false, false) && t.openFraction == 0.0
    else
      && t.position.Some?
      && (t.position == Some(FLAT) <==> t.exitReason.Some?)
      && Reads(events, if t.position == Some(FLAT) then Lifecycle.CLOSED else Lifecycle.TRIGGERED,
               t.position, t.openFraction,
               exists i :: 0 <= i < |events| && events[i].eventType == BreakevenActivated,
               t.position == Some(FLAT))
  }

  lemma {:induction false} ReadsReduces(events: seq<ReplayEvent>, active: bool)
    ensures Reads(events, Lifecycle.CLOSED, Some(FLAT), 0.0, active, true) ==> Reduce(EMPTY_LOG, events).Ok?
  {
  }

  lemma {:induction false} ClosedTells(x: Setting, t: TradeResult, why: ExitReason, time: int)
    requires EntryOfOne(x) && ClosedLog(x, t.events, why, time) && t.armed.state == ArmedState.TRIGGERED
    requires t.position == Some(FLAT) && t.openFraction == 0.0 && t.exitReason == Some(why)
    ensures InTimeOrder(t.events) && EachTypeOnce(t.events) && Tells(t.events, t)
  {
    hide Reads;
    ClosedReads(x, t.events, why, time);
    var open := t.events[..|t.events| - 2];
    assert open[0] == t.events[0];
    assert Reads(t.events, Lifecycle.CLOSED, Some(FLAT), 0.0, |t.events| == 5, true) ==>
      Reduce(EMPTY_LOG, t.events).Ok? by { ReadsReduces(t.events, |t.events| == 5); }
    if |t.events| > 3 { assert open[1] == t.events[1]; }
    if |t.events| == 5 { assert open[2] == t.events[2] && t.events[2].eventType == BreakevenActivated; }
  }

  lemma {:induction false} OpenTells(x: Setting, t: TradeResult, s: State, open: int)
    requires EntryOfOne(x) && Held(x, s, open) && t.armed.state == ArmedState.TRIGGERED
    requires t.events == s.events && t.position == Some(s.leg.position) && t.openFraction == FractionOf(s.leg.position)
    requires t.exitReason == None
    ensures InTimeOrder(t.events) && EachTypeOnce(t.events) && Tells(t.events, t)
  {
    OpenReads(x, t.events);
    if |t.events| == 3 { assert t.events[2].eventType == BreakevenActivated; }
  }

  lemma {:induction false} TriggeredReconstructs(
      q: TradeRequest, cs: seq<Candle>, batches: seq<Batch>, fee: real, slippage: real)
    requires Accepted(q, cs, batches, fee, slippage) && Triggers(q, cs, batches)
    ensures var t := TradeReplay(q, cs, batches, fee, slippage).value;
            InTimeOrder(t.events) && EachTypeOnce(t.events) && Tells(t.events, t)
  {
    hide CandleStep;
    var t := TradeReplay(q, cs, batches, fee, slippage).value;
    AcceptedLaunches(q, cs, batches, fee, slippage);
    var g := LaunchOf(q, cs, batches, fee, slippage);
    LaunchedLog(q, cs, batches, fee, slippage);
    RunKeeps(q, cs, batches, fee, slippage);
    match RunOf(g, cs)
    case Exited(s, _, why, time) => ClosedTells(g.x, t, why, time);
    case Running(s) => OpenTells(g.x, t, s, cs[0].openTime + |cs| * MINUTE);
  }

  /**
   * For every accepted replay: its events are in time order, no event type occurs twice, the reducer accepts
   * them, and the reduced lifecycle, position, open fraction and closed flag are the replay's own.
   */
  lemma {:induction false} LogReconstructs(
      q: TradeRequest, cs: seq<Candle>, batches: seq<Batch>, fee: real, slippage: real)
    requires Accepted(q, cs, batches, fee, slippage)
    ensures var t := TradeReplay(q, cs, batches, fee, slippage).value;
            InTimeOrder(t.events) && EachTypeOnce(t.events) && Tells(t.events, t)
  {
    var t := TradeReplay(q, cs, batches, fee, slippage).value;
    AcceptedLaunches(q, cs, batches, fee, slippage);
    if t.armed.state == ArmedState.TRIGGERED {
      TriggeredReconstructs(q, cs, batches, fee, slippage);
    } else {
      UntriggeredLog(q.armed, cs, BatchTable(cs, batches).value, 0, 0, 0);
      UntriggeredReads(t.events, t.armed.state);
    }
  }

  /** Whenever a run is about to apply a candle's prices, half a position and an active breakeven stop are one. */
  lemma {:induction false} HalfIsActive(
      q: TradeRequest, cs: seq<Candle>, batches: seq<Batch>, fee: real, slippage: real, k: nat)
    requires Triggers(q, cs, batches) && ValidRequest(q) && ValidBatches(batches)
    requires LaunchOf(q, cs, batches, fee, slippage).entryIndex < k < |cs|
    ensures var g := LaunchOf(q, cs, batches, fee, slippage);
            var soFar := Walk(g.x, Initial(g.x.armed), cs[..k], g.table, g.entryIndex, g.entryIndex);
            soFar.Running? ==>
              var s := Activate(g.x, soFar.state, cs[k].openTime);
              s.leg.position == HALF_AFTER_TP1 <==> s.active
  {
    var g := LaunchOf(q, cs, batches, fee, slippage);
    var s0 := Initial(g.x.armed);
    LaunchArrives(q, cs, batches, fee, slippage);
    assert ValidCandles(cs[..k]);
    WalkKeeps(g.x, s0, cs[..k], g.table, g.entryIndex, g.entryIndex);
    var soFar := Walk(g.x, s0, cs[..k], g.table, g.entryIndex, g.entryIndex);
    if soFar.Running? { HalfMeansActive(g.x, soFar.state, cs[k].openTime); }
  }
}
