/** The triggered replay in full, stated over prices: which trade, or which bar, does what to the position. */
module TradePassage {
  import opened Basics
  import opened Market
  import opened Armed
  import opened Trade
  import opened Shape
  import opened Runs
  import opened Costs
  import opened Payoff
  import opened Net
  import opened Adverse
  import opened Passage
  import opened ArmedOutcome

  // ----- What the position meets -----------------------------------------------------------------------------

  /** A price that the position meets, and what an event there cites. */
  datatype Point = Point(price: real, time: int, ref: SourceRef, source: Source)

  function PointOf(t: AggTrade): Point { Point(t.price, t.time, AtTrade(t.id), AGG_TRADE) }

  function PointAt(c: Candle, price: real): Point { Point(price, c.openTime, AtTime(c.openTime), KLINE_1M) }

  /** The trade was made after the entry; an entry at a candle's open precedes every trade from then on. */
  predicate AfterEntry(e: ReplayEvent, t: AggTrade) {
    match e.ref
    case AtTrade(id) => t.time > e.time || (t.time == e.time && t.id > id)
    case AtTime(_) => t.time >= e.time
  }

  /** The trades of a complete batch that count: all of them, or on the entry candle those after the entry. */
  predicate Counts(e: ReplayEvent, b: Batch, isEntry: bool, t: AggTrade) {
    t in b.trades && (isEntry ==> AfterEntry(e, t))
  }

  /** Nothing the position meets on the candle is at either level. */
  ghost predicate Quiet(
      d: Direction, adverse: real, favorable: real, e: ReplayEvent, c: Candle, b: Option<Batch>, isEntry: bool) {
    if Complete(b) then forall t :: Counts(e, b.value, isEntry, t) ==> !Reaches(d, adverse, favorable, t.price)
    else !Hurts(d, adverse, Worst(d, c)) && !Helps(d, favorable, Best(d, c))
  }

  /** `t` is the first trade that counts at one of the levels. */
  ghost predicate FirstCounting(
      d: Direction, adverse: real, favorable: real, e: ReplayEvent, b: Batch, isEntry: bool, t: AggTrade) {
    && Counts(e, b, isEntry, t) && Reaches(d, adverse, favorable, t.price)
    && forall u :: Counts(e, b, isEntry, u) && Reaches(d, adverse, favorable, u.price) && u != t ==> Before(t, u)
  }

  /** Where the position first meets one of the levels: at a trade, or without trades at the end that hurts first. */
  ghost predicate FirstMet(
      d: Direction, adverse: real, favorable: real, e: ReplayEvent, c: Candle, b: Option<Batch>, isEntry: bool,
      p: Point) {
    if Complete(b) then exists t :: FirstCounting(d, adverse, favorable, e, b.value, isEntry, t) && p == PointOf(t)
    else if Hurts(d, adverse, Worst(d, c)) then p == PointAt(c, Worst(d, c))
    else Helps(d, favorable, Best(d, c)) && p == PointAt(c, Best(d, c))
  }

  lemma {:induction false} EntryFilter(e: ReplayEvent, trades: seq<AggTrade>)
    requires StrictlyOrdered(trades) && (e.ref.AtTrade? <==> e.source == AGG_TRADE)
    ensures StrictlyOrdered(TradesAfterEntry(e, trades))
    ensures forall t :: t in TradesAfterEntry(e, trades) <==> t in trades && AfterEntry(e, t)
    decreases |trades|
  {
    if trades != [] {
      TailOrdered(trades);
      EntryFilter(e, trades[1..]);
      var rest := TradesAfterEntry(e, trades[1..]);
      assert forall t :: t in rest ==> Before(trades[0], t);
    }
  }

  /** The trades applied are exactly those that count, each once and in order. */
  lemma {:induction false} AppliedTrades(e: ReplayEvent, b: Batch, isEntry: bool)
    requires ValidBatch(b) && (e.ref.AtTrade? <==> e.source == AGG_TRADE)
    ensures StrictlyOrdered(CandleTrades(e, b, isEntry))
    ensures forall t :: t in CandleTrades(e, b, isEntry) <==> Counts(e, b, isEntry, t)
  {
    OrderedStrictly(b);
    EntryFilter(e, Ordered(b.trades));
  }

  // ----- One candle's trades ---------------------------------------------------------------------------------

  /** From FULL nothing happens up to the first trade at the stop or TP1; `rest` are the trades after it. */
  lemma {:induction false} TradesFromFull(l: Levels, trades: seq<AggTrade>, close: int)
    returns (t: Option<AggTrade>, rest: seq<AggTrade>)
    requires StrictlyOrdered(trades)
    ensures t.None? <==> NoneReaches(l.direction, l.stop, l.tp1, trades)
    ensures t.Some? ==> FirstReaching(l.direction, l.stop, l.tp1, trades, t.value)
    ensures StrictlyOrdered(rest)
    ensures t.Some? ==> forall u :: u in rest <==> u in trades && Before(t.value, u)
    ensures Ticks(l, Leg(FULL, None), false, trades, close) ==
            if t.None? then Open([], Leg(FULL, None))
            else
              var u, ref := t.value, AtTrade(t.value.id);
              if Hurts(l.direction, l.stop, u.price) then Shut([StopAt(l, u.time, ref, AGG_TRADE)], SL, None)
              else if Helps(l.direction, l.tp2, u.price) then
                Shut([Tp1At(l, u.time, ref, AGG_TRADE), Tp2At(l, u.time, ref, AGG_TRADE)], TP2, None)
              else Prepend([Tp1At(l, u.time, ref, AGG_TRADE)],
                           Ticks(l, Leg(HALF_AFTER_TP1, Some(close)), false, rest, close))
    decreases |trades|
  {
    if trades == [] {
      t, rest := None, [];
    } else {
      TailOrdered(trades);
      t, rest := Some(trades[0]), trades[1..];
      if !Reaches(l.direction, l.stop, l.tp1, trades[0].price) {
        t, rest := TradesFromFull(l, trades[1..], close);
        if t.Some? {
          forall u ensures u in rest <==> u in trades && Before(t.value, u) {
          }
        }
      }
    }
  }

  /** From HALF nothing happens up to the first trade at the stop that counts or TP2, and that trade closes. */
  lemma {:induction false} TradesFromHalf(l: Levels, leg: Leg, active: bool, trades: seq<AggTrade>, close: int)
    returns (t: Option<AggTrade>)
    requires StrictlyOrdered(trades) && leg.position == HALF_AFTER_TP1
    ensures var adverse := if active then l.breakeven else l.stop;
            && (t.None? <==> NoneReaches(l.direction, adverse, l.tp2, trades))
            && (t.Some? ==> FirstReaching(l.direction, adverse, l.tp2, trades, t.value))
            && Ticks(l, leg, active, trades, close) ==
               if t.None? then Open([], leg)
               else
                 var u, ref := t.value, AtTrade(t.value.id);
                 if Hurts(l.direction, adverse, u.price)
                 then Shut([HalfStopFill(l, active, u.time, ref, AGG_TRADE)], HalfStopReason(active), leg.activation)
                 else Shut([Tp2At(l, u.time, ref, AGG_TRADE)], TP2, leg.activation)
    decreases |trades|
  {
    if trades == [] {
      t := None;
    } else {
      TailOrdered(trades);
      t := Some(trades[0]);
      if !Reaches(l.direction, if active then l.breakeven else l.stop, l.tp2, trades[0].price) {
        t := TradesFromHalf(l, leg, active, trades[1..], close);
      }
    }
  }

  // ----- Results ---------------------------------------------------------------------------------------------

  function FillAt(id: string, p: Point, eventType: EventType, why: Reason, price: real, fraction: real): ReplayEvent {
    ReplayEvent(id, eventType, p.time, p.source, p.ref, why, Some(price), Some(fraction))
  }

  /** A closed run: one more fill at `p` for what was open, and CLOSED repeating it. */
  predicate ExitsAt(
      r: Run, id: string, before: seq<ReplayEvent>, p: Point, eventType: EventType, why: Reason, price: real,
      fraction: real, exit: ExitReason, activation: Option<int>) {
    && r.Exited? && r.reason == exit && r.time == p.time && r.activation == activation
    && r.state.leg.position == FLAT
    && r.state.events == before + [FillAt(id, p, eventType, why, price, fraction),
                                   ReplayEvent(id, ClosedEvent, p.time, p.source, p.ref, why, Some(price), None)]
  }

  predicate RunsOn(r: Run, leg: Leg, active: bool, events: seq<ReplayEvent>) {
    r.Running? && r.state.leg == leg && r.state.active == active && r.state.events == events
  }

  // ----- From FULL -------------------------------------------------------------------------------------------

  /** The state is FULL with nothing but the entry behind it. */
  predicate FullAt(x: Setting, s: State) {
    |x.armed.events| == 1 && s.leg == Leg(FULL, None) && !s.active && s.events == x.armed.events
  }

  /** The entry on a bar without trades reported the stop touched. */
  predicate Forced(x: Setting, b: Option<Batch>, isEntry: bool) {
    isEntry && x.armed.stopAlsoTouched && !Complete(b)
  }

  /** Nothing the position meets on the candle is at the stop or TP1. */
  ghost predicate QuietFull(x: Setting, c: Candle, b: Option<Batch>, isEntry: bool)
    requires x.armed.events != []
  {
    Quiet(x.levels.direction, x.levels.stop, x.levels.tp1, x.armed.events[0], c, b, isEntry)
  }

  /** The candle leaves a FULL position alone. */
  ghost predicate PassesFull(x: Setting, c: Candle, b: Option<Batch>, isEntry: bool)
    requires x.armed.events != []
  {
    c.openTime < x.deadline && !Forced(x, b, isEntry) && QuietFull(x, c, b, isEntry)
  }

  /** After TP1 at `p`: the trades that count, later than it. */
  ghost predicate FirstLater(x: Setting, b: Option<Batch>, isEntry: bool, p: Point, t: AggTrade)
    requires x.armed.events != []
  {
    && Complete(b) && p.ref.AtTrade?
    && Later(x.armed.events[0], b.value, isEntry, p, t)
    && Reaches(x.levels.direction, x.levels.stop, x.levels.tp2, t.price)
    && forall u :: Later(x.armed.events[0], b.value, isEntry, p, u) && u != t &&
                   Reaches(x.levels.direction, x.levels.stop, x.levels.tp2, u.price) ==>
         Before(t, u)
  }

  predicate Later(e: ReplayEvent, b: Batch, isEntry: bool, p: Point, t: AggTrade)
    requires p.ref.AtTrade?
  {
    Counts(e, b, isEntry, t) && (t.time > p.time || (t.time == p.time && t.id > p.ref.id))
  }

  /** The second half leaves in the candle of TP1: at the initial stop, because no other counts yet, or at TP2. */
  predicate ExitsLater(x: Setting, c: Candle, p: Point, head: seq<ReplayEvent>, r: Run) {
    var l, id, close := x.levels, x.request.armed.signalId, Some(c.CloseTime());
    if Hurts(l.direction, l.stop, p.price)
    then ExitsAt(r, id, head, p, StopFill, InitialStop, l.stop, 0.5, SL, close)
    else ExitsAt(r, id, head, p, Tp2Fill, Tp2Target, l.tp2, 0.5, TP2, close)
  }

  /** What the rest of the candle does after TP1 at `p`; `head` is the log with TP1. */
  ghost predicate RestOfCandle(
      x: Setting, c: Candle, b: Option<Batch>, isEntry: bool, p: Point, head: seq<ReplayEvent>, r: Run)
    requires x.armed.events != []
  {
    var l, id, close := x.levels, x.request.armed.signalId, c.CloseTime();
    if Helps(l.direction, l.tp2, p.price) then ExitsAt(r, id, head, p, Tp2Fill, Tp2Target, l.tp2, 0.5, TP2, None)
    else if exists t :: FirstLater(x, b, isEntry, p, t) then
      exists t :: FirstLater(x, b, isEntry, p, t) && ExitsLater(x, c, PointOf(t), head, r)
    else RunsOn(r, Leg(HALF_AFTER_TP1, Some(close)), false, head)
  }

  /** What the first price met at the stop or TP1 does to a FULL position. */
  ghost predicate MetFull(x: Setting, c: Candle, b: Option<Batch>, isEntry: bool, r: Run)
    requires x.armed.events != []
  {
    var l, id, entry := x.levels, x.request.armed.signalId, x.armed.events[0];
    exists p :: FirstMet(l.direction, l.stop, l.tp1, entry, c, b, isEntry, p) &&
      if Hurts(l.direction, l.stop, p.price)
      then ExitsAt(r, id, [entry], p, StopFill, InitialStop, l.stop, 1.0, SL, None)
      else RestOfCandle(x, c, b, isEntry, p, [entry, FillAt(id, p, Tp1Fill, Tp1Target, l.tp1, 0.5)], r)
  }

  /** What a candle would do to a FULL position if there were no deadline. */
  ghost predicate OrdinaryFull(x: Setting, c: Candle, b: Option<Batch>, r: Run)
    requires x.armed.events != []
  {
    if QuietFull(x, c, b, false)
    then RunsOn(r, Leg(FULL, None), false, x.armed.events)
    else MetFull(x, c, b, false, r)
  }

  function Proceeds(e: ReplayEvent): real {
    if e.price.Some? && e.fraction.Some? then e.price.value * e.fraction.value else 0.0
  }

  /** Price times fraction over the one or two fills between the first `n` events and CLOSED. */
  function ExitValue(events: seq<ReplayEvent>, n: nat): real
    requires n + 2 <= |events|
  {
    if |events| == n + 2 then Proceeds(events[n]) else Proceeds(events[n]) + Proceeds(events[n + 1])
  }

  /** The candle's own exit is worth no more to the position than leaving at the candle's open. */
  predicate NoBetterThanOpen(d: Direction, c: Candle, n: nat, fraction: real, o: Run) {
    && o.Exited? && n + 2 <= |o.state.events|
    && if d == Long then ExitValue(o.state.events, n) <= c.open * fraction
       else ExitValue(o.state.events, n) >= c.open * fraction
  }

  /** At the deadline the candle's own exit counts if it is no better than its open; otherwise the open is the exit. */
  predicate AtDeadline(
      x: Setting, c: Candle, before: seq<ReplayEvent>, fraction: real, activation: Option<int>, o: Run, r: Run) {
    if NoBetterThanOpen(x.levels.direction, c, |before|, fraction, o) then
      && r.Exited? && o.Exited? && r.state.events == o.state.events && r.state.leg.position == FLAT
      && r.reason == o.reason && r.time == o.time && r.activation == activation
    else
      ExitsAt(r, x.request.armed.signalId, before, PointAt(c, c.open), TimeExit, MaxHoldingReached, c.open, fraction,
              TIME_EXIT, activation)
  }

  /** What a candle does to a FULL position that it does not leave alone. */
  ghost predicate DecidesFull(x: Setting, c: Candle, b: Option<Batch>, isEntry: bool, r: Run)
    requires x.armed.events != []
  {
    var l, id, entry := x.levels, x.request.armed.signalId, x.armed.events[0];
    if c.openTime >= x.deadline then
      exists o :: OrdinaryFull(x, c, b, o) && AtDeadline(x, c, [entry], 1.0, None, o, r)
    else if Forced(x, b, isEntry) then
      ExitsAt(r, id, [entry], PointAt(c, l.stop), StopFill, InitialStop, l.stop, 1.0, SL, None)
    else MetFull(x, c, b, isEntry, r)
  }

  lemma {:induction false} FollowsOne(x: Setting, s: State, f: Fill, why: ExitReason, activation: Option<int>)
    ensures var r := Follow(x, s, Shut([f], why, activation));
            ExitsAt(r, x.request.armed.signalId, s.events, Point(0.0, f.time, f.ref, f.source), f.eventType, f.reason,
                    f.price, f.fraction, why, activation)
  {
    FillEventsAt(x.request.armed.signalId, [f]);
  }

  lemma {:induction false} FollowsTwo(x: Setting, s: State, f: Fill, g: Fill, why: ExitReason, activation: Option<int>)
    ensures var r := Follow(x, s, Shut([f, g], why, activation));
            ExitsAt(r, x.request.armed.signalId, s.events + [FillEvent(x.request.armed.signalId, f)],
                    Point(0.0, g.time, g.ref, g.source), g.eventType, g.reason, g.price, g.fraction, why, activation)
  {
    FillEventsAt(x.request.armed.signalId, [f, g]);
  }

  lemma {:induction false} FollowsOpen(x: Setting, s: State, f: Fill, leg: Leg)
    ensures RunsOn(Follow(x, s, Open([f], leg)), leg, s.active, s.events + [FillEvent(x.request.armed.signalId, f)])
    ensures RunsOn(Follow(x, s, Open([], leg)), leg, s.active, s.events)
  {
    FillEventsAt(x.request.armed.signalId, [f]);
    assert s.events + [] == s.events;
  }

  lemma {:induction false} FollowsNothing(x: Setting, s: State)
    ensures Follow(x, s, Open([], s.leg)) == Running(s)
  {
    assert s.events + [] == s.events;
  }

  /** The trades of a candle, from FULL. */
  lemma {:induction false} TradesDecideFull(x: Setting, s: State, c: Candle, b: Option<Batch>, isEntry: bool)
    requires FullAt(x, s) && Arrives(x, c, b, isEntry) && Complete(b)
    requires x.armed.events[0].ref.AtTrade? <==> x.armed.events[0].source == AGG_TRADE
    ensures var r := Follow(x, s, CandlePath(x, s, c, b, isEntry));
            if QuietFull(x, c, b, isEntry) then r == Running(s) else MetFull(x, c, b, isEntry, r)
  {
    hide Follow, Ticks, Reaches, Hurts, Helps, Counts, ExitsAt, RestOfCandle, CandleTrades;
    var l, entry, close := x.levels, x.armed.events[0], c.CloseTime();
    var trades := CandleTrades(entry, b.value, isEntry);
    AppliedTrades(entry, b.value, isEntry);
    var t, rest := TradesFromFull(l, trades, close);
    if t.Some? {
      TradeDecidesFull(x, s, c, b, isEntry, t.value, rest);
    } else {
      FollowsNothing(x, s);
    }
  }

  /** The first trade at the stop or TP1, and what follows it. */
  lemma {:induction false} TradeDecidesFull(
      x: Setting, s: State, c: Candle, b: Option<Batch>, isEntry: bool, u: AggTrade, rest: seq<AggTrade>)
    requires FullAt(x, s) && Complete(b) && StrictlyOrdered(rest)
    requires FirstCounting(x.levels.direction, x.levels.stop, x.levels.tp1, x.armed.events[0], b.value, isEntry, u)
    requires forall t :: t in rest <==> Counts(x.armed.events[0], b.value, isEntry, t) && Before(u, t)
    requires var l, ref, close := x.levels, AtTrade(u.id), c.CloseTime();
             CandlePath(x, s, c, b, isEntry) ==
             if Hurts(l.direction, l.stop, u.price) then Shut([StopAt(l, u.time, ref, AGG_TRADE)], SL, None)
             else if Helps(l.direction, l.tp2, u.price) then
               Shut([Tp1At(l, u.time, ref, AGG_TRADE), Tp2At(l, u.time, ref, AGG_TRADE)], TP2, None)
             else Prepend([Tp1At(l, u.time, ref, AGG_TRADE)],
                          Ticks(l, Leg(HALF_AFTER_TP1, Some(close)), false, rest, close))
    ensures !QuietFull(x, c, b, isEntry)
    ensures MetFull(x, c, b, isEntry, Follow(x, s, CandlePath(x, s, c, b, isEntry)))
  {
    hide Follow, Ticks, Reaches, Hurts, Helps, CandlePath, Before, StrictlyOrdered;
    var l, ref, p := x.levels, AtTrade(u.id), PointOf(u);
    var r := Follow(x, s, CandlePath(x, s, c, b, isEntry));
    var tp1, tp2 := Tp1At(l, u.time, ref, AGG_TRADE), Tp2At(l, u.time, ref, AGG_TRADE);
    assert FirstMet(l.direction, l.stop, l.tp1, x.armed.events[0], c, b, isEntry, p);
    FollowsOne(x, s, StopAt(l, u.time, ref, AGG_TRADE), SL, None);
    FollowsTwo(x, s, tp1, tp2, TP2, None);
    if !Hurts(l.direction, l.stop, u.price) {
      if !Helps(l.direction, l.tp2, u.price) { RestDecides(x, s, c, b, isEntry, u, rest); }
      assert RestOfCandle(x, c, b, isEntry, p, x.armed.events + [FillEvent(x.request.armed.signalId, tp1)], r);
    }
  }

  /** The trades after TP1. */
  lemma {:induction false} RestDecides(
      x: Setting, s: State, c: Candle, b: Option<Batch>, isEntry: bool, u: AggTrade, rest: seq<AggTrade>)
    requires FullAt(x, s) && Complete(b) && StrictlyOrdered(rest)
    requires forall t :: t in rest <==> Counts(x.armed.events[0], b.value, isEntry, t) && Before(u, t)
    requires !Helps(x.levels.direction, x.levels.tp2, u.price)
    ensures var l, close, tp1 := x.levels, c.CloseTime(), Tp1At(x.levels, u.time, AtTrade(u.id), AGG_TRADE);
            var p := Ticks(l, Leg(HALF_AFTER_TP1, Some(close)), false, rest, close);
            var head := x.armed.events + [FillEvent(x.request.armed.signalId, tp1)];
            RestOfCandle(x, c, b, isEntry, PointOf(u), head, Follow(x, s, Prepend([tp1], p)))
  {
    hide Follow, Ticks, Reaches, Hurts, Counts;
    var l, close, entry := x.levels, c.CloseTime(), x.armed.events[0];
    var tp1 := Tp1At(l, u.time, AtTrade(u.id), AGG_TRADE);
    var leg := Leg(HALF_AFTER_TP1, Some(close));
    var t := TradesFromHalf(l, leg, false, rest, close);
    forall v ensures v in rest <==> Later(entry, b.value, isEntry, PointOf(u), v) {
    }
    if t.Some? {
      var ref := AtTrade(t.value.id);
      var stop, tp2 := HalfStopFill(l, false, t.value.time, ref, AGG_TRADE), Tp2At(l, t.value.time, ref, AGG_TRADE);
      assert FirstLater(x, b, isEntry, PointOf(u), t.value);
      FollowsTwo(x, s, tp1, stop, SL, Some(close));
      FollowsTwo(x, s, tp1, tp2, TP2, Some(close));
      assert [tp1] + [stop] == [tp1, stop] && [tp1] + [tp2] == [tp1, tp2];
      var r := Follow(x, s, Prepend([tp1], Ticks(l, leg, false, rest, close)));
      assert ExitsLater(x, c, PointOf(t.value), x.armed.events + [FillEvent(x.request.armed.signalId, tp1)], r);
    } else {
      FollowsOpen(x, s, tp1, leg);
      assert [tp1] + [] == [tp1];
    }
  }

  /** A bar, from FULL: the end that hurts is met first. */
  lemma {:induction false} BarDecidesFull(x: Setting, s: State, c: Candle, b: Option<Batch>, isEntry: bool)
    requires FullAt(x, s) && !Complete(b) && !Forced(x, b, isEntry) && c.low <= c.high
    ensures var r := Follow(x, s, CandlePath(x, s, c, b, isEntry));
            if QuietFull(x, c, b, isEntry) then r == Running(s) else MetFull(x, c, b, isEntry, r)
  {
    hide Follow;
    var l, at, close := x.levels, AtTime(c.openTime), c.CloseTime();
    var r := Follow(x, s, CandlePath(x, s, c, b, isEntry));
    var tp1, tp2 := Tp1At(l, c.openTime, at, KLINE_1M), Tp2At(l, c.openTime, at, KLINE_1M);
    FollowsNothing(x, s);
    FollowsOne(x, s, StopAt(l, c.openTime, at, KLINE_1M), SL, None);
    FollowsTwo(x, s, tp1, tp2, TP2, None);
    FollowsOpen(x, s, tp1, Leg(HALF_AFTER_TP1, Some(close)));
    if !QuietFull(x, c, b, isEntry) {
      var p := PointAt(c, if Hurts(l.direction, l.stop, Worst(l.direction, c)) then Worst(l.direction, c)
                          else Best(l.direction, c));
      assert FirstMet(l.direction, l.stop, l.tp1, x.armed.events[0], c, b, isEntry, p);
    }
  }

  lemma {:induction false} FullIsHeld(x: Setting, s: State, c: Candle, b: Option<Batch>, isEntry: bool)
    requires FullAt(x, s) && Arrives(x, c, b, isEntry)
    ensures Held(x, s, if isEntry then x.armed.events[0].time else c.openTime)
    ensures Activate(x, s, c.openTime) == s
    ensures c.openTime >= x.deadline ==> !isEntry
  {
  }

  /** A bar entry that reported the stop touched stops out. */
  lemma {:induction false} ForcedStops(x: Setting, s: State, c: Candle, b: Option<Batch>, isEntry: bool)
    requires FullAt(x, s) && Forced(x, b, isEntry) && c.openTime < x.deadline
    ensures DecidesFull(x, c, b, isEntry, Follow(x, s, CandlePath(x, s, c, b, isEntry)))
  {
    hide Follow;
    FollowsOne(x, s, StopAt(x.levels, c.openTime, AtTime(c.openTime), KLINE_1M), SL, None);
  }

  /** One candle, from FULL. */
  lemma {:induction false} FullStep(x: Setting, s: State, c: Candle, b: Option<Batch>, isEntry: bool)
    requires FullAt(x, s) && Arrives(x, c, b, isEntry) && c.low <= c.high && Tradable(x)
    ensures var r := CandleStep(x, s, c, b, isEntry);
            if PassesFull(x, c, b, isEntry) then r.Running? && FullAt(x, r.state)
            else DecidesFull(x, c, b, isEntry, r)
  {
    hide Follow, CandlePath, DeadlinePath, Quiet, MetFull, ExitsAt, Arrives, Held, AtDeadline;
    FullIsHeld(x, s, c, b, isEntry);
    var counted := if isEntry then s else CountSource(s, b);
    if c.openTime >= x.deadline {
      FullAtDeadline(x, s, counted, c, b);
    } else {
      SamePath(x, s, counted, c, b, isEntry);
      if Complete(b) {
        TradesDecideFull(x, counted, c, b, isEntry);
      } else if Forced(x, b, isEntry) {
        ForcedStops(x, counted, c, b, isEntry);
      } else {
        BarDecidesFull(x, counted, c, b, isEntry);
      }
    }
  }

  lemma {:induction false} FullAtDeadline(x: Setting, s: State, counted: State, c: Candle, b: Option<Batch>)
    requires FullAt(x, s) && counted == CountSource(s, b) && Tradable(x)
    requires Arrives(x, c, b, false) && c.low <= c.high
    ensures exists o :: OrdinaryFull(x, c, b, o)
              && AtDeadline(x, c, [x.armed.events[0]], 1.0, None, o, Follow(x, counted, DeadlinePath(x, s, c, b)))
  {
    hide Follow, CandlePath, DeadlinePath, Quiet, MetFull, AtDeadline, OrderedLevels;
    var o := Follow(x, counted, CandlePath(x, counted, c, b, false));
    if Complete(b) { TradesDecideFull(x, counted, c, b, false); } else { BarDecidesFull(x, counted, c, b, false); }
    SameDeadlinePath(x, s, counted, c, b);
    DeadlineDecides(x, counted, c, b);
    assert x.armed.events == [x.armed.events[0]];
    assert OrdinaryFull(x, c, b, o);
  }

  /** What a deadline needs beside its candle: levels in order and rates below one. */
  predicate Tradable(x: Setting) {
    && OrderedLevels(x.levels) && ValidRates(x.fee, x.slippage)
    && |x.armed.events| == 1 && (x.armed.events[0].ref.AtTrade? <==> x.armed.events[0].source == AGG_TRADE)
  }

  lemma {:induction false} SameDeadlinePath(x: Setting, s: State, t: State, c: Candle, b: Option<Batch>)
    requires s.leg == t.leg && s.active == t.active
    ensures DeadlinePath(x, s, c, b) == DeadlinePath(x, t, c, b)
  {
  }

  /** The deadline's path is the ordinary one if it closes for no more value than the open, else the time exit. */
  lemma {:induction false} DeadlineChooses(x: Setting, s: State, c: Candle, b: Option<Batch>, path: Path)
    requires Arrives(x, c, b, false) && Poised(s.leg, s.active) && (s.leg.position == HALF_AFTER_TP1 <==> s.active)
    requires Tradable(x) && c.low <= c.high && path == CandlePath(x, s, c, b, false)
    ensures path.Shut? ==> 1 <= |path.fills| <= 2
    ensures DeadlinePath(x, s, c, b) ==
            if path.Shut? && (if x.levels.direction == Long
                              then ValueOf(path.fills) <= c.open * FractionOf(s.leg.position)
                              else ValueOf(path.fills) >= c.open * FractionOf(s.leg.position))
            then Shut(path.fills, path.reason, s.leg.activation)
            else Shut([TimeFill(s.leg.position, c)], TIME_EXIT, s.leg.activation)
  {
    hide CandlePath, RiskPath, OrderedLevels, CashOf, ValueOf, FractionOf, TimeFill;
    var d, r, time := x.levels.direction, Rates(x.fee, x.slippage), TimeFill(s.leg.position, c);
    RiskIsOrdinaryExit(x, s, c, b);
    CandlePathShape(x, s, c, b, false);
    TimeValue(s.leg.position, c);
    if path.Shut? { CashChoice(d, r, path.fills, [time]); }
  }

  lemma {:induction false} TimeValue(position: Position, c: Candle)
    ensures ValueOf([TimeFill(position, c)]) == c.open * FractionOf(position)
  {
  }

  /** Comparing cash is comparing values. */
  lemma {:induction false} CashChoice(d: Direction, r: Rates, a: seq<Fill>, b: seq<Fill>)
    requires 1 <= |a| <= 2 && 1 <= |b| <= 2 && ValidRates(r.fee, r.slippage)
    ensures CashOf(d, r.fee, r.slippage, a) <= CashOf(d, r.fee, r.slippage, b) <==>
            if d == Long then ValueOf(a) <= ValueOf(b) else ValueOf(a) >= ValueOf(b)
  {
    hide CashOf, ValueOf, Factor;
    FactorPositive(d, r);
    CashIsValue(d, r, a);
    CashIsValue(d, r, b);
    CashCompares(d, Factor(d, r), ValueOf(a), ValueOf(b));
  }

  /** The choice at the deadline, in prices. */
  lemma {:induction false} DeadlineDecides(x: Setting, s: State, c: Candle, b: Option<Batch>)
    requires Arrives(x, c, b, false) && Poised(s.leg, s.active) && (s.leg.position == HALF_AFTER_TP1 <==> s.active)
    requires Tradable(x) && c.low <= c.high
    ensures AtDeadline(x, c, s.events, FractionOf(s.leg.position), s.leg.activation,
                       Follow(x, s, CandlePath(x, s, c, b, false)), Follow(x, s, DeadlinePath(x, s, c, b)))
  {
    hide CandlePath, DeadlinePath, Follow, FractionOf, ValueOf, ExitValue, OrderedLevels, Arrives;
    var path := CandlePath(x, s, c, b, false);
    DeadlineChooses(x, s, c, b, path);
    FollowsOne(x, s, TimeFill(s.leg.position, c), TIME_EXIT, s.leg.activation);
    if path.Shut? {
      FollowsShut(x, s, path.fills, path.reason, path.activation);
      FollowsShut(x, s, path.fills, path.reason, s.leg.activation);
    } else {
      FollowOpens(x, s, path);
    }
  }

  lemma {:induction false} FollowOpens(x: Setting, s: State, p: Path)
    requires p.Open?
    ensures Follow(x, s, p).Running?
  {
  }

  /** Price times fraction over one or two fills. */
  function ValueOf(fills: seq<Fill>): real
    requires 1 <= |fills| <= 2
  {
    if |fills| == 1 then fills[0].price * fills[0].fraction
    else fills[0].price * fills[0].fraction + fills[1].price * fills[1].fraction
  }

  lemma {:induction false} CashIsValue(d: Direction, r: Rates, fills: seq<Fill>)
    requires 1 <= |fills| <= 2
    ensures CashOf(d, r.fee, r.slippage, fills) == Signed(d, ValueOf(fills) * Factor(d, r))
  {
    hide CashOf, Factor;
    if |fills| == 1 {
      assert fills == [fills[0]];
      CashOne(d, r, fills[0]);
      Regroup(d, fills[0].price, fills[0].fraction, Factor(d, r));
    } else {
      assert fills == [fills[0], fills[1]];
      CashTwo(d, r, fills[0], fills[1]);
      Regroup(d, fills[0].price, fills[0].fraction, Factor(d, r));
      Regroup(d, fills[1].price, fills[1].fraction, Factor(d, r));
      Distributes(fills[0].price * fills[0].fraction, fills[1].price * fills[1].fraction, Factor(d, r));
    }
  }

  lemma {:induction false} Regroup(d: Direction, price: real, fraction: real, k: real)
    ensures Signed(d, price * k) * fraction == Signed(d, price * fraction * k)
  {
  }

  lemma {:induction false} CashCompares(d: Direction, k: real, a: real, b: real)
    requires k > 0.0
    ensures Signed(d, a * k) <= Signed(d, b * k) <==> if d == Long then a <= b else a >= b
  {
    if a < b { ScaledStrictly(a, b, k); }
    if b < a { ScaledStrictly(b, a, k); }
  }

  /** Following a closing path of one or two fills. */
  lemma {:induction false} FollowsShut(
      x: Setting, s: State, fills: seq<Fill>, why: ExitReason, activation: Option<int>)
    requires 1 <= |fills| <= 2
    ensures var r := Follow(x, s, Shut(fills, why, activation));
            && r.Exited? && r.reason == why && r.time == fills[|fills| - 1].time && r.activation == activation
            && r.state.leg.position == FLAT && |r.state.events| == |s.events| + |fills| + 1
            && ExitValue(r.state.events, |s.events|) == ValueOf(fills)
            && r.state.events == Follow(x, s, Shut(fills, why, None)).state.events
  {
    hide FillEvents, ClosedBy;
    var id, n := x.request.armed.signalId, |s.events|;
    var events := Follow(x, s, Shut(fills, why, activation)).state.events;
    FillEventsAt(id, fills);
    assert events == s.events + FillEvents(id, fills) + [ClosedBy(id, fills[|fills| - 1])];
    assert events[n] == FillEvents(id, fills)[0];
    if |fills| == 2 { assert events[n + 1] == FillEvents(id, fills)[1]; }
  }

  /** A path reads the leg and the flag only. */
  lemma {:induction false} SamePath(x: Setting, s: State, t: State, c: Candle, b: Option<Batch>, isEntry: bool)
    requires x.armed.events != [] && s.leg == t.leg && s.active == t.active
    ensures CandlePath(x, s, c, b, isEntry) == CandlePath(x, t, c, b, isEntry)
  {
  }

  // ----- From HALF -------------------------------------------------------------------------------------------

  /** HALF with the breakeven stop active since `since`. */
  predicate HalfAt(x: Setting, s: State, since: int, events: seq<ReplayEvent>) {
    s.leg == Leg(HALF_AFTER_TP1, Some(since)) && s.active && s.events == events
  }

  /** The candle leaves a HALF position with an active breakeven stop alone. */
  ghost predicate PassesHalf(x: Setting, c: Candle, b: Option<Batch>)
    requires x.armed.events != []
  {
    c.openTime < x.deadline && QuietHalf(x, c, b)
  }

  ghost predicate QuietHalf(x: Setting, c: Candle, b: Option<Batch>)
    requires x.armed.events != []
  {
    Quiet(x.levels.direction, x.levels.breakeven, x.levels.tp2, x.armed.events[0], c, b, false)
  }

  /** The second half leaves at the breakeven stop or at TP2. */
  predicate ExitsHalf(x: Setting, p: Point, since: int, events: seq<ReplayEvent>, r: Run) {
    var l, id := x.levels, x.request.armed.signalId;
    if Hurts(l.direction, l.breakeven, p.price)
    then ExitsAt(r, id, events, p, StopFill, BreakevenStop, l.breakeven, 0.5, BREAKEVEN_AFTER_TP1, Some(since))
    else ExitsAt(r, id, events, p, Tp2Fill, Tp2Target, l.tp2, 0.5, TP2, Some(since))
  }

  /** What the first price met at the breakeven stop or TP2 does to a HALF position. */
  ghost predicate MetHalf(x: Setting, c: Candle, b: Option<Batch>, since: int, events: seq<ReplayEvent>, r: Run)
    requires x.armed.events != []
  {
    exists p :: FirstMet(x.levels.direction, x.levels.breakeven, x.levels.tp2, x.armed.events[0], c, b, false, p)
                && ExitsHalf(x, p, since, events, r)
  }

  /** What a candle would do to a HALF position if there were no deadline. */
  ghost predicate OrdinaryHalf(x: Setting, c: Candle, b: Option<Batch>, since: int, events: seq<ReplayEvent>, r: Run)
    requires x.armed.events != []
  {
    if QuietHalf(x, c, b) then RunsOn(r, Leg(HALF_AFTER_TP1, Some(since)), true, events)
    else MetHalf(x, c, b, since, events, r)
  }

  ghost predicate DecidesHalf(x: Setting, c: Candle, b: Option<Batch>, since: int, events: seq<ReplayEvent>, r: Run)
    requires x.armed.events != []
  {
    if c.openTime >= x.deadline then
      exists o :: OrdinaryHalf(x, c, b, since, events, o) && AtDeadline(x, c, events, 0.5, Some(since), o, r)
    else MetHalf(x, c, b, since, events, r)
  }

  lemma {:induction false} TradesDecideHalf(
      x: Setting, s: State, c: Candle, b: Option<Batch>, since: int, events: seq<ReplayEvent>)
    requires |x.armed.events| == 1 && HalfAt(x, s, since, events) && Complete(b) && ValidBatch(b.value)
    requires x.armed.events[0].ref.AtTrade? <==> x.armed.events[0].source == AGG_TRADE
    ensures var r := Follow(x, s, CandlePath(x, s, c, b, false));
            if QuietHalf(x, c, b) then r == Running(s) else MetHalf(x, c, b, since, events, r)
  {
    hide Follow, Ticks, Reaches, CandleTrades, Counts, Before, StrictlyOrdered;
    var l, entry := x.levels, x.armed.events[0];
    AppliedTrades(entry, b.value, false);
    var t := TradesFromHalf(l, s.leg, true, CandleTrades(entry, b.value, false), c.CloseTime());
    FollowsNothing(x, s);
    if t.Some? {
      var ref, p := AtTrade(t.value.id), PointOf(t.value);
      assert FirstCounting(l.direction, l.breakeven, l.tp2, entry, b.value, false, t.value);
      assert FirstMet(l.direction, l.breakeven, l.tp2, entry, c, b, false, p);
      FollowsOne(x, s, HalfStopFill(l, true, t.value.time, ref, AGG_TRADE), BREAKEVEN_AFTER_TP1, Some(since));
      FollowsOne(x, s, Tp2At(l, t.value.time, ref, AGG_TRADE), TP2, Some(since));
      assert ExitsHalf(x, p, since, events, Follow(x, s, CandlePath(x, s, c, b, false)));
    }
  }

  lemma {:induction false} BarDecidesHalf(
      x: Setting, s: State, c: Candle, b: Option<Batch>, since: int, events: seq<ReplayEvent>)
    requires |x.armed.events| == 1 && HalfAt(x, s, since, events) && !Complete(b) && c.low <= c.high
    ensures var r := Follow(x, s, CandlePath(x, s, c, b, false));
            if QuietHalf(x, c, b) then r == Running(s) else MetHalf(x, c, b, since, events, r)
  {
    hide Follow;
    var l, at := x.levels, AtTime(c.openTime);
    FollowsNothing(x, s);
    FollowsOne(x, s, HalfStopFill(l, true, c.openTime, at, KLINE_1M), BREAKEVEN_AFTER_TP1, Some(since));
    FollowsOne(x, s, Tp2At(l, c.openTime, at, KLINE_1M), TP2, Some(since));
    if !QuietHalf(x, c, b) {
      var p := PointAt(c, if Hurts(l.direction, l.breakeven, Worst(l.direction, c)) then Worst(l.direction, c)
                          else Best(l.direction, c));
      assert FirstMet(l.direction, l.breakeven, l.tp2, x.armed.events[0], c, b, false, p);
      assert ExitsHalf(x, p, since, events, Follow(x, s, CandlePath(x, s, c, b, false)));
    }
  }

  /** One candle, from HALF with an active stop. */
  lemma {:induction false} HalfStep(
      x: Setting, s: State, c: Candle, b: Option<Batch>, since: int, events: seq<ReplayEvent>)
    requires HalfAt(x, s, since, events) && Arrives(x, c, b, false) && c.low <= c.high && Tradable(x)
    ensures var r := CandleStep(x, s, c, b, false);
            if PassesHalf(x, c, b) then r.Running? && HalfAt(x, r.state, since, events)
            else DecidesHalf(x, c, b, since, events, r)
  {
    hide Follow, CandlePath, DeadlinePath, Quiet, MetHalf, ExitsAt, Arrives, AtDeadline;
    assert Activate(x, s, c.openTime) == s;
    var counted := CountSource(s, b);
    if c.openTime >= x.deadline {
      HalfAtDeadline(x, s, counted, c, b, since, events);
    } else {
      SamePath(x, s, counted, c, b, false);
      HalfOrdinary(x, counted, c, b, since, events);
    }
  }

  lemma {:induction false} HalfOrdinary(
      x: Setting, s: State, c: Candle, b: Option<Batch>, since: int, events: seq<ReplayEvent>)
    requires HalfAt(x, s, since, events) && Arrives(x, c, b, false) && c.low <= c.high && Tradable(x)
    ensures var r := Follow(x, s, CandlePath(x, s, c, b, false));
            if QuietHalf(x, c, b) then r == Running(s) else MetHalf(x, c, b, since, events, r)
  {
    if Complete(b) {
      TradesDecideHalf(x, s, c, b, since, events);
    } else {
      BarDecidesHalf(x, s, c, b, since, events);
    }
  }

  lemma {:induction false} HalfAtDeadline(
      x: Setting, s: State, counted: State, c: Candle, b: Option<Batch>, since: int, events: seq<ReplayEvent>)
    requires HalfAt(x, s, since, events) && counted == CountSource(s, b) && Tradable(x)
    requires Arrives(x, c, b, false) && c.low <= c.high
    ensures exists o :: OrdinaryHalf(x, c, b, since, events, o)
              && AtDeadline(x, c, events, 0.5, Some(since), o, Follow(x, counted, DeadlinePath(x, s, c, b)))
  {
    hide Follow, CandlePath, DeadlinePath, Quiet, MetHalf, AtDeadline, OrderedLevels;
    var o := Follow(x, counted, CandlePath(x, counted, c, b, false));
    HalfOrdinary(x, counted, c, b, since, events);
    SameDeadlinePath(x, s, counted, c, b);
    DeadlineDecides(x, counted, c, b);
    assert OrdinaryHalf(x, c, b, since, events, o);
  }

  // ----- Whole runs ------------------------------------------------------------------------------------------

  /** Every candle from `i` on brings what the step invariant expects. */
  predicate AllArrive(x: Setting, cs: seq<Candle>, table: Batches, i: nat, e: nat) {
    && ValidCandles(cs) && Tradable(x)
    && forall j :: i <= j < |cs| ==> Arrives(x, cs[j], BatchAt(table, cs[j].openTime), j == e)
  }

  /** A FULL position goes through candles that leave it alone up to the first that does not. */
  lemma {:induction false} FullWalk(x: Setting, s: State, cs: seq<Candle>, table: Batches, i: nat, e: nat)
    returns (k: nat, last: State)
    requires AllArrive(x, cs, table, i, e) && FullAt(x, s) && i <= |cs|
    ensures i <= k <= |cs| && FullAt(x, last)
    ensures Walk(x, s, cs, table, i, e) == Walk(x, last, cs, table, k, e)
    ensures forall j :: i <= j < k ==> PassesFull(x, cs[j], BatchAt(table, cs[j].openTime), j == e)
    ensures k < |cs| ==> !PassesFull(x, cs[k], BatchAt(table, cs[k].openTime), k == e)
    decreases |cs| - i
  {
    hide CandleStep, PassesFull, DecidesFull, FullAt, Arrives;
    k, last := i, s;
    if i < |cs| {
      var b := BatchAt(table, cs[i].openTime);
      FullStep(x, s, cs[i], b, i == e);
      if PassesFull(x, cs[i], b, i == e) {
        k, last := FullWalk(x, CandleStep(x, s, cs[i], b, i == e).state, cs, table, i + 1, e);
      }
    }
  }

  /** A HALF position with an active stop likewise. */
  lemma {:induction false} HalfWalk(
      x: Setting, s: State, cs: seq<Candle>, table: Batches, i: nat, e: nat, since: int, events: seq<ReplayEvent>)
    returns (m: nat, last: State)
    requires AllArrive(x, cs, table, i, e) && HalfAt(x, s, since, events) && e < i <= |cs|
    requires Held(x, s, cs[0].openTime + i * MINUTE)
    ensures i <= m <= |cs| && HalfAt(x, last, since, events) && Held(x, last, cs[0].openTime + m * MINUTE)
    ensures Walk(x, s, cs, table, i, e) == Walk(x, last, cs, table, m, e)
    ensures forall j :: i <= j < m ==> PassesHalf(x, cs[j], BatchAt(table, cs[j].openTime))
    ensures m < |cs| ==> !PassesHalf(x, cs[m], BatchAt(table, cs[m].openTime))
    decreases |cs| - i
  {
    hide CandleStep, PassesHalf, DecidesHalf, HalfAt, Arrives, Held;
    m, last := i, s;
    if i < |cs| {
      var b := BatchAt(table, cs[i].openTime);
      HalfStep(x, s, cs[i], b, since, events);
      StepKeeps(x, s, cs[i], b, false);
      if PassesHalf(x, cs[i], b) {
        m, last := HalfWalk(x, CandleStep(x, s, cs[i], b, false).state, cs, table, i + 1, e, since, events);
      }
    }
  }

  function Activation(x: Setting, since: int): ReplayEvent {
    ReplayEvent(x.request.armed.signalId, BreakevenActivated, since, KLINE_1M, AtTime(since), BreakevenNextMinute,
                Some(x.levels.breakeven), None)
  }

  /** After TP1 in candle `k`: the stop counts from the next candle on, and candle `m` is the first that decides. */
  ghost predicate HalfStory(
      x: Setting, cs: seq<Candle>, table: Batches, run: Run, head: seq<ReplayEvent>, k: nat, m: nat)
    requires x.armed.events != [] && k < |cs|
  {
    var since := cs[k].CloseTime();
    var active := head + [Activation(x, since)];
    && k < m <= |cs|
    && (forall j :: k < j < m ==> PassesHalf(x, cs[j], BatchAt(table, cs[j].openTime)))
    && if k + 1 == |cs| then RunsOn(run, Leg(HALF_AFTER_TP1, Some(since)), false, head)
       else if m == |cs| then RunsOn(run, Leg(HALF_AFTER_TP1, Some(since)), true, active)
       else
         && !PassesHalf(x, cs[m], BatchAt(table, cs[m].openTime))
         && DecidesHalf(x, cs[m], BatchAt(table, cs[m].openTime), since, active, run)
  }

  /**
   * The run of a position: FULL through every candle before `k`, `step` after it, and unless that closed it HALF
   * through every candle before `m`, which closes it.
   */
  ghost predicate Story(
      x: Setting, cs: seq<Candle>, table: Batches, e: nat, run: Run, k: nat, step: Run, m: nat)
    requires x.armed.events != []
  {
    && e <= k <= |cs|
    && (forall j :: e <= j < k ==> PassesFull(x, cs[j], BatchAt(table, cs[j].openTime), j == e))
    && if k == |cs| then RunsOn(run, Leg(FULL, None), false, x.armed.events)
       else
         && !PassesFull(x, cs[k], BatchAt(table, cs[k].openTime), k == e)
         && DecidesFull(x, cs[k], BatchAt(table, cs[k].openTime), k == e, step)
         && if step.Exited? then run == step else HalfStory(x, cs, table, run, step.state.events, k, m)
  }

  lemma {:induction false} StepActivates(x: Setting, s: State, c: Candle, b: Option<Batch>)
    requires x.armed.events != []
    ensures CandleStep(x, s, c, b, false) == CandleStep(x, Activate(x, s, c.openTime), c, b, false)
  {
    hide Follow, CandlePath, DeadlinePath;
  }

  /** A candle that leaves a FULL position running has taken TP1. */
  lemma {:induction false} DecidedRuns(x: Setting, c: Candle, b: Option<Batch>, isEntry: bool, r: Run)
    requires x.armed.events != [] && DecidesFull(x, c, b, isEntry, r) && r.Running?
    ensures r.state.leg == Leg(HALF_AFTER_TP1, Some(c.CloseTime())) && !r.state.active
    ensures c.openTime < x.deadline
  {
    hide FirstMet, FirstLater, NoBetterThanOpen;
  }

  /** The walk after TP1 in candle `k`. */
  lemma {:induction false} HalfRun(x: Setting, s: State, cs: seq<Candle>, table: Batches, e: nat, k: nat)
    returns (m: nat)
    requires AllArrive(x, cs, table, e, e) && e <= k < |cs|
    requires s.leg == Leg(HALF_AFTER_TP1, Some(cs[k].CloseTime())) && !s.active && Held(x, s, cs[k].CloseTime())
    ensures HalfStory(x, cs, table, Walk(x, s, cs, table, k + 1, e), s.events, k, m)
  {
    hide PassesHalf, DecidesHalf, Arrives, Held, CandleStep;
    m := k + 1;
    if m < |cs| {
      var since, c, b := cs[k].CloseTime(), cs[m], BatchAt(table, cs[m].openTime);
      GridIndex(cs, k, m);
      GridIndex(cs, 0, m);
      var s1 := Activate(x, s, c.openTime);
      HalfMeansActive(x, s, c.openTime);
      StepActivates(x, s, c, b);
      var last;
      m, last := HalfWalk(x, s1, cs, table, k + 1, e, since, s1.events);
      if m < |cs| {
        GridIndex(cs, 0, m);
        HalfStep(x, last, cs[m], BatchAt(table, cs[m].openTime), since, s1.events);
        DecidedHalfExits(x, cs[m], BatchAt(table, cs[m].openTime), since, s1.events,
                         CandleStep(x, last, cs[m], BatchAt(table, cs[m].openTime), false));
      }
    }
  }

  lemma {:induction false} DecidedHalfExits(
      x: Setting, c: Candle, b: Option<Batch>, since: int, events: seq<ReplayEvent>, r: Run)
    requires x.armed.events != [] && DecidesHalf(x, c, b, since, events, r)
    ensures r.Exited?
  {
    hide FirstMet, NoBetterThanOpen;
  }

  /** The whole walk of a launched position. */
  lemma {:induction false} RunTells(x: Setting, cs: seq<Candle>, table: Batches, e: nat)
    returns (k: nat, step: Run, m: nat)
    requires AllArrive(x, cs, table, e, e) && e < |cs| && FullAt(x, Initial(x.armed))
    ensures Story(x, cs, table, e, Walk(x, Initial(x.armed), cs, table, e, e), k, step, m)
  {
    hide PassesFull, DecidesFull, Arrives, Held, CandleStep, HalfStory;
    var last;
    k, last := FullWalk(x, Initial(x.armed), cs, table, e, e);
    step, m := Running(last), 0;
    if k < |cs| {
      var b := BatchAt(table, cs[k].openTime);
      FullStep(x, last, cs[k], b, k == e);
      step := CandleStep(x, last, cs[k], b, k == e);
      if step.Running? {
        FullIsHeld(x, last, cs[k], b, k == e);
        StepKeeps(x, last, cs[k], b, k == e);
        DecidedRuns(x, cs[k], b, k == e, step);
        m := HalfRun(x, step.state, cs, table, e, k);
      }
    }
  }

  // ----- Whole replays ---------------------------------------------------------------------------------------

  /** What the result reports of the run. */
  predicate Reports(t: TradeResult, x: Setting, run: Run) {
    && t.events == run.state.events && t.deadline == Some(x.deadline) && t.breakeven == Some(x.levels.breakeven)
    && match run
       case Running(s) =>
         && t.position == Some(s.leg.position) && t.exitReason == None && t.exitTime == None
         && t.activation == s.leg.activation && t.openFraction == (if s.leg.position == FULL then 1.0 else 0.5)
       case Exited(_, activation, why, time) =>
         && t.position == Some(FLAT) && t.exitReason == Some(why) && t.exitTime == Some(time)
         && t.activation == activation && t.openFraction == 0.0
  }

  /** The setting of an accepted triggered replay: its levels are the request's, a zero breakeven reads as absent. */
  predicate SetsUp(x: Setting, q: TradeRequest, t: TradeResult) {
    && x.request == q && x.armed == t.armed && |x.armed.events| == 1
    && t.armed.entryPrice.Some? && t.armed.entryTime.Some?
    && x.levels == Levels(q.armed.direction, q.armed.stopPrice, q.tp1, q.tp2,
                          if q.breakeven == None || q.breakeven == Some(0.0) then t.armed.entryPrice.value
                          else q.breakeven.value)
    && x.deadline == t.armed.entryTime.value / 900_000 * 900_000 + q.maxHoldingBars * 900_000
  }

  lemma {:induction false} LaunchSetsUp(
      q: TradeRequest, cs: seq<Candle>, batches: seq<Batch>, fee: real, slippage: real)
    requires Accepted(q, cs, batches, fee, slippage) && Triggers(q, cs, batches)
    ensures var g := LaunchOf(q, cs, batches, fee, slippage);
            var t := TradeReplay(q, cs, batches, fee, slippage).value;
            && SetsUp(g.x, q, t) && t == ResultOf(g.x, RunOf(g, cs))
            && BatchTable(cs, batches).Ok? && g.table == BatchTable(cs, batches).value
            && AllArrive(g.x, cs, g.table, g.entryIndex, g.entryIndex)
            && FullAt(g.x, Initial(g.x.armed))
            && t.armed.entryCandleOpen == Some(cs[g.entryIndex].openTime)
  {
    hide Walk, ArmedFrom, Arrives;
    AcceptedLaunches(q, cs, batches, fee, slippage);
    LaunchArrives(q, cs, batches, fee, slippage);
    TriggeredShape(q.armed, cs, BatchTable(cs, batches).value, 0, 0, 0);
  }

  lemma {:induction false} ResultReports(x: Setting, run: Run)
    requires run.Running? ==> run.state.leg.position != FLAT
    ensures Reports(ResultOf(x, run), x, run)
  {
  }

  lemma {:induction false} StoryRuns(
      x: Setting, cs: seq<Candle>, table: Batches, e: nat, run: Run, k: nat, step: Run, m: nat)
    requires x.armed.events != [] && Story(x, cs, table, e, run, k, step, m) && run.Running?
    ensures run.state.leg.position != FLAT
  {
    hide PassesFull, DecidesFull, PassesHalf, DecidesHalf;
    if k < |cs| && !step.Exited? && k + 1 < |cs| && m < |cs| {
      DecidedHalfExits(x, cs[m], BatchAt(table, cs[m].openTime), cs[k].CloseTime(),
                       step.state.events + [Activation(x, cs[k].CloseTime())], run);
    }
  }

  /**
   * The whole triggered replay in prices. The position stays FULL up to the first candle at whose trades, or at
   * whose ends, the stop or TP1 is met; after TP1 it stays HALF up to the first at the breakeven stop, which counts
   * from the next candle on, or TP2; a candle at or after the deadline closes what is left.
   */
  lemma {:induction false} TradeExactly(
      q: TradeRequest, cs: seq<Candle>, batches: seq<Batch>, fee: real, slippage: real)
    returns (x: Setting, e: nat, run: Run, k: nat, step: Run, m: nat)
    requires Accepted(q, cs, batches, fee, slippage) && Triggers(q, cs, batches)
    ensures var t := TradeReplay(q, cs, batches, fee, slippage).value;
            && SetsUp(x, q, t) && Reports(t, x, run)
            && e < |cs| && t.armed.entryCandleOpen == Some(cs[e].openTime)
            && BatchTable(cs, batches).Ok?
            && AllArrive(x, cs, BatchTable(cs, batches).value, e, e)
            && Story(x, cs, BatchTable(cs, batches).value, e, run, k, step, m)
  {
    hide Story, Walk, TradeReplay, AllArrive;
    var g := LaunchOf(q, cs, batches, fee, slippage);
    LaunchSetsUp(q, cs, batches, fee, slippage);
    x, e, run := g.x, g.entryIndex, RunOf(g, cs);
    k, step, m := RunTells(x, cs, g.table, e);
    if run.Running? { StoryRuns(x, cs, g.table, e, run, k, step, m); }
    ResultReports(x, run);
  }

  // ----- The entry candle ------------------------------------------------------------------------------------

  predicate Inside(c: Candle, time: int) { c.openTime <= time < c.CloseTime() }

  lemma {:induction false} MetInside(
      d: Direction, adverse: real, favorable: real, e: ReplayEvent, c: Candle, b: Option<Batch>, isEntry: bool,
      p: Point)
    requires FirstMet(d, adverse, favorable, e, c, b, isEntry, p)
    requires b.Some? ==> ValidBatch(b.value) && b.value.openTime == c.openTime
    ensures Inside(c, p.time)
  {
  }

  /** The first event after the entry is inside the candle that decides. */
  lemma {:induction false} MetFullInside(x: Setting, c: Candle, b: Option<Batch>, isEntry: bool, r: Run)
    requires x.armed.events != [] && MetFull(x, c, b, isEntry, r)
    requires b.Some? ==> ValidBatch(b.value) && b.value.openTime == c.openTime
    ensures |r.state.events| >= 2 && Inside(c, r.state.events[1].time)
  {
    hide FirstMet, FirstLater;
    var l, id, entry := x.levels, x.request.armed.signalId, x.armed.events[0];
    var p :| FirstMet(l.direction, l.stop, l.tp1, entry, c, b, isEntry, p) &&
      if Hurts(l.direction, l.stop, p.price)
      then ExitsAt(r, id, [entry], p, StopFill, InitialStop, l.stop, 1.0, SL, None)
      else RestOfCandle(x, c, b, isEntry, p, [entry, FillAt(id, p, Tp1Fill, Tp1Target, l.tp1, 0.5)], r);
    MetInside(l.direction, l.stop, l.tp1, entry, c, b, isEntry, p);
  }

  lemma {:induction false} DecidedInside(x: Setting, c: Candle, b: Option<Batch>, isEntry: bool, r: Run)
    requires x.armed.events != [] && DecidesFull(x, c, b, isEntry, r)
    requires b.Some? ==> ValidBatch(b.value) && b.value.openTime == c.openTime
    ensures |r.state.events| >= 2 && Inside(c, r.state.events[1].time)
  {
    hide MetFull;
    if c.openTime >= x.deadline {
      var o :| OrdinaryFull(x, c, b, o) && AtDeadline(x, c, [x.armed.events[0]], 1.0, None, o, r);
      if !QuietFull(x, c, b, false) { MetFullInside(x, c, b, false, o); }
    } else if !Forced(x, b, isEntry) {
      MetFullInside(x, c, b, isEntry, r);
    }
  }

  /** What happens after TP1 only adds to the log. */
  lemma {:induction false} StoryExtends(
      x: Setting, cs: seq<Candle>, table: Batches, run: Run, head: seq<ReplayEvent>, k: nat, m: nat)
    requires x.armed.events != [] && k < |cs| && HalfStory(x, cs, table, run, head, k, m)
    ensures head <= run.state.events
  {
    hide Quiet, FirstMet;
  }

  /** The candle that decides a FULL position holds the second event of the log; without one there is none. */
  lemma {:induction false} SecondEvent(
      x: Setting, cs: seq<Candle>, table: Batches, e: nat, run: Run, k: nat, step: Run, m: nat)
    requires AllArrive(x, cs, table, e, e) && Story(x, cs, table, e, run, k, step, m)
    ensures k == |cs| ==> run.state.events == x.armed.events
    ensures k < |cs| ==> |run.state.events| >= 2 && |step.state.events| >= 2
    ensures k < |cs| ==> run.state.events[1] == step.state.events[1] && Inside(cs[k], run.state.events[1].time)
  {
    hide PassesFull, DecidesFull, HalfStory, Tradable;
    if k < |cs| {
      DecidedInside(x, cs[k], BatchAt(table, cs[k].openTime), k == e, step);
      if !step.Exited? { StoryExtends(x, cs, table, run, step.state.events, k, m); }
    }
  }

  /** What a trade that is first at the stop or TP1 leaves in the log. */
  predicate FirstFill(x: Setting, u: AggTrade, r: Run) {
    var id, l := x.request.armed.signalId, x.levels;
    && |r.state.events| >= 2
    && if Hurts(l.direction, l.stop, u.price) then
         && r.Exited? && r.reason == SL && r.time == u.time
         && r.state.events[1] == FillAt(id, PointOf(u), StopFill, InitialStop, l.stop, 1.0)
       else r.state.events[1] == FillAt(id, PointOf(u), Tp1Fill, Tp1Target, l.tp1, 0.5)
  }

  lemma {:induction false} MetByTrade(x: Setting, c: Candle, b: Option<Batch>, isEntry: bool, r: Run, u: AggTrade)
    requires x.armed.events != [] && Complete(b) && MetFull(x, c, b, isEntry, r)
    requires FirstCounting(x.levels.direction, x.levels.stop, x.levels.tp1, x.armed.events[0], b.value, isEntry, u)
    ensures FirstFill(x, u, r)
  {
    hide FirstLater, Reaches, Counts;
    var l, id, entry := x.levels, x.request.armed.signalId, x.armed.events[0];
    var p :| FirstMet(l.direction, l.stop, l.tp1, entry, c, b, isEntry, p) &&
      if Hurts(l.direction, l.stop, p.price)
      then ExitsAt(r, id, [entry], p, StopFill, InitialStop, l.stop, 1.0, SL, None)
      else RestOfCandle(x, c, b, isEntry, p, [entry, FillAt(id, p, Tp1Fill, Tp1Target, l.tp1, 0.5)], r);
    assert p == PointOf(u);
  }

  lemma {:induction false} EntryStory(
      x: Setting, cs: seq<Candle>, table: Batches, e: nat, run: Run, k: nat, step: Run, m: nat)
    requires AllArrive(x, cs, table, e, e) && e < |cs| && Story(x, cs, table, e, run, k, step, m)
    requires Complete(BatchAt(table, cs[e].openTime))
    ensures var b, entry, l := BatchAt(table, cs[e].openTime), x.armed.events[0], x.levels;
            && (forall u :: FirstCounting(l.direction, l.stop, l.tp1, entry, b.value, true, u) ==> FirstFill(x, u, run))
            && ((|run.state.events| >= 2 ==> run.state.events[1].time >= cs[e].CloseTime()) <==>
                  QuietFull(x, cs[e], b, true))
  {
    hide MetFull, HalfStory, Tradable, Reaches, Counts;
    var b, l := BatchAt(table, cs[e].openTime), x.levels;
    SecondEvent(x, cs, table, e, run, k, step, m);
    if QuietFull(x, cs[e], b, true) {
      assert k > e;
      if k < |cs| { GridIndex(cs, e, k); }
    } else {
      assert k == e;
      forall u | FirstCounting(l.direction, l.stop, l.tp1, x.armed.events[0], b.value, true, u)
        ensures FirstFill(x, u, run)
      {
        MetByTrade(x, cs[e], b, true, step, u);
      }
    }
  }

  /**
   * The entry candle with a complete batch: the first of its trades after the entry that is at the stop or TP1 is
   * what happens, and without one the position is still FULL when the candle is over.
   */
  lemma {:induction false} EntryCandleExactly(
      q: TradeRequest, cs: seq<Candle>, batches: seq<Batch>, fee: real, slippage: real) returns (e: nat)
    requires Accepted(q, cs, batches, fee, slippage) && Triggers(q, cs, batches)
    ensures var t := TradeReplay(q, cs, batches, fee, slippage).value;
            && e < |cs| && t.armed.entryCandleOpen == Some(cs[e].openTime) && |t.armed.events| == 1
            && BatchTable(cs, batches).Ok?
            && var d, stop, tp1 := q.armed.direction, q.armed.stopPrice, q.tp1;
               var b, entry := BatchAt(BatchTable(cs, batches).value, cs[e].openTime), t.armed.events[0];
               Complete(b) ==>
                 && (forall u :: FirstCounting(d, stop, tp1, entry, b.value, true, u) ==>
                       && |t.events| >= 2
                       && if Hurts(d, stop, u.price) then
                            && t.exitReason == Some(SL) && t.exitTime == Some(u.time)
                            && t.events[1] == ReplayEvent(q.armed.signalId, StopFill, u.time, AGG_TRADE, AtTrade(u.id),
                                                          InitialStop, Some(stop), Some(1.0))
                          else
                            t.events[1] == ReplayEvent(q.armed.signalId, Tp1Fill, u.time, AGG_TRADE, AtTrade(u.id),
                                                       Tp1Target, Some(tp1), Some(0.5)))
                 && ((|t.events| >= 2 ==> t.events[1].time >= cs[e].CloseTime()) <==>
                       forall u :: Counts(entry, b.value, true, u) ==> !Reaches(d, stop, tp1, u.price))
  {
    hide Story, TradeReplay, Walk, AllArrive, Reaches, Counts, FirstCounting;
    var x, run, k, step, m;
    x, e, run, k, step, m := TradeExactly(q, cs, batches, fee, slippage);
    var table := BatchTable(cs, batches).value;
    if Complete(BatchAt(table, cs[e].openTime)) {
      EntryStory(x, cs, table, e, run, k, step, m);
    }
  }

  /**
   * An entry on a bar without trades whose range also reaches the invalidation stops out in that candle, at the
   * stop price and for the whole position, although the bar's own low need not reach the stop.
   */
  lemma {:induction false} EntryBarStops(
      q: TradeRequest, cs: seq<Candle>, batches: seq<Batch>, fee: real, slippage: real) returns (e: nat)
    requires Accepted(q, cs, batches, fee, slippage) && Triggers(q, cs, batches)
    ensures var t := TradeReplay(q, cs, batches, fee, slippage).value;
            && e < |cs| && t.armed.entryCandleOpen == Some(cs[e].openTime) && |t.armed.events| == 1
            && BatchTable(cs, batches).Ok?
            && (!Complete(BatchAt(BatchTable(cs, batches).value, cs[e].openTime))
                && (if q.armed.direction == Long then cs[e].low <= q.armed.invalidationPrice
                    else cs[e].high >= q.armed.invalidationPrice) ==>
                  && t.armed.stopAlsoTouched
                  && t.exitReason == Some(SL) && t.exitTime == Some(cs[e].openTime)
                  && t.events == [t.armed.events[0],
                                  ReplayEvent(q.armed.signalId, StopFill, cs[e].openTime, KLINE_1M,
                                              AtTime(cs[e].openTime), InitialStop, Some(q.armed.stopPrice), Some(1.0)),
                                  ReplayEvent(q.armed.signalId, ClosedEvent, cs[e].openTime, KLINE_1M,
                                              AtTime(cs[e].openTime), InitialStop, Some(q.armed.stopPrice), None)])
  {
    hide TradeReplay, Walk, MetFull, HalfStory, Quiet, OrdinaryFull;
    var x, run, k, step, m;
    x, e, run, k, step, m := TradeExactly(q, cs, batches, fee, slippage);
    var at := StopAlsoExactly(q.armed, cs, batches);
    AcceptedLaunches(q, cs, batches, fee, slippage);
    GridIndex(cs, e, at);
    assert at == e;
    if Forced(x, BatchAt(BatchTable(cs, batches).value, cs[e].openTime), true) {
      assert k == e;
    }
  }

  // ----- Errors ----------------------------------------------------------------------------------------------

  /** A price strictly between the stop and TP2. */
  predicate BetweenStopAndTp2(q: TradeRequest, price: real) {
    if q.armed.direction == Long then q.armed.stopPrice < price && price < q.tp2
    else q.armed.stopPrice > price && price > q.tp2
  }

  /**
   * When a replay fails: for the candles and batches as the armed replay does, and once triggered first for a
   * breakeven, the entry where none was asked, that is not strictly between stop and TP2, then for the rates.
   */
  lemma {:induction false} TradeFailsExactly(
      q: TradeRequest, cs: seq<Candle>, batches: seq<Batch>, fee: real, slippage: real)
    ensures var a, t := ArmedReplay(q.armed, cs, batches), TradeReplay(q, cs, batches, fee, slippage);
            if a.Err? then t == Err(a.error)
            else if a.value.state != TRIGGERED then t.Ok?
            else
              && a.value.entryPrice.Some?
              && var breakeven := if q.breakeven == None || q.breakeven == Some(0.0) then a.value.entryPrice.value
                                  else q.breakeven.value;
                 if !BetweenStopAndTp2(q, breakeven) then t == Err(BreakevenOutsideStopAndTp2)
                 else if fee < 0.0 || fee >= 1.0 || slippage < 0.0 || slippage >= 1.0 then t == Err(BadDeadlineRates)
                 else t.Ok?
  {
    hide Walk, ArmedFrom;
    if Triggers(q, cs, batches) { TriggeredShape(q.armed, cs, BatchTable(cs, batches).value, 0, 0, 0); }
  }
}
