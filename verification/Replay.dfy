/** The replay loops of `replay_trade` and its deadline helpers, proved against the step machine. */
module Replay {
  import opened Basics
  import opened Market
  import opened Armed
  import opened Trade

  lemma {:induction false} FillEventsConcat(id: string, f: seq<Fill>, g: seq<Fill>)
    ensures FillEvents(id, f + g) == FillEvents(id, f) + FillEvents(id, g)
    decreases |g|
  {
    if g == [] {
      assert f + g == f;
    } else {
      var g' := g[..|g| - 1];
      assert (f + g)[..|f + g| - 1] == f + g';
      FillEventsConcat(id, f, g');
    }
  }

  lemma {:induction false} FollowPrepend(x: Setting, s: State, f: seq<Fill>, leg: Leg, p: Path)
    requires p.Shut? ==> p.fills != []
    ensures Follow(x, s, Prepend(f, p)) ==
            Follow(x, s.(leg := leg, events := s.events + FillEvents(x.request.armed.signalId, f)), p)
  {
    var id := x.request.armed.signalId;
    FillEventsConcat(id, f, p.fills);
    assert s.events + (FillEvents(id, f) + FillEvents(id, p.fills)) ==
      s.events + FillEvents(id, f) + FillEvents(id, p.fills);
  }

  lemma {:induction false} FillEventsSmall(id: string, f: Fill, g: Fill)
    ensures FillEvents(id, []) == []
    ensures FillEvents(id, [f]) == [FillEvent(id, f)]
    ensures FillEvents(id, [f, g]) == [FillEvent(id, f), FillEvent(id, g)]
  {
  }

  /** One more trade of the list: either it closes the position, or the walk goes on from the new leg. */
  lemma {:induction false} TicksStep(x: Setting, s: State, trades: seq<AggTrade>, close: int)
    requires trades != []
    ensures var p := Tick(x.levels, s.leg, s.active, trades[0], close);
            Follow(x, s, Ticks(x.levels, s.leg, s.active, trades, close)) ==
            if p.Shut? then Follow(x, s, p)
            else Follow(x, s.(leg := p.leg, events := s.events + FillEvents(x.request.armed.signalId, p.fills)),
                        Ticks(x.levels, p.leg, s.active, trades[1..], close))
  {
    match Tick(x.levels, s.leg, s.active, trades[0], close)
    case Shut(_, _, _) =>
    case Open(f, leg) => FollowPrepend(x, s, f, leg, Ticks(x.levels, leg, s.active, trades[1..], close));
  }

  lemma {:induction false} DeadlinePathIgnoresCounts(x: Setting, s: State, t: State, c: Candle, b: Option<Batch>)
    requires s.leg == t.leg && s.active == t.active
    ensures DeadlinePath(x, s, c, b) == DeadlinePath(x, t, c, b)
  {
  }

  /** A fill and the CLOSED event that follows it (`_closed_events`, `_trade_result`). */
  method CloseWith(x: Setting, s: State, f: Fill, why: ExitReason, activation: Option<int>) returns (r: Run)
    ensures r == Follow(x, s, Shut([f], why, activation))
  {
    var id := x.request.armed.signalId;
    FillEventsSmall(id, f, f);
    r := Exited(s.(leg := Leg(FLAT, None), events := s.events + [FillEvent(id, f), ClosedBy(id, f)]), activation, why,
      f.time);
  }

  /** The aggregate-trade loop of one candle in `replay_trade`. */
  method FollowTrades(x: Setting, s: State, trades: seq<AggTrade>, close: int) returns (r: Run)
    ensures r == Follow(x, s, Ticks(x.levels, s.leg, s.active, trades, close))
  {
    hide FillEvent;
    var l, id := x.levels, x.request.armed.signalId;
    var position, activation, events := s.leg.position, s.leg.activation, s.events;
    var k := 0;
    while k < |trades|
      invariant 0 <= k <= |trades|
      invariant Follow(x, s, Ticks(l, s.leg, s.active, trades, close)) ==
                Follow(x, s.(leg := Leg(position, activation), events := events),
                       Ticks(l, Leg(position, activation), s.active, trades[k..], close))
    {
      var trade := trades[k];
      var ref := AtTrade(trade.id);
      ghost var now := s.(leg := Leg(position, activation), events := events);
      assert trades[k..][0] == trade && trades[k..][1..] == trades[k + 1..];
      TicksStep(x, now, trades[k..], close);
      k := k + 1;
      if position == FULL {
        if Touches(l.direction, trade.price, l.stop, false) {
          r := CloseWith(x, s.(events := events), StopAt(l, trade.time, ref, AGG_TRADE), SL, None);
          return;
        }
        if Touches(l.direction, trade.price, l.tp1, true) {
          var tp1 := Tp1At(l, trade.time, ref, AGG_TRADE);
          FillEventsSmall(id, tp1, Tp2At(l, trade.time, ref, AGG_TRADE));
          events := events + [FillEvent(id, tp1)];
          if Touches(l.direction, trade.price, l.tp2, true) {
            FollowPrepend(x, now, [tp1], now.leg, Shut([Tp2At(l, trade.time, ref, AGG_TRADE)], TP2, None));
            r := CloseWith(x, s.(events := events), Tp2At(l, trade.time, ref, AGG_TRADE), TP2, None);
            return;
          }
          position, activation := HALF_AFTER_TP1, Some(close);
          continue;
        }
      }
      FillEventsSmall(id, StopAt(l, 0, ref, AGG_TRADE), StopAt(l, 0, ref, AGG_TRADE));
      if position == HALF_AFTER_TP1 {
        if Touches(l.direction, trade.price, ProtectiveStop(l, s.active), false) {
          r := CloseWith(x, s.(events := events), HalfStopFill(l, s.active, trade.time, ref, AGG_TRADE),
                         HalfStopReason(s.active), activation);
          return;
        }
        if Touches(l.direction, trade.price, l.tp2, true) {
          r := CloseWith(x, s.(events := events), Tp2At(l, trade.time, ref, AGG_TRADE), TP2, activation);
          return;
        }
      }
      assert events + [] == events;
    }
    FillEventsSmall(id, StopAt(l, 0, AtTime(0), AGG_TRADE), StopAt(l, 0, AtTime(0), AGG_TRADE));
    r := Running(s.(leg := Leg(position, activation), events := events));
    assert events + [] == events;
  }

  /** The OHLC fallback of one candle in `replay_trade`. */
  method FollowBar(x: Setting, s: State, forceStop: bool, c: Candle) returns (r: Run)
    ensures r == Follow(x, s, Bar(x.levels, s.leg, s.active, forceStop, c))
  {
    var l, id, ref := x.levels, x.request.armed.signalId, AtTime(c.openTime);
    var stopTouched := if l.direction == Long then c.low <= l.stop else c.high >= l.stop;
    var tp1Touched := if l.direction == Long then c.high >= l.tp1 else c.low <= l.tp1;
    var tp2Touched := if l.direction == Long then c.high >= l.tp2 else c.low <= l.tp2;
    var tp1, tp2 := Tp1At(l, c.openTime, ref, KLINE_1M), Tp2At(l, c.openTime, ref, KLINE_1M);
    FillEventsSmall(id, tp1, tp2);
    if s.leg.position == FULL {
      if stopTouched || forceStop {
        r := CloseWith(x, s, StopAt(l, c.openTime, ref, KLINE_1M), SL, None);
        return;
      }
      if tp1Touched {
        var events := s.events + [FillEvent(id, tp1)];
        if tp2Touched {
          FollowPrepend(x, s, [tp1], s.leg, Shut([tp2], TP2, None));
          r := CloseWith(x, s.(events := events), tp2, TP2, None);
          return;
        }
        return Running(s.(leg := Leg(HALF_AFTER_TP1, Some(c.CloseTime())), events := events));
      }
    }
    if s.leg.position == HALF_AFTER_TP1 {
      var breakevenTouched := s.active && (if l.direction == Long then c.low <= l.breakeven else c.high >= l.breakeven);
      if breakevenTouched {
        r := CloseWith(x, s, HalfStopFill(l, true, c.openTime, ref, KLINE_1M), BREAKEVEN_AFTER_TP1, s.leg.activation);
        return;
      }
      if tp2Touched {
        r := CloseWith(x, s, tp2, TP2, s.leg.activation);
        return;
      }
    }
    r := Running(s);
    assert s.events + [] == s.events;
  }

  lemma {:induction false} RiskStep(
      l: Levels, fills: seq<Fill>, leg: Leg, active: bool, trades: seq<AggTrade>, close: int)
    requires trades != []
    ensures var p := Tick(l, leg, active, trades[0], close);
            RiskOf(Prepend(fills, Ticks(l, leg, active, trades, close))) ==
            if p.Shut? then RiskExit(fills + p.fills, p.reason)
            else RiskOf(Prepend(fills + p.fills, Ticks(l, p.leg, active, trades[1..], close)))
  {
  }

  /** The trade loop of `_deadline_risk_path`. */
  method RiskTrades(l: Levels, position: Position, active: bool, trades: seq<AggTrade>, close: int) returns (k: Risk)
    ensures k == RiskOf(Ticks(l, Leg(position, None), active, trades, close))
  {
    var fills: seq<Fill>, simulated := [], position;
    ghost var leg := Leg(position, None);
    var i := 0;
    while i < |trades|
      invariant 0 <= i <= |trades| && leg.position == simulated
      invariant RiskOf(Ticks(l, Leg(position, None), active, trades, close)) ==
                RiskOf(Prepend(fills, Ticks(l, leg, active, trades[i..], close)))
    {
      var trade := trades[i];
      var ref := AtTrade(trade.id);
      assert trades[i..][0] == trade && trades[i..][1..] == trades[i + 1..];
      RiskStep(l, fills, leg, active, trades[i..], close);
      i := i + 1;
      if simulated == FULL {
        if Touches(l.direction, trade.price, l.stop, false) {
          return RiskExit(fills + [StopAt(l, trade.time, ref, AGG_TRADE)], SL);
        }
        if Touches(l.direction, trade.price, l.tp1, true) {
          ghost var before := fills;
          fills := fills + [Tp1At(l, trade.time, ref, AGG_TRADE)];
          simulated := HALF_AFTER_TP1;
          leg := Leg(HALF_AFTER_TP1, Some(close));
          if Touches(l.direction, trade.price, l.tp2, true) {
            fills := fills + [Tp2At(l, trade.time, ref, AGG_TRADE)];
            assert fills == before + [Tp1At(l, trade.time, ref, AGG_TRADE), Tp2At(l, trade.time, ref, AGG_TRADE)];
            return RiskExit(fills, TP2);
          }
          continue;
        }
      }
      if simulated == HALF_AFTER_TP1 {
        if Touches(l.direction, trade.price, ProtectiveStop(l, active), false) {
          return RiskExit(fills + [HalfStopFill(l, active, trade.time, ref, AGG_TRADE)], HalfStopReason(active));
        }
        if Touches(l.direction, trade.price, l.tp2, true) {
          return RiskExit(fills + [Tp2At(l, trade.time, ref, AGG_TRADE)], TP2);
        }
      }
      assert fills + [] == fills;
    }
    k := NoRisk;
  }

  /** `_deadline_risk_path`. */
  method DeadlineRiskPath(l: Levels, position: Position, active: bool, c: Candle, b: Option<Batch>) returns (k: Risk)
    ensures k == RiskPath(l, position, active, c, b)
  {
    if b.Some? && b.value.complete {
      k := RiskTrades(l, position, active, Ordered(b.value.trades), c.CloseTime());
      return;
    }
    var ref := AtTime(c.openTime);
    var adverse := if l.direction == Long then c.low else c.high;
    var favorable := if l.direction == Long then c.high else c.low;
    var tp2Touched := Touches(l.direction, favorable, l.tp2, true);
    if position == FULL {
      if Touches(l.direction, adverse, l.stop, false) {
        return RiskExit([StopAt(l, c.openTime, ref, KLINE_1M)], SL);
      }
      if Touches(l.direction, favorable, l.tp1, true) && tp2Touched {
        return RiskExit([Tp1At(l, c.openTime, ref, KLINE_1M), Tp2At(l, c.openTime, ref, KLINE_1M)], TP2);
      }
      return NoRisk;
    }
    if Touches(l.direction, adverse, ProtectiveStop(l, active), false) {
      return RiskExit([HalfStopFill(l, active, c.openTime, ref, KLINE_1M)], HalfStopReason(active));
    }
    k := if tp2Touched then RiskExit([Tp2At(l, c.openTime, ref, KLINE_1M)], TP2) else NoRisk;
  }

  /** `_deadline_exit_cashflow`. */
  method DeadlineExitCashflow(d: Direction, fills: seq<Fill>, fee: real, slippage: real) returns (total: real)
    ensures total == CashOf(d, fee, slippage, fills)
  {
    total := 0.0;
    for i := 0 to |fills|
      invariant total == CashOf(d, fee, slippage, fills[..i])
    {
      var fill := fills[i];
      assert fills[..i + 1][..i] == fills[..i];
      if d == Long {
        var simulated := fill.price * (1.0 - slippage);
        total := total + simulated * fill.fraction * (1.0 - fee);
      } else {
        var simulated := fill.price * (1.0 + slippage);
        total := total - simulated * fill.fraction * (1.0 + fee);
      }
    }
    assert fills[..|fills|] == fills;
  }

  /** The events of a closing path: its fills in order, then CLOSED. */
  method CloseAlong(x: Setting, s: State, fills: seq<Fill>, why: ExitReason, activation: Option<int>) returns (r: Run)
    requires fills != []
    ensures r == Follow(x, s, Shut(fills, why, activation))
  {
    var last, id := |fills| - 1, x.request.armed.signalId;
    var events := s.events;
    for i := 0 to last
      invariant events == s.events + FillEvents(id, fills[..i])
    {
      assert fills[..i + 1][..i] == fills[..i];
      events := events + [FillEvent(id, fills[i])];
    }
    FollowPrepend(x, s, fills[..last], s.leg, Shut([fills[last]], why, activation));
    assert fills[..last] + [fills[last]] == fills;
    r := CloseWith(x, s.(events := events), fills[last], why, activation);
  }

  /** The comparison of the deadline branch of `replay_trade`. */
  method ChooseDeadlinePath(x: Setting, s: State, c: Candle, b: Option<Batch>) returns (p: Path)
    ensures p == DeadlinePath(x, s, c, b)
  {
    var l := x.levels;
    var risk := DeadlineRiskPath(l, s.leg.position, s.active, c, b);
    var timeFill := TimeFill(s.leg.position, c);
    var timeCash := DeadlineExitCashflow(l.direction, [timeFill], x.fee, x.slippage);
    if risk.RiskExit? {
      var riskCash := DeadlineExitCashflow(l.direction, risk.fills, x.fee, x.slippage);
      if riskCash <= timeCash {
        return Shut(risk.fills, risk.reason, s.leg.activation);
      }
    }
    p := Shut([timeFill], TIME_EXIT, s.leg.activation);
  }

  /** One turn of the candle loop of `replay_trade`. */
  method FollowCandle(x: Setting, s: State, c: Candle, b: Option<Batch>, isEntry: bool) returns (r: Run)
    requires x.armed.events != []
    ensures r == CandleStep(x, s, c, b, isEntry)
  {
    hide Follow;
    var events, active := s.events, s.active;
    if s.leg.activation.Some? && !active && c.openTime >= s.leg.activation.value {
      events := events + [ActivationEvent(x.request.armed.signalId, s.leg.activation.value, x.levels.breakeven)];
      active := true;
    }
    var fallback, aggregateUsed := s.fallbackCount, s.aggregateUsed;
    var complete := b.Some? && b.value.complete;
    if c.openTime >= x.deadline || !isEntry {
      if complete {
        aggregateUsed := true;
      } else {
        fallback := fallback + 1;
      }
    }
    var awake := State(s.leg, active, events, s.fallbackCount, s.aggregateUsed);
    assert awake == Activate(x, s, c.openTime);
    var now := State(s.leg, active, events, fallback, aggregateUsed);
    if c.openTime >= x.deadline {
      var p := ChooseDeadlinePath(x, now, c, b);
      DeadlinePathIgnoresCounts(x, now, awake, c, b);
      r := CloseAlong(x, now, p.fills, p.reason, p.activation);
    } else if complete {
      r := FollowTrades(x, now, CandleTrades(x.armed.events[0], b.value, isEntry), c.CloseTime());
    } else {
      r := FollowBar(x, now, isEntry && x.armed.stopAlsoTouched, c);
    }
  }

  /** The candle loop of `replay_trade`, from the entry candle on. */
  method FollowCandles(x: Setting, cs: seq<Candle>, byOpen: Batches, entryIndex: nat) returns (result: TradeResult)
    requires x.armed.events != [] && entryIndex <= |cs|
    ensures result == ResultOf(x, Walk(x, Initial(x.armed), cs, byOpen, entryIndex, entryIndex))
  {
    var s := Initial(x.armed);
    var i := entryIndex;
    while i < |cs|
      invariant entryIndex <= i <= |cs|
      invariant Walk(x, Initial(x.armed), cs, byOpen, entryIndex, entryIndex) == Walk(x, s, cs, byOpen, i, entryIndex)
    {
      var r := FollowCandle(x, s, cs[i], BatchAt(byOpen, cs[i].openTime), i == entryIndex);
      if r.Exited? {
        return ResultOf(x, r);
      }
      s := r.state;
      i := i + 1;
    }
    result := ResultOf(x, Running(s));
  }

  /** `replay_trade`. */
  method ReplayTrade(q: TradeRequest, cs: seq<Candle>, batches: seq<Batch>, fee: real := 0.0, slippage: real := 0.0)
    returns (result: Result<TradeResult, ReplayError>)
    ensures result == TradeReplay(q, cs, batches, fee, slippage)
  {
    var armedResult := ReplayArmed(q.armed, cs, batches);
    if armedResult.Err? {
      return Err(armedResult.error);
    }
    var a := armedResult.value;
    if a.state != TRIGGERED {
      return Ok(Untriggered(q, a));
    }
    TriggeredShape(q.armed, cs, BatchTable(cs, batches).value, 0, 0, 0);
    var x := SettingOf(q, a, fee, slippage);
    if !BreakevenOrdered(x.levels) {
      return Err(BreakevenOutsideStopAndTp2);
    }
    var byOpen := AggregateTradeMap(cs, batches);
    if fee < 0.0 || slippage < 0.0 || fee >= 1.0 || slippage >= 1.0 {
      return Err(BadDeadlineRates);
    }
    var trade := FollowCandles(x, cs, byOpen.value, Positions(cs)[a.entryCandleOpen.value]);
    result := Ok(trade);
  }
}
