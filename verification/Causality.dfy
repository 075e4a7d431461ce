/** No look-ahead: later candles never change what earlier candles decided. */
module Causality {
  import opened Basics
  import opened Market
  import opened Armed
  import opened Trade
  import opened Shape
  import opened Runs

  lemma {:induction false} PrefixValid(cs: seq<Candle>, more: seq<Candle>)
    requires ValidCandles(cs + more) && cs != []
    ensures ValidCandles(cs)
    ensures forall t :: t in Positions(cs) ==> t in Positions(cs + more) && Positions(cs + more)[t] == Positions(cs)[t]
  {
    var all := cs + more;
    assert forall i :: 0 <= i < |cs| ==> cs[i] == all[i];
    forall t | t in Positions(cs) ensures t in Positions(all) && Positions(all)[t] == Positions(cs)[t] {
      var i := Positions(cs)[t];
      assert all[i].openTime == t;
      var j := Positions(all)[t];
      assert all[j].openTime == all[0].openTime + j * MINUTE && all[i].openTime == all[0].openTime + i * MINUTE;
    }
  }

  lemma {:induction false} TablePrefix(cs: seq<Candle>, more: seq<Candle>, table: Batches, batches: seq<Batch>)
    requires ValidCandles(cs + more) && cs != [] && ValidCandles(cs) && TableFrom(cs, table, batches).Ok?
    ensures TableFrom(cs + more, table, batches) == TableFrom(cs, table, batches)
    decreases |batches|
  {
    PrefixValid(cs, more);
    if batches != [] {
      var b := batches[0];
      assert (cs + more)[Positions(cs)[b.openTime]] == cs[Positions(cs)[b.openTime]];
      TablePrefix(cs, more, AddBatch(cs, table, b).value, batches[1..]);
    }
  }

  /** An armed signal decided within `cs` is decided the same way with more candles after it. */
  lemma {:induction false} ArmedPrefix(
      r: ArmedRequest, cs: seq<Candle>, more: seq<Candle>, table: Batches, i: nat, fallback: nat,
      aggregate: nat)
    requires i <= |cs|
    ensures var a := ArmedFrom(r, cs, table, i, fallback, aggregate);
            if a.state == ARMED then a.events == [] else ArmedFrom(r, cs + more, table, i, fallback, aggregate) == a
    decreases |cs| - i
  {
    if i < |cs| {
      var c := cs[i];
      assert (cs + more)[i] == c;
      var b := BatchAt(table, c.openTime);
      var fallback' := if Complete(b) then fallback else fallback + 1;
      var aggregate' := if Complete(b) then aggregate + 1 else aggregate;
      if c.openTime < r.confirmationClose {
        ArmedPrefix(r, cs, more, table, i + 1, fallback, aggregate);
      } else if c.openTime < r.expiresAt && Decide(r, c, b).Wait? {
        ArmedPrefix(r, cs, more, table, i + 1, fallback', aggregate');
      }
    }
  }

  /** A walk over a prefix: its exit stands, and while it runs the longer walk goes on from its state. */
  lemma {:induction false} WalkPrefix(
      x: Setting, s: State, cs: seq<Candle>, more: seq<Candle>, table: Batches, i: nat, entryIndex: nat)
    requires x.armed.events != [] && i <= |cs|
    ensures var r := Walk(x, s, cs, table, i, entryIndex);
            Walk(x, s, cs + more, table, i, entryIndex) ==
            if r.Exited? then r else Walk(x, r.state, cs + more, table, |cs|, entryIndex)
    decreases |cs| - i
  {
    if i < |cs| {
      assert (cs + more)[i] == cs[i];
      var r := CandleStep(x, s, cs[i], BatchAt(table, cs[i].openTime), i == entryIndex);
      if r.Running? {
        WalkPrefix(x, r.state, cs, more, table, i + 1, entryIndex);
        assert Walk(x, s, cs + more, table, i, entryIndex) == Walk(x, r.state, cs + more, table, i + 1, entryIndex);
        assert Walk(x, s, cs, table, i, entryIndex) == Walk(x, r.state, cs, table, i + 1, entryIndex);
      }
    }
  }

  /** Events are only ever appended. */
  lemma {:induction false} WalkAppends(x: Setting, s: State, cs: seq<Candle>, table: Batches, i: nat, entryIndex: nat)
    requires x.armed.events != [] && i <= |cs|
    ensures s.events <= Walk(x, s, cs, table, i, entryIndex).state.events
    decreases |cs| - i
  {
    if i < |cs| {
      StepAppends(x, s, cs[i], BatchAt(table, cs[i].openTime), i == entryIndex);
      var r := CandleStep(x, s, cs[i], BatchAt(table, cs[i].openTime), i == entryIndex);
      if r.Running? { WalkAppends(x, r.state, cs, table, i + 1, entryIndex); }
    }
  }

  /** A running position is never flat. */
  lemma {:induction false} WalkNeverFlat(x: Setting, s: State, cs: seq<Candle>, table: Batches, i: nat, entryIndex: nat)
    requires x.armed.events != [] && i <= |cs| && s.leg.position != FLAT
    ensures var r := Walk(x, s, cs, table, i, entryIndex); r.Running? ==> r.state.leg.position != FLAT
    decreases |cs| - i
  {
    hide CandleStep;
    if i < |cs| {
      var c, b := cs[i], BatchAt(table, cs[i].openTime);
      StepNeverFlat(x, s, c, b, i == entryIndex);
      var r := CandleStep(x, s, c, b, i == entryIndex);
      if r.Running? { WalkNeverFlat(x, r.state, cs, table, i + 1, entryIndex); }
    }
  }

  /** A replay that has nothing left to wait for. */
  predicate Terminal(t: TradeResult) {
    t.armed.state in {INVALIDATED, MISSED, EXPIRED} || (t.armed.state == TRIGGERED && t.position == Some(FLAT))
  }

  lemma {:induction false} ArmedReplayPrefix(r: ArmedRequest, cs: seq<Candle>, more: seq<Candle>, batches: seq<Batch>)
    requires ValidCandles(cs + more) && cs != [] && ArmedReplay(r, cs, batches).Ok?
    ensures ValidCandles(cs) && BatchTable(cs, batches).Ok? && BatchTable(cs + more, batches) == BatchTable(cs, batches)
    ensures var a := ArmedReplay(r, cs, batches).value;
            if a.state == ARMED then a.events == [] else ArmedReplay(r, cs + more, batches) == Ok(a)
  {
    PrefixValid(cs, more);
    TablePrefix(cs, more, map[], batches);
    ArmedPrefix(r, cs, more, BatchTable(cs, batches).value, 0, 0, 0);
  }

  /**
   * Appending candles never revises a replay. A terminal result is the result; an open trade stays accepted and
   * its events are a prefix of the longer run's; an undecided signal has emitted nothing yet.
   */
  lemma {:induction false} NoLookAhead(
      q: TradeRequest, cs: seq<Candle>, more: seq<Candle>, batches: seq<Batch>, fee: real, slippage: real)
    requires ValidCandles(cs + more) && cs != [] && TradeReplay(q, cs, batches, fee, slippage).Ok?
    ensures var t := TradeReplay(q, cs, batches, fee, slippage).value;
            var longer := TradeReplay(q, cs + more, batches, fee, slippage);
            && (Terminal(t) ==> longer == Ok(t))
            && (t.armed.state == TRIGGERED ==>
              longer.Ok? && t.events <= longer.value.events && t.armed == longer.value.armed)
            && (t.armed.state == ARMED ==> t.events == [])
  {
    ArmedReplayPrefix(q.armed, cs, more, batches);
    AcceptedLaunches(q, cs, batches, fee, slippage);
    var t := TradeReplay(q, cs, batches, fee, slippage).value;
    if t.armed.state == TRIGGERED {
      var g, h := LaunchOf(q, cs, batches, fee, slippage), LaunchOf(q, cs + more, batches, fee, slippage);
      PrefixValid(cs, more);
      assert h == g;
      LongerRun(g, cs, more);
      assert TradeReplay(q, cs + more, batches, fee, slippage) == Ok(ResultOf(h.x, RunOf(h, cs + more)));
    }
  }

  lemma {:induction false} LongerRun(g: Launch, cs: seq<Candle>, more: seq<Candle>)
    requires |g.x.armed.events| == 1 && g.entryIndex < |cs|
    ensures if RunOf(g, cs).Exited? then RunOf(g, cs + more) == RunOf(g, cs)
      else RunOf(g, cs).state.leg.position != FLAT
    ensures RunOf(g, cs).state.events <= RunOf(g, cs + more).state.events
  {
    var s0 := Initial(g.x.armed);
    WalkNeverFlat(g.x, s0, cs, g.table, g.entryIndex, g.entryIndex);
    WalkPrefix(g.x, s0, cs, more, g.table, g.entryIndex, g.entryIndex);
    var r := RunOf(g, cs);
    if r.Running? { WalkAppends(g.x, r.state, cs + more, g.table, |cs|, g.entryIndex); }
  }
}
