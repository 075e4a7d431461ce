/** Late entries after a signal has ended: appended once, without effect on the state the log tells. */
module LateEntry {
  import opened Basics
  import opened Market
  import opened Armed
  import opened Trade
  import opened EventLog
  import opened Reconstruction

  datatype LateError = NoTerminalResult | BeforeTerminalEvent | NegativePrice

  predicate EndedUntraded(s: ArmedState) {
    s == ArmedState.INVALIDATED || s == ArmedState.MISSED || s == ArmedState.EXPIRED
  }

  function LateEvent(r: ArmedRequest, time: int, source: Source, ref: SourceRef, price: real): ReplayEvent {
    ReplayEvent(r.signalId, LateEventIgnored, time, source, ref, LateEntryAfterTerminal, Some(price), None)
  }

  predicate Known(events: seq<ReplayEvent>, e: ReplayEvent) {
    exists i :: 0 <= i < |events| && events[i].Id() == e.Id()
  }

  /** `apply_late_entry_event`: the time is compared with the first event of the log only. */
  function ApplyLate(
      a: ArmedResult, time: int, source: Source, ref: SourceRef, price: real): Result<ArmedResult, LateError> {
    if !EndedUntraded(a.state) || a.events == [] then Err(NoTerminalResult)
    else if time < a.events[0].time then Err(BeforeTerminalEvent)
    else if price < 0.0 then Err(NegativePrice)
    else
      var e := LateEvent(a.request, time, source, ref, price);
      if Known(a.events, e) then Ok(a) else Ok(a.(events := a.events + [e]))
  }

  /** When a late entry is refused, and what it leaves when it is not: one more event, unless its id is there. */
  lemma {:induction false} LateExactly(a: ArmedResult, time: int, source: Source, ref: SourceRef, price: real)
    ensures var late := ApplyLate(a, time, source, ref, price);
            var id := EventId(a.request.signalId, LateEventIgnored, time, source, ref);
            if a.state in {ArmedState.ARMED, ArmedState.TRIGGERED} || a.events == [] then late == Err(NoTerminalResult)
            else if time < a.events[0].time then late == Err(BeforeTerminalEvent)
            else if price < 0.0 then late == Err(NegativePrice)
            else
              && late.Ok? && late.value == a.(events := late.value.events)
              && if exists i :: 0 <= i < |a.events| && a.events[i].Id() == id then late.value.events == a.events
                 else late.value.events == a.events + [ReplayEvent(a.request.signalId, LateEventIgnored, time, source,
                                                                   ref, LateEntryAfterTerminal, Some(price), None)]
  {
  }

  /** Delivering the same late entry again, even with another price, changes nothing. */
  lemma {:induction false} LateIsIdempotent(
      a: ArmedResult, time: int, source: Source, ref: SourceRef, price: real, again: real)
    requires ApplyLate(a, time, source, ref, price).Ok? && again >= 0.0
    ensures var once := ApplyLate(a, time, source, ref, price).value;
            ApplyLate(once, time, source, ref, again) == Ok(once)
  {
    var e := LateEvent(a.request, time, source, ref, price);
    var once := ApplyLate(a, time, source, ref, price).value;
    if !Known(a.events, e) { assert once.events[|a.events|].Id() == e.Id(); }
    var i :| 0 <= i < |once.events| && once.events[i].Id() == e.Id();
    assert once.events[i].Id() == LateEvent(a.request, time, source, ref, again).Id();
  }

  /** The log of a signal that ended untraded tells its state. */
  predicate TellsEnd(a: ArmedResult) {
    && EndedUntraded(a.state) && a.events != []
    && Reads(a.events, LifecycleOf(a.state), None, 0.0, false, false)
  }

  /**
   * A new late entry leaves a log that the reducer accepts exactly when it does not precede the last event, and
   * then the log still tells the same terminal state.
   */
  lemma {:induction false} LateKeepsTheEnd(a: ArmedResult, time: int, source: Source, ref: SourceRef, price: real)
    requires TellsEnd(a) && ApplyLate(a, time, source, ref, price).Ok?
    requires !Known(a.events, LateEvent(a.request, time, source, ref, price))
    ensures var late := ApplyLate(a, time, source, ref, price).value;
            && late.state == a.state && late.events[..|a.events|] == a.events && |late.events| == |a.events| + 1
            && (Reduce(EMPTY_LOG, late.events).Ok? <==> a.events[|a.events| - 1].time <= time)
            && (Reduce(EMPTY_LOG, late.events).Ok? ==> TellsEnd(late))
  {
    var e := LateEvent(a.request, time, source, ref, price);
    var s := Reduce(EMPTY_LOG, a.events).value;
    var all := a.events + [e];
    ResumeIsReduce(EMPTY_LOG, a.events, [e]);
    IdsOf(a.events);
    assert e.Id() !in s.applied;
    assert all[|all| - 1] == e && all[..|all| - 1] == a.events;
    assert [e][0] == e && [e][1..] == [];
    if Apply(s, e).Ok? { OneEvent(s, e); }
  }

  /** Every signal that ends untraded starts out telling its state. */
  lemma {:induction false} ArmedTellsEnd(r: ArmedRequest, cs: seq<Candle>, batches: seq<Batch>)
    requires ArmedReplay(r, cs, batches).Ok? && EndedUntraded(ArmedReplay(r, cs, batches).value.state)
    ensures TellsEnd(ArmedReplay(r, cs, batches).value)
  {
    var a := ArmedReplay(r, cs, batches).value;
    UntriggeredLog(r, cs, BatchTable(cs, batches).value, 0, 0, 0);
    UntriggeredReads(a.events, a.state);
  }

  /** When the signal ended. */
  function EndTime(a: ArmedResult): int {
    if a.events == [] then 0 else a.events[|a.events| - 1].time
  }

  lemma {:induction false} ArmedHasNoLate(r: ArmedRequest, cs: seq<Candle>, batches: seq<Batch>)
    requires ArmedReplay(r, cs, batches).Ok? && EndedUntraded(ArmedReplay(r, cs, batches).value.state)
    ensures var events := ArmedReplay(r, cs, batches).value.events;
            |events| == 1 && events[0].eventType != LateEventIgnored
  {
    UntriggeredLog(r, cs, BatchTable(cs, batches).value, 0, 0, 0);
  }

  /**
   * For every signal that ends untraded, two different late entries after its end are both accepted in any order,
   * and the log has a reduction exactly when the second is not the earlier one.
   */
  lemma {:induction false} OutOfOrderIsAccepted(
      r: ArmedRequest, cs: seq<Candle>, batches: seq<Batch>, first: int, second: int,
      source: Source, other: Source, ref: SourceRef, next: SourceRef, price: real)
    requires ArmedReplay(r, cs, batches).Ok? && EndedUntraded(ArmedReplay(r, cs, batches).value.state)
    requires EndTime(ArmedReplay(r, cs, batches).value) <= first && EndTime(ArmedReplay(r, cs, batches).value) <= second
    requires (first, source, ref) != (second, other, next) && 0.0 <= price
    ensures var once := ApplyLate(ArmedReplay(r, cs, batches).value, first, source, ref, price);
            && once.Ok?
            && var twice := ApplyLate(once.value, second, other, next, price);
               && twice.Ok?
               && (Reduce(EMPTY_LOG, twice.value.events).Ok? <==> first <= second)
  {
    ArmedTellsEnd(r, cs, batches);
    ArmedHasNoLate(r, cs, batches);
    TwoLateEntries(ArmedReplay(r, cs, batches).value, first, second, source, other, ref, next, price);
  }

  lemma {:induction false} TwoLateEntries(
      a: ArmedResult, first: int, second: int, source: Source, other: Source, ref: SourceRef, next: SourceRef,
      price: real)
    requires TellsEnd(a) && |a.events| == 1 && a.events[0].eventType != LateEventIgnored
    requires EndTime(a) <= first && EndTime(a) <= second
    requires (first, source, ref) != (second, other, next) && 0.0 <= price
    ensures var once := ApplyLate(a, first, source, ref, price);
            && once.Ok?
            && var twice := ApplyLate(once.value, second, other, next, price);
               && twice.Ok?
               && (Reduce(EMPTY_LOG, twice.value.events).Ok? <==> first <= second)
  {
    hide Reduce, Reads;
    var once := ApplyLate(a, first, source, ref, price).value;
    LateKeepsTheEnd(a, first, source, ref, price);
    assert once.events[0] == once.events[..1][0] == a.events[0];
    LateKeepsTheEnd(once, second, other, next, price);
  }

  /** A LONG signal that its only candle invalidates, late entries at 20 and then at 10, and no reduction any more. */
  lemma {:induction false} LateOrderCanFail() returns (q: TradeRequest, cs: seq<Candle>)
    ensures ValidRequest(q) && ArmedReplay(q.armed, cs, []).Ok?
    ensures var once := ApplyLate(ArmedReplay(q.armed, cs, []).value, 20, KLINE_1M, AtTime(20), 1.0);
            && once.Ok?
            && var twice := ApplyLate(once.value, 10, KLINE_1M, AtTime(10), 1.0);
               twice.Ok? && Reduce(EMPTY_LOG, twice.value.events).Err?
  {
    var armed := ArmedRequest("S", "X", Long, 10.0, 5.0, 5.0, 1.0, 0, MINUTE);
    q := TradeRequest(armed, 20.0, 30.0, 1.0, 16, None);
    cs := [Candle(0, 6.0, 7.0, 4.0, 6.0, 0.0)];
    assert BatchTable(cs, []) == Ok(map[]);
    assert Decide(armed, cs[0], None).Refuse?;
    assert ArmedReplay(armed, cs, []).value.events[0].time == 0;
    OutOfOrderIsAccepted(armed, cs, [], 20, 10, KLINE_1M, KLINE_1M, AtTime(20), AtTime(10), 1.0);
  }
}
