/** The idempotent reducer that rebuilds a replay's state from its event log alone. */
module EventLog {
  import opened Basics
  import opened Armed
  import opened Trade

  datatype Lifecycle = ARMED | TRIGGERED | INVALIDATED | MISSED | EXPIRED | CLOSED

  datatype LogError =
    | OutOfOrder | EntryInvalid | PreTradeAfterEntry | Tp1Invalid | ActivationWithoutHalf
    | TerminalWithoutPosition | TerminalFractionDiffers | ClosedInvalid | LateWithoutTerminal

  datatype Reduced = Reduced(
    lifecycle: Lifecycle,
    position: Option<Position>,
    openFraction: real,
    breakevenActive: bool,
    terminalReason: Option<Reason>,
    closedSeen: bool,
    applied: seq<EventId>,
    lastTime: Option<int>,
    duplicates: nat)

  const EMPTY_LOG := Reduced(Lifecycle.ARMED, None, 0.0, false, None, false, [], None, 0)

  predicate PreTradeTerminal(l: Lifecycle) {
    l == Lifecycle.INVALIDATED || l == Lifecycle.MISSED || l == Lifecycle.EXPIRED
  }

  // ----- Specification -----------------------------------------------------------------------

  /** The effect of an event that has not been seen and is not out of order, before it is recorded. */
  function Transition(s: Reduced, e: ReplayEvent): Result<Reduced, LogError> {
    match e.eventType
    case EntryFill =>
      if s.lifecycle != Lifecycle.ARMED || e.fraction != Some(1.0) then Err(EntryInvalid)
      else Ok(s.(lifecycle := Lifecycle.TRIGGERED, position := Some(FULL), openFraction := 1.0))
    case InvalidatedEvent => PreTrade(s, Lifecycle.INVALIDATED, e.reason)
    case MissedEvent => PreTrade(s, Lifecycle.MISSED, e.reason)
    case ExpiredEvent => PreTrade(s, Lifecycle.EXPIRED, e.reason)
    case Tp1Fill =>
      if s.lifecycle != Lifecycle.TRIGGERED || s.position != Some(FULL) || e.fraction != Some(0.5) then Err(Tp1Invalid)
      else Ok(s.(position := Some(HALF_AFTER_TP1), openFraction := 0.5))
    case BreakevenActivated =>
      if s.lifecycle != Lifecycle.TRIGGERED || s.position != Some(HALF_AFTER_TP1) then Err(ActivationWithoutHalf)
      else Ok(s.(breakevenActive := true))
    case StopFill => Terminal(s, e)
    case Tp2Fill => Terminal(s, e)
    case TimeExit => Terminal(s, e)
    case ClosedEvent =>
      if s.lifecycle != Lifecycle.CLOSED || s.closedSeen then Err(ClosedInvalid) else Ok(s.(closedSeen := true))
    case LateEventIgnored => if PreTradeTerminal(s.lifecycle) then Ok(s) else Err(LateWithoutTerminal)
    case FundingEvent => Ok(s)
    case FundingDataMissing => Ok(s)
  }

  function PreTrade(s: Reduced, l: Lifecycle, why: Reason): Result<Reduced, LogError> {
    if s.lifecycle != Lifecycle.ARMED then Err(PreTradeAfterEntry)
    else Ok(s.(lifecycle := l, terminalReason := Some(why)))
  }

  function Terminal(s: Reduced, e: ReplayEvent): Result<Reduced, LogError> {
    if s.lifecycle != Lifecycle.TRIGGERED || s.position == None then Err(TerminalWithoutPosition)
    else if e.fraction != Some(s.openFraction) then Err(TerminalFractionDiffers)
    else Ok(s.(lifecycle := Lifecycle.CLOSED, position := Some(FLAT), openFraction := 0.0,
      terminalReason := Some(e.reason)))
  }

  function Apply(s: Reduced, e: ReplayEvent): Result<Reduced, LogError> {
    if e.Id() in s.applied then Ok(s.(duplicates := s.duplicates + 1))
    else if s.lastTime.Some? && e.time < s.lastTime.value then Err(OutOfOrder)
    else
      match Transition(s, e)
      case Err(why) => Err(why)
      case Ok(next) => Ok(next.(applied := s.applied + [e.Id()], lastTime := Some(e.time)))
  }

  function Reduce(s: Reduced, events: seq<ReplayEvent>): Result<Reduced, LogError>
    decreases |events|
  {
    if events == [] then Ok(s)
    else
      match Apply(s, events[0])
      case Err(why) => Err(why)
      case Ok(next) => Reduce(next, events[1..])
  }

  /** The state after recording an event that `Transition` accepted. */
  function Recorded(next: Reduced, s: Reduced, e: ReplayEvent): Reduced {
    next.(applied := s.applied + [e.Id()], lastTime := Some(e.time))
  }

  lemma {:induction false} NothingLeft(s: Reduced)
    ensures Reduce(s, []) == Ok(s)
  {
  }

  lemma {:induction false} DuplicateHead(s: Reduced, events: seq<ReplayEvent>)
    requires events != [] && events[0].Id() in s.applied
    ensures Reduce(s, events) == Reduce(s.(duplicates := s.duplicates + 1), events[1..])
  {
  }

  lemma {:induction false} LateHead(s: Reduced, events: seq<ReplayEvent>)
    requires events != [] && events[0].Id() !in s.applied
    requires s.lastTime.Some? && events[0].time < s.lastTime.value
    ensures Reduce(s, events) == Err(OutOfOrder)
  {
  }

  lemma {:induction false} FreshHead(s: Reduced, events: seq<ReplayEvent>)
    requires events != [] && events[0].Id() !in s.applied
    requires s.lastTime.Some? ==> s.lastTime.value <= events[0].time
    ensures Transition(s, events[0]).Err? ==> Reduce(s, events) == Err(Transition(s, events[0]).error)
    ensures Transition(s, events[0]).Ok? ==>
      Reduce(s, events) == Reduce(Recorded(Transition(s, events[0]).value, s, events[0]), events[1..])
  {
    hide Transition;
  }

  // ----- The reducer --------------------------------------------------------------------------

  /** `reduce_event_log`. */
  method ReduceEventLog(
      events: seq<ReplayEvent>, checkpoint: Option<Reduced> := None) returns (r: Result<Reduced, LogError>)
    ensures r == Reduce(if checkpoint.Some? then checkpoint.value else EMPTY_LOG, events)
  {
    hide Reduce, Apply;
    assert events[0..] == events;
    var state := if checkpoint.Some? then checkpoint.value else EMPTY_LOG;
    var lifecycle, position, openFraction := state.lifecycle, state.position, state.openFraction;
    var breakevenActive, terminalReason, closedSeen := state.breakevenActive, state.terminalReason, state.closedSeen;
    var applied, lastTime, duplicates := state.applied, state.lastTime, state.duplicates;
    var appliedSet := set id | id in applied;
    var i := 0;
    while i < |events|
      invariant 0 <= i <= |events|
      invariant forall id :: id in appliedSet <==> id in applied
      invariant Reduce(state, events) ==
                Reduce(Reduced(lifecycle, position, openFraction, breakevenActive, terminalReason, closedSeen,
                               applied, lastTime, duplicates), events[i..])
    {
      var e := events[i];
      assert events[i..][0] == e && events[i..][1..] == events[i + 1..];
      ghost var now := Reduced(lifecycle, position, openFraction, breakevenActive, terminalReason, closedSeen,
                               applied, lastTime, duplicates);
      i := i + 1;
      if e.Id() in appliedSet {
        DuplicateHead(now, events[i - 1..]);
        duplicates := duplicates + 1;
        continue;
      }
      if lastTime.Some? && e.time < lastTime.value {
        LateHead(now, events[i - 1..]);
        return Err(OutOfOrder);
      }
      FreshHead(now, events[i - 1..]);
      match e.eventType {
        case EntryFill =>
          if lifecycle != Lifecycle.ARMED || e.fraction != Some(1.0) { return Err(EntryInvalid); }
          lifecycle, position, openFraction := Lifecycle.TRIGGERED, Some(FULL), 1.0;
        case InvalidatedEvent =>
          if lifecycle != Lifecycle.ARMED { return Err(PreTradeAfterEntry); }
          lifecycle, terminalReason := Lifecycle.INVALIDATED, Some(e.reason);
        case MissedEvent =>
          if lifecycle != Lifecycle.ARMED { return Err(PreTradeAfterEntry); }
          lifecycle, terminalReason := Lifecycle.MISSED, Some(e.reason);
        case ExpiredEvent =>
          if lifecycle != Lifecycle.ARMED { return Err(PreTradeAfterEntry); }
          lifecycle, terminalReason := Lifecycle.EXPIRED, Some(e.reason);
        case Tp1Fill =>
          if lifecycle != Lifecycle.TRIGGERED || position != Some(FULL) || e.fraction != Some(0.5) {
            return Err(Tp1Invalid);
          }
          position, openFraction := Some(HALF_AFTER_TP1), 0.5;
        case BreakevenActivated =>
          if lifecycle != Lifecycle.TRIGGERED || position != Some(HALF_AFTER_TP1) { return Err(ActivationWithoutHalf); }
          breakevenActive := true;
        case StopFill | Tp2Fill | TimeExit =>
          if lifecycle != Lifecycle.TRIGGERED || position == None { return Err(TerminalWithoutPosition); }
          if e.fraction != Some(openFraction) { return Err(TerminalFractionDiffers); }
          lifecycle, position, openFraction, terminalReason := Lifecycle.CLOSED, Some(FLAT), 0.0, Some(e.reason);
        case ClosedEvent =>
          if lifecycle != Lifecycle.CLOSED || closedSeen { return Err(ClosedInvalid); }
          closedSeen := true;
        case LateEventIgnored =>
          if !PreTradeTerminal(lifecycle) { return Err(LateWithoutTerminal); }
        case FundingEvent | FundingDataMissing =>
      }
      assert Transition(now, e) == Ok(Reduced(lifecycle, position, openFraction, breakevenActive, terminalReason,
                                              closedSeen, applied, lastTime, duplicates));
      applied := applied + [e.Id()];
      appliedSet := appliedSet + {e.Id()};
      lastTime := Some(e.time);
    }
    r := Ok(Reduced(lifecycle, position, openFraction, breakevenActive, terminalReason, closedSeen,
                    applied, lastTime, duplicates));
    assert events[i..] == [];
    NothingLeft(r.value);
  }

  // ----- The transitions, written out ---------------------------------------------------------------

  /** A new event in time order, applied: which field changes, or why it is refused. */
  lemma {:induction false} NewEventExactly(s: Reduced, e: ReplayEvent)
    requires e.Id() !in s.applied && (s.lastTime == None || s.lastTime.value <= e.time)
    ensures var recorded := s.(applied := s.applied + [e.Id()], lastTime := Some(e.time));
            var armed, open := s.lifecycle == Lifecycle.ARMED, s.lifecycle == Lifecycle.TRIGGERED;
            Apply(s, e) ==
            if e.eventType == EntryFill then
              if armed && e.fraction == Some(1.0)
              then Ok(recorded.(lifecycle := Lifecycle.TRIGGERED, position := Some(FULL), openFraction := 1.0))
              else Err(EntryInvalid)
            else if e.eventType in {InvalidatedEvent, MissedEvent, ExpiredEvent} then
              if armed
              then Ok(recorded.(lifecycle := if e.eventType == InvalidatedEvent then Lifecycle.INVALIDATED
                                             else if e.eventType == MissedEvent then Lifecycle.MISSED
                                             else Lifecycle.EXPIRED,
                                terminalReason := Some(e.reason)))
              else Err(PreTradeAfterEntry)
            else if e.eventType == Tp1Fill then
              if open && s.position == Some(FULL) && e.fraction == Some(0.5)
              then Ok(recorded.(position := Some(HALF_AFTER_TP1), openFraction := 0.5))
              else Err(Tp1Invalid)
            else if e.eventType == BreakevenActivated then
              if open && s.position == Some(HALF_AFTER_TP1) then Ok(recorded.(breakevenActive := true))
              else Err(ActivationWithoutHalf)
            else if e.eventType in {StopFill, Tp2Fill, TimeExit} then
              if !open || s.position == None then Err(TerminalWithoutPosition)
              else if e.fraction != Some(s.openFraction) then Err(TerminalFractionDiffers)
              else Ok(recorded.(lifecycle := Lifecycle.CLOSED, position := Some(FLAT), openFraction := 0.0,
                                terminalReason := Some(e.reason)))
            else if e.eventType == ClosedEvent then
              if s.lifecycle == Lifecycle.CLOSED && !s.closedSeen then Ok(recorded.(closedSeen := true))
              else Err(ClosedInvalid)
            else if e.eventType == LateEventIgnored then
              if s.lifecycle in {Lifecycle.INVALIDATED, Lifecycle.MISSED, Lifecycle.EXPIRED} then Ok(recorded)
              else Err(LateWithoutTerminal)
            else Ok(recorded)
  {
  }

  // ----- Resume and redelivery ---------------------------------------------------------------------

  /** Resuming from the checkpoint after `xs` is reducing `xs + ys` in one go. */
  lemma {:induction false} ResumeIsReduce(s: Reduced, xs: seq<ReplayEvent>, ys: seq<ReplayEvent>)
    ensures Reduce(s, xs + ys) == if Reduce(s, xs).Err? then Reduce(s, xs) else Reduce(Reduce(s, xs).value, ys)
    decreases |xs|
  {
    if xs == [] {
      assert xs + ys == ys;
    } else {
      assert (xs + ys)[0] == xs[0] && (xs + ys)[1..] == xs[1..] + ys;
      if Apply(s, xs[0]).Ok? { ResumeIsReduce(Apply(s, xs[0]).value, xs[1..], ys); }
    }
  }

  /** `ys` is `xs` with events inserted that were applied before or occur earlier in the log. */
  predicate Redelivers(xs: seq<ReplayEvent>, ys: seq<ReplayEvent>, seen: set<EventId>)
    decreases |ys|
  {
    || (xs == [] && ys == [])
    || (xs != [] && ys != [] && xs[0] == ys[0] && Redelivers(xs[1..], ys[1..], seen + {xs[0].Id()}))
    || (ys != [] && ys[0].Id() in seen && Redelivers(xs, ys[1..], seen))
  }

  function Seen(s: Reduced): set<EventId> { set id | id in s.applied }

  /** The state with `n` more duplicates counted. */
  function Recount(r: Result<Reduced, LogError>, n: nat): Result<Reduced, LogError> {
    if r.Err? then r else Ok(r.value.(duplicates := r.value.duplicates + n))
  }

  /** No transition reads the duplicate count. */
  lemma {:induction false} TransitionRecounts(s: Reduced, e: ReplayEvent, n: nat)
    ensures Transition(s.(duplicates := s.duplicates + n), e) == Recount(Transition(s, e), n)
    ensures Transition(s, e).Ok? ==> Transition(s, e).value.duplicates == s.duplicates
  {
  }

  lemma {:induction false} ApplyRecounts(s: Reduced, e: ReplayEvent, n: nat)
    ensures Apply(s.(duplicates := s.duplicates + n), e) == Recount(Apply(s, e), n)
  {
    hide Transition;
    TransitionRecounts(s, e, n);
  }

  lemma {:induction false} ReduceRecounts(s: Reduced, xs: seq<ReplayEvent>, n: nat)
    ensures Reduce(s.(duplicates := s.duplicates + n), xs) == Recount(Reduce(s, xs), n)
    decreases |xs|
  {
    if xs != [] {
      ApplyRecounts(s, xs[0], n);
      if Apply(s, xs[0]).Ok? { ReduceRecounts(Apply(s, xs[0]).value, xs[1..], n); }
    }
  }

  lemma {:induction false} SeenIsCounted(s: Reduced, e: ReplayEvent)
    requires e.Id() in Seen(s)
    ensures Apply(s, e) == Ok(s.(duplicates := s.duplicates + 1))
    ensures Seen(s.(duplicates := s.duplicates + 1)) == Seen(s)
  {
  }

  lemma {:induction false} ApplySees(s: Reduced, e: ReplayEvent)
    ensures Apply(s, e).Ok? ==> Seen(Apply(s, e).value) == Seen(s) + {e.Id()}
  {
  }

  lemma {:induction false} RedeliversLonger(xs: seq<ReplayEvent>, ys: seq<ReplayEvent>, seen: set<EventId>)
    requires Redelivers(xs, ys, seen)
    ensures |xs| <= |ys|
    decreases |ys|
  {
    if ys != [] {
      if xs != [] && xs[0] == ys[0] && Redelivers(xs[1..], ys[1..], seen + {xs[0].Id()}) {
        RedeliversLonger(xs[1..], ys[1..], seen + {xs[0].Id()});
      } else {
        RedeliversLonger(xs, ys[1..], seen);
      }
    }
  }

  /** Passing over a redelivered event. */
  lemma {:induction false} RedeliveredHead(s: Reduced, xs: seq<ReplayEvent>, ys: seq<ReplayEvent>)
    requires ys != [] && ys[0].Id() in Seen(s) && |xs| < |ys|
    requires Reduce(s.(duplicates := s.duplicates + 1), ys[1..]) ==
      Recount(Reduce(s.(duplicates := s.duplicates + 1), xs), |ys| - 1 - |xs|)
    ensures Reduce(s, ys) == Recount(Reduce(s, xs), |ys| - |xs|)
  {
    SeenIsCounted(s, ys[0]);
    ReduceRecounts(s, xs, 1);
  }

  /** At-least-once delivery changes nothing but the duplicate count, and that by the number inserted. */
  lemma {:induction false} RedeliveryIsHarmless(s: Reduced, xs: seq<ReplayEvent>, ys: seq<ReplayEvent>)
    requires Redelivers(xs, ys, Seen(s))
    ensures |xs| <= |ys|
    ensures Reduce(s, ys) == Recount(Reduce(s, xs), |ys| - |xs|)
    decreases |ys|
  {
    RedeliversLonger(xs, ys, Seen(s));
    if ys != [] {
      if xs != [] && xs[0] == ys[0] && Redelivers(xs[1..], ys[1..], Seen(s) + {xs[0].Id()}) {
        ApplySees(s, xs[0]);
        if Apply(s, xs[0]).Ok? { RedeliveryIsHarmless(Apply(s, xs[0]).value, xs[1..], ys[1..]); }
      } else {
        var counted := s.(duplicates := s.duplicates + 1);
        RedeliversLonger(xs, ys[1..], Seen(s));
        SeenIsCounted(s, ys[0]);
        RedeliveryIsHarmless(counted, xs, ys[1..]);
        RedeliveredHead(s, xs, ys);
      }
    }
  }

  // ----- The state table -----------------------------------------------------------------------------

  /** The rows a reduced state can stand in. */
  predicate InTable(s: Reduced) {
    match s.lifecycle
    case ARMED =>
      && s.position == None && s.openFraction == 0.0 && !s.breakevenActive
      && s.terminalReason == None && !s.closedSeen
    case TRIGGERED =>
      && s.terminalReason == None && !s.closedSeen
      && ((s.position == Some(FULL) && s.openFraction == 1.0 && !s.breakevenActive)
          || (s.position == Some(HALF_AFTER_TP1) && s.openFraction == 0.5))
    case CLOSED => s.position == Some(FLAT) && s.openFraction == 0.0 && s.terminalReason.Some?
    case _ =>
      && s.position == None && s.openFraction == 0.0 && !s.breakevenActive
      && s.terminalReason.Some? && !s.closedSeen
  }

  /** No log, however malformed or repeated, leads out of the table. */
  lemma {:induction false} TableIsKept(s: Reduced, events: seq<ReplayEvent>)
    requires InTable(s)
    ensures Reduce(s, events).Ok? ==> InTable(Reduce(s, events).value)
    decreases |events|
  {
    if events != [] {
      var next := Apply(s, events[0]);
      if next.Ok? {
        assert InTable(next.value);
        TableIsKept(next.value, events[1..]);
      }
    }
  }

  /** What was applied is never applied again: recorded ids stay distinct. */
  lemma {:induction false} AppliedStaysDistinct(s: Reduced, events: seq<ReplayEvent>)
    requires forall i, j :: 0 <= i < j < |s.applied| ==> s.applied[i] != s.applied[j]
    ensures Reduce(s, events).Ok? ==>
              var a := Reduce(s, events).value.applied;
              s.applied <= a && forall i, j :: 0 <= i < j < |a| ==> a[i] != a[j]
    decreases |events|
  {
    if events != [] {
      var next := Apply(s, events[0]);
      if next.Ok? { AppliedStaysDistinct(next.value, events[1..]); }
    }
  }
}
