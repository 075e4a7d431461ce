/** Many signals, at most one active trade per symbol. */
module Runner {
  import opened Basics
  import opened Sorting
  import opened Market
  import opened Armed
  import opened Trade
  import opened Costs

  datatype CaseData = CaseData(request: TradeRequest, candles: seq<Candle>, scenario: Scenario, batches: seq<Batch>) {
    function SignalId(): string { request.armed.signalId }
    function Symbol(): string { request.armed.symbol }
    function Confirmation(): int { request.armed.confirmationClose }
  }

  const SOME_REQUEST :=
    TradeRequest(ArmedRequest("", "", Long, 2.0, 1.0, 1.0, 0.0, 0, 0), 3.0, 4.0, 1.0, 16, None)

  /** A case carries a request that was validated to have a positive tick. */
  type Case = c: CaseData | c.request.tick > 0.0 witness CaseData(SOME_REQUEST, [], ZERO, [])

  datatype Outcome = Executed(replay: CostedResult) | SkippedActiveTrade(blockedBy: string)

  datatype CaseResult = CaseResult(case_: Case, outcome: Outcome)

  datatype RunError = DuplicateSignalIds | UnknownSymbol | ReplayFailed(error: ReplayError)

  function IdOf(c: Case): string { c.SignalId() }

  predicate DistinctIds(cases: seq<Case>) {
    DistinctKeys(cases, IdOf)
  }

  predicate KnownSymbols(cases: seq<Case>) {
    forall i :: 0 <= i < |cases| ==> cases[i].Symbol() != "UNKNOWN"
  }

  /** By confirmation, then symbol, then signal id. */
  predicate CaseLeq(a: Case, b: Case) {
    || a.Confirmation() < b.Confirmation()
    || (a.Confirmation() == b.Confirmation()
        && ((a.Symbol() != b.Symbol() && TextLeq(a.Symbol(), b.Symbol()))
            || (a.Symbol() == b.Symbol() && TextLeq(a.SignalId(), b.SignalId()))))
  }

  /** The replay of one case, as the scheduler sees it. */
  type Replayer = Case -> Result<CostedResult, ReplayError>

  function Replay(c: Case): Result<CostedResult, ReplayError> {
    ReplayWithCosts(c.request, c.candles, c.scenario, c.batches)
  }

  // ----- Specification -----------------------------------------------------------------------

  /** The trade that occupies a symbol: until when (None while it is open) and which signal it is. */
  datatype Active = Active(until: Option<int>, signal: string)

  predicate Blocks(active: map<string, Active>, c: Case) {
    c.Symbol() in active && (active[c.Symbol()].until.None? || c.Confirmation() < active[c.Symbol()].until.value)
  }

  function Occupy(active: map<string, Active>, c: Case, k: CostedResult): map<string, Active> {
    if k.trade.armed.state == TRIGGERED then active[c.Symbol() := Active(k.trade.exitTime, c.SignalId())] else active
  }

  /** The scheduler over cases already in order. */
  function Schedule(replay: Replayer, active: map<string, Active>, cases: seq<Case>): Result<seq<CaseResult>, RunError>
    decreases |cases|
  {
    if cases == [] then Ok([])
    else
      var c, rest := cases[0], cases[1..];
      if Blocks(active, c) then
        After([CaseResult(c, SkippedActiveTrade(active[c.Symbol()].signal))], Schedule(replay, active, rest))
      else
        match replay(c)
        case Err(e) => Err(ReplayFailed(e))
        case Ok(k) => After([CaseResult(c, Executed(k))], Schedule(replay, Occupy(active, c, k), rest))
  }

  /** What is already decided, followed by what is still to come. */
  function After(done: seq<CaseResult>, later: Result<seq<CaseResult>, RunError>): Result<seq<CaseResult>, RunError> {
    if later.Err? then later else Ok(done + later.value)
  }

  function RunCases(replay: Replayer, cases: seq<Case>): Result<seq<CaseResult>, RunError> {
    if !DistinctIds(cases) then Err(DuplicateSignalIds)
    else if !KnownSymbols(cases) then Err(UnknownSymbol)
    else Schedule(replay, map[], Sort(cases, CaseLeq))
  }

  // ----- The scheduler loop ---------------------------------------------------------------------

  lemma {:induction false} AfterStep(done: seq<CaseResult>, r: CaseResult, later: Result<seq<CaseResult>, RunError>)
    ensures After(done, After([r], later)) == After(done + [r], later)
  {
    if later.Ok? { assert done + ([r] + later.value) == done + [r] + later.value; }
  }

  lemma {:induction false} AfterNothing(later: Result<seq<CaseResult>, RunError>)
    ensures After([], later) == later
  {
    if later.Ok? { assert [] + later.value == later.value; }
  }

  /** The loop of `replay_cases` over the ordered cases. */
  method RunOrdered(replay: Replayer, ordered: seq<Case>) returns (result: Result<seq<CaseResult>, RunError>)
    ensures result == Schedule(replay, map[], ordered)
  {
    var activeUntil: map<string, Option<int>>, activeSignal: map<string, string> := map[], map[];
    ghost var active: map<string, Active> := map[];
    var results: seq<CaseResult> := [];
    var i := 0;
    assert ordered[0..] == ordered;
    AfterNothing(Schedule(replay, map[], ordered));
    while i < |ordered|
      invariant 0 <= i <= |ordered|
      invariant activeUntil.Keys == active.Keys == activeSignal.Keys
      invariant forall s :: s in active ==> active[s] == Active(activeUntil[s], activeSignal[s])
      invariant Schedule(replay, map[], ordered) == After(results, Schedule(replay, active, ordered[i..]))
    {
      var c := ordered[i];
      assert ordered[i..][0] == c && ordered[i..][1..] == ordered[i + 1..];
      i := i + 1;
      var symbol := c.Symbol();
      if symbol in activeUntil {
        var priorExit := activeUntil[symbol];
        if priorExit.None? || c.Confirmation() < priorExit.value {
          var skipped := CaseResult(c, SkippedActiveTrade(activeSignal[symbol]));
          AfterStep(results, skipped, Schedule(replay, active, ordered[i..]));
          results := results + [skipped];
          continue;
        }
      }
      var replayed := replay(c);
      if replayed.Err? {
        return Err(ReplayFailed(replayed.error));
      }
      var executed := CaseResult(c, Executed(replayed.value));
      AfterStep(results, executed, Schedule(replay, Occupy(active, c, replayed.value), ordered[i..]));
      results := results + [executed];
      if replayed.value.trade.armed.state == TRIGGERED {
        activeUntil := activeUntil[symbol := replayed.value.trade.exitTime];
        activeSignal := activeSignal[symbol := c.SignalId()];
        active := active[symbol := Active(replayed.value.trade.exitTime, c.SignalId())];
      }
    }
    assert ordered[i..] == [] && results + [] == results;
    result := Ok(results);
  }

  /** `replay_cases`. */
  method ReplayCases(cases: seq<Case>) returns (result: Result<seq<CaseResult>, RunError>)
    ensures result == RunCases(Replay, cases)
  {
    if !DistinctIds(cases) {
      return Err(DuplicateSignalIds);
    }
    if !KnownSymbols(cases) {
      return Err(UnknownSymbol);
    }
    result := RunOrdered(Replay, Sort(cases, CaseLeq));
  }

  // ----- One active trade per symbol -----------------------------------------------------------------

  /** An executed case whose signal became a trade. */
  predicate Traded(r: CaseResult) {
    r.outcome.Executed? && r.outcome.replay.trade.armed.state == TRIGGERED
  }

  /** The trade of `r` is still open at `time`: it has not exited, or exits later. */
  predicate OpenAt(r: CaseResult, time: int)
    requires Traded(r)
  {
    r.outcome.replay.trade.exitTime.None? || time < r.outcome.replay.trade.exitTime.value
  }

  /** An earlier executed trade of the same symbol is still open when `results[j]` confirms. */
  ghost predicate Occupied(results: seq<CaseResult>, j: nat)
    requires j < |results|
  {
    exists i :: 0 <= i < j && BlockedBy(results, i, j)
  }

  predicate BlockedBy(results: seq<CaseResult>, i: nat, j: nat)
    requires i < |results| && j < |results|
  {
    && Traded(results[i]) && results[i].case_.Symbol() == results[j].case_.Symbol()
    && OpenAt(results[i], results[j].case_.Confirmation())
  }

  /** The last trade of a symbol among results that are in order, as the scheduler's tables hold it. */
  ghost predicate Remembers(active: map<string, Active>, past: seq<CaseResult>) {
    && (forall i :: 0 <= i < |past| && Traded(past[i]) ==> past[i].case_.Symbol() in active)
    && (forall s :: s in active ==>
      exists i: nat :: i < |past| && LastTrade(past, i, s) && active[s] == ActiveOf(past[i]))
  }

  function ActiveOf(r: CaseResult): Active
    requires Traded(r)
  {
    Active(r.outcome.replay.trade.exitTime, r.case_.SignalId())
  }

  predicate LastTrade(past: seq<CaseResult>, i: nat, s: string)
    requires i < |past|
  {
    && Traded(past[i]) && past[i].case_.Symbol() == s
    && forall j :: i < j < |past| ==> !(Traded(past[j]) && past[j].case_.Symbol() == s)
  }

  /** No trade starts while an earlier one of its symbol is open: confirmation-to-exit intervals are disjoint. */
  predicate Disjoint(results: seq<CaseResult>) {
    forall i, j :: 0 <= i < j < |results| && Traded(results[i]) && Traded(results[j])
                   && results[i].case_.Symbol() == results[j].case_.Symbol() ==>
      !OpenAt(results[i], results[j].case_.Confirmation())
  }

  predicate NotAfter(past: seq<CaseResult>, time: int) {
    forall i :: 0 <= i < |past| ==> past[i].case_.Confirmation() <= time
  }

  predicate Chronological(results: seq<CaseResult>) {
    forall i, j :: 0 <= i < j < |results| ==> results[i].case_.Confirmation() <= results[j].case_.Confirmation()
  }

  /** The scheduler's table blocks a case exactly when some earlier trade of its symbol is still open. */
  lemma {:induction false} BlocksMeansOpen(active: map<string, Active>, past: seq<CaseResult>, c: Case)
    requires Remembers(active, past) && Disjoint(past) && Chronological(past) && NotAfter(past, c.Confirmation())
    ensures Blocks(active, c) <==>
            exists i :: 0 <= i < |past| && Traded(past[i]) && past[i].case_.Symbol() == c.Symbol()
              && OpenAt(past[i], c.Confirmation())
  {
  }

  lemma {:induction false} RemembersStep(active: map<string, Active>, past: seq<CaseResult>, r: CaseResult)
    requires Remembers(active, past)
    ensures Remembers(Next(active, r), past + [r])
  {
    var next := Next(active, r);
    var all := past + [r];
    forall s | s in next ensures exists i: nat :: i < |all| && LastTrade(all, i, s) && next[s] == ActiveOf(all[i]) {
      if Traded(r) && s == r.case_.Symbol() {
        assert LastTrade(all, |past|, s);
      } else {
        var i: nat :| i < |past| && LastTrade(past, i, s) && active[s] == ActiveOf(past[i]);
        assert all[i] == past[i] && LastTrade(all, i, s);
      }
    }
  }

  /** Results `n` onwards are skipped exactly when occupied, and otherwise are their case's replay. */
  ghost predicate Exact(replay: Replayer, results: seq<CaseResult>, n: nat) {
    forall j :: n <= j < |results| ==>
      && (results[j].outcome.SkippedActiveTrade? <==> Occupied(results, j))
      && (results[j].outcome.SkippedActiveTrade? ==> NamesBlocker(results, j))
      && (results[j].outcome.Executed? ==> replay(results[j].case_) == Ok(results[j].outcome.replay))
  }

  /** A skipped case names the trade that is open. */
  ghost predicate NamesBlocker(results: seq<CaseResult>, j: nat)
    requires j < |results| && results[j].outcome.SkippedActiveTrade?
  {
    exists i :: 0 <= i < j && BlockedBy(results, i, j)
                && results[j].outcome.blockedBy == results[i].case_.request.armed.signalId
  }

  function CasesOf(results: seq<CaseResult>): seq<Case> {
    if results == [] then [] else [results[0].case_] + CasesOf(results[1..])
  }

  predicate InOrder(cases: seq<Case>) {
    forall i, j :: 0 <= i < j < |cases| ==> cases[i].Confirmation() <= cases[j].Confirmation()
  }

  /** What the scheduler keeps from case to case. */
  ghost predicate Sound(replay: Replayer, past: seq<CaseResult>) {
    Disjoint(past) && Chronological(past) && Exact(replay, past, 0)
  }

  lemma {:induction false} SoundStep(
      replay: Replayer, active: map<string, Active>, past: seq<CaseResult>, c: Case, r: CaseResult)
    requires Sound(replay, past) && Remembers(active, past) && NotAfter(past, c.Confirmation()) && r.case_ == c
    requires r.outcome.SkippedActiveTrade? <==> Blocks(active, c)
    requires r.outcome.SkippedActiveTrade? ==> r.outcome.blockedBy == active[c.Symbol()].signal
    requires r.outcome.Executed? ==> replay(c) == Ok(r.outcome.replay)
    ensures Sound(replay, past + [r])
  {
    hide Remembers, NamesBlocker;
    var all := past + [r];
    BlocksMeansOpen(active, past, c);
    OccupiedAtEnd(past, r);
    forall j | 0 <= j < |all|
      ensures all[j].outcome.SkippedActiveTrade? <==> Occupied(all, j)
      ensures all[j].outcome.SkippedActiveTrade? ==> NamesBlocker(all, j)
      ensures all[j].outcome.Executed? ==> replay(all[j].case_) == Ok(all[j].outcome.replay)
    {
      if j < |past| {
        SamePrefixOccupied(past, all, j);
        if all[j].outcome.SkippedActiveTrade? { SamePrefixNames(past, all, j); }
      } else if r.outcome.SkippedActiveTrade? {
        TableNames(active, past, r);
      }
    }
    DisjointStep(past, r);
  }

  lemma {:induction false} DisjointStep(past: seq<CaseResult>, r: CaseResult)
    requires Disjoint(past) && (Traded(r) ==> !Occupied(past + [r], |past|))
    ensures Disjoint(past + [r])
  {
    var all := past + [r];
    forall i, j | 0 <= i < j < |all| && Traded(all[i]) && Traded(all[j])
      && all[i].case_.Symbol() == all[j].case_.Symbol()
      ensures !OpenAt(all[i], all[j].case_.Confirmation())
    {
      if j == |past| { assert !BlockedBy(all, i, j); }
    }
  }

  lemma {:induction false} OccupiedAtEnd(past: seq<CaseResult>, r: CaseResult)
    ensures Occupied(past + [r], |past|) <==>
            exists i :: 0 <= i < |past| && Traded(past[i]) && past[i].case_.Symbol() == r.case_.Symbol()
                        && OpenAt(past[i], r.case_.Confirmation())
  {
    var all := past + [r];
    assert forall i: nat :: i < |past| ==>
      (BlockedBy(all, i, |past|) <==>
       Traded(past[i]) && past[i].case_.Symbol() == r.case_.Symbol() && OpenAt(past[i], r.case_.Confirmation()));
  }

  lemma {:induction false} SamePrefixOccupied(past: seq<CaseResult>, all: seq<CaseResult>, j: nat)
    requires past <= all && j < |past|
    ensures Occupied(past, j) <==> Occupied(all, j)
  {
    assert forall i: nat :: i < j ==> (BlockedBy(past, i, j) <==> BlockedBy(all, i, j));
  }

  lemma {:induction false} SamePrefixNames(past: seq<CaseResult>, all: seq<CaseResult>, j: nat)
    requires past <= all && j < |past| && past[j].outcome.SkippedActiveTrade? && NamesBlocker(past, j)
    ensures NamesBlocker(all, j)
  {
    var i :| 0 <= i < j && BlockedBy(past, i, j) && past[j].outcome.blockedBy == past[i].case_.request.armed.signalId;
    assert BlockedBy(all, i, j);
  }

  /** The table's entry is the open trade. */
  lemma {:induction false} TableNames(active: map<string, Active>, past: seq<CaseResult>, r: CaseResult)
    requires Remembers(active, past) && Blocks(active, r.case_)
    requires r.outcome.SkippedActiveTrade? && r.outcome.blockedBy == active[r.case_.Symbol()].signal
    ensures NamesBlocker(past + [r], |past|)
  {
    var s, all := r.case_.Symbol(), past + [r];
    var i: nat :| i < |past| && LastTrade(past, i, s) && active[s] == ActiveOf(past[i]);
    assert all[i] == past[i] && all[|past|] == r;
    assert BlockedBy(all, i, |past|);
  }

  /** What the scheduler makes of one case, given its table. */
  function Decide(replay: Replayer, active: map<string, Active>, c: Case): CaseResult
    requires !Blocks(active, c) ==> replay(c).Ok?
  {
    if Blocks(active, c) then CaseResult(c, SkippedActiveTrade(active[c.Symbol()].signal))
    else CaseResult(c, Executed(replay(c).value))
  }

  function Next(active: map<string, Active>, r: CaseResult): map<string, Active> {
    if Traded(r) then active[r.case_.Symbol() := ActiveOf(r)] else active
  }

  lemma {:induction false} ScheduleUnfolds(replay: Replayer, active: map<string, Active>, cases: seq<Case>)
    requires cases != []
    ensures Schedule(replay, active, cases).Ok? <==>
            && (!Blocks(active, cases[0]) ==> replay(cases[0]).Ok?)
            && Schedule(replay, Next(active, Decide(replay, active, cases[0])), cases[1..]).Ok?
    ensures Schedule(replay, active, cases).Ok? ==>
              var r := Decide(replay, active, cases[0]);
              Schedule(replay, active, cases).value == [r] + Schedule(replay, Next(active, r), cases[1..]).value
  {
  }

  lemma {:induction false} ScheduleIsSound(
      replay: Replayer, active: map<string, Active>, past: seq<CaseResult>, cases: seq<Case>)
    requires Sound(replay, past) && Remembers(active, past) && InOrder(cases)
    requires cases != [] ==> NotAfter(past, cases[0].Confirmation())
    requires Schedule(replay, active, cases).Ok?
    ensures Sound(replay, past + Schedule(replay, active, cases).value)
    ensures CasesOf(Schedule(replay, active, cases).value) == cases
    decreases |cases|
  {
    hide Remembers, Exact, After;
    if cases == [] {
      assert past + [] == past;
    } else {
      var c, rest := cases[0], cases[1..];
      ScheduleUnfolds(replay, active, cases);
      var r := Decide(replay, active, c);
      SoundStep(replay, active, past, c, r);
      RemembersStep(active, past, r);
      ScheduleIsSound(replay, Next(active, r), past + [r], rest);
      var later := Schedule(replay, Next(active, r), rest).value;
      assert past + ([r] + later) == past + [r] + later;
      assert ([r] + later)[1..] == later;
    }
  }

  lemma {:induction false} CaseOrder()
    ensures TotalPreorder(CaseLeq)
    ensures forall a, b :: CaseLeq(a, b) && CaseLeq(b, a) ==> a.SignalId() == b.SignalId()
  {
    forall a: Case, b: Case ensures CaseLeq(a, b) || CaseLeq(b, a)
                            ensures CaseLeq(a, b) && CaseLeq(b, a) ==> a.SignalId() == b.SignalId() {
      TextLeqTotal(a.Symbol(), b.Symbol());
      TextLeqTotal(a.SignalId(), b.SignalId());
    }
    forall a: Case, b: Case, c: Case | CaseLeq(a, b) && CaseLeq(b, c) ensures CaseLeq(a, c) {
      CaseTransitive(a, b, c);
    }
  }

  lemma {:induction false} CaseTransitive(a: Case, b: Case, c: Case)
    requires CaseLeq(a, b) && CaseLeq(b, c)
    ensures CaseLeq(a, c)
  {
    if a.Confirmation() == b.Confirmation() == c.Confirmation() {
      if a.Symbol() == b.Symbol() == c.Symbol() {
        TextLeqTransitive(a.SignalId(), b.SignalId(), c.SignalId());
      } else {
        if TextLeq(a.Symbol(), b.Symbol()) && TextLeq(b.Symbol(), c.Symbol()) {
          TextLeqTransitive(a.Symbol(), b.Symbol(), c.Symbol());
        }
        TextLeqTotal(a.Symbol(), b.Symbol());
      }
    }
  }

  /**
   * At most one active trade per symbol: results come in time order, the trades of a symbol never overlap, and a
   * case is skipped exactly when an earlier executed trade of its symbol is still open at its confirmation.
   */
  lemma {:induction false} OneActiveTrade(replay: Replayer, cases: seq<Case>)
    requires RunCases(replay, cases).Ok?
    ensures var results := RunCases(replay, cases).value;
            && CasesOf(results) == Sort(cases, CaseLeq)
            && Chronological(results) && Disjoint(results) && Exact(replay, results, 0)
  {
    hide Sort;
    CaseOrder();
    SortSorts(cases, CaseLeq);
    var ordered := Sort(cases, CaseLeq);
    assert forall i, j :: 0 <= i < j < |ordered| ==> CaseLeq(ordered[i], ordered[j]);
    ScheduleIsSound(replay, map[], [], ordered);
    assert [] + Schedule(replay, map[], ordered).value == Schedule(replay, map[], ordered).value;
  }

  /** The results come by confirmation, then symbol, then signal id, in the order of text. */
  lemma {:induction false} ResultsInOrder(replay: Replayer, cases: seq<Case>)
    requires RunCases(replay, cases).Ok?
    ensures var results := RunCases(replay, cases).value;
            forall i, j :: 0 <= i < j < |results| ==>
              var a, b := results[i].case_.request.armed, results[j].case_.request.armed;
              || a.confirmationClose < b.confirmationClose
              || (a.confirmationClose == b.confirmationClose && a.symbol != b.symbol && TextLeq(a.symbol, b.symbol))
              || (a.confirmationClose == b.confirmationClose && a.symbol == b.symbol && a.signalId != b.signalId
                  && TextLeq(a.signalId, b.signalId))
  {
    hide Sort;
    var results, ordered := RunCases(replay, cases).value, Sort(cases, CaseLeq);
    OneActiveTrade(replay, cases);
    CaseOrder();
    SortSorts(cases, CaseLeq);
    DistinctPermutes(ordered, cases, IdOf);
    CasesAt(results);
    forall i, j | 0 <= i < j < |results|
      ensures CaseLeq(results[i].case_, results[j].case_)
      ensures results[i].case_.SignalId() != results[j].case_.SignalId()
    {
      assert CaseLeq(ordered[i], ordered[j]) && IdOf(ordered[i]) != IdOf(ordered[j]);
    }
  }

  lemma {:induction false} CasesAt(results: seq<CaseResult>)
    ensures |CasesOf(results)| == |results|
    ensures forall i :: 0 <= i < |results| ==> CasesOf(results)[i] == results[i].case_
  {
    if results != [] { CasesAt(results[1..]); }
  }

  // ----- Independence of order and of other symbols ----------------------------------------------------

  /** The order in which cases are handed over does not matter. */
  lemma {:induction false} RunIgnoresOrder(replay: Replayer, a: seq<Case>, b: seq<Case>)
    requires multiset(a) == multiset(b)
    ensures RunCases(replay, a) == RunCases(replay, b)
  {
    assert forall c :: c in a <==> c in multiset(a);
    assert forall c :: c in b <==> c in multiset(b);
    DistinctPermutes(a, b, IdOf);
    DistinctIsSingle(a, IdOf);
    assert KnownSymbols(a) <==> forall c :: c in a ==> c.Symbol() != "UNKNOWN";
    assert KnownSymbols(b) <==> forall c :: c in b ==> c.Symbol() != "UNKNOWN";
    if DistinctIds(a) {
      CaseOrder();
      SortIgnoresOrder(a, b, CaseLeq);
    }
  }

  function OfSymbol(cases: seq<Case>, s: string): seq<Case> {
    if cases == [] then []
    else (if cases[0].Symbol() == s then [cases[0]] else []) + OfSymbol(cases[1..], s)
  }

  function ResultsOf(results: seq<CaseResult>, s: string): seq<CaseResult> {
    if results == [] then []
    else (if results[0].case_.Symbol() == s then [results[0]] else []) + ResultsOf(results[1..], s)
  }

  predicate AgreeOn(a: map<string, Active>, b: map<string, Active>, s: string) {
    (s in a <==> s in b) && (s in a ==> a[s] == b[s])
  }

  lemma {:induction false} ScheduleOfSymbol(
      replay: Replayer, a: map<string, Active>, b: map<string, Active>, cases: seq<Case>, s: string)
    requires AgreeOn(a, b, s) && Schedule(replay, a, cases).Ok?
    ensures Schedule(replay, b, OfSymbol(cases, s)) == Ok(ResultsOf(Schedule(replay, a, cases).value, s))
    decreases |cases|
  {
    if cases != [] {
      var c, rest := cases[0], cases[1..];
      ScheduleUnfolds(replay, a, cases);
      var r := Decide(replay, a, c);
      var later := Schedule(replay, Next(a, r), rest).value;
      assert ([r] + later)[1..] == later;
      var mine := OfSymbol(rest, s);
      if c.Symbol() == s {
        assert OfSymbol(cases, s) == [c] + mine && ([c] + mine)[1..] == mine;
        assert Decide(replay, b, c) == r;
        ScheduleOfSymbol(replay, Next(a, r), Next(b, r), rest, s);
        ScheduleUnfolds(replay, b, [c] + mine);
      } else {
        assert OfSymbol(cases, s) == [] + mine == mine;
        assert ResultsOf([r] + later, s) == [] + ResultsOf(later, s) == ResultsOf(later, s);
        ScheduleOfSymbol(replay, Next(a, r), b, rest, s);
      }
    }
  }

  lemma {:induction false} OfSymbolKeeps(cases: seq<Case>, s: string)
    ensures forall c :: multiset(OfSymbol(cases, s))[c] == if c.Symbol() == s then multiset(cases)[c] else 0
    ensures forall c :: c in OfSymbol(cases, s) <==> c in cases && c.Symbol() == s
  {
    if cases != [] {
      assert cases == [cases[0]] + cases[1..];
      OfSymbolKeeps(cases[1..], s);
    }
  }

  lemma {:induction false} OfSymbolAscends(cases: seq<Case>, s: string)
    requires Ascending(CaseLeq, cases)
    ensures Ascending(CaseLeq, OfSymbol(cases, s))
  {
    if cases != [] {
      var head, kept := cases[0], OfSymbol(cases[1..], s);
      OfSymbolAscends(cases[1..], s);
      OfSymbolKeeps(cases[1..], s);
      forall c | c in kept ensures CaseLeq(head, c) {
        var j :| 0 <= j < |cases[1..]| && cases[1..][j] == c;
        assert cases[j + 1] == c;
      }
    }
  }

  lemma {:induction false} OfSymbolDistinct(cases: seq<Case>, s: string)
    requires DistinctIds(cases)
    ensures DistinctIds(OfSymbol(cases, s))
  {
    DistinctIsSingle(cases, IdOf);
    OfSymbolKeeps(cases, s);
    DistinctIsSingle(OfSymbol(cases, s), IdOf);
  }

  lemma {:induction false} OfSymbolPermutes(a: seq<Case>, b: seq<Case>, s: string)
    requires multiset(a) == multiset(b)
    ensures multiset(OfSymbol(a, s)) == multiset(OfSymbol(b, s))
  {
    OfSymbolKeeps(a, s);
    OfSymbolKeeps(b, s);
  }

  lemma {:induction false} IdsTellApart(cases: seq<Case>)
    requires DistinctIds(cases)
    ensures NoTies(CaseLeq, cases)
  {
    CaseOrder();
    DistinctIsSingle(cases, IdOf);
  }

  /** Sorting one symbol's cases is taking that symbol's cases out of the sorted whole. */
  lemma {:induction false} SortOfSymbol(cases: seq<Case>, s: string)
    requires DistinctIds(cases)
    ensures Sort(OfSymbol(cases, s), CaseLeq) == OfSymbol(Sort(cases, CaseLeq), s)
  {
    var mine := OfSymbol(cases, s);
    var arranged := Sort(mine, CaseLeq);
    assert TotalPreorder(CaseLeq) by { CaseOrder(); }
    assert multiset(Sort(cases, CaseLeq)) == multiset(cases)
      && Ascending(CaseLeq, Sort(cases, CaseLeq)) by { SortSorts(cases, CaseLeq); }
    assert multiset(arranged) == multiset(mine) && Ascending(CaseLeq, arranged) by { SortSorts(mine, CaseLeq); }
    OfSymbolPermutes(Sort(cases, CaseLeq), cases, s);
    OfSymbolAscends(Sort(cases, CaseLeq), s);
    OfSymbolDistinct(cases, s);
    DistinctPermutes(arranged, mine, IdOf);
    IdsTellApart(arranged);
    AscendingUnique(arranged, OfSymbol(Sort(cases, CaseLeq), s), CaseLeq);
  }

  /** Restricting the results to one symbol gives what running only that symbol's cases gives. */
  lemma {:induction false} SymbolsAreIndependent(replay: Replayer, cases: seq<Case>, s: string)
    requires RunCases(replay, cases).Ok?
    ensures RunCases(replay, OfSymbol(cases, s)) == Ok(ResultsOf(RunCases(replay, cases).value, s))
  {
    var mine := OfSymbol(cases, s);
    OfSymbolDistinct(cases, s);
    OfSymbolKeeps(cases, s);
    forall i | 0 <= i < |mine| ensures mine[i].Symbol() != "UNKNOWN" {
      assert mine[i] in cases;
    }
    SortOfSymbol(cases, s);
    ScheduleOfSymbol(replay, map[], map[], Sort(cases, CaseLeq), s);
  }
}
