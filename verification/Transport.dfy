/**
 * The durable state of a transport run and the steps that may change it. A log of steps covers any number of
 * consecutive runs: a run that is interrupted ends with `Crash`, and the next one goes on from the disk alone.
 */
module Transport {
  import opened Basics
  import opened Segments

  datatype Status = Pending | Complete | Failed | Exhausted

  datatype Entry = Entry(attempts: nat, status: Status)

  /** The receipts with their attempt counts, and the checkpoint, if one was ever written. */
  datatype Disk = Disk(receipts: map<string, nat>, checkpoint: Option<map<string, Entry>>)

  /** A planned task under its hash. */
  datatype Job = Job(id: string, task: Task, maxAttempts: nat)

  datatype Flight = Flight(job: Job, attempt: nat)

  /** The disk, and the request whose outcome is not on it yet. */
  datatype State = State(disk: Disk, flight: Option<Flight>)

  datatype Action =
    | Ask(job: Job, attempt: nat)
    | Publish(job: Job, attempt: nat)
    | Record(job: Job, entries: map<string, Entry>)
    | Save(entries: map<string, Entry>)
    | Crash

  const EMPTY := Disk(map[], None)

  predicate ValidPlan(plan: seq<Job>) {
    && (forall j :: j in plan ==> 1 <= j.maxAttempts <= 10)
    && (forall i, k :: 0 <= i < k < |plan| ==> plan[i].id != plan[k].id)
  }

  function Ids(plan: seq<Job>): set<string> { set j | j in plan :: j.id }

  /** The checkpoint's entry for a task; a task that was never recorded is pending. */
  function EntryOf(d: Disk, id: string): Entry {
    if d.checkpoint.Some? && id in d.checkpoint.value then d.checkpoint.value[id] else Entry(0, Pending)
  }

  /** What a run makes of the entry of a task whose receipt it finds. */
  function Receipted(d: Disk, id: string): Entry
    requires id in d.receipts
  {
    Entry(Max(EntryOf(d, id).attempts, d.receipts[id]), Complete)
  }

  predicate CurrentEntry(d: Disk, id: string, e: Entry) {
    e == EntryOf(d, id) || (id in d.receipts && e == Receipted(d, id))
  }

  /** The run's own table agrees with the disk, up to receipts the checkpoint has not caught up with. */
  predicate Current(plan: seq<Job>, d: Disk, entries: map<string, Entry>) {
    entries.Keys == Ids(plan) && forall id :: id in entries ==> CurrentEntry(d, id, entries[id])
  }

  /** How a failed attempt may be recorded. */
  predicate Recordable(j: Job, attempt: nat, status: Status) {
    && status != Complete
    && (attempt == j.maxAttempts ==> status != Pending)
    && (status == Exhausted ==> attempt == j.maxAttempts)
  }

  /** The steps that a run may take, and the interruption that may end it at any point. */
  predicate Enabled(plan: seq<Job>, s: State, a: Action) {
    match a
    case Ask(j, n) =>
      && s.flight.None? && j in plan && j.id !in s.disk.receipts
      && EntryOf(s.disk, j.id).status == Pending && n == EntryOf(s.disk, j.id).attempts + 1 && n <= j.maxAttempts
    case Publish(j, n) => s.flight == Some(Flight(j, n))
    case Record(j, entries) =>
      && s.flight.Some? && s.flight.value.job == j
      && j.id in entries && Current(plan, s.disk, entries[j.id := EntryOf(s.disk, j.id)])
      && entries[j.id].attempts == s.flight.value.attempt && Recordable(j, s.flight.value.attempt, entries[j.id].status)
    case Save(entries) => s.flight.None? && Current(plan, s.disk, entries)
    case Crash => true
  }

  function Apply(s: State, a: Action): State {
    match a
    case Ask(j, n) => s.(flight := Some(Flight(j, n)))
    case Publish(j, n) => State(s.disk.(receipts := s.disk.receipts[j.id := n]), None)
    case Record(j, entries) => State(s.disk.(checkpoint := Some(entries)), None)
    case Save(entries) => s.(disk := s.disk.(checkpoint := Some(entries)))
    case Crash => s.(flight := None)
  }

  predicate Legal(plan: seq<Job>, s: State, log: seq<Action>)
    decreases |log|
  {
    log == [] || (Enabled(plan, s, log[0]) && Legal(plan, Apply(s, log[0]), log[1..]))
  }

  function Final(s: State, log: seq<Action>): State
    decreases |log|
  {
    if log == [] then s else Final(Apply(s, log[0]), log[1..])
  }

  lemma {:induction false} LegalJoin(plan: seq<Job>, s: State, a: seq<Action>, b: seq<Action>)
    ensures Legal(plan, s, a + b) <==> Legal(plan, s, a) && Legal(plan, Final(s, a), b)
    ensures Final(s, a + b) == Final(Final(s, a), b)
    decreases |a|
  {
    if a == [] {
      assert a + b == b;
    } else {
      assert (a + b)[1..] == a[1..] + b;
      LegalJoin(plan, Apply(s, a[0]), a[1..], b);
    }
  }

  // ----- The invariant --------------------------------------------------------------------------------------

  /** What the disk says of one task. */
  predicate Sound(d: Disk, j: Job) {
    var e := EntryOf(d, j.id);
    && e.attempts <= j.maxAttempts
    && (j.id in d.receipts ==> 1 <= d.receipts[j.id] <= j.maxAttempts)
    && (e.status == Pending ==> e.attempts < j.maxAttempts)
    && (e.status == Pending && j.id in d.receipts ==> d.receipts[j.id] == e.attempts + 1)
    && (e.status == Complete ==> j.id in d.receipts && e.attempts == d.receipts[j.id])
    && (e.status == Failed || e.status == Exhausted ==> j.id !in d.receipts)
    && (e.status == Exhausted ==> e.attempts == j.maxAttempts)
  }

  predicate FlightSound(plan: seq<Job>, d: Disk, f: Flight) {
    && f.job in plan && f.job.id !in d.receipts
    && EntryOf(d, f.job.id).status == Pending && f.attempt == EntryOf(d, f.job.id).attempts + 1
    && f.attempt <= f.job.maxAttempts
  }

  predicate DiskSound(plan: seq<Job>, d: Disk) {
    && (d.checkpoint.Some? ==> d.checkpoint.value.Keys == Ids(plan))
    && (forall j :: j in plan ==> Sound(d, j))
  }

  predicate StateSound(plan: seq<Job>, s: State) {
    DiskSound(plan, s.disk) && (s.flight.Some? ==> FlightSound(plan, s.disk, s.flight.value))
  }

  lemma {:induction false} IdTellsJob(plan: seq<Job>, a: Job, b: Job)
    requires ValidPlan(plan) && a in plan && b in plan && a.id == b.id
    ensures a == b
  {
    var i :| 0 <= i < |plan| && plan[i] == a;
    var k :| 0 <= k < |plan| && plan[k] == b;
  }

  /** A table that is current for the disk leaves every task sound when it is written. */
  lemma {:induction false} SaveSound(plan: seq<Job>, d: Disk, entries: map<string, Entry>, j: Job)
    requires Sound(d, j) && j in plan && j.id in entries && CurrentEntry(d, j.id, entries[j.id])
    ensures Sound(d.(checkpoint := Some(entries)), j)
  {
  }

  lemma {:induction false} StepKeepsSound(plan: seq<Job>, s: State, a: Action)
    requires ValidPlan(plan) && StateSound(plan, s) && Enabled(plan, s, a)
    ensures StateSound(plan, Apply(s, a))
  {
    var next := Apply(s, a);
    forall j | j in plan ensures Sound(next.disk, j) {
      assert Sound(s.disk, j);
      assert j.id in Ids(plan);
      match a
      case Publish(own, n) => if j.id == own.id { IdTellsJob(plan, j, own); }
      case Record(own, entries) => {
        if j.id == own.id {
          IdTellsJob(plan, j, own);
        } else {
          assert CurrentEntry(s.disk, j.id, entries[own.id := EntryOf(s.disk, own.id)][j.id]);
          SaveSound(plan, s.disk, entries, j);
        }
      }
      case Save(entries) => SaveSound(plan, s.disk, entries, j);
      case Ask(_, _) =>
      case Crash =>
    }
    if a.Record? {
      assert a.entries.Keys == a.entries[a.job.id := EntryOf(s.disk, a.job.id)].Keys;
    }
  }

  /** The invariant holds after every step of every run, from the empty disk on. */
  lemma {:induction false} RunsKeepSound(plan: seq<Job>, s: State, log: seq<Action>)
    requires ValidPlan(plan) && StateSound(plan, s) && Legal(plan, s, log)
    ensures StateSound(plan, Final(s, log))
    decreases |log|
  {
    if log != [] {
      StepKeepsSound(plan, s, log[0]);
      RunsKeepSound(plan, Apply(s, log[0]), log[1..]);
    }
  }

  lemma {:induction false} EmptyIsSound(plan: seq<Job>)
    requires ValidPlan(plan)
    ensures StateSound(plan, State(EMPTY, None))
  {
  }

  /** A complete checkpoint entry has its receipt on disk, at every point of every series of runs. */
  lemma {:induction false} CompleteHasReceipt(plan: seq<Job>, log: seq<Action>, j: Job)
    requires ValidPlan(plan) && Legal(plan, State(EMPTY, None), log) && j in plan
    ensures var d := Final(State(EMPTY, None), log).disk;
            EntryOf(d, j.id).status == Complete ==> j.id in d.receipts && d.receipts[j.id] == EntryOf(d, j.id).attempts
  {
    EmptyIsSound(plan);
    RunsKeepSound(plan, State(EMPTY, None), log);
    assert Sound(Final(State(EMPTY, None), log).disk, j);
  }

  // ----- Safety over runs -------------------------------------------------------------------------------------

  predicate Asks(a: Action, id: string) { a.Ask? && a.job.id == id }

  function Asked(log: seq<Action>, id: string): nat {
    if log == [] then 0 else (if Asks(log[0], id) then 1 else 0) + Asked(log[1..], id)
  }

  function Crashes(log: seq<Action>): nat {
    if log == [] then 0 else (if log[0].Crash? then 1 else 0) + Crashes(log[1..])
  }

  /** A task with a receipt is never requested again, and its receipt never changes. */
  lemma {:induction false} ReceiptEndsRequests(plan: seq<Job>, s: State, log: seq<Action>, id: string)
    requires ValidPlan(plan) && StateSound(plan, s) && Legal(plan, s, log) && id in s.disk.receipts
    ensures Asked(log, id) == 0
    ensures id in Final(s, log).disk.receipts && Final(s, log).disk.receipts[id] == s.disk.receipts[id]
    decreases |log|
  {
    if log != [] {
      StepKeepsSound(plan, s, log[0]);
      ReceiptEndsRequests(plan, Apply(s, log[0]), log[1..], id);
    }
  }

  predicate GivenUp(e: Entry) { e.status == Failed || e.status == Exhausted }

  lemma {:induction false} StepKeepsFailure(plan: seq<Job>, s: State, a: Action, j: Job)
    requires ValidPlan(plan) && StateSound(plan, s) && Enabled(plan, s, a) && j in plan
    requires GivenUp(EntryOf(s.disk, j.id))
    ensures !Asks(a, j.id) && EntryOf(Apply(s, a).disk, j.id) == EntryOf(s.disk, j.id)
  {
    assert Sound(s.disk, j) && j.id in Ids(plan);
    match a
    case Record(own, entries) => {
      assert own.id != j.id;
      assert CurrentEntry(s.disk, j.id, entries[own.id := EntryOf(s.disk, own.id)][j.id]);
    }
    case _ =>
  }

  /** A task recorded as FAILED or EXHAUSTED stays so and is never requested again. */
  lemma {:induction false} FailureIsFinal(plan: seq<Job>, s: State, log: seq<Action>, j: Job)
    requires ValidPlan(plan) && StateSound(plan, s) && Legal(plan, s, log) && j in plan
    requires GivenUp(EntryOf(s.disk, j.id))
    ensures Asked(log, j.id) == 0 && EntryOf(Final(s, log).disk, j.id) == EntryOf(s.disk, j.id)
    decreases |log|
  {
    if log != [] {
      StepKeepsSound(plan, s, log[0]);
      StepKeepsFailure(plan, s, log[0], j);
      FailureIsFinal(plan, Apply(s, log[0]), log[1..], j);
    }
  }

  /** The attempts on record, in the checkpoint or in the receipt. */
  function Recorded(d: Disk, id: string): nat {
    Max(EntryOf(d, id).attempts, if id in d.receipts then d.receipts[id] else 0)
  }

  function InFlight(s: State, id: string): nat {
    if s.flight.Some? && s.flight.value.job.id == id then 1 else 0
  }

  /** One step's requests for a task, and the crashes that a request for it was in flight at. */
  function AskCount(a: Action, id: string): nat { if Asks(a, id) then 1 else 0 }

  function LossCount(s: State, a: Action, id: string): nat { if a.Crash? then InFlight(s, id) else 0 }

  /** The requests for a task whose outcome an interruption lost. */
  function Lost(s: State, log: seq<Action>, id: string): nat
    decreases |log|
  {
    if log == [] then 0 else LossCount(s, log[0], id) + Lost(Apply(s, log[0]), log[1..], id)
  }

  /** No more is lost than there are crashes. */
  lemma {:induction false} LostInCrashes(s: State, log: seq<Action>, id: string)
    ensures Lost(s, log, id) <= Crashes(log)
    decreases |log|
  {
    if log != [] { LostInCrashes(Apply(s, log[0]), log[1..], id); }
  }

  lemma {:induction false} StepRecords(plan: seq<Job>, s: State, a: Action, j: Job)
    requires ValidPlan(plan) && StateSound(plan, s) && Enabled(plan, s, a) && j in plan
    ensures Recorded(s.disk, j.id) <= Recorded(Apply(s, a).disk, j.id)
    ensures AskCount(a, j.id) + Recorded(s.disk, j.id) + InFlight(s, j.id) ==
            Recorded(Apply(s, a).disk, j.id) + InFlight(Apply(s, a), j.id) + LossCount(s, a, j.id)
  {
    assert Sound(s.disk, j) && j.id in Ids(plan);
    match a
    case Record(own, entries) => {
      if own.id == j.id {
        IdTellsJob(plan, own, j);
      } else {
        assert CurrentEntry(s.disk, j.id, entries[own.id := EntryOf(s.disk, own.id)][j.id]);
      }
    }
    case Publish(own, n) => if own.id == j.id { IdTellsJob(plan, own, j); }
    case _ =>
  }

  /** Recorded attempts never fall, and every request is either on record, or in flight, or lost to a crash. */
  lemma {:induction false} RequestsAreRecorded(plan: seq<Job>, s: State, log: seq<Action>, j: Job)
    requires ValidPlan(plan) && StateSound(plan, s) && Legal(plan, s, log) && j in plan
    ensures Recorded(s.disk, j.id) <= Recorded(Final(s, log).disk, j.id)
    ensures Asked(log, j.id) + Recorded(s.disk, j.id) + InFlight(s, j.id) ==
            Recorded(Final(s, log).disk, j.id) + InFlight(Final(s, log), j.id) + Lost(s, log, j.id)
    decreases |log|
  {
    if log != [] {
      StepKeepsSound(plan, s, log[0]);
      StepRecords(plan, s, log[0], j);
      RequestsAreRecorded(plan, Apply(s, log[0]), log[1..], j);
    }
  }

  /** The requests on record or in flight after all runs of `log`. */
  function Accounted(log: seq<Action>, id: string): nat {
    var end := Final(State(EMPTY, None), log);
    Recorded(end.disk, id) + InFlight(end, id)
  }

  /**
   * Over all runs together the requests for a task are those accounted for, never more than `max_attempts`, and
   * those lost to a crash; they stay within `max_attempts` exactly when the lost ones leave room for the others.
   */
  lemma {:induction false} RequestsAreBounded(plan: seq<Job>, log: seq<Action>, j: Job)
    requires ValidPlan(plan) && Legal(plan, State(EMPTY, None), log) && j in plan
    ensures var lost := Lost(State(EMPTY, None), log, j.id);
            && Asked(log, j.id) == Accounted(log, j.id) + lost
            && Accounted(log, j.id) <= j.maxAttempts
            && (Asked(log, j.id) <= j.maxAttempts <==> lost <= j.maxAttempts - Accounted(log, j.id))
            && lost <= Crashes(log)
  {
    var start := State(EMPTY, None);
    EmptyIsSound(plan);
    RunsKeepSound(plan, start, log);
    RequestsAreRecorded(plan, start, log, j);
    LostInCrashes(start, log, j.id);
    var end := Final(start, log);
    assert Sound(end.disk, j);
    if InFlight(end, j.id) == 1 { IdTellsJob(plan, end.flight.value.job, j); }
  }

  // ----- Requests beyond the maximum ----------------------------------------------------------------------------

  /** Two logs that follow one another ask and lose what each of them does. */
  lemma {:induction false} CountsJoin(s: State, a: seq<Action>, b: seq<Action>, id: string)
    ensures Asked(a + b, id) == Asked(a, id) + Asked(b, id)
    ensures Lost(s, a + b, id) == Lost(s, a, id) + Lost(Final(s, a), b, id)
    decreases |a|
  {
    if a == [] {
      assert a + b == b;
    } else {
      assert (a + b)[1..] == a[1..] + b;
      CountsJoin(Apply(s, a[0]), a[1..], b, id);
    }
  }

  /** A log of two steps, taken apart. */
  lemma {:induction false} TwoSteps(plan: seq<Job>, s: State, a: Action, b: Action, id: string)
    ensures Legal(plan, s, [a, b]) <==> Enabled(plan, s, a) && Enabled(plan, Apply(s, a), b)
    ensures Final(s, [a, b]) == Apply(Apply(s, a), b)
    ensures Asked([a, b], id) == AskCount(a, id) + AskCount(b, id)
    ensures Lost(s, [a, b], id) == LossCount(s, a, id) + LossCount(Apply(s, a), b, id)
  {
    assert [a, b][1..] == [b] && [b][1..] == [];
    assert Legal(plan, Apply(Apply(s, a), b), []) && Final(Apply(Apply(s, a), b), []) == Apply(Apply(s, a), b);
    assert Asked([b], id) == AskCount(b, id) + Asked([], id);
    assert Lost(Apply(s, a), [b], id) == LossCount(Apply(s, a), b, id) + Lost(Apply(Apply(s, a), b), [], id);
  }

  /** Interrupted after its first request again and again, a task is requested as often as one likes. */
  lemma {:induction false} CrashesRepeatRequests(plan: seq<Job>, j: Job, n: nat) returns (log: seq<Action>)
    requires ValidPlan(plan) && j in plan
    ensures Legal(plan, State(EMPTY, None), log) && Final(State(EMPTY, None), log) == State(EMPTY, None)
    ensures Asked(log, j.id) == n && Lost(State(EMPTY, None), log, j.id) == n
  {
    var start := State(EMPTY, None);
    if n == 0 {
      log := [];
    } else {
      var before := CrashesRepeatRequests(plan, j, n - 1);
      var again := [Ask(j, 1), Crash];
      TwoSteps(plan, start, Ask(j, 1), Crash, j.id);
      LegalJoin(plan, start, before, again);
      CountsJoin(start, before, again, j.id);
      log := before + again;
    }
  }

  /** The disk after `k` recorded attempts at `id` and none at the other tasks. */
  function DiskAfter(plan: seq<Job>, id: string, k: nat): Disk {
    if k == 0 then EMPTY
    else Disk(map[], Some(map x | x in Ids(plan) :: if x == id then Entry(k, Pending) else Entry(0, Pending)))
  }

  /** Each of the attempts before the last may be recorded as failed and still pending. */
  lemma {:induction false} FailuresRecord(plan: seq<Job>, j: Job, k: nat) returns (log: seq<Action>)
    requires ValidPlan(plan) && j in plan && k < j.maxAttempts
    ensures Legal(plan, State(EMPTY, None), log)
    ensures Final(State(EMPTY, None), log) == State(DiskAfter(plan, j.id, k), None)
    ensures Asked(log, j.id) == k && Lost(State(EMPTY, None), log, j.id) == 0
  {
    hide Enabled;
    var start := State(EMPTY, None);
    if k == 0 {
      log := [];
    } else {
      var before := FailuresRecord(plan, j, k - 1);
      var entries := DiskAfter(plan, j.id, k).checkpoint.value;
      var attempt := [Ask(j, k), Record(j, entries)];
      assert j.id in Ids(plan);
      FailureIsRecordable(plan, j, k);
      TwoSteps(plan, State(DiskAfter(plan, j.id, k - 1), None), Ask(j, k), Record(j, entries), j.id);
      LegalJoin(plan, start, before, attempt);
      CountsJoin(start, before, attempt, j.id);
      log := before + attempt;
    }
  }

  lemma {:induction false} FailureIsRecordable(plan: seq<Job>, j: Job, k: nat)
    requires j in plan && 1 <= k < j.maxAttempts
    ensures var s := State(DiskAfter(plan, j.id, k - 1), None);
            var record := Record(j, DiskAfter(plan, j.id, k).checkpoint.value);
            && Enabled(plan, s, Ask(j, k))
            && Enabled(plan, Apply(s, Ask(j, k)), record)
            && Apply(Apply(s, Ask(j, k)), record) == State(DiskAfter(plan, j.id, k), None)
  {
    var d, entries := DiskAfter(plan, j.id, k - 1), DiskAfter(plan, j.id, k).checkpoint.value;
    var known := entries[j.id := EntryOf(d, j.id)];
    assert j.id in Ids(plan);
    assert known.Keys == Ids(plan);
    assert forall id :: id in known ==> known[id] == EntryOf(d, id);
  }

  /** The bound is attained: with `n` requests lost, a task may be requested `max_attempts + n` times. */
  lemma {:induction false} BoundIsAttained(plan: seq<Job>, j: Job, n: nat) returns (log: seq<Action>)
    requires ValidPlan(plan) && j in plan
    ensures Legal(plan, State(EMPTY, None), log)
    ensures Lost(State(EMPTY, None), log, j.id) == n && Asked(log, j.id) == j.maxAttempts + n
  {
    var start := State(EMPTY, None);
    var lost := CrashesRepeatRequests(plan, j, n);
    var failed := FailuresRecord(plan, j, j.maxAttempts - 1);
    var last := State(DiskAfter(plan, j.id, j.maxAttempts - 1), None);
    var ask := [Ask(j, j.maxAttempts)];
    assert j.id in Ids(plan);
    assert ask[1..] == [] && Legal(plan, Apply(last, ask[0]), []) && Legal(plan, last, ask);
    assert Asked(ask, j.id) == 1 + Asked([], j.id);
    assert Lost(last, ask, j.id) == 0 + Lost(Apply(last, ask[0]), [], j.id);
    LegalJoin(plan, start, failed, ask);
    CountsJoin(start, failed, ask, j.id);
    LegalJoin(plan, start, lost, failed + ask);
    CountsJoin(start, lost, failed + ask, j.id);
    log := lost + (failed + ask);
  }

  /** A task with a single attempt is requested twice, because a crash left no trace of the first request. */
  lemma {:induction false} RequestsCanExceed(j: Job)
    requires j.maxAttempts == 1
    ensures ValidPlan([j]) && Legal([j], State(EMPTY, None), [Ask(j, 1), Crash, Ask(j, 1)])
    ensures Asked([Ask(j, 1), Crash, Ask(j, 1)], j.id) == 2 > j.maxAttempts
  {
    var start := State(EMPTY, None);
    var crashed, again := [Ask(j, 1), Crash], [Ask(j, 1)];
    assert j in [j];
    TwoSteps([j], start, Ask(j, 1), Crash, j.id);
    assert again[1..] == [] && Legal([j], Apply(start, again[0]), []) && Legal([j], start, again);
    assert Asked(again, j.id) == 1 + Asked([], j.id);
    LegalJoin([j], start, crashed, again);
    CountsJoin(start, crashed, again, j.id);
    assert crashed + again == [Ask(j, 1), Crash, Ask(j, 1)];
  }
}
