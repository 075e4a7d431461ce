/** One run of the transport: resuming from the disk, requesting, recording, and stopping wherever it is interrupted. */
module TransportRun {
  import opened Basics
  import opened Segments
  import opened Transport

  const RETRYABLE := {408, 429, 500, 502, 503, 504}
  const MAX_RESPONSE_BYTES := 4 * 1024 * 1024

  /** The most steps for one task: nine requests recorded as failed, then a request, its receipt and a checkpoint. */
  const STEPS := 21

  /** What the server sends: nothing, or a status, a body size and, for a JSON array, its length. */
  datatype Response = NoResponse | Response(status: int, size: nat, items: Option<nat>)

  datatype RunError =
    | TaskSetDiffers
    | ReceiptMissing(id: string)
    | PreviouslyFailed(id: string)
    | TaskFailed(id: string)
    | Incomplete

  datatype Outcome = Returned(entries: map<string, Entry>) | Raised(error: RunError) | Interrupted

  datatype Tried = Done | GaveUp | Stopped | Again

  /** `_response_error`. */
  predicate Acceptable(r: Response, task: Task) {
    && r.Response?
    && r.status == 200
    && r.size <= MAX_RESPONSE_BYTES
    && r.items.Some?
    && r.items.value <= task.limit
    && ((task.role == Funding || task.role == GuardBefore) ==> r.items.value < task.limit)
  }

  predicate Retryable(r: Response) { r.NoResponse? || r.status in RETRYABLE }

  /** How an unacceptable answer to an attempt is recorded. */
  function Verdict(r: Response, attempt: nat, maxAttempts: nat): Status {
    if !Retryable(r) then Failed else if attempt == maxAttempts then Exhausted else Pending
  }

  /** Receipts are published for acceptable answers only, and failures are recorded as the answer deserves. */
  predicate HonestStep(server: (string, nat) -> Response, a: Action) {
    match a
    case Publish(j, n) => Acceptable(server(j.id, n), j.task)
    case Record(j, entries) =>
      && j.id in entries
      && !Acceptable(server(j.id, entries[j.id].attempts), j.task)
      && entries[j.id].status == Verdict(server(j.id, entries[j.id].attempts), entries[j.id].attempts, j.maxAttempts)
    case _ => true
  }

  predicate Honest(server: (string, nat) -> Response, log: seq<Action>) {
    forall i :: 0 <= i < |log| ==> HonestStep(server, log[i])
  }

  function CrashCount(stopped: bool): nat { if stopped then 1 else 0 }

  lemma {:induction false} CrashesJoin(a: seq<Action>, b: seq<Action>)
    ensures Crashes(a + b) == Crashes(a) + Crashes(b)
  {
    if a == [] {
      assert a + b == b;
    } else {
      assert (a + b)[1..] == a[1..] + b;
      CrashesJoin(a[1..], b);
    }
  }

  /** `log` leads from the first disk to the state, legally, honestly and with `crashes` interruptions. */
  ghost predicate Reaches(
      plan: seq<Job>, server: (string, nat) -> Response, from: Disk, log: seq<Action>, to: State,
      crashes: nat) {
    && Legal(plan, State(from, None), log)
    && Final(State(from, None), log) == to
    && Crashes(log) == crashes
    && Honest(server, log)
  }

  lemma {:induction false} NoStep(plan: seq<Job>, server: (string, nat) -> Response, disk: Disk)
    ensures Reaches(plan, server, disk, [], State(disk, None), 0)
  {
  }

  lemma {:induction false} OneStep(
      plan: seq<Job>, server: (string, nat) -> Response, from: Disk, log: seq<Action>, to: State,
      crashes: nat, a: Action)
    requires Reaches(plan, server, from, log, to, crashes) && Enabled(plan, to, a) && HonestStep(server, a)
    ensures Reaches(plan, server, from, log + [a], Apply(to, a), crashes + CrashCount(a.Crash?))
  {
    LegalJoin(plan, State(from, None), log, [a]);
    CrashesJoin(log, [a]);
    assert [a][1..] == [];
    assert Legal(plan, Apply(to, a), []);
    assert Final(to, [a]) == Final(Apply(to, a), []) == Apply(to, a);
    assert Crashes([a]) == CrashCount(a.Crash?) + Crashes([]);
  }

  lemma {:induction false} ManySteps(
      plan: seq<Job>, server: (string, nat) -> Response, from: Disk, log: seq<Action>, middle: Disk,
      more: seq<Action>, to: State, crashes: nat)
    requires Reaches(plan, server, from, log, State(middle, None), 0)
    requires Reaches(plan, server, middle, more, to, crashes)
    ensures Reaches(plan, server, from, log + more, to, crashes)
  {
    LegalJoin(plan, State(from, None), log, more);
    CrashesJoin(log, more);
  }

  /** A response that may become a receipt, in full. */
  predicate Answers(response: Response, task: Task) {
    && response.Response? && response.status == 200 && response.size <= 4_194_304 && response.items.Some?
    && response.items.value <= task.limit
    && (task.role == Funding || task.role == GuardBefore ==> response.items.value < task.limit)
  }

  /**
   * Every step of a run treats the server's answer as it deserves: a receipt is of a complete answer to its task; a
   * failure is recorded for any other, as FAILED if it came with a status that is not worth a retry, as EXHAUSTED
   * if it was the last attempt, and otherwise as still pending.
   */
  lemma {:induction false} AnswersAreTreated(
      plan: seq<Job>, server: (string, nat) -> Response, disk: Disk, log: seq<Action>, to: State, crashes: nat, i: nat)
    requires Reaches(plan, server, disk, log, to, crashes) && i < |log|
    ensures log[i].Publish? ==> Answers(server(log[i].job.id, log[i].attempt), log[i].job.task)
    ensures log[i].Record? ==>
              var j, entries := log[i].job, log[i].entries;
              && j.id in entries
              && var answer := server(j.id, entries[j.id].attempts);
                 && !Answers(answer, j.task)
                 && entries[j.id].status ==
                    if answer.Response? && answer.status !in {408, 429, 500, 502, 503, 504} then Failed
                    else if entries[j.id].attempts == j.maxAttempts then Exhausted
                    else Pending
  {
    assert HonestStep(server, log[i]);
  }

  /** The table is current, and up to date for `id`, which is still to be fetched. */
  predicate Fetching(plan: seq<Job>, d: Disk, entries: map<string, Entry>, id: string) {
    && Current(plan, d, entries)
    && id in entries && entries[id] == EntryOf(d, id) && entries[id].status == Pending
    && id !in d.receipts
  }

  lemma {:induction false} AfterRecord(plan: seq<Job>, d: Disk, entries: map<string, Entry>, job: Job, e: Entry)
    requires Fetching(plan, d, entries, job.id)
    ensures Current(plan, d, entries[job.id := e][job.id := EntryOf(d, job.id)])
    ensures var next := entries[job.id := e];
            Current(plan, d.(checkpoint := Some(next)), next) && EntryOf(d.(checkpoint := Some(next)), job.id) == e
  {
    var next := entries[job.id := e];
    assert next[job.id := EntryOf(d, job.id)] == entries;
    assert next.Keys == entries.Keys;
  }

  lemma {:induction false} AfterPublish(plan: seq<Job>, d: Disk, entries: map<string, Entry>, job: Job, n: nat)
    requires Fetching(plan, d, entries, job.id) && n == entries[job.id].attempts + 1
    ensures Current(plan, d.(receipts := d.receipts[job.id := n]), entries[job.id := Entry(n, Complete)])
  {
    var published, next := d.(receipts := d.receipts[job.id := n]), entries[job.id := Entry(n, Complete)];
    assert next.Keys == entries.Keys;
    forall id | id in next ensures CurrentEntry(published, id, next[id]) {
      assert id != job.id ==> CurrentEntry(d, id, entries[id]);
    }
  }

  /** A table that is current stays so once it is the checkpoint. */
  lemma {:induction false} AfterSave(plan: seq<Job>, d: Disk, entries: map<string, Entry>)
    requires Current(plan, d, entries)
    ensures Current(plan, d.(checkpoint := Some(entries)), entries)
  {
  }

  /** One attempt at one task. `budget` counts the steps left before the run is interrupted. */
  method Attempt(
      plan: seq<Job>, job: Job, disk: Disk, table: map<string, Entry>, server: (string, nat) -> Response,
      budget: nat)
    returns (r: Tried, after: Disk, entries: map<string, Entry>, log: seq<Action>)
    requires job in plan && Fetching(plan, disk, table, job.id) && table[job.id].attempts < job.maxAttempts
    ensures Reaches(plan, server, disk, log, State(after, None), CrashCount(r.Stopped?))
    ensures if r.Stopped? then |log| == budget + 1 else |log| <= budget
    ensures |log| <= 3 && (r.Again? ==> |log| == 2)
    ensures r.Done? ==> Current(plan, after, entries) && job.id in after.receipts && entries[job.id].status == Complete
    ensures r.GaveUp? ==> GivenUp(EntryOf(after, job.id))
    ensures r.Again? ==>
      Fetching(plan, after, entries, job.id) && entries[job.id].attempts == table[job.id].attempts + 1 < job.maxAttempts
    ensures entries.Keys == table.Keys && entries == table[job.id := entries[job.id]]
    ensures after.receipts == disk.receipts || after.receipts == disk.receipts[job.id := table[job.id].attempts + 1]
  {
    hide Current;
    var attempts := table[job.id].attempts + 1;
    var start := State(disk, None);
    assert Reaches(plan, server, disk, [], start, 0);
    if budget == 0 {
      OneStep(plan, server, disk, [], start, 0, Crash);
      return Stopped, disk, table, [] + [Crash];
    }
    var ask := Ask(job, attempts);
    var asked := State(disk, Some(Flight(job, attempts)));
    var response := server(job.id, attempts);
    OneStep(plan, server, disk, [], start, 0, ask);
    if budget == 1 {
      OneStep(plan, server, disk, [] + [ask], asked, 0, Crash);
      return Stopped, disk, table, [] + [ask] + [Crash];
    }
    if !Acceptable(response, job.task) {
      var retryable := Retryable(response);
      var terminal := !retryable || attempts == job.maxAttempts;
      var status := if !retryable then Failed else if terminal then Exhausted else Pending;
      AfterRecord(plan, disk, table, job, Entry(attempts, status));
      entries := table[job.id := Entry(attempts, status)];
      OneStep(plan, server, disk, [] + [ask], asked, 0, Record(job, entries));
      return if terminal then GaveUp else Again,
        disk.(checkpoint := Some(entries)), entries, [] + [ask] + [Record(job, entries)];
    }
    AfterPublish(plan, disk, table, job, attempts);
    OneStep(plan, server, disk, [] + [ask], asked, 0, Publish(job, attempts));
    after := disk.(receipts := disk.receipts[job.id := attempts]);
    entries := table[job.id := Entry(attempts, Complete)];
    log := [] + [ask] + [Publish(job, attempts)];
    if budget == 2 {
      OneStep(plan, server, disk, log, State(after, None), 0, Crash);
      return Stopped, after, entries, log + [Crash];
    }
    OneStep(plan, server, disk, log, State(after, None), 0, Save(entries));
    AfterSave(plan, after, entries);
    return Done, after.(checkpoint := Some(entries)), entries, log + [Save(entries)];
  }

  /** The attempts at one task, until one is answered, the task is given up, or the run is interrupted. */
  method Fetch(
      plan: seq<Job>, job: Job, disk: Disk, table: map<string, Entry>, server: (string, nat) -> Response,
      budget: nat)
    returns (r: Tried, after: Disk, entries: map<string, Entry>, steps: nat, log: seq<Action>)
    requires job in plan && Fetching(plan, disk, table, job.id)
    ensures Reaches(plan, server, disk, log, State(after, None), CrashCount(r.Stopped?))
    ensures if r.Stopped? then |log| == budget + 1 else |log| + steps == budget
    ensures |log| <= 2 * job.maxAttempts + 1
    ensures r.Done? ==> Current(plan, after, entries) && job.id in after.receipts && entries[job.id].status == Complete
    ensures r.GaveUp? ==> GivenUp(EntryOf(after, job.id))
    ensures r.Again? ==> after == disk && entries == table && table[job.id].attempts >= job.maxAttempts
    ensures entries.Keys == table.Keys && entries == table[job.id := entries[job.id]]
    ensures forall id :: id in after.receipts && id != job.id ==> id in disk.receipts
    ensures forall id :: id in disk.receipts ==> id in after.receipts
  {
    after, entries, steps, log := disk, table, budget, [];
    r := Again;
    while entries[job.id].attempts < job.maxAttempts
      invariant Fetching(plan, after, entries, job.id)
      invariant Reaches(plan, server, disk, log, State(after, None), 0)
      invariant |log| + steps == budget
      invariant |log| == 2 * (entries[job.id].attempts - table[job.id].attempts)
      invariant entries[job.id].attempts >= job.maxAttempts ==> after == disk && entries == table
      invariant entries.Keys == table.Keys && entries == table[job.id := entries[job.id]]
      invariant after.receipts == disk.receipts
      decreases job.maxAttempts - entries[job.id].attempts
    {
      var tried, now, next, more := Attempt(plan, job, after, entries, server, steps);
      ManySteps(plan, server, disk, log, after, more, State(now, None), CrashCount(tried.Stopped?));
      after, entries, log := now, next, log + more;
      steps := if tried.Stopped? then 0 else steps - |more|;
      if !tried.Again? {
        return tried, after, entries, steps, log;
      }
    }
  }

  /** Tasks from `k` on are untouched: the table has what the first disk has, and no receipt was added. */
  ghost predicate Untouched(plan: seq<Job>, disk: Disk, now: Disk, entries: map<string, Entry>, k: nat) {
    forall i :: k <= i < |plan| ==>
      && plan[i].id in entries && entries[plan[i].id] == EntryOf(disk, plan[i].id)
      && (plan[i].id in now.receipts <==> plan[i].id in disk.receipts)
  }

  /** Tasks before `k` that the table calls complete have their receipt; on a sound disk all of them are. */
  ghost predicate Finished(plan: seq<Job>, disk: Disk, now: Disk, entries: map<string, Entry>, k: nat) {
    forall i :: 0 <= i < k <= |plan| ==>
      && plan[i].id in entries
      && (entries[plan[i].id].status == Complete ==> plan[i].id in now.receipts)
      && (DiskSound(plan, disk) ==> entries[plan[i].id].status == Complete)
  }

  /** The table a run starts from. */
  function InitialEntries(plan: seq<Job>): map<string, Entry> {
    map id | id in Ids(plan) :: Entry(0, Pending)
  }

  lemma {:induction false} Starts(plan: seq<Job>, disk: Disk, entries: map<string, Entry>)
    requires entries == if disk.checkpoint.Some? then disk.checkpoint.value else InitialEntries(plan)
    requires entries.Keys == Ids(plan)
    ensures Current(plan, disk, entries) && Untouched(plan, disk, disk, entries, 0)
    ensures Finished(plan, disk, disk, entries, 0)
  {
    forall i | 0 <= i < |plan| ensures plan[i].id in entries && entries[plan[i].id] == EntryOf(disk, plan[i].id) {
      assert plan[i].id in Ids(plan);
    }
  }

  /** What the table and the disk say about the next task. */
  lemma {:induction false} NextTask(plan: seq<Job>, disk: Disk, now: Disk, entries: map<string, Entry>, k: nat)
    requires ValidPlan(plan) && k < |plan|
    requires Current(plan, now, entries) && Untouched(plan, disk, now, entries, k)
    requires DiskSound(plan, disk) ==> DiskSound(plan, now)
    ensures 2 * plan[k].maxAttempts + 1 <= STEPS
    ensures var id := plan[k].id;
            && id in entries && entries[id] == EntryOf(disk, id)
            && (id in now.receipts <==> id in disk.receipts)
            && (entries[id].status == Pending && id !in now.receipts ==> Fetching(plan, now, entries, id))
            && (DiskSound(plan, disk) ==> Sound(now, plan[k]))
  {
  }

  /** A receipt on disk completes its task in the table. */
  lemma {:induction false} ReceiptStep(plan: seq<Job>, disk: Disk, now: Disk, entries: map<string, Entry>, k: nat)
    requires ValidPlan(plan) && k < |plan| && plan[k].id in now.receipts
    requires Current(plan, now, entries) && Untouched(plan, disk, now, entries, k)
    requires Finished(plan, disk, now, entries, k)
    ensures var next := entries[plan[k].id := Entry(Max(entries[plan[k].id].attempts, now.receipts[plan[k].id]),
      Complete)];
            Current(plan, now, next) && Untouched(plan, disk, now, next, k + 1)
              && Finished(plan, disk, now, next, k + 1)
  {
    var id := plan[k].id;
    assert CurrentEntry(now, id, entries[id]);
    var next := entries[id := Entry(Max(entries[id].attempts, now.receipts[id]), Complete)];
    assert next.Keys == entries.Keys;
    forall x | x in next ensures CurrentEntry(now, x, next[x]) {
      assert x != id ==> CurrentEntry(now, x, entries[x]);
    }
  }

  /** At the end a table without open tasks is the whole plan, complete; on a sound disk there is no other. */
  lemma {:induction false} AllFinished(plan: seq<Job>, disk: Disk, now: Disk, entries: map<string, Entry>)
    requires Current(plan, now, entries) && Finished(plan, disk, now, entries, |plan|)
    ensures entries.Keys == Ids(plan)
    ensures (exists id :: id in entries && entries[id].status != Complete) ==> !DiskSound(plan, disk)
    ensures (forall id :: id in entries ==> entries[id].status == Complete) ==>
      forall j :: j in plan ==> j.id in entries && j.id in now.receipts
  {
    forall id | id in entries && DiskSound(plan, disk) ensures entries[id].status == Complete {
      var i :| 0 <= i < |plan| && plan[i].id == id;
    }
  }

  /** A fetched task, or one that has no attempts left. */
  lemma {:induction false} FetchStep(
      plan: seq<Job>, disk: Disk, now: Disk, entries: map<string, Entry>, k: nat, after: Disk,
      next: map<string, Entry>)
    requires ValidPlan(plan) && k < |plan| && Untouched(plan, disk, now, entries, k)
    requires Finished(plan, disk, now, entries, k)
    requires plan[k].id in next && next == entries[plan[k].id := next[plan[k].id]]
    requires forall id :: id in after.receipts && id != plan[k].id ==> id in now.receipts
    requires forall id :: id in now.receipts ==> id in after.receipts
    requires next[plan[k].id].status == Complete ==> plan[k].id in after.receipts
    requires DiskSound(plan, disk) ==> next[plan[k].id].status == Complete
    ensures Untouched(plan, disk, after, next, k + 1) && Finished(plan, disk, after, next, k + 1)
  {
  }

  /** Between tasks, a sound first disk has led to a sound disk. */
  lemma {:induction false} StillSound(
      plan: seq<Job>, server: (string, nat) -> Response, disk: Disk, log: seq<Action>, now: Disk)
    requires ValidPlan(plan) && Reaches(plan, server, disk, log, State(now, None), 0)
    ensures DiskSound(plan, disk) ==> DiskSound(plan, now)
  {
    if DiskSound(plan, disk) { RunsKeepSound(plan, State(disk, None), log); }
  }

  /** What an error of a run says about the disk before and after it. */
  ghost predicate Explained(plan: seq<Job>, disk: Disk, after: Disk, error: RunError) {
    match error
    case TaskSetDiffers => disk.checkpoint.Some? && disk.checkpoint.value.Keys != Ids(plan)
    case ReceiptMissing(id) => EntryOf(disk, id).status == Complete && id !in disk.receipts
    case PreviouslyFailed(id) => GivenUp(EntryOf(disk, id)) && id !in disk.receipts
    case TaskFailed(id) => GivenUp(EntryOf(after, id))
    case Incomplete => !DiskSound(plan, disk)
  }

  /** `run_binance_transport`, with its interruptions. */
  method Run(plan: seq<Job>, disk: Disk, server: (string, nat) -> Response, budget: nat)
    returns (r: Outcome, after: Disk, log: seq<Action>)
    requires ValidPlan(plan)
    ensures Reaches(plan, server, disk, log, State(after, None), CrashCount(r.Interrupted?))
    ensures r.Interrupted? ==> |log| == budget + 1 && budget <= STEPS * |plan|
    ensures r.Returned? ==> after.checkpoint == Some(r.entries) && r.entries.Keys == Ids(plan)
    ensures r.Returned? ==> forall j :: j in plan ==> EntryOf(after, j.id).status == Complete && j.id in after.receipts
    ensures r.Raised? ==> Explained(plan, disk, after, r.error)
  {
    hide Reaches, Current, Untouched, Finished, DiskSound, ValidPlan, Fetching, Ids, Retryable;
    var entries := if disk.checkpoint.Some? then disk.checkpoint.value else InitialEntries(plan);
    NoStep(plan, server, disk);
    var steps := budget;
    after, log := disk, [];
    if entries.Keys != Ids(plan) {
      return Raised(TaskSetDiffers), after, log;
    }
    Starts(plan, disk, entries);
    for k := 0 to |plan|
      invariant Current(plan, after, entries) && Untouched(plan, disk, after, entries, k)
      invariant Finished(plan, disk, after, entries, k)
      invariant Reaches(plan, server, disk, log, State(after, None), 0)
      invariant |log| + steps == budget && |log| <= STEPS * k
    {
      var job := plan[k];
      StillSound(plan, server, disk, log, after);
      NextTask(plan, disk, after, entries, k);
      var entry := entries[job.id];
      if job.id in after.receipts {
        ReceiptStep(plan, disk, after, entries, k);
        entries := entries[job.id := Entry(Max(entry.attempts, after.receipts[job.id]), Complete)];
        continue;
      }
      if entry.status == Complete {
        return Raised(ReceiptMissing(job.id)), after, log;
      }
      if entry.status == Failed || entry.status == Exhausted {
        return Raised(PreviouslyFailed(job.id)), after, log;
      }
      var fetched, now, table, left, more := Fetch(plan, job, after, entries, server, steps);
      ManySteps(plan, server, disk, log, after, more, State(now, None), CrashCount(fetched.Stopped?));
      if fetched.Stopped? {
        return Interrupted, now, log + more;
      }
      if fetched.GaveUp? {
        return Raised(TaskFailed(job.id)), now, log + more;
      }
      FetchStep(plan, disk, after, entries, k, now, table);
      after, entries, steps, log := now, table, left, log + more;
    }
    AllFinished(plan, disk, after, entries);
    if exists id :: id in entries && entries[id].status != Complete {
      return Raised(Incomplete), after, log;
    }
    if steps == 0 {
      OneStep(plan, server, disk, log, State(after, None), 0, Crash);
      return Interrupted, after, log + [Crash];
    }
    OneStep(plan, server, disk, log, State(after, None), 0, Save(entries));
    return Returned(entries), after.(checkpoint := Some(entries)), log + [Save(entries)];
  }

  /** From the empty disk, and from what runs leave, neither consistency error nor an incomplete end occurs. */
  lemma {:induction false} ErrorsAreFailures(
      plan: seq<Job>, history: seq<Action>, disk: Disk, after: Disk, error: RunError)
    requires ValidPlan(plan) && Legal(plan, State(EMPTY, None), history)
    requires Final(State(EMPTY, None), history).disk == disk
    requires Explained(plan, disk, after, error)
    ensures error.PreviouslyFailed? || error.TaskFailed?
  {
    EmptyIsSound(plan);
    RunsKeepSound(plan, State(EMPTY, None), history);
    forall id | EntryOf(disk, id).status == Complete ensures id in disk.receipts {
      CompleteIsPlanned(plan, disk, id);
    }
  }

  /** On a sound disk only planned tasks are complete, and they have their receipt. */
  lemma {:induction false} CompleteIsPlanned(plan: seq<Job>, disk: Disk, id: string)
    requires DiskSound(plan, disk) && EntryOf(disk, id).status == Complete
    ensures id in Ids(plan) && id in disk.receipts
  {
    var j :| j in plan && j.id == id;
    assert Sound(disk, j);
  }
}
