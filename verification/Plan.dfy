/** The planned queries: they pass the plan's overlap check, and each request finds queries that cover it exactly. */
module Plan {
  import opened Basics
  import opened Sorting
  import opened Intervals
  import opened Segments
  import opened Selection

  function Limit(role: Role, x: Segment): int {
    match role
    case Candle => (x.end - x.start) / MINUTE
    case GuardAfter => 1
    case _ => 1000
  }

  /** `_task`: the half-open segment becomes a closed range ending one millisecond earlier. */
  function TaskOf(role: Role, x: Segment): Task {
    Task(role, x.symbol, x.start, x.end - 1, Limit(role, x), x.hashes)
  }

  /** One candle query and one funding query for each segment. */
  function SegmentTasks(segments: seq<Segment>): seq<Task> {
    if segments == [] then []
    else [TaskOf(Candle, segments[0]), TaskOf(Funding, segments[0])] + SegmentTasks(segments[1..])
  }

  predicate IsGuard(t: Task) { t.role == GuardBefore || t.role == GuardAfter }

  /** The plan's tasks in any order: those of the segments, and guard queries around the windows. */
  ghost predicate PlanTasks(
      tasks: seq<Task>, accepted: seq<Request>, requirements: seq<Requirement>, guards: seq<Task>) {
    && Planned(accepted, requirements)
    && (forall t :: t in guards ==> IsGuard(t))
    && multiset(tasks) == multiset(SegmentTasks(AllSegments(accepted, requirements)) + guards)
  }

  // ----- Finding a request's queries ------------------------------------------------------------------------

  /** The containment filter of `finalize_binance_transport`. */
  predicate Fits(t: Task, role: Role, r: Request) {
    t.role == role && t.symbol == r.symbol && r.hash in t.hashes && r.start <= t.start && t.last <= r.end - 1
  }

  function Fitting(tasks: seq<Task>, role: Role, r: Request): seq<Task> {
    if tasks == [] then []
    else if Fits(tasks[0], role, r) then [tasks[0]] + Fitting(tasks[1..], role, r)
    else Fitting(tasks[1..], role, r)
  }

  predicate StartLeq(a: Task, b: Task) { a.start <= b.start }

  function Selected(tasks: seq<Task>, role: Role, r: Request): seq<Task> {
    Sort(Fitting(tasks, role, r), StartLeq)
  }

  /** The queries abut, from `left` to `right`, without gap or overlap. */
  predicate TaskTiles(tasks: seq<Task>, left: int, right: int) {
    if tasks == [] then left == right
    else tasks[0].start == left && left <= tasks[0].last && TaskTiles(tasks[1..], tasks[0].last + 1, right)
  }

  lemma {:induction false} FittingCount(tasks: seq<Task>, role: Role, r: Request, t: Task)
    ensures multiset(Fitting(tasks, role, r))[t] == if Fits(t, role, r) then multiset(tasks)[t] else 0
  {
    if tasks != [] {
      FittingCount(tasks[1..], role, r, t);
      assert tasks == [tasks[0]] + tasks[1..];
    }
  }

  lemma {:induction false} FittingPermutes(a: seq<Task>, b: seq<Task>, role: Role, r: Request)
    requires multiset(a) == multiset(b)
    ensures multiset(Fitting(a, role, r)) == multiset(Fitting(b, role, r))
  {
    forall t ensures multiset(Fitting(a, role, r))[t] == multiset(Fitting(b, role, r))[t] {
      FittingCount(a, role, r, t);
      FittingCount(b, role, r, t);
    }
  }

  function TasksOf(role: Role, segments: seq<Segment>): seq<Task> {
    if segments == [] then [] else [TaskOf(role, segments[0])] + TasksOf(role, segments[1..])
  }

  lemma {:induction false} FittingGuards(guards: seq<Task>, role: Role, r: Request)
    requires (forall t :: t in guards ==> IsGuard(t)) && (role == Candle || role == Funding)
    ensures Fitting(guards, role, r) == []
  {
    if guards != [] {
      assert IsGuard(guards[0]);
      FittingGuards(guards[1..], role, r);
    }
  }

  /** On the plan's own order the filter finds the chosen segments. */
  lemma {:induction false} FittingIsChosen(segments: seq<Segment>, guards: seq<Task>, role: Role, r: Request)
    requires (forall t :: t in guards ==> IsGuard(t)) && (role == Candle || role == Funding)
    ensures Fitting(SegmentTasks(segments) + guards, role, r) == TasksOf(role, Chosen(segments, r))
  {
    if segments == [] {
      assert SegmentTasks(segments) + guards == guards;
      FittingGuards(guards, role, r);
    } else {
      var candle, funding := TaskOf(Candle, segments[0]), TaskOf(Funding, segments[0]);
      var all, rest := SegmentTasks(segments) + guards, SegmentTasks(segments[1..]) + guards;
      assert all[0] == candle && all[1..] == [funding] + rest;
      assert all[1..][0] == funding && all[1..][1..] == rest;
      FittingIsChosen(segments[1..], guards, role, r);
      FittingTwo(all, candle, funding, rest, role, r);
    }
  }

  lemma {:induction false} FittingTwo(
      all: seq<Task>, candle: Task, funding: Task, rest: seq<Task>, role: Role, r: Request)
    requires |all| >= 2 && all[0] == candle && all[1..][0] == funding && all[1..][1..] == rest
    ensures Fitting(all, role, r) ==
      (if Fits(candle, role, r) then [candle] else []) +
        ((if Fits(funding, role, r) then [funding] else []) + Fitting(rest, role, r))
  {
  }

  lemma {:induction false} TilesBecomeTasks(segments: seq<Segment>, role: Role, left: int, right: int)
    requires Tiles(segments, left, right)
    ensures TaskTiles(TasksOf(role, segments), left, right)
  {
    if segments != [] { TilesBecomeTasks(segments[1..], role, segments[0].end, right); }
  }

  lemma {:induction false} TaskTilesAscend(tasks: seq<Task>, left: int, right: int)
    requires TaskTiles(tasks, left, right)
    ensures left <= right && forall i :: 0 <= i < |tasks| ==> left <= tasks[i].start <= tasks[i].last < right
    ensures forall i, j :: 0 <= i < j < |tasks| ==> tasks[i].start < tasks[j].start
  {
    if tasks != [] {
      var rest := tasks[1..];
      TaskTilesAscend(rest, tasks[0].last + 1, right);
      assert forall i :: 1 <= i < |tasks| ==> tasks[i] == rest[i - 1];
    }
  }

  predicate RangeLeq(a: Task, b: Task) { PairLeq(RangeOf(a), RangeOf(b)) }

  lemma {:induction false} RangeOrder()
    ensures TotalPreorder(RangeLeq)
  {
  }

  lemma {:induction false} StartsTellApart(tasks: seq<Task>)
    requires forall i, j :: 0 <= i < j < |tasks| ==> tasks[i].start < tasks[j].start
    ensures NoTies(RangeLeq, tasks) && NoTies(StartLeq, tasks)
  {
    forall a, b | a in tasks && b in tasks && a.start == b.start ensures a == b {
      var i :| 0 <= i < |tasks| && tasks[i] == a;
      var j :| 0 <= j < |tasks| && tasks[j] == b;
    }
  }

  /** An ascending list without equal starts is what sorting any arrangement of it gives. */
  lemma {:induction false} SortedByStart(tasks: seq<Task>, arranged: seq<Task>)
    requires multiset(tasks) == multiset(arranged)
    requires forall i, j :: 0 <= i < j < |tasks| ==> tasks[i].start < tasks[j].start
    ensures Sort(arranged, StartLeq) == tasks
  {
    assert TotalPreorder(StartLeq);
    StartsTellApart(tasks);
    SortSorts(arranged, StartLeq);
    AscendingUnique(tasks, Sort(arranged, StartLeq), StartLeq);
  }

  lemma {:induction false} SortedByRange(tasks: seq<Task>, arranged: seq<Task>)
    requires multiset(tasks) == multiset(arranged)
    requires forall i, j :: 0 <= i < j < |tasks| ==> tasks[i].start < tasks[j].start
    ensures Sort(arranged, RangeLeq) == tasks
  {
    RangeOrder();
    StartsTellApart(tasks);
    SortSorts(arranged, RangeLeq);
    AscendingUnique(tasks, Sort(arranged, RangeLeq), RangeLeq);
  }

  /** Whatever the order of the plan, the queries selected for a request cover exactly `[start, end)`. */
  lemma {:induction false} SelectionTiles(
      tasks: seq<Task>, accepted: seq<Request>, requirements: seq<Requirement>, guards: seq<Task>, role: Role,
      r: Request)
    requires PlanTasks(tasks, accepted, requirements, guards) && r in accepted && (role == Candle || role == Funding)
    ensures TaskTiles(Selected(tasks, role, r), r.start, r.end)
    ensures Selected(tasks, role, r) == TasksOf(role, Chosen(AllSegments(accepted, requirements), r))
  {
    var segments := AllSegments(accepted, requirements);
    var found := TasksOf(role, Chosen(segments, r));
    ChosenTileRequest(accepted, requirements, r);
    TilesBecomeTasks(Chosen(segments, r), role, r.start, r.end);
    TaskTilesAscend(found, r.start, r.end);
    FittingIsChosen(segments, guards, role, r);
    FittingPermutes(tasks, SegmentTasks(segments) + guards, role, r);
    SortedByStart(found, Fitting(tasks, role, r));
  }

  // ----- The plan's overlap check ---------------------------------------------------------------------------

  function RangeOf(t: Task): Interval { Interval(t.start, t.last) }

  function Grouped(tasks: seq<Task>, role: Role, symbol: string): seq<Task> {
    if tasks == [] then []
    else if tasks[0].role == role && tasks[0].symbol == symbol then [tasks[0]] + Grouped(tasks[1..], role, symbol)
    else Grouped(tasks[1..], role, symbol)
  }

  function Ranges(tasks: seq<Task>): seq<Interval> {
    if tasks == [] then [] else [RangeOf(tasks[0])] + Ranges(tasks[1..])
  }

  /** Neighbours in the sorted ranges of one role and symbol overlap: the plan would be refused. */
  predicate Overlapping(tasks: seq<Task>, role: Role, symbol: string) {
    NeighboursMeet(Sort(Ranges(Grouped(tasks, role, symbol)), PairLeq))
  }

  predicate NeighboursMeet(sorted: seq<Interval>) {
    exists i :: 0 <= i < |sorted| - 1 && sorted[i + 1].left <= sorted[i].right
  }

  lemma {:induction false} RangesAt(tasks: seq<Task>)
    ensures |Ranges(tasks)| == |tasks| && forall i :: 0 <= i < |tasks| ==> Ranges(tasks)[i] == RangeOf(tasks[i])
  {
    if tasks != [] { RangesAt(tasks[1..]); }
  }

  lemma {:induction false} InsertRange(t: Task, tasks: seq<Task>)
    ensures Insert(RangeOf(t), Ranges(tasks), PairLeq) == Ranges(Insert(t, tasks, RangeLeq))
  {
    if tasks != [] && !RangeLeq(t, tasks[0]) {
      InsertRange(t, tasks[1..]);
      assert Ranges(tasks)[1..] == Ranges(tasks[1..]);
      var inserted := Insert(t, tasks[1..], RangeLeq);
      assert ([tasks[0]] + inserted)[1..] == inserted;
    } else {
      assert ([t] + tasks)[1..] == tasks;
    }
  }

  /** Sorting the ranges is sorting the tasks by their ranges. */
  lemma {:induction false} SortRanges(tasks: seq<Task>)
    ensures Sort(Ranges(tasks), PairLeq) == Ranges(Sort(tasks, RangeLeq))
  {
    if tasks != [] {
      SortRanges(tasks[1..]);
      assert Ranges(tasks)[1..] == Ranges(tasks[1..]);
      InsertRange(tasks[0], Sort(tasks[1..], RangeLeq));
    }
  }

  lemma {:induction false} GroupedCount(tasks: seq<Task>, role: Role, symbol: string, t: Task)
    ensures multiset(Grouped(tasks, role, symbol))[t] ==
      if t.role == role && t.symbol == symbol then multiset(tasks)[t] else 0
  {
    if tasks != [] {
      GroupedCount(tasks[1..], role, symbol, t);
      assert tasks == [tasks[0]] + tasks[1..];
    }
  }

  lemma {:induction false} GroupedPermutes(a: seq<Task>, b: seq<Task>, role: Role, symbol: string)
    requires multiset(a) == multiset(b)
    ensures multiset(Grouped(a, role, symbol)) == multiset(Grouped(b, role, symbol))
  {
    forall t ensures multiset(Grouped(a, role, symbol))[t] == multiset(Grouped(b, role, symbol))[t] {
      GroupedCount(a, role, symbol, t);
      GroupedCount(b, role, symbol, t);
    }
  }

  function OfSymbol(s: seq<Segment>, symbol: string): seq<Segment> {
    if s == [] then []
    else if s[0].symbol == symbol then [s[0]] + OfSymbol(s[1..], symbol)
    else OfSymbol(s[1..], symbol)
  }

  lemma {:induction false} GroupedGuards(guards: seq<Task>, role: Role, symbol: string)
    requires (forall t :: t in guards ==> IsGuard(t)) && (role == Candle || role == Funding)
    ensures Grouped(guards, role, symbol) == []
  {
    if guards != [] {
      assert IsGuard(guards[0]);
      GroupedGuards(guards[1..], role, symbol);
    }
  }

  lemma {:induction false} GroupedIsOfSymbol(segments: seq<Segment>, guards: seq<Task>, role: Role, symbol: string)
    requires (forall t :: t in guards ==> IsGuard(t)) && (role == Candle || role == Funding)
    ensures Grouped(SegmentTasks(segments) + guards, role, symbol) == TasksOf(role, OfSymbol(segments, symbol))
  {
    if segments == [] {
      assert SegmentTasks(segments) + guards == guards;
      GroupedGuards(guards, role, symbol);
    } else {
      var candle, funding := TaskOf(Candle, segments[0]), TaskOf(Funding, segments[0]);
      var all, rest := SegmentTasks(segments) + guards, SegmentTasks(segments[1..]) + guards;
      assert all[0] == candle && all[1..] == [funding] + rest;
      assert all[1..][0] == funding && all[1..][1..] == rest;
      GroupedIsOfSymbol(segments[1..], guards, role, symbol);
      GroupedTwo(all, candle, funding, rest, role, symbol);
    }
  }

  lemma {:induction false} GroupedTwo(
      all: seq<Task>, candle: Task, funding: Task, rest: seq<Task>, role: Role, symbol: string)
    requires |all| >= 2 && all[0] == candle && all[1..][0] == funding && all[1..][1..] == rest
    requires candle.role == Candle && funding.role == Funding && candle.symbol == funding.symbol
    requires role == Candle || role == Funding
    ensures Grouped(all, role, symbol) ==
      (if candle.symbol == symbol then [if role == Candle then candle else funding] else []) +
        Grouped(rest, role, symbol)
  {
  }

  /** Each segment ends before the next one starts. */
  predicate Apart(s: seq<Segment>) {
    && (forall i :: 0 <= i < |s| ==> s[i].start < s[i].end)
    && (forall i, j :: 0 <= i < j < |s| ==> s[i].end <= s[j].start)
  }

  lemma {:induction false} TilesApart(s: seq<Segment>, left: int, right: int)
    requires Tiles(s, left, right)
    ensures Apart(s)
  {
    if s != [] {
      var rest := s[1..];
      TilesApart(rest, s[0].end, right);
      TilesBounds(rest, s[0].end, right);
      assert forall i :: 1 <= i < |s| ==> s[i] == rest[i - 1];
    }
  }

  lemma {:induction false} ApartJoin(a: seq<Segment>, b: seq<Segment>, middle: int)
    requires Apart(a) && Apart(b)
    requires (forall x :: x in a ==> x.end <= middle) && forall x :: x in b ==> middle <= x.start
    ensures Apart(a + b)
  {
  }

  lemma {:induction false} WindowApart(symbol: string, requests: seq<Request>, w: Interval)
    requires w.left < w.right
    ensures Apart(WindowSegments(symbol, requests, w))
    ensures forall x :: x in WindowSegments(symbol, requests, w) ==>
      x.symbol == symbol && w.left <= x.start && x.end <= w.right
  {
    WindowIsCut(symbol, requests, w);
    TilesApart(WindowSegments(symbol, requests, w), w.left, w.right);
    TilesBounds(WindowSegments(symbol, requests, w), w.left, w.right);
  }

  lemma {:induction false} SymbolApart(symbol: string, requests: seq<Request>, windows: seq<Interval>, low: int)
    requires Separated(windows) && forall k :: 0 <= k < |windows| ==> low <= windows[k].left
    ensures Apart(SymbolSegments(symbol, requests, windows))
    ensures forall x :: x in SymbolSegments(symbol, requests, windows) ==> x.symbol == symbol && low <= x.start
  {
    if windows != [] {
      var w, rest := windows[0], windows[1..];
      SymbolApart(symbol, requests, rest, w.right);
      WindowApart(symbol, requests, w);
      ApartJoin(WindowSegments(symbol, requests, w), SymbolSegments(symbol, requests, rest), w.right);
    }
  }

  lemma {:induction false} OfSymbolJoin(a: seq<Segment>, b: seq<Segment>, symbol: string)
    ensures OfSymbol(a + b, symbol) == OfSymbol(a, symbol) + OfSymbol(b, symbol)
  {
    if a == [] {
      assert a + b == b;
    } else {
      assert (a + b)[1..] == a[1..] + b;
      OfSymbolJoin(a[1..], b, symbol);
      assert [a[0]] + (OfSymbol(a[1..], symbol) + OfSymbol(b, symbol)) ==
        [a[0]] + OfSymbol(a[1..], symbol) + OfSymbol(b, symbol);
    }
  }

  lemma {:induction false} OfSymbolAll(s: seq<Segment>, own: string, symbol: string)
    requires forall x :: x in s ==> x.symbol == own
    ensures OfSymbol(s, symbol) == if own == symbol then s else []
  {
    if s != [] {
      assert s[0] in s;
      OfSymbolAll(s[1..], own, symbol);
      assert s == [s[0]] + s[1..];
    }
  }

  /** Segments of one symbol put before those of other symbols leave each symbol's segments apart. */
  lemma {:induction false} ApartPrepend(now: seq<Segment>, later: seq<Segment>, own: string, symbol: string)
    requires Apart(now) && Apart(OfSymbol(later, symbol))
    requires forall x :: x in now ==> x.symbol == own
    requires own == symbol ==> OfSymbol(later, symbol) == []
    ensures Apart(OfSymbol(now + later, symbol))
    ensures own != symbol ==> OfSymbol(now + later, symbol) == OfSymbol(later, symbol)
  {
    hide Apart;
    OfSymbolJoin(now, later, symbol);
    OfSymbolAll(now, own, symbol);
    assert now + [] == now && [] + OfSymbol(later, symbol) == OfSymbol(later, symbol);
  }

  lemma {:induction false} PlanApart(accepted: seq<Request>, requirements: seq<Requirement>, symbol: string)
    requires forall i, j :: 0 <= i < j < |requirements| ==> requirements[i].symbol != requirements[j].symbol
    requires forall q :: q in requirements ==> Separated(q.windows)
    ensures Apart(OfSymbol(AllSegments(accepted, requirements), symbol))
    ensures (forall q :: q in requirements ==> q.symbol != symbol) ==>
      OfSymbol(AllSegments(accepted, requirements), symbol) == []
  {
    hide Apart, Separated, SymbolSegments, RequestsOf;
    if requirements == [] {
      NoneApart(symbol);
    } else {
      var q, rest := requirements[0], requirements[1..];
      var now := SymbolSegments(q.symbol, RequestsOf(accepted, q.symbol), q.windows);
      assert forall i :: 0 <= i < |rest| ==> rest[i] == requirements[i + 1];
      PlanApart(accepted, rest, symbol);
      assert q in requirements;
      WindowsApart(q.symbol, RequestsOf(accepted, q.symbol), q.windows);
      ApartPrepend(now, AllSegments(accepted, rest), q.symbol, symbol);
    }
  }

  lemma {:induction false} NoneApart(symbol: string)
    ensures OfSymbol([], symbol) == [] && Apart([])
  {
  }

  lemma {:induction false} WindowsApart(symbol: string, requests: seq<Request>, windows: seq<Interval>)
    requires Separated(windows)
    ensures Apart(SymbolSegments(symbol, requests, windows))
    ensures forall x :: x in SymbolSegments(symbol, requests, windows) ==> x.symbol == symbol
  {
    SymbolApart(symbol, requests, windows, if windows == [] then 0 else windows[0].left);
  }

  lemma {:induction false} TasksOfAt(role: Role, s: seq<Segment>)
    ensures |TasksOf(role, s)| == |s| && forall i :: 0 <= i < |s| ==> TasksOf(role, s)[i] == TaskOf(role, s[i])
  {
    if s != [] { TasksOfAt(role, s[1..]); }
  }

  /** The plan's ranges never overlap, whatever the order of its tasks. */
  lemma {:induction false} PlannedApart(accepted: seq<Request>, requirements: seq<Requirement>, symbol: string)
    requires Planned(accepted, requirements)
    ensures Apart(OfSymbol(AllSegments(accepted, requirements), symbol))
  {
    forall q | q in requirements ensures Separated(q.windows) {
    }
    PlanApart(accepted, requirements, symbol);
  }

  lemma {:induction false} ApartTasks(role: Role, own: seq<Segment>)
    requires Apart(own)
    ensures var s := TasksOf(role, own);
      && (forall i :: 0 <= i < |s| ==> s[i].start <= s[i].last)
      && (forall i, j :: 0 <= i < j < |s| ==> s[i].last < s[j].start)
  {
    TasksOfAt(role, own);
  }

  /** Tasks whose ranges follow one another do not overlap after sorting any arrangement of them. */
  lemma {:induction false} ApartRangesSort(grouped: seq<Task>, arranged: seq<Task>)
    requires multiset(grouped) == multiset(arranged)
    requires forall i :: 0 <= i < |grouped| ==> grouped[i].start <= grouped[i].last
    requires forall i, j :: 0 <= i < j < |grouped| ==> grouped[i].last < grouped[j].start
    ensures !NeighboursMeet(Sort(Ranges(arranged), PairLeq))
  {
    SortedByRange(grouped, arranged);
    SortRanges(arranged);
    RangesAt(grouped);
  }

  /** The plan's ranges never overlap, whatever the order of its tasks. */
  lemma {:induction false} PlanPassesOverlapCheck(
      tasks: seq<Task>, accepted: seq<Request>, requirements: seq<Requirement>,
      guards: seq<Task>, role: Role, symbol: string)
    requires PlanTasks(tasks, accepted, requirements, guards)
    requires role == Candle || role == Funding
    ensures !Overlapping(tasks, role, symbol)
  {
    hide Apart, Planned, AllSegments, TasksOf, OfSymbol, Sort, Ranges, SegmentTasks, NeighboursMeet;
    var segments := AllSegments(accepted, requirements);
    var own := OfSymbol(segments, symbol);
    PlannedApart(accepted, requirements, symbol);
    ApartTasks(role, own);
    GroupedIsOfSymbol(segments, guards, role, symbol);
    GroupedPermutes(tasks, SegmentTasks(segments) + guards, role, symbol);
    ApartRangesSort(TasksOf(role, own), Grouped(tasks, role, symbol));
  }

  // ----- What the overlap check finds -----------------------------------------------------------------------

  predicate Meet(a: Interval, b: Interval) { a.left <= b.right && b.left <= a.right }

  /** Two ranges of the list meet: different ones, or one that occurs twice. */
  ghost predicate SomeMeet(ranges: seq<Interval>) {
    exists a, b :: a in ranges && b in ranges && Meet(a, b) && (a != b || multiset(ranges)[a] >= 2)
  }

  /** Without neighbours that meet, in an ascending list nothing meets anything. */
  lemma {:induction false} NeighboursApart(s: seq<Interval>, i: nat, j: nat)
    requires !NeighboursMeet(s) && i < j < |s| && forall k :: 0 <= k < |s| ==> s[k].left <= s[k].right
    ensures s[i].right < s[j].left
    decreases j - i
  {
    var k := j - 1;
    assert !(s[k + 1].left <= s[k].right);
    if i < k { NeighboursApart(s, i, k); }
  }

  lemma {:induction false} TwiceInList(s: seq<Interval>, i: nat, j: nat)
    requires i < j < |s| && s[i] == s[j]
    ensures multiset(s)[s[i]] >= 2
  {
    assert s == s[..i] + [s[i]] + s[i + 1..j] + [s[j]] + s[j + 1..];
  }

  lemma {:induction false} OnceInList(s: seq<Interval>, a: Interval)
    requires forall i, j :: 0 <= i < j < |s| ==> s[i] != s[j]
    ensures multiset(s)[a] <= 1
  {
    if s != [] {
      var rest := s[1..];
      assert s == [s[0]] + rest;
      assert forall i :: 0 <= i < |rest| ==> rest[i] == s[i + 1];
      OnceInList(rest, a);
      if a == s[0] {
        assert a !in rest;
        assert multiset(rest)[a] == 0;
      }
    }
  }

  lemma {:induction false} MeetsExactly(s: seq<Interval>)
    requires Ascending(PairLeq, s) && forall k :: 0 <= k < |s| ==> s[k].left <= s[k].right
    ensures NeighboursMeet(s) <==> SomeMeet(s)
  {
    if NeighboursMeet(s) {
      var i :| 0 <= i < |s| - 1 && s[i + 1].left <= s[i].right;
      assert PairLeq(s[i], s[i + 1]);
      assert Meet(s[i], s[i + 1]);
      if s[i] == s[i + 1] { TwiceInList(s, i, i + 1); }
    } else {
      forall a, b | a in s && b in s && a != b ensures !Meet(a, b) {
        var i :| 0 <= i < |s| && s[i] == a;
        var j :| 0 <= j < |s| && s[j] == b;
        if i < j { NeighboursApart(s, i, j); } else { NeighboursApart(s, j, i); }
      }
      forall i, j | 0 <= i < j < |s| ensures s[i] != s[j] {
        NeighboursApart(s, i, j);
      }
      forall a ensures multiset(s)[a] <= 1 {
        OnceInList(s, a);
      }
    }
  }

  /** The check refuses exactly the plans in which two ranges of one role and symbol meet. */
  lemma {:induction false} OverlapExactly(tasks: seq<Task>, role: Role, symbol: string)
    requires forall t :: t in tasks ==> t.start <= t.last
    ensures Overlapping(tasks, role, symbol) <==> SomeMeet(Ranges(Grouped(tasks, role, symbol)))
    ensures forall t :: t in Grouped(tasks, role, symbol) <==> t in tasks && t.role == role && t.symbol == symbol
  {
    hide Ranges, Sort;
    var grouped := Grouped(tasks, role, symbol);
    var ranges := Ranges(grouped);
    var sorted := Sort(ranges, PairLeq);
    GroupedIn(tasks, role, symbol);
    RangesAt(grouped);
    assert TotalPreorder(PairLeq);
    SortSorts(ranges, PairLeq);
    forall k | 0 <= k < |sorted| ensures sorted[k].left <= sorted[k].right {
      assert sorted[k] in ranges;
      var i :| 0 <= i < |ranges| && ranges[i] == sorted[k];
      assert grouped[i] in grouped;
    }
    MeetsExactly(sorted);
  }

  lemma {:induction false} GroupedIn(tasks: seq<Task>, role: Role, symbol: string)
    ensures forall t :: t in Grouped(tasks, role, symbol) <==> t in tasks && t.role == role && t.symbol == symbol
  {
    forall t ensures t in Grouped(tasks, role, symbol) <==> t in tasks && t.role == role && t.symbol == symbol {
      GroupedCount(tasks, role, symbol, t);
      assert t in Grouped(tasks, role, symbol) <==> multiset(Grouped(tasks, role, symbol))[t] > 0;
      assert t in tasks <==> multiset(tasks)[t] > 0;
    }
  }

  // ----- Minute alignment -----------------------------------------------------------------------------------

  predicate Aligned(t: int) { t % MINUTE == 0 }

  predicate AlignedRequests(requests: seq<Request>) { forall r :: r in requests ==> Aligned(r.start) && Aligned(r.end) }

  lemma {:induction false} StretchAligned(symbol: string, requests: seq<Request>, left: int, right: int)
    requires Aligned(left) && Aligned(right)
    ensures forall x :: x in Stretch(symbol, requests, left, right) ==> Aligned(x.start) && Aligned(x.end)
    decreases right - left
  {
    if left < right { StretchAligned(symbol, requests, Min(left + LIMIT, right), right); }
  }

  lemma {:induction false} StretchesAligned(symbol: string, requests: seq<Request>, ordered: seq<int>)
    requires forall b :: b in ordered ==> Aligned(b)
    ensures forall x :: x in Stretches(symbol, requests, ordered) ==> Aligned(x.start) && Aligned(x.end)
  {
    if |ordered| >= 2 {
      assert ordered[0] in ordered && ordered[1] in ordered;
      StretchAligned(symbol, requests, ordered[0], ordered[1]);
      StretchesAligned(symbol, requests, ordered[1..]);
    }
  }

  /** A point that is covered while its neighbour is not is where a request starts, or ends. */
  lemma {:induction false} AlignedEdge(requests: seq<Request>, p: int)
    requires Covers(Spans(requests), p) && AlignedRequests(requests)
    ensures !Covers(Spans(requests), p - 1) ==> Aligned(p)
    ensures !Covers(Spans(requests), p + 1) ==> Aligned(p + 1)
  {
    SpanOf(requests, p);
    SpanOf(requests, p - 1);
    SpanOf(requests, p + 1);
    var r :| r in requests && r.start <= p < r.end;
    assert r.start != p ==> Covers(Spans(requests), p - 1);
    assert r.end != p + 1 ==> Covers(Spans(requests), p + 1);
  }

  lemma {:induction false} SpansEdges(requests: seq<Request>, windows: seq<Interval>, k: nat)
    requires Merged(requests, windows) && k < |windows|
    ensures Covers(Spans(requests), windows[k].left) && !Covers(Spans(requests), windows[k].left - 1)
    ensures Covers(Spans(requests), windows[k].right - 1) && !Covers(Spans(requests), windows[k].right)
  {
    var w := windows[k];
    assert Inside(w, w.left) && Inside(w, w.right - 1);
    assert Covers(windows, w.left) && Covers(windows, w.right - 1);
    EndUncovered(windows, k);
    StartUncovered(windows, k);
  }

  /** A merged window starts where a request starts and ends where one ends. */
  lemma {:induction false} WindowAligned(requests: seq<Request>, windows: seq<Interval>, k: nat)
    requires Merged(requests, windows) && k < |windows| && AlignedRequests(requests)
    ensures Aligned(windows[k].left) && Aligned(windows[k].right)
  {
    SpansEdges(requests, windows, k);
    AlignedEdge(requests, windows[k].left);
    AlignedEdge(requests, windows[k].right - 1);
  }

  lemma {:induction false} StartUncovered(windows: seq<Interval>, k: nat)
    requires Separated(windows) && k < |windows|
    ensures !Covers(windows, windows[k].left - 1)
  {
    forall j | 0 <= j < |windows| ensures !Inside(windows[j], windows[k].left - 1) {
      if j < k { assert windows[j].right < windows[k].left; }
      if k < j { assert windows[k].right < windows[j].left; }
    }
  }

  lemma {:induction false} SymbolAligned(symbol: string, requests: seq<Request>, windows: seq<Interval>)
    requires AlignedRequests(requests)
    requires forall k :: 0 <= k < |windows| ==> Aligned(windows[k].left) && Aligned(windows[k].right)
    ensures forall x :: x in SymbolSegments(symbol, requests, windows) ==> Aligned(x.start) && Aligned(x.end)
  {
    if windows != [] {
      SymbolAligned(symbol, requests, windows[1..]);
      StretchesAligned(symbol, requests, SortedSet(BoundarySet(requests, windows[0])));
    }
  }

  lemma {:induction false} PlanAligned(accepted: seq<Request>, requirements: seq<Requirement>)
    requires AlignedRequests(accepted)
    requires forall q :: q in requirements ==> Merged(RequestsOf(accepted, q.symbol), q.windows)
    ensures forall x :: x in AllSegments(accepted, requirements) ==> Aligned(x.start) && Aligned(x.end)
  {
    if requirements != [] {
      var q := requirements[0];
      var requests := RequestsOf(accepted, q.symbol);
      assert q in requirements;
      forall k | 0 <= k < |q.windows| ensures Aligned(q.windows[k].left) && Aligned(q.windows[k].right) {
        WindowAligned(requests, q.windows, k);
      }
      SymbolAligned(q.symbol, requests, q.windows);
      PlanAligned(accepted, requirements[1..]);
    }
  }

  lemma {:induction false} WholeMinutes(x: Segment)
    requires Aligned(x.start) && Aligned(x.end) && x.start < x.end <= x.start + LIMIT
    ensures 1 <= TaskOf(Candle, x).limit <= 1500
    ensures TaskOf(Candle, x).last + 1 - TaskOf(Candle, x).start == TaskOf(Candle, x).limit * MINUTE
  {
  }

  lemma {:induction false} SegmentShape(accepted: seq<Request>, requirements: seq<Requirement>, x: Segment)
    requires Planned(accepted, requirements) && x in AllSegments(accepted, requirements)
    requires AlignedRequests(accepted)
    ensures x.start < x.end <= x.start + LIMIT && Aligned(x.start) && Aligned(x.end)
  {
    TaggedIffContained(accepted, requirements);
    assert SegmentFits(accepted, x);
    PlanAligned(accepted, requirements);
  }

  /** With minute-aligned requests every candle query asks for exactly its minutes, between 1 and 1500 of them. */
  lemma {:induction false} CandleLimitIsExact(accepted: seq<Request>, requirements: seq<Requirement>, x: Segment)
    requires Planned(accepted, requirements) && AlignedRequests(accepted) && x in AllSegments(accepted, requirements)
    ensures 1 <= TaskOf(Candle, x).limit <= 1500
    ensures TaskOf(Candle, x).last + 1 - TaskOf(Candle, x).start == TaskOf(Candle, x).limit * MINUTE
  {
    SegmentShape(accepted, requirements, x);
    WholeMinutes(x);
  }
}
