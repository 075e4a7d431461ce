/** From merged windows to queries, and back from a request to the queries that cover it. */
module Selection {
  import opened Basics
  import opened Sorting
  import opened Intervals
  import opened Segments

  // ----- Merged windows ---------------------------------------------------------------------------------

  /** A merged window with the hashes of the requests it has taken in. */
  datatype MergedWindow = MergedWindow(span: Interval, hashes: set<string>)

  function WindowSpans(windows: seq<MergedWindow>): (s: seq<Interval>)
    ensures |s| == |windows| && forall i :: 0 <= i < |s| ==> s[i] == windows[i].span
  {
    seq(|windows|, i requires 0 <= i < |windows| => windows[i].span)
  }

  function SpanOfRequest(r: Request): Interval { Interval(r.start, r.end) }

  /** Python's order on `(start, end, hash)`. */
  predicate RequestLeq(a: Request, b: Request) {
    if a.start == b.start && a.end == b.end then TextLeq(a.hash, b.hash)
    else PairLeq(SpanOfRequest(a), SpanOfRequest(b))
  }

  lemma {:induction false} RequestOrder()
    ensures TotalPreorder(RequestLeq)
  {
    forall a: Request, b: Request ensures RequestLeq(a, b) || RequestLeq(b, a) {
      TextLeqTotal(a.hash, b.hash);
    }
    forall a: Request, b: Request, c: Request | RequestLeq(a, b) && RequestLeq(b, c) ensures RequestLeq(a, c) {
      if a.start == b.start == c.start && a.end == b.end == c.end { TextLeqTransitive(a.hash, b.hash, c.hash); }
    }
  }

  predicate Holds(w: Interval, r: Request) { w.left <= r.start && r.end <= w.right }

  predicate TakenIn(windows: seq<MergedWindow>, r: Request) {
    exists j :: 0 <= j < |windows| && Holds(windows[j].span, r) && r.hash in windows[j].hashes
  }

  predicate Owed(done: seq<Request>, w: MergedWindow, h: string) {
    exists r :: r in done && r.hash == h && Holds(w.span, r)
  }

  /** Every request done is taken in by a window, and every hash of a window is owed to one that it holds. */
  ghost predicate Collected(windows: seq<MergedWindow>, done: seq<Request>) {
    && (forall r :: r in done ==> TakenIn(windows, r))
    && (forall j, h :: 0 <= j < |windows| && h in windows[j].hashes ==> Owed(done, windows[j], h))
  }

  /** `next` has every window of `windows`, perhaps wider and with more hashes. */
  ghost predicate Grows(windows: seq<MergedWindow>, next: seq<MergedWindow>) {
    && |windows| <= |next|
    && forall j :: 0 <= j < |windows| ==>
         && next[j].span.left <= windows[j].span.left && windows[j].span.right <= next[j].span.right
         && windows[j].hashes <= next[j].hashes
  }

  lemma {:induction false} StillTaken(windows: seq<MergedWindow>, next: seq<MergedWindow>, r: Request)
    requires TakenIn(windows, r) && Grows(windows, next)
    ensures TakenIn(next, r)
  {
    var j :| 0 <= j < |windows| && Holds(windows[j].span, r) && r.hash in windows[j].hashes;
    assert Holds(next[j].span, r);
  }

  lemma {:induction false} StillOwed(done: seq<Request>, r: Request, w: MergedWindow, wider: MergedWindow, h: string)
    requires Owed(done, w, h) && wider.span.left <= w.span.left && w.span.right <= wider.span.right
    ensures Owed(done + [r], wider, h)
  {
    var x :| x in done && x.hash == h && Holds(w.span, x);
    assert x in done + [r];
  }

  lemma {:induction false} NewlyOwed(done: seq<Request>, r: Request, w: MergedWindow)
    requires Holds(w.span, r)
    ensures Owed(done + [r], w, r.hash)
  {
    assert r in done + [r];
  }

  /** Taking one more request into window `at`, which was there before or is new. */
  lemma {:induction false} CollectOne(windows: seq<MergedWindow>, done: seq<Request>, r: Request,
                                      next: seq<MergedWindow>, at: nat)
    requires Collected(windows, done) && Grows(windows, next) && at < |next| <= |windows| + 1
    requires Holds(next[at].span, r) && r.hash in next[at].hashes
    requires forall j, h :: 0 <= j < |next| && h in next[j].hashes ==>
               (j < |windows| && h in windows[j].hashes) || (j == at && h == r.hash)
    ensures Collected(next, done + [r])
  {
    forall x | x in done + [r] ensures TakenIn(next, x) {
      if x in done { StillTaken(windows, next, x); }
    }
    forall j, h | 0 <= j < |next| && h in next[j].hashes ensures Owed(done + [r], next[j], h) {
      if j < |windows| && h in windows[j].hashes {
        assert Owed(done, windows[j], h);
        StillOwed(done, r, windows[j], next[j], h);
      } else {
        NewlyOwed(done, r, next[at]);
      }
    }
  }

  /** Each window carries exactly the hashes of the requests it holds. */
  ghost predicate HashesOfHeld(requests: seq<Request>, windows: seq<MergedWindow>) {
    forall j, h :: 0 <= j < |windows| ==> (h in windows[j].hashes <==> Owed(requests, windows[j], h))
  }

  lemma {:induction false} OneHolder(windows: seq<MergedWindow>, i: nat, j: nat, r: Request)
    requires Separated(WindowSpans(windows)) && i < |windows| && j < |windows| && r.start < r.end
    requires Holds(windows[i].span, r) && Holds(windows[j].span, r)
    ensures i == j
  {
  }

  lemma {:induction false} OwedIsCarried(ordered: seq<Request>, windows: seq<MergedWindow>, j: nat, h: string)
    requires Collected(windows, ordered) && Separated(WindowSpans(windows)) && j < |windows|
    requires Owed(ordered, windows[j], h) && forall r :: r in ordered ==> r.start < r.end
    ensures h in windows[j].hashes
  {
    var r :| r in ordered && r.hash == h && Holds(windows[j].span, r);
    assert TakenIn(windows, r);
    var i :| 0 <= i < |windows| && Holds(windows[i].span, r) && r.hash in windows[i].hashes;
    OneHolder(windows, i, j, r);
  }

  lemma {:induction false} CollectedExactly(requests: seq<Request>, ordered: seq<Request>, windows: seq<MergedWindow>)
    requires Collected(windows, ordered) && Separated(WindowSpans(windows))
    requires forall r :: r in requests <==> r in ordered
    requires forall r :: r in ordered ==> r.start < r.end
    ensures HashesOfHeld(requests, windows)
  {
    forall j, h | 0 <= j < |windows| ensures h in windows[j].hashes <==> Owed(requests, windows[j], h) {
      assert Owed(requests, windows[j], h) <==> Owed(ordered, windows[j], h);
      if Owed(ordered, windows[j], h) { OwedIsCarried(ordered, windows, j, h); }
    }
  }

  /** What the loop keeps after `k` requests. */
  ghost predicate MergedSoFar(windows: seq<MergedWindow>, ordered: seq<Request>, k: nat) {
    && k <= |ordered|
    && Separated(WindowSpans(windows))
    && SamePoints(WindowSpans(windows), Spans(ordered)[..k])
    && (windows != [] && k < |ordered| ==> windows[|windows| - 1].span.left <= ordered[k].start)
    && Collected(windows, ordered[..k])
  }

  lemma {:induction false} MergeOne(windows: seq<MergedWindow>, ordered: seq<Request>, k: nat, next: seq<MergedWindow>)
    requires MergedSoFar(windows, ordered, k) && k < |ordered| && ordered[k].start < ordered[k].end
    requires k + 1 < |ordered| ==> ordered[k].start <= ordered[k + 1].start
    requires WindowSpans(next) == Joined(WindowSpans(windows), SpanOfRequest(ordered[k]))
    requires Collected(next, ordered[..k] + [ordered[k]])
    ensures MergedSoFar(next, ordered, k + 1)
  {
    assert ordered[..k + 1] == ordered[..k] + [ordered[k]];
    JoinedAdds(WindowSpans(windows), SpanOfRequest(ordered[k]));
    UnionStep(WindowSpans(windows), Spans(ordered), k);
  }

  /** One more request, into the last window if it starts no later than that ends. */
  function TakeIn(windows: seq<MergedWindow>, r: Request): seq<MergedWindow> {
    if windows != [] && r.start <= windows[|windows| - 1].span.right then
      var prior := windows[|windows| - 1];
      windows[|windows| - 1 := MergedWindow(Interval(prior.span.left, Max(prior.span.right, r.end)),
        prior.hashes + {r.hash})]
    else windows + [MergedWindow(SpanOfRequest(r), {r.hash})]
  }

  lemma {:induction false} TakeInJoins(windows: seq<MergedWindow>, r: Request)
    requires r.start < r.end
    ensures WindowSpans(TakeIn(windows, r)) == Joined(WindowSpans(windows), SpanOfRequest(r))
  {
  }

  lemma {:induction false} TakeInCollects(windows: seq<MergedWindow>, done: seq<Request>, r: Request)
    requires Collected(windows, done) && r.start < r.end
    requires windows != [] ==> windows[|windows| - 1].span.left <= r.start
    ensures Collected(TakeIn(windows, r), done + [r])
  {
    hide Collected;
    var next := TakeIn(windows, r);
    CollectOne(windows, done, r, next, |next| - 1);
  }

  lemma {:induction false} TakeInKeeps(windows: seq<MergedWindow>, ordered: seq<Request>, k: nat)
    requires MergedSoFar(windows, ordered, k) && k < |ordered| && ordered[k].start < ordered[k].end
    requires k + 1 < |ordered| ==> ordered[k].start <= ordered[k + 1].start
    ensures MergedSoFar(TakeIn(windows, ordered[k]), ordered, k + 1)
  {
    hide Collected, Joined, TakeIn, Separated, SamePoints;
    TakeInJoins(windows, ordered[k]);
    TakeInCollects(windows, ordered[..k], ordered[k]);
    MergeOne(windows, ordered, k, TakeIn(windows, ordered[k]));
  }

  /** `_merged_windows`. */
  method MergedWindows(requests: seq<Request>) returns (windows: seq<MergedWindow>)
    requires forall r :: r in requests ==> r.start < r.end
    ensures Merged(requests, WindowSpans(windows)) && HashesOfHeld(requests, windows)
  {
    hide MergedSoFar;
    var ordered := Sort(requests, RequestLeq);
    RequestOrder();
    SortSorts(requests, RequestLeq);
    windows := [];
    NothingMerged(ordered);
    for k := 0 to |ordered|
      invariant MergedSoFar(windows, ordered, k)
    {
      var request := ordered[k];
      assert request in requests;
      assert k + 1 < |ordered| ==> RequestLeq(request, ordered[k + 1]);
      TakeInKeeps(windows, ordered, k);
      if windows != [] && request.start <= windows[|windows| - 1].span.right {
        var prior := windows[|windows| - 1];
        var span := Interval(prior.span.left, Max(prior.span.right, request.end));
        windows := windows[|windows| - 1 := MergedWindow(span, prior.hashes + {request.hash})];
      } else {
        windows := windows + [MergedWindow(Interval(request.start, request.end), {request.hash})];
      }
    }
    AllMerged(requests, ordered, windows);
  }

  lemma {:induction false} NothingMerged(ordered: seq<Request>)
    ensures MergedSoFar([], ordered, 0)
  {
  }

  lemma {:induction false} AllMerged(requests: seq<Request>, ordered: seq<Request>, windows: seq<MergedWindow>)
    requires MergedSoFar(windows, ordered, |ordered|) && forall r :: r in requests <==> r in ordered
    requires forall r :: r in requests ==> r.start < r.end
    ensures Merged(requests, WindowSpans(windows)) && HashesOfHeld(requests, windows)
  {
    assert ordered[..|ordered|] == ordered && Spans(ordered)[..|ordered|] == Spans(ordered);
    MergedSorted(requests, ordered, WindowSpans(windows));
    CollectedExactly(requests, ordered, windows);
  }

  lemma {:induction false} MergedSorted(requests: seq<Request>, ordered: seq<Request>, spans: seq<Interval>)
    requires (forall r :: r in requests <==> r in ordered) && Separated(spans) && SamePoints(spans, Spans(ordered))
    ensures Merged(requests, spans)
  {
    forall p ensures Covers(spans, p) <==> Covers(Spans(requests), p) {
      SpanOf(requests, p);
      SpanOf(ordered, p);
      assert Covers(spans, p) <==> Covers(Spans(ordered), p);
    }
  }

  /** The windows are disjoint, not even adjacent, and cover what the requests cover. */
  ghost predicate Merged(requests: seq<Request>, windows: seq<Interval>) {
    Separated(windows) && SamePoints(windows, Spans(requests))
  }

  /** A merged window has no gap, so cutting it never fails. */
  lemma {:induction false} MergedIsGapFree(requests: seq<Request>, windows: seq<Interval>, k: nat)
    requires Merged(requests, windows) && k < |windows|
    ensures GapFree(requests, windows[k])
  {
  }

  /** A non-empty request lies inside a single merged window. */
  lemma {:induction false} RequestInWindow(requests: seq<Request>, windows: seq<Interval>, r: Request) returns (k: nat)
    requires Merged(requests, windows) && r in requests && r.start < r.end
    ensures k < |windows| && windows[k].left <= r.start && r.end <= windows[k].right
  {
    SpanOf(requests, r.start);
    assert Covers(windows, r.start);
    k :| 0 <= k < |windows| && Inside(windows[k], r.start);
    var p := windows[k].right;
    SpanOf(requests, p);
    assert p < r.end ==> Covers(windows, p);
    EndUncovered(windows, k);
  }

  lemma {:induction false} EndUncovered(windows: seq<Interval>, k: nat)
    requires Separated(windows) && k < |windows|
    ensures !Covers(windows, windows[k].right)
  {
  }

  // ----- The plan ---------------------------------------------------------------------------------------

  /** Requirements built from the accepted requests: one per symbol, with that symbol's merged windows. */
  ghost predicate Planned(accepted: seq<Request>, requirements: seq<Requirement>) {
    && (forall r :: r in accepted ==> r.start < r.end)
    && (forall r, q :: r in accepted && q in accepted && r.hash == q.hash ==> r == q)
    && (forall i, j :: 0 <= i < j < |requirements| ==> requirements[i].symbol != requirements[j].symbol)
    && (forall q :: q in requirements ==> Merged(RequestsOf(accepted, q.symbol), q.windows))
    && (forall r :: r in accepted ==> exists q :: q in requirements && q.symbol == r.symbol)
  }

  /** What holds of every segment of a plan. */
  ghost predicate SegmentFits(accepted: seq<Request>, x: Segment) {
    && x.start < x.end <= x.start + LIMIT
    && x.hashes != []
    && (forall r :: r in accepted && r.symbol == x.symbol ==> (r.hash in x.hashes <==> Contains(r, x.start, x.end)))
    && (forall r :: r in accepted && r.symbol == x.symbol && Overlaps(r, x.start, x.end) ==>
      Contains(r, x.start, x.end))
  }

  lemma {:induction false} WindowFits(accepted: seq<Request>, symbol: string, windows: seq<Interval>, k: nat)
    requires forall r, q :: r in accepted && q in accepted && r.hash == q.hash ==> r == q
    requires Merged(RequestsOf(accepted, symbol), windows) && k < |windows|
    ensures forall x :: x in WindowSegments(symbol, RequestsOf(accepted, symbol), windows[k]) ==>
      x.symbol == symbol && SegmentFits(accepted, x)
  {
    var requests, w := RequestsOf(accepted, symbol), windows[k];
    var segments := WindowSegments(symbol, requests, w);
    WindowIsCut(symbol, requests, w);
    MergedIsGapFree(requests, windows, k);
    TaggedIffGapFree(symbol, requests, w);
    TilesBounds(segments, w.left, w.right);
    forall x | x in segments ensures SegmentFits(accepted, x) {
      HashesExact(requests, x.start, x.end);
      forall r | r in accepted && r.symbol == symbol ensures r.hash in x.hashes <==> Contains(r, x.start, x.end) {
        assert r in requests;
        if r.hash in x.hashes {
          var q :| q in requests && Overlaps(q, x.start, x.end) && q.hash == r.hash;
          assert q == r;
        }
      }
    }
  }

  lemma {:induction false} SymbolFits(accepted: seq<Request>, symbol: string, windows: seq<Interval>, k: nat)
    requires forall r, q :: r in accepted && q in accepted && r.hash == q.hash ==> r == q
    requires Merged(RequestsOf(accepted, symbol), windows) && k <= |windows|
    ensures forall x :: x in SymbolSegments(symbol, RequestsOf(accepted, symbol), windows[k..]) ==>
      x.symbol == symbol && SegmentFits(accepted, x)
    decreases |windows| - k
  {
    if k < |windows| {
      assert windows[k..][1..] == windows[k + 1..];
      WindowFits(accepted, symbol, windows, k);
      SymbolFits(accepted, symbol, windows, k + 1);
    }
  }

  /** Every segment of the plan is tagged with exactly the requests that contain it, so the plan is never refused. */
  lemma {:induction false} TaggedIffContained(accepted: seq<Request>, requirements: seq<Requirement>)
    requires Planned(accepted, requirements)
    ensures forall x :: x in AllSegments(accepted, requirements) ==> SegmentFits(accepted, x)
    ensures Checked(AllSegments(accepted, requirements)).Ok?
  {
    AllFit(accepted, requirements, 0);
    assert requirements[0..] == requirements;
  }

  lemma {:induction false} AllFit(accepted: seq<Request>, requirements: seq<Requirement>, k: nat)
    requires Planned(accepted, requirements) && k <= |requirements|
    ensures forall x :: x in AllSegments(accepted, requirements[k..]) ==> SegmentFits(accepted, x)
    decreases |requirements| - k
  {
    if k < |requirements| {
      assert requirements[k..][1..] == requirements[k + 1..];
      var q := requirements[k];
      assert q in requirements && q.windows[0..] == q.windows;
      SymbolFits(accepted, q.symbol, q.windows, 0);
      AllFit(accepted, requirements, k + 1);
    }
  }

  // ----- Choosing segments by containment ------------------------------------------------------------------

  predicate Wants(r: Request, x: Segment) {
    x.symbol == r.symbol && r.hash in x.hashes && r.start <= x.start && x.end <= r.end
  }

  function Chosen(s: seq<Segment>, r: Request): seq<Segment> {
    if s == [] then [] else if Wants(r, s[0]) then [s[0]] + Chosen(s[1..], r) else Chosen(s[1..], r)
  }

  lemma {:induction false} ChosenJoin(a: seq<Segment>, b: seq<Segment>, r: Request)
    ensures Chosen(a + b, r) == Chosen(a, r) + Chosen(b, r)
  {
    if a == [] {
      assert a + b == b;
    } else {
      assert (a + b)[1..] == a[1..] + b;
      ChosenJoin(a[1..], b, r);
      assert [a[0]] + (Chosen(a[1..], r) + Chosen(b, r)) == [a[0]] + Chosen(a[1..], r) + Chosen(b, r);
    }
  }

  lemma {:induction false} ChosenNone(s: seq<Segment>, r: Request)
    requires forall x :: x in s ==> !Wants(r, x)
    ensures Chosen(s, r) == []
  {
    if s != [] { ChosenNone(s[1..], r); }
  }

  /** The chosen part of a tiling of `[left, right)` tiles what the request covers of it. */
  predicate Part(chosen: seq<Segment>, left: int, right: int, r: Request) {
    if Max(left, r.start) < Min(right, r.end)
    then Tiles(chosen, Max(left, r.start), Min(right, r.end))
    else chosen == []
  }

  lemma {:induction false} PartCons(x: Segment, rest: seq<Segment>, right: int, r: Request)
    requires Part(rest, x.end, right, r) && Contains(r, x.start, x.end) && x.start < x.end <= right
    ensures Part([x] + rest, x.start, right, r)
  {
  }

  lemma {:induction false} ChosenTiles(s: seq<Segment>, left: int, right: int, r: Request)
    requires Tiles(s, left, right)
    requires forall x :: x in s ==> Wants(r, x) == Contains(r, x.start, x.end) == Overlaps(r, x.start, x.end)
    ensures Part(Chosen(s, r), left, right, r)
  {
    TilesBounds(s, left, right);
    if s != [] {
      var x, rest := s[0], s[1..];
      assert x in s && forall y :: y in rest ==> y in s;
      ChosenTiles(rest, x.end, right, r);
      if Wants(r, x) { PartCons(x, Chosen(rest, r), right, r); }
    }
  }

  lemma {:induction false} WindowChosen(
      accepted: seq<Request>, symbol: string, windows: seq<Interval>, k: nat, r: Request)
    requires forall p, q :: p in accepted && q in accepted && p.hash == q.hash ==> p == q
    requires Merged(RequestsOf(accepted, symbol), windows) && k < |windows|
    requires r in accepted && r.symbol == symbol
    ensures Part(Chosen(WindowSegments(symbol, RequestsOf(accepted, symbol), windows[k]), r), windows[k].left,
      windows[k].right, r)
  {
    var requests, w := RequestsOf(accepted, symbol), windows[k];
    var s := WindowSegments(symbol, requests, w);
    WindowFits(accepted, symbol, windows, k);
    WindowIsCut(symbol, requests, w);
    forall x | x in s ensures Wants(r, x) == Contains(r, x.start, x.end) == Overlaps(r, x.start, x.end) {
      assert SegmentFits(accepted, x);
    }
    ChosenTiles(s, w.left, w.right, r);
  }

  /** The whole request is tiled, or nothing is chosen. */
  predicate Hit(chosen: seq<Segment>, r: Request, hit: bool) {
    if hit then Tiles(chosen, r.start, r.end) else chosen == []
  }

  lemma {:induction false} HitJoin(a: seq<Segment>, b: seq<Segment>, r: Request, x: bool, y: bool)
    requires Hit(a, r, x) && Hit(b, r, y) && !(x && y)
    ensures Hit(a + b, r, x || y)
  {
    assert a == [] ==> a + b == b;
    assert b == [] ==> a + b == a;
  }

  lemma {:induction false} PartHits(chosen: seq<Segment>, left: int, right: int, r: Request, home: bool)
    requires Part(chosen, left, right, r) && r.start < r.end
    requires if home then left <= r.start && r.end <= right else right <= r.start || r.end <= left
    ensures Hit(chosen, r, home)
  {
  }

  lemma {:induction false} Elsewhere(windows: seq<Interval>, home: nat, k: nat, r: Request)
    requires Separated(windows) && home < |windows| && k < |windows|
    requires windows[home].left <= r.start < r.end <= windows[home].right
    ensures k != home ==> windows[k].right <= r.start || r.end <= windows[k].left
  {
  }

  predicate WindowHit(symbol: string, requests: seq<Request>, w: Interval, r: Request, hit: bool) {
    Hit(Chosen(WindowSegments(symbol, requests, w), r), r, hit)
  }

  lemma {:induction false} WindowJoin(
      symbol: string, requests: seq<Request>, windows: seq<Interval>, r: Request, x: bool, y: bool)
    requires windows != [] && WindowHit(symbol, requests, windows[0], r, x) && !(x && y)
    requires Hit(Chosen(SymbolSegments(symbol, requests, windows[1..]), r), r, y)
    ensures Hit(Chosen(SymbolSegments(symbol, requests, windows), r), r, x || y)
  {
    var now, rest := WindowSegments(symbol, requests, windows[0]), SymbolSegments(symbol, requests, windows[1..]);
    ChosenJoin(now, rest, r);
    HitJoin(Chosen(now, r), Chosen(rest, r), r, x, y);
  }

  lemma {:induction false} WindowsChosen(
      symbol: string, requests: seq<Request>, windows: seq<Interval>, r: Request, home: int)
    requires forall k :: 0 <= k < |windows| ==> WindowHit(symbol, requests, windows[k], r, k == home)
    requires home < |windows|
    ensures Hit(Chosen(SymbolSegments(symbol, requests, windows), r), r, home >= 0)
  {
    if windows != [] {
      var rest := windows[1..];
      forall k | 0 <= k < |rest| ensures WindowHit(symbol, requests, rest[k], r, k == home - 1) {
        assert WindowHit(symbol, requests, windows[k + 1], r, k + 1 == home);
      }
      WindowsChosen(symbol, requests, rest, r, if home == 0 then -1 else home - 1);
      WindowJoin(symbol, requests, windows, r, home == 0, home > 0);
    }
  }

  lemma {:induction false} SymbolChosen(accepted: seq<Request>, q: Requirement, r: Request)
    requires forall p, q :: p in accepted && q in accepted && p.hash == q.hash ==> p == q
    requires Merged(RequestsOf(accepted, q.symbol), q.windows) && r in accepted && r.start < r.end
    ensures Hit(Chosen(SymbolSegments(q.symbol, RequestsOf(accepted, q.symbol), q.windows), r), r, q.symbol == r.symbol)
  {
    var requests := RequestsOf(accepted, q.symbol);
    assert q.windows[0..] == q.windows;
    if q.symbol == r.symbol {
      var home := RequestInWindow(requests, q.windows, r);
      forall k | 0 <= k < |q.windows| ensures WindowHit(q.symbol, requests, q.windows[k], r, k == home) {
        WindowChosen(accepted, q.symbol, q.windows, k, r);
        Elsewhere(q.windows, home, k, r);
        PartHits(Chosen(WindowSegments(q.symbol, requests, q.windows[k]), r), q.windows[k].left, q.windows[k].right, r,
          k == home);
      }
      WindowsChosen(q.symbol, requests, q.windows, r, home);
    } else {
      SymbolFits(accepted, q.symbol, q.windows, 0);
      ChosenNone(SymbolSegments(q.symbol, requests, q.windows), r);
    }
  }

  /** Every requirement contributes what its symbol's windows contribute. */
  ghost predicate Contributions(accepted: seq<Request>, requirements: seq<Requirement>, r: Request) {
    forall q :: q in requirements ==>
      Hit(Chosen(SymbolSegments(q.symbol, RequestsOf(accepted, q.symbol), q.windows), r), r, q.symbol == r.symbol)
  }

  lemma {:induction false} RequirementsChosen(
      accepted: seq<Request>, requirements: seq<Requirement>, r: Request, home: nat, k: nat)
    requires Contributions(accepted, requirements, r) && k <= |requirements|
    requires home < |requirements|
    requires forall j :: 0 <= j < |requirements| ==> (requirements[j].symbol == r.symbol <==> j == home)
    ensures Hit(Chosen(AllSegments(accepted, requirements[k..]), r), r, k <= home)
    decreases |requirements| - k
  {
    if k < |requirements| {
      var q := requirements[k];
      assert q in requirements && requirements[k..][1..] == requirements[k + 1..];
      var now := SymbolSegments(q.symbol, RequestsOf(accepted, q.symbol), q.windows);
      var rest := AllSegments(accepted, requirements[k + 1..]);
      RequirementsChosen(accepted, requirements, r, home, k + 1);
      ChosenJoin(now, rest, r);
      HitJoin(Chosen(now, r), Chosen(rest, r), r, k == home, k + 1 <= home);
    }
  }

  /** The segments of a plan that a request contains and that carry its hash tile the request. */
  lemma {:induction false} ChosenTileRequest(accepted: seq<Request>, requirements: seq<Requirement>, r: Request)
    requires Planned(accepted, requirements) && r in accepted
    ensures Tiles(Chosen(AllSegments(accepted, requirements), r), r.start, r.end)
  {
    var q :| q in requirements && q.symbol == r.symbol;
    var home :| 0 <= home < |requirements| && requirements[home] == q;
    forall q | q in requirements
      ensures Hit(Chosen(SymbolSegments(q.symbol, RequestsOf(accepted, q.symbol), q.windows), r), r,
        q.symbol == r.symbol) {
      SymbolChosen(accepted, q, r);
    }
    RequirementsChosen(accepted, requirements, r, home, 0);
    assert requirements[0..] == requirements;
  }
}
