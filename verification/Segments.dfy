/** How merged windows are cut into bounded public queries, and how a request finds its own queries again. */
module Segments {
  import opened Basics
  import opened Sorting
  import opened Intervals

  const LIMIT := 1500 * MINUTE

  /** An accepted replay request: the half-open window `[start, end)` in milliseconds and its content hash. */
  datatype Request = Request(symbol: string, start: int, end: int, hash: string)

  datatype Requirement = Requirement(symbol: string, windows: seq<Interval>)

  datatype Segment = Segment(symbol: string, start: int, end: int, hashes: seq<string>)

  datatype Role = Candle | Funding | GuardBefore | GuardAfter

  /** A query over the closed range `[start, last]`. */
  datatype Task = Task(role: Role, symbol: string, start: int, last: int, limit: int, hashes: seq<string>)

  datatype SegmentError = SegmentWithoutRequest

  predicate Overlaps(r: Request, left: int, right: int) { r.start < right && r.end > left }

  predicate Contains(r: Request, left: int, right: int) { r.start <= left && right <= r.end }

  function RequestsOf(accepted: seq<Request>, symbol: string): (r: seq<Request>)
    ensures forall x :: x in r <==> x in accepted && x.symbol == symbol
  {
    if accepted == [] then []
    else
      var last := accepted[|accepted| - 1];
      RequestsOf(accepted[..|accepted| - 1], symbol) + (if last.symbol == symbol then [last] else [])
  }

  /** The hashes of the requests that overlap `[left, right)`. */
  function Tags(requests: seq<Request>, left: int, right: int): (h: seq<string>)
    ensures forall r :: r in requests && Overlaps(r, left, right) ==> r.hash in h
    ensures forall x :: x in h ==> exists r :: r in requests && Overlaps(r, left, right) && r.hash == x
  {
    if requests == [] then []
    else (if Overlaps(requests[0], left, right) then [requests[0].hash] else []) + Tags(requests[1..], left, right)
  }

  function Hashes(requests: seq<Request>, left: int, right: int): seq<string> {
    Sort(Tags(requests, left, right), TextLeq)
  }

  lemma {:induction false} HashesExact(requests: seq<Request>, left: int, right: int)
    ensures forall r :: r in requests && Overlaps(r, left, right) ==> r.hash in Hashes(requests, left, right)
    ensures forall x :: x in Hashes(requests, left, right) ==>
      exists r :: r in requests && Overlaps(r, left, right) && r.hash == x
    ensures Hashes(requests, left, right) == [] <==> forall r :: r in requests ==> !Overlaps(r, left, right)
  {
    SortSorts(Tags(requests, left, right), TextLeq);
    var h := Hashes(requests, left, right);
    if h != [] { assert h[0] in h; }
  }

  // ----- Boundaries --------------------------------------------------------------------------------------

  function BoundarySet(requests: seq<Request>, w: Interval): set<int> {
    {w.left, w.right}
    + (set r | r in requests && Overlaps(r, w.left, w.right) :: Max(r.start, w.left))
    + (set r | r in requests && Overlaps(r, w.left, w.right) :: Min(r.end, w.right))
  }

  predicate StrictlyAscending(s: seq<int>) { forall i, j :: 0 <= i < j < |s| ==> s[i] < s[j] }

  lemma {:induction false} Member<T>(s: set<T>) returns (x: T)
    requires s != {}
    ensures x in s
  {
    x :| x in s;
  }

  lemma {:induction false} LeastExists(s: set<int>) returns (m: int)
    requires s != {}
    ensures m in s && forall x :: x in s ==> m <= x
    decreases |s|
  {
    var x := Member(s);
    m := x;
    var rest := s - {x};
    assert s == rest + {x};
    if rest != {} {
      var other := LeastExists(rest);
      if other < x { m := other; }
    }
  }

  function Least(s: set<int>): (m: int)
    requires s != {}
    ensures m in s && forall x :: x in s ==> m <= x
  {
    assert exists m :: m in s && forall x :: x in s ==> m <= x by { var least := LeastExists(s); }
    var m :| m in s && forall x :: x in s ==> m <= x;
    m
  }

  /** Python's `sorted` of a set. */
  function SortedSet(s: set<int>): (r: seq<int>)
    ensures StrictlyAscending(r) && forall x :: x in r <==> x in s
    decreases |s|
  {
    if s == {} then []
    else
      var m := Least(s);
      [m] + SortedSet(s - {m})
  }

  // ----- Cutting ----------------------------------------------------------------------------------------

  /** One stretch between two neighbouring boundaries, cut every 1500 minutes from its left end. */
  function Stretch(symbol: string, requests: seq<Request>, left: int, right: int): seq<Segment>
    decreases right - left
  {
    if left >= right then []
    else
      var end := Min(left + LIMIT, right);
      [Segment(symbol, left, end, Hashes(requests, left, end))] + Stretch(symbol, requests, end, right)
  }

  function Stretches(symbol: string, requests: seq<Request>, ordered: seq<int>): seq<Segment> {
    if |ordered| < 2 then []
    else Stretch(symbol, requests, ordered[0], ordered[1]) + Stretches(symbol, requests, ordered[1..])
  }

  function WindowSegments(symbol: string, requests: seq<Request>, w: Interval): seq<Segment> {
    Stretches(symbol, requests, SortedSet(BoundarySet(requests, w)))
  }

  function SymbolSegments(symbol: string, requests: seq<Request>, windows: seq<Interval>): seq<Segment> {
    if windows == [] then []
    else WindowSegments(symbol, requests, windows[0]) + SymbolSegments(symbol, requests, windows[1..])
  }

  function AllSegments(accepted: seq<Request>, requirements: seq<Requirement>): seq<Segment> {
    if requirements == [] then []
    else
      SymbolSegments(requirements[0].symbol, RequestsOf(accepted, requirements[0].symbol), requirements[0].windows)
      + AllSegments(accepted, requirements[1..])
  }

  /** The segments abut, from `left` to `right`, and none is empty. */
  predicate Tiles(s: seq<Segment>, left: int, right: int) {
    if s == [] then left == right
    else s[0].start == left && left < s[0].end && Tiles(s[1..], s[0].end, right)
  }

  lemma {:induction false} TilesJoin(a: seq<Segment>, b: seq<Segment>, left: int, mid: int, right: int)
    requires Tiles(a, left, mid) && Tiles(b, mid, right)
    ensures Tiles(a + b, left, right)
  {
    if a == [] {
      assert a + b == b;
    } else {
      TilesJoin(a[1..], b, a[0].end, mid, right);
      assert (a + b)[1..] == a[1..] + b;
    }
  }

  lemma {:induction false} TilesBounds(s: seq<Segment>, left: int, right: int)
    requires Tiles(s, left, right)
    ensures left <= right && forall x :: x in s ==> left <= x.start < x.end <= right
  {
    if s != [] { TilesBounds(s[1..], s[0].end, right); }
  }

  /** What every segment of a stretch between neighbouring boundaries is. */
  predicate Cut(x: Segment, symbol: string, requests: seq<Request>) {
    && x.symbol == symbol
    && x.end - x.start <= LIMIT
    && x.hashes == Hashes(requests, x.start, x.end)
  }

  lemma {:induction false} StretchTiles(symbol: string, requests: seq<Request>, left: int, right: int)
    requires left <= right
    ensures Tiles(Stretch(symbol, requests, left, right), left, right)
    ensures forall x :: x in Stretch(symbol, requests, left, right) ==> Cut(x, symbol, requests)
    decreases right - left
  {
    if left < right { StretchTiles(symbol, requests, Min(left + LIMIT, right), right); }
  }

  /** The stretches tile the whole span, and no boundary falls strictly inside a segment. */
  lemma {:induction false} StretchesTile(symbol: string, requests: seq<Request>, ordered: seq<int>)
    requires StrictlyAscending(ordered) && ordered != []
    ensures Tiles(Stretches(symbol, requests, ordered), ordered[0], ordered[|ordered| - 1])
    ensures forall x :: x in Stretches(symbol, requests, ordered) ==> Cut(x, symbol, requests)
    ensures forall x, b :: x in Stretches(symbol, requests, ordered) && b in ordered ==> b <= x.start || x.end <= b
  {
    if |ordered| >= 2 {
      var rest := ordered[1..];
      var first, others := Stretch(symbol, requests, ordered[0], ordered[1]), Stretches(symbol, requests, rest);
      StretchTiles(symbol, requests, ordered[0], ordered[1]);
      StretchesTile(symbol, requests, rest);
      TilesJoin(first, others, ordered[0], ordered[1], rest[|rest| - 1]);
      TilesBounds(first, ordered[0], ordered[1]);
      TilesBounds(others, ordered[1], rest[|rest| - 1]);
      forall x: Segment, b: int | x in first + others && b in ordered ensures b <= x.start || x.end <= b {
        assert b == ordered[0] || b in rest;
        assert x in first || x in others;
      }
    }
  }

  /** What the cutting of one window promises. */
  ghost predicate WindowCut(segments: seq<Segment>, symbol: string, requests: seq<Request>, w: Interval) {
    && Tiles(segments, w.left, w.right)
    && (forall x :: x in segments ==> Cut(x, symbol, requests))
    && (forall x, r :: x in segments && r in requests && Overlaps(r, x.start, x.end) ==> Contains(r, x.start, x.end))
  }

  lemma {:induction false} InBoundarySet(requests: seq<Request>, w: Interval, r: Request)
    requires r in requests && Overlaps(r, w.left, w.right)
    ensures Max(r.start, w.left) in BoundarySet(requests, w) && Min(r.end, w.right) in BoundarySet(requests, w)
  {
  }

  lemma {:induction false} BoundariesInside(requests: seq<Request>, w: Interval)
    requires w.left < w.right
    ensures w.left in BoundarySet(requests, w) && w.right in BoundarySet(requests, w)
    ensures forall b :: b in BoundarySet(requests, w) ==> w.left <= b <= w.right
  {
  }

  /** A window is tiled by segments of at most 1500 minutes, and a request that overlaps a segment contains it. */
  lemma {:induction false} WindowIsCut(symbol: string, requests: seq<Request>, w: Interval)
    requires w.left < w.right
    ensures WindowCut(WindowSegments(symbol, requests, w), symbol, requests, w)
  {
    var ordered := SortedSet(BoundarySet(requests, w));
    var segments := Stretches(symbol, requests, ordered);
    BoundariesInside(requests, w);
    Extremes(ordered, w.left, w.right);
    StretchesTile(symbol, requests, ordered);
    TilesBounds(segments, w.left, w.right);
    forall x, r | x in segments && r in requests && Overlaps(r, x.start, x.end) ensures Contains(r, x.start, x.end) {
      InBoundarySet(requests, w, r);
      NotCut(ordered, x, r, w);
    }
  }

  lemma {:induction false} NotCut(ordered: seq<int>, x: Segment, r: Request, w: Interval)
    requires w.left <= x.start < x.end <= w.right && Overlaps(r, x.start, x.end)
    requires forall b :: b in ordered ==> b <= x.start || x.end <= b
    requires Max(r.start, w.left) in ordered && Min(r.end, w.right) in ordered
    ensures Contains(r, x.start, x.end)
  {
  }

  lemma {:induction false} Extremes(s: seq<int>, low: int, high: int)
    requires StrictlyAscending(s) && low in s && high in s && forall x :: x in s ==> low <= x <= high
    ensures s[0] == low && s[|s| - 1] == high
  {
    assert s[0] in s && s[|s| - 1] in s;
  }

  function Spans(requests: seq<Request>): (s: seq<Interval>)
    ensures |s| == |requests| && forall i :: 0 <= i < |s| ==> s[i] == Interval(requests[i].start, requests[i].end)
  {
    if requests == [] then [] else [Interval(requests[0].start, requests[0].end)] + Spans(requests[1..])
  }

  /** Every point of the window lies in a request. */
  ghost predicate GapFree(requests: seq<Request>, w: Interval) {
    forall p :: w.left <= p < w.right ==> Covers(Spans(requests), p)
  }

  lemma {:induction false} SpanOf(requests: seq<Request>, p: int)
    ensures Covers(Spans(requests), p) <==> exists r :: r in requests && r.start <= p < r.end
  {
  }

  predicate Tagged(segments: seq<Segment>) { forall x :: x in segments ==> x.hashes != [] }

  lemma {:induction false} TilesPoint(s: seq<Segment>, left: int, right: int, p: int) returns (x: Segment)
    requires Tiles(s, left, right) && left <= p < right
    ensures x in s && x.start <= p < x.end
  {
    if p < s[0].end { x := s[0]; } else { x := TilesPoint(s[1..], s[0].end, right, p); }
  }

  /** The "no accepted request" error is raised exactly for windows with an uncovered point. */
  lemma {:induction false} TaggedIffGapFree(symbol: string, requests: seq<Request>, w: Interval)
    requires w.left < w.right
    ensures Tagged(WindowSegments(symbol, requests, w)) <==> GapFree(requests, w)
  {
    var segments := WindowSegments(symbol, requests, w);
    WindowIsCut(symbol, requests, w);
    TilesBounds(segments, w.left, w.right);
    if GapFree(requests, w) {
      forall x | x in segments ensures x.hashes != [] {
        SpanOf(requests, x.start);
        var r :| r in requests && r.start <= x.start < r.end;
        HashesExact(requests, x.start, x.end);
      }
    }
    if Tagged(segments) {
      forall p | w.left <= p < w.right ensures Covers(Spans(requests), p) {
        var x := TilesPoint(segments, w.left, w.right, p);
        HashesExact(requests, x.start, x.end);
        var r :| r in requests && Overlaps(r, x.start, x.end);
        assert Contains(r, x.start, x.end);
        SpanOf(requests, p);
      }
    }
  }

  /** All segments, unless one of them has no request. */
  function Checked(segments: seq<Segment>): Result<seq<Segment>, SegmentError> {
    if Tagged(segments) then Ok(segments) else Err(SegmentWithoutRequest)
  }
}
