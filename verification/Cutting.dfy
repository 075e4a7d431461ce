/** The loops of `_segments`, proved against the segments they should produce. */
module Cutting {
  import opened Basics
  import opened Intervals
  import opened Segments

  /** Appending one more piece: it either fails the whole or moves to the finished part. */
  lemma {:induction false} OnePiece(result: seq<Segment>, piece: seq<Segment>, rest: seq<Segment>)
    requires Tagged(result)
    ensures result + (piece + rest) == (result + piece) + rest
    ensures Tagged(piece) ==> Tagged(result + piece)
    ensures !Tagged(piece) ==> Checked(result + (piece + rest)) == Err(SegmentWithoutRequest)
  {
  }

  method CutStretch(symbol: string, requests: seq<Request>, left: int, right: int)
    returns (r: Result<seq<Segment>, SegmentError>)
    requires left <= right
    ensures r == Checked(Stretch(symbol, requests, left, right))
  {
    var result := [];
    var cursor := left;
    while cursor < right
      invariant left <= cursor <= right
      invariant result + Stretch(symbol, requests, cursor, right) == Stretch(symbol, requests, left, right)
      invariant Tagged(result)
    {
      var end := Min(cursor + LIMIT, right);
      var hashes := Hashes(requests, cursor, end);
      var piece := [Segment(symbol, cursor, end, hashes)];
      OnePiece(result, piece, Stretch(symbol, requests, end, right));
      if hashes == [] {
        assert piece[0] in piece;
        return Err(SegmentWithoutRequest);
      }
      result := result + piece;
      cursor := end;
    }
    assert result + [] == result;
    return Ok(result);
  }

  method Boundaries(requests: seq<Request>, w: Interval) returns (boundaries: set<int>)
    ensures boundaries == BoundarySet(requests, w)
  {
    boundaries := {w.left, w.right};
    for i := 0 to |requests|
      invariant boundaries == BoundarySet(requests[..i], w)
    {
      var request := requests[i];
      OneMoreRequest(requests, w, i);
      if request.start < w.right && request.end > w.left {
        boundaries := boundaries + {Max(request.start, w.left), Min(request.end, w.right)};
      }
    }
    assert requests[..|requests|] == requests;
  }

  method CutAt(
      symbol: string, requests: seq<Request>, ordered: seq<int>) returns (r: Result<seq<Segment>, SegmentError>)
    requires StrictlyAscending(ordered) && ordered != []
    ensures r == Checked(Stretches(symbol, requests, ordered))
  {
    var result := [];
    var k := 0;
    assert ordered[0..] == ordered;
    while k + 1 < |ordered|
      invariant k < |ordered|
      invariant result + Stretches(symbol, requests, ordered[k..]) == Stretches(symbol, requests, ordered)
      invariant Tagged(result)
    {
      assert ordered[k..][1..] == ordered[k + 1..];
      var piece := CutStretch(symbol, requests, ordered[k], ordered[k + 1]);
      OnePiece(result, Stretch(symbol, requests, ordered[k], ordered[k + 1]),
        Stretches(symbol, requests, ordered[k + 1..]));
      if piece.Err? {
        return Err(SegmentWithoutRequest);
      }
      result := result + piece.value;
      k := k + 1;
    }
    assert result + [] == result;
    return Ok(result);
  }

  /** One window, cut at its boundaries; it fails exactly when a point of the window is in no request. */
  method CutWindow(symbol: string, requests: seq<Request>, w: Interval) returns (r: Result<seq<Segment>, SegmentError>)
    requires w.left < w.right
    ensures r == Checked(WindowSegments(symbol, requests, w))
    ensures r.Ok? <==> GapFree(requests, w)
  {
    TaggedIffGapFree(symbol, requests, w);
    var boundaries := Boundaries(requests, w);
    var ordered := SortedSet(boundaries);
    assert w.left in ordered;
    r := CutAt(symbol, requests, ordered);
  }

  lemma {:induction false} OneMoreRequest(requests: seq<Request>, w: Interval, i: nat)
    requires i < |requests|
    ensures BoundarySet(requests[..i + 1], w) == BoundarySet(requests[..i], w)
              + (if Overlaps(requests[i], w.left, w.right)
                then {Max(requests[i].start, w.left), Min(requests[i].end, w.right)} else {})
  {
    assert requests[..i + 1] == requests[..i] + [requests[i]];
    assert forall r :: r in requests[..i + 1] <==> r in requests[..i] || r == requests[i];
  }

  method CutSymbol(
      symbol: string, requests: seq<Request>, windows: seq<Interval>) returns (r: Result<seq<Segment>, SegmentError>)
    requires forall w :: w in windows ==> w.left < w.right
    ensures r == Checked(SymbolSegments(symbol, requests, windows))
  {
    var result := [];
    assert windows[0..] == windows;
    for k := 0 to |windows|
      invariant result + SymbolSegments(symbol, requests, windows[k..]) == SymbolSegments(symbol, requests, windows)
      invariant Tagged(result)
    {
      assert windows[k..][1..] == windows[k + 1..];
      var piece := CutWindow(symbol, requests, windows[k]);
      OnePiece(result, WindowSegments(symbol, requests, windows[k]),
        SymbolSegments(symbol, requests, windows[k + 1..]));
      if piece.Err? {
        return Err(SegmentWithoutRequest);
      }
      result := result + piece.value;
    }
    assert result + [] == result;
    return Ok(result);
  }

  /** The requests of every symbol, in the order of acceptance. */
  method GroupRequests(accepted: seq<Request>) returns (requests: map<string, seq<Request>>)
    ensures forall s :: Grouped(requests, s) == RequestsOf(accepted, s)
  {
    requests := map[];
    for i := 0 to |accepted|
      invariant forall s :: Grouped(requests, s) == RequestsOf(accepted[..i], s)
    {
      var symbol := accepted[i].symbol;
      assert accepted[..i + 1][..i] == accepted[..i];
      requests := requests[symbol := Grouped(requests, symbol) + [accepted[i]]];
    }
    assert accepted[..|accepted|] == accepted;
  }

  function Grouped(requests: map<string, seq<Request>>, symbol: string): seq<Request> {
    if symbol in requests then requests[symbol] else []
  }

  /** `_segments`: every window of every requirement, cut at its requests' boundaries. */
  method CutAll(accepted: seq<Request>, requirements: seq<Requirement>) returns (r: Result<seq<Segment>, SegmentError>)
    requires forall q, w :: q in requirements && w in q.windows ==> w.left < w.right
    ensures r == Checked(AllSegments(accepted, requirements))
  {
    var requests := GroupRequests(accepted);
    var result := [];
    assert requirements[0..] == requirements;
    for k := 0 to |requirements|
      invariant result + AllSegments(accepted, requirements[k..]) == AllSegments(accepted, requirements)
      invariant Tagged(result)
    {
      assert requirements[k..][1..] == requirements[k + 1..];
      var requirement := requirements[k];
      var piece := CutSymbol(requirement.symbol, Grouped(requests, requirement.symbol), requirement.windows);
      OnePiece(result, SymbolSegments(requirement.symbol, RequestsOf(accepted, requirement.symbol),
        requirement.windows),
               AllSegments(accepted, requirements[k + 1..]));
      if piece.Err? {
        return Err(SegmentWithoutRequest);
      }
      result := result + piece.value;
    }
    assert result + [] == result;
    return Ok(result);
  }
}
