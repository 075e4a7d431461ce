/** Union and subtraction of half-open integer intervals. */
module Intervals {
  import opened Basics
  import opened Sorting

  datatype Interval = Interval(left: int, right: int)

  /** Python's order on pairs. */
  predicate PairLeq(a: Interval, b: Interval) {
    a.left < b.left || (a.left == b.left && a.right <= b.right)
  }

  predicate Inside(i: Interval, p: int) { i.left <= p < i.right }

  /** The points of a list of intervals. */
  predicate Covers(s: seq<Interval>, p: int) {
    exists i :: 0 <= i < |s| && Inside(s[i], p)
  }

  /** Sorted, non-empty, and with at least one uncovered point between neighbours. */
  predicate Separated(s: seq<Interval>) {
    && (forall i :: 0 <= i < |s| ==> s[i].left < s[i].right)
    && (forall i, j :: 0 <= i < j < |s| ==> s[i].right < s[j].left)
  }

  ghost predicate SamePoints(a: seq<Interval>, b: seq<Interval>) {
    forall p :: Covers(a, p) <==> Covers(b, p)
  }

  lemma {:induction false} CoversLast(s: seq<Interval>, last: Interval, p: int)
    ensures Covers(s + [last], p) <==> Covers(s, p) || Inside(last, p)
  {
    var all := s + [last];
    if Covers(s, p) {
      var i :| 0 <= i < |s| && Inside(s[i], p);
      assert Inside(all[i], p);
    }
    if Inside(last, p) { assert Inside(all[|s|], p); }
    if Covers(all, p) {
      var i :| 0 <= i < |all| && Inside(all[i], p);
      assert i < |s| ==> Inside(s[i], p);
    }
  }

  /** Merging an interval that starts no later than the last one ends. */
  lemma {:induction false} MergeLast(s: seq<Interval>, v: Interval, p: int)
    requires s != [] && s[|s| - 1].left <= v.left <= s[|s| - 1].right && v.left < v.right
    ensures var last := s[|s| - 1];
            Covers(s[|s| - 1 := Interval(last.left, Max(last.right, v.right))], p) <==> Covers(s, p) || Inside(v, p)
  {
    var last, init := s[|s| - 1], s[..|s| - 1];
    var merged := Interval(last.left, Max(last.right, v.right));
    assert s == init + [last] && s[|s| - 1 := merged] == init + [merged];
    CoversLast(init, last, p);
    CoversLast(init, merged, p);
  }

  /** `b` covers what `a` covers and the points of `v`. */
  ghost predicate Adds(a: seq<Interval>, v: Interval, b: seq<Interval>) {
    forall p :: Covers(b, p) <==> Covers(a, p) || Inside(v, p)
  }

  lemma {:induction false} AppendAdds(s: seq<Interval>, v: Interval)
    ensures Adds(s, v, s + [v])
  {
    forall p ensures Covers(s + [v], p) <==> Covers(s, p) || Inside(v, p) { CoversLast(s, v, p); }
  }

  lemma {:induction false} MergeAdds(s: seq<Interval>, v: Interval, t: seq<Interval>)
    requires s != [] && s[|s| - 1].left <= v.left <= s[|s| - 1].right && v.left < v.right
    requires t == s[|s| - 1 := Interval(s[|s| - 1].left, Max(s[|s| - 1].right, v.right))]
    ensures Adds(s, v, t)
  {
    forall p ensures Covers(t, p) <==> Covers(s, p) || Inside(v, p) { MergeLast(s, v, p); }
  }

  lemma {:induction false} PairOrder()
    ensures TotalPreorder(PairLeq)
  {
  }

  /** One step of the union: `v` starts no earlier than the last interval. */
  function Joined(merged: seq<Interval>, v: Interval): seq<Interval> {
    if v.right <= v.left then merged
    else if merged != [] && v.left <= merged[|merged| - 1].right then
      merged[|merged| - 1 := Interval(merged[|merged| - 1].left, Max(merged[|merged| - 1].right, v.right))]
    else merged + [v]
  }

  lemma {:induction false} JoinedAdds(merged: seq<Interval>, v: Interval)
    requires Separated(merged) && (merged != [] ==> merged[|merged| - 1].left <= v.left)
    ensures Separated(Joined(merged, v)) && Adds(merged, v, Joined(merged, v))
    ensures Joined(merged, v) != [] ==> Joined(merged, v)[|Joined(merged, v)| - 1].left <= v.left
  {
    if v.right <= v.left {
    } else if merged != [] && v.left <= merged[|merged| - 1].right {
      MergeAdds(merged, v, Joined(merged, v));
    } else {
      AppendAdds(merged, v);
    }
  }

  /** `_interval_union`: the canonical form of the points covered. */
  method IntervalUnion(values: seq<Interval>) returns (merged: seq<Interval>)
    ensures Separated(merged) && SamePoints(merged, values)
  {
    var ordered := Sort(values, PairLeq);
    PairOrder();
    SortSorts(values, PairLeq);
    merged := [];
    for k := 0 to |ordered|
      invariant Separated(merged)
      invariant SamePoints(merged, ordered[..k])
      invariant merged != [] && k < |ordered| ==> merged[|merged| - 1].left <= ordered[k].left
    {
      var v := ordered[k];
      assert k + 1 < |ordered| ==> PairLeq(v, ordered[k + 1]);
      JoinedAdds(merged, v);
      UnionStep(merged, ordered, k);
      if v.right <= v.left {
        continue;
      }
      if merged != [] && v.left <= merged[|merged| - 1].right {
        var last := merged[|merged| - 1];
        merged := merged[|merged| - 1 := Interval(last.left, Max(last.right, v.right))];
      } else {
        merged := merged + [v];
      }
    }
    assert ordered[..|ordered|] == ordered;
    SamePointsSorted(merged, ordered, values);
  }

  lemma {:induction false} UnionStep(merged: seq<Interval>, ordered: seq<Interval>, k: nat)
    requires k < |ordered| && SamePoints(merged, ordered[..k]) && Adds(merged, ordered[k], Joined(merged, ordered[k]))
    ensures SamePoints(Joined(merged, ordered[k]), ordered[..k + 1])
  {
  }

  lemma {:induction false} SamePointsSorted(merged: seq<Interval>, ordered: seq<Interval>, values: seq<Interval>)
    requires SamePoints(merged, ordered) && forall x :: x in ordered <==> x in values
    ensures SamePoints(merged, values)
  {
    forall p ensures Covers(merged, p) <==> Covers(values, p) {
      SameElements(ordered, values, p);
      assert Covers(merged, p) <==> Covers(ordered, p);
    }
  }

  lemma {:induction false} SameElements(a: seq<Interval>, b: seq<Interval>, p: int)
    requires forall x :: x in a <==> x in b
    ensures Covers(a, p) <==> Covers(b, p)
  {
    if Covers(a, p) {
      var i :| 0 <= i < |a| && Inside(a[i], p);
      assert a[i] in b;
    }
    if Covers(b, p) {
      var i :| 0 <= i < |b| && Inside(b[i], p);
      assert b[i] in a;
    }
  }

  /** Between the cursor and the next covering interval nothing is covered. */
  lemma {:induction false} GapUncovered(merged: seq<Interval>, i: nat, cursor: int, p: int)
    requires Separated(merged) && i <= |merged| && cursor <= p && (i < |merged| ==> p < merged[i].left)
    requires forall j :: 0 <= j < i ==> merged[j].right <= cursor
    ensures !Covers(merged, p)
  {
  }

  /** `result` is what `merged` leaves of `[left, cursor)`, as far as `right`. */
  ghost predicate LeftOver(result: seq<Interval>, merged: seq<Interval>, left: int, cursor: int, right: int) {
    forall p :: Covers(result, p) <==> left <= p < Min(cursor, right) && !Covers(merged, p)
  }

  /** The points from the cursor up to an uncovered gap's end become one more interval. */
  lemma {:induction false} GapStep(
      result: seq<Interval>, merged: seq<Interval>, left: int, cursor: int, right: int, next: int, i: nat)
    requires Separated(merged) && LeftOver(result, merged, left, cursor, right) && left <= cursor < next
    requires cursor < right
    requires i <= |merged|
    requires forall j :: 0 <= j < i ==> merged[j].right <= cursor
    requires i < |merged| ==> next <= merged[i].left
    ensures LeftOver(result + [Interval(cursor, Min(next, right))], merged, left, next, right)
  {
    var gap := Interval(cursor, Min(next, right));
    forall p ensures Covers(result + [gap], p) <==> left <= p < Min(next, right) && !Covers(merged, p) {
      CoversLast(result, gap, p);
      if Inside(gap, p) { GapUncovered(merged, i, cursor, p); }
    }
  }

  /** Passing a covering interval leaves nothing more. */
  lemma {:induction false} CoverStep(
      result: seq<Interval>, merged: seq<Interval>, left: int, cursor: int, right: int, i: nat)
    requires LeftOver(result, merged, left, cursor, right) && i < |merged| && merged[i].left <= cursor
    ensures LeftOver(result, merged, left, Max(cursor, merged[i].right), right)
  {
  }

  /** The list comprehension's final filter. */
  function NonEmpty(s: seq<Interval>): seq<Interval> {
    if s == [] then []
    else (if s[0].right > s[0].left then [s[0]] else []) + NonEmpty(s[1..])
  }

  lemma {:induction false} NothingFiltered(s: seq<Interval>)
    requires Separated(s)
    ensures NonEmpty(s) == s
  {
    if s != [] {
      NothingFiltered(s[1..]);
      assert s == [s[0]] + s[1..];
    }
  }

  /**
   * The list built so far is separated, ends before the cursor and holds what `merged` leaves of `[left, cursor)`;
   * every interval before `i` is passed.
   */
  ghost predicate Scanned(result: seq<Interval>, merged: seq<Interval>, left: int, cursor: int, right: int, i: nat) {
    && Separated(result)
    && left <= cursor
    && i <= |merged|
    && (forall j :: 0 <= j < |result| ==> result[j].right <= cursor)
    && (result != [] && i < |merged| ==> result[|result| - 1].right < cursor < merged[i].left)
    && (result != [] && cursor < right ==> result[|result| - 1].right < cursor)
    && (forall j :: 0 <= j < i ==> merged[j].right <= cursor)
    && LeftOver(result, merged, left, cursor, right)
  }

  lemma {:induction false} SeparatedAppend(s: seq<Interval>, v: Interval)
    requires Separated(s) && v.left < v.right && (s != [] ==> s[|s| - 1].right < v.left)
    ensures Separated(s + [v])
  {
  }

  /** The result after the uncovered gap in front of `cover`, if there is one. */
  function WithGap(result: seq<Interval>, cover: Interval, cursor: int, right: int): seq<Interval> {
    if cover.left > cursor then result + [Interval(cursor, Min(cover.left, right))] else result
  }

  lemma {:induction false} PassCover(
      result: seq<Interval>, merged: seq<Interval>, left: int, cursor: int, right: int, i: nat)
    requires Separated(merged) && Scanned(result, merged, left, cursor, right, i) && i < |merged|
    requires merged[i].right > cursor && merged[i].left < right
    ensures Scanned(WithGap(result, merged[i], cursor, right), merged, left, merged[i].right, right, i + 1)
  {
    if merged[i].left > cursor {
      GapStep(result, merged, left, cursor, right, merged[i].left, i);
      SeparatedAppend(result, Interval(cursor, Min(merged[i].left, right)));
      CoverStep(WithGap(result, merged[i], cursor, right), merged, left, merged[i].left, right, i);
    } else {
      CoverStep(result, merged, left, cursor, right, i);
    }
  }

  lemma {:induction false} SkipCover(
      result: seq<Interval>, merged: seq<Interval>, left: int, cursor: int, right: int, i: nat)
    requires Separated(merged) && Scanned(result, merged, left, cursor, right, i) && i < |merged|
    requires merged[i].right <= cursor
    ensures Scanned(result, merged, left, cursor, right, i + 1)
  {
  }

  /** The exact points of the result. */
  ghost predicate Remainder(result: seq<Interval>, covered: seq<Interval>, left: int, right: int) {
    forall p :: Covers(result, p) <==> left <= p < right && !Covers(covered, p)
  }

  lemma {:induction false} LeftOverIsRemainder(
      result: seq<Interval>, merged: seq<Interval>, covered: seq<Interval>, left: int, cursor: int,
      right: int)
    requires LeftOver(result, merged, left, cursor, right) && cursor >= right && SamePoints(merged, covered)
    ensures Remainder(result, covered, left, right)
  {
  }

  function WithRest(result: seq<Interval>, cursor: int, right: int): seq<Interval> {
    if cursor < right then result + [Interval(cursor, right)] else result
  }

  /** The finished list; the filter drops nothing from it. */
  lemma {:induction false} Finish(
      result: seq<Interval>, merged: seq<Interval>, covered: seq<Interval>, left: int, cursor: int,
      right: int, i: nat)
    requires Separated(merged) && SamePoints(merged, covered) && Scanned(result, merged, left, cursor, right, i)
    requires cursor < right && i < |merged| ==> merged[i].left >= right
    ensures NonEmpty(WithRest(result, cursor, right)) == WithRest(result, cursor, right)
    ensures Separated(WithRest(result, cursor, right))
    ensures Remainder(WithRest(result, cursor, right), covered, left, right)
  {
    if cursor < right {
      GapStep(result, merged, left, cursor, right, right, i);
      SeparatedAppend(result, Interval(cursor, right));
      NothingFiltered(result + [Interval(cursor, right)]);
      LeftOverIsRemainder(result + [Interval(cursor, right)], merged, covered, left, right, right);
    } else {
      NothingFiltered(result);
      LeftOverIsRemainder(result, merged, covered, left, cursor, right);
    }
  }

  /** `_subtract_interval`: what is left of `[left, right)` outside the covered intervals. */
  method SubtractInterval(left: int, right: int, covered: seq<Interval>) returns (result: seq<Interval>)
    ensures Separated(result) && Remainder(result, covered, left, right)
  {
    var merged := IntervalUnion(covered);
    result := [];
    var cursor := left;
    var i := 0;
    while i < |merged|
      invariant Scanned(result, merged, left, cursor, right, i)
    {
      var cover := merged[i];
      if cover.right <= cursor {
        SkipCover(result, merged, left, cursor, right, i);
        i := i + 1;
        continue;
      }
      if cover.left >= right {
        break;
      }
      PassCover(result, merged, left, cursor, right, i);
      if cover.left > cursor {
        result := result + [Interval(cursor, Min(cover.left, right))];
      }
      cursor := Max(cursor, cover.right);
      i := i + 1;
      if cursor >= right {
        break;
      }
    }
    Finish(result, merged, covered, left, cursor, right, i);
    if cursor < right {
      result := result + [Interval(cursor, right)];
    }
    result := NonEmpty(result);
  }

  // ----- Canonicity --------------------------------------------------------------------------------

  lemma {:induction false} FirstPoint(s: seq<Interval>, p: int)
    requires Separated(s) && s != [] && Covers(s, p)
    ensures s[0].left <= p
    ensures p < s[0].right || (|s| > 1 && s[1].left <= p)
  {
  }

  lemma {:induction false} HeadOf(a: seq<Interval>, b: seq<Interval>)
    requires Separated(a) && Separated(b) && SamePoints(a, b) && a != [] && b != []
    ensures a[0].left >= b[0].left && (a[0].left == b[0].left ==> a[0].right <= b[0].right)
  {
    assert Inside(a[0], a[0].left) && Covers(a, a[0].left);
    FirstPoint(b, a[0].left);
    if a[0].left == b[0].left && a[0].right > b[0].right {
      assert Inside(a[0], b[0].right) && Covers(a, b[0].right);
      FirstPoint(b, b[0].right);
    }
  }

  lemma {:induction false} SameHeads(a: seq<Interval>, b: seq<Interval>)
    requires Separated(a) && Separated(b) && SamePoints(a, b)
    ensures (a == [] <==> b == []) && (a != [] ==> a[0] == b[0])
  {
    assert a != [] ==> Inside(a[0], a[0].left) && Covers(a, a[0].left) && Covers(b, a[0].left);
    assert b != [] ==> Inside(b[0], b[0].left) && Covers(b, b[0].left) && Covers(a, b[0].left);
    if a != [] {
      HeadOf(a, b);
      HeadOf(b, a);
    }
  }

  lemma {:induction false} SameTails(a: seq<Interval>, b: seq<Interval>)
    requires Separated(a) && Separated(b) && SamePoints(a, b) && a != [] && b != [] && a[0] == b[0]
    ensures Separated(a[1..]) && Separated(b[1..]) && SamePoints(a[1..], b[1..])
  {
    forall p ensures Covers(a[1..], p) <==> Covers(b[1..], p) {
      TailPoints(a, p);
      TailPoints(b, p);
    }
  }

  /** One separated list for each set of points: the union does not depend on how its input is cut or ordered. */
  lemma {:induction false} SeparatedIsCanonical(a: seq<Interval>, b: seq<Interval>)
    requires Separated(a) && Separated(b) && SamePoints(a, b)
    ensures a == b
    decreases |a|
  {
    hide Separated, SamePoints;
    SameHeads(a, b);
    if a != [] {
      SameTails(a, b);
      SeparatedIsCanonical(a[1..], b[1..]);
      assert a == [a[0]] + a[1..] && b == [b[0]] + b[1..];
    }
  }

  lemma {:induction false} TailPoints(s: seq<Interval>, p: int)
    requires Separated(s) && s != []
    ensures Covers(s[1..], p) <==> Covers(s, p) && !Inside(s[0], p)
  {
  }
}
