/** First passage over prices: which trade, or which end of a candle, is the first to reach one of two levels. */
module Passage {
  import opened Sorting
  import opened Market

  /** `a` was made before `b`: earlier, or at the same time under a smaller id. */
  predicate Before(a: AggTrade, b: AggTrade) {
    a.time < b.time || (a.time == b.time && a.id < b.id)
  }

  /** A price at either of two levels: the one that hurts, or the one that helps. */
  predicate Reaches(d: Direction, adverse: real, favorable: real, price: real) {
    if d == Long then price <= adverse || price >= favorable else price >= adverse || price <= favorable
  }

  predicate Hurts(d: Direction, adverse: real, price: real) {
    if d == Long then price <= adverse else price >= adverse
  }

  predicate Helps(d: Direction, favorable: real, price: real) {
    if d == Long then price >= favorable else price <= favorable
  }

  predicate NoneReaches(d: Direction, adverse: real, favorable: real, trades: seq<AggTrade>) {
    forall t :: t in trades ==> !Reaches(d, adverse, favorable, t.price)
  }

  /** `t` is the first of the trades, by time and id, at one of the levels. */
  predicate FirstReaching(d: Direction, adverse: real, favorable: real, trades: seq<AggTrade>, t: AggTrade) {
    && t in trades && Reaches(d, adverse, favorable, t.price)
    && forall u :: u in trades && Reaches(d, adverse, favorable, u.price) && u != t ==> Before(t, u)
  }

  predicate StrictlyOrdered(trades: seq<AggTrade>) {
    forall i, j :: 0 <= i < j < |trades| ==> Before(trades[i], trades[j])
  }

  lemma {:induction false} TailOrdered(trades: seq<AggTrade>)
    requires StrictlyOrdered(trades) && trades != []
    ensures StrictlyOrdered(trades[1..])
    ensures forall t :: t in trades[1..] <==> t in trades && Before(trades[0], t)
    ensures forall t :: t in trades <==> t == trades[0] || t in trades[1..]
  {
    var rest := trades[1..];
    assert forall i :: 0 <= i < |rest| ==> rest[i] == trades[i + 1];
    forall t | t in trades && Before(trades[0], t) ensures t in rest {
      var i :| 0 <= i < |trades| && trades[i] == t;
      assert i > 0 && rest[i - 1] == t;
    }
    forall t | t in rest ensures t in trades && Before(trades[0], t) {
      var i :| 0 <= i < |rest| && rest[i] == t;
      assert trades[i + 1] == t;
    }
  }

  /** The trades of a valid batch in order, each once. */
  lemma {:induction false} OrderedStrictly(b: Batch)
    requires ValidBatch(b)
    ensures StrictlyOrdered(Ordered(b.trades))
    ensures forall t :: t in Ordered(b.trades) <==> t in b.trades
  {
    var ordered := Ordered(b.trades);
    SortSorts(b.trades, TradeLeq);
    DistinctPermutes(ordered, b.trades, (t: AggTrade) => t.id);
    forall i, j | 0 <= i < j < |ordered| ensures Before(ordered[i], ordered[j]) {
      assert TradeLeq(ordered[i], ordered[j]);
    }
  }
}
