/** Which candle decides an armed signal, and at what price it enters. */
module FirstPassage {
  import opened Basics
  import opened Market
  import opened Armed
  import opened Adverse

  /** A complete batch without trades: its flat candle is looked at for a gap entry and for nothing else. */
  predicate Silent(b: Option<Batch>) {
    Complete(b) && b.value.trades == []
  }

  /** The candle's whole range lies strictly between invalidation and entry. */
  predicate StrictlyBetween(r: ArmedRequest, c: Candle) {
    if r.direction == Long then r.invalidationPrice < c.low && c.high < r.entryPrice
    else r.entryPrice < c.low && c.high < r.invalidationPrice
  }

  /** What lets a waiting signal pass a candle by: the range between the levels, or a silent batch short of entry. */
  predicate PassesBy(r: ArmedRequest, c: Candle, b: Option<Batch>) {
    StrictlyBetween(r, c) || (Silent(b) && !GapEntry(r, c))
  }

  predicate InWindow(r: ArmedRequest, c: Candle) {
    r.confirmationClose <= c.openTime < r.expiresAt
  }

  lemma {:induction false} TradesWait(r: ArmedRequest, trades: seq<AggTrade>)
    ensures DecideTrades(r, trades).Wait? <==>
            !AnyTouches(r.direction, trades, r.entryPrice, true)
              && !AnyTouches(r.direction, trades, r.invalidationPrice, false)
    decreases |trades|
  {
    if trades != [] { TradesWait(r, trades[1..]); }
  }

  /** A candle leaves the signal waiting exactly when it passes by. */
  lemma {:induction false} WaitMeansPassesBy(r: ArmedRequest, cs: seq<Candle>, table: Batches, i: nat)
    requires ValidCandles(cs) && ValidTable(cs, table) && i < |cs|
    ensures var b := BatchAt(table, cs[i].openTime);
            Decide(r, cs[i], b).Wait? <==> PassesBy(r, cs[i], b)
  {
    var c := cs[i];
    var b := BatchAt(table, c.openTime);
    if Complete(b) {
      var trades := Ordered(b.value.trades);
      OrderedFacts(b.value.trades);
      var j := Positions(cs)[c.openTime];
      assert cs[j].openTime == cs[0].openTime + j * MINUTE && c.openTime == cs[0].openTime + i * MINUTE;
      assert i == j;
      assert Reproduces(c, trades);
      if trades != [] {
        RangeTouches(r.direction, c, trades, r.entryPrice, true);
        RangeTouches(r.direction, c, trades, r.invalidationPrice, false);
        TradesWait(r, trades);
      }
    }
  }

  /** The deciding candle, or the candle that shows the window is over, or the end of the series. */
  function DecidingIndex(r: ArmedRequest, cs: seq<Candle>, table: Batches, i: nat): (k: nat)
    requires i <= |cs|
    ensures i <= k <= |cs|
    decreases |cs| - i
  {
    if i == |cs| then i
    else if cs[i].openTime < r.confirmationClose then DecidingIndex(r, cs, table, i + 1)
    else if cs[i].openTime >= r.expiresAt then i
    else if Decide(r, cs[i], BatchAt(table, cs[i].openTime)).Wait? then DecidingIndex(r, cs, table, i + 1)
    else i
  }

  /** A fill on the adverse side of the plan entry, by no more than the gap limit. */
  predicate AdverseWithin(r: ArmedRequest, price: real) {
    if r.direction == Long then r.entryPrice <= price <= r.entryPrice + GapLimit(r)
    else r.entryPrice - GapLimit(r) <= price <= r.entryPrice
  }

  /** Every candle passed over is before the window or passes by. */
  lemma {:induction false} PassedOver(r: ArmedRequest, cs: seq<Candle>, table: Batches, i: nat)
    requires ValidCandles(cs) && ValidTable(cs, table) && i <= |cs|
    ensures forall j :: i <= j < DecidingIndex(r, cs, table, i) ==>
              cs[j].openTime < r.confirmationClose
                || (InWindow(r, cs[j]) && PassesBy(r, cs[j], BatchAt(table, cs[j].openTime)))
    decreases |cs| - i
  {
    if i < |cs| {
      WaitMeansPassesBy(r, cs, table, i);
      if DecidingIndex(r, cs, table, i) != i { PassedOver(r, cs, table, i + 1); }
    }
  }

  /** What the deciding index makes of the signal. */
  lemma {:induction false} DecidedThere(
      r: ArmedRequest, cs: seq<Candle>, table: Batches, i: nat, fallback: nat, aggregate: nat)
    requires i <= |cs|
    ensures var a := ArmedFrom(r, cs, table, i, fallback, aggregate);
            var k := DecidingIndex(r, cs, table, i);
            if k == |cs| then a.state == ARMED
            else
              && cs[k].openTime >= r.confirmationClose
              && if cs[k].openTime >= r.expiresAt then a.state == EXPIRED
                 else
                   var d := Decide(r, cs[k], BatchAt(table, cs[k].openTime));
                   !d.Wait? && exists f: nat, g: nat :: a == Conclude(r, cs[k], d, f, g)
    decreases |cs| - i
  {
    if i < |cs| {
      var c := cs[i];
      var b := BatchAt(table, c.openTime);
      var fallback' := if Complete(b) then fallback else fallback + 1;
      var aggregate' := if Complete(b) then aggregate + 1 else aggregate;
      if c.openTime < r.confirmationClose {
        DecidedThere(r, cs, table, i + 1, fallback, aggregate);
      } else if c.openTime < r.expiresAt {
        if Decide(r, c, b).Wait? {
          DecidedThere(r, cs, table, i + 1, fallback', aggregate');
        } else {
          assert ArmedFrom(r, cs, table, i, fallback, aggregate) ==
            Conclude(r, c, Decide(r, c, b), fallback', aggregate');
        }
      }
    }
  }

  /** Decisions enter at the plan price or worse within the gap limit, or refuse as invalidated or missed. */
  lemma {:induction false} DecisionKinds(r: ArmedRequest, c: Candle, b: Option<Batch>)
    ensures match Decide(r, c, b)
            case Wait => true
            case Enter(_, price, _) => r.atr >= 0.0 ==> AdverseWithin(r, price)
            case Refuse(state, _) => state in {INVALIDATED, MISSED}
  {
  }

  /**
   * First passage: the signal is decided by the first candle of its window that does not pass it by; it expires
   * only if every candle of the window does and a later one shows the window is over; with a non-negative ATR an
   * entry fills at the plan price or worse, by at most 0.15 ATR.
   */
  lemma {:induction false} ArmedIsFirstPassage(r: ArmedRequest, cs: seq<Candle>, batches: seq<Batch>) returns (k: nat)
    requires ArmedReplay(r, cs, batches).Ok?
    ensures ValidCandles(cs) && BatchTable(cs, batches).Ok? && k <= |cs|
    ensures var a := ArmedReplay(r, cs, batches).value;
            var table := BatchTable(cs, batches).value;
            && (forall j :: 0 <= j < k && InWindow(r, cs[j]) ==> PassesBy(r, cs[j], BatchAt(table, cs[j].openTime)))
            && (a.state == ARMED <==> k == |cs|)
            && (a.state == EXPIRED <==> k < |cs| && !InWindow(r, cs[k]))
            && (a.state in {TRIGGERED, INVALIDATED, MISSED} <==>
                  k < |cs| && InWindow(r, cs[k]) && !PassesBy(r, cs[k], BatchAt(table, cs[k].openTime)))
            && (a.state == EXPIRED ==>
                  && cs[k].openTime >= r.expiresAt
                  && forall j :: 0 <= j < |cs| && InWindow(r, cs[j]) ==>
                    PassesBy(r, cs[j], BatchAt(table, cs[j].openTime)))
            && (a.state == TRIGGERED ==>
                  && a.entryPrice.Some? && a.entryCandleOpen == Some(cs[k].openTime)
                  && (r.atr >= 0.0 ==> AdverseWithin(r, a.entryPrice.value)))
  {
    var table := BatchTable(cs, batches).value;
    BuiltTableValid(cs, batches);
    PassedOver(r, cs, table, 0);
    DecidedThere(r, cs, table, 0, 0, 0);
    k := DecidingIndex(r, cs, table, 0);
    if k < |cs| {
      WaitMeansPassesBy(r, cs, table, k);
      DecisionKinds(r, cs[k], BatchAt(table, cs[k].openTime));
    }
    if ArmedReplay(r, cs, batches).value.state == EXPIRED {
      forall j | 0 <= j < |cs| && InWindow(r, cs[j]) ensures PassesBy(r, cs[j], BatchAt(table, cs[j].openTime)) {
        assert cs[j].openTime == cs[0].openTime + j * MINUTE && cs[k].openTime == cs[0].openTime + k * MINUTE;
      }
    }
  }

  /**
   * Without silent batches every candle the signal waits through, up to the deciding candle `k` or the end of the
   * series, lies strictly between invalidation and entry, whatever becomes of the signal.
   */
  lemma {:induction false} WaitsStrictlyBetween(r: ArmedRequest, cs: seq<Candle>, batches: seq<Batch>) returns (k: nat)
    requires ArmedReplay(r, cs, batches).Ok?
    requires forall i :: 0 <= i < |batches| && batches[i].complete ==> batches[i].trades != []
    ensures k <= |cs| && forall j :: 0 <= j < k && InWindow(r, cs[j]) ==> StrictlyBetween(r, cs[j])
    ensures var a := ArmedReplay(r, cs, batches).value;
            && (a.state == ARMED <==> k == |cs|)
            && (a.state == EXPIRED <==> k < |cs| && !InWindow(r, cs[k]))
            && (a.state in {TRIGGERED, INVALIDATED, MISSED} <==>
              k < |cs| && InWindow(r, cs[k]) && !StrictlyBetween(r, cs[k]))
            && (a.state == EXPIRED ==> forall j :: 0 <= j < |cs| && InWindow(r, cs[j]) ==> StrictlyBetween(r, cs[j]))
  {
    var table := BatchTable(cs, batches).value;
    BatchTableExact(cs, batches);
    k := ArmedIsFirstPassage(r, cs, batches);
    forall j | 0 <= j < |cs| ensures !Silent(BatchAt(table, cs[j].openTime)) {
      if Complete(BatchAt(table, cs[j].openTime)) {
        var i :| 0 <= i < |batches| && batches[i] == table[cs[j].openTime];
      }
    }
  }

  /**
   * A silent batch hides an invalidation: the candle touches the level, and the signal is still armed after it,
   * although the same candle without the batch invalidates it.
   */
  lemma {:induction false} SilentBatchHidesTouch(r: ArmedRequest, open: int) returns (c: Candle, b: Batch)
    requires open % MINUTE == 0 && r.confirmationClose <= open < r.expiresAt
    requires !Touches(r.direction, r.invalidationPrice, r.entryPrice, true)
    ensures c.openTime == open && InvalidationTouched(r, c) && !StrictlyBetween(r, c) && Silent(Some(b))
    ensures ArmedReplay(r, [c], [b]).Ok? && ArmedReplay(r, [c], [b]).value.state == ARMED
    ensures ArmedReplay(r, [c], []).Ok? && ArmedReplay(r, [c], []).value.state == INVALIDATED
  {
    c := Candle(open, r.invalidationPrice, r.invalidationPrice, r.invalidationPrice, r.invalidationPrice, 0.0);
    b := Batch(open, true, []);
    assert [c][0].openTime == open;
    assert Ordered(b.trades) == [];
    assert Fits([c], b) && Admissible([c], map[], [b]);
    BatchTableExact([c], [b]);
    assert BatchTable([c], []) == Ok(map[]);
    var table := BatchTable([c], [b]).value;
    assert BatchAt(table, open) == Some(b);
    assert ArmedFrom(r, [c], table, 1, 0, 1).state == ARMED;
    assert Decide(r, c, Some(b)).Wait? && Decide(r, c, None).Refuse?;
  }
}
