/** The 24-hour quote volume of a symbol: exactly one closed 15-minute candle for each of the 96 slots. */
module RankingWindow {
  import opened Basics
  import opened Screening

  const SLOT := 15 * 60 * 1000
  const SLOTS := 96

  /**
   * One row of the frame. `timed` says that its opening time reads as UTC, `valid` that its other fields read well,
   * its symbol and interval fit and it is closed.
   */
  datatype Row = Row(timed: bool, open: int, close: int, volume: real, hash: string, valid: bool)

  predicate InWindow(row: Row, start: int) { start <= row.open < start + SLOTS * SLOT }

  // ----- Specification: about the set of rows only --------------------------------------------------------

  predicate AllValid(rows: seq<Row>, start: int) {
    forall x :: x in rows ==> x.timed && (InWindow(x, start) ==> x.valid)
  }

  predicate NoConflict(rows: seq<Row>, start: int) {
    forall x, y :: x in rows && y in rows && InWindow(x, start) && x.open == y.open ==> x == y
  }

  function SlotAt(start: int, k: int): int { start + k * SLOT }

  predicate HasRow(rows: seq<Row>, open: int) { exists x :: x in rows && x.open == open }

  /** Every slot has a row, and every row of the window stands on a slot. */
  predicate OnGrid(rows: seq<Row>, start: int) {
    && (forall k :: 0 <= k < SLOTS ==> HasRow(rows, SlotAt(start, k)))
    && (forall x :: x in rows && InWindow(x, start) ==> x.open in Slots(start))
  }

  function Slots(start: int): set<int> { set k | 0 <= k < SLOTS :: SlotAt(start, k) }

  predicate Closes(rows: seq<Row>, start: int) {
    forall x :: x in rows && InWindow(x, start) ==> x.close == x.open + SLOT
  }

  function VolumeAt(rows: seq<Row>, open: int): real {
    if rows == [] then 0.0 else if rows[0].open == open then rows[0].volume else VolumeAt(rows[1..], open)
  }

  function SlotSum(rows: seq<Row>, start: int, n: nat): real {
    if n == 0 then 0.0 else SlotSum(rows, start, n - 1) + VolumeAt(rows, SlotAt(start, n - 1))
  }

  function VolumeOrReason(columns: bool, rows: seq<Row>, start: int): Result<real, Reason> {
    if !columns then Err(DataIncomplete)
    else if !AllValid(rows, start) then Err(CandleInvalid)
    else if !NoConflict(rows, start) then Err(DuplicateConflict)
    else if !OnGrid(rows, start) then Err(CandleGap)
    else if !Closes(rows, start) then Err(CandleInvalid)
    else Ok(SlotSum(rows, start, SLOTS))
  }

  // ----- The loops ----------------------------------------------------------------------------------------

  /** The rows of the window, or nothing when one of them is invalid, or any row is without a readable time. */
  method WindowRows(rows: seq<Row>, start: int) returns (r: Option<seq<Row>>)
    ensures r.Some? <==> AllValid(rows, start)
    ensures r.Some? ==> forall x :: x in r.value <==> x in rows && InWindow(x, start)
  {
    var kept: seq<Row> := [];
    for i := 0 to |rows|
      invariant AllValid(rows[..i], start)
      invariant forall x :: x in kept <==> x in rows[..i] && InWindow(x, start)
    {
      var row := rows[i];
      assert rows[..i + 1] == rows[..i] + [row];
      if !row.timed {
        return None;
      }
      if row.open < start || row.open >= start + SLOTS * SLOT {
        continue;
      }
      if !row.valid {
        return None;
      }
      kept := kept + [row];
    }
    assert rows[..|rows|] == rows;
    return Some(kept);
  }

  /** The dictionary of rows by opening time. */
  predicate Indexes(byOpen: map<int, Row>, rows: seq<Row>) {
    && (forall t :: t in byOpen ==> byOpen[t] in rows && byOpen[t].open == t)
    && (forall x :: x in rows ==> x.open in byOpen && byOpen[x.open] == x)
  }

  /** Fails exactly when two different rows share their opening time. */
  method IndexRows(rows: seq<Row>) returns (r: Option<map<int, Row>>)
    ensures r.Some? <==> forall x, y :: x in rows && y in rows && x.open == y.open ==> x == y
    ensures r.Some? ==> Indexes(r.value, rows)
  {
    var byOpen: map<int, Row> := map[];
    for i := 0 to |rows|
      invariant Indexes(byOpen, rows[..i])
    {
      var row := rows[i];
      assert rows[..i + 1] == rows[..i] + [row];
      if row.open in byOpen && byOpen[row.open] != row {
        assert byOpen[row.open] in rows && row in rows;
        return None;
      }
      byOpen := byOpen[row.open := row];
    }
    assert rows[..|rows|] == rows;
    return Some(byOpen);
  }

  method SumSlots(byOpen: map<int, Row>, start: int) returns (total: Option<real>)
    requires byOpen.Keys == Slots(start)
    ensures total.Some? <==> forall t :: t in byOpen ==> byOpen[t].close == t + SLOT
    ensures total.Some? ==> total.value == MapSum(byOpen, start, SLOTS)
  {
    var sum := 0.0;
    for k := 0 to SLOTS
      invariant forall j :: 0 <= j < k ==>
        SlotAt(start, j) in byOpen && byOpen[SlotAt(start, j)].close == SlotAt(start, j) + SLOT
      invariant sum == MapSum(byOpen, start, k)
    {
      var open := SlotAt(start, k);
      assert open in Slots(start);
      if byOpen[open].close != open + SLOT || byOpen[open].close > start + SLOTS * SLOT {
        return None;
      }
      sum := sum + byOpen[open].volume;
    }
    return Some(sum);
  }

  function MapSum(byOpen: map<int, Row>, start: int, n: nat): real {
    if n == 0 then 0.0
    else
      var t := SlotAt(start, n - 1);
      MapSum(byOpen, start, n - 1) + (if t in byOpen then byOpen[t].volume else 0.0)
  }

  /** `_window_volume`. */
  method WindowVolume(columns: bool, rows: seq<Row>, start: int) returns (r: Result<real, Reason>)
    ensures r == VolumeOrReason(columns, rows, start)
  {
    if !columns {
      return Err(DataIncomplete);
    }
    var kept := WindowRows(rows, start);
    if kept.None? {
      return Err(CandleInvalid);
    }
    var byOpen := IndexRows(kept.value);
    KeptConflict(rows, kept.value, start);
    if byOpen.None? {
      return Err(DuplicateConflict);
    }
    GridIsKeys(rows, kept.value, byOpen.value, start);
    if byOpen.value.Keys != Slots(start) {
      return Err(CandleGap);
    }
    var total := SumSlots(byOpen.value, start);
    IndexCloses(rows, kept.value, byOpen.value, start);
    if total.None? {
      return Err(CandleInvalid);
    }
    SumsAgree(rows, kept.value, byOpen.value, start, SLOTS);
    return Ok(total.value);
  }

  lemma {:induction false} KeptConflict(rows: seq<Row>, kept: seq<Row>, start: int)
    requires forall x :: x in kept <==> x in rows && InWindow(x, start)
    ensures NoConflict(rows, start) <==> forall x, y :: x in kept && y in kept && x.open == y.open ==> x == y
  {
  }

  lemma {:induction false} SlotsInside(start: int, t: int)
    requires t in Slots(start)
    ensures start <= t < start + SLOTS * SLOT
  {
  }

  lemma {:induction false} GridIsKeys(rows: seq<Row>, kept: seq<Row>, byOpen: map<int, Row>, start: int)
    requires (forall x :: x in kept <==> x in rows && InWindow(x, start)) && Indexes(byOpen, kept)
    ensures OnGrid(rows, start) <==> byOpen.Keys == Slots(start)
  {
    if OnGrid(rows, start) {
      forall t | t in Slots(start) ensures t in byOpen {
        SlotsInside(start, t);
        var k :| 0 <= k < SLOTS && t == SlotAt(start, k);
        assert HasRow(rows, SlotAt(start, k));
        var x :| x in rows && x.open == t;
        assert x in kept;
      }
      forall t | t in byOpen ensures t in Slots(start) {
        assert byOpen[t] in kept;
      }
    }
    if byOpen.Keys == Slots(start) {
      forall k | 0 <= k < SLOTS ensures HasRow(rows, SlotAt(start, k)) {
        assert SlotAt(start, k) in Slots(start);
        assert byOpen[SlotAt(start, k)] in kept;
      }
    }
  }

  lemma {:induction false} IndexCloses(rows: seq<Row>, kept: seq<Row>, byOpen: map<int, Row>, start: int)
    requires (forall x :: x in kept <==> x in rows && InWindow(x, start)) && Indexes(byOpen, kept)
    ensures Closes(rows, start) <==> forall t :: t in byOpen ==> byOpen[t].close == t + SLOT
  {
  }

  /** Without conflicts any row at a time has the volume of that time. */
  lemma {:induction false} VolumeOfRow(rows: seq<Row>, x: Row)
    requires x in rows && forall y :: y in rows && y.open == x.open ==> y == x
    ensures VolumeAt(rows, x.open) == x.volume
  {
    assert rows[0] in rows;
    if rows[0].open != x.open { VolumeOfRow(rows[1..], x); }
  }

  lemma {:induction false} SumsAgree(rows: seq<Row>, kept: seq<Row>, byOpen: map<int, Row>, start: int, n: nat)
    requires (forall x :: x in kept <==> x in rows && InWindow(x, start)) && Indexes(byOpen, kept)
    requires NoConflict(rows, start) && byOpen.Keys == Slots(start) && n <= SLOTS
    ensures MapSum(byOpen, start, n) == SlotSum(rows, start, n)
  {
    if n > 0 {
      SumsAgree(rows, kept, byOpen, start, n - 1);
      var t := SlotAt(start, n - 1);
      assert t in Slots(start);
      assert byOpen[t] in kept;
      VolumeOfRow(rows, byOpen[t]);
    }
  }

  /** Only the set of rows counts: neither their order nor exact repetitions change the volume or the reason. */
  lemma {:induction false} VolumeIgnoresOrder(columns: bool, a: seq<Row>, b: seq<Row>, start: int)
    requires forall x :: x in a <==> x in b
    ensures VolumeOrReason(columns, a, start) == VolumeOrReason(columns, b, start)
  {
    assert AllValid(a, start) <==> AllValid(b, start);
    assert NoConflict(a, start) <==> NoConflict(b, start);
    assert forall t :: HasRow(a, t) <==> HasRow(b, t);
    assert OnGrid(a, start) <==> OnGrid(b, start);
    assert Closes(a, start) <==> Closes(b, start);
    if NoConflict(a, start) && OnGrid(a, start) { SlotSumsAgree(a, b, start, SLOTS); }
  }

  lemma {:induction false} SlotVolume(a: seq<Row>, b: seq<Row>, start: int, t: int)
    requires forall x :: x in a <==> x in b
    requires NoConflict(a, start) && HasRow(a, t) && start <= t < start + SLOTS * SLOT
    ensures VolumeAt(a, t) == VolumeAt(b, t)
  {
    var x :| x in a && x.open == t;
    VolumeOfRow(a, x);
    VolumeOfRow(b, x);
  }

  lemma {:induction false} SlotSumsAgree(a: seq<Row>, b: seq<Row>, start: int, n: nat)
    requires (forall x :: x in a <==> x in b) && NoConflict(a, start) && n <= SLOTS
    requires forall k :: 0 <= k < SLOTS ==> HasRow(a, SlotAt(start, k))
    ensures SlotSum(a, start, n) == SlotSum(b, start, n)
  {
    hide NoConflict, HasRow;
    if n > 0 {
      SlotSumsAgree(a, b, start, n - 1);
      SlotVolume(a, b, start, SlotAt(start, n - 1));
    }
  }
}
