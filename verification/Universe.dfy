/** Selection of the daily top-30 universe with its two forced members. */
module Universe {
  import opened Basics
  import opened Sorting

  datatype Candidate = Candidate(symbol: string, volume: real)

  const FIXED := ["BTCUSDT", "ETHUSDT"]
  const TARGET := 30

  predicate IsFixed(c: Candidate) { c.symbol in FIXED }

  /** Larger volume first, then symbol. */
  predicate RankLeq(a: Candidate, b: Candidate) {
    a.volume > b.volume || (a.volume == b.volume && TextLeq(a.symbol, b.symbol))
  }

  function SymbolOf(c: Candidate): string { c.symbol }

  predicate DistinctSymbols(s: seq<Candidate>) {
    DistinctKeys(s, SymbolOf)
  }

  lemma {:induction false} RankOrder()
    ensures TotalPreorder(RankLeq)
    ensures forall a, b :: RankLeq(a, b) && RankLeq(b, a) ==> a == b
  {
    forall a: Candidate, b: Candidate ensures RankLeq(a, b) || RankLeq(b, a)
                                      ensures RankLeq(a, b) && RankLeq(b, a) ==> a == b {
      TextLeqTotal(a.symbol, b.symbol);
    }
    forall a: Candidate, b: Candidate, c: Candidate | RankLeq(a, b) && RankLeq(b, c) ensures RankLeq(a, c) {
      if a.volume == b.volume == c.volume { TextLeqTransitive(a.symbol, b.symbol, c.symbol); }
    }
  }

  // ----- The declarative specification ---------------------------------------------------------------

  /**
   * `selected` is the universe of `eligible`: distinct eligible members, up to the target; every eligible fixed
   * symbol; and no other eligible candidate left out that ranks before one taken in.
   */
  predicate IsSelection(eligible: seq<Candidate>, selected: seq<Candidate>) {
    && DistinctSymbols(selected)
    && (forall c :: c in selected ==> c in eligible)
    && |selected| == Min(TARGET, |eligible|)
    && (forall c :: c in eligible && IsFixed(c) ==> c in selected)
    && (forall a, b :: a in selected && b in eligible && b !in selected && !IsFixed(a) ==> RankLeq(a, b))
  }

  // ----- Lists and their fixed part ---------------------------------------------------------------------

  function Others(s: seq<Candidate>): seq<Candidate> {
    if s == [] then []
    else Others(s[..|s| - 1]) + (if IsFixed(s[|s| - 1]) then [] else [s[|s| - 1]])
  }

  function FixedOf(s: seq<Candidate>): set<string> {
    set c | c in s && IsFixed(c) :: c.symbol
  }

  function SymbolsOf(s: seq<Candidate>): set<string> { set c | c in s :: c.symbol }

  lemma {:induction false} OthersConcat(a: seq<Candidate>, b: seq<Candidate>)
    ensures Others(a + b) == Others(a) + Others(b)
    decreases |b|
  {
    if b == [] {
      assert a + b == a;
    } else {
      assert (a + b)[..|a + b| - 1] == a + b[..|b| - 1];
      OthersConcat(a, b[..|b| - 1]);
    }
  }

  lemma {:induction false} OthersIn(s: seq<Candidate>)
    ensures forall c :: c in Others(s) <==> c in s && !IsFixed(c)
    ensures |Others(s)| <= |s|
    ensures (forall c :: c in s ==> IsFixed(c)) ==> Others(s) == []
    decreases |s|
  {
    if s != [] {
      OthersIn(s[..|s| - 1]);
      assert s == s[..|s| - 1] + [s[|s| - 1]];
      assert s[|s| - 1] in s;
    }
  }

  lemma {:induction false} LastIsNew(init: seq<Candidate>, last: Candidate)
    requires DistinctSymbols(init + [last])
    ensures DistinctSymbols(init) && last.symbol !in SymbolsOf(init)
  {
    var s := init + [last];
    assert forall i :: 0 <= i < |init| ==> s[i] == init[i];
    forall c | c in init ensures c.symbol != last.symbol {
      var i :| 0 <= i < |init| && init[i] == c;
      assert SymbolOf(s[i]) != SymbolOf(s[|init|]);
    }
  }

  lemma {:induction false} FixedOfLast(init: seq<Candidate>, last: Candidate)
    ensures FixedOf(init + [last]) == FixedOf(init) + (if IsFixed(last) then {last.symbol} else {})
  {
  }

  /** In a list of distinct symbols the fixed ones and the others make up the whole. */
  lemma {:induction false} FixedAndOthers(s: seq<Candidate>)
    requires DistinctSymbols(s)
    ensures |s| == |Others(s)| + |FixedOf(s)|
    decreases |s|
  {
    if s == [] {
      assert FixedOf(s) == {};
    } else {
      var init, last := s[..|s| - 1], s[|s| - 1];
      assert s == init + [last];
      LastIsNew(init, last);
      FixedAndOthers(init);
      FixedOfLast(init, last);
      assert forall x :: x in FixedOf(init) ==> x in SymbolsOf(init);
    }
  }

  /** A list of distinct symbols holds at most two fixed ones. */
  lemma {:induction false} FewFixed(s: seq<Candidate>)
    requires DistinctSymbols(s)
    ensures |s| == |Others(s)| + |FixedOf(s)| && |FixedOf(s)| <= 2
  {
    FixedAndOthers(s);
    var all := {FIXED[0], FIXED[1]};
    assert FixedOf(s) <= all;
    SubsetSize(FixedOf(s), all);
  }

  lemma {:induction false} SubsetSize<T>(a: set<T>, b: set<T>)
    requires a <= b
    ensures |a| <= |b|
    decreases |a|
  {
    if a != {} {
      var x :| x in a;
      SubsetSize(a - {x}, b - {x});
    }
  }

  // ----- The eviction loop -------------------------------------------------------------------------------

  /** The last member that may be evicted; it exists as soon as the list is at its target. */
  method LastEvictable(selected: seq<Candidate>) returns (k: nat)
    requires DistinctSymbols(selected) && |selected| >= TARGET
    ensures k < |selected| && !IsFixed(selected[k])
    ensures forall j :: k < j < |selected| ==> IsFixed(selected[j])
  {
    FewFixed(selected);
    OthersIn(selected);
    assert Others(selected)[0] in Others(selected);
    k := |selected| - 1;
    while selected[k].symbol in FIXED
      invariant k < |selected|
      invariant forall j :: k < j < |selected| ==> IsFixed(selected[j])
      invariant exists j :: 0 <= j <= k && !IsFixed(selected[j])
      decreases k
    {
      k := k - 1;
    }
  }

  /** Removing the last other member drops the last of the others and nothing else. */
  lemma {:induction false} EvictionDropsLast(s: seq<Candidate>, k: nat)
    requires k < |s| && !IsFixed(s[k]) && forall j :: k < j < |s| ==> IsFixed(s[j])
    ensures Others(s) != []
    ensures Others(s[..k] + s[k + 1..]) == Others(s)[..|Others(s)| - 1]
    ensures Others(s)[|Others(s)| - 1] == s[k]
  {
    assert s == s[..k] + [s[k]] + s[k + 1..];
    OthersConcat(s[..k] + [s[k]], s[k + 1..]);
    OthersConcat(s[..k], s[k + 1..]);
    OthersIn(s[k + 1..]);
    assert (s[..k] + [s[k]])[..k] == s[..k];
  }

  /** What the forced-replacement loop keeps: the others stay a prefix of the ranking's others. */
  predicate Kept(eligible: seq<Candidate>, ranked: seq<Candidate>, selected: seq<Candidate>) {
    && DistinctSymbols(selected)
    && (forall c :: c in selected ==> c in eligible)
    && |selected| == Min(TARGET, |eligible|)
    && Others(selected) <= Others(ranked)
  }

  lemma {:induction false} EvictKeeps(s: seq<Candidate>, k: nat, c: Candidate)
    requires DistinctSymbols(s) && k < |s| && forall i :: 0 <= i < |s| ==> s[i].symbol != c.symbol
    ensures DistinctSymbols(s[..k] + s[k + 1..] + [c])
    ensures |s[..k] + s[k + 1..] + [c]| == |s|
    ensures forall x :: x in s[..k] + s[k + 1..] + [c] <==> x == c || (x in s && x != s[k])
  {
  }

  /** The candidate of a symbol among the eligible, if it is there. */
  function Lookup(eligible: seq<Candidate>, symbol: string): (r: Option<Candidate>)
    ensures r.Some? ==> r.value in eligible && r.value.symbol == symbol
    ensures r.None? ==> forall c :: c in eligible ==> c.symbol != symbol
  {
    if eligible == [] then None
    else if eligible[0].symbol == symbol then Some(eligible[0])
    else Lookup(eligible[1..], symbol)
  }

  lemma {:induction false} PrefixKept(eligible: seq<Candidate>, ranked: seq<Candidate>, cut: nat)
    requires multiset(ranked) == multiset(eligible) && DistinctSymbols(eligible) && cut == Min(TARGET, |eligible|)
    ensures |ranked| == |eligible| && Kept(eligible, ranked, ranked[..cut])
  {
    assert |ranked| == |multiset(ranked)| == |multiset(eligible)| == |eligible|;
    DistinctPermutes(ranked, eligible, SymbolOf);
    assert ranked == ranked[..cut] + ranked[cut..];
    OthersConcat(ranked[..cut], ranked[cut..]);
    forall c | c in ranked[..cut] ensures c in eligible {
      assert c in multiset(ranked);
    }
  }

  /** Candidates are told apart by their symbols. */
  lemma {:induction false} SymbolsIdentify(eligible: seq<Candidate>, selected: seq<Candidate>, symbol: string)
    requires DistinctSymbols(eligible) && forall c :: c in selected ==> c in eligible
    requires symbol in SymbolsOf(selected)
    ensures forall c :: c in eligible && c.symbol == symbol ==> c in selected
  {
  }

  function ElementsOf(s: seq<Candidate>): set<Candidate> { set c | c in s }

  lemma {:induction false} DistinctSize(s: seq<Candidate>)
    requires DistinctSymbols(s)
    ensures |ElementsOf(s)| == |s|
    decreases |s|
  {
    if s == [] {
      assert ElementsOf(s) == {};
    } else {
      DistinctHead(s, SymbolOf);
      DistinctSize(s[1..]);
      assert ElementsOf(s) == ElementsOf(s[1..]) + {s[0]};
      assert s[0] !in s[1..];
    }
  }

  lemma {:induction false} SubsetEqual<T>(a: set<T>, b: set<T>)
    requires a <= b && |a| >= |b|
    ensures a == b
  {
    if x :| x in b && x !in a {
      SubsetSize(a, b - {x});
    }
  }

  /** Distinct lists of the same length, one inside the other, hold the same candidates. */
  lemma {:induction false} SameLength(a: seq<Candidate>, b: seq<Candidate>)
    requires DistinctSymbols(a) && DistinctSymbols(b) && |a| >= |b| && forall c :: c in a ==> c in b
    ensures forall c :: c in b ==> c in a
  {
    DistinctSize(a);
    DistinctSize(b);
    SubsetEqual(ElementsOf(a), ElementsOf(b));
    forall c | c in b ensures c in a {
      assert c in ElementsOf(b);
    }
  }

  /** One eviction keeps the loop's facts. */
  lemma {:induction false} ForcedStep(
      eligible: seq<Candidate>, ranked: seq<Candidate>, s: seq<Candidate>, k: nat, c: Candidate)
    requires Kept(eligible, ranked, s) && |s| >= TARGET && k < |s| && !IsFixed(s[k])
    requires forall j :: k < j < |s| ==> IsFixed(s[j])
    requires c in eligible && IsFixed(c) && c.symbol !in SymbolsOf(s)
    ensures var t := s[..k] + s[k + 1..] + [c];
            && Kept(eligible, ranked, t)
            && (forall x :: x in t <==> x == c || (x in s && x != s[k]))
  {
    var t := s[..k] + s[k + 1..] + [c];
    forall i | 0 <= i < |s| ensures s[i].symbol != c.symbol {
      assert s[i] in s;
    }
    EvictionDropsLast(s, k);
    EvictKeeps(s, k, c);
    OthersConcat(s[..k] + s[k + 1..], [c]);
    OthersIn([c]);
    assert s[k] in s;
  }

  /** Forced symbols after one eviction: the new member joins them, the evicted one never was one. */
  lemma {:induction false} ForcedSymbols(
      eligible: seq<Candidate>, top: seq<Candidate>, s: seq<Candidate>, t: seq<Candidate>, out: Candidate,
      c: Candidate)
    requires DistinctSymbols(eligible)
    requires forall x :: x in s ==> x in eligible
    requires forall x :: x in top ==> x in eligible
    requires forall x :: x in t <==> x == c || (x in s && x != out)
    requires out in s && !IsFixed(out) && IsFixed(c) && c in eligible && c.symbol !in SymbolsOf(s)
    requires forall x :: x in s && x !in top ==> IsFixed(x)
    requires forall x :: x in top && IsFixed(x) ==> x in s
    ensures SymbolsOf(t) - SymbolsOf(top) == (SymbolsOf(s) - SymbolsOf(top)) + {c.symbol}
  {
  }

  /** The symbols that ranking alone would have chosen. */
  function TopSymbols(eligible: seq<Candidate>): set<string> {
    var ranked := Sort(eligible, RankLeq);
    SymbolsOf(ranked[..Min(TARGET, |ranked|)])
  }

  // ----- The ranking, written out -----------------------------------------------------------------------

  /** `a` ranks ahead of `b`: it traded more, or as much under an earlier symbol. */
  predicate Ahead(a: Candidate, b: Candidate) {
    a.volume > b.volume || (a.volume == b.volume && a.symbol != b.symbol && TextLeq(a.symbol, b.symbol))
  }

  /** The eligible candidates ranking ahead of one. */
  function AheadOf(eligible: seq<Candidate>, c: Candidate): set<Candidate> {
    set x | x in eligible && Ahead(x, c)
  }

  /** In a ranking, the earlier of two different candidates is ahead of the later. */
  lemma {:induction false} RankedAhead(ranked: seq<Candidate>, i: nat, j: nat)
    requires Ascending(RankLeq, ranked) && DistinctSymbols(ranked) && i < j < |ranked|
    ensures Ahead(ranked[i], ranked[j]) && !Ahead(ranked[j], ranked[i])
  {
    assert RankLeq(ranked[i], ranked[j]) && SymbolOf(ranked[i]) != SymbolOf(ranked[j]);
    TextLeqTotal(ranked[i].symbol, ranked[j].symbol);
  }

  /** The candidate at place `i` of a ranking has exactly `i` candidates ahead of it. */
  lemma {:induction false} PlaceIsCount(ranked: seq<Candidate>, i: nat)
    requires Ascending(RankLeq, ranked) && DistinctSymbols(ranked) && i < |ranked|
    ensures |AheadOf(ranked, ranked[i])| == i
  {
    var before := ranked[..i];
    forall x ensures x in AheadOf(ranked, ranked[i]) <==> x in ElementsOf(before) {
      if x in ranked {
        var j :| 0 <= j < |ranked| && ranked[j] == x;
        if j < i { RankedAhead(ranked, j, i); assert before[j] == x; }
        if i < j { RankedAhead(ranked, i, j); NotBefore(ranked, i, j); }
        if i == j { NotBefore(ranked, i, j); }
      }
    }
    assert AheadOf(ranked, ranked[i]) == ElementsOf(before);
    DistinctSize(before);
  }

  lemma {:induction false} NotBefore(ranked: seq<Candidate>, i: nat, j: nat)
    requires DistinctSymbols(ranked) && i <= j < |ranked|
    ensures ranked[j] !in ranked[..i]
  {
    forall k | 0 <= k < i ensures ranked[k] != ranked[j] {
      assert SymbolOf(ranked[k]) != SymbolOf(ranked[j]);
    }
  }

  /** Ranking alone chooses exactly the candidates with fewer than 30 ahead of them. */
  lemma {:induction false} TopExactly(eligible: seq<Candidate>, c: Candidate)
    requires DistinctSymbols(eligible) && c in eligible
    ensures c.symbol in TopSymbols(eligible) <==> |AheadOf(eligible, c)| < 30
  {
    var ranked := Sort(eligible, RankLeq);
    RankOrder();
    SortSorts(eligible, RankLeq);
    DistinctPermutes(ranked, eligible, SymbolOf);
    var i :| 0 <= i < |ranked| && ranked[i] == c;
    PlaceIsCount(ranked, i);
    assert AheadOf(eligible, c) == AheadOf(ranked, c);
    var cut := Min(TARGET, |ranked|);
    if i < cut {
      assert ranked[..cut][i] == c;
    } else {
      forall x | x in ranked[..cut] ensures x.symbol != c.symbol {
        var k :| 0 <= k < cut && ranked[..cut][k] == x;
        assert SymbolOf(ranked[k]) != SymbolOf(ranked[i]);
      }
    }
  }

  /** Ranking, cut at the target, and forced replacement in `build_daily_universe`. */
  method SelectUniverse(eligible: seq<Candidate>) returns (members: seq<Candidate>, forced: set<string>)
    requires DistinctSymbols(eligible)
    ensures IsSelection(eligible, members) && Ascending(RankLeq, members)
    ensures forall s :: s in forced ==> s in FIXED
    ensures forced == SymbolsOf(members) - TopSymbols(eligible)
  {
    hide Others, Sort;
    var ranked := Sort(eligible, RankLeq);
    RankOrder();
    SortSorts(eligible, RankLeq);
    var cut := Min(TARGET, |eligible|);
    ghost var top := ranked[..cut];
    var selected := ranked[..cut];
    forced := {};
    PrefixKept(eligible, ranked, cut);
    for i := 0 to |FIXED|
      invariant Kept(eligible, ranked, selected)
      invariant forall c :: c in eligible && c.symbol in FIXED[..i] ==> c in selected
      invariant forall c :: c in selected && c !in top ==> IsFixed(c)
      invariant forall c :: c in top && IsFixed(c) ==> c in selected
      invariant forced == SymbolsOf(selected) - SymbolsOf(top) && forall s :: s in forced ==> s in FIXED
    {
      var fixed := FIXED[i];
      assert FIXED[..i + 1] == FIXED[..i] + [fixed];
      var candidate := Lookup(eligible, fixed);
      if candidate.None? {
        continue;
      }
      if fixed in SymbolsOf(selected) {
        SymbolsIdentify(eligible, selected, fixed);
        continue;
      }
      var c := candidate.value;
      if |selected| >= TARGET {
        var k := LastEvictable(selected);
        ghost var before := selected;
        ForcedStep(eligible, ranked, selected, k, c);
        selected := selected[..k] + selected[k + 1..];
        selected := selected + [c];
        ForcedSymbols(eligible, top, before, selected, before[k], c);
        forced := forced + {fixed};
        SymbolsIdentify(eligible, selected, fixed);
      } else {
        SameLength(selected, eligible);
        assert false;
      }
    }
    assert FIXED[..|FIXED|] == FIXED;
    KeptSelects(eligible, ranked, selected);
    members := Sort(selected, RankLeq);
    SortSorts(selected, RankLeq);
    DistinctPermutes(members, selected, SymbolOf);
    assert SymbolsOf(members) == SymbolsOf(selected);
  }

  lemma {:induction false} OthersAscend(s: seq<Candidate>)
    requires Ascending(RankLeq, s)
    ensures Ascending(RankLeq, Others(s))
    decreases |s|
  {
    if s != [] {
      var init, last := s[..|s| - 1], s[|s| - 1];
      var others := Others(init);
      OthersAscend(init);
      OthersIn(init);
      forall i | 0 <= i < |others| ensures RankLeq(others[i], last) {
        assert others[i] in init;
        var j :| 0 <= j < |init| && init[j] == others[i];
        assert s[j] == others[i];
      }
    }
  }

  /** In an ascending list a prefix's members rank before what the prefix leaves out. */
  lemma {:induction false} PrefixRanks(prefix: seq<Candidate>, s: seq<Candidate>, a: Candidate, b: Candidate)
    requires prefix <= s && Ascending(RankLeq, s) && a in prefix && b in s && b !in prefix
    ensures RankLeq(a, b)
  {
  }

  /** What the loop keeps, with every fixed symbol in, is the declarative selection. */
  lemma {:induction false} KeptSelects(eligible: seq<Candidate>, ranked: seq<Candidate>, selected: seq<Candidate>)
    requires Kept(eligible, ranked, selected) && Ascending(RankLeq, ranked) && multiset(ranked) == multiset(eligible)
    requires forall c :: c in eligible && IsFixed(c) ==> c in selected
    ensures IsSelection(eligible, selected)
  {
    OthersAscend(ranked);
    OthersIn(ranked);
    OthersIn(selected);
    forall a, b | a in selected && b in eligible && b !in selected && !IsFixed(a) ensures RankLeq(a, b) {
      assert b in multiset(ranked);
      PrefixRanks(Others(selected), Others(ranked), a, b);
    }
  }

  // ----- One universe ------------------------------------------------------------------------------------

  /** The specification has one solution: two ranked selections from the same candidates are the same list. */
  lemma {:induction false} SelectionIsUnique(
      e1: seq<Candidate>, e2: seq<Candidate>, s: seq<Candidate>, t: seq<Candidate>)
    requires multiset(e1) == multiset(e2) && DistinctSymbols(e1)
    requires IsSelection(e1, s) && Ascending(RankLeq, s) && IsSelection(e2, t) && Ascending(RankLeq, t)
    ensures s == t
  {
    assert |e1| == |multiset(e1)| == |multiset(e2)| == |e2|;
    assert forall c :: c in e1 <==> c in multiset(e1);
    assert forall c :: c in e2 <==> c in multiset(e2);
    RankOrder();
    SelectedBySpec(e1, e2, s, t);
    SelectedBySpec(e2, e1, t, s);
    SameElementsSameCount(s, t);
    AscendingUnique(s, t, RankLeq);
  }

  lemma {:induction false} SelectedBySpec(e1: seq<Candidate>, e2: seq<Candidate>, s: seq<Candidate>, t: seq<Candidate>)
    requires IsSelection(e1, s) && IsSelection(e2, t) && |e1| == |e2| && forall c :: c in e1 <==> c in e2
    ensures forall x :: x in s ==> x in t
  {
    RankOrder();
    forall x | x in s ensures x in t {
      if x !in t {
        forall y | y in t ensures y in s {
          assert y !in s ==> RankLeq(x, y) && RankLeq(y, x);
        }
        SameLength(t, s);
      }
    }
  }

  lemma {:induction false} SameElementsSameCount(s: seq<Candidate>, t: seq<Candidate>)
    requires DistinctSymbols(s) && DistinctSymbols(t) && forall x :: x in s <==> x in t
    ensures multiset(s) == multiset(t)
  {
    DistinctIsSingle(s, SymbolOf);
    DistinctIsSingle(t, SymbolOf);
    forall x ensures multiset(s)[x] == multiset(t)[x] {
      assert multiset(s)[x] == if x in s then 1 else 0;
      assert multiset(t)[x] == if x in t then 1 else 0;
    }
  }
}
