/** Screening of the symbols of a day, in front of the selection: every symbol is either blocked or a candidate. */
module Screening {
  import opened Basics
  import opened Sorting
  import opened Universe

  const MINIMUM_AGE := 90 * 24 * 3600 * 1000

  datatype Reason =
    | ChecksumFailed | ArchiveInvalid | CandleGap | DuplicateConflict | CandleInvalid
    | SourceMismatch | ContractUnverified | DataIncomplete | Excluded | SymbolIneligible

  /** One registry entry with the period in which it is effective. */
  datatype Registration = Registration(
    from: int,
    to: Option<int>,
    researchable: bool,
    trading: bool,
    onboard: Option<int>,
    firstCandle: int,
    source: string)

  datatype Exclusion = Exclusion(category: string, evidence: string, from: int, to: Option<int>)

  /** Everything known of one symbol at the selection time; `ranking` is `None` when it has no ranking candles. */
  datatype Evidence = Evidence(
    blocks: set<Reason>,
    entries: seq<Registration>,
    exclusions: seq<Exclusion>,
    intervals: map<string, string>,
    ranking: Option<Result<real, Reason>>)

  /** What a verdict cites. */
  datatype Reference =
    | InputBlock(reason: Reason)
    | Registry
    | Source(text: string)
    | Excluding(category: string, text: string)
    | MissingInterval(interval: string)
    | MissingCandles
    | Window
    | Contract(text: string)
    | IntervalHash(interval: string, text: string)

  datatype Verdict =
    | Eligible(volume: real, refs: seq<Reference>)
    | Barred(reasons: set<Reason>, cited: set<Reference>)
    | Ambiguous

  datatype Blocked = Blocked(symbol: string, reasons: set<Reason>, refs: set<Reference>)

  datatype Member = Member(symbol: string, rank: nat, volume: real, forced: bool, refs: seq<Reference>)

  const REQUIRED := ["15m", "1h", "4h", "1d"]

  predicate InForce(from: int, to: Option<int>, at: int) { from <= at && (to.None? || at < to.value) }

  predicate Effective(e: Registration, at: int) { InForce(e.from, e.to, at) }

  function ActiveExclusions(exclusions: seq<Exclusion>, at: int): set<Reference> {
    set x | x in exclusions && InForce(x.from, x.to, at) :: Excluding(x.category, x.evidence)
  }

  /** An absent and an empty interval hash are both missing. */
  function HashAt(e: Evidence, interval: string): string {
    if interval in e.intervals then e.intervals[interval] else ""
  }

  function MissingIntervals(e: Evidence): set<Reference> {
    set i | i in REQUIRED && HashAt(e, i) == "" :: MissingInterval(i)
  }

  function IntervalHashes(e: Evidence): seq<Reference> {
    seq(|REQUIRED|, i requires 0 <= i < |REQUIRED| => IntervalHash(REQUIRED[i], HashAt(e, REQUIRED[i])))
  }

  /** The entries effective at the selection time. */
  function Active(entries: seq<Registration>, at: int): seq<Registration> {
    if entries == [] then [] else (if Effective(entries[0], at) then [entries[0]] else []) + Active(entries[1..], at)
  }

  predicate Mature(e: Registration, at: int) {
    e.trading && e.onboard.Some? && e.onboard.value <= at - MINIMUM_AGE && e.firstCandle <= at - MINIMUM_AGE
  }

  /** The checks of one symbol, in their order. */
  function Screen(e: Evidence, at: int): Verdict {
    if e.blocks != {} then Barred(e.blocks, set r | r in e.blocks :: InputBlock(r))
    else
      var active := Active(e.entries, at);
      if |active| > 1 then Ambiguous
      else if active == [] then Barred({SymbolIneligible}, {Registry})
      else if !active[0].researchable then Barred({ContractUnverified}, {Registry, Source(active[0].source)})
      else if !Mature(active[0], at) then Barred({SymbolIneligible}, {Registry, Source(active[0].source)})
      else if ActiveExclusions(e.exclusions, at) != {} then Barred({Excluded}, ActiveExclusions(e.exclusions, at))
      else if MissingIntervals(e) != {} then Barred({DataIncomplete}, MissingIntervals(e))
      else if e.ranking.None? then Barred({DataIncomplete}, {MissingCandles})
      else if e.ranking.value.Err? then Barred({e.ranking.value.error}, {Window})
      else Eligible(e.ranking.value.value, [Contract(active[0].source)] + IntervalHashes(e))
  }

  // ----- The verdict, written out ---------------------------------------------------------------------

  predicate NoneInForce(entries: seq<Registration>, at: int) {
    forall i :: 0 <= i < |entries| ==> at < entries[i].from || (entries[i].to.Some? && entries[i].to.value <= at)
  }

  /** Entry `i` is in force at the selection time, and no other is. */
  predicate OnlyInForce(entries: seq<Registration>, at: int, i: nat) {
    && i < |entries| && entries[i].from <= at && (entries[i].to == None || at < entries[i].to.value)
    && NoneInForce(entries[..i], at) && NoneInForce(entries[i + 1..], at)
  }

  /** Listed and traded for at least 90 days, and researchable. */
  predicate Qualifies(r: Registration, at: int) {
    && r.researchable && r.trading && r.onboard.Some?
    && r.onboard.value + 7_776_000_000 <= at && r.firstCandle + 7_776_000_000 <= at
  }

  predicate ExcludedAt(e: Evidence, at: int) {
    exists x :: x in e.exclusions && x.from <= at && (x.to == None || at < x.to.value)
  }

  predicate HasHashes(e: Evidence) {
    forall i :: i in ["15m", "1h", "4h", "1d"] ==> i in e.intervals && e.intervals[i] != ""
  }

  lemma {:induction false} ActiveIs(entries: seq<Registration>, at: int)
    ensures Active(entries, at) == [] <==> NoneInForce(entries, at)
    ensures |Active(entries, at)| == 1 <==> exists i: nat :: OnlyInForce(entries, at, i)
    ensures forall i: nat :: OnlyInForce(entries, at, i) ==> Active(entries, at) == [entries[i]]
  {
    if entries != [] {
      var rest := entries[1..];
      ActiveIs(rest, at);
      assert NoneInForce(entries, at) <==> !Effective(entries[0], at) && NoneInForce(rest, at);
      forall i: nat | OnlyInForce(entries, at, i) ensures Active(entries, at) == [entries[i]] {
        if i > 0 { TailOnly(entries, at, i); }
      }
      if Effective(entries[0], at) {
        assert NoneInForce(rest, at) ==> OnlyInForce(entries, at, 0);
      } else if i: nat :| OnlyInForce(rest, at, i) {
        HeadOnly(entries, at, i);
      }
    }
  }

  lemma {:induction false} TailOnly(entries: seq<Registration>, at: int, i: nat)
    requires 0 < i && OnlyInForce(entries, at, i)
    ensures !Effective(entries[0], at) && OnlyInForce(entries[1..], at, i - 1)
  {
    assert entries[..i][0] == entries[0];
    assert entries[1..][..i - 1] == entries[..i][1..] && entries[1..][i..] == entries[i + 1..];
  }

  lemma {:induction false} HeadOnly(entries: seq<Registration>, at: int, i: nat)
    requires entries != [] && !Effective(entries[0], at) && OnlyInForce(entries[1..], at, i)
    ensures OnlyInForce(entries, at, i + 1)
  {
    assert entries[..i + 1] == [entries[0]] + entries[1..][..i] && entries[i + 2..] == entries[1..][i + 1..];
  }

  /**
   * The verdict on a symbol with one registry entry in force that nothing blocks: eligible if and only if the entry
   * qualifies, no exclusion is in force, every interval has its hash and the ranking window its volume; otherwise
   * barred for the first of these that fails.
   */
  lemma {:induction false} VerdictOfOne(e: Evidence, at: int, i: nat)
    requires e.blocks == {} && OnlyInForce(e.entries, at, i)
    ensures var v, entry := Screen(e, at), e.entries[i];
            if !Qualifies(entry, at) then
              v == Barred({if entry.researchable then SymbolIneligible else ContractUnverified},
                          {Registry, Source(entry.source)})
            else if ExcludedAt(e, at) then
              && v.Barred? && v.reasons == {Excluded}
              && forall x :: x in v.cited <==>
                   exists y :: y in e.exclusions && y.from <= at && (y.to == None || at < y.to.value)
                               && x == Excluding(y.category, y.evidence)
            else if !HasHashes(e) then
              && v.Barred? && v.reasons == {DataIncomplete}
              && forall x :: x in v.cited <==>
                   exists k :: k in ["15m", "1h", "4h", "1d"] && !(k in e.intervals && e.intervals[k] != "")
                               && x == MissingInterval(k)
            else if e.ranking == None then v == Barred({DataIncomplete}, {MissingCandles})
            else if e.ranking.value.Err? then v == Barred({e.ranking.value.error}, {Window})
            else
              v == Eligible(e.ranking.value.value,
                            [Contract(entry.source), IntervalHash("15m", e.intervals["15m"]),
                             IntervalHash("1h", e.intervals["1h"]), IntervalHash("4h", e.intervals["4h"]),
                             IntervalHash("1d", e.intervals["1d"])])
  {
    hide Active, ActiveExclusions, MissingIntervals, IntervalHashes, ExcludedAt, HasHashes, OnlyInForce;
    ActiveIs(e.entries, at);
    ExclusionsAre(e, at);
    HashesAre(e);
  }

  /** Every other verdict: the outside blocks, no entry in force, or several. */
  lemma {:induction false} VerdictOtherwise(e: Evidence, at: int)
    requires e.blocks != {} || forall i: nat :: !OnlyInForce(e.entries, at, i)
    ensures var v := Screen(e, at);
            if e.blocks != {} then v.Barred? && v.reasons == e.blocks
                                   && forall x :: x in v.cited <==> exists r :: r in e.blocks && x == InputBlock(r)
            else if NoneInForce(e.entries, at) then v == Barred({SymbolIneligible}, {Registry})
            else v == Ambiguous
  {
    hide Active, ActiveExclusions, MissingIntervals, IntervalHashes, OnlyInForce, NoneInForce;
    ActiveIs(e.entries, at);
  }

  lemma {:induction false} ExclusionsAre(e: Evidence, at: int)
    ensures ActiveExclusions(e.exclusions, at) != {} <==> ExcludedAt(e, at)
    ensures forall x :: x in ActiveExclusions(e.exclusions, at) <==>
              exists y :: y in e.exclusions && y.from <= at && (y.to == None || at < y.to.value)
                          && x == Excluding(y.category, y.evidence)
  {
    if y :| y in e.exclusions && InForce(y.from, y.to, at) {
      assert Excluding(y.category, y.evidence) in ActiveExclusions(e.exclusions, at);
    }
  }

  lemma {:induction false} HashesAre(e: Evidence)
    ensures MissingIntervals(e) == {} <==> HasHashes(e)
    ensures forall x :: x in MissingIntervals(e) <==>
              exists k :: k in ["15m", "1h", "4h", "1d"] && !(k in e.intervals && e.intervals[k] != "")
                          && x == MissingInterval(k)
    ensures HasHashes(e) ==>
              IntervalHashes(e) == [IntervalHash("15m", e.intervals["15m"]), IntervalHash("1h", e.intervals["1h"]),
                                    IntervalHash("4h", e.intervals["4h"]), IntervalHash("1d", e.intervals["1d"])]
  {
    if k :| k in REQUIRED && HashAt(e, k) == "" { assert MissingInterval(k) in MissingIntervals(e); }
    assert REQUIRED[0] == "15m" && REQUIRED[1] == "1h" && REQUIRED[2] == "4h" && REQUIRED[3] == "1d";
  }

  /** An eligible verdict with this volume. */
  predicate Passes(e: Evidence, at: int, volume: real) {
    Screen(e, at).Eligible? && Screen(e, at).volume == volume
  }

  function EligibleOf(symbols: seq<string>, evidence: string -> Evidence, at: int): (r: seq<Candidate>)
    ensures forall c :: c in r <==> c.symbol in symbols && Passes(evidence(c.symbol), at, c.volume)
  {
    if symbols == [] then []
    else
      var last := symbols[|symbols| - 1];
      var verdict := Screen(evidence(last), at);
      EligibleOf(symbols[..|symbols| - 1], evidence, at) +
        (if verdict.Eligible? then [Candidate(last, verdict.volume)] else [])
  }

  function BlockedOf(symbols: seq<string>, evidence: string -> Evidence, at: int): (r: seq<Blocked>)
    ensures forall b :: b in r <==> b.symbol in symbols && Screen(evidence(b.symbol), at) == Barred(b.reasons, b.refs)
  {
    if symbols == [] then []
    else
      var last := symbols[|symbols| - 1];
      var verdict := Screen(evidence(last), at);
      BlockedOf(symbols[..|symbols| - 1], evidence, at)
      + (if verdict.Barred? then [Blocked(last, verdict.reasons, verdict.cited)] else [])
  }

  predicate Distinct(s: seq<string>) { forall i, j :: 0 <= i < j < |s| ==> s[i] != s[j] }

  lemma {:induction false} EligibleDistinct(symbols: seq<string>, evidence: string -> Evidence, at: int)
    requires Distinct(symbols)
    ensures DistinctSymbols(EligibleOf(symbols, evidence, at))
    decreases |symbols|
  {
    if symbols != [] {
      var init, last := symbols[..|symbols| - 1], symbols[|symbols| - 1];
      EligibleDistinct(init, evidence, at);
      var before := EligibleOf(init, evidence, at);
      forall i | 0 <= i < |before| ensures before[i].symbol != last {
        assert before[i] in before;
        assert before[i].symbol in init;
      }
    }
  }

  /** The references of an eligible symbol. */
  function RefsOf(e: Evidence, at: int): seq<Reference> {
    if Screen(e, at).Eligible? then Screen(e, at).refs else []
  }

  function Ranked(s: seq<Candidate>, forced: set<string>, evidence: string -> Evidence, at: int): seq<Member> {
    seq(|s|, i requires 0 <= i < |s| =>
          Member(s[i].symbol, i + 1, s[i].volume, s[i].symbol in forced, RefsOf(evidence(s[i].symbol), at)))
  }

  function CandidatesOf(members: seq<Member>): seq<Candidate> {
    seq(|members|, i requires 0 <= i < |members| => Candidate(members[i].symbol, members[i].volume))
  }

  lemma {:induction false} RankedKeeps(s: seq<Candidate>, forced: set<string>, evidence: string -> Evidence, at: int)
    ensures CandidatesOf(Ranked(s, forced, evidence, at)) == s
  {
    hide Screen;
    var members := Ranked(s, forced, evidence, at);
    assert forall i :: 0 <= i < |s| ==>
      CandidatesOf(members)[i] == Candidate(members[i].symbol, members[i].volume) == s[i];
  }

  lemma {:induction false} TextOrder()
    ensures TotalPreorder(TextLeq) && forall a, b :: TextLeq(a, b) && TextLeq(b, a) ==> a == b
  {
    forall a: string, b: string ensures TextLeq(a, b) || TextLeq(b, a)
                                ensures TextLeq(a, b) && TextLeq(b, a) ==> a == b {
      TextLeqTotal(a, b);
    }
    forall a: string, b: string, c: string | TextLeq(a, b) && TextLeq(b, c) ensures TextLeq(a, c) {
      TextLeqTransitive(a, b, c);
    }
  }

  lemma {:induction false} SortedDistinct(names: seq<string>)
    requires Distinct(names)
    ensures Distinct(Sort(names, TextLeq))
  {
    SortSorts(names, TextLeq);
    DistinctPermutes(Sort(names, TextLeq), names, (x: string) => x);
  }

  predicate AnyAmbiguous(symbols: seq<string>, evidence: string -> Evidence, at: int) {
    exists s :: s in symbols && Screen(evidence(s), at).Ambiguous?
  }

  lemma {:induction false} OneMoreSymbol(symbols: seq<string>, evidence: string -> Evidence, at: int, k: nat)
    requires k < |symbols|
    ensures var v := Screen(evidence(symbols[k]), at);
            && EligibleOf(symbols[..k + 1], evidence, at) ==
               EligibleOf(symbols[..k], evidence, at) + (if v.Eligible? then [Candidate(symbols[k], v.volume)] else [])
            && BlockedOf(symbols[..k + 1], evidence, at) ==
               BlockedOf(symbols[..k], evidence, at) +
                 (if v.Barred? then [Blocked(symbols[k], v.reasons, v.cited)] else [])
  {
    hide Screen;
    assert symbols[..k + 1][..k] == symbols[..k];
  }

  /** What the loop keeps: the first `k` symbols are screened, and none of them was ambiguous. */
  ghost predicate Screened(symbols: seq<string>, evidence: string -> Evidence, at: int, k: nat,
                           eligible: seq<Candidate>, blocked: seq<Blocked>) {
    && k <= |symbols|
    && eligible == EligibleOf(symbols[..k], evidence, at)
    && blocked == BlockedOf(symbols[..k], evidence, at)
    && forall i :: 0 <= i < k ==> !Screen(evidence(symbols[i]), at).Ambiguous?
  }

  lemma {:induction false} AllScreened(symbols: seq<string>, evidence: string -> Evidence, at: int,
                                       eligible: seq<Candidate>, blocked: seq<Blocked>)
    requires Screened(symbols, evidence, at, |symbols|, eligible, blocked)
    ensures !AnyAmbiguous(symbols, evidence, at)
    ensures eligible == EligibleOf(symbols, evidence, at) && blocked == BlockedOf(symbols, evidence, at)
  {
    hide Screen, EligibleOf, BlockedOf;
    assert symbols[..|symbols|] == symbols;
  }

  /** The screening loop; it fails when a symbol has several effective entries. */
  method ScreenAll(symbols: seq<string>, evidence: string -> Evidence, at: int)
    returns (r: Option<(seq<Candidate>, seq<Blocked>)>)
    ensures r.None? <==> AnyAmbiguous(symbols, evidence, at)
    ensures r.Some? ==> r.value == (EligibleOf(symbols, evidence, at), BlockedOf(symbols, evidence, at))
  {
    hide Screen, EligibleOf, BlockedOf;
    var eligible: seq<Candidate>, blocked: seq<Blocked> := [], [];
    NothingScreened(symbols, evidence, at);
    for k := 0 to |symbols|
      invariant Screened(symbols, evidence, at, k, eligible, blocked)
    {
      var symbol := symbols[k];
      var verdict := Screen(evidence(symbol), at);
      OneMoreSymbol(symbols, evidence, at, k);
      match verdict
      case Ambiguous => return None;
      case Barred(reasons, refs) => blocked := blocked + [Blocked(symbol, reasons, refs)];
      case Eligible(volume, _) => eligible := eligible + [Candidate(symbol, volume)];
    }
    AllScreened(symbols, evidence, at, eligible, blocked);
    return Some((eligible, blocked));
  }

  lemma {:induction false} NothingScreened(symbols: seq<string>, evidence: string -> Evidence, at: int)
    ensures Screened(symbols, evidence, at, 0, [], [])
  {
  }

  /** The published universe of the day: ranked from one, and forced where ranking alone would not have chosen. */
  ghost predicate IsUniverse(names: seq<string>, evidence: string -> Evidence, at: int, members: seq<Member>) {
    var eligible := EligibleOf(Sort(names, TextLeq), evidence, at);
    && IsSelection(eligible, CandidatesOf(members)) && Ascending(RankLeq, CandidatesOf(members))
    && (forall i :: 0 <= i < |members| ==> members[i].rank == i + 1)
    && (forall i :: 0 <= i < |members| ==> (members[i].forced <==> members[i].symbol !in TopSymbols(eligible)))
    && (forall m :: m in members ==> m.symbol in names && Screen(evidence(m.symbol), at) == Eligible(m.volume, m.refs))
    && (forall m :: m in members && m.forced ==> m.symbol in FIXED)
  }

  /** One published member, by its position. */
  lemma {:induction false} RankedMember(symbols: seq<string>, evidence: string -> Evidence, at: int,
                                        selected: seq<Candidate>, forced: set<string>, top: set<string>, i: nat)
    requires i < |selected| && selected[i] in EligibleOf(symbols, evidence, at)
    requires forced == SymbolsOf(selected) - top && forall s :: s in forced ==> s in FIXED
    ensures var m := Ranked(selected, forced, evidence, at)[i];
            && m.rank == i + 1 && (m.forced <==> m.symbol !in top) && (m.forced ==> m.symbol in FIXED)
            && m.symbol in symbols && Screen(evidence(m.symbol), at) == Eligible(m.volume, m.refs)
  {
    hide Screen;
    assert selected[i] in selected;
  }

  lemma {:induction false} RankedIsUniverse(names: seq<string>, evidence: string -> Evidence, at: int,
                                            selected: seq<Candidate>, forced: set<string>)
    requires IsSelection(EligibleOf(Sort(names, TextLeq), evidence, at), selected) && Ascending(RankLeq, selected)
    requires forced == SymbolsOf(selected) - TopSymbols(EligibleOf(Sort(names, TextLeq), evidence, at))
    requires forall s :: s in forced ==> s in FIXED
    ensures IsUniverse(names, evidence, at, Ranked(selected, forced, evidence, at))
  {
    hide Screen, TopSymbols, Ascending, RankLeq;
    var symbols := Sort(names, TextLeq);
    var eligible, members := EligibleOf(symbols, evidence, at), Ranked(selected, forced, evidence, at);
    RankedKeeps(selected, forced, evidence, at);
    SortSorts(names, TextLeq);
    forall i | 0 <= i < |members|
      ensures var m := members[i];
              && m.rank == i + 1 && (m.forced <==> m.symbol !in TopSymbols(eligible))
              && (m.forced ==> m.symbol in FIXED)
              && m.symbol in names && Screen(evidence(m.symbol), at) == Eligible(m.volume, m.refs)
    {
      assert selected[i] in selected;
      RankedMember(symbols, evidence, at, selected, forced, TopSymbols(eligible), i);
    }
  }

  /** `build_daily_universe`, from the collected symbol names to the ranked members and the blocked symbols. */
  method BuildUniverse(names: seq<string>, evidence: string -> Evidence, at: int)
    returns (r: Option<(seq<Member>, seq<Blocked>)>)
    requires Distinct(names)
    ensures r.None? <==> AnyAmbiguous(names, evidence, at)
    ensures r.Some? ==> IsUniverse(names, evidence, at, r.value.0)
    ensures r.Some? ==> r.value.1 == BlockedOf(Sort(names, TextLeq), evidence, at)
  {
    var symbols := Sort(names, TextLeq);
    SortSorts(names, TextLeq);
    SortedDistinct(names);
    var screened := ScreenAll(symbols, evidence, at);
    if screened.None? {
      return None;
    }
    EligibleDistinct(symbols, evidence, at);
    var selected, forced := SelectUniverse(screened.value.0);
    RankedIsUniverse(names, evidence, at, selected, forced);
    return Some((Ranked(selected, forced, evidence, at), screened.value.1));
  }

  /** No member is blocked: the two verdicts exclude each other. */
  lemma {:induction false} MembersAreNotBlocked(
      symbols: seq<string>, evidence: string -> Evidence, at: int, m: Candidate, b: Blocked)
    requires m in EligibleOf(symbols, evidence, at) && b in BlockedOf(symbols, evidence, at)
    ensures m.symbol != b.symbol
  {
  }

  /** The screened lists depend on the set of names, not on the order in which mappings deliver them. */
  lemma {:induction false} ScreeningIgnoresOrder(a: seq<string>, b: seq<string>, evidence: string -> Evidence, at: int)
    requires multiset(a) == multiset(b)
    ensures EligibleOf(Sort(a, TextLeq), evidence, at) == EligibleOf(Sort(b, TextLeq), evidence, at)
    ensures BlockedOf(Sort(a, TextLeq), evidence, at) == BlockedOf(Sort(b, TextLeq), evidence, at)
  {
    TextOrder();
    SortIgnoresOrder(a, b, TextLeq);
  }

  lemma {:induction false} MembersByCandidates(
      a: seq<Member>, b: seq<Member>, top: set<string>, refs: string -> seq<Reference>)
    requires CandidatesOf(a) == CandidatesOf(b)
    requires forall i :: 0 <= i < |a| ==> a[i].refs == refs(a[i].symbol)
    requires forall i :: 0 <= i < |b| ==> b[i].refs == refs(b[i].symbol)
    requires forall i :: 0 <= i < |a| ==> a[i].rank == i + 1 && (a[i].forced <==> a[i].symbol !in top)
    requires forall i :: 0 <= i < |b| ==> b[i].rank == i + 1 && (b[i].forced <==> b[i].symbol !in top)
    ensures a == b
  {
    assert |a| == |CandidatesOf(a)| == |CandidatesOf(b)| == |b|;
    forall i | 0 <= i < |a| ensures a[i] == b[i] {
      assert CandidatesOf(a)[i] == CandidatesOf(b)[i];
    }
  }

  /** A symbol of the names that passes the screening with this volume. */
  predicate IsEligible(names: seq<string>, evidence: string -> Evidence, at: int, c: Candidate) {
    c.symbol in names && Passes(evidence(c.symbol), at, c.volume)
  }

  /** Larger volumes first, and equal volumes by symbol. */
  predicate Descending(members: seq<Member>) {
    forall i, j :: 0 <= i < j < |members| ==>
      || members[i].volume > members[j].volume
      || (members[i].volume == members[j].volume && members[i].symbol != members[j].symbol
          && TextLeq(members[i].symbol, members[j].symbol))
  }

  predicate Published(members: seq<Member>, symbol: string) { exists m :: m in members && m.symbol == symbol }

  /** No eligible symbol left out traded more than a member that is not fixed, or as much under an earlier symbol. */
  predicate NoneLeftOutAhead(members: seq<Member>, eligible: seq<Candidate>) {
    forall m, c :: m in members && c in eligible && m.symbol !in FIXED && !Published(members, c.symbol) ==>
      m.volume > c.volume || (m.volume == c.volume && m.symbol != c.symbol && TextLeq(m.symbol, c.symbol))
  }

  /** A member is forced exactly when 30 eligible symbols rank ahead of it. */
  predicate ForcedBehindThirty(members: seq<Member>, eligible: seq<Candidate>) {
    forall m :: m in members ==> (m.forced <==> |AheadOf(eligible, Candidate(m.symbol, m.volume))| >= 30)
  }

  lemma {:induction false} MembersDescend(members: seq<Member>)
    requires DistinctSymbols(CandidatesOf(members)) && Ascending(RankLeq, CandidatesOf(members))
    ensures Descending(members)
  {
    var selected := CandidatesOf(members);
    forall i, j | 0 <= i < j < |members|
      ensures Ahead(Candidate(members[i].symbol, members[i].volume), Candidate(members[j].symbol, members[j].volume))
    {
      RankedAhead(selected, i, j);
    }
  }

  lemma {:induction false} ForcedExactly(members: seq<Member>, eligible: seq<Candidate>)
    requires DistinctSymbols(eligible) && IsSelection(eligible, CandidatesOf(members))
    requires forall i :: 0 <= i < |members| ==> (members[i].forced <==> members[i].symbol !in TopSymbols(eligible))
    ensures ForcedBehindThirty(members, eligible)
  {
    hide TopSymbols;
    var selected := CandidatesOf(members);
    forall m | m in members ensures m.forced <==> |AheadOf(eligible, Candidate(m.symbol, m.volume))| >= 30 {
      var i :| 0 <= i < |members| && members[i] == m;
      assert selected[i] in selected;
      TopExactly(eligible, selected[i]);
    }
  }

  lemma {:induction false} FixedPublished(members: seq<Member>, eligible: seq<Candidate>, c: Candidate)
    requires IsSelection(eligible, CandidatesOf(members)) && c in eligible && c.symbol in FIXED
    ensures Published(members, c.symbol)
  {
    var selected := CandidatesOf(members);
    assert c in selected;
    var i :| 0 <= i < |selected| && selected[i] == c;
    assert members[i] in members;
  }

  /**
   * The published universe in volumes and symbols: ranked by volume, then symbol; no eligible symbol left out ranks
   * ahead of a member that is not fixed; and a member is forced exactly when 30 eligible symbols rank ahead of it.
   */
  lemma {:induction false} UniverseRanks(
      names: seq<string>, evidence: string -> Evidence, at: int, members: seq<Member>)
    returns (eligible: seq<Candidate>)
    requires Distinct(names) && IsUniverse(names, evidence, at, members)
    ensures forall c :: c in eligible <==> IsEligible(names, evidence, at, c)
    ensures DistinctSymbols(eligible) && |members| == Min(30, |eligible|)
    ensures Descending(members) && NoneLeftOutAhead(members, eligible) && ForcedBehindThirty(members, eligible)
    ensures forall c :: c in eligible && c.symbol in FIXED ==> Published(members, c.symbol)
  {
    hide Screen, TopSymbols, Descending, NoneLeftOutAhead, ForcedBehindThirty, Published, IsSelection, RankLeq;
    var symbols := Sort(names, TextLeq);
    eligible := EligibleOf(symbols, evidence, at);
    SortSorts(names, TextLeq);
    SortedDistinct(names);
    EligibleDistinct(symbols, evidence, at);
    SelectionSize(eligible, CandidatesOf(members));
    MembersDescend(members);
    ForcedExactly(members, eligible);
    NoneAhead(members, eligible);
    forall c | c in eligible && c.symbol in FIXED ensures Published(members, c.symbol) {
      FixedPublished(members, eligible, c);
    }
  }

  lemma {:induction false} SelectionSize(eligible: seq<Candidate>, selected: seq<Candidate>)
    requires IsSelection(eligible, selected)
    ensures DistinctSymbols(selected) && |selected| == Min(30, |eligible|)
  {
  }

  lemma {:induction false} NoneAhead(members: seq<Member>, eligible: seq<Candidate>)
    requires IsSelection(eligible, CandidatesOf(members))
    ensures NoneLeftOutAhead(members, eligible)
  {
    forall m, c | m in members && c in eligible && m.symbol !in FIXED && !Published(members, c.symbol)
      ensures Ahead(Candidate(m.symbol, m.volume), c)
    {
      LeftOutIsBehind(members, eligible, m, c);
    }
  }

  lemma {:induction false} LeftOutIsBehind(members: seq<Member>, eligible: seq<Candidate>, m: Member, c: Candidate)
    requires IsSelection(eligible, CandidatesOf(members)) && m in members && m.symbol !in FIXED && c in eligible
    requires forall n :: n in members ==> n.symbol != c.symbol
    ensures Ahead(Candidate(m.symbol, m.volume), c)
  {
    var selected := CandidatesOf(members);
    var i :| 0 <= i < |members| && members[i] == m;
    assert selected[i] in selected;
    forall k | 0 <= k < |selected| ensures selected[k] != c {
      assert members[k] in members;
    }
    assert RankLeq(selected[i], c);
    TextLeqTotal(m.symbol, c.symbol);
  }

  /** There is one universe for a day: its members, ranks and forced flags do not depend on the order of the names. */
  lemma {:induction false} UniverseIsOne(a: seq<string>, b: seq<string>, evidence: string -> Evidence, at: int,
                                         m: seq<Member>, n: seq<Member>)
    requires Distinct(a) && multiset(a) == multiset(b)
    requires IsUniverse(a, evidence, at, m) && IsUniverse(b, evidence, at, n)
    ensures m == n
  {
    var eligible := EligibleOf(Sort(a, TextLeq), evidence, at);
    ScreeningIgnoresOrder(a, b, evidence, at);
    SortedDistinct(a);
    EligibleDistinct(Sort(a, TextLeq), evidence, at);
    SelectionIsUnique(eligible, eligible, CandidatesOf(m), CandidatesOf(n));
    assert forall i :: 0 <= i < |m| ==> m[i] in m;
    assert forall i :: 0 <= i < |n| ==> n[i] in n;
    MembersByCandidates(m, n, TopSymbols(eligible), x => RefsOf(evidence(x), at));
  }
}
