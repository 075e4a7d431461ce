# slagalpha in Dafny: the event-driven replay, its ledgers, and the resumable transport

The project models the parts of the trading research repository in which several pieces of code have to agree, and
proves that they do. The code is modelled in its own form: loops and updated variables are methods, each proved equal
to a specification function or against a declarative contract; the properties are lemmas about those specifications.

**Replay.** A signal is ARMED and becomes TRIGGERED, INVALIDATED, MISSED or EXPIRED (`Market`, `Armed`). A triggered
position runs FULL, HALF_AFTER_TP1, FLAT over one-minute candles, each with or without an ordered trade list, in two
directions, with a breakeven stop that activates a minute later and a deadline that chooses the worse of two ledgers
(`Trade` is the specification, `Replay` the loops). `ArmedOutcome`, `TradePassage` and `SourceCounts` state both
replays over again in prices alone, with the vocabulary of `Passage`. `Shape` and `Runs` hold the invariant of every
step and run. On it rest the ledger (`Costs`, `LedgerFacts`, `LedgerFormula`, `Net`, `Payoff`), the deadline's choice
(`DeadlineChoice`), the lower bound that OHLC replays give (`Adverse`), the sufficiency of the requested window
(`Liveness`), causality (`Causality`), first passage (`FirstPassage`), the reflection LONG/SHORT (`Mirror`), the
reducer of the event log and the reconstruction of a replay from its log (`EventLog`, `Reconstruction`, `LateEntry`),
funding (`FundingCosts`), and the scheduler of many signals (`Runner`).

**Transport.** Accepted requests are merged into windows, cut into bounded queries, and found again by containment
(`Segments`, `Cutting`, `Selection`, `Plan`). A run executes or resumes a plan over durable receipts and a checkpoint;
it may be interrupted between any two steps (`Transport` is the step system over the disk, `TransportRun` the run).

**Lists.** The daily universe with its forced members (`Universe`), the screening in front of it (`Screening`), the
24-hour ranking volume (`RankingWindow`), and interval union and subtraction (`Intervals`). `Basics` and `Sorting`
carry the shared vocabulary, among it the stable sort that the source's `sorted` performs.

Prices, rates and volumes are exact reals; times are integer milliseconds; an event id is the record of the fields its
digest covers, so the digest is taken to be injective. Lemmas are declared with `{:induction false}`: each proof is
the body one reads.

Quirks of the code are kept, and where they break a property the exact condition is proved: a computed breakeven of
zero reads as absent (`Net.BreakevenExactly` and `Net.BreakevenCanFail`, `Mirror.MirrorExactly` and
`Mirror.MirrorCanFail`), a complete batch without trades hides its candle's touches (`FirstPassage.WaitMeansPassesBy`,
`FirstPassage.SilentBatchHidesTouch`), a late entry is compared with the first event only
(`LateEntry.LateKeepsTheEnd`, `LateEntry.OutOfOrderIsAccepted`, `LateEntry.LateOrderCanFail`), and a crash while a
request is in flight leaves no record of it, so that a task can be requested more often than its maximum
(`Transport.RequestsAreBounded`, `Transport.BoundIsAttained`, `Transport.RequestsCanExceed`).

## Model

| member | source | states |
|---|---|---|
| Market.AggregateTradeMap | src/slagalpha/backtest/replay.py:394-442 | the loop over batches returns the specified table or the first batch's error |
| Market.BatchTableExact | src/slagalpha/backtest/replay.py:394-442 | the table is built if and only if every batch has its own candle and, if complete, reproduces its open, high, low and close; then it holds exactly the batches under their open times |
| Market.BatchErrorExactly | src/slagalpha/backtest/replay.py:394-442 | a refused list of batches names the first that does not fit, as a duplicate, without a candle, empty over a moving candle, or contradicting it |
| Armed.ScanTrades | src/slagalpha/backtest/replay.py:533-590 | the trade loop of one candle decides at the first trade that touches entry or invalidation, entry first |
| Armed.DecideCandle | src/slagalpha/backtest/replay.py:490-640 | the body of the candle loop, gap entry, trades and OHLC fallback, decides as specified |
| Armed.ReplayArmed | src/slagalpha/backtest/replay.py:453-652 | the candle loop equals the specified armed replay, counts and ordering source included |
| ArmedOutcome.ArmedExactly | src/slagalpha/backtest/replay.py:453-652 | the whole armed result in prices: no candle of the window before `k` opens beyond the entry or has a trade, or without trades an end, at entry or invalidation; candle `k`, the end of the window or the end of the series gives the state, the one event with its price, time and reference, and the counts |
| ArmedOutcome.StopAlsoExactly | src/slagalpha/backtest/replay.py:590-621 | a triggered result reports the stop touched if and only if it entered on the bar and the range of its candle reaches the invalidation price |
| ArmedOutcome.ArmedFailsExactly | src/slagalpha/backtest/replay.py:459-461 | the armed replay fails if and only if the candles are not valid or the batches do not fit them, and with the error of the first that does not |
| FirstPassage.WaitMeansPassesBy | src/slagalpha/backtest/replay.py:490-640 | a candle leaves the signal waiting if and only if its range lies strictly between invalidation and entry, or its complete batch is empty and its open is short of entry |
| FirstPassage.ArmedIsFirstPassage | src/slagalpha/backtest/replay.py:453-652 | the first in-window candle that does not pass by decides; EXPIRED if and only if every in-window candle passes by and a later candle closes the window; with a non-negative ATR the fill is at the plan entry or worse by at most 0.15 ATR |
| FirstPassage.WaitsStrictlyBetween | src/slagalpha/backtest/replay.py:415-440 | without empty complete batches every in-window candle before the deciding one, or before the end of the series, lies strictly between invalidation and entry, whatever becomes of the signal |
| FirstPassage.SilentBatchHidesTouch | src/slagalpha/backtest/replay.py:424-429 | an accepted empty complete batch over a candle of the entry window that touches invalidation leaves the replay ARMED, where the same candle alone ends it INVALIDATED |
| Replay.CloseWith | src/slagalpha/backtest/replay.py:713-743 | a closing fill and its CLOSED event are appended and the position is flat |
| Replay.FollowTrades | src/slagalpha/backtest/replay.py:1246-1434 | the aggregate-trade loop of one candle equals the specified walk over its trades |
| Replay.FollowBar | src/slagalpha/backtest/replay.py:1437-1580 | the OHLC fallback of one candle equals the specified adverse-first path |
| Replay.RiskTrades | src/slagalpha/backtest/replay.py:814-902 | the deadline's trade loop finds the same closing fills as the ordinary walk over the trades |
| Replay.DeadlineRiskPath | src/slagalpha/backtest/replay.py:803-1025 | the whole deadline risk path equals its specification |
| Replay.DeadlineExitCashflow | src/slagalpha/backtest/replay.py:1028-1042 | the loop adds up the cash of the exit fills after slippage and fee |
| Replay.CloseAlong | src/slagalpha/backtest/replay.py:1186-1220 | the fills of a chosen path are appended in order, then CLOSED |
| Replay.ChooseDeadlinePath | src/slagalpha/backtest/replay.py:1142-1220 | the comparison picks the risk path if it exists and its cash is no higher, the time exit otherwise |
| Replay.FollowCandle | src/slagalpha/backtest/replay.py:1116-1580 | one turn of the candle loop: activation, deadline, trades or OHLC |
| Replay.FollowCandles | src/slagalpha/backtest/replay.py:1116-1595 | the candle loop from the entry candle on equals the specified walk and result |
| Replay.ReplayTrade | src/slagalpha/backtest/replay.py:1045-1595 | the whole trade replay, with its errors, equals its specification |
| TradePassage.AppliedTrades | src/slagalpha/backtest/replay.py:1254-1268 | the trades applied on a candle are exactly those of its batch, on the entry candle those after the entry by time and id, each once and in order |
| TradePassage.TradeExactly | src/slagalpha/backtest/replay.py:1045-1595 | the whole triggered replay in prices: FULL up to the first candle with a trade, or without trades an end, at the stop or TP1, HALF up to the first at the breakeven stop or TP2, with every event, level, reference, activation and the deadline's choice between the candle's own exit and its open |
| TradePassage.EntryCandleExactly | src/slagalpha/backtest/replay.py:1246-1434 | on an entry candle with a complete batch the first later trade at the stop or TP1 is what the log says next, SL with its time and id if it is the stop; the position is still FULL after the candle if and only if there is none |
| TradePassage.EntryBarStops | src/slagalpha/backtest/replay.py:1437-1475 | an entry on a bar without trades whose range reaches the invalidation stops out in that candle, at the stop price and with fraction one |
| TradePassage.DeadlineChooses | src/slagalpha/backtest/replay.py:1142-1244 | in prices: at the deadline the candle's own closing fills are taken if their price times fraction is no better than the candle's open, ties included, and the time exit otherwise |
| SourceCounts.SourcesCounted | src/slagalpha/backtest/replay.py:1246-1252 | the fallback count is the number of candles without a complete batch from the first of the window to the deciding or the exit candle, and trade ordering is claimed if and only if there is none |
| TradePassage.TradeFailsExactly | src/slagalpha/backtest/replay.py:1077-1113 | when a replay fails and with which error: as the armed replay does, then for a breakeven not strictly between stop and TP2, then for a rate outside zero to one |
| Adverse.RiskIsOrdinaryExit | src/slagalpha/backtest/replay.py:803-1025 | on every leg a replay can reach, the separately written deadline risk path closes exactly when and as the ordinary candle rules would |
| Shape.HalfMeansActive | src/slagalpha/backtest/replay.py:1129-1140 | after the activation block a held position is HALF if and only if the breakeven stop is active |
| Shape.StepKeeps | src/slagalpha/backtest/replay.py:1116-1580 | every candle leaves a position its log tells, or a complete closed log that ends inside the candle |
| Runs.RunKeeps | src/slagalpha/backtest/replay.py:1116-1595 | every triggered run ends on a held position or with a closed log |
| Runs.LaunchedLog | src/slagalpha/backtest/replay.py:1045-1595 | the log of every triggered replay is entry, TP1, activation as far as it got, and the closing fill and CLOSED with the reported reason and time if it closed |
| Reconstruction.LogReconstructs | src/slagalpha/backtest/event_log.py:47-151 | for every accepted replay the events are in time order, each type once, the reducer accepts them, and lifecycle, position, fraction, terminal reason and closed flag are the replay's own |
| Reconstruction.HalfIsActive | src/slagalpha/backtest/replay.py:1129-1140 | whenever a run is about to apply a candle's prices, HALF and an active breakeven stop are one |
| EventLog.ReduceEventLog | src/slagalpha/backtest/event_log.py:47-151 | the reducer loop, from any checkpoint, equals the specified reduction |
| EventLog.NewEventExactly | src/slagalpha/backtest/event_log.py:86-151 | a new event in order, by type: when it is refused and why, and otherwise which fields change |
| EventLog.ResumeIsReduce | src/slagalpha/backtest/event_log.py:47-71 | reducing a log from the checkpoint of its prefix is reducing it in one go |
| EventLog.RedeliveryIsHarmless | src/slagalpha/backtest/event_log.py:72-85 | redelivered events inserted anywhere after their first occurrence change only the duplicate count, by their number |
| EventLog.TableIsKept | src/slagalpha/backtest/event_log.py:86-151 | no log leads out of the lifecycle, position and fraction table |
| EventLog.AppliedStaysDistinct | src/slagalpha/backtest/event_log.py:72-151 | recorded ids only grow at the end and never repeat |
| LateEntry.LateIsIdempotent | src/slagalpha/backtest/replay.py:655-701 | applying the same late entry again changes nothing, whatever price it carries |
| LateEntry.LateExactly | src/slagalpha/backtest/replay.py:655-701 | when a late entry is refused and why, and the one event it adds unless its id is there |
| LateEntry.ArmedTellsEnd | src/slagalpha/backtest/replay.py:655-701 | every signal that ends untraded has a log that reduces to its state |
| LateEntry.LateKeepsTheEnd | src/slagalpha/backtest/replay.py:655-701 | a new late entry leaves a log that reduces to the same terminal state if and only if it does not precede the last event |
| LateEntry.OutOfOrderIsAccepted | src/slagalpha/backtest/replay.py:672-673 | for every replay that ends untraded, two different late entries after its end are both accepted, and the reducer accepts the resulting log if and only if the second is not the earlier one |
| LateEntry.LateOrderCanFail | src/slagalpha/backtest/replay.py:672-673 | a concrete invalidated signal with accepted late entries at 20 and then at 10, whose log the reducer rejects |
| Liveness.RequestEndIsLastDeadline | scripts/p9_sensitivity_phase1.py:153-157 | the requested end is one candle after the latest deadline any entry before expiry can have, and no later than needed |
| Liveness.WalkExitsByDeadline | src/slagalpha/backtest/replay.py:1142-1244 | a walk exits at the latest at the first candle at or after its deadline |
| Liveness.WindowDecides | scripts/p9_sensitivity_phase1.py:153-168 | over the full grid of its requested window an accepted replay is never left armed or open and exits no later than the candle opening at its deadline |
| Causality.ArmedPrefix | src/slagalpha/backtest/replay.py:465-652 | a signal decided within a series is decided the same with more candles after it |
| Causality.NoLookAhead | src/slagalpha/backtest/replay.py:1116-1595 | appending candles leaves a terminal result unchanged and only extends the events of an open one |
| Costs.FloorBrackets | src/slagalpha/strategy/plans.py:287-293 | the floor tick is an integer multiple of the tick, and the greatest one not above the price |
| Costs.CeilBrackets | src/slagalpha/strategy/plans.py:296-302 | the ceiling tick is an integer multiple of the tick, and the least one not below the price |
| LedgerFacts.ClosedBalances | src/slagalpha/backtest/costs.py:208-240 | every closed log has its entry of one and exit fractions that add up to exactly one |
| LedgerFacts.BalanceErrorsUnreachable | src/slagalpha/backtest/costs.py:236-240 | for every valid request and data the balance errors are never raised, and a reported result exists exactly for closed trades |
| Net.NetIsGrossLessCosts | src/slagalpha/backtest/costs.py:208-256 | for prices not below zero net is gross less slippage less fees |
| LedgerFormula.NetFormula | src/slagalpha/backtest/costs.py:140-256 | net, fees, slippage, gross and both multiples of the risk of every closed costed trade, written out in the entry price, the exit prices of its exit reason and the numbers of the scenario |
| LedgerFormula.OpenFormula | src/slagalpha/backtest/costs.py:208-235 | the fees and slippage of every trade still open, for the entry and for the half that left at TP1, and no profit or loss |
| LedgerFormula.CostedFailsExactly | src/slagalpha/backtest/costs.py:182-204 | when a costed replay fails and with which error: as the armed replay does, for a negative computed breakeven, or for one not strictly between stop and TP2 |
| LedgerFacts.LedgerRefusesExactly | src/slagalpha/backtest/costs.py:208-251 | for any result, when the ledger refuses it, in the order of its checks |
| Net.BreakevenIsTight | src/slagalpha/backtest/costs.py:110-130 | the computed breakeven covers the entry after slippage and fee, and one tick less favourable would not |
| Net.BreakevenBreaksEven | src/slagalpha/backtest/replay.py:1360-1403 | every costed run that ends at a non-zero breakeven stop leaves its second half at such a tight covering price, and the cash compared is what the ledger moves |
| Net.BreakevenExactly | src/slagalpha/backtest/replay.py:1077 | a run ending at its breakeven stop breaks even tightly if and only if the computed breakeven is not zero or the scenario is ZERO |
| Net.BreakevenCanFail | src/slagalpha/backtest/costs.py:126-130 | a concrete accepted SHORT run from an entry of half a tick ends at its breakeven stop and does not break even there |
| Payoff.TimeExitPrice | src/slagalpha/backtest/replay.py:1222-1244 | a time exit is at the open of the first candle at or after the deadline |
| Payoff.PayoffClassified | src/slagalpha/backtest/costs.py:241-244 | the gross of every closed trade by exit reason: stop or (TP1 + stop)/2, (TP1 + breakeven)/2, (TP1 + TP2)/2, or the time exit, each less the entry, signed by direction |
| DeadlineChoice.CashIsLedgerNet | src/slagalpha/backtest/replay.py:1028-1042 | the comparison cash of exit fills is exactly what they later contribute to the net of the ledger |
| DeadlineChoice.DeadlineIsWorse | src/slagalpha/backtest/replay.py:1142-1244 | a trade that reaches its deadline candle reports the smaller of the two whole ledgers, or the time exit's when there is no risk path; both start from what the run holds when that candle opens, which is what walking the candles before it leaves |
| Adverse.RangeTouches | src/slagalpha/backtest/replay.py:780-789 | a candle touches a level if and only if one of the trades that reproduce it does |
| Adverse.ReplayNoBetter | src/slagalpha/backtest/replay.py:1116-1595 | without some non-empty batches after the entry candle the replay is accepted, closes exactly when it did, in the same candle, and nets no more |
| Adverse.AdverseIsLowerBound | src/slagalpha/backtest/costs.py:173-272 | the same for the costed replay: OHLC_ADVERSE is a lower bound on the reported net before funding |
| Mirror.MirrorSymmetry | src/slagalpha/backtest/replay.py:1045-1595 | with zero deadline rates, reflected prices and the flipped direction give the same errors or the reflected result, whenever the effective breakeven reflects |
| Mirror.MirrorGross | src/slagalpha/backtest/costs.py:167-170 | a closed trade and its reflection have the same gross |
| Mirror.MirrorExactly | src/slagalpha/backtest/replay.py:1077 | an accepted replay, whole and with all its events, is mirrored if and only if it does not trigger, or neither its breakeven nor that breakeven's reflection is zero, or the entry it falls back to is that breakeven, or prices are reflected at zero |
| Mirror.MirrorCanFail | src/slagalpha/backtest/replay.py:1077 | a concrete accepted replay with a breakeven of zero whose reflection at 100 is not its mirror image |
| FundingCosts.OpenFractionAt | src/slagalpha/backtest/analytics.py:160-174 | the loop subtracts the fractions of the fills before the settlement, or fails on a missing one |
| FundingCosts.SettleAll | src/slagalpha/backtest/analytics.py:236-284 | the settlement loop: one application for each time, the missing ones in order, and the signed sum; it fails exactly when a fraction is unknown |
| FundingCosts.ApplyFunding | src/slagalpha/backtest/analytics.py:177-308 | the four outcomes of funding: not closed, ZERO, not covered, and settled, where net and net R are reported if and only if every observation is complete; each application is charged in plain numbers and the cash flow is their sum |
| FundingCosts.FractionIsReduced | src/slagalpha/backtest/analytics.py:160-174 | strictly between entry and exit the open fraction is 1 or 1/2 and the one the reducer reads from exactly the events before |
| FundingCosts.FundingUsesOpenPosition | src/slagalpha/backtest/analytics.py:229-284 | on every closed costed replay funding never fails, and the settled total is the signed sum that charges each settlement on the fraction the reducer reads |
| FundingCosts.SettledIsCharged | src/slagalpha/backtest/analytics.py:236-284 | each application carries what was observed at its time, and if that is complete mark times rate times open fraction, negative for LONG and positive for SHORT; the total is their sum |
| FundingCosts.LongNeverReceives | src/slagalpha/backtest/analytics.py:241-266 | with marks and rates not below zero LONG never receives and SHORT never pays |
| FundingCosts.FlippedFunding | src/slagalpha/backtest/analytics.py:241-266 | the same settlements in the other direction move the same money the other way |
| Runner.RunOrdered | src/slagalpha/backtest/runner.py:72-115 | the loop over the ordered cases equals the specified schedule |
| Runner.ReplayCases | src/slagalpha/backtest/runner.py:59-115 | the checks, the sort and the loop equal the specified run |
| Runner.BlocksMeansOpen | src/slagalpha/backtest/runner.py:80-111 | the table blocks a case if and only if an earlier executed trade of its symbol is open at its confirmation |
| Runner.OneActiveTrade | src/slagalpha/backtest/runner.py:59-115 | trades of a symbol never overlap, a case is skipped exactly when an earlier one is still open, and it names that one |
| Runner.ResultsInOrder | src/slagalpha/backtest/runner.py:66-73 | results come by confirmation, then symbol, then signal id |
| Runner.RunIgnoresOrder | src/slagalpha/backtest/runner.py:64-73 | the order in which cases are handed over does not matter |
| Runner.SymbolsAreIndependent | src/slagalpha/backtest/runner.py:59-115 | the results of one symbol are what running only its cases gives |
| Cutting.Boundaries | src/slagalpha/data/binance_usdm_transport.py:256-259 | the loop collects the window's ends and the clipped ends of the requests that overlap it |
| Cutting.CutStretch | src/slagalpha/data/binance_usdm_transport.py:261-275 | the cursor loop cuts a stretch every 1500 minutes, or fails if a piece has no request |
| Cutting.CutWindow | src/slagalpha/data/binance_usdm_transport.py:255-275 | a window is cut unless, and exactly unless, one of its points lies in no request |
| Cutting.CutAll | src/slagalpha/data/binance_usdm_transport.py:242-276 | the whole of `_segments`: every window of every requirement in order |
| Segments.WindowIsCut | src/slagalpha/data/binance_usdm_transport.py:255-275 | the segments of a window abut from its start to its end, are at most 1500 minutes, and a request that overlaps one contains it |
| Segments.TaggedIffGapFree | src/slagalpha/data/binance_usdm_transport.py:265-273 | every segment of a window is tagged if and only if the window has no gap |
| Selection.MergedWindows | src/slagalpha/research/market_data_requirements.py:124-143 | merging gives disjoint, non-adjacent windows that cover exactly what the requests cover, each with the hashes of exactly the requests it holds |
| Selection.RequestInWindow | src/slagalpha/research/market_data_requirements.py:124-143 | every request lies inside a single merged window |
| Selection.TaggedIffContained | src/slagalpha/data/binance_usdm_transport.py:265-273 | in a plan from accepted requests a segment carries a request's hash if and only if the request contains it, and no segment is without one |
| Selection.ChosenTileRequest | src/slagalpha/data/binance_usdm_transport.py:242-276 | the segments that a request contains and that carry its hash tile it |
| Plan.SelectionTiles | src/slagalpha/data/binance_usdm_transport.py:875-896 | whatever the order of the plan, the queries selected for a request cover its closed range without gap or overlap |
| Plan.PlanPassesOverlapCheck | src/slagalpha/data/binance_usdm_transport.py:167-180 | the ranges of a plan never overlap in any role and symbol |
| Plan.OverlapExactly | src/slagalpha/data/binance_usdm_transport.py:167-180 | the comparison of neighbours in the sorted ranges refuses a role and symbol if and only if two of its ranges share a point |
| Plan.CandleLimitIsExact | src/slagalpha/data/binance_usdm_transport.py:187-205 | for minute-aligned requests a candle query asks for exactly its minutes, 1 to 1500 of them |
| Transport.RunsKeepSound | src/slagalpha/data/binance_usdm_transport.py:553-679 | every step of every run keeps the disk sound: entries within the attempts, pending, complete, failed and exhausted entries as their receipts say |
| Transport.CompleteHasReceipt | src/slagalpha/data/binance_usdm_transport.py:640-670 | at every point of every series of interrupted runs a COMPLETE entry has its receipt, with the same attempts |
| Transport.ReceiptEndsRequests | src/slagalpha/data/binance_usdm_transport.py:568-579 | a task with a receipt is never requested again and its receipt never changes |
| Transport.FailureIsFinal | src/slagalpha/data/binance_usdm_transport.py:580-585 | FAILED and EXHAUSTED entries never change and are never requested again |
| Transport.RequestsAreRecorded | src/slagalpha/data/binance_usdm_transport.py:588-626 | recorded attempts never fall, and the requests for a task are exactly those on record, in flight, or lost to a crash while it was in flight |
| Transport.RequestsAreBounded | src/slagalpha/data/binance_usdm_transport.py:588-626 | over all runs the requests for a task are the accounted ones, at most the maximum, and the lost ones; they stay within the maximum if and only if the lost ones fit beside the accounted ones |
| Transport.BoundIsAttained | src/slagalpha/data/binance_usdm_transport.py:588-626 | for every task and every number of lost requests there is a legal log with the maximum and that many more requests |
| Transport.RequestsCanExceed | src/slagalpha/data/binance_usdm_transport.py:588-626 | a task with a maximum of one attempt is requested twice by request, crash, request |
| Transport.LegalJoin | src/slagalpha/data/binance_usdm_transport.py:553-679 | consecutive logs compose: what holds of all legal logs holds of any number of runs |
| TransportRun.Attempt | src/slagalpha/data/binance_usdm_transport.py:588-670 | one attempt, interrupted anywhere, takes only legal steps; it publishes acceptable answers only and records failures as the answer deserves |
| TransportRun.Fetch | src/slagalpha/data/binance_usdm_transport.py:587-670 | the attempts loop ends with a receipt, a recorded failure, or an interruption |
| TransportRun.Run | src/slagalpha/data/binance_usdm_transport.py:523-679 | a run takes only legal steps from any disk; a normal return means every task is complete with its receipt and the checkpoint says so; each error is explained by the disk; a run is interrupted only under a budget of at most 21 steps for each task |
| TransportRun.ErrorsAreFailures | src/slagalpha/data/binance_usdm_transport.py:580-585 | on a disk that runs left behind the only errors are a failed or a previously failed task |
| TransportRun.AnswersAreTreated | src/slagalpha/data/binance_usdm_transport.py:588-626 | every receipt of a run is of a 200 answer of bounded size and items, and every failure is recorded as FAILED, EXHAUSTED or PENDING as its status and the attempts say |
| Universe.LastEvictable | src/slagalpha/data/universe.py:447-452 | the search from the end finds the last member that is not fixed, and always succeeds at the target |
| Universe.SelectUniverse | src/slagalpha/data/universe.py:437-464 | ranking, cut and forced replacement give the declared selection in rank order, with the forced symbols |
| Universe.SelectionIsUnique | src/slagalpha/data/universe.py:437-464 | the declared selection is one list, whatever the order of the candidates |
| Universe.TopExactly | src/slagalpha/data/universe.py:437-440 | ranking alone chooses exactly the candidates with fewer than 30 ahead of them in volume, or in symbol at the same volume |
| Screening.ScreenAll | src/slagalpha/data/universe.py:329-435 | every symbol becomes a candidate or is blocked by its first failing check, with the evidence cited; several effective entries stop the selection |
| Screening.VerdictOfOne | src/slagalpha/data/universe.py:340-435 | with one registry entry in force the verdict is eligible, with its volume and references, if and only if the entry qualifies for 90 days, no exclusion is in force, all four intervals have a hash and the window has a volume; otherwise the first of these that fails, with what it cites |
| Screening.VerdictOtherwise | src/slagalpha/data/universe.py:330-350 | outside blocks come first, no entry in force is ineligible, several are ambiguous |
| Basics.TextLeqExactly | src/slagalpha/data/universe.py:437-437 | text is ordered by its first different character, and a prefix precedes what extends it |
| Screening.BuildUniverse | src/slagalpha/data/universe.py:301-477 | members are the declared selection of the screened symbols, ranked 1, 2, 3 and so on, with their references, and forced if and only if they rank below the cut; the blocked symbols are exactly the barred ones |
| Screening.UniverseIsOne | src/slagalpha/data/universe.py:301-477 | the declared universe is one list, members, ranks, flags and references, whatever the order of the names |
| Screening.UniverseRanks | src/slagalpha/data/universe.py:437-477 | in volumes and symbols: members descend by volume, then symbol; no eligible symbol left out ranks ahead of a member that is not fixed; a member is forced if and only if 30 eligible symbols rank ahead of it |
| Screening.MembersAreNotBlocked | src/slagalpha/data/universe.py:329-435 | no symbol is both eligible and blocked |
| Screening.ScreeningIgnoresOrder | src/slagalpha/data/universe.py:318-325 | the screened lists do not depend on the order of the names |
| RankingWindow.WindowRows | src/slagalpha/data/universe.py:147-176 | the rows of the window are kept unless one of them is invalid, or any row has no readable opening time |
| RankingWindow.IndexRows | src/slagalpha/data/universe.py:178-183 | the dictionary is built unless two different rows share a time |
| RankingWindow.SumSlots | src/slagalpha/data/universe.py:192-208 | the volume of the slots is added up unless a row does not close with its slot |
| RankingWindow.WindowVolume | src/slagalpha/data/universe.py:132-208 | the volume or the reason, as declared about the set of rows |
| RankingWindow.VolumeIgnoresOrder | src/slagalpha/data/universe.py:132-208 | neither the order of the rows nor exact repetitions change the outcome |
| Intervals.IntervalUnion | scripts/p9_sensitivity_phase1.py:123-132 | the union is sorted, strictly separated, without empty intervals, and has exactly the points of its input |
| Intervals.SubtractInterval | scripts/p9_sensitivity_phase1.py:135-150 | the difference is sorted, disjoint, without empty intervals, and has exactly the uncovered points of the range |
| Intervals.SeparatedIsCanonical | scripts/p9_sensitivity_phase1.py:123-132 | there is one separated list for each set of points, so neither order nor cuts of the input matter |

## Left out

- HTTP, files, fsync, staging, the content-addressed cache and the validation of receipt blobs: a receipt is one atomic publication and the checkpoint one atomic replacement; the server's answers, one for each attempt, are an arbitrary function.
- SHA-256, manifests and pydantic or pandas validation: hashes are labels, an event id is the record of its digested fields, and validated facts (UTC, the minute grid, ordered plan prices) are preconditions.
- Decimal precision and text: prices and rates are exact reals; the formatted summaries are not modelled.
- Integer milliseconds stand for datetimes; microseconds below a millisecond are not represented.
- Aggregate trades carry no quantity, because no replay rule reads it; the error for a batch whose close differs from its candle's has no counterpart, because a batch has one minute by construction.
- The candle order of one run is modelled as a sequence on the grid that `validate_replay_candles` accepts; its separate error messages are one error.
- `calculate_excursions`, `_candidate_requests` and `_candidate_report`: records rebuilt around formulas of which only the window's end is modelled.
- Guard queries of the funding history around a window: they enter as arbitrary tasks of the guard roles.
- Indicators, triggers, take-profit evaluation, replay preparation, coverage reports, configuration and the command line.
- Runner.ReplayCases: the replay of a single case is the specification of `replay_with_costs`; its result is taken as a value, and the scheduling lemmas hold for any replayer.
- Screening.ScreenAll: the window volume enters as the outcome that `RankingWindow.WindowVolume` computes.
- TransportRun.Run: the approval and path checks in front of a run, the clock check and the pauses between attempts are not modelled, and the steps of a run are counted by a budget that an interruption exhausts.
