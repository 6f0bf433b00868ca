# A model of the backtest and signal engine

This project models, in Dafny, the parts of the repository that decide what a
backtest reports, and proves what they keep over whole runs.

Prices are `real`, times are integer milliseconds, and a candle exists only if its
OHLC values are consistent (`app/events/models.py:25-39`).  A call that may raise
returns a `Result`.  Objects the source mutates are classes with the same fields;
each of their methods is proved against a specification function, and the laws are
proved about that function.

## Parts

* **Exit simulator** (`Exits`, `ExitEngine`, `ExitSymmetry`, `ExitBounds`,
  `ExitLimits`, `ExitProgress`, `ExitPessimism`, `ExitMeaning`).  A trade waits in its
  entry zone, fills legs, may move its stop and closes at a stop, at its last target, at
  the time stop or at the end of the data.  `Step` is written without the loops of the source; the mutable
  engine keeps them, including the lookup of a leg by value in the middle of the loop.
* **Two drivers** (`Backtest`, `BacktestAgreement`, `AgreementLaw`, `BacktestDrivers`,
  `Sorting`, `Bisect`, `Costs`, `AuditMeaning`).  The online runner carries all pending
  trades through one pass and stops at the first trade that cannot be priced; the offline simulator
  replays each plan alone.
* **Signal pipeline** (`CandleStore`, `Swings`, `Structure`, `Csd`, `Retest`, `Risk`,
  `Strategy`, `StrategyEngine`, `EngineRetest`, `EngineSymbols`, `StoreMeaning`,
  `SwingMeaning`, `BreakMeaning`, `RetestMeaning`, `SignalMeaning`).  Indicators and
  scoring are arbitrary functions here.
* **Both together** (`EngineBacktest`): the real strategy inside the real backtest.
* **Indicators and scoring** (`Indicators`, `Scoring`, `IndicatorMeaning`,
  `ScoringMeaning`).
* **Research orchestration** (`Checkpoints`, `Baselines`, `WalkForward`,
  `WalkForwardRuns`, `WalkForwardMeaning`).
* **Performance figures** (`Metrics`, `Buckets`, `MonteCarlo`, `CostStress`,
  `StressMeaning`, `FigureMeaning`).
* **Paging** (`Pagination`).

The modules named `...Meaning` say what the results of the others are in prices, times,
percentages and counts, without the functions that compute them.

## Where a promise fails, and exactly when it holds

* Loss of at most 1 R, gain of at most the sum of all targets, gain of at most the
  best excursion: settings do not bound `breakeven_offset_r`
  (`app/config/settings.py:312`).  `InitialRiskLaw`, `AllTargetsLaw` and
  `BestExcursionLaw` give the condition on the policy for each; the lower limit by the
  worst excursion always holds.
* The stop of a trade never loosens if and only if its moved place is at least -1 R, or
  no open trade can stand behind it (`StopNeverLoosens`).
* Booking an ambiguous candle at the stop pays no more than filling the targets first if
  and only if no price level of the policy books more than a higher one
  (`StopFirstLaw`); an offset between -1 R and the smallest target is enough.
* Resolution within 2N candles needs a time stop; the bound is exact
  (`ResolutionBound`).
* Gating confirmed swings equals cutting the series, whatever the prices, if and only if
  no place has its confirmation time before the bars that decide it, as a missing bar
  brings about (`TimesDecideGating`, `GapLetsPivotLeak`).
* The online runner and the offline simulator agree on every setup, strategy and plan if
  and only if no two closed candles of one series open at the same time
  (`AgreementIsUniqueness`), as the candle store and the paging loop deliver them.
* The checkpoint module calls its state identity-bound, but only the run id names the
  directory (`app/backtest/research_checkpoints.py:50`).  With stops between the two
  file operations a load is exact if and only if processes of one run id compute the
  same values; without such stops, if and only if processes of one identity do.
* The replay cache is invisible if and only if equal keys stand for equal results.
* Walk-forward windows as long as their step tile for every length, never overlap, and
  make the two aggregations agree for every length, if and only if the start is no
  later than the 28th of a month.  At the default six, two and two months, the only
  lengths any call uses, the 29th and 30th of January, March, May, July, September and
  November are safe as well, and no other late day is (`DefaultTiling`,
  `DefaultAgreement`).
* `_add_months` keeps the order of two dates except when clamping puts them on one day
  with swapped times of day (`AddMonthsMonotone`).
* Scoring never raises if and only if `volume_ratio_minimum` is 0 or at least 1;
  settings accept every non-negative value.
* Totals stay within ten points if and only if the weights add up to at most twelve;
  settings only require them to be positive.

## Model

| member | source | states |
|---|---|---|
| `ExitEngine.ExitPolicyEngine.OpenNew` | app/backtest/exits.py:57-61 | a new trade object whose fields are those of a waiting trade with every leg unfilled |
| `ExitEngine.SortedHitsAreFillOrder` | app/backtest/exits.py:95 | the sorted list of hit legs contains each hit leg exactly once, in ascending target order |
| `ExitEngine.IndexInsideTheLoop` | app/backtest/exits.py:99 | looking a leg up by value in the middle of the fill loop finds the place it would find after all fills, for any legs, equal ones included |
| `ExitEngine.AllHitsFilled` | app/backtest/exits.py:95-103 | the loop over sorted hits fills exactly the hit legs and moves the stop exactly when one of them is late enough in the list |
| `ExitEngine.ExitPolicyEngine.FillInOrder` | app/backtest/exits.py:95-103 | the loop leaves the trade as if all hit legs had filled at once: legs, remaining size and stop |
| `ExitEngine.ExitPolicyEngine.RecordExcursion` | app/backtest/exits.py:76-84 | one more bar and the running best and worst excursion in units of initial risk |
| `ExitEngine.ExitPolicyEngine.ManageBar` | app/backtest/exits.py:76-117 | a bar of an open trade: stop first on an ambiguous candle, then fills, then last target or time stop |
| `ExitEngine.ExitPolicyEngine.ResolveBar` | app/backtest/exits.py:104-117 | after the fills the trade closes at its last listed target, at the time stop, or stays open |
| `ExitEngine.ExitPolicyEngine.StopOut` | app/backtest/exits.py:137-146 | closes at the current stop and tells a stop after partial fills from a plain stop |
| `ExitEngine.ExitPolicyEngine.Advance` | app/backtest/exits.py:63-117 | one candle changes the trade object exactly as the loop-free step function says, in every state |
| `ExitEngine.ExitPolicyEngine.CloseAtEndOfData` | app/backtest/exits.py:119-126 | an open trade closes at the last close, any other trade is untouched |
| `ExitSymmetry.StepMoves` | app/backtest/exits.py:63-117 | one step commutes with any price map p to a*p+b with a non-zero, mirroring sides and candle extremes when a is negative |
| `ExitSymmetry.ReplayMoves` | app/backtest/exits.py:63-117 | whole runs commute with the price map: state, bars, fills, reason and excursions are equal, prices are mapped |
| `ExitSymmetry.EndMoves` | app/backtest/exits.py:119-126 | closing at the end of the data commutes with the price map |
| `ExitSymmetry.GrossMoves` | app/backtest/exits.py:149-160 | gross R, and whether it raises, is the same for a mapped trade |
| `ExitBounds.Normalise` | app/backtest/exits.py:63-160 | every well-posed run, long or short, is a long run with entry 0 and risk 1 that has the same state, excursions and gross R |
| `ExitLimits.GrossAtLeastWorstExcursion` | app/backtest/exits.py:76-160 | every closed trade of every run has a gross R, and it is at least the worst excursion |
| `ExitLimits.InitialRiskLaw` | app/backtest/exits.py:95-160 | no run ever loses more than 1 R if and only if no stop moved after a partial fill gives back more than that |
| `ExitLimits.AllTargetsLaw` | app/backtest/exits.py:95-160 | no run ever earns more than the sum of all targets by size if and only if no moved stop pays more than that |
| `ExitLimits.BestExcursionLaw` | app/backtest/exits.py:95-160 | gross R never exceeds the best excursion if and only if no moved stop pays more than the target that moved it |
| `ExitLimits.ModestOffsetIsSafe` | app/config/settings.py:302-312 | an offset between -1 and the smallest target gives all three limits |
| `ExitProgress.OpenTradeIsItsLevel` | app/backtest/exits.py:63-117 | in every reachable open state the filled legs are exactly those at or below the best excursion, some size remains, and the stop has one of two values fixed by it |
| `ExitProgress.SizeIsConserved` | app/backtest/exits.py:95-103 | in every reachable state filled and remaining size make 100, and nothing remains if and only if every leg is filled |
| `ExitProgress.StopNeverLoosens` | app/backtest/exits.py:100-103 | on every run the stop of an unresolved trade only tightens if and only if the offset is at least -1, the time stop is one bar, or no target leaves a part behind the moved stop |
| `ExitProgress.EntryAtReference` | app/backtest/exits.py:67-74 | a trade that waits is unchanged but for its bar count, and any entry is at the reference price |
| `ExitProgress.TerminalIsAbsorbing` | app/backtest/exits.py:64-65 | a closed or expired trade is unchanged by any further candles |
| `ExitProgress.BarsAreCounted` | app/backtest/exits.py:66-76 | while a trade is unresolved its waiting bars and its open bars stay within the time stop |
| `ExitProgress.ResolutionBound` | app/backtest/exits.py:66-117 | every trade is resolved after k candles if and only if a time stop N is set and k is at least 2N |
| `ExitMeaning.EntryMeaning` | app/backtest/exits.py:66-74 | a run has entered if and only if some candle it still waited for overlaps the zone; the first such candle dates the entry at the reference price; otherwise it has expired if and only if more candles than the time stop have passed |
| `ExitMeaning.ExcursionMeaning` | app/backtest/exits.py:76-84 | from its entry on a trade counts every candle until it closes, and its excursions are the extremes over exactly those candles in initial risks |
| `ExitMeaning.CandleMeaning` | app/backtest/exits.py:85-117 | after any run the next candle ends or keeps a trade by its extremes against the stop, the targets and the time stop in initial risks, with that reason, resolution and exit price |
| `ExitMeaning.ClosingMeaning` | app/backtest/exits.py:85-117 | every closed trade of every run was ended by the last candle it counts, in the way that candle and the best excursion before it demand |
| `ExitMeaning.FillMeaning` | app/backtest/exits.py:95-98 | each filled leg names the first candle, counted from the entry, that reached its target |
| `ExitMeaning.ResultMeaning` | app/backtest/exits.py:149-160 | the R of a closed trade: the targets at or below the filled level pay their share, the rest leaves at the exit price |
| `ExitPessimism.StopIsFirst` | app/backtest/exits.py:85-90 | a step over an ambiguous candle closes the trade, marked as same-candle, with the R of its stop before any fill |
| `ExitPessimism.StopFirstLaw` | app/backtest/exits.py:85-93 | on every run, entry candles included, booking an ambiguous candle at the stop pays no more than filling the targets first if and only if no level of the policy books more than a higher one |
| `ExitPessimism.StopFirstIsPessimistic` | app/backtest/exits.py:85-93 | under that condition the comparison holds on any candle after any run, ambiguous or not |
| `ExitPessimism.ModestOffsetBooksMore` | app/config/settings.py:302-312 | an offset between -1 and the smallest target meets the condition |
| `Costs.BreakdownDefined` | app/backtest/costs.py:50-67 | exactly when a trade can be priced: positive entry, stop elsewhere, and no historical funding over a positive time |
| `AuditMeaning.CostMeans` | app/backtest/costs.py:50-67 | the cost in R times the risk in percent of the entry is what the trade pays in percent of its notional |
| `Sorting.FilterCommutesWithSort` | app/backtest/phase9.py:183-188 | choosing a series and then sorting gives the same list as sorting and then choosing, ties included |
| `Bisect.BisectRight` | app/backtest/phase9.py:202-204 | the cut is behind every time at or before the signal and in front of every later one |
| `BacktestAgreement.PendingIsUnfinished` | app/backtest_runner.py:90-103 | at every candle the pending list is exactly the plans so far whose own replay has not ended, in order |
| `BacktestAgreement.SavedIsBooked` | app/backtest_runner.py:95-103 | at every candle a plan has been saved exactly if its own replay is closed, with that replay's audit, once |
| `BacktestAgreement.SameCandles` | app/backtest/phase9.py:197-205 | the candles the runner feeds a plan are the slice the binary search cuts for it |
| `BacktestAgreement.OnlineEqualsOffline` | app/backtest/phase9.py:192-233 | for every strategy and history with unique open times, each plan is persisted online exactly as the simulator returns it, once, or not at all when it returns nothing, and no other audit exists |
| `BacktestAgreement.RunFailsWithSimulator` | app/backtest_runner.py:110-119 | the run raises if and only if simulating some plan raises, with an error of such a plan; otherwise its whole log is persisted, and of any plan never more than its log |
| `AuditMeaning.AuditMeans` | app/backtest/phase9.py:208-233 | every priced outcome of a plan: entry and exit times, excursions, level of fills and gross R from the candles; two fees, two slippages and the funding in percent; the stop slippage exactly when it left at its stop; net is gross less costs |
| `AuditMeaning.PersistedMeans` | app/backtest_runner.py:110-132 | the same for every audit the online runner persists, over the candles of its series behind its signal |
| `AgreementLaw.AgreementIsUniqueness` | app/backtest/phase9.py:202-205 | the two drivers agree on every setup, strategy and plan over a history if and only if no two of its closed candles share series and open time |
| `AgreementLaw.TwinsDisagree` | app/backtest/phase9.py:202-205 | with such a pair anywhere in a history the two drivers disagree on some setup and plan |
| `BacktestDrivers.HistoricalBacktestRunner.Run` | app/backtest_runner.py:38-108 | appends to what was saved the audits of the online specification up to the first trade that cannot be priced, and raises its error if there is one |
| `BacktestDrivers.HistoricalBacktestRunner.ReplayCandles` | app/backtest_runner.py:88-103 | after the outer loop the pending records hold the pending trades of the specification, saved audits match, and the last candle of each series is known; an error ends it with what was saved before |
| `BacktestDrivers.HistoricalBacktestRunner.AdvanceAll` | app/backtest_runner.py:95-103 | the loop over a copy of the list leaves the survivors in order and saves what closed, although it removes from the list it copied, or stops at the first trade that cannot be priced |
| `BacktestDrivers.HistoricalBacktestRunner.Remove` | app/backtest_runner.py:101-103 | removal by value drops the record at hand when no earlier record has equal fields |
| `BacktestDrivers.HistoricalBacktestRunner.Capture` | app/backtest_runner.py:56-68 | each plan of a candle opens one fresh pending trade, in order |
| `BacktestDrivers.HistoricalBacktestRunner.CloseOut` | app/backtest_runner.py:104-107 | trades still open close at the last candle of their series and are saved up to the first that cannot be priced, waiting ones are not |
| `BacktestDrivers.CanonicalTradeSimulator.Prepare` | app/backtest/phase9.py:182-190 | groups hold each series' closed candles in open-time order, with their times beside them |
| `BacktestDrivers.CanonicalTradeSimulator.Simulate` | app/backtest/phase9.py:192-233 | returns the offline result for any plan, whether its series was prepared or not |
| `CandleStore.CandleStore.AddCandle` | app/data/candles.py:18-29 | updates the plain dictionary, keeps each key list strictly sorted and equal to the dictionary's keys, and says whether data changed |
| `CandleStore.CandleStore.GetLatest` | app/data/candles.py:31-34 | the candle with the largest open time, or nothing for an empty series |
| `CandleStore.CandleStore.GetRecent` | app/data/candles.py:39-42 | the newest `limit` candles in order; a limit of 0 gives all candles of the series in order |
| `CandleStore.CandleStore.GetRecentAsOf` | app/data/candles.py:44-49 | the bisect query equals the reference scan: the last `limit` of the sorted open times at or before the time asked for |
| `CandleStore.CandleStore.GetRange` | app/data/candles.py:51-56 | the bisect query equals the reference scan of a closed range, empty when it is inverted |
| `CandleStore.ReadsAgree` | app/data/candles.py:44-49 | two stores that agree up to a time answer every as-of read at that time alike |
| `CandleStore.ReadsAscend` | app/data/candles.py:44-49 | an as-of read ascends strictly in open time and holds nothing that opens later |
| `StoreMeaning.RecentMeans` | app/data/candles.py:44-49 | an as-of read returns a stored candle if and only if it opens by then and fewer than `limit` stored candles open behind it by then |
| `StoreMeaning.RangeMeans` | app/data/candles.py:51-56 | a range read returns exactly the stored candles that open in the closed range |
| `StoreMeaning.RangeAscends` | app/data/candles.py:51-56 | and in ascending order |
| `CandleStore.BookHolds` | app/data/candles.py:18-29 | after any sequence of distinct insertions the dictionary holds exactly those candles |
| `CandleStore.LaterCandlesInvisible` | app/data/candles.py:44-49 | at its own turn a candle sees the same past whether or not later candles are already stored |
| `Swings.SwingDetector.Detect` | app/structure/swings.py:35-46 | the loop finds exactly the strict highs and lows of their windows among the ordered closed candles, in time order, each with its confirmation time |
| `Swings.SwingStore.GetSwings` | app/structure/swing_store.py:9-11 | exactly the stored swings confirmed by the time asked for |
| `SwingMeaning.DetectionMeans` | app/structure/swings.py:35-46 | a point is detected if and only if its bar is strictly beyond every other bar of its window, confirmed so many bar lengths behind its close |
| `SwingMeaning.SeriesMeans` | app/structure/swings.py:35-46 | the bars looked at are the closed candles, in order of their open times |
| `SwingMeaning.GateMeans` | app/structure/swing_store.py:9-11 | the gate shows a detected point if and only if it is confirmed by then |
| `Swings.GatingIsTruncation` | app/structure/swing_store.py:9-11 | reading the full detection through the gate at a bar equals detecting on the series cut there if and only if no later-decided pivot claims to be confirmed already |
| `Swings.TimesDecideGating` | app/structure/swing_store.py:9-11 | for all prices at given times the two are equal if and only if no place beyond the bar has its confirmation time up to the bar |
| `Swings.ContiguousGatingIsTruncation` | app/structure/swings.py:35-46 | without missing bars the two are always equal, order included |
| `Swings.GapLetsPivotLeak` | app/structure/swings.py:45 | one missing bar lets the gate show a pivot before its window is complete |
| `Swings.GateAfterReadIsIdle` | app/strategy/csd_strategy.py:111-112 | after an as-of read the gate removes nothing, gaps or not |
| `Structure.MarketStructureEngine.Evaluate` | app/structure/market_structure.py:27-42 | each swing is compared with the nearest earlier swing of its type; swings of another series raise |
| `BreakMeaning.ClassificationMeans` | app/structure/market_structure.py:33-40 | higher or lower high or low by price against the nearest earlier swing of the type, equal prices counting as lower |
| `Structure.GatedClassificationIsPrefix` | app/strategy/csd_strategy.py:111-112 | what the gate shows at any time is classified as a prefix of the full classification |
| `Structure.GatedClassificationIsTruncated` | app/strategy/csd_strategy.py:111-112 | without missing bars it is the classification of the series cut at that bar |
| `Structure.ClassificationIsCausal` | app/structure/market_structure.py:27-42 | classifying a prefix gives the prefix of the full classification |
| `Structure.PivotsInOrder` | app/structure/market_structure.py:30 | detection already lists the swings in the order the classification sorts them into |
| `Csd.LatestSwing` | app/structure/csd.py:53-56 | a matching swing that no other matching swing is newer than, or nothing when none matches |
| `Csd.Detection` | app/structure/csd.py:41-69 | an emission is new to the emitted set, enters it, and nothing else changes the set |
| `Csd.CSDEngine.Evaluate` | app/structure/csd.py:41-51 | the mutable engine emits and remembers exactly what the detection function says |
| `Csd.CSDEngine.Emit` | app/structure/csd.py:58-69 | emits once per broken swing and only when the break is far enough by the chosen method |
| `BreakMeaning.LatestIsNewest` | app/structure/csd.py:53-56 | the swing tested is the first of the newest ones of its series, type and classification |
| `BreakMeaning.EmissionMeans` | app/structure/csd.py:41-69 | a closed candle emits a break if and only if it closes beyond the newest lower high, or else beyond the newest higher low, far enough in prices, for a swing not emitted before |
| `BreakMeaning.ReportedDistances` | app/structure/csd.py:59-60 | the distances reported, in percent of the swing and in average ranges |
| `BreakMeaning.EngineBreakMeans` | app/strategy/csd_strategy.py:96-114 | the break of an event in the engine, over the structure of the last 500 bars up to its candle |
| `Retest.Started` | app/strategy/breakout.py:43-52 | a new setup waits, its zone surrounds the broken level evenly, and its quality lies in [0, 1] |
| `Retest.BreakoutEngine.Start` | app/strategy/breakout.py:43-52 | replaces the setup of its series and no other |
| `Retest.BreakoutEngine.Resolve` | app/strategy/breakout.py:57-64 | overwrites status and reason of a known setup, and nothing for an unknown one |
| `Retest.BreakoutEngine.Advance` | app/strategy/breakout.py:66-75 | one more bar for a waiting setup, expiry past the window, no change otherwise |
| `Retest.RetestEngine.Evaluate` | app/strategy/retest.py:27-58 | over the shared table the machine does exactly one step of the tracked setup and reports it only when it is resolved |
| `Retest.StillPending` | app/strategy/retest.py:27-58 | a setup still waits after a run if and only if the window is not over and no candle closed on the wrong side or qualified |
| `Retest.DecisionIsFinal` | app/strategy/retest.py:31-32 | a resolved setup is unchanged by every later candle |
| `Retest.ResolvedAt` | app/strategy/retest.py:33-58 | candle j resolves the setup as retested, invalidated or expired if and only if it is the first to decide, with the matching reason |
| `Retest.RetestMachineMeaning` | app/strategy/retest.py:27-58 | after any run each of the four statuses holds if and only if the candles say so |
| `EngineRetest.SetupIsTracked` | app/strategy/csd_strategy.py:102-117 | over any events without a new break of its series the setup of the engine is what the retest machine alone makes of the candles of that series |
| `EngineRetest.ReportedAtDecision` | app/strategy/csd_strategy.py:102-110 | unless only immediate entries are on, the engine reports the retest on exactly the candle that first decides the setup, if it qualifies within the window, even when that candle breaks the next swing |
| `EngineRetest.BreakIsRetested` | app/strategy/csd_strategy.py:102-117 | in a whole run an emitted break that no newer break replaces is reported as retested if and only if retest entries are on and the first deciding candle of its series within the window is a qualifying retest |
| `RetestMeaning.DecisionMeans` | app/strategy/retest.py:27-58 | on which candle a fresh setup resolves and how, in prices: a retest touches the zone of so many percent around the broken price and closes strictly beyond it, a failure closes strictly on the other side |
| `RetestMeaning.StatusMeans` | app/strategy/retest.py:27-58 | the four statuses after any run, in prices |
| `RetestMeaning.RetestReportMeans` | app/strategy/csd_strategy.py:102-117 | the report of a retest in a whole run, in prices |
| `RetestMeaning.BreakGradeMeans` | app/strategy/breakout.py:46-48 | the grade of a break: its close beyond the level in percent over the saturation, at most 1 |
| `RetestMeaning.RejectionMeans` | app/strategy/retest.py:52-57 | the grade of a retest: where in its range the candle closed, 0 without a range |
| `BreakMeaning.ImmediateMeans` | app/strategy/csd_strategy.py:115-123 | a candle reports an immediate entry if and only if it emits a break and not only retest entries are on |
| `SignalMeaning.ReportsMean` | app/strategy/csd_strategy.py:130-166 | every report is judged by the indicators of the last 500 candles up to its own, those of the other timeframes so far, the saturated distance of the break and the close of the retest, and has the plan of its setup if and only if it is eligible and not refused |
| `SignalMeaning.KnownIndicators` | app/strategy/csd_strategy.py:96-101 | what the engine knows of a series at any time are the indicators of the last event of that series |
| `Risk.PlanIsTradable` | app/strategy/risk.py:37-56 | a plan that is not refused has positive risk, its entry inside the zone at a positive price, and targets at one, two and three risks |
| `Risk.StopMeans` | app/strategy/risk.py:42-53 | the stop lies the buffer in percent behind the further extreme of both candles; a plan is refused if and only if that is not beyond the level |
| `Strategy.NoDuplicateSignals` | app/signals/models.py:16-19 | no run, on any candles, stores and analytics and in any entry mode, produces one signal id twice |
| `SignalMeaning.NoTwoAlike` | app/signals/models.py:16-19 | no two reports of a run agree in series, direction, time and price of the broken swing and kind of entry |
| `Strategy.StepIsCausal` | app/strategy/csd_strategy.py:95-128 | stores that agree up to the open time of the event give equal states and outputs |
| `Strategy.RunIsCausal` | app/strategy/csd_strategy.py:95-128 | the same holds for whole runs |
| `Strategy.FutureIsInvisible` | app/strategy/csd_strategy.py:96 | a run over a store that already holds every later candle equals the run over a growing store |
| `Strategy.TruncationIsPrefix` | app/backtest_runner.py:88-92 | cutting the history gives a prefix of the signals |
| `EngineSymbols.SymbolsAreIndependent` | app/strategy/csd_strategy.py:95-170 | the reports and the state of one symbol in a run over many are those of a run over the candles of that symbol alone, on any candles |
| `StrategyEngine.GatedIsOneSeries` | app/structure/market_structure.py:31-32 | what the gate shows of candles of one series never makes the classification raise |
| `StrategyEngine.CSDStrategyEngine.OnCandleClosed` | app/strategy/csd_strategy.py:95-170 | the engine with its shared parts changes state and reports exactly as the candle specification: retest first, then detection, gate, classification, break and immediate entry |
| `StrategyEngine.CSDStrategyEngine.StructureOf` | app/strategy/csd_strategy.py:111-112 | the structure handed to the break detection is the classification of the gated detection, and never raises |
| `EngineBacktest.ReplayEngine` | app/backtest_runner.py:90-92 | storing and handling candle after candle reports exactly the signals of the run specification |
| `EngineBacktest.CandleTradable` | app/strategy/csd_strategy.py:158-166 | every plan the engine hands over belongs to the series of its candle, is well-posed at a positive price and has its stop beyond both candles; without a buffer an eligible setup goes without a plan if and only if neither candle reaches beyond the level |
| `EngineBacktest.PlansMean` | app/strategy/csd_strategy.py:162-170 | reports hand over their plans in order, each with its series and prices, and nothing else |
| `EngineBacktest.EngineOnlineEqualsOffline` | app/backtest/phase9.py:133-169 | the agreement of the two drivers holds for the strategy engine itself |
| `EngineBacktest.EngineAuditsWithinLimits` | app/backtest_runner.py:110-132 | every audit a backtest of the engine persists is priced, keeps the limits its policy guarantees, and nets no more than its gross |
| `EngineBacktest.EngineRunCompletes` | app/backtest_runner.py:95-108 | without historical funding no backtest of the engine is ended by a trade that cannot be priced |
| `EngineBacktest.EngineNeverRaises` | app/strategy/csd_strategy.py:130-149 | with an admissible volume threshold no assessment of any run is refused by the scoring |
| `Indicators.EmaBetween` | app/indicators/engine.py:63-69 | an exponential average stays between the limits of its inputs |
| `Indicators.EmaSeriesLoop` | app/indicators/engine.py:131-139 | the series loop gives the average of every prefix |
| `Indicators.SeriesEndsInEma` | app/indicators/engine.py:63-69 | the two implementations of the average agree |
| `Indicators.MacdLoop` | app/indicators/engine.py:114-121 | line, signal and histogram as differences of plain averages |
| `Indicators.RsiFrom` | app/indicators/engine.py:110-112 | the index lies in [0, 100], is 100 exactly without losses but with gains, and 0 exactly without gains but with losses |
| `Indicators.RsiLoop` | app/indicators/engine.py:98-112 | the joint smoothing loop gives the index of the two smoothed averages |
| `Indicators.AtrLoop` | app/indicators/engine.py:78-96 | the loop smooths the true ranges of the closed candles |
| `Indicators.CalculatedIsSane` | app/indicators/engine.py:49-61 | on positive prices averages are positive, the index is in range, volume ratio and true range are not negative |
| `IndicatorMeaning.EmaMeans` | app/indicators/engine.py:63-69 | the average starts at the first value and moves by 2 / (period + 1) of each distance |
| `IndicatorMeaning.SmoothedMeans` | app/indicators/engine.py:78-112 | the average starts at the mean of the first values and moves by 1 / period of each distance |
| `IndicatorMeaning.MovesMean` | app/indicators/engine.py:98-104 | a rise is a gain and a fall a loss, by its size, never both |
| `IndicatorMeaning.RsiMeans` | app/indicators/engine.py:98-112 | the share of the average gain in both averages, in percent, 50 when nothing moved, there from 15 closes on |
| `IndicatorMeaning.TrueRangeMeans` | app/indicators/engine.py:78-90 | the range that spans a candle and the close before it |
| `IndicatorMeaning.MacdMeans` | app/indicators/engine.py:114-121 | the 12 and 26 averages, the 9 average of their differences, and the distance |
| `IndicatorMeaning.VolumeMeans` | app/indicators/engine.py:49-61 | the last volume over the mean of the last twenty |
| `IndicatorMeaning.IndicatorsMean` | app/indicators/engine.py:49-61 | closed candles only, and each value there exactly when there are enough of them |
| `Scoring.OthersAreUnit` | app/strategy/confirmation.py:37-69 | of sane indicators every quality but the volume lies in [0, 1] |
| `Scoring.VolumeIsUnit` | app/strategy/confirmation.py:51 | the volume quality lies in [0, 1] unless the ratio passes a positive threshold below one while being below one |
| `Scoring.ScoredWhen` | app/strategy/scoring.py:60-80 | exactly when sane indicators can be scored |
| `Scoring.ScoringNeverRaises` | app/strategy/scoring.py:67-68 | no candle history makes scoring raise if and only if the volume threshold is 0 or at least 1 |
| `Scoring.TotalInScale` | app/strategy/scoring.py:69-71 | totals stay in [0, 10] if and only if the weights add up to at most 12 |
| `ScoringMeaning.EmaMeans` | app/strategy/confirmation.py:61-69 | the averages over 10 and 50 in the order of the direction, graded by their distance in percent |
| `ScoringMeaning.RsiMeans` | app/strategy/confirmation.py:48-49 | strength beyond the threshold of the direction, by its distance from 50 |
| `ScoringMeaning.MacdMeans` | app/strategy/confirmation.py:70-80 | a histogram not against the direction, graded in percent of the 50 average |
| `ScoringMeaning.VolumeMeans` | app/strategy/confirmation.py:51 | volume from the threshold on, by its excess over the average |
| `ScoringMeaning.HigherMeans` | app/strategy/confirmation.py:40-52 | the share of higher timeframes whose averages are known and not against the direction |
| `ScoringMeaning.ScoreMeans` | app/strategy/scoring.py:60-80 | ten twelfths of the weighted qualities, in bands that start at 3, 5 and 7.5 |
| `ScoringMeaning.EligibleMeans` | app/strategy/csd_strategy.py:155-156 | eligible if and only if all qualities lie in [0, 1] and the score reaches five points |
| `ScoringMeaning.AnalyticsMean` | app/strategy/csd_strategy.py:98-114 | the engine runs with these indicators, and with the average range among them |
| `Checkpoints.ResearchCheckpointStore.constructor` | app/backtest/research_checkpoints.py:47-56 | a restart empties the directory of its run and leaves every other file |
| `Checkpoints.ResearchCheckpointStore.Load` | app/backtest/research_checkpoints.py:62-77 | a resumed store returns the payload whose manifest names its identity, a new one nothing |
| `Checkpoints.ResearchCheckpointStore.Save` | app/backtest/research_checkpoints.py:79-90 | replaces payload and manifest of one unit and nothing else |
| `Checkpoints.SaveIsLoaded` | app/backtest/research_checkpoints.py:62-90 | a completed save is what the same identity loads, and no other load changes |
| `Checkpoints.CrashSafety` | app/backtest/research_checkpoints.py:79-90 | over every sequence of starts, restarts, stops between file operations and saves, loads are exact if and only if processes of one run id compute the same values |
| `Checkpoints.TidySafety` | app/backtest/research_checkpoints.py:70-73 | when no process stops between the two files, loads are exact if and only if processes of one identity compute the same values |
| `Baselines.ResearchReplayCache.GetOrCompute` | app/backtest/research_cache.py:31-38 | answers from the table or computes and remembers, counting one hit or one miss |
| `Baselines.CacheIsTransparent` | app/backtest/research_cache.py:31-38 | a sequence of requests is answered as without the table if and only if equal keys stand for equal results |
| `Baselines.UnifiedResearchOrchestrator.Gather` | app/backtest/research_orchestrator.py:198-223 | the first pass collects right results from checkpoints and cache, saves the cached ones, and leaves exactly the unknown symbols pending |
| `Baselines.UnifiedResearchOrchestrator.Drain` | app/backtest/research_orchestrator.py:231-248 | for every completion order the second pass ends with all results right, or with the error of a worker that failed and everything kept still right |
| `Baselines.UnifiedResearchOrchestrator.RunSymbolBaselines` | app/backtest/research_orchestrator.py:191-249 | whatever finishes first and whatever was known, the result is the sequential one in input order if and only if no launched worker fails; each unknown symbol is launched once; on disk only right results are added |
| `Baselines.PendingOnce` | app/backtest/research_orchestrator.py:228-230 | no symbol is launched twice |
| `Baselines.LaunchedMeans` | app/backtest/research_orchestrator.py:198-223 | a symbol is launched if and only if it has no cached result and no payload under a manifest of this identity that a resumed run may use |
| `Baselines.EverySymbolOnce` | app/backtest/research_orchestrator.py:198-223 | checkpoints used, cache hits and launches add up to the number of symbols |
| `Baselines.InterruptedThenResumed` | tests/test_research_checkpoints.py:60-86 | a run that failed and was resumed returns what an uninterrupted one returns, and launches again exactly the symbols for which the first left no checkpoint |
| `Baselines.ReachableDiskIsSound` | app/backtest/research_orchestrator.py:200-208 | any disk left by stopped processes of a decisive run id gives the resumed run only right checkpoints |
| `WalkForward.AddMonthsMonotone` | app/backtest/walkforward.py:32-37 | adding months keeps the order of two dates unless they share a month, the earlier day is at or beyond the length of the target month, and the times of day are swapped |
| `WalkForward.AddMonthsAdditive` | app/backtest/walkforward.py:32-37 | up to the 28th adding months twice is adding their sum |
| `WalkForward.MonthsAlternate` | app/backtest/walkforward.py:36 | months of 31 and 30 days alternate, starting over with August |
| `WalkForward.CalendarIsGregorian` | app/backtest/walkforward.py:36 | the month lengths add up to the Gregorian calendar |
| `WalkForward.FourCenturies` | app/backtest/walkforward.py:36 | 400 years in a row have 146 097 days |
| `WalkForward.RollingWindows` | app/backtest/walkforward.py:20-29 | the loop ends for every positive step and lists the windows of the recursive definition |
| `WalkForward.WindowsExact` | app/backtest/walkforward.py:20-29 | up to the 28th every boundary of every window is a whole number of months from the start, and window k exists if and only if its end is within the range |
| `WalkForward.ExactTiling` | app/backtest/walkforward.py:20-29 | consecutive out-of-sample windows meet exactly, for all lengths, if and only if the start is no later than the 28th |
| `WalkForward.NoDoubleCounting` | app/backtest/walkforward.py:32-37 | out-of-sample windows never overlap if and only if the start is no later than the 28th |
| `WalkForward.DefaultTiling` | app/backtest/walkforward.py:20-29 | at the default lengths windows meet exactly, for every end, and never overlap, if and only if the start is no later than the 28th or on the 29th or 30th of an odd month |
| `WalkForward.NewYearsEveOverlaps` | app/backtest/walkforward.py:20-21 | the default lengths from a 31 December give two overlapping windows |
| `WalkForwardRuns.PlainWalkForward` | app/backtest/phase9.py:300-322 | the nested loops give the plain outcome: its summary, or the error of the first validation that raises |
| `WalkForwardRuns.FailureMeans` | app/backtest/phase9.py:303-308 | the plain outcome is an error if and only if some unit raises, and then the error of the first one, window by window |
| `WalkForwardRuns.ResumableWalkForward` | app/backtest/research_orchestrator.py:288-317 | whatever a sound store already holds the summary is the same, and exactly the failed units are noted |
| `WalkForwardRuns.CountedTwice` | app/backtest/phase9.py:315 | a moment in two out-of-sample windows makes the plain record differ from the resumable one |
| `WalkForwardRuns.AgreeExactlyWhenDisjoint` | app/backtest/phase9.py:300-322 | for every validation and input the plain aggregation raises exactly when the resumable one notes an error and otherwise gives its summary, if and only if no moment lies in two out-of-sample windows |
| `WalkForwardRuns.CalendarAgreement` | app/backtest/walkforward.py:20-37 | on calendar windows they agree for all lengths if and only if the start is no later than the 28th |
| `WalkForwardRuns.DefaultAgreement` | app/backtest/phase9.py:251-252 | at the default lengths they agree if and only if the start is no later than the 28th or on the 29th or 30th of an odd month |
| `WalkForwardMeaning.ScopeMeans` | app/backtest/phase9.py:306 | a window is validated on exactly the candles that open from its in-sample start on and before its out-of-sample end, in order |
| `WalkForwardMeaning.RecordMeans` | app/backtest/phase9.py:304-317 | for the validation that reports one trade at each candle, a record counts the candles that open in each of its spans and adds up those out of sample |
| `WalkForwardMeaning.SummaryMeans` | app/backtest/research_orchestrator.py:316-317 | for that validation the totals are those of all out-of-sample candles, and the expectancy their mean |
| `WalkForwardMeaning.PlainMeans` | app/backtest/phase9.py:300-322 | where no windows overlap the plain aggregation gives the same |
| `Metrics.CalculateMetrics` | app/backtest/metrics.py:76-84 | the loop returns the largest fall of the equity curve between any two points and the longest run without a win |
| `Metrics.DrawdownAndStreak` | app/backtest/research.py:109-122 | the second loop returns the same two figures |
| `Metrics.DefinitionsAreUnique` | app/backtest/research.py:109-122 | the definitions fix both figures, so the two implementations agree |
| `Metrics.OrderIrrelevant` | app/backtest/research.py:149-153 | total, sum of losses and number of losers do not depend on the order |
| `Metrics.DrawdownLimits` | app/backtest/research.py:116 | the drawdown is at least max(0, -total) and at most the sum of all losses |
| `Metrics.StreakLimits` | app/backtest/research.py:117-121 | the longest streak is at most the number of losers L and, with W winners, at least L / (W + 1) |
| `FigureMeaning.DrawdownMeans` | app/backtest/research.py:109-122 | the drawdown is the most that any outcomes in a row lose |
| `FigureMeaning.StreakMeans` | app/backtest/research.py:117-121 | the streak is the most outcomes in a row of which none is above zero |
| `Buckets.BucketBy` | app/backtest/metrics.py:51-55 | each name seen has one group, made of exactly its trades in order |
| `Buckets.BucketsConserve` | app/backtest/metrics.py:51-66 | every additive figure, such as trades, wins or total, summed over the groups is the figure of all trades |
| `MonteCarlo.ShuffleBounds` | app/backtest/research.py:149-155 | these limits hold for every shuffle of the outcomes, with the same total |
| `MonteCarlo.MonteCarloOrdering` | app/backtest/research.py:137-168 | for all shuffles every total is the total of the outcomes, medians and percentiles are ordered and inside the limits, streaks at least L / (W + 1), and the exceedance is 0 or 1 outside them |
| `MonteCarlo.SortedIsWorst` | app/backtest/research.py:109-122 | sorting the outcomes attains both upper limits |
| `FigureMeaning.PercentileMeans` | app/backtest/research.py:125-134 | a percentile is one of the values; fewer than so many percent lie below it and at least as many do not lie above it |
| `FigureMeaning.MedianMeans` | app/backtest/research.py:42-48 | a median is the mean of two values with less than half of the values strictly beyond them |
| `FigureMeaning.ExceedanceMeans` | app/backtest/research.py:167 | the exceedance is the share of drawdowns strictly above the threshold |
| `CostStress.ScenariosAreDearer` | app/backtest/research.py:178-193 | every scenario charges at least the base prices and the severe one at least those of every scenario, unless funding is historical |
| `CostStress.DearerCostsMore` | app/backtest/costs.py:50-67 | dearer settings price the same trades and never cost less |
| `StressMeaning.ScenariosMean` | app/backtest/research.py:178-193 | what each scenario does to the two fees, the two slippages and the funding of a trade |
| `StressMeaning.RepricedMeans` | app/backtest/research.py:196-216 | every trade with execution data is repriced in its place as gross less stressed cost, and the others are counted |
| `CostStress.DominatedFigures` | app/backtest/metrics.py:69-84 | outcomes that are no better trade by trade give no higher total, expectancy or wins and no smaller drawdown or streak |
| `CostStress.CostStressReport` | app/backtest/research.py:196-216 | every scenario reprices all trades with execution data; none improves a figure of the base and none is worse than the severe one |
| `CostStress.BaseReproduces` | app/backtest/research.py:208-212 | the base scenario gives back the net result the backtest has booked |
| `Pagination.FetchCandlesRange` | app/data/binance_rest.py:59-103 | for any server the loop ends, sorted and without duplicates inside the range; for one that serves the first 1500 rows of a book the result is exactly the candles of the range, and it raises only after five failures in a row or a refusal |
| `Pagination.PageCollects` | app/data/binance_rest.py:89-101 | one page takes the collection from one cursor to the next without a gap |

## Left out

- Decimal precision: arithmetic is over `real`, so 28-digit rounding is not modelled.
- Bollinger bands and the Wilson interval, which need square roots; the bands feed no confirmation.
- Win rate, profit factor and the averages of excursions and bars: quotients of the figures that are modelled.
- `split_candles`: two filters over one window.
- Fourth take-profit, regime labels, session labels and the confirmation flags of an audit: copied through without effect on the result.
- The `entry_mode` column of an audit: the runner fills it and the simulator leaves it out, so agreement is about the other columns.
- Generated identifiers: trade and run ids are replaced by the index of the signal candle and the rank of the plan.
- LegFill objects: legs are values inside the trade, which nothing else shares in the source.
- Handlers `on_csd`, `on_retest` and `on_assessment`: awaited in order and without effect on the engine; assessments and plans are returned instead.
- `latest_structure`, `latest_regime` and `latest_assessment`: read only by the parts left out above.
- Zero and negative prices in the signal engine, which divides by them: it is modelled on candles with positive lows.
- `Strategy.FutureIsInvisible`: causality is by open time, the order in which the replay sorts all timeframes, not by closing time across timeframes.
- Pickle, SHA-256, fsync and temporary files: a file replacement is one step and hashes are injective names.
- Two processes writing one checkpoint directory at the same moment.
- Wall-clock stamps, progress artifacts and partial reports of the research run.
- Sensitivity and higher-timeframe experiments: they repeat the load, compute and save pattern of the walk-forward units.
- Years outside 1 to 9999, where `datetime.replace` raises.
- Indicator periods other than the defaults, the only ones the strategy engine uses.
- `WalkForwardRuns.PlainWalkForward`: assumes that validating no candles reports no trades, as the strategy loop over an empty history does.
- `WalkForwardRuns.CalendarAgreement`: dates are compared by an order-preserving rank instead of epoch milliseconds.
- The random generator and its seeds: every list of permutations stands for it.
- The random-entry baseline, the lifecycle funnel and the go-live gate.
- HTTP, JSON, waiting and the conversion of rows in the paging client; a row is a candle.
- SQLite repositories, notifications, websocket handling, dashboards and command lines.
