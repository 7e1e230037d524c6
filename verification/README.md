# Verification models

Dafny models of eight pieces of the repository and the properties they keep. `dafny verify dfyconfig.toml`
checks the whole project.

| files | models |
|---|---|
| `Rounding`, `Bars`, `Signals`, `Ledger`, `Drawdown`, `Backtest` | the long/cash backtest kernel: validation, the three strategy families, the bar loop, the benchmark, the metrics |
| `SignalMeanings`, `BacktestBooks` … `BacktestDrawdown` | what each family asks in closes alone, and theorems about whole runs of that kernel |
| `Csv`, `CsvGrammar`, `CsvAcceptance` | the RFC 4180 character machine, a grammar of its texts, a printer, the column check of the import |
| `Canonical`, `CanonicalReader`, `CanonicalForm`, `CanonicalNormal` | the normal form and the sorted compact text behind every snapshot digest |
| `LockKeys`, `Lockfile`, `LockClosure`, `LockMeanings` | the production closure of a pnpm lockfile |
| `Scoring`, `ScoringProofs`, `ScoringCeiling`, `ScoringMeanings` | the claim confidence score |
| `MutationQueue`, `MutationQueueProofs`, `SerialQueue` | the promise-chained mutation queue |
| `ObjectKeys`, `Consent`, `ConsentProofs` | import sessions and the consent ledger |
| `RunEvents` | the projection of run events |
| `Wrappers`, `Strings` | optional and failable values, digits, code point order |

The code that loops or updates state is modelled by methods and a class, each tied by its `ensures` to a
function or a relation on values; the theorems are lemmas about those functions and relations.

Prices and money are real numbers. Every kernel function takes a `Precision`: `Exact` keeps all digits,
`Decimals12` is the source's rounding to twelve decimals (nearest multiple, ties to even). A theorem that does
not name a precision holds for both.

## Model

| member | source | states |
|---|---|---|
| Rounding.RoundIsNear | packages/domain/quant_backtest.py:282-283 | a rounded amount is within 5·10⁻¹³ of the exact one |
| Rounding.RoundIsIdempotent | packages/domain/quant_backtest.py:282-283 | rounding fixes what is already rounded |
| Rounding.RoundsToZero | packages/domain/quant_backtest.py:282-283 | a non-negative amount rounds to zero exactly when it is at most half a unit |
| Rounding.RoundIff | packages/domain/quant_backtest.py:282-283 | the rounded amount is the nearest multiple of 10⁻¹², and the even one of two that are equally near |
| Bars.ElapsedCoversInterval | packages/domain/quant_backtest.py:307-346 | between bars `i` and `j` of an accepted, aligned market series at least `j - i` whole intervals pass |
| Bars.AcceptedIff | packages/domain/quant_backtest.py:286-381 | bars are accepted exactly if all are daily, on strictly rising days, with no cadence or 1D/252, or all are timestamped, strictly rising and on the hour, four-hour or day boundaries of the cadence given |
| Bars.TimesAre | packages/domain/quant_backtest.py:384-400 | a timestamped bar has the date its timestamp falls in, and whole seconds pass between two of them |
| Signals.SignalIsCausal | packages/domain/quant_backtest.py:403-448 | for every family, the desired position at a bar reads no later close |
| Signals.SignalIsScaleFree | packages/domain/quant_backtest.py:403-448 | for every family, multiplying all closes by one positive factor changes no desired position |
| SignalMeanings.SmaAsks | packages/domain/quant_backtest.py:403-406 | crossover, in closes alone: once the slow window is full, long exactly when slow·(sum of the last fast closes) > fast·(sum of the last slow closes) |
| SignalMeanings.SmaFollowsTrend | packages/domain/quant_backtest.py:425-430 | strictly rising closes over the slow window ask for the asset, strictly falling ones for cash |
| SignalMeanings.RsiAsks | packages/domain/quant_backtest.py:409-437 | relative strength, in closes alone: with G the rises and L the falls of the period, 100·G against each threshold times G + L, and 50 if nothing moved |
| SignalMeanings.BreakoutAsks | packages/domain/quant_backtest.py:438-448 | breakout: long when every prior close of the period is lower, cash when every one is higher, else what is held |
| SignalMeanings.DecidedBarIsHeld | packages/domain/quant_backtest.py:554-610 | in a run, the bar after a decided one shows units exactly when the decision was for the asset, if the fill is not lost to rounding |
| SignalMeanings.SmaRunHolds | packages/domain/quant_backtest.py:554-610 | a run on the crossover holds the asset at the next bar exactly when the fast sum is above, cross-multiplied |
| SignalMeanings.BreakoutRunHolds | packages/domain/quant_backtest.py:554-610 | a run on the breakout holds the asset after a new high of the period and cash after a new low |
| Drawdown.Measure | packages/domain/quant_backtest.py:465-506 | the running-peak loop yields the metrics whose drawdown is characterised by MaxDrawdownIsWorstPair |
| Drawdown.MaxDrawdownIsWorstPair | packages/domain/quant_backtest.py:477-481 | the one-pass drawdown is the worst return between any two points, earlier to later, initial cash first, and is never positive |
| Drawdown.MetricsMean | packages/domain/quant_backtest.py:472-506 | the published final equity, total return, winners, losers, win rate and exposure, counted from the trades with positive profit and the points with units |
| Drawdown.MetricsOfNothing | packages/domain/quant_backtest.py:472-506 | without bars and trades every metric is zero but the two equities |
| Backtest.RunBacktest | packages/domain/quant_backtest.py:509-624 | rejects what validation rejects, and otherwise publishes the outcome the theorems below are about |
| BacktestBooks.BuyFacts | packages/domain/quant_backtest.py:451-455 | a purchase leaves no cash; units at cost plus fee are the cash spent, to half a unit of units and of fee |
| BacktestBooks.SellFacts | packages/domain/quant_backtest.py:458-462 | a sale brings in units times the price less slippage and fee, rounded |
| BacktestBooks.FillPrices | packages/domain/quant_backtest.py:451-462 | a purchase fills at the open plus slippage, a sale at the open less slippage |
| BacktestBooks.ExactFills | packages/domain/quant_backtest.py:451-462 | exact: units times the slipped open, and the fee on top, are the cash spent; a sale brings in units times the slipped open less the fee |
| BacktestBooks.AlwaysBalanced | packages/domain/quant_backtest.py:543-610 | at every bar cash and units are non-negative and never both held, an open position remembers its entry bar, and the account is long after the fill exactly when the last signal asked for it and a purchase, if it takes one, buys more than half a rounding unit (exact: always) |
| BacktestCosts.PositionsIgnoreCosts | packages/domain/quant_backtest.py:554-610 | which bars are held does not depend on cash, fee, slippage or rounding, as long as no fill buys at most half a rounding unit (exact: always) |
| BacktestCosts.CheaperRunDominates | packages/domain/quant_backtest.py:509-624 | with fee and slippage both at least as large and no more cash, every point of the equity curve is at most the cheaper run's point, with rounding too; and the two hold the asset at the same bars as long as no fill of the dearer run buys at most half a rounding unit (exact: always) |
| BacktestAccounting.EquityIsAccounted | packages/domain/quant_backtest.py:554-607 | at every bar, equity plus the cash lost in fills is initial cash plus closed profits plus the open gain, within the stated rounding; exact: nothing is lost and the two are equal |
| BacktestAccounting.FlatCashIsConserved | packages/domain/quant_backtest.py:556-597 | whenever flat, cash plus lost cash differs from initial cash plus profits by at most 5·10⁻¹³·Σ(entry fill price + 2) over the closed trades |
| BacktestAccounting.FillLostIffTooSmall | packages/domain/quant_backtest.py:451-462 | a fill destroys its cash exactly when, rounded, the cash buys at most half a rounding unit |
| BacktestAccounting.LostForGood | packages/domain/quant_backtest.py:554-610 | after such a fill the account holds neither cash nor units for the rest of the run and closes no trade |
| BacktestAccounting.CashCanVanish | packages/domain/quant_backtest.py:451-455 | an accepted, concrete run loses its cash that way and breaks the conservation law without the lost cash |
| BacktestCausality.NoLookAhead | packages/domain/quant_backtest.py:403-448 | two accepted calls whose bars agree before bar `k` publish the same points and closed trades before `k`, and bar `k` fills a buy, a sell or nothing alike |
| BacktestCausality.FillReadsTheOpen | packages/domain/quant_backtest.py:554-596 | what a bar fills depends on the bars before it and its own open, not on its high, low and close |
| BacktestSegments.SegmentIsBenchmark | packages/domain/quant_backtest.py:639-658 | from an entry to any later held bar, the curve is the benchmark's curve on those bars, started with the cash held at entry |
| BacktestSegments.SegmentIsPublishedBenchmark | packages/domain/quant_backtest.py:627-688 | that curve is the one the benchmark publishes, which exact arithmetic always does |
| BacktestSegments.EquityIsProduct | packages/domain/quant_backtest.py:554-607 | exact: equity is initial cash times one factor a closed trade times the open segment's factor |
| BacktestSegments.BenchmarkFailsIff | packages/domain/quant_backtest.py:660-674 | the benchmark divides by zero exactly when its fee, and its units or its price, are each at most half a rounding unit |
| BacktestSegments.BenchmarkCanFail | packages/domain/quant_backtest.py:660-674 | one accepted daily bar, without costs, at which it divides by zero |
| BacktestScale.ScaleInvariance | packages/domain/quant_backtest.py:403-506 | exact: multiplying all prices by c > 0 keeps fills, equity curve, trade profits and metrics and divides every quantity by c |
| BacktestScale.RoundingIsNotScaleFree | packages/domain/quant_backtest.py:451-455 | with twelve decimals the law fails: an accepted, concrete run and its scaled form hold the asset at different bars |
| BacktestScale.PositionsAreScaleFree | packages/domain/quant_backtest.py:403-448 | with rounding, cash and costs whatever they are, the scaled run holds the asset at the same bars, as long as no fill of either run buys at most half a rounding unit |
| BacktestPositions.CarriesLatestDecision | packages/domain/quant_backtest.py:608-610 | the carried side is the latest decision since measurement start, cash if none, and is held one bar later, as long as no fill buys at most half a rounding unit (exact: always) |
| BacktestPositions.StartsConverge | packages/domain/quant_backtest.py:517-522 | two runs with different starts, costs and rounding hold the same side after one decision past the later start, under the same condition |
| BacktestPositions.TradesPartitionInvestedBars | packages/domain/quant_backtest.py:556-607 | trades are disjoint and in order, carry the dates, prices and times of their fill bars, and with the open tail account for every invested bar |
| BacktestPositions.HoldingCoversIntervals | packages/domain/quant_backtest.py:395-400 | a published market trade lasts at least its holding bars times the interval |
| BacktestTrades.TradesArePriced | packages/domain/quant_backtest.py:562-577 | exact: every trade's fees are the rate on its gross amounts, its profit is what came in less what went out, and its return is the factor EquityIsProduct multiplies, less one |
| BacktestTrades.CurveFollowsBars | packages/domain/quant_backtest.py:597-607 | every measured bar has one point with its date, time and close, and its equity is the rounded worth of the cash and units it shows |
| BacktestTrades.BenchmarkTradeIsItsGain | packages/domain/quant_backtest.py:647-688 | exact: the benchmark's one trade earns what its equity gained, returns its total return, and is exposed throughout |
| BacktestTrades.BenchmarkTradeIsDocumented | packages/domain/quant_backtest.py:654-681 | the benchmark's one trade is bought at the first open and marked at the last close, with those bars' dates and times and no exit fee |
| BacktestDrawdown.DrawdownOfRun | packages/domain/quant_backtest.py:477-499 | a run's published drawdown is the rounded worst pair of its equity path and lies in [−1, 0]; exact: in (−1, 0] |
| BacktestDrawdown.LostFillIsTotalLoss | packages/domain/quant_backtest.py:477-499 | a run that loses a fill to the rounding publishes a drawdown of −1 |
| Csv.ParseRfc4180 | apps/mac/src/imports.ts:13-42 | the index loop computes the parse the theorems below characterise, errors included |
| CsvGrammar.GrammaticalIsAccepted | apps/mac/src/imports.ts:13-42 | every text of the grammar parses to its document's values without the all-empty rows, also where CR and a following LF are two line ends of the document |
| CsvAcceptance.ExactAcceptance | apps/mac/src/imports.ts:13-42 | a text is accepted exactly when it is a text of the grammar, and any reading of it as a document gives the parser's rows |
| CsvAcceptance.ExactErrors | apps/mac/src/imports.ts:24-39 | each of the three errors is raised for exactly the texts that show its fault behind well-formed records and fields |
| CsvAcceptance.RoundTrip | apps/mac/src/imports.ts:13-42 | every table, fully or minimally quoted, prints to a text that parses to the table without its all-empty rows |
| CsvAcceptance.ParsePrintParse | apps/mac/src/imports.ts:13-42 | printing what was parsed and parsing again changes nothing |
| CsvGrammar.DropEmptyOfSum | apps/mac/src/imports.ts:41 | dropping empty rows keeps order and repeats: it works row by row |
| CsvAcceptance.ContentIff | apps/mac/src/imports.ts:41 | a row is kept exactly when some cell is not empty |
| CsvAcceptance.RectangleImports | apps/mac/src/imports.ts:5-8 | a rectangular table with content in every row, fully or minimally quoted and not opening with a bare byte order mark, imports exactly when it has a data row and no blank header cell |
| CsvAcceptance.MarkIsStripped | apps/mac/src/imports.ts:7 | one byte order mark ahead of the text changes nothing |
| CsvAcceptance.TrimSplits | apps/mac/src/imports.ts:8 | trimming takes off exactly the white space around a header cell |
| CsvAcceptance.ColumnsAdd | apps/mac/src/imports.ts:8 | the columns are the trimmed header cells that are not blank, in order |
| CsvAcceptance.BlankHeaderIsRejected | apps/mac/src/imports.ts:8 | a two-column table with one blank header cell is rejected although its data row has two cells |
| CsvAcceptance.WidthIsCheckedIffNamed | apps/mac/src/imports.ts:7-8 | for all rows: where every header cell is named, exactly the tables as wide as the header throughout are accepted; where one is blank, no such table is, and every accepted table has a row of another width |
| CsvAcceptance.RaggedTableIsImported | apps/mac/src/imports.ts:8 | a three-cell header with a blank cell and a row of two cells imports, the row under the wrong names |
| CanonicalReader.ReadsBack | packages/domain/canonical.py:74-83 | a reader of sections 2, 6 and 7 of RFC 8259, which never looks at the printer, reads a value's text back as that value, whatever delimiter follows |
| CanonicalReader.PrinterIsInjective | packages/domain/canonical.py:74-83 | the reader is a left inverse of the printer, so two normal forms print alike exactly when they are equal |
| CanonicalForm.ObjectIsAscending | packages/domain/canonical.py:74-83 | an object prints as its members between braces and commas, keys strictly ascending by code point: the first difference decides and a prefix comes first |
| CanonicalForm.CharTextIsShortest | packages/domain/canonical.py:74-83 | every character prints as short as section 7 of RFC 8259 allows, escaped only if it must be, hexadecimal digits small |
| Strings.BeforeIff | packages/domain/canonical.py:77-83 | code point order: a proper prefix, or the smaller character at the first difference |
| CanonicalNormal.SameTextIffSameNormalForm | packages/domain/canonical.py:35-83 | two accepted values have one canonical text exactly when their normal forms are equal |
| CanonicalNormal.EntriesNormalize | packages/domain/canonical.py:57-68 | a mapping is accepted exactly when its keys are strings, its members are accepted and no two keys meet after NFC |
| CanonicalNormal.EntriesAdded | packages/domain/canonical.py:57-68 | an accepted mapping's normal form holds exactly its members, each key with its own value |
| CanonicalNormal.FirstFaultDecides | packages/domain/canonical.py:57-68 | a mapping is refused for its first faulty entry: a key that is no string, else a repeated key, else what its value is refused for |
| CanonicalNormal.InsertionOrderIsIrrelevant | packages/domain/canonical.py:35-83 | reordering the members of any mappings, at every depth, changes neither acceptance nor text; and two accepted values have one text exactly when they differ in such order and in NFC only |
| CanonicalNormal.PermutedAreAlike | packages/domain/canonical.py:57-68 | every value is alike to itself, and a mapping to every permutation of its members |
| CanonicalNormal.CanonicalIsStable | packages/domain/canonical.py:35-83 | canonicalising a normal form again gives the same text |
| LockKeys.KeySpellsPackage | scripts/audit_npm_lock.py:65-84 | a key is read as a name and version exactly when it spells them, after an optional slash and before an optional peer context |
| LockKeys.PackageIff | scripts/audit_npm_lock.py:74-84 | a name is not a bare scope; a version starts with a digit and has no white space |
| Lockfile.RegistryPairs | scripts/audit_npm_lock.py:87-101 | fails exactly on a missing or malformed registry, and otherwise returns the packages of its locked records |
| Lockfile.AppendGroup | scripts/audit_npm_lock.py:104-113 | fails exactly on an unreadable group, and otherwise queues its non-local references |
| LockMeanings.LockedIff | scripts/audit_npm_lock.py:95-99 | a record is locked by a non-empty text integrity, or, where that is missing or falsy, by a text tarball |
| LockMeanings.RegistryIff | scripts/audit_npm_lock.py:87-101 | a registry is accepted exactly if its keys are text, its records mappings, and the keys of locked records spell packages |
| LockMeanings.ReferencesIff | scripts/audit_npm_lock.py:104-137 | an importer or snapshot needs in production exactly what `dependencies` and `optionalDependencies` name, by text or `version`, and not by `file:`, `link:` or `workspace:` |
| LockMeanings.RootsAndEdgesIff | scripts/audit_npm_lock.py:139-172 | the roots are what some importer so lists, and the edges what the snapshot under name@reference so lists |
| LockMeanings.OptionalIsReached | scripts/audit_npm_lock.py:137-172 | every optional dependency of an importer or of a reachable snapshot is reached |
| LockMeanings.OtherFieldsAreIrrelevant | scripts/audit_npm_lock.py:129-179 | development dependencies and every other field of importers and snapshots change neither whether the closure succeeds nor what it returns |
| LockClosure.CollectRoots | scripts/audit_npm_lock.py:131-149 | fails exactly on unreadable importers, and otherwise queues the references their production groups name |
| LockClosure.BuildPackageMap | scripts/audit_npm_lock.py:116-122 | fails exactly on no packages, and otherwise maps each name to its versions in ascending order |
| LockClosure.GroupedIsTheListing | scripts/audit_npm_lock.py:116-122 | that map is the only one from the names of the packages to ascending listings of their versions |
| LockClosure.ProductionPackages | scripts/audit_npm_lock.py:129-179 | terminates on cyclic graphs, succeeds exactly when every reachable snapshot is present, readable and of a locked package (and there is one), and then returns precisely the packages of the reachable snapshots |
| LockClosure.ProductionIsRegistered | scripts/audit_npm_lock.py:125-166 | the production audit asks about no package the full audit would not |
| LockClosure.IntegrityIsKeptIff | scripts/audit_npm_lock.py:95-100 | for every acceptable `packages` graph: all production packages of all accepted documents with it have a non-empty integrity exactly when every package some record locks has a record with one |
| LockClosure.PackageWithoutIntegrityIsAccepted | scripts/audit_npm_lock.py:95-100 | a concrete lockfile of a supported version is accepted although its production package has a tarball address only |
| ScoringProofs.BuiltInputsAreAccepted | packages/domain/scoring.py:216-328 | inputs built from acceptable evidence pass every later range check, and the score lies in [0, 1] |
| ScoringProofs.TurningNeverHelps | packages/domain/scoring.py:216-328 | turning any one item from supports to opposes never raises score or level, through both roundings and the empty contest |
| ScoringMeanings.LevelIff | packages/domain/scoring.py:313-328 | high exactly when 0.4·share + 0.25·average + 0.15·coverage + 0.1·diversity + 0.1·sample − penalty is at least 0.74995 and diversity reaches two shares of the target; low exactly below 0.49995 |
| ScoringMeanings.NumericIs | packages/domain/scoring.py:313-328 | the number is that sum, cut to [0, 1] and rounded, or 0.7499 where the ceiling bites |
| ScoringMeanings.RoundedReaches | packages/domain/scoring.py:34-35 | four decimals, halves up |
| ScoringMeanings.RoundedIsOdd | packages/domain/scoring.py:34-35 | rounding goes the same way on both sides of zero |
| ScoringMeanings.FactorsMoveTheScore | packages/domain/scoring.py:313-319 | each factor moved alone moves the score by its own weight, and the penalty against it |
| ScoringMeanings.SupportAlone | packages/domain/scoring.py:306-319 | the support share alone brings four tenths of itself |
| ScoringMeanings.ShareThreshold | packages/domain/scoring.py:306-328 | with every other factor at one and the penalty of the share, high starts at a support share of 7999/13000 |
| ScoringMeanings.OpposedIsNeverHigh | packages/domain/scoring.py:216-328 | evidence opposed at least as strongly as it is supported is never high |
| ScoringMeanings.TwoAgainstThree | packages/domain/scoring.py:313-328 | two for and three against, everything else at its best: 0.61, medium |
| ScoringMeanings.AcceptedIff | packages/domain/scoring.py:216-250 | evidence is accepted exactly if its ids differ and scores and weights lie in [0, 1] |
| ScoringMeanings.CountsAre | packages/domain/scoring.py:252-290 | coverage counts the items that take a side, diversity the least number of groups, sample all items, each against its own target |
| ScoringMeanings.CountIsLeast | packages/domain/scoring.py:269 | that number is the least of the groups, clusters and sources |
| ScoringMeanings.WeightsAre | packages/domain/scoring.py:252-290 | support and opposition are rounded sums, the average is effective weight by weight, the penalty a quarter of the opposing share |
| ScoringMeanings.SumsAdd | packages/domain/scoring.py:240-262 | the sums and counts of evidence add up over any split of it |
| ScoringMeanings.SumsOfOne | packages/domain/scoring.py:232-252 | one item weighs its score times its weight, for its own stance, and counts if it takes a side |
| ScoringMeanings.GroupsAre | packages/domain/scoring.py:252-275 | the groups of the items that take a side: the independence group named, else the source, else the content; clusters and sources likewise |
| ScoringCeiling.CeilingHoldsIff | packages/domain/scoring.py:252-328 | high means two independence groups, duplicate clusters and source groups, for exactly the policies whose independent target is not 20000 |
| ScoringCeiling.HighWithGroupsIff | packages/domain/scoring.py:252-328 | for every policy and number of groups, some evidence with exactly that many independent groups is high exactly when their rounded diversity, in units of 0.0001, times the target is at least 20000 |
| ScoringCeiling.TwoGroupsCanBeHighIff | packages/domain/scoring.py:321-328 | two groups can be high exactly when the target is at least two and 20000 divided by it leaves nothing or at least half of it |
| ScoringCeiling.HighIsPossibleIff | packages/domain/scoring.py:321-328 | some evidence is high for exactly the policies whose independent target is not one |
| SerialQueue.SerialMutationQueue.constructor | apps/mac/src/brief-mutations.ts:6-9 | a new queue is idle |
| SerialQueue.SerialMutationQueue.Run | apps/mac/src/brief-mutations.ts:12-20 | a call counts itself, announces the first, and schedules or chains its task |
| SerialQueue.SerialMutationQueue.SettleTask | apps/mac/src/brief-mutations.ts:16-25 | a task that succeeds or fails fulfils or rejects its result, which queues the two handlers of the tail and then the bookkeeping |
| SerialQueue.SerialMutationQueue.RunMicrotask | apps/mac/src/brief-mutations.ts:16-25 | the first queued microtask, which can always run, starts a task behind a fulfilled tail (and passes a rejected one on), settles the tail, or settles the returned promise, counts down and announces the last |
| SerialQueue.SerialMutationQueue.DisposeListener | apps/mac/src/brief-mutations.ts:27-29 | disposal drops the listener and nothing else |
| MutationQueueProofs.OneTaskAtATime | apps/mac/src/brief-mutations.ts:12-26 | in every interleaving at most one task is in progress, tasks start in call order, and all earlier calls are settled and counted before one starts |
| MutationQueueProofs.BusyMatchesPending | apps/mac/src/brief-mutations.ts:13-25 | notifications alternate from true, and until disposal the last is true exactly while calls are pending |
| MutationQueueProofs.DisposedIsSilent | apps/mac/src/brief-mutations.ts:27-29 | in every run, nothing is announced any more from a disposal on |
| MutationQueueProofs.EveryStepIsProgress | apps/mac/src/brief-mutations.ts:16-25 | every outcome and every microtask lowers the number of steps the calls still have to go |
| MutationQueueProofs.NeverStuck | apps/mac/src/brief-mutations.ts:16-25 | calls are pending exactly while a microtask can run or a task is in progress, and otherwise every call has started and settled |
| MutationQueueProofs.TailsNeverReject | apps/mac/src/brief-mutations.ts:16-20 | in every reachable state no tail is rejected, so no result settles without its task having run |
| MutationQueueProofs.FailureNeverBlocks | apps/mac/src/brief-mutations.ts:17-20 | replacing every failure of a run by a success changes nothing but the promises of the calls that failed |
| MutationQueueProofs.EveryTaskStarts | apps/mac/src/brief-mutations.ts:12-26 | from every reachable state and for all outcomes the calls made can be brought to their end, every task started, every promise settled, nothing pending |
| MutationQueueProofs.OutcomeIsOwn | apps/mac/src/brief-mutations.ts:16-25 | a result and the promise returned for it settle with the outcome of their own task, whatever became of the others |
| MutationQueueProofs.WithoutHandlerFailureBlocks | apps/mac/src/brief-mutations.ts:17-20 | in a chain without the rejection handler no task behind a failed one would ever start |
| MutationQueueProofs.SuccessNeedsNoHandler | apps/mac/src/brief-mutations.ts:17-20 | a run without failures goes the same with the rejection handler and without |
| MutationQueueProofs.HandlerMakesTheDifference | apps/mac/src/brief-mutations.ts:17-20 | a run of two calls, the first failing, starts the second task with the handler and skips it without |
| ObjectKeys.AcceptedKeyIsPayloadPath | packages/domain/imports.py:73-119 | a key is accepted for a session exactly when both names are safe segments and it is that session's payload path |
| ObjectKeys.SplitPayloadPath | packages/domain/imports.py:97-102 | the parts of that path are workspaces, the workspace, imports, the session and payload.csv |
| ObjectKeys.KeysAreNotShared | packages/domain/imports.py:97-119 | no key is accepted for two workspaces or sessions |
| ConsentProofs.AuthorisesIff | packages/domain/imports.py:380-426 | a grant is authorised exactly when it is the session's latest by time and id, matches the pins, is in its window and has no exact revocation by now |
| ConsentProofs.MismatchIff | packages/domain/imports.py:324-355 | a grant fits exactly with equal workspace, destination, session, four digests and media type and a byte limit no smaller than the file, and is refused for the first of these it breaks |
| ConsentProofs.RefusedFor | packages/domain/imports.py:394-425 | what the resolver refuses the latest grant for, in its order |
| ConsentProofs.RefusedAtOnce | packages/domain/imports.py:394-404 | a session in the wrong state and a record of another workspace are refused before any grant is looked at |
| ConsentProofs.GrantPinsTheSession | packages/domain/imports.py:324-355 | two sessions one grant is ever authorised for agree on id, workspace, digests and media type: changing any pinned digest ends the authorisation |
| ConsentProofs.EarlierIff | packages/domain/imports.py:407 | grants are ordered by time and then by the code points of their ids |
| ConsentProofs.ConsentsIff | packages/domain/imports.py:358-377 | a draft consents to exactly a grant that fits it and is in its window |
| ConsentProofs.ConsentAgreesWithResolver | packages/domain/imports.py:358-377 | a draft accepts a grant exactly when the consented session may use it, on every ledger where it is the session's latest and unrevoked and no other record of the session names another workspace |
| ConsentProofs.LedgerOrderIsIrrelevant | packages/domain/imports.py:399-426 | with unique record ids the result, errors included, does not depend on the ledger's order |
| ConsentProofs.OlderGrantNeverReturns | packages/domain/imports.py:403-408 | once a later grant is recorded an older one is never authorised, whatever is appended |
| ConsentProofs.OnlyLaterGrantRestores | packages/domain/imports.py:416-426 | after an exact revocation takes effect only a later grant restores authorisation |
| ConsentProofs.AuthorisationIsOneStretch | packages/domain/imports.py:409-426 | on one ledger a grant is authorised over one stretch of time |
| ConsentProofs.RunKeepsPins | packages/domain/imports.py:286-321 | a run of transitions changes no pinned input, counts every step and leaves no terminal state |
| ConsentProofs.TransitionsIff | packages/domain/imports.py:286-321 | a transition is accepted exactly one stage on, to failed once consented, to cancelled before an end, or back to validating after a retryable failure with the same pins |
| ConsentProofs.FinalizedWasUploadedIff | packages/domain/imports.py:50-64 | a run from a draft to finalized passed through uploaded exactly when it did not fail straight out of consent |
| ConsentProofs.FinalizedWithoutUpload | packages/domain/imports.py:300-306 | a concrete run of a session with well-formed pins is finalized without an upload |
| ConsentProofs.UploadCompletesIff | packages/domain/imports.py:429-462 | an upload completes exactly when the session is consented, the record it is checked against fits it, and the object observed is the pinned payload under that record's key; then only its state and row version advance |
| ConsentProofs.UploadCompletesIffPinned | packages/domain/imports.py:380-462 | with what the resolver authorised from any ledger, an upload completes exactly when the session is consented and the object observed is the pinned payload at the session's one object key |
| RunEvents.DeliveriesConverge | apps/mac/src/api.ts:915-921 | reordered or repeated deliveries of the same coherent events leave the same strictly sorted, duplicate-free list and the same latest sequence |
| RunEvents.LatestIsLargest | apps/mac/src/api.ts:920 | the latest sequence is the largest of the one before and all delivered |
| RunEvents.DeliveryIsStored | apps/mac/src/api.ts:918-919 | a delivery not known yet is stored with its own fields; its message is the safe summary, else the type with spaces for dots |
| RunEvents.KnownIsNotStored | apps/mac/src/api.ts:919 | a delivery that is known changes no item |
| RunEvents.InsertedAt | apps/mac/src/api.ts:919 | an item goes behind all of the same or a smaller sequence and ahead of the larger ones |
| RunEvents.StatesAreNamed | apps/mac/src/api.ts:916-917 | the six names, and no other text, carry a run state |
| RunEvents.InOrderStateIsNewest | apps/mac/src/api.ts:915-921 | delivered in order, with any repeats, the run ends in the state of the highest sequence that carries one |
| RunEvents.StateConvergesIff | apps/mac/src/api.ts:915-921 | the run ends alike in every order of any deliveries, repetitions included, exactly when no two of them carry different states |
| RunEvents.StateDependsOnOrder | apps/mac/src/api.ts:915-921 | two coherent events that, swapped, leave an older state beside the newest sequence |

## Where the code falls short of its promise

- A purchase of at most half a rounding unit rounds to no units while the cash is still spent
  (`packages/domain/quant_backtest.py:451-455`): the account is empty for good and no trade records the loss.
  `FillLostIffTooSmall` gives the exact condition; the conservation law counts the lost cash.
- `backtest_buy_and_hold` divides by the rounded amount invested without the guard `run_backtest` has
  (`packages/domain/quant_backtest.py:571-577`, `671-674`); `BenchmarkFailsIff` says when, `BenchmarkCanFail` gives an input.
- The comment at `packages/domain/scoring.py:322-324` promises that one group is never high. One independent
  target breaks it, 20000, where the rounded diversity of one group equals two shares of the target
  (`CeilingHoldsIff`). A target of one makes high impossible (`HighIsPossibleIff`), and many targets keep two
  groups below the ceiling because their diversity rounds down (`TwoGroupsCanBeHighIff`); `HighWithGroupsIff`
  is the condition for any number of groups.
- The lock check reads the tarball wherever the integrity is missing or empty
  (`scripts/audit_npm_lock.py:98`), so a package without an integrity can pass the message "integrity-locked".
  `IntegrityIsKeptIff` says for which `packages` graphs this cannot happen.
- A retryable failure straight out of consent may go on to be finalized without an upload
  (`packages/domain/imports.py:50-64`, `300-306`).
- `projectRunEvent` takes its run state from the last delivery, so the state, unlike the list, depends on the
  order (`StateDependsOnOrder`) unless all states carried are one (`StateConvergesIff`).
- A blank header cell makes the named columns fewer than the header's cells (`apps/mac/src/imports.ts:8`). A
  rectangular table, such as the header `a,""` with the row `1,2`, is then rejected (`BlankHeaderIsRejected`),
  and the header `a,"",b` with the row `1,2` is imported with its data under the wrong names
  (`RaggedTableIsImported`). `WidthIsCheckedIffNamed` says for which headers the check keeps its promise.

## Left out

- Drawdown.Measure: does not compute the annualised return and the Sharpe ratio, which need fractional powers and a square root.
- Backtest.RunBacktest: models prices and money as real numbers, not IEEE-754, and bar volumes, which nothing reads, not at all.
- BacktestScale.ScaleInvariance: is stated for exact arithmetic; with twelve decimals it fails (RoundingIsNotScaleFree), and the positions alone survive (PositionsAreScaleFree).
- BacktestPositions.CarriesLatestDecision: with twelve decimals, says nothing of runs with a fill that rounds to no units, which forgets the signal.
- BacktestSegments.EquityIsProduct: is stated for exact arithmetic; with twelve decimals every fill rounds its factor.
- BacktestTrades.TradesArePriced: is stated for exact arithmetic; with twelve decimals each field is rounded on its own.
- BacktestTrades.BenchmarkTradeIsItsGain: is stated for exact arithmetic; the benchmark's profit and equity are rounded apart.
- Csv.ParseRfc4180: reads characters, not UTF-16 code units; the parser compares with ASCII characters only, so surrogates pass through alike.
- CsvAcceptance.RectangleImports: leaves out a minimally quoted table whose first cell begins with U+FEFF, which the import strips; digests, file name and type checks of the import are not modelled.
- CanonicalReader.PrinterIsInjective: has no floats, and dataclasses, enumerations, UUIDs, dates and datetimes are taken as already turned into plain values; Python's equality of `True` and `1` is not followed, since their texts differ.
- CanonicalNormal.CanonicalIsStable: takes NFC as any idempotent function on strings; SHA-256 and UTF-8 encoding are left out.
- LockKeys.KeySpellsPackage: knows ASCII digits and white space only, where Python also accepts those of other scripts.
- LockClosure.ProductionPackages: starts from the parsed document; file reading, YAML parsing, the advisory requests and the reviewed exceptions are left out. Mappings are visited in any order, as the result does not depend on it. The lockfile version is read by IntegrityIsKeptIff alone, and as text only.
- ScoringProofs.TurningNeverHelps: computes in real numbers; the 28 significant digits of the decimal context, the evidence score and the replay digest are left out.
- MutationQueueProofs.OneTaskAtATime: treats the adoption of a task's promise as part of its settling and the returned promise, which `finally` settles some microtasks after the bookkeeping, as settled with it; a listener that throws or calls `run` is left out.
- ConsentProofs.AuthorisesIff: times are whole microseconds that are already timezone-aware, and the policy version and the one value of model egress are dropped.
- Consent.Latest: replaces the sort of the local grant list by the record a stable sort would put last.
- RunEvents.DeliveriesConverge: keeps of an investigation the run state, the latest sequence and the events; stream cursors and gap recovery are left out.
- The transition tables of `lifecycle.py`, `quant.py` and `signals.py`, `decisions.py`, regex redaction, connectors, transport and user interface code are left out: finite case splits or input and output.
