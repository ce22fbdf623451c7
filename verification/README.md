# Verified model of the canary recorder, wrapper and update coordinator

The project models three parts of canary and proves what they are for.

**The option-chain recorder** (`internal/chainrec`). `Symbols`, `Calendar`, `Expiries`, `Strikes` and
`Plan` model how a run decides what to record; `Discovery` the phase that stores each symbol's plan and
orders the work; `ExpiryMeaning` says what a selection means from listings and calendar alone.
`Execution` is the object behind the mutex: a class whose methods are the locked sections of `run.go`, each
proved equal to a function. `Recorder` is the quoting phase as a step relation over those functions: a
feeder, a pool of workers each in one of eleven phases, the clock, cancellation, the broker's answers and
the store, all of which may interleave and answer in any way. `RecorderInvariants`, `RecorderRuns`,
`RecorderStops`, `RecorderTermination` and `RecorderLines` prove what every run keeps. `Store`, `Coverage`,
`StoredCoverage` and `Paging` model the append-only tables, the coverage read back from them and the paged
export. `Discovery.WholeRun` puts the parts together.

**The terminal word-wrapper** (`internal/cli/brief.go`). `Escapes` measures and cuts strings with colour
escapes, `Tokens` splits text into words, `Packing` is greedy packing over any measure with its
optimality proof, `Wrap` and `Brief`/`BriefWrap` are the plain and the tinted wrapper, `Colour` the
printer together with a strict terminal that interprets its output.

**The self-update coordinator** (`internal/app/update.go`). `Update` has the coordinator as a class and,
on the same functions, every interleaving of polls, metadata answers, starts and process ends.

`Sequences`, `Text`, `Sorting` and `Contracts` hold the shared vocabulary.

How the source's terms are rendered: times and durations are integer nanoseconds, dates are day numbers,
prices and strikes are reals, strings are sequences of runes, a role is a string, errors are `None` or a
status. Clock readings count from the zero time, where the pacing pause starts. A source of a symbol is
"held", "explicit" or a strategy's name; strategy names cannot contain `+` (`internal/risk/register.go:194`),
so the list of sources is unambiguous (`Symbols.MergeJoins`). The broker, the load report, the trading
calendar, the store's medium and the clock are parameters or events and may do anything their types allow.

## Where the code and its documents differ

The model follows the code.

- `internal-docs/design/option-chain-recorder.md` says that no line is opened while 20 or fewer lines are
  free. Admission checks the load under the lock and opens the line outside it, so several workers can pass
  the same check: free lines can fall to reserve + 1 - `lines`. As long as the other users' lines stay put and
  reports are truthful, the promise holds exactly with one worker and a report at every check
  (`RecorderLines.ReserveHonouredIff`). A check without a report skips the reserve
  (`RecorderLines.UnreportedAdmits`), and another user may take a line after the check
  (`RecorderLines.OthersMayTakeTheLine`).
- The same document says that no contract is requested after the close. The deadline is checked at
  admission only, so an admitted contract may open its line later; the promise holds exactly of a run
  without work (`RecorderLines.NoLateLineIff`), and at most one line per worker opens late
  (`RecorderLines.AtMostOneLateEach`).
- It also says that pauses double to 80 s. The fifth signal stops the run, so the longest pause is 40 s and
  the cap is never applied (`RecorderInvariants.CapNeverBinds`).
- `Start` does not look at `Checking`, so a metadata answer can overwrite `Updating` while the process is
  alive (`Update.GuardIsNecessary`, `Update.TwoProcessesPossible`).
- The greedy plain wrapper is optimal for words that complete their escapes; a word that leaves one open
  can make it break a line that would have fitted (`Wrap.OptimalIffClosed`, `Wrap.SharesLineIffClosed`).
- The two wrappers split words at different characters: `briefWords` at blanks, `wrapVisibleText` at any
  white space. Without a word the first makes no line and the second an empty one, and without a width the
  second keeps repeated blanks (`BriefWrap.BriefWrapsRunsIff`).

## Model

| member | source | states |
|---|---|---|
| `Discovery.WholeRun` | internal/chainrec/run.go:189-241 | once discovery is done, at any moment of quoting: the uniqueness constraint never refuses a batch, coverage read back adds up per symbol and in total wherever the process stopped, and a run closed with its store intact reports exactly what is read back, `complete` exactly when every planned contract (at least one) was attempted and no selected symbol was abandoned |
| `Discovery.CrashInDiscovery` | internal/chainrec/run.go:189-217 | a run that dies inside discovery, after any number of symbols: each record written carries what its symbol contributed, all of it reads back as not attempted, and the totals are the sums |
| `RecorderRuns.EveryContractOnce` | internal/chainrec/run.go:319-348 | in a closed run every planned contract has exactly one row, and planned = attempted + not attempted = rows |
| `RecorderRuns.RowsCounted` | internal/chainrec/run.go:433-466 | in every reachable state attempted + not attempted equals the rows recorded, and rows recorded plus jobs held equals jobs handed out |
| `RecorderRuns.StatusMeans` | internal/chainrec/run.go:221-240 | what `complete`, `partial` and `failed` mean, as equivalences over the run's log; the stop reason, the plan and the counts reported |
| `RecorderRuns.WorkersAtStart` | internal/chainrec/run.go:319-331 | as many workers as lines, four when not configured, no more than contracts, at least one |
| `RecorderStops.WhyStopped` | internal/chainrec/run.go:373-466 | over every run, from log, pacing history and events alone: a lost gateway stops the run; `gateway` has such a row, `pacing` five signals in a row, `deadline` a check on a reading past it; the reason is the first cause until the store is lost, and without a cause there is none |
| `RecorderStops.StopIsFirstCause` | internal/chainrec/run.go:420-466 | from any state of a run the stop is what was set before, else the first cause, and `store_error` once a write failed |
| `RecorderStops.CheckDecides` | internal/chainrec/run.go:373-416 | what a check does, in the order of its guards: the stop, four refusals without an observation in the log, the deadline, a new pacing error, a wait, else admission |
| `RecorderStops.SleepIsExact` | internal/chainrec/run.go:393-415 | a worker sleeps only while paused or while no more lines than the reserve are free, until the pause ends or a second has passed, whichever is later, and never past the deadline |
| `RecorderStops.ActsMean` | internal/chainrec/run.go:329-361 | a cancelled worker turns its contract away as cancelled, one that wakes starts over, a reply becomes a row of the contract asked for, and only a failed one under cancellation is no attempt |
| `RecorderStops.FlushWhenFull` | internal/chainrec/run.go:460-465 | recording appends the row and the worker flushes exactly when the buffer then holds 200 rows |
| `Contracts.QuoteStatusMeans` | internal/chainrec/chainrec.go:216-226 | a price makes a quote, only a model value makes it model-only, open interest alone does not |
| `Contracts.ClassifyMeans` | internal/chainrec/run.go:350-361 | a row keeps contract and quote; a failure under cancellation is no attempt; any other carries its classification or counts as rejected |
| `Contracts.RefusedMeans` | internal/chainrec/run.go:334-335 | a refused contract is recorded as not attempted with its reason and nothing observed |
| `Contracts.KeyOfMeans` | internal/chainrec/store.go:89 | two contracts share a key exactly when all five columns agree |
| `RecorderInvariants.InvAlways` | internal/chainrec/run.go:319-495 | the conjunction of all invariants below holds along every run |
| `RecorderInvariants.JobsPlaced` | internal/chainrec/run.go:329-347 | every job handed out is held by a worker or recorded, never both, never twice |
| `RecorderRuns.CutShortKeepsTheMoney` | internal/chainrec/run.go:319-348 | after the first stop or cancellation, every attempted contract precedes in work order and rank every contract recorded as not attempted since, whether or not the broker had been asked and whatever the reason, except those then held by workers, at most `lines` of them; before it only contracts of unentitled symbols were turned away |
| `RecorderRuns.DisturbedFromTheStart` | internal/chainrec/run.go:373-383 | a run that begins cancelled or with its store lost attempts nothing |
| `RecorderRuns.RankFirstDispatch` | internal/chainrec/run.go:341-347 | a contract is handed out only after every contract of smaller rank |
| `RecorderRuns.BoundedOverrun` | internal/chainrec/run.go:378-392 | once a stop is set nothing is newly admitted, at most `lines` - 1 further rows count as attempted, and the reason can only turn into `store_error` |
| `RecorderRuns.StopMonotone` | internal/chainrec/run.go:420-428 | over any run the stop only climbs: empty, then deadline, pacing or gateway, then store error |
| `RecorderRuns.ExactlyOncePersistence` | internal/chainrec/run.go:460-486 | persisted rows followed by the buffer are the recorded rows in lock order; all are persisted when a run closes with its store intact; until the store fails the buffer is at most 199 plus the workers about to flush |
| `RecorderRuns.StoredPrefixGrows` | internal/chainrec/run.go:468-486 | what is stored only grows, and not at all after a store error |
| `RecorderRuns.UniquenessNeverFails` | internal/chainrec/run.go:480-485 | with distinct planned keys a flush fails only when the medium fails |
| `RecorderRuns.EntitlementGiveUp` | internal/chainrec/run.go:384-387 | while a symbol has no observation, its refusals plus its quotes in flight never exceed `EntitlementGiveUp` - 1 + `lines` |
| `RecorderRuns.PacingDiscipline` | internal/chainrec/run.go:420-431 | the live counter is the streak of the pacing history, five in a row imply the run has stopped, and after any run the pause in force is exactly the latest end of the 5, 10, 20 and 40 second pauses of that history, or the zero time |
| `RecorderInvariants.CapNeverBinds` | internal/chainrec/chainrec.go:43-49 | the doubled pause before a stop is at most 40 s, so the 80 s cap is never applied |
| `RecorderRuns.PacingNeverRelaxes` | internal/chainrec/run.go:420-431 | `backoffUntil` and `lastPacingSeen` never decrease |
| `RecorderInvariants.AdmissionDiscipline` | internal/chainrec/run.go:388-411 | a contract is admitted only at a clock reading before the deadline and not before `backoffUntil`, with no stop set and its symbol not given up |
| `RecorderTermination.RunsEnd` | internal/chainrec/run.go:373-416 | however workers, broker, clock and store interleave, a run takes at most an explicitly computed number of steps of its own |
| `RecorderTermination.LowersByStep` | internal/chainrec/run.go:373-431 | every step of the run itself lowers the lexicographic measure of job phases, pacing signals left, and time left to the deadline |
| `RecorderTermination.NeverStuck` | internal/chainrec/run.go:329-347 | until a run closes some step of its own is enabled, at the latest when a sleep ends |
| `RecorderTermination.NeverTrapped` | internal/chainrec/run.go:329-347 | from every reachable state the run can be brought to its end |
| `RecorderLines.ReserveBound` | internal/chainrec/run.go:393-411 | with other users' lines fixed and load reported truthfully at every check, free lines minus admitted jobs never fall below reserve + 1 - `lines`; before the first grant they are what the others left |
| `RecorderLines.ReserveBoundTight` | internal/chainrec/run.go:331-340 | some honest run reaches that bound exactly |
| `RecorderLines.ReserveHonouredIff` | internal/chainrec/run.go:393-411 | with other users' lines fixed and reports truthful when given, no line is ever opened at or below the reserve if and only if the pool is a single worker and every check gets a report (or there is no work, or no time at all) |
| `RecorderLines.UnreportedAdmits` | internal/chainrec/run.go:393-398 | with any pool, a check without a load report lets a line be opened with none free |
| `RecorderLines.OthersMayTakeTheLine` | internal/chainrec/run.go:393-411 | with any pool, a line another user takes between a truthful check and the opening leaves only the reserve |
| `RecorderLines.NoLateLineIff` | internal/chainrec/run.go:331-340 | no line is ever opened at or after the deadline if and only if there is no work (or no time at all) |
| `RecorderLines.AtMostOneLateEach` | internal/chainrec/run.go:331-340 | over any run at most one line per worker, so at most `lines`, is opened at or after the deadline |
| `RecorderLines.OneLateEachPossible` | internal/chainrec/run.go:331-340 | with work and time some run opens exactly that many |
| `RecorderLines.LineMayOpenLate` | internal/chainrec/run.go:331-340 | in every configuration with work a contract admitted in time can open its line at any later moment, past the deadline included |
| `Execution.Execution.PacingSignalLocked` | internal/chainrec/run.go:420-431 | the method's new state is the function the invariants are proved about |
| `Execution.Execution.AdmitLocked` | internal/chainrec/run.go:373-416 | one locked pass of admission: the new state and the verdict (go, refuse with a reason, retry, wait so long) |
| `Execution.Execution.Tally` | internal/chainrec/run.go:433-459 | the counters, the streak and the stop after one row, by status |
| `Execution.Execution.Record` | internal/chainrec/run.go:433-466 | the tallied state with the row appended, and whether a flush is due |
| `Execution.Execution.Flush` | internal/chainrec/run.go:468-486 | writes the whole buffer or nothing; a failed write stops the run and keeps the buffer |
| `Execution.Execution.Close` | internal/chainrec/run.go:221-240 | the outcome of the shared state |
| `StoredCoverage.CoverageAtEveryCrash` | internal/chainrec/store.go:416-520 | whatever was stored when the process died, attempted + not attempted = planned for every symbol and for the run |
| `StoredCoverage.StoreAgreesWithOutcome` | internal/chainrec/store.go:416-520 | a run closed without store error recomputes to its own planned, attempted, quoted and not attempted |
| `StoredCoverage.TotalsCountRows` | internal/chainrec/store.go:470-489 | the run totals summed over symbols count every stored row |
| `Coverage.GroupsTotal` | internal/chainrec/store.go:455-489 | the shares of all groups of a symbol count exactly its rows in each coverage field |
| `Coverage.AddCoverage` | internal/chainrec/store.go:503-520 | a group adds to every field exactly the rows of its status that the field counts |
| `Coverage.CoverageReads` | internal/chainrec/store.go:455-458 | what each column of a symbol's coverage counts |
| `Coverage.FillCoverage` | internal/chainrec/store.go:416-500 | one result per recorded symbol plus one per symbol seen only in rows, each field the count over stored rows, missing rows counted as not attempted, totals the sums |
| `Store.Store.RecordSymbol` | internal/chainrec/store.go:255-277 | kept exactly when the medium works and no record of that run and symbol exists |
| `Store.Store.RecordRows` | internal/chainrec/store.go:280-313 | all rows of the batch or none; kept exactly when the medium works and the key stays unique; an empty batch always succeeds |
| `Store.Store.FinishRun` | internal/chainrec/store.go:316-323 | an outcome is stored at most once per run |
| `Store.BatchKept` | internal/chainrec/store.go:89 | the table's constraint accepts a batch exactly when the run's own rows stay unique: the condition the recorder's flush step uses |
| `Store.FlushThrough` | internal/chainrec/run.go:468-486 | a flush done through the store is the recorder's flush step: shared state and the run's stored rows end up where the step puts them, other runs' rows stay |
| `Store.RowsOfOther` | internal/chainrec/store.go:280-313 | batches of other runs leave a run's rows alone |
| `Paging.Rows` | internal/chainrec/store.go:548-594 | one page is the next `limit` matches after the cursor, with a next cursor exactly when more remain |
| `Paging.ExportRun` | internal/cli/chains.go:62-83 | the paging loop over a finished table ends with the full scan, for any limit |
| `Paging.ExportWhileRecording` | internal/cli/chains.go:62-83 | when rows are appended between pages, what has been emitted is always a prefix of the scan of the latest table, and the whole of it on the last page |
| `Paging.ExportChainRows` | internal/cli/chains.go:59-85 | runs are exported oldest first, each as its full scan |
| `Paging.ExportIsExact` | internal/cli/chains.go:59-85 | an export holds exactly the rows of the listed runs, of the symbol asked for if one is |
| `Paging.ExportInOrder` | internal/cli/chains.go:59-85 | runs are exported one after the other, in the order given |
| `Paging.PageSize` | internal/chainrec/store.go:549-552 | a page holds as many rows as asked for, 2000 when nothing was asked, or all that are left |
| `Paging.ScanIsExact` | internal/chainrec/store.go:523-594 | a row is emitted if and only if it matches |
| `Paging.ScanInOrder` | internal/chainrec/store.go:523-594 | each row once, in recording order |
| `Paging.ScanGrows` | internal/chainrec/store.go:523-594 | the scan of a longer table extends the scan of a shorter one |
| `Strikes.SelectStrikes` | internal/chainrec/select.go:200-238 | the window holds the usable strikes, rounded, within the percentage of spot; exactly min(window, maxCount) are selected, ascending: all that fit, else every strike with fewer than half of maxCount nearer the money, and of the others the rounded even steps; from maxCount 4 both edges; nothing for a non-positive spot, percentage or count |
| `Strikes.BeforeStrikeMeans` | internal/chainrec/select.go:212-215 | nearer the money is by absolute distance; as near, the lower strike goes first |
| `Strikes.RoundTickMeans` | internal/chainrec/select.go:257 | rounding gives a whole number of ticks, the nearest one |
| `Strikes.CoreNearest` | internal/chainrec/select.go:216-221 | every core strike is nearer the money than every other window strike, lower on a tie |
| `Strikes.PanelProps` | internal/chainrec/select.go:216-238 | the panel holds maxCount distinct ascending window strikes with core and edges |
| `Strikes.WingIncreases` | internal/chainrec/select.go:228-235 | wing indices strictly increase |
| `Strikes.WingEven` | internal/chainrec/select.go:228-235 | each wing index is within half a step of the exact even spacing |
| `Strikes.WingEnds` | internal/chainrec/select.go:228-235 | the first and last wings are the ends of what the core left |
| `Strikes.NormalizedIsSet` | internal/chainrec/select.go:253-262 | normalizing yields each usable rounded strike once, ascending |
| `Strikes.AtmRanks` | internal/chainrec/select.go:241-251 | the rank of a strike is the number of strikes nearer the money, lower first on a tie |
| `Calendar.ThirdFridayIs` | internal/chainrec/select.go:67-70 | the formula lands on a Friday, day 15 to 21 of its month, in every month of every year |
| `Calendar.StandardMonthlyIs` | internal/chainrec/select.go:67-78 | the result is the latest trading day up to the third Friday whenever one lies within the step-back window |
| `Calendar.StandardMonthlyRange` | internal/chainrec/select.go:67-78 | it never leaves its month |
| `Calendar.PreviousStaysNear` | internal/chainrec/select.go:80-89 | the day before it reaches back at most two days into the month before |
| `Calendar.PreviousIs` | internal/chainrec/select.go:80-89 | the previous trading day is the latest one whenever one of the ten days before trades |
| `Calendar.StepBackLoop` | internal/chainrec/select.go:71-77 | the loop is the step-back function |
| `Calendar.MonthLengths` | internal/chainrec/select.go:68-70 | the lengths of the months, February by the Gregorian leap rule |
| `Calendar.MonthsOn` | internal/chainrec/select.go:68-70 | months follow each other without a gap |
| `Calendar.YearDays` | internal/chainrec/select.go:68-70 | a year has 366 days if it is a leap year and 365 otherwise |
| `Calendar.FirstDay` | internal/chainrec/select.go:68-70 | the first of January of year 1 is a Monday |
| `Calendar.TradingDayMeans` | internal/chainrec/select.go:54-63 | weekends never trade, any other day does unless the exchange calendar says it rests |
| `Expiries.Collect` | internal/chainrec/select.go:101-118 | the chain holds exactly the listings after today, and the class counts count them |
| `Expiries.PrimaryClass` | internal/chainrec/select.go:122-130 | the symbol's own class when listed, else the most listed class, first in order on a tie |
| `Expiries.SelectMonthlies` | internal/chainrec/select.go:134-162 | the picks of the two earliest qualifying months, in order |
| `Expiries.PicksOrdered` | internal/chainrec/select.go:145-155 | picks of different months come in month order, after today, whatever the calendar says |
| `Expiries.NoMonthSkipped` | internal/chainrec/select.go:134-162 | a qualifying month is recorded or comes after both recorded ones |
| `Expiries.SelectWeekly` | internal/chainrec/select.go:164-181 | the earliest week end that is not already taken |
| `Expiries.SelectExpiries` | internal/chainrec/select.go:101-193 | at most the two monthlies and the weekly, on distinct ascending dates after today, each listed in its class with ascending strikes; the primary class and the weekly's fallback class with their tie-breaks |
| `ExpiryMeaning.MonthliesMean` | internal/chainrec/select.go:134-162 | from listings and calendar alone: the monthlies stand for the two earliest months with a listed date in which the primary class names the standard expiration or the trading day before it; the standard date is preferred whenever named; no such month is passed over |
| `ExpiryMeaning.WeeklyMeans` | internal/chainrec/select.go:164-188 | the weekly is the earliest last listed date of a week that is a Friday, or a Thursday before a Friday without trading, no standard expiration and not taken; its class is the primary one if that names the date, else the first by name |
| `ExpiryMeaning.NamesMeans` | internal/chainrec/select.go:104-118 | a listing counts when its date can be read and lies after today and it names a class |
| `ExpiryMeaning.ClassCountMeans` | internal/chainrec/select.go:114-116 | when every listing brings strikes, a class counts once for every date it is named on |
| `ExpiryMeaning.PrimaryMeans` | internal/chainrec/select.go:122-130 | the symbol's own class when listed, else the one listed most often, the first by name among equals |
| `Expiries.SelectionDetermined` | internal/chainrec/select.go:101-193 | listings, symbol, date and calendar determine the selected expiries, their classes and their strikes: the contract of the selection leaves no choice |
| `Symbols.NormalizeIdempotent` | internal/chainrec/chainrec.go:264-276 | a normalized symbol normalizes to itself |
| `Symbols.NormalizeIff` | internal/chainrec/chainrec.go:264-276 | a raw name yields a symbol exactly when, white space around it aside, it upper-cases to one to twelve capital letters, digits and dots |
| `Symbols.NormalizeFoldsCase` | internal/chainrec/chainrec.go:264-276 | a symbol is recognised in either case |
| `Symbols.ResolutionOrder` | internal/chainrec/select.go:296-306 | held symbols first, then declared, then listed ones, each part in the order of its own list |
| `Symbols.SourcesMean` | internal/chainrec/select.go:286-290 | the sources of a symbol are those that named it |
| `Symbols.RequestsMean` | internal/chainrec/select.go:296-306 | held symbols name their source `held`, listed ones `explicit`, declared ones their own |
| `Symbols.ResolveSymbols` | internal/chainrec/select.go:278-310 | symbols distinct, in order of first mention (held alphabetically, declared, listed), each naming its distinct sources, split at the cap |
| `Symbols.MergeJoins` | internal/chainrec/select.go:286-290 | over sources without `+`, naming one leaves the list alone if and only if it is on it, and otherwise appends it |
| `Symbols.SeparatorConfuses` | internal/chainrec/select.go:286-290 | a source with `+` would be confused both ways: named again it is not recognised, and each of its parts passes for named |
| `Text.LessMeans` | internal/chainrec/select.go:298 | strings compare by their first difference, and a proper prefix goes first |
| `Text.SortStringsProps` | internal/chainrec/select.go:297-298 | held symbols are taken in alphabetical order, each as often as given |
| `Plan.PlanExpiry` | internal/chainrec/run.go:280-312 | the kept calls and puts of the selected strikes with their ranks, distinct keys |
| `Plan.ExpiryComplete` | internal/chainrec/run.go:299-309 | a contract of a chosen strike is in the plan if and only if it was not proved unlisted |
| `Plan.ExpiryMeans` | internal/chainrec/run.go:299-309 | an expiry's contracts are, for every chosen strike, the call and the put not proved unlisted, with the number of chosen strikes nearer the money as rank, and nothing else |
| `Plan.CandidateMeans` | internal/chainrec/run.go:293-298 | a strike is offered to the selection when one of its sides is not proved unlisted |
| `Plan.Discover` | internal/chainrec/run.go:256-317 | the symbol's status by cause; its contracts are the kept ones of the selected strikes of the selected expiries, with distinct keys; its plan counts them |
| `Plan.DiscoveryDetermined` | internal/chainrec/run.go:256-317 | the broker's answers determine a symbol's plan and contracts |
| `Discovery.OrderContractsSorts` | internal/chainrec/select.go:314-319 | the work is sorted by rank, symbol, expiry, class and side and loses nothing |
| `Discovery.OrderContractsStable` | internal/chainrec/select.go:314-319 | no contract moves past one it is tied with |
| `Discovery.WorkOrderMeans` | internal/chainrec/select.go:314-319 | ordered work goes by rank, then symbol, then expiry, then class, then calls before puts |
| `Discovery.OrderedWork` | internal/chainrec/select.go:314-319 | ordering makes the work rank-first and keeps distinct keys and every symbol's count |
| `Discovery.RecordPlan` | internal/chainrec/run.go:488-495 | a plan of a new symbol is stored exactly when the medium works; otherwise the stop becomes `store_error` |
| `Discovery.DiscoverOne` | internal/chainrec/run.go:203-213 | a symbol is left undiscovered exactly on cancellation, at the deadline or after a stop, and otherwise planned from its probe |
| `Discovery.DiscoverAll` | internal/chainrec/run.go:189-217 | the records, every symbol's plan and contribution, the stop and the gap flag after all symbols, and the work as the ordered union of the contributions |
| `Discovery.WorkDetermined` | internal/chainrec/run.go:189-217 | the answers of broker, clock, context and store determine every plan, the stop, the gap flag and the work |
| `Discovery.PlanHandedOver` | internal/chainrec/run.go:189-219 | what discovery hands over is rank-first, has distinct keys, and its stored plan counts the contracts of each symbol |
| `Discovery.RecordingOrder` | internal/chainrec/run.go:194-204 | resolved symbols stay distinct in the order they are recorded, skipped ones first |
| `Update.UpdateCoordinator.ShouldCheckLocked` | internal/app/update.go:91-103 | no check while one is in flight or an update runs, else by age of the last attempt |
| `Update.UpdateCoordinator.Poll` | internal/app/update.go:76-89 | the new status and whether a check was started |
| `Update.UpdateCoordinator.Refresh` | internal/app/update.go:105-142 | the status a metadata answer leaves |
| `Update.UpdateCoordinator.Start` | internal/app/update.go:147-174 | accepted or refused with its reason, and the new status |
| `Update.UpdateCoordinator.AwaitUpdate` | internal/app/update.go:176-203 | the status a finished update process leaves |
| `Update.LaunchIff` | internal/app/update.go:147-174 | a step launches a process exactly when it is a start the system could launch, for the version on record, while one is offered or the last attempt failed |
| `Update.LaunchedWasOffered` | internal/app/update.go:105-174 | over any run from the start of the app, every process is launched for the latest version of the last release delivered, an available update unless one failed since |
| `Update.CheckStartsIff` | internal/app/update.go:76-103 | a poll starts a check exactly when none is in flight, no update runs, the build is not a development one, and the last attempt is absent or old enough |
| `Update.BootShown` | internal/app/update.go:47-72 | the status the app starts with |
| `Update.AnswerShown` | internal/app/update.go:105-142 | the status each kind of answer is shown as |
| `Update.EndShown` | internal/app/update.go:176-203 | the status each end of a process is shown as |
| `Update.GuardedRunsAreTruthful` | internal/app/update.go:76-203 | if every start is accepted only with no check in flight, then in every interleaving `Updating` holds exactly while one process runs, at most one runs, and `Checking` holds exactly while one check is in flight |
| `Update.GuardedFromBoot` | internal/app/update.go:42-74 | so every guarded run from the start of the app is truthful throughout |
| `Update.GuardIsNecessary` | internal/app/update.go:147-174 | after an accepted start every next report keeps the status truthful if and only if no check was in flight |
| `Update.TwoProcessesPossible` | internal/app/update.go:105-174 | without that guard a run exists in which two update processes are alive at once |
| `Update.ChecksAreSpaced` | internal/app/update.go:91-103 | with no update succeeding in between, the next check comes at least the failure retry after the latest attempt (a check or a failed update), and the full interval unless the state is a failure |
| `Update.SuccessResets` | internal/app/update.go:189-202 | a successful update is the exception, always: right after it a check is due at any time |
| `Escapes.VisibleLen` | internal/cli/cli.go:611-628 | the loop counts the runes outside escapes |
| `Escapes.CellsConcat` | internal/cli/cli.go:611-628 | joining never widens, and adds up exactly behind complete escapes |
| `Escapes.SplitVisibleWord` | internal/cli/brief.go:70-93 | the unique cut that leaves `width` cells in front, outside every escape and before a visible rune |
| `Escapes.SplitWordProps` | internal/cli/brief.go:70-93 | nothing is lost and the remainder is exactly `width` cells narrower |
| `Escapes.CutUnique` | internal/cli/brief.go:70-93 | there is only one such cut |
| `Wrap.ChopProps` | internal/cli/brief.go:47-55 | the split loop ends: pieces make up the word, all but the last are full and cut outside escapes |
| `Wrap.WrapVisibleText` | internal/cli/brief.go:37-68 | the lines are the greedy packing of the words' pieces |
| `Wrap.WrapWidth` | internal/cli/brief.go:37-68 | no line is wider than `width`, for every text |
| `Wrap.WrapContent` | internal/cli/brief.go:37-68 | nothing but white space is added, dropped or moved, for every text and width |
| `Wrap.WrapTight` | internal/cli/brief.go:37-68 | for every text, no line could have taken the first piece of the next, split words included |
| `Wrap.WrapOptimal` | internal/cli/brief.go:37-68 | when every word fits and completes its escapes, no order-preserving packing has fewer lines |
| `Wrap.OptimalIffClosed` | internal/cli/brief.go:37-68 | over any vocabulary of fitting words that includes the escape-free ones, every text is wrapped in the fewest lines if and only if every word completes its escapes |
| `Wrap.SharesLineIffClosed` | internal/cli/brief.go:57-61 | a first word shares its line with every second word that fits if and only if it completes its escapes |
| `Packing.PackContent` | internal/cli/brief.go:594-627 | greedy packing keeps the pieces in order |
| `Packing.PackedFits` | internal/cli/brief.go:594-627 | greedy packing respects the width under any sound measure |
| `Packing.PackedTight` | internal/cli/brief.go:594-627 | greedy packing leaves no room for the next piece, split words included |
| `Packing.GreedyOptimal` | internal/cli/brief.go:594-627 | greedy packing is optimal under any additive measure |
| `Packing.PackAgrees` | internal/cli/brief.go:37-68 | packing commutes with a translation of words under which the measures agree |
| `Tokens.TokensJoin` | internal/cli/brief.go:45 | splitting into words undoes joining them |
| `Tokens.TokensContent` | internal/cli/brief.go:45 | the words hold everything but the spaces, in order |
| `Brief.SanitizeMeans` | internal/cli/brief.go:713-720 | sanitizing works rune by rune: control characters are dropped, the rest stays in place |
| `Brief.BriefWords` | internal/cli/brief.go:563-582 | the words are those of the whole tinted text, every rune with its role: a run boundary neither makes nor removes a word break |
| `Brief.WordsErased` | internal/cli/brief.go:563-582 | with roles erased the words are those of the concatenated sanitized run texts |
| `BriefWrap.BriefWordLen` | internal/cli/brief.go:584-590 | the cells of all fragments |
| `BriefWrap.SplitBriefWord` | internal/cli/brief.go:630-650 | the loop is the split function |
| `BriefWrap.SplitSegsProps` | internal/cli/brief.go:630-650 | splitting keeps every rune and its role and fills the head exactly |
| `BriefWrap.BriefWrapWords` | internal/cli/brief.go:594-628 | the lines are the greedy packing of the tinted words' pieces |
| `BriefWrap.BriefWrapFits` | internal/cli/brief.go:594-628 | no line overruns and every rune keeps its place and role |
| `BriefWrap.BriefWrapTight` | internal/cli/brief.go:594-628 | for every list of words, no line could have taken the first piece of the next |
| `BriefWrap.BriefWrapOptimal` | internal/cli/brief.go:594-628 | when every word fits no order-preserving packing has fewer lines |
| `BriefWrap.BriefWrapsLikePlain` | internal/cli/brief.go:594-628 | on the same words (no escapes, no white space inside) the two wrappers make the same lines, for every width, if and only if there is a word |
| `BriefWrap.BriefWrapsRunsIff` | internal/cli/brief.go:563-628 | for any runs and width, wrapping the tinted words and erasing roles equals wrapping the run texts if and only if there is a word and, for a positive width, the texts contain no white space but blanks, for any other, the trimmed text is single-spaced and lost nothing but blanks |
| `BriefWrap.EscapeFragmentMoves` | internal/cli/brief.go:630-650 | a fragment made of complete escapes is cut off on the other side than in plain text, so escapes have to be excluded |
| `Colour.ActIsRed` | internal/cli/brief.go:699-708 | a word to act on is printed red |
| `Colour.WatchIsYellow` | internal/cli/brief.go:699-708 | a word to watch is printed yellow |
| `Colour.OthersArePlain` | internal/cli/brief.go:699-708 | any other word is printed plain |
| `Colour.BlankBetween` | internal/cli/brief.go:687-695 | the blank between two words stays inside the span of a shared role and is plain otherwise |
| `Colour.BriefLineText` | internal/cli/brief.go:654-683 | the printing loop is the line function |
| `Colour.LineDisplayed` | internal/cli/brief.go:654-683 | for words without escapes, on a strict terminal every rune appears once, in order, in its role's colour; colours never nest and none is left on |
| `Colour.ColourErased` | internal/cli/brief.go:654-683 | for words without escapes, erasing the escapes gives the uncoloured line, and colour changes no width |
| `Colour.FewestEscapes` | internal/cli/brief.go:654-683 | for words without escapes and without empty fragments, no output that displays the same has fewer escapes |
| `Colour.PrintedInColour` | internal/cli/brief.go:460-478 | for any runs every printed line displays each rune once in its role's colour, leaves no colour on, erases to the uncoloured line and has the fewest escapes |
| `Colour.PlainLine` | internal/cli/brief.go:654-683 | without colour the line is its words with a blank between |
| `Colour.PrintedWidth` | internal/cli/brief.go:460-478 | for any runs no printed line is wider than asked for, coloured or not |

## Left out

- SQLite, the write-ahead log, file modes, JSON, time formatting and the text form of cursors: tables are
  append-only sequences with their uniqueness constraints, a failing medium is an environment choice.
- Two slice-level facts of the recorder: that `pending[:0]` reuses its backing array, so that a sink must
  copy the rows, and that `orderContracts` sorts in place. Buffer and work are values here.
- The live broker, the gateway and the market calendar: their answers are arbitrary.
- The memo map of `USEquityDays` and `schedule.go`: only easy window checks over an unseen calendar.
- Floating point: strikes, spots and window bounds are exact reals, rounding to 1e-4 is exact rounding of
  halves away from zero.
- Upper-casing of symbols is modelled only as far as it can produce a character a symbol may contain.
- Invalid UTF-8 in wrapped text, and double-width or combining characters, which the source counts as one
  cell each.
- Source, spot, detail text and discovery time of a symbol's plan, and the broker's detail texts beyond
  being carried along.
- The coverage query restricted to one symbol, `Stats`, `Runs`, `HasRun` and `TwoSidedQuotes`.
- The text of a failed update and version comparison: the comparison's result is an arbitrary value.
- All other renderers, flag parsing, RPC adapters, process management and release scripts.
- Wrap.WrapOptimal: asks every word to complete its escapes, because optimality is false without it.
  `Wrap.OptimalIffClosed` shows that this is exactly what makes every text over a vocabulary optimal; a
  single text may still happen to be packed optimally without it.
