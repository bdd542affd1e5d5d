# Monatise: verified models

Dafny models of the decision machinery of Monatise, with proofs. Each module follows one component of the
repository; classes and methods stand where the source updates objects in place, functions and lemmas where it
computes, and state machines over single steps where tasks or threads interleave. A class method is proved
against a function on values, and the results over whole runs are proved about that function.

- `GammaReconstruction`: sign-change detection, bisection and single-strike stress behind a certified gamma flip.
  Per-contract gamma is an opaque function of spot that includes the constant factor of the exposure and the
  square of spot. The source bisects 40 times; the model takes the number of halvings as a parameter, so that
  every result holds for 40.
- `Backtest`: the grid-spacing walker, one strategy and all of them together. The grid planner and the
  price-action engine are pure functions of the candles so far. The comment at
  scripts/backtest_grid_spacing.py:290-292 has confirmed trades reconcile with closed, ambiguous and censored ones.
  The code also has a bucket for confirmations on the last candle; the exact condition under which the comment
  holds, and a run in which it does not, are proved. Two more facts a reader of the reports should know are proved
  with their conditions: a strategy listed twice books its remainder twice, and an entry that gaps past its target
  is booked as a gain. Candles up to the warm-up confirm nothing, so that the condition speaks of longer runs.
- `GoldRecords`, `GoldReplay`: the fail-closed, de-duplicating futures replay and the figures of its snapshots.
- `Simulator`: the reservation allocator and the fill ledger of the liquidity simulator.
- `ShadowIntent`: tick-rounded levels and floor-to-step sizing. A target on the losing side of the entry is
  possible, and so is a loss beyond the budget when the fill is at the quoted price; the exact conditions and
  concrete requests are given.
- `IntentClaims`: the claim protocol over the versioned document store, with failures, lost acknowledgements,
  cancellations and deletions as steps. `put` inserts an absent document whatever version is expected.
- `WorkerPool`, `Scanner`, `ScannerPipeline`: the bounded worker pool under every schedule, the ranking, and the
  staged run with its publication gate. Symbols and scores do not depend on the schedule; directions do, and the
  exact condition is given.
- `GoldBasis`: the bounded basis window, its median and the enclosure of mapped levels.
- `SingleFlight`: the shared table of exchange pairs, loaded by one thread at a time.
- `TtlCache`, `Payloads`, `MarketClient`, `ClientThreads`: the bounded response cache as a dictionary in insertion
  order, the mutable response trees, the client object, and the interleavings of its threads. The client object and
  the threads use the same functions for storing and for the delay of a permit. Only that a sleep does not end early
  and that the clock does not run backwards is assumed.
- `SnapshotLock`: the life of the dashboard's locked signal.
- `Common`: optional values, results, exact arithmetic.

Floats and decimals are exact reals. Clocks, quotes, provider answers and schedules are inputs of the operations
or of the runs.

## Model

| member | source | states |
|---|---|---|
| `GammaReconstruction.Values` | monatise/application/gamma_reconstruction.py:281-291 | the loop's map has, at each strike, the grouped exposure of all contracts there |
| `GammaReconstruction.GroupingKeepsSums` | monatise/application/gamma_reconstruction.py:281-291 | grouping by strike loses and doubles nothing: the grouped values add up to the plain sum over contracts, and each strike holds the sum of its own contracts |
| `GammaReconstruction.NetIsBookExposure` | monatise/application/gamma_reconstruction.py:293-295 | unstressed net exposure is the direct per-contract sum, whatever the grouping |
| `GammaReconstruction.StressedNetIsReweightedExposure` | monatise/application/gamma_reconstruction.py:293-295 | stressing one strike by a fraction is exactly the exposure of the book with that strike's open interest scaled by it |
| `GammaReconstruction.GridLaws` | monatise/application/gamma_reconstruction.py:323 | the 513 samples run evenly from half of spot to one and a half times spot |
| `GammaReconstruction.FlipsAreSignChanges` | monatise/application/gamma_reconstruction.py:318-321 | an index pair is reported if and only if both samples are nonzero, of opposite sign, and everything between them is zero |
| `GammaReconstruction.FlipsOrdered` | monatise/application/gamma_reconstruction.py:318-321 | crossings come in grid order and share no more than an endpoint |
| `GammaReconstruction.ThinningNeverAddsFlips` | monatise/application/gamma_reconstruction.py:326-327 | dropping any sample points never adds a crossing, so the half-density grid never has more than the fine one |
| `GammaReconstruction.HalfGridInheritsRise` | monatise/application/gamma_reconstruction.py:326-327 | when the fine grid rises once, the half grid rises once too as soon as it still sees both signs |
| `GammaReconstruction.SingleFlipIsRegime` | monatise/application/gamma_reconstruction.py:297-308 | a single negative-to-positive crossing means: every nonzero sample up to the bracket is negative and every one from it on is positive, and conversely |
| `GammaReconstruction.BisectKeepsBracket` | monatise/application/gamma_reconstruction.py:309-316 | bisection keeps net(low) <= 0 < net(high) inside the first bracket and halves the width each time |
| `GammaReconstruction.BisectKeepsThreshold` | monatise/application/gamma_reconstruction.py:309-316 | a point where the sign really changes stays inside the bracket through all halvings |
| `GammaReconstruction.LocationError` | monatise/application/gamma_reconstruction.py:309-316 | the returned middle is within half of the final width of a true sign change |
| `GammaReconstruction.RootAccepted` | monatise/application/gamma_reconstruction.py:297-316 | root succeeds if and only if the sampled net rises exactly once from negative to positive, and then returns a located boundary |
| `GammaReconstruction.RootRefused` | monatise/application/gamma_reconstruction.py:297-308 | which of the three refusals is raised, characterised on the samples alone |
| `GammaReconstruction.Root` | monatise/application/gamma_reconstruction.py:297-316 | the loop computes the specified boundary or refusal |
| `GammaReconstruction.Reconstruct` | monatise/application/gamma_reconstruction.py:276-361 | the whole computation, with its stored profiles and stress loops, returns the specified certificate or refusal |
| `GammaReconstruction.StressIsWorstCase` | monatise/application/gamma_reconstruction.py:332-342 | the early-exit stress loop succeeds if and only if every variant does and moves the boundary within policy, and reports the largest move |
| `GammaReconstruction.CertificateIff` | monatise/application/gamma_reconstruction.py:276-342 | exactly when a certificate is issued, on the exposure of the book: coverage, one rise on the fine grid and on its half with boundaries that agree within a millionth of spot, and, with the open interest of any one strike a quarter down or up, one rise whose boundary lies within a thousandth of spot of the first |
| `GammaReconstruction.CertificateRefused` | monatise/application/gamma_reconstruction.py:276-342 | which refusal is raised, in the order of the checks and of the variants |
| `GammaReconstruction.CertificateMeaning` | monatise/application/gamma_reconstruction.py:326-347 | the certified flip is the located boundary of the whole book strictly inside the covered strikes; the net figure is the per-contract sum at spot |
| `GammaReconstruction.CertificateStress` | monatise/application/gamma_reconstruction.py:332-342 | on success the book with any one strike a quarter down or up has its own located boundary v, and |v - flip| <= reported maximum * spot <= 0.001 * spot |
| `GammaReconstruction.MaximumIsAttained` | monatise/application/gamma_reconstruction.py:332-347 | a positive reported maximum is the move of some variant exactly |
| `Backtest.NearestGridLevel` | monatise/application/production_analysis.py:244-255 | a closest level of either side; buy levels win ties |
| `Backtest.StrategyStats.StepCandle` | scripts/backtest_grid_spacing.py:194-288 | one loop body updates the counters, lists, pending setup and trade exactly as the step specification says |
| `Backtest.RunBacktest` | scripts/backtest_grid_spacing.py:182-304 | the dictionaries and statistics objects of the joint walk end in the specified joint state, each strategy in its own fresh object |
| `Backtest.JointRunIsPointwise` | scripts/backtest_grid_spacing.py:188-302 | in a joint run a strategy ends where it would end alone; only how often it is listed matters |
| `Backtest.NonInterference` | scripts/backtest_grid_spacing.py:188-302 | with distinct strategies the joint run reports for each what a run of it alone reports |
| `Backtest.WalkIsCausal` | scripts/backtest_grid_spacing.py:188-288 | everything known after candle n-1 depends only on candles up to it, on whether a next candle exists, and on its open |
| `Backtest.OpenOnlyPricesEntry` | scripts/backtest_grid_spacing.py:253-265 | the next open reaches nothing but the entry price of a trade just confirmed: counters, lists and setup do not see it |
| `Backtest.WalkIsSound` | scripts/backtest_grid_spacing.py:188-288 | in every run: the books balance, never a pending setup beside an open trade, a setup lives at most its validity and a trade at most the hold limit from its entry candle |
| `Backtest.AccountingIff` | scripts/backtest_grid_spacing.py:290-302 | the reported figures reconcile (decisions, confirmations, touches and list lengths) if and only if the strategy is listed once or has nothing left open |
| `Backtest.ListedOnceIff` | scripts/backtest_grid_spacing.py:182-304 | a listed strategy's report reconciles on all candles and callees if and only if it is listed once |
| `Backtest.RepeatedNameFails` | scripts/backtest_grid_spacing.py:290-302 | a concrete run in which any repeated name breaks the identities |
| `Backtest.ConfirmedTradesReconcileIff` | scripts/backtest_grid_spacing.py:290-302 | confirmed trades equal closed plus ambiguous plus censored ones, as the comment there claims, if and only if no setup is confirmed on the last candle |
| `Backtest.LastCandleConfirmation` | scripts/backtest_grid_spacing.py:245-261 | a concrete run with one confirmed trade that is neither closed, ambiguous nor censored |
| `Backtest.JointAccounting` | scripts/backtest_grid_spacing.py:182-304 | with distinct strategies the accounting identities hold for every strategy of the joint run |
| `Backtest.RatesAreShares` | scripts/backtest_grid_spacing.py:145-163 | with reconciled books the reported rates are ordered shares; win and false-entry rates sum to one |
| `Backtest.WalkOutcomes` | scripts/backtest_grid_spacing.py:216-228 | in every run the losses are exactly the -1 entries of the R list, with no positive pnl, and all other entries carry a nonnegative pnl |
| `Backtest.SetupBirth` | scripts/backtest_grid_spacing.py:277-288 | a setup is born exactly when nothing is open and a grid exists, at a nearest level with a symmetric zone and full validity, and is counted |
| `Backtest.SetupWaits` | scripts/backtest_grid_spacing.py:237-275 | until it confirms or expires a setup changes only by remembering whether some candle touched its zone |
| `Backtest.SetupExpires` | scripts/backtest_grid_spacing.py:268-275 | a setup never confirmed ends on its expiry candle, counted as touched if any candle since its birth met its zone and as untouched otherwise |
| `Backtest.TouchMeans` | scripts/backtest_grid_spacing.py:239 | a candle touches the zone exactly when some price lies in both ranges |
| `Backtest.TradeEntry` | scripts/backtest_grid_spacing.py:250-267 | a trade opens exactly on a confirmed setup with a next candle, at that candle's open, with the opposite side's first level as target and the grid's invalidation |
| `Backtest.QuietTradeStays` | scripts/backtest_grid_spacing.py:197-235 | while no level is hit and the deadline is not reached nothing at all changes |
| `Backtest.TradeEndsAtFirstHit` | scripts/backtest_grid_spacing.py:197-235 | a trade is booked by the first candle, from its entry candle on, that hits a level or reaches the deadline, into the bucket that candle decides |
| `Backtest.ClosedTradePnl` | scripts/backtest_grid_spacing.py:203-228 | a closed trade books the distance from entry to the level it hit, which is its gain there if and only if the entry had not gapped past it; and one R multiple: -1 for a loss, for a win reward over risk, 0 when there was no risk |
| `Backtest.TimedOutTrade` | scripts/backtest_grid_spacing.py:229-235 | a trade that reaches its deadline untouched is marked at the close of that candle and books no result |
| `Backtest.OpenTradeMarked` | scripts/backtest_grid_spacing.py:293-302 | a trade still open after the last candle is marked at its close |
| `Backtest.GappedEntryBooksAWin` | scripts/backtest_grid_spacing.py:221-228 | a concrete run whose entry opens above the target books a gain for what was a loss at the target |
| `Backtest.BearishMirrorsBullish` | scripts/backtest_grid_spacing.py:203-234 | a bearish trade on a candle is booked as the mirrored bullish trade on the mirrored candle |
| `Backtest.MaxDrawdown` | scripts/backtest_grid_spacing.py:137-141 | one pass finds the minimum of S_j - S_i over all 0 <= i <= j of the prefix sums of realised pnl |
| `Backtest.StrategyStats.Summarize` | scripts/backtest_grid_spacing.py:133-169 | the rates, the closed and censored counts, both expectancies (none without closed trades), both totals and the drawdown of the summary, before display rounding |
| `GoldReplay.NothingLostSilently` | monatise/adapters/databento_gold.py:191-243 | while there is no gap the kept trades are exactly the first occurrences, in order, of all trades offered since the contract or session last changed |
| `GoldReplay.CleanIff` | monatise/adapters/databento_gold.py:191-283 | clean evidence stays clean if and only if the record was taken in or is an exact duplicate of a kept trade |
| `GoldReplay.ResentTradeIsNoOp` | monatise/adapters/databento_gold.py:225-230 | re-sending an accepted trade, however late and after whatever calls, changes nothing until the evidence starts afresh |
| `GoldReplay.QuarantineSticks` | monatise/adapters/databento_gold.py:177-189 | from a gap on every snapshot is unavailable and no envelope completes, until a selection changes contract or session |
| `GoldReplay.OnlyRestartLifts` | monatise/adapters/databento_gold.py:149-168 | one call lifts a quarantine if and only if it is a selection that changes contract or session |
| `GoldReplay.RunIsSound` | monatise/adapters/databento_gold.py:114-283 | in every run: seen keys are exactly the kept keys, keys distinct, events nondecreasing, clocks those of the last trade, every kept trade valid for contract and session, all three caches within their caps |
| `GoldReplay.RunDefinitions` | monatise/adapters/databento_gold.py:131-147 | every stored definition is an outright symbol of its own instrument, observed no later than available, available before expiry |
| `GoldReplay.DefinitionCleanIff` | monatise/adapters/databento_gold.py:131-147 | a definition call stores what it parsed within the cap, disturbs no other, and leaves clean evidence clean exactly when it neither rejects nor changes the selected contract |
| `GoldReplay.SnapshotFlow` | monatise/adapters/databento_gold.py:310-331 | over any run a usable snapshot's volume, known volume and delta are the total size, the sided size and the B minus A size of the raw offers that were first with their key |
| `GoldReplay.UsableSnapshot` | monatise/adapters/databento_gold.py:309-347 | the figures of a usable snapshot are those of the de-duplicated offered trades and obey the volume laws |
| `GoldReplay.SnapshotMeans` | monatise/adapters/databento_gold.py:285-309 | available exactly when nothing is missing or quarantined, session and contract are open, and coverage end, last event, last receipt and both quote times all lie within the permitted age; which reason otherwise; it dates from the earliest of the five and expires with it, the session or the contract |
| `GoldReplay.SnapshotPrices` | monatise/adapters/databento_gold.py:310-333 | notional, profile and point of control of a usable snapshot, over the raw offers of a run that were first with their key |
| `GoldReplay.ExpiryIsExact` | monatise/adapters/databento_gold.py:299-348 | left alone a usable snapshot stays usable up to its announced expiry and not beyond, and the expiry lies between now and now plus the maximum age |
| `GoldReplay.DefinitionEffect` | monatise/adapters/databento_gold.py:131-147 | which definition records are stored, what is stored of them, and which quarantine the evidence |
| `GoldReplay.SelectionEffect` | monatise/adapters/databento_gold.py:149-168 | a selection succeeds exactly for a known, unexpired definition within the session; a change of contract or session drops every trace of the old evidence, a repetition changes nothing |
| `GoldReplay.CompletionEffect` | monatise/adapters/databento_gold.py:170-185 | which envelopes are accepted; only the coverage changes |
| `GoldReplay.TradeEffect` | monatise/adapters/databento_gold.py:198-243 | a trade is taken exactly when there is nothing against it and no kept trade has its key, and then appended with its own fields; otherwise the reasons quarantine the evidence |
| `GoldReplay.QuoteEffect` | monatise/adapters/databento_gold.py:244-267 | a book record with nothing against it becomes the quote, with the prices of its top level |
| `GoldReplay.StatisticEffect` | monatise/adapters/databento_gold.py:268-282 | a statistic with nothing against it is stored under its type and reference time |
| `GoldReplay.OtherSchemaEffect` | monatise/adapters/databento_gold.py:283 | no other schema is ever taken, and it quarantines |
| `GoldReplay.GCReplay.AddDefinition` | monatise/adapters/databento_gold.py:131-147 | new state and result of the call, gap marking before the capacity check included |
| `GoldReplay.GCReplay.Select` | monatise/adapters/databento_gold.py:149-168 | succeeds exactly for a current definition and session; a change clears all evidence, a repetition none |
| `GoldReplay.GCReplay.CompleteReplay` | monatise/adapters/databento_gold.py:170-185 | succeeds exactly for a gap-free envelope that opens with the session and covers the last receipt |
| `GoldReplay.GCReplay.Ingest` | monatise/adapters/databento_gold.py:191-283 | new state and verdict of the call; every exception leaves a quality gap |
| `GoldReplay.GCReplay.Snapshot` | monatise/adapters/databento_gold.py:285-354 | available exactly when evidence is complete, in session and fresh; figures, oldest time and expiry as specified, otherwise the first reason that applies |
| `GoldRecords.Tabulate` | monatise/adapters/databento_gold.py:310-319 | one pass computes volume, notional, profile, delta, known volume and point of control |
| `GoldRecords.PointOfControl` | monatise/adapters/databento_gold.py:333 | the lowest price among those with the largest size |
| `GoldRecords.ProfileIsVolumeByPrice` | monatise/adapters/databento_gold.py:310-315 | the profile has exactly the traded prices and at each the size traded there |
| `GoldRecords.FiguresAreUnique` | monatise/adapters/databento_gold.py:310-333 | the figures, the point of control among them, are determined by the records |
| `GoldRecords.FigureLaws` | monatise/adapters/databento_gold.py:310-339 | volume is the profile's total, known side within volume, delta within known side and of its parity, average price and point of control within any bounds on the prices |
| `Simulator.Simulation.PlanOrders` | app/app.js:5280-5307 | the open orders become the greedy reservation of the ladder against the current balances |
| `Simulator.Simulation.ApplyFill` | app/app.js:5309-5329 | new balances, fees, fills, resting buys and harvest of one fill |
| `Simulator.Simulation.StepSimulation` | app/app.js:5331-5361 | one candle: plan if empty, fill what is crossed in order, record equity at the close, re-plan |
| `Simulator.Simulation.RunAll` | app/app.js:5363-5367 | terminates after exactly the remaining candles |
| `Simulator.LadderAscends` | app/app.js:5261-5278 | the ladder ascends strictly, buys below and sells above the mark, mirrored about it |
| `Simulator.LadderRungs` | app/app.js:5261-5278 | the rungs are numbered away from the mark, the k-th k spacings of it further out |
| `Simulator.ReserveIsGreedy` | app/app.js:5284-5306 | the interleaved allocator is two independent greedy passes, costs against quote and quantities against base |
| `Simulator.RatioIsShare` | app/app.js:5252-5259 | the inventory ratio is the base's share of the equity, a proper share of nonnegative balances |
| `Simulator.NoEquityNoRatio` | app/app.js:5256-5259 | without a positive equity the ratio is zero |
| `Simulator.PlanIsLadder` | app/app.js:5280-5307 | the orders of a plan, rung by rung: an allowed side gets an order of the fixed quote size exactly when what earlier rungs left pays for it |
| `Simulator.PlanRespectsBand` | app/app.js:5281-5289 | beyond the inventory band the forbidden side gets no order |
| `Simulator.PlanOvershootIff` | app/app.js:5295-5298 | the buys of a plan stay within one slack of a nonnegative quote balance if and only if one order exceeds the slack or all of them together fit |
| `Simulator.CandleFills` | app/app.js:5331-5356 | a candle adds to the fills one per standing order it reaches (low <= price for a buy, high >= price for a sell), in ladder order, with that order's side, level, price and quantity and its fee, and leaves exactly the others open |
| `Simulator.StepMeans` | app/app.js:5331-5361 | a step fills what its candle reaches, records the equity at the close and plans anew at the close |
| `Simulator.CandleDecides` | app/app.js:5339-5354 | no order is lost or doubled: the reached ones and the others together are all standing orders |
| `Simulator.OverdraftIsOneSlack` | app/app.js:5280-5361 | after every single fill of every run, with orders above the slacks, quote >= -1e-8 and base >= -1e-10: the overshoot never accumulates |
| `Simulator.OverdraftIsOneSlackPerLevel` | app/app.js:5280-5361 | without any minimum order size the same bound holds once per level |
| `Simulator.RunInOrder` | app/app.js:5309-5361 | in every run the ledger identities for quote, base and fees hold and open orders are always covered by the current balances |
| `Simulator.RunLedger` | app/app.js:5309-5329 | in every run the balances are the starting ones moved by what was bought and sold and by fees, which are the fee rate's share of all that was traded |
| `Simulator.RunHarvest` | app/app.js:5313-5325 | in every run the realised harvest is the sum over the matched sell and buy fills |
| `Simulator.MatchingIsInjective` | app/app.js:5316-5324 | a match joins a sell to the latest earlier fill of its level, a buy, and no buy is matched twice |
| `Simulator.GainIsRoundTrip` | app/app.js:5322 | the gain of a pair is the quote the matched quantity brings in, fees of both fills paid |
| `Simulator.RunShape` | app/app.js:5357-5366 | k steps walk k candles and record one equity point each after the initial one, which marks the starting balances at the first open |
| `ShadowIntent.ValidMeans` | monatise/application/ftmo_execution.py:130-307 | what the records of a request have been checked for when they were constructed |
| `ShadowIntent.LevelPrices` | monatise/application/ftmo_execution.py:410-420 | a long enters at the ask and a short at the bid, to the nearest tick; stop and target are to that price what they are to the analysis price, rounded to ticks, down for a long and up for a short |
| `ShadowIntent.IntentPrices` | monatise/application/ftmo_execution.py:443-462 | every returned intent has those levels and the identities of what it was built from |
| `ShadowIntent.IntentLevels` | monatise/application/ftmo_execution.py:412-422 | entry, stop and target on the tick grid; the stop strictly on the losing side, at no less than the minimum distance |
| `ShadowIntent.LevelsKeepProportion` | monatise/application/ftmo_execution.py:410-418 | before rounding stop and target are to the executable price what they are to the analysis price |
| `ShadowIntent.IntentTarget` | monatise/application/ftmo_execution.py:412-419 | the target is on the losing side of the entry if and only if the stated rounding condition on the quote holds, never for a tick-aligned quote |
| `ShadowIntent.AlignedTargetNeverLoses` | monatise/application/ftmo_execution.py:412-419 | from a price on the tick grid the entry is that price and the target is not on its losing side |
| `ShadowIntent.TargetCanLose` | monatise/application/ftmo_execution.py:412-419 | a concrete request whose returned intent has its target on the losing side |
| `ShadowIntent.FillLossIff` | monatise/application/ftmo_execution.py:411-439 | stopped out from the quoted price instead of the rounded entry, an intent loses more than its budget if and only if rounding moved the entry towards the stop by more than the unused budget pays for; never by more than half a tick |
| `ShadowIntent.FillLossCanExceed` | monatise/application/ftmo_execution.py:419-439 | a concrete request whose fill at the quoted price loses 324 on a budget of 300 |
| `ShadowIntent.IntentRisk` | monatise/application/ftmo_execution.py:424-434 | on the account's own fields: risk within the policy's share of equity, at most three percent; with the safety buffer, and with today's loss as well, within the daily limit; with the risk already open within its cap |
| `ShadowIntent.IntentVolume` | monatise/application/ftmo_execution.py:436-443 | volume within the symbol's limits, and no larger volume on the step grid fits the budget at the loss between the intent's own entry and stop |
| `ShadowIntent.SizedIntentRefused` | monatise/application/ftmo_execution.py:421-442 | which refusal comes first, on the fields of account, policy and symbol: stop distance, daily capacity, negative open risk, total open risk, no stop distance at all, or no multiple of the step from the minimum volume on that the budget pays for |
| `ShadowIntent.GateMeans` | monatise/application/ftmo_execution.py:370-408 | which check refuses a request before any level is computed, in their order and without divisions; otherwise it is sized at its levels |
| `ShadowIntent.IntentGates` | monatise/application/ftmo_execution.py:370-408 | every returned intent is on time, on one symbol and account, from an open market with a quote near the analysis and not too wide |
| `IntentClaims.AtMostOneWinner` | monatise/application/ftmo_execution.py:484-492 | for any number of processes and any interleaving, at most one claim of an intent whose document is never deleted succeeds |
| `IntentClaims.RunConserves` | monatise/application/persistence.py:81-101 | successful claims, stored but untold claims and revivals by marks together equal deletions plus the present document |
| `IntentClaims.WinnerOwnsRecord` | monatise/application/ftmo_execution.py:484-510 | the stored document is the winner's, its version counts the marks and it carries a reason once marked |
| `IntentClaims.NeverReopened` | monatise/application/ftmo_execution.py:498-510 | from any moment of any run on, while it is not deleted a document stays, a mark on it stays, its version never falls and no further claim of it succeeds |
| `IntentClaims.ClaimDecides` | monatise/application/persistence.py:81-101 | the put of a claim stores the intent exactly when its document is absent, whatever the claim read before, and otherwise ends as a duplicate and stores nothing |
| `IntentClaims.MarkDecides` | monatise/application/persistence.py:81-101 | the put of a mark goes through exactly when the document still has the version that was read, or is gone; it adds a version and the reason |
| `IntentClaims.LoneClaim` | monatise/application/ftmo_execution.py:484-492 | after any run, an evaluation that nothing disturbs succeeds and stores its intent if and only if there is no document of it |
| `IntentClaims.LoneMark` | monatise/application/ftmo_execution.py:498-511 | after any run, a mark that nothing disturbs marks the document if and only if there is one |
| `IntentClaims.DeletionReopens` | monatise/application/ftmo_execution.py:484-492 | once its document is deleted, an intent is claimed again |
| `IntentClaims.FailureDecides` | monatise/application/ftmo_execution.py:488-492 | a failure stores nothing; only the failing put of a claim is taken for a duplicate |
| `IntentClaims.LockDecides` | monatise/application/ftmo_execution.py:480-485 | a task enters its repository exactly when no task of its process is in there |
| `IntentClaims.SignalsAreAccounted` | monatise/application/ftmo_execution.py:572-626 | each process's signals equal shadow plus duplicate plus rejection counts plus evaluations in flight or cancelled |
| `IntentClaims.RunTallies` | monatise/application/ftmo_execution.py:572-626 | each count of a process is the number of its evaluations that ended so |
| `IntentClaims.RunIsExclusive` | monatise/application/ftmo_execution.py:480-485 | at most one task of a process is inside its repository at a time |
| `WorkerPool.EachItemOnce` | monatise/application/ftmo_scanner.py:194-217 | at any moment of any schedule the callbacks started are the first items, each once; each is finished or in the hands of one of the workers, which are as many as the limit and the items allow |
| `WorkerPool.ScheduleIndependent` | monatise/application/ftmo_scanner.py:194-222 | for every schedule the results are those of the sequential map up to order, and results, empty results and failures together are the items |
| `WorkerPool.EveryScheduleEnds` | monatise/application/ftmo_scanner.py:201-221 | no schedule deadlocks or runs forever |
| `Scanner.RankObservations` | monatise/application/ftmo_scanner.py:66-99 | the output is strictly ordered by score and symbol, holds only best candidates, and omits one only when limit better ones are there |
| `Scanner.CandidateMeans` | monatise/application/ftmo_scanner.py:75-94 | an observation is admitted exactly when its first symbol names an enabled instrument, its score, derived if none is given, reaches the minimum, and its direction is long or short; it stands for the last instrument so named, with the rounded score |
| `Scanner.RankingMeans` | monatise/application/ftmo_scanner.py:95-99 | scores fall, symbols rise by code point where they are equal, and whatever is admitted is represented by an entry of its symbol that scores no less, unless the ranking is full of such |
| `Scanner.BestIsFirstMaximum` | monatise/application/ftmo_scanner.py:95-98 | the kept candidate of an instrument is the first one with the highest admissible score |
| `Scanner.RankedAreAdmissible` | monatise/application/ftmo_scanner.py:82-95 | everything ranked is a long or short observation of an enabled instrument, not below the minimum score before rounding |
| `Scanner.RankingIsPermutationInvariant` | monatise/application/ftmo_scanner.py:66-99 | however the observations are permuted, symbols and scores stay in the same places |
| `Scanner.RankingIsUnique` | monatise/application/ftmo_scanner.py:99 | for given observations there is only one such ranking, directions included |
| `Scanner.DirectionInvariantIff` | monatise/application/ftmo_scanner.py:95-98 | for a key with a competitor every order of the observations gives the same direction if and only if all its competitors with the highest rounded score have one direction |
| `Scanner.RankedDirectionsAgree` | monatise/application/ftmo_scanner.py:95-99 | where the tied maxima agree, permuted observations are ranked with the same direction too |
| `Scanner.DirectionDependsOnOrder` | monatise/application/ftmo_scanner.py:95-98 | two concrete observations of a listed instrument whose order decides the direction |
| `Scanner.RankedInstrumentsAreDistinct` | monatise/application/ftmo_scanner.py:96-99 | no instrument is ranked twice |
| `Scanner.RankingFitsUniverse` | monatise/application/ftmo_scanner.py:96-99 | a ranking has at most as many entries as there are enabled instruments |
| `ScannerPipeline.ShortlistIsScheduleIndependent` | monatise/application/ftmo_scanner.py:117-130 | with pure providers no schedule of the workers changes which symbols are shortlisted, their order or scores |
| `ScannerPipeline.GateMeans` | monatise/application/ftmo_scanner.py:178-191 | what may be published, and what makes the gate raise, on the fields of the analysis |
| `ScannerPipeline.FateMeans` | monatise/application/ftmo_scanner.py:151-162 | an analysis is suppressed when its symbol is not shortlisted or the gate blocks it, and otherwise published for the candidate of that symbol, or the run raises |
| `ScannerPipeline.PublishAll` | monatise/application/ftmo_scanner.py:150-165 | sends exactly the analyses whose fate is publication, in order, up to the first at which the gate or the publisher raises, and returns the counts of a run that does not raise |
| `ScannerPipeline.TallyMeans` | monatise/application/ftmo_scanner.py:150-165 | published is what was sent; suppressed is what was not, and what failed to be analysed |
| `ScannerPipeline.ShortlistIsAccounted` | monatise/application/ftmo_scanner.py:130-175 | for every schedule of the analyses: the shortlist is the ranking up to the deep limit, within the candidate limit and the universe; the run raises if and only if some analysis does; otherwise published plus suppressed equals shortlisted |
| `ScannerPipeline.PublicationsAreScheduleIndependent` | monatise/application/ftmo_scanner.py:145-165 | the schedule of the analyses decides neither whether the run raises nor the counts, and the same publications are sent up to order |
| `ScannerPipeline.OnlyConfirmedIsPublished` | monatise/application/ftmo_scanner.py:131-191 | whatever is sent is an analysis provided for a shortlisted candidate, names the enabled instrument it is sent for, and is actionable, confirmed, fresh, without execution or orders |
| `ScannerPipeline.FitIsPublished` | monatise/application/ftmo_scanner.py:131-165 | nothing fit is withheld: under every schedule the analysis of a shortlisted candidate is published for its instrument when it names that or nothing, passes the gate and is taken by the publisher, unless the run raises |
| `GoldBasis.GoldBasisService.Add` | monatise/application/gold_basis.py:46-104 | accepts exactly acceptable, ordered observations; a rejected one empties the window |
| `GoldBasis.AddMeans` | monatise/application/gold_basis.py:55-104 | which observations are accepted, on prices, spreads, clocks and order, and the exact window afterwards |
| `GoldBasis.RunIsSound` | monatise/application/gold_basis.py:55-104 | in every run: one contract, both clocks strictly increasing, at most 128 samples, positive midpoints within the skew |
| `GoldBasis.WindowIsLatest` | monatise/application/gold_basis.py:46-104 | the window is exactly the latest 128 samples accepted since the last rejection or change of contract |
| `GoldBasis.FreshPicks` | monatise/application/gold_basis.py:108-115 | the fresh samples are exactly those no older than the maximum age on both clocks, in their order |
| `GoldBasis.EstimateIff` | monatise/application/gold_basis.py:106-124 | when there is an estimate and which refusal there is otherwise: contract, number of fresh samples against the minimum, spread of their bases, distance of the latest from the median |
| `GoldBasis.EstimateReports` | monatise/application/gold_basis.py:119-135 | the median basis, the largest distance of a basis from it, the latest clock and the expiry of the earliest |
| `GoldBasis.MedianHalves` | monatise/application/gold_basis.py:120 | the median has at most half of the values strictly on either side, and lies between any bounds on them |
| `GoldBasis.MedianIsCentral` | monatise/application/gold_basis.py:120 | the median is the middle value in order, or equally far from both middle values |
| `GoldBasis.SpreadLaws` | monatise/application/gold_basis.py:119-125 | residual <= uncertainty <= dispersion <= twice the uncertainty, and every value within the uncertainty of the median |
| `GoldBasis.MappingEncloses` | monatise/application/gold_basis.py:106-152 | the mapped interval contains what every fresh basis maps the level to; it is positive, at most twice the permitted dispersion wide, and not expired |
| `GoldBasis.MappingMeans` | monatise/application/gold_basis.py:137-152 | which refusal a level meets; otherwise the interval of twice the uncertainty centred on the level less the basis |
| `GoldBasis.GoldBasisService.MapLevel` | monatise/application/gold_basis.py:137-152 | the service's mapping of a level contains what every fresh sample of its window maps it to |
| `GoldBasis.ObservedPairIsEnclosed` | monatise/application/gold_basis.py:96-149 | a futures midpoint maps to an interval around the broker midpoint observed with it |
| `GoldBasis.EstimateHoldsUntilExpiry` | monatise/application/gold_basis.py:106-135 | up to its announced expiry an estimate does not change while nothing is added |
| `GoldBasis.EstimateLosesSampleAfterExpiry` | monatise/application/gold_basis.py:133-134 | beyond it at least one of its samples is no longer fresh |
| `GoldBasis.ResidualCheckIsImplied` | monatise/application/gold_basis.py:121-124 | the residual check never refuses what the dispersion check accepts unless its limit is the smaller one |
| `SingleFlight.OneLoadAtATime` | monatise/adapters/coinglass.py:158-173 | under every interleaving at most one load is in progress |
| `SingleFlight.LoadsAreSpaced` | monatise/adapters/coinglass.py:150-173 | a successful load after a nonempty one starts at least the time to live later |
| `SingleFlight.ReturnsAreLoads` | monatise/adapters/coinglass.py:150-173 | every returned value is a completed load's: the thread's own, or a nonempty one younger than the time to live at its check |
| `SingleFlight.LoneCall` | monatise/adapters/coinglass.py:150-173 | after any run, an undisturbed call returns the cached table when that is nonempty and younger than the time to live, and otherwise loads, stores and returns, or fails |
| `SingleFlight.RecheckDecides` | monatise/adapters/coinglass.py:158-163 | the second check, under the lock, spares a thread the load that another one has made meanwhile |
| `TtlCache.MakeRoom` | monatise/adapters/coinglass_production.py:532-538 | the loops that drop expired entries and find the first of the oldest leave exactly the specified dictionary |
| `TtlCache.StoreLaws` | monatise/adapters/coinglass_production.py:526-539 | after a store the dictionary holds the new entry and every other live one, but for the first oldest when the key is new and the live ones fill the cap; keys stay distinct and the cap is kept |
| `TtlCache.StoreMeans` | monatise/adapters/coinglass_production.py:526-539 | the dictionary after a store, in order: the live items with the new one in the place of its key, or at the end, after the first oldest has been dropped if the live items fill the cap |
| `Payloads.Node.DeepCopy` | monatise/adapters/coinglass_production.py:539 | a copy of a whole tree of mutable nodes says the same and shares no node with it |
| `Payloads.Node.MirrorsIff` | monatise/adapters/coinglass_production.py:539 | two trees say the same if and only if they have the same tags and shape all the way down |
| `MarketClient.Client.RateLimit` | monatise/adapters/coinglass_production.py:519-524 | computes what is left of the minimum interval and sleeps for it; whenever asked, and however late it wakes, permits stay spaced |
| `MarketClient.PermitsMean` | monatise/adapters/coinglass_production.py:519-524 | every attempt takes one permit, when it is asked for or the minimum interval after the one before, whichever is later, and whatever the thread oversleeps |
| `MarketClient.MadeMeans` | monatise/adapters/coinglass_production.py:457-481 | attempts are made up to and with the first that is answered |
| `MarketClient.HitMeans` | monatise/adapters/coinglass_production.py:449-454 | a cache answers exactly the keys of its items that are no older than the time to live, with their values |
| `MarketClient.Client.ContentsAre` | monatise/adapters/coinglass_production.py:451-454 | the cached values are what the cached nodes say |
| `MarketClient.Client.Store` | monatise/adapters/coinglass_production.py:526-539 | the cached values become those of the specified store, held in a fresh deep copy |
| `MarketClient.Client.Query` | monatise/adapters/coinglass_production.py:445-481 | a live entry is answered without a permit; otherwise each attempt takes its permit, the first valid answer is stored and returned, and a failed price feed is counted; what is returned shares no node with the cache |
| `MarketClient.CallerMutates` | monatise/adapters/coinglass_production.py:291-305 | whatever a caller does to any node of a response it was given, the cache keeps its contents |
| `ClientThreads.ReturnsAreAnswers` | monatise/adapters/coinglass_production.py:445-472 | under every interleaving of threads what a query returns is an answer the transport gave for that very key: to its own request, or one stored no longer than the time to live before the thread's clock value |
| `ClientThreads.CacheHoldsLatestAnswers` | monatise/adapters/coinglass_production.py:462-472 | under every interleaving each cached entry is the latest stored for its key and an answer of the transport for it; keys stay distinct and the cap is kept |
| `ClientThreads.PermitsAreSpaced` | monatise/adapters/coinglass_production.py:519-524 | whichever threads take them, any two request permits are at least the minimum interval apart |
| `ClientThreads.LoneHit` | monatise/adapters/coinglass_production.py:449-454 | after any run, an undisturbed query with a live item of its key is answered from the cache without a permit |
| `ClientThreads.LoneMiss` | monatise/adapters/coinglass_production.py:455-472 | otherwise it takes a permit as soon as the minimum interval since the last one is over, and no sooner, and stores and returns the answer |
| `ClientThreads.RetryDecides` | monatise/adapters/coinglass_production.py:457-480 | a failing request is repeated as long as attempts are left |
| `ClientThreads.AttemptsAreBounded` | monatise/adapters/coinglass_production.py:457-480 | no query makes more attempts than allowed |
| `SnapshotLock.Dashboard.SnapshotLockedSignal` | app/coinglass-dashboard.js:937-1024 | new lock and shown signal of one refresh |
| `SnapshotLock.LockHoldsIff` | app/coinglass-dashboard.js:959-1003 | a refresh keeps the very same lock if and only if none of the listed events happens, and then shows its levels |
| `SnapshotLock.LevelsAreFrozen` | app/coinglass-dashboard.js:937-1003 | over whole runs every signal shown keeps the lock's levels until one of the listed events |
| `SnapshotLock.FirstSignalLocks` | app/coinglass-dashboard.js:1005-1022 | over whole runs, the first BUY or SELL candidate on an unlocked dashboard is locked as it is, until one of the listed events |
| `SnapshotLock.RunIsSound` | app/coinglass-dashboard.js:1005-1022 | from an unlocked start a held lock is a BUY or SELL reassessed at least a minute after its snapshot |
| `SnapshotLock.StructuralMeans` | app/coinglass-dashboard.js:1089-1098 | when a signal is structurally invalidated, on setup, score and price |
| `SnapshotLock.StructuralIsSubsumed` | app/coinglass-dashboard.js:1089-1098 | structural invalidation never fires unless the resolution already did |
| `SnapshotLock.InvalidationIsBeyond` | app/coinglass-dashboard.js:1068-1080 | an invalidation is accepted only strictly beyond its level, and never together with a target hit on a well placed signal |
| `SnapshotLock.ShownStatus` | app/coinglass-dashboard.js:937-1054 | an expired resolution is never shown; a resolved or unavailable lock is shown as WAIT and released |
| `SnapshotLock.ResolutionMeans` | app/coinglass-dashboard.js:1026-1080 | when a signal is resolved and how: by its time, else by a target reached, else by a break of its level by more than half a basis point of it, and on the crypto frames by more than half a unit |
| `SnapshotLock.RefreshMeans` | app/coinglass-dashboard.js:937-1024 | what each refresh does to the lock and shows, in all four cases |
| `SnapshotLock.IntervalMeans` | app/coinglass-dashboard.js:1116-1127 | every interval, once the space around it is gone, is a positive amount of minutes, hours, days or weeks, or falls back to half an hour |
| `SnapshotLock.IntervalReadsBack` | app/coinglass-dashboard.js:1116-1127 | a positive amount with a unit, in either case and with any space around it, is read back exactly |
| `SnapshotLock.CombinedIsPositive` | app/coinglass-dashboard.js:1116-1150 | every selection of intervals locks for at least a minute, malformed ones included |
| `SnapshotLock.CombinedAdds` | app/coinglass-dashboard.js:1129-1134 | intervals lock for their sum, and none at all for half an hour |

## Left out

- Rounding of floats and of 28-digit decimals, and rounding for display: every figure is exact.
- Black-Scholes prices and gammas, chain validation and the wall-clock work budget of the gamma reconstruction.
- The confirmation rules of the price-action engine and the construction of grids: pure parameters.
- `PendingSetup` as an object: a setup is a value that the walker replaces, since nothing else refers to it.
- The plain counters of the summary report, which are copied.
- Records of the gold feed that lack an attribute, clocks without a time zone, and digits of other scripts in a
  contract symbol. A record carries every attribute the replay reads.
- Messages of exceptions: a call that raises is told from one that returns, and refusals the source tells apart
  by reason are told apart.
- Order identifiers of the simulator and its handling of a configuration without candles, which the source refuses
  before the simulation starts.
- SHA-256: an intent's identifier stands for its identity record.
- `Simulator.OverdraftIsOneSlack`: needs orders above the slacks; without that `Simulator.OverdraftIsOneSlackPerLevel`
  gives the bound and `Simulator.PlanOvershootIff` the exact condition.
- `WorkerPool.ScheduleIndependent`: callbacks are pure functions of the item; with callbacks that depend on time only
  `WorkerPool.EachItemOnce` and the counts have a meaning.
- `Simulator.PlanOvershootIff`: the quote side only; the quantities of sells differ from level to level, and for them
  `Simulator.OverdraftIsOneSlack` and `Simulator.OverdraftIsOneSlackPerLevel` give the bounds.
- `ScannerPipeline.OnlyConfirmedIsPublished`: the session fields that are added to an analysis are not modelled; the
  gate does not read them.
- `MarketClient.Client.Query`: checks of data set names and parameters, telemetry and the random part of the pause
  between attempts; a pause may take any time.
- `SnapshotLock.IntervalReadsBack`: amounts are exact; one too large for a double falls back in the source.
- `SingleFlight.ReturnsAreLoads`: callers share the returned table; what they do to it is not modelled.
- `SnapshotLock.LevelsAreFrozen`: a lock read back from local storage and the explicit reset on an asset change in the
  page are not part of the runs; texts and check lists of a signal stand in one field. A level is passed as the
  number the page converts it to, so an absent one arrives as zero.
- `SingleFlight`, `ClientThreads` and `IntentClaims` are machines over values rather than classes, because their results
  are about how the steps of several threads or processes interleave.
- Free-text parsing, registry data, HTTP and WebSocket transport, DOM rendering, authentication and the remaining
  one-expression indicators.
