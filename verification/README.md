# Verified model of the stock-ai-platform trading and backtest core

This project models the parts of the platform where a mistake would cost money or report a wrong
number, and proves what they promise over every input and every run:

* **Real orders.** The gate chain and the two execution branches of the executor, the delta ledger
  of the fill sync, and the retry loop and answer classification of the broker transport, over shared
  tables of candidates, orders, fills, audits and outbound calls.
* **Paper orders and approval.** The matching loop of the simulation broker with the cash and
  position arithmetic of a fill, and the candidate workflow with its audit trail.
* **Backtest.** Selection, evaluation, aggregation, the regime and sector breakdowns, and
  walk-forward folds.
* **Technical indicators and scores.** EMA, MACD, Wilder's RSI, and the report and theme scores.
* **Login lockout.** The brute-force guard and the rate of failures that can pass it.

Code that changes state is a class or a method with loops (`Database`, `PaperBroker`, `Workflow`,
`BruteForceGuard`, `ExecuteOrder`, `SyncFills`, `GenerateFolds`, `ComputeMacd` and so on). Each is
proved equal to a function of the state before (`Execute`, `Sync`, `RunList`, `Approve`, `EmaAt`, ...),
and the laws are lemmas about those functions and about all runs of them. Lemmas named `...Exactly` say what such
a function does in the fields of its inputs, independently of how it is written. A row's id is its position in
its table. Time is whole UTC seconds in the real-order part, real seconds in the lockout, day numbers in
the backtest. Prices, amounts and averages are exact rationals with the code's own rounding written out.

What the modules hold: `KisTransport`, `RealOrderStore`, `RealOrderExecutor`, `FillSync` are the code of
the real-order part, `ExecutorLaws`, `SyncLaws`, `RealTradingRuns` and `FillLedger` its laws. `PnlTracker`, `CostModel`,
`SimulationBroker`, `ApprovalService` are the code of the paper part, `MatchingLaws`,
`PaperRuns`, `PaperRunBounds`, `ApprovalLaws` and `ApprovalRuns` its laws. `BacktestEngine`, `Metrics`, `Grouping`, `SectorBreakdown`, `WalkForward` hold the backtest,
`RegimeBreakdownLaws` and `BacktestLaws` its laws. `ScoreLaws` holds those of `ReportScore`. `Sequences`, `Strings`, `Decimals`, `Wrappers` are
shared.

## Where the code and its documentation disagree

The model follows the code.

* **A dry run can reach the broker.** The executor's own description says that a dry run places its order
  on the fake transport. `_execute_dry_run` uses whichever transport was injected, so with an injected real
  one and `real_order_dry_run=True` an order goes out and only a DRY_RUN row, written afterwards, records it.
  `DryRunsStayHomeExactly` says under which configurations this happens and `DryRunSends` gives such a run.
* **The daily cap and midnight.** The gate reads the clock before the row takes its own time. On a clock
  that does not go back, with calls one after another, the cap holds all the same (`RealTradingIsSafe`); when
  nothing is known of earlier rows it holds exactly when both readings fall on one KST day
  (`CapKeptExactlyOnOneDay`).
* **The ledger takes reports on trust.** A FULL report above the ordered quantity, or a PARTIAL report that is
  not strictly between, breaks the agreement of status and fills. `LedgerKeptExactly` gives the exact
  condition; reports the transport decodes with consistent quantities meet it. `OverfilledOrder` is an order of
  one share filled with two.
* **`execute_pending_orders` can raise**, although it is documented never to: exactly on a close at or below
  zero that the order's limit does not keep away (`RunRaisesExactly`; `ZeroCloseRaises` is one order and such a close).
  The accounts after that order then wait, which runs of one account each would not make them (`RaiseCutsOthersOff`).
* **A listing of one account stops at 10,000 rows** a status and drops the oldest orders first
  (`AccountRunCoversExactly`; `OverlongListing` is an account whose run misses its oldest order,
  `SecondRunRejectsTheMissed` one whose second run then acts).
* **A failed risk re-check at approval** leaves the candidate REJECTED, where the method's description says
  RISK_REJECTED, should the caller commit. A candidate whose paper submission fails stays APPROVED and no later call
  of the workflow moves it, again should the caller commit (`RunAdvances`). The approval routes commit neither.
* **Candidates approved through the routes never reach the executor.** It takes APPROVED candidates only, and an approval
  that succeeds has moved on to EXECUTED_PAPER while one that fails is not committed (`RoutesLeaveNoneApproved`,
  `RoutedCandidatesNeverExecute`).
* **Executed shares of a cancelled or rejected order are not booked.** The sync closes the order and writes no fill
  whatever quantity the report carries (`ReportIsBookedExactly`; `ExecutedThenCanceled` loses 7 of 10 shares).
* **An approval links whatever order already has its key.** It carries the candidate's own terms for certain only
  when the key was free (`ApprovalLinksOwnOrder`, `LinkedOrderHasOwnTerms`). In `TakenKeyLinksForeignOrder` a
  candidate of one share is EXECUTED_PAPER by an order of two.
* **MACD subtracts EMAs of different bars when the fast period exceeds the slow one** (`MacdAlignedExactly`).
* **The lockout bounds failures per window exactly when it outlasts the window** (`WindowBoundExactly`).
* **`generate_folds` never meets its exit test** for a validation window below one day when the first fold fits
  (`TerminatesExactly`; `FoldsWithoutEnd` is a window of no days). With no days it runs on; with a negative
  number its cursor walks back until the date arithmetic overflows.

## Model

| member | source | states |
|---|---|---|
| KisTransport.RunWithRetries | app/broker/kis_order_transport_real.py:220-240 | returns the first attempt that needs no retry, or the last of 1 + max_retries; every attempt before it wanted a retry |
| KisTransport.PlaceOrder | app/broker/kis_order_transport_real.py:381-440 | exactly one HTTP attempt, whatever its outcome |
| KisTransport.AnswerClass | app/broker/kis_order_transport_real.py:442-504 | the message of a classified answer reads back as the documented outcome; success goes with SUBMITTED only, and with the order number and the broker's text cut to 120 characters |
| KisTransport.ExecutorReadsTransportClass | app/broker/real_order_executor.py:215-231 | for every HTTP outcome the class the executor parses off the message is the one the transport decided, for any free text in the message |
| KisTransport.PaddedTokenIsRead | app/broker/real_order_executor.py:224-231 | a token is read in any letter case and with white space around it |
| KisTransport.OtherHeadIsUnknown | app/broker/real_order_executor.py:224-231 | any other head reads as UNKNOWN |
| Strings.AsciiExactly | app/broker/real_order_executor.py:228-228 | which characters are white space and which are upper-cased, and to what |
| Strings.StripExactly | app/broker/real_order_executor.py:228-228 | stripping takes white space off both ends and nothing else |
| KisTransport.CancelClassExactly | app/broker/kis_order_transport_real.py:691-782 | for every HTTP outcome the message of a cancel starts with the documented token |
| KisTransport.QueryFillStatus | app/broker/kis_order_transport_real.py:508-564 | one to three attempts, stopping at the first answer, and the report is that attempt's |
| KisTransport.CancelOrder | app/broker/kis_order_transport_real.py:672-729 | one to three attempts, stopping at the first answer; success iff HTTP 200 with business code 0, and the message starts with the documented token |
| RealOrderStore.WindowsPartitionTime | app/broker/real_order_executor.py:166-177 | the UTC windows built from KST midnights contain exactly the seconds of that KST day and partition time |
| RealOrderStore.KstDayIsNineHoursAhead | app/broker/real_order_executor.py:169-177 | a KST day runs from 15:00 UTC of the day before to 15:00 UTC |
| RealOrderStore.ExposureIsCommitted | app/broker/real_order_executor.py:179-190 | the exposure is the sum of the estimates of the account's orders dated between the day's midnights and outside FAILED, REJECTED and CANCELED |
| RealOrderStore.TodayTotalIsExposure | app/broker/real_order_executor.py:161-192 | the executor's windowed total equals the account's exposure of the KST day |
| RealOrderStore.LatestActive | app/data/repositories/real_order.py:125-175 | finds an active order of the candidate, or none exists |
| RealOrderStore.Database.UpdateStatus | app/data/repositories/real_order.py:179-190 | a status changes only from a status that is not terminal, and nothing else changes |
| RealOrderStore.Database.PlaceOrder | app/broker/real_order_executor.py:540-563 | a real call can go out only when its order row is on file as CREATED |
| RealOrderStore.Database.PlaceDryRun | app/broker/real_order_executor.py:477-485 | logs a dry run's call on an injected real transport with the order rows on file at that moment |
| RealOrderExecutor.ExecuteOrder | app/broker/real_order_executor.py:276-433 | the step-by-step execution changes the tables exactly as the gate chain and branch functions say, for every input |
| ExecutorLaws.OrderGoesOutExactly | app/broker/real_order_executor.py:293-433 | an execute call adds an order row iff the candidate is on file, APPROVED and without an order outside FAILED, REJECTED and CANCELED, the kill switch is off and the other three switches on, the estimate within the order cap and with the day's exposure within the daily cap, the risk engine content and, for a real order, a real transport at hand; otherwise nothing changes and the reason is that of the first test that fails |
| ExecutorLaws.BlockedByFirstFailure | app/broker/real_order_executor.py:195-209 | what the answer to a blocked call says, test by test; a duplicate names the newest active order |
| ExecutorLaws.PassingIsLetOut | app/broker/real_order_executor.py:470-637 | everything a call leaves that passes: the row's fields, the call at the price of the terms, the audit row, the outcome and the answer, dry or real |
| RealTradingRuns.ExecuteKeepsOneActive | app/broker/real_order_executor.py:312-332 | execute never makes a second active order for a candidate |
| RealTradingRuns.ExecuteKeepsCap | app/broker/real_order_executor.py:391-402 | execute keeps the daily cap also when midnight falls between its two clock readings, no row being dated later |
| RealTradingRuns.SyncEffect | app/broker/fill_sync_service.py:226-492 | a sync touches at most one open order's status and one audit row, never to FAILED or DRY_RUN, and sends nothing |
| RealTradingRuns.NextKeepsSound | app/broker/real_order_executor.py:276-637 | every execute, sync or workflow step keeps one active order per candidate and the match of orders, calls and audits, whatever the broker answers, the clock shows and the settings are |
| RealTradingRuns.NextKeepsCap | app/broker/real_order_executor.py:391-402 | every step of a clocked run keeps the daily cap, whatever the broker answers |
| RealTradingRuns.RealTradingIsSafe | app/broker/real_order_executor.py:312-402 | in every reachable state of any interleaving at most one active order per candidate; and if the run is clocked with non-negative estimates and no call's cap exceeds a bound, no exposure of an account and KST day does |
| RealTradingRuns.CapKeptExactlyOnOneDay | app/broker/real_order_executor.py:166-192 | with arbitrary earlier rows the cap survives a call, for all states, iff both clock readings fall on one KST day |
| RealTradingRuns.StraddlingCall | app/broker/real_order_executor.py:391-402 | a concrete call across midnight that doubles a day's exposure |
| RealTradingRuns.OneCallAndOneAuditPerRealOrder | app/broker/real_order_executor.py:520-637 | in every reachable state, with no condition on the run, real-path calls and real order rows correspond one to one with equal terms and the price of those terms, each with one audit row of the matching outcome; none is left CREATED |
| RealTradingRuns.DryRunSends | app/broker/real_order_executor.py:470-514 | a concrete run in which a dry run reaches the broker and no audit row or real order tells of it |
| RealTradingRuns.DryRunsStayHomeExactly | app/broker/real_order_executor.py:470-485 | for any set of settings and wirings that calls may meet, changing from call to call and on any clock: no dry run of any run under them, with candidates the repository accepts, reaches the broker iff none of them combines dry-run mode, an injected real transport and open switches and caps |
| RealTradingRuns.DryCallsHaveRows | app/broker/real_order_executor.py:477-505 | in every reachable state each call of a dry run went out when its DRY_RUN row, of the same candidate and terms and no other call's, was not on file yet; when every dry run had a real transport injected every DRY_RUN row had its call |
| FillSync.SyncFills | app/broker/fill_sync_service.py:226-325 | the step-by-step sync changes the tables exactly as the ledger function says, including every skip |
| FillSync.DispatchStatus | app/broker/fill_sync_service.py:327-492 | the same for an open order and each class of report, the status written by guarded updates only |
| SyncLaws.ReportSetsTotal | app/broker/fill_sync_service.py:154-174 | the fill total after a report, in its own fields: the greatest of the old total, 0, and for PARTIAL the reported, for FULL the reported and the ordered quantity; other reports leave it |
| SyncLaws.AnswerClassesExactly | app/broker/kis_order_transport_real.py:566-668 | how the sync classes every answer of the transport, in the fields of the answer, and the quantities it decodes |
| SyncLaws.DecodedExecutionIsBooked | app/broker/fill_sync_service.py:393-430 | for a consistent answer with a positive executed quantity the total becomes the greater of the old total and that quantity |
| SyncLaws.OpenSyncExactly | app/broker/fill_sync_service.py:226-492 | everything one sync of an open order does, by the report: status, slice with price and flag, one audit row, and the answer |
| SyncLaws.EndedSyncExactly | app/broker/fill_sync_service.py:243-276 | a sync of an unknown, ended or dry-run order changes nothing and says why |
| SyncLaws.EndedOrdersStay | app/broker/fill_sync_service.py:59-70 | over any run an order that has ended never changes again |
| SyncLaws.TotalIsSumOfSlices | app/data/repositories/real_fill.py:107-117 | an order's total is the sum of the quantities of its own fills |
| FillLedger.ReportRaisesTotalToMaximum | app/broker/fill_sync_service.py:393-450 | a FULL, PARTIAL or NONE report sets the fill total to the maximum of itself and the effective broker total, adds a row iff it raises it, and leaves other orders' fills alone |
| FillLedger.SyncAllIsRunningMaximum | app/broker/fill_sync_service.py:154-174 | after any sequence of reports that leaves the order open the total is the least upper bound of the old total and all effective totals |
| FillLedger.TotalIgnoresRepeatsAndOrder | app/broker/fill_sync_service.py:393-450 | repeating or permuting those reports leaves the total unchanged |
| FillLedger.RedeliveryAddsNoFill | app/broker/fill_sync_service.py:226-450 | delivering any earlier report again adds no fill row, for every order, every kind of report and any reports around it |
| FillLedger.SyncAbsorbs | app/broker/fill_sync_service.py:393-465 | processing a report absorbs it and what was absorbed stays so |
| FillLedger.OverfilledOrder | app/broker/fill_sync_service.py:154-174 | a FULL report above the ordered quantity leaves a FILLED order with more fills than it asked for |
| FillLedger.SliceKeepsFlags | app/broker/fill_sync_service.py:424-445 | a new slice keeps the FULL flag on the completing slice only, iff the total does not overshoot the order |
| FillLedger.LedgerKeptExactly | app/broker/fill_sync_service.py:365-465 | one report keeps status, slices and flags in agreement iff the report is absorbable |
| FillLedger.DecodedReportIsAbsorbable | app/broker/kis_order_transport_real.py:566-668 | reports decoded from consistent quantities always are |
| FillLedger.ReportIsBookedExactly | app/broker/fill_sync_service.py:365-430 | after a report on an open order the ledger holds what the report says was executed iff it is FULL or PARTIAL, or says no more than the ledger held, or is NONE and says nothing |
| FillLedger.ExecutedThenCanceled | app/broker/kis_order_transport_real.py:634-668 | a decoded cancellation with 7 of 10 shares executed leaves a CANCELED order with no fill |
| FillLedger.GrossIsPriceTimesTotal | app/broker/fill_sync_service.py:177-184 | summed gross is unit price times total |
| FillLedger.FilledSpendsItsEstimate | app/broker/fill_sync_service.py:177-184 | a FILLED order with a positive estimate has spent exactly the estimate |
| FillLedger.LedgersAgreeWithStatus | app/broker/fill_sync_service.py:125-184 | in every reachable state, on answers decoded from consistent quantities: SUBMITTED has total 0, PARTIALLY_FILLED strictly between, FILLED the whole with only the last row FULL, and the money agrees |
| BruteForce.BruteForceGuard.CheckAllowed | app/auth/brute_force.py:86-98 | allowed iff the key is not locked |
| BruteForce.BruteForceGuard.RecordFailure | app/auth/brute_force.py:100-118 | resets an expired window, counts, locks at the threshold; other keys unchanged |
| BruteForce.BruteForceGuard.RecordSuccess | app/auth/brute_force.py:120-124 | clears the key; other keys unchanged |
| BruteForce.FailureExactly | app/auth/brute_force.py:100-118 | what one failure does to any record, also while the key is locked: when it counts on, when it starts a window, when it locks |
| BruteForce.LockNeverShrinks | app/auth/brute_force.py:115-118 | a failure recorded during a lock never lets it end earlier |
| BruteForce.BruteForceGuard.FailedLogin | app/api/auth_routes.py:130-165 | check then record, as one attempt of the run |
| BruteForce.NextKeepsLog | app/auth/brute_force.py:86-118 | every attempt keeps the log invariant: failures inside their windows, in order, windows spread out |
| BruteForce.ShortLockoutOverfillsWindow | app/auth/brute_force.py:100-118 | a lockout no longer than the window lets max_failures + 1 failures into one window |
| BruteForce.WindowBoundExactly | app/auth/brute_force.py:86-118 | at most max_failures per window in every run iff the lockout outlasts the window |
| BruteForce.FailureRateBound | app/auth/brute_force.py:86-118 | in any span T at most max_failures * (floor(T / window) + 2) failures are recorded |
| PnlTracker.FillConservesPaidIn | app/paper/pnl_tracker.py:81-169 | a fill keeps cash + cost basis - realised profit, and never overdraws or oversells |
| PnlTracker.BoughtBookValue | app/data/repositories/virtual_position.py:125-157 | rebasing the average cost adds exactly the cash spent to the cost basis |
| PnlTracker.SoldBookValue | app/data/repositories/virtual_position.py:159-200 | a sale moves exactly the cash received out of cost basis into realised profit |
| PnlTracker.FillExactly | app/paper/pnl_tracker.py:102-146 | a BUY is refused iff the cash does not cover its net amount, a SELL iff fewer shares are held, and what else a fill changes: cash by the net amount, and one row's shares, average cost and profit |
| CostModel.NetIsGrossAndCosts | app/backtest/cost_model.py:126-163 | net is gross plus or less the costs, nothing is negative, and when the SELL floor cannot fire |
| CostModel.CostsAreShares | app/backtest/cost_model.py:126-163 | each cost is its own rate's share of the gross amount |
| CostModel.DefaultPaperCosts | app/backtest/cost_model.py:110-124 | at the default rates a BUY costs 6.5 and a SELL 24.5 basis points |
| SimulationBroker.PaperBroker.SubmitOrder | app/broker/simulation_broker.py:88-179 | validation, per-account idempotency and the created row, with every refusal leaving the book unchanged |
| SimulationBroker.PaperBroker.CancelOrder | app/broker/simulation_broker.py:181-208 | cancels exactly the orders still pending |
| SimulationBroker.PaperBroker.MatchOrder | app/broker/simulation_broker.py:298-353 | one turn of the matching loop, all six outcomes |
| SimulationBroker.PaperBroker.ExecutePendingOrders | app/broker/simulation_broker.py:227-355 | the loop over the sorted candidates leaves the book and summary of the run function, also when it raises |
| MatchingLaws.SubmitExactly | app/broker/simulation_broker.py:88-179 | a submission succeeds iff paper trading is on for the platform and an account on file and the request is valid; it answers with the first order of its key on the account or a new CREATED order of its terms; a refusal changes nothing |
| MatchingLaws.CancelExactly | app/broker/simulation_broker.py:181-208 | cancels exactly a CREATED or SUBMITTED order |
| MatchingLaws.TurnExactly | app/broker/simulation_broker.py:298-353 | which of six outcomes an order's turn has, by status, close, limit, cash and shares; a fill is at the close with its costs |
| MatchingLaws.FillsRespectLimits | app/broker/simulation_broker.py:319-337 | over any run of the broker every fill is at the close of its symbol in the run that made it, at or below the limit of a LIMIT BUY and at or above that of a LIMIT SELL |
| MatchingLaws.SummaryTells | app/broker/simulation_broker.py:296-355 | the summary lists the candidates FILLED and REJECTED afterwards and counts those without a close and those that are a BUY with close above or a SELL with close below their limit |
| MatchingLaws.CandidatesExactly | app/broker/simulation_broker.py:283-292 | the candidates are CREATED or SUBMITTED orders, and all of them over all accounts |
| SimulationBroker.CandidatesMembers | app/broker/simulation_broker.py:283-294 | the candidates are the listed orders, sorted by account and id |
| PaperRuns.CandidatesDistinct | app/broker/simulation_broker.py:283-294 | no order is a candidate twice |
| PaperRuns.RunRaisesExactly | app/broker/simulation_broker.py:264-265 | execute_pending_orders raises iff one of its candidates meets a close at or below zero that its limit does not keep away |
| PaperRuns.ZeroCloseRaises | app/paper/pnl_tracker.py:106-107 | one market order and a close of zero make the run raise |
| PaperRuns.ProcessIsLocal | app/broker/simulation_broker.py:298-353 | matching an order is the same step in any two books that agree on its account |
| PaperRuns.ProcessFrames | app/broker/simulation_broker.py:298-353 | and invisible from every other account |
| PaperRuns.RunIsLocal | app/broker/simulation_broker.py:283-355 | from one account a run looks like the run of its own orders |
| PaperRuns.CandidatesOnAccount | app/broker/simulation_broker.py:283-294 | a run over all accounts takes an account's orders in the sequence of its own run |
| PaperRuns.AccountRunCoversExactly | app/broker/simulation_broker.py:288-292 | a run for one account reaches every pending order iff no status has more than 10,000 |
| PaperRuns.OverlongListing | app/data/repositories/virtual_order.py:95-106 | 10,001 pending orders of an account, one of which its run does not reach |
| PaperRuns.RunIsFifo | app/broker/simulation_broker.py:293-294 | a run takes orders by account and, within an account, in strictly increasing id |
| PaperRuns.GroupingDoesNotMatter | app/broker/simulation_broker.py:283-355 | running all accounts at once looks, from every account, like running them one by one in any order |
| PaperRuns.RunAllEqualsRunEach | app/broker/simulation_broker.py:283-355 | hence equal accounts and orders, and the same fills up to their sequence |
| PaperRuns.SecondRunIsIdle | app/broker/simulation_broker.py:298-355 | a second run at the same prices changes, fills and rejects nothing, also after an error, over all accounts, and over one whose listings the limit does not cut |
| PaperRunBounds.SecondRunIdleExactly | app/broker/simulation_broker.py:283-355 | for one account with at most n orders of each pending status a second run is idle in every book and at any prices iff n is at most 10,000 |
| PaperRunBounds.SecondRunRejectsTheMissed | app/broker/simulation_broker.py:288-292 | 10,001 market BUYs without cash: the second run rejects an order the first one missed |
| PaperRunBounds.GroupingAgreesExactly | app/broker/simulation_broker.py:283-355 | for given closes, running all accounts at once agrees with running them one by one, in every book whose listings the limit does not cut, iff the closes are all positive or none is |
| PaperRunBounds.RaiseCutsOthersOff | app/paper/pnl_tracker.py:106-107 | two accounts of which the first raises: at once the second's order stays untouched, one by one it is rejected |
| PaperRuns.TallyAccountsForAll | app/broker/simulation_broker.py:296-355 | filled, rejected and the three skip counters of a run add up to its candidates, and the terminal one stays zero |
| PaperRuns.NoOrderFillsTwice | app/broker/simulation_broker.py:227-355 | over any run of the broker an order has one fill if FILLED and none otherwise |
| PaperRuns.MoneyIsConserved | app/paper/pnl_tracker.py:81-169 | over any run of the broker every account stays solvent and keeps what was paid in |
| ApprovalService.Workflow.CreateCandidate | app/approval/approval_service.py:191-309 | the step-by-step creation leaves the candidate and its two or three audit rows, along edges of the state machine only |
| ApprovalService.Workflow.Admit | app/approval/approval_service.py:156-189 | the shared checks and the audit row of a blocked kill switch |
| ApprovalService.Workflow.ApproveCandidate | app/approval/approval_service.py:315-453 | every path of approve, with its statuses, audit rows, paper order and link |
| ApprovalService.Workflow.RejectCandidate | app/approval/approval_service.py:459-499 | every path of reject |
| ApprovalService.Workflow.ExpireCandidate | app/approval/approval_service.py:505-543 | expiry from exactly the statuses with an edge to EXPIRED, under no safety switch |
| ApprovalService.Workflow.UpdateStatus | app/data/repositories/order_candidate.py:263-300 | only edges of the state machine can be taken |
| ApprovalLaws.CreateExactly | app/approval/approval_service.py:219-309 | a creation succeeds iff trading safety is on, the kill switch off and the request acceptable, and what it leaves |
| ApprovalLaws.ApproveExactly | app/approval/approval_service.py:334-453 | every path of approve in the fields of switches and candidate: the refusals in sequence, the re-check, the paper order of the candidate's terms under "approval-<id>", statuses and audit rows |
| ApprovalLaws.RejectExactly | app/approval/approval_service.py:467-499 | every path of reject |
| ApprovalLaws.ExpireExactly | app/approval/approval_service.py:518-543 | an expiry needs a PENDING_APPROVAL candidate and nothing else |
| ApprovalLaws.KillSwitchStops | app/approval/approval_service.py:163-185 | with the kill switch on nothing is created, approved or rejected; approve and reject leave exactly one KILL_SWITCH_BLOCKED row iff trading safety is on and the candidate waits |
| ApprovalLaws.TradingSafetyStops | app/approval/approval_service.py:156-161 | without trading safety nothing is created, approved or rejected, and nothing is logged |
| ApprovalRuns.ReplayYieldsStatus | app/approval/approval_service.py:236-303 | after any run replaying a candidate's audit rows yields its status |
| ApprovalRuns.CreateTrail | app/approval/approval_service.py:251-303 | what the rows of a creation replay to, by the recorded verdict |
| ApprovalRuns.ForwardIsAnOrder | app/data/repositories/order_candidate.py:82-92 | the state machine has no cycle, and the forward order is generated by its edges |
| ApprovalRuns.RunAdvances | app/approval/approval_service.py:340-447 | over any run statuses move forward only, terms never change, and APPROVED is left only inside the approving call |
| ApprovalRuns.RoutesLeaveNoneApproved | app/api/approval_routes.py:361-387 | when callers commit no approval that failed, no candidate is ever APPROVED between calls |
| ApprovalRuns.RoutedCandidatesNeverExecute | app/broker/real_order_executor.py:293-310 | hence the executor refuses every candidate of theirs at its first gate and leaves no trace, whatever the settings |
| ApprovalRuns.ExecutedCandidatesOwnOneOrder | app/approval/approval_service.py:415-436 | after any run at most one order has a candidate's key on its account, an EXECUTED_PAPER candidate is linked to it, no other is linked, no two share one |
| ApprovalRuns.KeysAreInjective | app/approval/approval_service.py:424-424 | different candidates have different keys |
| ApprovalRuns.ApprovalLinksOwnOrder | app/broker/simulation_broker.py:160-179 | a successful approval links a new order of its own terms iff its key was free, else the earlier order as it stands |
| ApprovalRuns.LinkedOrderHasOwnTerms | app/approval/approval_service.py:415-436 | when nobody else submits under an approval key the linked order always has the candidate's terms |
| ApprovalRuns.TakenKeyLinksForeignOrder | app/broker/simulation_broker.py:160-165 | a run in which an approved candidate is linked to an order of other terms |
| ApprovalRuns.ApprovalFailsExactly | app/approval/approval_service.py:334-431 | in every reachable state an approval succeeds iff trading safety is on and the kill switch off, the candidate is PENDING_APPROVAL and passes the re-check, and paper trading is on for the platform and an account on file; the order itself is never invalid |
| Metrics.ComputeMetrics | app/backtest/engine.py:519-533 | the collect, count, sum and divide code equals the quantized metrics |
| Metrics.MetricsExactly | app/backtest/engine.py:523-533 | win rate and average are the share of known returns above zero and their mean, rounded half-even to four digits; absent iff no return is known |
| Metrics.MetricsPermute | app/backtest/engine.py:519-533 | metrics do not depend on row order |
| Metrics.AverageNearTotal | app/backtest/engine.py:528-530 | a quantized average times its samples is within half a grid step per sample of the sum |
| Metrics.CostShiftsQuantizedAverage | app/backtest/engine.py:538-547 | taking 0.33 off every return takes exactly 0.3300 off the quantized average |
| Decimals.HalfEvenCommutesExactlyWithEvenShifts | app/backtest/engine.py:528-530 | half-even rounding commutes with a shift of k grid steps iff k is even |
| Decimals.TiesExactly | app/analysis/report_score_calculator.py:69-70 | half a step goes to the even neighbour in one rounding and away from zero in the other |
| Grouping.GroupBy | app/backtest/engine.py:573-577 | the dictionary of lists: names in the sequence of their first row, each with its rows in theirs |
| Grouping.LexLessExactly | app/backtest/engine.py:613-613 | names are ordered by the character at their first difference, a beginning before what continues it |
| Grouping.BucketSumsAddUp | app/backtest/engine.py:573-611 | sums over the buckets add up to the sum over all rows |
| Grouping.BucketsPermute | app/backtest/engine.py:573-577 | reordering rows only reorders the bucket names |
| Grouping.AveragesRecombine | app/backtest/engine.py:587-594 | quantized bucket averages weighted by their samples recombine to the quantized average of all rows within 0.0001 a sample, for any grouping |
| BacktestEngine.FetchRecommendations | app/backtest/engine.py:388-414 | the rows in range, in the query's order, cut at the limit |
| BacktestEngine.SelectionIsDetermined | alembic/versions/0001_baseline_v0_7.py:504-504 | with (run_id, rank) unique the query has one possible result |
| BacktestEngine.WorstDrawdown | app/backtest/engine.py:535-536 | the least drawdown on file, and none iff none is on file |
| BacktestEngine.Aggregate | app/backtest/engine.py:508-559 | every field of the summary is the stated count, metric or minimum of the rows |
| BacktestEngine.BuildRegimeBreakdown | app/backtest/engine.py:562-614 | the loops leave the specified entries, sorted |
| BacktestEngine.RunBacktest | app/backtest/engine.py:250-382 | a dry run selects, evaluates row by row, aggregates and breaks down |
| BacktestLaws.SelectionExactly | app/backtest/engine.py:388-414 | the selected rows lie in the range, later run first, then greater run id, then lesser rank, as many as there are or as a positive limit allows, and what is left out comes after them |
| BacktestLaws.EvaluatedExactly | app/backtest/engine.py:267-305 | an evaluated row has the close on file at each of the four horizons, the least drawdown on file, the 5-day return less the cost for a BUY only, the strategy's verdict and the date's regime |
| BacktestLaws.SummaryExactly | app/backtest/engine.py:508-559 | the summary's win rates, averages and gaps at each horizon are those of the closes on file over the rows bought, its counts those of the verdicts |
| BacktestLaws.DrawdownExactly | app/backtest/engine.py:535-536 | its drawdown is the least one on file over the rows bought and the four horizons |
| BacktestLaws.RegimesExactly | app/backtest/engine.py:573-614 | an entry for each regime bought in, UNCLASSIFIED for none, counting and averaging exactly its BUY rows; bigger entries first, equal ones by name |
| RegimeBreakdownLaws.BreakdownPartitionsBuys | app/backtest/engine.py:562-614 | distinct, non-empty buckets whose buy counts add up to the BUY rows |
| RegimeBreakdownLaws.BreakdownIgnoresRowOrder | app/backtest/engine.py:562-614 | every permutation of the rows gives the identical sorted breakdown |
| RegimeBreakdownLaws.BreakdownRecombines | app/backtest/engine.py:587-594 | regime averages weighted by their samples recombine to the overall average within 0.0001 a sample |
| RegimeBreakdownLaws.CostAdjustmentIsExact | app/backtest/engine.py:271-279 | with default costs the adjusted average is the raw one less exactly 0.3300, overall and in every bucket, and both are absent together |
| RegimeBreakdownLaws.DefaultCostIsThirtyThreeBasisPoints | app/backtest/cost_model.py:50-72 | the default rates take 0.33 percentage points off a return |
| SectorBreakdown.AggregateSectorBreakdown | app/backtest/regime_breakdown.py:51-95 | the loops leave the specified entries, sorted |
| SectorBreakdown.CollectTriples | app/backtest/multi_strategy_runner.py:204-212 | one triple per selected row |
| BacktestLaws.SectorsExactly | app/backtest/regime_breakdown.py:65-95 | an entry for each sector met, UNKNOWN for none, counting its triples and counting and averaging its BUYs; most BUYs first, equal ones by name |
| BacktestLaws.JoinedRowExactly | app/backtest/multi_strategy_runner.py:304-351 | each joined row has the sector of the stock of its symbol, none without one, and its triple the verdict and the 5-day close on file |
| SectorBreakdown.JoinKeepsRecommendations | alembic/versions/0001_baseline_v0_7.py:410-410 | with symbols unique the outer join adds no row and loses none |
| SectorBreakdown.BothQueriesSelectTheSame | app/backtest/multi_strategy_runner.py:304-332 | the runner's limited join selects the engine's rows in the engine's order |
| SectorBreakdown.SectorsAddUp | app/backtest/regime_breakdown.py:65-95 | sector signals, buys, samples and wins add up to those of all triples |
| SectorBreakdown.SectorsAgreeWithEngine | app/backtest/multi_strategy_runner.py:183-212 | for the same range and limit they add up to the engine's own counts |
| SectorBreakdown.SectorsAreSorted | app/backtest/regime_breakdown.py:94-95 | distinct sectors, most BUYs first, ties by name |
| SectorBreakdown.SectorsIgnoreRowOrder | app/backtest/regime_breakdown.py:51-95 | every permutation of the triples gives the identical sector list |
| SectorBreakdown.SectorsRecombine | app/backtest/regime_breakdown.py:65-92 | sector averages weighted by their samples recombine to the average of all BUYs within 0.0001 a sample |
| SectorBreakdown.SectorAveragesAgreeWithEngine | app/backtest/multi_strategy_runner.py:183-212 | for the same range and limit they recombine to the engine's own 5-day average |
| WalkForward.GenerateFolds | app/backtest/walk_forward.py:280-308 | ends, with exactly the folds that fit, each at its place |
| WalkForward.FitsExactly | app/backtest/walk_forward.py:297-307 | the i-th fold fits iff i < max(0, floor((N - train - gap) / validate)) |
| WalkForward.TerminatesExactly | app/backtest/walk_forward.py:297-307 | the exit test is met at some cursor iff the validation window is positive or the first fold does not fit |
| WalkForward.FoldsWithoutEnd | app/backtest/walk_forward.py:297-307 | a validation window of no days for which every fold fits |
| WalkForward.FoldsTile | app/backtest/walk_forward.py:290-296 | out-of-sample windows abut, start after the first training window and gap, and follow their own training window iff the gap is not negative |
| WalkForward.RunWalkForward | app/backtest/walk_forward.py:152-213 | one result per fold that fits, with the summaries of the runs over its own training and its own validation window |
| WalkForward.SummaryCounts | app/backtest/engine.py:508-512 | a run's signal, buy, pass and avoid counts are those of the recommendations in its window |
| WalkForward.FoldTotals | app/backtest/walk_forward.py:171-213 | the out-of-sample counts of such results add up to the counts of the interval their windows tile |
| WalkForward.WalkForwardConserves | app/backtest/walk_forward.py:215-228 | hence to those of one run from the first window's start to the last one's end, for any recommendations and any pure strategy |
| TechnicalIndicators.ExponentialMovingAverage | app/analysis/technical_analyzer.py:99-118 | the k-th entry is the EMA of bar period - 1 + k; None iff the period is not positive or not covered |
| TechnicalIndicators.EmaIsCausal | app/analysis/technical_analyzer.py:99-118 | the EMA of a prefix is a prefix of the EMA |
| TechnicalIndicators.EmaIsLinear | app/analysis/technical_analyzer.py:99-118 | the EMA of a linear combination is the combination of the EMAs |
| TechnicalIndicators.EmaBetween | app/analysis/technical_analyzer.py:99-118 | the EMA stays between the least and the greatest value so far |
| TechnicalIndicators.EmaImpulse | app/analysis/technical_analyzer.py:99-118 | what the EMA keeps of a single price: 1 / period of the first ones, 2 / (period + 1) of a later one, and (period - 1) / (period + 1) of that after each further bar |
| TechnicalIndicators.ComputeMacd | app/analysis/technical_analyzer.py:155-184 | value and signal of the last bar, and exactly when each exists |
| TechnicalIndicators.MacdSubtractsSameBar | app/analysis/technical_analyzer.py:166-184 | with fast <= slow every index subtracts EMAs of one bar, and a signal exists iff there are at least slow + signal - 1 closes |
| TechnicalIndicators.MacdAlignedExactly | app/analysis/technical_analyzer.py:166-175 | MACD subtracts EMAs of the last bar for all series iff fast <= slow |
| TechnicalIndicators.MacdIgnoresShift | app/analysis/technical_analyzer.py:155-184 | adding a constant to all closes changes no MACD value |
| TechnicalIndicators.RelativeStrengthIndex | app/analysis/technical_analyzer.py:121-152 | the two Wilder averages and the zero cases; None iff the period is not positive or not covered |
| TechnicalIndicators.WilderImpulse | app/analysis/technical_analyzer.py:138-146 | what Wilder's average keeps of a single change: 1 / period, and (period - 1) / period of that after each further bar |
| TechnicalIndicators.WilderAdds | app/analysis/technical_analyzer.py:138-146 | the average of a sum is the sum of the averages, so that what it keeps of each change tells all |
| TechnicalIndicators.ChangesExactly | app/analysis/technical_analyzer.py:128-137 | gains and losses are the rises and falls between consecutive closes |
| TechnicalIndicators.RsiInRange | app/analysis/technical_analyzer.py:121-152 | RSI lies in [0, 100] |
| TechnicalIndicators.RsiIsGainShare | app/analysis/technical_analyzer.py:148-152 | for positive losses RSI is the share of gains in all change |
| TechnicalIndicators.RsiOfReflection | app/analysis/technical_analyzer.py:121-152 | reflecting the prices gives 100 - RSI, zero cases included |
| TechnicalIndicators.RsiIgnoresScaleAndShift | app/analysis/technical_analyzer.py:121-152 | RSI(a * c + b) = RSI(c) for a > 0 |
| ReportScore.ReportScoreRange | app/analysis/report_score_calculator.py:121-174 | with consistent rating counts a defined report score lies in [10, 100] |
| ReportScore.ThemeScoreRange | app/analysis/report_score_calculator.py:195-255 | for any mappings and events a defined theme score lies in [20, 70] |
| ScoreLaws.ReportScoreExactly | app/analysis/report_score_calculator.py:121-174 | a report score is 50 plus half the bounded upside, ten times the mean rating and 5 or 3 for a report of the last 14 or 30 days, between 0 and 100, in whole hundredths and within 0.006 |
| ScoreLaws.ThemeScoreExactly | app/analysis/report_score_calculator.py:195-255 | a theme score is 50 plus ten times each mean signed strength less 2.5 for each risk warning and at most 10, between 0 and 100, in whole hundredths and within 0.02 |
| ScoreLaws.AdjustmentExactly | app/analysis/report_score_calculator.py:258-287 | the adjustments are a tenth of each score's distance from 50, between -5 and 5, and the total the base moved by both, each within its own rounding |
| ReportScore.TotalMovesAtMostSeven | app/analysis/report_score_calculator.py:258-287 | the clip of +/-5 never fires, adjustments lie in [-4, 5] and [-3, 2], and a base total moves by at most 7 |
| ReportScore.FallBySeven | app/analysis/report_score_calculator.py:258-287 | inputs that move the total down by exactly 7 |
| ReportScore.RiseBySeven | app/analysis/report_score_calculator.py:258-287 | inputs that move the total up by exactly 7 |

## Left out

- KisTransport.PlaceOrder: the HTTP exchange, JSON decoding, headers and account masking are parameters; an exception other than a timeout or a connection error is not modelled.
- KisTransport.ExecutorReadsTransportClass: trimming and upper-casing are modelled on ASCII; Unicode spaces and letters are not.
- RealOrderExecutor.ExecuteOrder: a transport that raises out of place_order is not modelled; order numbers, their hashes and scrubbed error messages are not stored.
- RealTradingRuns.RealTradingIsSafe: one call is one atomic step; two overlapping execute calls, and the moment between a call and its commit, are not modelled. KST is UTC+9 throughout, so the summer time of before 1989 is not.
- RealTradingRuns.OneCallAndOneAuditPerRealOrder: pairs the calls of the real path; calls of dry runs are counted apart and are the subject of DryRunsStayHomeExactly.
- FillLedger.LedgersAgreeWithStatus: the rounding of stored amounts to four digits by the database is not modelled, so the summed gross is exact.
- PaperRuns.MoneyIsConserved: holds of exact values; the database stores cash, average cost and realised profit with four digits, so a stored account drifts by their rounding.
- BruteForce.FailureRateBound: requests of one key that overlap between their check and their record are not modelled; keys are strings rather than digests of user and address.
- PaperRuns.RunAllEqualsRunEach: the sequence of fill rows, and so their ids, may differ between the two ways of running.
- PaperRuns.SecondRunIsIdle: for a single account it assumes that the listing limit cuts nothing; SecondRunIdleExactly says how far that is needed.
- SimulationBroker.PaperBroker.ExecutePendingOrders: the lookup of a close with its lookback window is a table of closes.
- ApprovalService.Workflow.CreateCandidate: the risk engine is its verdict; rule details, actors, expiry times and notes are not stored.
- ApprovalRuns.ApprovalFailsExactly: holds of limit prices as given; the database stores them with four digits, so that a limit below 0.00005 passes creation, reads back as zero and is then refused as an invalid order.
- ApprovalRuns.ReplayYieldsStatus: a call that the caller rolls back leaves the tables as they were, without the gap in ids that a database may leave.
- TechnicalIndicators.ExponentialMovingAverage: values are exact, so the 28-digit decimal context does not appear; likewise in RSI, MACD, scores and averages.
- BacktestEngine.RunBacktest: the regime of a date and the results on file are given as functions; confidence, reason and evidence of a signal, and persistence of a run, are left out.
- WalkForward.RunWalkForward: asks that the fold loop meets its exit test, has no last or first date on which date arithmetic overflows, and leaves out persistence and the averages over folds.
- Daily profit snapshots of the paper accounts: they only read.
- Simple moving averages, volume ratio, breakout, ATR, candle patterns and grade tables: one-branch facts.
- HTTP routes, tokens, settings, the scheduler, importers and exports: plumbing.
