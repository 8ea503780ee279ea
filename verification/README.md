# Adaptive Quant: a verified model

This project models the parts of the trading system whose correctness does not show in any
single function, and proves what they promise. Three cores:

* **Backtest ledger and execution.** A first-in-first-out lot ledger in whole cents, a cost
  model that rounds half to even, a bisection for the affordable size, and the session loop
  that decides, queues and fills orders under four timing models. Money is counted in cents,
  quantities in lot steps, prices in ticks of 1e-6 dollars; rates and weights are exact reals.
* **Jobs and uploads.** Any number of API clients and workers run small transactions over
  shared rows. Every repository method is one atomic step; the theorems are about every
  interleaving of the steps.
* **Trading mode, runtime settings and supervision.** API handlers that span several
  transactions, the guard asked before each order, tighten-only risk limits, the scheduler
  supervisor and the lock that keeps it single.

Two smaller pieces complete it: the sequential allocation caps and the rate limiter.

Code of expressions is modelled by functions; objects that change in place are classes
(`Portfolio`, `Engine`, `JobRepository`, `ControlRepository`, `Worker`, `JobContext`,
`SchedulerSupervisor`, `AdvisoryLock`, `ConfigCache`, `RateLimiter`) whose methods run the
source's loops and are proved to reach exactly the state a function gives; the laws are then
proved of those functions.

| file | contents |
|---|---|
| `rounding.dfy`, `costs.dfy`, `quote_laws.dfy` | rounding, fill prices, costs and their attribution |
| `ledger.dfy`, `ledger_laws.dfy`, `sale_laws.dfy`, `portfolio.dfy` | the ledger, its laws, what a sale books, the portfolio object |
| `execution.dfy`, `engine_model.dfy`, `engine_laws.dfy`, `sizing_laws.dfy`, `order_laws.dfy`, `run_laws.dfy`, `engine.dfy` | timing, the session loop, what it keeps, sizing, what becomes of each order, what a whole backtest did, the engine object |
| `jobs.dfy`, `job_laws.dfy`, `job_repository.dfy`, `workers.dfy`, `executions.dfy`, `worker.dfy`, `uploads.dfy`, `upload_laws.dfy`, `control_rows.dfy` | the job queue, what its rows tell, executions among other processes, the worker object, uploads and the other rows |
| `settings.dfy`, `settings_laws.dfy`, `overlay_laws.dfy`, `runtime_config.dfy` | the runtime overlay, its laws, the loops and the cache |
| `trading_mode.dfy`, `transmit_guard.dfy`, `handler_laws.dfy`, `supervision.dfy`, `supervision_laws.dfy`, `supervisor.dfy` | mode, switch, guard and supervision, and when each request is accepted |
| `allocation.dfy`, `allocation_rounding.dfy`, `rate_limiter.dfy` | allocation caps, their rounding, sliding-window limits |
| `wrappers.dfy` | Option, Result and the backtest errors |

## What the proofs found

* `_affordable` promises the largest quantity that fits. It does for every request of up to
  2^60 lot steps and, for every larger one, there are markets where it does not
  (`AffordableIsLargestIff`, `AffordableCanStopShort`).
* `save_runtime_config` promises to fail if someone else changed the configuration meanwhile.
  Settings and mode changes indeed lose nothing. The strategy handlers compute the new
  overrides from one read and pass the revision of a second one, so a change saved between
  the two - a demotion, say - is silently undone (`RacingStrategyChangeIsLost`); exactly when
  such a save loses nothing is `OverrideSaveLosesNothingIff`.
* The scheduler module promises that no paper order is sent after a switch to SHADOW, a stop
  or a demotion. For the switch and the stop this holds until the operator undoes it
  (`ShadowHolds`, `StopHolds`); a demotion holds until a save makes the strategy eligible
  again (`DemotionHolds`), and by the point above that save can be about another strategy.
* "imported" is not a terminal upload status: the import request's second status write names
  no expected status, and it is the only step that takes an upload out of it
  (`ImportedIsLostIff`, `ImportedCanRevert`).
* The last slice of a sale takes all rounding drift and can be negative, but only in a sale
  from four lots or more whose last slice is worth little (`LastSliceIsNotNegative`,
  `LastSliceCanBeNegative`). The third share of the implicit costs can be minus one cent, but
  only if there is no impact cost and both other shares round up on a tie
  (`SplitIsNegativeIff`, `SplitCanGoNegative`).
* Risk limits are promised to be tightened only. A value that reads as "not a number" - the
  text "nan" - is not looser than anything, passes the check, and replaces the limit unless
  the schema refuses it, whose sections set nothing against such numbers; and it is the only
  exception (`LimitsOnlyTighten`, `NaNReplacesALimit`).
* The rate limiter reads its clock before it takes its lock, so a call can be processed after
  one that read the clock later. A window can then hold too many calls; one shortened by the
  longest wait for the lock never does, and no better bound is true (`WindowHoldsIff`,
  `WaitsBoundSkew`, `SkewOverflows`).
* A checkpoint asks for cancellation and tests the answer in two moments. A keep-alive between
  them can still cancel the job (`CancelledIff`, `KeepaliveCanCancel`).
* Weights are rounded after the caps are applied and may exceed them, by at most a millionth
  of gross and one and a half of net exposure (`AllocationWithinLimits`): an inverse limit of
  a half becomes 0.500001 (`InverseLimitIsExceeded`). Whether they do is a matter of the
  limits alone (`SingleFundKeptIff`, `RoundedLimitsHold`, `NetKeptIff`, `GrossKeptIff`), and
  the shipped ones are kept exactly by every request (`ShippedLimitsHold`).

## Model

| member | source | states |
|---|---|---|
| Rounding.RoundHalfEven | src/adaptive_quant/core/money.py:67-71 | the nearest whole number of quanta, the even one on a tie |
| Rounding.RoundingIsUnique | src/adaptive_quant/core/money.py:67-71 | no other whole number is nearest-and-even, so the contract of RoundHalfEven pins it down |
| Rounding.RoundingIsMonotone | src/adaptive_quant/core/money.py:48-50 | rounding never reverses an order between exact values |
| Rounding.RoundDown | src/adaptive_quant/core/money.py:53-59 | rounding a quantity towards zero never gives more than intended and drops less than a step |
| Rounding.ProRataError | src/adaptive_quant/quant/backtest/portfolio.py:164-183 | a pro-rata slice is within half a cent of its exact part |
| Rounding.ProRataIsNearest | src/adaptive_quant/quant/backtest/portfolio.py:170-183 | a pro-rata slice is the cent nearest to its exact part, the even one of two |
| Rounding.ProRataBetween | src/adaptive_quant/quant/backtest/portfolio.py:164-183 | a slice lies between zero and the whole, and the whole slice is the whole |
| Costs.ImpactMonotone | src/adaptive_quant/quant/backtest/costs.py:56-60 | impact is never negative and grows with the size traded |
| Costs.BpsWithinSchema | src/adaptive_quant/config/schema.py:492-501 | an order within a day's volume pays at most 6000 basis points under the schema's bounds |
| Costs.FillPriceDirection | src/adaptive_quant/quant/backtest/costs.py:69-82 | buys never fill below the reference and sells never above, and without costs at it |
| Costs.QuoteRefusedIff | src/adaptive_quant/quant/backtest/costs.py:69-85 | a quote fails exactly when a sell would keep at most half a tick, and then for that reason |
| Costs.CappedQuotesSucceed | src/adaptive_quant/quant/backtest/engine.py:520-548 | every order within the participation cap gets a positive fill price once the reference is two ticks |
| Costs.OneTickCanVanish | src/adaptive_quant/quant/backtest/costs.py:69-85 | at a one-tick reference the same bounds let the price round to nothing |
| Costs.SplitIsProRata | src/adaptive_quant/quant/backtest/costs.py:104-113 | the three cost shares add up, two are within half a cent of pro rata and the third within a cent, never below minus one |
| Costs.SplitIsNegativeIff | src/adaptive_quant/quant/backtest/costs.py:104-113 | the third share is negative exactly when there is no third cost and the exact parts of the other two are both half a cent above an odd number of cents |
| Costs.ImpactShareIsNotNegative | src/adaptive_quant/quant/backtest/costs.py:104-113 | with any impact cost no share is negative |
| Costs.SplitCanGoNegative | src/adaptive_quant/quant/backtest/costs.py:104-113 | an input where the third share is minus one cent |
| Costs.ImplicitCostIsExact | src/adaptive_quant/quant/backtest/costs.py:69-101 | spread, slippage and impact add up exactly to what the fill lost against the reference, on the right side of it |
| Costs.NotionalMonotone | src/adaptive_quant/quant/backtest/costs.py:69-85 | a larger quantity at no lower price never costs less after rounding to cents |
| Costs.CommissionMonotone | src/adaptive_quant/quant/backtest/costs.py:62-67 | commission never falls with size, through its floor and its rounding |
| Costs.BuyCostMonotone | src/adaptive_quant/quant/backtest/costs.py:56-101 | the cash a buy needs never falls with size, through impact, tick and cent rounding and the commission floor |
| Costs.BuyCostIsQuoted | src/adaptive_quant/quant/backtest/engine.py:584-586 | what the bisection compares is notional plus commission of the quote, which never fails for a buy |
| QuoteLaws.QuoteIsFair | src/adaptive_quant/quant/backtest/costs.py:56-113 | a quote is the configuration's: the reference moved by half spread, slippage and square-root impact, value and commission (the minimum or the charge per order and share, whichever is larger), each rounded once, and the loss against the reference shared out by those rates |
| LedgerLaws.ConsumeIsQueue | src/adaptive_quant/quant/backtest/portfolio.py:157-203 | a sale removes exactly the oldest units of the lots, as many as sold, and leaves the others in order |
| LedgerLaws.CostIsConserved | src/adaptive_quant/quant/backtest/portfolio.py:164-203 | cost leaving with the slices plus cost left in the lots is the cost there was |
| LedgerLaws.BuyCommissionIsConserved | src/adaptive_quant/quant/backtest/portfolio.py:164-203 | likewise for the buy commissions carried by lots |
| LedgerLaws.ProceedsAreConserved | src/adaptive_quant/quant/backtest/portfolio.py:164-203 | slice proceeds and commissions add up to the fill's, and realized P&L is proceeds less cost |
| LedgerLaws.SlicesAreProRata | src/adaptive_quant/quant/backtest/portfolio.py:164-183 | every slice but the last is within half a cent of pro rata; the last is off by half a cent per other slice at most |
| LedgerLaws.SaleIsProRata | src/adaptive_quant/quant/backtest/portfolio.py:157-203 | the round trips a real sale adds share its proceeds, and their sell commissions, within those bounds |
| SaleLaws.SaleIsExact | src/adaptive_quant/quant/backtest/portfolio.py:157-203 | a sale closes the oldest lots, all but the last in full: each round trip carries its lot's entry time and the pro-rata part of its cost and buy commission to the nearest cent, the lot cut keeps the rest, and realized P&L is proceeds less those costs |
| SaleLaws.AppliedIsExact | src/adaptive_quant/quant/backtest/portfolio.py:129-203 | an accepted fill is booked in full, a buy as a lot of its own and a sale lot by lot, with its commission and implicit cost, and nothing else changes |
| LedgerLaws.SaleLeavesFundedLots | src/adaptive_quant/quant/backtest/portfolio.py:184-203 | lots left behind are the untouched tail, its first lot cut with cost and commission between zero and what they were |
| LedgerLaws.LastSliceIsNotNegative | src/adaptive_quant/quant/backtest/portfolio.py:164-183 | no other slice of a sale is negative, and the last of k is not when its exact share is above (k - 3) / 2 cents, which any proceeds from three lots or fewer are |
| LedgerLaws.LastSliceCanBeNegative | src/adaptive_quant/quant/backtest/portfolio.py:164-183 | for every k of four or more a sale whose last slice has exactly that share and gets minus one cent |
| LedgerLaws.ApplyKeepsLaws | src/adaptive_quant/quant/backtest/portfolio.py:129-203 | every fill, accepted or refused, keeps the cash, identity, commission, P&L and first-in-first-out laws |
| LedgerLaws.LawsHoldForever | src/adaptive_quant/quant/backtest/portfolio.py:129-146 | the laws hold after every operation of every history of fills and interest |
| LedgerLaws.QuantityIsConserved | src/adaptive_quant/quant/backtest/portfolio.py:148-203 | per symbol, bought quantity is closed quantity plus held quantity |
| LedgerLaws.EntryTimesNeverDecrease | src/adaptive_quant/quant/backtest/portfolio.py:157-203 | successive round trips of a symbol never go back in entry time |
| LedgerLaws.AppliedIff | src/adaptive_quant/quant/backtest/portfolio.py:129-211 | exactly which fills are accepted; past the entry checks only a sale whose commission exceeds cash plus proceeds fails |
| LedgerLaws.SaleCanOverdraw | src/adaptive_quant/quant/backtest/portfolio.py:205-211 | a reachable ledger and a sale that does |
| LedgerLaws.EquityIsExplained | src/adaptive_quant/quant/backtest/portfolio.py:213-222 | the identity gap is exactly zero for every lawful ledger and every set of prices |
| LedgerLaws.AccruedIs | src/adaptive_quant/quant/backtest/portfolio.py:141-146 | interest is booked to the nearest cent, in cash and in its own total, and a negative amount refused |
| LedgerLaws.EquityMoves | src/adaptive_quant/quant/backtest/portfolio.py:114-123 | equity moves with a price by the quantity held of that symbol; at prices of nothing it is the cash (LedgerLaws.EquityOfNothing) |
| Portfolios.Portfolio.Apply | src/adaptive_quant/quant/backtest/portfolio.py:129-139 | the object ends in the state, and with the error, the ledger function gives |
| Portfolios.Portfolio.SellLots | src/adaptive_quant/quant/backtest/portfolio.py:157-203 | the popping and shrinking loop performs the specified sale, lot by lot |
| Portfolios.Portfolio.AccrueInterest | src/adaptive_quant/quant/backtest/portfolio.py:141-146 | interest is booked in whole cents, and refused when negative |
| Portfolios.Portfolio.IdentityGap | src/adaptive_quant/quant/backtest/portfolio.py:213-222 | the gap the object computes by summing its lots is the specified gap |
| Execution.FillFollowsDecision | src/adaptive_quant/quant/backtest/execution.py:48-71 | no fill precedes its decision, it is strictly later except in the closing auction without delay, and its slot is still ahead |
| Execution.SlotTimesIncrease | src/adaptive_quant/quant/backtest/execution.py:65-67 | with ordered sessions later fill slots are later in time |
| EngineLaws.BisectBrackets | src/adaptive_quant/quant/backtest/engine.py:589-600 | sixty halvings end on an affordable size with an unaffordable one a bounded distance above |
| EngineLaws.AffordableFits | src/adaptive_quant/quant/backtest/engine.py:579-600 | the size never exceeds the request or the cash, and bounds how far any better size can be |
| EngineLaws.AffordableIsLargestIff | src/adaptive_quant/quant/backtest/engine.py:579-600 | over all markets no larger size within the request fits in cash, if and only if the request is of at most 2^60 lot steps |
| EngineLaws.AffordableCanStopShort | src/adaptive_quant/quant/backtest/engine.py:589-600 | for every request beyond 2^60 there is a market where a larger size fits |
| EngineLaws.ExecuteSize | src/adaptive_quant/quant/backtest/engine.py:512-548 | the executed size respects request, participation cap, holding and cash |
| OrderLaws.ExecuteIsLargest | src/adaptive_quant/quant/backtest/engine.py:512-577 | an order is filled with the largest quantity that its size, the participation cap, the holding and the cash allow, at the given time and reference and as quoted, the rest cancelled; or cancelled as a whole for a reason that holds, when none is (buys of up to 2^60 lot steps) |
| EngineLaws.ExecuteKeeps | src/adaptive_quant/quant/backtest/engine.py:512-577 | executing a waiting order resolves it and nothing else, and keeps the ledger sound and every fill causal |
| EngineLaws.ExecutionOrderIsSorted | src/adaptive_quant/quant/backtest/engine.py:477-499 | due orders execute sells first and by number within a side, none twice or dropped |
| EngineLaws.FillDueKeeps | src/adaptive_quant/quant/backtest/engine.py:477-510 | a fill round resolves exactly the orders due and moves on to the next slot |
| EngineLaws.DecideKeeps | src/adaptive_quant/quant/backtest/engine.py:318-427 | every order a decision places is numbered anew and waits for a slot still ahead, with data old enough |
| EngineLaws.RunKeeps | src/adaptive_quant/quant/backtest/engine.py:228-250 | the invariant holds through every session under all four timings and any delay |
| EngineLaws.BacktestFailsOnlyOnMarkets | src/adaptive_quant/quant/backtest/engine.py:201-260 | a backtest fails only of a cause in its inputs - a price of nothing or of one tick, a commission, a session too short for near-close decisions, data from after a decision, weight on an unpriced symbol, fewer than two sessions - and never of an accounting check |
| RunLaws.BacktestSucceeds | src/adaptive_quant/quant/backtest/engine.py:201-260 | without any of these causes it succeeds |
| EngineLaws.BacktestResolvesEveryOrder | src/adaptive_quant/quant/backtest/engine.py:246-251 | when the loop ends nothing is pending, and every order was filled, cancelled or both, once, adding up to its quantity |
| RunLaws.BacktestIsTold | src/adaptive_quant/quant/backtest/engine.py:477-577 | a finished backtest keeps every ledger law, is causal and closes lots in order; each fill is of an order on record, at its slot's time and that session's open at the open or close at the close, within its limits and as quoted; sells come before buys of a moment; every cancellation has its reason, and every order its decision |
| RunLaws.EverySessionDecides | src/adaptive_quant/quant/backtest/engine.py:220-261 | every session whose orders still fill within the run decided, knowing just the fills before that moment, and placed for each symbol the order its target and the rebalance band ask for |
| RunLaws.BacktestPaysInterest | src/adaptive_quant/quant/backtest/engine.py:237-241 | the interest of a finished backtest is, for every session but the first, a year's rate for the days since the last one on the cash after that close, to the nearest cent |
| SizingLaws.SizingMoves | src/adaptive_quant/quant/backtest/engine.py:373-416 | held plus pending moves by exactly the wanted trade, whatever else is decided with it |
| SizingLaws.SizingHitsTargets | src/adaptive_quant/quant/backtest/engine.py:373-416 | a traded symbol ends exactly at its target, an untraded one was inside the band or already there |
| SizingLaws.SymbolIsLeftAloneIff | src/adaptive_quant/quant/backtest/engine.py:389-402 | a symbol gets no order if and only if held plus pending is its target, or its weight is positive and nearer than the threshold to the current one; otherwise it ends at the target, and a weight of zero is always sold out |
| SizingLaws.SizingAdds | src/adaptive_quant/quant/backtest/engine.py:403-416 | a decision adds at most one order for a symbol, numbered on, with its own times, data and slot, and changes nothing else |
| SizingLaws.SizingIsIdempotent | src/adaptive_quant/quant/backtest/engine.py:373-416 | deciding again on unchanged inputs places no order |
| SizingLaws.TargetsWithinBudget | src/adaptive_quant/quant/backtest/engine.py:373-416 | the targets cost at most investable equity times the weights given out |
| Engines.Engine.AffordableSize | src/adaptive_quant/quant/backtest/engine.py:579-600 | the lo/hi loop returns the specified bisection |
| Engines.Engine.ExecuteOrder | src/adaptive_quant/quant/backtest/engine.py:512-577 | the object after executing an order is the specified run |
| Engines.Engine.FillDueOrders | src/adaptive_quant/quant/backtest/engine.py:477-499 | likewise for a fill round over the pending list |
| Engines.Engine.DecideOrders | src/adaptive_quant/quant/backtest/engine.py:373-427 | likewise for a decision |
| Engines.Engine.RunBacktest | src/adaptive_quant/quant/backtest/engine.py:201-251 | the whole session loop, object state and errors, is the specified backtest |
| Jobs.OldestIsUnique | src/adaptive_quant/persistence/control.py:139-152 | the claim query has at most one first row |
| Jobs.ClaimedAtMostOnce | src/adaptive_quant/persistence/control.py:139-163 | over every interleaving a job is claimed at most once, exactly when it has a worker |
| Jobs.EndsExactlyOnce | src/adaptive_quant/persistence/control.py:201-268 | a job ends once, by finish, orphan failure or queued cancellation, exactly when it is terminal |
| Jobs.TerminalRowsAreFrozen | src/adaptive_quant/persistence/control.py:201-268 | a terminal row never changes again |
| Jobs.LateFinishChangesNothing | src/adaptive_quant/persistence/control.py:201-233 | the finish of a worker whose job already ended returns False and changes nothing |
| Jobs.OnlyTheClaimerFinishes | src/adaptive_quant/persistence/control.py:201-233 | a finish succeeds if and only if it comes from the claiming worker and the job has not ended |
| Jobs.CancellationIsSticky | src/adaptive_quant/worker/context.py:70-88 | once requested, a cancellation is reported by every later heartbeat |
| Jobs.ClaimsAreInOrder | src/adaptive_quant/persistence/control.py:139-163 | a claim takes a row no other unlocked claimable row comes before |
| JobLaws.SweepFailsIff | src/adaptive_quant/persistence/control.py:163-268 | over every run a sweep fails a running job if and only if its claim and every heartbeat of its worker since are older than the limit, and leaves it alone otherwise |
| JobLaws.RowHasItsRequest | src/adaptive_quant/persistence/control.py:74-107 | a row says who asked for the job, when and for what |
| JobLaws.RowHasItsClaim | src/adaptive_quant/persistence/control.py:138-161 | a row names the worker that claimed the job, and when |
| JobLaws.RowHasItsEnd | src/adaptive_quant/persistence/control.py:201-268 | an ended row tells the step that ended it: the finish of its worker with status, result, error and version, a cancellation before the start, or a sweep |
| JobLaws.RequestedIff | src/adaptive_quant/persistence/control.py:235-251 | the flag is set exactly if somebody asked for the cancellation while the job ran |
| JobLaws.ProgressIsReported | src/adaptive_quant/persistence/control.py:163-192 | a running job shows the progress last reported by its worker, within zero and one |
| JobLaws.TextIsReported | src/adaptive_quant/persistence/control.py:138-251 | and the text last reported, or that its cancellation was asked for |
| JobLaws.CancelAnswers | src/adaptive_quant/persistence/control.py:235-251 | a request to cancel is told what becomes of the job, and refused for an ended or unknown one |
| JobLaws.IdenticalIsUnique | src/adaptive_quant/persistence/control.py:75-107 | no two identical jobs are active if every request for one takes the active one instead |
| JobRepositories.JobRepository.CreateJob | src/adaptive_quant/persistence/control.py:75-109 | creates the row, or returns an identical active one |
| JobRepositories.JobRepository.ClaimNext | src/adaptive_quant/persistence/control.py:139-163 | scans to the oldest claimable row and starts it, or finds that there is none |
| JobRepositories.JobRepository.FinishJob | src/adaptive_quant/persistence/control.py:201-233 | ends the worker's own running job and refuses everything else |
| JobRepositories.JobRepository.FailOrphanedJobs | src/adaptive_quant/persistence/control.py:253-268 | fails exactly the running jobs with a stale heartbeat and counts them |
| Workers.CancelledIff | src/adaptive_quant/worker/context.py:70-88 | among other processes, a job is reported cancelled exactly when that was requested by the heartbeat of its last checkpoint, or by a keep-alive that reported it before that checkpoint's test; a request after the test changes nothing |
| Workers.KeepaliveCanCancel | src/adaptive_quant/worker/context.py:70-88 | a run where the request comes after the last checkpoint's heartbeat and a keep-alive still gets the job cancelled |
| Workers.ExecutionEndsTheJob | src/adaptive_quant/worker/runner.py:115-148 | an execution leaves its job terminal, with its own status unless the job had been ended before |
| WorkerObjects.JobContext.Record | src/adaptive_quant/worker/context.py:82-85 | the flag is set by any answer that asks for it and never cleared |
| WorkerObjects.Worker.Pass | src/adaptive_quant/worker/context.py:78-88 | a checkpoint raises exactly when an answer to one of its heartbeats, or to a keep-alive acted on before its test, had asked for it, whatever other processes do in between |
| WorkerObjects.Worker.RunOnce | src/adaptive_quant/worker/runner.py:115-148 | the oldest job is claimed, and from any state of any run and whatever other processes do meanwhile - cancel it, sweep it away as orphaned, or work on other jobs - what the worker does is one execution as Workers.CancelledIff and Workers.ExecutionEndsTheJob take it, with the handler's own end only after all its checkpoints |
| Executions.FinishStep | src/adaptive_quant/worker/runner.py:137-146 | an execution under way with this flag, finished as its last test says, is an execution in the protocol's sense |
| Uploads.StepKeeps | src/adaptive_quant/persistence/control.py:342-364 | every step of every client and worker keeps the upload invariant |
| UploadLaws.StepWrites | src/adaptive_quant/persistence/control.py:342-364 | exactly five kinds of step change an upload's row, each only in its turn and to the status and job it names |
| UploadLaws.StatusHasItsStep | src/adaptive_quant/worker/handlers.py:105-130 | over every run a row's status is that of the last step that wrote it: imported only with the rows of a complete read accepted |
| UploadLaws.LinkIsLast | src/adaptive_quant/api/control.py:588-592 | linking the job is the last of a request |
| UploadLaws.QueuesTheImport | src/adaptive_quant/api/control.py:574-592 | an accepted request queues the import job of its upload and knows it |
| Uploads.DecidedAtMostOnce | src/adaptive_quant/api/control.py:574-606 | over every interleaving at most one import or discard of an upload is accepted, exactly when its status shows it |
| Uploads.AtMostOneImportJob | src/adaptive_quant/api/control.py:588-592 | in all of a run an upload has at most one import job |
| Uploads.ImporterReadsTheUpload | src/adaptive_quant/worker/handlers.py:105-113 | a worker past the queued check reads exactly what was uploaded, never emptied content |
| Uploads.ImportedIsLostIff | src/adaptive_quant/api/control.py:588-592 | an imported upload stops being imported exactly by the request's late link |
| Uploads.ImportedIsFinalOnceLinked | src/adaptive_quant/worker/handlers.py:125-130 | once the request is answered, imported is for good |
| Uploads.ImportedCanRevert | src/adaptive_quant/api/control.py:592-592 | a reachable state where the late link takes an upload out of imported |
| ControlRows.ControlRepository.SetUploadStatus | src/adaptive_quant/persistence/control.py:342-364 | the guarded status write, with its content drop, is the step the upload protocol uses |
| ControlRows.ControlRepository.SaveRuntimeConfig | src/adaptive_quant/persistence/control.py:475-521 | saved with its history exactly when the revision is the expected one; the history stays in revision order |
| SettingsLaws.SetThenGet | src/adaptive_quant/config/runtime.py:182-201 | a write succeeds exactly where a read would, and reads back |
| SettingsLaws.SetKeepsOthers | src/adaptive_quant/config/runtime.py:182-201 | a write changes no independent path |
| SettingsLaws.SetsCommute | src/adaptive_quant/config/runtime.py:191-201 | writes to independent paths commute |
| SettingsLaws.WritablesAreIndependent | src/adaptive_quant/config/runtime.py:76-127 | no editable path runs through another |
| SettingsLaws.OrderIsIrrelevant | src/adaptive_quant/config/runtime.py:280-288 | the items of an overlay in any order are refused alike or give the same configuration |
| SettingsLaws.EffectiveValue | src/adaptive_quant/config/runtime.py:262-311 | each path has the overlay's value if it is named and the reviewed value otherwise |
| OverlayLaws.StrategiesAreOverridden | src/adaptive_quant/config/runtime.py:288-302 | each strategy of an accepted configuration has the override's enabled, lifecycle and parameters where it gives them, and the reviewed values otherwise |
| OverlayLaws.RefusedIff | src/adaptive_quant/config/runtime.py:212-313 | an overlay is refused for what it asks if and only if it names a path that is not editable or does not exist, a mode other than paper or shadow, a looser limit, a reserved lifecycle or an unknown strategy |
| OverlayLaws.FloatsAre | src/adaptive_quant/config/runtime.py:249-252 | which values read as numbers, and as which |
| OverlayLaws.LimitsAre | src/adaptive_quant/config/runtime.py:107-121 | which settings are risk limits, and in which direction each is tighter |
| OverlayLaws.SettingsAre | src/adaptive_quant/config/runtime.py:76-106 | which other settings may be edited |
| OverlayLaws.AcceptedIsNotLive | src/adaptive_quant/config/runtime.py:310-313 | no accepted overlay leaves the live mode or the live lock, and none is refused for them if the reviewed files have neither |
| SettingsLaws.LimitsNeverLoosen | src/adaptive_quant/config/runtime.py:243-288 | every risk limit of an accepted configuration is the overlay's or the reviewed value and not looser, as the code compares |
| SettingsLaws.LimitsOnlyTighten | src/adaptive_quant/config/runtime.py:243-288 | a risk limit of an accepted configuration is numerically at least as tight as the reviewed one if and only if the overlay gives it no value that reads as "not a number" |
| SettingsLaws.NaNReplacesALimit | src/adaptive_quant/config/runtime.py:249-259 | over any reviewed files such a value passes the check of every risk limit, so only the schema can keep it from replacing the limit |
| SettingsLaws.NanTextReplacesALimit | src/adaptive_quant/api/control.py:161-164 | the text "nan" for the net exposure limit of 1.0, through the whole of apply_runtime |
| SettingsLaws.TightMeans | src/adaptive_quant/config/runtime.py:243-259 | for finite limits, at least as tight is the plain comparison, both ways |
| SettingsLaws.NeverLive | src/adaptive_quant/config/runtime.py:310-313 | a configuration with an overlay is never live, and over reviewed settings that are not live the last check never has to refuse one |
| SettingsLaws.LifecyclesStayReviewed | src/adaptive_quant/config/runtime.py:230-241 | overrides keep every strategy and grant no lifecycle reserved to the reviewed files |
| RuntimeConfigs.ReadPath | src/adaptive_quant/config/runtime.py:182-188 | the walk down the tree finds what the path names, or nothing |
| RuntimeConfigs.Apply | src/adaptive_quant/config/runtime.py:262-311 | the validation and merge loops give the specified configuration or refusal |
| RuntimeConfigs.BuildOverlay | src/adaptive_quant/api/control.py:1016-1057 | the handler's loop over the requested changes gives the specified overlay |
| RuntimeConfigs.ConfigCache.Effective | src/adaptive_quant/services/runtime.py:35-58 | cached or not, the answer is the configuration of this very row, in whatever order its items come |
| RuntimeConfigs.ReachableRowsAreTight | src/adaptive_quant/api/control.py:1003-1073 | after any interleaving of requests the row in force resolves, is not live, and keeps a limit at least as tight as reviewed if and only if the row gives it no value that reads as "not a number" |
| RuntimeConfigs.LimitCanBeReplaced | src/adaptive_quant/api/control.py:1003-1073 | such a row is one confirmed settings request away from the empty one, if the schema takes the value |
| RuntimeConfigs.ModeIsEffective | src/adaptive_quant/services/runtime.py:26-32 | the mode handlers and guard read is the mode of the resolved configuration |
| TradingMode.StepEdits | src/adaptive_quant/persistence/control.py:475-521 | an accepted save is its edit of the row as it is now, and raises the revision by one |
| TradingMode.OverlayEditsAreSerial | src/adaptive_quant/api/control.py:1003-1073 | however requests interleave, the overlay is the first one with every accepted edit applied in turn |
| TradingMode.SettingsKeepOthers | src/adaptive_quant/api/control.py:1016-1057 | a settings request changes no path it does not name |
| TradingMode.OverrideSaveLosesNothingIff | src/adaptive_quant/api/control.py:748-775 | a strategy save is its change of the current row exactly when its first read agrees with that row outside the field changed |
| HandlerLaws.StartedIff | src/adaptive_quant/api/control.py:1281-1335 | whatever runs in between, a start turns automation on, in the mode it read, if and only if that is paper or shadow, its checks pass and automation was off at the check |
| HandlerLaws.SwitchedToPaperIff | src/adaptive_quant/api/control.py:1354-1427 | a switch to paper is saved if and only if the mode was another, the checks pass with automation off, nobody saved since its read and the configuration resolves |
| HandlerLaws.SwitchedToShadowIff | src/adaptive_quant/api/control.py:1354-1427 | a switch to shadow first stops automation seen on, and is saved likewise |
| HandlerLaws.SettingsSavedIff | src/adaptive_quant/api/control.py:1003-1073 | a settings request is saved if and only if it expected the row it read, may make its changes, nobody saved since and the configuration resolves |
| HandlerLaws.StrategySavedIff | src/adaptive_quant/api/control.py:748-775 | a strategy request is saved, with its first read edited, if and only if nobody saved since its second read and the configuration resolves |
| HandlerLaws.EditIs | src/adaptive_quant/api/control.py:1016-1057 | a path named by a settings request has the value it named last, or is reset |
| HandlerLaws.StrategyEditIs | src/adaptive_quant/services/strategies.py:111-160 | a strategy request changes one field of one strategy, parameters key by key |
| HandlerLaws.GuardPassesIff | src/adaptive_quant/worker/scheduler.py:62-100 | an order passes exactly with the gate open, the mode the scheduler's, automation on and for no other mode, and all its strategies eligible |
| TransmitGuard.ShadowHolds | src/adaptive_quant/worker/scheduler.py:73-100 | after a saved switch to SHADOW no later guard call for paper passes without a later saved switch to PAPER, whose check found automation off, and a paper start accepted after that check |
| TransmitGuard.StopHolds | src/adaptive_quant/api/control.py:1337-1352 | after a stop no guard call that reads the switch later passes without a later start of its mode |
| TransmitGuard.DemotionHolds | src/adaptive_quant/worker/scheduler.py:62-70 | a scheduler started with a strategy no longer eligible sends nothing until an accepted save makes it eligible again |
| TransmitGuard.RacingStrategyChangeIsLost | src/adaptive_quant/api/control.py:748-831 | from any state, a strategy change saved between another request's two reads is undone by that request |
| TransmitGuard.PaperNeedsASwitch | src/adaptive_quant/api/control.py:1354-1423 | the mode becomes paper only by a saved switch to paper |
| TransmitGuard.RunningNeedsAStart | src/adaptive_quant/api/control.py:1281-1339 | automation comes on only by an accepted start, and shows its mode |
| Supervision.StepKeepsConsistent | src/adaptive_quant/worker/scheduler.py:147-299 | after every round the scheduler exists exactly while the lock is held, in the mode and with the strategies on record |
| Supervision.RunsIff | src/adaptive_quant/worker/scheduler.py:147-266 | after a round it runs if and only if gate and switch are on and it may keep running or start; only then it may have ticked |
| SupervisionLaws.RoundRuns | src/adaptive_quant/worker/scheduler.py:147-266 | what runs after a round is the scheduler that may go on, or the one the conditions start, in its mode with the strategies eligible then |
| SupervisionLaws.TickedIff | src/adaptive_quant/worker/scheduler.py:268-287 | a scheduler that runs ticks in every round, but not before the moment its last tick named, nor within a minute of a failed one |
| SupervisionLaws.ReasonHolds | src/adaptive_quant/worker/scheduler.py:147-299 | whatever reason the status gives for stopping, waiting or refusing holds |
| SupervisionLaws.StatusTells | src/adaptive_quant/worker/scheduler.py:147-287 | the status shows gate and request, running, stopped or blocked, since when, and whether the configuration in force is another than the one started with |
| Supervision.GuardAgrees | src/adaptive_quant/worker/scheduler.py:83-100 | on the same rows the transmit guard lets an order through exactly when the supervisor would let that scheduler run on |
| Supervision.RefusedStartWaits | src/adaptive_quant/worker/scheduler.py:210-256 | a refused start is not tried again for a minute |
| Supervision.AtMostOneRuns | src/adaptive_quant/persistence/locks.py:38-74 | over every interleaving of rounds, restarts and crashes two workers of one environment never both run |
| SupervisionLaws.SuperviseRuns | src/adaptive_quant/worker/scheduler.py:147-266 | in a run a round changes its own worker only, which then runs exactly if it may |
| SupervisionLaws.LockIsTakenIff | src/adaptive_quant/persistence/locks.py:32-74 | over every run an environment's lock is taken exactly while one of its workers runs the scheduler, whatever other environments do |
| SupervisionLaws.ShutdownReleases | src/adaptive_quant/worker/scheduler.py:289-299 | a worker that stops or crashes leaves the lock free and the others as they were |
| Supervision.TicksAreAllowed | src/adaptive_quant/worker/scheduler.py:147-178 | a worker ticks alone in its environment, with gate, switch, mode and eligibility as wanted in that very round |
| Supervisors.AdvisoryLock.Acquire | src/adaptive_quant/persistence/locks.py:38-63 | the retry loop gets the lock exactly when one of the tries in time finds it free in the lock table, at the first such try, and takes it from nobody |
| Supervisors.SchedulerSupervisor.Step | src/adaptive_quant/worker/scheduler.py:147-178 | the object and the lock table after a round are what the round function gives |
| Supervisors.SchedulerSupervisor.Start | src/adaptive_quant/worker/scheduler.py:210-266 | likewise for a start, whichever check refuses it |
| Supervisors.SchedulerSupervisor.Stop | src/adaptive_quant/worker/scheduler.py:289-299 | stopping releases the lock and drops the scheduler, whatever the state |
| Allocation.MappingReachesExposure | src/adaptive_quant/quant/portfolio/policy.py:26-43 | the weights carry the asked exposure as far as unlevered cash allows, and hold the inverse fund only below zero |
| Allocation.LeastLeveragedMix | src/adaptive_quant/quant/portfolio/policy.py:38-43 | no other long mix reaching the exposure holds less of the leveraged fund |
| Allocation.LimitsHoldTogether | src/adaptive_quant/quant/backtest/allocation.py:91-114 | after the three passes all limits hold at once, no weight grew, and nothing changed exactly if nothing had to |
| Allocation.LimitsTakeNoMore | src/adaptive_quant/quant/backtest/allocation.py:91-114 | the passes take no more than they must: weights over a cap go to the cap, the leveraged funds and then all three fill their limit exactly, in the proportions they had |
| Allocation.AllocationIs | src/adaptive_quant/quant/backtest/allocation.py:67-86 | what is traded is the exposure clipped to both net limits, mapped, limited, and each weight the nearest millionth |
| Allocation.LimitsAreIdempotent | src/adaptive_quant/quant/backtest/allocation.py:91-114 | limiting twice is limiting once |
| Allocation.NetExposureWithinLimits | src/adaptive_quant/quant/backtest/allocation.py:67-122 | the capped weights carry an exposure between the inverse and the long limit, on the asked side, no more than asked |
| AllocationRounding.AllocationWithinLimits | src/adaptive_quant/quant/backtest/allocation.py:67-86 | after rounding the gross limit is exceeded by one millionth at most and the two net limits by one and a half |
| AllocationRounding.NetExcessIsReached | src/adaptive_quant/quant/backtest/allocation.py:67-86 | limits whose net exposure is exceeded by exactly one and a half millionths, long and inverse |
| AllocationRounding.InverseLimitIsExceeded | src/adaptive_quant/quant/backtest/allocation.py:67-86 | an inverse limit of a half, asked for exactly, is exceeded by a millionth in every mode |
| AllocationRounding.AloneKeptIff | src/adaptive_quant/quant/backtest/allocation.py:67-114 | inverse in every mode, and long in the two modes of a single fund: every request keeps every limit after rounding if and only if the largest weight the caps let through does |
| AllocationRounding.SingleFundKeptIff | src/adaptive_quant/quant/backtest/allocation.py:67-114 | so in those two modes two numbers decide for all requests whether every limit is kept |
| AllocationRounding.RoundedLimitsHold | src/adaptive_quant/quant/backtest/allocation.py:67-114 | in every mode, what is traded keeps every limit exactly if the caps are whole millionths, the room even for the mix of two funds, and the net limits round down or the caps bind first |
| AllocationRounding.NetKeptIff | src/adaptive_quant/quant/backtest/allocation.py:67-86 | of the two funds no request exceeds the net limit if and only if it rounds down, where the caps leave it alone |
| AllocationRounding.GrossKeptIff | src/adaptive_quant/quant/backtest/allocation.py:67-114 | of the two funds no request exceeds the gross room if and only if it is an even number of millionths, where the caps leave the mix that splits it alone |
| AllocationRounding.OffGridIsExceeded | src/adaptive_quant/quant/backtest/allocation.py:67-114 | any position cap, leveraged cap or gross room that rounds up is exceeded by some request |
| AllocationRounding.ShippedLimitsHold | config/risk.yaml:14-27 | the shipped limits meet that condition in every mode, so every request keeps them |
| Allocation.WholeCapsAreKept | src/adaptive_quant/quant/backtest/allocation.py:85-97 | position caps of whole millionths are kept exactly |
| Allocation.LimitInPlace | src/adaptive_quant/quant/backtest/allocation.py:91-114 | the in-place passes compute the specified weights and record an adjustment exactly if something changed |
| RateLimiting.KeptIsAccepted | src/adaptive_quant/api/security.py:68-80 | the pruned list shows exactly the accepted calls later than any moment that no call processed so far has pruned past |
| RateLimiting.WindowHoldsIff | src/adaptive_quant/api/security.py:49-80 | over all runs of that skew, whatever order the calls get the lock in, no interval of a width holds more accepted calls than allowed, if and only if the width is at most the window less the skew; without skew, the whole window |
| RateLimiting.BucketsHold | src/adaptive_quant/api/security.py:49-60 | 30 jobs in a minute, 10 uploads in ten minutes and 20 control requests in a minute |
| RateLimiting.WaitsBoundSkew | src/adaptive_quant/api/security.py:70-73 | by a clock that never runs backwards the skew is at most the longest wait for the lock |
| RateLimiting.SkewOverflows | src/adaptive_quant/api/security.py:68-80 | for every limit of two or more and every skew a run where any longer interval holds one call too many |
| RateLimiting.OvertakingCanHappen | src/adaptive_quant/api/security.py:70-73 | a monotone clock allows that run, with one call waiting for the lock as long as the skew |
| RateLimiting.RefusedWhenFull | src/adaptive_quant/api/security.py:73-78 | a call is refused only if that many accepted calls are later than its window's start, and surely if they are later by the skew |
| RateLimiting.RefusedIffFull | src/adaptive_quant/api/security.py:68-80 | in calls processed in the order of their readings, one is refused exactly when the window before it is full |
| RateLimiting.RateLimiter.Check | src/adaptive_quant/api/security.py:72-80 | under the lock, the pruning loop decides and updates as specified, for this bucket and client only |

## Left out

- TransmitGuard.ShadowHolds: speaks of guard calls, not of an order already handed to the broker when the switch is saved; and the later start may have been requested, though not accepted, before the switch.
- WorkerObjects.Worker.RunOnce: the heartbeats of a keep-alive that outlives the execution by its five seconds of grace are not part of it; the job has ended by then.
- RateLimiting.WindowHoldsIff: for limits of two calls or more, as all of the three are.
- AllocationRounding.RoundedLimitsHold: for the mix of two funds its condition is sufficient; that the even room and the net limit that rounds down are needed is proved where no cap binds first (AllocationRounding.GrossKeptIff, AllocationRounding.NetKeptIff).
- Decimal's 28-digit context and binary floating point: cash, quantities and prices are exact integers, weights and rates exact reals, the square root any monotone function that keeps the unit interval.
- Strategies, indicators, ensemble, risk engine and the decision chain: target weights and prices known at the decision are inputs of the sizing.
- Daily rows, metrics, warnings and benchmark curves: nothing later in the loop reads them.
- The order in which a decision walks its symbols is that of the price table: lots, orders and money do not depend on it beyond order numbers.
- Lot objects are values of the portfolio's queues: the source never shares one between queues.
- The settings tree and the weight dictionary are values too: apply_runtime works on a deep copy of its own, and the allocator on a dictionary it just made.
- PostgreSQL and SQLAlchemy: each repository method is one atomic step and an advisory lock a mutex; two inserts racing past the identical-job check are not modelled, and neither is a database that is down.
- A risk limit that the reviewed files do not have: the tightening check then raises an error of its own kind, which is modelled as one more refusal; the schema gives every limit a value.
- Random job, upload and request identifiers are taken never to repeat, and a worker to execute a job it claimed once.
- Log lines, audit events, heartbeat rows and the status document that workers publish: nothing modelled depends on them.
- Readiness checklist, broker verification, confirmation phrases and paper account checks: each is one yes or no in the step that asks for it.
- The lifecycle transition table and the settings schema: they decide which edits are accepted, and any such decision is allowed for.
- The hash behind lock keys, cache keys and configuration versions is taken not to collide.
- Trading cycles, the broker, order management and the kill switch: a tick and a transmission are single events.
- Authentication, HTTP routing, email, the command line, data download and Parquet storage: plumbing and I/O.
