# CaptureOS: a verified model of its stateful core

CaptureOS is a service that finds public funding opportunities, drafts filings for them and guards the spending of
the companies that use it. This project models the parts of its API in which correctness depends on what several
operations, or several concurrent requests, do together, and proves in Dafny what those parts promise.

Run `dafny verify dfyconfig.toml` to check everything.

## What is modelled

Concurrent protocols are state machines: a state, labels for the steps, a guard and an effect per step. A run is any
sequence of labels, and a label whose guard fails changes nothing, so a theorem about all runs is a theorem about all
interleavings, crashes and aborts included. Database transactions commit at one step; row locks, unique keys and
roll-backs are explicit. Code that loops over or updates rows is a method or a class whose contract equates the new
state with a function of the old one, and the promises are proved of that function.

| part | files |
|---|---|
| Spend authorization: budget windows, rules and budget choice, concurrent decisions and their answers, the cap and its exact conditions, serializability, reported totals, overlapping budgets, budget translation | `Calendar`, `SpendRules`, `SpendLedger`, `SpendAnswers`, `SpendCap`, `SpendCapExact`, `SpendCapLimits`, `SpendSerial`, `SpendReach`, `SpendScope`, `SpendScopeExact`, `SpendOverlap`, `SpendTranslation` |
| Durable workflows: job queue and run executor, order of claims, what requeuing costs, the drain loop, stop and resume of a pipeline | `WorkflowQueue`, `WorkflowFair`, `WorkflowLimits`, `WorkflowDrain`, `WorkflowEngine` |
| Billing webhooks: racing deliveries, the tables as a fold over events, redeliveries, serial deliveries as runs of the race, mirrored rows | `BillingEvents`, `BillingRace`, `BillingFold`, `BillingRedelivery`, `BillingSerial`, `BillingMirrors` |
| Versioned corpus: version chains, chunks, vector backfill | `VersionLabels`, `Corpus`, `CorpusStore`, `CorpusEmbed` |
| Chunk splitting | `Chunking`, `ChunkingLaws`, `ChunkingWindows` |
| Filing package, its citation gate and its history | `FilingPackage`, `FilingApproval`, `FilingHistory` |
| Login rate limiter | `RateLimit` |
| Spend policy evaluation | `Policy` |
| Shared: options, sums, rearrangements, Python's white space, `strip` and `lower` | `Wrappers`, `Sums`, `Lists`, `Text` |

## What the proofs found

Where a promise of the code or of its comments holds only under a condition, the code was modelled as it is and the
condition proved exact.

- The budget cap (spend.py:288-311) needs non-negative amounts where budgets overlap, and needs each charge to be found
  by the query that totals its own budget. The budget is chosen by a trimmed, case-folded comparison, but the query compares exactly;
  the window is computed from a clock read after the lock, but a row is stored under the start time of its
  transaction. A budget that names several columns judges by any of them and counts by the first.
  `SpendCapExact.ShapeCapExactly` proves this exact for each kind of charge, and `SpendCapLimits` gives
  a concrete run for each way to miss it. A limit below zero still allows nothing: the bound is the larger of 0 and
  the limit.
- Only the budget that judges a charge is locked, but every budget whose query finds it counts it. A budget's verdicts
  are serial in row order, for charges of either sign, if and only if every scope its query counts is refused or judged
  by that budget itself (`SpendOverlap.SerialExactly`), and under the same condition exactly what it approved and finds
  stays within its limit (`SpendOverlap.ChargedCapExactly`). `SpendOverlap.OverlapMatters` is a concrete run in which an
  overlap approves what row order declines. With overlaps, each verdict is the serial one for a slightly earlier table
  (`SpendSerial.VerdictsExplained`).
- The choice of a budget is independent of row order if and only if no two budgets name the same value up to case and
  surrounding space (`SpendRules.PickOrderFreeExactly`).
- The total that a budget's query reports also counts charges that other budgets approved. It is capped, for amounts of
  either sign, exactly when every scope the query counts is refused, judged by the budget itself, or judged charge by
  charge by a budget with no room (`SpendScopeExact.ScopeCapExactly`). So negative amounts cannot take a merchant
  budget without clashes past its limit, and can take a category budget past it beside a merchant budget.
- A budget translation reads the stored rows without an order. Applied again it changes nothing in every order if and
  only if rows stored twice under a key it names already agree with it and it names no new key with two values
  (`SpendTranslation.IdempotentExactly`); two limits for one new merchant are the failing input. It keeps one row per
  key if and only if it does not name a new key twice, because the index is not extended while rows are appended: two
  budgets are stored, or the unique key of the rule table is violated (`SpendTranslation.UpsertKeepsKeysDistinct`).
- The queue's own comment says that SKIP LOCKED makes claims exactly-once (queue.py:77-78). `WorkflowLimits` proves when:
  a job has at most one live worker if and only if the reaper does not run, and is claimed once if and only if failures
  are not retried either. With both, a job can go from done back to pending. What happens at most once in every case is
  the commit of a run's outcome. With a configured maximum below one a job still gets one attempt.
- `_finish_job` and `_retry_job` (queue.py:43-58) read the job, and the UPDATE writes only the columns that differ from
  what was read. So a late write can miss the lock of a claim made in between, or clear that of a later one. A job is
  `processing` exactly when `locked_at` is set if and only if the reaper does not run
  (`WorkflowLimits.LockAgreesExactly`). The two ways to fail differ: a lock on a finished job needs only the reaper
  (`WorkflowLimits.DoneYetLocked`), `processing` without a lock needs the reaper and retries
  (`WorkflowLimits.ProcessingLockedExactly`). The second can strand a job for good: neither the claim nor the reaper
  selects it, and its run never ends. `WorkflowLimits.StrandedExactly` proves that this takes both as well, and that any
  maximum of two or more attempts suffices; the worker runs the reaper (worker/main.py:24-25) and the default maximum is
  three (config.py:343). `WorkflowFair.NoStrandedJob` proves that every other unfinished job is reached.
- Whether the provider's retry records a checkout's revenue, as the comment in billing.py:286-298 expects, is settled
  exactly by `BillingRace.RetryCapturesExactly`. It does not when two racing first checkouts have left two mirrored
  subscriptions, which `BillingRace.TwoMirrorsReachable` shows to be possible, or when another event used the same
  event id.
- The billing tables are a fold over the events with redeliveries removed, by external id and event id, when every
  event names an existing organization and no checkout is refused (`BillingRedelivery.TablesOfFirstDeliveries`). An
  event that names only a subscription and comes before its checkout is refused without a ledger row, so its redelivery
  takes effect later, after what came in between (`BillingRedelivery.RefusedThenRedelivered`). This is the only
  exception: the exact condition is that each first delivery which names only a subscription leads to its organization
  (`BillingRedelivery.FirstsTakeEffectExactly`).
- Chunk splitting loses no text if and only if the target is at least 1 and the overlap at least 0
  (`ChunkingLaws.LosslessExactly`), and keeps pieces within the target if and only if that is not negative.
- The package check accepts a citation when its evidence or its source resolves, so the exact condition for approval
  asks for known evidence only where a requirement names no source (`FilingApproval.ApprovableExactly`).
- The limiter is described as fixed-window but slides, and a refused attempt is not stored. It is the best rule with
  its guarantee: no other choice of attempts with the same spacing lets more through (`RateLimit.AcceptsTheMost`).
- Policy evaluation depends on the order of its input exactly when two different matching rules tie for the least
  (priority, id) (`Policy.OrderFreeExactly`).

## Model

| member | source | states |
|---|---|---|
| Calendar.YearStep | apps/api/captureos/services/spend.py:73-84 | Python's day numbering gives a year exactly as many days as its twelve months, leap years included |
| Calendar.MonthsAscend | apps/api/captureos/services/spend.py:79-83 | the first day of a month comes after every day of every earlier month, in any year |
| Calendar.DatesAscend | apps/api/captureos/services/spend.py:73-84 | day numbers follow the order of (year, month, day) |
| Calendar.WindowSelectsPeriod | apps/api/captureos/services/spend.py:73-84 | `created_at >= window_start` selects exactly the earlier moments of the same day, ISO week, month or year, and everything for the intervals without a start |
| Calendar.WindowOpensBefore | apps/api/captureos/services/spend.py:73-84 | a moment always lies in its own window |
| Calendar.MonthTable | apps/api/captureos/services/spend.py:73-84 | the days before each month are those of the Gregorian calendar, with a day more after February in leap years |
| Calendar.DaysNumbered | apps/api/captureos/services/spend.py:73-84 | the moment a calendar day later is 86400 seconds later, across the ends of months and years |
| Calendar.KnownMonday | apps/api/captureos/services/spend.py:76-78 | the weekday numbering is anchored: the first day of year 1 and of 2024 are Mondays |
| Calendar.WeeksStartOnMonday | apps/api/captureos/services/spend.py:76-78 | one day and the next lie in different weeks exactly when the next is a Monday |
| SpendRules.FindFirstBest | apps/api/captureos/services/spend.py:98-106 | a scan that only moves to a strictly higher rank ends at the first element of the highest rank, and at none only if all ranks are zero |
| SpendRules.PickBudget | apps/api/captureos/services/spend.py:96-106 | the nested loops over budgets and match types with `best` and `best_rank` compute `Pick`, whose meaning is the next row |
| SpendRules.PickMeaning | apps/api/captureos/services/spend.py:96-106 | there is a governing budget exactly when some budget matches, and it is the first of those of highest specificity, merchant over mcc over category |
| SpendRules.MostSpecificPicked | apps/api/captureos/services/spend.py:96-106 | no budget is more specific for the charge than the one picked, which is more specific than all before it: merchant decides first, then mcc, then category, each compared on its own; none is picked exactly when no column of any budget matches |
| SpendRules.DistinctScopesPickAlike | apps/api/captureos/services/spend.py:96-106 | when no two budgets clash, that is name the same merchant, mcc or category up to case and surrounding space, every rearrangement of them picks the same one, for every charge |
| SpendRules.ClashDecidesByOrder | apps/api/captureos/services/spend.py:96-106 | when two budgets clash there is a charge whose budget depends on the order of the rows |
| SpendRules.PickOrderFreeExactly | apps/api/captureos/services/spend.py:96-106 | the pick is independent of row order for all charges if and only if no two budgets clash |
| SpendRules.JudgeCharge | apps/api/captureos/services/spend.py:274-294 | deny scan, allow-list gate and budget search as loops compute `Judge` |
| SpendRules.ApprovedExactly | apps/api/captureos/services/spend.py:274-311 | a charge is approved exactly when no deny rule matches, an allow rule does if there are any, and the first of its most specific budgets has room, for the charge alone or on top of what was spent |
| SpendRules.ReasonExactly | apps/api/captureos/services/spend.py:274-311 | each reason is given exactly in its case: denied, not on an existing allow list, no budget matching, within budget, over budget |
| SpendRules.JudgeOrderFree | apps/api/captureos/services/spend.py:263-294 | neither the order of the rules nor, without clashes, that of the budgets changes a judgement |
| SpendRules.DenyNeverApproves | apps/api/captureos/services/spend.py:274-311 | adding deny rules never turns a decline into an approval; what stays approved is approved on the same ground |
| SpendLedger.StepSound | apps/api/captureos/services/spend.py:145-260 | every step of every request keeps the soundness invariant: unique ids, locks and pending inserts not shared, an answer with a row backed by that row; answers without one are the subject of SpendAnswers |
| SpendLedger.RunSound | apps/api/captureos/services/spend.py:145-260 | that invariant holds in every state any interleaving of requests, aborts included, can reach |
| SpendLedger.OneVerdictPerAuthorization | apps/api/captureos/services/spend.py:147-162 | under racing and replayed deliveries an authorization id has at most one row, and every answer that carries a row carries that one and its verdict |
| SpendAnswers.ApprovalIsBacked | apps/api/captureos/services/spend.py:145-260 | over every run, a request that was answered with an approval has a committed row of its own id, approved, whose card is known and whose organization is that card's |
| SpendAnswers.UnknownCardDeclined | apps/api/captureos/services/spend.py:164-179 | over every run, an answer without a row is a decline for an unknown card, and is given exactly when the request began with a missing or unknown card and no row of its id was there |
| SpendAnswers.OneFirstAnswer | apps/api/captureos/services/spend.py:147-260 | every committed row was returned to exactly one request as its own, and to all others as a replay |
| SpendLedger.RowsOnlyGrow | apps/api/captureos/services/spend.py:198-229 | rows are only appended and only for ids that had none, so a replay leaves every total as it was |
| SpendLedger.NoDeadlock | apps/api/captureos/services/spend.py:302-307 | row locks and waiting inserts never block all unfinished requests |
| SpendCap.ChargedWithinSpent | apps/api/captureos/services/spend.py:109-128 | for non-negative amounts, what the budget approved and its query finds is part of what the query totals |
| SpendCap.TotalFits | apps/api/captureos/services/spend.py:295-310 | an approval made under the lock fits: what the budget has approved plus the charge is within the limit |
| SpendCap.CommitKeepsFit | apps/api/captureos/services/spend.py:302-310 | a commit by another request leaves every pending approval fitting, because the same budget would mean the same lock |
| SpendCap.StepKeepsCap | apps/api/captureos/services/spend.py:263-311 | every step keeps the cap and the fit of all pending approvals |
| SpendCap.BudgetCap | apps/api/captureos/services/spend.py:288-311 | over any interleaving of non-negative charges, what one accumulating budget approved in one window, as far as its own query finds it, is at most its limit, and all of it when every such charge is found; charges approved under overlapping budgets meanwhile do not break this |
| SpendCap.SelfCountingMeaning | apps/api/captureos/services/spend.py:109-128 | a charge is found by the query exactly when it is spelled like the budget on the budget's first column, merchant before mcc before category, and its transaction began in the period in which it was judged; normalised identifiers are spelled alike |
| SpendCapExact.ServedAlone | apps/api/captureos/services/spend.py:145-260 | a fresh request served with nobody else at work ends with its row committed and the verdict `_evaluate` gives on the rows before it |
| SpendCapExact.UnseenSpend | apps/api/captureos/services/spend.py:109-128 | charges that the query does not find add nothing to the total |
| SpendCapExact.CopiesAllApproved | apps/api/captureos/services/spend.py:109-128 | any number of such charges are approved in full |
| SpendCapExact.ShapeCapExactly | apps/api/captureos/services/spend.py:288-311 | for one kind of charge, every run respects the limit if and only if the query finds that kind: the scope spelled like the budget's, the transaction begun inside the window |
| SpendCapLimits.SpellingMatters | apps/api/captureos/services/spend.py:87-119 | concrete run: a budget for "A" governs charges of "a" without counting them and is exceeded |
| SpendCapLimits.ColumnsMatter | apps/api/captureos/services/spend.py:87-119 | concrete run: a budget that names a merchant and an mcc governs charges by the mcc alone without counting them and is exceeded |
| SpendCapLimits.MidnightMatters | apps/api/captureos/services/spend.py:73-127 | concrete run: daily charges whose transactions begin before midnight and are judged after it exceed the daily limit |
| SpendCapLimits.NegativesMatter | apps/api/captureos/services/spend.py:109-128 | concrete run: a negative amount approved under an overlapping budget lets another budget approve ten times its limit |
| SpendSerial.CommitKeepsExplained | apps/api/captureos/services/spend.py:302-310 | what others commit while a request waits to insert was not judged by the budget it holds |
| SpendSerial.VerdictsExplained | apps/api/captureos/services/spend.py:263-311 | in every interleaving each row, approved or declined, has the verdict of a request served alone on some earlier state of the table, with no row of the same budget committed in between |
| SpendSerial.ConcurrentIsSerial | apps/api/captureos/services/spend.py:145-260 | a verdict is that of serving the charges one after another in row order, when all that its budget's query counts among the earlier rows was judged by that budget; when that is always so is SerialExactly |
| SpendReach.SerialIsReachable | apps/api/captureos/services/spend.py:145-260 | the converse: every table that serving charges one after another can produce is the table of some run |
| SpendScope.OwnedScopeCapped | apps/api/captureos/services/spend.py:109-128 | over any interleaving of charges of either sign, the total that a budget's query reports stays within its limit when every scope it counts is refused, judged by that budget, or judged charge by charge with no room |
| SpendScopeExact.SameJudgement | apps/api/captureos/services/spend.py:87-93 | charges that differ only in case and surrounding space are judged alike |
| SpendScopeExact.EmptyColumnIgnored | apps/api/captureos/services/spend.py:96-119 | an empty merchant or mcc column of a budget is like none, for the choice of the budget and for its query |
| SpendScopeExact.ForeignIsHigher | apps/api/captureos/services/spend.py:96-106 | of two one-column budgets, one that judges a charge in the other's scope is on a more specific column |
| SpendScopeExact.SharedScopeExceeds | apps/api/captureos/services/spend.py:109-128 | when another budget can charge the scope, some run takes the reported total past the limit |
| SpendScopeExact.ScopeCapExactly | apps/api/captureos/services/spend.py:109-128 | the reported total is within the limit in every run, whatever the sign of the amounts, if and only if every scope it counts is refused, judged by that budget, or judged charge by charge with no room |
| SpendScopeExact.MerchantBudgetOwns | apps/api/captureos/services/spend.py:96-106 | an accumulating merchant budget that clashes with no other is the sole judge of the scopes it counts, so it meets the conditions of ScopeCapExactly, SerialExactly and ChargedCapExactly |
| SpendOverlap.OverlapIsReachable | apps/api/captureos/services/spend.py:145-260 | two requests that do not share a lock can both be judged on the empty table and commit in the opposite order |
| SpendOverlap.OverlapMatters | apps/api/captureos/services/spend.py:295-310 | concrete run: a category charge is totalled, a merchant charge in that category commits, and the first is approved though in row order it is over its budget |
| SpendOverlap.SoleJudgeInOrder | apps/api/captureos/services/spend.py:302-310 | when every scope that a budget counts is refused or judged by it, its verdicts are serial in row order in every interleaving |
| SpendOverlap.ForeignJudgeReorders | apps/api/captureos/services/spend.py:302-310 | when another budget judges a scope it counts, some run gives one of its charges a verdict that is not the serial one |
| SpendOverlap.SerialExactly | apps/api/captureos/services/spend.py:302-310 | a budget's verdicts are serial in row order in every run, for charges of either sign, if and only if every scope its query counts is refused or judged by that budget |
| SpendOverlap.ForeignJudgeExceeds | apps/api/captureos/services/spend.py:109-128 | when another budget judges a scope it counts, some run makes a budget approve more than its limit |
| SpendOverlap.ChargedCapExactly | apps/api/captureos/services/spend.py:288-311 | what a budget approved in a window and its query finds is within the limit in every run, for charges of either sign, if and only if the same condition holds |
| SpendTranslation.ApplyTranslation | apps/api/captureos/services/spend.py:351-410 | the indexing comprehension and the update-or-append loop, for budgets and for rules, compute `Upsert` and count every entry as written |
| SpendTranslation.UpsertKeys | apps/api/captureos/services/spend.py:357-382 | stored rows keep their keys, and rows are appended only for keys that were not stored |
| SpendTranslation.UpsertMeaning | apps/api/captureos/services/spend.py:351-382 | afterwards the value stored for a key is the last one the translation wrote for it, or the earlier one if it wrote none |
| SpendTranslation.UpsertInPlace | apps/api/captureos/services/spend.py:364-382 | of the stored rows, only the last one of each named key is rewritten, to the last value the translation writes for it |
| SpendTranslation.AgreeingStay | apps/api/captureos/services/spend.py:351-382 | rows that already hold what the translation says, in whatever order they are read, are left as they are |
| SpendTranslation.AgreeExactly | apps/api/captureos/services/spend.py:351-410 | after a translation all stored rows of edited keys hold its last values if and only if rows stored twice under an edited key already did and it names no new key with two values |
| SpendTranslation.IdempotentExactly | apps/api/captureos/services/spend.py:326-410 | applying a translation again changes nothing, in whatever order its unordered queries read the rows back, if and only if that condition, which can be checked beforehand, holds |
| SpendTranslation.TranslationIdempotent | apps/api/captureos/services/spend.py:326-410 | so it changes nothing when every key is stored once and named once |
| SpendTranslation.TwoValuesNotIdempotent | apps/api/captureos/services/spend.py:351-382 | concrete input: two limits for one new merchant are both stored, and read back in the other order the second application rewrites one of them |
| SpendTranslation.UpsertAppendsFresh | apps/api/captureos/services/spend.py:364-376 | the rows appended are exactly the entries for unstored keys, in order, repetitions included |
| SpendTranslation.UpsertKeepsKeysDistinct | apps/api/captureos/services/spend.py:384-410 | one row per key, which the unique key of the rule table demands, is kept if and only if the translation does not name an unstored key twice |
| WorkflowQueue.StepKeepsRuns | apps/api/captureos/workflows/runner.py:26-58 | every step keeps: one commit per terminal run, one executor per run, executors only on runs that are not terminal |
| WorkflowQueue.CommitsAtMostOnce | apps/api/captureos/workflows/runner.py:26-58 | with any number of workers, crashes, requeues and retries a run's outcome is committed at most once, and exactly once when the run is terminal |
| WorkflowQueue.TerminalForever | apps/api/captureos/workflows/runner.py:40-42 | a committed terminal status never changes |
| WorkflowQueue.WriteKeepsClaims | apps/api/captureos/workflows/queue.py:43-58 | recording a job's fate, also by a stale worker and over a row that has changed since it was read, spends its claim number and no other |
| WorkflowQueue.ClaimKeepsClaims | apps/api/captureos/workflows/queue.py:27-40 | a claim takes a number no other worker holds and no retry has used |
| WorkflowQueue.RunKeepsClaims | apps/api/captureos/workflows/queue.py:27-98 | the claim accounting holds in every reachable state |
| WorkflowQueue.ClaimsBounded | apps/api/captureos/workflows/queue.py:52-98 | a job's attempts never exceed the configured maximum, or one if that is smaller, plus the number of times it was reaped |
| WorkflowQueue.NotReapedEarly | apps/api/captureos/workflows/queue.py:61-73 | a job that was just claimed is not requeued before the timeout has passed, over every run |
| WorkflowQueue.GoneRow | apps/api/captureos/workflows/queue.py:43-58 | recording something about a job whose row is gone changes no job, and raises exactly when it was `done` |
| WorkflowQueue.StatusTrue | apps/api/captureos/workflows/queue.py:43-58 | in every reachable state a job is done only if its run is terminal or gone, and failed only after the configured number of attempts |
| WorkflowQueue.WorkPaid | apps/api/captureos/workflows/queue.py:27-98 | every step a worker takes, with a failing record of `done` and its retry counted, is paid for by a claim, seven to each |
| WorkflowQueue.PermittedTotal | apps/api/captureos/workflows/queue.py:61-98 | the claims permitted in all are the maximum for each job and one more for each reaping |
| WorkflowQueue.WorkBounded | apps/api/captureos/workflows/queue.py:76-98 | all workers together take at most seven steps per permitted claim, so with finitely many jobs and reapings the system comes to rest |
| WorkflowFair.AwaitLock | apps/api/captureos/workflows/runner.py:32-36 | waiting for the run's row lock: when its holder commits, the run is free |
| WorkflowFair.RunsToDone | apps/api/captureos/workflows/queue.py:86-90 | a worker with a claim finishes the job when nobody else executes its run, and leaves a terminal run as it was |
| WorkflowFair.DueJobReached | apps/api/captureos/workflows/queue.py:27-40 | from any reachable state, a worker that claims the oldest due job each time, as the query orders them, comes to hold any given due job |
| WorkflowFair.NoStrandedJob | apps/api/captureos/workflows/queue.py:27-98 | so does it any unfinished job of an existing run that is pending, or processing under a lock, once that is stale and reaped, though its last worker be gone |
| WorkflowFair.NoOvertaking | apps/api/captureos/workflows/queue.py:27-40 | while a job is due and claims are oldest first, no younger job is claimed, and each older one at most as often as its bound |
| WorkflowFair.LaterJobsWait | apps/api/captureos/workflows/queue.py:22-40 | no job enqueued later is claimed while an overdue one waits |
| WorkflowFair.EnqueuedIsDue | apps/api/captureos/workflows/queue.py:22-24 | a job is due as soon as it is enqueued |
| WorkflowFair.ClaimsBeforeTurn | apps/api/captureos/workflows/queue.py:27-40 | the number of claims made while a job is due is at most what the maximum and the reapings still leave to the jobs at least as old |
| WorkflowLimits.RunKeepsExclusive | apps/api/captureos/workflows/queue.py:27-58 | without the reaper a job is processing exactly when locked, and has at most one live worker, which sees it so |
| WorkflowLimits.HeldOnceExactly | apps/api/captureos/workflows/queue.py:76-78 | no two workers ever hold one job if and only if the reaper does not run |
| WorkflowLimits.ClaimedOnceExactly | apps/api/captureos/workflows/queue.py:76-78 | every job is claimed at most once in every run if and only if the reaper does not run and failures are not retried |
| WorkflowLimits.ReopensExactly | apps/api/captureos/workflows/queue.py:52-58 | a job goes from done back to pending in some run if and only if the reaper runs and failures are retried |
| WorkflowLimits.JobStranded | apps/api/captureos/workflows/queue.py:43-73 | a run, for every maximum of two or more, in which a slow worker's write clears the lock of a later claim: the job is processing without a lock or a worker, and its run has not ended |
| WorkflowLimits.StrandedExactly | apps/api/captureos/workflows/queue.py:27-98 | no job is ever stranded like that if and only if the reaper does not run or failures are not retried |
| WorkflowLimits.StrandedForever | apps/api/captureos/workflows/queue.py:27-73 | a stranded job is never claimed, reaped or run again |
| WorkflowLimits.DoneYetLocked | apps/api/captureos/workflows/queue.py:43-73 | for every maximum there is a run in which a job ends done and locked: its first worker, requeued while it committed, reads the row before the next claim and writes after it |
| WorkflowLimits.LockAgreesExactly | apps/api/captureos/workflows/queue.py:27-73 | a job is processing exactly when `locked_at` is set, in every reachable state, if and only if the reaper does not run |
| WorkflowLimits.ProcessingLockedExactly | apps/api/captureos/workflows/queue.py:27-73 | every processing job is locked, in every reachable state, if and only if the reaper does not run or nothing is retried |
| WorkflowDrain.Service.ClaimOne | apps/api/captureos/workflows/queue.py:27-40 | claims the due pending job that became available first, and none only if there is none |
| WorkflowDrain.Service.AwaitRun | apps/api/captureos/workflows/runner.py:32-36 | the worker waits for the run's row lock until its holder has committed or rolled back |
| WorkflowDrain.Service.RecordFate | apps/api/captureos/workflows/queue.py:86-97 | records `done`, or the failure when the execution or recording `done` failed; an exception while the failure is recorded escapes and leaves the job as it was claimed |
| WorkflowDrain.Service.Process | apps/api/captureos/workflows/queue.py:86-97 | executes the claimed run, waiting for its lock, and records its fate, whatever others do in between and whichever of the transactions fail; undisturbed, unless an exception escapes, the job is then finished or due again, done if the execution settled and `done` was recorded, and other due or finished jobs stay so |
| WorkflowDrain.Service.Turn | apps/api/captureos/workflows/queue.py:81-97 | one turn of the loop, with others acting before the claim too, stops only when nothing is due, and undisturbed exactly then; only a failing claim or a failing record of a failure escapes, and loses at most the job it was about |
| WorkflowDrain.Service.Drain | apps/api/captureos/workflows/queue.py:76-98 | with other workers, the reaper and the clock acting between its transactions and any of these failing, processes at most `max_jobs`; if fewer and no exception escaped, nothing is due at the end and no job that was due at the start is still pending; undisturbed, each is done or failed, and after an escaped exception all but one are so or still due |
| WorkflowEngine.WorkflowRun.GetOrCreateStep | apps/api/captureos/workflows/engine.py:62-79 | finds the step row of that name or adds one at the end |
| WorkflowEngine.WorkflowRun.RunPipeline | apps/api/captureos/workflows/engine.py:82-157 | the step loop with its early returns computes `RunOnce`, described by the rows below |
| WorkflowEngine.ContinueShape | apps/api/captureos/workflows/engine.py:95-157 | from any such leftover, a call ends succeeded with every named step done, or stopped at the last row, failed or skipped in step with the run's status and error |
| WorkflowEngine.SessionShape | apps/api/captureos/workflows/engine.py:82-157 | after any number of calls with any step behaviour the rows are an initial stretch of the pipeline, done but possibly for the last; the run has succeeded exactly when all named steps are done |
| WorkflowEngine.ResumedEqualsStraight | apps/api/captureos/workflows/engine.py:82-157 | a run stopped any number of times and resumed to success completed the very steps of an uninterrupted run, in order and none twice; names may repeat |
| WorkflowEngine.ResumeKeepsLog | apps/api/captureos/workflows/engine.py:97-98 | a further call keeps what was completed and only adds to it |
| WorkflowEngine.RunEndsAsStepsDo | apps/api/captureos/workflows/engine.py:82-157 | a call stops at the first step that is still to be run and does not complete: the run and the step fail with the error exactly if it failed, the run needs input and the step is skipped exactly if it asked for input, and the run succeeds exactly if there is no such step; exactly the steps to be run before it were run, in order |
| WorkflowEngine.SessionOrdinals | apps/api/captureos/workflows/engine.py:62-79 | after any calls each step row carries a position of its step in the pipeline |
| BillingRace.CommitKeepsKeys | apps/api/captureos/services/billing.py:248-314 | a commit keeps the three unique keys: revenue by external id, entitlement by organization, processed event by event id |
| BillingRace.StepSound | apps/api/captureos/services/billing.py:236-409 | every step of every delivery keeps the invariant over the committed tables and the deliveries in flight |
| BillingRace.NoRevenueLost | apps/api/captureos/services/billing.py:248-314 | over any interleaving external ids are distinct, and every delivery of a checkout for a known organization and product that came back without raising has its revenue committed, on the rollback-and-recheck path too; if it reported fulfilment, a row of its organization, product and external id with the amount it carries or else the list price |
| BillingRace.RevenueConserved | apps/api/captureos/services/billing.py:255-314 | the revenue booked is the sum of what the checkouts that reported fulfilment cost: the amount when present and not zero, otherwise 9900, 29900 or 99900 cents |
| BillingRace.RevenueIsOwed | apps/api/captureos/services/billing.py:255-263 | every booked row belongs to a delivered checkout that reported fulfilment, with its organization, product, external id and cost |
| BillingRace.RetryCapturesExactly | apps/api/captureos/services/billing.py:286-307 | a checkout redelivered alone gets its revenue recorded if and only if it was recorded already, or its organization has at most one mirrored subscription and no other event used up its event id |
| BillingRace.TwoMirrorsReachable | apps/api/captureos/services/billing.py:164-184 | two first checkouts of one organization that have both looked before either inserted leave it with two mirrored subscriptions |
| BillingFold.Billing.ResolveOrgId | apps/api/captureos/services/billing.py:412-429 | the event's own organization id if it has one, else the one entitlement that holds the subscription id; several raise |
| BillingFold.Billing.UpsertEntitlement | apps/api/captureos/services/billing.py:134-161 | the organization's entitlement becomes the update of what it was; no other changes |
| BillingFold.Billing.ApplyWebhook | apps/api/captureos/services/billing.py:236-314 | the checkout handler, its rollback included, computes the specification `Apply` and `FateOf`, and books exactly one row with the cost of the checkout, or none |
| BillingFold.Billing.ApplySubscriptionEvent | apps/api/captureos/services/billing.py:317-409 | so does the subscription handler |
| BillingFold.Billing.ApplyBillingEvent | apps/api/captureos/services/billing.py:211-218 | the dispatch of both |
| BillingFold.UpsertKeepsLast | apps/api/captureos/services/billing.py:154-161 | an upsert extends "last value written per column" by one effect |
| BillingFold.EntitlementIsFold | apps/api/captureos/services/billing.py:134-161 | after any events an organization's entitlement holds, column by column, the last value any effective event gave it, and exists exactly when there was one |
| BillingFold.GateExactly | apps/api/captureos/services/billing.py:76-83 | the package gate is open exactly when the last effective event set the status active and the last tier any of them named is sprint or autopilot |
| BillingFold.GateAfterEvent | apps/api/captureos/services/billing.py:236-391 | an effective checkout opens the gate exactly for the higher products, a deletion or failed payment closes it, and an update opens it only with status active and a tier, new or kept, that unlocks it |
| BillingFold.EntitlementAfterEvent | apps/api/captureos/services/billing.py:134-161 | what an effective event leaves in status, tier, subscription and period end, for each kind of event |
| BillingFold.ResolvesExactly | apps/api/captureos/services/billing.py:412-428 | a subscription id alone leads to an organization exactly if it is the only one that has it, and raises exactly if several have |
| BillingFold.RaisesExactly | apps/api/captureos/services/billing.py:236-428 | over every history, the three cases in which a delivery raises |
| BillingFold.UnnamedIsNew | apps/api/captureos/services/billing.py:187-205 | an event without an id, or with an empty one, is neither recorded nor taken for a repetition |
| BillingFold.EssentialKeys | apps/api/captureos/services/billing.py:187-205 | the revenue table and the event ledger hold exactly the keys of the events that took effect, each once |
| BillingFold.TablesRefineFold | apps/api/captureos/services/billing.py:236-409 | dropping every delivery without effect changes no table; what is left names each key once, and the entitlements are a plain fold of it that never checks for repetition; which deliveries these are is told by keys alone in BillingRedelivery |
| BillingFold.KeysStayHeld | apps/api/captureos/services/billing.py:187-205 | an event that took effect counts as having done so for ever |
| BillingFold.RedeliveryIsNoOp | apps/api/captureos/services/billing.py:248-253 | delivering such an event again, whatever came between, changes nothing |
| BillingFold.RevenueExactly | apps/api/captureos/services/billing.py:236-314 | as long as an event id means one event, a charge is booked if and only if a fulfillable checkout for it was delivered |
| BillingFold.BookedAsCharged | apps/api/captureos/services/billing.py:255-263 | row by row, the revenue table is what the checkouts that took effect cost, for the organization, product and external id they name |
| BillingRedelivery.KeptAreFirst | apps/api/captureos/services/billing.py:187-205 | as long as an event id means one event, removing what repeats a kept event removes exactly what repeats any earlier one |
| BillingRedelivery.FirstTakesEffect | apps/api/captureos/services/billing.py:187-205 | where what took effect so far are the first deliveries, an event takes effect exactly when it is acceptable, repeats no kept one by external id or event id, and, naming only a subscription, leads to an organization |
| BillingRedelivery.FirstsTakeEffectExactly | apps/api/captureos/services/billing.py:236-409 | for every history, the deliveries that take effect are the acceptable events with redeliveries removed, told by external id and event id alone, if and only if each first delivery that names only a subscription leads to its organization |
| BillingRedelivery.TablesOfFirstDeliveries | apps/api/captureos/services/billing.py:236-409 | when every event names an existing organization and no checkout is refused, what takes effect are the events with redeliveries removed, the tables are those of these alone, and the entitlements are their plain fold |
| BillingRedelivery.RefusedThenRedelivered | apps/api/captureos/services/billing.py:317-409 | concrete run: a past-due notice before the checkout is refused and leaves no ledger row, so its redelivery takes effect and closes the gate, which the fold of the first deliveries has open |
| BillingSerial.SerialIsARun | apps/api/captureos/services/billing.py:211-409 | every history of events applied one after another is a run of the racing model: the same revenue, event ids and entitled organizations, and each delivery answered True, False or with an exception as its handler does |
| BillingMirrors.MirrorsTell | apps/api/captureos/services/billing.py:164-184 | over every run, an organization has a mirrored row after every effective checkout, deletion, failed payment or update to active, past due or canceled that names it, and none without such an event |
| BillingMirrors.SecondRowRaises | apps/api/captureos/services/billing.py:173-178 | a second mirrored row stops exactly those events, at the point where each looks it up |
| VersionLabels.ParsePrinted | apps/api/captureos/corpus/ingest.py:46-49 | reading back the printed version number gives the number |
| VersionLabels.LabelsCountUp | apps/api/captureos/corpus/ingest.py:46-49 | a label the ingest wrote is followed by the next number's, and different numbers have different labels |
| VersionLabels.KnownLabels | apps/api/captureos/corpus/ingest.py:46-49 | the first labels as printed, and v2 after anything that is not a label |
| Corpus.LastMeaning | apps/api/captureos/corpus/ingest.py:60-68 | the last document of a key, and how many come before it |
| Corpus.CurrentIsLast | apps/api/captureos/corpus/ingest.py:60-68 | on a well-formed table the current-document query finds the last version of the key |
| Corpus.NewDocContinues | apps/api/captureos/corpus/ingest.py:75-90 | a new document supersedes the last version of its key and is labelled one higher |
| Corpus.IngestKeepsChain | apps/api/captureos/corpus/ingest.py:52-129 | every ingestion keeps all version chains |
| Corpus.VersionChain | apps/api/captureos/corpus/ingest.py:52-129 | after any ingestions each key's documents are v1, v2 and so on along one supersedes chain, and exactly the last is current |
| Corpus.IngestCounts | apps/api/captureos/corpus/ingest.py:70-90 | an ingestion adds a version to its own key only, exactly when the hash differs from the current one, which afterwards is the one ingested |
| Corpus.IngestIsFresh | apps/api/captureos/corpus/ingest.py:70-106 | after an ingestion the current document of its key carries the day's date, and no other document's date moves |
| Corpus.IngestKeepsHistory | apps/api/captureos/corpus/ingest.py:79-91 | no version is lost or rewritten: only the current flag and the date of a stored document change |
| Corpus.IngestTracks | apps/api/captureos/corpus/ingest.py:70-90 | an ingestion keeps the versions of a key in step with the hashes ingested for it: one more exactly when a run of equal hashes ends |
| Corpus.VersionsCountRuns | apps/api/captureos/corpus/ingest.py:52-129 | each key has as many versions as there were maximal runs of equal hashes ingested for it, and its current document holds the last |
| Corpus.LabelsUnique | apps/api/captureos/corpus/ingest.py:46-106 | no two documents of a key share a version label |
| Corpus.CreatedAddsFirst | apps/api/captureos/corpus/ingest.py:75-90 | "created" is answered exactly when a document that supersedes nothing is added, "unchanged" exactly when none is |
| CorpusStore.IngestKeepsChunks | apps/api/captureos/corpus/ingest.py:79-128 | every ingestion keeps each chunk current exactly with its document |
| CorpusStore.ChunksAdded | apps/api/captureos/corpus/ingest.py:110-128 | a changed item gets one row to each piece cut with target 1200 and overlap 150, numbered from 0, current, with the vector of its own text if embedding; the prior version's rows are retired and nothing else of the old rows changes |
| CorpusStore.Store.RetireChunksOf | apps/api/captureos/corpus/ingest.py:81-87 | the chunks of one document are retired, all others left alone |
| CorpusStore.Store.AddChunks | apps/api/captureos/corpus/ingest.py:110-127 | one row per piece in order, with a vector exactly when there is an embedder |
| CorpusStore.Store.RecordDocument | apps/api/captureos/corpus/ingest.py:57-108 | touch, or retire and add, computes `Ingest` and reports what it did |
| CorpusStore.Store.IngestItem | apps/api/captureos/corpus/ingest.py:52-129 | the whole operation: the tables are the outcome of all ingestions so far; the key's current document holds the hash of the item's text; unchanged is answered exactly if it did so before, created exactly if the key had none; and the chunk rows are those of ChunksAdded |
| CorpusStore.Store.IngestItems | apps/api/captureos/corpus/ingest.py:132-138 | every item is ingested once in order; the three counts add up to the items, and to the documents and first versions added |
| CorpusEmbed.SelectPending | apps/api/captureos/corpus/ingest.py:162-170 | as many distinct pending chunks as there are, up to the batch size |
| CorpusEmbed.EmbedBatch | apps/api/captureos/corpus/ingest.py:179-198 | the first answered of five attempts, or none exactly if all failed |
| CorpusEmbed.AssignVectors | apps/api/captureos/corpus/ingest.py:200-201 | each picked chunk gets its own vector, others are untouched, and the pending count falls by the batch |
| CorpusEmbed.EmbedPending | apps/api/captureos/corpus/ingest.py:145-209 | the loop ends; it only adds vectors, never to a chunk that has one, each that of the chunk's own text; it returns exactly the number added; on completion nothing is pending; it gives up only when all five attempts on a full batch of pending chunks failed, and raises only when an answer had the wrong number of vectors; so with a provider that answers one of any five attempts it embeds everything |
| Chunking.FirstBreakMeaning | apps/api/captureos/ingestion/chunking.py:11 | the break taken is the leftmost match of the pattern and the longest there |
| Chunking.ParagraphsKeepInk | apps/api/captureos/ingestion/chunking.py:27 | splitting into paragraphs loses only white space |
| Chunking.ParagraphsUnbroken | apps/api/captureos/ingestion/chunking.py:27 | no paragraph contains another break |
| Chunking.ParagraphsInk | apps/api/captureos/ingestion/chunking.py:22-30 | the stripped, non-empty paragraphs carry all printing characters of the text in order |
| Chunking.CutWindows | apps/api/captureos/ingestion/chunking.py:37-39 | the inner loop computes `Windows`, whose meaning is in WindowsMeaning and WindowsOverlap |
| Chunking.DropBlank | apps/api/captureos/ingestion/chunking.py:45 | the final filter drops exactly the blank pieces |
| Chunking.SplitLoop | apps/api/captureos/ingestion/chunking.py:25-44 | the loop with its buffer computes the packing of paragraphs into blocks |
| Chunking.Split | apps/api/captureos/ingestion/chunking.py:21-45 | the whole function computes `Pieces`, characterised by PiecesMeaning, CutPieces and the rows below |
| ChunkingLaws.BlocksWellPacked | apps/api/captureos/ingestion/chunking.py:27-44 | blocks list the paragraphs in order, none cut unless longer than the target, and neighbours could not have shared a piece |
| ChunkingLaws.PiecesBounded | apps/api/captureos/ingestion/chunking.py:21-45 | for a target of at least 0 every piece is at most the target long and not blank |
| ChunkingLaws.BoundedExactly | apps/api/captureos/ingestion/chunking.py:37-39 | the target bounds every piece of every text if and only if it is not negative; a negative one is read from the paragraph's end |
| ChunkingLaws.WindowParts | apps/api/captureos/ingestion/chunking.py:37-39 | each window starts with its first step of characters |
| ChunkingLaws.WindowPartsJoin | apps/api/captureos/ingestion/chunking.py:37-39 | those starts put together give the paragraph back |
| ChunkingLaws.PartsInk | apps/api/captureos/ingestion/chunking.py:25-44 | the starts of all pieces, before the filter, carry exactly the ink of the paragraphs |
| ChunkingLaws.KeptParts | apps/api/captureos/ingestion/chunking.py:45 | dropping blank pieces loses nothing |
| ChunkingLaws.NothingLost | apps/api/captureos/ingestion/chunking.py:21-45 | for target at least 1 and overlap at least 0 the printing characters of any text are found in its pieces in order, each once in the start of one piece |
| ChunkingLaws.XsCutShort | apps/api/captureos/ingestion/chunking.py:37-39 | when the step exceeds the target, a paragraph just over the target, or of one character if that is negative, loses its last character |
| ChunkingLaws.LosslessExactly | apps/api/captureos/ingestion/chunking.py:21-45 | no text is ever lost if and only if target is at least 1 and overlap at least 0 |
| ChunkingWindows.WindowsMeaning | apps/api/captureos/ingestion/chunking.py:37-39 | the i-th window of a cut paragraph starts i steps into it and is as long as the target or reaches its end; there is one for each step inside the paragraph |
| ChunkingWindows.WindowsOverlap | apps/api/captureos/ingestion/chunking.py:37-39 | with an overlap below the target, each window ends with the characters the next one starts with: the overlap, or all of the next one if that is shorter |
| ChunkingWindows.CutPieces | apps/api/captureos/ingestion/chunking.py:21-45 | wherever a paragraph is cut, the pieces of the text list its windows in order between those of what comes before and after; only blank ones are missing |
| ChunkingWindows.PiecesMeaning | apps/api/captureos/ingestion/chunking.py:21-45 | the pieces are exactly the joined paragraphs of the packed blocks and the windows of the cut paragraphs that are not blank |
| ChunkingWindows.PackedSplitsBack | apps/api/captureos/ingestion/chunking.py:27-32 | splitting a packed piece at its blank lines gives back the paragraphs packed into it |
| ChunkingLaws.ChunkDocument | apps/api/captureos/ingestion/chunking.py:48-62 | pages are used only if there are two or more; ordinals run 0 to n-1 across all pages, each chunk with its piece and locator |
| FilingPackage.BuildComplianceMatrix | apps/api/captureos/services/compliance.py:20-72 | one row per requirement with the last match for it, missing if none, and its evidence only if that exists |
| FilingPackage.TallyMeaning | apps/api/captureos/services/packaging.py:280-303 | all of a version is validated exactly when the two counters agree |
| FilingPackage.Filing.BuildPackage | apps/api/captureos/services/packaging.py:110-189 | appends the five documents of the next version with their citations and moves the filing to packaging; the narrative is whatever the agent answers |
| FilingPackage.Filing.CheckVersion | apps/api/captureos/services/packaging.py:280-295 | marks each document of a version by whether its citations resolve and counts both |
| FilingPackage.Filing.ValidateCitations | apps/api/captureos/services/packaging.py:258-303 | marks exactly the latest version's documents, and its two counts report whether the package is valid |
| FilingPackage.Filing.RecordApproval | apps/api/captureos/services/approvals.py:21-89 | both targets and both decisions; a package with an unvalidated document is refused and nothing changes |
| FilingPackage.NextKeepsReady | apps/api/captureos/services/approvals.py:53-86 | no action leaves a ready filing with an unvalidated latest version |
| FilingPackage.ReadyIsValidated | apps/api/captureos/services/approvals.py:43-86 | over every sequence of extraction, mapping, gap resolution, recommendation, build, validation and approval, a filing in `ready` has a latest package whose documents are all validated and ready |
| FilingApproval.ClaimsCited | apps/api/captureos/services/packaging.py:54-78 | the compliance document cites exactly the met rows with evidence |
| FilingApproval.SourcesCited | apps/api/captureos/services/packaging.py:81-107 | checklist and missing items cite exactly the sources of their rows |
| FilingApproval.AppendixResolves | apps/api/captureos/services/packaging.py:192-232 | the appendix lists exactly the evidence of the organization that the narrative cites, with its source, each item once, and always resolves |
| FilingApproval.BuildCites | apps/api/captureos/services/packaging.py:54-232 | for any narrative, what each of the five new documents cites, in terms of the matrix rows: met with evidence, all sources, sources of gaps, cited evidence |
| FilingApproval.NewDocsSourced | apps/api/captureos/services/packaging.py:54-107 | for any narrative, the five documents all pass the check exactly when there is a claim, all named sources are known, claims without a source rest on known evidence, and the narrative has citations and all of them resolve |
| FilingApproval.CheckedLatest | apps/api/captureos/services/packaging.py:235-303 | the check settles the new version by its own documents alone, whatever was built before |
| FilingApproval.NarrativeApprovable | apps/api/captureos/services/packaging.py:110-303 | from any state and with any narrative, a package that is built, checked and approved becomes ready if and only if that condition holds of the requirement rows and the narrative |
| FilingApproval.ApprovableExactly | apps/api/captureos/services/packaging.py:110-303 | from any state, a package that is built with the deterministic narrative, checked and approved becomes ready if and only if that condition holds of the requirement rows |
| FilingApproval.ConsistentApprovable | apps/api/captureos/agents/narrative.py:62-84 | when the filing refers only to its organization's sources and evidence, whatever else the tables hold, that is: if and only if some requirement is matched or user-provided with an existing evidence item |
| FilingApproval.PackagesNumbered | apps/api/captureos/services/packaging.py:158-187 | over any run the documents are the versions 1 to n in order, each with its five kinds, so (type, version) stays unique |
| FilingHistory.FilingTells | apps/api/captureos/services/approvals.py:33-89 | over every sequence of actions: the status is where the last effective action put it, the recommendation stands as last decided and anew after each recommendation, the requirements are all that were extracted, each is answered as the last mapping or resolution says, and a document is a draft exactly if it has not passed the check |
| FilingHistory.RefusedExactly | apps/api/captureos/services/approvals.py:53-81 | the only refusals: resolving a requirement the filing does not have, and approving a package that is missing or has an unvalidated document |
| FilingHistory.ResolvedMatches | apps/api/captureos/services/gaps.py:104-121 | a resolved requirement has exactly the user's match left, and the others keep theirs |
| FilingHistory.MatrixMeaning | apps/api/captureos/services/compliance.py:48-71 | a row of the matrix has the status of the last match for its requirement, and its evidence if that still exists |
| FilingHistory.MatrixMissing | apps/api/captureos/services/compliance.py:48-71 | a requirement without a match is missing and has no evidence |
| RateLimit.PruneTwice | apps/api/captureos/core/ratelimit.py:28 | forgetting what has left the window changes nothing at any later time |
| RateLimit.Limiter.Check | apps/api/captureos/core/ratelimit.py:20-35 | for a clock that never runs backwards an attempt is accepted exactly when fewer than `limit` of all attempts ever accepted for the key lie in the window, though old ones are discarded; a refusal stores nothing, and other keys are untouched |
| RateLimit.AcceptsIfSpaced | apps/api/captureos/core/ratelimit.py:28-35 | an attempt is accepted exactly when the accepted times stay spaced with it |
| RateLimit.KeysIndependent | apps/api/captureos/core/ratelimit.py:28-35 | what is accepted for a key depends on that key's attempts alone |
| RateLimit.AcceptedSpaced | apps/api/captureos/core/ratelimit.py:20-35 | any limit + 1 consecutive accepted attempts of a key span at least one window |
| RateLimit.GreedyIsEarliest | apps/api/captureos/core/ratelimit.py:28-35 | the k-th accepted attempt is no later than the k-th of any choice with that spacing |
| RateLimit.AcceptsTheMost | apps/api/captureos/core/ratelimit.py:20-35 | no other choice of attempts with that spacing lets more through |
| Policy.TextOrder | apps/api/captureos/guardrails/evaluation_engine.py:50-57 | the order of strings is a strict total order |
| Policy.TextMeaning | apps/api/captureos/guardrails/evaluation_engine.py:50-57 | one string is less than another exactly if it is its beginning, or has the smaller character where they first differ |
| Policy.BeforeOrder | apps/api/captureos/guardrails/evaluation_engine.py:96 | (priority, id) is a strict weak order whose ties are equal keys |
| Policy.SortedOrders | apps/api/captureos/guardrails/evaluation_engine.py:96 | the sort puts rules in that order |
| Policy.SortedRearranges | apps/api/captureos/guardrails/evaluation_engine.py:96 | and only rearranges them |
| Policy.FirstIsLeast | apps/api/captureos/guardrails/evaluation_engine.py:96-107 | sorting and taking the first match gives what a scan for the least match gives |
| Policy.LeastMeaning | apps/api/captureos/guardrails/evaluation_engine.py:96-107 | that is the first rule of least key among the matching ones, and none only if none matches |
| Policy.AllFired | apps/api/captureos/guardrails/evaluation_engine.py:100 | when a rule matches, the fired conditions are all its conditions |
| Policy.EvaluateMeaning | apps/api/captureos/guardrails/evaluation_engine.py:81-115 | the decision is that of the matching rule least by (priority, id), with all its conditions fired; the default is used exactly when no rule matches |
| Policy.LeastKeyDecides | apps/api/captureos/guardrails/evaluation_engine.py:96-107 | the rule that decides matches, and has the least priority number of all that do, and among those the least id |
| Policy.OrderFreeExactly | apps/api/captureos/guardrails/evaluation_engine.py:96-107 | every rearrangement of the input gives the same winner if and only if no two different matches tie for the least key |
| Policy.DistinctIdsOrderFree | apps/api/captureos/guardrails/evaluation_engine.py:81-115 | with distinct policy ids the decision is the same for every rearrangement |
| Policy.OnlyMatchesMatter | apps/api/captureos/guardrails/evaluation_engine.py:98-107 | rules that do not match can be added or removed anywhere without effect |
| Policy.RaisingAmountStillMatches | apps/api/captureos/guardrails/evaluation_engine.py:45-78 | a rule whose conditions on the amount only ask for a minimum still matches when the amount grows |
| Policy.MembershipIsEquality | apps/api/captureos/guardrails/evaluation_engine.py:60-65 | in is equality with some element and not-in inequality with every one; of a value that cannot be iterated over, in never holds and not-in only of a missing value |
| Policy.NegativesOppose | apps/api/captureos/guardrails/evaluation_engine.py:58-65 | not-equal is always the opposite of equal, not-in that of in exactly when the value is missing or the expected one can be iterated over |
| Policy.MissingDecidesNothing | apps/api/captureos/guardrails/evaluation_engine.py:45-48 | a missing attribute is no ground for a decision: rules that ask anything positive about one can be left out without changing the decision, and no such condition is ever reported as fired |
| Policy.OrderMeaning | apps/api/captureos/guardrails/evaluation_engine.py:50-57 | on numbers and on texts the four order operators compare the transaction's value with the rule's, in that direction |
| Policy.ContainsMeaning | apps/api/captureos/guardrails/evaluation_engine.py:66-67 | contains holds exactly if the rule's text occurs in the transaction's, up to case |
| Policy.TextFieldRead | apps/api/captureos/guardrails/evaluation_engine.py:28-42 | a condition on a text attribute reads the attribute it names, and equality ignores case and surrounding space |
| Policy.NumberFieldsRead | apps/api/captureos/guardrails/evaluation_engine.py:28-42 | and so do conditions on the three numbers |
| Policy.BooleansAreNumbers | apps/api/captureos/guardrails/evaluation_engine.py:50-59 | a truth value counts as one or zero |
| Policy.ElementsMeaning | apps/api/captureos/guardrails/evaluation_engine.py:62-65 | membership ranges over the keys of an object and the characters of a text; numbers, truth values and null cannot be iterated over |
| Policy.ComparisonsOppose | apps/api/captureos/guardrails/evaluation_engine.py:50-57 | at-most opposes greater-than, and at-least less-than, exactly when both values are present and comparable |

## Left out

- Clocks, hashes, embedders, providers, step functions and agents are parameters: any value, any function, any answer.
- Spend: an answer counts as returned once its transaction commits; text messages, audit events and card records other than the card's organization are not modelled; amounts and limits are unbounded integers, where the 32-bit column would reject the insert.
- Spend: cards, rules and budgets do not change during a run; the limit is read before the lock, so the cap under concurrent edits is not claimed.
- Spend: the sums of the query are taken over all committed rows at once, as one statement sees them after the lock is granted.
- SpendScopeExact.ScopeCapExactly: for budgets on one column, as the translation writes them, and a budget that judges some charge it counts, because a budget that never decides anything may be kept in bounds by others; and for rows that count since the window opened and were judged in it, the other kind being the subject of `SpendCapLimits.MidnightMatters`.
- SpendOverlap.ChargedCapExactly: for budgets that judge some charge they count, and for rows that count since the window opened and were judged in it, for the same reasons.
- SpendOverlap.SerialExactly: for budgets that judge some charge, and whose ids differ, as a primary key makes them.
- `lower()` folds ASCII letters only, in `Text` and in everything that compares normalised text; white space is Python's full list.
- SpendTranslation: the agent that translates the text, the metadata columns and the totals shown to the user.
- WorkflowQueue: a job's error text, its organization, token totals, time saved and audit events; `available_at` is set once and the code never changes it; the reaper's single UPDATE is one step per job; a commit that takes effect but is reported as failed.
- WorkflowFair.NoStrandedJob: leaves aside the jobs that `WorkflowLimits.StrandedExactly` describes, because the code does not reach them.
- WorkflowDrain.Service.Drain: others act before the claim, before the run is locked, while it is executed, and before and after the job's row is read; a lock is assumed to be released at last; the loop's own process does not die in the middle, which is the `Crash` of WorkflowQueue.
- WorkflowEngine: the runner never resumes a terminal run, so stop and resume is reached only by calling the pipeline again directly; agents' token counts, and side effects of step functions. The error text of an earlier stop stays on a run that later succeeds, in the model as in the code.
- Billing: the mirrored subscription's columns and the organization's plan label, which only displays read; row locks of updates, which only delay; several rows with a NULL external id; event types outside the four, which are answered False.
- BillingRedelivery.TablesOfFirstDeliveries: one event delivered after another; racing deliveries of checkouts are the subject of BillingRace.
- Billing: nothing is claimed about a subscription event that loses a race. The handler swallows every integrity conflict, also one with another event's first entitlement row.
- BillingRace: which of several racing updates of one existing entitlement is written last.
- CorpusStore.Store.IngestItem: an embedder that fails, which rolls the whole ingestion back; racing ingestions of one key; columns copied from the item without being read again; `isdigit` on digits outside ASCII.
- CorpusEmbed.EmbedPending: the pauses between batches; a crash between two commits, which leaves the batches committed so far.
- ChunkingLaws.ChunkDocument: locators are data instead of the strings "page 3" and "chunk 3".
- FilingPackage: markdown text, scores and rationales; the checks made before an action is dispatched; a package approved while another is being built, which the code does not lock against.
- FilingPackage.Filing.BuildPackage: the text of the live narrative; its citations are whatever the agent answers.
- FilingApproval.AppendixResolves: the order of the appendix, which the query leaves open, and the numbering of narrative markers, which does not follow it.
- RateLimit: several processes, each with its own table, and the reset used by tests.
- Policy: values that are not a number, and how numbers print; printing is a parameter of the contains operator.
- HTTP routes, authentication, signatures, the web application, source adapters, document rendering, vector search, scheduling, obligations and discovery: interfaces and input/output.
