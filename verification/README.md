# connectd ledger protocols in Dafny

connectd keeps one relational ledger. Several small protocols step that ledger inside transactions,
concurrently: spending and grants, task-step leases, the memory ledger with its librarian queue, the
imported audit chain, node health, placement and routing. This project models those protocols and
proves what every run of them keeps.

## How the model is built

- A table is a sequence or a map of rows. Rows that are never deleted have their position as id, which
  stands for a fresh random id.
- One `with store.connect()` block is one transaction. Each is written twice: as a function from the
  tables before to the tables after (`IssueTx`, `ClaimTx`, ...), and as a method that runs the block
  statement by statement on a `Store.Connection`, with its early commits and its exceptions, and whose
  contract says that the committed tables are exactly those of the function and that no block is left
  open. Where a service does slow work between two of its blocks, the method takes the tables as others
  have left them in between (`Store.Connection.Others`). Whole-run theorems are about the functions.
- Runs are sequences of events. Any number of tool calls, paid model calls, workers and operators are
  between their transactions at once, with one program counter each; events interleave freely, a caller
  may disappear at any point, and time passes between events and between two clock readings of one step.
- The transactions follow the order of the code. What they mean is stated apart from them, in the modules
  named `...Rules`: success exactly when a condition on the columns of the rows holds, and every column
  that is written or kept. Those statements do not mention the functions of the transactions.
- Histories that no transaction reads (which grant used which approval, which handlers ran, which leases
  were given) are kept beside the tables so that theorems can speak about the past.

| file | content |
|---|---|
| Store | transactions: enter, commit, exit |
| Calendar, Timestamps | the UTC calendar, budget windows, `isoformat()` text and its byte order |
| Pricing | quotes, bounded model calls, metered tools |
| Ledger, Governance | tables and transactions of the spend and grant ledger; the services over them |
| AdmissionRules, LedgerRules | when each of those transactions succeeds and what it writes, over the columns |
| LedgerRuns, InvocationRuns | concurrent runs of the ledger; one gateway call as a run |
| BudgetSafety, AdmissionRuns, Accounting, AccountingRuns, LedgerTheorems, Settlements, Approvals | what those runs keep |
| TaskLeases, TaskRules, TaskRuns | task steps and leases; each operation over the columns; runs |
| Memory, MemoryRules, MemoryIsolation | captures, promotions and recall; each over the columns; isolation of recalls |
| Librarian, LibrarianRules, LibrarianRuns | the librarian queue; its verdicts and commits over the columns; runs |
| AuditChain, AuditRules | the imported hash chain; importer and endpoint row by row |
| Placement, NodeMonitor, Router, Registry | node choice, health admission, routing, visibility |

## Assumptions

- Timestamps are UTC and compared as bytes; the clock never goes backwards. Money is exact, without the
  28-digit rounding of `Decimal`.
- SHA-256 has no collisions and its hexadecimal text no separator character; Ed25519 (RFC 8032, section
  5.1) cannot be forged: a signature verifies exactly when the signing key signed that grant.
- Random ids and lease tokens are fresh. Writing transactions on one database are serialized, as BEGIN
  IMMEDIATE and the row locks intend.
- Policy evaluators, JSON schemas, handlers, the librarian's evaluator, HTTP peers and the routing model
  are arbitrary: their answers are parameters. What depends on timing takes the clock readings as
  parameters.
- The cost columns of a registered tool do not change while calls are in flight; everything else about
  tools, tasks and shares may change at any time.
- The ledger starts with imported rows at most: imported grants are `legacy_expired`, there are no
  approvals and no quota records. No operator is called `independent_librarian`.
- Rows of the memory ledger refer to claims that exist, as the foreign keys of the schema demand.
- Leases are those that `claim` returned, except in the two members about foreign task ids.

## Results worth a first look

- `BudgetSafety.OverspendingNeedsAnOperator`: only a budget change or an operator's approval takes a
  window from within budget to over it, although an admission reads the clock twice.
- `AdmissionRuns.AdmittedUnderBudget` and `PaidCallCostsItsPrice`: every reservation was covered by the
  budgets its task had when it was made or consumed an approval, and every paid call costs what the price
  list it was admitted with says.
- `LedgerTheorems.ExecutionWasAuthorized` and `ExecutionsMapToDecisions`: every handler run has its own
  permit decision and its own grant, issued before and redeemed once, unexpired and visible.
- `Settlements.EachReservationSettlesOnce`: every reservation is whole until one settlement and final
  after it.
- `Approvals.EarliestExpiryIsOptimal`: consuming the approval that expires first is never worse than any
  other choice, on any timeline.
- `LibrarianRuns.PromotedExactlyOnce` and `PromotionWasEarned`: at most one promotion per job and
  candidate, and the history behind each, with policy, consent and provenance as the tables had them.
- `TaskRuns.TaskFailsByAResult` and `ResultWasReported`: a task fails exactly when a worker reported that
  one of its steps failed.
- `MemoryRules.RecallExactly` and `TrustedRecall`: which rows a recall returns, and that a trusted one
  never returns a contradicted claim.
- `MemoryIsolation.RecallIsIsolated` and `CaptureChangesRecall`: other tasks' captures never change a
  recall, and exactly when a capture changes one.
- `AuditChain.HeadPinsHistory`: one head, one history.

Four properties are not true of the code as one might state them; each has a concrete witness and the
exact condition beside it:

- A prompt that costs exactly the cap is refused even when output is free
  (`Pricing.FreeOutputRejectsPromptAtCap`); `Pricing.RejectionIsExact` is the exact rule.
- A lease whose task id was changed can close a task's last step and leave the task open
  (`TaskRuns.ForeignTaskIdLeavesTaskOpen`); `TaskRuns.ForeignTaskId` is the exact rule.
- A task whose memory scope is another task's scope does see that task's captures
  (`MemoryIsolation.SharedScopeLeaks`); `MemoryIsolation.CaptureChangesRecall` is the exact rule for one
  capture, by policy, organization, scope, validity and cut-off, and `CapturesChangeRecall` for a series.
- A chain imported without payloads does not pin its contents (`AuditChain.LinksAloneDoNotPinContents`);
  `AuditChain.ReportPinsExactly` is the exact rule, for every table: its report pins it exactly when every
  body was kept.

## Model

| member | source | states |
|---|---|---|
| `Store.Connection.Commit` | src/connectd/store.py:81-83 | An early commit makes the block's writes durable once; a later exception cannot undo them and later statements are not part of it. |
| `Store.Connection.Exit` | src/connectd/store.py:63-71 | Leaving normally makes an open block durable; leaving by an exception restores the last committed state. |
| `Calendar.FieldOrderIsTimeOrder` | src/connectd/governance.py:165 | Comparing two UTC datetimes field by field is comparing the instants they denote, over the concrete calendar with leap years. |
| `Calendar.PeriodStartAgrees` | src/connectd/spend.py:20-28 | The start computed on fields (midnight, back to Monday, first of the month) is the greatest multiple of a day, of a week or of a calendar month not after now. |
| `Calendar.PeriodStartNotAfter` | src/connectd/spend.py:20-28 | A window never starts after now. |
| `Calendar.PeriodStartMonotone` | src/connectd/spend.py:20-28 | A later now has the same or a later window start. |
| `Calendar.PeriodStartConstantOnWindow` | src/connectd/spend.py:20-28 | All moments of a window up to now share its start. |
| `Calendar.PeriodStartIdempotent` | src/connectd/spend.py:20-28 | A window start is its own start, and the daily start is never before the weekly or monthly one. |
| `Calendar.WindowStarts` | src/connectd/spend.py:20-28 | A window starts at midnight of the same day, of the last Monday, or of the first of the same month. |
| `Calendar.DayNumber` | src/connectd/spend.py:25-27 | The day number of a date is the closed form of the Gregorian calendar: 365 days a year, a leap day every fourth year but for three centuries in four. |
| `Timestamps.FractionOrder` | src/connectd/task.py:61-68 | An absent fraction sorts before any six-digit one, and six-digit ones sort by value. |
| `Timestamps.TextOrderIsTimeOrder` | src/connectd/task.py:67-72 | Byte order of two `isoformat()` strings is time order, and equal strings are equal instants, for every pair of UTC datetimes with or without a fraction. |
| `Timestamps.WindowTestOnText` | src/connectd/spend.py:113-115 | The textual `created_at>=` test of the budget query selects exactly the records created in the window that holds now. |
| `Timestamps.IsoFormatFields` | src/connectd/spend.py:113 | The text holds the fields in fixed places with their separators, then the fraction if it is not zero, then the offset. |
| `Pricing.UsdToCentsExact` | src/connectd/spend.py:14-17 | An amount converts to a number of cents exactly when it is that nonnegative whole number of cents. |
| `Pricing.ModelQuoteExactly` | src/connectd/spend.py:49-64 | A price list gives a quote exactly when its rates are nonnegative and not both zero, its token limit is positive and its cap is a positive whole number of cents; the quote keeps both rates, the limit and the cap, and its reserve is the lesser of the cap and the dearest such call rounded up. |
| `Pricing.AcceptedExactlyWhenAffordable` | src/connectd/spend.py:67-90 | A paid call is accepted exactly when the counts are valid, one output token fits the token limit and the cap, and the prompt alone costs less than the cap; the last check never fires. |
| `Pricing.RejectionReasons` | src/connectd/spend.py:70-85 | Each refusal of a paid call names the first thing that is wrong: the counts, the token limit, the prompt at the cap, no output left. |
| `Pricing.AcceptedCallIsLargest` | src/connectd/spend.py:79-85 | An accepted call gets the largest output count within the request, the token limit and the cap. |
| `Pricing.ReservationIsLeastBound` | src/connectd/spend.py:86-90 | The reservation is the least whole-cent bound on the call, at most the cap and the quote's reserve; every in-bound usage report settles at or below it. |
| `Pricing.RejectedExactlyWhenNothingFits` | src/connectd/spend.py:67-90 | With a positive output rate a valid request is rejected exactly when no positive output count is affordable. |
| `Pricing.RejectionIsExact` | src/connectd/spend.py:67-90 | At any output rate, rejection means that nothing fits, except exactly for prompts under the token limit that cost the cap while output is free. |
| `Pricing.FreeOutputRejectsPromptAtCap` | src/connectd/spend.py:77-78 | Witness: with free output, a prompt costing exactly the cap is refused although everything fits. |
| `Pricing.MeteredCentsIsCeiling` | src/connectd/spend.py:104 | Metered cents are the least cents worth at least the usage. |
| `Pricing.MeteredQuoteExactly` | src/connectd/spend.py:93-104 | A metered quote keeps the rate and the maximum of a pricing with both positive, with their product rounded up to cents; an unmetered tool has zeros; anything else has none. |
| `GovernanceService.BudgetNeedsApproval` | src/connectd/spend.py:107-118 | The loop over budgets answers false exactly when the cost is positive, the task has a budget, and each of its budgets covers the cost on top of what was spent in its window. |
| `GovernanceService.Governance.Admission` | src/connectd/governance.py:79-122 | The verdict of an issue: every refusal, the policy's answer, whether an approval is needed and which one is taken. |
| `AdmissionRules.GrantedExactlyWhen` | src/connectd/governance.py:71-152 | An issue grants exactly when its seconds are in range, task and tool are known, active and shared, a financial tool is of tier 2 and priced, the policy permits, strict mode has its sandbox, and a needed person has approved; a person is needed for tier 2 under strict mode or a policy that asks, or when the task's budgets do not cover the worst case. |
| `AdmissionRules.GrantEffects` | src/connectd/governance.py:123-152 | A granted issue adds its decision, its grant row and, exactly for a financial tool, a reservation of the worst case; it consumes, exactly when a person was needed, the live approval of its key that expires first; nothing else changes. |
| `AdmissionRules.DeniedExactlyWhen` | src/connectd/governance.py:123-130 | An issue is denied exactly when everything is in force but something a grant needs is missing; it then leaves one deny decision, and a refusal leaves nothing. |
| `AdmissionRules.RefusedExactlyFor` | src/connectd/governance.py:73-96 | Each refusal names the first thing that is missing, in the order of the checks. |
| `AdmissionRules.AdmittedExactlyWhen` | src/connectd/model_proxy.py:121-139 | Each answer to a paid call by the price list, the counts and the budgets; an admitted one reserves the least whole cents that cover the largest output that fits, for a task whose budgets cover them. |
| `AdmissionRules.RefusedForBudgetExactlyWhen` | src/connectd/model_proxy.py:132-134 | A sendable call is refused for budget exactly when its task has no budget, it costs nothing, or some budgeted period's spending plus its cost is above the budget. |
| `AdmissionRules.ReplyExactlyWhen` | src/connectd/model_proxy.py:151-171 | A report within the admitted counts settles at the price list's price of its own counts, rounded up and within the reservation; any other quarantines the node. |
| `AdmissionRuns.AdmittedUnderBudget` | src/connectd/spend.py:107-118 | In every run each reservation was made by one event; it is outside the overrides exactly when its task then had a budget, its cost was positive and every budget covered it, and otherwise that event was an issue that consumed a live approval of its key. |
| `AdmissionRuns.PaidCallCostsItsPrice` | src/connectd/model_proxy.py:121-171 | In every run a paid call in flight was admitted by one event with a price list of its own; its reservation is whole and priced by that list, an in-bound report settles exactly that record at the list's price of its own counts, and any other report leaves all records and quarantines that event's node. |
| `LedgerRules.ApproveExactly` | src/connectd/governance.py:59-69 | A named operator's approval for 1 to 3600 seconds is one new unused row on exactly this key; anything else is refused. |
| `LedgerRules.RedeemExactly` | src/connectd/governance.py:155-187 | For any grant, key and tables, redeeming succeeds exactly when the grant was signed for this key, is unexpired at both readings, its row is unused and its tool still shared; it marks that row and writes one authorized log of this task and tool. |
| `LedgerRules.PaidCallExactly` | src/connectd/tools.py:63-76 | A returned call settles the record of its grant exactly when its usage fits, at the fixed cost plus the least cents worth the usage; missing usage of a metered tool keeps the reservation; otherwise every table stays as it was. |
| `LedgerRules.SetBudgetExactly` | src/connectd/api.py:515-536 | A budget is set exactly for a task found open, to a nonnegative whole number of cents, for that period only. |
| `LedgerRules.InvokeExactly` | src/connectd/tools.py:35-77 | Which result a call has and which blocks it leaves: an unregistered tool or unfit arguments touch nothing, a missing grant is issued for sixty seconds, and a held one is redeemed, run and settled. |
| `Registry.VisibleMeansShared` | src/connectd/registry_access.py:4-13 | A resource is visible exactly to its owner and to organizations with a share of it or of the whole registry of that kind. |
| `GovernanceService.Governance.Issue` | src/connectd/governance.py:71-153 | Deny leaves one deny decision; permit leaves decision, grant, consumed approval and reservation together; a refusal leaves nothing; exactly the granted grant is signed. |
| `GovernanceService.Governance.Redeem` | src/connectd/governance.py:155-187 | A grant is redeemed once, with one authorized log, only if signed for exactly this binding, unexpired, unused and visible; otherwise nothing changes. |
| `GovernanceService.ToolGateway.Invoke` | src/connectd/tools.py:35-77 | A call issues (if no grant is offered), redeems, runs and settles in that order; each failure keeps exactly the blocks committed before it. |
| `GovernanceService.ToolGateway.Settle` | src/connectd/tools.py:63-76 | Settlement writes record and log together; on a usage error the written mark is rolled back with the block. |
| `GovernanceService.ModelProxy.Reserve` | src/connectd/model_proxy.py:121-139 | A paid call is bounded, checked against the budgets and reserved in one block, or refused without a trace. |
| `GovernanceService.ModelProxy.Reply` | src/connectd/model_proxy.py:151-171 | An in-bound report settles an unsettled reservation; any other report quarantines the node and leaves it whole. |
| `InvocationRuns.InvokeIsARun` | src/connectd/tools.py:35-77 | One uninterrupted gateway call reaches the same ledger and signatures as its events in the concurrent model. |
| `BudgetSafety.AdmittedCostFits` | src/connectd/governance.py:92-152 | A cost admitted at one clock reading still fits the window of any later reading, whatever period boundary lies between. |
| `BudgetSafety.StepKeepsBudget` | src/connectd/spend.py:107-118 | One step keeps a window within budget unless it sets that budget; only the record of an issue for this task past its budget has to be left out. |
| `BudgetSafety.UnapprovedSpendingStaysWithinBudget` | src/connectd/spend.py:107-118 | In every run that does not set the budget, spending without an approval past the budget never exceeds it. |
| `BudgetSafety.OverspendingNeedsAnOperator` | src/connectd/model_proxy.py:126-139 | A run that goes from within to over budget goes over at a step that sets this budget, or at a granted issue for this task that consumes an unconsumed, unexpired operator approval of exactly its key. |
| `AccountingRuns.ReachableInv` | src/connectd/governance.py:123-187 | All table relations of the ledger hold after every run. |
| `LedgerTheorems.LiveGrantAccounts` | src/connectd/governance.py:123-152 | Each live grant has its own permit decision on its key, one quota record exactly when its tool is financial, and one invocation log exactly when it is redeemed. |
| `LedgerTheorems.DecisionsAndImportedGrants` | src/connectd/governance.py:123-141 | Imported grants never change; a decision of the run has a grant exactly when it permits. |
| `LedgerTheorems.ApprovalsAccount` | src/connectd/governance.py:142-146 | Consumed approvals and the grants that used them correspond one to one on the same key; every record past a budget belongs to such a grant. |
| `LedgerTheorems.ExecutionsMapToDecisions` | src/connectd/tools.py:45-53 | Handler runs map injectively to permit decisions on exactly their task, principal, tool and arguments. |
| `LedgerTheorems.SignedWasIssued` | src/connectd/governance.py:131-137 | Every signed grant came from one earlier issue of the run on its key, with exactly the stamp and expiry of that issue. |
| `LedgerTheorems.ExecutionWasAuthorized` | src/connectd/governance.py:155-185 | Before every handler run its grant was issued for 1 to 300 seconds, then redeemed by the call holding it while unused, unexpired and its tool visible, before those seconds were over. |
| `LedgerTheorems.RedeemSucceedsExactlyWhen` | src/connectd/governance.py:155-185 | In every run, redeeming a signed grant for its own key succeeds exactly when it has no log yet, is unexpired at both clock readings and its tool is visible. |
| `LedgerTheorems.SettlementConserves` | src/connectd/tools.py:58-76 | When a returned call is settled its reservation is still whole; in-bound usage makes it fixed plus rounded-up metered cost within the reservation, missing usage leaves it whole, out-of-bound usage leaves every table and the authorized log as they were. |
| `LedgerTheorems.SettleExact` | src/connectd/spend.py:138-147 | The settle guard passes for every usage up to the registered maximum. |
| `LedgerTheorems.PaidCallSettles` | src/connectd/model_proxy.py:151-171 | In every run, an in-bound report settles the call at most at its reservation; any other report keeps the reservation and quarantines the node. |
| `Settlements.RecordStep` | src/connectd/spend.py:138-147 | One step of any kind leaves a quota record as it is or settles an unsettled one, by the finish of the call that holds its grant or the reply to its paid call, at exactly its price; records it adds are whole. |
| `Settlements.SettledStays` | src/connectd/model_proxy.py:168-171 | A settled record is never written again, by any events. |
| `Settlements.UnsettledIsWhole` | src/connectd/tools.py:63-76 | In every run an unsettled record has been its whole reservation since it was made. |
| `Settlements.EachReservationSettlesOnce` | src/connectd/tools.py:63-76 | A settled record was settled by exactly one event of the run, was whole until then, is final since, and does not exceed its reservation. |
| `Approvals.EarliestExpiryIsOptimal` | src/connectd/governance.py:114-120 | On every timeline of approvals and requests, taking the live approval that expires first serves at least as many requests on a key as any other valid choices. |
| `Approvals.EarliestIsValid` | src/connectd/governance.py:116-119 | Those choices are themselves valid, so the bound is attained. |
| `Approvals.IssueTakesEarliest` | src/connectd/governance.py:114-146 | An issue that needs an approval is granted exactly when one is live and consumes the one the optimal strategy takes. |
| `Approvals.ApproveArrives` | src/connectd/governance.py:59-69 | Approving adds to the table what the timeline's arrival adds, whoever approves. |
| `Approvals.ApproveOpensAWindow` | src/connectd/governance.py:59-69 | A new approval makes requests on exactly its key servable, at exactly the times before its expiry. |
| `TaskLeases.TaskManager.Claim` | src/connectd/task.py:57-76 | A pending or expired step goes to the caller with a fresh token and expiry, or nothing changes. |
| `TaskLeases.TaskManager.Finish` | src/connectd/task.py:81-100 | The holder of a live lease closes its step, and the named task if none of its steps is open. |
| `TaskRules.AddStepExactly` | src/connectd/task.py:44-55 | A step is added exactly to a task that exists and has not ended: pending, unclaimed, with the number after the largest. |
| `TaskRules.ClaimExactly` | src/connectd/task.py:57-76 | A claim succeeds exactly for 1 to 3600 seconds on a pending or expired step of an open task; it writes worker, token and expiry into that step and returns them with the step's task and instruction. |
| `TaskRules.FinishExactly` | src/connectd/task.py:81-100 | A finish succeeds exactly with done or failed under the lease in force; it leaves this status and this summary in that step, every other step as it was, and ends the named task, failed exactly when a step of it failed, when none is open. |
| `TaskRules.RoutingExactly` | src/connectd/api.py:1010-1050 | A failed route makes exactly an open task wait unless prod_secure is on; a resolved one takes exactly a waiting task on. |
| `TaskRuns.TaskEndsWithItsSteps` | src/connectd/task.py:92-99 | In every run a task is terminal exactly when it has steps and all are closed, failed exactly when one failed, and its status agrees through clarifications. |
| `TaskRuns.TerminalTaskIsFrozen` | src/connectd/api.py:1017-1019 | After that no event, routing included, adds, reopens or changes its steps or its status. |
| `TaskRuns.StepNumbersHaveNoGaps` | src/connectd/task.py:51-53 | Step numbers of a task are 1, 2, 3, ... in the order of addition. |
| `TaskRuns.LeasesDoNotOverlap` | src/connectd/task.py:65-72 | Live intervals of two leases on one step are disjoint. |
| `TaskRuns.ClaimNeedsNoLiveLease` | src/connectd/task.py:57-76 | A claim succeeds exactly when the step is open and every lease ever given on it has expired by the claim's clock reading; its lease names the step, its task, the worker and the exact expiry. |
| `TaskRuns.FinishNeedsTheLatestLease` | src/connectd/task.py:86-91 | A lease finishes its step exactly when the step is open, no later lease was given and it has not expired. |
| `TaskRuns.OneResultPerStep` | src/connectd/task.py:81-100 | Exactly the closed steps have a result, exactly one, recorded under the last lease while it was live, and the step carries its status and summary. |
| `TaskRuns.ResultWasReported` | src/connectd/task.py:81-91 | Every result of a run was reported by one of its events, with that status and summary, under that lease. |
| `TaskRuns.TaskFailsByAResult` | src/connectd/task.py:94-99 | A terminal task is failed exactly when the result of one of its steps was a failure, and otherwise completed. |
| `TaskRuns.ForeignTaskId` | src/connectd/task.py:92-99 | With a lease naming another task the completion rule survives exactly when the step's task has another open step and the named task, if any, has steps. |
| `TaskRuns.ForeignTaskIdLeavesTaskOpen` | src/connectd/api.py:627-630 | Witness: such a lease closes the only step of a task that then stays open. |
| `Memory.MemoryLedger.CaptureClaim` | src/connectd/memory.py:49-110 | A capture adds the claim with its columns, its sources in order and, if queued, an untrusted organization candidate with the same sources and a pending job, in one block; every refusal adds nothing. |
| `Memory.MemoryLedger.RecallRecords` | src/connectd/memory.py:162-224 | The loop with its early stop returns exactly the first `max_items` of the ordered, filtered claims. |
| `Memory.OrderedSorts` | src/connectd/memory.py:179-184 | The rows recall reads are all claims, each once, by creation time and then id. |
| `MemoryRules.RecallExactly` | src/connectd/memory.py:162-224 | A recall succeeds exactly for a limit of 1 to 100 and a matching task; it returns, described by their columns, the first `max_items` of exactly the rows in order that are readable by scope and organization or global, trustworthy if it must be, not pending unless asked for, and in date if it must be. |
| `MemoryRules.TrustedRecall` | src/connectd/memory.py:188-199 | A recall of trusted claims returns only stored claims that are promoted, trusted, not superseded and named by no open contradiction on either side. |
| `MemoryRules.EffectiveIsStricter` | src/connectd/memory.py:37-42 | The authority in force is session_auto exactly when both settings are, and human_gated exactly when either is. |
| `MemoryRules.CaptureExactly` | src/connectd/memory.py:49-110 | A capture succeeds exactly under its guards; the claim and the queued candidate have exactly the columns asked for, and reading their sources back gives those that were passed. |
| `MemoryRules.WorkerCaptureExactly` | src/connectd/api.py:648-668 | A worker's claim goes into its task's own scope, is trusted unless either setting is human_gated and queued exactly when both are session_auto. |
| `MemoryRules.HumanPromotionExactly` | src/connectd/memory.py:112-124 | A person promotes exactly a pending claim; status, trust, promoter, label and time change and the rest of the row stays. |
| `MemoryRules.OrgPromotionExactly` | src/connectd/memory.py:126-160 | A claim of the organization that is not global is copied into its scope with its text, dates and notes, its sources and itself as the last source; the original stays. |
| `MemoryIsolation.RecallIsIsolated` | src/connectd/memory.py:162-229 | No series of captures by other tasks' workers changes a recall that trusts only promoted claims or leaves pending ones out, errors and cut-off included. |
| `MemoryIsolation.OtherTaskCapture` | src/connectd/api.py:645-673 | One such capture changes nothing a recall returns. |
| `MemoryIsolation.CaptureSucceeds` | src/connectd/api.py:648-668 | A worker's capture succeeds exactly when its task is open, its profile and organization are known and a given confidence or label is in range; otherwise it changes nothing. |
| `MemoryIsolation.CapturedRowsVisible` | src/connectd/memory.py:174-203 | To any reader the captured claim is visible exactly when the reader is of its organization and reads its scope, policy is not human gated or the reader takes untrusted and pending claims, and it is valid if it must be; likewise for the queued candidate. |
| `MemoryIsolation.CaptureChangesRecall` | src/connectd/memory.py:162-224 | One capture, of one row or two, changes a recall exactly when the recall succeeds and one of those rows is visible to it and has room: fewer than `max_items` were returned, or the row sorts before the last of them. |
| `MemoryIsolation.CapturesChangeRecall` | src/connectd/memory.py:162-224 | A whole series of captures changes a recall exactly when one of the rows added is visible to it and has room in what it returned before the series. |
| `MemoryIsolation.SharedScopeLeaks` | src/connectd/api.py:74 | Witness: a task whose memory scope is another open task's scope sees its captures. |
| `MemoryIsolation.OwnCaptureIsRecalled` | src/connectd/api.py:660-668 | A captured claim is in a recall that hides untrusted or pending claims exactly when the recall reads its task's scope in its organization, policy is not human gated, it is valid if it must be and it has room. |
| `MemoryIsolation.QueuedCandidateIsRecalled` | src/connectd/memory.py:198-203 | The queued candidate is in a recall exactly when the recall is of its organization, asks for untrusted and pending claims, finds it valid if it must be and has room for it. |
| `LibrarianQueue.NextJob` | src/connectd/memory_queue.py:40-42 | The job taken is pending or stale and no such job comes before it by creation time and id; none is taken only when there is none. |
| `LibrarianRules.NextJobExactly` | src/connectd/memory_queue.py:38-42 | A job is taken exactly when one is pending or was not heard of for more than five minutes, and then the oldest such job, by id among equals. |
| `LibrarianRules.VerdictExactly` | src/connectd/memory_queue.py:72-104 | The evaluator is asked exactly about a job with whole lineage, both settings session_auto, a promoted source of an allowed privacy class, consent for a remote evaluator, a source in date with provenance and no open contradiction; only missing consent leaves it pending, everything else goes to review. |
| `LibrarianRules.CommitExactly` | src/connectd/memory_queue.py:121-153 | A commit promotes exactly when the job is still being evaluated, the source promoted, both settings session_auto, consent given and the candidate pending; what the candidate and the job then say; otherwise the job goes to review, or nothing is written when only the candidate changed. |
| `LibrarianRules.PassExactly` | src/connectd/memory_queue.py:33-154 | What one pass does to the oldest waiting job, when the loop goes on, and when the pass raises. |
| `LibrarianQueue.MemoryEvaluationQueue.Claim` | src/connectd/memory_queue.py:37-71 | The next job is marked and everything the verdict needs is read in one transaction. |
| `LibrarianQueue.MemoryEvaluationQueue.Commit` | src/connectd/memory_queue.py:121-153 | Candidate and job are promoted together, or the job goes to review, or the block is rolled back because the candidate was taken. |
| `LibrarianQueue.MemoryEvaluationQueue.ProcessOne` | src/connectd/memory_queue.py:33-154 | One pass, with any transactions of others between its two, reaches the state and the continue answer of claim, verdict, evaluation and commit in order. |
| `LibrarianRuns.ReachableInv` | src/connectd/memory_queue.py:33-154 | The queue invariant holds after every interleaving of workers, crashes, people and policy changes. |
| `LibrarianRuns.PromotedExactlyOnce` | src/connectd/memory_queue.py:142-153 | A job is promoted exactly when the librarian promoted its candidate, by exactly one commit; no two jobs share a candidate and the librarian promotes nothing else. |
| `LibrarianRuns.FinalJobsStay` | src/connectd/memory_queue.py:28-31 | Promoted and review-required jobs are never left. |
| `LibrarianRuns.FirstPromoterStays` | src/connectd/memory_queue.py:142-149 | A claim that left pending keeps its status and its promoter, so human and librarian never overwrite each other. |
| `LibrarianRuns.PromotionWasEarned` | src/connectd/memory_queue.py:121-153 | Promotion number p of a run was written by one commit, in a state where the organization's and the profile's settings were both session_auto, the source promoted, the candidate pending and remote consent in force; its worker had taken that job as the oldest waiting, assessable and sound one, was asking about it when the answer came that corroborated it, without a contradiction, at or above the threshold and with the confidence that was written, and worked on nothing else in between. |
| `LibrarianRuns.PassIsARun` | src/connectd/memory_queue.py:33-154 | A pass of the queue leaves the tables that its worker's events in the concurrent model leave, whatever others did in between. |
| `LibrarianRuns.TakenCandidateGoesToReview` | src/connectd/memory_queue.py:72-74 | A job whose candidate is no longer pending goes to review with the next worker that claims it. |
| `AuditChain.ImportAudit` | src/connectd/legacy_etl.py:244-286 | The import loop accepts exactly the chains of the recursive check and stores them with the head; the first bad row or a different recorded head rejects the import. |
| `AuditChain.LegacyAuditIntegrity` | src/connectd/api.py:549-568 | The endpoint's loop reports the first broken row, or the length, the head and whether payloads were verified. |
| `AuditRules.ImportExactly` | src/connectd/legacy_etl.py:243-286 | An import succeeds exactly when no row has a fault and the recorded head hash and sequence, if any, are the last row's; every row is then stored as it was, with its body exactly when retained; otherwise the first fault of the first faulty row is reported. |
| `AuditRules.InspectExactly` | src/connectd/api.py:549-568 | The endpoint reports the first row that does not follow the row before it or whose body its hash does not cover; otherwise the number of rows, the last hash and whether every body was there. |
| `AuditChain.ImportedChainIsIntact` | src/connectd/legacy_etl.py:244-286 | Every chain the importer accepts is intact to the endpoint with the same head, payloads verified exactly when retained. |
| `AuditChain.VerifiedMeansLinked` | src/connectd/api.py:553-568 | The endpoint reports verified payloads exactly when all bodies are there and all links and hashes hold. |
| `AuditChain.LinksAloneDoNotPinContents` | src/connectd/api.py:558-565 | Witness: one row without its payload gives the same report under any kind, so its report does not pin it. |
| `AuditChain.ReportPinsExactly` | src/connectd/api.py:549-568 | The report on an intact table tells its history apart from every other well-formed table exactly when every body was kept. |
| `AuditChain.ImportPinsExactly` | src/connectd/legacy_etl.py:244-286 | The report on an imported chain pins it exactly when payloads were retained or it is empty. |
| `AuditChain.PreimageInjective` | src/connectd/legacy_etl.py:248-250 | The hashed text determines its four fields, the body being free to hold separators. |
| `AuditChain.HeadPinsHistory` | src/connectd/legacy_etl.py:244-253 | Two linked chains with one head agree in length and in every record. |
| `AuditChain.VerifiedHeadPinsHistory` | src/connectd/api.py:567-568 | Two stored tables reported verified with one head hold the same history. |
| `Placement.EligibleTiers` | src/connectd/compute.py:23-28 | The external tier is open to all but repository-sensitive work; tiers come best first. |
| `Placement.Place` | src/connectd/compute.py:31-70 | The search returns the least eligible node by tier and id, is denied exactly when none is eligible, and never breaks the repository and secret rules. |
| `Placement.BestIsUnique` | src/connectd/compute.py:46-70 | The table and the request determine the answer. |
| `Placement.EligibleExactly` | src/connectd/compute.py:46-68 | The columns that make a node eligible: healthy, owned or shared, reachable, of the model asked for, heard of within the age limit if it is watched, and cleared for the privacy class. |
| `Placement.BestExactly` | src/connectd/compute.py:46-70 | The best node is local before rented before external, and of one tier the one with the earliest id. |
| `NodeHealth.ReadInventory` | src/connectd/node_monitor.py:83-109 | The reading depends on the bag of entries alone: unsound inventories make every approved node unhealthy, otherwise healthy means listed with free slots and its model loaded. |
| `NodeHealth.OrderDoesNotMatter` | src/connectd/node_monitor.py:89-106 | Answers with the same entries in another order are read alike. |
| `NodeHealth.CapacityExactly` | src/connectd/node_monitor.py:97-106 | An approved entry is valid exactly when its status is healthy, its slots a nonnegative whole number and its models a list of texts; its node is ready exactly with free slots and its model among them. |
| `NodeHealth.HealthyExactly` | src/connectd/node_monitor.py:83-106 | A node is healthy exactly when every entry of the list is named, no two name one node, entries about approved nodes are valid, and an entry about this node has free slots and its model. |
| `NodeHealth.ApprovedExactly` | src/connectd/node_monitor.py:68-72 | A manager speaks for exactly the nodes registered under it that the operator allows. |
| `NodeHealth.NodeMonitor.Record` | src/connectd/node_monitor.py:110-115 | Each listed node that is still under the manager gets its status, stamp and capacity; every other row stays, even if the table changed since it was read. |
| `NodeHealth.NodeMonitor.ProbeManager` | src/connectd/node_monitor.py:66-116 | With any changes to the table while the inventory is fetched, exactly the nodes approved at the start and still under the manager carry the health the inventory gives them, and the capacity column is exactly what a sound inventory states for the node. |
| `Router.Traverse` | src/connectd/router.py:25-55 | Succeeds exactly when the chooser's answers trace a linked path of two or three hops to a leaf, and returns it; the visited set only changes which error is named. |
| `Router.WalkIsTrace` | src/connectd/router.py:31-55 | The walk without a visited set yields exactly those paths. |
| `Router.RouteExactly` | src/connectd/router.py:25-55 | The routes are exactly those from the root over two hops, or over three, each at a node of its level with one to four options and an answer that only one of them has, to the leaf. |
| `Router.SingleMatch` | src/connectd/router.py:42-45 | One match is listed exactly when one option alone has the selected id, and it is that option. |

## Left out

- HTTP handlers, request validation, the control page, the command line, operator identities and ranks: plumbing and lookups.
- Worker launching, containers, the workbench and the dispatcher: foreign calls with little state.
- RunPod provisioning: a remote client whose paid creation is disabled.
- TLS, Ed25519, SHA-256, Cedar, JSON schema, tokenizers and canonical JSON: taken as the assumptions above.
- Migrations, table definitions and the rest of the legacy import (row copying, stub tasks, the body's grant lookup).
- Daylight-saving zones in the budget windows, 28-digit decimal rounding and PostgreSQL collation.
- Registry sharing: only `visible_to` is modelled; shares change arbitrarily in the runs, which covers granting and revoking them.
- Job reasons and scores, task titles, placement rows and routing rows, which no guard reads; recalled items carry their claim, trust and validity, not their sources and warnings.
- The polling loops `run_until` and `poll_once`, and the probe of a single node, whose report check has fewer branches than a manager's.
- `recall`, which lists the texts of `recall_records` without repetition, and `one_tool_schema`, a lookup.
- GovernanceService.ModelProxy.Reserve: starts from the trusted prompt bound; the preflight request and tokenizer are parameters.
- GovernanceService.Governance.Admission: negative registered costs, which raise an error in the source, are outside the column type here.
- Pricing.AcceptedExactlyWhenAffordable: exact rationals instead of 28-digit decimals.
- Placement.Place: a malformed allowed-privacy column, which raises an error in the source, is not represented.
- Router.Traverse: trees whose node lacks options, which raise a lookup error in the source, are not represented.
- NodeHealth.ReadInventory: transport and TLS failures are one absent report.
- Memory.MemoryLedger.CaptureClaim: sources without a uri or hash, which raise a lookup error and undo the block, are not represented.
