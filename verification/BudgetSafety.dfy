/** No run of the ledger lets unapproved spending exceed a budget. */
module BudgetSafety {
  import opened Wrappers
  import opened Calendar
  import opened Pricing
  import opened Ledger
  import opened GovernanceService
  import opened LedgerRuns

  // ----- the sum over a window -----

  lemma {:induction false} SpentLater(records: seq<QuotaRecord>, excluded: set<nat>, task: string, since: Instant, later: Instant)
    requires since <= later
    ensures SpentExcept(records, excluded, task, later) <= SpentExcept(records, excluded, task, since)
  {
    if |records| > 0 {
      SpentLater(records[..|records| - 1], excluded, task, since, later);
    }
  }

  lemma {:induction false} SpentExcluding(records: seq<QuotaRecord>, few: set<nat>, many: set<nat>, task: string, since: Instant)
    requires few <= many
    ensures SpentExcept(records, many, task, since) <= SpentExcept(records, few, task, since)
  {
    if |records| > 0 {
      SpentExcluding(records[..|records| - 1], few, many, task, since);
    }
  }

  /** The same records, none with a larger amount. */
  ghost predicate Shrinks(records: seq<QuotaRecord>, next: seq<QuotaRecord>) {
    && |records| == |next|
    && forall i :: 0 <= i < |records| ==>
         next[i].task == records[i].task && next[i].createdAt == records[i].createdAt
         && next[i].source == records[i].source && next[i].amount <= records[i].amount
  }

  lemma {:induction false} SpentShrinks(records: seq<QuotaRecord>, next: seq<QuotaRecord>, excluded: set<nat>, task: string, since: Instant)
    requires Shrinks(records, next)
    ensures SpentExcept(next, excluded, task, since) <= SpentExcept(records, excluded, task, since)
  {
    if |records| > 0 {
      SpentShrinks(records[..|records| - 1], next[..|records| - 1], excluded, task, since);
    }
  }

  lemma SpentAppend(records: seq<QuotaRecord>, row: QuotaRecord, excluded: set<nat>, task: string, since: Instant)
    ensures SpentExcept(records + [row], excluded, task, since)
         == SpentExcept(records, excluded, task, since)
            + if |records| !in excluded && row.task == task && since <= row.createdAt then row.amount else 0
  {
    assert (records + [row])[..|records|] == records;
  }

  /** Records of other tasks, earlier ones and those left out do not count. */
  lemma {:induction false} SpentNothing(records: seq<QuotaRecord>, excluded: set<nat>, task: string, since: Instant)
    requires forall i :: 0 <= i < |records| ==> i in excluded || records[i].task != task || records[i].createdAt < since
    ensures SpentExcept(records, excluded, task, since) == 0
  {
    if |records| > 0 {
      SpentNothing(records[..|records| - 1], excluded, task, since);
    }
  }

  // ----- one step -----

  /** The task's spending in the current window, leaving out some records, is within budget. */
  ghost predicate Within(w: World, excluded: set<nat>, task: string, period: Period) {
    (task, period) in w.db.budgets ==>
      SpentExcept(w.db.records, excluded, task, PeriodStart(w.now, period)) <= w.db.budgets[(task, period)]
  }

  /** Every dispatched paid call has a model reservation that covers what it may settle. */
  ghost predicate ChatsCovered(w: World) {
    forall id :: id in w.chats ==>
      && w.chats[id].record < |w.db.records|
      && w.db.records[w.chats[id].record].source.FromModel?
      && (w.db.records[w.chats[id].record].settled
          || w.chats[id].reservedCents <= w.db.records[w.chats[id].record].amount)
  }

  ghost predicate OverridesRecorded(w: World) {
    forall i :: i in w.overrides ==> i < |w.db.records|
  }

  ghost predicate SetsBudget(e: Event, task: string, period: Period) {
    e.Budgeting? && e.task == task && e.period == period
  }

  /** The step is recorded as an issue for this task past its budget. */
  ghost predicate Overrides(w: World, e: Event, task: string) {
    e.Issuing? && e.key.task == task && Apply(w, e).overrides != w.overrides
  }

  /** The step is a granted issue for this task whose cost a budget does not cover, and it consumes
      an operator's approval of exactly its key that was live when it was looked up. */
  ghost predicate ApprovedPastBudget(w: World, e: Event, task: string) {
    && e.Issuing? && e.key.task == task && WantsGrant(w, e.caller, e.key) && OverBudget(w, e.key, e.gaps)
    && var clock := IssueClockOf(w, e.gaps);
       var (next, outcome) := IssueTx(w.db, e.config, e.key, e.ttlSeconds, e.policy, e.signature, clock);
       && outcome.Granted? && outcome.approval.Some? && Apply(w, e).db == next
       && var a := outcome.approval.value;
          && a < |w.db.approvals| && LiveApproval(w.db.approvals[a], e.key, clock.approveAt)
          && next.approvals == w.db.approvals[a := w.db.approvals[a].(consumed := true)]
  }

  lemma ApprovalConsumedPastBudget(db: Db, config: Config, key: Key, ttlSeconds: int, policy: Policy, signature: string, clock: IssueClock)
    requires IssueTx(db, config, key, ttlSeconds, policy, signature, clock).1.Granted? && key.tool in db.tools
    requires var spend := AssessSpend(db, key.task, db.tools[key.tool], clock.assessAt); spend.Some? && spend.value.approvalRequired
    ensures var (next, outcome) := IssueTx(db, config, key, ttlSeconds, policy, signature, clock);
            && outcome.approval.Some?
            && var a := outcome.approval.value;
               && a < |db.approvals| && LiveApproval(db.approvals[a], key, clock.approveAt)
               && next.approvals == db.approvals[a := db.approvals[a].(consumed := true)]
  {
  }

  /** Only an operator's approval takes an issue past a budget. */
  lemma OverrideIsApproved(w: World, e: Event, task: string)
    requires Overrides(w, e, task)
    ensures ApprovedPastBudget(w, e, task)
  {
    ApprovalConsumedPastBudget(w.db, e.config, e.key, e.ttlSeconds, e.policy, e.signature, IssueClockOf(w, e.gaps));
  }

  lemma SettlementShrinks(records: seq<QuotaRecord>, tool: ToolRow, grantId: nat, units: Option<int>)
    ensures var settled := SettledRecords(records, tool, grantId, units);
            settled.Some? ==> Shrinks(records, settled.value)
                              && forall i :: 0 <= i < |records| && records[i].source.FromModel? ==> settled.value[i] == records[i]
  {
  }

  lemma ReplyShrinks(db: Db, call: PaidCall, usage: Usage)
    requires call.record < |db.records|
    requires db.records[call.record].settled || call.reservedCents <= db.records[call.record].amount
    ensures var next := UpstreamReplyTx(db, call, usage).0;
            && Shrinks(db.records, next.records) && next.budgets == db.budgets
            && forall i :: 0 <= i < |db.records| ==> next.records[i].settled || next.records[i] == db.records[i]
  {
  }

  /** Most steps leave the records, the dispatched calls and the overrides alone. */
  lemma QuietStep(w: World, e: Event)
    requires !e.Issuing? && !e.Dispatching? && !e.Replying? && !e.Finishing?
    ensures var next := Apply(w, e);
            && next.db.records == w.db.records && next.overrides == w.overrides
            && (forall id :: id in next.chats ==> id in w.chats && next.chats[id] == w.chats[id])
            && (!e.Budgeting? ==> next.db.budgets == w.db.budgets)
  {
  }

  lemma BudgetingStep(w: World, e: Event, task: string, period: Period)
    requires e.Budgeting? && !SetsBudget(e, task, period)
    ensures var budgets := Apply(w, e).db.budgets;
            ((task, period) in budgets <==> (task, period) in w.db.budgets)
            && ((task, period) in budgets ==> budgets[(task, period)] == w.db.budgets[(task, period)])
  {
  }

  lemma FinishingStep(w: World, e: Event)
    requires e.Finishing?
    ensures var next := Apply(w, e);
            && Shrinks(w.db.records, next.db.records) && next.db.budgets == w.db.budgets
            && next.chats == w.chats && next.overrides == w.overrides
            && forall i :: 0 <= i < |w.db.records| && w.db.records[i].source.FromModel? ==> next.db.records[i] == w.db.records[i]
  {
    if e.id in w.calls && w.calls[e.id].Returned? {
      var Returned(key, tool, grant, invocation, units) := w.calls[e.id];
      SettlementShrinks(w.db.records, tool, grant.grantId, units);
    }
  }

  lemma ReplyingStep(w: World, e: Event)
    requires e.Replying? && ChatsCovered(w)
    ensures var next := Apply(w, e);
            && Shrinks(w.db.records, next.db.records) && next.db.budgets == w.db.budgets && next.overrides == w.overrides
            && (forall id :: id in next.chats ==> id in w.chats && next.chats[id] == w.chats[id])
            && forall i :: 0 <= i < |w.db.records| ==> next.db.records[i].settled || next.db.records[i] == w.db.records[i]
  {
    if e.id in w.chats {
      ReplyShrinks(w.db, w.chats[e.id], e.usage);
    }
  }

  /** A step that appends no record leaves every recorded amount the same or smaller. */
  lemma RecordsShrink(w: World, e: Event)
    requires ChatsCovered(w) && !e.Issuing? && !e.Dispatching?
    ensures Shrinks(w.db.records, Apply(w, e).db.records)
    ensures !e.Budgeting? ==> Apply(w, e).db.budgets == w.db.budgets
  {
    if e.Replying? {
      ReplyingStep(w, e);
    } else if e.Finishing? {
      FinishingStep(w, e);
    } else {
      QuietStep(w, e);
    }
  }

  lemma ClockAdvances(w: World, e: Event)
    ensures w.now <= Apply(w, e).now
  {
  }

  /** An admitted cost keeps the window within budget although the record is stamped, and the
      window is looked at, by later clock readings than the assessment. */
  lemma AdmittedCostFits(db: Db, excluded: set<nat>, task: string, period: Period, assessAt: Instant,
                         row: QuotaRecord, lookAt: Instant)
    requires assessAt <= lookAt && row.task == task
    requires (task, period) in db.budgets && !BudgetRequiresApproval(db, task, row.amount, assessAt)
    ensures SpentExcept(db.records + [row], excluded, task, PeriodStart(lookAt, period)) <= db.budgets[(task, period)]
  {
    var since, later := PeriodStart(assessAt, period), PeriodStart(lookAt, period);
    PeriodStartMonotone(assessAt, lookAt, period);
    SpentAppend(db.records, row, excluded, task, later);
    SpentExcluding(db.records, {}, excluded, task, later);
    SpentLater(db.records, {}, task, since, later);
    assert !Exceeds(db, task, period, row.amount, assessAt);
  }

  /** A record may join the table when it is left out, belongs to another task or was admitted. */
  ghost predicate MayJoin(db: Db, row: QuotaRecord, after: set<nat>, assessAt: Instant) {
    |db.records| in after || !BudgetRequiresApproval(db, row.task, row.amount, assessAt)
  }

  lemma GrownRecordsFit(db: Db, next: seq<QuotaRecord>, excluded: set<nat>, after: set<nat>, task: string, period: Period,
                        now: Instant, assessAt: Instant, lookAt: Instant)
    requires now <= assessAt <= lookAt && excluded <= after
    requires (task, period) in db.budgets
    requires SpentExcept(db.records, excluded, task, PeriodStart(now, period)) <= db.budgets[(task, period)]
    requires next == db.records
             || (|next| == |db.records| + 1 && next[..|db.records|] == db.records
                 && (next[|db.records|].task == task ==> MayJoin(db, next[|db.records|], after, assessAt)))
    ensures SpentExcept(next, after, task, PeriodStart(lookAt, period)) <= db.budgets[(task, period)]
  {
    var later := PeriodStart(lookAt, period);
    PeriodStartMonotone(now, lookAt, period);
    SpentLater(db.records, excluded, task, PeriodStart(now, period), later);
    SpentExcluding(db.records, excluded, after, task, later);
    if next != db.records {
      var row := next[|db.records|];
      assert next == db.records + [row];
      if |db.records| in after || row.task != task {
        SpentAppend(db.records, row, after, task, later);
      } else {
        AdmittedCostFits(db, after, task, period, assessAt, row, lookAt);
      }
    }
  }

  /** An issue keeps the records or appends one, at the cost that was assessed. */
  lemma IssueTxRecords(db: Db, config: Config, key: Key, ttlSeconds: int, policy: Policy, signature: string, clock: IssueClock)
    ensures var (next, outcome) := IssueTx(db, config, key, ttlSeconds, policy, signature, clock);
            && next.budgets == db.budgets
            && (next.records == db.records
                || (outcome.Granted? && |next.records| == |db.records| + 1 && next.records[..|db.records|] == db.records
                    && key.tool in db.tools && next.records[|db.records|].task == key.task
                    && AssessSpend(db, key.task, db.tools[key.tool], clock.assessAt)
                       == Some(Assessment(true, next.records[|db.records|].amount,
                                          BudgetRequiresApproval(db, key.task, next.records[|db.records|].amount, clock.assessAt)))))
            && (outcome.Granted? && key.tool in db.tools && next.records == db.records ==>
                  AssessSpend(db, key.task, db.tools[key.tool], clock.assessAt) == Some(Assessment(false, 0, false)))
  {
  }

  /** An issue keeps the records or appends one, which is an override or was admitted; an
      override is always the appended record. */
  lemma IssueRecords(w: World, e: Event)
    requires e.Issuing? && OverridesRecorded(w)
    ensures var next := Apply(w, e);
            && next.chats == w.chats && next.db.budgets == w.db.budgets
            && (next.db.records == w.db.records
                || (|next.db.records| == |w.db.records| + 1 && next.db.records[..|w.db.records|] == w.db.records
                    && next.db.records[|w.db.records|].task == e.key.task
                    && (|w.db.records| in next.overrides
                        || MayJoin(w.db, next.db.records[|w.db.records|], {}, w.now + e.gaps.first))))
            && next.overrides in {w.overrides, w.overrides + {|w.db.records|}}
            && (next.overrides != w.overrides ==> |next.db.records| == |w.db.records| + 1)
            && w.now + e.gaps.first <= (if next == w then w.now + e.gaps.first else next.now)
  {
    if WantsGrant(w, e.caller, e.key) {
      var (db, outcome) := IssueTx(w.db, e.config, e.key, e.ttlSeconds, e.policy, e.signature, IssueClockOf(w, e.gaps));
      IssueTxRecords(w.db, e.config, e.key, e.ttlSeconds, e.policy, e.signature, IssueClockOf(w, e.gaps));
      IssuedWorld(w, e, db, outcome);
    }
  }

  /** What an issue makes of the world, apart from the calls. */
  lemma IssuedWorld(w: World, e: Event, db: Db, outcome: IssueOutcome)
    requires e.Issuing? && WantsGrant(w, e.caller, e.key)
    requires (db, outcome) == IssueTx(w.db, e.config, e.key, e.ttlSeconds, e.policy, e.signature, IssueClockOf(w, e.gaps))
    ensures var next := Apply(w, e);
            && next.db == db && next.chats == w.chats && w.now + e.gaps.first <= next.now
            && next.overrides == if outcome.Granted? && OverBudget(w, e.key, e.gaps) then w.overrides + {|w.db.records|} else w.overrides
  {
  }

  lemma IssueKeepsBudget(w: World, e: Event, excluded: set<nat>, after: set<nat>, task: string, period: Period)
    requires e.Issuing? && Within(w, excluded, task, period) && excluded <= after && OverridesRecorded(w)
    requires Overrides(w, e, task) ==> |w.db.records| in after
    ensures Within(Apply(w, e), after, task, period)
  {
    var next := Apply(w, e);
    IssueRecords(w, e);
    if (task, period) in w.db.budgets {
      var assessAt := if next == w then w.now else w.now + e.gaps.first;
      GrownRecordsFit(w.db, next.db.records, excluded, after, task, period, w.now, assessAt, next.now);
    }
  }

  /** An admitted paid call appends its reservation, which was checked against the budgets. */
  lemma AdmittedRecords(db: Db, task: string, node: string, prices: PriceList, promptBound: nat, requestedOutput: int, clock: ReserveClock)
    ensures var (next, admitted) := AdmitPaidCall(db, task, node, prices, promptBound, requestedOutput, clock);
            && (admitted.Failure? ==> next == db)
            && (admitted.Success? ==>
                  && next.budgets == db.budgets && |next.records| == |db.records| + 1 && next.records[..|db.records|] == db.records
                  && var row := next.records[|db.records|];
                     && !BudgetRequiresApproval(db, row.task, row.amount, clock.assessAt) && row.source.FromModel?
                     && admitted.value.record == |db.records| && admitted.value.reservedCents == row.amount)
  {
  }

  lemma DispatchRecords(w: World, e: Event)
    requires e.Dispatching?
    ensures var next := Apply(w, e);
            && next.db.budgets == w.db.budgets
            && (next.db.records == w.db.records
                || (|next.db.records| == |w.db.records| + 1 && next.db.records[..|w.db.records|] == w.db.records
                    && MayJoin(w.db, next.db.records[|w.db.records|], {}, w.now + e.gaps.first)
                    && w.now + e.gaps.first <= next.now))
            && next.overrides == w.overrides
            && forall id :: id in next.chats ==>
                 || (id in w.chats && next.chats[id] == w.chats[id])
                 || (next.chats[id].record == |w.db.records| < |next.db.records|
                     && next.db.records[|w.db.records|].source.FromModel?
                     && next.chats[id].reservedCents == next.db.records[|w.db.records|].amount)
  {
    AdmittedRecords(w.db, e.task, e.node, e.prices, e.promptBound, e.requestedOutput, ReserveClockOf(w, e.gaps));
  }

  lemma DispatchKeepsBudget(w: World, e: Event, excluded: set<nat>, after: set<nat>, task: string, period: Period)
    requires e.Dispatching? && Within(w, excluded, task, period) && excluded <= after
    ensures Within(Apply(w, e), after, task, period)
  {
    var next := Apply(w, e);
    DispatchRecords(w, e);
    ClockAdvances(w, e);
    if (task, period) in w.db.budgets {
      var assessAt := if next.db.records == w.db.records then w.now else w.now + e.gaps.first;
      GrownRecordsFit(w.db, next.db.records, excluded, after, task, period, w.now, assessAt, next.now);
    }
  }

  /** One step from within budget stays within budget, unless it sets this very budget; an
      operator-approved issue for this task is the only record that has to be left out for that. */
  lemma StepKeepsBudget(w: World, e: Event, excluded: set<nat>, after: set<nat>, task: string, period: Period)
    requires ChatsCovered(w) && OverridesRecorded(w)
    requires Within(w, excluded, task, period) && excluded <= after
    requires Overrides(w, e, task) ==> |w.db.records| in after
    requires !SetsBudget(e, task, period)
    ensures Within(Apply(w, e), after, task, period)
  {
    if e.Issuing? {
      IssueKeepsBudget(w, e, excluded, after, task, period);
    } else if e.Dispatching? {
      DispatchKeepsBudget(w, e, excluded, after, task, period);
    } else {
      ShrinkingKeepsBudget(w, e, excluded, after, task, period);
    }
  }

  lemma ShrinkingKeepsBudget(w: World, e: Event, excluded: set<nat>, after: set<nat>, task: string, period: Period)
    requires ChatsCovered(w) && Within(w, excluded, task, period) && excluded <= after
    requires !e.Issuing? && !e.Dispatching? && !SetsBudget(e, task, period)
    ensures Within(Apply(w, e), after, task, period)
  {
    var n := Apply(w, e);
    RecordsShrink(w, e);
    ClockAdvances(w, e);
    if e.Budgeting? { BudgetingStep(w, e, task, period); }
    if (task, period) in w.db.budgets {
      var since, later := PeriodStart(w.now, period), PeriodStart(n.now, period);
      PeriodStartMonotone(w.now, n.now, period);
      SpentLater(w.db.records, excluded, task, since, later);
      SpentExcluding(w.db.records, excluded, after, task, later);
      SpentShrinks(w.db.records, n.db.records, after, task, later);
    }
  }

  lemma StepKeepsChatsCovered(w: World, e: Event)
    requires ChatsCovered(w) && OverridesRecorded(w)
    ensures ChatsCovered(Apply(w, e)) && |w.db.records| <= |Apply(w, e).db.records|
    ensures OverridesRecorded(Apply(w, e))
  {
    if e.Issuing? {
      IssueRecords(w, e);
    } else if e.Dispatching? {
      DispatchKeepsChatsCovered(w, e);
    } else if e.Replying? {
      ReplyingStep(w, e);
    } else if e.Finishing? {
      FinishingStep(w, e);
    } else {
      QuietStep(w, e);
    }
  }

  lemma DispatchKeepsChatsCovered(w: World, e: Event)
    requires e.Dispatching? && ChatsCovered(w) && OverridesRecorded(w)
    ensures ChatsCovered(Apply(w, e)) && |w.db.records| <= |Apply(w, e).db.records|
    ensures OverridesRecorded(Apply(w, e))
  {
    DispatchRecords(w, e);
  }

  // ----- whole runs -----

  ghost predicate NeverSets(events: seq<Event>, task: string, period: Period) {
    forall i :: 0 <= i < |events| ==> !SetsBudget(events[i], task, period)
  }

  lemma {:induction false} RunKeepsChatsCovered(w: World, events: seq<Event>)
    requires ChatsCovered(w) && OverridesRecorded(w)
    ensures ChatsCovered(Run(w, events)) && |w.db.records| <= |Run(w, events).db.records|
    ensures OverridesRecorded(Run(w, events))
  {
    if |events| > 0 {
      var prefix := events[..|events| - 1];
      RunKeepsChatsCovered(w, prefix);
      StepKeepsChatsCovered(Run(w, prefix), events[|events| - 1]);
    }
  }

  /** In every run that does not set the budget anew, what a task spends in the current window
      without an operator's approval past the budget never exceeds the budget. */
  lemma {:induction false} UnapprovedSpendingStaysWithinBudget(w: World, events: seq<Event>, task: string, period: Period)
    requires ChatsCovered(w) && OverridesRecorded(w)
    requires Within(w, w.overrides, task, period) && NeverSets(events, task, period)
    ensures Within(Run(w, events), Run(w, events).overrides, task, period)
  {
    if |events| > 0 {
      var prefix, e := events[..|events| - 1], events[|events| - 1];
      RunKeepsChatsCovered(w, prefix);
      UnapprovedSpendingStaysWithinBudget(w, prefix, task, period);
      var mid := Run(w, prefix);
      OverridesGrow(mid, e, task);
      StepKeepsBudget(mid, e, mid.overrides, Apply(mid, e).overrides, task, period);
    }
  }

  lemma OverridesGrow(w: World, e: Event, task: string)
    ensures w.overrides <= Apply(w, e).overrides
    ensures Overrides(w, e, task) ==> |w.db.records| in Apply(w, e).overrides
  {
  }

  /** A run that ends over budget, having started within it, goes over at a step that sets this
      budget, or at an issue for this task that consumes a live operator approval of its key. */
  lemma {:induction false} OverspendingNeedsAnOperator(w: World, events: seq<Event>, task: string, period: Period) returns (at: nat)
    requires ChatsCovered(w) && OverridesRecorded(w)
    requires Within(w, {}, task, period) && !Within(Run(w, events), {}, task, period)
    ensures at < |events|
    ensures Within(Run(w, events[..at]), {}, task, period) && !Within(Apply(Run(w, events[..at]), events[at]), {}, task, period)
    ensures SetsBudget(events[at], task, period) || ApprovedPastBudget(Run(w, events[..at]), events[at], task)
  {
    var prefix, e := events[..|events| - 1], events[|events| - 1];
    if Within(Run(w, prefix), {}, task, period) {
      at := |events| - 1;
      LastGoesOver(w, prefix, e, task, period);
      assert events == prefix + [e];
    } else {
      at := OverspendingNeedsAnOperator(w, prefix, task, period);
      assert prefix[..at] == events[..at];
    }
  }

  lemma LastGoesOver(w: World, prefix: seq<Event>, e: Event, task: string, period: Period)
    requires ChatsCovered(w) && OverridesRecorded(w)
    requires Within(Run(w, prefix), {}, task, period) && !Within(Run(w, prefix + [e]), {}, task, period)
    ensures !Within(Apply(Run(w, prefix), e), {}, task, period)
    ensures SetsBudget(e, task, period) || ApprovedPastBudget(Run(w, prefix), e, task)
  {
    assert (prefix + [e])[..|prefix|] == prefix;
    RunKeepsChatsCovered(w, prefix);
    StepGoesOver(Run(w, prefix), e, task, period);
  }

  /** What kind of step goes over. */
  lemma StepGoesOver(w: World, e: Event, task: string, period: Period)
    requires ChatsCovered(w) && OverridesRecorded(w)
    requires Within(w, {}, task, period) && !Within(Apply(w, e), {}, task, period)
    ensures SetsBudget(e, task, period) || ApprovedPastBudget(w, e, task)
  {
    if Overrides(w, e, task) {
      OverrideIsApproved(w, e, task);
    } else if !SetsBudget(e, task, period) {
      StepKeepsBudget(w, e, {}, {}, task, period);
      assert false;
    }
  }
}
