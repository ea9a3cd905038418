/** What approving, redeeming, settling, budgeting and one whole tool call need and write, stated
    over the columns of the tables. */
module LedgerRules {
  import opened Wrappers
  import opened Calendar
  import opened Pricing
  import opened Registry
  import opened Ledger
  import opened GovernanceService
  import opened AdmissionRules
  import opened LedgerTheorems

  // ----- approve -----

  /** An operator with a name may approve for 1 to 3600 seconds. The approval is for this key alone,
      unused, until the seconds are over. */
  lemma ApproveExactly(db: Db, key: Key, approvedBy: string, ttlSeconds: int, now: Instant)
    ensures var (next, r) := ApproveTx(db, key, approvedBy, ttlSeconds, now);
            if approvedBy != "" && 1 <= ttlSeconds <= 3600 then
              && r == Success(|db.approvals|) && next == db.(approvals := next.approvals)
              && |next.approvals| == |db.approvals| + 1 && db.approvals <= next.approvals
              && var row := next.approvals[|db.approvals|];
                 row.key == key && row.expiresAt == now + ttlSeconds * 1_000_000 && !row.consumed && row.approvedBy == approvedBy
            else r.Failure? && next == db
  {
  }

  // ----- redeem -----

  /** The row of the grant is as it was signed, unused and not expired. */
  predicate Unused(db: Db, grant: Grant, now: Instant) {
    && grant.grantId < |db.grants| && db.grants[grant.grantId].decisionId == grant.decisionId
    && db.grants[grant.grantId].signature == grant.signature && db.grants[grant.grantId].status == Issued
    && now < db.grants[grant.grantId].expiresAt
  }

  /** The task and the tool exist, and the tool is the organization's or shared with it. */
  ghost predicate StillShared(db: Db, key: Key) {
    && key.task in db.tasks && key.tool in db.tools
    && Shared(db.shares, db.tools[key.tool].ownerOrg, db.tasks[key.task].org, ToolKind, key.tool)
  }

  /** A grant is redeemed exactly when it was signed for this key, has not expired at either clock
      reading, its row is unused and its tool still shared. Its row is marked, and one log is written. */
  lemma RedeemExactly(db: Db, signed: set<Grant>, grant: Grant, key: Key, clock: RedeemClock)
    ensures var (next, r) := RedeemTx(db, signed, grant, key, clock);
            if grant in signed && grant.key == key && clock.verifyAt < grant.expiresAt && StillShared(db, key)
               && Unused(db, grant, clock.redeemAt)
            then
              && r == Success(|db.logs|) && next == db.(grants := next.grants, logs := next.logs)
              && |next.grants| == |db.grants|
              && (forall g :: 0 <= g < |db.grants| && g != grant.grantId ==> next.grants[g] == db.grants[g])
              && next.grants[grant.grantId] == db.grants[grant.grantId].(status := Redeemed)
              && |next.logs| == |db.logs| + 1 && db.logs <= next.logs
              && var row := next.logs[|db.logs|];
                 && row.grantId == Some(grant.grantId) && row.task == key.task && row.tool == key.tool
                 && row.outcome == Authorized && row.createdAt == clock.logAt
            else r.Failure? && next == db
  {
  }

  // ----- settle -----

  /** Rate and maximum of a tool whose pricing can be read: zero for one that is not metered. */
  predicate MeteredAt(pricing: ToolPricing, rate: nat, maximum: nat) {
    (pricing == Unmetered && rate == 0 && maximum == 0) || (pricing == Metered(rate, maximum) && rate > 0 && maximum > 0)
  }

  lemma QuoteIsMetered(pricing: ToolPricing)
    ensures MeteredQuote(pricing).Some? <==> exists rate, maximum :: MeteredAt(pricing, rate, maximum)
    ensures forall rate, maximum :: MeteredAt(pricing, rate, maximum)
              ==> MeteredQuote(pricing).Some? && MeteredQuote(pricing).value.1 == rate && MeteredQuote(pricing).value.2 == maximum
  {
    match pricing
    case Metered(rate, maximum) => assert rate > 0 && maximum > 0 ==> MeteredAt(pricing, rate, maximum);
    case Unmetered => assert MeteredAt(pricing, 0, 0);
    case Malformed =>
  }

  /** Only the outcome of the log is written. */
  ghost predicate OnlyOutcome(db: Db, next: Db, invocation: nat, outcome: Outcome)
    requires invocation < |db.logs|
  {
    next == db.(logs := db.logs[invocation := db.logs[invocation].(outcome := outcome)])
  }

  /** The record is settled for these units: at the fixed cost and the least whole cents worth the
      units, which must not be above what it holds. */
  ghost predicate SettledFor(record: QuotaRecord, row: QuotaRecord, rate: nat, fixedCents: nat, units: nat) {
    && row == record.(amount := row.amount, units := Some(units), settled := true)
    && fixedCents <= row.amount <= record.amount
    && rate * units <= 10000 * (row.amount - fixedCents) < rate * units + 10000
  }

  /** The record may be settled for these units. */
  predicate Settleable(record: QuotaRecord, rate: nat, maximum: nat, fixedCents: nat, units: int) {
    && !record.settled && 0 <= units <= maximum && fixedCents <= record.amount
    && rate * units <= 10000 * (record.amount - fixedCents)
  }

  /** A grant without a record costs nothing: only the log is written. */
  lemma FreeCallExactly(db: Db, tool: ToolRow, invocation: nat, grantId: nat, units: Option<int>)
    requires invocation < |db.logs| && forall i :: 0 <= i < |db.records| ==> db.records[i].source != FromTool(grantId)
    ensures var (next, ok) := SettleTx(db, tool, invocation, grantId, units);
            ok && OnlyOutcome(db, next, invocation, Succeeded)
  {
  }

  /** The first record of the grant. */
  predicate FirstRecord(db: Db, grantId: nat, r: nat) {
    && r < |db.records| && db.records[r].source == FromTool(grantId)
    && forall i :: 0 <= i < r ==> db.records[i].source != FromTool(grantId)
  }

  lemma {:induction false} FirstRecordFound(records: seq<QuotaRecord>, grantId: nat, r: nat)
    requires r < |records| && records[r].source == FromTool(grantId)
    requires forall i :: 0 <= i < r ==> records[i].source != FromTool(grantId)
    ensures RecordOf(records, grantId) == Some(r)
  {
    if r < |records| - 1 {
      FirstRecordFound(records[..|records| - 1], grantId, r);
    }
  }

  /** A metered call without trusted usage keeps its reservation. Any other call settles its first
      record exactly when the usage fits; otherwise, or when the pricing cannot be read, it raises
      and leaves every table as it was. */
  lemma PaidCallExactly(db: Db, tool: ToolRow, invocation: nat, grantId: nat, units: Option<int>, r: nat)
    requires invocation < |db.logs| && FirstRecord(db, grantId, r)
    ensures var (next, ok) := SettleTx(db, tool, invocation, grantId, units);
            && (ok <==> exists rate, maximum :: MeteredAt(tool.pricing, rate, maximum)
                          && ((rate > 0 && units == None) || Settleable(db.records[r], rate, maximum, tool.fixedCents, UsedUnits(units))))
            && (!ok ==> next == db)
            && forall rate, maximum :: ok && MeteredAt(tool.pricing, rate, maximum) ==>
                 if rate > 0 && units == None then OnlyOutcome(db, next, invocation, Succeeded)
                 else
                   && |next.records| == |db.records| && next.records == db.records[r := next.records[r]]
                   && OnlyOutcome(db.(records := next.records), next, invocation, Succeeded)
                   && UsedUnits(units) >= 0 && SettledFor(db.records[r], next.records[r], rate, tool.fixedCents, UsedUnits(units))
  {
    FirstRecordFound(db.records, grantId, r);
    QuoteIsMetered(tool.pricing);
    if MeteredQuote(tool.pricing).Some? {
      var rate, maximum := MeteredQuote(tool.pricing).value.1, MeteredQuote(tool.pricing).value.2;
      assert MeteredAt(tool.pricing, rate, maximum);
      PaidCallAt(db, tool, invocation, grantId, units, r, rate, maximum);
    }
  }

  lemma PaidCallAt(db: Db, tool: ToolRow, invocation: nat, grantId: nat, units: Option<int>, r: nat, rate: nat, maximum: nat)
    requires invocation < |db.logs| && r < |db.records| && RecordOf(db.records, grantId) == Some(r)
    requires MeteredQuote(tool.pricing).Some? && MeteredQuote(tool.pricing).value.1 == rate && MeteredQuote(tool.pricing).value.2 == maximum
    ensures var (next, ok) := SettleTx(db, tool, invocation, grantId, units);
            if rate > 0 && units == None then ok && OnlyOutcome(db, next, invocation, Succeeded)
            else if Settleable(db.records[r], rate, maximum, tool.fixedCents, UsedUnits(units)) then
              && ok && |next.records| == |db.records| && next.records == db.records[r := next.records[r]]
              && OnlyOutcome(db.(records := next.records), next, invocation, Succeeded)
              && UsedUnits(units) >= 0 && SettledFor(db.records[r], next.records[r], rate, tool.fixedCents, UsedUnits(units))
            else !ok && next == db
  {
    SettledRecordsOf(db.records, tool, grantId, units, r);
    SettledTables(db, tool, invocation, grantId, units);
    SettleRecordExactly(db.records, r, UsedUnits(units), rate, maximum, tool.fixedCents);
  }

  lemma SettleRecordExactly(records: seq<QuotaRecord>, r: nat, units: int, rate: nat, maximum: nat, fixedCents: nat)
    requires r < |records|
    ensures var settled := SettleRecord(records, r, units, rate, maximum, fixedCents);
            if Settleable(records[r], rate, maximum, fixedCents, units) then
              && settled.Some? && |settled.value| == |records| && settled.value == records[r := settled.value[r]]
              && units >= 0 && SettledFor(records[r], settled.value[r], rate, fixedCents, units)
            else settled == None
  {
    if 0 <= units {
      MeteredCentsIsCeiling(rate, units, records[r].amount - fixedCents);
      MeteredCentsIsCeiling(rate, units, MeteredCents(rate, units));
      MeteredCentsIsCeiling(rate, units, MeteredCents(rate, units) - 1);
    }
  }

  /** A handler that fails leaves the error in its log and the reservation where it was. */
  lemma FailedCallExactly(db: Db, invocation: nat)
    requires invocation < |db.logs|
    ensures OnlyOutcome(db, HandlerErrorTx(db, invocation), invocation, Errored)
  {
  }

  // ----- replies to any paid call -----

  /** A report within the bounds of the call whose price is above the reservation quarantines the node
      and leaves the records; one whose record is settled already writes nothing. */
  lemma UnusualReplies(db: Db, call: PaidCall, promptUnits: nat, completionUnits: nat)
    requires promptUnits <= call.promptBound && completionUnits <= call.outputLimit
    ensures var (next, outcome) := UpstreamReplyTx(db, call, Some((promptUnits, completionUnits)));
            && (CallCents(call.quote, promptUnits, completionUnits) > call.reservedCents as real ==>
                  outcome == ChargeOverReservation && next == db.(quarantined := db.quarantined + {call.node}))
            && (CallCents(call.quote, promptUnits, completionUnits) <= call.reservedCents as real ==> outcome.Settled?)
            && (outcome.Settled? && call.record < |db.records| && db.records[call.record].settled ==> next == db)
  {
    CeilingIsLeast(CallCents(call.quote, promptUnits, completionUnits), call.reservedCents);
    SettledModelCentsMonotone(call.quote, promptUnits, completionUnits, promptUnits, completionUnits);
  }

  // ----- budgets -----

  /** A budget is set exactly for a task that was found open, to a whole number of cents that is not
      negative, and only for the one period. */
  lemma SetBudgetExactly(db: Db, found: Option<TaskRow>, task: string, period: Period, amountUsd: real)
    ensures var (next, r) := SetBudgetTx(db, found, task, period, amountUsd);
            && (r.Success? <==> found.Some? && !found.value.terminal && exists cents: nat :: amountUsd == Dollars(cents))
            && (r.Success? ==> amountUsd == Dollars(r.value) && next == db.(budgets := db.budgets[(task, period) := r.value]))
            && (r.Failure? ==> next == db)
  {
    var r := SetBudgetTx(db, found, task, period, amountUsd).1;
    if r.Success? {
      UsdToCentsExact(amountUsd, r.value);
      assert amountUsd == Dollars(r.value);
    }
    if cents: nat :| amountUsd == Dollars(cents) {
      UsdToCentsExact(amountUsd, cents);
    }
  }

  // ----- one whole call -----

  /** The tool is active and has a handler. */
  predicate Registered(db: Db, handlers: set<string>, key: Key) {
    key.tool in db.tools && db.tools[key.tool].active && key.tool in handlers
  }

  /** What a call makes of a grant it holds: it is redeemed, its handler runs, and its reservation is
      settled or kept. */
  ghost predicate RunsGrant(db: Db, signed: set<Grant>, tool: ToolRow, grant: Grant, key: Key, run: HandlerRun, clock: RedeemClock,
                            next: Db, r: InvokeResult)
  {
    var (redeemed, invocation) := RedeemTx(db, signed, grant, key, clock);
    if invocation.Failure? then r == RedeemFailed(invocation.error) && next == db
    else if run == HandlerFailed then r == ExecutionFailed && next == HandlerErrorTx(redeemed, invocation.value)
    else
      var (settled, ok) := SettleTx(redeemed, tool, invocation.value, grant.grantId, run.units);
      next == settled && r == if ok then Executed else UsageOutOfBounds
  }

  /** A call of a tool that is not registered, or with arguments that do not fit, touches nothing. A
      call that brings no grant gets one for sixty seconds first, or ends with the answer of the issue. */
  lemma InvokeExactly(db: Db, signed: set<Grant>, config: Config, handlers: set<string>, key: Key, offered: Option<Grant>,
                      validArgs: bool, run: HandlerRun, policy: Policy, signature: string, issueClock: IssueClock, redeemClock: RedeemClock)
    ensures var (next, signedAfter, r) := InvokeTx(db, signed, config, handlers, key, offered, validArgs, run, policy, signature,
                                                   issueClock, redeemClock);
            if !Registered(db, handlers, key) then r == NotRegistered && next == db && signedAfter == signed
            else if !validArgs then r == ArgumentsInvalid && next == db && signedAfter == signed
            else if offered.Some? then
              signedAfter == signed && RunsGrant(db, signed, db.tools[key.tool], offered.value, key, run, redeemClock, next, r)
            else
              var (issued, outcome) := IssueTx(db, config, key, 60, policy, signature, issueClock);
              if outcome.Granted? then
                && signedAfter == signed + {outcome.grant}
                && RunsGrant(issued, signedAfter, db.tools[key.tool], outcome.grant, key, run, redeemClock, next, r)
              else r == IssueFailed(outcome) && next == issued && signedAfter == signed
  {
  }
}
