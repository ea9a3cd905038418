/** When an issue grants and when a paid call is admitted, stated over the columns of the tables
    and the answers of the policy rather than in the order in which the code looks at them. */
module AdmissionRules {
  import opened Wrappers
  import opened Calendar
  import opened Pricing
  import opened Registry
  import opened Ledger
  import opened GovernanceService

  // ----- what a cost needs from the budgets -----

  /** The cost is positive, the task has a budget, and each budget it has covers the cost on top of
      what the task spent in the current window of its period. */
  ghost predicate Covered(db: Db, task: string, cost: nat, now: Instant) {
    && cost > 0
    && (exists period :: (task, period) in db.budgets)
    && (forall period :: (task, period) in db.budgets ==>
          Spent(db.records, task, PeriodStart(now, period)) + cost <= db.budgets[(task, period)])
  }

  lemma CoveredNeedsNobody(db: Db, task: string, cost: nat, now: Instant)
    ensures BudgetRequiresApproval(db, task, cost, now) <==> !Covered(db, task, cost, now)
  {
    if !BudgetRequiresApproval(db, task, cost, now) {
      forall period | (task, period) in db.budgets
        ensures Spent(db.records, task, PeriodStart(now, period)) + cost <= db.budgets[(task, period)]
      {
        assert !Exceeds(db, task, period, cost, now);
      }
    }
  }

  // ----- what an issue needs -----

  /** The task is open, the tool active, and the tool may be seen from the task. */
  ghost predicate Known(db: Db, key: Key) {
    && key.task in db.tasks && !db.tasks[key.task].terminal
    && key.tool in db.tools && db.tools[key.tool].active
    && Shared(db.shares, db.tools[key.tool].ownerOrg, db.tasks[key.task].org, ToolKind, key.tool)
  }

  /** The profile under which a task runs: its own if profiles are configured, else the default. */
  predicate RunsUnder(config: Config, name: string, profile: Profile) {
    match config.profiles
    case None => profile == config.defaultProfile
    case Some(profiles) => name in profiles && profiles[name] == profile
  }

  predicate CostsMoney(tool: ToolRow) {
    || tool.isFinancial
    || tool.providerTier == Some("external_paid") || tool.providerTier == Some("private_rented")
    || tool.effectClass == Some("external_mutation") || tool.effectClass == Some("billing_impact")
    || tool.fixedCents > 0
    || tool.pricing != Unmetered
  }

  /** The worst case of one invocation in cents: the fixed cost and the least whole cents worth the
      maximum usage. */
  predicate WorstCase(tool: ToolRow, cents: nat) {
    match tool.pricing
    case Unmetered => cents == tool.fixedCents
    case Malformed => false
    case Metered(rate, maximum) =>
      rate > 0 && maximum > 0 && rate * maximum <= 10000 * (cents - tool.fixedCents) < rate * maximum + 10000
  }

  /** Reading is free, writing needs a sandbox, anything higher needs the policy's permission. */
  predicate Permitted(tier: nat, profile: Profile, policy: Policy) {
    || tier == 0
    || (tier == 1 && profile.worktreeSandbox)
    || (tier == 2 && (profile.grantMode == AutoGrant
                      || (policy.evaluator.Some? && policy.evaluator.value.permit)
                      || (policy.evaluator.None? && policy.highRisk)))
  }

  /** A person has to have approved these very arguments. `cost` is the worst case of a tool that
      costs money. */
  ghost predicate NeedsPerson(db: Db, key: Key, tool: ToolRow, profile: Profile, policy: Policy, cost: nat, now: Instant) {
    && tool.effectTier == 2
    && (|| profile.grantMode == StrictEd25519
        || (CostsMoney(tool) && !Covered(db, key.task, cost, now))
        || (profile.grantMode != AutoGrant && policy.evaluator.Some? && policy.evaluator.value.requireHumanApproval)
        || policy.approval)
  }

  /** An operator approved this very key, nobody has used that yet, and it has not run out. */
  predicate UsableFor(approval: Approval, key: Key, now: Instant) {
    approval.key == key && !approval.consumed && now < approval.expiresAt
  }

  ghost predicate HasApproval(db: Db, key: Key, now: Instant) {
    exists i :: 0 <= i < |db.approvals| && UsableFor(db.approvals[i], key, now)
  }

  lemma ApprovalFound(db: Db, key: Key, now: Instant)
    ensures EarliestLive(db.approvals, key, now).Some? <==> HasApproval(db, key, now)
  {
    var r := EarliestLive(db.approvals, key, now);
    if i :| 0 <= i < |db.approvals| && UsableFor(db.approvals[i], key, now) {
      assert LiveApproval(db.approvals[i], key, now);
    }
    if r.Some? {
      assert UsableFor(db.approvals[r.value], key, now);
    }
  }

  /** What a grant needs from the tool, the profile and the policy. */
  ghost predicate Grantable(db: Db, key: Key, profile: Profile, policy: Policy, cost: nat, clock: IssueClock)
    requires key.tool in db.tools
  {
    var tool := db.tools[key.tool];
    && (CostsMoney(tool) ==> tool.effectTier == 2)
    && Permitted(tool.effectTier, profile, policy)
    && (NeedsPerson(db, key, tool, profile, policy, cost, clock.assessAt) ==> HasApproval(db, key, clock.approveAt))
    && (profile.grantMode == StrictEd25519 && tool.effectTier > 0 ==> profile.worktreeSandbox)
  }

  /** The profile is the one in force; the cost is the worst case, if the tool costs money. */
  ghost predicate InForce(db: Db, config: Config, key: Key, profile: Profile, cost: nat) {
    && Known(db, key) && RunsUnder(config, db.tasks[key.task].profile, profile)
    && (CostsMoney(db.tools[key.tool]) ==> WorstCase(db.tools[key.tool], cost))
  }

  lemma WorstCaseIsCost(tool: ToolRow, cost: nat)
    ensures WorstCase(tool, cost) <==> ToolCost(tool) == Some(cost)
  {
    match tool.pricing
    case Metered(rate, maximum) =>
      if rate > 0 && maximum > 0 {
        MeteredCentsIsCeiling(rate, maximum, cost - tool.fixedCents);
        MeteredCentsIsCeiling(rate, maximum, cost - tool.fixedCents - 1);
      }
    case _ =>
  }

  lemma AllowedExactlyWhenGrantable(db: Db, config: Config, key: Key, profile: Profile, policy: Policy, cost: nat, clock: IssueClock)
    requires InForce(db, config, key, profile, cost)
    ensures Grantable(db, key, profile, policy, cost, clock)
            <==> Admit(db, config, key, policy, clock).Decide? && Admit(db, config, key, policy, clock).allowed
    ensures Grantable(db, key, profile, policy, cost, clock) ==>
              var admission := Admit(db, config, key, policy, clock);
              && (admission.approvalRequired <==> NeedsPerson(db, key, db.tools[key.tool], profile, policy, cost, clock.assessAt))
              && (admission.approved.Some? <==> admission.approvalRequired)
              && (admission.spend.financial <==> CostsMoney(db.tools[key.tool]))
              && (admission.spend.financial ==> admission.spend.cost == cost)
  {
    ApprovalFound(db, key, clock.approveAt);
    CoveredNeedsNobody(db, key.task, cost, clock.assessAt);
    WorstCaseIsCost(db.tools[key.tool], cost);
  }

  lemma UnknownIsRefused(db: Db, config: Config, key: Key, policy: Policy, clock: IssueClock)
    ensures Admit(db, config, key, policy, clock).Decide? ==>
              exists profile, cost :: InForce(db, config, key, profile, cost)
  {
    if Admit(db, config, key, policy, clock).Decide? {
      var tool := db.tools[key.tool];
      var profile := ProfileFor(config, db.tasks[key.task].profile).value;
      var cost := if IsFinancial(tool) then ToolCost(tool).value else 0;
      WorstCaseIsCost(tool, cost);
      assert InForce(db, config, key, profile, cost);
    }
  }

  /** An issue grants exactly when its ttl is in range and, for the profile in force and the worst
      case of the tool, everything a grant needs is there. */
  lemma GrantedExactlyWhen(db: Db, config: Config, key: Key, ttlSeconds: int, policy: Policy, signature: string, clock: IssueClock)
    ensures IssueTx(db, config, key, ttlSeconds, policy, signature, clock).1.Granted?
            <==> 1 <= ttlSeconds <= 300
                 && exists profile, cost :: InForce(db, config, key, profile, cost) && Grantable(db, key, profile, policy, cost, clock)
  {
    UnknownIsRefused(db, config, key, policy, clock);
    forall profile, cost | InForce(db, config, key, profile, cost)
      ensures Grantable(db, key, profile, policy, cost, clock)
              <==> Admit(db, config, key, policy, clock).Decide? && Admit(db, config, key, policy, clock).allowed
    {
      AllowedExactlyWhenGrantable(db, config, key, profile, policy, cost, clock);
    }
  }

  /** The grant and its row are new, on this key, for these seconds, under this signature, and follow
      from the permit decision made with them. */
  predicate NewlyGranted(db: Db, next: Db, grant: Grant, key: Key, ttlSeconds: int, signature: string, stampAt: Instant) {
    && grant.grantId == |db.grants| && grant.decisionId == |db.decisions| && grant.key == key && grant.signature == signature
    && grant.issuedAt == stampAt && grant.expiresAt == stampAt + ttlSeconds * 1_000_000
    && next.decisions == db.decisions + [Decision(key, true, stampAt)]
    && next.grants == db.grants + [GrantRow(grant.decisionId, key, signature, Issued, stampAt, grant.expiresAt)]
  }

  /** The approval that is used up is live, for this very key, and no live one for it expires earlier. */
  ghost predicate Consumes(db: Db, next: Db, approval: Option<nat>, key: Key, now: Instant) {
    if approval == None then next.approvals == db.approvals
    else
      var a := approval.value;
      && a < |db.approvals| && UsableFor(db.approvals[a], key, now)
      && (forall i :: 0 <= i < |db.approvals| && UsableFor(db.approvals[i], key, now) ==>
            db.approvals[a].expiresAt <= db.approvals[i].expiresAt)
      && next.approvals == db.approvals[a := db.approvals[a].(consumed := true)]
  }

  /** A granted issue makes a decision and a grant, consumes an approval exactly when a person was
      needed, reserves the worst case exactly when the tool costs money, and keeps the other tables. */
  lemma GrantEffects(db: Db, config: Config, key: Key, ttlSeconds: int, policy: Policy, signature: string, clock: IssueClock,
                     profile: Profile, cost: nat)
    requires InForce(db, config, key, profile, cost)
    ensures var (next, outcome) := IssueTx(db, config, key, ttlSeconds, policy, signature, clock);
            outcome.Granted? ==>
              && NewlyGranted(db, next, outcome.grant, key, ttlSeconds, signature, clock.stampAt)
              && (outcome.approval.Some? <==> NeedsPerson(db, key, db.tools[key.tool], profile, policy, cost, clock.assessAt))
              && Consumes(db, next, outcome.approval, key, clock.approveAt)
              && next.records == db.records
                   + (if CostsMoney(db.tools[key.tool]) then [QuotaRecord(key.task, FromTool(|db.grants|), cost, cost, None, false, clock.stampAt)]
                      else [])
              && next == db.(decisions := next.decisions, grants := next.grants, approvals := next.approvals, records := next.records)
  {
    AllowedExactlyWhenGrantable(db, config, key, profile, policy, cost, clock);
    EarliestIsLive(db, key, clock.approveAt);
  }

  lemma EarliestIsLive(db: Db, key: Key, now: Instant)
    ensures var a := EarliestLive(db.approvals, key, now);
            a.Some? ==>
              && a.value < |db.approvals| && UsableFor(db.approvals[a.value], key, now)
              && (forall i :: 0 <= i < |db.approvals| && UsableFor(db.approvals[i], key, now) ==>
                    db.approvals[a.value].expiresAt <= db.approvals[i].expiresAt)
  {
    var a := EarliestLive(db.approvals, key, now);
    forall i | a.Some? && 0 <= i < |db.approvals| && UsableFor(db.approvals[i], key, now)
      ensures db.approvals[a.value].expiresAt <= db.approvals[i].expiresAt
    {
      assert LiveApproval(db.approvals[i], key, now);
    }
  }

  /** An issue that is not granted leaves at most a deny decision: it is denied exactly when the
      ttl is in range, everything is in force, and a tool that costs money is of tier 2. */
  lemma DeniedExactlyWhen(db: Db, config: Config, key: Key, ttlSeconds: int, policy: Policy, signature: string, clock: IssueClock)
    ensures var (next, outcome) := IssueTx(db, config, key, ttlSeconds, policy, signature, clock);
            && (outcome.Denied?
                <==> 1 <= ttlSeconds <= 300
                     && exists profile, cost :: InForce(db, config, key, profile, cost) && !Grantable(db, key, profile, policy, cost, clock)
                                                && (CostsMoney(db.tools[key.tool]) ==> db.tools[key.tool].effectTier == 2))
            && (outcome.Denied? ==> next == db.(decisions := db.decisions + [Decision(key, false, clock.stampAt)]))
            && (outcome.Refused? ==> next == db)
  {
    UnknownIsRefused(db, config, key, policy, clock);
    forall profile, cost | InForce(db, config, key, profile, cost)
      ensures Grantable(db, key, profile, policy, cost, clock)
              <==> Admit(db, config, key, policy, clock).Decide? && Admit(db, config, key, policy, clock).allowed
    {
      AllowedExactlyWhenGrantable(db, config, key, profile, policy, cost, clock);
    }
    forall profile, cost | InForce(db, config, key, profile, cost)
      ensures Admit(db, config, key, policy, clock).Decide? <==> (CostsMoney(db.tools[key.tool]) ==> db.tools[key.tool].effectTier == 2)
    {
      WorstCaseIsCost(db.tools[key.tool], cost);
    }
  }

  /** The first thing that an issue lacks is the reason of its refusal. */
  lemma RefusedExactlyFor(db: Db, config: Config, key: Key, ttlSeconds: int, policy: Policy, signature: string, clock: IssueClock)
    ensures var outcome := IssueTx(db, config, key, ttlSeconds, policy, signature, clock).1;
            if ttlSeconds < 1 || 300 < ttlSeconds then outcome == Refused(TtlOutOfRange)
            else if key.task !in db.tasks || db.tasks[key.task].terminal || key.tool !in db.tools || !db.tools[key.tool].active then
              outcome == Refused(UnknownTaskOrTool)
            else if !Known(db, key) then outcome == Refused(NotShared)
            else if forall profile :: !RunsUnder(config, db.tasks[key.task].profile, profile) then outcome == Refused(ProfileUnavailable)
            else if CostsMoney(db.tools[key.tool]) && forall cost: nat :: !WorstCase(db.tools[key.tool], cost) then
              outcome == Refused(PricingUnreadable)
            else if CostsMoney(db.tools[key.tool]) && db.tools[key.tool].effectTier != 2 then outcome == Refused(FinancialBelowTier2)
            else !outcome.Refused?
  {
    if Known(db, key) {
      var tool, profile := db.tools[key.tool], ProfileFor(config, db.tasks[key.task].profile);
      if profile.Some? {
        assert RunsUnder(config, db.tasks[key.task].profile, profile.value);
      }
      forall cost: nat | WorstCase(tool, cost) ensures ToolCost(tool) == Some(cost) {
        WorstCaseIsCost(tool, cost);
      }
      if ToolCost(tool).Some? {
        WorstCaseIsCost(tool, ToolCost(tool).value);
      }
    }
  }

  // ----- what a paid call needs -----

  /** The price of a call in cents by the price list. */
  function PriceCents(prices: PriceList, prompt: nat, output: nat): real {
    (prompt as real * prices.inputRate + output as real * prices.outputRate) / 10.0
  }

  /** The call stays within the token limit and the cap of the price list. */
  predicate Fits(prices: PriceList, prompt: nat, output: nat) {
    prompt + output <= prices.maxTotalTokens && PriceCents(prices, prompt, output) <= prices.maxCostUsd * 100.0
  }

  /** A paid call may be sent: the request is within the token limit, one output token fits, and the
      prompt alone costs less than the cap. */
  predicate Sendable(prices: PriceList, promptBound: nat, requestedOutput: int) {
    && 0 < requestedOutput <= prices.maxTotalTokens
    && Fits(prices, promptBound, 1) && PriceCents(prices, promptBound, 0) < prices.maxCostUsd * 100.0
  }

  lemma FitsIsAffordable(prices: PriceList, prompt: nat, output: nat)
    requires ModelQuote(prices).Some?
    ensures Fits(prices, prompt, output) <==> Affordable(ModelQuote(prices).value, prompt, output)
    ensures PriceCents(prices, prompt, output) == CallCents(ModelQuote(prices).value, prompt, output)
  {
    ModelQuoteExactly(prices, 0);
  }

  /** The output count and the reservation of an admitted call: the largest count that fits, and the
      least whole cents that cover it. */
  ghost predicate PricedBy(prices: PriceList, promptBound: nat, requestedOutput: int, output: nat, cents: nat) {
    && 0 < output <= requestedOutput && Fits(prices, promptBound, output)
    && (forall n: nat :: n <= requestedOutput && Fits(prices, promptBound, n) ==> n <= output)
    && (cents as real) - 1.0 < PriceCents(prices, promptBound, output) <= cents as real
  }

  lemma BoundIsPriced(prices: PriceList, promptBound: nat, requestedOutput: int)
    requires ModelQuote(prices).Some? && 0 < requestedOutput <= ModelQuote(prices).value.maxTotalTokens
    ensures var bounded := BoundedModelCall(ModelQuote(prices).value, promptBound, requestedOutput);
            && (bounded.Success? <==> Sendable(prices, promptBound, requestedOutput))
            && (bounded.Success? ==>
                  bounded.value.1 >= 0 && PricedBy(prices, promptBound, requestedOutput, bounded.value.0, bounded.value.1))
  {
    var quote := ModelQuote(prices).value;
    ModelQuoteExactly(prices, 0);
    AcceptedExactlyWhenAffordable(quote, promptBound, requestedOutput);
    FitsIsAffordable(prices, promptBound, 0);
    FitsIsAffordable(prices, promptBound, 1);
    var bounded := BoundedModelCall(quote, promptBound, requestedOutput);
    if bounded.Success? {
      var (output, cents) := bounded.value;
      FitsIsAffordable(prices, promptBound, output);
      AcceptedCallIsLargest(quote, promptBound, requestedOutput, 0);
      forall n: nat | n <= requestedOutput && Fits(prices, promptBound, n) ensures n <= output {
        FitsIsAffordable(prices, promptBound, n);
        AcceptedCallIsLargest(quote, promptBound, requestedOutput, n);
      }
      ReservationIsLeastBound(quote, promptBound, requestedOutput, cents, 0, 0);
      ReservationIsLeastBound(quote, promptBound, requestedOutput, cents - 1, 0, 0);
    }
  }

  /** Which answer an admission gives, and the reservation it makes. */
  lemma AdmittedExactlyWhen(db: Db, task: string, node: string, prices: PriceList, promptBound: nat, requestedOutput: int, clock: ReserveClock)
    ensures var (next, admitted) := AdmitPaidCall(db, task, node, prices, promptBound, requestedOutput, clock);
            && (admitted == Failure(PricingInvalid) <==> !Usable(prices))
            && (admitted == Failure(OutputUnbounded) <==> Usable(prices) && !(0 < requestedOutput <= prices.maxTotalTokens))
            && (admitted.Success? || admitted == Failure(BudgetRefused) <==> Usable(prices) && Sendable(prices, promptBound, requestedOutput))
            && (admitted.Failure? ==> next == db)
            && (admitted.Success? ==>
                  var call := admitted.value;
                  && call.node == node && call.promptBound == promptBound && call.record == |db.records| && call.reservedCents >= 0
                  && PricedBy(prices, promptBound, requestedOutput, call.outputLimit, call.reservedCents)
                  && Covered(db, task, call.reservedCents, clock.assessAt)
                  && next == db.(records := db.records + [QuotaRecord(task, FromModel(node), call.reservedCents, call.reservedCents,
                                                                      None, false, clock.stampAt)]))
            && (admitted == Failure(BudgetRefused) ==>
                  exists output: nat, cents: nat :: PricedBy(prices, promptBound, requestedOutput, output, cents)
                                                    && !Covered(db, task, cents, clock.assessAt))
  {
    ModelQuoteExactly(prices, 0);
    if Usable(prices) && 0 < requestedOutput <= prices.maxTotalTokens {
      BoundIsPriced(prices, promptBound, requestedOutput);
      var bounded := BoundedModelCall(ModelQuote(prices).value, promptBound, requestedOutput);
      if bounded.Success? {
        var (output, cents) := bounded.value;
        CoveredNeedsNobody(db, task, cents, clock.assessAt);
        assert PricedBy(prices, promptBound, requestedOutput, output, cents);
      }
    }
  }

  lemma PricedOnce(prices: PriceList, promptBound: nat, requestedOutput: int, output: nat, cents: nat, output': nat, cents': nat)
    requires PricedBy(prices, promptBound, requestedOutput, output, cents) && PricedBy(prices, promptBound, requestedOutput, output', cents')
    ensures output == output' && cents == cents'
  {
  }

  /** A call that may be sent, at the cents it costs, is refused for budget exactly when its task has no
      budget, it costs nothing, or in the current window of some budgeted period the task would have
      spent more than the budget. */
  lemma RefusedForBudgetExactlyWhen(db: Db, task: string, node: string, prices: PriceList, promptBound: nat, requestedOutput: int,
                                    clock: ReserveClock, output: nat, cents: nat)
    requires Usable(prices) && Sendable(prices, promptBound, requestedOutput)
    requires PricedBy(prices, promptBound, requestedOutput, output, cents)
    ensures AdmitPaidCall(db, task, node, prices, promptBound, requestedOutput, clock).1 == Failure(BudgetRefused)
            <==> || (forall period :: (task, period) !in db.budgets)
                 || cents == 0
                 || exists period :: (task, period) in db.budgets
                                     && Spent(db.records, task, PeriodStart(clock.assessAt, period)) + cents > db.budgets[(task, period)]
  {
    AdmittedExactlyWhen(db, task, node, prices, promptBound, requestedOutput, clock);
    var admitted := AdmitPaidCall(db, task, node, prices, promptBound, requestedOutput, clock).1;
    if admitted.Success? {
      PricedOnce(prices, promptBound, requestedOutput, output, cents, admitted.value.outputLimit, admitted.value.reservedCents);
    } else {
      var output', cents' :| PricedBy(prices, promptBound, requestedOutput, output', cents')
                             && !Covered(db, task, cents', clock.assessAt);
      PricedOnce(prices, promptBound, requestedOutput, output, cents, output', cents');
    }
  }

  /** The reply to an admitted call settles exactly for reports within the admitted counts, at the
      price of its own counts rounded up; any other report quarantines the node. */
  lemma ReplyExactlyWhen(db: Db, next: Db, task: string, node: string, prices: PriceList, promptBound: nat, requestedOutput: int,
                         clock: ReserveClock, usage: Usage)
    requires AdmitPaidCall(db, task, node, prices, promptBound, requestedOutput, clock).1.Success?
    ensures var call := AdmitPaidCall(db, task, node, prices, promptBound, requestedOutput, clock).1.value;
            var (after, outcome) := UpstreamReplyTx(next, call, usage);
            if usage.Some? && 0 <= usage.value.0 <= promptBound && 0 <= usage.value.1 <= call.outputLimit then
              && outcome.Settled? && outcome.cents >= 0
              && outcome.cents as real - 1.0 < PriceCents(prices, usage.value.0, usage.value.1) <= outcome.cents as real
              && outcome.cents <= call.reservedCents
              && (call.record < |next.records| && !next.records[call.record].settled ==>
                    after == next.(records := next.records[call.record := next.records[call.record].(
                      amount := outcome.cents, units := Some(usage.value.0 + usage.value.1), settled := true)]))
            else outcome == BoundViolated && after == next.(quarantined := next.quarantined + {node})
  {
    var call := AdmitPaidCall(db, task, node, prices, promptBound, requestedOutput, clock).1.value;
    if WithinBounds(call, usage) {
      var (p, c) := usage.value;
      FitsIsAffordable(prices, p, c);
      ReservationIsLeastBound(call.quote, promptBound, requestedOutput, 0, p, c);
      CeilingIsLeast(CallCents(call.quote, p, c), SettledModelCents(call.quote, p, c));
      CeilingIsLeast(CallCents(call.quote, p, c), SettledModelCents(call.quote, p, c) - 1);
      SettledModelCentsMonotone(call.quote, p, c, p, c);
    }
  }
}
