/** Admission, single-use approvals and grants, tool dispatch and the paid model path, each
    block run statement by statement on a connection. */
module GovernanceService {
  import opened Wrappers
  import opened Calendar
  import opened Pricing
  import opened Registry
  import opened Ledger
  import opened Store

  method BudgetNeedsApproval(db: Db, task: string, cost: nat, now: Instant) returns (required: bool)
    ensures required <==> BudgetRequiresApproval(db, task, cost, now)
    ensures !required <==>
              && cost != 0
              && (exists period :: (task, period) in db.budgets)
              && (forall period :: (task, period) in db.budgets ==>
                    Spent(db.records, task, PeriodStart(now, period)) + cost <= db.budgets[(task, period)])
  {
    var budgets := set period: Period | (task, period) in db.budgets;
    if budgets == {} || cost == 0 {
      assert forall period :: (task, period) in db.budgets ==> period in budgets;
      return true;
    }
    while budgets != {}
      invariant forall period :: (task, period) in db.budgets && period !in budgets ==> !Exceeds(db, task, period, cost, now)
      invariant exists period :: (task, period) in db.budgets
      decreases budgets
    {
      var period :| period in budgets;
      var since := PeriodStart(now, period);
      var spent := Spent(db.records, task, since);
      if (task, period) in db.budgets && spent + cost > db.budgets[(task, period)] {
        assert Exceeds(db, task, period, cost, now);
        return true;
      }
      budgets := budgets - {period};
    }
    return false;
  }

  /** Whether a tool costs money, its worst-case cost, and whether a budget covers it. */
  method Assess(db: Db, task: string, tool: ToolRow, now: Instant) returns (r: Option<Assessment>)
    ensures r == AssessSpend(db, task, tool, now)
  {
    if !IsFinancial(tool) {
      return Some(Assessment(false, 0, false));
    }
    var quoted := MeteredQuote(tool.pricing);
    if quoted.None? {
      return None;
    }
    var cost := tool.fixedCents + quoted.value.0;
    var blocked := BudgetNeedsApproval(db, task, cost, now);
    return Some(Assessment(true, cost, blocked));
  }

  class Governance {
    const config: Config
    /** Every grant the signing key has signed. */
    var signed: set<Grant>

    constructor (config: Config)
      ensures this.config == config && signed == {}
    {
      this.config := config;
      signed := {};
    }

    method Approve(db: Connection<Db>, key: Key, approvedBy: string, ttlSeconds: int, now: Instant)
      returns (r: Result<nat, ApproveError>)
      requires !db.active
      modifies db
      ensures !db.active
      ensures (db.committed, r) == ApproveTx(old(db.committed), key, approvedBy, ttlSeconds, now)
    {
      if approvedBy == "" || !(1 <= ttlSeconds <= 3600) {
        return Failure(InvalidOperatorOrTtl);
      }
      db.Enter();
      r := Success(|db.working.approvals|);
      var row := Approval(key, now + ttlSeconds * SECOND, false, approvedBy);
      db.working := db.working.(approvals := db.working.approvals + [row]);
      db.Exit(false);
    }

    /** The reads and the verdict of one issue, before anything is written. */
    method Admission(db: Db, key: Key, policy: Policy, clock: IssueClock) returns (r: Admission)
      ensures r == Admit(db, config, key, policy, clock)
    {
      if key.task !in db.tasks || db.tasks[key.task].terminal || key.tool !in db.tools || !db.tools[key.tool].active {
        return Refuse(UnknownTaskOrTool);
      }
      var task, tool := db.tasks[key.task], db.tools[key.tool];
      if !VisibleTo(db.shares, tool.ownerOrg, task.org, ToolKind, key.tool) {
        return Refuse(NotShared);
      }
      var profile := config.defaultProfile;
      if config.profiles.Some? {
        if task.profile !in config.profiles.value {
          return Refuse(ProfileUnavailable);
        }
        profile := config.profiles.value[task.profile];
      }
      var tier := tool.effectTier;
      var assessed := Assess(db, key.task, tool, clock.assessAt);
      if assessed.None? {
        return Refuse(PricingUnreadable);
      }
      var spend := assessed.value;
      if spend.financial && tier != 2 {
        return Refuse(FinancialBelowTier2);
      }
      var allowed := tier == 0 || (tier == 1 && profile.worktreeSandbox);
      var annotationApproval := false;
      if tier == 2 {
        if profile.grantMode == AutoGrant {
          allowed := true;
        } else if policy.evaluator.Some? {
          allowed := policy.evaluator.value.permit;
          annotationApproval := policy.evaluator.value.requireHumanApproval;
        } else {
          allowed := policy.highRisk;
        }
      }
      var strict := profile.grantMode == StrictEd25519;
      var approvalRequired := tier == 2 && (strict || spend.approvalRequired || annotationApproval || policy.approval);
      var approved := None;
      if approvalRequired {
        approved := EarliestLive(db.approvals, key, clock.approveAt);
        allowed := allowed && approved.Some?;
      }
      if strict && tier > 0 {
        allowed := allowed && profile.worktreeSandbox;
      }
      return Decide(allowed, approvalRequired, approved, spend);
    }

    method Issue(db: Connection<Db>, key: Key, ttlSeconds: int, policy: Policy, signature: string, clock: IssueClock)
      returns (r: IssueOutcome)
      requires !db.active
      modifies db, this
      ensures !db.active
      ensures (db.committed, r) == IssueTx(old(db.committed), config, key, ttlSeconds, policy, signature, clock)
      ensures signed == if r.Granted? then old(signed) + {r.grant} else old(signed)
    {
      if !(1 <= ttlSeconds <= 300) {
        return Refused(TtlOutOfRange);
      }
      db.Enter();
      var admission := Admission(db.working, key, policy, clock);
      if admission.Refuse? {
        db.Exit(true);
        return Refused(admission.reason);
      }
      var Decide(allowed, approvalRequired, approved, spend) := admission;
      var decisionId := |db.working.decisions|;
      db.working := db.working.(decisions := db.working.decisions + [Decision(key, allowed, clock.stampAt)]);
      if !allowed {
        db.Commit();
        db.Exit(true);
        return Denied;
      }
      var grant := Grant(|db.working.grants|, decisionId, key, clock.stampAt, clock.stampAt + ttlSeconds * SECOND, signature);
      signed := signed + {grant};
      db.working := db.working.(grants := db.working.grants
        + [GrantRow(decisionId, key, signature, Issued, grant.issuedAt, grant.expiresAt)]);
      if approvalRequired {
        var approval := db.working.approvals[approved.value];
        if approval.consumed {
          assert false;  // the approval was selected unconsumed in this same block
        }
        db.working := db.working.(approvals := db.working.approvals[approved.value := approval.(consumed := true)]);
      }
      if spend.financial {
        db.working := db.working.(records := db.working.records
          + [QuotaRecord(key.task, FromTool(grant.grantId), spend.cost, spend.cost, None, false, clock.stampAt)]);
      }
      db.Commit();
      db.Exit(false);
      return Granted(grant, approved);
    }

    method Redeem(db: Connection<Db>, grant: Grant, key: Key, clock: RedeemClock) returns (r: Result<nat, RedeemError>)
      requires !db.active
      modifies db
      ensures !db.active
      ensures (db.committed, r) == RedeemTx(old(db.committed), signed, grant, key, clock)
    {
      if grant !in signed {
        return Failure(BadSignature);
      }
      if grant.key != key {
        return Failure(BindingMismatch);
      }
      if grant.expiresAt <= clock.verifyAt {
        return Failure(GrantExpired);
      }
      db.Enter();
      if key.task !in db.working.tasks || key.tool !in db.working.tools
         || !VisibleTo(db.working.shares, db.working.tools[key.tool].ownerOrg, db.working.tasks[key.task].org,
                       ToolKind, key.tool) {
        db.Exit(true);
        return Failure(ShareRevoked);
      }
      if !Redeemable(db.working, grant, clock.redeemAt) {
        db.Exit(true);
        return Failure(MissingExpiredOrUsed);
      }
      var row := db.working.grants[grant.grantId];
      db.working := db.working.(grants := db.working.grants[grant.grantId := row.(status := Redeemed)]);
      r := Success(|db.working.logs|);
      db.working := db.working.(logs := db.working.logs
        + [LogRow(Some(grant.grantId), key.task, key.tool, Authorized, clock.logAt)]);
      db.Commit();
      db.Exit(false);
    }
  }

  /** What a handler did: it failed, or it returned, with or without trusted usage. */
  datatype HandlerRun = HandlerFailed | HandlerReturned(units: Option<int>)

  datatype InvokeResult =
    | NotRegistered
    | ArgumentsInvalid
    | IssueFailed(outcome: IssueOutcome)
    | RedeemFailed(error: RedeemError)
    | ExecutionFailed
    | UsageOutOfBounds
    | Executed

  /** A call with no interference: issue if no grant is offered, redeem, run, settle. */
  function InvokeTx(db: Db, signed: set<Grant>, config: Config, handlers: set<string>, key: Key, offered: Option<Grant>,
                    validArgs: bool, run: HandlerRun, policy: Policy, signature: string,
                    issueClock: IssueClock, redeemClock: RedeemClock): (Db, set<Grant>, InvokeResult)
  {
    if key.tool !in db.tools || !db.tools[key.tool].active || key.tool !in handlers then (db, signed, NotRegistered)
    else if !validArgs then (db, signed, ArgumentsInvalid)
    else match offered
      case Some(grant) => RedeemAndRun(db, signed, db.tools[key.tool], grant, key, run, redeemClock)
      case None =>
        var (issued, outcome) := IssueTx(db, config, key, 60, policy, signature, issueClock);
        if !outcome.Granted? then (issued, signed, IssueFailed(outcome))
        else RedeemAndRun(issued, signed + {outcome.grant}, db.tools[key.tool], outcome.grant, key, run, redeemClock)
  }

  function RedeemAndRun(db: Db, signed: set<Grant>, tool: ToolRow, grant: Grant, key: Key, run: HandlerRun,
                        clock: RedeemClock): (Db, set<Grant>, InvokeResult)
  {
    match RedeemTx(db, signed, grant, key, clock)
    case (_, Failure(error)) => (db, signed, RedeemFailed(error))
    case (redeemed, Success(invocation)) =>
      match run
      case HandlerFailed => (HandlerErrorTx(redeemed, invocation), signed, ExecutionFailed)
      case HandlerReturned(units) =>
        var (settled, ok) := SettleTx(redeemed, tool, invocation, grant.grantId, units);
        (settled, signed, if ok then Executed else UsageOutOfBounds)
  }

  class ToolGateway {
    const governance: Governance
    var handlers: set<string>

    constructor (governance: Governance)
      ensures this.governance == governance && handlers == {}
    {
      this.governance := governance;
      handlers := {};
    }

    method RegisterHandler(tool: string)
      modifies this
      ensures handlers == old(handlers) + {tool}
    {
      handlers := handlers + {tool};
    }

    /** One uninterrupted call. `validArgs` and `run` are the answers of the schema and of the
        handler. The grant is issued here when the caller brings none. */
    method Invoke(db: Connection<Db>, key: Key, offered: Option<Grant>, validArgs: bool, run: HandlerRun,
                  policy: Policy, signature: string, issueClock: IssueClock, redeemClock: RedeemClock)
      returns (r: InvokeResult)
      requires !db.active
      modifies db, governance
      ensures !db.active
      ensures (db.committed, governance.signed, r)
           == InvokeTx(old(db.committed), old(governance.signed), governance.config, handlers, key, offered, validArgs,
                       run, policy, signature, issueClock, redeemClock)
    {
      db.Enter();
      var found := key.tool in db.working.tools;
      if !found || !db.working.tools[key.tool].active || key.tool !in handlers {
        db.Exit(false);
        return NotRegistered;
      }
      var row := db.working.tools[key.tool];
      db.Exit(false);
      if !validArgs {
        return ArgumentsInvalid;
      }
      var grant: Grant;
      if offered.Some? {
        grant := offered.value;
      } else {
        var outcome := governance.Issue(db, key, 60, policy, signature, issueClock);
        if !outcome.Granted? {
          return IssueFailed(outcome);
        }
        grant := outcome.grant;
      }
      var redeemed := governance.Redeem(db, grant, key, redeemClock);
      if redeemed.Failure? {
        return RedeemFailed(redeemed.error);
      }
      var invocation := redeemed.value;
      if run.HandlerFailed? {
        HandlerRaised(db, invocation);
        return ExecutionFailed;
      }
      var settled := Settle(db, row, invocation, grant.grantId, run.units);
      return if settled then Executed else UsageOutOfBounds;
    }

    method HandlerRaised(db: Connection<Db>, invocation: nat)
      requires !db.active && invocation < |db.committed.logs|
      modifies db
      ensures !db.active && db.committed == HandlerErrorTx(old(db.committed), invocation)
    {
      db.Enter();
      var row := db.working.logs[invocation];
      db.working := db.working.(logs := db.working.logs[invocation := row.(outcome := Errored)]);
      db.Exit(false);
    }

    /** The block after the handler returned. The usage mark is written and then lost, because
        the block is left by an exception. */
    method Settle(db: Connection<Db>, tool: ToolRow, invocation: nat, grantId: nat, units: Option<int>)
      returns (settled: bool)
      requires !db.active && invocation < |db.committed.logs|
      modifies db
      ensures !db.active
      ensures (db.committed, settled) == SettleTx(old(db.committed), tool, invocation, grantId, units)
    {
      db.Enter();
      var quota := RecordOf(db.working.records, grantId);
      if quota.Some? {
        var quoted := MeteredQuote(tool.pricing);
        var spendError := quoted.None?;
        if quoted.Some? {
          var (_, rate, maximum) := quoted.value;
          if rate == 0 || units.Some? {
            var actual := if units.Some? then units.value else 0;
            if !(0 <= actual <= maximum) {
              spendError := true;
            } else {
              var cents := tool.fixedCents + MeteredCents(rate, actual);
              var record := db.working.records[quota.value];
              if !record.settled && record.amount >= cents {
                db.working := db.working.(records := db.working.records[quota.value :=
                  record.(amount := cents, units := Some(actual), settled := true)]);
              } else {
                spendError := true;
              }
            }
          }
        }
        if spendError {
          var log := db.working.logs[invocation];
          db.working := db.working.(logs := db.working.logs[invocation := log.(outcome := UsageError)]);
          db.Exit(true);
          return false;
        }
      }
      var log := db.working.logs[invocation];
      db.working := db.working.(logs := db.working.logs[invocation := log.(outcome := Succeeded)]);
      db.Exit(false);
      return true;
    }
  }

  datatype ChatRefusal = PricingInvalid | OutputUnbounded | CallRejected(error: SpendError) | BudgetRefused

  /** The outcome of bounding and reserving a paid call. */
  function AdmitPaidCall(db: Db, task: string, node: string, prices: PriceList, promptBound: nat,
                         requestedOutput: int, clock: ReserveClock): (Db, Result<PaidCall, ChatRefusal>)
  {
    match ModelQuote(prices)
    case None => (db, Failure(PricingInvalid))
    case Some(quote) =>
      if !(0 < requestedOutput <= quote.maxTotalTokens) then (db, Failure(OutputUnbounded))
      else match BoundedModelCall(quote, promptBound, requestedOutput)
        case Failure(error) => (db, Failure(CallRejected(error)))
        case Success((output, cents)) =>
          ReservationIsLeastBound(quote, promptBound, requestedOutput, 0, 0, 0);
          match ReserveTx(db, task, node, cents, clock)
          case (_, None) => (db, Failure(BudgetRefused))
          case (reserved, Some(record)) =>
            (reserved, Success(PaidCall(node, quote, promptBound, output, cents, record)))
  }

  class ModelProxy {
    /** Bound and reserve a paid call; the call it returns is then sent upstream. */
    method Reserve(db: Connection<Db>, task: string, node: string, prices: PriceList, promptBound: nat,
                   requestedOutput: int, clock: ReserveClock)
      returns (r: Result<PaidCall, ChatRefusal>)
      requires !db.active
      modifies db
      ensures !db.active
      ensures (db.committed, r) == AdmitPaidCall(old(db.committed), task, node, prices, promptBound, requestedOutput, clock)
    {
      var quoted := ModelQuote(prices);
      if quoted.None? {
        return Failure(PricingInvalid);
      }
      var quote := quoted.value;
      if !(0 < requestedOutput <= quote.maxTotalTokens) {
        return Failure(OutputUnbounded);
      }
      var bounded := BoundedModelCall(quote, promptBound, requestedOutput);
      if bounded.Failure? {
        return Failure(CallRejected(bounded.error));
      }
      var (output, cents) := bounded.value;
      ReservationIsLeastBound(quote, promptBound, requestedOutput, 0, 0, 0);
      db.Enter();
      var blocked := BudgetNeedsApproval(db.working, task, cents, clock.assessAt);
      if blocked {
        db.Exit(true);
        return Failure(BudgetRefused);
      }
      var record := |db.working.records|;
      db.working := db.working.(records := db.working.records
        + [QuotaRecord(task, FromModel(node), cents, cents, None, false, clock.stampAt)]);
      db.Exit(false);
      return Success(PaidCall(node, quote, promptBound, output, cents, record));
    }

    /** Settle the reservation from the upstream's report, or quarantine the node. */
    method Reply(db: Connection<Db>, call: PaidCall, usage: Usage) returns (r: ChatOutcome)
      requires !db.active
      modifies db
      ensures !db.active
      ensures (db.committed, r) == UpstreamReplyTx(old(db.committed), call, usage)
    {
      if usage.None? || usage.value.0 < 0 || usage.value.1 < 0
         || usage.value.0 > call.promptBound || usage.value.1 > call.outputLimit {
        db.Enter();
        db.working := db.working.(quarantined := db.working.quarantined + {call.node});
        db.Exit(false);
        return BoundViolated;
      }
      var (promptUnits, completionUnits) := usage.value;
      SettledModelCentsMonotone(call.quote, promptUnits, completionUnits, promptUnits, completionUnits);
      var cents := SettledModelCents(call.quote, promptUnits, completionUnits);
      if cents > call.reservedCents {
        db.Enter();
        db.working := db.working.(quarantined := db.working.quarantined + {call.node});
        db.Exit(false);
        return ChargeOverReservation;
      }
      db.Enter();
      if call.record < |db.working.records| && !db.working.records[call.record].settled {
        var row := db.working.records[call.record];
        db.working := db.working.(records := db.working.records[call.record :=
          row.(amount := cents, units := Some(promptUnits + completionUnits), settled := true)]);
      }
      db.Exit(false);
      return Settled(cents);
    }
  }

  /** An operator sets the budget of one period. The task is read in a transaction of its own;
      `between` is what others have made of the tables when the write begins. */
  method SetBudget(db: Connection<Db>, between: Db, task: string, period: Period, amountUsd: real)
    returns (r: Result<nat, BudgetError>)
    requires !db.active
    modifies db
    ensures !db.active
    ensures (db.committed, r) == SetBudgetTx(between, TaskRowOf(old(db.committed), task), task, period, amountUsd)
  {
    db.Enter();
    var found := TaskRowOf(db.working, task);
    db.Exit(false);
    db.Others(between);
    if found.None? {
      return Failure(UnknownTask);
    }
    if found.value.terminal {
      return Failure(TaskTerminal);
    }
    var cents := UsdToCents(amountUsd);
    if cents.None? {
      return Failure(AmountInvalid);
    }
    db.Enter();
    db.working := db.working.(budgets := db.working.budgets[(task, period) := cents.value]);
    db.Commit();
    db.Exit(false);
    return Success(cents.value);
  }
}
