/** The spend and grant ledger: its tables, and each transaction on them as a function from
    the tables before to the tables after. A row's id is its position in the table; a row is
    never deleted. */
module Ledger {
  import opened Wrappers
  import opened Calendar
  import opened Pricing
  import opened Registry

  // ----- rows -----

  /** SHA-256 of canonical JSON, taken to be free of collisions. */
  datatype Digest = Sha256(canonicalJson: string)

  /** What a decision, an approval and a grant are bound to. */
  datatype Key = Key(task: string, principal: string, tool: string, args: Digest)

  datatype TaskRow = TaskRow(org: string, profile: string, terminal: bool)

  datatype ToolRow = ToolRow(ownerOrg: string, active: bool, effectTier: nat, isFinancial: bool,
                             providerTier: Option<string>, effectClass: Option<string>,
                             fixedCents: nat, pricing: ToolPricing)

  datatype Decision = Decision(key: Key, permit: bool, createdAt: Instant)

  datatype GrantStatus = Issued | Redeemed | LegacyExpired

  datatype GrantRow = GrantRow(decisionId: nat, key: Key, signature: string, status: GrantStatus,
                               issuedAt: Instant, expiresAt: Instant)

  /** The signed grant a caller holds. */
  datatype Grant = Grant(grantId: nat, decisionId: nat, key: Key, issuedAt: Instant, expiresAt: Instant,
                         signature: string)

  datatype Approval = Approval(key: Key, expiresAt: Instant, consumed: bool, approvedBy: string)

  datatype Source = FromTool(grantId: nat) | FromModel(node: string)

  datatype QuotaRecord = QuotaRecord(task: string, source: Source, amount: nat, reserved: nat,
                                     units: Option<int>, settled: bool, createdAt: Instant)

  datatype Outcome = Authorized | Succeeded | Errored | UsageError | Legacy(text: string)

  datatype LogRow = LogRow(grantId: Option<nat>, task: string, tool: string, outcome: Outcome, createdAt: Instant)

  datatype Db = Db(tasks: map<string, TaskRow>, tools: map<string, ToolRow>, shares: set<Share>,
                   decisions: seq<Decision>, grants: seq<GrantRow>, approvals: seq<Approval>,
                   budgets: map<(string, Period), nat>, records: seq<QuotaRecord>, logs: seq<LogRow>,
                   quarantined: set<string>)

  // ----- configuration and oracles -----

  datatype GrantMode = AutoGrant | RiskTiered | StrictEd25519

  datatype Profile = Profile(grantMode: GrantMode, worktreeSandbox: bool)

  datatype Config = Config(defaultProfile: Profile, profiles: Option<map<string, Profile>>)

  datatype Evaluation = Evaluation(permit: bool, requireHumanApproval: bool)

  /** The answers of the policy oracles for one request. */
  datatype Policy = Policy(evaluator: Option<Evaluation>, highRisk: bool, approval: bool)

  // ----- spend -----

  /** The cents of a task's records created at or after `since`, leaving some records out. */
  function SpentExcept(records: seq<QuotaRecord>, excluded: set<nat>, task: string, since: Instant): nat {
    if |records| == 0 then 0
    else
      var last := |records| - 1;
      SpentExcept(records[..last], excluded, task, since)
      + if last !in excluded && records[last].task == task && since <= records[last].createdAt
        then records[last].amount else 0
  }

  function Spent(records: seq<QuotaRecord>, task: string, since: Instant): nat {
    SpentExcept(records, {}, task, since)
  }

  /** The budget of one period would not cover the cost. */
  predicate Exceeds(db: Db, task: string, period: Period, cost: nat, now: Instant) {
    (task, period) in db.budgets
    && Spent(db.records, task, PeriodStart(now, period)) + cost > db.budgets[(task, period)]
  }

  predicate BudgetRequiresApproval(db: Db, task: string, cost: nat, now: Instant) {
    || (forall period :: (task, period) !in db.budgets)
    || cost == 0
    || exists period :: Exceeds(db, task, period, cost, now)
  }

  datatype Assessment = Assessment(financial: bool, cost: nat, approvalRequired: bool)

  predicate IsFinancial(tool: ToolRow) {
    || tool.isFinancial
    || tool.providerTier in {Some("external_paid"), Some("private_rented")}
    || tool.effectClass in {Some("external_mutation"), Some("billing_impact")}
    || tool.fixedCents != 0
    || !tool.pricing.Unmetered?
  }

  function ToolCost(tool: ToolRow): Option<nat> {
    match MeteredQuote(tool.pricing)
    case None => None
    case Some((cents, _, _)) => Some(tool.fixedCents + cents)
  }

  /** None is the error raised for pricing that cannot be read. */
  function AssessSpend(db: Db, task: string, tool: ToolRow, now: Instant): Option<Assessment> {
    if !IsFinancial(tool) then Some(Assessment(false, 0, false))
    else match ToolCost(tool)
      case None => None
      case Some(cost) => Some(Assessment(true, cost, BudgetRequiresApproval(db, task, cost, now)))
  }

  // ----- approvals -----

  predicate LiveApproval(approval: Approval, key: Key, now: Instant) {
    approval.key == key && !approval.consumed && approval.expiresAt > now
  }

  /** The live approval on a key that expires first. */
  function EarliestLive(approvals: seq<Approval>, key: Key, now: Instant): (r: Option<nat>)
    ensures r.Some? ==> r.value < |approvals| && LiveApproval(approvals[r.value], key, now)
    ensures forall i :: 0 <= i < |approvals| && LiveApproval(approvals[i], key, now) ==>
                          r.Some? && approvals[r.value].expiresAt <= approvals[i].expiresAt
  {
    if |approvals| == 0 then None
    else
      var last := |approvals| - 1;
      var best := EarliestLive(approvals[..last], key, now);
      if LiveApproval(approvals[last], key, now)
         && (best.None? || approvals[last].expiresAt < approvals[best.value].expiresAt)
      then Some(last) else best
  }

  datatype ApproveError = InvalidOperatorOrTtl

  function ApproveTx(db: Db, key: Key, approvedBy: string, ttlSeconds: int, now: Instant): (Db, Result<nat, ApproveError>) {
    if approvedBy == "" || !(1 <= ttlSeconds <= 3600) then (db, Failure(InvalidOperatorOrTtl))
    else
      (db.(approvals := db.approvals + [Approval(key, now + ttlSeconds * SECOND, false, approvedBy)]),
       Success(|db.approvals|))
  }

  // ----- issue -----

  datatype IssueRefusal =
    | TtlOutOfRange
    | UnknownTaskOrTool
    | NotShared
    | ProfileUnavailable
    | PricingUnreadable
    | FinancialBelowTier2

  /** The clock readings of one issue: for the budget, for the approvals, for the stamp. */
  datatype IssueClock = IssueClock(assessAt: Instant, approveAt: Instant, stampAt: Instant)

  datatype Admission =
    | Refuse(reason: IssueRefusal)
    | Decide(allowed: bool, approvalRequired: bool, approved: Option<nat>, spend: Assessment)

  datatype IssueOutcome =
    | Refused(reason: IssueRefusal)
    | Denied
    | Granted(grant: Grant, approval: Option<nat>)

  function ProfileFor(config: Config, name: string): Option<Profile> {
    match config.profiles
    case None => Some(config.defaultProfile)
    case Some(profiles) => if name in profiles then Some(profiles[name]) else None
  }

  /** The policy's answer before approvals are looked at, and whether it asks for a person. */
  function PolicyAllows(tier: nat, profile: Profile, policy: Policy): (bool, bool) {
    if tier == 2 then
      if profile.grantMode == AutoGrant then (true, false)
      else match policy.evaluator
        case Some(evaluation) => (evaluation.permit, evaluation.requireHumanApproval)
        case None => (policy.highRisk, false)
    else (tier == 0 || (tier == 1 && profile.worktreeSandbox), false)
  }

  function Admit(db: Db, config: Config, key: Key, policy: Policy, clock: IssueClock): Admission {
    if key.task !in db.tasks || db.tasks[key.task].terminal || key.tool !in db.tools || !db.tools[key.tool].active
    then Refuse(UnknownTaskOrTool)
    else
      var task, tool := db.tasks[key.task], db.tools[key.tool];
      if !VisibleTo(db.shares, tool.ownerOrg, task.org, ToolKind, key.tool) then Refuse(NotShared)
      else match ProfileFor(config, task.profile)
        case None => Refuse(ProfileUnavailable)
        case Some(profile) =>
          match AssessSpend(db, key.task, tool, clock.assessAt)
          case None => Refuse(PricingUnreadable)
          case Some(spend) =>
            if spend.financial && tool.effectTier != 2 then Refuse(FinancialBelowTier2)
            else
              var (permitted, annotated) := PolicyAllows(tool.effectTier, profile, policy);
              var strict := profile.grantMode == StrictEd25519;
              var approvalRequired := tool.effectTier == 2
                                      && (strict || spend.approvalRequired || annotated || policy.approval);
              var approved := if approvalRequired then EarliestLive(db.approvals, key, clock.approveAt) else None;
              Decide(permitted && (approvalRequired ==> approved.Some?)
                     && (strict && tool.effectTier > 0 ==> profile.worktreeSandbox),
                     approvalRequired, approved, spend)
  }

  /** The grant an admitted request receives. */
  function NewGrant(db: Db, key: Key, ttlSeconds: nat, stampAt: Instant, signature: string): Grant {
    Grant(|db.grants|, |db.decisions|, key, stampAt, stampAt + ttlSeconds * SECOND, signature)
  }

  function IssueTx(db: Db, config: Config, key: Key, ttlSeconds: int, policy: Policy, signature: string,
                   clock: IssueClock): (Db, IssueOutcome)
  {
    if !(1 <= ttlSeconds <= 300) then (db, Refused(TtlOutOfRange))
    else match Admit(db, config, key, policy, clock)
      case Refuse(reason) => (db, Refused(reason))
      case Decide(allowed, approvalRequired, approved, spend) =>
        var decided := db.(decisions := db.decisions + [Decision(key, allowed, clock.stampAt)]);
        if !allowed then (decided, Denied)
        else
          var grant := NewGrant(db, key, ttlSeconds, clock.stampAt, signature);
          var row := GrantRow(grant.decisionId, key, signature, Issued, grant.issuedAt, grant.expiresAt);
          (decided.(grants := db.grants + [row],
                    approvals := if approved.Some? && approved.value < |db.approvals|
                                 then db.approvals[approved.value := db.approvals[approved.value].(consumed := true)]
                                 else db.approvals,
                    records := if spend.financial
                               then db.records + [QuotaRecord(key.task, FromTool(grant.grantId), spend.cost, spend.cost,
                                                              None, false, clock.stampAt)]
                               else db.records),
           Granted(grant, approved))
  }

  // ----- redeem -----

  datatype RedeemError =
    | BadSignature
    | BindingMismatch
    | GrantExpired
    | ShareRevoked
    | MissingExpiredOrUsed

  datatype RedeemClock = RedeemClock(verifyAt: Instant, redeemAt: Instant, logAt: Instant)

  /** The row that the update of redeem matches. */
  predicate Redeemable(db: Db, grant: Grant, now: Instant) {
    && grant.grantId < |db.grants|
    && var row := db.grants[grant.grantId];
       row.decisionId == grant.decisionId && row.signature == grant.signature && row.status == Issued
       && row.expiresAt > now
  }

  predicate ToolVisibleToTask(db: Db, key: Key) {
    && key.task in db.tasks && key.tool in db.tools
    && VisibleTo(db.shares, db.tools[key.tool].ownerOrg, db.tasks[key.task].org, ToolKind, key.tool)
  }

  /** `signed` holds every grant the signing key has signed; nothing else verifies. */
  function RedeemTx(db: Db, signed: set<Grant>, grant: Grant, key: Key, clock: RedeemClock): (Db, Result<nat, RedeemError>) {
    if grant !in signed then (db, Failure(BadSignature))
    else if grant.key != key then (db, Failure(BindingMismatch))
    else if grant.expiresAt <= clock.verifyAt then (db, Failure(GrantExpired))
    else if !ToolVisibleToTask(db, key) then (db, Failure(ShareRevoked))
    else if !Redeemable(db, grant, clock.redeemAt) then (db, Failure(MissingExpiredOrUsed))
    else
      (db.(grants := db.grants[grant.grantId := db.grants[grant.grantId].(status := Redeemed)],
           logs := db.logs + [LogRow(Some(grant.grantId), key.task, key.tool, Authorized, clock.logAt)]),
       Success(|db.logs|))
  }

  // ----- settlement of a tool call -----

  /** The first quota record of a grant. */
  function RecordOf(records: seq<QuotaRecord>, grantId: nat): (r: Option<nat>)
    ensures r.Some? ==> r.value < |records| && records[r.value].source == FromTool(grantId)
    ensures r.None? ==> forall i :: 0 <= i < |records| ==> records[i].source != FromTool(grantId)
  {
    if |records| == 0 then None
    else
      var last := |records| - 1;
      var first := RecordOf(records[..last], grantId);
      if first.Some? then first
      else if records[last].source == FromTool(grantId) then Some(last) else None
  }

  /** The records after settling record i, or None when the usage is out of bounds or the
      guarded update matches no row. */
  function SettleRecord(records: seq<QuotaRecord>, i: nat, units: int, rate: nat, maxUnits: nat, fixedCents: nat): Option<seq<QuotaRecord>>
  {
    if !(0 <= units <= maxUnits) then None
    else
      var settled := fixedCents + MeteredCents(rate, units);
      if i < |records| && !records[i].settled && records[i].amount >= settled
      then Some(records[i := records[i].(amount := settled, units := Some(units), settled := true)])
      else None
  }

  function WithOutcome(db: Db, invocation: nat, outcome: Outcome): Db {
    if invocation < |db.logs|
    then db.(logs := db.logs[invocation := db.logs[invocation].(outcome := outcome)])
    else db
  }

  /** The usage written to the record, or None when the call raises. `units` is absent when the
      handler's result carries no trusted usage. */
  function SettledRecords(records: seq<QuotaRecord>, tool: ToolRow, grantId: nat, units: Option<int>): Option<seq<QuotaRecord>> {
    match RecordOf(records, grantId)
    case None => Some(records)
    case Some(i) =>
      match MeteredQuote(tool.pricing)
      case None => None
      case Some((_, rate, maximum)) =>
        if rate == 0 || units.Some?
        then SettleRecord(records, i, if units.Some? then units.value else 0, rate, maximum, tool.fixedCents)
        else Some(records)
  }

  /** The block after a handler returned. On a usage error the mark written to the log is
      undone with the rest of the block. */
  function SettleTx(db: Db, tool: ToolRow, invocation: nat, grantId: nat, units: Option<int>): (Db, bool) {
    match SettledRecords(db.records, tool, grantId, units)
    case None => (db, false)
    case Some(records) => (WithOutcome(db.(records := records), invocation, Succeeded), true)
  }

  function HandlerErrorTx(db: Db, invocation: nat): Db { WithOutcome(db, invocation, Errored) }

  // ----- paid model calls -----

  datatype ReserveClock = ReserveClock(assessAt: Instant, stampAt: Instant)

  function ReserveTx(db: Db, task: string, node: string, cents: nat, clock: ReserveClock): (Db, Option<nat>) {
    if BudgetRequiresApproval(db, task, cents, clock.assessAt) then (db, None)
    else
      (db.(records := db.records + [QuotaRecord(task, FromModel(node), cents, cents, None, false, clock.stampAt)]),
       Some(|db.records|))
  }

  /** A dispatched paid call: what was admitted, and the reservation that pays for it. */
  datatype PaidCall = PaidCall(node: string, quote: Quote, promptBound: nat, outputLimit: nat,
                               reservedCents: nat, record: nat)

  datatype ChatOutcome = Settled(cents: nat) | BoundViolated | ChargeOverReservation

  /** The upstream's usage report; absent when it is missing or not two integers. */
  type Usage = Option<(int, int)>

  predicate WithinBounds(call: PaidCall, usage: Usage) {
    && usage.Some?
    && 0 <= usage.value.0 <= call.promptBound
    && 0 <= usage.value.1 <= call.outputLimit
  }

  function UpstreamReplyTx(db: Db, call: PaidCall, usage: Usage): (Db, ChatOutcome) {
    if !WithinBounds(call, usage) then (db.(quarantined := db.quarantined + {call.node}), BoundViolated)
    else
      var (promptUnits, completionUnits) := usage.value;
      SettledModelCentsMonotone(call.quote, promptUnits, completionUnits, promptUnits, completionUnits);
      var cents := SettledModelCents(call.quote, promptUnits, completionUnits);
      if cents > call.reservedCents then
        (db.(quarantined := db.quarantined + {call.node}), ChargeOverReservation)
      else if call.record < |db.records| && !db.records[call.record].settled then
        (db.(records := db.records[call.record := db.records[call.record].(amount := cents,
                                     units := Some(promptUnits + completionUnits), settled := true)]),
         Settled(cents))
      else (db, Settled(cents))
  }

  // ----- operator budgets -----

  datatype BudgetError = TaskTerminal | AmountInvalid | UnknownTask

  /** `found` is the task row that an earlier transaction read. */
  function SetBudgetTx(db: Db, found: Option<TaskRow>, task: string, period: Period, amountUsd: real): (Db, Result<nat, BudgetError>) {
    if found.None? then (db, Failure(UnknownTask))
    else if found.value.terminal then (db, Failure(TaskTerminal))
    else match UsdToCents(amountUsd)
      case None => (db, Failure(AmountInvalid))
      case Some(cents) => (db.(budgets := db.budgets[(task, period) := cents]), Success(cents))
  }

  function TaskRowOf(db: Db, task: string): Option<TaskRow> {
    if task in db.tasks then Some(db.tasks[task]) else None
  }
}
