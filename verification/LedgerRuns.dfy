/** Runs of the ledger: concurrent tool calls and paid model calls, operators and passing time,
    one transaction at a time in any order. */
module LedgerRuns {
  import opened Wrappers
  import opened Calendar
  import opened Pricing
  import opened Registry
  import opened Ledger
  import opened GovernanceService

  /** Where a tool call stands between its transactions. */
  datatype Call =
    | Wanting(key: Key, tool: ToolRow)
    | Holding(key: Key, tool: ToolRow, grant: Grant)
    | Running(key: Key, tool: ToolRow, grant: Grant, invocation: nat)
    | Returned(key: Key, tool: ToolRow, grant: Grant, invocation: nat, units: Option<int>)
    | Raised(invocation: nat)

  /** One run of a tool handler. */
  datatype Execution = Execution(invocation: nat, grant: Grant, key: Key)

  /** The ledger, the clock, the calls in flight, and a history that no transaction reads:
      which grant consumed an approval, which records an operator approved over budget, and
      which handlers ran. */
  datatype World = World(db: Db, signed: set<Grant>, now: Instant,
                         calls: map<nat, Call>, chats: map<nat, PaidCall>,
                         consumedBy: map<nat, nat>, overrides: set<nat>, executions: seq<Execution>)

  /** Time that passes before each of up to three clock readings of a step. */
  datatype Gaps = Gaps(first: nat, second: nat, third: nat)

  /** `found` is the task row as the transaction before a budget change read it, whatever has
      happened to the task since. */
  datatype Event =
    | Wait(duration: nat)
    | Approving(key: Key, approvedBy: string, ttlSeconds: int)
    | Budgeting(found: Option<TaskRow>, task: string, period: Period, amountUsd: real)
    | Administering(tasks: map<string, TaskRow>, tools: map<string, ToolRow>, shares: set<Share>)
    | Beginning(id: nat, key: Key, offered: Option<Grant>)
    | Issuing(caller: Option<nat>, key: Key, config: Config, ttlSeconds: int, policy: Policy, signature: string, gaps: Gaps)
    | Redeeming(id: nat, gaps: Gaps)
    | Executing(id: nat, run: HandlerRun)
    | Finishing(id: nat)
    | Dispatching(id: nat, task: string, node: string, prices: PriceList, promptBound: nat, requestedOutput: int, gaps: Gaps)
    | Replying(id: nat, usage: Usage)
    | DroppingCall(id: nat)
    | DroppingChat(id: nat)

  function Tick(w: World, gaps: Gaps): World {
    w.(now := w.now + gaps.first + gaps.second + gaps.third)
  }

  function IssueClockOf(w: World, gaps: Gaps): IssueClock {
    var t := w.now + gaps.first;
    IssueClock(t, t + gaps.second, t + gaps.second + gaps.third)
  }

  function RedeemClockOf(w: World, gaps: Gaps): RedeemClock {
    var t := w.now + gaps.first;
    RedeemClock(t, t + gaps.second, t + gaps.second + gaps.third)
  }

  function ReserveClockOf(w: World, gaps: Gaps): ReserveClock {
    var t := w.now + gaps.first;
    ReserveClock(t, t + gaps.second)
  }

  /** The readings of one step are taken in order, the first not before the state it starts from and the
      last not after the state it leads to. */
  lemma ReadingsInOrder(w: World, gaps: Gaps)
    ensures var clock := IssueClockOf(w, gaps);
            w.now <= clock.assessAt <= clock.approveAt <= clock.stampAt <= Tick(w, gaps).now
    ensures var clock := RedeemClockOf(w, gaps);
            w.now <= clock.verifyAt <= clock.redeemAt <= clock.logAt <= Tick(w, gaps).now
    ensures var clock := ReserveClockOf(w, gaps);
            w.now <= clock.assessAt <= clock.stampAt <= Tick(w, gaps).now
  {
  }

  /** What a tool costs does not change after registration. */
  predicate SameCost(a: ToolRow, b: ToolRow) {
    (IsFinancial(a) <==> IsFinancial(b)) && a.fixedCents == b.fixedCents && a.pricing == b.pricing
  }

  /** Registry changes keep every task and tool and the cost of every tool. */
  predicate RegistryKept(db: Db, tasks: map<string, TaskRow>, tools: map<string, ToolRow>) {
    && db.tasks.Keys <= tasks.Keys
    && (forall t :: t in db.tools ==> t in tools && SameCost(db.tools[t], tools[t]))
  }

  predicate WantsGrant(w: World, id: Option<nat>, key: Key) {
    id.Some? ==> id.value in w.calls && w.calls[id.value].Wanting? && w.calls[id.value].key == key
  }

  /** This issue takes an approval because the budget does not cover the cost. */
  predicate OverBudget(w: World, key: Key, gaps: Gaps) {
    && key.tool in w.db.tools
    && var spend := AssessSpend(w.db, key.task, w.db.tools[key.tool], w.now + gaps.first);
       spend.Some? && spend.value.approvalRequired
  }

  function AfterIssue(w: World, id: Option<nat>, key: Key, outcome: IssueOutcome, db: Db, overBudget: bool): World {
    match outcome
    case Granted(grant, approval) =>
      w.(db := db,
         signed := w.signed + {grant},
         consumedBy := if approval.Some? then w.consumedBy[approval.value := grant.grantId] else w.consumedBy,
         overrides := if overBudget then w.overrides + {|w.db.records|} else w.overrides,
         calls := if id.Some? && id.value in w.calls && w.calls[id.value].Wanting?
                  then w.calls[id.value := Holding(key, w.calls[id.value].tool, grant)] else w.calls)
    case _ =>
      w.(db := db, calls := if id.Some? then w.calls - {id.value} else w.calls)
  }

  function Apply(w: World, e: Event): World {
    match e
    case Wait(duration) => w.(now := w.now + duration)
    case Approving(key, approvedBy, ttlSeconds) =>
      w.(db := ApproveTx(w.db, key, approvedBy, ttlSeconds, w.now).0)
    case Budgeting(found, task, period, amountUsd) => w.(db := SetBudgetTx(w.db, found, task, period, amountUsd).0)
    case Administering(tasks, tools, shares) =>
      if RegistryKept(w.db, tasks, tools) then w.(db := w.db.(tasks := tasks, tools := tools, shares := shares)) else w
    case Beginning(id, key, offered) =>
      if id in w.calls || key.tool !in w.db.tools || !w.db.tools[key.tool].active then w
      else
        var tool := w.db.tools[key.tool];
        w.(calls := w.calls[id := if offered.Some? then Holding(key, tool, offered.value) else Wanting(key, tool)])
    case Issuing(caller, key, config, ttlSeconds, policy, signature, gaps) =>
      if !WantsGrant(w, caller, key) then w
      else
        var (db, outcome) := IssueTx(w.db, config, key, ttlSeconds, policy, signature, IssueClockOf(w, gaps));
        Tick(AfterIssue(w, caller, key, outcome, db, OverBudget(w, key, gaps)), gaps)
    case Redeeming(id, gaps) =>
      if id !in w.calls || !w.calls[id].Holding? then w
      else
        var Holding(key, tool, grant) := w.calls[id];
        (match RedeemTx(w.db, w.signed, grant, key, RedeemClockOf(w, gaps))
         case (_, Failure(_)) => Tick(w.(calls := w.calls - {id}), gaps)
         case (db, Success(invocation)) =>
           Tick(w.(db := db, calls := w.calls[id := Running(key, tool, grant, invocation)]), gaps))
    case Executing(id, run) =>
      if id !in w.calls || !w.calls[id].Running? then w
      else
        var Running(key, tool, grant, invocation) := w.calls[id];
        w.(executions := w.executions + [Execution(invocation, grant, key)],
           calls := w.calls[id := if run.HandlerFailed? then Raised(invocation)
                                  else Returned(key, tool, grant, invocation, run.units)])
    case Finishing(id) =>
      if id !in w.calls then w
      else
        (match w.calls[id]
         case Raised(invocation) => w.(db := HandlerErrorTx(w.db, invocation), calls := w.calls - {id})
         case Returned(key, tool, grant, invocation, units) =>
           w.(db := SettleTx(w.db, tool, invocation, grant.grantId, units).0, calls := w.calls - {id})
         case _ => w)
    case Dispatching(id, task, node, prices, promptBound, requestedOutput, gaps) =>
      if id in w.chats then w
      else
        (match AdmitPaidCall(w.db, task, node, prices, promptBound, requestedOutput, ReserveClockOf(w, gaps))
         case (_, Failure(_)) => Tick(w, gaps)
         case (db, Success(call)) => Tick(w.(db := db, chats := w.chats[id := call]), gaps))
    case Replying(id, usage) =>
      if id !in w.chats then w
      else w.(db := UpstreamReplyTx(w.db, w.chats[id], usage).0, chats := w.chats - {id})
    case DroppingCall(id) => w.(calls := w.calls - {id})
    case DroppingChat(id) => w.(chats := w.chats - {id})
  }

  function Run(w: World, events: seq<Event>): World {
    if |events| == 0 then w else Apply(Run(w, events[..|events| - 1]), events[|events| - 1])
  }

  /** The ledger at installation: imported rows may exist, all of them expired. */
  ghost predicate Genesis(w: World) {
    && (forall g :: 0 <= g < |w.db.grants| ==> w.db.grants[g].status == LegacyExpired)
    && (forall l :: 0 <= l < |w.db.logs| && w.db.logs[l].grantId.Some? ==> w.db.logs[l].grantId.value < |w.db.grants|)
    && w.db.approvals == [] && w.db.records == []
    && w.signed == {} && w.calls == map[] && w.chats == map[]
    && w.consumedBy == map[] && w.overrides == {} && w.executions == []
  }
}
