/** Every step of the ledger keeps the accounting; what follows from it over whole runs. */
module AccountingRuns {
  import opened Wrappers
  import opened Calendar
  import opened Pricing
  import opened Ledger
  import opened GovernanceService
  import opened LedgerRuns
  import opened Accounting

  // ----- issue -----

  /** Parts of the invariant that a longer grant table does not touch. */
  lemma GrantJoinsSigned(grants: seq<GrantRow>, base: Base, signed: set<Grant>, row: GrantRow, grant: Grant)
    requires SignedGrantsRecorded(grants, base, signed) && base.grants <= grants
    requires grant.grantId == |grants| && MatchesRow(row, grant)
    ensures SignedGrantsRecorded(grants + [row], base, signed + {grant})
  {
  }

  /** The shape of a granted issue. */
  lemma GrantedIssue(db: Db, config: Config, key: Key, ttl: int, policy: Policy, signature: string, clock: IssueClock)
    requires IssueTx(db, config, key, ttl, policy, signature, clock).1.Granted?
    ensures var (next, Granted(grant, approval)) := IssueTx(db, config, key, ttl, policy, signature, clock);
            && key.tool in db.tools
            && var tool := db.tools[key.tool];
               var row := GrantRow(|db.decisions|, key, signature, Issued, grant.issuedAt, grant.expiresAt);
            && grant == Grant(|db.grants|, |db.decisions|, key, clock.stampAt, clock.stampAt + ttl * SECOND, signature)
            && next.decisions == db.decisions + [Decision(key, true, clock.stampAt)]
            && next.grants == db.grants + [row]
            && next.logs == db.logs && next.tools == db.tools
            && (approval.None? ==> next.approvals == db.approvals)
            && (approval.Some? ==>
                  && approval.value < |db.approvals| && LiveApproval(db.approvals[approval.value], key, clock.approveAt)
                  && next.approvals == db.approvals[approval.value := db.approvals[approval.value].(consumed := true)])
            && (!IsFinancial(tool) ==> next.records == db.records)
            && (IsFinancial(tool) ==>
                  && ToolCost(tool).Some?
                  && next.records == db.records + [QuotaRecord(key.task, FromTool(grant.grantId), ToolCost(tool).value,
                                                              ToolCost(tool).value, None, false, clock.stampAt)]
                  && (BudgetRequiresApproval(db, key.task, ToolCost(tool).value, clock.assessAt) ==> approval.Some?))
  {
  }

  lemma CallsSurviveIssue(calls: map<nat, Call>, db: Db, next: Db, signed: set<Grant>, base: Base, grant: Grant)
    requires CallsRecorded(calls, db, signed, base) && SignedGrantsRecorded(db.grants, base, signed)
    requires next.logs == db.logs && next.tools == db.tools
    requires next.records == db.records
             || exists row :: next.records == db.records + [row] && row.source == FromTool(|db.grants|)
    ensures CallsRecorded(calls, next, signed + {grant}, base)
  {
    forall c | c in calls ensures CallRecorded(calls[c], next, signed + {grant}, base) {
      assert CallRecorded(calls[c], db, signed, base);
    }
  }

  lemma CallerUpdated(calls: map<nat, Call>, db: Db, signed: set<Grant>, base: Base, c: nat, grant: Grant)
    requires CallsRecorded(calls, db, signed, base) && c in calls && calls[c].Wanting?
    ensures CallsRecorded(calls[c := Holding(calls[c].key, calls[c].tool, grant)], db, signed, base)
  {
    assert CallRecorded(calls[c], db, signed, base);
  }

  /** The tables as a granted issue leaves them. */
  ghost predicate GrantedShape(db: Db, key: Key, next: Db, grant: Grant, approval: Option<nat>, clock: IssueClock) {
    && key.tool in db.tools && grant.grantId == |db.grants| && grant.decisionId == |db.decisions| && grant.key == key
    && next.decisions == db.decisions + [Decision(key, true, clock.stampAt)]
    && next.grants == db.grants + [GrantRow(|db.decisions|, key, grant.signature, Issued, grant.issuedAt, grant.expiresAt)]
    && next.logs == db.logs && next.tools == db.tools
    && (approval.None? ==> next.approvals == db.approvals)
    && (approval.Some? ==>
          && approval.value < |db.approvals| && LiveApproval(db.approvals[approval.value], key, clock.approveAt)
          && next.approvals == db.approvals[approval.value := db.approvals[approval.value].(consumed := true)])
    && (if IsFinancial(db.tools[key.tool]) then
          var cost := ToolCost(db.tools[key.tool]);
          && cost.Some?
          && next.records == db.records + [QuotaRecord(key.task, FromTool(grant.grantId), cost.value, cost.value, None, false, clock.stampAt)]
        else next.records == db.records)
  }

  /** The part of the invariant that is about the tables alone, after a granted issue. */
  lemma GrantedTables(w: World, base: Base, key: Key, next: Db, grant: Grant, approval: Option<nat>, clock: IssueClock)
    requires Inv(w, base) && GrantedShape(w.db, key, next, grant, approval, clock)
    ensures GrantsMatchDecisions(next.decisions, next.grants, base)
    ensures SignedGrantsRecorded(next.grants, base, w.signed + {grant})
    ensures ApprovalsMatchGrants(next.approvals, next.grants, base,
                                 if approval.Some? then w.consumedBy[approval.value := grant.grantId] else w.consumedBy)
    ensures RecordsMatchGrants(next.records, next.grants, next.tools, base)
    ensures SettledAfterRedemption(next.records, next.grants)
    ensures LogsMatchGrants(next.logs, next.grants, base)
  {
    var row := GrantRow(|w.db.decisions|, key, grant.signature, Issued, grant.issuedAt, grant.expiresAt);
    GrantJoinsDecisions(w.db.decisions, w.db.grants, base, Decision(key, true, clock.stampAt), row);
    GrantJoinsSigned(w.db.grants, base, w.signed, row, grant);
    GrantJoinsLogs(w.db.logs, w.db.grants, base, row);
    if approval.Some? {
      ApprovalConsumed(w.db.approvals, w.db.grants, base, w.consumedBy, row, approval.value);
    } else {
      GrantJoinsApprovals(w.db.approvals, w.db.grants, base, w.consumedBy, row);
    }
    if IsFinancial(w.db.tools[key.tool]) {
      PaidGrantJoinsRecords(w.db.records, w.db.grants, w.db.tools, base, row, next.records[|w.db.records|]);
    } else {
      FreeGrantJoinsRecords(w.db.records, w.db.grants, w.db.tools, base, row);
    }
    GrantJoinsSettled(w.db.records, next.records, w.db.grants, row);
  }

  lemma GrantJoinsSettled(records: seq<QuotaRecord>, next: seq<QuotaRecord>, grants: seq<GrantRow>, row: GrantRow)
    requires SettledAfterRedemption(records, grants)
    requires next == records || (|next| == |records| + 1 && next[..|records|] == records && !next[|records|].settled)
    ensures SettledAfterRedemption(next, grants + [row])
  {
    assert next != records ==> next == records + [next[|records|]];
  }

  /** A granted issue as a step: what changes, apart from any invariant. */
  lemma GrantedStep(w: World, e: Event, next: Db, grant: Grant, approval: Option<nat>)
    requires e.Issuing? && WantsGrant(w, e.caller, e.key)
    requires IssueTx(w.db, e.config, e.key, e.ttlSeconds, e.policy, e.signature, IssueClockOf(w, e.gaps)) == (next, Granted(grant, approval))
    ensures Apply(w, e) == Tick(AfterIssue(w, e.caller, e.key, Granted(grant, approval), next, OverBudget(w, e.key, e.gaps)), e.gaps)
    ensures OverBudget(w, e.key, e.gaps) ==> approval.Some? && next.records != w.db.records
  {
    GrantedIssue(w.db, e.config, e.key, e.ttlSeconds, e.policy, e.signature, IssueClockOf(w, e.gaps));
  }

  lemma GrantedKeepsInv(w: World, e: Event, base: Base)
    requires e.Issuing? && Inv(w, base) && WantsGrant(w, e.caller, e.key)
    requires IssueTx(w.db, e.config, e.key, e.ttlSeconds, e.policy, e.signature, IssueClockOf(w, e.gaps)).1.Granted?
    ensures Inv(Apply(w, e), base)
  {
    var clock := IssueClockOf(w, e.gaps);
    var (next, Granted(grant, approval)) := IssueTx(w.db, e.config, e.key, e.ttlSeconds, e.policy, e.signature, clock);
    GrantedIssue(w.db, e.config, e.key, e.ttlSeconds, e.policy, e.signature, clock);
    GrantedStep(w, e, next, grant, approval);
    GrantedWorld(w, base, e.caller, e.key, next, grant, approval, clock, Apply(w, e));
  }

  lemma GrantedWorld(w: World, base: Base, caller: Option<nat>, key: Key, next: Db, grant: Grant, approval: Option<nat>,
                     clock: IssueClock, n: World)
    requires Inv(w, base) && GrantedShape(w.db, key, next, grant, approval, clock)
    requires n.db == next && n.signed == w.signed + {grant} && n.executions == w.executions && n.chats == w.chats
    requires n.consumedBy == if approval.Some? then w.consumedBy[approval.value := grant.grantId] else w.consumedBy
    requires n.overrides == w.overrides
             || (n.overrides == w.overrides + {|w.db.records|} && approval.Some? && next.records != w.db.records)
    requires n.calls == w.calls
             || (caller.Some? && caller.value in w.calls && w.calls[caller.value].Wanting?
                 && n.calls == w.calls[caller.value := Holding(w.calls[caller.value].key, w.calls[caller.value].tool, grant)])
    ensures Inv(n, base)
  {
    GrantedTables(w, base, key, next, grant, approval, clock);
    GrantedRecord(w.db, key, next, grant, approval, clock);
    if approval.Some? { LiveIsUnconsumed(w.db.approvals, w.db.grants, base, w.consumedBy, approval.value); }
    GrantedAround(w, base, caller, next, grant, approval, n);
  }

  lemma GrantedRecord(db: Db, key: Key, next: Db, grant: Grant, approval: Option<nat>, clock: IssueClock)
    requires GrantedShape(db, key, next, grant, approval, clock)
    ensures next.records == db.records
            || exists row :: next.records == db.records + [row] && row.source == FromTool(|db.grants|)
  {
    if next.records != db.records {
      var row := next.records[|db.records|];
      assert next.records == db.records + [row] && row.source == FromTool(|db.grants|);
    }
  }

  lemma LiveIsUnconsumed(approvals: seq<Approval>, grants: seq<GrantRow>, base: Base, consumedBy: map<nat, nat>, a: nat)
    requires ApprovalsMatchGrants(approvals, grants, base, consumedBy) && a < |approvals| && !approvals[a].consumed
    ensures a !in consumedBy
  {
  }

  /** The calls, the history and the model calls after a granted issue. */
  lemma GrantedAround(w: World, base: Base, caller: Option<nat>, next: Db, grant: Grant, approval: Option<nat>, n: World)
    requires CallsRecorded(w.calls, w.db, w.signed, base) && SignedGrantsRecorded(w.db.grants, base, w.signed)
    requires ExecutionsRecorded(w.executions, w.calls, w.db.logs, w.signed, base)
    requires OverridesApproved(w.overrides, w.db.records, w.consumedBy) && ChatsReserved(w.chats, w.db.records)
    requires next.logs == w.db.logs && next.tools == w.db.tools && grant.grantId == |w.db.grants|
    requires next.records == w.db.records
             || exists row :: next.records == w.db.records + [row] && row.source == FromTool(|w.db.grants|)
    requires approval.Some? ==> approval.value !in w.consumedBy
    requires n.db == next && n.signed == w.signed + {grant} && n.executions == w.executions && n.chats == w.chats
    requires n.consumedBy == if approval.Some? then w.consumedBy[approval.value := grant.grantId] else w.consumedBy
    requires n.overrides == w.overrides
             || (n.overrides == w.overrides + {|w.db.records|} && approval.Some? && next.records != w.db.records)
    requires n.calls == w.calls
             || (caller.Some? && caller.value in w.calls && w.calls[caller.value].Wanting?
                 && n.calls == w.calls[caller.value := Holding(w.calls[caller.value].key, w.calls[caller.value].tool, grant)])
    ensures CallsRecorded(n.calls, n.db, n.signed, base)
    ensures ExecutionsRecorded(n.executions, n.calls, n.db.logs, n.signed, base)
    ensures OverridesApproved(n.overrides, n.db.records, n.consumedBy) && ChatsReserved(n.chats, n.db.records)
  {
    CallsSurviveIssue(w.calls, w.db, next, w.signed, base, grant);
    if n.calls != w.calls {
      CallerUpdated(w.calls, next, w.signed + {grant}, base, caller.value, grant);
    }
    if n.overrides != w.overrides {
      OverrideJoins(w.overrides, w.db.records, w.consumedBy, next.records[|w.db.records|], approval.value, grant.grantId);
    } else {
      OverridesSurvive(w.overrides, w.db.records, next.records, w.consumedBy, approval, grant.grantId);
    }
    ChatsAndRunsSurvive(w, n, base);
  }

  lemma OverridesSurvive(overrides: set<nat>, records: seq<QuotaRecord>, next: seq<QuotaRecord>,
                         consumedBy: map<nat, nat>, approval: Option<nat>, g: nat)
    requires OverridesApproved(overrides, records, consumedBy) && records <= next
    requires approval.Some? ==> approval.value !in consumedBy
    ensures OverridesApproved(overrides, next, if approval.Some? then consumedBy[approval.value := g] else consumedBy)
  {
    var consumedBy' := if approval.Some? then consumedBy[approval.value := g] else consumedBy;
    forall i | i in overrides
      ensures exists a :: a in consumedBy' && consumedBy'[a] == next[i].source.grantId
    {
      var a :| a in consumedBy && consumedBy[a] == records[i].source.grantId;
      assert a in consumedBy' && consumedBy'[a] == consumedBy[a];
    }
  }

  lemma OverrideJoins(overrides: set<nat>, records: seq<QuotaRecord>,
                      consumedBy: map<nat, nat>, record: QuotaRecord, approval: nat, g: nat)
    requires OverridesApproved(overrides, records, consumedBy) && approval !in consumedBy
    requires record.source == FromTool(g)
    ensures OverridesApproved(overrides + {|records|}, records + [record], consumedBy[approval := g])
  {
    OverridesSurvive(overrides, records, records + [record], consumedBy, Some(approval), g);
    assert approval in consumedBy[approval := g] && consumedBy[approval := g][approval] == g;
  }

  /** What an issue leaves alone. */
  lemma ChatsAndRunsSurvive(w: World, n: World, base: Base)
    requires ExecutionsRecorded(w.executions, w.calls, w.db.logs, w.signed, base) && ChatsReserved(w.chats, w.db.records)
    requires n.executions == w.executions && n.chats == w.chats && n.db.logs == w.db.logs
    requires w.signed <= n.signed && w.db.records <= n.db.records
    requires forall c :: c in n.calls && n.calls[c].Running? ==> c in w.calls && n.calls[c] == w.calls[c]
    ensures ExecutionsRecorded(n.executions, n.calls, n.db.logs, n.signed, base) && ChatsReserved(n.chats, n.db.records)
  {
    forall c | c in n.chats ensures ChatReserved(n.chats[c], n.db.records) {
      assert ChatReserved(w.chats[c], w.db.records);
    }
  }

  lemma UngrantedKeepsInv(w: World, e: Event, base: Base)
    requires e.Issuing? && Inv(w, base)
    requires !WantsGrant(w, e.caller, e.key)
             || !IssueTx(w.db, e.config, e.key, e.ttlSeconds, e.policy, e.signature, IssueClockOf(w, e.gaps)).1.Granted?
    ensures Inv(Apply(w, e), base)
  {
    if WantsGrant(w, e.caller, e.key) {
      var (next, outcome) := IssueTx(w.db, e.config, e.key, e.ttlSeconds, e.policy, e.signature, IssueClockOf(w, e.gaps));
      if outcome.Denied? {
        DecisionDenied(w.db.decisions, w.db.grants, base, Decision(e.key, false, IssueClockOf(w, e.gaps).stampAt));
      }
      assert next == w.db.(decisions := next.decisions);
      var n := AfterIssue(w, e.caller, e.key, outcome, next, false);
      assert n == w.(db := next, calls := n.calls);
      CallsDropped(w, next, n.calls, base);
    }
  }

  lemma CallsDropped(w: World, next: Db, calls: map<nat, Call>, base: Base)
    requires CallsRecorded(w.calls, w.db, w.signed, base)
    requires ExecutionsRecorded(w.executions, w.calls, w.db.logs, w.signed, base)
    requires next.logs == w.db.logs && next.records == w.db.records && next.tools == w.db.tools
    requires calls.Keys <= w.calls.Keys && forall c :: c in calls ==> calls[c] == w.calls[c]
    ensures CallsRecorded(calls, next, w.signed, base)
    ensures ExecutionsRecorded(w.executions, calls, next.logs, w.signed, base)
  {
    forall c | c in calls ensures CallRecorded(calls[c], next, w.signed, base) {
      assert CallRecorded(w.calls[c], w.db, w.signed, base);
    }
  }

  // ----- redeem -----

  lemma RedeemingKeepsInv(w: World, e: Event, base: Base)
    requires e.Redeeming? && Inv(w, base)
    ensures Inv(Apply(w, e), base)
  {
    if e.id in w.calls && w.calls[e.id].Holding? {
      var grant := w.calls[e.id].grant;
      if RedeemTx(w.db, w.signed, grant, w.calls[e.id].key, RedeemClockOf(w, e.gaps)).1.Failure? {
        CallsDropped(w, w.db, w.calls - {e.id}, base);
        RedeemRefused(w, e);
      } else {
        var row := RedeemStep(w, e);
        RedeemedKeepsInv(w, base, e.id, grant, row, Apply(w, e));
      }
    }
  }

  lemma RedeemRefused(w: World, e: Event)
    requires e.Redeeming? && e.id in w.calls && w.calls[e.id].Holding?
    requires RedeemTx(w.db, w.signed, w.calls[e.id].grant, w.calls[e.id].key, RedeemClockOf(w, e.gaps)).1.Failure?
    ensures Apply(w, e) == Tick(w.(calls := w.calls - {e.id}), e.gaps)
  {
  }

  lemma RedeemStep(w: World, e: Event) returns (row: LogRow)
    requires e.Redeeming? && e.id in w.calls && w.calls[e.id].Holding?
    requires RedeemTx(w.db, w.signed, w.calls[e.id].grant, w.calls[e.id].key, RedeemClockOf(w, e.gaps)).1.Success?
    ensures var call, n := w.calls[e.id], Apply(w, e);
            var g := call.grant.grantId;
            && call.grant in w.signed && call.grant.key == call.key
            && g < |w.db.grants| && w.db.grants[g].status == Issued
            && row.grantId == Some(g) && row.outcome == Authorized
            && n == w.(now := n.now,
                       db := w.db.(logs := w.db.logs + [row], grants := w.db.grants[g := w.db.grants[g].(status := Redeemed)]),
                       calls := w.calls[e.id := Running(call.key, call.tool, call.grant, |w.db.logs|)])
  {
    var Holding(key, tool, grant) := w.calls[e.id];
    row := RedeemTx(w.db, w.signed, grant, key, RedeemClockOf(w, e.gaps)).0.logs[|w.db.logs|];
  }

  lemma RedeemedKeepsInv(w: World, base: Base, c: nat, grant: Grant, row: LogRow, n: World)
    requires Inv(w, base) && c in w.calls && w.calls[c].Holding? && w.calls[c].grant == grant
    requires grant in w.signed && grant.key == w.calls[c].key && w.db.grants[grant.grantId].status == Issued
    requires row.grantId == Some(grant.grantId) && row.outcome == Authorized
    requires n == w.(now := n.now,
                     db := w.db.(logs := w.db.logs + [row],
                                 grants := w.db.grants[grant.grantId := w.db.grants[grant.grantId].(status := Redeemed)]),
                     calls := w.calls[c := Running(w.calls[c].key, w.calls[c].tool, grant, |w.db.logs|)])
    ensures Inv(n, base)
  {
    var g := grant.grantId;
    RedemptionKeepsGrants(w.db.decisions, w.db.grants, base, g);
    RedemptionKeepsRecords(w.db.records, w.db.grants, w.db.tools, base, g);
    RedemptionLogged(w.db.logs, w.db.grants, base, g, row);
    RedemptionKeepsRest(w.db.grants, base, w.signed, w.db.approvals, w.consumedBy, w.db.records, g);
    RedeemedCalls(w.calls, w.executions, w.db, w.signed, base, c, grant, row, n.db);
  }

  lemma RedemptionKeepsRest(grants: seq<GrantRow>, base: Base, signed: set<Grant>, approvals: seq<Approval>,
                            consumedBy: map<nat, nat>, records: seq<QuotaRecord>, g: nat)
    requires SignedGrantsRecorded(grants, base, signed) && ApprovalsMatchGrants(approvals, grants, base, consumedBy)
    requires SettledAfterRedemption(records, grants) && g < |grants| && grants[g].status == Issued
    ensures var grants' := grants[g := grants[g].(status := Redeemed)];
            && SignedGrantsRecorded(grants', base, signed) && ApprovalsMatchGrants(approvals, grants', base, consumedBy)
            && SettledAfterRedemption(records, grants')
    ensures Unsettled(records, g)
  {
  }

  lemma RedeemedCalls(calls: map<nat, Call>, executions: seq<Execution>, db: Db, signed: set<Grant>, base: Base,
                      c: nat, grant: Grant, row: LogRow, next: Db)
    requires CallsRecorded(calls, db, signed, base) && ExecutionsRecorded(executions, calls, db.logs, signed, base)
    requires c in calls && calls[c].Holding? && calls[c].grant == grant && base.logs <= |db.logs|
    requires grant in signed && grant.key == calls[c].key && Unsettled(db.records, grant.grantId)
    requires row.grantId == Some(grant.grantId) && row.outcome == Authorized
    requires next.logs == db.logs + [row] && next.records == db.records && next.tools == db.tools
    ensures var calls' := calls[c := Running(calls[c].key, calls[c].tool, grant, |db.logs|)];
            CallsRecorded(calls', next, signed, base) && ExecutionsRecorded(executions, calls', next.logs, signed, base)
  {
    var calls' := calls[c := Running(calls[c].key, calls[c].tool, grant, |db.logs|)];
    assert CallRecorded(calls[c], db, signed, base);
    forall d | d in calls' ensures CallRecorded(calls'[d], next, signed, base) {
      assert d != c ==> CallRecorded(calls[d], db, signed, base);
    }
  }

  // ----- the handler runs -----

  lemma ExecutingKeepsInv(w: World, e: Event, base: Base)
    requires e.Executing? && Inv(w, base)
    ensures Inv(Apply(w, e), base)
  {
    if e.id in w.calls && w.calls[e.id].Running? {
      var Running(key, tool, grant, invocation) := w.calls[e.id];
      assert CallRecorded(w.calls[e.id], w.db, w.signed, base);
      var after := if e.run.HandlerFailed? then Raised(invocation) else Returned(key, tool, grant, invocation, e.run.units);
      var n := w.(executions := w.executions + [Execution(invocation, grant, key)], calls := w.calls[e.id := after]);
      assert Apply(w, e) == n;
      ExecutedCall(w.calls, w.executions, w.db, w.signed, base, e.id, after);
    }
  }

  lemma ExecutedCall(calls: map<nat, Call>, executions: seq<Execution>, db: Db, signed: set<Grant>, base: Base, c: nat, after: Call)
    requires CallsRecorded(calls, db, signed, base) && ExecutionsRecorded(executions, calls, db.logs, signed, base)
    requires c in calls && calls[c].Running?
    requires after == Raised(calls[c].invocation)
             || (after.Returned? && after == Returned(calls[c].key, calls[c].tool, calls[c].grant, calls[c].invocation, after.units))
    ensures CallsRecorded(calls[c := after], db, signed, base)
    ensures ExecutionsRecorded(executions + [Execution(calls[c].invocation, calls[c].grant, calls[c].key)], calls[c := after],
                               db.logs, signed, base)
  {
    var calls' := calls[c := after];
    forall d | d in calls' ensures CallRecorded(calls'[d], db, signed, base) {
      assert CallRecorded(calls[d], db, signed, base);
    }
  }

  // ----- settlement -----

  lemma FinishingKeepsInv(w: World, e: Event, base: Base)
    requires e.Finishing? && Inv(w, base)
    ensures Inv(Apply(w, e), base)
  {
    if e.id in w.calls && HasInvocation(w.calls[e.id]) && !w.calls[e.id].Running? {
      FinishStep(w, e);
      FinishedKeepsInv(w, base, e.id, Apply(w, e));
    }
  }

  /** What finishing a call makes of the world. */
  function Finished(w: World, c: nat): World
    requires c in w.calls && (w.calls[c].Raised? || w.calls[c].Returned?)
  {
    var call, calls := w.calls[c], w.calls - {c};
    if call.Raised? then w.(db := WithOutcome(w.db, call.invocation, Errored), calls := calls)
    else
      match SettledRecords(w.db.records, call.tool, call.grant.grantId, call.units)
      case None => w.(calls := calls)
      case Some(records) => w.(db := WithOutcome(w.db.(records := records), call.invocation, Succeeded), calls := calls)
  }

  lemma FinishStep(w: World, e: Event)
    requires e.Finishing? && e.id in w.calls && (w.calls[e.id].Raised? || w.calls[e.id].Returned?)
    ensures Apply(w, e) == Finished(w, e.id)
  {
  }

  lemma FinishedKeepsInv(w: World, base: Base, c: nat, n: World)
    requires Inv(w, base) && c in w.calls && (w.calls[c].Raised? || w.calls[c].Returned?) && n == Finished(w, c)
    ensures Inv(n, base)
  {
    var call := w.calls[c];
    if call.Raised? {
      assert w.db == w.db.(records := w.db.records);
      OutcomeKeepsInv(w, base, c, Errored, w.db.records, n);
    } else {
      var settled := SettledRecords(w.db.records, call.tool, call.grant.grantId, call.units);
      if settled.None? {
        CallsDropped(w, w.db, w.calls - {c}, base);
      } else {
        SettlementKeepsRecords(w, base, c, settled.value);
        OutcomeKeepsInv(w, base, c, Succeeded, settled.value, n);
      }
    }
  }

  /** Records before and after a settlement differ at most in the one record of the grant. */
  ghost predicate SettlesOnly(records: seq<QuotaRecord>, next: seq<QuotaRecord>, g: nat) {
    && |next| == |records|
    && forall i :: 0 <= i < |records| ==>
         next[i].source == records[i].source && (records[i].source != FromTool(g) ==> next[i] == records[i])
  }

  lemma SettlementKeepsRecords(w: World, base: Base, c: nat, next: seq<QuotaRecord>)
    requires Inv(w, base) && c in w.calls && w.calls[c].Returned?
    requires SettledRecords(w.db.records, w.calls[c].tool, w.calls[c].grant.grantId, w.calls[c].units) == Some(next)
    ensures RecordsMatchGrants(next, w.db.grants, w.db.tools, base)
    ensures SettlesOnly(w.db.records, next, w.calls[c].grant.grantId)
    ensures SettledAfterRedemption(next, w.db.grants)
  {
    var call := w.calls[c];
    RedeemedTool(call, w.db, w.signed, base);
    SettlementKeepsTables(w.db.records, w.db.grants, w.db.tools, base, call.tool, call.grant.grantId, call.units, next);
  }

  /** The grant of a redeemed call is redeemed, and its tool costs what the call's tool does. */
  lemma RedeemedTool(call: Call, db: Db, signed: set<Grant>, base: Base)
    requires CallRecorded(call, db, signed, base) && Redemption(call)
    requires SignedGrantsRecorded(db.grants, base, signed) && LogsMatchGrants(db.logs, db.grants, base)
    ensures var g := call.grant.grantId;
            && LiveGrant(db.grants, base, g) && db.grants[g].status == Redeemed
            && db.grants[g].key.tool in db.tools && SameCost(call.tool, db.tools[db.grants[g].key.tool])
  {
  }

  lemma SettlementKeepsTables(records: seq<QuotaRecord>, grants: seq<GrantRow>, tools: map<string, ToolRow>, base: Base,
                              tool: ToolRow, g: nat, units: Option<int>, next: seq<QuotaRecord>)
    requires RecordsMatchGrants(records, grants, tools, base) && SettledAfterRedemption(records, grants)
    requires LiveGrant(grants, base, g) && grants[g].status == Redeemed
    requires grants[g].key.tool in tools && SameCost(tool, tools[grants[g].key.tool])
    requires SettledRecords(records, tool, g, units) == Some(next)
    ensures RecordsMatchGrants(next, grants, tools, base) && SettlesOnly(records, next, g) && SettledAfterRedemption(next, grants)
  {
    var i := RecordOf(records, g);
    if i.Some? && next != records {
      var registered := tools[grants[g].key.tool];
      assert ToolRecordRight(records[i.value], grants, tools, base);
      SamePricing(tool, registered, records[i.value]);
      SettledRecordPriced(records, tool, g, units, next, i.value);
      SamePricing(tool, registered, next[i.value]);
      assert ToolRecordRight(next[i.value], grants, tools, base);
      RecordChanges(records, grants, tools, base, i.value, next[i.value]);
    }
  }

  /** Prices depend on the cost of a tool alone. */
  lemma SamePricing(a: ToolRow, b: ToolRow, record: QuotaRecord)
    requires SameCost(a, b)
    ensures ToolRecordPriced(record, a) <==> ToolRecordPriced(record, b)
  {
  }

  /** A settlement rewrites the one record of the grant, rightly priced. */
  lemma SettledRecordPriced(records: seq<QuotaRecord>, tool: ToolRow, g: nat, units: Option<int>, next: seq<QuotaRecord>, i: nat)
    requires RecordOf(records, g) == Some(i) && ToolRecordPriced(records[i], tool)
    requires SettledRecords(records, tool, g, units) == Some(next) && next != records
    ensures |next| == |records| && next == records[i := next[i]]
    ensures next[i].source == records[i].source && next[i].task == records[i].task && ToolRecordPriced(next[i], tool)
  {
  }

  lemma OutcomeKeepsInv(w: World, base: Base, c: nat, outcome: Outcome, records: seq<QuotaRecord>, n: World)
    requires Inv(w, base) && c in w.calls && HasInvocation(w.calls[c]) && !w.calls[c].Running?
    requires RecordsMatchGrants(records, w.db.grants, w.db.tools, base) && SettledAfterRedemption(records, w.db.grants)
    requires w.calls[c].Raised? ==> records == w.db.records
    requires w.calls[c].Returned? ==> SettlesOnly(w.db.records, records, w.calls[c].grant.grantId)
    requires n == w.(db := WithOutcome(w.db.(records := records), w.calls[c].invocation, outcome), calls := w.calls - {c})
    ensures Inv(n, base)
  {
    var call := w.calls[c];
    var l := call.invocation;
    assert CallRecorded(call, w.db, w.signed, base);
    OutcomeKeepsLogs(w.db.logs, w.db.grants, base, l, outcome);
    assert n.db == w.db.(records := records, logs := w.db.logs[l := w.db.logs[l].(outcome := outcome)]);
    FinishedCall(w.calls, w.executions, w.db, w.signed, base, c, outcome, records);
    RecordsSameSource(w.overrides, w.consumedBy, w.chats, w.db.records, records);
  }

  /** The other calls after one call wrote its outcome. Two redeemed calls never hold the same
      grant, because they hold different logs. */
  lemma FinishedCall(calls: map<nat, Call>, executions: seq<Execution>, db: Db, signed: set<Grant>, base: Base,
                     c: nat, outcome: Outcome, records: seq<QuotaRecord>)
    requires CallsRecorded(calls, db, signed, base) && ExecutionsRecorded(executions, calls, db.logs, signed, base)
    requires LogsMatchGrants(db.logs, db.grants, base)
    requires c in calls && HasInvocation(calls[c]) && !calls[c].Running?
    requires calls[c].Raised? ==> records == db.records
    requires calls[c].Returned? ==> SettlesOnly(db.records, records, calls[c].grant.grantId)
    ensures var l := calls[c].invocation;
            && l < |db.logs|
            && var next := db.(records := records, logs := db.logs[l := db.logs[l].(outcome := outcome)]);
               CallsRecorded(calls - {c}, next, signed, base)
               && ExecutionsRecorded(executions, calls - {c}, next.logs, signed, base)
  {
    assert CallRecorded(calls[c], db, signed, base);
    var l := calls[c].invocation;
    var next := db.(records := records, logs := db.logs[l := db.logs[l].(outcome := outcome)]);
    forall d | d in calls - {c} ensures CallRecorded(calls[d], next, signed, base) {
      OtherCall(calls, db, signed, base, c, d);
      if Redemption(calls[d]) && calls[c].Returned? {
        DifferentGrants(calls, db, signed, base, c, d);
        StillUnsettled(db.records, records, calls[c].grant.grantId, calls[d].grant.grantId);
      }
      OtherCallRecorded(calls[d], db, next, signed, base, l, outcome);
    }
    OutcomeKeepsExecutions(executions, calls, db.logs, signed, base, c, l, outcome);
  }

  /** Another call that holds a log holds another log. */
  lemma OtherCall(calls: map<nat, Call>, db: Db, signed: set<Grant>, base: Base, c: nat, d: nat)
    requires CallsRecorded(calls, db, signed, base) && c in calls && d in calls && c != d && HasInvocation(calls[c])
    ensures CallRecorded(calls[d], db, signed, base)
    ensures HasInvocation(calls[d]) ==> calls[d].invocation != calls[c].invocation
  {
  }

  /** Two redeemed calls hold different grants, because no two logs name one grant. */
  lemma DifferentGrants(calls: map<nat, Call>, db: Db, signed: set<Grant>, base: Base, c: nat, d: nat)
    requires CallsRecorded(calls, db, signed, base) && LogsMatchGrants(db.logs, db.grants, base)
    requires c in calls && d in calls && c != d && Redemption(calls[c]) && Redemption(calls[d])
    ensures calls[c].grant.grantId != calls[d].grant.grantId
  {
    assert CallRecorded(calls[c], db, signed, base);
    OtherCall(calls, db, signed, base, c, d);
  }

  lemma StillUnsettled(records: seq<QuotaRecord>, next: seq<QuotaRecord>, g: nat, other: nat)
    requires SettlesOnly(records, next, g) && other != g && Unsettled(records, other)
    ensures Unsettled(next, other)
  {
  }

  lemma OtherCallRecorded(call: Call, db: Db, next: Db, signed: set<Grant>, base: Base, l: nat, outcome: Outcome)
    requires CallRecorded(call, db, signed, base) && l < |db.logs|
    requires next == db.(records := next.records, logs := db.logs[l := db.logs[l].(outcome := outcome)])
    requires HasInvocation(call) ==> call.invocation != l
    requires Redemption(call) ==> Unsettled(next.records, call.grant.grantId)
    ensures CallRecorded(call, next, signed, base)
  {
  }

  lemma OutcomeKeepsExecutions(executions: seq<Execution>, calls: map<nat, Call>, logs: seq<LogRow>, signed: set<Grant>, base: Base,
                               c: nat, l: nat, outcome: Outcome)
    requires ExecutionsRecorded(executions, calls, logs, signed, base) && l < |logs|
    ensures ExecutionsRecorded(executions, calls - {c}, logs[l := logs[l].(outcome := outcome)], signed, base)
  {
  }

  lemma RecordsSameSource(overrides: set<nat>, consumedBy: map<nat, nat>, chats: map<nat, PaidCall>,
                          records: seq<QuotaRecord>, next: seq<QuotaRecord>)
    requires OverridesApproved(overrides, records, consumedBy) && ChatsReserved(chats, records)
    requires |records| <= |next| && forall i :: 0 <= i < |records| ==> next[i].source == records[i].source
    requires forall i :: 0 <= i < |records| && records[i].source.FromModel? ==> next[i] == records[i]
    ensures OverridesApproved(overrides, next, consumedBy) && ChatsReserved(chats, next)
  {
    forall c | c in chats ensures ChatReserved(chats[c], next) {
      assert ChatReserved(chats[c], records);
    }
  }

  // ----- paid model calls -----

  lemma DispatchingKeepsInv(w: World, e: Event, base: Base)
    requires e.Dispatching? && Inv(w, base)
    ensures Inv(Apply(w, e), base)
  {
    var n := Apply(w, e);
    if n.chats == w.chats {
      DispatchRefused(w, e);
    } else {
      var chat, record := DispatchedStep(w, e);
      ModelRecordJoins(w.db.records, w.db.grants, w.db.tools, base, record);
      DispatchedKeepsInv(w, base, e.id, chat, record, n);
    }
  }

  lemma DispatchRefused(w: World, e: Event)
    requires e.Dispatching? && Apply(w, e).chats == w.chats
    ensures Apply(w, e) == w.(now := Apply(w, e).now)
  {
    var admitted := AdmitPaidCall(w.db, e.task, e.node, e.prices, e.promptBound, e.requestedOutput, ReserveClockOf(w, e.gaps)).1;
    var id, chats := e.id, Apply(w, e).chats;
    assert id !in w.chats && admitted.Success? ==> id in chats;
  }

  lemma DispatchedStep(w: World, e: Event) returns (chat: PaidCall, record: QuotaRecord)
    requires e.Dispatching? && Apply(w, e).chats != w.chats
    ensures e.id !in w.chats
    ensures record.source == FromModel(chat.node) && !record.settled && record.units == None
    ensures record.amount == record.reserved == chat.reservedCents && chat.record == |w.db.records|
    ensures SettledModelCents(chat.quote, chat.promptBound, chat.outputLimit) == chat.reservedCents
    ensures var n := Apply(w, e);
            n == w.(now := n.now, db := w.db.(records := w.db.records + [record]), chats := w.chats[e.id := chat])
  {
    var (next, admitted) := AdmitPaidCall(w.db, e.task, e.node, e.prices, e.promptBound, e.requestedOutput, ReserveClockOf(w, e.gaps));
    chat := admitted.value;
    var quote := ModelQuote(e.prices).value;
    ReservationIsLeastBound(quote, e.promptBound, e.requestedOutput, 0, 0, 0);
    ReservedIsCeilingOfPrice(quote, e.promptBound, chat.outputLimit);
    record := next.records[|w.db.records|];
  }

  lemma DispatchedKeepsInv(w: World, base: Base, id: nat, chat: PaidCall, record: QuotaRecord, n: World)
    requires Inv(w, base) && id !in w.chats
    requires RecordsMatchGrants(w.db.records + [record], w.db.grants, w.db.tools, base)
    requires record.source == FromModel(chat.node) && !record.settled && record.amount == chat.reservedCents
    requires chat.record == |w.db.records|
    requires SettledModelCents(chat.quote, chat.promptBound, chat.outputLimit) == chat.reservedCents
    requires n == w.(now := n.now, db := w.db.(records := w.db.records + [record]), chats := w.chats[id := chat])
    ensures Inv(n, base)
  {
    RecordsSameSource(w.overrides, w.consumedBy, w.chats, w.db.records, n.db.records);
    ModelRecordLeavesCalls(w.calls, w.db, n.db, w.signed, base);
    ChatJoins(w.chats, n.db.records, id, chat);
  }

  lemma ModelRecordLeavesCalls(calls: map<nat, Call>, db: Db, next: Db, signed: set<Grant>, base: Base)
    requires CallsRecorded(calls, db, signed, base)
    requires next.logs == db.logs && next.tools == db.tools
    requires |next.records| == |db.records| + 1 && next.records[..|db.records|] == db.records
    requires next.records[|db.records|].source.FromModel?
    ensures CallsRecorded(calls, next, signed, base)
  {
    assert next.records == db.records + [next.records[|db.records|]];
    forall c | c in calls ensures CallRecorded(calls[c], next, signed, base) {
      assert CallRecorded(calls[c], db, signed, base);
    }
  }

  lemma ChatJoins(chats: map<nat, PaidCall>, records: seq<QuotaRecord>, id: nat, chat: PaidCall)
    requires ChatsReserved(chats, records) && ChatReserved(chat, records)
    requires forall c :: c in chats ==> chats[c].record < chat.record
    ensures ChatsReserved(chats[id := chat], records)
  {
    var chats' := chats[id := chat];
    forall c | c in chats' ensures ChatReserved(chats'[c], records) {
      assert c != id ==> ChatReserved(chats[c], records);
    }
  }

  lemma ReplyingKeepsInv(w: World, e: Event, base: Base)
    requires e.Replying? && Inv(w, base)
    ensures Inv(Apply(w, e), base)
  {
    if e.id in w.chats {
      var chat := w.chats[e.id];
      var n := Apply(w, e);
      assert ChatReserved(chat, w.db.records);
      ReplyStep(w, e);
      RepliedKeepsInv(w, base, e.id, n);
    }
  }

  lemma ReplyStep(w: World, e: Event)
    requires e.Replying? && e.id in w.chats && w.chats[e.id].record < |w.db.records|
    ensures var n, r := Apply(w, e), w.chats[e.id].record;
            && n == w.(db := w.db.(records := n.db.records, quarantined := n.db.quarantined), chats := w.chats - {e.id})
            && |n.db.records| == |w.db.records|
            && (forall i :: 0 <= i < |w.db.records| && i != r ==> n.db.records[i] == w.db.records[i])
            && n.db.records[r].source == w.db.records[r].source
  {
  }

  lemma RepliedKeepsInv(w: World, base: Base, id: nat, n: World)
    requires Inv(w, base) && id in w.chats && w.chats[id].record < |w.db.records|
    requires w.db.records[w.chats[id].record].source.FromModel?
    requires |n.db.records| == |w.db.records|
    requires forall i :: 0 <= i < |w.db.records| && i != w.chats[id].record ==> n.db.records[i] == w.db.records[i]
    requires n.db.records[w.chats[id].record].source == w.db.records[w.chats[id].record].source
    requires n == w.(db := w.db.(records := n.db.records, quarantined := n.db.quarantined), chats := w.chats - {id})
    ensures Inv(n, base)
  {
    var r := w.chats[id].record;
    var record := n.db.records[r];
    assert n.db.records == w.db.records[r := record];
    ModelRecordChanges(w.db.records, w.db.grants, w.db.tools, base, r, record);
    RepliedCalls(w.calls, w.db, n.db, w.signed, base, r);
    RepliedChats(w.chats, w.db.records, id, record);
    RepliedOverrides(w.overrides, w.db.records, w.consumedBy, r, record);
  }

  lemma RepliedCalls(calls: map<nat, Call>, db: Db, next: Db, signed: set<Grant>, base: Base, r: nat)
    requires CallsRecorded(calls, db, signed, base) && r < |db.records| && db.records[r].source.FromModel?
    requires next == db.(records := next.records, quarantined := next.quarantined)
    requires |next.records| == |db.records| && next.records[r].source == db.records[r].source
    requires forall i :: 0 <= i < |db.records| && i != r ==> next.records[i] == db.records[i]
    ensures CallsRecorded(calls, next, signed, base)
  {
    forall c | c in calls ensures CallRecorded(calls[c], next, signed, base) {
      assert CallRecorded(calls[c], db, signed, base);
    }
  }

  lemma RepliedChats(chats: map<nat, PaidCall>, records: seq<QuotaRecord>, id: nat, record: QuotaRecord)
    requires ChatsReserved(chats, records) && id in chats
    requires chats[id].record < |records| && record.source == records[chats[id].record].source
    ensures ChatsReserved(chats - {id}, records[chats[id].record := record])
  {
    forall c | c in chats - {id} ensures ChatReserved(chats[c], records[chats[id].record := record]) {
      assert ChatReserved(chats[c], records);
    }
  }

  lemma RepliedOverrides(overrides: set<nat>, records: seq<QuotaRecord>, consumedBy: map<nat, nat>, r: nat, record: QuotaRecord)
    requires OverridesApproved(overrides, records, consumedBy) && r < |records| && record.source == records[r].source
    ensures OverridesApproved(overrides, records[r := record], consumedBy)
  {
  }

  lemma ModelRecordChanges(records: seq<QuotaRecord>, grants: seq<GrantRow>, tools: map<string, ToolRow>, base: Base, i: nat, record: QuotaRecord)
    requires RecordsMatchGrants(records, grants, tools, base) && i < |records|
    requires record.source == records[i].source && record.source.FromModel?
    ensures RecordsMatchGrants(records[i := record], grants, tools, base)
  {
    var records' := records[i := record];
    forall g | PaidGrant(grants, tools, base, g)
      ensures exists j :: 0 <= j < |records'| && records'[j].source == FromTool(g)
    {
      var j :| 0 <= j < |records| && records[j].source == FromTool(g);
      assert records'[j].source == FromTool(g);
    }
  }

  // ----- operators, the registry and the rest -----

  lemma AdministeringKeepsInv(w: World, e: Event, base: Base)
    requires e.Administering? && Inv(w, base)
    ensures Inv(Apply(w, e), base)
  {
    if RegistryKept(w.db, e.tasks, e.tools) {
      var n := Apply(w, e);
      assert n == w.(db := w.db.(tasks := e.tasks, tools := e.tools, shares := e.shares));
      RegistryKeepsRecords(w.db.records, w.db.grants, w.db.tools, e.tools, base);
      forall c | c in n.calls ensures CallRecorded(n.calls[c], n.db, n.signed, base) {
        assert CallRecorded(w.calls[c], w.db, w.signed, base);
      }
      assert CallsRecorded(n.calls, n.db, n.signed, base);
    }
  }

  lemma OperatorKeepsInv(w: World, e: Event, base: Base)
    requires (e.Approving? || e.Budgeting? || e.Wait?) && Inv(w, base)
    ensures Inv(Apply(w, e), base)
  {
    var n := Apply(w, e);
    OperatorStep(w, e);
    CallsDropped(w, n.db, w.calls, base);
    assert ApprovalsMatchGrants(n.db.approvals, n.db.grants, base, n.consumedBy);
  }

  lemma OperatorStep(w: World, e: Event)
    requires e.Approving? || e.Budgeting? || e.Wait?
    ensures var n := Apply(w, e);
            && n == w.(now := n.now, db := w.db.(approvals := n.db.approvals, budgets := n.db.budgets))
            && (n.db.approvals == w.db.approvals
                || (|n.db.approvals| > 0 && n.db.approvals == w.db.approvals + [n.db.approvals[|w.db.approvals|]]
                    && !n.db.approvals[|w.db.approvals|].consumed))
  {
  }

  lemma BeginningKeepsInv(w: World, e: Event, base: Base)
    requires e.Beginning? && Inv(w, base)
    ensures Inv(Apply(w, e), base)
  {
    var n := Apply(w, e);
    if n != w {
      BegunCall(w.calls, w.executions, w.db, w.signed, base, e.id, n.calls[e.id]);
      assert n == w.(calls := w.calls[e.id := n.calls[e.id]]);
    }
  }

  lemma BegunCall(calls: map<nat, Call>, executions: seq<Execution>, db: Db, signed: set<Grant>, base: Base, c: nat, call: Call)
    requires CallsRecorded(calls, db, signed, base) && ExecutionsRecorded(executions, calls, db.logs, signed, base)
    requires !HasInvocation(call) && CallRecorded(call, db, signed, base)
    ensures CallsRecorded(calls[c := call], db, signed, base)
    ensures ExecutionsRecorded(executions, calls[c := call], db.logs, signed, base)
  {
    var calls' := calls[c := call];
    forall d | d in calls' ensures CallRecorded(calls'[d], db, signed, base) {
      assert d != c ==> CallRecorded(calls[d], db, signed, base);
    }
  }

  lemma DroppingKeepsInv(w: World, e: Event, base: Base)
    requires (e.DroppingCall? || e.DroppingChat?) && Inv(w, base)
    ensures Inv(Apply(w, e), base)
  {
    CallsDropped(w, w.db, Apply(w, e).calls, base);
  }

  lemma StepKeepsInv(w: World, e: Event, base: Base)
    requires Inv(w, base)
    ensures Inv(Apply(w, e), base)
  {
    match e
    case Wait(_) => OperatorKeepsInv(w, e, base);
    case Approving(_, _, _) => OperatorKeepsInv(w, e, base);
    case Budgeting(_, _, _, _) => OperatorKeepsInv(w, e, base);
    case Administering(_, _, _) => AdministeringKeepsInv(w, e, base);
    case Beginning(_, _, _) => BeginningKeepsInv(w, e, base);
    case Issuing(_, _, _, _, _, _, _) =>
      if WantsGrant(w, e.caller, e.key)
         && IssueTx(w.db, e.config, e.key, e.ttlSeconds, e.policy, e.signature, IssueClockOf(w, e.gaps)).1.Granted? {
        GrantedKeepsInv(w, e, base);
      } else {
        UngrantedKeepsInv(w, e, base);
      }
    case Redeeming(_, _) => RedeemingKeepsInv(w, e, base);
    case Executing(_, _) => ExecutingKeepsInv(w, e, base);
    case Finishing(_) => FinishingKeepsInv(w, e, base);
    case Dispatching(_, _, _, _, _, _, _) => DispatchingKeepsInv(w, e, base);
    case Replying(_, _) => ReplyingKeepsInv(w, e, base);
    case DroppingCall(_) => DroppingKeepsInv(w, e, base);
    case DroppingChat(_) => DroppingKeepsInv(w, e, base);
  }

  /** The accounting holds in every reachable state. */
  lemma {:induction false} ReachableInv(w: World, events: seq<Event>)
    requires Genesis(w)
    ensures Inv(Run(w, events), BaseOf(w))
  {
    if |events| == 0 {
      GenesisInv(w);
    } else {
      ReachableInv(w, events[..|events| - 1]);
      StepKeepsInv(Run(w, events[..|events| - 1]), events[|events| - 1], BaseOf(w));
    }
  }
}
