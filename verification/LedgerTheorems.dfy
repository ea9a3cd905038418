/** What the accounting says about every run of the ledger. */
module LedgerTheorems {
  import opened Wrappers
  import opened Calendar
  import opened Pricing
  import opened Ledger
  import opened GovernanceService
  import opened LedgerRuns
  import opened Accounting
  import opened AccountingRuns

  // ----- one to one -----

  ghost predicate AtMostOneRecord(db: Db, g: nat) {
    forall i, j | 0 <= i < |db.records| && 0 <= j < |db.records| ::
      db.records[i].source == FromTool(g) && db.records[j].source == FromTool(g) ==> i == j
  }

  ghost predicate AtMostOneLog(db: Db, g: nat) {
    forall l, m | 0 <= l < |db.logs| && 0 <= m < |db.logs| ::
      db.logs[l].grantId == Some(g) && db.logs[m].grantId == Some(g) ==> l == m
  }

  /** A grant issued in a run has a permit decision on its own key that no other grant has;
      exactly one quota record if its tool is financial and none otherwise; exactly one
      invocation log if it is redeemed and none otherwise. */
  lemma LiveGrantAccounts(w: World, events: seq<Event>, g: nat)
    requires Genesis(w) && |w.db.grants| <= g < |Run(w, events).db.grants|
    ensures var db := Run(w, events).db;
            var grant := db.grants[g];
            && grant.decisionId < |db.decisions| && db.decisions[grant.decisionId].permit
            && db.decisions[grant.decisionId].key == grant.key
            && (forall h :: |w.db.grants| <= h < |db.grants| && db.grants[h].decisionId == grant.decisionId ==> h == g)
            && grant.key.tool in db.tools
            && ((exists i :: 0 <= i < |db.records| && db.records[i].source == FromTool(g))
                <==> IsFinancial(db.tools[grant.key.tool]))
            && AtMostOneRecord(db, g)
            && ((exists l :: 0 <= l < |db.logs| && db.logs[l].grantId == Some(g)) <==> grant.status == Redeemed)
            && AtMostOneLog(db, g)
  {
    ReachableInv(w, events);
    var db, base := Run(w, events).db, BaseOf(w);
    assert LiveGrant(db.grants, base, g);
    if i :| 0 <= i < |db.records| && db.records[i].source == FromTool(g) {
      assert ToolRecordRight(db.records[i], db.grants, db.tools, base);
    }
    if IsFinancial(db.tools[db.grants[g].key.tool]) {
      assert PaidGrant(db.grants, db.tools, base, g);
    }
  }

  /** Imported grants never change and no grant ever follows from a deny decision; a permit
      decision taken in the run has exactly one grant. */
  lemma DecisionsAndImportedGrants(w: World, events: seq<Event>)
    requires Genesis(w)
    ensures var db := Run(w, events).db;
            && w.db.grants <= db.grants
            && (forall d :: |w.db.decisions| <= d < |db.decisions| ==>
                  (db.decisions[d].permit
                   <==> exists g :: |w.db.grants| <= g < |db.grants| && db.grants[g].decisionId == d))
  {
    ReachableInv(w, events);
    var db, base := Run(w, events).db, BaseOf(w);
    forall d | |w.db.decisions| <= d < |db.decisions| && db.decisions[d].permit
      ensures exists g :: |w.db.grants| <= g < |db.grants| && db.grants[g].decisionId == d
    {
      var g :| LiveGrant(db.grants, base, g) && db.grants[g].decisionId == d;
      assert |w.db.grants| <= g < |db.grants| && db.grants[g].decisionId == d;
    }
    forall g | |w.db.grants| <= g < |db.grants| ensures db.decisions[db.grants[g].decisionId].permit {
      assert LiveGrant(db.grants, base, g);
    }
  }

  /** Each consumed approval was used by one grant on exactly its key, no two by the same grant,
      and every record that went past a budget belongs to a grant that used one. */
  lemma ApprovalsAccount(w: World, events: seq<Event>)
    requires Genesis(w)
    ensures var n := Run(w, events);
            && (forall a :: 0 <= a < |n.db.approvals| ==> (n.db.approvals[a].consumed <==> a in n.consumedBy))
            && (forall a :: a in n.consumedBy ==>
                  a < |n.db.approvals| && n.consumedBy[a] < |n.db.grants|
                  && n.db.grants[n.consumedBy[a]].key == n.db.approvals[a].key)
            && (forall a, b :: a in n.consumedBy && b in n.consumedBy && n.consumedBy[a] == n.consumedBy[b] ==> a == b)
            && (forall i :: i in n.overrides ==>
                  i < |n.db.records| && n.db.records[i].source.FromTool?
                  && exists a :: a in n.consumedBy && n.consumedBy[a] == n.db.records[i].source.grantId)
  {
    ReachableInv(w, events);
  }

  // ----- handler runs -----

  /** Handler runs map one to one to permit decisions on exactly the task, principal, tool and
      arguments they ran with. */
  lemma ExecutionsMapToDecisions(w: World, events: seq<Event>, x: nat, y: nat)
    requires Genesis(w) && x < |Run(w, events).executions| && y < |Run(w, events).executions|
    ensures var n := Run(w, events);
            var a, b := n.executions[x], n.executions[y];
            && a.grant.decisionId < |n.db.decisions|
            && n.db.decisions[a.grant.decisionId].permit && n.db.decisions[a.grant.decisionId].key == a.key
            && (x != y ==> a.grant.grantId != b.grant.grantId && a.grant.decisionId != b.grant.decisionId)
  {
    ReachableInv(w, events);
    var n, base := Run(w, events), BaseOf(w);
    var a, b := n.executions[x], n.executions[y];
    assert a.grant in n.signed && b.grant in n.signed;
    assert LiveGrant(n.db.grants, base, a.grant.grantId) && LiveGrant(n.db.grants, base, b.grant.grantId);
    if x != y {
      assert a.invocation != b.invocation;
      assert n.db.logs[a.invocation].grantId != n.db.logs[b.invocation].grantId;
    }
  }

  /** Event j of the run issued this grant, for a whole number of seconds from 1 to 300. */
  ghost predicate IssuedAt(w: World, events: seq<Event>, j: nat, grant: Grant) {
    && j < |events| && events[j].Issuing?
    && var m, e := Run(w, events[..j]), events[j];
       var outcome := IssueTx(m.db, e.config, e.key, e.ttlSeconds, e.policy, e.signature, IssueClockOf(m, e.gaps)).1;
       && outcome.Granted? && outcome.grant == grant && e.key == grant.key
       && 1 <= e.ttlSeconds <= 300 && grant.issuedAt == IssueClockOf(m, e.gaps).stampAt
       && grant.expiresAt == IssueClockOf(m, e.gaps).stampAt + e.ttlSeconds * SECOND
  }

  /** Event i of the run redeemed this grant for a call that held it: it was still unused, not
      expired, and its tool was owned by or shared with the organization of the task. */
  ghost predicate RedeemedAt(w: World, events: seq<Event>, i: nat, grant: Grant, invocation: nat) {
    && i < |events| && events[i].Redeeming?
    && var m, e := Run(w, events[..i]), events[i];
       var clock := RedeemClockOf(m, e.gaps);
       && e.id in m.calls && m.calls[e.id].Holding? && m.calls[e.id].grant == grant && m.calls[e.id].key == grant.key
       && grant in m.signed && ToolVisibleToTask(m.db, grant.key)
       && grant.grantId < |m.db.grants| && m.db.grants[grant.grantId].status == Issued
       && clock.redeemAt < grant.expiresAt
       && RedeemTx(m.db, m.signed, grant, grant.key, clock).1 == Success(invocation)
  }

  /** What happened in a prefix happened in the run. */
  lemma IssuedEarlier(w: World, prefix: seq<Event>, events: seq<Event>, j: nat, grant: Grant)
    requires prefix <= events && IssuedAt(w, prefix, j, grant)
    ensures IssuedAt(w, events, j, grant)
  {
    assert prefix[..j] == events[..j] && prefix[j] == events[j];
  }

  lemma RedeemedEarlier(w: World, prefix: seq<Event>, events: seq<Event>, i: nat, grant: Grant, invocation: nat)
    requires prefix <= events && RedeemedAt(w, prefix, i, grant, invocation)
    ensures RedeemedAt(w, events, i, grant, invocation)
  {
    assert prefix[..i] == events[..i] && prefix[i] == events[i];
  }

  lemma {:induction false} SignedWasIssued(w: World, events: seq<Event>, grant: Grant) returns (j: nat)
    requires Genesis(w) && grant in Run(w, events).signed
    ensures IssuedAt(w, events, j, grant)
  {
    var prefix, last := events[..|events| - 1], |events| - 1;
    if grant in Run(w, prefix).signed {
      j := SignedWasIssued(w, prefix, grant);
      IssuedEarlier(w, prefix, events, j, grant);
    } else {
      j := last;
      SigningStep(Run(w, prefix), events[last], grant);
    }
  }

  lemma SigningStep(m: World, e: Event, grant: Grant)
    requires grant in Apply(m, e).signed && grant !in m.signed
    ensures e.Issuing?
    ensures var outcome := IssueTx(m.db, e.config, e.key, e.ttlSeconds, e.policy, e.signature, IssueClockOf(m, e.gaps)).1;
            && outcome.Granted? && outcome.grant == grant && e.key == grant.key
            && 1 <= e.ttlSeconds <= 300 && grant.issuedAt == IssueClockOf(m, e.gaps).stampAt
            && grant.expiresAt == IssueClockOf(m, e.gaps).stampAt + e.ttlSeconds * SECOND
  {
  }

  lemma {:induction false} CallWasRedeemed(w: World, events: seq<Event>, c: nat) returns (i: nat)
    requires Genesis(w) && c in Run(w, events).calls && Redemption(Run(w, events).calls[c])
    ensures var call := Run(w, events).calls[c]; RedeemedAt(w, events, i, call.grant, call.invocation)
  {
    var prefix, last := events[..|events| - 1], |events| - 1;
    var m, e := Run(w, prefix), events[last];
    RedemptionStep(m, e, c);
    if c in m.calls && Redemption(m.calls[c]) {
      i := CallWasRedeemed(w, prefix, c);
      RedeemedEarlier(w, prefix, events, i, m.calls[c].grant, m.calls[c].invocation);
    } else {
      i := last;
      ReachableInv(w, prefix);
      SignedExpiry(m, BaseOf(w), Apply(m, e).calls[c].grant);
    }
  }

  /** A signed grant and its row expire together. */
  lemma SignedExpiry(m: World, base: Base, grant: Grant)
    requires Inv(m, base) && grant in m.signed
    ensures grant.grantId < |m.db.grants| && m.db.grants[grant.grantId].expiresAt == grant.expiresAt
  {
    assert LiveGrant(m.db.grants, base, grant.grantId) && MatchesRow(m.db.grants[grant.grantId], grant);
  }

  /** A call that holds a redemption after a step either held the same one or has just redeemed. */
  lemma RedemptionStep(m: World, e: Event, c: nat)
    requires c in Apply(m, e).calls && Redemption(Apply(m, e).calls[c])
    ensures var call := Apply(m, e).calls[c];
            if c in m.calls && Redemption(m.calls[c])
            then call.grant == m.calls[c].grant && call.invocation == m.calls[c].invocation
            else
              && e.Redeeming? && e.id in m.calls && m.calls[e.id].Holding? && m.calls[e.id].grant == call.grant
              && m.calls[e.id].key == call.grant.key && call.grant in m.signed && ToolVisibleToTask(m.db, call.grant.key)
              && Redeemable(m.db, call.grant, RedeemClockOf(m, e.gaps).redeemAt)
              && RedeemTx(m.db, m.signed, call.grant, call.grant.key, RedeemClockOf(m, e.gaps)).1 == Success(call.invocation)
  {
    if !e.Redeeming? { OldRedemption(m, e, c); }
  }

  lemma OldRedemption(m: World, e: Event, c: nat)
    requires !e.Redeeming? && c in Apply(m, e).calls && Redemption(Apply(m, e).calls[c])
    ensures c in m.calls && Redemption(m.calls[c])
    ensures Apply(m, e).calls[c].grant == m.calls[c].grant && Apply(m, e).calls[c].invocation == m.calls[c].invocation
  {
    match e
    case Issuing(_, _, _, _, _, _, _) =>
    case Dispatching(_, _, _, _, _, _, _) =>
    case Finishing(_) =>
    case _ =>
  }

  /** Issued at j, redeemed at i, and in between not for longer than the grant was issued for. */
  ghost predicate AuthorizedBy(w: World, events: seq<Event>, j: nat, i: nat, grant: Grant, invocation: nat) {
    && j < i && IssuedAt(w, events, j, grant) && RedeemedAt(w, events, i, grant, invocation)
    && RedeemClockOf(Run(w, events[..i]), events[i].gaps).redeemAt
       < IssueClockOf(Run(w, events[..j]), events[j].gaps).stampAt + events[j].ttlSeconds * SECOND
  }

  lemma AuthorizedEarlier(w: World, prefix: seq<Event>, events: seq<Event>, j: nat, i: nat, grant: Grant, invocation: nat)
    requires prefix <= events && AuthorizedBy(w, prefix, j, i, grant, invocation)
    ensures AuthorizedBy(w, events, j, i, grant, invocation)
  {
    IssuedEarlier(w, prefix, events, j, grant);
    RedeemedEarlier(w, prefix, events, i, grant, invocation);
    assert prefix[..j] == events[..j] && prefix[..i] == events[..i];
  }

  /** Every handler run used a grant that an earlier issue signed for this key, and that one
      redemption in between, by the call that ran, accepted while it was unused, unexpired and its
      tool visible, before the seconds it was issued for were over. */
  lemma {:induction false} ExecutionWasAuthorized(w: World, events: seq<Event>, x: nat) returns (j: nat, i: nat)
    requires Genesis(w) && x < |Run(w, events).executions|
    ensures var run := Run(w, events).executions[x];
            run.key == run.grant.key && AuthorizedBy(w, events, j, i, run.grant, run.invocation)
  {
    var prefix, e := events[..|events| - 1], events[|events| - 1];
    assert events == prefix + [e];
    var run := Run(w, events).executions[x];
    if x < |Run(w, prefix).executions| {
      j, i := ExecutionWasAuthorized(w, prefix, x);
      OldExecution(w, prefix, e, x);
    } else {
      j, i := NewExecution(w, prefix, e, x);
    }
    AuthorizedEarlier(w, prefix, events, j, i, run.grant, run.invocation);
  }

  lemma OldExecution(w: World, prefix: seq<Event>, e: Event, x: nat)
    requires x < |Run(w, prefix).executions|
    ensures x < |Run(w, prefix + [e]).executions| && Run(w, prefix + [e]).executions[x] == Run(w, prefix).executions[x]
  {
    OneMore(w, prefix, e);
    ExecutionsKept(Run(w, prefix), e);
  }

  /** The case of the last event: the call that runs its handler had been authorized. */
  lemma NewExecution(w: World, prefix: seq<Event>, e: Event, x: nat) returns (j: nat, i: nat)
    requires Genesis(w) && |Run(w, prefix).executions| <= x < |Run(w, prefix + [e]).executions|
    ensures var run := Run(w, prefix + [e]).executions[x];
            run.key == run.grant.key && AuthorizedBy(w, prefix, j, i, run.grant, run.invocation)
  {
    OneMore(w, prefix, e);
    ExecutionStep(Run(w, prefix), e);
    j, i := RunningIsAuthorized(w, prefix, e.id);
  }

  lemma RunningIsAuthorized(w: World, events: seq<Event>, c: nat) returns (j: nat, i: nat)
    requires Genesis(w) && c in Run(w, events).calls && Run(w, events).calls[c].Running?
    ensures var call := Run(w, events).calls[c];
            call.key == call.grant.key && AuthorizedBy(w, events, j, i, call.grant, call.invocation)
  {
    j, i := CallWasAuthorized(w, events, c);
    ReachableInv(w, events);
    RedemptionKey(Run(w, events), BaseOf(w), c);
  }

  lemma RedemptionKey(n: World, base: Base, c: nat)
    requires Inv(n, base) && c in n.calls && Redemption(n.calls[c])
    ensures n.calls[c].key == n.calls[c].grant.key
  {
    assert CallRecorded(n.calls[c], n.db, n.signed, base);
  }

  lemma CallWasAuthorized(w: World, events: seq<Event>, c: nat) returns (j: nat, i: nat)
    requires Genesis(w) && c in Run(w, events).calls && Redemption(Run(w, events).calls[c])
    ensures var call := Run(w, events).calls[c];
            AuthorizedBy(w, events, j, i, call.grant, call.invocation)
  {
    i := CallWasRedeemed(w, events, c);
    j := SignedWasIssued(w, events[..i], Run(w, events).calls[c].grant);
    IssuedEarlier(w, events[..i], events, j, Run(w, events).calls[c].grant);
  }

  lemma ExecutionsKept(m: World, e: Event)
    ensures m.executions <= Apply(m, e).executions
  {
  }

  lemma ExecutionStep(m: World, e: Event)
    requires |m.executions| < |Apply(m, e).executions|
    ensures e.Executing? && e.id in m.calls && m.calls[e.id].Running?
    ensures var call := m.calls[e.id];
            Apply(m, e).executions == m.executions + [Execution(call.invocation, call.grant, call.key)]
  {
  }

  /** In every run, redeeming a signed grant for its own key succeeds exactly when it has no
      invocation log yet, has not expired at either clock reading and its tool is visible. */
  lemma RedeemSucceedsExactlyWhen(w: World, events: seq<Event>, grant: Grant, clock: RedeemClock)
    requires Genesis(w) && grant in Run(w, events).signed
    ensures var n := Run(w, events);
            RedeemTx(n.db, n.signed, grant, grant.key, clock).1.Success?
            <==> && clock.verifyAt < grant.expiresAt && clock.redeemAt < grant.expiresAt
                 && ToolVisibleToTask(n.db, grant.key)
                 && forall l :: 0 <= l < |n.db.logs| ==> n.db.logs[l].grantId != Some(grant.grantId)
  {
    ReachableInv(w, events);
    var n := Run(w, events);
    SignedRow(n, BaseOf(w), grant);
    LiveGrantAccounts(w, events, grant.grantId);
  }

  lemma SignedRow(n: World, base: Base, grant: Grant)
    requires Inv(n, base) && grant in n.signed
    ensures |base.grants| <= grant.grantId < |n.db.grants|
    ensures var row := n.db.grants[grant.grantId];
            row.decisionId == grant.decisionId && row.signature == grant.signature && row.expiresAt == grant.expiresAt
            && (row.status == Issued || row.status == Redeemed)
  {
    assert LiveGrant(n.db.grants, base, grant.grantId) && MatchesRow(n.db.grants[grant.grantId], grant);
  }

  // ----- settlement of tool calls -----

  function UsedUnits(units: Option<int>): int { if units.Some? then units.value else 0 }

  /** What settling reservation r does to the tables. Usage up to the registered maximum makes
      the record the fixed cost plus the metered cost rounded up, within the reservation; missing
      usage of a metered tool leaves the record whole; usage out of bounds leaves every table as
      it was. */
  ghost predicate Settles(db: Db, next: Db, tool: ToolRow, invocation: nat, units: Option<int>, r: nat) {
    && MeteredQuote(tool.pricing).Some?
    && var (_, rate, maximum) := MeteredQuote(tool.pricing).value;
       SettlesAt(db, next, rate, maximum, tool.fixedCents, invocation, units, r)
  }

  ghost predicate SettlesAt(db: Db, next: Db, rate: nat, maximum: nat, fixedCents: nat, invocation: nat, units: Option<int>, r: nat) {
    && r < |db.records| && invocation < |db.logs|
    && var record, succeeded := db.records[r], db.logs[invocation := db.logs[invocation].(outcome := Succeeded)];
       if rate != 0 && units.None? then next == db.(logs := succeeded)
       else if 0 <= UsedUnits(units) <= maximum then
         var cents := fixedCents + MeteredCents(rate, UsedUnits(units));
         && cents <= record.reserved
         && next == db.(logs := succeeded, records := db.records[r := record.(
              amount := cents, units := Some(UsedUnits(units)), settled := true)])
       else next == db
  }

  lemma SettleExact(db: Db, tool: ToolRow, invocation: nat, g: nat, units: Option<int>, r: nat)
    requires r < |db.records| && RecordOf(db.records, g) == Some(r) && invocation < |db.logs|
    requires ToolRecordPriced(db.records[r], tool) && !db.records[r].settled
    ensures Settles(db, SettleTx(db, tool, invocation, g, units).0, tool, invocation, units, r)
  {
    var (worst, rate, maximum) := MeteredQuote(tool.pricing).value;
    assert worst == MeteredCents(rate, maximum) && db.records[r].amount == tool.fixedCents + worst;
    SettledRecordsOf(db.records, tool, g, units, r);
    SettledTables(db, tool, invocation, g, units);
    SettleAt(db, SettledRecords(db.records, tool, g, units), SettleTx(db, tool, invocation, g, units).0, rate, maximum,
             tool.fixedCents, invocation, units, r);
  }

  lemma SettleAt(db: Db, settled: Option<seq<QuotaRecord>>, next: Db, rate: nat, maximum: nat, fixedCents: nat,
                 invocation: nat, units: Option<int>, r: nat)
    requires r < |db.records| && invocation < |db.logs| && !db.records[r].settled
    requires db.records[r].amount == db.records[r].reserved == fixedCents + MeteredCents(rate, maximum)
    requires settled == if rate != 0 && units.None? then Some(db.records)
                        else SettleRecord(db.records, r, UsedUnits(units), rate, maximum, fixedCents)
    requires next == if settled.None? then db
                     else db.(records := settled.value, logs := db.logs[invocation := db.logs[invocation].(outcome := Succeeded)])
    ensures SettlesAt(db, next, rate, maximum, fixedCents, invocation, units, r)
  {
    SettleRecordExact(db.records, r, UsedUnits(units), rate, maximum, fixedCents);
  }

  lemma SettledRecordsOf(records: seq<QuotaRecord>, tool: ToolRow, g: nat, units: Option<int>, r: nat)
    requires RecordOf(records, g) == Some(r) && MeteredQuote(tool.pricing).Some?
    ensures var (_, rate, maximum) := MeteredQuote(tool.pricing).value;
            SettledRecords(records, tool, g, units)
            == if rate != 0 && units.None? then Some(records)
               else SettleRecord(records, r, UsedUnits(units), rate, maximum, tool.fixedCents)
  {
  }

  lemma SettledTables(db: Db, tool: ToolRow, invocation: nat, g: nat, units: Option<int>)
    requires invocation < |db.logs|
    ensures var settled := SettledRecords(db.records, tool, g, units);
            SettleTx(db, tool, invocation, g, units).0
            == if settled.None? then db
               else db.(records := settled.value, logs := db.logs[invocation := db.logs[invocation].(outcome := Succeeded)])
  {
  }

  lemma SettleRecordExact(records: seq<QuotaRecord>, r: nat, units: int, rate: nat, maximum: nat, fixedCents: nat)
    requires r < |records| && !records[r].settled && records[r].amount == fixedCents + MeteredCents(rate, maximum)
    ensures SettleRecord(records, r, units, rate, maximum, fixedCents)
         == if 0 <= units <= maximum
            then Some(records[r := records[r].(amount := fixedCents + MeteredCents(rate, units), units := Some(units), settled := true)])
            else None
    ensures 0 <= units <= maximum ==> fixedCents + MeteredCents(rate, units) <= records[r].amount
  {
    if 0 <= units <= maximum {
      MeteredCentsMonotone(rate, units, maximum);
    }
  }

  /** A returned call stands on a whole reservation priced by its tool. */
  lemma ReturnedCallIsWhole(n: World, base: Base, c: nat, r: nat)
    requires Inv(n, base) && c in n.calls && n.calls[c].Returned?
    requires r < |n.db.records| && n.db.records[r].source == FromTool(n.calls[c].grant.grantId)
    ensures var call, record := n.calls[c], n.db.records[r];
            && ToolRecordPriced(record, call.tool) && !record.settled
            && RecordOf(n.db.records, call.grant.grantId) == Some(r)
            && call.invocation < |n.db.logs| && n.db.logs[call.invocation].outcome == Authorized
  {
    assert CallRecorded(n.calls[c], n.db, n.signed, base);
    assert ToolRecordRight(n.db.records[r], n.db.grants, n.db.tools, base);
    assert n.db.grants[n.calls[c].grant.grantId].key == n.calls[c].key;
  }

  /** When a call whose handler returned is finished, its reservation is still whole and its log
      still says authorized, and the settlement is exact. */
  lemma SettlementConserves(w: World, events: seq<Event>, c: nat, r: nat)
    requires Genesis(w)
    requires var n := Run(w, events);
             && c in n.calls && n.calls[c].Returned?
             && r < |n.db.records| && n.db.records[r].source == FromTool(n.calls[c].grant.grantId)
    ensures var n, next := Run(w, events), Run(w, events + [Finishing(c)]);
            var call, record := n.calls[c], n.db.records[r];
            && !record.settled && record.amount == record.reserved
            && call.invocation < |n.db.logs| && n.db.logs[call.invocation].outcome == Authorized
            && Settles(n.db, next.db, call.tool, call.invocation, call.units, r)
  {
    ReachableInv(w, events);
    var n := Run(w, events);
    var call := n.calls[c];
    ReturnedCallIsWhole(n, BaseOf(w), c, r);
    SettleExact(n.db, call.tool, call.invocation, call.grant.grantId, call.units, r);
    OneMore(w, events, Finishing(c));
    FinishSettles(n, c);
  }

  lemma FinishSettles(n: World, c: nat)
    requires c in n.calls && n.calls[c].Returned?
    ensures var call := n.calls[c];
            Apply(n, Finishing(c)).db == SettleTx(n.db, call.tool, call.invocation, call.grant.grantId, call.units).0
  {
  }

  lemma OneMore(w: World, events: seq<Event>, e: Event)
    ensures Run(w, events + [e]) == Apply(Run(w, events), e)
  {
    assert (events + [e])[..|events|] == events;
  }

  // ----- settlement of paid model calls -----

  /** The reply to a call whose reservation is whole, on the tables alone. */
  lemma ReplyExact(db: Db, chat: PaidCall, usage: Usage)
    requires ChatReserved(chat, db.records)
    ensures var next := UpstreamReplyTx(db, chat, usage).0;
            if WithinBounds(chat, usage) then
              var cents := SettledModelCents(chat.quote, usage.value.0, usage.value.1);
              && 0 <= cents <= chat.reservedCents
              && next == db.(records := db.records[chat.record := db.records[chat.record].(
                   amount := cents, units := Some(usage.value.0 + usage.value.1), settled := true)])
            else next == db.(quarantined := db.quarantined + {chat.node})
  {
    if WithinBounds(chat, usage) {
      SettledModelCentsMonotone(chat.quote, usage.value.0, usage.value.1, chat.promptBound, chat.outputLimit);
    }
  }

  /** A usage report within the admitted bounds always settles the call, at most at the whole
      reservation; any other report quarantines the node and leaves the reservation whole. */
  lemma PaidCallSettles(w: World, events: seq<Event>, c: nat, usage: Usage)
    requires Genesis(w) && c in Run(w, events).chats
    ensures var n, next := Run(w, events), Run(w, events + [Replying(c, usage)]);
            var chat := n.chats[c];
            && chat.record < |n.db.records|
            && !n.db.records[chat.record].settled && n.db.records[chat.record].amount == chat.reservedCents
            && if WithinBounds(chat, usage) then
                 var cents := SettledModelCents(chat.quote, usage.value.0, usage.value.1);
                 && 0 <= cents <= chat.reservedCents
                 && next.db == n.db.(records := n.db.records[chat.record := n.db.records[chat.record].(
                      amount := cents, units := Some(usage.value.0 + usage.value.1), settled := true)])
               else next.db == n.db.(quarantined := n.db.quarantined + {chat.node})
  {
    ReachableInv(w, events);
    var chat := Run(w, events).chats[c];
    assert ChatReserved(chat, Run(w, events).db.records);
    ReplyExact(Run(w, events).db, chat, usage);
    OneMore(w, events, Replying(c, usage));
    ReplyingWrites(Run(w, events), c, usage);
  }

  lemma ReplyingWrites(n: World, c: nat, usage: Usage)
    requires c in n.chats
    ensures Apply(n, Replying(c, usage)).db == UpstreamReplyTx(n.db, n.chats[c], usage).0
  {
  }
}
