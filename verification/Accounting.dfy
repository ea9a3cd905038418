/** What every reachable ledger satisfies: decisions, grants, approvals, quota records,
    invocation logs and handler runs match one to one. */
module Accounting {
  import opened Wrappers
  import opened Calendar
  import opened Pricing
  import opened Ledger
  import opened GovernanceService
  import opened LedgerRuns

  /** The imported part of the ledger: how many decisions, and the grants and logs themselves. */
  datatype Base = Base(decisions: nat, grants: seq<GrantRow>, logs: nat)

  function BaseOf(w: World): Base { Base(|w.db.decisions|, w.db.grants, |w.db.logs|) }

  /** A grant that was issued here rather than imported. */
  predicate LiveGrant(grants: seq<GrantRow>, base: Base, g: int) { |base.grants| <= g < |grants| }

  // ----- grants and decisions -----

  /** Imported grants never change. Every other grant has a permit decision of its own on its
      key, and every permit decision has such a grant. */
  ghost predicate GrantsMatchDecisions(decisions: seq<Decision>, grants: seq<GrantRow>, base: Base) {
    && base.grants <= grants && base.decisions <= |decisions|
    && (forall g :: 0 <= g < |base.grants| ==> base.grants[g].status == LegacyExpired)
    && (forall g :: LiveGrant(grants, base, g) ==>
          && grants[g].status != LegacyExpired
          && base.decisions <= grants[g].decisionId < |decisions|
          && decisions[grants[g].decisionId].permit
          && decisions[grants[g].decisionId].key == grants[g].key)
    && (forall g, h :: LiveGrant(grants, base, g) && LiveGrant(grants, base, h) && g != h ==>
          grants[g].decisionId != grants[h].decisionId)
    && (forall d :: base.decisions <= d < |decisions| && decisions[d].permit ==>
          exists g :: LiveGrant(grants, base, g) && grants[g].decisionId == d)
  }

  // ----- signed grants -----

  predicate MatchesRow(row: GrantRow, grant: Grant) {
    row.decisionId == grant.decisionId && row.key == grant.key && row.signature == grant.signature
    && row.issuedAt == grant.issuedAt && row.expiresAt == grant.expiresAt
  }

  /** Every grant that verifies is a row of the table, as signed. */
  ghost predicate SignedGrantsRecorded(grants: seq<GrantRow>, base: Base, signed: set<Grant>) {
    forall s :: s in signed ==> LiveGrant(grants, base, s.grantId) && MatchesRow(grants[s.grantId], s)
  }

  // ----- approvals -----

  /** Each consumed approval was consumed by one grant on the same key, and each grant consumed
      at most one. */
  ghost predicate ApprovalsMatchGrants(approvals: seq<Approval>, grants: seq<GrantRow>, base: Base, consumedBy: map<nat, nat>) {
    && (forall a :: a in consumedBy ==>
          && a < |approvals| && LiveGrant(grants, base, consumedBy[a])
          && grants[consumedBy[a]].key == approvals[a].key)
    && (forall a :: 0 <= a < |approvals| ==> (approvals[a].consumed <==> a in consumedBy))
    && (forall a, b :: a in consumedBy && b in consumedBy && a != b ==> consumedBy[a] != consumedBy[b])
  }

  // ----- quota records -----

  ghost predicate PaidGrant(grants: seq<GrantRow>, tools: map<string, ToolRow>, base: Base, g: int) {
    LiveGrant(grants, base, g) && grants[g].key.tool in tools && IsFinancial(tools[grants[g].key.tool])
  }

  /** What a tool reservation is worth before and after settlement. */
  ghost predicate ToolRecordPriced(record: QuotaRecord, tool: ToolRow) {
    && ToolCost(tool) == Some(record.reserved)
    && (!record.settled ==> record.amount == record.reserved && record.units == None)
    && (record.settled ==>
          && record.units.Some? && MeteredQuote(tool.pricing).Some?
          && var (_, rate, maximum) := MeteredQuote(tool.pricing).value;
             0 <= record.units.value <= maximum
             && record.amount == tool.fixedCents + MeteredCents(rate, record.units.value)
             && record.amount <= record.reserved)
  }

  ghost predicate ToolRecordRight(record: QuotaRecord, grants: seq<GrantRow>, tools: map<string, ToolRow>, base: Base) {
    record.source.FromTool? ==>
      && PaidGrant(grants, tools, base, record.source.grantId)
      && record.task == grants[record.source.grantId].key.task
      && ToolRecordPriced(record, tools[grants[record.source.grantId].key.tool])
  }

  /** Each grant of a financial tool has exactly one quota record, and no other grant has one. */
  ghost predicate RecordsMatchGrants(records: seq<QuotaRecord>, grants: seq<GrantRow>, tools: map<string, ToolRow>, base: Base) {
    && (forall g :: LiveGrant(grants, base, g) ==> grants[g].key.tool in tools)
    && (forall i :: 0 <= i < |records| ==> ToolRecordRight(records[i], grants, tools, base))
    && (forall i, j :: 0 <= i < |records| && 0 <= j < |records| && i != j && records[i].source.FromTool? ==>
          records[i].source != records[j].source)
    && (forall g :: PaidGrant(grants, tools, base, g) ==>
          exists i :: 0 <= i < |records| && records[i].source == FromTool(g))
  }

  /** Only a redeemed grant's reservation has been settled. */
  ghost predicate SettledAfterRedemption(records: seq<QuotaRecord>, grants: seq<GrantRow>) {
    forall i :: 0 <= i < |records| && records[i].source.FromTool? && records[i].settled ==>
      records[i].source.grantId < |grants| && grants[records[i].source.grantId].status == Redeemed
  }

  // ----- invocation logs -----

  /** Each redeemed grant has exactly one invocation log, and no other live grant has one. */
  ghost predicate LogsMatchGrants(logs: seq<LogRow>, grants: seq<GrantRow>, base: Base) {
    && base.logs <= |logs|
    && (forall l :: 0 <= l < base.logs && logs[l].grantId.Some? ==> logs[l].grantId.value < |base.grants|)
    && (forall l :: base.logs <= l < |logs| ==>
          && logs[l].grantId.Some? && LiveGrant(grants, base, logs[l].grantId.value)
          && grants[logs[l].grantId.value].status == Redeemed)
    && (forall l, m :: base.logs <= l < |logs| && base.logs <= m < |logs| && l != m ==>
          logs[l].grantId != logs[m].grantId)
    && (forall g :: LiveGrant(grants, base, g) && grants[g].status == Redeemed ==>
          exists l :: base.logs <= l < |logs| && logs[l].grantId == Some(g))
  }

  // ----- calls in flight and handler runs -----

  predicate Redemption(call: Call) { call.Running? || call.Returned? }

  predicate HasInvocation(call: Call) { Redemption(call) || call.Raised? }

  ghost predicate Unsettled(records: seq<QuotaRecord>, g: nat) {
    forall i :: 0 <= i < |records| && records[i].source == FromTool(g) ==> !records[i].settled
  }

  /** A redeemed call holds the log of its own grant; until it is settled, the reservation of
      the grant is whole. */
  ghost predicate CallRecorded(call: Call, db: Db, signed: set<Grant>, base: Base) {
    && (!call.Raised? ==> call.key.tool in db.tools && SameCost(call.tool, db.tools[call.key.tool]))
    && (HasInvocation(call) ==> base.logs <= call.invocation < |db.logs| && db.logs[call.invocation].outcome == Authorized)
    && (Redemption(call) ==>
          && db.logs[call.invocation].grantId == Some(call.grant.grantId)
          && call.grant in signed && call.grant.key == call.key
          && Unsettled(db.records, call.grant.grantId))
  }

  ghost predicate CallsRecorded(calls: map<nat, Call>, db: Db, signed: set<Grant>, base: Base) {
    && (forall c :: c in calls ==> CallRecorded(calls[c], db, signed, base))
    && (forall c, d :: c in calls && d in calls && c != d && HasInvocation(calls[c]) && HasInvocation(calls[d]) ==>
          calls[c].invocation != calls[d].invocation)
  }

  /** Each handler run has a log row of its own, which no call still waiting to run holds. */
  ghost predicate ExecutionsRecorded(executions: seq<Execution>, calls: map<nat, Call>, logs: seq<LogRow>, signed: set<Grant>, base: Base) {
    && (forall x :: 0 <= x < |executions| ==>
          && base.logs <= executions[x].invocation < |logs|
          && logs[executions[x].invocation].grantId == Some(executions[x].grant.grantId)
          && executions[x].grant in signed && executions[x].grant.key == executions[x].key)
    && (forall x, y :: 0 <= x < y < |executions| ==> executions[x].invocation != executions[y].invocation)
    && (forall x, c :: 0 <= x < |executions| && c in calls && calls[c].Running? ==>
          calls[c].invocation != executions[x].invocation)
  }

  // ----- overrides and paid model calls -----

  /** Every record that went past a budget belongs to a grant that consumed an approval. */
  ghost predicate OverridesApproved(overrides: set<nat>, records: seq<QuotaRecord>, consumedBy: map<nat, nat>) {
    forall i :: i in overrides ==>
      && i < |records| && records[i].source.FromTool?
      && exists a :: a in consumedBy && consumedBy[a] == records[i].source.grantId
  }

  ghost predicate ChatReserved(chat: PaidCall, records: seq<QuotaRecord>) {
    && chat.record < |records|
    && records[chat.record].source == FromModel(chat.node)
    && !records[chat.record].settled
    && records[chat.record].amount == chat.reservedCents
    && SettledModelCents(chat.quote, chat.promptBound, chat.outputLimit) == chat.reservedCents
  }

  /** An open paid call holds a whole model reservation that is the price of its worst case. */
  ghost predicate ChatsReserved(chats: map<nat, PaidCall>, records: seq<QuotaRecord>) {
    && (forall c :: c in chats ==> ChatReserved(chats[c], records))
    && (forall c, d :: c in chats && d in chats && c != d ==> chats[c].record != chats[d].record)
  }

  ghost predicate Inv(w: World, base: Base) {
    && GrantsMatchDecisions(w.db.decisions, w.db.grants, base)
    && SignedGrantsRecorded(w.db.grants, base, w.signed)
    && ApprovalsMatchGrants(w.db.approvals, w.db.grants, base, w.consumedBy)
    && RecordsMatchGrants(w.db.records, w.db.grants, w.db.tools, base)
    && SettledAfterRedemption(w.db.records, w.db.grants)
    && LogsMatchGrants(w.db.logs, w.db.grants, base)
    && CallsRecorded(w.calls, w.db, w.signed, base)
    && ExecutionsRecorded(w.executions, w.calls, w.db.logs, w.signed, base)
    && OverridesApproved(w.overrides, w.db.records, w.consumedBy)
    && ChatsReserved(w.chats, w.db.records)
  }

  lemma GenesisInv(w: World)
    requires Genesis(w)
    ensures Inv(w, BaseOf(w))
  {
  }

  // ----- a grant joins the table -----

  lemma DecisionDenied(decisions: seq<Decision>, grants: seq<GrantRow>, base: Base, row: Decision)
    requires GrantsMatchDecisions(decisions, grants, base) && !row.permit
    ensures GrantsMatchDecisions(decisions + [row], grants, base)
  {
  }

  lemma GrantJoinsDecisions(decisions: seq<Decision>, grants: seq<GrantRow>, base: Base, row: Decision, grant: GrantRow)
    requires GrantsMatchDecisions(decisions, grants, base)
    requires row.permit && grant.decisionId == |decisions| && grant.key == row.key && grant.status == Issued
    ensures GrantsMatchDecisions(decisions + [row], grants + [grant], base)
  {
    var decisions', grants' := decisions + [row], grants + [grant];
    forall d | base.decisions <= d < |decisions'| && decisions'[d].permit
      ensures exists g :: LiveGrant(grants', base, g) && grants'[g].decisionId == d
    {
      if d == |decisions| {
        assert LiveGrant(grants', base, |grants|) && grants'[|grants|].decisionId == d;
      } else {
        var g :| LiveGrant(grants, base, g) && grants[g].decisionId == d;
        assert LiveGrant(grants', base, g) && grants'[g].decisionId == d;
      }
    }
  }

  lemma GrantJoinsApprovals(approvals: seq<Approval>, grants: seq<GrantRow>, base: Base, consumedBy: map<nat, nat>, grant: GrantRow)
    requires ApprovalsMatchGrants(approvals, grants, base, consumedBy) && base.grants <= grants
    ensures ApprovalsMatchGrants(approvals, grants + [grant], base, consumedBy)
  {
  }

  lemma ApprovalConsumed(approvals: seq<Approval>, grants: seq<GrantRow>, base: Base, consumedBy: map<nat, nat>, grant: GrantRow, a: nat)
    requires ApprovalsMatchGrants(approvals, grants, base, consumedBy) && base.grants <= grants
    requires a < |approvals| && !approvals[a].consumed && approvals[a].key == grant.key
    ensures ApprovalsMatchGrants(approvals[a := approvals[a].(consumed := true)], grants + [grant], base, consumedBy[a := |grants|])
  {
  }

  lemma GrantJoinsLogs(logs: seq<LogRow>, grants: seq<GrantRow>, base: Base, grant: GrantRow)
    requires LogsMatchGrants(logs, grants, base) && base.grants <= grants && grant.status == Issued
    ensures LogsMatchGrants(logs, grants + [grant], base)
  {
    forall g | LiveGrant(grants + [grant], base, g) && (grants + [grant])[g].status == Redeemed
      ensures exists l :: base.logs <= l < |logs| && logs[l].grantId == Some(g)
    {
      assert LiveGrant(grants, base, g) && grants[g].status == Redeemed;
    }
  }

  lemma FreeGrantJoinsRecords(records: seq<QuotaRecord>, grants: seq<GrantRow>, tools: map<string, ToolRow>, base: Base, grant: GrantRow)
    requires RecordsMatchGrants(records, grants, tools, base) && base.grants <= grants
    requires grant.key.tool in tools && !IsFinancial(tools[grant.key.tool])
    ensures RecordsMatchGrants(records, grants + [grant], tools, base)
  {
    var grants' := grants + [grant];
    forall i | 0 <= i < |records| ensures ToolRecordRight(records[i], grants', tools, base) {
      assert ToolRecordRight(records[i], grants, tools, base);
    }
    forall g | PaidGrant(grants', tools, base, g)
      ensures exists i :: 0 <= i < |records| && records[i].source == FromTool(g)
    {
      assert PaidGrant(grants, tools, base, g);
    }
  }

  lemma PaidGrantJoinsRecords(records: seq<QuotaRecord>, grants: seq<GrantRow>, tools: map<string, ToolRow>, base: Base,
                              grant: GrantRow, record: QuotaRecord)
    requires RecordsMatchGrants(records, grants, tools, base) && base.grants <= grants
    requires grant.key.tool in tools && IsFinancial(tools[grant.key.tool])
    requires record.source == FromTool(|grants|) && record.task == grant.key.task
    requires ToolRecordPriced(record, tools[grant.key.tool])
    ensures RecordsMatchGrants(records + [record], grants + [grant], tools, base)
  {
    var grants', records' := grants + [grant], records + [record];
    forall i | 0 <= i < |records'| ensures ToolRecordRight(records'[i], grants', tools, base) {
      if i < |records| {
        assert ToolRecordRight(records[i], grants, tools, base);
      }
    }
    forall i, j | 0 <= i < |records'| && 0 <= j < |records'| && i != j && records'[i].source.FromTool?
      ensures records'[i].source != records'[j].source
    {
      if i < |records| { assert ToolRecordRight(records[i], grants, tools, base); }
      if j < |records| { assert ToolRecordRight(records[j], grants, tools, base); }
    }
    forall g | PaidGrant(grants', tools, base, g)
      ensures exists i :: 0 <= i < |records'| && records'[i].source == FromTool(g)
    {
      if g == |grants| {
        assert records'[|records|].source == FromTool(g);
      } else {
        assert PaidGrant(grants, tools, base, g);
        var i :| 0 <= i < |records| && records[i].source == FromTool(g);
        assert records'[i].source == FromTool(g);
      }
    }
  }

  /** A model record joins without touching any grant. */
  lemma ModelRecordJoins(records: seq<QuotaRecord>, grants: seq<GrantRow>, tools: map<string, ToolRow>, base: Base, record: QuotaRecord)
    requires RecordsMatchGrants(records, grants, tools, base) && record.source.FromModel?
    ensures RecordsMatchGrants(records + [record], grants, tools, base)
  {
    var records' := records + [record];
    forall g | PaidGrant(grants, tools, base, g)
      ensures exists i :: 0 <= i < |records'| && records'[i].source == FromTool(g)
    {
      var i :| 0 <= i < |records| && records[i].source == FromTool(g);
      assert records'[i].source == FromTool(g);
    }
  }

  /** One record changes its amounts and keeps its source and task. */
  lemma RecordChanges(records: seq<QuotaRecord>, grants: seq<GrantRow>, tools: map<string, ToolRow>, base: Base, i: nat, record: QuotaRecord)
    requires RecordsMatchGrants(records, grants, tools, base) && i < |records|
    requires record.source == records[i].source && record.task == records[i].task
    requires ToolRecordRight(record, grants, tools, base)
    ensures RecordsMatchGrants(records[i := record], grants, tools, base)
  {
    var records' := records[i := record];
    forall g | PaidGrant(grants, tools, base, g)
      ensures exists j :: 0 <= j < |records'| && records'[j].source == FromTool(g)
    {
      var j :| 0 <= j < |records| && records[j].source == FromTool(g);
      assert records'[j].source == FromTool(g);
    }
  }

  /** A registry change keeps the cost of every tool. */
  lemma RegistryKeepsRecords(records: seq<QuotaRecord>, grants: seq<GrantRow>, tools: map<string, ToolRow>, tools': map<string, ToolRow>, base: Base)
    requires RecordsMatchGrants(records, grants, tools, base)
    requires forall t :: t in tools ==> t in tools' && SameCost(tools[t], tools'[t])
    ensures RecordsMatchGrants(records, grants, tools', base)
  {
    forall i | 0 <= i < |records| ensures ToolRecordRight(records[i], grants, tools', base) {
      assert ToolRecordRight(records[i], grants, tools, base);
    }
    forall g | PaidGrant(grants, tools', base, g)
      ensures exists i :: 0 <= i < |records| && records[i].source == FromTool(g)
    {
      assert PaidGrant(grants, tools, base, g);
    }
  }

  // ----- a grant is redeemed -----

  lemma RedemptionKeepsGrants(decisions: seq<Decision>, grants: seq<GrantRow>, base: Base, g: nat)
    requires GrantsMatchDecisions(decisions, grants, base) && LiveGrant(grants, base, g)
    ensures GrantsMatchDecisions(decisions, grants[g := grants[g].(status := Redeemed)], base)
  {
    var grants' := grants[g := grants[g].(status := Redeemed)];
    forall d | base.decisions <= d < |decisions| && decisions[d].permit
      ensures exists h :: LiveGrant(grants', base, h) && grants'[h].decisionId == d
    {
      var h :| LiveGrant(grants, base, h) && grants[h].decisionId == d;
      assert LiveGrant(grants', base, h) && grants'[h].decisionId == d;
    }
  }

  lemma RedemptionKeepsRecords(records: seq<QuotaRecord>, grants: seq<GrantRow>, tools: map<string, ToolRow>, base: Base, g: nat)
    requires RecordsMatchGrants(records, grants, tools, base) && LiveGrant(grants, base, g)
    ensures RecordsMatchGrants(records, grants[g := grants[g].(status := Redeemed)], tools, base)
  {
    var grants' := grants[g := grants[g].(status := Redeemed)];
    forall i | 0 <= i < |records| ensures ToolRecordRight(records[i], grants', tools, base) {
      assert ToolRecordRight(records[i], grants, tools, base);
    }
    forall h | PaidGrant(grants', tools, base, h)
      ensures exists i :: 0 <= i < |records| && records[i].source == FromTool(h)
    {
      assert PaidGrant(grants, tools, base, h);
    }
  }

  lemma RedemptionLogged(logs: seq<LogRow>, grants: seq<GrantRow>, base: Base, g: nat, row: LogRow)
    requires LogsMatchGrants(logs, grants, base) && LiveGrant(grants, base, g)
    requires grants[g].status == Issued && row.grantId == Some(g)
    ensures LogsMatchGrants(logs + [row], grants[g := grants[g].(status := Redeemed)], base)
  {
    var grants', logs' := grants[g := grants[g].(status := Redeemed)], logs + [row];
    forall h | LiveGrant(grants', base, h) && grants'[h].status == Redeemed
      ensures exists l :: base.logs <= l < |logs'| && logs'[l].grantId == Some(h)
    {
      if h == g {
        assert logs'[|logs|].grantId == Some(h);
      } else {
        assert LiveGrant(grants, base, h) && grants[h].status == Redeemed;
        var l :| base.logs <= l < |logs| && logs[l].grantId == Some(h);
        assert logs'[l].grantId == Some(h);
      }
    }
  }

  lemma OutcomeKeepsLogs(logs: seq<LogRow>, grants: seq<GrantRow>, base: Base, l: nat, outcome: Outcome)
    requires LogsMatchGrants(logs, grants, base) && l < |logs|
    ensures LogsMatchGrants(logs[l := logs[l].(outcome := outcome)], grants, base)
  {
    var logs' := logs[l := logs[l].(outcome := outcome)];
    assert forall m :: 0 <= m < |logs| ==> logs'[m].grantId == logs[m].grantId;
    SameGrantIds(logs, logs', grants, base);
  }

  /** The relation reads nothing of a log but the grant it names. */
  lemma SameGrantIds(logs: seq<LogRow>, next: seq<LogRow>, grants: seq<GrantRow>, base: Base)
    requires LogsMatchGrants(logs, grants, base)
    requires |next| == |logs| && forall m :: 0 <= m < |logs| ==> next[m].grantId == logs[m].grantId
    ensures LogsMatchGrants(next, grants, base)
  {
    forall g | LiveGrant(grants, base, g) && grants[g].status == Redeemed
      ensures exists m :: base.logs <= m < |next| && next[m].grantId == Some(g)
    {
      var m :| base.logs <= m < |logs| && logs[m].grantId == Some(g);
      assert next[m].grantId == Some(g);
    }
  }
}
