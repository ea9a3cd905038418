/** One uninterrupted call of the tool gateway is a run of the concurrent ledger, so what holds of
    every run holds of every call. */
module InvocationRuns {
  import opened Wrappers
  import opened Ledger
  import opened GovernanceService
  import opened LedgerRuns

  /** The steps of one call, in order, with nothing in between. */
  function CallEvents(id: nat, key: Key, offered: Option<Grant>, config: Config, policy: Policy, signature: string,
                      issueGaps: Gaps, redeemGaps: Gaps, run: HandlerRun): seq<Event>
  {
    (if offered.Some? then [Beginning(id, key, offered)]
     else [Beginning(id, key, None), Issuing(Some(id), key, config, 60, policy, signature, issueGaps)])
    + [Redeeming(id, redeemGaps), Executing(id, run), Finishing(id)]
  }

  lemma RunStep(w: World, events: seq<Event>, e: Event)
    ensures Run(w, events + [e]) == Apply(Run(w, events), e)
  {
    assert (events + [e])[..|events|] == events;
  }

  /** The last three steps, for a call that holds a grant or was already given up. */
  lemma RedeemRuns(w: World, id: nat, redeemGaps: Gaps, run: HandlerRun)
    requires id !in w.calls || w.calls[id].Holding?
    ensures var w' := Apply(Apply(Apply(w, Redeeming(id, redeemGaps)), Executing(id, run)), Finishing(id));
            && w'.calls == w.calls - {id}
            && (id !in w.calls ==> w'.db == w.db && w'.signed == w.signed)
            && (id in w.calls ==>
                  var Holding(key, tool, grant) := w.calls[id];
                  var (db, signed, _) := RedeemAndRun(w.db, w.signed, tool, grant, key, run, RedeemClockOf(w, redeemGaps));
                  w'.db == db && w'.signed == signed)
  {
    if id in w.calls {
      HeldCallRuns(w, id, redeemGaps, run);
    }
  }

  lemma HeldCallRuns(w: World, id: nat, redeemGaps: Gaps, run: HandlerRun)
    requires id in w.calls && w.calls[id].Holding?
    ensures var w' := Apply(Apply(Apply(w, Redeeming(id, redeemGaps)), Executing(id, run)), Finishing(id));
            var Holding(key, tool, grant) := w.calls[id];
            var (db, signed, _) := RedeemAndRun(w.db, w.signed, tool, grant, key, run, RedeemClockOf(w, redeemGaps));
            w'.calls == w.calls - {id} && w'.db == db && w'.signed == signed
  {
    var Holding(key, tool, grant) := w.calls[id];
    var r := Apply(w, Redeeming(id, redeemGaps));
    var (db, redeemed) := RedeemTx(w.db, w.signed, grant, key, RedeemClockOf(w, redeemGaps));
    if redeemed.Success? {
      assert r.calls == w.calls[id := Running(key, tool, grant, redeemed.value)] && r.db == db && r.signed == w.signed;
      RunningCallRuns(r, id, run);
      assert r.calls - {id} == w.calls - {id};
    } else {
      assert r.calls == w.calls - {id};
    }
  }

  lemma RunningCallRuns(r: World, id: nat, run: HandlerRun)
    requires id in r.calls && r.calls[id].Running?
    ensures var w' := Apply(Apply(r, Executing(id, run)), Finishing(id));
            var Running(key, tool, grant, invocation) := r.calls[id];
            && w'.calls == r.calls - {id} && w'.signed == r.signed
            && w'.db == match run
                        case HandlerFailed => HandlerErrorTx(r.db, invocation)
                        case HandlerReturned(units) => SettleTx(r.db, tool, invocation, grant.grantId, units).0
  {
    var x := Apply(r, Executing(id, run));
    assert x.db == r.db && x.calls - {id} == r.calls - {id};
  }

  lemma IssueRuns(w: World, id: nat, key: Key, tool: ToolRow, config: Config, policy: Policy, signature: string, gaps: Gaps)
    requires id in w.calls && w.calls[id] == Wanting(key, tool)
    ensures var (db, outcome) := IssueTx(w.db, config, key, 60, policy, signature, IssueClockOf(w, gaps));
            var w' := Apply(w, Issuing(Some(id), key, config, 60, policy, signature, gaps));
            && w'.db == db && w'.now == Tick(w, gaps).now
            && (if outcome.Granted? then w'.signed == w.signed + {outcome.grant} && w'.calls == w.calls[id := Holding(key, tool, outcome.grant)]
                else w'.signed == w.signed && w'.calls == w.calls - {id})
  {
  }

  /** The last three steps are taken from where the first ones lead. */
  lemma TailRuns(w: World, first: seq<Event>, id: nat, redeemGaps: Gaps, run: HandlerRun)
    ensures Run(w, first + [Redeeming(id, redeemGaps), Executing(id, run), Finishing(id)])
         == Apply(Apply(Apply(Run(w, first), Redeeming(id, redeemGaps)), Executing(id, run)), Finishing(id))
  {
    var redeem, execute, finish := Redeeming(id, redeemGaps), Executing(id, run), Finishing(id);
    RunStep(w, first, redeem);
    RunStep(w, first + [redeem], execute);
    RunStep(w, first + [redeem] + [execute], finish);
    assert first + [redeem, execute, finish] == first + [redeem] + [execute] + [finish];
  }

  lemma RunOne(w: World, e: Event)
    ensures Run(w, [e]) == Apply(w, e)
  {
    assert [e][..0] == [];
  }

  lemma BeginRuns(w: World, id: nat, key: Key, offered: Option<Grant>)
    requires id !in w.calls && key.tool in w.db.tools && w.db.tools[key.tool].active
    ensures Run(w, [Beginning(id, key, offered)])
         == w.(calls := w.calls[id := if offered.Some? then Holding(key, w.db.tools[key.tool], offered.value)
                                      else Wanting(key, w.db.tools[key.tool])])
  {
    RunOne(w, Beginning(id, key, offered));
  }

  /** Where the calls of the gateway stand when redemption starts, and what the ledger then is. */
  lemma FirstRuns(w: World, id: nat, key: Key, config: Config, policy: Policy, signature: string, issueGaps: Gaps)
    returns (started: World)
    requires id !in w.calls && key.tool in w.db.tools && w.db.tools[key.tool].active
    ensures started == Run(w, [Beginning(id, key, None), Issuing(Some(id), key, config, 60, policy, signature, issueGaps)])
    ensures var (db, outcome) := IssueTx(w.db, config, key, 60, policy, signature, IssueClockOf(w, issueGaps));
            && started.db == db && started.now == Tick(w, issueGaps).now && started.calls - {id} == w.calls
            && (if outcome.Granted?
                then started.signed == w.signed + {outcome.grant}
                     && id in started.calls && started.calls[id] == Holding(key, w.db.tools[key.tool], outcome.grant)
                else started.signed == w.signed && id !in started.calls)
  {
    var begin, issue := Beginning(id, key, None), Issuing(Some(id), key, config, 60, policy, signature, issueGaps);
    BeginRuns(w, id, key, None);
    var begun := w.(calls := w.calls[id := Wanting(key, w.db.tools[key.tool])]);
    assert IssueClockOf(begun, issueGaps) == IssueClockOf(w, issueGaps) && begun.calls - {id} == w.calls;
    RunStep(w, [begin], issue);
    assert [begin] + [issue] == [begin, issue];
    IssueRuns(begun, id, key, w.db.tools[key.tool], config, policy, signature, issueGaps);
    started := Apply(begun, issue);
  }

  /** A run whose first steps lead to a held grant ends as redeeming and running does. */
  lemma HeldRuns(w: World, first: seq<Event>, started: World, id: nat, redeemGaps: Gaps, run: HandlerRun)
    requires started == Run(w, first) && id in started.calls && started.calls[id].Holding?
    ensures var w' := Run(w, first + [Redeeming(id, redeemGaps), Executing(id, run), Finishing(id)]);
            var Holding(key, tool, grant) := started.calls[id];
            var (db, signed, _) := RedeemAndRun(started.db, started.signed, tool, grant, key, run, RedeemClockOf(started, redeemGaps));
            w'.db == db && w'.signed == signed && w'.calls == started.calls - {id}
  {
    TailRuns(w, first, id, redeemGaps, run);
    RedeemRuns(started, id, redeemGaps, run);
  }

  lemma OfferedIsARun(w: World, first: seq<Event>, id: nat, key: Key, grant: Grant, redeemGaps: Gaps, run: HandlerRun)
    requires first == [Beginning(id, key, Some(grant))]
    requires id !in w.calls && key.tool in w.db.tools && w.db.tools[key.tool].active
    ensures var w' := Run(w, first + [Redeeming(id, redeemGaps), Executing(id, run), Finishing(id)]);
            var (db, signed, _) := RedeemAndRun(w.db, w.signed, w.db.tools[key.tool], grant, key, run, RedeemClockOf(w, redeemGaps));
            w'.db == db && w'.signed == signed && w'.calls == w.calls
  {
    BeginRuns(w, id, key, Some(grant));
    var started := w.(calls := w.calls[id := Holding(key, w.db.tools[key.tool], grant)]);
    HeldRuns(w, first, started, id, redeemGaps, run);
    assert started.calls - {id} == w.calls && started.db == w.db && started.signed == w.signed;
    assert RedeemClockOf(started, redeemGaps) == RedeemClockOf(w, redeemGaps);
  }

  lemma IssuedIsARun(w: World, id: nat, key: Key, config: Config, policy: Policy, signature: string,
                     issueGaps: Gaps, redeemGaps: Gaps, run: HandlerRun)
    requires id !in w.calls && key.tool in w.db.tools && w.db.tools[key.tool].active
    ensures var w' := Run(w, [Beginning(id, key, None), Issuing(Some(id), key, config, 60, policy, signature, issueGaps)]
                             + [Redeeming(id, redeemGaps), Executing(id, run), Finishing(id)]);
            var (issued, outcome) := IssueTx(w.db, config, key, 60, policy, signature, IssueClockOf(w, issueGaps));
            && w'.calls == w.calls
            && (if !outcome.Granted? then w'.db == issued && w'.signed == w.signed
                else var (db, signed, _) := RedeemAndRun(issued, w.signed + {outcome.grant}, w.db.tools[key.tool], outcome.grant, key, run,
                                                         RedeemClockOf(Tick(w, issueGaps), redeemGaps));
                     w'.db == db && w'.signed == signed)
  {
    var started := FirstRuns(w, id, key, config, policy, signature, issueGaps);
    TailRuns(w, [Beginning(id, key, None), Issuing(Some(id), key, config, 60, policy, signature, issueGaps)], id, redeemGaps, run);
    assert RedeemClockOf(started, redeemGaps) == RedeemClockOf(Tick(w, issueGaps), redeemGaps);
    RedeemRuns(started, id, redeemGaps, run);
  }

  /** The ledger and the signed grants after one call of the gateway are those after its run. */
  lemma InvokeIsARun(w: World, id: nat, key: Key, offered: Option<Grant>, config: Config, handlers: set<string>, policy: Policy,
                     signature: string, issueGaps: Gaps, redeemGaps: Gaps, run: HandlerRun)
    requires id !in w.calls && key.tool in w.db.tools && w.db.tools[key.tool].active && key.tool in handlers
    ensures var w' := Run(w, CallEvents(id, key, offered, config, policy, signature, issueGaps, redeemGaps, run));
            var redeemFrom := if offered.Some? then w else Tick(w, issueGaps);
            var (db, signed, _) := InvokeTx(w.db, w.signed, config, handlers, key, offered, true, run, policy, signature,
                                            IssueClockOf(w, issueGaps), RedeemClockOf(redeemFrom, redeemGaps));
            w'.db == db && w'.signed == signed && w'.calls == w.calls
  {
    match offered
    case Some(grant) => OfferedIsARun(w, [Beginning(id, key, Some(grant))], id, key, grant, redeemGaps, run);
    case None => IssuedIsARun(w, id, key, config, policy, signature, issueGaps, redeemGaps, run);
  }
}
