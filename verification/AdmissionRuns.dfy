/** Over whole runs: under which budgets each reservation was admitted, and what a paid call costs by
    the price list that it was admitted with. */
module AdmissionRuns {
  import opened Wrappers
  import opened Calendar
  import opened Pricing
  import opened Ledger
  import opened GovernanceService
  import opened LedgerRuns
  import opened Accounting
  import opened AccountingRuns
  import opened BudgetSafety
  import opened LedgerTheorems
  import opened Settlements
  import opened AdmissionRules

  // ----- the budgets of each reservation -----

  /** The columns of a reservation that a settlement does not touch. */
  predicate SameReservation(record: QuotaRecord, row: QuotaRecord) {
    record.task == row.task && record.source == row.source && record.reserved == row.reserved && record.createdAt == row.createdAt
  }

  /** The step reserves the cost of the row for its task: past its budgets, by an issue that consumes
      a live approval of its own key, exactly when they do not cover that cost at the assessment. */
  ghost predicate AdmittedBy(m: World, e: Event, row: QuotaRecord, overridden: bool) {
    && (e.Issuing? || e.Dispatching?)
    && (!overridden <==> Covered(m.db, row.task, row.reserved, m.now + e.gaps.first))
    && (overridden ==> ApprovedPastBudget(m, e, row.task))
  }

  /** The step makes record i, whole and admitted. */
  ghost predicate Reserves(m: World, e: Event, i: nat, row: QuotaRecord) {
    && i == |m.db.records| && Apply(m, e).db.records == m.db.records + [row] && Whole(row)
    && AdmittedBy(m, e, row, i in Apply(m, e).overrides)
  }

  lemma OverridesStep(m: World, e: Event)
    ensures Apply(m, e).overrides == m.overrides
            || (e.Issuing? && Apply(m, e).overrides == m.overrides + {|m.db.records|})
  {
  }

  lemma IssuedReservation(m: World, e: Event, row: QuotaRecord)
    requires e.Issuing? && OverridesRecorded(m)
    requires |Apply(m, e).db.records| > |m.db.records| && row == Apply(m, e).db.records[|m.db.records|]
    ensures Reserves(m, e, |m.db.records|, row)
  {
    var clock := IssueClockOf(m, e.gaps);
    var (db, outcome) := IssueTx(m.db, e.config, e.key, e.ttlSeconds, e.policy, e.signature, clock);
    IssueRecords(m, e);
    IssuingRecords(m, e);
    assert Apply(m, e).db.records == m.db.records + [row];
    IssueTxRecords(m.db, e.config, e.key, e.ttlSeconds, e.policy, e.signature, clock);
    IssuedWorld(m, e, db, outcome);
    CoveredNeedsNobody(m.db, row.task, row.reserved, clock.assessAt);
    if |m.db.records| in Apply(m, e).overrides {
      OverrideIsApproved(m, e, row.task);
    }
  }

  lemma DispatchedReservation(m: World, e: Event, row: QuotaRecord)
    requires e.Dispatching? && OverridesRecorded(m)
    requires |Apply(m, e).db.records| > |m.db.records| && row == Apply(m, e).db.records[|m.db.records|]
    ensures Reserves(m, e, |m.db.records|, row)
  {
    DispatchRecords(m, e);
    DispatchingRecords(m, e);
    assert Apply(m, e).db.records == m.db.records + [row];
    CoveredNeedsNobody(m.db, row.task, row.reserved, m.now + e.gaps.first);
  }

  lemma ReservationStep(m: World, e: Event, i: nat)
    requires OverridesRecorded(m) && |m.db.records| <= i < |Apply(m, e).db.records|
    ensures Reserves(m, e, i, Apply(m, e).db.records[i])
  {
    if e.Issuing? {
      IssueRecords(m, e);
      IssuedReservation(m, e, Apply(m, e).db.records[|m.db.records|]);
    } else if e.Dispatching? {
      DispatchRecords(m, e);
      DispatchedReservation(m, e, Apply(m, e).db.records[|m.db.records|]);
    } else {
      NoReservation(m, e);
      assert false;
    }
  }

  lemma NoReservation(m: World, e: Event)
    requires !e.Issuing? && !e.Dispatching?
    ensures |Apply(m, e).db.records| == |m.db.records|
  {
    if e.Finishing? {
      FinishingRecords(m, e);
    } else if e.Replying? {
      ReplyingRecords(m, e);
    } else {
      QuietStep(m, e);
    }
  }

  /** A later step keeps the reservation and whether it is an override. */
  lemma ReservationKept(m: World, e: Event, i: nat)
    requires i < |m.db.records|
    ensures i < |Apply(m, e).db.records| && SameReservation(m.db.records[i], Apply(m, e).db.records[i])
    ensures i in Apply(m, e).overrides <==> i in m.overrides
  {
    RecordsGrow(m, e);
    RecordStep(m, e, i);
    OverridesStep(m, e);
  }

  /** Event k of the run made record i as this row, and admitted it. */
  ghost predicate ReservedAt(w: World, events: seq<Event>, k: nat, i: nat, row: QuotaRecord, overridden: bool) {
    && k < |events|
    && var m := Run(w, events[..k]);
       && i == |m.db.records| && Apply(m, events[k]).db.records == m.db.records + [row] && Whole(row)
       && AdmittedBy(m, events[k], row, overridden)
  }

  lemma ReservedEarlier(w: World, prefix: seq<Event>, events: seq<Event>, k: nat, i: nat, row: QuotaRecord, overridden: bool)
    requires prefix <= events && ReservedAt(w, prefix, k, i, row, overridden)
    ensures ReservedAt(w, events, k, i, row, overridden)
  {
    assert prefix[..k] == events[..k] && prefix[k] == events[k];
  }

  lemma GenesisRecorded(w: World, events: seq<Event>)
    requires Genesis(w)
    ensures OverridesRecorded(Run(w, events))
  {
    RunKeepsChatsCovered(w, events);
  }

  lemma NewReservation(w: World, prefix: seq<Event>, e: Event, i: nat)
    requires Genesis(w) && |Run(w, prefix).db.records| <= i < |Run(w, prefix + [e]).db.records|
    ensures var n := Run(w, prefix + [e]); ReservedAt(w, prefix + [e], |prefix|, i, n.db.records[i], i in n.overrides)
  {
    OneMore(w, prefix, e);
    GenesisRecorded(w, prefix);
    ReservationStep(Run(w, prefix), e, i);
    assert (prefix + [e])[..|prefix|] == prefix;
  }

  lemma OldReservation(w: World, prefix: seq<Event>, e: Event, i: nat)
    requires i < |Run(w, prefix).db.records|
    ensures var m, n := Run(w, prefix), Run(w, prefix + [e]);
            && i < |n.db.records| && SameReservation(m.db.records[i], n.db.records[i])
            && (i in n.overrides <==> i in m.overrides)
  {
    OneMore(w, prefix, e);
    ReservationKept(Run(w, prefix), e, i);
  }

  /** Every reservation of a run was made by one event of it. It stands outside the overrides
      exactly when its task then had a budget, its cost was positive and every budget of the task
      covered it; otherwise the event was an issue that consumed a live approval of its own key. */
  lemma {:induction false} AdmittedUnderBudget(w: World, events: seq<Event>, i: nat) returns (k: nat, row: QuotaRecord)
    requires Genesis(w) && i < |Run(w, events).db.records|
    ensures ReservedAt(w, events, k, i, row, i in Run(w, events).overrides)
    ensures SameReservation(row, Run(w, events).db.records[i])
  {
    var prefix, e := events[..|events| - 1], events[|events| - 1];
    assert events == prefix + [e];
    if i < |Run(w, prefix).db.records| {
      k, row := AdmittedUnderBudget(w, prefix, i);
      OldReservation(w, prefix, e, i);
      ReservedEarlier(w, prefix, events, k, i, row, i in Run(w, prefix).overrides);
    } else {
      k, row := |prefix|, Run(w, events).db.records[i];
      NewReservation(w, prefix, e, i);
    }
  }

  // ----- the price of each paid call -----

  /** Event k of the run admitted the paid call. */
  ghost predicate DispatchedAt(w: World, events: seq<Event>, k: nat, id: nat, call: PaidCall) {
    && k < |events| && events[k].Dispatching? && events[k].id == id
    && var m, e := Run(w, events[..k]), events[k];
       AdmitPaidCall(m.db, e.task, e.node, e.prices, e.promptBound, e.requestedOutput, ReserveClockOf(m, e.gaps)).1 == Success(call)
  }

  lemma ChatStep(m: World, e: Event, id: nat)
    requires id in Apply(m, e).chats
    ensures (id in m.chats && Apply(m, e).chats[id] == m.chats[id])
            || (e.Dispatching? && e.id == id
                && AdmitPaidCall(m.db, e.task, e.node, e.prices, e.promptBound, e.requestedOutput, ReserveClockOf(m, e.gaps)).1
                   == Success(Apply(m, e).chats[id]))
  {
  }

  lemma {:induction false} ChatWasDispatched(w: World, events: seq<Event>, id: nat) returns (k: nat)
    requires Genesis(w) && id in Run(w, events).chats
    ensures DispatchedAt(w, events, k, id, Run(w, events).chats[id])
  {
    var prefix, e := events[..|events| - 1], events[|events| - 1];
    assert events == prefix + [e];
    OneMore(w, prefix, e);
    var m := Run(w, prefix);
    ChatStep(m, e, id);
    if id in m.chats && Apply(m, e).chats[id] == m.chats[id] {
      k := ChatWasDispatched(w, prefix, id);
      assert prefix[..k] == events[..k] && prefix[k] == events[k];
    } else {
      k := |prefix|;
      assert events[..k] == prefix;
    }
  }

  /** The record of a reply: the report's price by the price list, rounded up to cents, and its counts. */
  ghost predicate SettledAtPrice(prices: PriceList, prompt: nat, output: nat, record: QuotaRecord) {
    && (record.amount as real) - 1.0 < PriceCents(prices, prompt, output) <= record.amount as real
    && record.settled && record.units == Some(prompt + output)
  }

  /** A paid call in flight was admitted by an event of the run with a price list of its own. Its
      reservation is still whole: the least whole cents that cover the largest output that fits. A
      report within the bounds settles that record at the price of its own counts, never above the
      reservation; any other report leaves the records alone and quarantines the node. */
  lemma PaidCallCostsItsPrice(w: World, events: seq<Event>, id: nat, usage: Usage) returns (k: nat)
    requires Genesis(w) && id in Run(w, events).chats
    ensures var n, next := Run(w, events), Run(w, events + [Replying(id, usage)]);
            var call := n.chats[id];
            && DispatchedAt(w, events, k, id, call)
            && call.record < |n.db.records| && Whole(n.db.records[call.record])
            && PricedBy(events[k].prices, events[k].promptBound, events[k].requestedOutput, call.outputLimit, n.db.records[call.record].reserved)
            && if usage.Some? && 0 <= usage.value.0 <= events[k].promptBound && 0 <= usage.value.1 <= call.outputLimit then
                 && next.db == n.db.(records := next.db.records)
                 && |next.db.records| == |n.db.records|
                 && (forall i :: 0 <= i < |n.db.records| && i != call.record ==> next.db.records[i] == n.db.records[i])
                 && SettledAtPrice(events[k].prices, usage.value.0, usage.value.1, next.db.records[call.record])
                 && next.db.records[call.record].amount <= n.db.records[call.record].reserved
               else next.db == n.db.(quarantined := n.db.quarantined + {events[k].node})
  {
    k := ChatWasDispatched(w, events, id);
    var m, e, n := Run(w, events[..k]), events[k], Run(w, events);
    var clock := ReserveClockOf(m, e.gaps);
    AdmittedExactlyWhen(m.db, e.task, e.node, e.prices, e.promptBound, e.requestedOutput, clock);
    PaidCallSettles(w, events, id, usage);
    UnsettledIsWhole(w, events, n.chats[id].record);
    assert WholeAt(w, events, |events|, n.chats[id].record) && events[..|events|] == events;
    ReplyExactlyWhen(m.db, n.db, e.task, e.node, e.prices, e.promptBound, e.requestedOutput, clock, usage);
    OneMore(w, events, Replying(id, usage));
    ReplyingWrites(n, id, usage);
  }
}
