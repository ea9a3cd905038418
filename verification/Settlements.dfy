/** The life of a reservation: whole until one settlement, final after it. */
module Settlements {
  import opened Wrappers
  import opened Pricing
  import opened Ledger
  import opened GovernanceService
  import opened LedgerRuns
  import opened Accounting
  import opened AccountingRuns
  import opened BudgetSafety
  import opened LedgerTheorems

  predicate Whole(record: QuotaRecord) { !record.settled && record.amount == record.reserved && record.units == None }

  /** A settlement rewrites the amount and the units and sets the mark; the rest of the row stays. */
  predicate SettledFrom(record: QuotaRecord, row: QuotaRecord) {
    !record.settled && row.settled && row == record.(amount := row.amount, units := row.units, settled := true)
  }

  /** The call's handler returned usage in bounds; the record of its grant becomes the fixed cost and
      the metered cost rounded up, and does not grow. */
  ghost predicate ToolSettles(call: Call, record: QuotaRecord, row: QuotaRecord) {
    && call.Returned? && record.source == FromTool(call.grant.grantId) && MeteredQuote(call.tool.pricing).Some?
    && var (_, rate, maximum) := MeteredQuote(call.tool.pricing).value;
       && (rate == 0 || call.units.Some?) && 0 <= UsedUnits(call.units) <= maximum
       && row.units == Some(UsedUnits(call.units))
       && row.amount == call.tool.fixedCents + MeteredCents(rate, UsedUnits(call.units)) <= record.amount
  }

  /** The upstream reported usage in bounds; the record of the call becomes the price of that usage. */
  ghost predicate ModelSettles(chat: PaidCall, usage: Usage, i: nat, row: QuotaRecord) {
    && chat.record == i && WithinBounds(chat, usage)
    && row.units == Some(usage.value.0 + usage.value.1)
    && row.amount == SettledModelCents(chat.quote, usage.value.0, usage.value.1) <= chat.reservedCents
  }

  /** Event e, in state m, settles record i to this row. */
  ghost predicate SettlesRecord(m: World, e: Event, i: nat, row: QuotaRecord) {
    && i < |m.db.records| && SettledFrom(m.db.records[i], row)
    && ((e.Finishing? && e.id in m.calls && ToolSettles(m.calls[e.id], m.db.records[i], row))
        || (e.Replying? && e.id in m.chats && ModelSettles(m.chats[e.id], e.usage, i, row)))
  }

  // ----- one step -----

  lemma SettledRecordRow(records: seq<QuotaRecord>, call: Call, i: nat)
    requires call.Returned? && i < |records|
    ensures var settled := SettledRecords(records, call.tool, call.grant.grantId, call.units);
            settled.Some? ==>
              && |settled.value| == |records|
              && (settled.value[i] == records[i]
                  || (SettledFrom(records[i], settled.value[i]) && ToolSettles(call, records[i], settled.value[i])))
  {
    var first := RecordOf(records, call.grant.grantId);
    if first.Some? && MeteredQuote(call.tool.pricing).Some? {
      SettledRecordsOf(records, call.tool, call.grant.grantId, call.units, first.value);
    }
  }

  /** No record is added, and each is left as it is or settled. */
  ghost predicate KeptOrSettled(m: World, e: Event, records: seq<QuotaRecord>) {
    && |records| == |m.db.records|
    && forall i :: 0 <= i < |records| ==> records[i] == m.db.records[i] || SettlesRecord(m, e, i, records[i])
  }

  lemma FinishingRecords(m: World, e: Event)
    requires e.Finishing?
    ensures KeptOrSettled(m, e, Apply(m, e).db.records)
  {
    FinishingStep(m, e);
    if e.id in m.calls && m.calls[e.id].Returned? {
      FinishSettles(m, e.id);
      forall i | 0 <= i < |m.db.records|
        ensures Apply(m, e).db.records[i] == m.db.records[i] || SettlesRecord(m, e, i, Apply(m, e).db.records[i])
      {
        SettledRecordRow(m.db.records, m.calls[e.id], i);
      }
    }
  }

  lemma ReplyRows(db: Db, chat: PaidCall, usage: Usage)
    ensures var records := UpstreamReplyTx(db, chat, usage).0.records;
            && |records| == |db.records|
            && forall i :: 0 <= i < |records| ==>
                 records[i] == db.records[i] || (SettledFrom(db.records[i], records[i]) && ModelSettles(chat, usage, i, records[i]))
  {
  }

  lemma ReplyingRecords(m: World, e: Event)
    requires e.Replying?
    ensures KeptOrSettled(m, e, Apply(m, e).db.records)
  {
    if e.id in m.chats {
      ReplyRows(m.db, m.chats[e.id], e.usage);
      ReplyingWrites(m, e.id, e.usage);
    }
  }

  /** Records that a step appends are whole. */
  ghost predicate AppendsWhole(records: seq<QuotaRecord>, next: seq<QuotaRecord>) {
    records <= next && forall i :: |records| <= i < |next| ==> Whole(next[i])
  }

  lemma IssueAppendsWhole(db: Db, config: Config, key: Key, ttlSeconds: int, policy: Policy, signature: string, clock: IssueClock)
    ensures AppendsWhole(db.records, IssueTx(db, config, key, ttlSeconds, policy, signature, clock).0.records)
  {
  }

  lemma IssuingRecords(m: World, e: Event)
    requires e.Issuing?
    ensures AppendsWhole(m.db.records, Apply(m, e).db.records)
  {
    IssueAppendsWhole(m.db, e.config, e.key, e.ttlSeconds, e.policy, e.signature, IssueClockOf(m, e.gaps));
  }

  lemma DispatchingRecords(m: World, e: Event)
    requires e.Dispatching?
    ensures AppendsWhole(m.db.records, Apply(m, e).db.records)
  {
    AdmitAppendsWhole(m.db, e.task, e.node, e.prices, e.promptBound, e.requestedOutput, ReserveClockOf(m, e.gaps));
  }

  lemma AdmitAppendsWhole(db: Db, task: string, node: string, prices: PriceList, promptBound: nat, requestedOutput: int, clock: ReserveClock)
    ensures AppendsWhole(db.records, AdmitPaidCall(db, task, node, prices, promptBound, requestedOutput, clock).0.records)
  {
  }

  /** One step leaves a record as it is or settles it; records it adds are whole. */
  lemma RecordStep(m: World, e: Event, i: nat)
    requires i < |Apply(m, e).db.records|
    ensures |m.db.records| <= |Apply(m, e).db.records|
    ensures var row := Apply(m, e).db.records[i];
            if i < |m.db.records| then row == m.db.records[i] || SettlesRecord(m, e, i, row) else Whole(row)
  {
    if e.Issuing? {
      IssuingRecords(m, e);
    } else if e.Dispatching? {
      DispatchingRecords(m, e);
    } else if e.Finishing? {
      FinishingRecords(m, e);
    } else if e.Replying? {
      ReplyingRecords(m, e);
    } else {
      QuietStep(m, e);
    }
  }

  // ----- whole runs -----

  /** From the start of the run on, a settled record is never written again. */
  lemma {:induction false} SettledStays(w: World, events: seq<Event>, i: nat)
    requires i < |w.db.records| && w.db.records[i].settled
    ensures i < |Run(w, events).db.records| && Run(w, events).db.records[i] == w.db.records[i]
  {
    if |events| > 0 {
      var prefix := events[..|events| - 1];
      SettledStays(w, prefix, i);
      KeptByStep(Run(w, prefix), events[|events| - 1], i);
    }
  }

  lemma KeptByStep(m: World, e: Event, i: nat)
    requires i < |m.db.records| && m.db.records[i].settled
    ensures i < |Apply(m, e).db.records| && Apply(m, e).db.records[i] == m.db.records[i]
  {
    RecordsGrow(m, e);
    RecordStep(m, e, i);
  }

  lemma RecordsGrow(m: World, e: Event)
    ensures |m.db.records| <= |Apply(m, e).db.records|
  {
    if e.Issuing? {
      IssuingRecords(m, e);
    } else if e.Dispatching? {
      DispatchingRecords(m, e);
    } else if e.Finishing? {
      FinishingRecords(m, e);
    } else if e.Replying? {
      ReplyingRecords(m, e);
    } else {
      QuietStep(m, e);
    }
  }

  /** After the first m events record i, if it is there yet, is whole. */
  ghost predicate WholeAt(w: World, events: seq<Event>, m: nat, i: nat) {
    m <= |events| && (i < |Run(w, events[..m]).db.records| ==> Whole(Run(w, events[..m]).db.records[i]))
  }

  /** After the first m events record i is this row. */
  ghost predicate RowAt(w: World, events: seq<Event>, m: nat, i: nat, row: QuotaRecord) {
    m <= |events| && i < |Run(w, events[..m]).db.records| && Run(w, events[..m]).db.records[i] == row
  }

  /** Event k settles record i to this row. */
  ghost predicate SettledAt(w: World, events: seq<Event>, k: nat, i: nat, row: QuotaRecord) {
    k < |events| && SettlesRecord(Run(w, events[..k]), events[k], i, row) && RowAt(w, events, k + 1, i, row)
  }

  ghost predicate WholeUntil(w: World, events: seq<Event>, k: nat, i: nat) {
    forall m :: 0 <= m <= k ==> WholeAt(w, events, m, i)
  }

  ghost predicate RowAfter(w: World, events: seq<Event>, k: nat, i: nat, row: QuotaRecord) {
    forall m :: k < m <= |events| ==> RowAt(w, events, m, i, row)
  }

  lemma WholeUntilExtends(w: World, prefix: seq<Event>, events: seq<Event>, k: nat, i: nat)
    requires prefix <= events && k <= |prefix| && WholeUntil(w, prefix, k, i)
    ensures WholeUntil(w, events, k, i)
  {
    forall m | 0 <= m <= k ensures WholeAt(w, events, m, i) {
      assert WholeAt(w, prefix, m, i);
      assert prefix[..m] == events[..m];
    }
  }

  lemma RowAfterExtends(w: World, prefix: seq<Event>, events: seq<Event>, k: nat, i: nat, row: QuotaRecord)
    requires prefix <= events && |events| == |prefix| + 1 && RowAfter(w, prefix, k, i, row)
    requires i < |Run(w, events).db.records| && Run(w, events).db.records[i] == row
    ensures RowAfter(w, events, k, i, row)
  {
    forall m | k < m <= |events| ensures RowAt(w, events, m, i, row) {
      if m <= |prefix| {
        assert RowAt(w, prefix, m, i, row);
        assert prefix[..m] == events[..m];
      } else {
        assert events[..m] == events;
      }
    }
  }

  /** A record that is not settled has been whole all along. */
  lemma {:induction false} UnsettledIsWhole(w: World, events: seq<Event>, i: nat)
    requires Genesis(w) && (i < |Run(w, events).db.records| ==> !Run(w, events).db.records[i].settled)
    ensures WholeUntil(w, events, |events|, i)
  {
    if |events| > 0 {
      var prefix, e := events[..|events| - 1], events[|events| - 1];
      var m := Run(w, prefix);
      RecordsGrow(m, e);
      if i < |m.db.records| && m.db.records[i].settled {
        KeptByStep(m, e, i);
        assert false;
      }
      UnsettledIsWhole(w, prefix, i);
      WholeUntilExtends(w, prefix, events, |prefix|, i);
      WholeStep(w, prefix, events, i);
    } else {
      assert events[..0] == events;
    }
  }

  lemma WholeStep(w: World, prefix: seq<Event>, events: seq<Event>, i: nat)
    requires prefix <= events && |events| == |prefix| + 1 && WholeAt(w, prefix, |prefix|, i)
    requires i < |Run(w, events).db.records| ==> !Run(w, events).db.records[i].settled
    ensures WholeAt(w, events, |events|, i)
  {
    assert prefix[..|prefix|] == prefix && events[..|events|] == events && events[..|events| - 1] == prefix;
    if i < |Run(w, events).db.records| {
      RecordStep(Run(w, prefix), events[|prefix|], i);
    }
  }

  /** Event k settles record i to this row, which was whole until then and is final since, and the
      settlement did not exceed the reservation. */
  ghost predicate Settlement(w: World, events: seq<Event>, k: nat, i: nat, row: QuotaRecord) {
    SettledAt(w, events, k, i, row) && WholeUntil(w, events, k, i) && RowAfter(w, events, k, i, row) && row.amount <= row.reserved
  }

  /** A settled record of a run was settled by one event of it: a finish of the call that held its
      grant, or the reply to its paid call. */
  lemma {:induction false} EachReservationSettlesOnce(w: World, events: seq<Event>, i: nat) returns (k: nat)
    requires Genesis(w) && i < |Run(w, events).db.records| && Run(w, events).db.records[i].settled
    ensures Settlement(w, events, k, i, Run(w, events).db.records[i])
    ensures forall l, other :: SettledAt(w, events, l, i, other) ==> l == k
  {
    var prefix, e := events[..|events| - 1], events[|events| - 1];
    assert events == prefix + [e];
    var row := Run(w, events).db.records[i];
    if i < |Run(w, prefix).db.records| && Run(w, prefix).db.records[i].settled {
      k := EachReservationSettlesOnce(w, prefix, i);
      StillThere(w, prefix, e, i);
      SettlementKept(w, prefix, e, k, i, row);
    } else {
      k := |prefix|;
      NewSettlement(w, prefix, e, i);
    }
    forall l, other | SettledAt(w, events, l, i, other) ensures l == k {
      SettledAtMostOnce(w, events, i, k, row, l, other);
    }
  }

  lemma SettledEarlier(w: World, prefix: seq<Event>, events: seq<Event>, k: nat, i: nat, row: QuotaRecord)
    requires prefix <= events && SettledAt(w, prefix, k, i, row)
    ensures SettledAt(w, events, k, i, row)
  {
    assert prefix[..k] == events[..k] && prefix[..k + 1] == events[..k + 1] && prefix[k] == events[k];
  }

  lemma StillThere(w: World, prefix: seq<Event>, e: Event, i: nat)
    requires i < |Run(w, prefix).db.records| && Run(w, prefix).db.records[i].settled
    ensures i < |Run(w, prefix + [e]).db.records| && Run(w, prefix + [e]).db.records[i] == Run(w, prefix).db.records[i]
  {
    OneMore(w, prefix, e);
    KeptByStep(Run(w, prefix), e, i);
  }

  lemma SettlementKept(w: World, prefix: seq<Event>, e: Event, k: nat, i: nat, row: QuotaRecord)
    requires Settlement(w, prefix, k, i, row)
    requires i < |Run(w, prefix + [e]).db.records| && Run(w, prefix + [e]).db.records[i] == row
    ensures Settlement(w, prefix + [e], k, i, row)
  {
    var events := prefix + [e];
    SettledEarlier(w, prefix, events, k, i, row);
    WholeUntilExtends(w, prefix, events, k, i);
    RowAfterExtends(w, prefix, events, k, i, row);
  }

  /** The last event as the settling one. */
  lemma LastSettles(w: World, prefix: seq<Event>, e: Event, i: nat, row: QuotaRecord)
    requires SettlesRecord(Run(w, prefix), e, i, row)
    requires i < |Run(w, prefix + [e]).db.records| && Run(w, prefix + [e]).db.records[i] == row
    ensures SettledAt(w, prefix + [e], |prefix|, i, row) && RowAfter(w, prefix + [e], |prefix|, i, row)
  {
    var events := prefix + [e];
    assert events[..|prefix|] == prefix && events[..|prefix| + 1] == events;
    assert RowAt(w, events, |prefix| + 1, i, row);
  }

  lemma NewSettlement(w: World, prefix: seq<Event>, e: Event, i: nat)
    requires Genesis(w)
    requires i < |Run(w, prefix).db.records| ==> !Run(w, prefix).db.records[i].settled
    requires i < |Run(w, prefix + [e]).db.records| && Run(w, prefix + [e]).db.records[i].settled
    ensures Settlement(w, prefix + [e], |prefix|, i, Run(w, prefix + [e]).db.records[i])
  {
    var m := Run(w, prefix);
    OneMore(w, prefix, e);
    RecordStep(m, e, i);
    var row := Apply(m, e).db.records[i];
    LastSettles(w, prefix, e, i, row);
    WholeBefore(w, prefix, e, i);
    LastIsWhole(m, BaseOf(w), w, prefix, e, i, row);
  }

  lemma WholeBefore(w: World, prefix: seq<Event>, e: Event, i: nat)
    requires Genesis(w) && (i < |Run(w, prefix).db.records| ==> !Run(w, prefix).db.records[i].settled)
    ensures WholeUntil(w, prefix + [e], |prefix|, i)
    ensures i < |Run(w, prefix).db.records| ==> Whole(Run(w, prefix).db.records[i])
  {
    UnsettledIsWhole(w, prefix, i);
    WholeUntilExtends(w, prefix, prefix + [e], |prefix|, i);
    assert WholeAt(w, prefix, |prefix|, i) && prefix[..|prefix|] == prefix;
  }

  lemma LastIsWhole(m: World, base: Base, w: World, prefix: seq<Event>, e: Event, i: nat, row: QuotaRecord)
    requires Genesis(w) && m == Run(w, prefix) && base == BaseOf(w)
    requires SettlesRecord(m, e, i, row) && Whole(m.db.records[i])
    ensures row.amount <= row.reserved
  {
    ReachableInv(w, prefix);
    SettlementFits(m, base, e, i, row);
  }

  lemma SettlementFits(m: World, base: Base, e: Event, i: nat, row: QuotaRecord)
    requires Inv(m, base) && SettlesRecord(m, e, i, row) && Whole(m.db.records[i])
    ensures row.amount <= row.reserved
  {
    if e.Replying? && e.id in m.chats {
      assert ChatReserved(m.chats[e.id], m.db.records);
    }
  }

  /** No two events settle one record. */
  lemma SettledAtMostOnce(w: World, events: seq<Event>, i: nat, k: nat, row: QuotaRecord, l: nat, other: QuotaRecord)
    requires SettledAt(w, events, k, i, row) && SettledAt(w, events, l, i, other)
    ensures k == l && row == other
  {
    if k < l {
      StaysUntil(w, events, k + 1, l, i);
    } else if l < k {
      StaysUntil(w, events, l + 1, k, i);
    }
  }

  lemma StaysUntil(w: World, events: seq<Event>, start: nat, end: nat, i: nat)
    requires start <= end <= |events| && i < |Run(w, events[..start]).db.records| && Run(w, events[..start]).db.records[i].settled
    ensures i < |Run(w, events[..end]).db.records| && Run(w, events[..end]).db.records[i] == Run(w, events[..start]).db.records[i]
    decreases end
  {
    if start < end {
      StaysUntil(w, events, start, end - 1, i);
      assert events[..end][..end - 1] == events[..end - 1];
      KeptByStep(Run(w, events[..end - 1]), events[end - 1], i);
    }
  }
}
