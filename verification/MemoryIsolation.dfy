/** What captures do to a recall: nothing across tasks, and in general exactly what a rule on the
    capture and the recall before it says. */
module MemoryIsolation {
  import opened Wrappers
  import opened Calendar
  import opened Memory
  import opened Timestamps

  /** Everything a recall depends on besides the claims. */
  datatype Reader = Reader(contradictions: seq<Contradiction>, org: string, scopes: set<string>, options: Options, clock: nat -> Instant)

  function Seen(r: Reader, rows: seq<Claim>): seq<Item> {
    Eligible(r.contradictions, rows, r.org, r.scopes, r.options, r.clock)
  }

  predicate Visible(r: Reader, claim: Claim) {
    Selected(claim, r.org, r.scopes) && Kept(ItemOf(r.contradictions, claim, r.clock(claim.id)), r.options)
  }

  lemma SeenAppend(r: Reader, rows: seq<Claim>, claim: Claim)
    ensures Seen(r, rows + [claim])
         == Seen(r, rows) + if Visible(r, claim) then [ItemOf(r.contradictions, claim, r.clock(claim.id))] else []
  {
    assert (rows + [claim])[..|rows|] == rows;
  }

  /** A list with one item put in at position k. */
  function PutIn(items: seq<Item>, k: nat, item: Item): seq<Item>
    requires k <= |items|
  {
    items[..k] + [item] + items[k..]
  }

  /** Items up to k come no later than the row, those from k on come after it. */
  ghost predicate SplitsAt(items: seq<Item>, k: nat, claim: Claim) {
    && k <= |items|
    && (forall i :: 0 <= i < k ==> !Precedes(claim, items[i].claim))
    && (forall i :: k <= i < |items| ==> Precedes(claim, items[i].claim))
  }

  lemma {:induction false} SeenFrom(r: Reader, rows: seq<Claim>)
    ensures forall item :: item in Seen(r, rows) ==> item.claim in rows
  {
    if |rows| > 0 {
      SeenFrom(r, rows[..|rows| - 1]);
    }
  }

  /** A row at the end of rows that it does not precede. */
  lemma LastRow(r: Reader, rows: seq<Claim>, claim: Claim)
    requires forall x :: x in rows ==> !Precedes(claim, x)
    ensures var items := Seen(r, rows);
            && SplitsAt(items, |items|, claim)
            && Seen(r, rows + [claim])
               == if Visible(r, claim) then PutIn(items, |items|, ItemOf(r.contradictions, claim, r.clock(claim.id))) else items
  {
    SeenAppend(r, rows, claim);
    SeenFrom(r, rows);
    forall i | 0 <= i < |Seen(r, rows)| ensures !Precedes(claim, Seen(r, rows)[i].claim) {
      assert Seen(r, rows)[i] in Seen(r, rows);
    }
  }

  lemma NoneAfterLast(rows: seq<Claim>, claim: Claim)
    requires InOrder(rows) && (|rows| > 0 ==> !Precedes(claim, rows[|rows| - 1]))
    ensures forall x :: x in rows ==> !Precedes(claim, x)
  {
    forall x | x in rows ensures !Precedes(claim, x) {
      PrecedesIsTotal(x, rows[|rows| - 1], claim);
      PrecedesIsTotal(x, x, x);
    }
  }

  /** A later row after the place where a row was put in. */
  lemma PutInThenLast(items: seq<Item>, k: nat, item: Item, tail: seq<Item>)
    requires k <= |items|
    ensures PutIn(items, k, item) + tail == PutIn(items + tail, k, item)
  {
  }

  /** An invisible row changes nothing wherever the order puts it; a visible one is put in where
      its order says. */
  lemma {:induction false} InsertedRow(r: Reader, rows: seq<Claim>, claim: Claim) returns (k: nat)
    requires InOrder(rows)
    ensures SplitsAt(Seen(r, rows), k, claim)
    ensures Seen(r, Insert(rows, claim))
         == if Visible(r, claim) then PutIn(Seen(r, rows), k, ItemOf(r.contradictions, claim, r.clock(claim.id))) else Seen(r, rows)
  {
    if |rows| > 0 && Precedes(claim, rows[|rows| - 1]) {
      var rest, last := rows[..|rows| - 1], rows[|rows| - 1];
      k := InsertedRow(r, rest, claim);
      var tail := if Visible(r, last) then [ItemOf(r.contradictions, last, r.clock(last.id))] else [];
      SeenAppend(r, Insert(rest, claim), last);
      SeenAppend(r, rest, last);
      assert rows == rest + [last];
      PutInThenLast(Seen(r, rest), k, ItemOf(r.contradictions, claim, r.clock(claim.id)), tail);
    } else {
      NoneAfterLast(rows, claim);
      LastRow(r, rows, claim);
      assert Insert(rows, claim) == rows + [claim];
      k := |Seen(r, rows)|;
    }
  }

  lemma NewRow(r: Reader, claims: seq<Claim>, claim: Claim) returns (k: nat)
    ensures SplitsAt(Seen(r, Ordered(claims)), k, claim)
    ensures Seen(r, Ordered(claims + [claim]))
         == if Visible(r, claim) then PutIn(Seen(r, Ordered(claims)), k, ItemOf(r.contradictions, claim, r.clock(claim.id)))
            else Seen(r, Ordered(claims))
  {
    assert (claims + [claim])[..|claims|] == claims;
    OrderedSorts(claims);
    k := InsertedRow(r, Ordered(claims), claim);
  }

  // ----- what new rows do to the first items -----

  /** A row with this time and id text would be among the first `limit`: the items are fewer, or it
      comes before the last of them. */
  predicate HasRoom(items: seq<Item>, limit: nat, createdAt: Instant, uuid: string) {
    |items| < limit
    || (|items| > 0
        && var last := items[|items| - 1].claim;
           createdAt < last.createdAt || (createdAt == last.createdAt && Before(uuid, last.uuid)))
  }

  lemma RoomIsPosition(items: seq<Item>, limit: nat, k: nat, claim: Claim)
    requires limit > 0 && SplitsAt(items, k, claim)
    ensures HasRoom(First(items, limit), limit, claim.createdAt, claim.uuid) <==> k < limit
  {
  }

  lemma PutInFirst(items: seq<Item>, k: nat, item: Item, limit: nat)
    requires k <= |items|
    ensures k >= limit ==> First(PutIn(items, k, item), limit) == First(items, limit)
    ensures k < limit ==> k < |First(PutIn(items, k, item), limit)| && First(PutIn(items, k, item), limit)[k] == item
  {
  }

  /** One of the new rows is visible and has room. */
  ghost predicate SomeShows(r: Reader, before: seq<Item>, added: seq<Claim>, limit: nat) {
    exists i :: 0 <= i < |added| && Shows(r, before, added[i], limit)
  }

  predicate Shows(r: Reader, before: seq<Item>, claim: Claim, limit: nat) {
    Visible(r, claim) && HasRoom(before, limit, claim.createdAt, claim.uuid)
  }

  predicate FreshIds(claims: seq<Claim>, added: seq<Claim>) {
    forall i, j :: 0 <= i < |claims| && 0 <= j < |added| ==> claims[i].id != added[j].id
  }

  ghost predicate HoldsNew(items: seq<Item>, added: seq<Claim>) {
    exists i, j :: 0 <= i < |items| && 0 <= j < |added| && items[i].claim == added[j]
  }

  /** From the list `start` to the list `end`, the first items stay when no new row shows, and one of
      them is a new row otherwise. */
  ghost predicate Outcome(r: Reader, start: seq<Item>, end: seq<Item>, added: seq<Claim>, limit: nat) {
    if SomeShows(r, First(start, limit), added, limit) then HoldsNew(First(end, limit), added)
    else First(end, limit) == First(start, limit)
  }

  lemma {:induction false} AddedRows(r: Reader, claims: seq<Claim>, added: seq<Claim>, limit: nat)
    requires limit > 0
    ensures Outcome(r, Seen(r, Ordered(claims)), Seen(r, Ordered(claims + added)), added, limit)
  {
    if |added| == 0 {
      assert claims + added == claims;
    } else {
      var rest, last := added[..|added| - 1], added[|added| - 1];
      AddedRows(r, claims, rest, limit);
      AddedLast(r, Seen(r, Ordered(claims)), claims + rest, rest, last, limit);
      assert rest + [last] == added && claims + rest + [last] == claims + added;
    }
  }

  lemma AddedLast(r: Reader, start: seq<Item>, mid: seq<Claim>, rest: seq<Claim>, last: Claim, limit: nat)
    requires limit > 0 && Outcome(r, start, Seen(r, Ordered(mid)), rest, limit)
    ensures Outcome(r, start, Seen(r, Ordered(mid + [last])), rest + [last], limit)
  {
    var k := NewRow(r, mid, last);
    AddOneMore(r, start, Seen(r, Ordered(mid)), Seen(r, Ordered(mid + [last])), rest, last, k, limit);
  }

  /** The step: the list `mid` with the last new row put in at k. */
  lemma AddOneMore(r: Reader, start: seq<Item>, mid: seq<Item>, end: seq<Item>, rest: seq<Claim>, last: Claim, k: nat, limit: nat)
    requires limit > 0 && SplitsAt(mid, k, last)
    requires var item := ItemOf(r.contradictions, last, r.clock(last.id));
             end == if Visible(r, last) then PutIn(mid, k, item) else mid
    requires Outcome(r, start, mid, rest, limit)
    ensures Outcome(r, start, end, rest + [last], limit)
  {
    var added, before := rest + [last], First(start, limit);
    assert added[|rest|] == last;
    assert forall j :: 0 <= j < |rest| ==> added[j] == rest[j];
    SomeShowsAppend(r, before, rest, last, limit);
    if Visible(r, last) {
      var item := ItemOf(r.contradictions, last, r.clock(last.id));
      PutInFirst(mid, k, item, limit);
      RoomIsPosition(mid, limit, k, last);
      if k < limit {
        assert First(end, limit)[k].claim == added[|rest|];
      }
    }
    if SomeShows(r, before, rest, limit) && !(Visible(r, last) && k < limit) {
      var i, j :| 0 <= i < |First(mid, limit)| && 0 <= j < |rest| && First(mid, limit)[i].claim == rest[j];
      assert First(end, limit)[i].claim == added[j];
    }
  }

  lemma SomeShowsAppend(r: Reader, before: seq<Item>, rest: seq<Claim>, last: Claim, limit: nat)
    ensures SomeShows(r, before, rest + [last], limit) <==> SomeShows(r, before, rest, limit) || Shows(r, before, last, limit)
  {
    var added := rest + [last];
    assert added[|rest|] == last;
    if SomeShows(r, before, rest, limit) {
      var i :| 0 <= i < |rest| && Shows(r, before, rest[i], limit);
      assert Shows(r, before, added[i], limit);
    }
  }

  lemma NothingNewBefore(items: seq<Item>, claims: seq<Claim>, added: seq<Claim>, limit: nat)
    requires FreshIds(claims, added) && forall item :: item in items ==> item.claim in claims
    ensures !HoldsNew(First(items, limit), added)
  {
    forall i | 0 <= i < |First(items, limit)| ensures First(items, limit)[i].claim !in added {
      assert items[i] in items;
    }
  }

  /** New rows change the first items exactly when one of them is visible and has room. */
  lemma AddedRowsChangeFirst(r: Reader, claims: seq<Claim>, added: seq<Claim>, limit: nat)
    requires limit > 0 && FreshIds(claims, added)
    ensures var before, after := First(Seen(r, Ordered(claims)), limit), First(Seen(r, Ordered(claims + added)), limit);
            after != before <==> SomeShows(r, before, added, limit)
  {
    AddedRows(r, claims, added, limit);
    StoredItems(r, claims);
    NothingNewBefore(Seen(r, Ordered(claims)), claims, added, limit);
  }

  lemma StoredItems(r: Reader, claims: seq<Claim>)
    ensures forall item :: item in Seen(r, Ordered(claims)) ==> item.claim in claims
  {
    SeenFrom(r, Ordered(claims));
    OrderedSorts(claims);
    forall item | item in Seen(r, Ordered(claims)) ensures item.claim in claims {
      assert item.claim in multiset(Ordered(claims));
    }
  }

  lemma PutInIsFound(items: seq<Item>, k: nat, item: Item, limit: nat)
    requires k <= |items| && item !in items
    ensures item in First(PutIn(items, k, item), limit) <==> k < limit
  {
    PutInFirst(items, k, item, limit);
  }

  /** A single new row is among the first items exactly when it is visible and has room. */
  lemma AddedRowIsFound(r: Reader, claims: seq<Claim>, claim: Claim, limit: nat)
    requires limit > 0 && FreshIds(claims, [claim])
    ensures ItemOf(r.contradictions, claim, r.clock(claim.id)) in First(Seen(r, Ordered(claims + [claim])), limit)
            <==> Shows(r, First(Seen(r, Ordered(claims)), limit), claim, limit)
  {
    var k := NewRow(r, claims, claim);
    var items, item := Seen(r, Ordered(claims)), ItemOf(r.contradictions, claim, r.clock(claim.id));
    StoredItems(r, claims);
    assert [claim][0] == claim;
    assert claim !in claims;
    RoomIsPosition(items, limit, k, claim);
    PutInIsFound(items, k, item, limit);
  }

  /** One capture by a worker. */
  datatype Captured = Captured(task: string, claim: WorkerClaim, uuids: Uuids, at: Instant)

  function Play(db: MemoryDb, profiles: map<string, Authority>, captures: seq<Captured>): MemoryDb {
    if |captures| == 0 then db
    else
      var last := captures[|captures| - 1];
      WorkerCaptureTx(Play(db, profiles, captures[..|captures| - 1]), profiles, last.task, last.claim, last.uuids, last.at).0
  }

  /** The scope names of tasks, organizations and the global ledger never meet. */
  lemma ScopeNames(a: string, b: string)
    ensures TaskScope(a) == TaskScope(b) <==> a == b
    ensures TaskScope(a) != OrgScope(b) && TaskScope(a) != "global" && TaskScope(a) != "global:"
  {
    assert TaskScope(a)[5..] == a && TaskScope(b)[5..] == b;
    assert TaskScope(a)[0] == 't' && OrgScope(b)[0] == 'o' && "global"[0] == 'g' && "global:"[0] == 'g';
  }

  /** The rows that a worker's capture adds. */
  lemma CaptureAdds(db: MemoryDb, profiles: map<string, Authority>, c: Captured) returns (row: Claim, candidate: Claim)
    ensures var next := WorkerCaptureTx(db, profiles, c.task, c.claim, c.uuids, c.at).0;
            && next.tasks == db.tasks && next.contradictions == db.contradictions
            && next.claims in {db.claims, db.claims + [row], db.claims + [row] + [candidate]}
    ensures row.scope == TaskScope(c.task) && candidate.status == Pending && !candidate.trusted
  {
    var next := WorkerCaptureTx(db, profiles, c.task, c.claim, c.uuids, c.at).0;
    row := Claim(0, "", "", None, TaskScope(c.task), "", Pending, false, "", None, 0, Absent, Absent, false,
                 Notes(None, None, None, []));
    candidate := row;
    if next != db {
      row := next.claims[|db.claims|];
      if |next.claims| > |db.claims| + 1 {
        candidate := next.claims[|db.claims| + 1];
        assert next.claims == db.claims + [row] + [candidate];
      } else {
        assert next.claims == db.claims + [row];
      }
    }
  }

  lemma OtherScopeIsHidden(db: MemoryDb, scope: string, org: string, task: Option<string>, other: string)
    requires Scopes(db, scope, org, task).Some? && task != Some(other) && scope != TaskScope(other)
    ensures TaskScope(other) !in Scopes(db, scope, org, task).value
    ensures TaskScope(other) !in {"global", "global:"}
  {
    ScopeNames(other, org);
    ScopeNames(other, if task.Some? then task.value else "");
  }

  lemma SeenAfterCapture(r: Reader, claims: seq<Claim>, next: seq<Claim>, row: Claim, candidate: Claim)
    requires next in {claims, claims + [row], claims + [row] + [candidate]}
    requires row.scope !in r.scopes && row.scope !in {"global", "global:"}
    requires candidate.status == Pending && !candidate.trusted
    requires r.options.trustedOnly || !r.options.includePending
    ensures Seen(r, Ordered(next)) == Seen(r, Ordered(claims))
  {
    assert !Visible(r, row);
    assert !Visible(r, candidate);
    UnseenRow(r, claims, row);
    UnseenRow(r, claims + [row], candidate);
  }

  /** Neither row of a capture by another task's worker is visible to a reader that hides
      untrusted or pending claims: one is in a scope it does not read, the other is a pending,
      untrusted candidate. */
  lemma OtherTaskCapture(db: MemoryDb, profiles: map<string, Authority>, c: Captured, scope: string, org: string,
                         task: Option<string>, options: Options, clock: nat -> Instant)
    requires task != Some(c.task) && scope != TaskScope(c.task)
    requires options.trustedOnly || !options.includePending
    ensures var next := WorkerCaptureTx(db, profiles, c.task, c.claim, c.uuids, c.at).0;
            Recall(next, scope, org, task, options, clock) == Recall(db, scope, org, task, options, clock)
  {
    var row, candidate := CaptureAdds(db, profiles, c);
    var scopes := Scopes(db, scope, org, task);
    if scopes.Some? {
      OtherScopeIsHidden(db, scope, org, task, c.task);
      var next := WorkerCaptureTx(db, profiles, c.task, c.claim, c.uuids, c.at).0;
      SeenAfterCapture(Reader(db.contradictions, org, scopes.value, options, clock), db.claims, next.claims, row, candidate);
    }
  }

  /** For every series of captures by workers of other tasks, under any policy and clock, a
      recall that trusts only promoted claims or leaves pending ones out returns exactly what it
      returned before, error cases and item limit included. */
  lemma {:induction false} RecallIsIsolated(db: MemoryDb, profiles: map<string, Authority>, captures: seq<Captured>, scope: string,
                                            org: string, task: Option<string>, options: Options, clock: nat -> Instant)
    requires forall i :: 0 <= i < |captures| ==> task != Some(captures[i].task) && scope != TaskScope(captures[i].task)
    requires options.trustedOnly || !options.includePending
    ensures Recall(Play(db, profiles, captures), scope, org, task, options, clock) == Recall(db, scope, org, task, options, clock)
  {
    if |captures| > 0 {
      var prefix, last := captures[..|captures| - 1], captures[|captures| - 1];
      RecallIsIsolated(db, profiles, prefix, scope, org, task, options, clock);
      OtherTaskCapture(Play(db, profiles, prefix), profiles, last, scope, org, task, options, clock);
    }
  }

  // ----- exactly when a capture changes a recall -----

  /** Ids are positions, and contradictions are between claims that exist. */
  ghost predicate Consistent(db: MemoryDb) {
    && (forall i :: 0 <= i < |db.claims| ==> db.claims[i].id == i)
    && forall i :: 0 <= i < |db.contradictions| ==>
         db.contradictions[i].existing < |db.claims| && db.contradictions[i].newer < |db.claims|
  }

  /** The guards of a worker's capture: its task is open, its profile and organization are known,
      and a confidence or label that is given is in range. */
  predicate Capturable(db: MemoryDb, profiles: map<string, Authority>, c: Captured) {
    && c.task in db.tasks && !db.tasks[c.task].terminal
    && db.tasks[c.task].profile in profiles && db.tasks[c.task].org in db.orgs
    && (c.claim.confidence.Some? ==> 0.0 <= c.claim.confidence.value <= 1.0)
    && (c.claim.confidenceLabel.Some? ==> c.claim.confidenceLabel.value in {"low", "medium", "high", "verified"})
  }

  lemma CaptureSucceeds(db: MemoryDb, profiles: map<string, Authority>, c: Captured)
    ensures WorkerCaptureTx(db, profiles, c.task, c.claim, c.uuids, c.at).1.Success? <==> Capturable(db, profiles, c)
    ensures !Capturable(db, profiles, c) ==> WorkerCaptureTx(db, profiles, c.task, c.claim, c.uuids, c.at).0 == db
  {
  }

  /** The rows of a successful capture, spelled out. */
  lemma CaptureRows(db: MemoryDb, profiles: map<string, Authority>, c: Captured)
    requires Capturable(db, profiles, c)
    ensures var row, next, id := db.tasks[c.task], WorkerCaptureTx(db, profiles, c.task, c.claim, c.uuids, c.at).0, |db.claims|;
            var authority := EffectiveAuthority(db.orgs[row.org].authority, profiles[row.profile]);
            && next.tasks == db.tasks && next.contradictions == db.contradictions
            && |next.claims| == id + (if authority == SessionAuto then 2 else 1) && next.claims[..id] == db.claims
            && (var own := next.claims[id];
               && own.id == id && own.org == row.org && own.scope == TaskScope(c.task) && own.createdAt == c.at
               && own.uuid == c.uuids.claim && own.trusted == (authority != HumanGated) && !own.superseded
               && own.status == (if authority != HumanGated then Promoted else Pending)
               && own.validFrom == c.claim.validFrom && own.validUntil == c.claim.validUntil)
            && (authority == SessionAuto ==>
                  var candidate := next.claims[id + 1];
                  && candidate.id == id + 1 && candidate.org == row.org && candidate.scope == OrgScope(row.org)
                  && candidate.createdAt == c.at && candidate.uuid == c.uuids.candidate
                  && candidate.status == Pending && !candidate.trusted && !candidate.superseded
                  && candidate.validFrom == c.claim.validFrom && candidate.validUntil == c.claim.validUntil)
  {
  }

  /** The worker's claim may be seen: the reader is of its organization and reads its task's scope;
      unless policy gates the claim on a person, in which case it is pending and untrusted, the
      reader takes what it gets; and a reader of active claims finds it valid. */
  ghost predicate OwnClaimMeets(db: MemoryDb, profiles: map<string, Authority>, c: Captured, r: Reader)
    requires Capturable(db, profiles, c)
  {
    var row := db.tasks[c.task];
    && r.org == row.org && TaskScope(c.task) in r.scopes
    && (EffectiveAuthority(db.orgs[row.org].authority, profiles[row.profile]) != HumanGated
        || (!r.options.trustedOnly && r.options.includePending))
    && (r.options.activeOnly ==> ValidityOf(c.claim.validUntil, c.claim.validFrom, r.clock(|db.claims|)) == Current)
  }

  /** The candidate queued beside it may be seen: policy is session_auto, the reader is of the
      organization, asks for untrusted and pending claims, and finds it valid if it must be. */
  ghost predicate CandidateMeets(db: MemoryDb, profiles: map<string, Authority>, c: Captured, r: Reader)
    requires Capturable(db, profiles, c)
  {
    var row := db.tasks[c.task];
    && r.org == row.org && OrgScope(row.org) in r.scopes
    && EffectiveAuthority(db.orgs[row.org].authority, profiles[row.profile]) == SessionAuto
    && !r.options.trustedOnly && r.options.includePending
    && (r.options.activeOnly ==> ValidityOf(c.claim.validUntil, c.claim.validFrom, r.clock(|db.claims| + 1)) == Current)
  }

  /** Both rows are visible exactly by those rules, to any reader over the same contradictions. */
  lemma CapturedRowsVisible(db: MemoryDb, profiles: map<string, Authority>, c: Captured, r: Reader)
    requires Consistent(db) && r.contradictions == db.contradictions
    requires Capturable(db, profiles, c)
    ensures var next, id := WorkerCaptureTx(db, profiles, c.task, c.claim, c.uuids, c.at).0, |db.claims|;
            && |next.claims| > id && (Visible(r, next.claims[id]) <==> OwnClaimMeets(db, profiles, c, r))
            && (if |next.claims| > id + 1 then Visible(r, next.claims[id + 1]) <==> CandidateMeets(db, profiles, c, r)
                else !CandidateMeets(db, profiles, c, r))
  {
    CaptureRows(db, profiles, c);
    ScopeNames(c.task, db.tasks[c.task].org);
    assert !Contradicted(r.contradictions, |db.claims|) && !Contradicted(r.contradictions, |db.claims| + 1);
    assert OrgScope(db.tasks[c.task].org)[0] == 'o' && "global"[0] == 'g' && "global:"[0] == 'g';
  }

  /** The reader that a recall is. */
  function ReaderOf(db: MemoryDb, scope: string, org: string, task: Option<string>, options: Options, clock: nat -> Instant): Reader {
    var scopes := Scopes(db, scope, org, task);
    Reader(db.contradictions, org, if scopes.Some? then scopes.value else {}, options, clock)
  }

  /** Which scopes a matching recall reads, in the terms of a capture: the task's, when it is the
      recall's own task or its memory scope; the organization's always. */
  lemma ScopesRead(db: MemoryDb, scope: string, org: string, task: Option<string>, other: string)
    requires Scopes(db, scope, org, task).Some? && other in db.tasks && !db.tasks[other].terminal
    ensures TaskScope(other) in Scopes(db, scope, org, task).value <==> scope == TaskScope(other) || task == Some(other)
    ensures OrgScope(org) in Scopes(db, scope, org, task).value
  {
    ScopeNames(other, org);
    ScopeNames(other, if task.Some? then task.value else "");
  }

  /** The capture shows up in a recall that returned `before`: its guards hold, and its claim or its
      candidate may be seen and has room. */
  ghost predicate CaptureShows(db: MemoryDb, profiles: map<string, Authority>, c: Captured, r: Reader, before: seq<Item>)
  {
    && Capturable(db, profiles, c)
    && r.options.maxItems > 0
    && ((OwnClaimMeets(db, profiles, c, r) && HasRoom(before, r.options.maxItems, c.at, c.uuids.claim))
        || (CandidateMeets(db, profiles, c, r) && HasRoom(before, r.options.maxItems, c.at, c.uuids.candidate)))
  }

  /** One capture changes a recall exactly when the recall succeeds and the capture shows up in it,
      the cut-off included. */
  lemma CaptureChangesRecall(db: MemoryDb, profiles: map<string, Authority>, c: Captured, scope: string, org: string,
                             task: Option<string>, options: Options, clock: nat -> Instant)
    requires Consistent(db)
    ensures var before := Recall(db, scope, org, task, options, clock);
            Recall(WorkerCaptureTx(db, profiles, c.task, c.claim, c.uuids, c.at).0, scope, org, task, options, clock) != before
            <==> before.Success? && CaptureShows(db, profiles, c, ReaderOf(db, scope, org, task, options, clock), before.value)
  {
    CaptureSucceeds(db, profiles, c);
    if Capturable(db, profiles, c) {
      CaptureRows(db, profiles, c);
      if Recall(db, scope, org, task, options, clock).Success? {
        CaptureChangesItems(db, profiles, c, ReaderOf(db, scope, org, task, options, clock));
      }
    }
  }

  /** The same on the items themselves. */
  lemma CaptureChangesItems(db: MemoryDb, profiles: map<string, Authority>, c: Captured, r: Reader)
    requires Consistent(db) && r.contradictions == db.contradictions && r.options.maxItems > 0
    requires Capturable(db, profiles, c)
    ensures var next := WorkerCaptureTx(db, profiles, c.task, c.claim, c.uuids, c.at).0;
            var before := First(Seen(r, Ordered(db.claims)), r.options.maxItems);
            First(Seen(r, Ordered(next.claims)), r.options.maxItems) != before <==> CaptureShows(db, profiles, c, r, before)
  {
    var next := WorkerCaptureTx(db, profiles, c.task, c.claim, c.uuids, c.at).0;
    var before := First(Seen(r, Ordered(db.claims)), r.options.maxItems);
    CaptureRows(db, profiles, c);
    var added := next.claims[|db.claims|..];
    assert next.claims == db.claims + added;
    AddedRowsChangeFirst(r, db.claims, added, r.options.maxItems);
    CaptureSomeShows(db, profiles, c, r, before);
  }

  lemma CaptureSomeShows(db: MemoryDb, profiles: map<string, Authority>, c: Captured, r: Reader, before: seq<Item>)
    requires Consistent(db) && r.contradictions == db.contradictions && r.options.maxItems > 0
    requires Capturable(db, profiles, c)
    ensures var next := WorkerCaptureTx(db, profiles, c.task, c.claim, c.uuids, c.at).0;
            |db.claims| <= |next.claims|
            && (SomeShows(r, before, next.claims[|db.claims|..], r.options.maxItems) <==> CaptureShows(db, profiles, c, r, before))
  {
    var next := WorkerCaptureTx(db, profiles, c.task, c.claim, c.uuids, c.at).0;
    var added, limit := next.claims[|db.claims|..], r.options.maxItems;
    CaptureRows(db, profiles, c);
    CapturedRowsVisible(db, profiles, c, r);
    assert added[0] == next.claims[|db.claims|];
    assert |added| > 1 ==> added[1] == next.claims[|db.claims| + 1];
    assert SomeShows(r, before, added, limit) <==> Shows(r, before, added[0], limit) || (|added| > 1 && Shows(r, before, added[1], limit));
  }

  /** The rows that a series of captures adds. */
  lemma {:induction false} PlayAdds(db: MemoryDb, profiles: map<string, Authority>, captures: seq<Captured>)
    requires Consistent(db)
    ensures var next := Play(db, profiles, captures);
            && next.tasks == db.tasks && next.contradictions == db.contradictions && Consistent(next)
            && |db.claims| <= |next.claims| && next.claims[..|db.claims|] == db.claims
  {
    if |captures| > 0 {
      var prefix, last := captures[..|captures| - 1], captures[|captures| - 1];
      PlayAdds(db, profiles, prefix);
      var mid := Play(db, profiles, prefix);
      CaptureSucceeds(mid, profiles, last);
      if Capturable(mid, profiles, last) {
        CaptureRows(mid, profiles, last);
      }
    }
  }

  /** A series of captures, by any tasks and under any policy, changes a recall exactly when the
      recall succeeds and some row the series added is visible to it and has room in what it
      returned before the series. */
  lemma CapturesChangeRecall(db: MemoryDb, profiles: map<string, Authority>, captures: seq<Captured>, scope: string, org: string,
                             task: Option<string>, options: Options, clock: nat -> Instant)
    requires Consistent(db)
    ensures var before, next := Recall(db, scope, org, task, options, clock), Play(db, profiles, captures);
            && |db.claims| <= |next.claims|
            && (Recall(next, scope, org, task, options, clock) != before
                <==> before.Success? && options.maxItems > 0
                     && SomeShows(ReaderOf(db, scope, org, task, options, clock), before.value, next.claims[|db.claims|..],
                                  options.maxItems))
  {
    PlayAdds(db, profiles, captures);
    GrownLedgerRecall(db, Play(db, profiles, captures), scope, org, task, options, clock);
  }

  /** What new rows at the end of the claims do to a recall. */
  lemma GrownLedgerRecall(db: MemoryDb, next: MemoryDb, scope: string, org: string, task: Option<string>, options: Options, clock: nat -> Instant)
    requires Consistent(db) && Consistent(next) && next.tasks == db.tasks && next.contradictions == db.contradictions
    requires |db.claims| <= |next.claims| && next.claims[..|db.claims|] == db.claims
    ensures var before := Recall(db, scope, org, task, options, clock);
            Recall(next, scope, org, task, options, clock) != before
            <==> before.Success? && options.maxItems > 0
                 && SomeShows(ReaderOf(db, scope, org, task, options, clock), before.value, next.claims[|db.claims|..], options.maxItems)
  {
    var added := next.claims[|db.claims|..];
    assert next.claims == db.claims + added;
    if Recall(db, scope, org, task, options, clock).Success? {
      AddedRowsChangeFirst(ReaderOf(db, scope, org, task, options, clock), db.claims, added, options.maxItems);
    }
  }

  /** A worker's own claim is returned by a recall that hides untrusted or pending claims exactly
      when the recall reads the task's scope in its organization, policy does not gate the claim on
      a person, it is valid if it must be, and it has room in what the recall returned before. */
  lemma OwnCaptureIsRecalled(db: MemoryDb, profiles: map<string, Authority>, c: Captured, scope: string, org: string,
                             task: Option<string>, options: Options, clock: nat -> Instant)
    requires Consistent(db) && (options.trustedOnly || !options.includePending)
    requires Capturable(db, profiles, c)
    requires Recall(db, scope, org, task, options, clock).Success?
    ensures var row, next, id := db.tasks[c.task], WorkerCaptureTx(db, profiles, c.task, c.claim, c.uuids, c.at).0, |db.claims|;
            var before, after := Recall(db, scope, org, task, options, clock), Recall(next, scope, org, task, options, clock);
            && id < |next.claims| && after.Success?
            && (ItemOf(db.contradictions, next.claims[id], clock(id)) in after.value
                <==> org == row.org && (scope == TaskScope(c.task) || task == Some(c.task))
                     && EffectiveAuthority(db.orgs[row.org].authority, profiles[row.profile]) != HumanGated
                     && (options.activeOnly ==> ValidityOf(c.claim.validUntil, c.claim.validFrom, clock(id)) == Current)
                     && HasRoom(before.value, options.maxItems, c.at, c.uuids.claim))
  {
    var next, id := WorkerCaptureTx(db, profiles, c.task, c.claim, c.uuids, c.at).0, |db.claims|;
    var r := ReaderOf(db, scope, org, task, options, clock);
    CaptureRows(db, profiles, c);
    CapturedRowsVisible(db, profiles, c, r);
    ScopesRead(db, scope, org, task, c.task);
    AddedRowIsFound(r, db.claims, next.claims[id], options.maxItems);
    OneOrTwo(db.claims, next.claims);
    if next.claims != db.claims + [next.claims[id]] {
      UnseenRow(r, db.claims + [next.claims[id]], next.claims[id + 1]);
    }
  }

  lemma UnseenRow(r: Reader, claims: seq<Claim>, row: Claim)
    requires !Visible(r, row)
    ensures Seen(r, Ordered(claims + [row])) == Seen(r, Ordered(claims))
  {
    var _ := NewRow(r, claims, row);
  }

  /** One row, or two, at the end of the claims. */
  lemma OneOrTwo(claims: seq<Claim>, next: seq<Claim>)
    requires |claims| + 1 <= |next| <= |claims| + 2 && next[..|claims|] == claims
    ensures next == claims + [next[|claims|]] || (|next| == |claims| + 2 && next == claims + [next[|claims|]] + [next[|claims| + 1]])
  {
    assert next == next[..|claims|] + next[|claims|..];
  }

  /** The candidate that a session_auto capture queues is returned by a recall exactly when the
      recall is of its organization, asks for untrusted and pending claims, finds it valid if it
      must be, and has room for it beside the worker's own claim. */
  lemma QueuedCandidateIsRecalled(db: MemoryDb, profiles: map<string, Authority>, c: Captured, scope: string, org: string,
                                  task: Option<string>, options: Options, clock: nat -> Instant)
    requires Consistent(db)
    requires Capturable(db, profiles, c)
    requires var row := db.tasks[c.task]; EffectiveAuthority(db.orgs[row.org].authority, profiles[row.profile]) == SessionAuto
    requires Recall(db, scope, org, task, options, clock).Success?
    ensures var row, next, id := db.tasks[c.task], WorkerCaptureTx(db, profiles, c.task, c.claim, c.uuids, c.at).0, |db.claims|;
            && |next.claims| == id + 2
            && var without := Recall(next.(claims := next.claims[..id + 1]), scope, org, task, options, clock);
               var after := Recall(next, scope, org, task, options, clock);
               && without.Success? && after.Success?
               && (ItemOf(db.contradictions, next.claims[id + 1], clock(id + 1)) in after.value
                   <==> org == row.org && !options.trustedOnly && options.includePending
                        && (options.activeOnly ==> ValidityOf(c.claim.validUntil, c.claim.validFrom, clock(id + 1)) == Current)
                        && HasRoom(without.value, options.maxItems, c.at, c.uuids.candidate))
  {
    var next, id := WorkerCaptureTx(db, profiles, c.task, c.claim, c.uuids, c.at).0, |db.claims|;
    var r := ReaderOf(db, scope, org, task, options, clock);
    CaptureRows(db, profiles, c);
    CapturedRowsVisible(db, profiles, c, r);
    ScopesRead(db, scope, org, task, c.task);
    var some := next.claims[..id + 1];
    assert some == db.claims + [next.claims[id]];
    assert next.claims == some + [next.claims[id + 1]];
    AddedRowIsFound(r, some, next.claims[id + 1], options.maxItems);
  }

  /** Two open tasks of one organization, the second with the first one's scope as its memory scope. */
  function SharedScopes(a: string, b: string, org: string, profile: string): MemoryDb {
    MemoryDb(map[a := TaskInfo(org, false, "repo", "public", profile), b := TaskInfo(org, false, TaskScope(a), "public", profile)],
             map[org := OrgInfo(Hybrid, false)], [], [], [], [])
  }

  function PlainClaim(text: string): WorkerClaim { WorkerClaim(text, "worker", None, None, Absent, Absent, [], []) }

  /** Such a task reads the other's claims, so whatever the first one captures changes its recall. */
  lemma SharedScopeLeaks(a: string, b: string, org: string, profile: string, text: string, uuids: Uuids, at: Instant, clock: nat -> Instant)
    requires a != b
    ensures var db, capture := SharedScopes(a, b, org, profile), Captured(a, PlainClaim(text), uuids, at);
            var options, profiles := Options(false, true, true, 8), map[profile := Hybrid];
            Recall(Play(db, profiles, [capture]), TaskScope(a), org, Some(b), options, clock)
            != Recall(db, TaskScope(a), org, Some(b), options, clock)
  {
    var db, capture := SharedScopes(a, b, org, profile), Captured(a, PlainClaim(text), uuids, at);
    var options, profiles := Options(false, true, true, 8), map[profile := Hybrid];
    PlayOne(db, profiles, capture);
    ScopesRead(db, TaskScope(a), org, Some(b), a);
    CaptureChangesRecall(db, profiles, capture, TaskScope(a), org, Some(b), options, clock);
    SharedScopeMeets(a, b, org, profile, text, uuids, at, ReaderOf(db, TaskScope(a), org, Some(b), options, clock));
  }

  lemma SharedScopeMeets(a: string, b: string, org: string, profile: string, text: string, uuids: Uuids, at: Instant, r: Reader)
    requires a != b && r.org == org && TaskScope(a) in r.scopes
    ensures var db, capture := SharedScopes(a, b, org, profile), Captured(a, PlainClaim(text), uuids, at);
            && Capturable(db, map[profile := Hybrid], capture)
            && OwnClaimMeets(db, map[profile := Hybrid], capture, r)
  {
  }

  lemma PlayOne(db: MemoryDb, profiles: map<string, Authority>, c: Captured)
    ensures Play(db, profiles, [c]) == WorkerCaptureTx(db, profiles, c.task, c.claim, c.uuids, c.at).0
  {
    assert [c][..0] == [];
  }
}
