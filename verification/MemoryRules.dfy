/** What a recall returns and what a capture or a promotion writes, stated over the columns of the
    rows. */
module MemoryRules {
  import opened Wrappers
  import opened Calendar
  import opened Timestamps
  import opened Memory

  // ----- who may be trusted -----

  /** The setting in force is the stricter of the two: automatic only where both are, and gated on a
      person where either is. */
  lemma EffectiveIsStricter(org: Authority, profile: Authority)
    ensures EffectiveAuthority(org, profile) == SessionAuto <==> org == SessionAuto && profile == SessionAuto
    ensures EffectiveAuthority(org, profile) == HumanGated <==> org == HumanGated || profile == HumanGated
  {
  }

  /** An open contradiction names the claim, on either side. */
  ghost predicate Disputed(contradictions: seq<Contradiction>, id: nat) {
    exists x :: x in contradictions && x.open && (x.existing == id || x.newer == id)
  }

  lemma DisputedIsContradicted(contradictions: seq<Contradiction>, id: nat)
    ensures Contradicted(contradictions, id) <==> Disputed(contradictions, id)
  {
    if x :| x in contradictions && x.open && (x.existing == id || x.newer == id) {
      var i :| 0 <= i < |contradictions| && contradictions[i] == x;
      assert contradictions[i].open && (contradictions[i].existing == id || contradictions[i].newer == id);
    }
  }

  /** A person or a policy promoted the claim, and nothing speaks against it. */
  ghost predicate Trustworthy(claim: Claim, contradictions: seq<Contradiction>) {
    claim.status == Promoted && claim.trusted && !claim.superseded && !Disputed(contradictions, claim.id)
  }

  /** Both dates can be read, and now is not outside them. */
  predicate InDate(claim: Claim, now: Instant) {
    && claim.validFrom != Unreadable && claim.validUntil != Unreadable
    && (claim.validFrom.At? ==> claim.validFrom.moment <= now)
    && (claim.validUntil.At? ==> now <= claim.validUntil.moment)
  }

  lemma CurrentIsInDate(claim: Claim, now: Instant)
    ensures ValidityOf(claim.validUntil, claim.validFrom, now) == Current <==> InDate(claim, now)
  {
  }

  // ----- recall -----

  predicate Global(scope: string) { scope == "global" || scope == "global:" }

  /** The task, when one is given, exists, belongs to the organization and has this memory scope. */
  predicate Matches(db: MemoryDb, scope: string, org: string, task: Option<string>) {
    task.Some? ==> task.value in db.tasks && db.tasks[task.value].org == org && db.tasks[task.value].memoryScope == scope
  }

  /** The row is the organization's, in the scope that was asked for, its own, the global one, or that
      of the open task; or it is anybody's, in the global scope, promoted and trusted. */
  predicate Readable(db: MemoryDb, claim: Claim, scope: string, org: string, task: Option<string>)
    requires Matches(db, scope, org, task)
  {
    || (claim.org == org
        && (claim.scope == scope || claim.scope == "org:" + org || Global(claim.scope)
            || (task.Some? && !db.tasks[task.value].terminal && claim.scope == "task:" + task.value)))
    || (Global(claim.scope) && claim.status == Promoted && claim.trusted)
  }

  /** The row is one that the recall asks for. */
  ghost predicate Wanted(db: MemoryDb, claim: Claim, scope: string, org: string, task: Option<string>, options: Options, now: Instant)
    requires Matches(db, scope, org, task)
  {
    && Readable(db, claim, scope, org, task)
    && (options.trustedOnly ==> Trustworthy(claim, db.contradictions))
    && (claim.status == Pending ==> options.includePending)
    && (options.activeOnly ==> !claim.superseded && InDate(claim, now))
  }

  /** What the item says of its row. */
  ghost predicate Describes(item: Item, claim: Claim, contradictions: seq<Contradiction>, now: Instant) {
    && item.claim == claim
    && (item.trusted <==> Trustworthy(claim, contradictions))
    && (item.contradicted <==> Disputed(contradictions, claim.id))
    && (item.validity == Superseded <==> claim.superseded)
    && (item.validity == Current <==> !claim.superseded && InDate(claim, now))
    && (item.validity == Unknown <==> !claim.superseded && (claim.validFrom == Unreadable || claim.validUntil == Unreadable))
    && (item.validity == NotYetValid <==>
          !claim.superseded && claim.validUntil != Unreadable && claim.validFrom.At? && now < claim.validFrom.moment)
  }

  ghost predicate Increasing(at: seq<nat>) {
    forall i, k :: 0 <= i < k < |at| ==> at[i] < at[k]
  }

  /** The items are those of the wanted rows, in their order: all of them, or the first `limit`. */
  ghost predicate FirstWanted(items: seq<Item>, at: seq<nat>, rows: seq<Claim>, db: MemoryDb, scope: string, org: string,
                              task: Option<string>, options: Options, clock: nat -> Instant)
    requires Matches(db, scope, org, task)
  {
    && |items| == |at| <= options.maxItems && Increasing(at)
    && (forall i :: 0 <= i < |at| ==>
          at[i] < |rows| && Wanted(db, rows[at[i]], scope, org, task, options, clock(rows[at[i]].id))
          && Describes(items[i], rows[at[i]], db.contradictions, clock(rows[at[i]].id)))
    && (forall p: nat :: p < |rows| && Wanted(db, rows[p], scope, org, task, options, clock(rows[p].id)) ==>
          p in at || (0 < |at| == options.maxItems && at[|at| - 1] < p))
  }

  /** Creation time comes first, then the text of the id. */
  ghost predicate ByTimeAndId(rows: seq<Claim>) {
    forall i, k :: 0 <= i < k < |rows| ==>
      rows[i].createdAt < rows[k].createdAt
      || (rows[i].createdAt == rows[k].createdAt && !Before(rows[k].uuid, rows[i].uuid))
  }

  lemma ScopesKnown(db: MemoryDb, scope: string, org: string, task: Option<string>)
    ensures Scopes(db, scope, org, task).Some? <==> Matches(db, scope, org, task)
  {
  }

  lemma SelectedIsReadable(db: MemoryDb, claim: Claim, scope: string, org: string, task: Option<string>)
    ensures Matches(db, scope, org, task) ==>
              (Selected(claim, org, Scopes(db, scope, org, task).value) <==> Readable(db, claim, scope, org, task))
  {
  }

  lemma ItemDescribes(contradictions: seq<Contradiction>, claim: Claim, now: Instant)
    ensures Describes(ItemOf(contradictions, claim, now), claim, contradictions, now)
  {
    DisputedIsContradicted(contradictions, claim.id);
  }

  lemma KeptIsWanted(db: MemoryDb, claim: Claim, scope: string, org: string, task: Option<string>, options: Options, now: Instant)
    requires Matches(db, scope, org, task)
    ensures Scopes(db, scope, org, task).Some?
    ensures Selected(claim, org, Scopes(db, scope, org, task).value) && Kept(ItemOf(db.contradictions, claim, now), options)
            <==> Wanted(db, claim, scope, org, task, options, now)
  {
    SelectedIsReadable(db, claim, scope, org, task);
    ItemDescribes(db.contradictions, claim, now);
  }

  /** The positions of all rows that yield an item. */
  lemma {:induction false} WantedPositions(db: MemoryDb, rows: seq<Claim>, scope: string, org: string, task: Option<string>,
                                           options: Options, clock: nat -> Instant) returns (at: seq<nat>)
    requires Matches(db, scope, org, task) && Scopes(db, scope, org, task).Some?
    ensures var items := Eligible(db.contradictions, rows, org, Scopes(db, scope, org, task).value, options, clock);
            && |items| == |at| && Increasing(at)
            && (forall i :: 0 <= i < |at| ==>
                  at[i] < |rows| && Wanted(db, rows[at[i]], scope, org, task, options, clock(rows[at[i]].id))
                  && Describes(items[i], rows[at[i]], db.contradictions, clock(rows[at[i]].id)))
            && (forall p: nat :: p < |rows| && Wanted(db, rows[p], scope, org, task, options, clock(rows[p].id)) ==> p in at)
  {
    at := [];
    if |rows| > 0 {
      var last := rows[|rows| - 1];
      at := WantedPositions(db, rows[..|rows| - 1], scope, org, task, options, clock);
      KeptIsWanted(db, last, scope, org, task, options, clock(last.id));
      ItemDescribes(db.contradictions, last, clock(last.id));
      if Wanted(db, last, scope, org, task, options, clock(last.id)) {
        assert (at + [|rows| - 1])[|at|] == |rows| - 1;
        at := at + [|rows| - 1];
      }
    }
  }

  lemma OrderedByTimeAndId(claims: seq<Claim>)
    ensures ByTimeAndId(Ordered(claims)) && multiset(Ordered(claims)) == multiset(claims)
  {
    OrderedSorts(claims);
    var rows := Ordered(claims);
    forall i, k | 0 <= i < k < |rows|
      ensures rows[i].createdAt < rows[k].createdAt
              || (rows[i].createdAt == rows[k].createdAt && !Before(rows[k].uuid, rows[i].uuid))
    {
      assert !Precedes(rows[k], rows[i]);
    }
  }

  lemma FirstItems(db: MemoryDb, rows: seq<Claim>, scope: string, org: string, task: Option<string>, options: Options, clock: nat -> Instant)
    returns (at: seq<nat>)
    requires Matches(db, scope, org, task) && Scopes(db, scope, org, task).Some? && 0 < options.maxItems
    ensures var items := Eligible(db.contradictions, rows, org, Scopes(db, scope, org, task).value, options, clock);
            FirstWanted(First(items, options.maxItems), at, rows, db, scope, org, task, options, clock)
  {
    var all := WantedPositions(db, rows, scope, org, task, options, clock);
    at := if |all| <= options.maxItems then all else all[..options.maxItems];
    FirstPositions(all, at, options.maxItems);
  }

  /** A recall succeeds exactly when its limit is from 1 to 100 and its task matches. It returns the
      items of the first wanted rows of the table put in order. */
  lemma RecallExactly(db: MemoryDb, scope: string, org: string, task: Option<string>, options: Options, clock: nat -> Instant)
    returns (rows: seq<Claim>, at: seq<nat>)
    ensures var r := Recall(db, scope, org, task, options, clock);
            && (r == Failure(LimitOutOfRange) <==> options.maxItems < 1 || 100 < options.maxItems)
            && (r.Success? <==> 1 <= options.maxItems <= 100 && Matches(db, scope, org, task))
            && multiset(rows) == multiset(db.claims) && ByTimeAndId(rows)
            && (r.Success? ==> FirstWanted(r.value, at, rows, db, scope, org, task, options, clock))
  {
    rows, at := Ordered(db.claims), [];
    OrderedByTimeAndId(db.claims);
    ScopesKnown(db, scope, org, task);
    if 1 <= options.maxItems <= 100 && Matches(db, scope, org, task) {
      at := FirstItems(db, rows, scope, org, task, options, clock);
    }
  }

  /** Cutting the list of positions off. */
  lemma FirstPositions(all: seq<nat>, at: seq<nat>, limit: nat)
    requires Increasing(all) && limit > 0 && at == if |all| <= limit then all else all[..limit]
    ensures Increasing(at) && |at| <= limit
    ensures forall p :: p in all ==> p in at || (|at| == limit && at[|at| - 1] < p)
  {
    forall p | p in all ensures p in at || (|at| == limit && at[|at| - 1] < p) {
      var i :| 0 <= i < |all| && all[i] == p;
      assert i < |at| ==> at[i] == p;
    }
  }

  /** A recall of trusted claims returns only claims of the table that are promoted, trusted, not
      superseded and named by no open contradiction. */
  lemma TrustedRecall(db: MemoryDb, scope: string, org: string, task: Option<string>, options: Options, clock: nat -> Instant, item: Item)
    requires options.trustedOnly && Recall(db, scope, org, task, options, clock).Success?
    requires item in Recall(db, scope, org, task, options, clock).value
    ensures item.claim in db.claims && item.trusted && !item.contradicted
    ensures item.claim.status == Promoted && item.claim.trusted && !item.claim.superseded
    ensures forall x :: x in db.contradictions && x.open ==> x.existing != item.claim.id && x.newer != item.claim.id
  {
    var rows, at := RecallExactly(db, scope, org, task, options, clock);
    var items := Recall(db, scope, org, task, options, clock).value;
    var i :| 0 <= i < |items| && items[i] == item;
    assert rows[at[i]] in multiset(rows);
  }

  // ----- capture -----

  /** Every source belongs to a claim of the table. */
  ghost predicate SourcesPlaced(db: MemoryDb) {
    forall p :: p in db.provenance ==> p.claim < |db.claims|
  }

  lemma {:induction false} SourcesConcat(some: seq<Provenance>, more: seq<Provenance>, id: nat)
    ensures SourcesOf(some + more, id) == SourcesOf(some, id) + SourcesOf(more, id)
  {
    if |more| == 0 {
      assert some + more == some;
    } else {
      SourcesConcat(some, more[..|more| - 1], id);
      assert (some + more)[..|some + more| - 1] == some + more[..|more| - 1];
    }
  }

  lemma {:induction false} SourcesOfRows(id: nat, sources: seq<Source>, now: Instant, other: nat)
    ensures SourcesOf(ProvenanceOf(id, sources, now), other) == if id == other then sources else []
  {
    if |sources| > 0 {
      SourcesOfRows(id, sources[..|sources| - 1], now, other);
      assert ProvenanceOf(id, sources, now)[..|sources| - 1] == ProvenanceOf(id, sources[..|sources| - 1], now);
    }
  }

  /** Reading the sources of a claim back. */
  lemma SourcesAdded(provenance: seq<Provenance>, id: nat, sources: seq<Source>, now: Instant, other: nat)
    ensures SourcesOf(provenance + ProvenanceOf(id, sources, now), other)
         == SourcesOf(provenance, other) + if id == other then sources else []
  {
    SourcesConcat(provenance, ProvenanceOf(id, sources, now), other);
    SourcesOfRows(id, sources, now, other);
  }

  lemma {:induction false} NoSourcesYet(provenance: seq<Provenance>, id: nat)
    requires forall p :: p in provenance ==> p.claim < id
    ensures SourcesOf(provenance, id) == []
  {
    if |provenance| > 0 {
      assert provenance[|provenance| - 1] in provenance;
      NoSourcesYet(provenance[..|provenance| - 1], id);
    }
  }

  predicate LabelKnown(given: Option<string>) {
    given == None || given.value == "low" || given.value == "medium" || given.value == "high" || given.value == "verified"
  }

  /** The guards of a capture. */
  predicate MayCapture(db: MemoryDb, c: Capture) {
    && (c.confidence.Some? ==> 0.0 <= c.confidence.value <= 1.0)
    && LabelKnown(c.confidenceLabel)
    && (c.autoPromote ==> c.task.Some?)
    && (c.queueForLibrarian ==> c.autoPromote)
    && (c.task.Some? ==>
          && c.scope == "task:" + c.task.value && c.task.value in db.tasks
          && db.tasks[c.task.value].org == c.org && !db.tasks[c.task.value].terminal)
  }

  /** The caller's claim, trusted at once when the policy of its task says so. */
  predicate CapturedAs(row: Claim, c: Capture, id: nat, uuid: string, now: Instant) {
    && row.id == id && row.uuid == uuid && row.org == c.org && row.task == c.task && row.scope == c.scope
    && row.text == c.text && row.origin == c.origin && row.createdAt == now && !row.superseded
    && row.validFrom == c.validFrom && row.validUntil == c.validUntil
    && row.notes.confidence == c.confidence && row.notes.confidenceLabel == c.confidenceLabel && row.notes.tags == c.tags
    && if c.autoPromote then
         row.status == Promoted && row.trusted && row.promotedBy == Some(TaskPolicy) && row.notes.verifiedAt == Some(now)
       else
         row.status == Pending && !row.trusted && row.promotedBy == None && row.notes.verifiedAt == None
  }

  /** The organization's candidate for the same text: of no task, pending and unverified. */
  predicate CandidateAs(row: Claim, c: Capture, id: nat, uuid: string, claimUuid: string, now: Instant) {
    && row.id == id && row.uuid == uuid && row.org == c.org && row.task == None && row.scope == "org:" + c.org
    && row.text == c.text && row.origin == "librarian_candidate:" + claimUuid && row.createdAt == now && !row.superseded
    && row.validFrom == c.validFrom && row.validUntil == c.validUntil && row.notes.tags == c.tags
    && row.status == Pending && !row.trusted && row.promotedBy == None
    && row.notes.confidence == None && row.notes.confidenceLabel == None && row.notes.verifiedAt == None
  }

  /** The rows of a successful capture, with the sources that reading them back gives. */
  ghost predicate CaptureWrites(db: MemoryDb, next: MemoryDb, c: Capture, uuids: Uuids, now: Instant) {
    var id := |db.claims|;
    && next.tasks == db.tasks && next.orgs == db.orgs && next.contradictions == db.contradictions
    && |next.claims| == id + (if c.queueForLibrarian then 2 else 1) && db.claims <= next.claims
    && CapturedAs(next.claims[id], c, id, uuids.claim, now) && SourcesOf(next.provenance, id) == c.sources
    && (forall other :: 0 <= other < id ==> SourcesOf(next.provenance, other) == SourcesOf(db.provenance, other))
    && SourcesPlaced(next)
    && if !c.queueForLibrarian then next.jobs == db.jobs
       else
         && CandidateAs(next.claims[id + 1], c, id + 1, uuids.candidate, uuids.claim, now)
         && SourcesOf(next.provenance, id + 1) == c.sources
         && next.jobs == db.jobs + [Job(uuids.job, id, id + 1, c.org, JobPending, now, now)]
  }

  lemma CapturedSources(db: MemoryDb, c: Capture, uuids: Uuids, now: Instant, other: nat)
    requires SourcesPlaced(db) && MayCapture(db, c) && other <= |db.claims| + 1
    ensures var next, id := CaptureTx(db, c, uuids, now).0, |db.claims|;
            SourcesOf(next.provenance, other)
            == if other < id then SourcesOf(db.provenance, other)
               else if other == id || c.queueForLibrarian then c.sources else []
  {
    var id := |db.claims|;
    SourcesAdded(db.provenance, id, c.sources, now, other);
    SourcesAdded(db.provenance + ProvenanceOf(id, c.sources, now), id + 1, c.sources, now, other);
    if other >= id {
      NoSourcesYet(db.provenance, other);
    }
  }

  /** A capture succeeds exactly under its guards, writes what they allow, and writes nothing when it
      fails. */
  lemma CaptureExactly(db: MemoryDb, c: Capture, uuids: Uuids, now: Instant)
    requires SourcesPlaced(db)
    ensures var (next, r) := CaptureTx(db, c, uuids, now);
            if MayCapture(db, c) then r == Success(|db.claims|) && CaptureWrites(db, next, c, uuids, now)
            else r.Failure? && next == db
  {
    if MayCapture(db, c) {
      var id := |db.claims|;
      forall other: nat | other <= id + 1
        ensures SourcesOf(CaptureTx(db, c, uuids, now).0.provenance, other)
             == if other < id then SourcesOf(db.provenance, other)
                else if other == id || c.queueForLibrarian then c.sources else []
      {
        CapturedSources(db, c, uuids, now, other);
      }
    }
  }

  /** The endpoint for workers captures exactly for an open task with a known profile and
      organization: into the task's own scope, trusted unless either setting is human_gated, queued
      for the librarian exactly when both are session_auto. */
  lemma WorkerCaptureExactly(db: MemoryDb, profiles: map<string, Authority>, task: string, claim: WorkerClaim, uuids: Uuids, now: Instant)
    ensures var (next, r) := WorkerCaptureTx(db, profiles, task, claim, uuids, now);
            if task in db.tasks && !db.tasks[task].terminal && db.tasks[task].profile in profiles && db.tasks[task].org in db.orgs then
              var row := db.tasks[task];
              var org, profile := db.orgs[row.org].authority, profiles[row.profile];
              var c := Capture("task:" + task, claim.text, claim.worker, claim.confidence, claim.confidenceLabel, claim.validFrom,
                               claim.validUntil, claim.tags, claim.sources, row.org, Some(task),
                               org != HumanGated && profile != HumanGated, org == SessionAuto && profile == SessionAuto);
              && next == CaptureTx(db, c, uuids, now).0
              && (r.Success? <==> MayCapture(db, c)) && (r.Success? ==> r.value == |db.claims|)
            else r.Failure? && next == db
  {
    if task in db.tasks && db.tasks[task].profile in profiles && db.tasks[task].org in db.orgs {
      EffectiveIsStricter(db.orgs[db.tasks[task].org].authority, profiles[db.tasks[task].profile]);
    }
  }

  // ----- promotion by people -----

  /** A person promotes exactly a pending claim, under a name. The row keeps all that was captured;
      a label already there stays unless a new one is given. */
  lemma HumanPromotionExactly(db: MemoryDb, id: nat, operator: string, confidenceLabel: Option<string>, now: Instant)
    ensures var (next, r) := PromoteTx(db, id, operator, confidenceLabel, now);
            if operator != "" && LabelKnown(confidenceLabel) && id < |db.claims| && db.claims[id].status == Pending then
              && r == Success(()) && id < |next.claims|
              && next == db.(claims := db.claims[id := next.claims[id]])
              && var row := next.claims[id];
                 && row.status == Promoted && row.trusted && row.promotedBy == Some(Human(operator)) && row.notes.verifiedAt == Some(now)
                 && row.notes.confidenceLabel == (if confidenceLabel == None then db.claims[id].notes.confidenceLabel else confidenceLabel)
                 && KeepsCapture(row, db.claims[id]) && row.notes.confidence == db.claims[id].notes.confidence
            else r.Failure? && next == db
  {
  }

  /** What a promotion leaves of a row: where it came from, what it says and when it is valid. */
  predicate KeepsCapture(row: Claim, claim: Claim) {
    && row.id == claim.id && row.uuid == claim.uuid && row.org == claim.org && row.task == claim.task && row.scope == claim.scope
    && row.text == claim.text && row.origin == claim.origin && row.createdAt == claim.createdAt
    && row.superseded == claim.superseded && row.validFrom == claim.validFrom && row.validUntil == claim.validUntil
    && row.notes.tags == claim.notes.tags
  }

  /** The copy says what the original says, in the scope of the organization and on the promoter's name. */
  predicate CopiedAs(row: Claim, claim: Claim, id: nat, uuid: string, promoter: string, now: Instant) {
    && row.id == id && row.uuid == uuid && row.org == claim.org && row.task == None && row.scope == "org:" + claim.org
    && row.text == claim.text && row.origin == "promotion:" + claim.uuid && row.createdAt == now && !row.superseded
    && row.validFrom == claim.validFrom && row.validUntil == claim.validUntil && row.notes.tags == claim.notes.tags
    && row.status == Promoted && row.trusted && row.promotedBy == Some(Human(promoter))
    && row.notes.confidence == claim.notes.confidence && row.notes.confidenceLabel == claim.notes.confidenceLabel
    && row.notes.verifiedAt == Some(now)
  }

  /** The sources after a copy: those of other claims as before, those of the original for the copy,
      and then the original itself. */
  ghost predicate SourcesCopied(db: MemoryDb, provenance: seq<Provenance>, id: nat)
    requires id < |db.claims|
  {
    var copy, prior := |db.claims|, SourcesOf(db.provenance, id);
    && (forall p :: p in provenance ==> p.claim <= copy)
    && (forall other :: 0 <= other < copy ==> SourcesOf(provenance, other) == SourcesOf(db.provenance, other))
    && |SourcesOf(provenance, copy)| == |prior| + 1 && prior <= SourcesOf(provenance, copy)
    && var original := SourcesOf(provenance, copy)[|prior|];
       original.uri == "claim:" + db.claims[id].uuid && original.hash == Sha256(db.claims[id].text)
       && original.origin == Some("promotion")
  }

  lemma CopySources(db: MemoryDb, id: nat, now: Instant)
    requires SourcesPlaced(db) && id < |db.claims|
    ensures SourcesCopied(db, db.provenance + ProvenanceOf(|db.claims|, CopiedSources(db, id), now), id)
  {
    var copy, sources := |db.claims|, CopiedSources(db, id);
    NoSourcesYet(db.provenance, copy);
    SourcesAdded(db.provenance, copy, sources, now, copy);
    forall other | 0 <= other < copy
      ensures SourcesOf(db.provenance + ProvenanceOf(copy, sources, now), other) == SourcesOf(db.provenance, other)
    {
      SourcesAdded(db.provenance, copy, sources, now, other);
    }
  }

  /** A claim is copied into the organization's memory exactly when it is the organization's and not
      global. The original and its sources stay; the copy has those sources and the original itself. */
  lemma OrgPromotionExactly(db: MemoryDb, id: nat, org: string, promoter: string, uuid: string, now: Instant)
    requires SourcesPlaced(db)
    ensures var (next, r) := PromoteToOrgTx(db, id, org, promoter, uuid, now);
            var copy := |db.claims|;
            if promoter != "" && id < |db.claims| && db.claims[id].org == org && !Global(db.claims[id].scope) then
              && r == Success(copy) && next == db.(claims := next.claims, provenance := next.provenance)
              && |next.claims| == copy + 1 && db.claims <= next.claims
              && CopiedAs(next.claims[copy], db.claims[id], copy, uuid, promoter, now)
              && SourcesCopied(db, next.provenance, id)
            else r.Failure? && next == db
  {
    if id < |db.claims| {
      CopySources(db, id, now);
    }
  }
}
