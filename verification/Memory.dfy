/** The memory ledger: captured claims, who may trust them, and recall under an item limit. */
module Memory {
  import opened Wrappers
  import opened Calendar
  import opened Timestamps
  import opened Store

  // ----- rows -----

  datatype Authority = SessionAuto | Hybrid | HumanGated

  datatype ClaimStatus = Pending | Promoted | Rejected

  datatype Promoter = TaskPolicy | Librarian | Human(operator: string)

  /** A stored date: missing, not a zoned timestamp, or a moment. */
  datatype DateText = Absent | Unreadable | At(moment: Instant)

  /** Columns that no guard reads. */
  datatype Notes = Notes(confidence: Option<real>, confidenceLabel: Option<string>, verifiedAt: Option<Instant>, tags: seq<string>)

  /** `id` is the row's position; `uuid` orders rows created at one moment. */
  datatype Claim = Claim(id: nat, uuid: string, org: string, task: Option<string>, scope: string, text: string,
                         status: ClaimStatus, trusted: bool, origin: string, promotedBy: Option<Promoter>,
                         createdAt: Instant, validFrom: DateText, validUntil: DateText, superseded: bool, notes: Notes)

  /** The hash of a source: as its caller gave it, or SHA-256 of a text. */
  datatype SourceHash = Given(text: string) | Sha256(text: string)

  datatype Source = Source(uri: string, hash: SourceHash, sourceId: Option<string>, origin: Option<string>, title: Option<string>,
                           location: Option<string>, mimeType: Option<string>)

  /** One source of one claim. */
  datatype Provenance = Provenance(claim: nat, source: Source, createdAt: Instant)

  datatype Contradiction = Contradiction(existing: nat, newer: nat, open: bool)

  datatype JobStatus = JobPending | Evaluating | JobPromoted | ReviewRequired

  datatype Job = Job(uuid: string, source: nat, candidate: nat, org: string, status: JobStatus, createdAt: Instant, updatedAt: Instant)

  datatype TaskInfo = TaskInfo(org: string, terminal: bool, memoryScope: string, privacy: string, profile: string)

  datatype OrgInfo = OrgInfo(authority: Authority, allowRemoteLibrarian: bool)

  datatype MemoryDb = MemoryDb(tasks: map<string, TaskInfo>, orgs: map<string, OrgInfo>, claims: seq<Claim>,
                               provenance: seq<Provenance>, contradictions: seq<Contradiction>, jobs: seq<Job>)

  /** The texts of the ids that one capture draws. */
  datatype Uuids = Uuids(claim: string, candidate: string, job: string)

  function OrgScope(org: string): string { "org:" + org }

  function TaskScope(task: string): string { "task:" + task }

  // ----- policy -----

  function Rank(authority: Authority): nat {
    match authority
    case SessionAuto => 1
    case Hybrid => 2
    case HumanGated => 3
  }

  /** The more restrictive of the two settings. */
  function EffectiveAuthority(org: Authority, profile: Authority): Authority {
    if Rank(org) >= Rank(profile) then org else profile
  }

  datatype Validity = Unknown | NotYetValid | Stale | Current | Superseded

  function ValidityOf(validUntil: DateText, validFrom: DateText, now: Instant): Validity {
    if validFrom.Unreadable? || validUntil.Unreadable? then Unknown
    else if validFrom.At? && validFrom.moment > now then NotYetValid
    else if validUntil.At? && validUntil.moment < now then Stale
    else Current
  }

  // ----- capture -----

  datatype CaptureError =
    | BadConfidence
    | BadLabel
    | PromotionNeedsTask
    | WrongScope
    | QueueNeedsTrustedTask
    | TaskUnavailable

  /** What a caller asks to have captured. */
  datatype Capture = Capture(scope: string, text: string, origin: string, confidence: Option<real>, confidenceLabel: Option<string>,
                             validFrom: DateText, validUntil: DateText, tags: seq<string>, sources: seq<Source>, org: string,
                             task: Option<string>, autoPromote: bool, queueForLibrarian: bool)

  function CheckCapture(c: Capture): Option<CaptureError> {
    if c.confidence.Some? && !(0.0 <= c.confidence.value <= 1.0) then Some(BadConfidence)
    else if c.confidenceLabel.Some? && c.confidenceLabel.value !in {"low", "medium", "high", "verified"} then Some(BadLabel)
    else if c.autoPromote && c.task.None? then Some(PromotionNeedsTask)
    else if c.task.Some? && c.scope != TaskScope(c.task.value) then Some(WrongScope)
    else if c.queueForLibrarian && (c.task.None? || !c.autoPromote) then Some(QueueNeedsTrustedTask)
    else None
  }

  function CapturedClaim(c: Capture, id: nat, uuid: string, now: Instant): Claim {
    Claim(id, uuid, c.org, c.task, c.scope, c.text, if c.autoPromote then Promoted else Pending, c.autoPromote, c.origin,
          if c.autoPromote then Some(TaskPolicy) else None, now, c.validFrom, c.validUntil, false,
          Notes(c.confidence, c.confidenceLabel, if c.autoPromote then Some(now) else None, c.tags))
  }

  function CandidateClaim(c: Capture, id: nat, uuid: string, source: string, now: Instant): Claim {
    Claim(id, uuid, c.org, None, OrgScope(c.org), c.text, Pending, false, "librarian_candidate:" + source, None, now,
          c.validFrom, c.validUntil, false, Notes(None, None, None, c.tags))
  }

  /** One row for each source, in order. */
  function ProvenanceOf(id: nat, sources: seq<Source>, now: Instant): (rows: seq<Provenance>)
    ensures |rows| == |sources| && forall k :: 0 <= k < |rows| ==> rows[k] == Provenance(id, sources[k], now)
  {
    seq(|sources|, k requires 0 <= k < |sources| => Provenance(id, sources[k], now))
  }

  lemma ProvenanceAppend(id: nat, some: seq<Source>, more: seq<Source>, now: Instant)
    ensures ProvenanceOf(id, some + more, now) == ProvenanceOf(id, some, now) + ProvenanceOf(id, more, now)
  {
  }

  /** The sources of one claim, in order. */
  function SourcesOf(provenance: seq<Provenance>, id: nat): seq<Source> {
    if |provenance| == 0 then []
    else
      var last := provenance[|provenance| - 1];
      SourcesOf(provenance[..|provenance| - 1], id) + if last.claim == id then [last.source] else []
  }

  function CaptureTx(db: MemoryDb, c: Capture, uuids: Uuids, now: Instant): (MemoryDb, Result<nat, CaptureError>) {
    if CheckCapture(c).Some? then (db, Failure(CheckCapture(c).value))
    else if c.task.Some? && (c.task.value !in db.tasks || db.tasks[c.task.value].org != c.org || db.tasks[c.task.value].terminal)
    then (db, Failure(TaskUnavailable))
    else
      var id := |db.claims|;
      var captured := db.(claims := db.claims + [CapturedClaim(c, id, uuids.claim, now)],
                          provenance := db.provenance + ProvenanceOf(id, c.sources, now));
      if !c.queueForLibrarian then (captured, Success(id))
      else
        (captured.(claims := captured.claims + [CandidateClaim(c, id + 1, uuids.candidate, uuids.claim, now)],
                   provenance := captured.provenance + ProvenanceOf(id + 1, c.sources, now),
                   jobs := db.jobs + [Job(uuids.job, id, id + 1, c.org, JobPending, now, now)]),
         Success(id))
  }

  /** What a worker may choose about its own capture. */
  datatype WorkerClaim = WorkerClaim(text: string, worker: string, confidence: Option<real>, confidenceLabel: Option<string>,
                                     validFrom: DateText, validUntil: DateText, tags: seq<string>, sources: seq<Source>)

  datatype EndpointError = TaskNotActive | ProfileMissing | OrgMissing | CaptureRejected(error: CaptureError)

  /** The endpoint for workers: the policy decides what is promoted and queued. */
  function WorkerCaptureTx(db: MemoryDb, profiles: map<string, Authority>, task: string, claim: WorkerClaim,
                           uuids: Uuids, now: Instant): (MemoryDb, Result<nat, EndpointError>)
  {
    if task !in db.tasks || db.tasks[task].terminal then (db, Failure(TaskNotActive))
    else
      var row := db.tasks[task];
      if row.profile !in profiles then (db, Failure(ProfileMissing))
      else if row.org !in db.orgs then (db, Failure(OrgMissing))
      else
        var authority := EffectiveAuthority(db.orgs[row.org].authority, profiles[row.profile]);
        var c := Capture(TaskScope(task), claim.text, claim.worker, claim.confidence, claim.confidenceLabel, claim.validFrom,
                         claim.validUntil, claim.tags, claim.sources, row.org, Some(task),
                         authority != HumanGated, authority == SessionAuto);
        match CaptureTx(db, c, uuids, now)
        case (_, Failure(error)) => (db, Failure(CaptureRejected(error)))
        case (next, Success(id)) => (next, Success(id))
  }

  // ----- promotion by people -----

  datatype PromoteError = OperatorMissing | LabelInvalid | NotPending

  /** The row after a person promoted it; a label already there stays unless a new one is given. */
  function PromotedByHuman(claim: Claim, operator: string, confidenceLabel: Option<string>, now: Instant): Claim {
    claim.(status := Promoted, trusted := true, promotedBy := Some(Human(operator)),
           notes := claim.notes.(confidenceLabel := if confidenceLabel.Some? then confidenceLabel else claim.notes.confidenceLabel,
                                 verifiedAt := Some(now)))
  }

  function PromoteTx(db: MemoryDb, id: nat, operator: string, confidenceLabel: Option<string>, now: Instant): (MemoryDb, Result<(), PromoteError>) {
    if operator == "" then (db, Failure(OperatorMissing))
    else if confidenceLabel.Some? && confidenceLabel.value !in {"low", "medium", "high", "verified"} then (db, Failure(LabelInvalid))
    else if id >= |db.claims| || db.claims[id].status != Pending then (db, Failure(NotPending))
    else
      (db.(claims := db.claims[id := PromotedByHuman(db.claims[id], operator, confidenceLabel, now)]),
       Success(()))
  }

  datatype OrgPromoteError = PromoterMissing | ClaimUnavailable

  /** The organization's copy of a reviewed claim. */
  function OrgCopy(source: Claim, id: nat, uuid: string, promoter: string, now: Instant): Claim {
    Claim(id, uuid, source.org, None, OrgScope(source.org), source.text, Promoted, true, "promotion:" + source.uuid,
          Some(Human(promoter)), now, source.validFrom, source.validUntil, false, source.notes.(verifiedAt := Some(now)))
  }

  /** The sources of a copy: those of the original, then the original itself. */
  function CopiedSources(db: MemoryDb, id: nat): seq<Source>
    requires id < |db.claims|
  {
    SourcesOf(db.provenance, id)
    + [Source("claim:" + db.claims[id].uuid, Sha256(db.claims[id].text), None, Some("promotion"), None, None, None)]
  }

  /** Copy a reviewed claim into the organization's memory with its provenance. */
  function PromoteToOrgTx(db: MemoryDb, id: nat, org: string, promoter: string, uuid: string, now: Instant): (MemoryDb, Result<nat, OrgPromoteError>) {
    if promoter == "" then (db, Failure(PromoterMissing))
    else if id >= |db.claims| || db.claims[id].org != org || db.claims[id].scope in {"global", "global:"}
    then (db, Failure(ClaimUnavailable))
    else
      var copy := |db.claims|;
      (db.(claims := db.claims + [OrgCopy(db.claims[id], copy, uuid, promoter, now)],
           provenance := db.provenance + ProvenanceOf(copy, CopiedSources(db, id), now)),
       Success(copy))
  }

  // ----- recall -----

  datatype Options = Options(includePending: bool, trustedOnly: bool, activeOnly: bool, maxItems: int)

  datatype Item = Item(claim: Claim, trusted: bool, contradicted: bool, validity: Validity)

  datatype RecallError = LimitOutOfRange | ScopeMismatch

  /** Rows in the order of the query: by creation time, then by id text. */
  predicate Precedes(a: Claim, b: Claim) {
    a.createdAt < b.createdAt || (a.createdAt == b.createdAt && Before(a.uuid, b.uuid))
  }

  function Insert(rows: seq<Claim>, claim: Claim): seq<Claim> {
    if |rows| == 0 then [claim]
    else if Precedes(claim, rows[|rows| - 1]) then Insert(rows[..|rows| - 1], claim) + [rows[|rows| - 1]]
    else rows + [claim]
  }

  function Ordered(claims: seq<Claim>): seq<Claim> {
    if |claims| == 0 then [] else Insert(Ordered(claims[..|claims| - 1]), claims[|claims| - 1])
  }

  /** The scopes a recall reads, or an error when the task does not match. */
  function Scopes(db: MemoryDb, scope: string, org: string, task: Option<string>): Option<set<string>> {
    var shared := {scope, OrgScope(org), "global", "global:"};
    match task
    case None => Some(shared)
    case Some(id) =>
      if id !in db.tasks || db.tasks[id].org != org || db.tasks[id].memoryScope != scope then None
      else Some(if db.tasks[id].terminal then shared else shared + {TaskScope(id)})
  }

  predicate Selected(claim: Claim, org: string, scopes: set<string>) {
    (claim.org == org && claim.scope in scopes)
    || (claim.scope in {"global", "global:"} && claim.status == Promoted && claim.trusted)
  }

  predicate Contradicted(contradictions: seq<Contradiction>, id: nat) {
    exists i :: 0 <= i < |contradictions| && contradictions[i].open
                && (contradictions[i].existing == id || contradictions[i].newer == id)
  }

  /** The item made from a row whose validity is looked at when the clock reads now. */
  function ItemOf(contradictions: seq<Contradiction>, claim: Claim, now: Instant): Item {
    var contradicted := Contradicted(contradictions, claim.id);
    Item(claim, claim.trusted && claim.status == Promoted && !contradicted && !claim.superseded, contradicted,
         if claim.superseded then Superseded else ValidityOf(claim.validUntil, claim.validFrom, now))
  }

  predicate Kept(item: Item, options: Options) {
    && (options.trustedOnly ==> item.trusted)
    && (options.includePending || item.claim.status != Pending)
    && (options.activeOnly ==> item.validity == Current)
  }

  /** `clock` gives, for each claim, the clock reading when the loop looks at it. */
  function Eligible(contradictions: seq<Contradiction>, rows: seq<Claim>, org: string, scopes: set<string>, options: Options,
                    clock: nat -> Instant): seq<Item>
  {
    if |rows| == 0 then []
    else
      var last := rows[|rows| - 1];
      var item := ItemOf(contradictions, last, clock(last.id));
      Eligible(contradictions, rows[..|rows| - 1], org, scopes, options, clock)
      + if Selected(last, org, scopes) && Kept(item, options) then [item] else []
  }

  function First(items: seq<Item>, n: nat): seq<Item> { if |items| <= n then items else items[..n] }

  /** The first maxItems of the ordered, filtered claims. */
  function Recall(db: MemoryDb, scope: string, org: string, task: Option<string>, options: Options, clock: nat -> Instant): Result<seq<Item>, RecallError> {
    if !(1 <= options.maxItems <= 100) then Failure(LimitOutOfRange)
    else match Scopes(db, scope, org, task)
      case None => Failure(ScopeMismatch)
      case Some(scopes) =>
        Success(First(Eligible(db.contradictions, Ordered(db.claims), org, scopes, options, clock), options.maxItems))
  }

  // ----- the ledger -----

  class MemoryLedger {
    method CaptureClaim(db: Connection<MemoryDb>, c: Capture, uuids: Uuids, now: Instant)
      returns (r: Result<nat, CaptureError>)
      requires !db.active
      modifies db
      ensures !db.active && (db.committed, r) == CaptureTx(old(db.committed), c, uuids, now)
    {
      var invalid := CheckCapture(c);
      if invalid.Some? {
        return Failure(invalid.value);
      }
      db.Enter();
      if c.task.Some? && (c.task.value !in db.working.tasks || db.working.tasks[c.task.value].org != c.org
                          || db.working.tasks[c.task.value].terminal) {
        db.Exit(true);
        return Failure(TaskUnavailable);
      }
      var id := |db.working.claims|;
      db.working := db.working.(claims := db.working.claims + [CapturedClaim(c, id, uuids.claim, now)]);
      AddSources(db, c.sources, id, now);
      if c.queueForLibrarian {
        db.working := db.working.(claims := db.working.claims + [CandidateClaim(c, id + 1, uuids.candidate, uuids.claim, now)]);
        AddSources(db, c.sources, id + 1, now);
        db.working := db.working.(jobs := db.working.jobs + [Job(uuids.job, id, id + 1, c.org, JobPending, now, now)]);
      }
      db.Exit(false);
      return Success(id);
    }

    /** One provenance row for each source of a claim. */
    method AddSources(db: Connection<MemoryDb>, sources: seq<Source>, id: nat, now: Instant)
      requires db.active
      modifies db
      ensures db.active && db.committed == old(db.committed)
      ensures db.working == old(db.working).(provenance := old(db.working).provenance + ProvenanceOf(id, sources, now))
    {
      ghost var before := db.working;
      for k := 0 to |sources|
        invariant db.active && db.committed == old(db.committed)
        invariant db.working == before.(provenance := before.provenance + ProvenanceOf(id, sources, now)[..k])
      {
        db.working := db.working.(provenance := db.working.provenance + [Provenance(id, sources[k], now)]);
      }
    }

    method Promote(db: Connection<MemoryDb>, id: nat, operator: string, confidenceLabel: Option<string>, now: Instant)
      returns (r: Result<(), PromoteError>)
      requires !db.active
      modifies db
      ensures !db.active && (db.committed, r) == PromoteTx(old(db.committed), id, operator, confidenceLabel, now)
    {
      if operator == "" {
        return Failure(OperatorMissing);
      }
      if confidenceLabel.Some? && confidenceLabel.value !in {"low", "medium", "high", "verified"} {
        return Failure(LabelInvalid);
      }
      db.Enter();
      if id >= |db.working.claims| || db.working.claims[id].status != Pending {
        db.Exit(true);
        return Failure(NotPending);
      }
      var row := db.working.claims[id];
      var kept := if confidenceLabel.Some? then confidenceLabel else row.notes.confidenceLabel;
      db.working := db.working.(claims := db.working.claims[id :=
        row.(status := Promoted, trusted := true, promotedBy := Some(Human(operator)),
             notes := row.notes.(confidenceLabel := kept, verifiedAt := Some(now)))]);
      db.Exit(false);
      return Success(());
    }

    method PromoteToOrganization(db: Connection<MemoryDb>, id: nat, org: string, promoter: string, uuid: string, now: Instant)
      returns (r: Result<nat, OrgPromoteError>)
      requires !db.active
      modifies db
      ensures !db.active && (db.committed, r) == PromoteToOrgTx(old(db.committed), id, org, promoter, uuid, now)
    {
      if promoter == "" {
        return Failure(PromoterMissing);
      }
      db.Enter();
      if id >= |db.working.claims| || db.working.claims[id].org != org || db.working.claims[id].scope in {"global", "global:"} {
        db.Exit(true);
        return Failure(ClaimUnavailable);
      }
      var source, copy := db.working.claims[id], |db.working.claims|;
      var prior := SourcesOf(db.working.provenance, id);
      db.working := db.working.(claims := db.working.claims + [OrgCopy(source, copy, uuid, promoter, now)]);
      var original := Source("claim:" + source.uuid, Sha256(source.text), None, Some("promotion"), None, None, None);
      AddSources(db, prior, copy, now);
      AddSources(db, [original], copy, now);
      ghost var before := old(db.committed);
      assert CopiedSources(before, id) == prior + [original];
      ProvenanceAppend(copy, prior, [original], now);
      assert db.working.provenance == before.provenance + ProvenanceOf(copy, CopiedSources(before, id), now);
      db.Exit(false);
      return Success(copy);
    }

    /** The loop over the ordered rows, which stops once enough items were found. */
    method RecallRecords(db: MemoryDb, scope: string, org: string, task: Option<string>, options: Options, clock: nat -> Instant)
      returns (r: Result<seq<Item>, RecallError>)
      ensures r == Recall(db, scope, org, task, options, clock)
    {
      if !(1 <= options.maxItems <= 100) {
        return Failure(LimitOutOfRange);
      }
      var scopes := Scopes(db, scope, org, task);
      if scopes.None? {
        return Failure(ScopeMismatch);
      }
      var rows := Ordered(db.claims);
      var result := FirstEligible(db.contradictions, rows, org, scopes.value, options, clock);
      return Success(result);
    }

    method FirstEligible(contradictions: seq<Contradiction>, rows: seq<Claim>, org: string, scopes: set<string>, options: Options,
                         clock: nat -> Instant) returns (result: seq<Item>)
      requires 1 <= options.maxItems
      ensures result == First(Eligible(contradictions, rows, org, scopes, options, clock), options.maxItems)
    {
      result := [];
      for k := 0 to |rows|
        invariant |result| < options.maxItems
        invariant result == Eligible(contradictions, rows[..k], org, scopes, options, clock)
      {
        var claim := rows[k];
        EligibleStep(contradictions, rows, k, org, scopes, options, clock);
        if Selected(claim, org, scopes) {
          var item := ItemOf(contradictions, claim, clock(claim.id));
          if Kept(item, options) {
            result := result + [item];
            if |result| >= options.maxItems {
              StoppedEarly(contradictions, rows, k + 1, org, scopes, options, clock, result);
              return;
            }
          }
        }
      }
      assert rows[..|rows|] == rows;
    }
  }

  /** Once the rows so far have yielded all that is asked for, the rest adds nothing. */
  lemma StoppedEarly(contradictions: seq<Contradiction>, rows: seq<Claim>, k: nat, org: string, scopes: set<string>, options: Options,
                     clock: nat -> Instant, result: seq<Item>)
    requires k <= |rows| && result == Eligible(contradictions, rows[..k], org, scopes, options, clock) && |result| == options.maxItems
    ensures result == First(Eligible(contradictions, rows, org, scopes, options, clock), options.maxItems)
  {
    EligiblePrefix(contradictions, rows, k, org, scopes, options, clock);
    FirstOfPrefix(result, Eligible(contradictions, rows, org, scopes, options, clock));
  }

  lemma EligibleStep(contradictions: seq<Contradiction>, rows: seq<Claim>, k: nat, org: string, scopes: set<string>,
                     options: Options, clock: nat -> Instant)
    requires k < |rows|
    ensures var item := ItemOf(contradictions, rows[k], clock(rows[k].id));
            Eligible(contradictions, rows[..k + 1], org, scopes, options, clock)
            == Eligible(contradictions, rows[..k], org, scopes, options, clock)
               + if Selected(rows[k], org, scopes) && Kept(item, options) then [item] else []
  {
    assert rows[..k + 1][..k] == rows[..k];
  }

  lemma FirstOfPrefix(some: seq<Item>, all: seq<Item>)
    requires some <= all
    ensures First(all, |some|) == some
  {
  }

  /** What a prefix of the rows yields is a prefix of what all rows yield. */
  lemma {:induction false} EligiblePrefix(contradictions: seq<Contradiction>, rows: seq<Claim>, k: nat, org: string, scopes: set<string>,
                                          options: Options, clock: nat -> Instant)
    requires k <= |rows|
    ensures Eligible(contradictions, rows[..k], org, scopes, options, clock)
         <= Eligible(contradictions, rows, org, scopes, options, clock)
  {
    if k == |rows| {
      assert rows[..k] == rows;
    } else {
      assert rows[..|rows| - 1][..k] == rows[..k];
      EligiblePrefix(contradictions, rows[..|rows| - 1], k, org, scopes, options, clock);
    }
  }

  // ----- the order of the query -----

  lemma PrecedesIsTotal(a: Claim, b: Claim, c: Claim)
    ensures !(Precedes(a, b) && Precedes(b, a))
    ensures !Precedes(b, a) && !Precedes(c, b) ==> !Precedes(c, a)
  {
    BeforeIsTotal(a.uuid, b.uuid, c.uuid);
  }

  ghost predicate InOrder(rows: seq<Claim>) {
    forall i, j :: 0 <= i < j < |rows| ==> !Precedes(rows[j], rows[i])
  }

  lemma InOrderAppend(rows: seq<Claim>, last: Claim)
    requires InOrder(rows) && forall x :: x in rows ==> !Precedes(last, x)
    ensures InOrder(rows + [last])
  {
  }

  lemma {:induction false} InsertKeeps(rows: seq<Claim>, claim: Claim)
    ensures multiset(Insert(rows, claim)) == multiset(rows) + multiset{claim}
    ensures forall x :: x in Insert(rows, claim) ==> x in rows || x == claim
  {
    if |rows| > 0 {
      assert rows == rows[..|rows| - 1] + [rows[|rows| - 1]];
      InsertKeeps(rows[..|rows| - 1], claim);
    }
  }

  lemma {:induction false} InsertSorts(rows: seq<Claim>, claim: Claim)
    requires InOrder(rows)
    ensures InOrder(Insert(rows, claim))
  {
    if |rows| > 0 {
      var rest, last := rows[..|rows| - 1], rows[|rows| - 1];
      if Precedes(claim, last) {
        InsertSorts(rest, claim);
        InsertKeeps(rest, claim);
        PrecedesIsTotal(claim, last, last);
        InOrderAppend(Insert(rest, claim), last);
      } else {
        forall x | x in rows ensures !Precedes(claim, x) {
          PrecedesIsTotal(x, last, claim);
          PrecedesIsTotal(x, x, x);
        }
        InOrderAppend(rows, claim);
      }
    }
  }

  /** The rows are read in the order of the query, each once. */
  lemma {:induction false} OrderedSorts(claims: seq<Claim>)
    ensures InOrder(Ordered(claims)) && multiset(Ordered(claims)) == multiset(claims)
  {
    if |claims| > 0 {
      var rest, last := claims[..|claims| - 1], claims[|claims| - 1];
      assert claims == rest + [last];
      OrderedSorts(rest);
      InsertSorts(Ordered(rest), last);
      InsertKeeps(Ordered(rest), last);
    }
  }
}
