/** The librarian queue: claim a job, have the claim assessed outside any transaction, then
    re-check policy and promote the candidate. */
module LibrarianQueue {
  import opened Wrappers
  import opened Calendar
  import opened Memory
  import opened Store
  import opened Timestamps

  const STALE: nat := 5 * MINUTE

  datatype Settings = Settings(enabled: bool, remote: bool, allowRemoteHttps: bool, allowedPrivacy: set<string>,
                               threshold: real, profiles: map<string, Authority>)

  /** What one claim transaction read about its job. */
  datatype Snapshot = Snapshot(source: Option<(Claim, TaskInfo, OrgInfo)>, candidate: Option<Claim>, sources: seq<Source>, conflict: bool)

  /** The evaluator's answer; Unavailable stands for any failure of transport or parsing. */
  datatype Answer = Unavailable | Assessment(confidence: real, corroborated: bool, contradiction: bool)

  // ----- claim -----

  predicate ClaimableJob(job: Job, readAt: Instant) {
    job.status == JobPending || (job.status == Evaluating && job.updatedAt + STALE < readAt)
  }

  /** The order of the queue: by creation time, then by id text. */
  predicate JobBefore(a: Job, b: Job) {
    a.createdAt < b.createdAt || (a.createdAt == b.createdAt && Before(a.uuid, b.uuid))
  }

  lemma JobOrder(a: Job, b: Job, c: Job)
    ensures !(JobBefore(a, b) && JobBefore(b, a))
    ensures !JobBefore(b, a) && !JobBefore(c, b) ==> !JobBefore(c, a)
  {
    BeforeIsTotal(a.uuid, b.uuid, c.uuid);
  }

  /** Job j is claimable and no claimable job comes before it. */
  predicate IsNext(jobs: seq<Job>, j: nat, readAt: Instant) {
    && j < |jobs| && ClaimableJob(jobs[j], readAt)
    && forall i :: 0 <= i < |jobs| && ClaimableJob(jobs[i], readAt) ==> !JobBefore(jobs[i], jobs[j])
  }

  function NextJob(jobs: seq<Job>, readAt: Instant): (r: Option<nat>)
    ensures r.Some? ==> IsNext(jobs, r.value, readAt)
    ensures r.None? ==> forall i :: 0 <= i < |jobs| ==> !ClaimableJob(jobs[i], readAt)
  {
    if |jobs| == 0 then None
    else
      var last := |jobs| - 1;
      var best := NextJob(jobs[..last], readAt);
      if ClaimableJob(jobs[last], readAt) && (best.None? || JobBefore(jobs[last], jobs[best.value]))
      then
        assert best.Some? ==> forall i :: 0 <= i < |jobs| && ClaimableJob(jobs[i], readAt) ==> !JobBefore(jobs[i], jobs[last]) by {
          if best.Some? { LastIsNext(jobs, best, readAt); }
        }
        JobOrder(jobs[last], jobs[last], jobs[last]);
        Some(last)
      else
        best
  }

  lemma LastIsNext(jobs: seq<Job>, best: Option<nat>, readAt: Instant)
    requires |jobs| > 0 && best.Some? && IsNext(jobs[..|jobs| - 1], best.value, readAt)
    requires JobBefore(jobs[|jobs| - 1], jobs[best.value])
    ensures forall i :: 0 <= i < |jobs| && ClaimableJob(jobs[i], readAt) ==> !JobBefore(jobs[i], jobs[|jobs| - 1])
  {
    var last := |jobs| - 1;
    forall i | 0 <= i < |jobs| && ClaimableJob(jobs[i], readAt) ensures !JobBefore(jobs[i], jobs[last]) {
      assert i < last ==> jobs[..last][i] == jobs[i];
      JobOrder(jobs[last], jobs[best.value], jobs[i]);
      JobOrder(jobs[last], jobs[last], jobs[last]);
    }
  }

  function SourceRow(db: MemoryDb, id: nat, org: string): Option<(Claim, TaskInfo, OrgInfo)> {
    if id >= |db.claims| || db.claims[id].org != org || db.claims[id].task.None? || db.claims[id].task.value !in db.tasks
       || org !in db.orgs
    then None
    else Some((db.claims[id], db.tasks[db.claims[id].task.value], db.orgs[org]))
  }

  function TakeSnapshot(db: MemoryDb, job: Job): Snapshot {
    Snapshot(SourceRow(db, job.source, job.org),
             if job.candidate < |db.claims| && db.claims[job.candidate].org == job.org then Some(db.claims[job.candidate]) else None,
             SourcesOf(db.provenance, job.source),
             Contradicted(db.contradictions, job.source) || Contradicted(db.contradictions, job.candidate))
  }

  /** Mark job j as being evaluated. The clock was read once for the mark. */
  function ClaimJobTx(db: MemoryDb, j: nat, markAt: Instant): MemoryDb
    requires j < |db.jobs|
  {
    db.(jobs := db.jobs[j := db.jobs[j].(status := Evaluating, updatedAt := markAt)])
  }

  function FinishTx(db: MemoryDb, j: nat, status: JobStatus, now: Instant): MemoryDb {
    if j < |db.jobs| && db.jobs[j].status == Evaluating
    then db.(jobs := db.jobs[j := db.jobs[j].(status := status, updatedAt := now)])
    else db
  }

  /** What to do with a claimed job: give it a status, or ask the evaluator. */
  datatype Verdict = FinishAs(status: JobStatus) | Ask

  function ProfileAuthority(settings: Settings, org: OrgInfo, profile: string): Authority {
    if profile in settings.profiles then EffectiveAuthority(org.authority, settings.profiles[profile]) else HumanGated
  }

  predicate RemoteConsent(settings: Settings, org: OrgInfo) {
    settings.remote ==> settings.allowRemoteHttps && org.allowRemoteLibrarian
  }

  function Judge(settings: Settings, job: Job, s: Snapshot, now: Instant): Verdict {
    if s.source.None? || s.candidate.None? || s.candidate.value.status != Pending then FinishAs(ReviewRequired)
    else if s.candidate.value.scope != OrgScope(job.org) then FinishAs(ReviewRequired)
    else
      var (source, task, org) := s.source.value;
      if ProfileAuthority(settings, org, task.profile) != SessionAuto || source.status != Promoted then FinishAs(ReviewRequired)
      else if task.privacy !in settings.allowedPrivacy then FinishAs(ReviewRequired)
      else if !RemoteConsent(settings, org) then FinishAs(JobPending)
      else if ValidityOf(source.validUntil, source.validFrom, now) != Current || source.superseded then FinishAs(ReviewRequired)
      else if s.sources == [] then FinishAs(ReviewRequired)
      else if s.conflict then FinishAs(ReviewRequired)
      else Ask
  }

  predicate Approves(settings: Settings, answer: Answer) {
    answer.Assessment? && answer.corroborated && !answer.contradiction && answer.confidence >= settings.threshold
  }

  // ----- commit -----

  datatype CommitOutcome = PolicyChanged | CandidateChanged | PromotedCandidate

  /** What is read again at commit: the job still being evaluated, the policy, the source and
      the consent, all as they are now. */
  predicate StillPermitted(db: MemoryDb, settings: Settings, j: nat) {
    && j < |db.jobs| && db.jobs[j].status == Evaluating
    && var job := db.jobs[j];
       && job.source < |db.claims| && db.claims[job.source].task.Some? && db.claims[job.source].task.value in db.tasks
       && job.org in db.orgs
       && var task := db.tasks[db.claims[job.source].task.value];
          && task.profile in settings.profiles
          && db.claims[job.source].status == Promoted
          && RemoteConsent(settings, db.orgs[job.org])
          && EffectiveAuthority(db.orgs[job.org].authority, settings.profiles[task.profile]) == SessionAuto
  }

  predicate CandidatePending(db: MemoryDb, job: Job) {
    job.candidate < |db.claims| && db.claims[job.candidate].org == job.org && db.claims[job.candidate].status == Pending
  }

  /** The candidate as the librarian promotes it. */
  function PromotedByLibrarian(claim: Claim, confidence: real, now: Instant): Claim {
    claim.(status := Promoted, trusted := true, promotedBy := Some(Librarian),
           notes := claim.notes.(confidence := Some(confidence), confidenceLabel := Some("verified"), verifiedAt := Some(now)))
  }

  /** `job` is the row as it was claimed. When the candidate is no longer pending, an exception
      leaves the block and nothing is written. */
  function CommitTx(db: MemoryDb, settings: Settings, j: nat, job: Job, confidence: real, now: Instant): (MemoryDb, CommitOutcome) {
    if !StillPermitted(db, settings, j) then (FinishTx(db, j, ReviewRequired, now), PolicyChanged)
    else if !CandidatePending(db, job) then (db, CandidateChanged)
    else
      (db.(claims := db.claims[job.candidate := PromotedByLibrarian(db.claims[job.candidate], confidence, now)],
           jobs := db.jobs[j := db.jobs[j].(status := JobPromoted, updatedAt := now)]),
       PromotedCandidate)
  }

  // ----- one pass of the queue -----

  /** The clock readings of one pass. */
  datatype PassClock = PassClock(markAt: Instant, staleAt: Instant, validAt: Instant, endAt: Instant)

  /** One pass: the tables after it, whether the loop should go on, and whether it left by an
      exception. `between` is what other transactions have made of the tables after the claim, when
      the pass opens its second transaction. */
  function PassTx(db: MemoryDb, between: MemoryDb, settings: Settings, answer: Answer, clock: PassClock): (MemoryDb, bool, bool) {
    if !settings.enabled then (db, false, false)
    else match NextJob(db.jobs, clock.staleAt)
      case None => (db, false, false)
      case Some(j) =>
        var job := db.jobs[j];
        var claimed := ClaimJobTx(db, j, clock.markAt);
        match Judge(settings, job, TakeSnapshot(claimed, job), clock.validAt)
        case FinishAs(status) => (FinishTx(between, j, status, clock.endAt), status != JobPending, false)
        case Ask =>
          if answer.Unavailable? then (FinishTx(between, j, JobPending, clock.endAt), false, false)
          else if !Approves(settings, answer) then (FinishTx(between, j, ReviewRequired, clock.endAt), true, false)
          else
            var (next, outcome) := CommitTx(between, settings, j, job, answer.confidence, clock.endAt);
            (next, !outcome.CandidateChanged?, outcome.CandidateChanged?)
  }

  class MemoryEvaluationQueue {
    const settings: Settings

    constructor (settings: Settings)
      ensures this.settings == settings
    {
      this.settings := settings;
    }

    method Finish(db: Connection<MemoryDb>, j: nat, status: JobStatus, now: Instant)
      requires !db.active
      modifies db
      ensures !db.active && db.committed == FinishTx(old(db.committed), j, status, now)
    {
      db.Enter();
      if j < |db.working.jobs| && db.working.jobs[j].status == Evaluating {
        var row := db.working.jobs[j];
        db.working := db.working.(jobs := db.working.jobs[j := row.(status := status, updatedAt := now)]);
      }
      db.Exit(false);
    }

    /** Claim the next job and read what the decision needs, in one transaction. */
    method Claim(db: Connection<MemoryDb>, markAt: Instant, staleAt: Instant)
      returns (r: Option<(nat, Job, Snapshot)>)
      requires !db.active
      modifies db
      ensures !db.active
      ensures match NextJob(old(db.committed).jobs, staleAt)
              case None => r == None && db.committed == old(db.committed)
              case Some(j) =>
                && db.committed == ClaimJobTx(old(db.committed), j, markAt)
                && r == Some((j, old(db.committed).jobs[j], TakeSnapshot(db.committed, old(db.committed).jobs[j])))
    {
      db.Enter();
      var next := NextJob(db.working.jobs, staleAt);
      if next.None? {
        db.Exit(false);
        return None;
      }
      var j := next.value;
      var job := db.working.jobs[j];
      db.working := db.working.(jobs := db.working.jobs[j := job.(status := Evaluating, updatedAt := markAt)]);
      var snapshot := TakeSnapshot(db.working, job);
      db.Exit(false);
      return Some((j, job, snapshot));
    }

    method Commit(db: Connection<MemoryDb>, j: nat, job: Job, confidence: real, now: Instant) returns (outcome: CommitOutcome)
      requires !db.active
      modifies db
      ensures !db.active && (db.committed, outcome) == CommitTx(old(db.committed), settings, j, job, confidence, now)
    {
      db.Enter();
      if !StillPermitted(db.working, settings, j) {
        if j < |db.working.jobs| && db.working.jobs[j].status == Evaluating {
          var row := db.working.jobs[j];
          db.working := db.working.(jobs := db.working.jobs[j := row.(status := ReviewRequired, updatedAt := now)]);
        }
        db.Exit(false);
        return PolicyChanged;
      }
      if !CandidatePending(db.working, job) {
        db.Exit(true);
        return CandidateChanged;
      }
      var claim, row := db.working.claims[job.candidate], db.working.jobs[j];
      db.working := db.working.(claims := db.working.claims[job.candidate :=
        claim.(status := Promoted, trusted := true, promotedBy := Some(Librarian),
               notes := claim.notes.(confidence := Some(confidence), confidenceLabel := Some("verified"), verifiedAt := Some(now)))]);
      db.working := db.working.(jobs := db.working.jobs[j := row.(status := JobPromoted, updatedAt := now)]);
      db.Exit(false);
      return PromotedCandidate;
    }

    /** One pass. Other transactions run while the claim is judged and assessed. */
    method ProcessOne(db: Connection<MemoryDb>, between: MemoryDb, answer: Answer, clock: PassClock) returns (more: bool, raised: bool)
      requires !db.active
      modifies db
      ensures !db.active && (db.committed, more, raised) == PassTx(old(db.committed), between, settings, answer, clock)
    {
      if !settings.enabled {
        return false, false;
      }
      var claimed := Claim(db, clock.markAt, clock.staleAt);
      if claimed.None? {
        return false, false;
      }
      var (j, job, snapshot) := claimed.value;
      db.Others(between);
      var verdict := Judge(settings, job, snapshot, clock.validAt);
      if verdict.FinishAs? {
        Finish(db, j, verdict.status, clock.endAt);
        return verdict.status != JobPending, false;
      }
      if answer.Unavailable? {
        Finish(db, j, JobPending, clock.endAt);
        return false, false;
      }
      if !Approves(settings, answer) {
        Finish(db, j, ReviewRequired, clock.endAt);
        return true, false;
      }
      var outcome := Commit(db, j, job, answer.confidence, clock.endAt);
      return !outcome.CandidateChanged?, outcome.CandidateChanged?;
    }
  }
}
