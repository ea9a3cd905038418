/** What the librarian does with a job, stated over the columns of the tables, the settings and the
    evaluator's answer. */
module LibrarianRules {
  import opened Wrappers
  import opened Calendar
  import opened Timestamps
  import opened Memory
  import opened MemoryRules
  import opened LibrarianQueue

  // ----- which job is next -----

  /** The job waits, or its worker has not been heard of for more than five minutes. */
  predicate Waiting(job: Job, readAt: Instant) {
    job.status == JobPending || (job.status == Evaluating && readAt - job.updatedAt > 300_000_000)
  }

  /** Job j waits, and no job that waits is older, nor of the same age with an earlier id. */
  ghost predicate OldestWaiting(jobs: seq<Job>, j: nat, readAt: Instant) {
    && j < |jobs| && Waiting(jobs[j], readAt)
    && forall i :: 0 <= i < |jobs| && Waiting(jobs[i], readAt) ==>
         jobs[j].createdAt < jobs[i].createdAt
         || (jobs[j].createdAt == jobs[i].createdAt && !Before(jobs[i].uuid, jobs[j].uuid))
  }

  lemma NextIsOldest(jobs: seq<Job>, j: nat, readAt: Instant)
    ensures IsNext(jobs, j, readAt) <==> OldestWaiting(jobs, j, readAt)
  {
    if IsNext(jobs, j, readAt) {
      forall i | 0 <= i < |jobs| && Waiting(jobs[i], readAt)
        ensures jobs[j].createdAt < jobs[i].createdAt
                || (jobs[j].createdAt == jobs[i].createdAt && !Before(jobs[i].uuid, jobs[j].uuid))
      {
        assert ClaimableJob(jobs[i], readAt) && !JobBefore(jobs[i], jobs[j]);
      }
    }
  }

  /** A job is taken exactly when one waits, and then it is the oldest that waits. */
  lemma NextJobExactly(jobs: seq<Job>, readAt: Instant)
    ensures var next := NextJob(jobs, readAt);
            && (next.Some? <==> exists i :: 0 <= i < |jobs| && Waiting(jobs[i], readAt))
            && (next.Some? ==> OldestWaiting(jobs, next.value, readAt))
  {
    var next := NextJob(jobs, readAt);
    if next.Some? {
      NextIsOldest(jobs, next.value, readAt);
    } else {
      forall i | 0 <= i < |jobs| ensures !Waiting(jobs[i], readAt) {
        assert !ClaimableJob(jobs[i], readAt);
      }
    }
  }

  // ----- what a job needs -----

  /** The source is a promoted claim of a known task and organization, and both the organization and
      the profile of the task let memory be promoted without a person. */
  ghost predicate Automatic(db: MemoryDb, settings: Settings, job: Job) {
    && job.source < |db.claims| && job.org in db.orgs
    && var source := db.claims[job.source];
       && source.status == Promoted && source.task.Some? && source.task.value in db.tasks
       && db.orgs[job.org].authority == SessionAuto
       && var profile := db.tasks[source.task.value].profile;
          profile in settings.profiles && settings.profiles[profile] == SessionAuto
  }

  /** The candidate is still a pending claim of the organization. */
  predicate Open(db: MemoryDb, job: Job) {
    job.candidate < |db.claims| && db.claims[job.candidate].org == job.org && db.claims[job.candidate].status == Pending
  }

  /** The lineage of the job is whole, and policy and privacy let it be assessed. */
  ghost predicate Assessable(db: MemoryDb, settings: Settings, job: Job) {
    && Automatic(db, settings, job) && db.claims[job.source].org == job.org
    && db.tasks[db.claims[job.source].task.value].privacy in settings.allowedPrivacy
    && Open(db, job) && db.claims[job.candidate].scope == "org:" + job.org
  }

  /** A remote evaluator needs the consent of the settings and of the organization. */
  predicate Consented(db: MemoryDb, settings: Settings, job: Job)
    requires job.org in db.orgs
  {
    settings.remote ==> settings.allowRemoteHttps && db.orgs[job.org].allowRemoteLibrarian
  }

  /** The source is in force, comes from somewhere, and no open contradiction names it or its candidate. */
  ghost predicate Sound(db: MemoryDb, job: Job, now: Instant)
    requires job.source < |db.claims|
  {
    && InDate(db.claims[job.source], now) && !db.claims[job.source].superseded
    && (exists p :: p in db.provenance && p.claim == job.source)
    && !Disputed(db.contradictions, job.source) && !Disputed(db.contradictions, job.candidate)
  }

  lemma {:induction false} HasSources(provenance: seq<Provenance>, id: nat)
    ensures SourcesOf(provenance, id) != [] <==> exists p :: p in provenance && p.claim == id
  {
    if |provenance| > 0 {
      var rest, last := provenance[..|provenance| - 1], provenance[|provenance| - 1];
      HasSources(rest, id);
      assert provenance == rest + [last];
    }
  }

  lemma AutomaticIsSessionAuto(db: MemoryDb, settings: Settings, job: Job)
    requires job.source < |db.claims| && job.org in db.orgs
    requires db.claims[job.source].task.Some? && db.claims[job.source].task.value in db.tasks
    ensures Automatic(db, settings, job)
            <==> db.claims[job.source].status == Promoted
                 && ProfileAuthority(settings, db.orgs[job.org], db.tasks[db.claims[job.source].task.value].profile) == SessionAuto
  {
  }

  /** The evaluator is asked exactly about an assessable job with consent and a sound source. Only a
      missing consent leaves the job pending; everything else sends it to review. */
  lemma VerdictExactly(db: MemoryDb, settings: Settings, job: Job, now: Instant)
    ensures Judge(settings, job, TakeSnapshot(db, job), now)
         == if !Assessable(db, settings, job) then FinishAs(ReviewRequired)
            else if !Consented(db, settings, job) then FinishAs(JobPending)
            else if Sound(db, job, now) then Ask
            else FinishAs(ReviewRequired)
  {
    HasSources(db.provenance, job.source);
    DisputedIsContradicted(db.contradictions, job.source);
    DisputedIsContradicted(db.contradictions, job.candidate);
    if SourceRow(db, job.source, job.org).Some? {
      AutomaticIsSessionAuto(db, settings, job);
      CurrentIsInDate(db.claims[job.source], now);
    }
  }

  /** The evaluator vouches for the claim. */
  predicate Vouches(settings: Settings, answer: Answer) {
    answer.Assessment? && answer.corroborated && !answer.contradiction && settings.threshold <= answer.confidence
  }

  // ----- what is written -----

  /** A job that is still being evaluated gets the status; any other is left alone. */
  ghost predicate Marked(db: MemoryDb, next: MemoryDb, j: nat, status: JobStatus, now: Instant) {
    && next == db.(jobs := next.jobs) && |next.jobs| == |db.jobs|
    && (forall i :: 0 <= i < |db.jobs| && (i != j || db.jobs[i].status != Evaluating) ==> next.jobs[i] == db.jobs[i])
    && (j < |db.jobs| && db.jobs[j].status == Evaluating ==> next.jobs[j] == db.jobs[j].(status := status, updatedAt := now))
  }

  lemma FinishExactly(db: MemoryDb, j: nat, status: JobStatus, now: Instant)
    ensures Marked(db, FinishTx(db, j, status, now), j, status, now)
  {
  }

  /** What is checked again at commit: the job is still being evaluated, for a source, a policy and a
      consent that still allow it. */
  ghost predicate StillAllowed(db: MemoryDb, settings: Settings, j: nat) {
    && j < |db.jobs| && db.jobs[j].status == Evaluating
    && Automatic(db, settings, db.jobs[j]) && Consented(db, settings, db.jobs[j])
  }

  lemma StillAllowedIsPermitted(db: MemoryDb, settings: Settings, j: nat)
    ensures StillPermitted(db, settings, j) <==> StillAllowed(db, settings, j)
  {
  }

  /** The candidate becomes a trusted claim on the librarian's name, and the job a promoted one. */
  ghost predicate Promotes(db: MemoryDb, next: MemoryDb, j: nat, c: nat, confidence: real, now: Instant)
    requires j < |db.jobs| && c < |db.claims|
  {
    && next == db.(claims := next.claims, jobs := db.jobs[j := db.jobs[j].(status := JobPromoted, updatedAt := now)])
    && c < |next.claims| && next.claims == db.claims[c := next.claims[c]]
    && var row := next.claims[c];
       && row.status == Promoted && row.trusted && row.promotedBy == Some(Librarian) && row.notes.confidence == Some(confidence)
       && row.notes.confidenceLabel == Some("verified") && row.notes.verifiedAt == Some(now) && KeepsCapture(row, db.claims[c])
  }

  /** A commit promotes exactly when everything is still allowed and the candidate still open. When
      policy has changed the job goes to review; when only the candidate has, nothing is written. */
  lemma CommitExactly(db: MemoryDb, settings: Settings, j: nat, job: Job, confidence: real, now: Instant)
    ensures var (next, outcome) := CommitTx(db, settings, j, job, confidence, now);
            if !StillAllowed(db, settings, j) then outcome == PolicyChanged && Marked(db, next, j, ReviewRequired, now)
            else if !Open(db, job) then outcome == CandidateChanged && next == db
            else outcome == PromotedCandidate && Promotes(db, next, j, job.candidate, confidence, now)
  {
    StillAllowedIsPermitted(db, settings, j);
    FinishExactly(db, j, ReviewRequired, now);
  }

  // ----- one pass -----

  /** The tables after the claim of a job: the job is being evaluated, and nothing else changed. */
  lemma ClaimExactly(db: MemoryDb, j: nat, markAt: Instant)
    requires j < |db.jobs|
    ensures var next := ClaimJobTx(db, j, markAt);
            && next == db.(jobs := db.jobs[j := next.jobs[j]])
            && next.jobs[j] == db.jobs[j].(status := Evaluating, updatedAt := markAt)
            && TakeSnapshot(next, db.jobs[j]) == TakeSnapshot(db, db.jobs[j])
  {
  }

  /** What the pass makes of job j. */
  ghost predicate PassOf(db: MemoryDb, between: MemoryDb, settings: Settings, answer: Answer, clock: PassClock, j: nat,
                         next: MemoryDb, more: bool, raised: bool)
    requires j < |db.jobs|
  {
    var job := db.jobs[j];
    if !Assessable(db, settings, job) then Marked(between, next, j, ReviewRequired, clock.endAt) && more && !raised
    else if !Consented(db, settings, job) then Marked(between, next, j, JobPending, clock.endAt) && !more && !raised
    else if !Sound(db, job, clock.validAt) then Marked(between, next, j, ReviewRequired, clock.endAt) && more && !raised
    else if answer == Unavailable then Marked(between, next, j, JobPending, clock.endAt) && !more && !raised
    else if !Vouches(settings, answer) || !StillAllowed(between, settings, j) then
      Marked(between, next, j, ReviewRequired, clock.endAt) && more && !raised
    else if !Open(between, job) then next == between && !more && raised
    else Promotes(between, next, j, job.candidate, answer.confidence, clock.endAt) && more && !raised
  }

  /** A job that the evaluator is not asked about. */
  lemma JudgedPass(db: MemoryDb, between: MemoryDb, settings: Settings, answer: Answer, clock: PassClock, j: nat, status: JobStatus)
    requires settings.enabled && NextJob(db.jobs, clock.staleAt) == Some(j)
    requires Judge(settings, db.jobs[j], TakeSnapshot(db, db.jobs[j]), clock.validAt) == FinishAs(status)
    ensures var (next, more, raised) := PassTx(db, between, settings, answer, clock);
            Marked(between, next, j, status, clock.endAt) && (more <==> status != JobPending) && !raised
  {
    ClaimExactly(db, j, clock.markAt);
    FinishExactly(between, j, status, clock.endAt);
  }

  /** A job that it is asked about. */
  lemma AskedPass(db: MemoryDb, between: MemoryDb, settings: Settings, answer: Answer, clock: PassClock, j: nat)
    requires settings.enabled && NextJob(db.jobs, clock.staleAt) == Some(j)
    requires Judge(settings, db.jobs[j], TakeSnapshot(db, db.jobs[j]), clock.validAt) == Ask
    ensures PassTx(db, between, settings, answer, clock)
         == if answer == Unavailable then (FinishTx(between, j, JobPending, clock.endAt), false, false)
            else if !Vouches(settings, answer) then (FinishTx(between, j, ReviewRequired, clock.endAt), true, false)
            else
              var (next, outcome) := CommitTx(between, settings, j, db.jobs[j], answer.confidence, clock.endAt);
              (next, outcome != CandidateChanged, outcome == CandidateChanged)
  {
    ClaimExactly(db, j, clock.markAt);
  }

  lemma PassOnJob(db: MemoryDb, between: MemoryDb, settings: Settings, answer: Answer, clock: PassClock, j: nat)
    requires settings.enabled && NextJob(db.jobs, clock.staleAt) == Some(j)
    ensures var (next, more, raised) := PassTx(db, between, settings, answer, clock);
            PassOf(db, between, settings, answer, clock, j, next, more, raised)
  {
    VerdictExactly(db, settings, db.jobs[j], clock.validAt);
    match Judge(settings, db.jobs[j], TakeSnapshot(db, db.jobs[j]), clock.validAt)
    case FinishAs(status) => JudgedPass(db, between, settings, answer, clock, j, status);
    case Ask =>
      AskedPass(db, between, settings, answer, clock, j);
      FinishExactly(between, j, JobPending, clock.endAt);
      FinishExactly(between, j, ReviewRequired, clock.endAt);
      if answer.Assessment? {
        CommitExactly(between, settings, j, db.jobs[j], answer.confidence, clock.endAt);
      }
  }

  /** A pass does nothing when the librarian is switched off or no job waits. Otherwise it takes the
      oldest job that waits; the loop stops after a pass that leaves it pending, and the pass is left
      by an exception exactly when only the candidate has changed by the time of the commit. */
  lemma PassExactly(db: MemoryDb, between: MemoryDb, settings: Settings, answer: Answer, clock: PassClock) returns (j: nat)
    ensures var (next, more, raised) := PassTx(db, between, settings, answer, clock);
            if !settings.enabled || forall i :: 0 <= i < |db.jobs| ==> !Waiting(db.jobs[i], clock.staleAt) then
              next == db && !more && !raised
            else
              OldestWaiting(db.jobs, j, clock.staleAt) && PassOf(db, between, settings, answer, clock, j, next, more, raised)
  {
    j := 0;
    NextJobExactly(db.jobs, clock.staleAt);
    if settings.enabled && NextJob(db.jobs, clock.staleAt).Some? {
      j := NextJob(db.jobs, clock.staleAt).value;
      PassOnJob(db, between, settings, answer, clock, j);
    }
  }
}
