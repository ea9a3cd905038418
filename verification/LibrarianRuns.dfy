/** Runs of the librarian queue: several workers, people who promote claims themselves, and
    policies that change in between. */
module LibrarianRuns {
  import opened Wrappers
  import opened Calendar
  import opened Memory
  import opened LibrarianQueue
  import opened LibrarianRules

  /** What a worker holds between its transactions. */
  datatype Worker =
    | Finishing(j: nat, status: JobStatus)
    | Asking(j: nat, job: Job, settings: Settings)
    | Approved(j: nat, job: Job, settings: Settings, confidence: real)

  /** A promotion by the librarian: the job and the worker that committed it. */
  datatype Promotion = Promotion(j: nat, worker: nat)

  /** The tables, the clock, the busy workers, and every promotion that was committed. */
  datatype World = World(db: MemoryDb, now: Instant, workers: map<nat, Worker>, promotions: seq<Promotion>)

  /** A claim reads the clock twice before its transaction, for the mark and for what is stale, and
      once after it, for what is still valid. */
  datatype Event =
    | Wait(duration: nat)
    | Capturing(capture: Capture, uuids: Uuids)
    | HumanPromoting(id: nat, operator: string, confidenceLabel: Option<string>)
    | OrgPromoting(id: nat, org: string, promoter: string, uuid: string)
    | Changing(tasks: map<string, TaskInfo>, orgs: map<string, OrgInfo>, contradictions: seq<Contradiction>)
    | Claiming(worker: nat, j: nat, settings: Settings, markAt: Instant, staleAt: Instant, validAt: Instant)
    | Answering(worker: nat, answer: Answer)
    | Concluding(worker: nat)
    | Crashing(worker: nat)

  predicate ClockOrder(w: World, e: Event)
    requires e.Claiming?
  {
    e.markAt <= e.staleAt <= w.now <= e.validAt
  }

  function Apply(w: World, e: Event): World {
    match e
    case Wait(duration) => w.(now := w.now + duration)
    case Capturing(capture, uuids) => w.(db := CaptureTx(w.db, capture, uuids, w.now).0)
    case HumanPromoting(id, operator, confidenceLabel) => w.(db := PromoteTx(w.db, id, operator, confidenceLabel, w.now).0)
    case OrgPromoting(id, org, promoter, uuid) => w.(db := PromoteToOrgTx(w.db, id, org, promoter, uuid, w.now).0)
    case Changing(tasks, orgs, contradictions) => w.(db := w.db.(tasks := tasks, orgs := orgs, contradictions := contradictions))
    case Claiming(worker, j, settings, markAt, staleAt, validAt) =>
      if worker in w.workers || !settings.enabled || !ClockOrder(w, e) || !IsNext(w.db.jobs, j, staleAt) then w
      else
        var job := w.db.jobs[j];
        var db := ClaimJobTx(w.db, j, markAt);
        var next := (match Judge(settings, job, TakeSnapshot(db, job), validAt)
                     case FinishAs(status) => Finishing(j, status)
                     case Ask => Asking(j, job, settings));
        w.(db := db, workers := w.workers[worker := next])
    case Answering(worker, answer) =>
      if worker !in w.workers || !w.workers[worker].Asking? then w
      else
        var Asking(j, job, settings) := w.workers[worker];
        w.(workers := w.workers[worker :=
             if answer.Unavailable? then Finishing(j, JobPending)
             else if Approves(settings, answer) then Approved(j, job, settings, answer.confidence)
             else Finishing(j, ReviewRequired)])
    case Concluding(worker) =>
      if worker !in w.workers || w.workers[worker].Asking? then w
      else
        (match w.workers[worker]
         case Finishing(j, status) => w.(db := FinishTx(w.db, j, status, w.now), workers := w.workers - {worker})
         case Approved(j, job, settings, confidence) =>
           var (db, outcome) := CommitTx(w.db, settings, j, job, confidence, w.now);
           w.(db := db, workers := w.workers - {worker},
              promotions := if outcome.PromotedCandidate? then w.promotions + [Promotion(j, worker)] else w.promotions))
    case Crashing(worker) => w.(workers := w.workers - {worker})
  }

  function Run(w: World, events: seq<Event>): World {
    if |events| == 0 then w else Apply(Run(w, events[..|events| - 1]), events[|events| - 1])
  }

  /** No jobs yet, and no claim promoted by the librarian. */
  ghost predicate Initial(w: World) {
    && w.db.jobs == [] && w.workers == map[] && w.promotions == []
    && forall c :: 0 <= c < |w.db.claims| ==> w.db.claims[c].promotedBy != Some(Librarian)
                                              && (w.db.claims[c].status == Pending ==> w.db.claims[c].promotedBy == None)
  }

  // ----- the invariant -----

  predicate ByLibrarian(claim: Claim) { claim.promotedBy == Some(Librarian) }

  /** A job names a candidate of its own in its organization's scope; it is promoted exactly when
      the librarian promoted that candidate. */
  ghost predicate JobRight(job: Job, claims: seq<Claim>) {
    && job.source < |claims| && job.candidate < |claims|
    && claims[job.candidate].org == job.org && claims[job.candidate].scope == OrgScope(job.org)
    && (job.status == JobPromoted <==> ByLibrarian(claims[job.candidate]))
  }

  ghost predicate JobsRight(jobs: seq<Job>, claims: seq<Claim>) {
    && (forall j :: 0 <= j < |jobs| ==> JobRight(jobs[j], claims))
    && (forall i, j :: 0 <= i < |jobs| && 0 <= j < |jobs| && i != j ==>
          jobs[i].candidate != jobs[j].candidate && jobs[i].source != jobs[j].source)
    && (forall c :: 0 <= c < |claims| && ByLibrarian(claims[c]) ==>
          exists j :: 0 <= j < |jobs| && jobs[j].candidate == c)
    && (forall c :: 0 <= c < |claims| && claims[c].status == Pending ==> claims[c].promotedBy == None)
  }

  ghost predicate WorkersRight(workers: map<nat, Worker>, jobs: seq<Job>) {
    forall k :: k in workers ==>
      && workers[k].j < |jobs|
      && (workers[k].Finishing? ==> workers[k].status == JobPending || workers[k].status == ReviewRequired)
      && (!workers[k].Finishing? ==>
            workers[k].job.source == jobs[workers[k].j].source && workers[k].job.candidate == jobs[workers[k].j].candidate
            && workers[k].job.org == jobs[workers[k].j].org)
  }

  ghost predicate PromotionsRight(promotions: seq<Promotion>, jobs: seq<Job>) {
    && (forall p :: 0 <= p < |promotions| ==> promotions[p].j < |jobs| && jobs[promotions[p].j].status == JobPromoted)
    && (forall p, q :: 0 <= p < q < |promotions| ==> promotions[p].j != promotions[q].j)
    && (forall j :: 0 <= j < |jobs| && jobs[j].status == JobPromoted ==>
          exists p :: 0 <= p < |promotions| && promotions[p].j == j)
  }

  ghost predicate Inv(w: World) {
    JobsRight(w.db.jobs, w.db.claims) && WorkersRight(w.workers, w.db.jobs) && PromotionsRight(w.promotions, w.db.jobs)
  }

  // ----- claims change -----

  /** The claims grow, and those that were there keep who promoted them, their organization and
      their scope, except pending ones that a person may promote. */
  ghost predicate ClaimsKept(claims: seq<Claim>, next: seq<Claim>) {
    && |claims| <= |next|
    && (forall c :: 0 <= c < |claims| ==>
          next[c].org == claims[c].org && next[c].scope == claims[c].scope
          && (ByLibrarian(next[c]) <==> ByLibrarian(claims[c]))
          && (next[c].status == Pending ==> claims[c].status == Pending && next[c].promotedBy == claims[c].promotedBy))
    && (forall c :: |claims| <= c < |next| ==>
          !ByLibrarian(next[c]) && (next[c].status == Pending ==> next[c].promotedBy == None))
  }

  lemma ClaimsKeptJobs(jobs: seq<Job>, claims: seq<Claim>, next: seq<Claim>)
    requires JobsRight(jobs, claims) && ClaimsKept(claims, next)
    ensures JobsRight(jobs, next)
  {
    forall j | 0 <= j < |jobs| ensures JobRight(jobs[j], next) {
      assert JobRight(jobs[j], claims);
    }
    forall c | 0 <= c < |next| && ByLibrarian(next[c])
      ensures exists j :: 0 <= j < |jobs| && jobs[j].candidate == c
    {
      assert ByLibrarian(claims[c]);
    }
  }

  lemma JobJoins(jobs: seq<Job>, claims: seq<Claim>, next: seq<Claim>, job: Job)
    requires JobsRight(jobs, claims) && ClaimsKept(claims, next)
    requires job.source == |claims| && job.candidate == |claims| + 1 && |next| == |claims| + 2
    requires next[job.candidate].org == job.org && next[job.candidate].scope == OrgScope(job.org) && job.status == JobPending
    ensures JobsRight(jobs + [job], next)
  {
    ClaimsKeptJobs(jobs, claims, next);
    var jobs' := jobs + [job];
    forall j | 0 <= j < |jobs'| ensures JobRight(jobs'[j], next) {
      assert j < |jobs| ==> JobRight(jobs[j], claims) && JobRight(jobs[j], next);
    }
    forall i, j | 0 <= i < |jobs'| && 0 <= j < |jobs'| && i != j
      ensures jobs'[i].candidate != jobs'[j].candidate && jobs'[i].source != jobs'[j].source
    {
      assert i < |jobs| ==> JobRight(jobs[i], claims);
      assert j < |jobs| ==> JobRight(jobs[j], claims);
    }
    forall c | 0 <= c < |next| && ByLibrarian(next[c])
      ensures exists j :: 0 <= j < |jobs'| && jobs'[j].candidate == c
    {
      var j :| 0 <= j < |jobs| && jobs[j].candidate == c;
      assert jobs'[j].candidate == c;
    }
  }

  lemma CaptureShape(db: MemoryDb, c: Capture, uuids: Uuids, now: Instant)
    ensures var next := CaptureTx(db, c, uuids, now).0;
            && ClaimsKept(db.claims, next.claims) && db.claims <= next.claims
            && (next.jobs == db.jobs
                || (|next.claims| == |db.claims| + 2
                    && next.jobs == db.jobs + [Job(uuids.job, |db.claims|, |db.claims| + 1, c.org, JobPending, now, now)]
                    && next.claims[|db.claims| + 1].org == c.org && next.claims[|db.claims| + 1].scope == OrgScope(c.org)))
  {
  }

  lemma CapturingKeepsInv(w: World, e: Event)
    requires e.Capturing? && Inv(w)
    ensures Inv(Apply(w, e))
  {
    var n := Apply(w, e);
    CaptureShape(w.db, e.capture, e.uuids, w.now);
    if n.db.jobs == w.db.jobs {
      ClaimsKeptJobs(w.db.jobs, w.db.claims, n.db.claims);
    } else {
      JobJoins(w.db.jobs, w.db.claims, n.db.claims, n.db.jobs[|w.db.jobs|]);
      JobAppendKeepsRest(w.workers, w.promotions, w.db.jobs, n.db.jobs[|w.db.jobs|]);
    }
  }

  lemma JobAppendKeepsRest(workers: map<nat, Worker>, promotions: seq<Promotion>, jobs: seq<Job>, job: Job)
    requires WorkersRight(workers, jobs) && PromotionsRight(promotions, jobs) && job.status == JobPending
    ensures WorkersRight(workers, jobs + [job]) && PromotionsRight(promotions, jobs + [job])
  {
  }

  lemma PeopleKeepInv(w: World, e: Event)
    requires (e.HumanPromoting? || e.OrgPromoting? || e.Changing? || e.Wait?) && Inv(w)
    ensures Inv(Apply(w, e))
  {
    var n := Apply(w, e);
    assert n.db.jobs == w.db.jobs;
    assert ClaimsKept(w.db.claims, n.db.claims) by {
      PeopleKeepClaims(w.db, e, w.now, n.db);
    }
    ClaimsKeptJobs(w.db.jobs, w.db.claims, n.db.claims);
  }

  lemma PeopleKeepClaims(db: MemoryDb, e: Event, now: Instant, next: MemoryDb)
    requires forall c :: 0 <= c < |db.claims| && db.claims[c].status == Pending ==> db.claims[c].promotedBy == None
    requires match e
             case HumanPromoting(id, operator, confidenceLabel) => next == PromoteTx(db, id, operator, confidenceLabel, now).0
             case OrgPromoting(id, org, promoter, uuid) => next == PromoteToOrgTx(db, id, org, promoter, uuid, now).0
             case _ => next.claims == db.claims
    ensures ClaimsKept(db.claims, next.claims)
  {
  }

  // ----- one job changes status -----

  lemma StatusKeepsJobs(jobs: seq<Job>, claims: seq<Claim>, j: nat, status: JobStatus, at: Instant)
    requires JobsRight(jobs, claims) && j < |jobs| && jobs[j].status != JobPromoted && status != JobPromoted
    ensures JobsRight(jobs[j := jobs[j].(status := status, updatedAt := at)], claims)
  {
    var jobs' := jobs[j := jobs[j].(status := status, updatedAt := at)];
    forall i | 0 <= i < |jobs'| ensures JobRight(jobs'[i], claims) {
      assert JobRight(jobs[i], claims);
    }
    forall c | 0 <= c < |claims| && ByLibrarian(claims[c])
      ensures exists i :: 0 <= i < |jobs'| && jobs'[i].candidate == c
    {
      var i :| 0 <= i < |jobs| && jobs[i].candidate == c;
      assert jobs'[i].candidate == c;
    }
  }

  lemma StatusKeepsRest(workers: map<nat, Worker>, promotions: seq<Promotion>, jobs: seq<Job>, j: nat, status: JobStatus, at: Instant)
    requires WorkersRight(workers, jobs) && PromotionsRight(promotions, jobs)
    requires j < |jobs| && jobs[j].status != JobPromoted && status != JobPromoted
    ensures var jobs' := jobs[j := jobs[j].(status := status, updatedAt := at)];
            WorkersRight(workers, jobs') && PromotionsRight(promotions, jobs')
  {
  }

  lemma ClaimingKeepsInv(w: World, e: Event)
    requires e.Claiming? && Inv(w)
    ensures Inv(Apply(w, e))
  {
    var n := Apply(w, e);
    if n != w {
      StatusKeepsJobs(w.db.jobs, w.db.claims, e.j, Evaluating, e.markAt);
      StatusKeepsRest(w.workers, w.promotions, w.db.jobs, e.j, Evaluating, e.markAt);
      assert n.workers == w.workers[e.worker := n.workers[e.worker]];
    }
  }

  lemma AnsweringKeepsInv(w: World, e: Event)
    requires (e.Answering? || e.Crashing?) && Inv(w)
    ensures Inv(Apply(w, e))
  {
  }

  lemma PromotionKeepsJobs(jobs: seq<Job>, claims: seq<Claim>, j: nat, claim: Claim, at: Instant)
    requires JobsRight(jobs, claims) && j < |jobs| && jobs[j].status != JobPromoted
    requires ByLibrarian(claim) && claim.status == Promoted
    requires claim.org == claims[jobs[j].candidate].org && claim.scope == claims[jobs[j].candidate].scope
    ensures JobsRight(jobs[j := jobs[j].(status := JobPromoted, updatedAt := at)], claims[jobs[j].candidate := claim])
  {
    assert JobRight(jobs[j], claims);
    var jobs' := jobs[j := jobs[j].(status := JobPromoted, updatedAt := at)];
    var claims' := claims[jobs[j].candidate := claim];
    forall i | 0 <= i < |jobs'| ensures JobRight(jobs'[i], claims') {
      assert JobRight(jobs[i], claims);
    }
    forall c | 0 <= c < |claims'| && ByLibrarian(claims'[c])
      ensures exists i :: 0 <= i < |jobs'| && jobs'[i].candidate == c
    {
      if c == jobs[j].candidate {
        assert jobs'[j].candidate == c;
      } else {
        var i :| 0 <= i < |jobs| && jobs[i].candidate == c;
        assert jobs'[i].candidate == c;
      }
    }
  }

  lemma PromotionKeepsRest(workers: map<nat, Worker>, promotions: seq<Promotion>, jobs: seq<Job>, j: nat, k: nat, at: Instant)
    requires WorkersRight(workers, jobs) && PromotionsRight(promotions, jobs)
    requires j < |jobs| && jobs[j].status != JobPromoted
    ensures var jobs' := jobs[j := jobs[j].(status := JobPromoted, updatedAt := at)];
            WorkersRight(workers, jobs') && PromotionsRight(promotions + [Promotion(j, k)], jobs')
  {
    var jobs', promotions' := jobs[j := jobs[j].(status := JobPromoted, updatedAt := at)], promotions + [Promotion(j, k)];
    forall i | 0 <= i < |jobs'| && jobs'[i].status == JobPromoted
      ensures exists p :: 0 <= p < |promotions'| && promotions'[p].j == i
    {
      if i == j {
        assert promotions'[|promotions|].j == i;
      } else {
        var p :| 0 <= p < |promotions| && promotions[p].j == i;
        assert promotions'[p].j == i;
      }
    }
  }

  lemma FinishKeepsInv(w: World, n: World, k: nat)
    requires Inv(w) && k in w.workers && w.workers[k].Finishing?
    requires n == w.(db := FinishTx(w.db, w.workers[k].j, w.workers[k].status, w.now), workers := w.workers - {k})
    ensures Inv(n)
  {
    var j, status := w.workers[k].j, w.workers[k].status;
    if w.db.jobs[j].status == Evaluating {
      StatusKeepsJobs(w.db.jobs, w.db.claims, j, status, w.now);
      StatusKeepsRest(w.workers, w.promotions, w.db.jobs, j, status, w.now);
    }
  }

  lemma RefusalKeepsInv(w: World, n: World, k: nat)
    requires Inv(w) && k in w.workers
    requires n == w.(db := FinishTx(w.db, w.workers[k].j, ReviewRequired, w.now), workers := w.workers - {k})
    ensures Inv(n)
  {
    var j := w.workers[k].j;
    if w.db.jobs[j].status == Evaluating {
      StatusKeepsJobs(w.db.jobs, w.db.claims, j, ReviewRequired, w.now);
      StatusKeepsRest(w.workers, w.promotions, w.db.jobs, j, ReviewRequired, w.now);
    }
  }

  lemma PromotionKeepsInv(w: World, n: World, k: nat, claim: Claim)
    requires Inv(w) && k in w.workers && w.workers[k].Approved? && w.db.jobs[w.workers[k].j].status == Evaluating
    requires var j := w.workers[k].j;
             var c := w.db.jobs[j].candidate;
             && c < |w.db.claims| && claim == PromotedByLibrarian(w.db.claims[c], w.workers[k].confidence, w.now)
             && n == w.(db := w.db.(claims := w.db.claims[c := claim],
                                    jobs := w.db.jobs[j := w.db.jobs[j].(status := JobPromoted, updatedAt := w.now)]),
                        workers := w.workers - {k}, promotions := w.promotions + [Promotion(j, k)])
    ensures Inv(n)
  {
    PromotionKeepsJobs(w.db.jobs, w.db.claims, w.workers[k].j, claim, w.now);
    PromotionKeepsRest(w.workers, w.promotions, w.db.jobs, w.workers[k].j, k, w.now);
  }

  lemma ConcludingKeepsInv(w: World, e: Event)
    requires e.Concluding? && Inv(w)
    ensures Inv(Apply(w, e))
  {
    if e.worker in w.workers && !w.workers[e.worker].Asking? {
      var n, held := Apply(w, e), w.workers[e.worker];
      if held.Finishing? {
        FinishKeepsInv(w, n, e.worker);
      } else {
        match CommitTx(w.db, held.settings, held.j, held.job, held.confidence, w.now).1
        case PolicyChanged => RefusalKeepsInv(w, n, e.worker);
        case CandidateChanged => assert n == w.(workers := w.workers - {e.worker});
        case PromotedCandidate => PromotionKeepsInv(w, n, e.worker, n.db.claims[held.job.candidate]);
      }
    }
  }

  lemma StepKeepsInv(w: World, e: Event)
    requires Inv(w)
    ensures Inv(Apply(w, e))
  {
    match e
    case Capturing(_, _) => CapturingKeepsInv(w, e);
    case Claiming(_, _, _, _, _, _) => ClaimingKeepsInv(w, e);
    case Answering(_, _) => AnsweringKeepsInv(w, e);
    case Crashing(_) => AnsweringKeepsInv(w, e);
    case Concluding(_) => ConcludingKeepsInv(w, e);
    case _ => PeopleKeepInv(w, e);
  }

  lemma {:induction false} RunKeepsInv(w: World, events: seq<Event>)
    requires Inv(w)
    ensures Inv(Run(w, events))
  {
    if |events| > 0 {
      var prefix := events[..|events| - 1];
      RunKeepsInv(w, prefix);
      StepKeepsInv(Run(w, prefix), events[|events| - 1]);
    }
  }

  lemma ReachableInv(w: World, events: seq<Event>)
    requires Initial(w)
    ensures Inv(Run(w, events))
  {
    RunKeepsInv(w, events);
  }

  // ----- what follows over whole runs -----

  /** A job is promoted exactly when the librarian promoted its candidate, which exactly one
      committed promotion did; no other job has that candidate, and a claim promoted by the
      librarian is always some job's candidate. */
  lemma PromotedExactlyOnce(w: World, events: seq<Event>, j: nat)
    requires Initial(w) && j < |Run(w, events).db.jobs|
    ensures var n := Run(w, events);
            && n.db.jobs[j].candidate < |n.db.claims|
            && (n.db.jobs[j].status == JobPromoted <==> ByLibrarian(n.db.claims[n.db.jobs[j].candidate]))
            && (n.db.jobs[j].status == JobPromoted <==> exists p :: 0 <= p < |n.promotions| && n.promotions[p].j == j)
            && (forall p, q | 0 <= p < |n.promotions| && 0 <= q < |n.promotions| ::
                  n.promotions[p].j == j && n.promotions[q].j == j ==> p == q)
            && (forall i :: 0 <= i < |n.db.jobs| && n.db.jobs[i].candidate == n.db.jobs[j].candidate ==> i == j)
            && (forall c :: 0 <= c < |n.db.claims| && ByLibrarian(n.db.claims[c]) ==>
                  exists i :: 0 <= i < |n.db.jobs| && n.db.jobs[i].candidate == c)
  {
    ReachableInv(w, events);
    assert JobRight(Run(w, events).db.jobs[j], Run(w, events).db.claims);
  }

  lemma FinalStep(w: World, e: Event, j: nat)
    requires Inv(w) && j < |w.db.jobs| && w.db.jobs[j].status in {JobPromoted, ReviewRequired}
    ensures var n := Apply(w, e); j < |n.db.jobs| && n.db.jobs[j] == w.db.jobs[j]
  {
    match e
    case Capturing(capture, uuids) => CaptureShape(w.db, capture, uuids, w.now);
    case Concluding(_) => ConcludingKeepsFinal(w, e, j);
    case Claiming(_, _, _, _, _, _) =>
    case _ => assert Apply(w, e).db.jobs == w.db.jobs;
  }

  lemma ConcludingKeepsFinal(w: World, e: Event, j: nat)
    requires e.Concluding? && j < |w.db.jobs| && w.db.jobs[j].status in {JobPromoted, ReviewRequired}
    ensures var n := Apply(w, e); j < |n.db.jobs| && n.db.jobs[j] == w.db.jobs[j]
  {
    if e.worker in w.workers && w.workers[e.worker].Approved? {
      assert w.workers[e.worker].j == j ==> !StillPermitted(w.db, w.workers[e.worker].settings, j);
    }
  }

  /** Promoted and review-required jobs are never changed again. */
  lemma FinalJobsStay(w: World, earlier: seq<Event>, later: seq<Event>, j: nat)
    requires Initial(w) && j < |Run(w, earlier).db.jobs| && Run(w, earlier).db.jobs[j].status in {JobPromoted, ReviewRequired}
    ensures var n := Run(Run(w, earlier), later); j < |n.db.jobs| && n.db.jobs[j] == Run(w, earlier).db.jobs[j]
  {
    ReachableInv(w, earlier);
    FinalThroughRun(Run(w, earlier), later, j);
  }

  lemma {:induction false} FinalThroughRun(w: World, events: seq<Event>, j: nat)
    requires Inv(w) && j < |w.db.jobs| && w.db.jobs[j].status in {JobPromoted, ReviewRequired}
    ensures j < |Run(w, events).db.jobs| && Run(w, events).db.jobs[j] == w.db.jobs[j]
  {
    if |events| > 0 {
      var prefix := events[..|events| - 1];
      FinalThroughRun(w, prefix, j);
      RunKeepsInv(w, prefix);
      FinalStep(Run(w, prefix), events[|events| - 1], j);
    }
  }

  lemma PromoterStep(w: World, e: Event, c: nat)
    requires Inv(w) && c < |w.db.claims| && w.db.claims[c].status != Pending
    ensures var n := Apply(w, e);
            c < |n.db.claims| && n.db.claims[c].status == w.db.claims[c].status && n.db.claims[c].promotedBy == w.db.claims[c].promotedBy
  {
    match e
    case Capturing(capture, uuids) => CaptureShape(w.db, capture, uuids, w.now);
    case Concluding(_) => ConcludingKeepsClaim(w, e, c);
    case HumanPromoting(_, _, _) =>
    case OrgPromoting(_, _, _, _) =>
    case _ => assert Apply(w, e).db.claims == w.db.claims;
  }

  lemma ConcludingKeepsClaim(w: World, e: Event, c: nat)
    requires e.Concluding? && c < |w.db.claims| && w.db.claims[c].status != Pending
    ensures var n := Apply(w, e); c < |n.db.claims| && n.db.claims[c] == w.db.claims[c]
  {
  }

  /** Who promoted a claim is never overwritten: a candidate that a person promoted first is
      never taken by the librarian. */
  lemma FirstPromoterStays(w: World, earlier: seq<Event>, later: seq<Event>, c: nat)
    requires Initial(w) && c < |Run(w, earlier).db.claims| && Run(w, earlier).db.claims[c].status != Pending
    ensures var m, n := Run(w, earlier), Run(Run(w, earlier), later);
            c < |n.db.claims| && n.db.claims[c].status == m.db.claims[c].status && n.db.claims[c].promotedBy == m.db.claims[c].promotedBy
  {
    ReachableInv(w, earlier);
    PromoterThroughRun(Run(w, earlier), later, c);
  }

  lemma {:induction false} PromoterThroughRun(w: World, events: seq<Event>, c: nat)
    requires Inv(w) && c < |w.db.claims| && w.db.claims[c].status != Pending
    ensures var n := Run(w, events);
            c < |n.db.claims| && n.db.claims[c].status == w.db.claims[c].status && n.db.claims[c].promotedBy == w.db.claims[c].promotedBy
  {
    if |events| > 0 {
      var prefix := events[..|events| - 1];
      PromoterThroughRun(w, prefix, c);
      RunKeepsInv(w, prefix);
      PromoterStep(Run(w, prefix), events[|events| - 1], c);
    }
  }

  // ----- where a promotion comes from -----

  /** A worker that was idle takes job j in state m to ask about it: the oldest job that waits, with
      the lineage, the policy, the privacy, the consent and the source that an assessment needs. */
  ghost predicate Claims(m: World, e: Event, worker: nat, j: nat, settings: Settings) {
    && e.Claiming? && e.worker == worker && e.j == j && e.settings == settings
    && worker !in m.workers && settings.enabled && e.markAt <= e.staleAt <= m.now <= e.validAt
    && OldestWaiting(m.db.jobs, j, e.staleAt)
    && Assessable(m.db, settings, m.db.jobs[j]) && Consented(m.db, settings, m.db.jobs[j]) && Sound(m.db, m.db.jobs[j], e.validAt)
  }

  /** The worker, asking about job j in state m, is told that the claim is corroborated and not
      contradicted, with this confidence, which reaches the threshold. */
  ghost predicate Answers(m: World, e: Event, worker: nat, j: nat, settings: Settings, confidence: real) {
    && e.Answering? && e.worker == worker
    && e.answer.Assessment? && e.answer.corroborated && !e.answer.contradiction
    && settings.threshold <= e.answer.confidence == confidence
    && worker in m.workers && m.workers[worker].Asking? && m.workers[worker].j == j && m.workers[worker].settings == settings
  }

  /** The worker, approved for job j in state m, commits the promotion that becomes number p: the
      policy, the source, the consent and the candidate hold in m, and the candidate is written with
      the confidence of the approval. */
  ghost predicate Commits(m: World, e: Event, p: nat, promotion: Promotion, settings: Settings, confidence: real) {
    && e == Concluding(promotion.worker)
    && promotion.worker in m.workers && m.workers[promotion.worker].Approved? && m.workers[promotion.worker].confidence == confidence
    && m.workers[promotion.worker].j == promotion.j && m.workers[promotion.worker].settings == settings
    && |m.promotions| == p && Apply(m, e).promotions == m.promotions + [promotion]
    && StillAllowed(m.db, settings, promotion.j) && Open(m.db, m.db.jobs[promotion.j])
    && Promotes(m.db, Apply(m, e).db, promotion.j, m.db.jobs[promotion.j].candidate, confidence, m.now)
  }

  ghost predicate ClaimedAt(w: World, events: seq<Event>, k: nat, worker: nat, j: nat, settings: Settings) {
    k < |events| && Claims(Run(w, events[..k]), events[k], worker, j, settings)
  }

  ghost predicate ApprovedAt(w: World, events: seq<Event>, a: nat, worker: nat, j: nat, settings: Settings, confidence: real) {
    a < |events| && Answers(Run(w, events[..a]), events[a], worker, j, settings, confidence)
  }

  ghost predicate CommittedAt(w: World, events: seq<Event>, c: nat, p: nat, promotion: Promotion, settings: Settings, confidence: real) {
    c < |events| && Commits(Run(w, events[..c]), events[c], p, promotion, settings, confidence)
  }

  /** Between two of its own events the worker went on with the same job: it is busy with it. */
  ghost predicate BusyWith(w: World, events: seq<Event>, i: nat, worker: nat, j: nat) {
    i <= |events| && worker in Run(w, events[..i]).workers && Run(w, events[..i]).workers[worker].j == j
  }

  ghost predicate BusyBetween(w: World, events: seq<Event>, from: nat, to: nat, worker: nat, j: nat) {
    forall i :: from < i <= to ==> BusyWith(w, events, i, worker, j)
  }

  lemma BusyExtends(w: World, prefix: seq<Event>, events: seq<Event>, from: nat, to: nat, worker: nat, j: nat)
    requires prefix <= events && to <= |prefix| && BusyBetween(w, prefix, from, to, worker, j)
    ensures BusyBetween(w, events, from, to, worker, j)
  {
    forall i | from < i <= to ensures BusyWith(w, events, i, worker, j) {
      assert BusyWith(w, prefix, i, worker, j);
      assert prefix[..i] == events[..i];
    }
  }

  /** One more event after which the worker is still busy with the job. */
  lemma BusyOneMore(w: World, prefix: seq<Event>, events: seq<Event>, from: nat, worker: nat, j: nat)
    requires prefix <= events && |events| == |prefix| + 1 && BusyBetween(w, prefix, from, |prefix|, worker, j)
    requires worker in Run(w, events).workers && Run(w, events).workers[worker].j == j
    ensures BusyBetween(w, events, from, |events|, worker, j)
  {
    BusyExtends(w, prefix, events, from, |prefix|, worker, j);
    assert events[..|events|] == events;
  }

  lemma ClaimedEarlier(w: World, prefix: seq<Event>, events: seq<Event>, k: nat, worker: nat, j: nat, settings: Settings)
    requires prefix <= events && ClaimedAt(w, prefix, k, worker, j, settings)
    ensures ClaimedAt(w, events, k, worker, j, settings)
  {
    assert prefix[..k] == events[..k] && prefix[k] == events[k];
  }

  lemma ApprovedEarlier(w: World, prefix: seq<Event>, events: seq<Event>, a: nat, worker: nat, j: nat, settings: Settings, confidence: real)
    requires prefix <= events && ApprovedAt(w, prefix, a, worker, j, settings, confidence)
    ensures ApprovedAt(w, events, a, worker, j, settings, confidence)
  {
    assert prefix[..a] == events[..a] && prefix[a] == events[a];
  }

  lemma CommittedEarlier(w: World, prefix: seq<Event>, events: seq<Event>, c: nat, p: nat, promotion: Promotion,
                         settings: Settings, confidence: real)
    requires prefix <= events && CommittedAt(w, prefix, c, p, promotion, settings, confidence)
    ensures CommittedAt(w, events, c, p, promotion, settings, confidence)
  {
    assert prefix[..c] == events[..c] && prefix[c] == events[c];
  }

  lemma {:induction false} AskingWasClaimed(w: World, events: seq<Event>, worker: nat) returns (k: nat)
    requires Initial(w) && worker in Run(w, events).workers && Run(w, events).workers[worker].Asking?
    ensures var held := Run(w, events).workers[worker];
            ClaimedAt(w, events, k, worker, held.j, held.settings) && BusyBetween(w, events, k, |events|, worker, held.j)
  {
    var prefix, last := events[..|events| - 1], |events| - 1;
    var m, held := Run(w, prefix), Run(w, events).workers[worker];
    AskingStep(m, events[last], worker);
    if worker in m.workers && m.workers[worker].Asking? {
      k := AskingWasClaimed(w, prefix, worker);
      ClaimedEarlier(w, prefix, events, k, worker, held.j, held.settings);
    } else {
      k := last;
    }
    BusyOneMore(w, prefix, events, k, worker, held.j);
  }

  lemma AskingStep(m: World, e: Event, worker: nat)
    requires worker in Apply(m, e).workers && Apply(m, e).workers[worker].Asking?
    ensures var held := Apply(m, e).workers[worker];
            if worker in m.workers && m.workers[worker].Asking? then held == m.workers[worker]
            else Claims(m, e, worker, held.j, held.settings)
  {
    if e.Claiming? && IsNext(m.db.jobs, e.j, e.staleAt) {
      NextIsOldest(m.db.jobs, e.j, e.staleAt);
      ClaimExactly(m.db, e.j, e.markAt);
      VerdictExactly(m.db, e.settings, m.db.jobs[e.j], e.validAt);
    }
  }

  lemma {:induction false} ApprovedWasAsked(w: World, events: seq<Event>, worker: nat) returns (k: nat, a: nat)
    requires Initial(w) && worker in Run(w, events).workers && Run(w, events).workers[worker].Approved?
    ensures var held := Run(w, events).workers[worker];
            && k < a && ClaimedAt(w, events, k, worker, held.j, held.settings)
            && ApprovedAt(w, events, a, worker, held.j, held.settings, held.confidence)
            && BusyBetween(w, events, k, |events|, worker, held.j)
  {
    var prefix, last := events[..|events| - 1], |events| - 1;
    var m, held := Run(w, prefix), Run(w, events).workers[worker];
    ApprovedStep(m, events[last], worker);
    if worker in m.workers && m.workers[worker].Approved? {
      k, a := ApprovedWasAsked(w, prefix, worker);
      ApprovedEarlier(w, prefix, events, a, worker, held.j, held.settings, held.confidence);
    } else {
      k := AskingWasClaimed(w, prefix, worker);
      a := last;
    }
    ClaimedEarlier(w, prefix, events, k, worker, held.j, held.settings);
    BusyOneMore(w, prefix, events, k, worker, held.j);
  }

  lemma ApprovedStep(m: World, e: Event, worker: nat)
    requires worker in Apply(m, e).workers && Apply(m, e).workers[worker].Approved?
    ensures var held := Apply(m, e).workers[worker];
            if worker in m.workers && m.workers[worker].Approved? then held == m.workers[worker]
            else Answers(m, e, worker, held.j, held.settings, held.confidence)
  {
  }

  lemma PromotionStep(m: World, e: Event, p: nat)
    requires WorkersRight(m.workers, m.db.jobs) && p < |Apply(m, e).promotions|
    ensures var promotions := Apply(m, e).promotions;
            if p < |m.promotions| then promotions[p] == m.promotions[p]
            else
              && e.Concluding? && e.worker in m.workers && m.workers[e.worker].Approved?
              && Commits(m, e, p, promotions[p], m.workers[e.worker].settings, m.workers[e.worker].confidence)
  {
    if e.Concluding? && e.worker in m.workers && m.workers[e.worker].Approved? {
      var held := m.workers[e.worker];
      CommitExactly(m.db, held.settings, held.j, held.job, held.confidence, m.now);
    }
  }

  /** A promotion's history: its worker claimed the job at k, was answered about it at a, committed
      it at c, and was busy with that one job from k to c. */
  ghost predicate Earned(w: World, events: seq<Event>, p: nat, promotion: Promotion, k: nat, a: nat, c: nat,
                         settings: Settings, confidence: real)
  {
    && k < a < c
    && ClaimedAt(w, events, k, promotion.worker, promotion.j, settings)
    && ApprovedAt(w, events, a, promotion.worker, promotion.j, settings, confidence)
    && CommittedAt(w, events, c, p, promotion, settings, confidence)
    && BusyBetween(w, events, k, c, promotion.worker, promotion.j)
  }

  lemma EarnedLater(w: World, prefix: seq<Event>, events: seq<Event>, p: nat, promotion: Promotion, k: nat, a: nat, c: nat,
                    settings: Settings, confidence: real)
    requires prefix <= events && Earned(w, prefix, p, promotion, k, a, c, settings, confidence)
    ensures Earned(w, events, p, promotion, k, a, c, settings, confidence)
  {
    ClaimedEarlier(w, prefix, events, k, promotion.worker, promotion.j, settings);
    ApprovedEarlier(w, prefix, events, a, promotion.worker, promotion.j, settings, confidence);
    CommittedEarlier(w, prefix, events, c, p, promotion, settings, confidence);
    BusyExtends(w, prefix, events, k, c, promotion.worker, promotion.j);
  }

  lemma JustEarned(w: World, prefix: seq<Event>, events: seq<Event>, p: nat, promotion: Promotion, settings: Settings, confidence: real)
    returns (k: nat, a: nat)
    requires Initial(w) && |events| > 0 && prefix == events[..|events| - 1]
    requires Commits(Run(w, prefix), events[|events| - 1], p, promotion, settings, confidence)
    ensures Earned(w, events, p, promotion, k, a, |events| - 1, settings, confidence)
  {
    k, a := ApprovedWasAsked(w, prefix, promotion.worker);
    ClaimedEarlier(w, prefix, events, k, promotion.worker, promotion.j, settings);
    ApprovedEarlier(w, prefix, events, a, promotion.worker, promotion.j, settings, confidence);
    BusyExtends(w, prefix, events, k, |prefix|, promotion.worker, promotion.j);
  }

  /** Promotion p of a run was appended by one commit, in a state in which the settings of the
      organization and of the profile were both session_auto, the source promoted, the candidate
      pending and any remote consent in force. Before it the same worker had taken this job as the
      oldest that waited, assessable and sound, and while it was asking about this job the evaluator
      had corroborated the claim without a contradiction, with the confidence that was written, at
      or above the threshold. */
  lemma {:induction false} PromotionWasEarned(w: World, events: seq<Event>, p: nat)
    returns (k: nat, a: nat, c: nat, settings: Settings, confidence: real)
    requires Initial(w) && p < |Run(w, events).promotions|
    ensures Earned(w, events, p, Run(w, events).promotions[p], k, a, c, settings, confidence)
  {
    var prefix, last := events[..|events| - 1], |events| - 1;
    var m, e := Run(w, prefix), events[last];
    ReachableInv(w, prefix);
    PromotionStep(m, e, p);
    if p < |m.promotions| {
      k, a, c, settings, confidence := PromotionWasEarned(w, prefix, p);
      EarnedLater(w, prefix, events, p, m.promotions[p], k, a, c, settings, confidence);
    } else {
      c := last;
      settings, confidence := m.workers[e.worker].settings, m.workers[e.worker].confidence;
      k, a := JustEarned(w, prefix, events, p, Apply(m, e).promotions[p], settings, confidence);
    }
  }

  /** A job whose candidate is no longer pending goes to review with the next worker that claims
      it, under any settings. */
  lemma TakenCandidateGoesToReview(w: World, e: Event)
    requires Inv(w) && e.Claiming? && e.worker !in w.workers && e.settings.enabled && ClockOrder(w, e) && IsNext(w.db.jobs, e.j, e.staleAt)
    requires w.db.claims[w.db.jobs[e.j].candidate].status != Pending
    ensures var held := Apply(w, e); held.workers[e.worker] == Finishing(e.j, ReviewRequired)
    ensures var done := Apply(Apply(w, e), Concluding(e.worker)); done.db.jobs[e.j].status == ReviewRequired
  {
    assert JobRight(w.db.jobs[e.j], w.db.claims);
  }

  // ----- a pass is a run of one worker -----

  /** What the worker does after its claim: it asks if it has to, and concludes. */
  function Rest(m: World, worker: nat, answer: Answer): World {
    Apply(if worker in m.workers && m.workers[worker].Asking? then Apply(m, Answering(worker, answer)) else m, Concluding(worker))
  }

  /** A pass of the queue is a claim and, from whatever state the others have reached by then, the
      rest of the worker's events: both leave the same tables. */
  lemma PassIsARun(w: World, m: World, worker: nat, settings: Settings, answer: Answer, clock: PassClock)
    requires settings.enabled && worker !in w.workers && clock.markAt <= clock.staleAt <= w.now <= clock.validAt
    requires NextJob(w.db.jobs, clock.staleAt).Some?
    requires var j := NextJob(w.db.jobs, clock.staleAt).value;
             var claimed := Apply(w, Claiming(worker, j, settings, clock.markAt, clock.staleAt, clock.validAt));
             worker in m.workers && (worker in claimed.workers ==> m.workers[worker] == claimed.workers[worker])
    requires m.now == clock.endAt
    ensures var j := NextJob(w.db.jobs, clock.staleAt).value;
            worker in Apply(w, Claiming(worker, j, settings, clock.markAt, clock.staleAt, clock.validAt)).workers
    ensures Rest(m, worker, answer).db == PassTx(w.db, m.db, settings, answer, clock).0
    ensures worker !in Rest(m, worker, answer).workers
  {
    var j := NextJob(w.db.jobs, clock.staleAt).value;
    var claimed := ClaimJobTx(w.db, j, clock.markAt);
    match Judge(settings, w.db.jobs[j], TakeSnapshot(claimed, w.db.jobs[j]), clock.validAt)
    case FinishAs(status) => assert m.workers[worker] == Finishing(j, status);
    case Ask => assert m.workers[worker] == Asking(j, w.db.jobs[j], settings);
  }
}
