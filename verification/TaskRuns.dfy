/** Runs of tasks and leases: workers claim, stall, are overtaken and finish in any order. */
module TaskRuns {
  import opened Wrappers
  import opened Calendar
  import opened TaskLeases

  /** A lease with the clock reading its claim used. */
  datatype Tenure = Tenure(lease: Lease, from: Instant)

  /** A result that was recorded: under which lease, what the worker reported, and when. */
  datatype Finish = Finish(lease: Lease, status: StepStatus, summary: string, at: Instant)

  /** The tables, the clock, every lease ever returned (a lease's token is its position), and
      every result ever recorded. */
  datatype World = World(db: TaskDb, now: Instant, tenures: seq<Tenure>, finishes: seq<Finish>)

  datatype Event =
    | Wait(duration: nat)
    | Creating
    | Adding(task: nat, instruction: string)
    | Claiming(step: nat, worker: string, seconds: int, readAt: Instant)
    | Finishing(tenure: nat, summary: string, status: StepStatus)
    | RouteDenied(task: nat, prodSecure: bool)
    | RouteResolved(task: nat)

  function Apply(w: World, e: Event): World {
    match e
    case Wait(duration) => w.(now := w.now + duration)
    case Creating => w.(db := CreateTaskTx(w.db).0)
    case Adding(task, instruction) => w.(db := AddStepTx(w.db, task, instruction).0)
    case Claiming(step, worker, seconds, readAt) =>
      if readAt > w.now then w
      else
        var (db, result) := ClaimTx(w.db, step, worker, seconds, |w.tenures|, readAt);
        (match result
         case Failure(_) => w
         case Success(lease) => w.(db := db, tenures := w.tenures + [Tenure(lease, readAt)]))
    case Finishing(tenure, summary, status) =>
      if tenure >= |w.tenures| then w
      else
        var lease := w.tenures[tenure].lease;
        var (db, result) := FinishTx(w.db, lease, summary, status, w.now);
        (match result
         case Failure(_) => w
         case Success(_) => w.(db := db, finishes := w.finishes + [Finish(lease, status, summary, w.now)]))
    case RouteDenied(task, prodSecure) => w.(db := RouteDeniedTx(w.db, task, prodSecure))
    case RouteResolved(task) => w.(db := RouteResolvedTx(w.db, task))
  }

  function Run(w: World, events: seq<Event>): World {
    if |events| == 0 then w else Apply(Run(w, events[..|events| - 1]), events[|events| - 1])
  }

  predicate Initial(w: World) {
    w.db == TaskDb([], []) && w.tenures == [] && w.finishes == []
  }

  // ----- task completion -----

  predicate HasStep(steps: seq<Step>, task: nat) {
    exists i :: 0 <= i < |steps| && steps[i].task == task
  }

  /** A task is terminal exactly when it has steps and all are closed; it is failed exactly when
      it is terminal and a step failed; its status agrees. */
  ghost predicate TaskRight(task: Task, steps: seq<Step>, id: nat) {
    && (task.terminal <==> HasStep(steps, id) && !HasOpenStep(steps, id))
    && (task.status == TaskFailed <==> task.terminal && HasFailedStep(steps, id))
    && (task.status == Completed <==> task.terminal && !HasFailedStep(steps, id))
  }

  ghost predicate TasksRight(db: TaskDb) {
    && (forall t :: 0 <= t < |db.tasks| ==> TaskRight(db.tasks[t], db.steps, t))
    && (forall i :: 0 <= i < |db.steps| ==> db.steps[i].task < |db.tasks|)
  }

  // ----- step numbers -----

  function StepCount(steps: seq<Step>, task: nat): nat {
    if |steps| == 0 then 0
    else StepCount(steps[..|steps| - 1], task) + if steps[|steps| - 1].task == task then 1 else 0
  }

  /** The steps of each task are numbered 1, 2, 3, ... in the order they were added. */
  ghost predicate Numbered(steps: seq<Step>) {
    forall i :: 0 <= i < |steps| ==> steps[i].number == StepCount(steps[..i], steps[i].task) + 1
  }

  lemma {:induction false} MaxIsCount(steps: seq<Step>, task: nat)
    requires Numbered(steps)
    ensures MaxNumber(steps, task) == StepCount(steps, task)
  {
    if |steps| > 0 {
      var rest := steps[..|steps| - 1];
      assert forall i :: 0 <= i < |rest| ==> rest[..i] == steps[..i];
      MaxIsCount(rest, task);
    }
  }

  lemma {:induction false} CountSame(steps: seq<Step>, next: seq<Step>, task: nat)
    requires |steps| == |next| && forall i :: 0 <= i < |steps| ==> next[i].task == steps[i].task
    ensures StepCount(next, task) == StepCount(steps, task)
  {
    if |steps| > 0 {
      CountSame(steps[..|steps| - 1], next[..|steps| - 1], task);
    }
  }

  // ----- leases -----

  /** A pending step was never leased; a claimed step is held by its most recent lease. */
  ghost predicate StepLeased(step: Step, i: nat, tenures: seq<Tenure>) {
    && (step.status == Pending ==> forall k :: 0 <= k < |tenures| ==> tenures[k].lease.step != i)
    && (step.status == Claimed ==>
          && step.token.Some? && step.token.value < |tenures|
          && tenures[step.token.value].lease.step == i && tenures[step.token.value].lease.worker == step.worker
          && step.expiresAt == Some(tenures[step.token.value].lease.expiresAt)
          && forall k :: 0 <= k < |tenures| && tenures[k].lease.step == i ==> k <= step.token.value)
  }

  /** Every lease names its own step and task, and starts only after the earlier leases on the
      step have expired. */
  ghost predicate TenuresRight(db: TaskDb, tenures: seq<Tenure>, now: Instant) {
    && (forall k :: 0 <= k < |tenures| ==>
          var lease := tenures[k].lease;
          && lease.token == k && lease.step < |db.steps| && lease.task == db.steps[lease.step].task
          && tenures[k].from <= now && tenures[k].from < lease.expiresAt)
    && (forall j, k :: 0 <= j < k < |tenures| && tenures[j].lease.step == tenures[k].lease.step ==>
          tenures[j].lease.expiresAt < tenures[k].from)
    && (forall i :: 0 <= i < |db.steps| ==> StepLeased(db.steps[i], i, tenures))
  }

  /** The step says what the worker reported. */
  predicate Reports(step: Step, finish: Finish) {
    step.status == finish.status && step.summary == Some(finish.summary)
  }

  /** Each recorded result closed its step and stands in it, used the last lease on the step, before
      it expired; a closed step has exactly one. */
  ghost predicate FinishesRight(db: TaskDb, tenures: seq<Tenure>, finishes: seq<Finish>) {
    && (forall f :: 0 <= f < |finishes| ==>
          var lease := finishes[f].lease;
          && lease.token < |tenures| && tenures[lease.token].lease == lease
          && lease.step < |db.steps| && !Open(db.steps[lease.step]) && Reports(db.steps[lease.step], finishes[f])
          && tenures[lease.token].from <= finishes[f].at < lease.expiresAt
          && forall k :: lease.token < k < |tenures| ==> tenures[k].lease.step != lease.step)
    && (forall f, g :: 0 <= f < g < |finishes| ==> finishes[f].lease.step != finishes[g].lease.step)
    && (forall i :: 0 <= i < |db.steps| ==>
          (db.steps[i].summary.Some? <==> !Open(db.steps[i]))
          && (!Open(db.steps[i]) ==> exists f :: 0 <= f < |finishes| && finishes[f].lease.step == i))
  }

  ghost predicate Inv(w: World) {
    && TasksRight(w.db) && Numbered(w.db.steps)
    && TenuresRight(w.db, w.tenures, w.now) && FinishesRight(w.db, w.tenures, w.finishes)
  }

  // ----- a step joins -----

  lemma AddedStepTasks(db: TaskDb, row: Step)
    requires TasksRight(db) && row.task < |db.tasks| && !db.tasks[row.task].terminal && row.status == Pending
    ensures TasksRight(db.(steps := db.steps + [row]))
  {
    var steps := db.steps + [row];
    forall t | 0 <= t < |db.tasks| ensures TaskRight(db.tasks[t], steps, t) {
      assert TaskRight(db.tasks[t], db.steps, t);
      SameButLast(db.steps, row, t);
    }
  }

  lemma SameButLast(steps: seq<Step>, row: Step, task: nat)
    ensures var next := steps + [row];
            && (HasStep(next, task) <==> HasStep(steps, task) || row.task == task)
            && (HasOpenStep(next, task) <==> HasOpenStep(steps, task) || (row.task == task && Open(row)))
            && (HasFailedStep(next, task) <==> HasFailedStep(steps, task) || (row.task == task && row.status == Failed))
  {
    var next := steps + [row];
    assert next[|steps|] == row;
    assert forall i :: 0 <= i < |steps| ==> next[i] == steps[i];
    if HasStep(steps, task) { var i :| 0 <= i < |steps| && steps[i].task == task; assert next[i].task == task; }
    if HasOpenStep(steps, task) {
      var i :| 0 <= i < |steps| && steps[i].task == task && Open(steps[i]);
      assert next[i].task == task && Open(next[i]);
    }
    if HasFailedStep(steps, task) {
      var i :| 0 <= i < |steps| && steps[i].task == task && steps[i].status == Failed;
      assert next[i].task == task && next[i].status == Failed;
    }
  }

  lemma AddingKeepsInv(w: World, e: Event)
    requires e.Adding? && Inv(w)
    ensures Inv(Apply(w, e))
  {
    var n := Apply(w, e);
    if n != w {
      var row := n.db.steps[|w.db.steps|];
      assert n.db.steps == w.db.steps + [row];
      AddedStepTasks(w.db, row);
      MaxIsCount(w.db.steps, e.task);
      AddedStepNumbered(w.db.steps, row);
      AddedStepLeases(w.db, n.db, w.tenures, w.finishes, w.now, row);
    }
  }

  lemma AddedStepLeases(db: TaskDb, next: TaskDb, tenures: seq<Tenure>, finishes: seq<Finish>, now: Instant, row: Step)
    requires TenuresRight(db, tenures, now) && FinishesRight(db, tenures, finishes)
    requires next.steps == db.steps + [row] && row.status == Pending && row.summary == None
    ensures TenuresRight(next, tenures, now) && FinishesRight(next, tenures, finishes)
  {
    forall i | 0 <= i < |next.steps| ensures StepLeased(next.steps[i], i, tenures) {
      assert i < |db.steps| ==> StepLeased(db.steps[i], i, tenures);
    }
  }

  lemma AddedStepNumbered(steps: seq<Step>, row: Step)
    requires Numbered(steps) && row.number == StepCount(steps, row.task) + 1
    ensures Numbered(steps + [row])
  {
    var next := steps + [row];
    forall i | 0 <= i < |next| ensures next[i].number == StepCount(next[..i], next[i].task) + 1 {
      assert next[..i] == steps[..i];
      if i == |steps| {
        assert steps[..i] == steps;
      }
    }
  }

  // ----- a step changes -----

  /** Changing one step of a task, seen from any task. */
  lemma StepChanged(steps: seq<Step>, i: nat, row: Step, task: nat)
    requires i < |steps| && row.task == steps[i].task
    ensures var next := steps[i := row];
            && (HasStep(next, task) <==> HasStep(steps, task))
            && (task != row.task ==>
                  (HasOpenStep(next, task) <==> HasOpenStep(steps, task))
                  && (HasFailedStep(next, task) <==> HasFailedStep(steps, task)))
            && (Open(row) && Open(steps[i]) ==>
                  (HasOpenStep(next, task) <==> HasOpenStep(steps, task))
                  && (HasFailedStep(next, task) <==> HasFailedStep(steps, task)))
  {
    var next := steps[i := row];
    OneWay(steps, i, row, task);
    assert next[i := steps[i]] == steps;
    OneWay(next, i, steps[i], task);
  }

  lemma OneWay(steps: seq<Step>, i: nat, row: Step, task: nat)
    requires i < |steps| && row.task == steps[i].task
    ensures var next := steps[i := row];
            && (HasStep(steps, task) ==> HasStep(next, task))
            && ((task != row.task || Open(row)) && HasOpenStep(steps, task) ==> HasOpenStep(next, task))
            && ((task != row.task || Open(steps[i])) && HasFailedStep(steps, task) ==> HasFailedStep(next, task))
  {
    var next := steps[i := row];
    if HasStep(steps, task) { var j :| 0 <= j < |steps| && steps[j].task == task; assert next[j].task == task; }
    if (task != row.task || Open(row)) && HasOpenStep(steps, task) {
      var j :| 0 <= j < |steps| && steps[j].task == task && Open(steps[j]);
      assert next[j].task == task && Open(next[j]);
    }
    if (task != row.task || Open(steps[i])) && HasFailedStep(steps, task) {
      var j :| 0 <= j < |steps| && steps[j].task == task && steps[j].status == Failed;
      assert next[j].task == task && next[j].status == Failed;
    }
  }

  lemma ChangedStepNumbered(steps: seq<Step>, i: nat, row: Step)
    requires Numbered(steps) && i < |steps| && row.task == steps[i].task && row.number == steps[i].number
    ensures Numbered(steps[i := row])
  {
    var next := steps[i := row];
    forall j | 0 <= j < |next| ensures next[j].number == StepCount(next[..j], next[j].task) + 1 {
      CountSame(steps[..j], next[..j], next[j].task);
    }
  }

  lemma ClaimedTasks(db: TaskDb, i: nat, row: Step)
    requires TasksRight(db) && i < |db.steps| && Open(db.steps[i]) && Open(row) && row.task == db.steps[i].task
    ensures TasksRight(db.(steps := db.steps[i := row]))
  {
    var steps := db.steps[i := row];
    forall t | 0 <= t < |db.tasks| ensures TaskRight(db.tasks[t], steps, t) {
      assert TaskRight(db.tasks[t], db.steps, t);
      StepChanged(db.steps, i, row, t);
    }
  }

  /** A successful claim as a change of one step. */
  lemma ClaimStep(w: World, e: Event)
    requires e.Claiming? && Apply(w, e) != w
    ensures var n := Apply(w, e);
            var lease := Lease(e.step, n.db.steps[e.step].task, n.db.steps[e.step].instruction, e.worker, |w.tenures|,
                               e.readAt + e.seconds * SECOND);
            && e.readAt <= w.now && 1 <= e.seconds && Claimable(w.db, e.step, e.readAt)
            && n == w.(db := n.db, tenures := w.tenures + [Tenure(lease, e.readAt)])
            && n.db == w.db.(steps := w.db.steps[e.step := w.db.steps[e.step].(status := Claimed, worker := e.worker,
                                                   token := Some(|w.tenures|), expiresAt := Some(lease.expiresAt))])
  {
  }

  lemma ClaimingKeepsInv(w: World, e: Event)
    requires e.Claiming? && Inv(w)
    ensures Inv(Apply(w, e))
  {
    var n := Apply(w, e);
    if n != w {
      ClaimStep(w, e);
      var row, tenure := n.db.steps[e.step], n.tenures[|w.tenures|];
      ClaimedTasks(w.db, e.step, row);
      ChangedStepNumbered(w.db.steps, e.step, row);
      ClaimedTenures(w, e.step, row, tenure);
      ClaimKeepsFinishes(w.db, n.db, w.tenures, w.finishes, e.step, row, tenure);
    }
  }

  lemma ClaimKeepsFinishes(db: TaskDb, next: TaskDb, tenures: seq<Tenure>, finishes: seq<Finish>, i: nat, row: Step, tenure: Tenure)
    requires FinishesRight(db, tenures, finishes) && i < |db.steps| && Open(db.steps[i]) && Open(row)
    requires row.summary == db.steps[i].summary && tenure.lease.step == i
    requires next.steps == db.steps[i := row]
    ensures FinishesRight(next, tenures + [tenure], finishes)
  {
  }

  lemma ClaimedTenures(w: World, i: nat, row: Step, tenure: Tenure)
    requires TenuresRight(w.db, w.tenures, w.now) && i < |w.db.steps|
    requires w.db.steps[i].status == Pending
             || (w.db.steps[i].status == Claimed && w.db.steps[i].expiresAt.value < tenure.from)
    requires row.status == Claimed && row.token == Some(|w.tenures|) && row.task == w.db.steps[i].task
    requires tenure.lease == Lease(i, row.task, row.instruction, row.worker, |w.tenures|, tenure.lease.expiresAt)
    requires row.expiresAt == Some(tenure.lease.expiresAt) && tenure.from <= w.now && tenure.from < tenure.lease.expiresAt
    ensures TenuresRight(w.db.(steps := w.db.steps[i := row]), w.tenures + [tenure], w.now)
  {
    var db, tenures := w.db.(steps := w.db.steps[i := row]), w.tenures + [tenure];
    assert StepLeased(w.db.steps[i], i, w.tenures);
    forall j | 0 <= j < |w.tenures| && w.tenures[j].lease.step == i
      ensures w.tenures[j].lease.expiresAt < tenure.from
    {
      var latest := w.db.steps[i].token.value;
      assert j < latest ==> w.tenures[j].lease.expiresAt < w.tenures[latest].from;
    }
    forall j | 0 <= j < |db.steps| ensures StepLeased(db.steps[j], j, tenures) {
      assert StepLeased(w.db.steps[j], j, w.tenures);
    }
  }

  lemma EndedTasks(db: TaskDb, i: nat, row: Step)
    requires TasksRight(db) && i < |db.steps| && Open(db.steps[i]) && row.task == db.steps[i].task && !Open(row)
    ensures TasksRight(EndTask(db.(steps := db.steps[i := row]), row.task))
  {
    var steps := db.steps[i := row];
    var next := EndTask(db.(steps := steps), row.task);
    assert TaskRight(db.tasks[row.task], db.steps, row.task);
    assert steps[i].task == row.task;
    forall t | 0 <= t < |next.tasks| ensures TaskRight(next.tasks[t], next.steps, t) {
      assert TaskRight(db.tasks[t], db.steps, t);
      StepChanged(db.steps, i, row, t);
    }
  }

  lemma FinishingKeepsInv(w: World, e: Event)
    requires e.Finishing? && Inv(w)
    ensures Inv(Apply(w, e))
  {
    var n := Apply(w, e);
    if n != w {
      var lease := w.tenures[e.tenure].lease;
      var row := Closed(w.db.steps[lease.step], e.status, e.summary);
      assert StepLeased(w.db.steps[lease.step], lease.step, w.tenures);
      EndedTasks(w.db, lease.step, row);
      assert n.db.steps == w.db.steps[lease.step := row];
      ChangedStepNumbered(w.db.steps, lease.step, row);
      FinishedTenures(w.db, n.db, w.tenures, w.now, lease.step, row);
      FinishRecorded(w.db, n.db, w.tenures, w.finishes, lease, row, Finish(lease, e.status, e.summary, w.now), w.now);
    }
  }

  lemma FinishedTenures(db: TaskDb, next: TaskDb, tenures: seq<Tenure>, now: Instant, i: nat, row: Step)
    requires TenuresRight(db, tenures, now) && i < |db.steps| && !Open(row) && row.task == db.steps[i].task
    requires next.steps == db.steps[i := row]
    ensures TenuresRight(next, tenures, now)
  {
    forall j | 0 <= j < |next.steps| ensures StepLeased(next.steps[j], j, tenures) {
      assert StepLeased(db.steps[j], j, tenures);
    }
  }

  lemma FinishRecorded(db: TaskDb, next: TaskDb, tenures: seq<Tenure>, finishes: seq<Finish>, lease: Lease, row: Step, finish: Finish,
                       now: Instant)
    requires FinishesRight(db, tenures, finishes) && TenuresRight(db, tenures, now)
    requires Holds(db, lease, now) && lease.token < |tenures| && tenures[lease.token].lease == lease
    requires !Open(row) && Reports(row, finish) && finish.lease == lease && finish.at == now
    requires next.steps == db.steps[lease.step := row]
    ensures FinishesRight(next, tenures, finishes + [finish])
  {
    var finishes' := finishes + [finish];
    assert StepLeased(db.steps[lease.step], lease.step, tenures);
    forall i | 0 <= i < |next.steps| && !Open(next.steps[i])
      ensures exists f :: 0 <= f < |finishes'| && finishes'[f].lease.step == i
    {
      if i == lease.step {
        assert finishes'[|finishes|].lease.step == i;
      } else {
        var f :| 0 <= f < |finishes| && finishes[f].lease.step == i;
        assert finishes'[f].lease.step == i;
      }
    }
  }

  lemma OtherKeepsInv(w: World, e: Event)
    requires (e.Wait? || e.Creating? || e.RouteDenied? || e.RouteResolved?) && Inv(w)
    ensures Inv(Apply(w, e))
  {
    StatusesFit(w.db);
    OtherStep(w, e);
    TasksStayRight(w.db, Apply(w, e).db);
  }

  /** A task row that may differ only in waiting for a clarification. */
  predicate SameProgress(a: Task, b: Task) {
    a == b || (!a.terminal && !b.terminal && {a.status, b.status} <= {Active, PendingClarification})
  }

  /** An open task is active or waits; a terminal one does not wait. */
  predicate StatusFits(task: Task) {
    task.terminal <==> task.status !in {Active, PendingClarification}
  }

  lemma StatusesFit(db: TaskDb)
    requires TasksRight(db)
    ensures forall t :: 0 <= t < |db.tasks| ==> StatusFits(db.tasks[t])
  {
    forall t | 0 <= t < |db.tasks| ensures StatusFits(db.tasks[t]) {
      assert TaskRight(db.tasks[t], db.steps, t);
    }
  }

  lemma OtherStep(w: World, e: Event)
    requires e.Wait? || e.Creating? || e.RouteDenied? || e.RouteResolved?
    requires forall t :: 0 <= t < |w.db.tasks| ==> StatusFits(w.db.tasks[t])
    ensures var n := Apply(w, e);
            && n.db.steps == w.db.steps && n.tenures == w.tenures && n.finishes == w.finishes && w.now <= n.now
            && |w.db.tasks| <= |n.db.tasks|
            && (forall t :: 0 <= t < |w.db.tasks| ==> SameProgress(w.db.tasks[t], n.db.tasks[t]))
            && (forall t :: |w.db.tasks| <= t < |n.db.tasks| ==> n.db.tasks[t] == Task(Active, false))
  {
  }

  lemma TasksStayRight(db: TaskDb, next: TaskDb)
    requires TasksRight(db) && next.steps == db.steps && |db.tasks| <= |next.tasks|
    requires forall t :: 0 <= t < |db.tasks| ==> SameProgress(db.tasks[t], next.tasks[t])
    requires forall t :: |db.tasks| <= t < |next.tasks| ==> next.tasks[t] == Task(Active, false)
    ensures TasksRight(next)
  {
    forall t | 0 <= t < |next.tasks| ensures TaskRight(next.tasks[t], next.steps, t) {
      assert t < |db.tasks| ==> TaskRight(db.tasks[t], db.steps, t);
    }
  }

  lemma StepKeepsInv(w: World, e: Event)
    requires Inv(w)
    ensures Inv(Apply(w, e))
  {
    match e
    case Adding(_, _) => AddingKeepsInv(w, e);
    case Claiming(_, _, _, _) => ClaimingKeepsInv(w, e);
    case Finishing(_, _, _) => FinishingKeepsInv(w, e);
    case _ => OtherKeepsInv(w, e);
  }

  lemma InitialInv(w: World)
    requires Initial(w)
    ensures Inv(w)
  {
    NoTasksYet(w.db);
    NoTenuresYet(w.db, w.tenures, w.now);
    NoFinishesYet(w.db, w.tenures, w.finishes);
  }

  lemma NoTasksYet(db: TaskDb)
    requires |db.tasks| == |db.steps| == 0
    ensures TasksRight(db) && Numbered(db.steps)
  {
  }

  lemma NoTenuresYet(db: TaskDb, tenures: seq<Tenure>, now: Instant)
    requires |db.steps| == |tenures| == 0
    ensures TenuresRight(db, tenures, now)
  {
  }

  lemma NoFinishesYet(db: TaskDb, tenures: seq<Tenure>, finishes: seq<Finish>)
    requires |db.steps| == |finishes| == 0
    ensures FinishesRight(db, tenures, finishes)
  {
  }

  lemma {:induction false} RunKeepsInv(w: World, events: seq<Event>)
    requires Inv(w)
    ensures Inv(Run(w, events))
  {
    if |events| > 0 {
      RunKeepsInv(w, events[..|events| - 1]);
      StepKeepsInv(Run(w, events[..|events| - 1]), events[|events| - 1]);
    }
  }

  lemma ReachableInv(w: World, events: seq<Event>)
    requires Initial(w)
    ensures Inv(Run(w, events))
  {
    InitialInv(w);
    RunKeepsInv(w, events);
  }

  // ----- what follows over whole runs -----

  /** A task is terminal exactly when it has steps and all of them are closed, failed exactly
      when moreover one of them failed; a task that is not terminal is active or waits for a
      clarification. */
  lemma TaskEndsWithItsSteps(w: World, events: seq<Event>, task: nat)
    requires Initial(w) && task < |Run(w, events).db.tasks|
    ensures var db := Run(w, events).db;
            var row := db.tasks[task];
            && (row.terminal <==> HasStep(db.steps, task) && !HasOpenStep(db.steps, task))
            && row.status == (if !row.terminal then (if row.status == PendingClarification then PendingClarification else Active)
                              else if HasFailedStep(db.steps, task) then TaskFailed else Completed)
  {
    ReachableInv(w, events);
    assert TaskRight(Run(w, events).db.tasks[task], Run(w, events).db.steps, task);
  }

  /** What a terminal task keeps: its row, its steps and their number. */
  predicate SameTask(db: TaskDb, next: TaskDb, task: nat) {
    && task < |db.tasks| <= |next.tasks| && next.tasks[task] == db.tasks[task]
    && |db.steps| <= |next.steps|
    && (forall i :: 0 <= i < |db.steps| ==> next.steps[i].task == db.steps[i].task)
    && (forall i :: 0 <= i < |db.steps| && db.steps[i].task == task ==> next.steps[i] == db.steps[i])
    && (forall i :: |db.steps| <= i < |next.steps| ==> next.steps[i].task != task)
  }

  /** Once terminal, a task keeps its status and steps through every later event: none is added,
      reopened or changed. */
  lemma TerminalTaskIsFrozen(w: World, earlier: seq<Event>, later: seq<Event>, task: nat)
    requires Initial(w) && task < |Run(w, earlier).db.tasks| && Run(w, earlier).db.tasks[task].terminal
    ensures SameTask(Run(w, earlier).db, Run(Run(w, earlier), later).db, task)
  {
    ReachableInv(w, earlier);
    FrozenThroughRun(Run(w, earlier), later, task);
  }

  lemma {:induction false} FrozenThroughRun(w: World, events: seq<Event>, task: nat)
    requires Inv(w) && task < |w.db.tasks| && w.db.tasks[task].terminal
    ensures SameTask(w.db, Run(w, events).db, task)
  {
    if |events| > 0 {
      var prefix := events[..|events| - 1];
      FrozenThroughRun(w, prefix, task);
      RunKeepsInv(w, prefix);
      FrozenStep(Run(w, prefix), events[|events| - 1], task);
      SameTaskTransitive(w.db, Run(w, prefix).db, Run(w, events).db, task);
    }
  }

  lemma SameTaskTransitive(a: TaskDb, b: TaskDb, c: TaskDb, task: nat)
    requires SameTask(a, b, task) && SameTask(b, c, task)
    ensures SameTask(a, c, task)
  {
    forall i | |a.steps| <= i < |c.steps| ensures c.steps[i].task != task {
      if i < |b.steps| { assert c.steps[i].task == b.steps[i].task; }
    }
  }

  lemma FrozenStep(w: World, e: Event, task: nat)
    requires Inv(w) && task < |w.db.tasks| && w.db.tasks[task].terminal
    ensures SameTask(w.db, Apply(w, e).db, task)
  {
    assert TaskRight(w.db.tasks[task], w.db.steps, task);
    FrozenTables(w, e, task);
  }

  lemma FrozenTables(w: World, e: Event, task: nat)
    requires task < |w.db.tasks| && w.db.tasks[task].terminal && !HasOpenStep(w.db.steps, task)
    requires w.db.tasks[task].status != PendingClarification
    ensures SameTask(w.db, Apply(w, e).db, task)
  {
    assert forall i :: 0 <= i < |w.db.steps| && w.db.steps[i].task == task ==> !Open(w.db.steps[i]);
    if e.Claiming? && Apply(w, e) != w {
      ClaimStep(w, e);
    }
  }

  /** The step numbers of a task are 1 to n in the order the steps were added. */
  lemma StepNumbersHaveNoGaps(w: World, events: seq<Event>, i: nat)
    requires Initial(w) && i < |Run(w, events).db.steps|
    ensures var steps := Run(w, events).db.steps;
            steps[i].number == StepCount(steps[..i], steps[i].task) + 1
  {
    ReachableInv(w, events);
  }

  /** The intervals during which two leases on one step can finish it do not overlap. */
  lemma LeasesDoNotOverlap(w: World, events: seq<Event>, j: nat, k: nat, t: Instant)
    requires Initial(w) && j < k < |Run(w, events).tenures|
    requires var tenures := Run(w, events).tenures; tenures[j].lease.step == tenures[k].lease.step
    ensures var tenures := Run(w, events).tenures;
            !(tenures[j].from <= t < tenures[j].lease.expiresAt && tenures[k].from <= t < tenures[k].lease.expiresAt)
  {
    ReachableInv(w, events);
  }

  /** A claim succeeds exactly when the step is open and every lease ever given on it has expired
      by the claim's clock reading. */
  lemma ClaimNeedsNoLiveLease(w: World, events: seq<Event>, i: nat, worker: string, seconds: int, token: nat, readAt: Instant)
    requires Initial(w) && i < |Run(w, events).db.steps| && 1 <= seconds <= 3600
    ensures var n := Run(w, events);
            var result := ClaimTx(n.db, i, worker, seconds, token, readAt).1;
            && (result.Success?
                <==> Open(n.db.steps[i])
                     && forall k :: 0 <= k < |n.tenures| && n.tenures[k].lease.step == i ==> n.tenures[k].lease.expiresAt < readAt)
            && (result.Success? ==>
                  result.value == Lease(i, n.db.steps[i].task, n.db.steps[i].instruction, worker, token, readAt + seconds * SECOND))
  {
    ReachableInv(w, events);
    OpenStepIsClaimable(Run(w, events), i, readAt);
  }

  lemma OpenStepIsClaimable(n: World, i: nat, readAt: Instant)
    requires Inv(n) && i < |n.db.steps|
    ensures Claimable(n.db, i, readAt)
            <==> Open(n.db.steps[i])
                 && forall k :: 0 <= k < |n.tenures| && n.tenures[k].lease.step == i ==> n.tenures[k].lease.expiresAt < readAt
  {
    var step := n.db.steps[i];
    assert StepLeased(step, i, n.tenures) && TaskRight(n.db.tasks[step.task], n.db.steps, step.task);
    if step.status == Claimed {
      var last := step.token.value;
      assert forall k :: 0 <= k < |n.tenures| && n.tenures[k].lease.step == i ==>
        k == last || n.tenures[k].lease.expiresAt < n.tenures[last].from < n.tenures[last].lease.expiresAt;
    }
  }

  /** A finish with lease k succeeds exactly when its step is still open, no later lease on the
      step was given and the lease has not expired. */
  lemma FinishNeedsTheLatestLease(w: World, events: seq<Event>, k: nat, summary: string, status: StepStatus)
    requires Initial(w) && k < |Run(w, events).tenures| && (status == Done || status == Failed)
    ensures var n := Run(w, events);
            var lease := n.tenures[k].lease;
            && lease.step < |n.db.steps|
            && (FinishTx(n.db, lease, summary, status, n.now).1.Success?
                <==> Open(n.db.steps[lease.step]) && n.now < lease.expiresAt
                     && forall m :: k < m < |n.tenures| ==> n.tenures[m].lease.step != lease.step)
  {
    ReachableInv(w, events);
    LatestLeaseFinishes(Run(w, events), k, summary, status);
  }

  lemma LatestLeaseFinishes(n: World, k: nat, summary: string, status: StepStatus)
    requires Inv(n) && k < |n.tenures| && (status == Done || status == Failed)
    ensures var lease := n.tenures[k].lease;
            && lease.step < |n.db.steps|
            && (FinishTx(n.db, lease, summary, status, n.now).1.Success?
                <==> Open(n.db.steps[lease.step]) && n.now < lease.expiresAt
                     && forall m :: k < m < |n.tenures| ==> n.tenures[m].lease.step != lease.step)
  {
    var lease := n.tenures[k].lease;
    assert StepLeased(n.db.steps[lease.step], lease.step, n.tenures);
  }

  /** Each step records at most one result, under the last lease given on it, while that lease
      was live; exactly the closed steps have one, and it is what they say. */
  lemma OneResultPerStep(w: World, events: seq<Event>, i: nat)
    requires Initial(w) && i < |Run(w, events).db.steps|
    ensures var n := Run(w, events);
            && (!Open(n.db.steps[i]) <==> exists f :: 0 <= f < |n.finishes| && n.finishes[f].lease.step == i)
            && (forall f, g | 0 <= f < |n.finishes| && 0 <= g < |n.finishes| ::
                  n.finishes[f].lease.step == i && n.finishes[g].lease.step == i ==> f == g)
            && (forall f :: 0 <= f < |n.finishes| && n.finishes[f].lease.step == i ==>
                  n.finishes[f].at < n.finishes[f].lease.expiresAt
                  && n.db.steps[i].status == n.finishes[f].status && n.db.steps[i].summary == Some(n.finishes[f].summary)
                  && forall k :: n.finishes[f].lease.token < k < |n.tenures| ==> n.tenures[k].lease.step != i)
  {
    ReachableInv(w, events);
  }

  /** Event k reports this status and summary, under this lease and at this time. */
  ghost predicate ReportedBy(m: World, e: Event, finish: Finish) {
    && e == Finishing(finish.lease.token, finish.summary, finish.status) && m.now == finish.at
    && (finish.status == Done || finish.status == Failed)
    && finish.lease.token < |m.tenures| && m.tenures[finish.lease.token].lease == finish.lease
  }

  ghost predicate ReportedAt(w: World, events: seq<Event>, k: nat, finish: Finish) {
    k < |events| && ReportedBy(Run(w, events[..k]), events[k], finish)
  }

  lemma ReportedEarlier(w: World, prefix: seq<Event>, events: seq<Event>, k: nat, finish: Finish)
    requires prefix <= events && ReportedAt(w, prefix, k, finish)
    ensures ReportedAt(w, events, k, finish)
  {
    assert prefix[..k] == events[..k] && prefix[k] == events[k];
  }

  lemma NewResult(m: World, e: Event, f: nat)
    requires Inv(m) && |m.finishes| <= f < |Apply(m, e).finishes|
    ensures ReportedBy(m, e, Apply(m, e).finishes[f])
  {
    ResultStep(m, e, f);
  }

  /** Every recorded result was reported by an event of the run. */
  lemma {:induction false} ResultWasReported(w: World, events: seq<Event>, f: nat) returns (k: nat)
    requires Initial(w) && f < |Run(w, events).finishes|
    ensures ReportedAt(w, events, k, Run(w, events).finishes[f])
  {
    var prefix, e := events[..|events| - 1], events[|events| - 1];
    ResultStep(Run(w, prefix), e, f);
    if f < |Run(w, prefix).finishes| {
      k := ResultWasReported(w, prefix, f);
      ReportedEarlier(w, prefix, events, k, Run(w, prefix).finishes[f]);
    } else {
      k := |prefix|;
      ReachableInv(w, prefix);
      NewResult(Run(w, prefix), e, f);
    }
  }

  lemma ResultStep(m: World, e: Event, f: nat)
    requires f < |Apply(m, e).finishes|
    ensures var finish := Apply(m, e).finishes[f];
            if f < |m.finishes| then finish == m.finishes[f]
            else
              && e.Finishing? && e.tenure < |m.tenures| && (e.status == Done || e.status == Failed)
              && finish == Finish(m.tenures[e.tenure].lease, e.status, e.summary, m.now)
  {
  }

  /** A terminal task is failed exactly when the recorded result of some step of it was a failure,
      and otherwise completed. */
  lemma TaskFailsByAResult(w: World, events: seq<Event>, task: nat)
    requires Initial(w) && task < |Run(w, events).db.tasks| && Run(w, events).db.tasks[task].terminal
    ensures var n := Run(w, events);
            && (n.db.tasks[task].status == TaskFailed
                <==> exists f :: 0 <= f < |n.finishes| && n.finishes[f].status == Failed && n.finishes[f].lease.task == task)
            && (n.db.tasks[task].status == TaskFailed || n.db.tasks[task].status == Completed)
  {
    ReachableInv(w, events);
    var n := Run(w, events);
    assert TaskRight(n.db.tasks[task], n.db.steps, task);
    ResultsStand(n);
    FailedByAResult(n.db.steps, n.finishes, task);
  }

  /** Each result stands in its step, and each closed step has one. */
  ghost predicate Standing(steps: seq<Step>, finishes: seq<Finish>) {
    && (forall f :: 0 <= f < |finishes| ==>
          var lease := finishes[f].lease;
          lease.step < |steps| && steps[lease.step].status == finishes[f].status && steps[lease.step].task == lease.task)
    && (forall i :: 0 <= i < |steps| && !Open(steps[i]) ==> exists f :: 0 <= f < |finishes| && finishes[f].lease.step == i)
  }

  lemma ResultsStand(n: World)
    requires Inv(n)
    ensures Standing(n.db.steps, n.finishes)
  {
    forall f | 0 <= f < |n.finishes|
      ensures n.db.steps[n.finishes[f].lease.step].task == n.finishes[f].lease.task
    {
      assert n.tenures[n.finishes[f].lease.token].lease == n.finishes[f].lease;
    }
  }

  lemma FailedByAResult(steps: seq<Step>, finishes: seq<Finish>, task: nat)
    requires Standing(steps, finishes)
    ensures HasFailedStep(steps, task)
            <==> exists f :: 0 <= f < |finishes| && finishes[f].status == Failed && finishes[f].lease.task == task
  {
    if HasFailedStep(steps, task) {
      var i :| 0 <= i < |steps| && steps[i].task == task && steps[i].status == Failed;
      var f :| 0 <= f < |finishes| && finishes[f].lease.step == i;
      assert finishes[f].status == Failed && finishes[f].lease.task == task;
    }
  }

  // ----- leases that did not come from claim -----

  predicate HasOtherOpenStep(steps: seq<Step>, task: nat, i: nat) {
    exists k :: 0 <= k < |steps| && k != i && steps[k].task == task && Open(steps[k])
  }

  lemma OpenAfterClosing(steps: seq<Step>, i: nat, row: Step, task: nat)
    requires i < |steps| && !Open(row)
    ensures HasOpenStep(steps[i := row], task) <==> HasOtherOpenStep(steps, task, i)
  {
    var next := steps[i := row];
    assert forall k :: 0 <= k < |steps| && k != i ==> next[k] == steps[k];
  }

  /** Finishing trusts the task id inside the lease. With a lease that names another task the
      completion rule survives exactly when the step's own task has another open step and the
      named task is not one without steps. */
  lemma ForeignTaskId(db: TaskDb, lease: Lease, summary: string, status: StepStatus, now: Instant)
    requires TasksRight(db) && FinishTx(db, lease, summary, status, now).1.Success?
    ensures lease.step < |db.steps|
    ensures var next := FinishTx(db, lease, summary, status, now).0;
            var task := db.steps[lease.step].task;
            TasksRight(next) <==>
              lease.task == task
              || (HasOtherOpenStep(db.steps, task, lease.step) && (lease.task < |db.tasks| ==> HasStep(db.steps, lease.task)))
  {
    var i, row := lease.step, Closed(db.steps[lease.step], status, summary);
    var steps := db.steps[i := row];
    var next := FinishTx(db, lease, summary, status, now).0;
    assert steps[i].task == row.task && next.steps == steps;
    OpenAfterClosing(db.steps, i, row, row.task);
    if lease.task == row.task {
      EndedTasks(db, i, row);
    } else {
      assert TaskRight(db.tasks[row.task], db.steps, row.task);
      assert db.steps[i].task == row.task && Open(db.steps[i]);
      assert next.tasks[row.task] == db.tasks[row.task];
      StepChanged(db.steps, i, row, lease.task);
      assert HasStep(steps, row.task);
      if TasksRight(next) {
        assert TaskRight(next.tasks[row.task], steps, row.task);
        if lease.task < |db.tasks| {
          assert TaskRight(next.tasks[lease.task], steps, lease.task);
          assert TaskRight(db.tasks[lease.task], db.steps, lease.task);
        }
      }
      if HasOpenStep(steps, row.task) && (lease.task < |db.tasks| ==> HasStep(db.steps, lease.task)) {
        ForeignButHarmless(db, next, i, row, lease.task);
      }
    }
  }

  lemma ForeignButHarmless(db: TaskDb, next: TaskDb, i: nat, row: Step, other: nat)
    requires TasksRight(db) && i < |db.steps| && row.task == db.steps[i].task && other != row.task
    requires Open(db.steps[i])
    requires next == EndTask(db.(steps := db.steps[i := row]), other)
    requires HasOpenStep(next.steps, row.task) && (other < |db.tasks| ==> HasStep(db.steps, other))
    ensures TasksRight(next)
  {
    StepChanged(db.steps, i, row, other);
    assert other < |db.tasks| ==> TaskRight(db.tasks[other], db.steps, other);
    assert next.tasks == db.tasks;
    assert db.steps[i].task == row.task && Open(db.steps[i]);
    assert HasOpenStep(db.steps, row.task);
    forall t | 0 <= t < |next.tasks| ensures TaskRight(next.tasks[t], next.steps, t) {
      assert TaskRight(db.tasks[t], db.steps, t);
      StepChanged(db.steps, i, row, t);
    }
  }

  /** The completion endpoint builds its lease from the request, so this can happen: the only
      step of task 0 closes, and task 0 stays open because the lease names task 1. */
  lemma ForeignTaskIdLeavesTaskOpen()
    ensures var step := Step(0, 1, "build", Claimed, "ann", Some(7), Some(100), None);
            var db := TaskDb([Task(Active, false), Task(Active, false)], [step]);
            var (next, result) := FinishTx(db, Lease(0, 1, "build", "ann", 7, 100), "ok", Done, 50);
            && TasksRight(db) && result.Success?
            && !HasOpenStep(next.steps, 0) && !next.tasks[0].terminal && next.tasks[1].terminal
  {
    var step := Step(0, 1, "build", Claimed, "ann", Some(7), Some(100), None);
    var db := TaskDb([Task(Active, false), Task(Active, false)], [step]);
    assert db.steps[0].task == 0 && Open(db.steps[0]);
  }
}
