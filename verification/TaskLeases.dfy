/** Task steps with single-claimer leases; a task's end is derived from its steps. */
module TaskLeases {
  import opened Wrappers
  import opened Calendar
  import opened Store

  datatype TaskStatus = Active | PendingClarification | Completed | TaskFailed

  datatype StepStatus = Pending | Claimed | Done | Failed

  datatype Task = Task(status: TaskStatus, terminal: bool)

  /** The worker, token and expiry are those of the current lease, if any. */
  datatype Step = Step(task: nat, number: nat, instruction: string, status: StepStatus, worker: string,
                       token: Option<nat>, expiresAt: Option<Instant>, summary: Option<string>)

  datatype Lease = Lease(step: nat, task: nat, instruction: string, worker: string, token: nat, expiresAt: Instant)

  /** Tasks and steps by id; an id is a position in its table. */
  datatype TaskDb = TaskDb(tasks: seq<Task>, steps: seq<Step>)

  datatype LeaseError = TaskMissingOrTerminal | BadDuration | StepUnavailable | BadStatus | LeaseStale

  predicate Open(step: Step) { step.status == Pending || step.status == Claimed }

  predicate HasOpenStep(steps: seq<Step>, task: nat) {
    exists i :: 0 <= i < |steps| && steps[i].task == task && Open(steps[i])
  }

  predicate HasFailedStep(steps: seq<Step>, task: nat) {
    exists i :: 0 <= i < |steps| && steps[i].task == task && steps[i].status == Failed
  }

  /** COALESCE(MAX(step_number), 0) over the steps of a task. */
  function MaxNumber(steps: seq<Step>, task: nat): nat {
    if |steps| == 0 then 0
    else
      var last, rest := steps[|steps| - 1], MaxNumber(steps[..|steps| - 1], task);
      if last.task == task && last.number > rest then last.number else rest
  }

  // ----- transactions -----

  function CreateTaskTx(db: TaskDb): (TaskDb, nat) {
    (db.(tasks := db.tasks + [Task(Active, false)]), |db.tasks|)
  }

  function AddStepTx(db: TaskDb, task: nat, instruction: string): (TaskDb, Result<nat, LeaseError>) {
    if task >= |db.tasks| || db.tasks[task].terminal then (db, Failure(TaskMissingOrTerminal))
    else
      (db.(steps := db.steps + [Step(task, MaxNumber(db.steps, task) + 1, instruction, Pending, "", None, None, None)]),
       Success(|db.steps|))
  }

  /** A step that a claim with this clock reading may take. */
  predicate Claimable(db: TaskDb, step: nat, readAt: Instant) {
    && step < |db.steps|
    && (db.steps[step].status == Pending
        || (db.steps[step].status == Claimed && db.steps[step].expiresAt.Some? && db.steps[step].expiresAt.value < readAt))
    && db.steps[step].task < |db.tasks| && !db.tasks[db.steps[step].task].terminal
  }

  /** The clock is read before the transaction begins. */
  function ClaimTx(db: TaskDb, step: nat, worker: string, seconds: int, token: nat, readAt: Instant): (TaskDb, Result<Lease, LeaseError>) {
    if !(1 <= seconds <= 3600) then (db, Failure(BadDuration))
    else if !Claimable(db, step, readAt) then (db, Failure(StepUnavailable))
    else
      var row, expires := db.steps[step], readAt + seconds * SECOND;
      (db.(steps := db.steps[step := row.(status := Claimed, worker := worker, token := Some(token), expiresAt := Some(expires))]),
       Success(Lease(step, row.task, row.instruction, worker, token, expires)))
  }

  predicate Holds(db: TaskDb, lease: Lease, now: Instant) {
    && lease.step < |db.steps|
    && var row := db.steps[lease.step];
       row.status == Claimed && row.worker == lease.worker && row.token == Some(lease.token)
       && row.expiresAt.Some? && row.expiresAt.value > now
  }

  function Closed(row: Step, status: StepStatus, summary: string): Step {
    row.(status := status, summary := Some(summary), token := None, expiresAt := None)
  }

  /** Close the task of the lease if none of its steps is open. */
  function EndTask(db: TaskDb, task: nat): TaskDb {
    if HasOpenStep(db.steps, task) || task >= |db.tasks| || db.tasks[task].terminal then db
    else db.(tasks := db.tasks[task := Task(if HasFailedStep(db.steps, task) then TaskFailed else Completed, true)])
  }

  function FinishTx(db: TaskDb, lease: Lease, summary: string, status: StepStatus, now: Instant): (TaskDb, Result<(), LeaseError>) {
    if status != Done && status != Failed then (db, Failure(BadStatus))
    else if !Holds(db, lease, now) then (db, Failure(LeaseStale))
    else (EndTask(db.(steps := db.steps[lease.step := Closed(db.steps[lease.step], status, summary)]), lease.task), Success(()))
  }

  /** A routing request that failed asks for clarification, except under prod_secure. */
  function RouteDeniedTx(db: TaskDb, task: nat, prodSecure: bool): TaskDb {
    if prodSecure || task >= |db.tasks| || db.tasks[task].terminal then db
    else db.(tasks := db.tasks[task := db.tasks[task].(status := PendingClarification)])
  }

  function RouteResolvedTx(db: TaskDb, task: nat): TaskDb {
    if task >= |db.tasks| || db.tasks[task].status != PendingClarification then db
    else db.(tasks := db.tasks[task := db.tasks[task].(status := Active)])
  }

  // ----- the manager -----

  class TaskManager {
    method CreateTask(db: Connection<TaskDb>) returns (task: nat)
      requires !db.active
      modifies db
      ensures !db.active && (db.committed, task) == CreateTaskTx(old(db.committed))
    {
      db.Enter();
      task := |db.working.tasks|;
      db.working := db.working.(tasks := db.working.tasks + [Task(Active, false)]);
      db.Exit(false);
    }

    method AddStep(db: Connection<TaskDb>, task: nat, instruction: string) returns (r: Result<nat, LeaseError>)
      requires !db.active
      modifies db
      ensures !db.active && (db.committed, r) == AddStepTx(old(db.committed), task, instruction)
    {
      db.Enter();
      if task >= |db.working.tasks| || db.working.tasks[task].terminal {
        db.Exit(true);
        return Failure(TaskMissingOrTerminal);
      }
      var number := MaxNumber(db.working.steps, task) + 1;
      r := Success(|db.working.steps|);
      db.working := db.working.(steps := db.working.steps
        + [Step(task, number, instruction, Pending, "", None, None, None)]);
      db.Commit();
      db.Exit(false);
    }

    method Claim(db: Connection<TaskDb>, step: nat, worker: string, seconds: int, token: nat, readAt: Instant)
      returns (r: Result<Lease, LeaseError>)
      requires !db.active
      modifies db
      ensures !db.active && (db.committed, r) == ClaimTx(old(db.committed), step, worker, seconds, token, readAt)
    {
      if !(1 <= seconds <= 3600) {
        return Failure(BadDuration);
      }
      var expires := readAt + seconds * SECOND;
      db.Enter();
      if !Claimable(db.working, step, readAt) {
        db.Exit(true);
        return Failure(StepUnavailable);
      }
      var row := db.working.steps[step];
      db.working := db.working.(steps := db.working.steps[step :=
        row.(status := Claimed, worker := worker, token := Some(token), expiresAt := Some(expires))]);
      db.Commit();
      db.Exit(false);
      return Success(Lease(step, row.task, row.instruction, worker, token, expires));
    }

    method Finish(db: Connection<TaskDb>, lease: Lease, summary: string, status: StepStatus, now: Instant)
      returns (r: Result<(), LeaseError>)
      requires !db.active
      modifies db
      ensures !db.active && (db.committed, r) == FinishTx(old(db.committed), lease, summary, status, now)
    {
      if status != Done && status != Failed {
        return Failure(BadStatus);
      }
      db.Enter();
      if !Holds(db.working, lease, now) {
        db.Exit(true);
        return Failure(LeaseStale);
      }
      var row := db.working.steps[lease.step];
      db.working := db.working.(steps := db.working.steps[lease.step :=
        row.(status := status, summary := Some(summary), token := None, expiresAt := None)]);
      var remaining := HasOpenStep(db.working.steps, lease.task);
      if !remaining {
        var failed := HasFailedStep(db.working.steps, lease.task);
        if lease.task < |db.working.tasks| && !db.working.tasks[lease.task].terminal {
          db.working := db.working.(tasks := db.working.tasks[lease.task :=
            Task(if failed then TaskFailed else Completed, true)]);
        }
      }
      db.Commit();
      db.Exit(false);
      return Success(());
    }
  }
}
