/** What each operation on tasks and steps needs and writes, stated over the columns of the rows. */
module TaskRules {
  import opened Wrappers
  import opened Calendar
  import opened TaskLeases

  /** All steps but one are as they were. */
  ghost predicate OnlyStepChanged(db: TaskDb, next: TaskDb, step: nat) {
    && |next.steps| == |db.steps|
    && forall i :: 0 <= i < |db.steps| && i != step ==> next.steps[i] == db.steps[i]
  }

  /** All tasks but one are as they were. */
  ghost predicate OnlyTaskChanged(db: TaskDb, next: TaskDb, task: nat) {
    && |next.tasks| == |db.tasks|
    && forall t :: 0 <= t < |db.tasks| && t != task ==> next.tasks[t] == db.tasks[t]
  }

  /** The step goes on being the same piece of work of the same task. */
  predicate SameWork(a: Step, b: Step) {
    a.task == b.task && a.number == b.number && a.instruction == b.instruction
  }

  /** A task starts active and without steps. */
  lemma CreateTaskExactly(db: TaskDb)
    ensures var (next, task) := CreateTaskTx(db);
            && task == |db.tasks| && next.steps == db.steps && |next.tasks| == task + 1 && db.tasks <= next.tasks
            && next.tasks[task].status == Active && !next.tasks[task].terminal
  {
  }

  /** A step is added exactly to a task that exists and has not ended: pending, unclaimed, with the
      next number. */
  lemma AddStepExactly(db: TaskDb, task: nat, instruction: string)
    ensures var (next, r) := AddStepTx(db, task, instruction);
            if task < |db.tasks| && !db.tasks[task].terminal then
              && r == Success(|db.steps|) && next.tasks == db.tasks && |next.steps| == |db.steps| + 1 && db.steps <= next.steps
              && var row := next.steps[|db.steps|];
                 && row.task == task && row.instruction == instruction && row.status == Pending && row.number >= 1
                 && row.token == None && row.expiresAt == None && row.summary == None && row.worker == ""
                 && (forall i :: 0 <= i < |db.steps| && db.steps[i].task == task ==> db.steps[i].number < row.number)
                 && (row.number == 1 || exists i :: 0 <= i < |db.steps| && db.steps[i].task == task && db.steps[i].number == row.number - 1)
            else r == Failure(TaskMissingOrTerminal) && next == db
  {
    MaxNumberExactly(db.steps, task);
  }

  lemma {:induction false} MaxNumberExactly(steps: seq<Step>, task: nat)
    ensures forall i :: 0 <= i < |steps| && steps[i].task == task ==> steps[i].number <= MaxNumber(steps, task)
    ensures MaxNumber(steps, task) == 0
            || exists i :: 0 <= i < |steps| && steps[i].task == task && steps[i].number == MaxNumber(steps, task)
  {
    if |steps| > 0 {
      var rest, last := steps[..|steps| - 1], steps[|steps| - 1];
      MaxNumberExactly(rest, task);
      var max := MaxNumber(steps, task);
      if max != 0 {
        if last.task == task && last.number == max {
          assert steps[|steps| - 1].number == max;
        } else {
          var i :| 0 <= i < |rest| && rest[i].task == task && rest[i].number == max;
          assert steps[i].task == task && steps[i].number == max;
        }
      }
    }
  }

  /** A claim succeeds exactly for 1 to 3600 seconds, on a step of a task that has not ended which is
      pending, or claimed under a lease that ran out before the clock was read. */
  lemma ClaimExactly(db: TaskDb, step: nat, worker: string, seconds: int, token: nat, readAt: Instant)
    ensures var (next, r) := ClaimTx(db, step, worker, seconds, token, readAt);
            if 1 <= seconds <= 3600 && step < |db.steps|
               && (db.steps[step].status == Pending
                   || (db.steps[step].status == Claimed && db.steps[step].expiresAt.Some? && db.steps[step].expiresAt.value < readAt))
               && db.steps[step].task < |db.tasks| && !db.tasks[db.steps[step].task].terminal
            then
              && next.tasks == db.tasks && OnlyStepChanged(db, next, step) && SameWork(next.steps[step], db.steps[step])
              && next.steps[step].status == Claimed && next.steps[step].worker == worker && next.steps[step].token == Some(token)
              && next.steps[step].expiresAt == Some(readAt + seconds * 1_000_000) && next.steps[step].summary == db.steps[step].summary
              && r.Success? && r.value.step == step && r.value.task == db.steps[step].task
              && r.value.instruction == db.steps[step].instruction && r.value.worker == worker && r.value.token == token
              && r.value.expiresAt == readAt + seconds * 1_000_000
            else r.Failure? && next == db
  {
  }

  /** The lease is the one under which its step is claimed now. */
  predicate InForce(db: TaskDb, lease: Lease, now: Instant) {
    && lease.step < |db.steps| && db.steps[lease.step].status == Claimed && db.steps[lease.step].worker == lease.worker
    && db.steps[lease.step].token == Some(lease.token)
    && db.steps[lease.step].expiresAt.Some? && now < db.steps[lease.step].expiresAt.value
  }

  ghost predicate Unfinished(db: TaskDb, task: nat) {
    exists i :: 0 <= i < |db.steps| && db.steps[i].task == task && (db.steps[i].status == Pending || db.steps[i].status == Claimed)
  }

  ghost predicate HasFailure(db: TaskDb, task: nat) {
    exists i :: 0 <= i < |db.steps| && db.steps[i].task == task && db.steps[i].status == Failed
  }

  lemma StepsOf(db: TaskDb, task: nat)
    ensures HasOpenStep(db.steps, task) <==> Unfinished(db, task)
    ensures HasFailedStep(db.steps, task) <==> HasFailure(db, task)
  {
    if HasOpenStep(db.steps, task) {
      var i :| 0 <= i < |db.steps| && db.steps[i].task == task && TaskLeases.Open(db.steps[i]);
      assert db.steps[i].status == Pending || db.steps[i].status == Claimed;
    }
    if Unfinished(db, task) {
      var i :| 0 <= i < |db.steps| && db.steps[i].task == task && (db.steps[i].status == Pending || db.steps[i].status == Claimed);
      assert TaskLeases.Open(db.steps[i]);
    }
  }

  /** A finish succeeds exactly with done or failed under the lease in force. It leaves this status and
      this summary in the step, and ends the task of the lease when none of its steps is left: as failed
      exactly when one of them failed. */
  lemma FinishExactly(db: TaskDb, lease: Lease, summary: string, status: StepStatus, now: Instant)
    ensures var (next, r) := FinishTx(db, lease, summary, status, now);
            if (status == Done || status == Failed) && InForce(db, lease, now) then
              && r == Success(()) && OnlyStepChanged(db, next, lease.step) && SameWork(next.steps[lease.step], db.steps[lease.step])
              && next.steps[lease.step].status == status && next.steps[lease.step].summary == Some(summary)
              && next.steps[lease.step].worker == lease.worker
              && next.steps[lease.step].token == None && next.steps[lease.step].expiresAt == None
              && OnlyTaskChanged(db, next, lease.task)
              && (lease.task < |db.tasks| ==>
                    if db.tasks[lease.task].terminal || Unfinished(next, lease.task) then next.tasks[lease.task] == db.tasks[lease.task]
                    else
                      && next.tasks[lease.task].terminal
                      && next.tasks[lease.task].status == if HasFailure(next, lease.task) then TaskFailed else Completed)
            else r.Failure? && next == db
  {
    var (next, r) := FinishTx(db, lease, summary, status, now);
    if r.Success? {
      FinishedRow(db, lease, summary, status, now);
      StepsOf(next, lease.task);
    }
  }

  lemma FinishedRow(db: TaskDb, lease: Lease, summary: string, status: StepStatus, now: Instant)
    requires FinishTx(db, lease, summary, status, now).1.Success?
    ensures var next := FinishTx(db, lease, summary, status, now).0;
            && InForce(db, lease, now) && OnlyStepChanged(db, next, lease.step) && SameWork(next.steps[lease.step], db.steps[lease.step])
            && next.steps[lease.step].status == status && next.steps[lease.step].summary == Some(summary)
            && next.steps[lease.step].worker == lease.worker
            && next.steps[lease.step].token == None && next.steps[lease.step].expiresAt == None
            && next.tasks == EndTask(db.(steps := next.steps), lease.task).tasks
  {
  }

  /** A routing request that fails makes exactly a task that has not ended wait, unless prod_secure
      is on; one that succeeds takes exactly a waiting task on. */
  lemma RoutingExactly(db: TaskDb, task: nat, prodSecure: bool)
    ensures var next := RouteDeniedTx(db, task, prodSecure);
            && next.steps == db.steps && OnlyTaskChanged(db, next, task)
            && (task < |db.tasks| ==>
                  && next.tasks[task].terminal == db.tasks[task].terminal
                  && next.tasks[task].status
                     == if !prodSecure && !db.tasks[task].terminal then PendingClarification else db.tasks[task].status)
    ensures var next := RouteResolvedTx(db, task);
            && next.steps == db.steps && OnlyTaskChanged(db, next, task)
            && (task < |db.tasks| ==>
                  && next.tasks[task].terminal == db.tasks[task].terminal
                  && next.tasks[task].status
                     == if db.tasks[task].status == PendingClarification then Active else db.tasks[task].status)
  {
  }
}
