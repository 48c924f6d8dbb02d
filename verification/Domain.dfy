/**
 The records and status machines the scheduler works on.
 */
module Domain {

  datatype Option<+T> = None | Some(value: T)

  datatype Result<+T, +E> = Ok(value: T) | Err(error: E)

  // ----- statuses and the two state machines

  datatype RunStatus = Queued | Running | Succeeded | Failed | Cancelled | TimedOut {
    predicate IsTerminal() {
      Succeeded? || Failed? || Cancelled? || TimedOut?
    }
  }

  /** The legal edges of the run machine. */
  predicate CanTransitionRun(from: RunStatus, to: RunStatus) {
    match (from, to)
    case (Queued, Running) => true
    case (Queued, Cancelled) => true
    case (Running, Succeeded) => true
    case (Running, Failed) => true
    case (Running, Cancelled) => true
    case (Running, TimedOut) => true
    case (Failed, Queued) => true
    case (Failed, Cancelled) => true
    case _ => false
  }

  datatype TaskStatus = TPending | TRunning | TSucceeded | TFailed | TSkipped {
    predicate IsTerminal() {
      TSucceeded? || TFailed? || TSkipped?
    }
  }

  /** The legal edges of the task machine. */
  predicate CanTransitionTask(from: TaskStatus, to: TaskStatus) {
    match (from, to)
    case (TPending, TRunning) => true
    case (TPending, TFailed) => true
    case (TPending, TSkipped) => true
    case (TRunning, TSucceeded) => true
    case (TRunning, TFailed) => true
    case (TFailed, TRunning) => true
    case _ => false
  }

  /**
   The two machines by their targets: what may come before each status.  A task that
   succeeded or was skipped, and a run that succeeded, was cancelled or timed out,
   has no edge out.
   */
  lemma EdgesByTarget(task: TaskStatus, run: RunStatus)
    ensures !CanTransitionTask(task, TPending)
    ensures CanTransitionTask(task, TRunning) <==> task == TPending || task == TFailed
    ensures CanTransitionTask(task, TSucceeded) <==> task == TRunning
    ensures CanTransitionTask(task, TFailed) <==> task == TPending || task == TRunning
    ensures CanTransitionTask(task, TSkipped) <==> task == TPending
    ensures CanTransitionRun(run, Queued) <==> run == Failed
    ensures CanTransitionRun(run, Running) <==> run == Queued
    ensures CanTransitionRun(run, Cancelled) <==> run == Queued || run == Running || run == Failed
    ensures forall end :: end == Succeeded || end == Failed || end == TimedOut ==>
              (CanTransitionRun(run, end) <==> run == Running)
  {
  }

  // ----- retry policies

  const MAX_ATTEMPTS: nat := 100
  const MAX_BACKOFF_MS: nat := 86_400_000

  datatype BackoffKind = Fixed | Linear | Exponential
  datatype JitterKind = NoJitter | FullJitter | EqualJitter

  datatype RetryPolicy = RetryPolicy(
    maxAttempts: nat,
    baseDelayMs: nat,
    maxDelayMs: nat,
    multiplier: real,
    backoff: BackoffKind,
    jitter: JitterKind,
    retryableOnly: bool)
  {
    /** `validate` returns no problem. */
    predicate Valid() {
      && 1 <= maxAttempts <= MAX_ATTEMPTS
      && 0 < baseDelayMs <= maxDelayMs <= MAX_BACKOFF_MS
      && multiplier >= 1.0
    }

    predicate AllowsAttempt(consumed: nat) {
      consumed < maxAttempts
    }
  }

  // ----- definitions

  datatype TaskSpec = TaskSpec(name: string, dependsOn: seq<string>, retry: Option<RetryPolicy>)

  datatype WorkflowDef = WorkflowDef(tasks: seq<TaskSpec>, retry: RetryPolicy)

  function TaskNames(tasks: seq<TaskSpec>): set<string> {
    set i | 0 <= i < |tasks| :: tasks[i].name
  }

  /** What definition validation guarantees: one task per name. */
  predicate UniqueNames(tasks: seq<TaskSpec>) {
    forall i, j :: 0 <= i < j < |tasks| ==> tasks[i].name != tasks[j].name
  }

  // ----- run records

  datatype FailureKind = Timeout | Exhausted

  datatype RunError = RunError(kind: FailureKind, task: Option<string>, attempts: nat)

  datatype Run = Run(
    status: RunStatus,
    attempts: nat,
    nextAttemptAt: Option<int>,
    deadlineAt: Option<int>,
    startedAt: Option<int>,
    finishedAt: Option<int>,
    error: Option<RunError>)
}
