/** The changes the services make to job and attempt records, one function per change. */
module Records {
  import opened Options
  import opened Domain

  // ---------------------------------------------------------------- jobs

  function NewJob(id: string, version: FunctionVersion, payload: string, now: Time): Job
  {
    Job(id, version.id, version.projectId, "", JobState.Queued, payload, version.maxRetries, 0, "", "", None, now, now)
  }

  function ClaimedJob(job: Job, now: Time): Job
  {
    job.(state := Scheduling, updatedAt := now)
  }

  function RequeuedJob(job: Job, error: string, now: Time): Job
  {
    job.(state := Queued, targetRegion := "", error := error, updatedAt := now)
  }

  function OfferedJob(job: Job, region: string, attemptId: string, now: Time): Job
  {
    job.(lastAttemptId := attemptId, targetRegion := region, state := JobState.Assigned, error := "", updatedAt := now)
  }

  function CountedJob(job: Job, now: Time): Job
  {
    job.(attemptCount := job.attemptCount + 1, updatedAt := now)
  }

  function FailedJob(job: Job, error: string, now: Time): Job
  {
    job.(state := JobState.Failed, error := error, updatedAt := now)
  }

  /** RetryExecution's change to a job within its budget. */
  function RetriedJob(job: Job, now: Time): Job
  {
    job.(state := Retrying, error := "", targetRegion := "", updatedAt := now)
  }

  /** The first write of lease recovery. */
  function RecoveredJob(job: Job, now: Time): Job
  {
    job.(state := if job.MayRetry() then Retrying else JobState.Failed, error := LEASE_EXPIRED, updatedAt := now)
  }

  const LEASE_EXPIRED: string := "lease expired before completion"

  // ---------------------------------------------------------------- host reports

  datatype Report = Unspecified | Starting | Running | Succeeded | Failed
  {
    predicate Terminal() { Succeeded? || Failed? }
  }

  datatype Update = Update(
    attemptId: string, jobId: string, hostId: string, region: string, report: Report,
    exitCode: int, logs: string, output: string, errorMessage: string)

  function StartTimeOr(fallback: Time, startedAt: Time): Time
  {
    if startedAt == ZERO then fallback else startedAt
  }

  function ResultOf(msg: Update, startedAt: Time, now: Time): JobResult
  {
    JobResult(msg.exitCode, msg.logs, msg.output, msg.hostId, msg.region, StartTimeOr(now, startedAt), now)
  }

  /** handleAssignmentUpdate's change to the job; `startedAt` is that of the attempt. */
  function ReportedJob(job: Job, msg: Update, canRetry: bool, startedAt: Time, now: Time): Job
  {
    var j := job.(updatedAt := now);
    match msg.report
    case Unspecified => j
    case Starting => j.(state := JobState.Assigned)
    case Running => j.(state := JobState.Running)
    case Succeeded => j.(state := JobState.Succeeded, error := "", result := Some(ResultOf(msg, startedAt, now)))
    case Failed =>
      j.(error := msg.errorMessage, result := Some(ResultOf(msg, startedAt, now)),
         state := if job.MayRetry() && canRetry then Retrying else JobState.Failed)
  }

  // ---------------------------------------------------------------- attempts

  function NewAttempt(id: string, job: Job, region: string, now: Time): Attempt
  {
    Attempt(id, job.id, job.versionId, "", region, AttemptState.Assigned, Unset, ZERO, now + LEASE, "", now, now)
  }

  /** assignExecution's change once a host is picked. */
  function PlacedAttempt(a: Attempt, hostId: string, mode: StartMode, now: Time): Attempt
  {
    a.(hostId := hostId, startMode := mode, updatedAt := now)
  }

  function FailedAttempt(a: Attempt, error: string, now: Time): Attempt
  {
    a.(state := AttemptState.Failed, error := error, leaseExpiresAt := now, updatedAt := now)
  }

  /** handleAssignmentUpdate's change to the attempt. */
  function ReportedAttempt(a: Attempt, msg: Update, now: Time): Attempt
  {
    var b := a.(updatedAt := now, hostId := msg.hostId);
    match msg.report
    case Unspecified => b
    case Starting => b.(state := AttemptState.Starting, startedAt := StartTimeOr(now, a.startedAt), leaseExpiresAt := now + LEASE)
    case Running => b.(state := AttemptState.Running, startedAt := StartTimeOr(now, a.startedAt), leaseExpiresAt := now + LEASE)
    case Succeeded => b.(state := AttemptState.Succeeded, leaseExpiresAt := now)
    case Failed => b.(state := AttemptState.Failed, leaseExpiresAt := now, error := msg.errorMessage)
  }
}
