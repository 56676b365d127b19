/** The records of the execution control plane. Times are nanoseconds; the zero time is `ZERO`. */
module Domain {
  import opened Options

  type Time = int

  const ZERO: Time := 0
  const SECOND: Time := 1_000_000_000
  const LEASE: Time := 30 * SECOND

  datatype JobState = Queued | Scheduling | Assigned | Running | Retrying | Succeeded | Failed

  datatype AttemptState = Assigned | Starting | Running | Succeeded | Failed
  {
    predicate Terminal() { Succeeded? || Failed? }
  }

  /** How an attempt starts; `Unset` until a host is picked. */
  datatype StartMode = Unset | Cold | BlankWarm | FunctionWarm

  datatype JobResult = JobResult(
    exitCode: int, logs: string, output: string, hostId: string, region: string, startedAt: Time, finishedAt: Time)

  datatype Job = Job(
    id: string,
    versionId: string,
    projectId: string,
    targetRegion: string,
    state: JobState,
    payload: string,
    maxRetries: int,
    attemptCount: int,
    lastAttemptId: string,
    error: string,
    result: Option<JobResult>,
    createdAt: Time,
    updatedAt: Time)
  {
    /** A job the scheduler may claim. */
    predicate Claimable() { state.Queued? || state.Retrying? }

    /** Another attempt is within the retry budget. */
    predicate MayRetry() { attemptCount <= maxRetries }
  }

  datatype Attempt = Attempt(
    id: string,
    jobId: string,
    versionId: string,
    hostId: string,
    region: string,
    state: AttemptState,
    startMode: StartMode,
    startedAt: Time,
    leaseExpiresAt: Time,
    error: string,
    createdAt: Time,
    updatedAt: Time)

  datatype CostRecord = CostRecord(
    id: string,
    tenantId: string,
    projectId: string,
    jobId: string,
    attemptId: string,
    hostId: string,
    region: string,
    startMode: StartMode,
    cpuMs: int,
    memoryMBMs: int,
    warmInstanceMs: int,
    dataEgressBytes: int,
    createdAt: Time)

  datatype FunctionVersion = FunctionVersion(
    id: string, projectId: string, memoryMB: int, regions: seq<string>, maxRetries: int, artifactDigest: string)

  datatype Project = Project(id: string, tenantId: string)

  /** What a region can offer, as its coordinator counts it. */
  datatype RegionStats = RegionStats(availableHosts: int, availableFullNetworkSlots: int, blankWarm: int, functionWarm: int)

  /** A region row of the store. */
  datatype Region = Region(name: string, state: string, stats: RegionStats, lastHeartbeatAt: Time, lastError: string)
}
