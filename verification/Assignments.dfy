/** The coordinator's handling of assignments and of the reports hosts send about them. */
module Assignments {
  import opened Options
  import opened Domain
  import opened Records
  import opened MemoryStore
  import Scheduler

  const MILLISECOND: Time := 1_000_000

  /** The billed run time of an attempt that finished at `finishedAt`. */
  function RuntimeMs(startedAt: Time, finishedAt: Time): int
  {
    var start := StartTimeOr(finishedAt, startedAt);
    var runtime := if finishedAt < start then 0 else finishedAt - start;
    var ms := runtime / MILLISECOND;
    if ms == 0 && finishedAt != ZERO && start != ZERO && finishedAt >= start then 1 else ms
  }

  function CostOf(a: Attempt, j: Job, result: JobResult, version: FunctionVersion, project: Project, now: Time): CostRecord
  {
    var ms := RuntimeMs(a.startedAt, result.finishedAt);
    CostRecord(
      a.id, project.tenantId, project.id, j.id, a.id, result.hostId, result.region, a.startMode,
      ms, version.memoryMB * ms, if a.startMode.BlankWarm? || a.startMode.FunctionWarm? then ms else 0,
      |result.logs| + |result.output|, now)
  }

  /** handleAssignmentUpdate: unknown rows are an error; a terminal report is billed when its function version and
      project are known. */
  function ApplyUpdate(
    s: Tables, versions: map<string, FunctionVersion>, projects: map<string, Project>, msg: Update, canRetry: bool, now: Time): Tables
  {
    if msg.attemptId !in s.attempts || msg.jobId !in s.jobs then s else
      var a := ReportedAttempt(s.attempts[msg.attemptId], msg, now);
      var j := ReportedJob(s.jobs[msg.jobId], msg, canRetry, a.startedAt, now);
      var s1 := s.PutAttempt(a).PutJob(j);
      if msg.report.Terminal() && j.versionId in versions && j.projectId in projects then
        s1.PutCost(CostOf(a, j, ResultOf(msg, a.startedAt, now), versions[j.versionId], projects[j.projectId], now))
      else
        s1
  }

  method HandleAssignmentUpdate(store: Store, msg: Update, canRetry: bool, now: Time) returns (r: Result<Job>)
    modifies store`jobs, store`attempts, store`costs
    ensures store.View() == ApplyUpdate(old(store.View()), store.versions, store.projects, msg, canRetry, now)
    ensures r.Ok? <==>
      && msg.attemptId in old(store.attempts) && msg.jobId in old(store.jobs)
      && (msg.report.Terminal() ==> old(store.jobs)[msg.jobId].versionId in store.versions && old(store.jobs)[msg.jobId].projectId in store.projects)
    ensures r.Ok? ==> r.value.id in store.jobs && store.jobs[r.value.id] == r.value && r.value.id == old(store.jobs)[msg.jobId].id
  {
    if msg.attemptId !in store.attempts {
      return Err("attempt not found");
    }
    if msg.jobId !in store.jobs {
      return Err("job not found");
    }
    var attempt := ReportedAttempt(store.attempts[msg.attemptId], msg, now);
    var job := ReportedJob(store.jobs[msg.jobId], msg, canRetry, attempt.startedAt, now);
    store.PutAttempt(attempt);
    store.PutJob(job);
    if msg.report.Terminal() {
      if job.versionId !in store.versions {
        return Err("function version not found");
      }
      if job.projectId !in store.projects {
        return Err("project not found");
      }
      var cost := CostOf(attempt, job, ResultOf(msg, attempt.startedAt, now), store.versions[job.versionId], store.projects[job.projectId], now);
      store.PutCostRecord(cost);
    }
    return Ok(job);
  }

  /** What the background retry after a failed attempt does: retry, or mark the latest record failed. */
  function RetryOrFail(s: Tables, jobId: string, now: Time): Tables
  {
    if jobId !in s.jobs then s
    else if s.jobs[jobId].MayRetry() then s.PutJob(RetriedJob(s.jobs[jobId], now))
    else s.PutJob(FailedJob(s.jobs[jobId], Scheduler.OVER_BUDGET, now))
  }

  method RetryInBackground(store: Store, jobId: string, now: Time)
    modifies store`jobs
    ensures store.View() == RetryOrFail(old(store.View()), jobId, now)
    ensures jobId in old(store.jobs) && old(store.jobs)[jobId].id == jobId ==>
              && jobId in store.jobs && store.jobs == old(store.jobs)[jobId := store.jobs[jobId]]
              && var j, was := store.jobs[jobId], old(store.jobs)[jobId];
              && j.updatedAt == now && j.attemptCount == was.attemptCount && j.result == was.result
              && if was.attemptCount <= was.maxRetries then j.state == Retrying && j.error == j.targetRegion == ""
                 else j.state == JobState.Failed && j.error == "exceeded retry budget" && j.targetRegion == was.targetRegion
  {
    var r := Scheduler.RetryExecution(store, jobId, now);
    if r.Err? && jobId in store.jobs {
      store.PutJob(FailedJob(store.jobs[jobId], Scheduler.OVER_BUDGET, now));
    }
  }

  /** assignExecution once a host has been picked for a queued assignment. */
  function Place(s: Tables, attemptId: string, hostId: string, mode: StartMode, now: Time): Tables
  {
    if attemptId !in s.attempts then s else s.PutAttempt(PlacedAttempt(s.attempts[attemptId], hostId, mode, now))
  }

  method AssignExecution(store: Store, attemptId: string, hostId: string, mode: StartMode, now: Time) returns (ok: bool)
    modifies store`attempts
    ensures store.View() == Place(old(store.View()), attemptId, hostId, mode, now)
    ensures ok <==> attemptId in old(store.attempts)
  {
    if attemptId !in store.attempts {
      return false;
    }
    store.PutAttempt(PlacedAttempt(store.attempts[attemptId], hostId, mode, now));
    return true;
  }

  /** Placing an attempt on a host names the host and the start mode; it neither renews nor ends the lease, so recovery
      lists the same attempts at the same times, and no other row changes. */
  lemma PlacementKeepsLease(s: Tables, attemptId: string, hostId: string, mode: StartMode, now: Time)
    requires s.Keyed() && attemptId in s.attempts
    ensures var t := Place(s, attemptId, hostId, mode, now);
            && t.Keyed() && t.jobs == s.jobs && t.costs == s.costs && t.attempts.Keys == s.attempts.Keys
            && t.attempts[attemptId].hostId == hostId && t.attempts[attemptId].startMode == mode && t.attempts[attemptId].updatedAt == now
            && t.attempts[attemptId].state == s.attempts[attemptId].state && t.attempts[attemptId].startedAt == s.attempts[attemptId].startedAt
            && (forall k <- s.attempts | k != attemptId :: t.attempts[k] == s.attempts[k])
            && forall k <- s.attempts, later :: Expired(t.attempts[k], later) <==> Expired(s.attempts[k], later)
  {
  }

  /** What a report settles. A final report ends the attempt for good as far as lease recovery is concerned, a starting or
      running one renews the lease for thirty seconds, and one of unspecified state leaves it. The job waits for another
      claim exactly after a failure within its budget, and carries a result when a final report came. */
  lemma ReportSettles(s: Tables, versions: map<string, FunctionVersion>, projects: map<string, Project>, msg: Update, canRetry: bool, now: Time)
    requires msg.attemptId in s.attempts && s.attempts[msg.attemptId].id == msg.attemptId
    requires msg.jobId in s.jobs && s.jobs[msg.jobId].id == msg.jobId && ZERO < now
    ensures var t := ApplyUpdate(s, versions, projects, msg, canRetry, now);
            var a, j, b, i := t.attempts[msg.attemptId], t.jobs[msg.jobId], s.attempts[msg.attemptId], s.jobs[msg.jobId];
            && a.state.Terminal() == (if msg.report.Unspecified? then b.state.Terminal() else msg.report.Terminal())
            && (forall later :: Expired(a, later) <==>
                  if msg.report.Unspecified? then Expired(b, later) else !msg.report.Terminal() && now + LEASE <= later)
            && (j.Claimable() <==>
                  if msg.report.Unspecified? then i.Claimable() else msg.report.Failed? && canRetry && i.attemptCount <= i.maxRetries)
            && (msg.report.Terminal() ==> j.result.Some? && j.result.value.output == msg.output && j.result.value.finishedAt == now)
            && (!msg.report.Terminal() ==> j.result == i.result && (msg.report.Unspecified? || ZERO != a.startedAt))
            && (forall k <- s.attempts :: k != msg.attemptId ==> t.attempts[k] == s.attempts[k])
            && (forall k <- s.jobs :: k != msg.jobId ==> t.jobs[k] == s.jobs[k])
  {
  }

  /** What each report makes of its attempt and its job, row against row. */
  lemma ReportRows(s: Tables, versions: map<string, FunctionVersion>, projects: map<string, Project>, msg: Update, canRetry: bool, now: Time)
    requires msg.attemptId in s.attempts && s.attempts[msg.attemptId].id == msg.attemptId
    requires msg.jobId in s.jobs && s.jobs[msg.jobId].id == msg.jobId
    ensures var t := ApplyUpdate(s, versions, projects, msg, canRetry, now);
            && t.attempts.Keys == s.attempts.Keys && t.jobs.Keys == s.jobs.Keys
            && ReportedRow(s.attempts[msg.attemptId], t.attempts[msg.attemptId], msg, now)
            && ReportedJobRow(s.jobs[msg.jobId], t.jobs[msg.jobId], msg, canRetry, s.attempts[msg.attemptId].startedAt, now)
  {
  }

  /** Starting and running renew the lease and fix the start at the first report; a final report ends the lease at once. */
  ghost predicate ReportedRow(was: Attempt, a: Attempt, msg: Update, now: Time)
  {
    && a.hostId == msg.hostId && a.updatedAt == now
    && a.(hostId := was.hostId, updatedAt := was.updatedAt, state := was.state, error := was.error, startedAt := was.startedAt,
          leaseExpiresAt := was.leaseExpiresAt) == was
    && a.error == (if msg.report.Failed? then msg.errorMessage else was.error)
    && match msg.report
       case Unspecified => a.state == was.state && a.startedAt == was.startedAt && a.leaseExpiresAt == was.leaseExpiresAt
       case Starting => a.state == AttemptState.Starting && Renewed(was, a, now)
       case Running => a.state == AttemptState.Running && Renewed(was, a, now)
       case Succeeded => a.state == AttemptState.Succeeded && a.startedAt == was.startedAt && a.leaseExpiresAt == now
       case Failed => a.state == AttemptState.Failed && a.startedAt == was.startedAt && a.leaseExpiresAt == now
  }

  ghost predicate Renewed(was: Attempt, a: Attempt, now: Time)
  {
    a.leaseExpiresAt == now + 30 * SECOND && a.startedAt == if was.startedAt == ZERO then now else was.startedAt
  }

  /** A success ends the job, a failure sends it back while its budget lasts; both leave the result of this report. */
  ghost predicate ReportedJobRow(was: Job, j: Job, msg: Update, canRetry: bool, startedAt: Time, now: Time)
  {
    && j.updatedAt == now
    && j.(updatedAt := was.updatedAt, state := was.state, error := was.error, result := was.result) == was
    && j.result == (if msg.report.Succeeded? || msg.report.Failed? then
                      Some(JobResult(msg.exitCode, msg.logs, msg.output, msg.hostId, msg.region, if startedAt == ZERO then now else startedAt, now))
                    else was.result)
    && match msg.report
       case Unspecified => j.state == was.state && j.error == was.error
       case Starting => j.state == JobState.Assigned && j.error == was.error
       case Running => j.state == JobState.Running && j.error == was.error
       case Succeeded => j.state == JobState.Succeeded && j.error == ""
       case Failed =>
         && j.error == msg.errorMessage
         && (j.state == Retrying <==> canRetry && was.attemptCount <= was.maxRetries)
         && (j.state == JobState.Failed <==> !(canRetry && was.attemptCount <= was.maxRetries))
  }

  /** The bill of a final report: for this attempt, on the project of the job, of the milliseconds from its start. */
  ghost predicate IsBill(c: CostRecord, a: Attempt, msg: Update, version: FunctionVersion, project: Project, now: Time)
  {
    && c.id == c.attemptId == msg.attemptId && c.jobId == msg.jobId && c.tenantId == project.tenantId && c.projectId == project.id
    && c.hostId == msg.hostId && c.region == msg.region && c.startMode == a.startMode && c.createdAt == now
    && c.dataEgressBytes == |msg.logs| + |msg.output|
    && c.cpuMs == (if a.startedAt == ZERO then 1 else if now < a.startedAt then 0 else AtLeastOneMs(a.startedAt, now))
    && c.memoryMBMs == version.memoryMB * c.cpuMs
    && c.warmInstanceMs == if a.startMode == BlankWarm || a.startMode == FunctionWarm then c.cpuMs else 0
  }

  /** A report is billed exactly when it is final and version and project of its job are known. */
  lemma ReportIsBilled(s: Tables, versions: map<string, FunctionVersion>, projects: map<string, Project>, msg: Update, canRetry: bool, now: Time)
    requires msg.attemptId in s.attempts && s.attempts[msg.attemptId].id == msg.attemptId
    requires msg.jobId in s.jobs && s.jobs[msg.jobId].id == msg.jobId && ZERO < now
    ensures var t, j := ApplyUpdate(s, versions, projects, msg, canRetry, now), s.jobs[msg.jobId];
            if (msg.report.Succeeded? || msg.report.Failed?) && j.versionId in versions && j.projectId in projects then
              && msg.attemptId in t.costs && t.costs == s.costs[msg.attemptId := t.costs[msg.attemptId]]
              && IsBill(t.costs[msg.attemptId], s.attempts[msg.attemptId], msg, versions[j.versionId], projects[j.projectId], now)
            else t.costs == s.costs
  {
  }

  // ---------------------------------------------------------------- cost under redelivery

  lemma RuntimeGrows(startedAt: Time, t: Time, t': Time)
    requires ZERO <= startedAt <= t <= t' && ZERO < t
    ensures RuntimeMs(startedAt, t) >= 1
    ensures startedAt != ZERO ==> RuntimeMs(startedAt, t) <= RuntimeMs(startedAt, t')
    ensures startedAt == ZERO ==> RuntimeMs(startedAt, t) == RuntimeMs(startedAt, t') == 1
  {
  }

  /** Delivering a terminal report again overwrites the one record of its attempt and never lowers the bill;
      for an attempt that reported a start, the bill becomes the time up to the later delivery. */
  lemma RedeliveredReport(
    s: Tables, versions: map<string, FunctionVersion>, projects: map<string, Project>, msg: Update, canRetry: bool, t: Time, t': Time)
    requires msg.report.Terminal() && msg.attemptId in s.attempts && msg.jobId in s.jobs
    requires s.attempts[msg.attemptId].id == msg.attemptId && s.jobs[msg.jobId].id == msg.jobId
    requires s.jobs[msg.jobId].versionId in versions && s.jobs[msg.jobId].projectId in projects
    requires ZERO <= s.attempts[msg.attemptId].startedAt <= t <= t' && ZERO < t
    ensures var once := ApplyUpdate(s, versions, projects, msg, canRetry, t);
            var twice := ApplyUpdate(once, versions, projects, msg, canRetry, t');
            && twice.costs.Keys == once.costs.Keys == s.costs.Keys + {msg.attemptId}
            && (forall k <- s.costs :: k != msg.attemptId ==> twice.costs[k] == s.costs[k])
            && once.costs[msg.attemptId].cpuMs <= twice.costs[msg.attemptId].cpuMs == RuntimeMs(s.attempts[msg.attemptId].startedAt, t')
  {
    RuntimeGrows(s.attempts[msg.attemptId].startedAt, t, t');
  }

  /** Whole milliseconds from the start, but at least one. */
  function AtLeastOneMs(startedAt: Time, t: Time): int
  {
    if t - startedAt < 1_000_000 then 1 else (t - startedAt) / 1_000_000
  }

  /** A final report can be delivered again without changing the bill exactly when the attempt never reported a start, or no
      further whole millisecond has passed since the first delivery. */
  lemma RedeliveryKeepsBillIff(
    s: Tables, versions: map<string, FunctionVersion>, projects: map<string, Project>, msg: Update, canRetry: bool, t: Time, t': Time)
    requires msg.report.Terminal() && msg.attemptId in s.attempts && msg.jobId in s.jobs
    requires s.attempts[msg.attemptId].id == msg.attemptId && s.jobs[msg.jobId].id == msg.jobId
    requires s.jobs[msg.jobId].versionId in versions && s.jobs[msg.jobId].projectId in projects
    requires ZERO <= s.attempts[msg.attemptId].startedAt <= t <= t' && ZERO < t
    ensures var once := ApplyUpdate(s, versions, projects, msg, canRetry, t);
            var twice := ApplyUpdate(once, versions, projects, msg, canRetry, t');
            var startedAt := s.attempts[msg.attemptId].startedAt;
            once.costs[msg.attemptId].cpuMs == twice.costs[msg.attemptId].cpuMs
            <==> startedAt == ZERO || AtLeastOneMs(startedAt, t) == AtLeastOneMs(startedAt, t')
  {
    RedeliveredReport(s, versions, projects, msg, canRetry, t, t');
    RuntimeGrows(s.attempts[msg.attemptId].startedAt, t, t');
  }

  /** It does change: an attempt that started is reported failed twice, two milliseconds apart. */
  lemma LaterRedeliveryRaisesBill() returns (s: Tables, versions: map<string, FunctionVersion>, projects: map<string, Project>, msg: Update)
    ensures msg.report.Terminal()
    ensures var once := ApplyUpdate(s, versions, projects, msg, true, 1 + MILLISECOND);
            var twice := ApplyUpdate(once, versions, projects, msg, true, 1 + 3 * MILLISECOND);
            && msg.attemptId in once.costs && msg.attemptId in twice.costs
            && once.costs[msg.attemptId].cpuMs == 1 && twice.costs[msg.attemptId].cpuMs == 3
  {
    var version := FunctionVersion("v", "p", 128, ["r"], 0, "digest");
    var job := NewJob("j", version, "", 1);
    s := Tables(map["j" := job], map["a" := NewAttempt("a", job, "r", 1).(startedAt := 1)], map[]);
    versions, projects := map["v" := version], map["p" := Project("p", "tenant")];
    msg := Update("a", "j", "h", "r", Report.Failed, 1, "", "", "boom");
    RedeliveredReport(s, versions, projects, msg, true, 1 + MILLISECOND, 1 + MILLISECOND);
    RedeliveredReport(s, versions, projects, msg, true, 1 + MILLISECOND, 1 + 3 * MILLISECOND);
    assert RuntimeMs(1, 1 + MILLISECOND) == 1 && RuntimeMs(1, 1 + 3 * MILLISECOND) == 3;
  }
}
