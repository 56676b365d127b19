/** Where the state, the result and the leases of a job come from, in every run of the control plane.

    The operations are those of `Lifecycle`. What each makes of a job is written down once more as a state diagram that
    looks only at the job, the event and the replies in it. */
module Outcomes {
  import opened Options
  import opened Domain
  import opened Records
  import opened MemoryStore
  import opened Lifecycle
  import Assignments
  import Recovery
  import Scheduler
  import SchedulingPass

  // ---------------------------------------------------------------- the diagram

  /** The report reaches a stored attempt and a stored job. */
  predicate Found(w: World, e: Event)
  {
    e.Receive? && e.msg.attemptId in w.tables.attempts && e.msg.jobId in w.tables.jobs
  }

  predicate Lapsed(a: Attempt, begun: Time)
  {
    a.state in {AttemptState.Assigned, AttemptState.Starting, AttemptState.Running} && a.leaseExpiresAt != ZERO && a.leaseExpiresAt <= begun
  }

  /** The lease of one of the job's live attempts has run out when the sweep begins. */
  ghost predicate Swept(w: World, e: Event, id: string)
  {
    e.Sweep? && exists a <- w.tables.attempts :: w.tables.attempts[a].jobId == id && Lapsed(w.tables.attempts[a], e.begun)
  }

  /** The state of a stored job after the event. */
  ghost function NextState(w: World, e: Event, j: Job): JobState
  {
    var again := if j.attemptCount <= j.maxRetries then Retrying else JobState.Failed;
    match e
    case Enqueue(_, _, _, _) => j.state
    case Assign(_, _, _, _) => j.state
    case Schedule(id, r) =>
      if id != j.id then j.state
      else if j.attemptCount > j.maxRetries then JobState.Failed
      else if SchedulingPass.VerdictOf(r.lookup).Dispatched? then JobState.Assigned
      else Queued
    case RequeueStale(at) => if j.state == Scheduling && j.updatedAt <= at - 10 * SECOND then Queued else j.state
    case Retry(id, _) => if id == j.id then again else j.state
    case Sweep(_, _, _, _) => if Swept(w, e, j.id) then again else j.state
    case Receive(msg, canRetry, _) =>
      if !Found(w, e) || msg.jobId != j.id then j.state
      else match msg.report
           case Unspecified => j.state
           case Starting => JobState.Assigned
           case Running => JobState.Running
           case Succeeded => JobState.Succeeded
           case Failed => if canRetry then again else JobState.Failed
  }

  /** A final report about the job. */
  predicate Final(w: World, e: Event, id: string)
  {
    Found(w, e) && e.msg.jobId == id && (e.msg.report.Succeeded? || e.msg.report.Failed?)
  }

  /** The result a final report leaves. */
  function ReportedResult(w: World, e: Event): JobResult
    requires Found(w, e)
  {
    var startedAt := w.tables.attempts[e.msg.attemptId].startedAt;
    JobResult(e.msg.exitCode, e.msg.logs, e.msg.output, e.msg.hostId, e.msg.region, if startedAt == ZERO then e.at else startedAt, e.at)
  }

  ghost predicate Follows(w: World, e: Event, was: Job, j: Job)
  {
    && j.state == NextState(w, e, was)
    && j.result == if Final(w, e, was.id) then Some(ReportedResult(w, e)) else was.result
  }

  lemma RoundFollows(st: Setting, w: World, e: Event)
    requires Inv(st, w) && e.Schedule? && Enabled(st, w, e)
    ensures e.id in Apply(st, w, e).tables.jobs && Follows(w, e, w.tables.jobs[e.id], Apply(st, w, e).tables.jobs[e.id])
  {
    var r := e.round;
    var job := ClaimedJob(w.tables.jobs[e.id], r.claimAt);
    assert JobOk(st, w, w.tables.jobs[e.id]);
    DispatchEffect(w.tables.PutJob(job), job, r);
    if r.lookup.Ranked? {
      Scheduler.OffersGiveVerdict(w.tables.PutJob(job), job, r.lookup.offers, 0, r.at, "", r.lookup.end);
    }
  }

  lemma ReportFollows(st: Setting, w: World, e: Event)
    requires w.tables.Keyed() && Enabled(st, w, e) && Found(w, e)
    ensures Follows(w, e, w.tables.jobs[e.msg.jobId], Apply(st, w, e).tables.jobs[e.msg.jobId])
  {
    Assignments.ReportRows(w.tables, st.versions, st.projects, e.msg, e.canRetry, e.at);
  }

  lemma OwnsIffSwept(st: Setting, w: World, e: Event, id: string)
    requires w.tables.Keyed() && e.Sweep? && Enabled(st, w, e)
    ensures Recovery.Owns(e.list, 0, id) <==> Swept(w, e, id)
  {
    if Recovery.Owns(e.list, 0, id) {
      var k :| 0 <= k < |e.list| && e.list[k].jobId == id;
      ListedIff(w.tables.attempts, e.begun, e.list, e.list[k]);
      assert w.tables.attempts[e.list[k].id].jobId == id;
    }
    if Swept(w, e, id) {
      var a :| a in w.tables.attempts && w.tables.attempts[a].jobId == id && Lapsed(w.tables.attempts[a], e.begun);
      ListedIff(w.tables.attempts, e.begun, e.list, w.tables.attempts[a]);
    }
  }

  lemma SweepFollows(st: Setting, w: World, e: Event, id: string)
    requires w.tables.Keyed() && e.Sweep? && Enabled(st, w, e) && id in w.tables.jobs
    ensures id in Apply(st, w, e).tables.jobs && Follows(w, e, w.tables.jobs[id], Apply(st, w, e).tables.jobs[id])
  {
    SweepJob(st, w, e, id);
    OwnsIffSwept(st, w, e, id);
  }

  lemma RequeueFollows(st: Setting, w: World, e: Event, id: string)
    requires w.tables.Keyed() && e.RequeueStale? && Enabled(st, w, e) && id in w.tables.jobs
    ensures id in Apply(st, w, e).tables.jobs && Follows(w, e, w.tables.jobs[id], Apply(st, w, e).tables.jobs[id])
  {
    RequeueReturnsStaleClaims(w.tables.jobs, e.at - Scheduler.SCHEDULING_TIMEOUT, e.at);
  }

  /** Every operation takes every job where the diagram says, and only a final report changes a result. */
  lemma JobsFollowDiagram(st: Setting, w: World, e: Event, id: string)
    requires Inv(st, w) && Enabled(st, w, e) && id in w.tables.jobs
    ensures id in Apply(st, w, e).tables.jobs && Follows(w, e, w.tables.jobs[id], Apply(st, w, e).tables.jobs[id])
  {
    if e.Schedule? {
      RoundJobs(st, w, e.id, e.round);
      RoundFollows(st, w, e);
    } else if e.Sweep? {
      SweepFollows(st, w, e, id);
    } else if e.RequeueStale? {
      RequeueFollows(st, w, e, id);
    } else if Found(w, e) {
      ReceiveEffect(st, w, e);
      ReportFollows(st, w, e);
    }
  }

  // ---------------------------------------------------------------- jobs are not given up early

  /** A failure is reported while the budget lasts, and there is nobody to retry. */
  predicate GivesUpEarly(w: World, e: Event)
  {
    Found(w, e) && e.msg.report.Failed? && !e.canRetry && w.tables.jobs[e.msg.jobId].MayRetry()
  }

  /** A failed job was accepted as often as its budget allows. */
  ghost predicate FailedAreSpent(w: World)
  {
    forall id <- w.tables.jobs | w.tables.jobs[id].state == JobState.Failed ::
      w.tables.jobs[id].attemptCount == Count(w, id) == w.tables.jobs[id].maxRetries + 1
  }

  lemma FailedStaysSpent(st: Setting, w: World, e: Event, id: string)
    requires Inv(st, w) && Enabled(st, w, e) && FailedAreSpent(w) && !GivesUpEarly(w, e)
    requires id in w.tables.jobs && id in Apply(st, w, e).tables.jobs && Apply(st, w, e).tables.jobs[id].state == JobState.Failed
    ensures Apply(st, w, e).tables.jobs[id].attemptCount == Apply(st, w, e).tables.jobs[id].maxRetries + 1
  {
    JobsFollowDiagram(st, w, e, id);
    EveryStepAdvances(st, w, e);
    assert JobOk(st, w, w.tables.jobs[id]);
  }

  lemma GivingUpShows(st: Setting, w: World, e: Event)
    requires Inv(st, w) && Enabled(st, w, e) && GivesUpEarly(w, e)
    ensures !FailedAreSpent(Apply(st, w, e))
  {
    var id := e.msg.jobId;
    JobsFollowDiagram(st, w, e, id);
    ReceiveEffect(st, w, e);
    assert Apply(st, w, e).tables.jobs[id].MayRetry();
  }

  /** It does happen: the first failure of a job that may be retried three times, and nobody retries it. */
  lemma EarlyGiveUp() returns (st: Setting, w: World, e: Event)
    ensures Inv(st, w) && Enabled(st, w, e) && FailedAreSpent(w) && !FailedAreSpent(Apply(st, w, e))
  {
    var version := FunctionVersion("v", "p", 128, ["r"], 3, "digest");
    st := Setting(map["v" := version], map[]);
    var job := NewJob("j", version, "", 1).(state := JobState.Running, attemptCount := 1, lastAttemptId := "a");
    var attempt := NewAttempt("a", job, "r", 2);
    w := World(Tables(map["j" := job], map["a" := attempt], map[]), 3, map["j" := 1]);
    e := Receive(Update("a", "j", "h", "r", Report.Failed, 1, "", "", "boom"), false, 4);
    assert JobOk(st, w, job) && AttemptOk(w.clock, attempt);
    GivingUpShows(st, w, e);
  }

  lemma NewJobsAreQueued(st: Setting, w: World, e: Event, id: string)
    requires Inv(st, w) && Enabled(st, w, e) && id !in w.tables.jobs && id in Apply(st, w, e).tables.jobs
    ensures e.Enqueue? && e.id == id
    ensures var j := Apply(st, w, e).tables.jobs[id];
            && j.state == Queued && j.result == None && j.versionId == e.version.id && j.projectId == e.version.projectId
            && j.payload == e.payload && j.maxRetries == e.version.maxRetries && j.createdAt == e.at
  {
    if e.Schedule? {
      RoundJobs(st, w, e.id, e.round);
    } else if e.Sweep? {
      SweepTables(st, w, e);
    } else if Found(w, e) {
      ReceiveEffect(st, w, e);
    }
  }

  lemma SpentIff(st: Setting, w: World, e: Event)
    requires Inv(st, w) && Enabled(st, w, e) && FailedAreSpent(w)
    ensures FailedAreSpent(Apply(st, w, e)) <==> !GivesUpEarly(w, e)
  {
    if GivesUpEarly(w, e) {
      GivingUpShows(st, w, e);
    } else {
      var w' := Apply(st, w, e);
      InvKept(st, w, e);
      forall id <- w'.tables.jobs | w'.tables.jobs[id].state == JobState.Failed
        ensures w'.tables.jobs[id].attemptCount == Count(w', id) == w'.tables.jobs[id].maxRetries + 1
      {
        assert JobOk(st, w', w'.tables.jobs[id]);
        if id in w.tables.jobs {
          FailedStaysSpent(st, w, e, id);
        } else {
          NewJobsAreQueued(st, w, e, id);
        }
      }
    }
  }

  lemma SpentInRun(st: Setting, states: seq<World>, events: seq<Event>, n: nat)
    requires IsRun(st, states, events) && IsInitial(states[0]) && n < |events| && FailedAreSpent(states[n])
    ensures FailedAreSpent(states[n + 1]) <==> !GivesUpEarly(states[n], events[n])
  {
    InvAlways(st, states, events, n);
    SpentIff(st, states[n], events[n]);
  }

  ghost predicate AlwaysSpent(states: seq<World>, n: nat)
    requires n < |states|
  {
    FailedAreSpent(states[n]) && (n > 0 ==> AlwaysSpent(states, n - 1))
  }

  ghost predicate NeverEarly(states: seq<World>, events: seq<Event>, n: nat)
    requires n <= |events| <= |states|
  {
    n > 0 ==> NeverEarly(states, events, n - 1) && !GivesUpEarly(states[n - 1], events[n - 1])
  }

  /** Throughout a run every failed job has used its whole budget, if and only if no failure was reported early to a
      coordinator that cannot retry. */
  lemma {:induction false} FailedAreSpentIff(st: Setting, states: seq<World>, events: seq<Event>, n: nat)
    requires IsRun(st, states, events) && IsInitial(states[0]) && n <= |events|
    ensures AlwaysSpent(states, n) <==> NeverEarly(states, events, n)
  {
    if n > 0 {
      FailedAreSpentIff(st, states, events, n - 1);
      if FailedAreSpent(states[n - 1]) {
        SpentInRun(st, states, events, n - 1);
      }
    }
  }

  // ---------------------------------------------------------------- results

  /** The last of the first `n` events that was a final report about the job. */
  ghost function LastReport(states: seq<World>, events: seq<Event>, n: nat, id: string): (m: Option<nat>)
    requires n <= |events| <= |states|
    ensures m.Some? ==> m.value < n && Final(states[m.value], events[m.value], id)
  {
    if n == 0 then None
    else if Final(states[n - 1], events[n - 1], id) then Some(n - 1)
    else LastReport(states, events, n - 1, id)
  }

  lemma JobInRun(st: Setting, states: seq<World>, events: seq<Event>, n: nat, id: string)
    requires IsRun(st, states, events) && IsInitial(states[0]) && n < |events| && id in states[n].tables.jobs
    ensures id in states[n + 1].tables.jobs && states[n].tables.jobs[id].id == id
    ensures Follows(states[n], events[n], states[n].tables.jobs[id], states[n + 1].tables.jobs[id])
  {
    InvAlways(st, states, events, n);
    JobsFollowDiagram(st, states[n], events[n], id);
  }

  lemma NewJobInRun(st: Setting, states: seq<World>, events: seq<Event>, n: nat, id: string)
    requires IsRun(st, states, events) && IsInitial(states[0]) && n < |events|
    requires id !in states[n].tables.jobs && id in states[n + 1].tables.jobs
    ensures states[n + 1].tables.jobs[id].state == Queued && states[n + 1].tables.jobs[id].result == None
    ensures Requested(events[n], id, states[n + 1].tables.jobs[id])
  {
    InvAlways(st, states, events, n);
    NewJobsAreQueued(st, states[n], events[n], id);
  }

  /** What a job says according to the last final report about it. */
  ghost predicate Reported(states: seq<World>, events: seq<Event>, m: Option<nat>, j: Job)
    requires m.Some? ==> m.value < |events| <= |states| && Found(states[m.value], events[m.value])
  {
    && j.result == (if m.Some? then Some(ReportedResult(states[m.value], events[m.value])) else None)
    && (j.state == JobState.Succeeded ==> m.Some? && events[m.value].msg.report.Succeeded?)
  }

  /** The result of a job is that of the last final report about it, and a job has succeeded only if that report said so. */
  lemma {:induction false} ResultIsLastReport(st: Setting, states: seq<World>, events: seq<Event>, n: nat, id: string)
    requires IsRun(st, states, events) && IsInitial(states[0]) && n <= |events| && id in states[n].tables.jobs
    ensures Reported(states, events, LastReport(states, events, n, id), states[n].tables.jobs[id])
  {
    if n > 0 {
      if id in states[n - 1].tables.jobs {
        ResultIsLastReport(st, states, events, n - 1, id);
        JobInRun(st, states, events, n - 1, id);
      } else {
        NewJobInRun(st, states, events, n - 1, id);
        NoReportBefore(st, states, events, n - 1, id);
      }
    }
  }

  lemma {:induction false} NoReportBefore(st: Setting, states: seq<World>, events: seq<Event>, n: nat, id: string)
    requires IsRun(st, states, events) && IsInitial(states[0]) && n <= |events| && id !in states[n].tables.jobs
    ensures LastReport(states, events, n, id).None?
  {
    if n > 0 {
      if id in states[n - 1].tables.jobs {
        JobInRun(st, states, events, n - 1, id);
      }
      NoReportBefore(st, states, events, n - 1, id);
    }
  }

  ghost predicate Requested(e: Event, id: string, j: Job)
  {
    && e.Enqueue? && e.id == id && j.versionId == e.version.id && j.projectId == e.version.projectId
    && j.payload == e.payload && j.maxRetries == e.version.maxRetries && j.createdAt == e.at
  }

  lemma RequestInRun(st: Setting, states: seq<World>, events: seq<Event>, n: nat, id: string, e: Event)
    requires IsRun(st, states, events) && IsInitial(states[0]) && n < |events| && id in states[n].tables.jobs
    requires Requested(e, id, states[n].tables.jobs[id]) && id in states[n + 1].tables.jobs
    ensures Requested(e, id, states[n + 1].tables.jobs[id])
  {
    InvAlways(st, states, events, n);
    EveryStepAdvances(st, states[n], events[n]);
  }

  /** Whatever happens to a job, it keeps the payload, version, project and budget it was enqueued with. */
  lemma {:induction false} JobsKeepTheirRequest(st: Setting, states: seq<World>, events: seq<Event>, n: nat, id: string) returns (m: nat)
    requires IsRun(st, states, events) && IsInitial(states[0]) && n <= |events| && id in states[n].tables.jobs
    ensures m < n && Requested(events[m], id, states[n].tables.jobs[id])
  {
    if id in states[n - 1].tables.jobs {
      m := JobsKeepTheirRequest(st, states, events, n - 1, id);
      RequestInRun(st, states, events, n - 1, id, events[m]);
    } else {
      NewJobInRun(st, states, events, n - 1, id);
      m := n - 1;
    }
  }
}
