/** Runs of the control plane: every service operation is one atomic step under a strictly advancing clock. */
module Lifecycle {
  import opened Options
  import opened Domain
  import opened Records
  import opened MemoryStore
  import Scheduler
  import Assignments
  import Recovery

  /** What a run only reads. */
  datatype Setting = Setting(versions: map<string, FunctionVersion>, projects: map<string, Project>)

  /** `accepted` counts, for each job, the assignments a dispatcher has accepted. */
  datatype World = World(tables: Tables, clock: Time, accepted: map<string, nat>)

  datatype Event =
    | Enqueue(id: string, version: FunctionVersion, payload: string, at: Time)
    | Schedule(id: string, round: Scheduler.Round)
    | RequeueStale(at: Time)
    | Assign(attemptId: string, hostId: string, mode: StartMode, at: Time)
    | Receive(msg: Update, canRetry: bool, at: Time)
    | Retry(id: string, at: Time)
    | Sweep(begun: Time, list: seq<Attempt>, times: nat -> Time, end: Time)

  /** The clock once the operation is over. */
  ghost function EndOf(e: Event): Time
  {
    match e
    case Schedule(_, r) => if r.lookup.Ranked? then r.lookup.end else r.at
    case Sweep(_, _, _, end) => end
    case _ => e.at
  }

  /** The readings of a scheduling round come one after the other. */
  ghost predicate Timely(r: Scheduler.Round)
  {
    && r.claimAt <= r.at
    && (r.lookup.Ranked? ==>
          && r.at <= r.lookup.end
          && forall k :: 0 <= k < |r.lookup.offers| ==> r.at <= r.lookup.offers[k].reply.at <= r.lookup.end)
  }

  ghost predicate Enabled(st: Setting, w: World, e: Event)
  {
    match e
    case Enqueue(id, version, _, at) =>
      w.clock < at && id !in w.tables.jobs && version.id in st.versions && st.versions[version.id] == version && 0 <= version.maxRetries
    case Schedule(id, r) =>
      && w.clock < r.claimAt && Timely(r) && IsNext(w.tables.jobs, id)
      && (r.lookup.Ranked? ==> Scheduler.FreshIds(w.tables, r.lookup.offers, 0))
    case RequeueStale(at) => w.clock < at
    case Assign(_, _, _, at) => w.clock < at
    case Receive(_, _, at) => w.clock < at
    case Retry(_, at) => w.clock < at
    case Sweep(begun, list, times, end) =>
      && w.clock < begun <= end && ListsExpired(w.tables.attempts, begun, list)
      && forall k: nat :: k < |list| ==> begun <= times(k) <= end
  }

  /** The round of a Schedule step, and whether its job was accepted. */
  ghost function RoundOf(st: Setting, w: World, id: string, r: Scheduler.Round): (Tables, bool)
    requires id in w.tables.jobs
  {
    Scheduler.ScheduleClaimed(w.tables, id, w.tables.jobs[id].versionId in st.versions, r)
  }

  ghost predicate WasAccepted(st: Setting, w: World, id: string, r: Scheduler.Round)
    requires id in w.tables.jobs
  {
    var job := ClaimedJob(w.tables.jobs[id], r.claimAt);
    && job.MayRetry() && job.versionId in st.versions
    && Scheduler.DispatchAttempt(w.tables.PutJob(job), job, r.at, r.lookup).1.Dispatched?
  }

  ghost function Count(w: World, id: string): nat
  {
    if id in w.accepted then w.accepted[id] else 0
  }

  ghost function Apply(st: Setting, w: World, e: Event): World
    requires Enabled(st, w, e)
  {
    var s := w.tables;
    match e
    case Enqueue(id, version, payload, at) =>
      World(s.PutJob(NewJob(id, version, payload, at)), at, w.accepted[id := 0])
    case Schedule(id, r) =>
      World(RoundOf(st, w, id, r).0, EndOf(e), w.accepted[id := Count(w, id) + if WasAccepted(st, w, id, r) then 1 else 0])
    case RequeueStale(at) =>
      World(s.(jobs := Requeue(s.jobs, at - Scheduler.SCHEDULING_TIMEOUT, at)), at, w.accepted)
    case Assign(attemptId, hostId, mode, at) =>
      World(Assignments.Place(s, attemptId, hostId, mode, at), at, w.accepted)
    case Receive(msg, canRetry, at) =>
      World(Assignments.ApplyUpdate(s, st.versions, st.projects, msg, canRetry, at), at, w.accepted)
    case Retry(id, at) =>
      World(Assignments.RetryOrFail(s, id, at), at, w.accepted)
    case Sweep(_, list, times, end) =>
      var r := Recovery.RecoverFrom(s, list, 0, times);
      World(if r.Some? then r.value else s, end, w.accepted)
  }

  // ---------------------------------------------------------------- what every step keeps

  /** The record counts the accepted assignments, and they stay within the retry budget. */
  ghost predicate JobOk(st: Setting, w: World, j: Job)
  {
    && 0 <= j.maxRetries && j.attemptCount == Count(w, j.id) <= j.maxRetries + 1
    && j.updatedAt <= w.clock
    && j.versionId in st.versions
  }

  /** The lease is set and ends at most one lease time after the last write. */
  ghost predicate AttemptOk(clock: Time, a: Attempt)
  {
    && ZERO < a.leaseExpiresAt <= a.updatedAt + LEASE
    && ZERO <= a.startedAt <= clock && a.updatedAt <= clock
  }

  /** A bill of at least a millisecond, for the memory of the job's version, warm time only for warm starts. */
  ghost predicate CostOk(st: Setting, s: Tables, c: CostRecord)
  {
    && c.attemptId == c.id && c.id in s.attempts && c.jobId in s.jobs && s.jobs[c.jobId].versionId in st.versions
    && c.cpuMs >= 1
    && c.memoryMBMs == st.versions[s.jobs[c.jobId].versionId].memoryMB * c.cpuMs
    && c.warmInstanceMs == (if c.startMode.BlankWarm? || c.startMode.FunctionWarm? then c.cpuMs else 0)
  }

  ghost predicate Inv(st: Setting, w: World)
  {
    && w.tables.Keyed() && ZERO <= w.clock
    && (forall id <- w.tables.jobs :: JobOk(st, w, w.tables.jobs[id]))
    && AttemptsOk(w)
    && CostsOk(st, w.tables)
  }

  /** Rows of one step: `j'` is `j`, or a later version of it with the same identity and count. */
  ghost predicate Rewrites(j: Job, j': Job, from: Time, to: Time)
  {
    && j'.id == j.id && j'.maxRetries == j.maxRetries && j'.versionId == j.versionId && j'.createdAt == j.createdAt
    && j'.projectId == j.projectId && j'.payload == j.payload
    && from < j'.updatedAt <= to
  }

  /** The count on the record and the number of accepted assignments rise together, and only within the budget. */
  ghost predicate CountsAlike(w: World, w': World, j: Job, j': Job)
  {
    || (j'.attemptCount == j.attemptCount && Count(w', j.id) == Count(w, j.id))
    || (j.MayRetry() && j'.attemptCount == j.attemptCount + 1 && Count(w', j.id) == Count(w, j.id) + 1)
  }

  /** Every writer stamps the current time on what it writes and leaves the other jobs alone. */
  ghost predicate Advances(st: Setting, w: World, w': World)
  {
    && w.clock < w'.clock
    && w.tables.jobs.Keys <= w'.tables.jobs.Keys
    && (forall id <- w.tables.jobs ::
          var j, j' := w.tables.jobs[id], w'.tables.jobs[id];
          (j' == j || Rewrites(j, j', w.clock, w'.clock)) && CountsAlike(w, w', j, j'))
    && (forall id <- w'.tables.jobs :: id !in w.tables.jobs ==> IsNewJob(st, w, w', w'.tables.jobs[id]))
  }

  ghost predicate IsNewJob(st: Setting, w: World, w': World, j: Job)
  {
    && w.clock < j.updatedAt <= w'.clock
    && j.attemptCount == 0 == Count(w', j.id) && 0 <= j.maxRetries && j.versionId in st.versions
  }

  lemma {:induction false} OfferStamps(s: Tables, job: Job, offers: seq<Scheduler.Offer>, i: nat, now: Time, errors: string, end: Time)
    requires ZERO < now <= end
    requires forall k :: i <= k < |offers| ==> now <= offers[k].reply.at <= end
    ensures var t := Scheduler.OfferFrom(s, job, offers, i, now, errors, end).0;
            && job.id in t.jobs && now <= t.jobs[job.id].updatedAt <= end
            && s.attempts.Keys <= t.attempts.Keys
            && forall a <- t.attempts :: (a in s.attempts && t.attempts[a] == s.attempts[a]) || AttemptOk(end, t.attempts[a])
    decreases |offers| - i
  {
    if i < |offers| && offers[i].reply.Refused? {
      var o := offers[i];
      var a := NewAttempt(o.attemptId, job, o.region, now);
      var j := OfferedJob(job, o.region, o.attemptId, now);
      var s1 := s.PutAttempt(a).PutJob(j).PutAttempt(FailedAttempt(a, o.reply.error, o.reply.at));
      OfferStamps(s1, j, offers, i + 1, now, Scheduler.Join(errors, o.region, o.reply.error), end);
    }
  }

  lemma DispatchEffect(s: Tables, job: Job, r: Scheduler.Round)
    requires ZERO < r.at && Timely(r)
    ensures var (t, v) := Scheduler.DispatchAttempt(s, job, r.at, r.lookup);
            && job.id in t.jobs && t.jobs == s.jobs[job.id := t.jobs[job.id]] && t.costs == s.costs
            && r.at <= t.jobs[job.id].updatedAt <= (if r.lookup.Ranked? then r.lookup.end else r.at)
            && Scheduler.DispatchedJob(job, t.jobs[job.id], v)
  {
    if r.lookup.Ranked? {
      OfferStamps(s, job, r.lookup.offers, 0, r.at, "", r.lookup.end);
      Scheduler.OffersTouchOneJob(s, job, r.lookup.offers, 0, r.at, "", r.lookup.end);
    }
  }

  /** The job table after a scheduling round. */
  lemma RoundJobs(st: Setting, w: World, id: string, r: Scheduler.Round)
    requires id in w.tables.jobs && w.tables.jobs[id].id == id
    requires ZERO <= w.clock < r.claimAt && Timely(r)
    ensures var t, e, j := RoundOf(st, w, id, r).0, EndOf(Schedule(id, r)), w.tables.jobs[id];
            && id in t.jobs && t.jobs == w.tables.jobs[id := t.jobs[id]] && t.costs == w.tables.costs
            && Rewrites(j, t.jobs[id], w.clock, e)
            && t.jobs[id].attemptCount == j.attemptCount + (if WasAccepted(st, w, id, r) then 1 else 0)
            && (WasAccepted(st, w, id, r) ==> j.MayRetry())
  {
    var job := ClaimedJob(w.tables.jobs[id], r.claimAt);
    DispatchEffect(w.tables.PutJob(job), job, r);
  }

  /** A scheduling round keeps rows under their ids, and keeps every attempt. */
  lemma RoundKeyed(st: Setting, w: World, id: string, r: Scheduler.Round)
    requires w.tables.Keyed() && id in w.tables.jobs && (r.lookup.Ranked? ==> Scheduler.FreshIds(w.tables, r.lookup.offers, 0))
    ensures RoundOf(st, w, id, r).0.Keyed() && w.tables.attempts.Keys <= RoundOf(st, w, id, r).0.attempts.Keys
  {
    if r.lookup.Ranked? {
      var job := ClaimedJob(w.tables.jobs[id], r.claimAt);
      Scheduler.DispatchAccounting(w.tables.PutJob(job), job, r.lookup.offers, 0, r.at, "", r.lookup.end);
      var (t, v) := Scheduler.OfferFrom(w.tables.PutJob(job), job, r.lookup.offers, 0, r.at, "", r.lookup.end);
      forall a <- t.attempts
        ensures t.attempts[a].id == a && t.attempts[a].jobId in t.jobs
      {
        if a !in w.tables.attempts {
          assert Scheduler.OneLive(t, job.id, v, a);
        }
      }
    }
  }

  /** The attempts a scheduling round writes have fresh leases. */
  lemma RoundAttempts(st: Setting, w: World, id: string, r: Scheduler.Round, a: string)
    requires id in w.tables.jobs && ZERO < r.at && Timely(r) && a in RoundOf(st, w, id, r).0.attempts
    ensures var t, e := RoundOf(st, w, id, r).0, EndOf(Schedule(id, r));
            (a in w.tables.attempts && t.attempts[a] == w.tables.attempts[a]) || AttemptOk(e, t.attempts[a])
  {
    if r.lookup.Ranked? {
      var job := ClaimedJob(w.tables.jobs[id], r.claimAt);
      OfferStamps(w.tables.PutJob(job), job, r.lookup.offers, 0, r.at, "", r.lookup.end);
    }
  }

  lemma RoundKeepsAttempts(st: Setting, w: World, id: string, r: Scheduler.Round)
    requires Enabled(st, w, Schedule(id, r)) && ZERO <= w.clock && AttemptsOk(w)
    ensures AttemptsOk(Apply(st, w, Schedule(id, r)))
  {
    var w' := Apply(st, w, Schedule(id, r));
    forall a <- w'.tables.attempts
      ensures AttemptOk(w'.clock, w'.tables.attempts[a])
    {
      RoundAttempts(st, w, id, r, a);
    }
  }

  lemma ListedArePending(s: Tables, begun: Time, list: seq<Attempt>, times: nat -> Time)
    requires ListsExpired(s.attempts, begun, list)
    requires forall k: nat :: k < |list| ==> begun <= times(k)
    ensures Recovery.Pending(s, list, 0, times)
  {
  }

  /** The job table after a recovery pass. */
  lemma SweepJob(st: Setting, w: World, e: Event, id: string)
    requires w.tables.Keyed() && e.Sweep? && Enabled(st, w, e) && id in w.tables.jobs
    ensures var t, j := Apply(st, w, e).tables, w.tables.jobs[id];
            && id in t.jobs
            && if Recovery.Owns(e.list, 0, id) then Recovery.SweptJob(j, t.jobs[id]) && e.begun <= t.jobs[id].updatedAt <= e.end
               else t.jobs[id] == j
  {
    ListedArePending(w.tables, e.begun, e.list, e.times);
    Recovery.SweptJobs(w.tables, e.list, 0, e.times, id, e.begun, e.end);
  }

  /** The attempt table after a recovery pass. */
  lemma SweepAttempt(st: Setting, w: World, e: Event, id: string)
    requires w.tables.Keyed() && e.Sweep? && Enabled(st, w, e) && id in w.tables.attempts
    ensures var t, a := Apply(st, w, e).tables, w.tables.attempts[id];
            && id in t.attempts
            && (!Expired(a, e.begun) ==> t.attempts[id] == a)
            && (Expired(a, e.begun) ==>
                  exists at :: e.begun <= at <= e.end && Recovery.SweptAttempt(a, t.attempts[id], at))
  {
    ListedArePending(w.tables, e.begun, e.list, e.times);
    Recovery.SweptAttempts(w.tables, e.list, 0, e.times, id);
    if Expired(w.tables.attempts[id], e.begun) {
      var k :| 0 <= k < |e.list| && e.list[k].id == id;
      assert e.begun <= e.times(k) <= e.end;
    }
  }

  lemma SweepTables(st: Setting, w: World, e: Event)
    requires w.tables.Keyed() && e.Sweep? && Enabled(st, w, e)
    ensures var t := Apply(st, w, e).tables;
            t.Keyed() && t.costs == w.tables.costs && t.jobs.Keys == w.tables.jobs.Keys && t.attempts.Keys == w.tables.attempts.Keys
  {
    ListedArePending(w.tables, e.begun, e.list, e.times);
    Recovery.SweepSucceeds(w.tables, e.list, 0, e.times);
  }

  lemma OneJobAdvances(st: Setting, w: World, w': World, j: Job)
    requires KeyedJobs(w.tables.jobs) && w.clock < w'.clock && w'.tables.jobs == w.tables.jobs[j.id := j]
    requires forall id <- w.tables.jobs :: id != j.id ==> Count(w', id) == Count(w, id)
    requires if j.id in w.tables.jobs then
               Rewrites(w.tables.jobs[j.id], j, w.clock, w'.clock) && CountsAlike(w, w', w.tables.jobs[j.id], j)
             else IsNewJob(st, w, w', j)
    ensures Advances(st, w, w')
  {
  }

  /** Every operation stamps what it writes with a time after all earlier operations, and counts what it accepts. */
  lemma EveryStepAdvances(st: Setting, w: World, e: Event)
    requires w.tables.Keyed() && Enabled(st, w, e) && ZERO <= w.clock
    ensures Advances(st, w, Apply(st, w, e))
  {
    var w' := Apply(st, w, e);
    match e
    case Enqueue(id, version, payload, at) =>
      OneJobAdvances(st, w, w', NewJob(id, version, payload, at));
    case Schedule(_, _) => ScheduleAdvances(st, w, e);
    case RequeueStale(_) => RequeueAdvances(st, w, e);
    case Assign(_, _, _, _) =>
    case Receive(_, _, _) => ReceiveAdvances(st, w, e);
    case Retry(_, _) => RetryAdvances(st, w, e);
    case Sweep(_, _, _, _) => SweepAdvances(st, w, e);
  }

  lemma ScheduleAdvances(st: Setting, w: World, e: Event)
    requires KeyedJobs(w.tables.jobs) && e.Schedule? && Enabled(st, w, e) && ZERO <= w.clock
    ensures Advances(st, w, Apply(st, w, e))
  {
    RoundJobs(st, w, e.id, e.round);
    OneJobAdvances(st, w, Apply(st, w, e), Apply(st, w, e).tables.jobs[e.id]);
  }

  lemma RetryAdvances(st: Setting, w: World, e: Event)
    requires KeyedJobs(w.tables.jobs) && e.Retry? && Enabled(st, w, e)
    ensures Advances(st, w, Apply(st, w, e))
  {
    if e.id in w.tables.jobs {
      OneJobAdvances(st, w, Apply(st, w, e), Apply(st, w, e).tables.jobs[e.id]);
    }
  }

  lemma RequeueAdvances(st: Setting, w: World, e: Event)
    requires e.RequeueStale? && Enabled(st, w, e)
    ensures Advances(st, w, Apply(st, w, e))
  {
  }

  /** The rows after a report that finds its attempt and its job. */
  lemma ReceiveEffect(st: Setting, w: World, e: Event)
    requires e.Receive? && Enabled(st, w, e)
    requires e.msg.attemptId in w.tables.attempts && e.msg.jobId in w.tables.jobs
    requires w.tables.attempts[e.msg.attemptId].id == e.msg.attemptId && w.tables.jobs[e.msg.jobId].id == e.msg.jobId
    ensures var t := Apply(st, w, e).tables;
            var a := ReportedAttempt(w.tables.attempts[e.msg.attemptId], e.msg, e.at);
            var j := ReportedJob(w.tables.jobs[e.msg.jobId], e.msg, e.canRetry, a.startedAt, e.at);
            && t.attempts == w.tables.attempts[e.msg.attemptId := a] && t.jobs == w.tables.jobs[e.msg.jobId := j]
            && Rewrites(w.tables.jobs[e.msg.jobId], j, w.clock, e.at) && j.attemptCount == w.tables.jobs[e.msg.jobId].attemptCount
            && (t.costs != w.tables.costs ==>
                  && j.versionId in st.versions && j.projectId in st.projects
                  && var c := Assignments.CostOf(a, j, ResultOf(e.msg, a.startedAt, e.at), st.versions[j.versionId], st.projects[j.projectId], e.at);
                     t.costs == w.tables.costs[e.msg.attemptId := c])
  {
  }

  lemma ReceiveAdvances(st: Setting, w: World, e: Event)
    requires w.tables.Keyed() && e.Receive? && Enabled(st, w, e)
    ensures Advances(st, w, Apply(st, w, e))
  {
    if e.msg.attemptId in w.tables.attempts && e.msg.jobId in w.tables.jobs {
      ReceiveEffect(st, w, e);
      OneJobAdvances(st, w, Apply(st, w, e), Apply(st, w, e).tables.jobs[e.msg.jobId]);
    }
  }

  lemma SweepAdvances(st: Setting, w: World, e: Event)
    requires w.tables.Keyed() && e.Sweep? && Enabled(st, w, e) && ZERO <= w.clock
    ensures Advances(st, w, Apply(st, w, e))
  {
    SweepTables(st, w, e);
    var w' := Apply(st, w, e);
    forall id | id in w.tables.jobs
      ensures var j, j' := w.tables.jobs[id], w'.tables.jobs[id];
              (j' == j || Rewrites(j, j', w.clock, w'.clock)) && CountsAlike(w, w', j, j')
    {
      SweepJob(st, w, e, id);
    }
  }

  lemma KeyedKept(st: Setting, w: World, e: Event)
    requires w.tables.Keyed() && Enabled(st, w, e) && ZERO <= w.clock
    ensures Apply(st, w, e).tables.Keyed() && w.tables.attempts.Keys <= Apply(st, w, e).tables.attempts.Keys
  {
    match e
    case Schedule(id, r) => RoundKeyed(st, w, id, r);
    case Sweep(_, _, _, _) => SweepTables(st, w, e);
    case _ =>
  }

  ghost predicate AttemptsOk(w: World)
  {
    forall id <- w.tables.attempts :: AttemptOk(w.clock, w.tables.attempts[id])
  }

  lemma AttemptsKept(st: Setting, w: World, e: Event)
    requires w.tables.Keyed() && Enabled(st, w, e) && ZERO <= w.clock && AttemptsOk(w)
    ensures AttemptsOk(Apply(st, w, e))
  {
    match e
    case Schedule(id, r) => RoundKeepsAttempts(st, w, id, r);
    case Sweep(_, _, _, _) => SweepKeepsAttempts(st, w, e);
    case Receive(msg, _, _) =>
      if msg.attemptId in w.tables.attempts && msg.jobId in w.tables.jobs {
        ReceiveKeepsAttempts(st, w, e);
      }
    case _ =>
  }

  lemma SweepKeepsAttempts(st: Setting, w: World, e: Event)
    requires w.tables.Keyed() && e.Sweep? && Enabled(st, w, e) && ZERO <= w.clock && AttemptsOk(w)
    ensures AttemptsOk(Apply(st, w, e))
  {
    SweepTables(st, w, e);
    forall id | id in w.tables.attempts
      ensures AttemptOk(e.end, Apply(st, w, e).tables.attempts[id])
    {
      SweepAttempt(st, w, e, id);
    }
  }

  lemma ReceiveKeepsAttempts(st: Setting, w: World, e: Event)
    requires w.tables.Keyed() && e.Receive? && Enabled(st, w, e) && ZERO <= w.clock && AttemptsOk(w)
    requires e.msg.attemptId in w.tables.attempts && e.msg.jobId in w.tables.jobs
    ensures AttemptsOk(Apply(st, w, e))
  {
    ReceiveEffect(st, w, e);
    assert AttemptOk(e.at, ReportedAttempt(w.tables.attempts[e.msg.attemptId], e.msg, e.at));
  }

  ghost predicate CostsOk(st: Setting, s: Tables)
  {
    forall id <- s.costs :: s.costs[id].id == id && CostOk(st, s, s.costs[id])
  }

  /** Old bills stay sound: jobs and attempts are never removed and a job keeps its version. */
  lemma OldCostsKept(st: Setting, w: World, e: Event, id: string)
    requires w.tables.Keyed() && Enabled(st, w, e) && ZERO <= w.clock && CostsOk(st, w.tables) && id in w.tables.costs
    ensures CostOk(st, Apply(st, w, e).tables, w.tables.costs[id])
  {
    EveryStepAdvances(st, w, e);
    KeyedKept(st, w, e);
    assert CostOk(st, w.tables, w.tables.costs[id]);
  }

  lemma NewCostOk(st: Setting, w: World, e: Event)
    requires w.tables.Keyed() && e.Receive? && Enabled(st, w, e) && ZERO <= w.clock && AttemptsOk(w)
    requires e.msg.attemptId in w.tables.attempts && e.msg.jobId in w.tables.jobs
    ensures var t := Apply(st, w, e).tables;
            t.costs == w.tables.costs ||
            exists c :: t.costs == w.tables.costs[e.msg.attemptId := c] && c.id == e.msg.attemptId && CostOk(st, t, c)
  {
    ReceiveEffect(st, w, e);
    Assignments.RuntimeGrows(w.tables.attempts[e.msg.attemptId].startedAt, e.at, e.at);
    var t := Apply(st, w, e).tables;
    if t.costs != w.tables.costs {
      var a := t.attempts[e.msg.attemptId];
      var j := t.jobs[e.msg.jobId];
      var c := Assignments.CostOf(a, j, ResultOf(e.msg, a.startedAt, e.at), st.versions[j.versionId], st.projects[j.projectId], e.at);
      assert CostOk(st, t, c);
    }
  }

  lemma CostsKept(st: Setting, w: World, e: Event)
    requires w.tables.Keyed() && Enabled(st, w, e) && ZERO <= w.clock && AttemptsOk(w) && CostsOk(st, w.tables)
    ensures CostsOk(st, Apply(st, w, e).tables)
  {
    forall id | id in w.tables.costs ensures CostOk(st, Apply(st, w, e).tables, w.tables.costs[id]) {
      OldCostsKept(st, w, e, id);
    }
    match e
    case Schedule(id, r) => RoundJobs(st, w, id, r);
    case Sweep(_, _, _, _) => SweepTables(st, w, e);
    case Receive(msg, _, _) =>
      if msg.attemptId in w.tables.attempts && msg.jobId in w.tables.jobs {
        NewCostOk(st, w, e);
      }
    case _ =>
  }

  lemma InvKept(st: Setting, w: World, e: Event)
    requires Inv(st, w) && Enabled(st, w, e)
    ensures Inv(st, Apply(st, w, e))
  {
    EveryStepAdvances(st, w, e);
    KeyedKept(st, w, e);
    AttemptsKept(st, w, e);
    CostsKept(st, w, e);
  }

  // ---------------------------------------------------------------- runs

  ghost predicate IsRun(st: Setting, states: seq<World>, events: seq<Event>)
  {
    && |states| == |events| + 1
    && forall i :: 0 <= i < |events| ==> Enabled(st, states[i], events[i]) && states[i + 1] == Apply(st, states[i], events[i])
  }

  ghost predicate IsInitial(w: World)
  {
    w.tables == Tables(map[], map[], map[]) && ZERO <= w.clock
  }

  /** Every reachable world: counts equal accepted assignments and stay within budget, leases are fresh, bills are sound. */
  lemma {:induction false} InvAlways(st: Setting, states: seq<World>, events: seq<Event>, i: nat)
    requires IsRun(st, states, events) && Inv(st, states[0]) && i < |states|
    ensures Inv(st, states[i])
  {
    if i > 0 {
      InvAlways(st, states, events, i - 1);
      InvKept(st, states[i - 1], events[i - 1]);
    }
  }

  /** With atomic operations no job is ever accepted more often than its budget allows. */
  lemma AcceptedWithinBudget(st: Setting, states: seq<World>, events: seq<Event>, i: nat, id: string)
    requires IsRun(st, states, events) && IsInitial(states[0]) && i < |states| && id in states[i].tables.jobs
    ensures Count(states[i], id) == states[i].tables.jobs[id].attemptCount <= states[i].tables.jobs[id].maxRetries + 1
  {
    InvAlways(st, states, events, i);
  }

  /** After a recovery pass begun at `t` every attempt still live was written later than `t` minus the lease time. */
  lemma LeasesAreFresh(st: Setting, states: seq<World>, events: seq<Event>, i: nat, id: string)
    requires IsRun(st, states, events) && IsInitial(states[0]) && i < |events| && events[i].Sweep?
    requires id in states[i + 1].tables.attempts && !states[i + 1].tables.attempts[id].state.Terminal()
    ensures var a := states[i + 1].tables.attempts[id];
            a.updatedAt > events[i].begun - LEASE && a.leaseExpiresAt > events[i].begun
  {
    InvAlways(st, states, events, i);
    SweepTables(st, states[i], events[i]);
    SweepAttempt(st, states[i], events[i], id);
  }

  /** However often reports are delivered: one bill per attempt, and every bill sound. */
  lemma BillsAreSound(st: Setting, states: seq<World>, events: seq<Event>, i: nat, a: string, b: string)
    requires IsRun(st, states, events) && IsInitial(states[0]) && i < |states|
    requires a in states[i].tables.costs && b in states[i].tables.costs
    ensures CostOk(st, states[i].tables, states[i].tables.costs[a])
    ensures states[i].tables.costs[a].attemptId == states[i].tables.costs[b].attemptId ==> a == b
  {
    InvAlways(st, states, events, i);
  }

  // ---------------------------------------------------------------- bounded overtaking

  /** The claimable job `j` keeps the same record throughout the run. */
  ghost predicate Waits(states: seq<World>, j: string)
  {
    && |states| > 0 && j in states[0].tables.jobs && states[0].tables.jobs[j].Claimable()
    && forall i :: 0 <= i < |states| ==> j in states[i].tables.jobs && states[i].tables.jobs[j] == states[0].tables.jobs[j]
  }

  /** Once a job has been written after the run began, it stays behind every record older than the run. */
  lemma {:induction false} StaysBehind(st: Setting, states: seq<World>, events: seq<Event>, i: nat, n: nat, k: string)
    requires IsRun(st, states, events) && Inv(st, states[0]) && i <= n < |states|
    requires k in states[i].tables.jobs && states[i].tables.jobs[k].updatedAt > states[0].clock
    ensures k in states[n].tables.jobs && states[n].tables.jobs[k].updatedAt > states[0].clock
    ensures states[0].clock <= states[n].clock
    decreases n
  {
    if n > 0 {
      InvAlways(st, states, events, n - 1);
      EveryStepAdvances(st, states[n - 1], events[n - 1]);
      if i < n {
        StaysBehind(st, states, events, i, n - 1, k);
      } else {
        ClockAdvances(st, states, events, n);
      }
    }
  }

  lemma {:induction false} ClockAdvances(st: Setting, states: seq<World>, events: seq<Event>, n: nat)
    requires IsRun(st, states, events) && Inv(st, states[0]) && n < |states|
    ensures states[0].clock <= states[n].clock
    ensures forall k <- states[n].tables.jobs :: k !in states[0].tables.jobs ==> states[n].tables.jobs[k].updatedAt > states[0].clock
  {
    if n > 0 {
      ClockAdvances(st, states, events, n - 1);
      InvAlways(st, states, events, n - 1);
      EveryStepAdvances(st, states[n - 1], events[n - 1]);
    }
  }

  /** While `j` waits, a claim takes a job that was there from the start and has not been written since. */
  lemma ClaimsAreOld(st: Setting, states: seq<World>, events: seq<Event>, j: string, n: nat)
    requires IsRun(st, states, events) && Inv(st, states[0]) && Waits(states, j)
    requires n < |events| && events[n].Schedule?
    ensures var k := events[n].id;
            && k != j && k in states[0].tables.jobs
            && k in states[n].tables.jobs && states[n].tables.jobs[k].updatedAt <= states[0].clock
            && k in states[n + 1].tables.jobs && states[n + 1].tables.jobs[k].updatedAt > states[0].clock
  {
    var k := events[n].id;
    InvAlways(st, states, events, n);
    ClockAdvances(st, states, events, n);
    RoundJobs(st, states[n], k, events[n].round);
    assert states[0].tables.jobs[j].updatedAt <= states[0].clock;
    assert states[n].tables.jobs[j].Claimable();
    assert states[n + 1].tables.jobs[j].updatedAt <= states[n].clock;
  }

  /** Bounded overtaking: while `j` waits no job is claimed twice. */
  lemma ClaimedAtMostOnce(st: Setting, states: seq<World>, events: seq<Event>, j: string, m: nat, n: nat)
    requires IsRun(st, states, events) && Inv(st, states[0]) && Waits(states, j)
    requires m < n < |events| && events[m].Schedule? && events[n].Schedule?
    ensures events[m].id != events[n].id
  {
    ClaimsAreOld(st, states, events, j, m);
    ClaimsAreOld(st, states, events, j, n);
    StaysBehind(st, states, events, m + 1, n, events[m].id);
  }

  ghost function Claims(events: seq<Event>, n: nat): nat
    requires n <= |events|
  {
    if n == 0 then 0 else Claims(events, n - 1) + if events[n - 1].Schedule? then 1 else 0
  }

  ghost function ClaimedIds(events: seq<Event>, n: nat): set<string>
    requires n <= |events|
  {
    if n == 0 then {} else ClaimedIds(events, n - 1) + if events[n - 1].Schedule? then {events[n - 1].id} else {}
  }

  lemma {:induction false} ClaimedSomewhere(events: seq<Event>, n: nat, id: string) returns (m: nat)
    requires n <= |events| && id in ClaimedIds(events, n)
    ensures m < n && events[m].Schedule? && events[m].id == id
  {
    if events[n - 1].Schedule? && events[n - 1].id == id {
      m := n - 1;
    } else {
      m := ClaimedSomewhere(events, n - 1, id);
    }
  }

  /** A waiting job is overtaken fewer times than there were jobs when it began to wait. */
  lemma {:induction false} BoundedOvertaking(st: Setting, states: seq<World>, events: seq<Event>, j: string, n: nat)
    requires IsRun(st, states, events) && Inv(st, states[0]) && Waits(states, j) && n <= |events|
    ensures Claims(events, n) == |ClaimedIds(events, n)| < |states[0].tables.jobs|
    ensures ClaimedIds(events, n) <= states[0].tables.jobs.Keys - {j}
  {
    if n > 0 {
      BoundedOvertaking(st, states, events, j, n - 1);
      if events[n - 1].Schedule? {
        ClaimsAreOld(st, states, events, j, n - 1);
        if events[n - 1].id in ClaimedIds(events, n - 1) {
          var m := ClaimedSomewhere(events, n - 1, events[n - 1].id);
          ClaimedAtMostOnce(st, states, events, j, m, n - 1);
        }
      }
    }
    SubsetIsSmaller(ClaimedIds(events, n), states[0].tables.jobs.Keys - {j});
  }

  lemma {:induction false} SubsetIsSmaller(a: set<string>, b: set<string>)
    requires a <= b
    ensures |a| <= |b|
    decreases |a|
  {
    if a != {} {
      var x :| x in a;
      SubsetIsSmaller(a - {x}, b - {x});
    }
  }
}
