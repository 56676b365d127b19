/** The store calls of `RetryBudget` put together again: when nothing comes in between, the steps of a service do to the
    jobs exactly what its operation does in one go. */
module StepRefinement {
  import opened Options
  import opened Domain
  import opened Records
  import opened MemoryStore
  import opened RetryBudget
  import Assignments
  import Recovery
  import Scheduler
  import SchedulingPass

  /** The run leads from `w` to the jobs `jobs`, leaves the service idle again, and accepts as many assignments of `id`. */
  ghost predicate Leads(w: World, run: Run, p: nat, jobs: map<string, Job>, id: string, accepted: nat)
  {
    && After(w, run).Some? && After(w, run).value.jobs == jobs && After(w, run).value.At(p).Idle?
    && After(w, run).value.Accepted(id) == w.Accepted(id) + accepted
  }

  /** Between two candidates: the service holds the job it has just written or offered. */
  ghost predicate Offering(v: World, p: nat, job: Job)
  {
    (v.At(p) == Claimed(job) && job.MayRetry()) || v.At(p) == Offered(job)
  }

  lemma OfferStep(w: World, begun: Run, v: World, p: nat, job: Job, region: string, attemptId: string, now: Time) returns (run: Run, v1: World)
    requires After(w, begun) == Some(v) && Offering(v, p, job)
    ensures After(w, run) == Some(v1) && v1.At(p) == Offered(OfferedJob(job, region, attemptId, now))
    ensures v1.jobs == v.jobs[job.id := OfferedJob(job, region, attemptId, now)] && v1.accepted == v.accepted
  {
    run, v1 := Extend(w, begun, v, Offer(p, region, attemptId, now));
  }

  lemma PutBackStep(w: World, begun: Run, v: World, p: nat, job: Job, error: string, now: Time) returns (run: Run)
    requires After(w, begun) == Some(v) && Offering(v, p, job) && v.Accepted(job.id) == w.Accepted(job.id)
    ensures Leads(w, run, p, v.jobs[job.id := RequeuedJob(job, error, now)], job.id, 0)
  {
    var v1;
    run, v1 := Extend(w, begun, v, BackToQueue(p, error, now));
  }

  lemma AcceptSteps(w: World, begun: Run, v: World, p: nat, job: Job, at: Time) returns (run: Run)
    requires After(w, begun) == Some(v) && v.At(p) == Offered(job) && v.Accepted(job.id) == w.Accepted(job.id)
    ensures Leads(w, run, p, v.jobs[job.id := CountedJob(job, at)], job.id, 1)
  {
    var v1;
    run, v1 := Extend(w, begun, v, Accept(p, at));
    run, v1 := Extend(w, run, v1, WriteCount(p));
  }

  lemma {:induction false} OffersInSteps(w: World, begun: Run, v: World, p: nat, s: Tables, job: Job, offers: seq<Scheduler.Offer>, i: nat,
                                         now: Time, errors: string, end: Time) returns (run: Run)
    requires After(w, begun) == Some(v) && Offering(v, p, job) && s.jobs == v.jobs && v.Accepted(job.id) == w.Accepted(job.id)
    ensures Leads(w, run, p, Scheduler.OfferFrom(s, job, offers, i, now, errors, end).0.jobs, job.id,
                  if Scheduler.VerdictFrom(offers, i).Dispatched? then 1 else 0)
    decreases |offers| - i
  {
    if i >= |offers| {
      run := PutBackStep(w, begun, v, p, job, errors, end);
    } else {
      var o := offers[i];
      var a := NewAttempt(o.attemptId, job, o.region, now);
      var j := OfferedJob(job, o.region, o.attemptId, now);
      var v1;
      run, v1 := OfferStep(w, begun, v, p, job, o.region, o.attemptId, now);
      if o.reply.Accepted? {
        run := AcceptSteps(w, run, v1, p, j, o.reply.at);
      } else if o.reply.NoCapacity? {
        run := PutBackStep(w, run, v1, p, j, "", o.reply.at);
      } else {
        var s1 := s.PutAttempt(a).PutJob(j).PutAttempt(FailedAttempt(a, o.reply.error, o.reply.at));
        run := OffersInSteps(w, run, v1, p, s1, j, offers, i + 1, now, Scheduler.Join(errors, o.region, o.reply.error), end);
      }
    }
  }

  /** A scheduling round: claim, and then give the job up, put it back, or offer it until somebody answers. */
  lemma RoundInSteps(w: World, p: nat, s: Tables, id: string, found: bool, r: Scheduler.Round) returns (run: Run)
    requires w.At(p).Idle? && s.jobs == w.jobs && id in w.jobs && w.jobs[id].id == id && w.jobs[id].Claimable()
    ensures Leads(w, run, p, Scheduler.ScheduleClaimed(s, id, found, r).0.jobs, id,
                  if w.jobs[id].MayRetry() && found && SchedulingPass.VerdictOf(r.lookup).Dispatched? then 1 else 0)
  {
    var v;
    run, v := Extend(w, Begin, w, Claim(p, id, r.claimAt));
    var job := ClaimedJob(w.jobs[id], r.claimAt);
    if !job.MayRetry() {
      run, v := Extend(w, run, v, GiveUp(p, Scheduler.OVER_BUDGET, r.at));
    } else if !found {
      run, v := Extend(w, run, v, GiveUp(p, Scheduler.NO_VERSION, r.at));
    } else if r.lookup.Ranked? {
      run := OffersInSteps(w, run, v, p, s.PutJob(job), job, r.lookup.offers, 0, r.at, "", r.lookup.end);
    } else {
      run, v := Extend(w, run, v, BackToQueue(p, r.lookup.error, r.at));
    }
  }

  lemma ReportInSteps(w: World, p: nat, s: Tables, versions: map<string, FunctionVersion>, projects: map<string, Project>, msg: Update,
                      canRetry: bool, now: Time) returns (run: Run)
    requires w.At(p).Idle? && s.jobs == w.jobs && msg.attemptId in s.attempts && msg.jobId in s.jobs
    ensures Leads(w, run, p, Assignments.ApplyUpdate(s, versions, projects, msg, canRetry, now).jobs, msg.jobId, 0)
  {
    var v;
    var startedAt := ReportedAttempt(s.attempts[msg.attemptId], msg, now).startedAt;
    run, v := Extend(w, Begin, w, ReadForUpdate(p, msg.jobId));
    run, v := Extend(w, run, v, WriteUpdate(p, msg, canRetry, startedAt, now));
  }

  lemma RetryInSteps(w: World, p: nat, s: Tables, id: string, now: Time) returns (run: Run)
    requires w.At(p).Idle? && s.jobs == w.jobs && id in s.jobs && s.jobs[id].id == id
    ensures Leads(w, run, p, Assignments.RetryOrFail(s, id, now).jobs, id, 0)
  {
    var v;
    run, v := Extend(w, Begin, w, ReadForRetry(p, id));
    if s.jobs[id].MayRetry() {
      run, v := Extend(w, run, v, WriteRetry(p, now));
    } else {
      run, v := Extend(w, run, v, ReadForFailure(p));
      run, v := Extend(w, run, v, WriteFailure(p, Scheduler.OVER_BUDGET, now));
    }
  }

  lemma RecoverySteps(w: World, p: nat, id: string, now: Time) returns (run: Run, v: World)
    requires w.At(p).Idle? && id in w.jobs && w.jobs[id].id == id
    ensures After(w, run) == Some(v) && v.jobs == w.jobs[id := RecoveredJob(w.jobs[id], now)] && v.accepted == w.accepted
    ensures v.At(p) == if w.jobs[id].MayRetry() then Recovered(RecoveredJob(w.jobs[id], now)) else Idle
  {
    run, v := Extend(w, Begin, w, ReadForRecovery(p, id));
    run, v := Extend(w, run, v, WriteRecovery(p, now));
  }

  lemma RecoveryRetrySteps(w: World, begun: Run, v: World, p: nat, job: Job, now: Time) returns (run: Run)
    requires After(w, begun) == Some(v) && v.At(p) == Recovered(job) && v.accepted == w.accepted
    requires job.id in v.jobs && v.jobs[job.id] == job && job.MayRetry()
    ensures Leads(w, run, p, v.jobs[job.id := RetriedJob(job, now)], job.id, 0)
  {
    var v1;
    run, v1 := Extend(w, begun, v, ReadForRecoveryRetry(p));
    run, v1 := Extend(w, run, v1, WriteRecoveryRetry(p, now));
  }

  /** The recovery of an attempt whose lease has run out. */
  lemma RecoveryInSteps(w: World, p: nat, s: Tables, a: Attempt, now: Time) returns (run: Run)
    requires w.At(p).Idle? && s.jobs == w.jobs && a.id in s.attempts && a.jobId in s.jobs && s.jobs[a.jobId].id == a.jobId
    requires !s.attempts[a.id].state.Terminal() && s.attempts[a.id].leaseExpiresAt <= now
    ensures Recovery.Recover(s, a, now).Some? && Leads(w, run, p, Recovery.Recover(s, a, now).value.jobs, a.jobId, 0)
  {
    var v;
    run, v := RecoverySteps(w, p, a.jobId, now);
    if s.jobs[a.jobId].MayRetry() {
      run := RecoveryRetrySteps(w, run, v, p, RecoveredJob(s.jobs[a.jobId], now), now);
    }
  }

  /** The store requeues all stale claims in one call, which is one step. */
  lemma RequeueInOneStep(w: World, before: Time, now: Time)
    ensures var ids := set id | id in w.jobs && w.jobs[id].state == Scheduling && w.jobs[id].updatedAt <= before;
            var s := RequeueStale(ids, now);
            Enabled(w, s) && Apply(w, s) == w.(jobs := Requeue(w.jobs, before, now))
  {
    var ids := set id | id in w.jobs && w.jobs[id].state == Scheduling && w.jobs[id].updatedAt <= before;
    assert Apply(w, RequeueStale(ids, now)).jobs == Requeue(w.jobs, before, now);
  }
}
