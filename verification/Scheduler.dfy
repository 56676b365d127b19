/** Enqueueing, claiming, dispatching and retrying execution jobs. */
module Scheduler {
  import opened Options
  import opened Domain
  import opened Records
  import opened MemoryStore

  // ---------------------------------------------------------------- what the outside world answers

  /** The host picked for an attempt when the dispatcher assigns it at once instead of queueing it. */
  datatype Placement = Placement(hostId: string, mode: StartMode)

  /** The outcome of EnqueueExecution and the time at which it is known. */
  datatype Reply =
    | Accepted(at: Time, placed: Option<Placement>)
    | NoCapacity(at: Time, error: string)
    | Refused(at: Time, error: string)

  /** One ranked candidate: its region, the id drawn for its attempt, and the answer of its dispatcher. */
  datatype Offer = Offer(region: string, attemptId: string, reply: Reply)

  /** What dispatchJobAttempt finds before it starts offering, and when it gives up. */
  datatype Lookup = NoArtifact(error: string) | NoRanking(error: string) | Ranked(offers: seq<Offer>, end: Time)

  /** dispatchJobAttempt's return value: nil, the capacity error, or another error. */
  datatype Verdict = Dispatched | Exhausted | Unplaced

  /** The environment of one call of scheduleNext. */
  datatype Round = Round(claimAt: Time, at: Time, lookup: Lookup)

  // ---------------------------------------------------------------- dispatching one attempt

  function Join(errors: string, region: string, error: string): string
  {
    (if errors == "" then "" else errors + "; ") + region + ": " + error
  }

  /** The attempt row a dispatcher leaves behind when it accepts. */
  function AcceptedAttempt(a: Attempt, reply: Reply): Attempt
    requires reply.Accepted?
  {
    if reply.placed.Some? then PlacedAttempt(a, reply.placed.value.hostId, reply.placed.value.mode, reply.at) else a
  }

  /** The candidate loop from position `i` on, with the errors collected so far. */
  function OfferFrom(s: Tables, job: Job, offers: seq<Offer>, i: nat, now: Time, errors: string, end: Time): (Tables, Verdict)
    decreases |offers| - i
  {
    if i >= |offers| then
      (s.PutJob(RequeuedJob(job, errors, end)), Unplaced)
    else
      var o := offers[i];
      var a := NewAttempt(o.attemptId, job, o.region, now);
      var j := OfferedJob(job, o.region, o.attemptId, now);
      var s1 := s.PutAttempt(a).PutJob(j);
      match o.reply
      case Accepted(at, _) =>
        (s1.PutAttempt(AcceptedAttempt(a, o.reply)).PutJob(CountedJob(j, at)), Dispatched)
      case NoCapacity(at, e) =>
        (s1.PutAttempt(FailedAttempt(a, e, at)).PutJob(RequeuedJob(j, "", at)), Exhausted)
      case Refused(at, e) =>
        OfferFrom(s1.PutAttempt(FailedAttempt(a, e, at)), j, offers, i + 1, now, Join(errors, o.region, e), end)
  }

  function DispatchAttempt(s: Tables, job: Job, now: Time, lookup: Lookup): (Tables, Verdict)
  {
    match lookup
    case NoArtifact(e) => (s.PutJob(RequeuedJob(job, e, now)), Unplaced)
    case NoRanking(e) => (s.PutJob(RequeuedJob(job, e, now)), Unplaced)
    case Ranked(offers, end) => OfferFrom(s, job, offers, 0, now, "", end)
  }

  const OVER_BUDGET: string := "exceeded retry budget"
  const NO_VERSION: string := "function version not found"

  /** scheduleNext after the claim of job `id`; the flag says whether the pass goes on. */
  function ScheduleClaimed(s: Tables, id: string, found: bool, r: Round): (Tables, bool)
    requires id in s.jobs
  {
    var job := ClaimedJob(s.jobs[id], r.claimAt);
    var s1 := s.PutJob(job);
    if !job.MayRetry() then (s1.PutJob(FailedJob(job, OVER_BUDGET, r.at)), true)
    else if !found then (s1.PutJob(FailedJob(job, NO_VERSION, r.at)), true)
    else
      var (s2, v) := DispatchAttempt(s1, job, r.at, r.lookup);
      (s2, !v.Exhausted?)
  }

  // ---------------------------------------------------------------- what a dispatch leaves behind

  /** Attempt ids are drawn fresh. */
  ghost predicate FreshIds(s: Tables, offers: seq<Offer>, i: nat)
  {
    && (forall k :: i <= k < |offers| ==> offers[k].attemptId !in s.attempts)
    && (forall k, l :: i <= k < l < |offers| ==> offers[k].attemptId != offers[l].attemptId)
  }

  /** All candidates from `i` up to the first that does not refuse. */
  ghost predicate FirstAnswer(offers: seq<Offer>, i: nat, k: int)
  {
    i <= k < |offers| && !offers[k].reply.Refused? && forall l :: i <= l < k ==> offers[l].reply.Refused?
  }

  /** The verdict of the candidates from `i` on: that of the first who does not refuse. */
  function VerdictFrom(offers: seq<Offer>, i: nat): Verdict
    decreases |offers| - i
  {
    if i >= |offers| then Unplaced
    else
      match offers[i].reply
      case Accepted(_, _) => Dispatched
      case NoCapacity(_, _) => Exhausted
      case Refused(_, _) => VerdictFrom(offers, i + 1)
  }

  /** The first candidate that does not refuse decides; if all refuse the job is unplaced. */
  lemma {:induction false} FirstAnswerDecides(offers: seq<Offer>, i: nat)
    ensures VerdictFrom(offers, i).Unplaced? <==> forall k :: i <= k < |offers| ==> offers[k].reply.Refused?
    ensures forall k :: FirstAnswer(offers, i, k) ==> (VerdictFrom(offers, i).Dispatched? <==> offers[k].reply.Accepted?)
    decreases |offers| - i
  {
    if i < |offers| && offers[i].reply.Refused? {
      FirstAnswerDecides(offers, i + 1);
      assert forall k :: FirstAnswer(offers, i, k) ==> FirstAnswer(offers, i + 1, k);
    }
  }

  /** Whatever the tables, a dispatch ends with the verdict of its candidates. */
  lemma {:induction false} OffersGiveVerdict(s: Tables, job: Job, offers: seq<Offer>, i: nat, now: Time, errors: string, end: Time)
    ensures OfferFrom(s, job, offers, i, now, errors, end).1 == VerdictFrom(offers, i)
    decreases |offers| - i
  {
    if i < |offers| && offers[i].reply.Refused? {
      var o := offers[i];
      var a := NewAttempt(o.attemptId, job, o.region, now);
      var j := OfferedJob(job, o.region, o.attemptId, now);
      var s1 := s.PutAttempt(a).PutJob(j).PutAttempt(FailedAttempt(a, o.reply.error, o.reply.at));
      OffersGiveVerdict(s1, j, offers, i + 1, now, Join(errors, o.region, o.reply.error), end);
    }
  }

  /** The job row after a dispatch that started from `job`. */
  ghost predicate DispatchedJob(job: Job, j: Job, v: Verdict)
  {
    && j.id == job.id && j.maxRetries == job.maxRetries && j.createdAt == job.createdAt && j.versionId == job.versionId
    && j.projectId == job.projectId && j.payload == job.payload && j.result == job.result
    && j.attemptCount == job.attemptCount + (if v.Dispatched? then 1 else 0)
    && (v.Dispatched? ==> j.state == JobState.Assigned && j.error == "")
    && (!v.Dispatched? ==> j.state == JobState.Queued && j.targetRegion == "")
  }

  /** Of the attempts a dispatch makes only the one the job names is live, and only on success. */
  ghost predicate OneLive(t: Tables, jobId: string, v: Verdict, id: string)
    requires id in t.attempts && jobId in t.jobs
  {
    var a, j := t.attempts[id], t.jobs[jobId];
    && a.id == id && a.jobId == jobId
    && (!a.state.Terminal() <==> v.Dispatched? && id == j.lastAttemptId)
    && (v.Dispatched? && id == j.lastAttemptId ==> a.region == j.targetRegion)
  }

  lemma {:induction false} DispatchAttempts(s: Tables, job: Job, offers: seq<Offer>, i: nat, now: Time, errors: string, end: Time)
    requires FreshIds(s, offers, i)
    ensures var (t, v) := OfferFrom(s, job, offers, i, now, errors, end);
            && job.id in t.jobs
            && s.attempts.Keys <= t.attempts.Keys && (forall a <- s.attempts :: t.attempts[a] == s.attempts[a])
            && (v.Dispatched? ==> t.jobs[job.id].lastAttemptId in t.attempts.Keys - s.attempts.Keys)
            && (forall a <- t.attempts.Keys - s.attempts.Keys :: OneLive(t, job.id, v, a))
    decreases |offers| - i
  {
    if i < |offers| {
      var o := offers[i];
      var a := NewAttempt(o.attemptId, job, o.region, now);
      var j := OfferedJob(job, o.region, o.attemptId, now);
      var s1 := s.PutAttempt(a).PutJob(j);
      if o.reply.Refused? {
        var s2 := s1.PutAttempt(FailedAttempt(a, o.reply.error, o.reply.at));
        DispatchAttempts(s2, j, offers, i + 1, now, Join(errors, o.region, o.reply.error), end);
      }
    }
  }

  /** Dispatch accounting: one new live attempt, that of the job, exactly on success; none on failure. */
  lemma DispatchAccounting(s: Tables, job: Job, offers: seq<Offer>, i: nat, now: Time, errors: string, end: Time)
    requires FreshIds(s, offers, i)
    ensures var (t, v) := OfferFrom(s, job, offers, i, now, errors, end);
            && t.costs == s.costs
            && job.id in t.jobs && t.jobs == s.jobs[job.id := t.jobs[job.id]]
            && DispatchedJob(job, t.jobs[job.id], v)
            && s.attempts.Keys <= t.attempts.Keys && (forall a <- s.attempts :: t.attempts[a] == s.attempts[a])
            && (v.Dispatched? ==> t.jobs[job.id].lastAttemptId in t.attempts.Keys - s.attempts.Keys)
            && (forall a <- t.attempts.Keys - s.attempts.Keys :: OneLive(t, job.id, v, a))
  {
    OffersTouchOneJob(s, job, offers, i, now, errors, end);
    DispatchAttempts(s, job, offers, i, now, errors, end);
  }

  /** One past the last candidate from `i` on that is asked: the first who does not refuse is the last. */
  function Asked(offers: seq<Offer>, i: nat): (n: nat)
    requires i <= |offers|
    ensures i <= n <= |offers| && (i < |offers| ==> i < n)
    decreases |offers| - i
  {
    if i == |offers| then i else if offers[i].reply.Refused? then Asked(offers, i + 1) else i + 1
  }

  /** The attempt of a candidate that was asked: leased to the region for thirty seconds if it accepted, failed with its
      error if not. */
  ghost predicate AttemptOf(jobId: string, versionId: string, o: Offer, now: Time, a: Attempt)
  {
    && a.id == o.attemptId && a.jobId == jobId && a.versionId == versionId && a.region == o.region
    && a.startedAt == ZERO && a.createdAt == now
    && match o.reply
       case Accepted(at, placed) =>
         && a.state == AttemptState.Assigned && a.error == "" && a.leaseExpiresAt == now + 30 * SECOND
         && (if placed.Some? then a.hostId == placed.value.hostId && a.startMode == placed.value.mode && a.updatedAt == at
             else a.hostId == "" && a.startMode == Unset && a.updatedAt == now)
       case NoCapacity(at, error) => IsFailure(a, error, at)
       case Refused(at, error) => IsFailure(a, error, at)
  }

  ghost predicate IsFailure(a: Attempt, error: string, at: Time)
  {
    a.state == AttemptState.Failed && a.error == error && a.leaseExpiresAt == a.updatedAt == at && a.hostId == "" && a.startMode == Unset
  }

  lemma AskedRow(job: Job, o: Offer, now: Time)
    ensures var a := NewAttempt(o.attemptId, job, o.region, now);
            AttemptOf(job.id, job.versionId, o, now, if o.reply.Accepted? then AcceptedAttempt(a, o.reply) else FailedAttempt(a, o.reply.error, o.reply.at))
  {
  }

  /** Every candidate that was asked leaves an attempt that says what came of it. */
  lemma {:induction false} AskedLeavesAttempt(s: Tables, job: Job, offers: seq<Offer>, i: nat, now: Time, errors: string, end: Time, k: nat)
    requires i <= |offers| && FreshIds(s, offers, i) && i <= k < Asked(offers, i)
    ensures var t := OfferFrom(s, job, offers, i, now, errors, end).0;
            offers[k].attemptId in t.attempts && AttemptOf(job.id, job.versionId, offers[k], now, t.attempts[offers[k].attemptId])
    decreases |offers| - i
  {
    var o := offers[i];
    AskedRow(job, o, now);
    if o.reply.Refused? {
      var a := NewAttempt(o.attemptId, job, o.region, now);
      var j := OfferedJob(job, o.region, o.attemptId, now);
      var s1 := s.PutAttempt(a).PutJob(j).PutAttempt(FailedAttempt(a, o.reply.error, o.reply.at));
      if k == i {
        DispatchAttempts(s1, j, offers, i + 1, now, Join(errors, o.region, o.reply.error), end);
      } else {
        AskedLeavesAttempt(s1, j, offers, i + 1, now, Join(errors, o.region, o.reply.error), end, k);
      }
    }
  }

  /** And no other attempt is new. */
  lemma {:induction false} OnlyAskedLeaveAttempts(s: Tables, job: Job, offers: seq<Offer>, i: nat, now: Time, errors: string, end: Time, id: string)
    requires i <= |offers| && id !in s.attempts && id in OfferFrom(s, job, offers, i, now, errors, end).0.attempts
    ensures exists k :: i <= k < Asked(offers, i) && offers[k].attemptId == id
    decreases |offers| - i
  {
    var o := offers[i];
    if o.reply.Refused? && o.attemptId != id {
      var a := NewAttempt(o.attemptId, job, o.region, now);
      var j := OfferedJob(job, o.region, o.attemptId, now);
      var s1 := s.PutAttempt(a).PutJob(j).PutAttempt(FailedAttempt(a, o.reply.error, o.reply.at));
      OnlyAskedLeaveAttempts(s1, j, offers, i + 1, now, Join(errors, o.region, o.reply.error), end, id);
    }
  }

  /** The reasons of all candidates from `i` on, in their order. */
  function Reasons(offers: seq<Offer>, i: nat): string
    decreases |offers| - i
  {
    if i >= |offers| || offers[i].reply.Accepted? then ""
    else offers[i].region + ": " + offers[i].reply.error + (if i + 1 == |offers| then "" else "; " + Reasons(offers, i + 1))
  }

  /** The errors so far, followed by the reasons of the candidates from `i` on. */
  function Joined(errors: string, offers: seq<Offer>, i: nat): string
  {
    if i >= |offers| then errors else if errors == "" then Reasons(offers, i) else errors + "; " + Reasons(offers, i)
  }

  lemma JoinedByOne(errors: string, offers: seq<Offer>, i: nat)
    requires i < |offers| && offers[i].reply.Refused?
    ensures Joined(Join(errors, offers[i].region, offers[i].reply.error), offers, i + 1) == Joined(errors, offers, i)
  {
  }

  /** What the job says after a dispatch of which it knows the errors so far. */
  ghost predicate SaysWhy(offers: seq<Offer>, i: nat, errors: string, end: Time, v: Verdict, j: Job)
    requires i <= |offers|
  {
    if v.Unplaced? then j.updatedAt == end && j.error == Joined(errors, offers, i)
    else
      && Asked(offers, i) > 0
      && var o := offers[Asked(offers, i) - 1];
      && j.updatedAt == o.reply.at && j.error == "" && j.lastAttemptId == o.attemptId
      && j.targetRegion == if v.Dispatched? then o.region else ""
  }

  /** A job that was placed names the candidate that took it; one that was not carries every refusal, in order. */
  lemma {:induction false} JobSaysWhy(s: Tables, job: Job, offers: seq<Offer>, i: nat, now: Time, errors: string, end: Time)
    requires i <= |offers|
    ensures var (t, v) := OfferFrom(s, job, offers, i, now, errors, end);
            job.id in t.jobs && SaysWhy(offers, i, errors, end, v, t.jobs[job.id])
    decreases |offers| - i
  {
    if i < |offers| && offers[i].reply.Refused? {
      var o := offers[i];
      var a := NewAttempt(o.attemptId, job, o.region, now);
      var j := OfferedJob(job, o.region, o.attemptId, now);
      var s1 := s.PutAttempt(a).PutJob(j).PutAttempt(FailedAttempt(a, o.reply.error, o.reply.at));
      JobSaysWhy(s1, j, offers, i + 1, now, Join(errors, o.region, o.reply.error), end);
      JoinedByOne(errors, offers, i);
    }
  }

  // ---------------------------------------------------------------- progress of a scheduling pass

  /** A round takes its job out of the queue for good, or puts it back: back exactly when its dispatch failed. */
  lemma RoundOutcome(s: Tables, id: string, found: bool, r: Round)
    requires id in s.jobs && s.jobs[id].id == id && s.jobs[id].Claimable()
    ensures var (t, goesOn) := ScheduleClaimed(s, id, found, r);
            var dispatched := s.jobs[id].MayRetry() && found;
            var v := DispatchAttempt(s.PutJob(ClaimedJob(s.jobs[id], r.claimAt)), ClaimedJob(s.jobs[id], r.claimAt), r.at, r.lookup).1;
            && ClaimableIds(t.jobs) == (if dispatched && !v.Dispatched? then ClaimableIds(s.jobs) else ClaimableIds(s.jobs) - {id})
            && (goesOn <==> !(dispatched && v.Exhausted?))
  {
    var job := ClaimedJob(s.jobs[id], r.claimAt);
    if r.lookup.Ranked? {
      OffersTouchOneJob(s.PutJob(job), job, r.lookup.offers, 0, r.at, "", r.lookup.end);
    }
  }

  /** A round that asks nobody: a job over its budget or without its version fails for good, one without an artifact or a
      ranking goes back to the queue; each says why, and no attempt is made. */
  lemma RoundWithoutOffers(s: Tables, id: string, found: bool, r: Round)
    requires id in s.jobs && s.jobs[id].id == id
    requires s.jobs[id].attemptCount > s.jobs[id].maxRetries || !found || !r.lookup.Ranked?
    ensures var (t, goesOn) := ScheduleClaimed(s, id, found, r);
            var over := s.jobs[id].attemptCount > s.jobs[id].maxRetries;
            && goesOn && t.attempts == s.attempts && t.costs == s.costs && t.jobs.Keys == s.jobs.Keys
            && (forall k <- s.jobs | k != id :: t.jobs[k] == s.jobs[k])
            && t.jobs[id].updatedAt == r.at && t.jobs[id].attemptCount == s.jobs[id].attemptCount
            && (t.jobs[id].state, t.jobs[id].error) ==
                 if over then (JobState.Failed, "exceeded retry budget")
                 else if !found then (JobState.Failed, "function version not found")
                 else (JobState.Queued, r.lookup.error)
  {
  }

  lemma {:induction false} OffersTouchOneJob(s: Tables, job: Job, offers: seq<Offer>, i: nat, now: Time, errors: string, end: Time)
    ensures var (t, v) := OfferFrom(s, job, offers, i, now, errors, end);
            && job.id in t.jobs && t.jobs == s.jobs[job.id := t.jobs[job.id]] && t.costs == s.costs
            && DispatchedJob(job, t.jobs[job.id], v)
    decreases |offers| - i
  {
    if i < |offers| && offers[i].reply.Refused? {
      var o := offers[i];
      var a := NewAttempt(o.attemptId, job, o.region, now);
      var j := OfferedJob(job, o.region, o.attemptId, now);
      var s1 := s.PutAttempt(a).PutJob(j).PutAttempt(FailedAttempt(a, o.reply.error, o.reply.at));
      OffersTouchOneJob(s1, j, offers, i + 1, now, Join(errors, o.region, o.reply.error), end);
    }
  }

  // ---------------------------------------------------------------- the service

  const MAX_ACTIVE_JOBS: nat := 200

  /** enqueueExecution: refused when the project already has its quota of active jobs. */
  method EnqueueExecution(store: Store, id: string, version: FunctionVersion, payload: string, now: Time) returns (r: Result<Job>)
    modifies store`jobs
    ensures r.Err? <==> |ActiveIds(old(store.jobs), version.projectId)| >= 200
    ensures r.Ok? ==> r.value == NewJob(id, version, payload, now) && store.View() == old(store.View()).PutJob(r.value)
    ensures r.Ok? ==>
              && r.value.id == id && r.value.versionId == version.id && r.value.projectId == version.projectId && r.value.payload == payload
              && r.value.state == Queued && r.value.maxRetries == version.maxRetries && r.value.attemptCount == 0 && r.value.result == None
              && r.value.targetRegion == r.value.lastAttemptId == r.value.error == "" && r.value.createdAt == r.value.updatedAt == now
    ensures r.Err? ==> store.View() == old(store.View())
  {
    var count := store.CountActive(version.projectId);
    if count >= MAX_ACTIVE_JOBS {
      return Err("project execution quota exceeded");
    }
    var job := NewJob(id, version, payload, now);
    store.PutJob(job);
    return Ok(job);
  }

  /** RetryExecution: refused when the budget is spent or the job is unknown. */
  method RetryExecution(store: Store, jobId: string, now: Time) returns (r: Result<Job>)
    modifies store`jobs
    ensures r.Ok? <==> jobId in old(store.jobs) && old(store.jobs)[jobId].MayRetry()
    ensures r.Ok? ==> r.value == RetriedJob(old(store.jobs)[jobId], now) && store.View() == old(store.View()).PutJob(r.value)
    ensures r.Ok? ==>
              && r.value.state == Retrying && r.value.error == r.value.targetRegion == "" && r.value.updatedAt == now
              && r.value.attemptCount == old(store.jobs)[jobId].attemptCount <= r.value.maxRetries == old(store.jobs)[jobId].maxRetries
    ensures r.Err? ==> store.View() == old(store.View())
  {
    if jobId !in store.jobs {
      return Err("job not found");
    }
    var job := store.jobs[jobId];
    if job.attemptCount > job.maxRetries {
      return Err(OVER_BUDGET);
    }
    job := RetriedJob(job, now);
    store.PutJob(job);
    return Ok(job);
  }

  method OfferJob(store: Store, claimed: Job, now: Time, offers: seq<Offer>, end: Time) returns (v: Verdict)
    modifies store`jobs, store`attempts
    ensures (store.View(), v) == OfferFrom(old(store.View()), claimed, offers, 0, now, "", end)
  {
    var job, errors, i := claimed, "", 0;
    while i < |offers|
      invariant 0 <= i <= |offers|
      invariant OfferFrom(store.View(), job, offers, i, now, errors, end)
             == OfferFrom(old(store.View()), claimed, offers, 0, now, "", end)
    {
      var o := offers[i];
      var attempt := NewAttempt(o.attemptId, job, o.region, now);
      job := OfferedJob(job, o.region, o.attemptId, now);
      store.PutAttempt(attempt);
      store.PutJob(job);
      match o.reply {
        case Accepted(at, _) =>
          store.PutAttempt(AcceptedAttempt(attempt, o.reply));
          store.PutJob(CountedJob(job, at));
          return Dispatched;
        case NoCapacity(at, e) =>
          store.PutAttempt(FailedAttempt(attempt, e, at));
          store.PutJob(RequeuedJob(job, "", at));
          return Exhausted;
        case Refused(at, e) =>
          store.PutAttempt(FailedAttempt(attempt, e, at));
          errors := Join(errors, o.region, e);
      }
      i := i + 1;
    }
    store.PutJob(RequeuedJob(job, errors, end));
    return Unplaced;
  }

  method DispatchJobAttempt(store: Store, job: Job, now: Time, lookup: Lookup) returns (v: Verdict)
    modifies store`jobs, store`attempts
    ensures (store.View(), v) == DispatchAttempt(old(store.View()), job, now, lookup)
  {
    match lookup
    case NoArtifact(e) =>
      store.PutJob(RequeuedJob(job, e, now));
      return Unplaced;
    case NoRanking(e) =>
      store.PutJob(RequeuedJob(job, e, now));
      return Unplaced;
    case Ranked(offers, end) =>
      v := OfferJob(store, job, now, offers, end);
  }

  /** scheduleNext: claim the next job, fail it for good, or dispatch it. */
  method ScheduleNext(store: Store, r: Round) returns (claimed: Option<string>, goesOn: bool)
    requires KeyedJobs(store.jobs)
    modifies store`jobs, store`attempts
    ensures claimed.None? ==> !goesOn && ClaimableIds(old(store.jobs)) == {} && store.View() == old(store.View())
    ensures claimed.Some? ==>
              && IsNext(old(store.jobs), claimed.value)
              && var found := old(store.jobs)[claimed.value].versionId in store.versions;
                 (store.View(), goesOn) == ScheduleClaimed(old(store.View()), claimed.value, found, r)
  {
    var next := store.ClaimNext(r.claimAt);
    if next.None? {
      return None, false;
    }
    var job := next.value;
    claimed := Some(job.id);
    if job.attemptCount > job.maxRetries {
      store.PutJob(FailedJob(job, OVER_BUDGET, r.at));
      return claimed, true;
    }
    if job.versionId !in store.versions {
      store.PutJob(FailedJob(job, NO_VERSION, r.at));
      return claimed, true;
    }
    var v := DispatchJobAttempt(store, job, r.at, r.lookup);
    return claimed, !v.Exhausted?;
  }

  /** recoverStaleScheduling: claims older than the scheduling timeout go back to the queue. */
  const SCHEDULING_TIMEOUT: Time := 10 * SECOND

  method RecoverStaleScheduling(store: Store, now: Time) returns (count: nat)
    modifies store`jobs
    ensures store.View() == old(store.View()).(jobs := Requeue(old(store.jobs), now - SCHEDULING_TIMEOUT, now))
    ensures forall id <- old(store.jobs) :: id in store.jobs && Requeued(old(store.jobs)[id], store.jobs[id], now - 10 * SECOND, now)
    ensures count == |set id | id in old(store.jobs) && old(store.jobs)[id].state == Scheduling && old(store.jobs)[id].updatedAt <= now - 10 * SECOND|
  {
    RequeueReturnsStaleClaims(store.jobs, now - SCHEDULING_TIMEOUT, now);
    assert (set id | id in store.jobs && StaleClaim(store.jobs[id], now - SCHEDULING_TIMEOUT))
        == set id | id in store.jobs && store.jobs[id].state == Scheduling && store.jobs[id].updatedAt <= now - 10 * SECOND;
    count := store.RequeueStale(now - SCHEDULING_TIMEOUT, now);
  }
}
