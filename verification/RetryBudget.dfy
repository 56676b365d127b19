/** The retry budget when every store call is a step of its own and services work on copies that may be stale.

    A service fetches a whole job record, computes on its copy and writes the copy back later; anything may happen
    in between. Calls that touch no job row are left out of the steps. */
module RetryBudget {
  import opened Options
  import opened Domain
  import opened Records

  /** What a service holds between two store calls. */
  datatype Actor =
    | Idle
    | Claimed(job: Job)                  // scheduleNext, after the claim
    | Offered(job: Job)                  // dispatchJobAttempt, assignment handed to a dispatcher
    | Counting(job: Job)                 // dispatchJobAttempt, accepted and counted, last write pending
    | Updating(job: Job)                 // handleAssignmentUpdate, after its read
    | Retrying(job: Job)                 // RetryExecution, after its read
    | Failing(job: Job)                  // the background retry was refused, latest record read
    | Recovering(job: Job)               // recoverAttempt, after its read
    | Recovered(job: Job)                // recoverAttempt, first write done, about to call RetryExecution
    | RecoverRetrying(job: Job, latest: Job)  // RetryExecution inside recoverAttempt, after its read

  /** `accepted` counts the assignments dispatchers have really accepted. */
  datatype World = World(jobs: map<string, Job>, actors: map<nat, Actor>, accepted: map<string, nat>)
  {
    function At(p: nat): Actor { if p in actors then actors[p] else Idle }
    function Accepted(id: string): nat { if id in accepted then accepted[id] else 0 }
    function Move(p: nat, a: Actor): World { this.(actors := actors[p := a]) }
    function Write(j: Job): World { this.(jobs := jobs[j.id := j]) }
  }

  datatype Step =
    | Enqueue(id: string, version: FunctionVersion, payload: string, now: Time)
    | Claim(p: nat, id: string, now: Time)
    | RequeueStale(ids: set<string>, now: Time)
    | GiveUp(p: nat, error: string, now: Time)
    | BackToQueue(p: nat, error: string, now: Time)
    | Offer(p: nat, region: string, attemptId: string, now: Time)
    | Accept(p: nat, now: Time)
    | WriteCount(p: nat)
    | ReadForUpdate(p: nat, id: string)
    | WriteUpdate(p: nat, msg: Update, canRetry: bool, startedAt: Time, now: Time)
    | ReadForRetry(p: nat, id: string)
    | WriteRetry(p: nat, now: Time)
    | ReadForFailure(p: nat)
    | WriteFailure(p: nat, error: string, now: Time)
    | ReadForRecovery(p: nat, id: string)
    | WriteRecovery(p: nat, now: Time)
    | ReadForRecoveryRetry(p: nat)
    | WriteRecoveryRetry(p: nat, now: Time)
    | Drop(p: nat)

  ghost predicate Enabled(w: World, s: Step)
  {
    match s
    case Enqueue(id, version, _, _) => id !in w.jobs && 0 <= version.maxRetries
    case Claim(p, id, _) => w.At(p).Idle? && id in w.jobs && w.jobs[id].Claimable()
    case RequeueStale(ids, _) => forall id <- ids :: id in w.jobs && w.jobs[id].state.Scheduling?
    case GiveUp(p, _, _) => w.At(p).Claimed?
    case BackToQueue(p, _, _) => (w.At(p).Claimed? && w.At(p).job.MayRetry()) || w.At(p).Offered?
    case Offer(p, _, _, _) => (w.At(p).Claimed? && w.At(p).job.MayRetry()) || w.At(p).Offered?
    case Accept(p, _) => w.At(p).Offered?
    case WriteCount(p) => w.At(p).Counting?
    case ReadForUpdate(p, id) => w.At(p).Idle? && id in w.jobs
    case WriteUpdate(p, _, _, _, _) => w.At(p).Updating?
    case ReadForRetry(p, id) => w.At(p).Idle? && id in w.jobs
    case WriteRetry(p, _) => w.At(p).Retrying? && w.At(p).job.MayRetry()
    case ReadForFailure(p) => w.At(p).Retrying? && !w.At(p).job.MayRetry() && w.At(p).job.id in w.jobs
    case WriteFailure(p, _, _) => w.At(p).Failing?
    case ReadForRecovery(p, id) => w.At(p).Idle? && id in w.jobs
    case WriteRecovery(p, _) => w.At(p).Recovering?
    case ReadForRecoveryRetry(p) => w.At(p).Recovered? && w.At(p).job.id in w.jobs
    case WriteRecoveryRetry(p, _) => w.At(p).RecoverRetrying?
    case Drop(p) => true
  }

  /** The steps of one service on one job: what it writes, if anything, and what it holds next. */
  ghost function Effect(w: World, s: Step): (Option<Job>, Actor)
    requires Enabled(w, s) && !s.Enqueue? && !s.RequeueStale? && !s.Accept?
  {
    var a := w.At(s.p);
    match s
    case Claim(_, id, now) =>
      var j := ClaimedJob(w.jobs[id], now);
      (Some(j), Claimed(j))
    case GiveUp(_, error, now) => (Some(FailedJob(a.job, error, now)), Idle)
    case BackToQueue(_, error, now) => (Some(RequeuedJob(a.job, error, now)), Idle)
    case Offer(_, region, attemptId, now) =>
      var j := OfferedJob(a.job, region, attemptId, now);
      (Some(j), Offered(j))
    case WriteCount(_) => (Some(a.job), Idle)
    case ReadForUpdate(_, id) => (None, Updating(w.jobs[id]))
    case WriteUpdate(_, msg, canRetry, startedAt, now) => (Some(ReportedJob(a.job, msg, canRetry, startedAt, now)), Idle)
    case ReadForRetry(_, id) => (None, Actor.Retrying(w.jobs[id]))
    case WriteRetry(_, now) => (Some(RetriedJob(a.job, now)), Idle)
    case ReadForFailure(_) => (None, Failing(w.jobs[a.job.id]))
    case WriteFailure(_, error, now) => (Some(FailedJob(a.job, error, now)), Idle)
    case ReadForRecovery(_, id) => (None, Recovering(w.jobs[id]))
    case WriteRecovery(_, now) =>
      var j := RecoveredJob(a.job, now);
      (Some(j), if a.job.MayRetry() then Recovered(j) else Idle)
    case ReadForRecoveryRetry(_) => (None, RecoverRetrying(a.job, w.jobs[a.job.id]))
    case WriteRecoveryRetry(_, now) =>
      (Some(if a.latest.MayRetry() then RetriedJob(a.latest, now) else FailedJob(a.job, "exceeded retry budget", now)), Idle)
    case Drop(_) => (None, Idle)
  }

  ghost function Apply(w: World, s: Step): World
    requires Enabled(w, s)
  {
    match s
    case Enqueue(id, version, payload, now) =>
      w.Write(NewJob(id, version, payload, now))
    case RequeueStale(ids, now) =>
      w.(jobs := map id | id in w.jobs :: if id in ids then RequeuedJob(w.jobs[id], "scheduling claim expired before dispatch", now) else w.jobs[id])
    case Accept(p, now) =>
      var j := w.At(p).job;
      w.Move(p, Counting(CountedJob(j, now))).(accepted := w.accepted[j.id := w.Accepted(j.id) + 1])
    case _ =>
      var (j, a) := Effect(w, s);
      (if j.Some? then w.Write(j.value) else w).Move(s.p, a)
  }

  // ---------------------------------------------------------------- what every interleaving keeps

  /** A copy, stored or held: a version of a stored job, within the budget, and never counting more than was accepted. */
  ghost predicate CopyOk(w: World, j: Job)
  {
    && 0 <= j.attemptCount <= j.maxRetries + 1 && j.attemptCount <= w.Accepted(j.id)
    && j.id in w.jobs && w.jobs[j.id].maxRetries == j.maxRetries
  }

  ghost predicate ActorOk(w: World, a: Actor)
  {
    && (!a.Idle? ==> CopyOk(w, a.job))
    && (a.Offered? ==> a.job.MayRetry())
    && (a.RecoverRetrying? ==> CopyOk(w, a.latest) && a.latest.id == a.job.id)
  }

  ghost predicate Inv(w: World)
  {
    && (forall id <- w.jobs :: w.jobs[id].id == id && CopyOk(w, w.jobs[id]))
    && (forall p <- w.actors :: ActorOk(w, w.actors[p]))
  }

  lemma WriteKeepsInv(w: World, j: Job)
    requires Inv(w) && CopyOk(w, j)
    ensures Inv(w.Write(j)) && forall a :: ActorOk(w, a) ==> ActorOk(w.Write(j), a)
  {
  }

  lemma MoveKeepsInv(w: World, p: nat, a: Actor)
    requires Inv(w) && ActorOk(w, a)
    ensures Inv(w.Move(p, a))
  {
    assert forall id <- w.jobs :: CopyOk(w.Move(p, a), w.jobs[id]);
    assert forall q <- w.actors :: ActorOk(w.Move(p, a), w.actors[q]);
  }

  lemma EnqueueKeepsInv(w: World, s: Step)
    requires Inv(w) && Enabled(w, s) && s.Enqueue?
    ensures Inv(Apply(w, s))
  {
    assert forall p <- w.actors :: ActorOk(Apply(w, s), w.actors[p]);
  }

  lemma RequeueKeepsInv(w: World, s: Step)
    requires Inv(w) && Enabled(w, s) && s.RequeueStale?
    ensures Inv(Apply(w, s))
  {
    assert forall p <- w.actors :: ActorOk(Apply(w, s), w.actors[p]);
  }

  lemma AcceptKeepsInv(w: World, s: Step)
    requires Inv(w) && Enabled(w, s) && s.Accept?
    ensures Inv(Apply(w, s))
  {
    assert ActorOk(w, w.At(s.p));
    var w' := Apply(w, s);
    assert ActorOk(w', w'.At(s.p));
    assert forall q <- w.actors :: q != s.p ==> ActorOk(w', w.actors[q]);
  }

  /** What a service writes, and what it holds next, are again versions of stored jobs within budget. */
  lemma EffectOk(w: World, s: Step)
    requires Inv(w) && Enabled(w, s) && !s.Enqueue? && !s.RequeueStale? && !s.Accept?
    ensures var (j, a) := Effect(w, s);
            (j.Some? ==> CopyOk(w, j.value)) && ActorOk(w, a)
  {
    assert ActorOk(w, w.At(s.p));
  }

  lemma StepKeepsInv(w: World, s: Step)
    requires Inv(w) && Enabled(w, s)
    ensures Inv(Apply(w, s))
  {
    if s.Enqueue? {
      EnqueueKeepsInv(w, s);
    } else if s.RequeueStale? {
      RequeueKeepsInv(w, s);
    } else if s.Accept? {
      AcceptKeepsInv(w, s);
    } else {
      var (j, a) := Effect(w, s);
      EffectOk(w, s);
      if j.Some? {
        WriteKeepsInv(w, j.value);
        MoveKeepsInv(w.Write(j.value), s.p, a);
      } else {
        MoveKeepsInv(w, s.p, a);
      }
    }
  }

  // ---------------------------------------------------------------- runs

  const EMPTY: World := World(map[], map[], map[])

  /** A run, step after step. */
  datatype Run = Begin | Then(init: Run, last: Step)

  /** The world a run leads to, provided each of its steps was enabled. */
  ghost function After(w: World, run: Run): Option<World>
  {
    match run
    case Begin => Some(w)
    case Then(init, s) =>
      var v := After(w, init);
      if v.Some? && Enabled(v.value, s) then Some(Apply(v.value, s)) else None
  }

  /** However reads and write-backs interleave, no stored or held copy ever exceeds its budget, and lost updates
      only ever make a record count fewer attempts than were accepted. */
  lemma {:induction false} BudgetHoldsOnEveryCopy(run: Run)
    requires After(EMPTY, run).Some?
    ensures Inv(After(EMPTY, run).value)
  {
    if run.Then? {
      BudgetHoldsOnEveryCopy(run.init);
      StepKeepsInv(After(EMPTY, run.init).value, run.last);
    }
  }

  // ---------------------------------------------------------------- claims

  /** The step writes the job back in a way that may put it into the queue again: it requeues, reports, retries or
      recovers. */
  predicate Releases(w: World, s: Step, id: string)
  {
    match s
    case RequeueStale(ids, _) => id in ids
    case BackToQueue(p, _, _) => !w.At(p).Idle? && w.At(p).job.id == id
    case WriteUpdate(p, _, _, _, _) => !w.At(p).Idle? && w.At(p).job.id == id
    case WriteRetry(p, _) => !w.At(p).Idle? && w.At(p).job.id == id
    case WriteRecovery(p, _) => !w.At(p).Idle? && w.At(p).job.id == id
    case WriteRecoveryRetry(p, _) => !w.At(p).Idle? && w.At(p).job.id == id
    case _ => false
  }

  /** The job was claimed in the run, and nothing has released it since. */
  ghost predicate HeldSince(run: Run, id: string)
    requires After(EMPTY, run).Some?
  {
    run.Then? &&
      ((run.last.Claim? && run.last.id == id) || (HeldSince(run.init, id) && !Releases(After(EMPTY, run.init).value, run.last, id)))
  }

  /** What a dispatcher was offered is assigned. */
  ghost predicate OffersAreAssigned(w: World)
  {
    forall p: nat | w.At(p).Offered? || w.At(p).Counting? :: w.At(p).job.state == JobState.Assigned
  }

  lemma {:induction false} OffersAlwaysAssigned(run: Run)
    requires After(EMPTY, run).Some?
    ensures OffersAreAssigned(After(EMPTY, run).value)
  {
    if run.Then? {
      OffersAlwaysAssigned(run.init);
      StepKeepsAssigned(After(EMPTY, run.init).value, run.last);
    }
  }

  lemma StepKeepsAssigned(w: World, s: Step)
    requires Enabled(w, s) && OffersAreAssigned(w)
    ensures OffersAreAssigned(Apply(w, s))
  {
    var w' := Apply(w, s);
    assert forall q: nat :: w'.At(q) == w.At(q) || (!s.Enqueue? && !s.RequeueStale? && q == s.p);
  }

  lemma HeldStaysHeld(w: World, s: Step, id: string)
    requires Inv(w) && OffersAreAssigned(w) && Enabled(w, s) && id in w.jobs && !w.jobs[id].Claimable() && !Releases(w, s, id)
    ensures id in Apply(w, s).jobs && !Apply(w, s).jobs[id].Claimable()
  {
  }

  /** A claim is exclusive: whatever the services do, nobody claims a job again before a step that releases it. */
  lemma {:induction false} ClaimIsExclusive(run: Run, id: string)
    requires After(EMPTY, run).Some? && HeldSince(run, id)
    ensures var w := After(EMPTY, run).value;
            id in w.jobs && !w.jobs[id].Claimable() && forall q, now :: !Enabled(w, Claim(q, id, now))
  {
    BudgetHoldsOnEveryCopy(run.init);
    if !(run.last.Claim? && run.last.id == id) {
      ClaimIsExclusive(run.init, id);
      OffersAlwaysAssigned(run.init);
      HeldStaysHeld(After(EMPTY, run.init).value, run.last, id);
    }
  }

  // ---------------------------------------------------------------- accepted assignments

  /** The budget on records is not a budget on assignments: a report that was read before the count was written and
      written back after it resets the count, and the job is accepted once more than its budget allows. */
  lemma LostUpdateExceedsBudget() returns (run: Run, id: string)
    ensures After(EMPTY, run).Some? && id in After(EMPTY, run).value.jobs
    ensures After(EMPTY, run).value.Accepted(id) > After(EMPTY, run).value.jobs[id].maxRetries + 1
  {
    id := "j";
    var w;
    run, w := LostCount(id);
    var failed := Update("a", id, "h", "r", Report.Failed, 1, "", "", "boom");
    run, w := Extend(EMPTY, run, w, ReadForUpdate(1, id));
    run, w := Extend(EMPTY, run, w, WriteUpdate(1, failed, true, 5, 6));
    run, w := Extend(EMPTY, run, w, Claim(0, id, 7));
    run, w := Extend(EMPTY, run, w, Offer(0, "r", "b", 8));
    run, w := Extend(EMPTY, run, w, Accept(0, 9));
  }

  lemma Extend(w: World, run: Run, v: World, s: Step) returns (run': Run, v': World)
    requires After(w, run) == Some(v) && Enabled(v, s)
    ensures After(w, run') == Some(v') && v' == Apply(v, s)
  {
    run', v' := Then(run, s), Apply(v, s);
  }

  /** A job without retries is accepted, but a report read before that and written back after it hides the count. */
  lemma LostCount(id: string) returns (run: Run, w: World)
    ensures After(EMPTY, run) == Some(w) && w.At(0).Idle? && w.At(1).Idle? && w.Accepted(id) == 1
    ensures id in w.jobs && w.jobs[id].id == id && w.jobs[id].attemptCount == 0 == w.jobs[id].maxRetries
  {
    run, w := Overlap(id);
    var starting := Update("a", id, "h", "r", Report.Starting, 0, "", "", "");
    run, w := Extend(EMPTY, run, w, WriteCount(0));
    run, w := Extend(EMPTY, run, w, WriteUpdate(1, starting, true, 0, 5));
  }

  /** An acceptance that is still to be counted, beside a report that has read the record. */
  lemma Overlap(id: string) returns (run: Run, w: World)
    ensures After(EMPTY, run) == Some(w) && w.Accepted(id) == 1
    ensures w.At(0).Counting? && w.At(0).job.id == id
    ensures w.At(1).Updating? && w.At(1).job.id == id && w.At(1).job.attemptCount == 0 == w.At(1).job.maxRetries
  {
    var version := FunctionVersion("v", "project", 128, ["r"], 0, "digest");
    run, w := Extend(EMPTY, Begin, EMPTY, Enqueue(id, version, "", 1));
    run, w := Extend(EMPTY, run, w, Claim(0, id, 2));
    run, w := Extend(EMPTY, run, w, Offer(0, "r", "a", 3));
    run, w := Extend(EMPTY, run, w, ReadForUpdate(1, id));
    run, w := Extend(EMPTY, run, w, Accept(0, 4));
  }

  /** The copy counts what is stored now. */
  ghost predicate Seen(w: World, j: Job)
  {
    j.id in w.jobs && w.jobs[j.id].attemptCount == j.attemptCount
  }

  /** Some accepted assignment of the job is not yet counted in the store. */
  ghost predicate Uncounted(w: World, p: nat, id: string)
  {
    w.At(p).Counting? && w.At(p).job.id == id
  }

  /** No write-back over a count it has not seen; an acceptance is neither doubled nor dropped before it is counted. */
  ghost predicate Careful(w: World, s: Step)
    requires Enabled(w, s)
  {
    match s
    case Enqueue(_, _, _, _) => true
    case RequeueStale(_, _) => true
    case Accept(p, _) => Seen(w, w.At(p).job) && forall q :: !Uncounted(w, q, w.At(p).job.id)
    case WriteCount(_) => true
    case _ => !w.At(s.p).Counting? && (Effect(w, s).0.Some? ==> Seen(w, Effect(w, s).0.value))
  }

  /** The stored count and the one uncounted acceptance, if any, account for every accepted assignment. */
  ghost predicate Accounted(w: World, id: string)
  {
    && (forall p, q :: Uncounted(w, p, id) && Uncounted(w, q, id) ==> p == q)
    && (forall p :: Uncounted(w, p, id) ==> w.At(p).job.attemptCount == w.Accepted(id))
    && w.Accepted(id) == (if id in w.jobs then w.jobs[id].attemptCount else 0) + (if exists p :: Uncounted(w, p, id) then 1 else 0)
  }

  /** Steps that change neither the stored count, nor the acceptances, nor who has yet to count one. */
  lemma SameAccount(w: World, w': World, id: string)
    requires Accounted(w, id) && w'.Accepted(id) == w.Accepted(id)
    requires (if id in w.jobs then w.jobs[id].attemptCount else 0) == (if id in w'.jobs then w'.jobs[id].attemptCount else 0)
    requires forall q: nat :: w'.At(q) == w.At(q) || (!w'.At(q).Counting? && !w.At(q).Counting?)
    ensures Accounted(w', id)
  {
    assert forall q :: Uncounted(w', q, id) <==> Uncounted(w, q, id);
  }

  lemma AcceptAccounted(w: World, s: Step, id: string)
    requires Inv(w) && s.Accept? && Enabled(w, s) && Careful(w, s) && Accounted(w, id)
    ensures Accounted(Apply(w, s), id)
  {
    var w', j := Apply(w, s), w.At(s.p).job;
    assert forall q :: q != s.p ==> (Uncounted(w', q, id) <==> Uncounted(w, q, id));
    assert Uncounted(w', s.p, j.id);
  }

  lemma WriteCountAccounted(w: World, s: Step, id: string)
    requires Inv(w) && s.WriteCount? && Enabled(w, s) && Accounted(w, id)
    ensures Accounted(Apply(w, s), id)
  {
    var w', j := Apply(w, s), w.At(s.p).job;
    assert Uncounted(w, s.p, j.id);
    assert forall q :: q != s.p ==> (Uncounted(w', q, id) <==> Uncounted(w, q, id));
    assert ActorOk(w, w.At(s.p));
    if id != j.id {
      assert !Uncounted(w, s.p, id) && !Uncounted(w', s.p, id);
    }
  }

  lemma EffectAccounted(w: World, s: Step, id: string)
    requires Inv(w) && Enabled(w, s) && Careful(w, s) && Accounted(w, id)
    requires !s.Enqueue? && !s.RequeueStale? && !s.Accept? && !s.WriteCount?
    ensures Accounted(Apply(w, s), id)
  {
    var (j, a) := Effect(w, s);
    assert !a.Counting?;
    var v := if j.Some? then w.Write(j.value) else w;
    SameAccount(w, v.Move(s.p, a), id);
  }

  lemma CarefulKeepsAccounted(w: World, s: Step, id: string)
    requires Inv(w) && Enabled(w, s) && Careful(w, s) && Accounted(w, id)
    ensures Accounted(Apply(w, s), id)
  {
    if s.Accept? {
      AcceptAccounted(w, s, id);
    } else if s.WriteCount? {
      WriteCountAccounted(w, s, id);
    } else if s.Enqueue? || s.RequeueStale? {
      SameAccount(w, Apply(w, s), id);
    } else {
      EffectAccounted(w, s, id);
    }
  }

  ghost predicate AllCareful(run: Run)
    requires After(EMPTY, run).Some?
  {
    run.Then? ==> AllCareful(run.init) && Careful(After(EMPTY, run.init).value, run.last)
  }

  /** Without write-backs over unseen counts the budget bounds the accepted assignments too. */
  lemma {:induction false} CarefulRunsKeepBudget(run: Run, id: string)
    requires After(EMPTY, run).Some? && AllCareful(run)
    ensures var w := After(EMPTY, run).value;
            Accounted(w, id) && (id in w.jobs ==> w.Accepted(id) <= w.jobs[id].maxRetries + 1)
  {
    BudgetHoldsOnEveryCopy(run);
    if run.Then? {
      CarefulRunsKeepBudget(run.init, id);
      BudgetHoldsOnEveryCopy(run.init);
      CarefulKeepsAccounted(After(EMPTY, run.init).value, run.last, id);
    }
    var w := After(EMPTY, run).value;
    if id in w.jobs && exists p :: Uncounted(w, p, id) {
      var p :| Uncounted(w, p, id);
      assert ActorOk(w, w.At(p));
    }
  }

  // ---------------------------------------------------------------- and only careful runs

  lemma CarelessAcceptLoses(w: World, s: Step)
    requires Inv(w) && s.Accept? && Enabled(w, s) && Accounted(w, w.At(s.p).job.id) && !Careful(w, s)
    ensures !Accounted(Apply(w, s), w.At(s.p).job.id)
  {
    var w', j := Apply(w, s), w.At(s.p).job;
    assert ActorOk(w, w.At(s.p));
    assert Uncounted(w', s.p, j.id);
    if q :| Uncounted(w, q, j.id) {
      assert q != s.p && Uncounted(w', q, j.id);
    }
  }

  lemma DroppedCountLoses(w: World, s: Step)
    requires Inv(w) && s.Drop? && w.At(s.p).Counting? && Accounted(w, w.At(s.p).job.id)
    ensures !Accounted(Apply(w, s), w.At(s.p).job.id)
  {
    var w', id := Apply(w, s), w.At(s.p).job.id;
    assert Uncounted(w, s.p, id);
    assert forall q :: q != s.p ==> (Uncounted(w', q, id) <==> Uncounted(w, q, id));
  }

  lemma UnseenWriteLoses(w: World, s: Step)
    requires Inv(w) && Enabled(w, s) && !s.Enqueue? && !s.RequeueStale? && !s.Accept? && !s.WriteCount?
    requires !w.At(s.p).Counting? && Effect(w, s).0.Some? && !Seen(w, Effect(w, s).0.value)
    requires Accounted(w, Effect(w, s).0.value.id)
    ensures !Accounted(Apply(w, s), Effect(w, s).0.value.id)
  {
    var (j, a) := Effect(w, s);
    var w', id := Apply(w, s), j.value.id;
    EffectOk(w, s);
    assert forall q :: Uncounted(w', q, id) <==> Uncounted(w, q, id);
  }

  /** A step loses an acceptance exactly when it is not careful. */
  lemma StepAccountsIffCareful(w: World, s: Step)
    requires Inv(w) && Enabled(w, s) && forall id :: Accounted(w, id)
    ensures Careful(w, s) <==> forall id :: Accounted(Apply(w, s), id)
  {
    if Careful(w, s) {
      forall id
        ensures Accounted(Apply(w, s), id)
      {
        CarefulKeepsAccounted(w, s, id);
      }
    } else if s.Accept? {
      CarelessAcceptLoses(w, s);
    } else if w.At(s.p).Counting? {
      DroppedCountLoses(w, s);
    } else {
      UnseenWriteLoses(w, s);
    }
  }

  /** Every acceptance is accounted for at every moment of the run. */
  ghost predicate AlwaysAccounted(run: Run)
    requires After(EMPTY, run).Some?
  {
    (forall id :: Accounted(After(EMPTY, run).value, id)) && (run.Then? ==> AlwaysAccounted(run.init))
  }

  /** The records account for every acceptance throughout a run if and only if all its steps are careful. */
  lemma {:induction false} AccountedIffCareful(run: Run)
    requires After(EMPTY, run).Some?
    ensures AlwaysAccounted(run) <==> AllCareful(run)
  {
    if run.Begin? {
      forall id
        ensures Accounted(EMPTY, id)
      {
        CarefulRunsKeepBudget(run, id);
      }
    } else {
      AccountedIffCareful(run.init);
      BudgetHoldsOnEveryCopy(run.init);
      if AlwaysAccounted(run.init) {
        StepAccountsIffCareful(After(EMPTY, run.init).value, run.last);
      }
    }
  }
}
