/** Lease recovery: failing the attempts whose lease has run out and giving their jobs another try. */
module Recovery {
  import opened Options
  import opened Domain
  import opened Records
  import opened MemoryStore
  import Scheduler

  /** recoverAttempt; None when a row is missing. */
  function Recover(s: Tables, a: Attempt, now: Time): Option<Tables>
  {
    if a.jobId !in s.jobs || a.id !in s.attempts then None else
      var job, latest := s.jobs[a.jobId], s.attempts[a.id];
      if latest.state.Terminal() || latest.leaseExpiresAt > now then Some(s) else
        var s1 := s.PutAttempt(FailedAttempt(latest, LEASE_EXPIRED, now)).PutJob(RecoveredJob(job, now));
        Some(if job.MayRetry() then s1.PutJob(RetriedJob(RecoveredJob(job, now), now)) else s1)
  }

  /** recoverExpiredAttempts from position `i` of its list; `clock(i)` is the time when it reaches that position. */
  function RecoverFrom(s: Tables, list: seq<Attempt>, i: nat, clock: nat -> Time): Option<Tables>
    decreases |list| - i
  {
    if i >= |list| then Some(s)
    else if list[i].state.Terminal() then RecoverFrom(s, list, i + 1, clock)
    else
      var r := Recover(s, list[i], clock(i));
      if r.None? then None else RecoverFrom(r.value, list, i + 1, clock)
  }

  /** How far the pass gets: all of it, or up to the first attempt with a missing row. */
  function Reached(s: Tables, list: seq<Attempt>, i: nat, clock: nat -> Time): Tables
    decreases |list| - i
  {
    if i >= |list| then s
    else if list[i].state.Terminal() then Reached(s, list, i + 1, clock)
    else
      var r := Recover(s, list[i], clock(i));
      if r.None? then s else Reached(r.value, list, i + 1, clock)
  }

  /** A pass that succeeds reaches its end; one that does not stops at a listed attempt whose row or job is missing. */
  lemma {:induction false} PassReaches(s: Tables, list: seq<Attempt>, i: nat, clock: nat -> Time)
    ensures var r := RecoverFrom(s, list, i, clock);
            && (r.Some? ==> Reached(s, list, i, clock) == r.value)
            && (r.None? ==> exists k :: i <= k < |list| && Recover(Reached(s, list, i, clock), list[k], clock(k)).None?)
    decreases |list| - i
  {
    if i < |list| {
      if list[i].state.Terminal() {
        PassReaches(s, list, i + 1, clock);
      } else if Recover(s, list[i], clock(i)).Some? {
        PassReaches(Recover(s, list[i], clock(i)).value, list, i + 1, clock);
      }
    }
  }

  // ---------------------------------------------------------------- what a pass leaves behind

  /** The rows `list[i..]` are still as listed, and expired. */
  ghost predicate Pending(s: Tables, list: seq<Attempt>, i: nat, clock: nat -> Time)
  {
    && (forall k :: i <= k < |list| ==>
          && list[k].id in s.attempts && s.attempts[list[k].id] == list[k]
          && !list[k].state.Terminal() && list[k].leaseExpiresAt <= clock(k))
    && (forall k, l :: i <= k < l < |list| ==> list[k].id != list[l].id)
  }

  /** The job of a swept attempt: back in the queue within its budget, failed beyond it. */
  ghost predicate SweptJob(was: Job, now: Job)
  {
    && now.(state := was.state, error := was.error, targetRegion := was.targetRegion, updatedAt := was.updatedAt) == was
    && (was.MayRetry() ==> now.state == Retrying && now.error == "" && now.targetRegion == "")
    && (!was.MayRetry() ==>
          now.state == JobState.Failed && now.error == "lease expired before completion" && now.targetRegion == was.targetRegion)
  }

  /** A swept attempt has failed with the lease error, and its lease ends with it. */
  ghost predicate SweptAttempt(was: Attempt, a: Attempt, at: Time)
  {
    && a.state == AttemptState.Failed && a.error == "lease expired before completion" && a.leaseExpiresAt == a.updatedAt == at
    && a.(state := was.state, error := was.error, leaseExpiresAt := was.leaseExpiresAt, updatedAt := was.updatedAt) == was
  }

  /** The second look: an attempt that has ended or whose lease was renewed since it was listed is spared; any other is
      swept together with its job. */
  lemma RecoverSettles(s: Tables, a: Attempt, now: Time)
    requires s.Keyed()
    ensures var r := Recover(s, a, now);
            && (r.None? <==> a.jobId !in s.jobs || a.id !in s.attempts)
            && (r.Some? ==>
                  var latest := s.attempts[a.id];
                  if latest.state == AttemptState.Succeeded || latest.state == AttemptState.Failed || now < latest.leaseExpiresAt then r.value == s
                  else
                    && r.value.attempts.Keys == s.attempts.Keys && r.value.jobs.Keys == s.jobs.Keys && r.value.costs == s.costs
                    && SweptAttempt(latest, r.value.attempts[a.id], now) && (forall k <- s.attempts | k != a.id :: r.value.attempts[k] == s.attempts[k])
                    && SweptJob(s.jobs[a.jobId], r.value.jobs[a.jobId]) && (forall k <- s.jobs | k != a.jobId :: r.value.jobs[k] == s.jobs[k]))
  {
  }

  lemma SweptTwice(a: Job, b: Job, c: Job)
    requires SweptJob(a, b) && SweptJob(b, c)
    ensures SweptJob(a, c)
  {
  }

  ghost predicate Owns(list: seq<Attempt>, i: nat, jobId: string)
  {
    exists k :: i <= k < |list| && list[k].jobId == jobId
  }

  ghost predicate Lists(list: seq<Attempt>, i: nat, id: string)
  {
    exists k :: i <= k < |list| && list[k].id == id
  }

  lemma RecoverOne(s: Tables, list: seq<Attempt>, i: nat, clock: nat -> Time)
    requires s.Keyed() && Pending(s, list, i, clock) && i < |list|
    ensures var a, r := list[i], Recover(s, list[i], clock(i));
            && r.Some? && r.value.Keyed() && r.value.costs == s.costs && Pending(r.value, list, i + 1, clock)
            && r.value.attempts == s.attempts[a.id := FailedAttempt(a, LEASE_EXPIRED, clock(i))]
            && a.jobId in s.jobs && a.jobId in r.value.jobs && r.value.jobs == s.jobs[a.jobId := r.value.jobs[a.jobId]]
            && SweptJob(s.jobs[a.jobId], r.value.jobs[a.jobId]) && r.value.jobs[a.jobId].updatedAt == clock(i)
  {
  }

  lemma {:induction false} SweepSucceeds(s: Tables, list: seq<Attempt>, i: nat, clock: nat -> Time)
    requires s.Keyed() && Pending(s, list, i, clock)
    ensures var r := RecoverFrom(s, list, i, clock);
            && r.Some? && r.value.Keyed() && r.value.costs == s.costs
            && r.value.jobs.Keys == s.jobs.Keys && r.value.attempts.Keys == s.attempts.Keys
    decreases |list| - i
  {
    if i < |list| {
      RecoverOne(s, list, i, clock);
      SweepSucceeds(Recover(s, list[i], clock(i)).value, list, i + 1, clock);
    }
  }

  /** After a pass every listed attempt is failed and every other attempt untouched. */
  lemma {:induction false} SweptAttempts(s: Tables, list: seq<Attempt>, i: nat, clock: nat -> Time, id: string)
    requires s.Keyed() && Pending(s, list, i, clock) && id in s.attempts
    ensures var r := RecoverFrom(s, list, i, clock);
            && r.Some? && id in r.value.attempts
            && (!Lists(list, i, id) ==> r.value.attempts[id] == s.attempts[id])
            && (forall k :: i <= k < |list| && list[k].id == id ==> SweptAttempt(s.attempts[id], r.value.attempts[id], clock(k)))
    decreases |list| - i
  {
    if i < |list| {
      RecoverOne(s, list, i, clock);
      SweptAttempts(Recover(s, list[i], clock(i)).value, list, i + 1, clock, id);
      if list[i].id == id {
        assert !Lists(list, i + 1, id);
      }
    }
  }

  /** After a pass the jobs owning a listed attempt, one or several, are retrying or failed according to their
      budgets, and every other job is untouched. */
  lemma {:induction false} SweptJobs(s: Tables, list: seq<Attempt>, i: nat, clock: nat -> Time, id: string, lo: Time, hi: Time)
    requires s.Keyed() && Pending(s, list, i, clock) && id in s.jobs
    requires forall k: nat :: i <= k < |list| ==> lo <= clock(k) <= hi
    ensures var r := RecoverFrom(s, list, i, clock);
            && r.Some? && id in r.value.jobs
            && if Owns(list, i, id) then SweptJob(s.jobs[id], r.value.jobs[id]) && lo <= r.value.jobs[id].updatedAt <= hi
               else r.value.jobs[id] == s.jobs[id]
    decreases |list| - i
  {
    if i < |list| {
      RecoverOne(s, list, i, clock);
      var s1 := Recover(s, list[i], clock(i)).value;
      SweptJobs(s1, list, i + 1, clock, id, lo, hi);
      assert Owns(list, i, id) <==> list[i].jobId == id || Owns(list, i + 1, id);
      if list[i].jobId == id && Owns(list, i + 1, id) {
        SweptTwice(s.jobs[id], s1.jobs[id], RecoverFrom(s, list, i, clock).value.jobs[id]);
      }
    }
  }

  // ---------------------------------------------------------------- the service

  method RecoverAttempt(store: Store, a: Attempt, now: Time) returns (ok: bool)
    requires KeyedJobs(store.jobs)
    modifies store`jobs, store`attempts
    ensures ok <==> Recover(old(store.View()), a, now).Some?
    ensures ok ==> Some(store.View()) == Recover(old(store.View()), a, now)
    ensures !ok ==> store.View() == old(store.View())
    ensures KeyedJobs(store.jobs)
  {
    if a.jobId !in store.jobs || a.id !in store.attempts {
      return false;
    }
    var job, latest := store.jobs[a.jobId], store.attempts[a.id];
    if latest.state.Terminal() || latest.leaseExpiresAt > now {
      return true;
    }
    store.PutAttempt(FailedAttempt(latest, LEASE_EXPIRED, now));
    store.PutJob(RecoveredJob(job, now));
    if job.attemptCount <= job.maxRetries {
      // the budget was checked on the same record, so the retry is not refused
      var r := Scheduler.RetryExecution(store, job.id, now);
      assert r.Ok?;
    }
    return true;
  }

  /** recoverExpiredAttempts; the clock is read once for the list and once for each attempt. */
  method RecoverExpiredAttempts(store: Store, begun: Time, clock: nat -> Time) returns (ok: bool, ghost list: seq<Attempt>)
    requires store.View().Keyed()
    modifies store`jobs, store`attempts
    ensures ListsExpired(old(store.attempts), begun, list)
    ensures var r := RecoverFrom(old(store.View()), list, 0, clock);
            (ok <==> r.Some?) && store.View() == Reached(old(store.View()), list, 0, clock)
  {
    var expired := store.ListExpiredAttempts(begun);
    list := expired;
    var i := 0;
    while i < |expired|
      invariant 0 <= i <= |expired| && KeyedJobs(store.jobs)
      invariant RecoverFrom(store.View(), expired, i, clock) == RecoverFrom(old(store.View()), expired, 0, clock)
      invariant Reached(store.View(), expired, i, clock) == Reached(old(store.View()), expired, 0, clock)
    {
      ok := RecoverAttempt(store, expired[i], clock(i));
      if !ok {
        return;
      }
      i := i + 1;
    }
    ok := true;
  }
}
