/** The in-memory store: the tables every service reads and overwrites. */
module MemoryStore {
  import opened Options
  import opened Domain
  import opened Records
  import Text

  /** The tables the execution services write. */
  datatype Tables = Tables(jobs: map<string, Job>, attempts: map<string, Attempt>, costs: map<string, CostRecord>)
  {
    function PutJob(j: Job): Tables { this.(jobs := jobs[j.id := j]) }
    function PutAttempt(a: Attempt): Tables { this.(attempts := attempts[a.id := a]) }
    function PutCost(c: CostRecord): Tables { this.(costs := costs[c.id := c]) }

    /** Rows are stored under their own ids, and every attempt belongs to a stored job. */
    ghost predicate Keyed()
    {
      && KeyedJobs(jobs)
      && (forall id <- attempts :: attempts[id].id == id && attempts[id].jobId in jobs)
    }
  }

  ghost predicate KeyedJobs(jobs: map<string, Job>)
  {
    forall id <- jobs :: jobs[id].id == id
  }

  // ---------------------------------------------------------------- the claim order

  /** The order in which ClaimNextExecutionJob prefers candidates. */
  predicate Earlier(a: Job, b: Job)
  {
    || a.updatedAt < b.updatedAt
    || (a.updatedAt == b.updatedAt && a.createdAt < b.createdAt)
    || (a.updatedAt == b.updatedAt && a.createdAt == b.createdAt && Text.Less(a.id, b.id))
  }

  lemma EarlierIsStrict(a: Job, b: Job)
    requires Earlier(a, b)
    ensures !Earlier(b, a)
  {
    if Text.Less(a.id, b.id) && Text.Less(b.id, a.id) {
      Text.LessTransitive(a.id, b.id, a.id);
      Text.LessIrreflexive(a.id);
    }
  }

  lemma EarlierTransitive(a: Job, b: Job, c: Job)
    requires Earlier(a, b) && Earlier(b, c)
    ensures Earlier(a, c)
  {
    if Text.Less(a.id, b.id) && Text.Less(b.id, c.id) {
      Text.LessTransitive(a.id, b.id, c.id);
    }
  }

  lemma EarlierTotal(a: Job, b: Job)
    requires a.id != b.id
    ensures Earlier(a, b) || Earlier(b, a)
  {
    Text.LessTotal(a.id, b.id);
  }

  /** The job a claim takes: claimable, and earlier than every other claimable job. */
  ghost predicate IsNext(jobs: map<string, Job>, id: string)
  {
    && id in jobs && jobs[id].Claimable()
    && forall k <- jobs :: k != id && jobs[k].Claimable() ==> Earlier(jobs[id], jobs[k])
  }

  /** No later update, then no later creation, then no greater id. */
  ghost predicate Oldest(a: Job, b: Job)
  {
    && a.updatedAt <= b.updatedAt
    && (a.updatedAt == b.updatedAt ==> a.createdAt <= b.createdAt)
    && (a.updatedAt == b.updatedAt && a.createdAt == b.createdAt ==> a.id == b.id || Text.Less(a.id, b.id))
  }

  /** The claim does not depend on the order in which the map is scanned. */
  lemma NextIsUnique(jobs: map<string, Job>, a: string, b: string)
    requires IsNext(jobs, a) && IsNext(jobs, b)
    ensures a == b
  {
    if a != b {
      EarlierIsStrict(jobs[a], jobs[b]);
    }
  }

  /** Among claimable jobs there is a next one. */
  lemma {:induction false} NextExists(jobs: map<string, Job>, ids: set<string>) returns (id: string)
    requires KeyedJobs(jobs) && ids != {} && forall k <- ids :: k in jobs && jobs[k].Claimable()
    ensures id in ids && forall k <- ids :: k != id ==> Earlier(jobs[id], jobs[k])
    decreases |ids|
  {
    var x :| x in ids;
    id := x;
    if ids != {x} {
      assert ids - {x} != {};
      var y := NextExists(jobs, ids - {x});
      EarlierTotal(jobs[x], jobs[y]);
      if Earlier(jobs[y], jobs[x]) {
        id := y;
      } else {
        forall k <- ids | k != x
          ensures Earlier(jobs[x], jobs[k])
        {
          if k != y {
            EarlierTransitive(jobs[x], jobs[y], jobs[k]);
          }
        }
      }
    }
  }

  ghost function ClaimableIds(jobs: map<string, Job>): set<string>
  {
    set id | id in jobs && jobs[id].Claimable()
  }

  predicate Active(j: Job, projectId: string)
  {
    j.projectId == projectId && !j.state.Succeeded? && !j.state.Failed?
  }

  ghost function ActiveIds(jobs: map<string, Job>, projectId: string): set<string>
  {
    set id | id in jobs && Active(jobs[id], projectId)
  }

  // ---------------------------------------------------------------- stale claims and expired leases

  predicate StaleClaim(j: Job, before: Time)
  {
    j.state.Scheduling? && j.updatedAt <= before
  }

  const CLAIM_EXPIRED: string := "scheduling claim expired before dispatch"

  ghost function Requeue(jobs: map<string, Job>, before: Time, now: Time): map<string, Job>
  {
    map id | id in jobs :: if StaleClaim(jobs[id], before) then RequeuedJob(jobs[id], CLAIM_EXPIRED, now) else jobs[id]
  }

  /** A claim not written since `before` is queued again, for any region and with the reason; any other job is as it was. */
  ghost predicate Requeued(was: Job, j: Job, before: Time, now: Time)
  {
    if was.state == Scheduling && was.updatedAt <= before then
      && j.state == Queued && j.targetRegion == "" && j.error == "scheduling claim expired before dispatch" && j.updatedAt == now
      && j.(state := was.state, targetRegion := was.targetRegion, error := was.error, updatedAt := was.updatedAt) == was
    else j == was
  }

  lemma RequeueReturnsStaleClaims(jobs: map<string, Job>, before: Time, now: Time)
    ensures Requeue(jobs, before, now).Keys == jobs.Keys
    ensures forall id <- jobs :: Requeued(jobs[id], Requeue(jobs, before, now)[id], before, now)
  {
  }

  predicate Expired(a: Attempt, before: Time)
  {
    !a.state.Terminal() && a.leaseExpiresAt != ZERO && a.leaseExpiresAt <= before
  }

  /** A list that names each expired attempt once, in some order. */
  ghost predicate ListsExpired(attempts: map<string, Attempt>, before: Time, list: seq<Attempt>)
  {
    && (forall i :: 0 <= i < |list| ==>
          list[i].id in attempts && attempts[list[i].id] == list[i] && Expired(list[i], before))
    && (forall i, j :: 0 <= i < j < |list| ==> list[i].id != list[j].id)
    && (forall id <- attempts :: Expired(attempts[id], before) ==> exists i :: 0 <= i < |list| && list[i].id == id)
  }

  /** The list holds the attempts that are assigned, starting or running and whose lease is set and has run out. */
  lemma ListedIff(attempts: map<string, Attempt>, before: Time, list: seq<Attempt>, a: Attempt)
    requires ListsExpired(attempts, before, list)
    ensures a in list <==>
      && a.id in attempts && attempts[a.id] == a && a.state in {AttemptState.Assigned, AttemptState.Starting, AttemptState.Running}
      && a.leaseExpiresAt != ZERO && a.leaseExpiresAt <= before
  {
    if a.id in attempts && attempts[a.id] == a && Expired(a, before) {
      var i :| 0 <= i < |list| && list[i].id == a.id;
      assert list[i] == a;
    }
  }

  class Store {
    var jobs: map<string, Job>
    var attempts: map<string, Attempt>
    var costs: map<string, CostRecord>
    var versions: map<string, FunctionVersion>
    var projects: map<string, Project>

    constructor ()
      ensures View() == Tables(map[], map[], map[])
      ensures versions == map[] && projects == map[]
    {
      jobs, attempts, costs, versions, projects := map[], map[], map[], map[], map[];
    }

    ghost function View(): Tables
      reads this
    {
      Tables(jobs, attempts, costs)
    }

    /** PutExecutionJob and UpdateExecutionJob overwrite the whole row. */
    method PutJob(job: Job)
      modifies this`jobs
      ensures View() == old(View()).PutJob(job)
    {
      jobs := jobs[job.id := job];
    }

    /** PutAttempt and UpdateAttempt overwrite the whole row. */
    method PutAttempt(attempt: Attempt)
      modifies this`attempts
      ensures View() == old(View()).PutAttempt(attempt)
    {
      attempts := attempts[attempt.id := attempt];
    }

    method PutCostRecord(record: CostRecord)
      modifies this`costs
      ensures View() == old(View()).PutCost(record)
    {
      costs := costs[record.id := record];
    }

    /** CountExecutionJobsByProjectStates over the non-terminal states. */
    method CountActive(projectId: string) returns (count: nat)
      ensures count == |ActiveIds(jobs, projectId)|
      ensures ActiveIds(jobs, projectId) ==
                set id | id in jobs && jobs[id].projectId == projectId && jobs[id].state in {Queued, Scheduling, JobState.Assigned, JobState.Running, Retrying}
    {
      count := 0;
      var rest := jobs.Keys;
      ghost var seen := {};
      while rest != {}
        invariant rest <= jobs.Keys
        invariant seen == (set id | id in jobs && id !in rest && Active(jobs[id], projectId)) && count == |seen|
        decreases |rest|
      {
        var id :| id in rest;
        rest := rest - {id};
        if Active(jobs[id], projectId) {
          seen, count := seen + {id}, count + 1;
        }
      }
      assert seen == ActiveIds(jobs, projectId);
    }

    /** ClaimNextExecutionJob: a scan in arbitrary order that keeps the earliest claimable job seen so far. */
    method ClaimNext(now: Time) returns (claimed: Option<Job>)
      requires KeyedJobs(jobs)
      modifies this`jobs
      ensures claimed.None? ==> ClaimableIds(jobs) == {} && jobs == old(jobs)
      ensures claimed.Some? ==>
                && IsNext(old(jobs), claimed.value.id)
                && claimed.value == ClaimedJob(old(jobs)[claimed.value.id], now)
                && jobs == old(jobs)[claimed.value.id := claimed.value]
      ensures claimed.None? <==> forall k <- old(jobs) :: !old(jobs)[k].state.Queued? && !old(jobs)[k].state.Retrying?
      ensures claimed.Some? ==>
                && claimed.value.state == Scheduling && claimed.value.updatedAt == now
                && ClaimableIds(jobs) == ClaimableIds(old(jobs)) - {claimed.value.id}
                && forall k <- ClaimableIds(old(jobs)) :: Oldest(old(jobs)[claimed.value.id], old(jobs)[k])
    {
      var chosen: Option<Job> := None;
      var rest := jobs.Keys;
      while rest != {}
        invariant jobs == old(jobs) && rest <= jobs.Keys
        invariant chosen.None? ==> forall k <- jobs :: jobs[k].Claimable() ==> k in rest
        invariant chosen.Some? ==>
                    && chosen.value.id in jobs && jobs[chosen.value.id] == chosen.value && chosen.value.Claimable()
                    && chosen.value.id !in rest
                    && forall k <- jobs :: k !in rest && k != chosen.value.id && jobs[k].Claimable() ==> Earlier(chosen.value, jobs[k])
        decreases |rest|
      {
        var id :| id in rest;
        var candidate := jobs[id];
        if candidate.Claimable() {
          if chosen.None? || Earlier(candidate, chosen.value) {
            forall k | k in jobs && k !in rest && k != id && jobs[k].Claimable()
              ensures Earlier(candidate, jobs[k])
            {
              if k != chosen.value.id {
                EarlierTransitive(candidate, chosen.value, jobs[k]);
              }
            }
            chosen := Some(candidate);
          } else {
            EarlierTotal(candidate, chosen.value);
          }
        }
        rest := rest - {id};
      }
      if chosen.None? {
        return None;
      }
      var job := ClaimedJob(chosen.value, now);
      jobs := jobs[job.id := job];
      return Some(job);
    }

    /** RequeueStaleExecutionJobs, row by row. */
    method RequeueStale(before: Time, now: Time) returns (count: nat)
      modifies this`jobs
      ensures jobs == Requeue(old(jobs), before, now)
      ensures count == |set id | id in old(jobs) && StaleClaim(old(jobs)[id], before)|
    {
      count := 0;
      var was := jobs;
      var rest := jobs.Keys;
      ghost var stale := {};
      while rest != {}
        invariant rest <= was.Keys && jobs.Keys == was.Keys
        invariant forall id <- was :: jobs[id] == if id in rest then was[id] else Requeue(was, before, now)[id]
        invariant stale == (set id | id in was && id !in rest && StaleClaim(was[id], before)) && count == |stale|
        decreases |rest|
      {
        var id :| id in rest;
        rest := rest - {id};
        if StaleClaim(was[id], before) {
          jobs := jobs[id := RequeuedJob(was[id], CLAIM_EXPIRED, now)];
          stale, count := stale + {id}, count + 1;
        }
      }
      assert stale == set id | id in was && StaleClaim(was[id], before);
    }

    method ListExpiredAttempts(before: Time) returns (list: seq<Attempt>)
      requires View().Keyed()
      ensures ListsExpired(attempts, before, list)
    {
      list := [];
      var rest := attempts.Keys;
      while rest != {}
        invariant rest <= attempts.Keys
        invariant forall i :: 0 <= i < |list| ==>
                    list[i].id in attempts && list[i].id !in rest && attempts[list[i].id] == list[i] && Expired(list[i], before)
        invariant forall i, j :: 0 <= i < j < |list| ==> list[i].id != list[j].id
        invariant forall id <- attempts :: id !in rest && Expired(attempts[id], before) ==> exists i :: 0 <= i < |list| && list[i].id == id
        decreases |rest|
      {
        var id :| id in rest;
        rest := rest - {id};
        if Expired(attempts[id], before) {
          ghost var was := list;
          list := list + [attempts[id]];
          assert list[|was|].id == id;
          assert forall i :: 0 <= i < |was| ==> list[i] == was[i];
        }
      }
    }
  }
}
