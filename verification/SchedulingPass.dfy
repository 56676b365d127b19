/** schedulePending: a pass claims and dispatches jobs, one round after the other, until nothing is claimable or a
    dispatcher has no capacity left. */
module SchedulingPass {
  import opened Options
  import opened Domain
  import opened Records
  import opened MemoryStore
  import opened Scheduler

  type Versions = map<string, FunctionVersion>

  // ---------------------------------------------------------------- what a round does to the queue

  function VerdictOf(lookup: Lookup): Verdict
  {
    if lookup.Ranked? then VerdictFrom(lookup.offers, 0) else Unplaced
  }

  /** Out of the queue for good, back into the queue, or back and the pass is over. */
  datatype Outcome = Taken | Returned | Stopped

  /** A job over its budget or without its version fails for good; any other is dispatched. */
  function OutcomeOf(job: Job, found: bool, r: Round): Outcome
  {
    if !job.MayRetry() || !found then Taken
    else
      match VerdictOf(r.lookup)
      case Dispatched => Taken
      case Unplaced => Returned
      case Exhausted => Stopped
  }

  lemma RoundHasOutcome(s: Tables, id: string, found: bool, r: Round)
    requires KeyedJobs(s.jobs) && id in s.jobs && s.jobs[id].Claimable()
    ensures var (t, goesOn) := ScheduleClaimed(s, id, found, r);
            var o := OutcomeOf(s.jobs[id], found, r);
            && (goesOn <==> !o.Stopped?)
            && ClaimableIds(t.jobs) == (if o.Taken? then ClaimableIds(s.jobs) - {id} else ClaimableIds(s.jobs))
  {
    var job := ClaimedJob(s.jobs[id], r.claimAt);
    RoundOutcome(s, id, found, r);
    if r.lookup.Ranked? {
      OffersGiveVerdict(s.PutJob(job), job, r.lookup.offers, 0, r.at, "", r.lookup.end);
    }
  }

  /** A round rewrites its own job, and keeps its id, version and budget. */
  lemma RoundKeepsJobs(s: Tables, id: string, found: bool, r: Round)
    requires KeyedJobs(s.jobs) && id in s.jobs
    ensures var t := ScheduleClaimed(s, id, found, r).0;
            && KeyedJobs(t.jobs) && t.jobs.Keys == s.jobs.Keys && (forall k <- s.jobs | k != id :: t.jobs[k] == s.jobs[k])
            && t.jobs[id].versionId == s.jobs[id].versionId
            && (OutcomeOf(s.jobs[id], found, r).Returned? ==> t.jobs[id].MayRetry())
  {
    var job := ClaimedJob(s.jobs[id], r.claimAt);
    if r.lookup.Ranked? {
      OffersTouchOneJob(s.PutJob(job), job, r.lookup.offers, 0, r.at, "", r.lookup.end);
      OffersGiveVerdict(s.PutJob(job), job, r.lookup.offers, 0, r.at, "", r.lookup.end);
    }
  }

  // ---------------------------------------------------------------- a pass, round by round

  /** Where a pass stands: the tables, whether it is over, and how many jobs it has taken out of the queue. */
  datatype Pass = Pass(tables: Tables, ended: bool, taken: nat)

  lemma SomeJobIsNext(jobs: map<string, Job>)
    requires KeyedJobs(jobs) && ClaimableIds(jobs) != {}
    ensures exists id :: IsNext(jobs, id)
  {
    var id := NextExists(jobs, ClaimableIds(jobs));
    assert IsNext(jobs, id);
  }

  ghost function Next(jobs: map<string, Job>): (id: string)
    requires KeyedJobs(jobs) && ClaimableIds(jobs) != {}
    ensures IsNext(jobs, id)
  {
    SomeJobIsNext(jobs);
    var id :| IsNext(jobs, id);
    id
  }

  ghost function OutcomeIn(s: Tables, versions: Versions, r: Round): Outcome
    requires KeyedJobs(s.jobs) && ClaimableIds(s.jobs) != {}
  {
    var job := s.jobs[Next(s.jobs)];
    OutcomeOf(job, job.versionId in versions, r)
  }

  ghost function RunRound(p: Pass, versions: Versions, r: Round): (q: Pass)
    requires KeyedJobs(p.tables.jobs)
    ensures KeyedJobs(q.tables.jobs)
  {
    if p.ended then p
    else if ClaimableIds(p.tables.jobs) == {} then p.(ended := true)
    else
      var id := Next(p.tables.jobs);
      var found := p.tables.jobs[id].versionId in versions;
      RoundKeepsJobs(p.tables, id, found, r);
      var (t, goesOn) := ScheduleClaimed(p.tables, id, found, r);
      Pass(t, !goesOn, if OutcomeIn(p.tables, versions, r).Taken? then p.taken + 1 else p.taken)
  }

  ghost function PassAfter(s: Tables, versions: Versions, rounds: nat -> Round, n: nat): (p: Pass)
    requires KeyedJobs(s.jobs)
    ensures KeyedJobs(p.tables.jobs)
  {
    if n == 0 then Pass(s, false, 0) else RunRound(PassAfter(s, versions, rounds, n - 1), versions, rounds(n - 1))
  }

  lemma RoundCounts(p: Pass, versions: Versions, r: Round)
    requires KeyedJobs(p.tables.jobs)
    ensures var q := RunRound(p, versions, r);
            && |ClaimableIds(q.tables.jobs)| + q.taken == |ClaimableIds(p.tables.jobs)| + p.taken
            && ClaimableIds(q.tables.jobs) <= ClaimableIds(p.tables.jobs)
            && (!p.ended ==> (q.ended <==> ClaimableIds(p.tables.jobs) == {} || OutcomeIn(p.tables, versions, r).Stopped?))
  {
    if !p.ended && ClaimableIds(p.tables.jobs) != {} {
      var id := Next(p.tables.jobs);
      RoundHasOutcome(p.tables, id, p.tables.jobs[id].versionId in versions, r);
      assert id in ClaimableIds(p.tables.jobs);
    }
  }

  /** After any number of rounds the queue is shorter by exactly the jobs taken out. */
  lemma {:induction false} QueueFallsByTaken(s: Tables, versions: Versions, rounds: nat -> Round, n: nat)
    requires KeyedJobs(s.jobs)
    ensures var p := PassAfter(s, versions, rounds, n);
            && |ClaimableIds(p.tables.jobs)| == |ClaimableIds(s.jobs)| - p.taken
            && ClaimableIds(p.tables.jobs) <= ClaimableIds(s.jobs)
  {
    if n > 0 {
      QueueFallsByTaken(s, versions, rounds, n - 1);
      RoundCounts(PassAfter(s, versions, rounds, n - 1), versions, rounds(n - 1));
    }
  }

  lemma {:induction false} EndedStays(s: Tables, versions: Versions, rounds: nat -> Round, m: nat, n: nat)
    requires KeyedJobs(s.jobs) && m <= n && PassAfter(s, versions, rounds, m).ended
    ensures PassAfter(s, versions, rounds, n) == PassAfter(s, versions, rounds, m)
  {
    if m < n {
      EndedStays(s, versions, rounds, m, n - 1);
    }
  }

  ghost predicate Ends(s: Tables, versions: Versions, rounds: nat -> Round)
    requires KeyedJobs(s.jobs)
  {
    exists n: nat :: PassAfter(s, versions, rounds, n).ended
  }

  /** After `n` rounds the pass is still on, and the next round meets a dispatcher without capacity. */
  ghost predicate MeetsExhaustion(s: Tables, versions: Versions, rounds: nat -> Round, n: nat)
    requires KeyedJobs(s.jobs)
  {
    var p := PassAfter(s, versions, rounds, n);
    !p.ended && ClaimableIds(p.tables.jobs) != {} && OutcomeIn(p.tables, versions, rounds(n)).Stopped?
  }

  lemma {:induction false} EndHasReason(s: Tables, versions: Versions, rounds: nat -> Round, n: nat) returns (m: nat)
    requires KeyedJobs(s.jobs) && PassAfter(s, versions, rounds, n).ended
    ensures MeetsExhaustion(s, versions, rounds, m) || PassAfter(s, versions, rounds, m).taken == |ClaimableIds(s.jobs)|
    ensures !PassAfter(s, versions, rounds, m).ended
  {
    m := n - 1;
    if PassAfter(s, versions, rounds, m).ended {
      m := EndHasReason(s, versions, rounds, m);
    } else {
      RoundCounts(PassAfter(s, versions, rounds, m), versions, rounds(m));
      QueueFallsByTaken(s, versions, rounds, m);
    }
  }

  lemma ReasonEnds(s: Tables, versions: Versions, rounds: nat -> Round, n: nat)
    requires KeyedJobs(s.jobs)
    requires MeetsExhaustion(s, versions, rounds, n) || PassAfter(s, versions, rounds, n).taken == |ClaimableIds(s.jobs)|
    ensures PassAfter(s, versions, rounds, n + 1).ended
  {
    QueueFallsByTaken(s, versions, rounds, n);
    RoundCounts(PassAfter(s, versions, rounds, n), versions, rounds(n));
  }

  /** A pass ends if and only if some round meets exhausted capacity or as many jobs are taken as were claimable. */
  lemma PassEndsIff(s: Tables, versions: Versions, rounds: nat -> Round)
    requires KeyedJobs(s.jobs)
    ensures Ends(s, versions, rounds) <==>
      || (exists n: nat :: MeetsExhaustion(s, versions, rounds, n))
      || (exists n: nat :: PassAfter(s, versions, rounds, n).taken == |ClaimableIds(s.jobs)|)
  {
    if n: nat :| PassAfter(s, versions, rounds, n).ended {
      var m := EndHasReason(s, versions, rounds, n);
    }
    if n: nat :| MeetsExhaustion(s, versions, rounds, n) {
      ReasonEnds(s, versions, rounds, n);
    }
    if n: nat :| PassAfter(s, versions, rounds, n).taken == |ClaimableIds(s.jobs)| {
      ReasonEnds(s, versions, rounds, n);
    }
  }

  /** Every job that can be claimed is within its budget and has its function version. */
  ghost predicate AllFit(s: Tables, versions: Versions)
  {
    forall k <- ClaimableIds(s.jobs) :: s.jobs[k].MayRetry() && s.jobs[k].versionId in versions
  }

  /** How many of the first `n` rounds find a dispatcher that accepts. */
  function Dispatches(rounds: nat -> Round, n: nat): nat
  {
    if n == 0 then 0 else Dispatches(rounds, n - 1) + (if VerdictOf(rounds(n - 1).lookup).Dispatched? then 1 else 0)
  }

  lemma FitRound(p: Pass, versions: Versions, r: Round)
    requires KeyedJobs(p.tables.jobs) && !p.ended && ClaimableIds(p.tables.jobs) != {} && AllFit(p.tables, versions)
    ensures var q := RunRound(p, versions, r);
            && (q.ended <==> VerdictOf(r.lookup).Exhausted?)
            && q.taken == p.taken + (if VerdictOf(r.lookup).Dispatched? then 1 else 0)
            && (!q.ended ==> AllFit(q.tables, versions))
  {
    var id := Next(p.tables.jobs);
    assert id in ClaimableIds(p.tables.jobs);
    RoundHasOutcome(p.tables, id, true, r);
    RoundKeepsJobs(p.tables, id, true, r);
  }

  /** Among jobs that all fit, a pass that is still on has taken a job in every round that dispatched. */
  lemma {:induction false} FitPassTakes(s: Tables, versions: Versions, rounds: nat -> Round, n: nat)
    requires KeyedJobs(s.jobs) && AllFit(s, versions) && !PassAfter(s, versions, rounds, n).ended
    ensures var p := PassAfter(s, versions, rounds, n);
            AllFit(p.tables, versions) && p.taken == Dispatches(rounds, n)
  {
    if n > 0 {
      FitPassTakes(s, versions, rounds, n - 1);
      FitRound(PassAfter(s, versions, rounds, n - 1), versions, rounds(n - 1));
    }
  }

  /** Among jobs that all fit, the replies alone decide whether the pass ends: one says that capacity is exhausted, or as
      many accept as there were claimable jobs. */
  lemma FitPassEndsIff(s: Tables, versions: Versions, rounds: nat -> Round)
    requires KeyedJobs(s.jobs) && AllFit(s, versions)
    ensures Ends(s, versions, rounds) <==>
      exists n: nat :: VerdictOf(rounds(n).lookup).Exhausted? || Dispatches(rounds, n) == |ClaimableIds(s.jobs)|
  {
    if n: nat :| PassAfter(s, versions, rounds, n).ended {
      var m := EndHasReason(s, versions, rounds, n);
      FitPassTakes(s, versions, rounds, m);
    }
    if n: nat :| VerdictOf(rounds(n).lookup).Exhausted? || Dispatches(rounds, n) == |ClaimableIds(s.jobs)| {
      RepliesEnd(s, versions, rounds, n);
    }
  }

  lemma RepliesEnd(s: Tables, versions: Versions, rounds: nat -> Round, n: nat)
    requires KeyedJobs(s.jobs) && AllFit(s, versions)
    requires VerdictOf(rounds(n).lookup).Exhausted? || Dispatches(rounds, n) == |ClaimableIds(s.jobs)|
    ensures PassAfter(s, versions, rounds, n + 1).ended
  {
    var p := PassAfter(s, versions, rounds, n);
    if !p.ended {
      FitPassTakes(s, versions, rounds, n);
      if p.taken == |ClaimableIds(s.jobs)| {
        ReasonEnds(s, versions, rounds, n);
      } else if ClaimableIds(p.tables.jobs) != {} {
        FitRound(p, versions, rounds(n));
      }
    }
  }

  /** A pass whose dispatchers only refuse goes round forever, with the queue as it was. */
  lemma RefusalsNeverEnd(s: Tables, versions: Versions, rounds: nat -> Round, n: nat)
    requires KeyedJobs(s.jobs) && ClaimableIds(s.jobs) != {} && AllFit(s, versions)
    requires forall k: nat :: VerdictOf(rounds(k).lookup).Unplaced?
    ensures !Ends(s, versions, rounds) && ClaimableIds(PassAfter(s, versions, rounds, n).tables.jobs) == ClaimableIds(s.jobs)
  {
    FitPassEndsIff(s, versions, rounds);
    if m: nat :| Dispatches(rounds, m) == |ClaimableIds(s.jobs)| {
      RefusalsDispatchNothing(rounds, m);
    }
    FitPassTakes(s, versions, rounds, n);
    RefusalsDispatchNothing(rounds, n);
    QueueFallsByTaken(s, versions, rounds, n);
    SameSize(ClaimableIds(PassAfter(s, versions, rounds, n).tables.jobs), ClaimableIds(s.jobs));
  }

  lemma SameSize(a: set<string>, b: set<string>)
    requires a <= b && |a| == |b|
    ensures a == b
  {
    assert b == a + (b - a) && a !! b - a;
  }

  lemma {:induction false} RefusalsDispatchNothing(rounds: nat -> Round, n: nat)
    requires forall k: nat :: VerdictOf(rounds(k).lookup).Unplaced?
    ensures Dispatches(rounds, n) == 0
  {
    if n > 0 {
      RefusalsDispatchNothing(rounds, n - 1);
    }
  }

  /** Every dispatch is accepted or meets exhausted capacity. */
  ghost predicate AllSettle(rounds: nat -> Round)
  {
    forall k: nat :: !VerdictOf(rounds(k).lookup).Unplaced?
  }

  lemma {:induction false} SettlingRoundsTake(s: Tables, versions: Versions, rounds: nat -> Round, n: nat)
    requires KeyedJobs(s.jobs) && AllSettle(rounds) && !PassAfter(s, versions, rounds, n).ended
    ensures PassAfter(s, versions, rounds, n).taken == n
  {
    if n > 0 {
      var p := PassAfter(s, versions, rounds, n - 1);
      if !p.ended {
        SettlingRoundsTake(s, versions, rounds, n - 1);
        RoundCounts(p, versions, rounds(n - 1));
      }
    }
  }

  /** If every dispatch settles, the pass ends within one round more than there were claimable jobs. */
  lemma SettledPassEnds(s: Tables, versions: Versions, rounds: nat -> Round)
    requires KeyedJobs(s.jobs) && AllSettle(rounds)
    ensures PassAfter(s, versions, rounds, |ClaimableIds(s.jobs)| + 1).ended
  {
    var n := |ClaimableIds(s.jobs)| + 1;
    QueueFallsByTaken(s, versions, rounds, n);
    if !PassAfter(s, versions, rounds, n).ended {
      SettlingRoundsTake(s, versions, rounds, n);
      assert false;
    }
  }

  // ---------------------------------------------------------------- the loop

  /** One round of the loop; `over` when nothing was claimable, `exhausted` when a dispatcher had no capacity. */
  method NextRound(store: Store, r: Round, ghost taken: nat) returns (over: bool, exhausted: bool)
    requires KeyedJobs(store.jobs)
    modifies store`jobs, store`attempts
    ensures var p := Pass(old(store.View()), false, taken);
            var q := RunRound(p, store.versions, r);
            && store.View() == q.tables && (q.ended <==> over || exhausted)
            && (over <==> ClaimableIds(old(store.jobs)) == {})
            && (exhausted <==> !over && OutcomeIn(p.tables, store.versions, r).Stopped?)
  {
    ghost var p := Pass(store.View(), false, taken);
    RoundCounts(p, store.versions, r);
    var claimed, goesOn := ScheduleNext(store, r);
    if claimed.None? {
      return true, false;
    }
    assert claimed.value in ClaimableIds(p.tables.jobs);
    NextIsUnique(p.tables.jobs, claimed.value, Next(p.tables.jobs));
    return false, !goesOn;
  }

  /** The pass over `s` is still on after `n` rounds and has reached the tables `t`. */
  ghost predicate Reached(s: Tables, versions: Versions, rounds: nat -> Round, n: nat, t: Tables)
    requires KeyedJobs(s.jobs)
  {
    var p := PassAfter(s, versions, rounds, n);
    !p.ended && p.tables == t
  }

  /** The pass over `s` ended with its round `n` and left the tables `t`: shorter by what it took, and empty unless it met
      exhausted capacity. */
  ghost predicate Finished(s: Tables, versions: Versions, rounds: nat -> Round, n: nat, t: Tables, exhausted: bool)
    requires KeyedJobs(s.jobs)
  {
    var p := PassAfter(s, versions, rounds, n);
    && p.ended && p.tables == t
    && |ClaimableIds(t.jobs)| == |ClaimableIds(s.jobs)| - p.taken && ClaimableIds(t.jobs) <= ClaimableIds(s.jobs)
    && (if exhausted then n > 0 && MeetsExhaustion(s, versions, rounds, n - 1) else ClaimableIds(t.jobs) == {})
  }

  lemma NotYetEnded(s: Tables, versions: Versions, rounds: nat -> Round, n: nat, bound: nat, t: Tables)
    requires KeyedJobs(s.jobs) && Reached(s, versions, rounds, n, t) && PassAfter(s, versions, rounds, bound).ended
    ensures n < bound && KeyedJobs(t.jobs)
  {
    if bound <= n {
      EndedStays(s, versions, rounds, bound, n);
    }
  }

  lemma RoundOfPass(s: Tables, versions: Versions, rounds: nat -> Round, n: nat, t: Tables, u: Tables, over: bool, exhausted: bool)
    requires KeyedJobs(s.jobs) && Reached(s, versions, rounds, n, t) && KeyedJobs(t.jobs)
    requires var q := RunRound(PassAfter(s, versions, rounds, n), versions, rounds(n));
             && u == q.tables && (q.ended <==> over || exhausted)
             && (over <==> ClaimableIds(t.jobs) == {}) && (exhausted <==> !over && OutcomeIn(t, versions, rounds(n)).Stopped?)
    ensures if over || exhausted then Finished(s, versions, rounds, n + 1, u, exhausted) else Reached(s, versions, rounds, n + 1, u)
  {
    QueueFallsByTaken(s, versions, rounds, n + 1);
  }

  /** Still on after `n` rounds, or over with the last of them. */
  ghost predicate Stands(s: Tables, versions: Versions, rounds: nat -> Round, n: nat, t: Tables, over: bool, exhausted: bool)
    requires KeyedJobs(s.jobs)
  {
    if over || exhausted then Finished(s, versions, rounds, n, t, exhausted) else Reached(s, versions, rounds, n, t)
  }

  method NextRoundOf(store: Store, rounds: nat -> Round, n: nat, ghost s: Tables, ghost bound: nat) returns (over: bool, exhausted: bool)
    requires KeyedJobs(s.jobs) && Stands(s, store.versions, rounds, n, store.View(), false, false)
    requires PassAfter(s, store.versions, rounds, bound).ended
    modifies store`jobs, store`attempts
    ensures Stands(s, store.versions, rounds, n + 1, store.View(), over, exhausted) && n < bound
  {
    ghost var t := store.View();
    NotYetEnded(s, store.versions, rounds, n, bound, t);
    over, exhausted := NextRound(store, rounds(n), PassAfter(s, store.versions, rounds, n).taken);
    RoundOfPass(s, store.versions, rounds, n, t, store.View(), over, exhausted);
  }

  /** The tables become those of the finished pass, whenever the pass finishes at all. */
  method SchedulePending(store: Store, rounds: nat -> Round) returns (ghost n: nat, exhausted: bool)
    requires KeyedJobs(store.jobs) && Ends(store.View(), store.versions, rounds)
    modifies store`jobs, store`attempts
    ensures Finished(old(store.View()), store.versions, rounds, n, store.View(), exhausted)
  {
    ghost var s := store.View();
    ghost var bound: nat :| PassAfter(s, store.versions, rounds, bound).ended;
    var claims, over := 0, false;
    exhausted := false;
    while !over && !exhausted
      invariant Stands(s, store.versions, rounds, claims, store.View(), over, exhausted)
      decreases if over || exhausted then 0 else 1, bound - claims
    {
      over, exhausted := NextRoundOf(store, rounds, claims, s, bound);
      claims := claims + 1;
    }
    n := claims;
  }
}
