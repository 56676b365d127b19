/** Attempts in every run: how their states come about, and when exactly a lease runs out. */
module Leases {
  import opened Options
  import opened Domain
  import opened Records
  import opened MemoryStore
  import opened Lifecycle
  import opened Outcomes
  import Assignments
  import Recovery
  import Scheduler

  /** A host reports that it starts or runs the attempt. */
  predicate Renews(w: World, e: Event, id: string)
  {
    Found(w, e) && e.msg.attemptId == id && (e.msg.report.Starting? || e.msg.report.Running?)
  }

  /** The state of a stored attempt after the event. */
  ghost function NextAttemptState(w: World, e: Event, a: Attempt): AttemptState
  {
    if e.Sweep? then if Lapsed(a, e.begun) then AttemptState.Failed else a.state
    else if !Found(w, e) || e.msg.attemptId != a.id then a.state
    else match e.msg.report
         case Unspecified => a.state
         case Starting => AttemptState.Starting
         case Running => AttemptState.Running
         case Succeeded => AttemptState.Succeeded
         case Failed => AttemptState.Failed
  }

  predicate Live(a: Attempt)
  {
    a.state != AttemptState.Succeeded && a.state != AttemptState.Failed
  }

  /** An attempt stays that of its job and region; a report of a start or of running renews its lease, the first one fixes
      its start, and nothing else touches either while it lives. */
  ghost predicate AttemptFollows(w: World, e: Event, was: Attempt, a: Attempt)
  {
    && a.id == was.id && a.jobId == was.jobId && a.versionId == was.versionId && a.region == was.region && a.createdAt == was.createdAt
    && a.state == NextAttemptState(w, e, was)
    && a.startedAt == (if Renews(w, e, was.id) && was.startedAt == ZERO then e.at else was.startedAt)
    && (Live(a) ==> a.leaseExpiresAt == if Renews(w, e, was.id) then e.at + 30 * SECOND else was.leaseExpiresAt)
  }

  lemma RoundKeepsAttempt(st: Setting, w: World, e: Event, id: string)
    requires w.tables.Keyed() && e.Schedule? && Enabled(st, w, e) && id in w.tables.attempts
    ensures var t := Apply(st, w, e).tables; id in t.attempts && t.attempts[id] == w.tables.attempts[id]
  {
    var r := e.round;
    if r.lookup.Ranked? {
      var job := ClaimedJob(w.tables.jobs[e.id], r.claimAt);
      Scheduler.DispatchAttempts(w.tables.PutJob(job), job, r.lookup.offers, 0, r.at, "", r.lookup.end);
    }
  }

  lemma ReportedAttemptFollows(st: Setting, w: World, e: Event)
    requires w.tables.Keyed() && Enabled(st, w, e) && Found(w, e)
    ensures e.msg.attemptId in Apply(st, w, e).tables.attempts
    ensures AttemptFollows(w, e, w.tables.attempts[e.msg.attemptId], Apply(st, w, e).tables.attempts[e.msg.attemptId])
  {
    Assignments.ReportRows(w.tables, st.versions, st.projects, e.msg, e.canRetry, e.at);
  }

  lemma SweptAttemptFollows(st: Setting, w: World, e: Event, id: string)
    requires w.tables.Keyed() && e.Sweep? && Enabled(st, w, e) && id in w.tables.attempts
    ensures id in Apply(st, w, e).tables.attempts
    ensures AttemptFollows(w, e, w.tables.attempts[id], Apply(st, w, e).tables.attempts[id])
  {
    SweepAttempt(st, w, e, id);
  }

  lemma AttemptsFollowDiagram(st: Setting, w: World, e: Event, id: string)
    requires w.tables.Keyed() && Enabled(st, w, e) && id in w.tables.attempts
    ensures id in Apply(st, w, e).tables.attempts
    ensures AttemptFollows(w, e, w.tables.attempts[id], Apply(st, w, e).tables.attempts[id])
  {
    if e.Schedule? {
      RoundKeepsAttempt(st, w, e, id);
    } else if e.Sweep? {
      SweptAttemptFollows(st, w, e, id);
    } else if Found(w, e) {
      ReceiveEffect(st, w, e);
      ReportedAttemptFollows(st, w, e);
    } else if e.Assign? && e.attemptId in w.tables.attempts {
      Assignments.PlacementKeepsLease(w.tables, e.attemptId, e.hostId, e.mode, e.at);
    }
  }

  /** The attempt of the `k`-th candidate of a round. */
  ghost predicate OfferedIn(w: World, e: Event, k: nat, id: string, a: Attempt)
  {
    && e.Schedule? && e.id in w.tables.jobs && e.round.lookup.Ranked?
    && k < Scheduler.Asked(e.round.lookup.offers, 0) && e.round.lookup.offers[k].attemptId == id
    && Scheduler.AttemptOf(e.id, w.tables.jobs[e.id].versionId, e.round.lookup.offers[k], e.round.at, a)
  }

  /** Only scheduling rounds make attempts: one for each candidate they ask. */
  lemma NewAttemptsAreOffers(st: Setting, w: World, e: Event, id: string) returns (k: nat)
    requires w.tables.Keyed() && Enabled(st, w, e) && id !in w.tables.attempts && id in Apply(st, w, e).tables.attempts
    ensures OfferedIn(w, e, k, id, Apply(st, w, e).tables.attempts[id])
  {
    if e.Sweep? {
      SweepTables(st, w, e);
      assert false;
    }
    var r := e.round;
    var job := ClaimedJob(w.tables.jobs[e.id], r.claimAt);
    var s := w.tables.PutJob(job);
    Scheduler.OnlyAskedLeaveAttempts(s, job, r.lookup.offers, 0, r.at, "", r.lookup.end, id);
    k :| 0 <= k < Scheduler.Asked(r.lookup.offers, 0) && r.lookup.offers[k].attemptId == id;
    Scheduler.AskedLeavesAttempt(s, job, r.lookup.offers, 0, r.at, "", r.lookup.end, k);
  }

  // ---------------------------------------------------------------- runs

  /** When the lease of an attempt was last renewed before event `n`: at its dispatch, or by a report. */
  ghost function RenewedAt(states: seq<World>, events: seq<Event>, n: nat, id: string): Time
    requires n <= |events| <= |states|
  {
    if n == 0 then ZERO
    else if id !in states[n - 1].tables.attempts && events[n - 1].Schedule? then events[n - 1].round.at
    else if Renews(states[n - 1], events[n - 1], id) then events[n - 1].at
    else RenewedAt(states, events, n - 1, id)
  }

  ghost predicate LeaseFits(states: seq<World>, events: seq<Event>, n: nat, id: string, a: Attempt)
    requires n <= |events| <= |states|
  {
    Live(a) ==> a.leaseExpiresAt == RenewedAt(states, events, n, id) + 30 * SECOND
  }

  lemma AttemptInRun(st: Setting, states: seq<World>, events: seq<Event>, n: nat, id: string)
    requires IsRun(st, states, events) && IsInitial(states[0]) && n < |events| && id in states[n].tables.attempts
    ensures id in states[n + 1].tables.attempts && states[n].tables.attempts[id].id == id
    ensures AttemptFollows(states[n], events[n], states[n].tables.attempts[id], states[n + 1].tables.attempts[id])
  {
    InvAlways(st, states, events, n);
    AttemptsFollowDiagram(st, states[n], events[n], id);
  }

  lemma NewAttemptInRun(st: Setting, states: seq<World>, events: seq<Event>, n: nat, id: string)
    requires IsRun(st, states, events) && IsInitial(states[0]) && n < |events|
    requires id !in states[n].tables.attempts && id in states[n + 1].tables.attempts
    ensures events[n].Schedule? && LeaseFits(states, events, n + 1, id, states[n + 1].tables.attempts[id])
  {
    InvAlways(st, states, events, n);
    var k := NewAttemptsAreOffers(st, states[n], events[n], id);
  }

  /** The lease of a live attempt ends exactly thirty seconds after its dispatch or the last report of a start or of
      running, whatever happened in between. */
  lemma {:induction false} LeaseIsExact(st: Setting, states: seq<World>, events: seq<Event>, n: nat, id: string)
    requires IsRun(st, states, events) && IsInitial(states[0]) && n <= |events| && id in states[n].tables.attempts
    ensures LeaseFits(states, events, n, id, states[n].tables.attempts[id])
  {
    if n > 0 {
      if id in states[n - 1].tables.attempts {
        LeaseIsExact(st, states, events, n - 1, id);
        AttemptInRun(st, states, events, n - 1, id);
      } else {
        NewAttemptInRun(st, states, events, n - 1, id);
      }
    }
  }

  /** A sweep fails a live attempt if and only if it has not been dispatched or reported starting or running for thirty
      seconds. */
  lemma SweptIffSilent(st: Setting, states: seq<World>, events: seq<Event>, n: nat, id: string)
    requires IsRun(st, states, events) && IsInitial(states[0]) && n < |events| && events[n].Sweep?
    requires id in states[n].tables.attempts && Live(states[n].tables.attempts[id])
    ensures id in states[n + 1].tables.attempts
    ensures states[n + 1].tables.attempts[id].state == AttemptState.Failed <==> RenewedAt(states, events, n, id) + 30 * SECOND <= events[n].begun
  {
    LeaseIsExact(st, states, events, n, id);
    AttemptInRun(st, states, events, n, id);
    LeaseIsSet(st, states, events, n, id);
  }

  lemma LeaseIsSet(st: Setting, states: seq<World>, events: seq<Event>, n: nat, id: string)
    requires IsRun(st, states, events) && IsInitial(states[0]) && n < |states| && id in states[n].tables.attempts
    ensures states[n].tables.attempts[id].leaseExpiresAt != ZERO
  {
    InvAlways(st, states, events, n);
  }
}
