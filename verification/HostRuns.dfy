/** Everything the coordinator does to its host table, and what holds in every run.

    Each operation is one step together with the store calls it makes. A reap pass is one step per host it looks at,
    each with the copy of the row that the pass listed. */
module HostRuns {
  import opened Options
  import opened Domain
  import opened HostTable
  import opened HostViews

  /** What a host says it has. */
  datatype Report = Report(slots: int, fullSlots: int, blankWarm: int, functionWarm: map<string, int>)
  {
    ghost predicate Sane()
    {
      slots >= 0 && fullSlots >= 0 && blankWarm >= 0 && forall f <- functionWarm :: f != "" && functionWarm[f] >= 0
    }
  }

  function Registered(id: string, region: string, driver: string, r: Report, now: Time): Host
  {
    Host(id, region, driver, Active, r.slots, r.fullSlots, r.blankWarm, r.functionWarm, now)
  }

  function Reported(host: Host, r: Report, now: Time): Host
  {
    host.(slots := r.slots, fullSlots := r.fullSlots, blankWarm := r.blankWarm, functionWarm := r.functionWarm, lastHeartbeat := now)
  }

  function ClassifyStartMode(host: Host, f: string): StartMode
  {
    if host.Warm(f) > 0 then FunctionWarm else if host.blankWarm > 0 then BlankWarm else Cold
  }

  /** The host after an execution was placed on it. */
  function Reserve(host: Host, f: string, full: bool, mode: StartMode): Host
  {
    var h := host.(slots := host.slots - 1, fullSlots := if full then host.fullSlots - 1 else host.fullSlots);
    if mode.FunctionWarm? && h.Warm(f) > 0 then h.(functionWarm := h.functionWarm[f := h.Warm(f) - 1])
    else if mode.BlankWarm? && h.blankWarm > 0 then h.(blankWarm := h.blankWarm - 1)
    else h
  }

  /** The host after a placement that could not be delivered was taken back. */
  function Restore(host: Host, f: string, full: bool, mode: StartMode): Host
  {
    var h := host.(slots := host.slots + 1, fullSlots := if full then host.fullSlots + 1 else host.fullSlots);
    if mode.FunctionWarm? then h.(functionWarm := h.functionWarm[f := h.Warm(f) + 1])
    else if mode.BlankWarm? then h.(blankWarm := h.blankWarm + 1)
    else h
  }

  function Drained(host: Host): Host
  {
    host.(state := Draining, slots := 0, fullSlots := 0)
  }

  function Score(host: Host, f: string): int
  {
    host.Warm(f) * 1000 + host.blankWarm * 100 + host.slots
  }

  function PreparationScore(host: Host): int
  {
    host.blankWarm * 100 + host.slots
  }

  /** A host pickHost may choose: the table is scanned in arbitrary order, so any host of the best score. */
  ghost predicate Best(hosts: map<string, Host>, id: string, f: string, full: bool)
  {
    && id in hosts && hosts[id].Eligible(full)
    && forall h <- hosts | hosts[h].Eligible(full) :: Score(hosts[h], f) <= Score(hosts[id], f)
  }

  predicate AlreadyWarm(host: Host, f: string)
  {
    host.state.Active? && host.Warm(f) > 0
  }

  /** A host pickWarmHost may reserve: nobody has the function warm yet. */
  ghost predicate BestToPrepare(hosts: map<string, Host>, id: string, f: string, full: bool)
  {
    && (forall h <- hosts :: !AlreadyWarm(hosts[h], f))
    && id in hosts && hosts[id].Eligible(full)
    && forall h <- hosts | hosts[h].Eligible(full) :: PreparationScore(hosts[h]) <= PreparationScore(hosts[id])
  }

  datatype Event =
    | Register(id: string, region: string, driver: string, report: Report, now: Time)
    | Heartbeat(id: string, report: Report, now: Time)
    | Pick(id: string, f: string, full: bool, mode: StartMode, now: Time)
    | FindWarm(id: string, f: string)
    | Prepare(id: string, f: string, full: bool, now: Time)
    | TakeBack(id: string, f: string, full: bool, mode: StartMode, now: Time)  // restoreHostReservation
    | TakeBackPreparation(id: string, full: bool, now: Time)
    | Drain(id: string, now: Time)
    | Leave(id: string, now: Time)                                             // markHostDown
    | Reap(copy: Host, cutoff: Time, now: Time)                                // markStoredHostDown
    | Restart

  ghost predicate Enabled(name: string, t: Table, e: Event)
  {
    match e
    case Pick(id, f, full, mode, _) => Best(t.sessions, id, f, full) && mode == ClassifyStartMode(t.sessions[id], f)
    case FindWarm(id, f) => id in t.sessions && AlreadyWarm(t.sessions[id], f)
    case Prepare(id, f, full, _) => BestToPrepare(t.sessions, id, f, full)
    case Reap(copy, cutoff, _) => copy.id in t.rows && copy.region == name && !copy.state.Down? && copy.lastHeartbeat <= cutoff
    case Register(_, _, _, _, _) => true
    case Heartbeat(_, _, _) => true
    case TakeBack(_, _, _, _, _) => true
    case TakeBackPreparation(_, _, _) => true
    case Drain(_, _) => true
    case Leave(_, _) => true
    case Restart => true
  }

  /** Store a host, and what follows from the connected hosts, in all views. */
  ghost function Write(name: string, t: Table, sessions: map<string, Host>, host: Host, now: Time): Table
  {
    Table(sessions, t.rows[host.id := host], ReplacePools(t.pools, host, now), Some(RegionRow(name, sessions, now)))
  }

  /** What an operation does to one host. */
  datatype Change = Keep | Store(host: Host) | Drop(host: Host) | Forget

  /** Operations on hosts that are not connected change nothing, except that a reap pass also closes rows that lost
      their connection. */
  function ChangeOf(t: Table, e: Event): Change
    requires e.Pick? || e.Prepare? ==> e.id in t.sessions
  {
    match e
    case Register(id, region, driver, report, now) => Store(Registered(id, region, driver, report, now))
    case Heartbeat(id, report, now) => if id in t.sessions then Store(Reported(t.sessions[id], report, now)) else Keep
    case Pick(id, f, full, mode, _) => Store(Reserve(t.sessions[id], f, full, mode))
    case FindWarm(_, _) => Keep
    case Prepare(id, f, full, _) => Store(Reserve(t.sessions[id], f, full, Cold))
    case TakeBack(id, f, full, mode, _) => if id in t.sessions then Store(Restore(t.sessions[id], f, full, mode)) else Keep
    case TakeBackPreparation(id, full, _) => if id in t.sessions then Store(Restore(t.sessions[id], "", full, Cold)) else Keep
    case Drain(id, _) => if id in t.sessions then Store(Drained(t.sessions[id])) else Keep
    case Leave(id, _) => if id in t.sessions then Drop(t.sessions[id].Downed()) else Keep
    case Reap(copy, cutoff, _) =>
      if copy.id !in t.sessions then Drop(copy.Downed())
      else if t.sessions[copy.id].lastHeartbeat > cutoff then Keep
      else Drop(t.sessions[copy.id].Downed())
    case Restart => Forget
  }

  function TimeOf(e: Event): Time
  {
    if e.FindWarm? || e.Restart? then ZERO else e.now
  }

  function SessionsAfter(sessions: map<string, Host>, c: Change): map<string, Host>
  {
    match c
    case Keep => sessions
    case Store(host) => sessions[host.id := host]
    case Drop(host) => sessions - {host.id}
    case Forget => map[]
  }

  ghost function Apply(name: string, t: Table, e: Event): Table
    requires Enabled(name, t, e)
  {
    var c := ChangeOf(t, e);
    if c.Store? || c.Drop? then Write(name, t, SessionsAfter(t.sessions, c), c.host, TimeOf(e))
    else if c.Keep? then t
    else t.(sessions := map[])
  }

  /** What the coordinator is promised: hosts of its own region, ids without a colon, reports without negative counts
      and functions with an id. */
  ghost predicate Promised(name: string, e: Event)
  {
    match e
    case Register(id, region, _, report, _) => region == name && ColonFree(id) && report.Sane()
    case Heartbeat(_, report, _) => report.Sane()
    case TakeBack(_, f, _, mode, _) => mode.FunctionWarm? ==> f != ""
    case Pick(_, _, _, _, _) => true
    case FindWarm(_, _) => true
    case Prepare(_, _, _, _) => true
    case TakeBackPreparation(_, _, _) => true
    case Drain(_, _) => true
    case Leave(_, _) => true
    case Reap(_, _, _) => true
    case Restart => true
  }

  // ---------------------------------------------------------------- every step keeps the invariant

  /** The host is stored as a connected one, or as one that is down. */
  ghost predicate WriteOk(name: string, t: Table, sessions: map<string, Host>, host: Host)
  {
    && RowOk(name, host.id, host)
    && (if host.state.Down? then sessions == t.sessions - {host.id} else sessions == t.sessions[host.id := host])
  }

  lemma WriteKeepsInv(name: string, t: Table, sessions: map<string, Host>, host: Host, now: Time)
    requires Inv(name, t) && WriteOk(name, t, sessions, host)
    ensures Inv(name, Write(name, t, sessions, host, now))
    ensures NoOrphans(t) ==> NoOrphans(Write(name, t, sessions, host, now))
  {
    WriteKeepsPoolsAgree(name, t.rows, t.pools, host, now);
  }

  lemma ReserveKeepsSane(host: Host, f: string, full: bool, mode: StartMode)
    requires Sane(host) && host.Eligible(full)
    ensures Sane(Reserve(host, f, full, mode))
  {
  }

  lemma RestoreKeepsSane(host: Host, f: string, full: bool, mode: StartMode)
    requires Sane(host) && (mode.FunctionWarm? ==> f != "")
    ensures Sane(Restore(host, f, full, mode))
  {
  }

  lemma RestartKeepsInv(name: string, t: Table)
    requires Inv(name, t)
    ensures Inv(name, t.(sessions := map[]))
  {
    if t.sessions != map[] {
      var h :| h in t.sessions;
      assert !t.rows[h].state.Down?;
    }
  }

  ghost predicate ChangeOk(name: string, c: Change)
  {
    && (c.Store? ==> RowOk(name, c.host.id, c.host) && !c.host.state.Down?)
    && (c.Drop? ==> RowOk(name, c.host.id, c.host) && c.host.state.Down?)
  }

  lemma EventChangeOk(name: string, t: Table, e: Event)
    requires forall h <- t.sessions :: RowOk(name, h, t.sessions[h]) && !t.sessions[h].state.Down?
    requires e.Reap? ==> ColonFree(e.copy.id)
    requires Enabled(name, t, e) && Promised(name, e)
    ensures ChangeOk(name, ChangeOf(t, e))
  {
    if e.Pick? {
      ReserveKeepsSane(t.sessions[e.id], e.f, e.full, e.mode);
    } else if e.Prepare? {
      ReserveKeepsSane(t.sessions[e.id], e.f, e.full, Cold);
    } else if e.TakeBack? && e.id in t.sessions {
      RestoreKeepsSane(t.sessions[e.id], e.f, e.full, e.mode);
    } else if e.TakeBackPreparation? && e.id in t.sessions {
      RestoreKeepsSane(t.sessions[e.id], "", e.full, Cold);
    }
  }

  lemma StepKeepsInv(name: string, t: Table, e: Event)
    requires Inv(name, t) && Enabled(name, t, e) && Promised(name, e)
    ensures Inv(name, Apply(name, t, e))
    ensures NoOrphans(t) && !e.Restart? ==> NoOrphans(Apply(name, t, e))
  {
    if e.Reap? {
      assert RowOk(name, e.copy.id, t.rows[e.copy.id]);
    }
    EventChangeOk(name, t, e);
    var c := ChangeOf(t, e);
    if c.Store? || c.Drop? {
      WriteKeepsInv(name, t, SessionsAfter(t.sessions, c), c.host, TimeOf(e));
    } else if c.Forget? {
      RestartKeepsInv(name, t);
    }
  }

  // ---------------------------------------------------------------- runs

  datatype Run = Begin | Then(init: Run, last: Event)

  /** The table a run ends in, if all its events were possible. */
  ghost function After(name: string, t: Table, run: Run): Option<Table>
  {
    match run
    case Begin => Some(t)
    case Then(init, e) =>
      var u := After(name, t, init);
      if u.Some? && Enabled(name, u.value, e) then Some(Apply(name, u.value, e)) else None
  }

  ghost predicate AllPromised(name: string, run: Run)
  {
    run.Then? ==> AllPromised(name, run.init) && Promised(name, run.last)
  }

  ghost predicate Restarts(run: Run)
  {
    run.Then? && (Restarts(run.init) || run.last.Restart?)
  }

  /** The invariant holds in every run, restarts included; counts therefore never become negative. */
  lemma {:induction false} InvAlways(name: string, run: Run)
    requires ColonFree(name) && AllPromised(name, run) && After(name, EMPTY, run).Some?
    ensures Inv(name, After(name, EMPTY, run).value)
    ensures !Restarts(run) ==> NoOrphans(After(name, EMPTY, run).value)
  {
    if run.Then? {
      InvAlways(name, run.init);
      StepKeepsInv(name, After(name, EMPTY, run.init).value, run.last);
    }
  }

  /** After every operation the three stored views agree with the connected hosts, once the first host has registered. */
  lemma ViewsAlwaysAgree(name: string, run: Run)
    requires ColonFree(name) && AllPromised(name, run) && !Restarts(run) && After(name, EMPTY, run).Some?
    ensures var t := After(name, EMPTY, run).value; t.rows == map[] || Agrees(name, t)
  {
    InvAlways(name, run);
    var t := After(name, EMPTY, run).value;
    if t.rows != map[] {
      InvGivesAgreement(name, t);
    }
  }

  /** Sessions are filed under the ids of their hosts, whatever is reported. */
  ghost predicate Filed(sessions: map<string, Host>)
  {
    forall h <- sessions :: sessions[h].id == h
  }

  lemma InvIsFiled(name: string, t: Table)
    requires Inv(name, t)
    ensures Filed(t.sessions)
  {
    assert forall h <- t.sessions :: RowOk(name, h, t.rows[h]);
  }

  lemma StepOnSessions(name: string, t: Table, e: Event)
    requires Enabled(name, t, e) && Filed(t.sessions)
    ensures Apply(name, t, e).sessions == SessionsAfter(t.sessions, ChangeOf(t, e))
    ensures Filed(Apply(name, t, e).sessions)
  {
  }

  lemma StoreWrites(name: string, t: Table, e: Event, host: Host)
    requires Enabled(name, t, e) && ChangeOf(t, e) == Store(host)
    ensures Apply(name, t, e) == Write(name, t, t.sessions[host.id := host], host, TimeOf(e))
  {
  }

  lemma {:induction false} AlwaysFiled(name: string, t: Table, run: Run)
    requires Filed(t.sessions) && After(name, t, run).Some?
    ensures Filed(After(name, t, run).value.sessions)
  {
    if run.Then? {
      AlwaysFiled(name, t, run.init);
      StepOnSessions(name, After(name, t, run.init).value, run.last);
    }
  }

  // ---------------------------------------------------------------- restarts

  /** The hosts a reap pass would take down, if they have not been heard of since. */
  ghost predicate Silent(t: Table, cutoff: Time)
  {
    forall h <- t.rows | h !in t.sessions && !t.rows[h].state.Down? :: t.rows[h].lastHeartbeat <= cutoff
  }

  /** The run is part of a reap pass: it works on the rows as they were listed at the start. */
  ghost predicate IsPass(run: Run, rows: map<string, Host>, cutoff: Time)
  {
    run.Then? ==>
      && IsPass(run.init, rows, cutoff)
      && run.last.Reap? && run.last.cutoff == cutoff && run.last.copy.id in rows && run.last.copy == rows[run.last.copy.id]
  }

  ghost predicate Reaches(run: Run, h: string)
  {
    run.Then? && (Reaches(run.init, h) || (run.last.Reap? && run.last.copy.id == h))
  }

  lemma {:induction false} PassKeepsInv(name: string, t: Table, run: Run, cutoff: Time)
    requires Inv(name, t) && IsPass(run, t.rows, cutoff) && After(name, t, run).Some?
    ensures Inv(name, After(name, t, run).value)
  {
    if run.Then? {
      PassKeepsInv(name, t, run.init, cutoff);
      StepKeepsInv(name, After(name, t, run.init).value, run.last);
    }
  }

  lemma ReapKeepsRows(name: string, u: Table, e: Event)
    requires e.Reap? && Enabled(name, u, e) && Filed(u.sessions)
    ensures Apply(name, u, e).rows.Keys == u.rows.Keys
  {
  }

  lemma {:induction false} PassKeepsRows(name: string, t: Table, run: Run, cutoff: Time)
    requires Filed(t.sessions) && IsPass(run, t.rows, cutoff) && After(name, t, run).Some?
    ensures After(name, t, run).value.rows.Keys == t.rows.Keys
  {
    if run.Then? {
      AlwaysFiled(name, t, run.init);
      PassKeepsRows(name, t, run.init, cutoff);
      ReapKeepsRows(name, After(name, t, run.init).value, run.last);
    }
  }

  /** The host is down, or as it was before the pass reached it. */
  ghost predicate Settled(t: Table, u: Table, h: string, reached: bool)
    requires h in t.rows
  {
    && h in u.rows
    && (h in u.sessions ==> h in t.sessions)
    && (h !in u.sessions ==> u.rows[h].state.Down? || (h !in t.sessions && !reached && u.rows[h] == t.rows[h]))
  }

  lemma ReapSettles(name: string, t: Table, u: Table, e: Event, h: string, reached: bool)
    requires e.Reap? && Enabled(name, u, e) && h in t.rows && Settled(t, u, h, reached) && Filed(u.sessions)
    ensures Settled(t, Apply(name, u, e), h, reached || h == e.copy.id)
  {
  }

  lemma {:induction false} PassSettles(name: string, t: Table, run: Run, cutoff: Time, h: string)
    requires Filed(t.sessions) && h in t.rows && IsPass(run, t.rows, cutoff) && After(name, t, run).Some?
    ensures Settled(t, After(name, t, run).value, h, Reaches(run, h))
  {
    if run.Then? {
      AlwaysFiled(name, t, run.init);
      PassSettles(name, t, run.init, cutoff, h);
      ReapSettles(name, t, After(name, t, run.init).value, run.last, h, Reaches(run.init, h));
    }
  }

  /** The first full pass after the hosts lost in a restart fell silent leaves no orphan, so the views agree again. */
  lemma PassHealsRestart(name: string, t: Table, run: Run, cutoff: Time)
    requires Inv(name, t) && t.rows != map[] && Silent(t, cutoff)
    requires IsPass(run, t.rows, cutoff) && After(name, t, run).Some?
    requires forall h <- t.rows | !t.rows[h].state.Down? && t.rows[h].lastHeartbeat <= cutoff :: Reaches(run, h)
    ensures Agrees(name, After(name, t, run).value)
  {
    var u := After(name, t, run).value;
    InvIsFiled(name, t);
    PassKeepsInv(name, t, run, cutoff);
    PassKeepsRows(name, t, run, cutoff);
    forall h <- t.rows | h !in u.sessions
      ensures u.rows[h].state.Down?
    {
      PassSettles(name, t, run, cutoff, h);
    }
    var h :| h in t.rows;
    assert h in u.rows;
    InvGivesAgreement(name, u);
  }

  // ---------------------------------------------------------------- reservations

  datatype Resource = Slots | FullSlots | Blank | Function(f: string)

  function Amount(host: Host, r: Resource): int
  {
    match r
    case Slots => host.slots
    case FullSlots => host.fullSlots
    case Blank => host.blankWarm
    case Function(f) => host.Warm(f)
  }

  /** What one placement of the given mode takes. */
  function Share(f: string, full: bool, mode: StartMode, r: Resource): int
  {
    match r
    case Slots => 1
    case FullSlots => One(full)
    case Blank => One(mode.BlankWarm?)
    case Function(g) => One(mode.FunctionWarm? && f == g)
  }

  /** What the event takes from the host, negative when it gives back. */
  function Taken(e: Event, h: string, r: Resource): int
  {
    if e.Pick? && e.id == h then Share(e.f, e.full, e.mode, r)
    else if e.Prepare? && e.id == h then Share(e.f, e.full, Cold, r)
    else if e.TakeBack? && e.id == h then -Share(e.f, e.full, e.mode, r)
    else if e.TakeBackPreparation? && e.id == h then -Share("", e.full, Cold, r)
    else 0
  }

  /** Reservations made in the run and not taken back. */
  function Outstanding(run: Run, h: string, r: Resource): int
  {
    if run.Begin? then 0 else Outstanding(run.init, h, r) + Taken(run.last, h, r)
  }

  ghost predicate Reports(e: Event, h: string)
  {
    (e.Register? || e.Heartbeat? || e.Drain?) && e.id == h
  }

  ghost predicate NoReport(run: Run, h: string)
  {
    run.Then? ==> NoReport(run.init, h) && !Reports(run.last, h)
  }

  lemma ReserveTakes(host: Host, f: string, full: bool, mode: StartMode, r: Resource)
    requires mode == ClassifyStartMode(host, f) || mode == Cold
    ensures Amount(Reserve(host, f, full, mode), r) + Share(f, full, mode, r) == Amount(host, r)
  {
  }

  lemma RestoreGives(host: Host, f: string, full: bool, mode: StartMode, r: Resource)
    ensures Amount(Restore(host, f, full, mode), r) - Share(f, full, mode, r) == Amount(host, r)
  {
  }

  lemma ChangeConserves(t: Table, e: Event, h: string, r: Resource)
    requires e.Pick? || e.Prepare? ==> e.id in t.sessions
    requires e.Pick? ==> e.mode == ClassifyStartMode(t.sessions[e.id], e.f)
    requires Filed(t.sessions) && !Reports(e, h) && h in SessionsAfter(t.sessions, ChangeOf(t, e))
    ensures h in t.sessions
    ensures Amount(SessionsAfter(t.sessions, ChangeOf(t, e))[h], r) + Taken(e, h, r) == Amount(t.sessions[h], r)
  {
    if e.Pick? {
      ReserveTakes(t.sessions[e.id], e.f, e.full, e.mode, r);
    } else if e.Prepare? {
      ReserveTakes(t.sessions[e.id], e.f, e.full, Cold, r);
    } else if e.TakeBack? && e.id == h {
      RestoreGives(t.sessions[h], e.f, e.full, e.mode, r);
    } else if e.TakeBackPreparation? && e.id == h {
      RestoreGives(t.sessions[h], "", e.full, Cold, r);
    }
  }

  /** Between two reports of a connected host, what is available and what is reserved add up to what was reported. */
  lemma {:induction false} ReservationsAreConserved(name: string, t: Table, run: Run, h: string, r: Resource)
    requires Filed(t.sessions) && After(name, t, run).Some?
    requires NoReport(run, h) && h in After(name, t, run).value.sessions
    ensures h in t.sessions
    ensures Amount(After(name, t, run).value.sessions[h], r) + Outstanding(run, h, r) == Amount(t.sessions[h], r)
  {
    if run.Then? {
      AlwaysFiled(name, t, run.init);
      var u := After(name, t, run.init).value;
      StepOnSessions(name, u, run.last);
      ChangeConserves(u, run.last, h, r);
      ReservationsAreConserved(name, t, run.init, h, r);
    }
  }

  /** The amounts right after a report are the reported ones. */
  lemma ReportSetsAmounts(name: string, t: Table, e: Event, r: Resource)
    requires Filed(t.sessions) && (e.Register? || (e.Heartbeat? && e.id in t.sessions))
    ensures e.id in Apply(name, t, e).sessions
    ensures Amount(Apply(name, t, e).sessions[e.id], r) ==
      match r
      case Slots => e.report.slots
      case FullSlots => e.report.fullSlots
      case Blank => e.report.blankWarm
      case Function(f) => if f in e.report.functionWarm then e.report.functionWarm[f] else 0
  {
    StepOnSessions(name, t, e);
  }

  lemma RestoreUndoesReserve(host: Host, f: string, full: bool)
    ensures Restore(Reserve(host, f, full, ClassifyStartMode(host, f)), f, full, ClassifyStartMode(host, f)) == host
  {
    var mode := ClassifyStartMode(host, f);
    var h := Restore(Reserve(host, f, full, mode), f, full, mode);
    assert h.functionWarm == host.functionWarm;
  }

  lemma PutBackPools(name: string, rows: map<string, Host>, pools: map<string, WarmPool>, host: Host, now: Time, now': Time)
    requires RowsOk(name, rows) && PoolsAgree(rows, pools) && host.id in rows && RowOk(name, host.id, host)
    ensures SamePools(pools, ReplacePools(ReplacePools(pools, host, now), rows[host.id], now'))
  {
    var before := rows[host.id];
    assert RowOk(name, host.id, before);
    WriteKeepsPoolsAgree(name, rows, pools, host, now);
    WriteKeepsPoolsAgree(name, rows[host.id := host], ReplacePools(pools, host, now), before, now');
    assert rows[host.id := host][host.id := before] == rows;
    PoolsAreDetermined(rows, pools, ReplacePools(ReplacePools(pools, host, now), before, now'));
  }

  /** Writing a host and then what it was before: only the times of writing may differ. */
  ghost predicate Unchanged(t: Table, u: Table)
  {
    && u.sessions == t.sessions && u.rows == t.rows && SamePools(t.pools, u.pools)
    && t.region.Some? && u.region.Some? && u.region.value == t.region.value.(lastHeartbeatAt := u.region.value.lastHeartbeatAt)
  }

  /** Writing a host and then what it was before leaves everything but the times of writing. */
  lemma WriteBack(name: string, t: Table, mid: Table, host: Host, now: Time, now': Time)
    requires RowsOk(name, t.rows) && PoolsAgree(t.rows, t.pools) && RegionAgrees(name, t)
    requires host.id in t.sessions && host.id in t.rows && t.rows[host.id] == t.sessions[host.id] && RowOk(name, host.id, host)
    requires mid.rows == t.rows[host.id := host] && mid.pools == ReplacePools(t.pools, host, now)
    ensures Unchanged(t, Write(name, mid, t.sessions, t.sessions[host.id], now'))
  {
    PutBackPools(name, t.rows, t.pools, host, now, now');
    assert t.rows[host.id].id == host.id;
    assert mid.rows[host.id := t.sessions[host.id]] == t.rows;
  }

  lemma TakeBackStores(t: Table, mid: Table, pick: Event, now: Time)
    requires pick.Pick? && pick.id in t.sessions && t.sessions[pick.id].id == pick.id
    requires pick.mode == ClassifyStartMode(t.sessions[pick.id], pick.f)
    requires mid.sessions == t.sessions[pick.id := Reserve(t.sessions[pick.id], pick.f, pick.full, pick.mode)]
    ensures var c := ChangeOf(mid, TakeBack(pick.id, pick.f, pick.full, pick.mode, now));
      c == Store(t.sessions[pick.id]) && SessionsAfter(mid.sessions, c) == t.sessions
  {
    RestoreUndoesReserve(t.sessions[pick.id], pick.f, pick.full);
  }

  lemma PickWrites(name: string, t: Table, pick: Event)
    requires Filed(t.sessions) && pick.Pick? && Enabled(name, t, pick)
    ensures var host := Reserve(t.sessions[pick.id], pick.f, pick.full, pick.mode);
      var mid := Apply(name, t, pick);
      && host.id == pick.id && mid.sessions == t.sessions[pick.id := host]
      && mid.rows == t.rows[host.id := host] && mid.pools == ReplacePools(t.pools, host, pick.now)
  {
  }

  lemma TakeBackWrites(name: string, t: Table, mid: Table, pick: Event, now: Time)
    requires Filed(t.sessions) && pick.Pick? && pick.id in t.sessions
    requires pick.mode == ClassifyStartMode(t.sessions[pick.id], pick.f)
    requires mid.sessions == t.sessions[pick.id := Reserve(t.sessions[pick.id], pick.f, pick.full, pick.mode)]
    ensures Apply(name, mid, TakeBack(pick.id, pick.f, pick.full, pick.mode, now)) == Write(name, mid, t.sessions, t.sessions[pick.id], now)
  {
    TakeBackStores(t, mid, pick, now);
  }

  lemma ConnectedRow(name: string, t: Table, h: string)
    requires Inv(name, t) && h in t.sessions
    ensures h in t.rows && t.rows[h] == t.sessions[h] && RowOk(name, h, t.rows[h])
    ensures RowsOk(name, t.rows) && PoolsAgree(t.rows, t.pools)
  {
  }

  /** A placement that is taken back leaves no trace: sessions and host rows are what they were, and so are the
      warm-pool rows and the region row up to the times they were written. */
  lemma TakingBackUndoesPicking(name: string, t: Table, pick: Event, now: Time)
    requires Inv(name, t) && RegionAgrees(name, t) && pick.Pick? && Enabled(name, t, pick)
    ensures Unchanged(t, Apply(name, Apply(name, t, pick), TakeBack(pick.id, pick.f, pick.full, pick.mode, now)))
  {
    ConnectedRow(name, t, pick.id);
    InvIsFiled(name, t);
    PickTakenBack(name, t, pick, now);
  }

  lemma PickTakenBack(name: string, t: Table, pick: Event, now: Time)
    requires RowsOk(name, t.rows) && PoolsAgree(t.rows, t.pools) && RegionAgrees(name, t) && Filed(t.sessions)
    requires pick.Pick? && Enabled(name, t, pick)
    requires pick.id in t.rows && t.rows[pick.id] == t.sessions[pick.id] && RowOk(name, pick.id, t.rows[pick.id])
    ensures Unchanged(t, Apply(name, Apply(name, t, pick), TakeBack(pick.id, pick.f, pick.full, pick.mode, now)))
  {
    var host := t.sessions[pick.id];
    ReserveKeepsSane(host, pick.f, pick.full, pick.mode);
    var mid := Apply(name, t, pick);
    PickWrites(name, t, pick);
    WriteBack(name, t, mid, Reserve(host, pick.f, pick.full, pick.mode), pick.now, now);
    TakeBackWrites(name, t, mid, pick, now);
  }

  // ---------------------------------------------------------------- draining

  ghost predicate NoRegister(run: Run, h: string)
  {
    run.Then? ==> NoRegister(run.init, h) && !(run.last.Register? && run.last.id == h)
  }

  ghost predicate Inactive(sessions: map<string, Host>, h: string)
  {
    h in sessions ==> !sessions[h].state.Active?
  }

  lemma ChangeKeepsInactive(t: Table, e: Event, h: string)
    requires e.Pick? || e.Prepare? ==> e.id in t.sessions
    requires Filed(t.sessions) && Inactive(t.sessions, h) && !(e.Register? && e.id == h)
    ensures Inactive(SessionsAfter(t.sessions, ChangeOf(t, e)), h)
  {
  }

  lemma {:induction false} StaysInactive(name: string, t: Table, run: Run, h: string)
    requires Filed(t.sessions) && Inactive(t.sessions, h) && After(name, t, run).Some? && NoRegister(run, h)
    ensures Inactive(After(name, t, run).value.sessions, h)
  {
    if run.Then? {
      StaysInactive(name, t, run.init, h);
      AlwaysFiled(name, t, run.init);
      var u := After(name, t, run.init).value;
      StepOnSessions(name, u, run.last);
      ChangeKeepsInactive(u, run.last, h);
    }
  }

  /** Once drained, a host is not chosen again before it registers again, whatever happens in between. */
  lemma DrainIsFinal(name: string, t: Table, now: Time, run: Run, e: Event, h: string)
    requires Filed(t.sessions) && After(name, Apply(name, t, Drain(h, now)), run).Some? && NoRegister(run, h)
    requires (e.Pick? || e.Prepare? || e.FindWarm?) && e.id == h
    ensures !Enabled(name, After(name, Apply(name, t, Drain(h, now)), run).value, e)
  {
    StepOnSessions(name, t, Drain(h, now));
    StaysInactive(name, Apply(name, t, Drain(h, now)), run, h);
  }

  // ---------------------------------------------------------------- one event on one host

  /** Of a host that has gone only its name and its last heartbeat are left. */
  ghost predicate IsGone(was: Host, host: Host)
  {
    && host.state == Down && host.slots == host.fullSlots == host.blankWarm == 0 && host.functionWarm == map[]
    && host.id == was.id && host.region == was.region && host.driver == was.driver && host.lastHeartbeat == was.lastHeartbeat
  }

  ghost predicate Offers(host: Host, r: Report)
  {
    host.slots == r.slots && host.fullSlots == r.fullSlots && host.blankWarm == r.blankWarm && host.functionWarm == r.functionWarm
  }

  /** What an event that names a host makes of it; other connected hosts stay as they are. */
  ghost predicate HostFollows(t: Table, u: Table, e: Event, h: string)
  {
    && (forall k <- t.sessions | k != h :: k in u.sessions && u.sessions[k] == t.sessions[k])
    && (forall k <- u.sessions | k != h :: k in t.sessions)
    && (e.Register? ==>
          && h in u.sessions && Offers(u.sessions[h], e.report) && u.sessions[h].state == Active
          && u.sessions[h].region == e.region && u.sessions[h].driver == e.driver && u.sessions[h].lastHeartbeat == e.now)
    && (e.Heartbeat? && h in t.sessions ==>
          && h in u.sessions && Offers(u.sessions[h], e.report) && u.sessions[h].state == t.sessions[h].state
          && u.sessions[h].region == t.sessions[h].region && u.sessions[h].driver == t.sessions[h].driver && u.sessions[h].lastHeartbeat == e.now)
    && (e.Drain? && h in t.sessions ==>
          && h in u.sessions && u.sessions[h].state == Draining && u.sessions[h].slots == u.sessions[h].fullSlots == 0
          && u.sessions[h].blankWarm == t.sessions[h].blankWarm && u.sessions[h].lastHeartbeat == t.sessions[h].lastHeartbeat)
    && (e.Leave? && h in t.sessions ==> h !in u.sessions && h in u.rows && IsGone(t.sessions[h], u.rows[h]))
    && ((e.Heartbeat? || e.Drain? || e.Leave?) && h !in t.sessions ==> u == t)
  }

  lemma EventOnHost(name: string, t: Table, e: Event)
    requires Filed(t.sessions) && Enabled(name, t, e) && (e.Register? || e.Heartbeat? || e.Drain? || e.Leave?)
    ensures HostFollows(t, Apply(name, t, e), e, e.id)
  {
  }

  // ---------------------------------------------------------------- heartbeats

  /** When the host was last heard of in the run. */
  ghost function LastHeard(run: Run, h: string): Time
  {
    if run.Begin? then ZERO
    else if (run.last.Register? || run.last.Heartbeat?) && run.last.id == h then run.last.now
    else LastHeard(run.init, h)
  }

  lemma ChangeKeepsHeartbeat(t: Table, e: Event, h: string)
    requires e.Pick? || e.Prepare? ==> e.id in t.sessions
    requires Filed(t.sessions) && h in SessionsAfter(t.sessions, ChangeOf(t, e))
    ensures var host := SessionsAfter(t.sessions, ChangeOf(t, e))[h];
            if (e.Register? || e.Heartbeat?) && e.id == h then host.lastHeartbeat == e.now
            else h in t.sessions && host.lastHeartbeat == t.sessions[h].lastHeartbeat
  {
  }

  /** A connected host carries the time of its last registration or heartbeat, whatever else was done to it since. */
  lemma {:induction false} HeartbeatIsLast(name: string, run: Run, h: string)
    requires After(name, EMPTY, run).Some? && h in After(name, EMPTY, run).value.sessions
    ensures After(name, EMPTY, run).value.sessions[h].lastHeartbeat == LastHeard(run, h)
  {
    AlwaysFiled(name, EMPTY, run.init);
    var u := After(name, EMPTY, run.init).value;
    StepOnSessions(name, u, run.last);
    ChangeKeepsHeartbeat(u, run.last, h);
    if !((run.last.Register? || run.last.Heartbeat?) && run.last.id == h) {
      HeartbeatIsLast(name, run.init, h);
    }
  }

  lemma ReapOnHost(name: string, t: Table, e: Event)
    requires Filed(t.sessions) && e.Reap? && Enabled(name, t, e)
    ensures var u, h := Apply(name, t, e), e.copy.id;
            && (forall k | k != h :: (k in u.sessions <==> k in t.sessions) && (k in t.sessions ==> u.sessions[k] == t.sessions[k]))
            && (h in t.sessions && e.cutoff < t.sessions[h].lastHeartbeat ==> u == t)
            && (h in t.sessions && t.sessions[h].lastHeartbeat <= e.cutoff ==> h !in u.sessions && h in u.rows && IsGone(t.sessions[h], u.rows[h]))
            && (h !in t.sessions ==> u.sessions == t.sessions && h in u.rows && IsGone(e.copy, u.rows[h]))
  {
  }

  /** A reap takes a connected host down if and only if the host has not been heard of since the cutoff, however old the
      copy of its row is that the pass listed. */
  lemma ReapedIffSilent(name: string, run: Run, e: Event, h: string)
    requires After(name, EMPTY, run).Some? && h in After(name, EMPTY, run).value.sessions
    requires e.Reap? && e.copy.id == h && Enabled(name, After(name, EMPTY, run).value, e)
    ensures h !in Apply(name, After(name, EMPTY, run).value, e).sessions <==> LastHeard(run, h) <= e.cutoff
  {
    AlwaysFiled(name, EMPTY, run);
    HeartbeatIsLast(name, run, h);
    ReapOnHost(name, After(name, EMPTY, run).value, e);
  }

  // ---------------------------------------------------------------- which host is best

  /** Exactly when the warmer of two hosts is preferred: blank pools and slots of the other must not outweigh it. With the
      function equally warm the blank pools come next, and then the slots. */
  lemma WarmerIsPreferredIff(a: Host, b: Host, f: string)
    ensures a.Warm(f) > b.Warm(f) ==>
      (Score(a, f) > Score(b, f) <==> (b.blankWarm - a.blankWarm) * 100 + b.slots - a.slots < (a.Warm(f) - b.Warm(f)) * 1000)
    ensures a.Warm(f) == b.Warm(f) && a.blankWarm > b.blankWarm ==>
      (Score(a, f) > Score(b, f) <==> b.slots - a.slots < (a.blankWarm - b.blankWarm) * 100)
    ensures a.Warm(f) == b.Warm(f) && a.blankWarm == b.blankWarm ==> (Score(a, f) > Score(b, f) <==> a.slots > b.slots)
    ensures a.blankWarm > b.blankWarm ==>
      (PreparationScore(a) > PreparationScore(b) <==> b.slots - a.slots < (a.blankWarm - b.blankWarm) * 100)
    ensures a.blankWarm == b.blankWarm ==> (PreparationScore(a) > PreparationScore(b) <==> a.slots > b.slots)
  {
  }

  /** The warm host is not always preferred: ten blank pools and a slot more outweigh one warm function. */
  lemma BlankPoolsOutweighWarmth() returns (a: Host, b: Host)
    ensures a.Warm("f") > b.Warm("f") && a.Eligible(false) && b.Eligible(false) && !Best(map["a" := a, "b" := b], "a", "f", false)
  {
    a := Host("a", "r", "", Active, 1, 0, 0, map["f" := 1], 1);
    b := Host("b", "r", "", Active, 2, 0, 10, map[], 1);
    assert Score(a, "f") == 1001 && Score(b, "f") == 1002;
    assert map["a" := a, "b" := b]["b"].Eligible(false);
  }
}
