/** The host table when its store calls are steps of their own.

    Picking a host, taking a reservation back and a host's leaving hold the lock until everything is written. Register,
    heartbeat, drain and reap change the session under the lock, release it, and then write the host row, the
    warm-pool rows and the region row, each in a store call of its own; the first two from the copy of the host they
    took, the last from the hosts connected by then. Anything may happen in between. */
module DelayedWrites {
  import opened Options
  import opened Domain
  import opened HostTable
  import opened HostViews
  import R = HostRuns
  import Sums

  datatype Stage = RowNext | PoolsNext | RegionNext

  /** An operation that has released the lock: its copy of the host and what it writes next. */
  datatype Delayed = Delayed(host: Host, stage: Stage, now: Time)

  /** `sources` remembers for each host the copy its warm-pool rows were last written from. */
  datatype World = World(t: Table, sources: map<string, Host>, pending: map<nat, Delayed>)

  datatype Step =
    | Locked(e: R.Event)
    | Begin(p: nat, e: R.Event)
    | WriteRow(p: nat)
    | WritePools(p: nat)
    | WriteRegion(p: nat, now: Time)

  predicate HoldsLock(e: R.Event)
  {
    e.Pick? || e.FindWarm? || e.Prepare? || e.TakeBack? || e.TakeBackPreparation? || e.Leave?
  }

  predicate ReleasesLock(e: R.Event)
  {
    e.Register? || e.Heartbeat? || e.Drain? || e.Reap?
  }

  ghost predicate Enabled(name: string, w: World, s: Step)
  {
    match s
    case Locked(e) => HoldsLock(e) && R.Enabled(name, w.t, e) && R.Promised(name, e)
    case Begin(p, e) => ReleasesLock(e) && p !in w.pending && R.Enabled(name, w.t, e) && R.Promised(name, e)
    case WriteRow(p) => p in w.pending && w.pending[p].stage.RowNext?
    case WritePools(p) => p in w.pending && w.pending[p].stage.PoolsNext?
    case WriteRegion(p, _) => p in w.pending && w.pending[p].stage.RegionNext?
  }

  function Touched(c: R.Change): Option<Host>
  {
    if c.Store? || c.Drop? then Some(c.host) else None
  }

  ghost function Apply(name: string, w: World, s: Step): World
    requires Enabled(name, w, s)
  {
    match s
    case Locked(e) =>
      var h := Touched(R.ChangeOf(w.t, e));
      World(R.Apply(name, w.t, e), if h.Some? then w.sources[h.value.id := h.value] else w.sources, w.pending)
    case Begin(p, e) =>
      var c := R.ChangeOf(w.t, e);
      var h := Touched(c);
      if h.None? then w
      else w.(t := w.t.(sessions := R.SessionsAfter(w.t.sessions, c)), pending := w.pending[p := Delayed(h.value, RowNext, R.TimeOf(e))])
    case WriteRow(p) =>
      var d := w.pending[p];
      w.(t := w.t.(rows := w.t.rows[d.host.id := d.host]), pending := w.pending[p := d.(stage := PoolsNext)])
    case WritePools(p) =>
      var d := w.pending[p];
      World(w.t.(pools := ReplacePools(w.t.pools, d.host, d.now)), w.sources[d.host.id := d.host], w.pending[p := d.(stage := RegionNext)])
    case WriteRegion(p, now) =>
      w.(t := w.t.(region := Some(RegionRow(name, w.t.sessions, now))), pending := w.pending - {p})
  }

  // ---------------------------------------------------------------- the views of one host

  /** The stored host row is the session; a host that is not connected has no row or one that says down. */
  ghost predicate RowAgrees(t: Table, h: string)
  {
    if h in t.sessions then h in t.rows && t.rows[h] == t.sessions[h] else h in t.rows ==> t.rows[h].state.Down?
  }

  /** The warm-pool rows of the host are exactly those of its session. */
  ghost predicate PoolsRight(t: Table, h: string)
  {
    if h in t.sessions then HasPools(t.sessions[h], t.pools) && forall k <- t.pools | t.pools[k].hostId == h :: k in PoolKeys(t.sessions[h])
    else forall k <- t.pools :: t.pools[k].hostId != h
  }

  ghost predicate RowPending(w: World, h: string)
  {
    exists p <- w.pending :: w.pending[p].host.id == h && w.pending[p].stage.RowNext?
  }

  ghost predicate PoolsPending(w: World, h: string)
  {
    exists p <- w.pending :: w.pending[p].host.id == h && !w.pending[p].stage.RegionNext?
  }

  /** Wherever no write of the host is under way, its views agree with its session. */
  ghost predicate RowsSettled(w: World)
  {
    forall h: string :: !RowPending(w, h) ==> RowAgrees(w.t, h)
  }

  ghost predicate PoolsSettled(w: World)
  {
    forall h: string :: !PoolsPending(w, h) ==> PoolsRight(w.t, h)
  }

  // ---------------------------------------------------------------- careful writes

  /** The copy is the session the host still has. */
  ghost predicate Current(t: Table, host: Host)
  {
    if host.id in t.sessions then t.sessions[host.id] == host else host.state.Down?
  }

  /** Two copies of a host with the same warm pools. */
  ghost predicate SameWarm(a: Host, b: Host)
  {
    PoolIds(a) == PoolIds(b) && forall f <- PoolIds(a) :: PoolRow(a, f, ZERO) == PoolRow(b, f, ZERO)
  }

  /** The copy has the warm pools the host still has. */
  ghost predicate CurrentWarm(t: Table, host: Host)
  {
    if host.id in t.sessions then SameWarm(host, t.sessions[host.id]) else PoolIds(host) == {}
  }

  /** Another operation on the same host has yet to write its row, or its warm-pool rows. */
  ghost predicate OtherRowPending(w: World, p: nat)
    requires p in w.pending
  {
    exists q <- w.pending :: q != p && w.pending[q].host.id == w.pending[p].host.id && w.pending[q].stage.RowNext?
  }

  ghost predicate OtherPoolsPending(w: World, p: nat)
    requires p in w.pending
  {
    exists q <- w.pending :: q != p && w.pending[q].host.id == w.pending[p].host.id && !w.pending[q].stage.RegionNext?
  }

  /** A delayed write that is the last one under way for its host carries what the host still has. */
  ghost predicate Careful(name: string, w: World, s: Step)
    requires Enabled(name, w, s)
  {
    && (s.WriteRow? && !OtherRowPending(w, s.p) ==> Current(w.t, w.pending[s.p].host))
    && (s.WritePools? && !OtherPoolsPending(w, s.p) ==> CurrentWarm(w.t, w.pending[s.p].host))
  }

  // ---------------------------------------------------------------- what every interleaving keeps

  ghost predicate SessionsOk(name: string, sessions: map<string, Host>)
  {
    forall h <- sessions :: RowOk(name, h, sessions[h]) && !sessions[h].state.Down?
  }

  /** Rows belong to this region, warm-pool rows are those of their sources, and the region row is right unless some
      operation is under way, which will write it anew. */
  ghost predicate Inv(name: string, w: World)
  {
    && SessionsOk(name, w.t.sessions) && RowsOk(name, w.t.rows) && RowsOk(name, w.sources) && PoolsAgree(w.sources, w.t.pools)
    && (forall p <- w.pending :: RowOk(name, w.pending[p].host.id, w.pending[p].host))
    && (w.pending == map[] ==> RegionAgrees(name, w.t) || (w.t.sessions == map[] && w.t.rows == map[] && w.t.region.None?))
  }

  lemma ChangeOk(name: string, w: World, e: R.Event)
    requires SessionsOk(name, w.t.sessions) && RowsOk(name, w.t.rows) && R.Enabled(name, w.t, e) && R.Promised(name, e)
    ensures R.ChangeOk(name, R.ChangeOf(w.t, e))
  {
    if e.Reap? {
      assert RowOk(name, e.copy.id, w.t.rows[e.copy.id]);
    }
    R.EventChangeOk(name, w.t, e);
  }

  lemma LockedKeepsInv(name: string, w: World, s: Step)
    requires Inv(name, w) && s.Locked? && Enabled(name, w, s)
    ensures Inv(name, Apply(name, w, s))
  {
    ChangeOk(name, w, s.e);
    var c := R.ChangeOf(w.t, s.e);
    if c.Store? || c.Drop? {
      WriteKeepsPoolsAgree(name, w.sources, w.t.pools, c.host, R.TimeOf(s.e));
    }
  }

  lemma BeginKeepsInv(name: string, w: World, s: Step)
    requires Inv(name, w) && s.Begin? && Enabled(name, w, s)
    ensures Inv(name, Apply(name, w, s))
  {
    ChangeOk(name, w, s.e);
    assert Touched(R.ChangeOf(w.t, s.e)).Some? ==> s.p in Apply(name, w, s).pending;
  }

  lemma WriteKeepsInv(name: string, w: World, s: Step)
    requires Inv(name, w) && !s.Locked? && !s.Begin? && Enabled(name, w, s)
    ensures Inv(name, Apply(name, w, s))
  {
    assert !s.WriteRegion? ==> s.p in Apply(name, w, s).pending;
    if s.WritePools? {
      WriteKeepsPoolsAgree(name, w.sources, w.t.pools, w.pending[s.p].host, w.pending[s.p].now);
    }
  }

  lemma StepKeepsInv(name: string, w: World, s: Step)
    requires Inv(name, w) && Enabled(name, w, s)
    ensures Inv(name, Apply(name, w, s))
  {
    if s.Locked? {
      LockedKeepsInv(name, w, s);
    } else if s.Begin? {
      BeginKeepsInv(name, w, s);
    } else {
      WriteKeepsInv(name, w, s);
    }
  }

  // ---------------------------------------------------------------- host rows

  lemma LockedKeepsRows(name: string, w: World, s: Step)
    requires SessionsOk(name, w.t.sessions) && RowsOk(name, w.t.rows) && s.Locked? && Enabled(name, w, s) && RowsSettled(w)
    ensures RowsSettled(Apply(name, w, s))
  {
    ChangeOk(name, w, s.e);
    var w' := Apply(name, w, s);
    forall h: string | !RowPending(w', h)
      ensures RowAgrees(w'.t, h)
    {
      assert !RowPending(w, h);
      assert RowAgrees(w.t, h);
    }
  }

  lemma BeginKeepsRows(name: string, w: World, s: Step)
    requires SessionsOk(name, w.t.sessions) && RowsOk(name, w.t.rows) && s.Begin? && Enabled(name, w, s) && RowsSettled(w)
    ensures RowsSettled(Apply(name, w, s))
  {
    var w' := Apply(name, w, s);
    var c := R.ChangeOf(w.t, s.e);
    if c.Store? || c.Drop? {
      forall h: string | !RowPending(w', h)
        ensures RowAgrees(w'.t, h)
      {
        assert w'.pending[s.p].host == c.host && h != c.host.id;
        assert !RowPending(w, h) by {
          forall q <- w.pending
            ensures !(w.pending[q].host.id == h && w.pending[q].stage.RowNext?)
          {
            assert q in w'.pending && w'.pending[q] == w.pending[q];
          }
        }
        assert RowAgrees(w.t, h);
      }
    }
  }

  lemma RowStillPending(name: string, w: World, s: Step, h: string)
    requires s.WriteRow? && Enabled(name, w, s)
    ensures var host := w.pending[s.p].host;
      RowPending(Apply(name, w, s), h) <==> if h == host.id then OtherRowPending(w, s.p) else RowPending(w, h)
  {
    var w' := Apply(name, w, s);
    assert forall q <- w.pending :: q in w'.pending && (q != s.p ==> w'.pending[q] == w.pending[q]);
    assert w'.pending.Keys == w.pending.Keys;
  }

  lemma WriteRowSettlesIff(name: string, w: World, s: Step)
    requires s.WriteRow? && Enabled(name, w, s) && RowsSettled(w)
    ensures RowsSettled(Apply(name, w, s)) <==> (!OtherRowPending(w, s.p) ==> Current(w.t, w.pending[s.p].host))
  {
    var w', host := Apply(name, w, s), w.pending[s.p].host;
    RowStillPending(name, w, s, host.id);
    assert RowAgrees(w'.t, host.id) <==> Current(w.t, host);
    forall h: string | h != host.id
      ensures !RowPending(w', h) ==> RowAgrees(w'.t, h)
    {
      RowStillPending(name, w, s, h);
      assert !RowPending(w, h) ==> RowAgrees(w.t, h);
    }
  }

  lemma OtherWritesKeepRows(name: string, w: World, s: Step)
    requires (s.WritePools? || s.WriteRegion?) && Enabled(name, w, s) && RowsSettled(w)
    ensures RowsSettled(Apply(name, w, s))
  {
    var w' := Apply(name, w, s);
    forall h: string | !RowPending(w', h)
      ensures RowAgrees(w'.t, h)
    {
      assert !RowPending(w, h) by {
        forall q <- w.pending
          ensures !(w.pending[q].host.id == h && w.pending[q].stage.RowNext?)
        {
          if q != s.p {
            assert q in w'.pending && w'.pending[q] == w.pending[q];
          }
        }
      }
      assert RowAgrees(w.t, h);
    }
  }

  // ---------------------------------------------------------------- warm-pool rows

  /** What the source of the host's warm-pool rows says of them. */
  ghost predicate SourceFits(w: World, h: string)
  {
    if h in w.sources then CurrentWarm(w.t, w.sources[h]) else h in w.t.sessions ==> PoolIds(w.t.sessions[h]) == {}
  }

  lemma KeyOfId(host: Host, f: string)
    ensures WarmPoolKey(host.region, host.id, f) in PoolKeys(host) <==> f in PoolIds(host)
  {
    if WarmPoolKey(host.region, host.id, f) in PoolKeys(host) {
      var g :| g in PoolIds(host) && WarmPoolKey(host.region, host.id, g) == WarmPoolKey(host.region, host.id, f);
      IdInKey(host, f);
      IdInKey(host, g);
    }
  }

  /** Rows written from `a`, and right for `b`: then both have the same pools. */
  lemma RightRowsSameWarm(a: Host, b: Host, pools: map<string, WarmPool>)
    requires a.id == b.id && a.region == b.region && HasPools(a, pools) && HasPools(b, pools) && PoolKeys(a) == PoolKeys(b)
    ensures SameWarm(a, b)
  {
    forall f: string
      ensures f in PoolIds(a) <==> f in PoolIds(b)
    {
      KeyOfId(a, f);
      KeyOfId(b, f);
    }
    forall f <- PoolIds(a)
      ensures PoolRow(a, f, ZERO) == PoolRow(b, f, ZERO)
    {
      var k := WarmPoolKey(a.region, a.id, f);
      assert pools[k] == PoolRow(a, f, pools[k].updatedAt) == PoolRow(b, f, pools[k].updatedAt);
    }
  }

  lemma SameWarmRightRows(a: Host, b: Host, pools: map<string, WarmPool>)
    requires a.id == b.id && a.region == b.region && HasPools(a, pools) && SameWarm(a, b)
    ensures HasPools(b, pools) && PoolKeys(a) == PoolKeys(b)
  {
    forall f <- PoolIds(b)
      ensures var k := WarmPoolKey(b.region, b.id, f); k in pools && pools[k] == PoolRow(b, f, pools[k].updatedAt)
    {
      assert PoolRow(a, f, ZERO) == PoolRow(b, f, ZERO);
    }
  }

  lemma OwnRows(name: string, sources: map<string, Host>, pools: map<string, WarmPool>, h: string, b: Host)
    requires RowsOk(name, sources) && PoolsAgree(sources, pools) && h in sources && RowOk(name, h, b) && HasPools(b, pools)
    ensures PoolKeys(b) <= PoolKeys(sources[h])
  {
    forall k <- PoolKeys(b)
      ensures k in PoolKeys(sources[h])
    {
      var f :| f in PoolIds(b) && k == WarmPoolKey(b.region, b.id, f);
      assert k in pools && pools[k].hostId == h;
    }
  }

  lemma ConnectedPoolsRightIff(name: string, w: World, h: string)
    requires RowsOk(name, w.sources) && PoolsAgree(w.sources, w.t.pools) && h in w.t.sessions && RowOk(name, h, w.t.sessions[h]) && h in w.sources
    ensures PoolsRight(w.t, h) <==> SameWarm(w.sources[h], w.t.sessions[h])
  {
    var a, b, pools := w.sources[h], w.t.sessions[h], w.t.pools;
    assert HasPools(a, pools) && RowOk(name, h, a);
    RowsOfHostAreItsPools(name, w.sources, pools, h);
    if SameWarm(a, b) {
      SameWarmRightRows(a, b, pools);
    }
    if PoolsRight(w.t, h) {
      OwnRows(name, w.sources, pools, h, b);
      RowsInKeys(name, w.sources, pools, h, b);
      RightRowsSameWarm(a, b, pools);
    }
  }

  lemma RowsInKeys(name: string, sources: map<string, Host>, pools: map<string, WarmPool>, h: string, b: Host)
    requires RowsOk(name, sources) && PoolsAgree(sources, pools) && h in sources
    requires forall k <- pools | pools[k].hostId == h :: k in PoolKeys(b)
    ensures PoolKeys(sources[h]) <= PoolKeys(b)
  {
    RowsOfHostAreItsPools(name, sources, pools, h);
    forall k <- PoolKeys(sources[h])
      ensures k in PoolKeys(b)
    {
      assert k in Sums.Group(pools.Keys, HostOfRow(pools), h);
    }
  }

  lemma PoolsRightIff(name: string, w: World, h: string)
    requires RowsOk(name, w.sources) && PoolsAgree(w.sources, w.t.pools) && SessionsOk(name, w.t.sessions)
    ensures PoolsRight(w.t, h) <==> SourceFits(w, h)
  {
    if h in w.sources && h in w.t.sessions {
      assert RowOk(name, h, w.sources[h]);
      ConnectedPoolsRightIff(name, w, h);
    } else if h in w.sources {
      assert RowOk(name, h, w.sources[h]);
      RowsOfHostAreItsPools(name, w.sources, w.t.pools, h);
      DisconnectedPoolsRightIff(w, h);
    } else if h in w.t.sessions {
      UnwrittenPoolsRightIff(name, w, h);
    }
  }

  lemma DisconnectedPoolsRightIff(w: World, h: string)
    requires h in w.sources && h !in w.t.sessions && w.sources[h].id == h
    requires Sums.Group(w.t.pools.Keys, HostOfRow(w.t.pools), h) == PoolKeys(w.sources[h])
    ensures PoolsRight(w.t, h) <==> PoolIds(w.sources[h]) == {}
  {
    var a, pools := w.sources[h], w.t.pools;
    if f :| f in PoolIds(a) {
      KeyOfId(a, f);
      assert WarmPoolKey(a.region, a.id, f) in Sums.Group(pools.Keys, HostOfRow(pools), h);
    } else {
      assert PoolKeys(a) == {};
      forall k <- pools
        ensures pools[k].hostId != h
      {
        assert k !in Sums.Group(pools.Keys, HostOfRow(pools), h);
      }
    }
  }

  lemma UnwrittenPoolsRightIff(name: string, w: World, h: string)
    requires PoolsAgree(w.sources, w.t.pools) && h in w.t.sessions && RowOk(name, h, w.t.sessions[h]) && h !in w.sources
    ensures PoolsRight(w.t, h) <==> PoolIds(w.t.sessions[h]) == {}
  {
    var b, pools := w.t.sessions[h], w.t.pools;
    assert forall k <- pools :: pools[k].hostId != h;
    if f :| f in PoolIds(b) {
      var k := WarmPoolKey(b.region, b.id, f);
      assert k !in pools || pools[k] != PoolRow(b, f, pools[k].updatedAt);
    }
  }

  ghost predicate SourcesSettled(w: World)
  {
    forall h: string :: !PoolsPending(w, h) ==> SourceFits(w, h)
  }

  lemma PoolsSettledIff(name: string, w: World)
    requires Inv(name, w)
    ensures PoolsSettled(w) <==> SourcesSettled(w)
  {
    forall h: string
      ensures PoolsRight(w.t, h) <==> SourceFits(w, h)
    {
      PoolsRightIff(name, w, h);
    }
  }

  lemma LockedKeepsSources(name: string, w: World, s: Step)
    requires SessionsOk(name, w.t.sessions) && RowsOk(name, w.t.rows) && s.Locked? && Enabled(name, w, s) && SourcesSettled(w)
    requires RowsOk(name, w.sources)
    ensures SourcesSettled(Apply(name, w, s))
  {
    ChangeOk(name, w, s.e);
    var w' := Apply(name, w, s);
    forall h: string | !PoolsPending(w', h)
      ensures SourceFits(w', h)
    {
      assert !PoolsPending(w, h);
      assert SourceFits(w, h);
    }
  }

  lemma BeginKeepsSources(name: string, w: World, s: Step)
    requires SessionsOk(name, w.t.sessions) && RowsOk(name, w.t.rows) && s.Begin? && Enabled(name, w, s) && SourcesSettled(w)
    requires RowsOk(name, w.sources)
    ensures SourcesSettled(Apply(name, w, s))
  {
    var w' := Apply(name, w, s);
    var c := R.ChangeOf(w.t, s.e);
    if c.Store? || c.Drop? {
      forall h: string | !PoolsPending(w', h)
        ensures SourceFits(w', h)
      {
        assert w'.pending[s.p].host == c.host && h != c.host.id;
        assert !PoolsPending(w, h) by {
          forall q <- w.pending
            ensures !(w.pending[q].host.id == h && !w.pending[q].stage.RegionNext?)
          {
            assert q in w'.pending && w'.pending[q] == w.pending[q];
          }
        }
        assert SourceFits(w, h);
      }
    }
  }

  lemma OtherWritesKeepSources(name: string, w: World, s: Step)
    requires (s.WriteRow? || s.WriteRegion?) && Enabled(name, w, s) && SourcesSettled(w)
    ensures SourcesSettled(Apply(name, w, s))
  {
    var w' := Apply(name, w, s);
    forall h: string | !PoolsPending(w', h)
      ensures SourceFits(w', h)
    {
      assert !PoolsPending(w, h) by {
        forall q <- w.pending
          ensures !(w.pending[q].host.id == h && !w.pending[q].stage.RegionNext?)
        {
          if q != s.p {
            assert q in w'.pending && w'.pending[q] == w.pending[q];
          } else if s.WriteRow? {
            assert q in w'.pending && w'.pending[q].host == w.pending[q].host;
          }
        }
      }
      assert SourceFits(w, h);
    }
  }

  lemma PoolsStillPending(name: string, w: World, s: Step, h: string)
    requires s.WritePools? && Enabled(name, w, s)
    ensures var host := w.pending[s.p].host;
      PoolsPending(Apply(name, w, s), h) <==> if h == host.id then OtherPoolsPending(w, s.p) else PoolsPending(w, h)
  {
    var w' := Apply(name, w, s);
    assert forall q <- w.pending :: q in w'.pending && (q != s.p ==> w'.pending[q] == w.pending[q]);
    assert w'.pending.Keys == w.pending.Keys;
  }

  lemma WritePoolsSettlesIff(name: string, w: World, s: Step)
    requires s.WritePools? && Enabled(name, w, s) && SourcesSettled(w) && RowsOk(name, w.sources)
    ensures SourcesSettled(Apply(name, w, s)) <==> (!OtherPoolsPending(w, s.p) ==> CurrentWarm(w.t, w.pending[s.p].host))
  {
    var w', host := Apply(name, w, s), w.pending[s.p].host;
    PoolsStillPending(name, w, s, host.id);
    assert SourceFits(w', host.id) <==> CurrentWarm(w.t, host);
    forall h: string | h != host.id
      ensures !PoolsPending(w', h) ==> SourceFits(w', h)
    {
      PoolsStillPending(name, w, s, h);
      assert !PoolsPending(w, h) ==> SourceFits(w, h);
    }
  }

  // ---------------------------------------------------------------- exactly the careful runs settle

  lemma StepSettlesRowsIff(name: string, w: World, s: Step)
    requires Inv(name, w) && Enabled(name, w, s) && RowsSettled(w)
    ensures RowsSettled(Apply(name, w, s)) <==> (s.WriteRow? && !OtherRowPending(w, s.p) ==> Current(w.t, w.pending[s.p].host))
  {
    if s.Locked? {
      LockedKeepsRows(name, w, s);
    } else if s.Begin? {
      BeginKeepsRows(name, w, s);
    } else if s.WriteRow? {
      WriteRowSettlesIff(name, w, s);
    } else {
      OtherWritesKeepRows(name, w, s);
    }
  }

  lemma StepSettlesSourcesIff(name: string, w: World, s: Step)
    requires Inv(name, w) && Enabled(name, w, s) && SourcesSettled(w)
    ensures SourcesSettled(Apply(name, w, s)) <==> (s.WritePools? && !OtherPoolsPending(w, s.p) ==> CurrentWarm(w.t, w.pending[s.p].host))
  {
    if s.Locked? {
      LockedKeepsSources(name, w, s);
    } else if s.Begin? {
      BeginKeepsSources(name, w, s);
    } else if s.WritePools? {
      WritePoolsSettlesIff(name, w, s);
    } else {
      OtherWritesKeepSources(name, w, s);
    }
  }

  /** A store call leaves views that disagree with no write under way exactly when it is a stale last write. */
  lemma StepSettlesIffCareful(name: string, w: World, s: Step)
    requires Inv(name, w) && Enabled(name, w, s) && RowsSettled(w) && PoolsSettled(w)
    ensures Careful(name, w, s) <==> RowsSettled(Apply(name, w, s)) && PoolsSettled(Apply(name, w, s))
  {
    PoolsSettledIff(name, w);
    StepKeepsInv(name, w, s);
    PoolsSettledIff(name, Apply(name, w, s));
    StepSettlesRowsIff(name, w, s);
    StepSettlesSourcesIff(name, w, s);
  }

  const IDLE := World(EMPTY, map[], map[])

  datatype Run = Idle | Then(init: Run, last: Step)

  ghost function After(name: string, run: Run): Option<World>
  {
    match run
    case Idle => Some(IDLE)
    case Then(init, s) =>
      var w := After(name, init);
      if w.Some? && Enabled(name, w.value, s) then Some(Apply(name, w.value, s)) else None
  }

  lemma {:induction false} InvAlways(name: string, run: Run)
    requires ColonFree(name) && After(name, run).Some?
    ensures Inv(name, After(name, run).value)
  {
    if run.Then? {
      InvAlways(name, run.init);
      StepKeepsInv(name, After(name, run.init).value, run.last);
    }
  }

  ghost predicate AllCareful(name: string, run: Run)
    requires After(name, run).Some?
  {
    run.Then? ==> AllCareful(name, run.init) && Careful(name, After(name, run.init).value, run.last)
  }

  /** At every moment, every host without a write under way has the views its session asks for. */
  ghost predicate AlwaysSettled(name: string, run: Run)
    requires After(name, run).Some?
  {
    && RowsSettled(After(name, run).value) && PoolsSettled(After(name, run).value)
    && (run.Then? ==> AlwaysSettled(name, run.init))
  }

  lemma {:induction false} SettledIffCareful(name: string, run: Run)
    requires ColonFree(name) && After(name, run).Some?
    ensures AlwaysSettled(name, run) <==> AllCareful(name, run)
  {
    if run.Then? {
      SettledIffCareful(name, run.init);
      InvAlways(name, run.init);
      if AlwaysSettled(name, run.init) {
        StepSettlesIffCareful(name, After(name, run.init).value, run.last);
      }
    }
  }

  /** The region row needs no care: whenever nothing is under way it follows from the connected hosts. */
  lemma RegionRowSettles(name: string, run: Run)
    requires ColonFree(name) && After(name, run).Some? && After(name, run).value.pending == map[]
    ensures var t := After(name, run).value.t; t.rows == map[] || RegionAgrees(name, t)
  {
    InvAlways(name, run);
  }

  lemma QuietPoolsAgree(name: string, w: World)
    requires Inv(name, w) && w.pending == map[] && RowsSettled(w) && PoolsSettled(w)
    ensures PoolsAgree(w.t.rows, w.t.pools)
  {
    forall h <- w.t.rows
      ensures HasPools(w.t.rows[h], w.t.pools)
    {
      assert !RowPending(w, h) && !PoolsPending(w, h);
      assert RowAgrees(w.t, h) && PoolsRight(w.t, h);
    }
    forall k <- w.t.pools
      ensures w.t.pools[k].hostId in w.t.rows && k in PoolKeys(w.t.rows[w.t.pools[k].hostId])
    {
      var h := w.t.pools[k].hostId;
      assert !RowPending(w, h) && !PoolsPending(w, h);
      assert RowAgrees(w.t, h) && PoolsRight(w.t, h);
    }
  }

  lemma QuietSessions(w: World, h: string)
    requires w.pending == map[] && RowsSettled(w)
    ensures RowAgrees(w.t, h)
  {
    assert !RowPending(w, h);
  }

  /** After a careful run, with nothing under way, all three stored views agree with the connected hosts. */
  lemma CarefulRunsAgree(name: string, run: Run)
    requires ColonFree(name) && After(name, run).Some? && AllCareful(name, run) && After(name, run).value.pending == map[]
    ensures var t := After(name, run).value.t; t.rows == map[] || Agrees(name, t)
  {
    var w := After(name, run).value;
    SettledIffCareful(name, run);
    InvAlways(name, run);
    if w.t.rows != map[] {
      QuietPoolsAgree(name, w);
      forall h <- w.t.sessions
        ensures h in w.t.rows && w.t.rows[h] == w.t.sessions[h]
      {
        QuietSessions(w, h);
      }
      forall h <- w.t.rows | h !in w.t.sessions
        ensures w.t.rows[h].state.Down?
      {
        QuietSessions(w, h);
      }
      InvGivesAgreement(name, w.t);
    }
  }

  /** When nothing comes in between, the delayed store calls of an operation do what it does in one go; what holds the lock
      does so anyway. */
  lemma UndisturbedIsAtomic(name: string, w: World, p: nat, e: R.Event)
    requires ReleasesLock(e) && p !in w.pending && R.Enabled(name, w.t, e) && R.Promised(name, e)
    ensures var w1 := Apply(name, w, Begin(p, e));
            if R.ChangeOf(w.t, e).Keep? then w1 == w && R.Apply(name, w.t, e) == w.t
            else
              && Enabled(name, w1, WriteRow(p))
              && var w2 := Apply(name, w1, WriteRow(p));
              && Enabled(name, w2, WritePools(p))
              && var w3 := Apply(name, w2, WritePools(p));
              && Enabled(name, w3, WriteRegion(p, R.TimeOf(e)))
              && var w4 := Apply(name, w3, WriteRegion(p, R.TimeOf(e)));
              w4.t == R.Apply(name, w.t, e) && w4.pending == w.pending
  {
  }

  lemma Extend(name: string, run: Run, w: World, s: Step) returns (run': Run, w': World)
    requires After(name, run) == Some(w) && Enabled(name, w, s)
    ensures After(name, run') == Some(w') && w' == Apply(name, w, s)
  {
    run', w' := Then(run, s), Apply(name, w, s);
  }

  /** One host with two free slots has registered. */
  lemma OneHost() returns (run: Run, w: World)
    ensures After("r", run) == Some(w) && w.pending == map[]
    ensures w.t.sessions.Keys == {"h"} && w.t.sessions["h"] == Host("h", "r", "", Active, 2, 0, 0, map[], 1)
  {
    run, w := Extend("r", Idle, IDLE, Begin(0, R.Register("h", "r", "", R.Report(2, 0, 0, map[]), 1)));
    run, w := Extend("r", run, w, WriteRow(0));
    run, w := Extend("r", run, w, WritePools(0));
    run, w := Extend("r", run, w, WriteRegion(0, 1));
  }

  lemma HeartbeatBegun() returns (run: Run, w: World)
    ensures After("r", run) == Some(w) && w.pending.Keys == {0} && w.pending[0].stage == RowNext
    ensures w.pending[0].host.id == "h" && w.pending[0].host.slots == 2
    ensures w.t.sessions.Keys == {"h"} && w.t.sessions["h"] == Host("h", "r", "", Active, 2, 0, 0, map[], 2)
  {
    run, w := OneHost();
    run, w := Extend("r", run, w, Begin(0, R.Heartbeat("h", R.Report(2, 0, 0, map[]), 2)));
  }

  lemma PickTakesSlot(w: World, s: Step)
    requires s == Locked(R.Pick("h", "f", false, Cold, 3))
    requires w.t.sessions.Keys == {"h"} && w.t.sessions["h"] == Host("h", "r", "", Active, 2, 0, 0, map[], 2)
    ensures Enabled("r", w, s)
    ensures Apply("r", w, s).pending == w.pending && "h" in Apply("r", w, s).t.sessions && Apply("r", w, s).t.sessions["h"].slots == 1
  {
    assert R.Best(w.t.sessions, "h", "f", false);
  }

  lemma HeartbeatThenPick() returns (run: Run, w: World)
    ensures After("r", run) == Some(w) && w.pending.Keys == {0} && w.pending[0].stage == RowNext
    ensures w.pending[0].host.id == "h" && w.pending[0].host.slots == 2
    ensures "h" in w.t.sessions && w.t.sessions["h"].slots == 1
  {
    run, w := HeartbeatBegun();
    PickTakesSlot(w, Locked(R.Pick("h", "f", false, Cold, 3)));
    run, w := Extend("r", run, w, Locked(R.Pick("h", "f", false, Cold, 3)));
  }

  /** The views can disagree for good: a heartbeat changes the session, a pick takes a slot and writes its row, and then the
      heartbeat writes the copy it took before the pick. Nothing is under way any more. */
  lemma HeartbeatOverwritesPick() returns (run: Run)
    ensures After("r", run).Some?
    ensures var w := After("r", run).value; w.pending == map[] && "h" in w.t.sessions && "h" in w.t.rows && w.t.rows["h"] != w.t.sessions["h"]
  {
    var w;
    run, w := HeartbeatThenPick();
    run, w := Extend("r", run, w, WriteRow(0));
    run, w := Extend("r", run, w, WritePools(0));
    run, w := Extend("r", run, w, WriteRegion(0, 4));
  }
}
