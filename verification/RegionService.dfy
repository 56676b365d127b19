/** The coordinator service: the operations on its host table, each with the store calls it makes. */
module RegionService {
  import opened Options
  import opened Domain
  import opened Sums
  import opened HostTable
  import opened HostViews
  import opened HostRuns
  import opened Coordinator
  import Sorting

  const STALE_AFTER: Time := 20 * SECOND

  /** The host rows, warm-pool rows and region rows of the store. */
  class RegionStore {
    var hosts: map<string, Host>
    var warmPools: map<string, WarmPool>
    var regions: map<string, Region>

    /** Host rows are filed under their ids. */
    ghost predicate Valid()
      reads this
    {
      Filed(hosts)
    }

    constructor ()
      ensures Valid() && hosts == map[] && warmPools == map[] && regions == map[]
    {
      hosts, warmPools, regions := map[], map[], map[];
    }

    method PutHost(host: Host)
      requires Valid()
      modifies this`hosts
      ensures Valid() && hosts == old(hosts)[host.id := host]
    {
      hosts := hosts[host.id := host];
    }

    method PutRegion(row: Region)
      modifies this`regions
      ensures regions == old(regions)[row.name := row]
    {
      regions := regions[row.name := row];
    }

    method DeleteByPrefix(prefix: string)
      modifies this`warmPools
      ensures warmPools == Without(old(warmPools), prefix)
    {
      var todo := warmPools.Keys;
      while todo != {}
        invariant todo <= warmPools.Keys
        invariant warmPools == map k | k in old(warmPools) && (k in todo || !(prefix <= k)) :: old(warmPools)[k]
        decreases |todo|
      {
        var k :| k in todo;
        todo := todo - {k};
        if prefix <= k {
          warmPools := warmPools - {k};
        }
      }
    }

    method ReplaceWarmPoolsForHost(region: string, hostId: string, pools: seq<WarmPool>)
      modifies this`warmPools
      ensures warmPools == PutPools(Without(old(warmPools), WarmPoolKey(region, hostId, "")), pools, |pools|)
    {
      DeleteByPrefix(WarmPoolKey(region, hostId, ""));
      ghost var rest := warmPools;
      for i := 0 to |pools|
        invariant warmPools == PutPools(rest, pools, i)
      {
        warmPools := warmPools[KeyOfPool(pools[i]) := pools[i]];
      }
    }

    method ListHostsByRegion(region: string) returns (list: seq<Host>)
      requires Valid()
      ensures forall c :: c in list <==> c.id in hosts && hosts[c.id] == c && c.region == region
    {
      list := [];
      var todo := hosts.Keys;
      while todo != {}
        invariant todo <= hosts.Keys
        invariant forall c :: c in list <==> c.id in hosts && c.id !in todo && hosts[c.id] == c && c.region == region
        decreases |todo|
      {
        var h :| h in todo;
        todo := todo - {h};
        if hosts[h].region == region {
          list := list + [hosts[h]];
        }
      }
    }
  }

  // ---------------------------------------------------------------- choosing a host

  datatype Candidate = Candidate(id: string, score: int)

  predicate Higher(a: Candidate, b: Candidate)
  {
    a.score > b.score
  }

  /** The head of the sorted candidates has the best score. */
  lemma HeadIsBest(candidates: seq<Candidate>)
    requires candidates != []
    ensures var r := Sorting.StableSort(candidates, Higher);
      r[0] in candidates && forall c <- candidates :: c.score <= r[0].score
  {
    var r := Sorting.StableSort(candidates, Higher);
    Sorting.StableSortSorts(candidates, Higher);
    assert r[0] in multiset(candidates);
    forall c <- candidates
      ensures c.score <= r[0].score
    {
      assert c in multiset(r);
      var i :| 0 <= i < |r| && r[i] == c;
      assert i > 0 ==> !Higher(r[i], r[0]);
    }
  }

  method BestHost(hosts: map<string, Host>, f: string, full: bool) returns (r: Option<string>)
    ensures r.None? <==> forall h <- hosts :: !hosts[h].Eligible(full)
    ensures r.Some? ==> Best(hosts, r.value, f, full)
  {
    var candidates: seq<Candidate> := [];
    var todo := hosts.Keys;
    while todo != {}
      invariant todo <= hosts.Keys
      invariant forall c :: c in candidates <==> c.id in hosts && c.id !in todo && hosts[c.id].Eligible(full) && c.score == Score(hosts[c.id], f)
      decreases |todo|
    {
      var h :| h in todo;
      todo := todo - {h};
      if hosts[h].Eligible(full) {
        candidates := candidates + [Candidate(h, Score(hosts[h], f))];
      }
    }
    assert forall h <- hosts | hosts[h].Eligible(full) :: Candidate(h, Score(hosts[h], f)) in candidates;
    if candidates == [] {
      return None;
    }
    HeadIsBest(candidates);
    return Some(Sorting.StableSort(candidates, Higher)[0].id);
  }

  method BestHostToPrepare(hosts: map<string, Host>, full: bool) returns (r: Option<string>)
    ensures r.None? <==> forall h <- hosts :: !hosts[h].Eligible(full)
    ensures r.Some? ==> r.value in hosts && hosts[r.value].Eligible(full)
    ensures r.Some? ==> forall h <- hosts | hosts[h].Eligible(full) :: PreparationScore(hosts[h]) <= PreparationScore(hosts[r.value])
  {
    var candidates: seq<Candidate> := [];
    var todo := hosts.Keys;
    while todo != {}
      invariant todo <= hosts.Keys
      invariant forall c :: c in candidates <==> c.id in hosts && c.id !in todo && hosts[c.id].Eligible(full) && c.score == PreparationScore(hosts[c.id])
      decreases |todo|
    {
      var h :| h in todo;
      todo := todo - {h};
      if hosts[h].Eligible(full) {
        candidates := candidates + [Candidate(h, PreparationScore(hosts[h]))];
      }
    }
    assert forall h <- hosts | hosts[h].Eligible(full) :: Candidate(h, PreparationScore(hosts[h])) in candidates;
    if candidates == [] {
      return None;
    }
    HeadIsBest(candidates);
    return Some(Sorting.StableSort(candidates, Higher)[0].id);
  }

  method FindAlreadyWarm(hosts: map<string, Host>, f: string) returns (r: Option<string>)
    ensures r.None? <==> forall h <- hosts :: !AlreadyWarm(hosts[h], f)
    ensures r.Some? ==> r.value in hosts && AlreadyWarm(hosts[r.value], f)
  {
    var todo := hosts.Keys;
    while todo != {}
      invariant todo <= hosts.Keys
      invariant forall h <- hosts | h !in todo :: !AlreadyWarm(hosts[h], f)
      decreases |todo|
    {
      var h :| h in todo;
      todo := todo - {h};
      if AlreadyWarm(hosts[h], f) {
        return Some(h);
      }
    }
    return None;
  }

  // ---------------------------------------------------------------- the service

  class Service {
    const region: string
    const store: RegionStore
    var hosts: map<string, Host>

    constructor (region: string, store: RegionStore)
      ensures this.region == region && this.store == store && hosts == map[]
    {
      this.region, this.store, hosts := region, store, map[];
    }

    ghost function View(): Table
      reads this, store
    {
      Table(hosts, store.hosts, store.warmPools, if region in store.regions then Some(store.regions[region]) else None)
    }

    ghost predicate Valid()
      reads this, store
    {
      Filed(hosts) && store.Valid()
    }

    method Stats() returns (stats: RegionStats)
      ensures stats == Totals(hosts)
    {
      stats := Tally(hosts);
    }

    method PersistRegion(now: Time)
      requires Valid()
      modifies store`regions
      ensures Valid() && View() == old(View()).(region := Some(RegionRow(region, hosts, now)))
      ensures store.regions == old(store.regions)[region := RegionRow(region, hosts, now)]
    {
      var g := GatherHosts(region, hosts);
      store.PutRegion(RowFrom(region, g, now));
    }

    /** The three store calls every operation ends with. */
    method StoreHost(host: Host, pools: seq<WarmPool>, ghost ids: seq<string>, now: Time)
      requires Valid() && IsPoolList(host, now, pools, ids)
      modifies store
      ensures Valid() && View() == Write(region, old(View()), hosts, host, now)
    {
      ListReplacesPools(store.warmPools, host, now, pools, ids);
      store.PutHost(host);
      store.ReplaceWarmPoolsForHost(host.region, host.id, pools);
      PersistRegion(now);
    }

    method StoreSession(host: Host, now: Time)
      requires Valid()
      modifies this`hosts, store
      ensures Valid() && View() == Write(region, old(View()), old(hosts)[host.id := host], host, now)
    {
      hosts := hosts[host.id := host];
      var pools, ids := WarmPoolsForHost(host, now);
      StoreHost(host, pools, ids, now);
    }

    /** As StoreSession, for a host that no longer takes work: its warm-pool rows go without being listed. */
    method StoreIdleSession(host: Host, now: Time)
      requires Valid() && !host.state.Active?
      modifies this`hosts, store
      ensures Valid() && View() == Write(region, old(View()), old(hosts)[host.id := host], host, now)
    {
      hosts := hosts[host.id := host];
      StoreHost(host, [], [], now);
    }

    method CloseSession(host: Host, now: Time)
      requires Valid() && !host.state.Active?
      modifies this`hosts, store
      ensures Valid() && View() == Write(region, old(View()), old(hosts) - {host.id}, host, now)
    {
      hosts := hosts - {host.id};
      StoreHost(host, [], [], now);
    }

    method RegisterHostSession(id: string, hostRegion: string, driver: string, report: Report, now: Time)
      requires Valid()
      modifies this`hosts, store
      ensures Valid() && View() == Apply(region, old(View()), Register(id, hostRegion, driver, report, now))
    {
      StoreSession(Registered(id, hostRegion, driver, report, now), now);
    }

    method UpdateHeartbeat(id: string, report: Report, now: Time) returns (ok: bool)
      requires Valid()
      modifies this`hosts, store
      ensures Valid() && View() == Apply(region, old(View()), Heartbeat(id, report, now))
      ensures ok <==> id in old(hosts)
    {
      if id !in hosts {
        return false;
      }
      StoreSession(Reported(hosts[id], report, now), now);
      return true;
    }

    /** Fails exactly when no host is eligible; otherwise reserves on one of the best. */
    method PickHost(f: string, full: bool, now: Time) returns (r: Result<(string, StartMode)>)
      requires Valid()
      modifies this`hosts, store
      ensures Valid()
      ensures r.Err? <==> forall h <- old(hosts) :: !old(hosts)[h].Eligible(full)
      ensures r.Err? ==> View() == old(View())
      ensures r.Ok? ==> var pick := Pick(r.value.0, f, full, r.value.1, now);
        Enabled(region, old(View()), pick) && View() == Apply(region, old(View()), pick)
      ensures r.Ok? ==> var host := old(hosts)[r.value.0];
        && (r.value.1 == FunctionWarm <==> host.Warm(f) > 0)
        && (r.value.1 == BlankWarm <==> host.Warm(f) <= 0 && host.blankWarm > 0)
        && (r.value.1 == Cold <==> host.Warm(f) <= 0 && host.blankWarm <= 0)
    {
      var best := BestHost(hosts, f, full);
      if best.None? {
        return Err("no active hosts available");
      }
      var id := best.value;
      var mode := ClassifyStartMode(hosts[id], f);
      StoreSession(Reserve(hosts[id], f, full, mode), now);
      return Ok((id, mode));
    }

    /** Returns a host that already has the function warm if there is one, and otherwise reserves on one of the best. */
    method PickWarmHost(f: string, full: bool, now: Time) returns (r: Result<(string, bool)>)
      requires Valid()
      modifies this`hosts, store
      ensures Valid()
      ensures r.Err? ==> View() == old(View())
      ensures r.Err? <==> forall h <- old(hosts) :: !AlreadyWarm(old(hosts)[h], f) && !old(hosts)[h].Eligible(full)
      ensures r.Ok? ==> var e := if r.value.1 then FindWarm(r.value.0, f) else Prepare(r.value.0, f, full, now);
        Enabled(region, old(View()), e) && View() == Apply(region, old(View()), e)
    {
      var warm := FindAlreadyWarm(hosts, f);
      if warm.Some? {
        return Ok((warm.value, true));
      }
      var best := BestHostToPrepare(hosts, full);
      if best.None? {
        return Err("no active hosts available");
      }
      StoreSession(Reserve(hosts[best.value], f, full, Cold), now);
      return Ok((best.value, false));
    }

    method RestoreHostReservation(id: string, f: string, mode: StartMode, full: bool, now: Time)
      requires Valid()
      modifies this`hosts, store
      ensures Valid() && View() == Apply(region, old(View()), TakeBack(id, f, full, mode, now))
    {
      if id in hosts {
        StoreWrites(region, View(), TakeBack(id, f, full, mode, now), Restore(hosts[id], f, full, mode));
        StoreSession(Restore(hosts[id], f, full, mode), now);
      }
    }

    method RestorePreparationReservation(id: string, full: bool, now: Time)
      requires Valid()
      modifies this`hosts, store
      ensures Valid() && View() == Apply(region, old(View()), TakeBackPreparation(id, full, now))
    {
      if id in hosts {
        StoreWrites(region, View(), TakeBackPreparation(id, full, now), Restore(hosts[id], "", full, Cold));
        StoreSession(Restore(hosts[id], "", full, Cold), now);
      }
    }

    method DrainHost(id: string, now: Time) returns (ok: bool)
      requires Valid()
      modifies this`hosts, store
      ensures Valid() && View() == Apply(region, old(View()), Drain(id, now))
      ensures ok <==> id in old(hosts)
    {
      if id !in hosts {
        return false;
      }
      StoreIdleSession(Drained(hosts[id]), now);
      return true;
    }

    method MarkHostDown(id: string, now: Time)
      requires Valid()
      modifies this`hosts, store
      ensures Valid() && View() == Apply(region, old(View()), Leave(id, now))
    {
      if id in hosts {
        CloseSession(hosts[id].Downed(), now);
      }
    }

    method MarkStoredHostDown(copy: Host, cutoff: Time, now: Time)
      requires Valid() && Enabled(region, View(), Reap(copy, cutoff, now))
      modifies this`hosts, store
      ensures Valid() && View() == Apply(region, old(View()), Reap(copy, cutoff, now))
    {
      var host := copy;
      if copy.id in hosts {
        if hosts[copy.id].lastHeartbeat > cutoff {
          return;
        }
        host := hosts[copy.id];
      }
      CloseSession(host.Downed(), now);
    }

    /** A pass over the rows of the region that takes down every host not heard of for too long. */
    method ReapStaleHosts(now: Time) returns (ghost run: Run)
      requires Valid()
      modifies this`hosts, store
      ensures Valid() && After(region, old(View()), run) == Some(View())
      ensures var cutoff := now - 20 * SECOND;
        && IsPass(run, old(store.hosts), cutoff)
        && forall h <- old(store.hosts) | old(store.hosts)[h].region == region && !old(store.hosts)[h].state.Down?
             && old(store.hosts)[h].lastHeartbeat <= cutoff :: Reaches(run, h)
    {
      var cutoff := now - STALE_AFTER;
      var list := store.ListHostsByRegion(region);
      run := Begin;
      for i := 0 to |list|
        invariant Valid() && After(region, old(View()), run) == Some(View())
        invariant IsPass(run, old(store.hosts), cutoff) && old(store.hosts).Keys <= store.hosts.Keys
        invariant forall j | 0 <= j < i :: !list[j].state.Down? && list[j].lastHeartbeat <= cutoff ==> Reaches(run, list[j].id)
      {
        var copy := list[i];
        assert copy in list;
        if !copy.state.Down? && copy.lastHeartbeat <= cutoff {
          MarkStoredHostDown(copy, cutoff, now);
          run := Then(run, Reap(copy, cutoff, now));
        }
      }
    }
  }

  /** The theorem on the store itself: after any operations of the service on an empty store, once a host has registered,
      the stored region row shows what Stats returns and what the stored warm-pool rows add up to, and every connected
      host's stored row is its session. */
  lemma StoredViewsAgree(s: Service, run: Run)
    requires ColonFree(s.region) && AllPromised(s.region, run) && !Restarts(run) && After(s.region, EMPTY, run) == Some(s.View())
    ensures s.store.hosts != map[] ==>
      && s.region in s.store.regions
      && var row, pools := s.store.regions[s.region], s.store.warmPools;
      && row.stats == Totals(s.hosts) && (row.state == "active" <==> SomeActive(s.hosts))
      && row.stats.blankWarm == Sum(pools.Keys, BlankIn(pools)) && row.stats.functionWarm == Sum(pools.Keys, FunctionIn(pools))
      && forall h <- s.hosts :: h in s.store.hosts && s.store.hosts[h] == s.hosts[h]
  {
    ViewsAlwaysAgree(s.region, run);
  }
}
