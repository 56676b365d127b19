/** The coordinator's host table and the three stored views derived from it: host rows, warm-pool rows and the region
    row. */
module HostTable {
  import opened Options
  import opened Domain
  import opened Sums
  import Text

  datatype HostState = Active | Draining | Down

  datatype Host = Host(id: string, region: string, driver: string, state: HostState, slots: int, fullSlots: int, blankWarm: int,
                       functionWarm: map<string, int>, lastHeartbeat: Time)
  {
    function Warm(f: string): int { if f in functionWarm then functionWarm[f] else 0 }

    /** Whether the host can take an execution. */
    predicate Eligible(full: bool) { state.Active? && slots > 0 && (full ==> fullSlots > 0) }

    /** What remains of a host that left. */
    function Downed(): Host { this.(state := Down, slots := 0, fullSlots := 0, blankWarm := 0, functionWarm := map[]) }
  }

  datatype WarmPool = WarmPool(region: string, hostId: string, functionId: string, blankWarm: int, functionWarm: int, updatedAt: Time)

  // ---------------------------------------------------------------- warm-pool rows

  function WarmPoolKey(region: string, hostId: string, functionId: string): string
  {
    region + ":" + hostId + ":" + functionId
  }

  /** The function ids, "" for the blank pool, under which the host has a row. */
  function PoolIds(host: Host): set<string>
  {
    if host.state.Active? then
      (if host.blankWarm > 0 then {""} else {}) + set f | f in host.functionWarm && host.functionWarm[f] > 0
    else {}
  }

  /** The row written last under the id: a function pool with an empty id replaces the blank pool. */
  function PoolRow(host: Host, f: string, at: Time): WarmPool
  {
    if host.Warm(f) > 0 then WarmPool(host.region, host.id, f, 0, host.Warm(f), at)
    else WarmPool(host.region, host.id, f, host.blankWarm, 0, at)
  }

  function PoolKeys(host: Host): set<string>
  {
    set f | f in PoolIds(host) :: WarmPoolKey(host.region, host.id, f)
  }

  /** The function id in a key of the host. */
  function IdIn(host: Host, key: string): string
  {
    var prefix := WarmPoolKey(host.region, host.id, "");
    if prefix <= key then key[|prefix|..] else ""
  }

  lemma IdInKey(host: Host, f: string)
    ensures IdIn(host, WarmPoolKey(host.region, host.id, f)) == f
  {
    assert WarmPoolKey(host.region, host.id, f) == WarmPoolKey(host.region, host.id, "") + f;
  }

  function HostPools(host: Host, at: Time): map<string, WarmPool>
  {
    map k | k in PoolKeys(host) :: PoolRow(host, IdIn(host, k), at)
  }

  /** ReplaceWarmPoolsForHost with the host's present rows: every key under the host's prefix goes first. */
  function ReplacePools(pools: map<string, WarmPool>, host: Host, at: Time): map<string, WarmPool>
  {
    (map k | k in pools && !(WarmPoolKey(host.region, host.id, "") <= k) :: pools[k]) + HostPools(host, at)
  }

  /** A pool row is written under the host's own names and stamped; a function's row counts its warm instances, and any
      other the blank ones. */
  ghost predicate RowSays(host: Host, f: string, at: Time, p: WarmPool)
  {
    && p.region == host.region && p.hostId == host.id && p.functionId == f && p.updatedAt == at
    && (f in host.functionWarm && host.functionWarm[f] > 0 ==> p.functionWarm == host.functionWarm[f] && p.blankWarm == 0)
    && (f !in host.functionWarm || host.functionWarm[f] <= 0 ==> p.functionWarm == 0 && p.blankWarm == host.blankWarm)
  }

  /** What replacing a host's rows leaves: its pools as they are now, and the rows outside its prefix. */
  lemma ReplacedRows(pools: map<string, WarmPool>, host: Host, at: Time)
    ensures var r := ReplacePools(pools, host, at);
      && (forall f <- PoolIds(host) ::
            var k := WarmPoolKey(host.region, host.id, f);
            k in r && RowSays(host, f, at, r[k]))
      && (forall k <- pools | !(host.region + ":" + host.id + ":" <= k) :: k in r && (k !in PoolKeys(host) ==> r[k] == pools[k]))
      && (forall k <- r :: k in PoolKeys(host) || (k in pools && !(host.region + ":" + host.id + ":" <= k)))
  {
    assert WarmPoolKey(host.region, host.id, "") == host.region + ":" + host.id + ":";
    forall f <- PoolIds(host)
      ensures var k := WarmPoolKey(host.region, host.id, f); k in PoolKeys(host) && HostPools(host, at)[k] == PoolRow(host, f, at)
    {
      IdInKey(host, f);
    }
  }

  ghost predicate ColonFree(s: string)
  {
    ':' !in s
  }

  /** The prefix selects exactly the host's own rows when the names contain no colon. */
  lemma PrefixIsExact(region: string, id: string, region': string, id': string, f: string)
    requires ColonFree(region) && ColonFree(id) && ColonFree(region') && ColonFree(id')
    ensures WarmPoolKey(region, id, "") <= WarmPoolKey(region', id', f) <==> region == region' && id == id'
  {
    var prefix, key := WarmPoolKey(region, id, ""), WarmPoolKey(region', id', f);
    if region == region' && id == id' {
      assert key == prefix + f;
    }
    if prefix <= key {
      var rest := key[|prefix|..];
      assert key == prefix + rest;
      assert key == region + [':'] + (id + [':'] + rest);
      assert key == region' + [':'] + (id' + [':'] + f);
      Text.SplitUnique(':', region, id + [':'] + rest, region', id' + [':'] + f);
      Text.SplitUnique(':', id, rest, id', f);
    }
  }

  /** Exactly when the prefix of one host covers a row of another, for any names: read as region, colon and id, one name
      followed by a colon begins the other, and then the row's function id must make up for what is missing. */
  lemma PrefixCoversIff(region: string, id: string, region': string, id': string, f: string)
    ensures var a, b := region + ":" + id, region' + ":" + id';
      WarmPoolKey(region, id, "") <= WarmPoolKey(region', id', f)
      <==> a == b || a + ":" <= b || (b + ":" <= a && a[|b| + 1..] + ":" <= f)
  {
    var a, b := region + ":" + id, region' + ":" + id';
    assert WarmPoolKey(region, id, "") == a + ":";
    assert WarmPoolKey(region', id', f) == b + ":" + f;
    Text.JoinedPrefixIff(':', a, b, f);
  }

  /** Two hosts of one region can hit each other's rows exactly when one id followed by a colon begins the other. */
  lemma HostsInterfereIff(region: string, id: string, id': string)
    requires id != id'
    ensures (exists f :: WarmPoolKey(region, id, "") <= WarmPoolKey(region, id', f)) <==> id + ":" <= id' || id' + ":" <= id
  {
    var a, b := region + ":" + id, region + ":" + id';
    assert a == b <==> id == id' by {
      assert a[|region| + 1..] == id && b[|region| + 1..] == id';
    }
    Text.SharedPrefix(region + ":", id + ":", id');
    Text.SharedPrefix(region + ":", id' + ":", id);
    assert a + ":" == region + ":" + (id + ":") && b + ":" == region + ":" + (id' + ":");
    if b + ":" <= a {
      var f := a[|b| + 1..] + ":";
      PrefixCoversIff(region, id, region, id', f);
      assert WarmPoolKey(region, id, "") <= WarmPoolKey(region, id', f);
    } else if a + ":" <= b {
      PrefixCoversIff(region, id, region, id', "");
      assert WarmPoolKey(region, id, "") <= WarmPoolKey(region, id', "");
    }
    forall f
      ensures WarmPoolKey(region, id, "") <= WarmPoolKey(region, id', f) ==> a + ":" <= b || b + ":" <= a
    {
      PrefixCoversIff(region, id, region, id', f);
    }
  }

  /** With a colon in a host id, the prefix of one host also covers the rows of another. */
  lemma ColonDeletesForeignRows() returns (pools: map<string, WarmPool>, a: Host, b: Host)
    ensures a.id != b.id && a.region == b.region && HostPools(b, 1) == pools && pools != map[]
    ensures ReplacePools(pools, a, 2) == map[]
  {
    a := Host("h", "r", "", Down, 0, 0, 0, map[], 1);
    b := Host("h:1", "r", "", Active, 1, 0, 1, map[], 1);
    pools := HostPools(b, 1);
    assert WarmPoolKey("r", "h:1", "") == "r:h:1:" && WarmPoolKey("r", "h", "") == "r:h:";
    assert PoolIds(b) == {""};
    assert "r:h:1:" in PoolKeys(b);
    assert "r:h:1:" in pools;
    assert "r:h:" <= "r:h:1:";
    assert pools.Keys == {"r:h:1:"};
  }

  // ---------------------------------------------------------------- totals

  ghost function BlankOf(hosts: map<string, Host>): string -> int
  {
    h => if h in hosts && hosts[h].state.Active? then hosts[h].blankWarm else 0
  }

  ghost function FullOf(hosts: map<string, Host>): string -> int
  {
    h => if h in hosts && hosts[h].state.Active? then hosts[h].fullSlots else 0
  }

  ghost function WarmOf(host: Host): string -> int
  {
    f => host.Warm(f)
  }

  ghost function FunctionTotal(host: Host): int
  {
    Sum(host.functionWarm.Keys, WarmOf(host))
  }

  ghost function FunctionOf(hosts: map<string, Host>): string -> int
  {
    h => if h in hosts && hosts[h].state.Active? then FunctionTotal(hosts[h]) else 0
  }

  ghost function FreeOf(hosts: map<string, Host>): string -> int
  {
    h => if h in hosts && hosts[h].Eligible(false) then 1 else 0
  }

  /** What the active hosts offer together. */
  ghost function Totals(hosts: map<string, Host>): RegionStats
  {
    RegionStats(Sum(hosts.Keys, FreeOf(hosts)), Sum(hosts.Keys, FullOf(hosts)), Sum(hosts.Keys, BlankOf(hosts)), Sum(hosts.Keys, FunctionOf(hosts)))
  }

  /** The available hosts are counted, each once. */
  lemma AvailableHostsAreCounted(hosts: map<string, Host>)
    ensures Totals(hosts).availableHosts == |set h | h in hosts && hosts[h].Eligible(false)|
  {
    var free := set h | h in hosts && hosts[h].Eligible(false);
    SumOfOnes(hosts.Keys, free, FreeOf(hosts));
  }

  ghost function BlankIn(pools: map<string, WarmPool>): string -> int
  {
    k => if k in pools then pools[k].blankWarm else 0
  }

  ghost function FunctionIn(pools: map<string, WarmPool>): string -> int
  {
    k => if k in pools then pools[k].functionWarm else 0
  }

  // ---------------------------------------------------------------- the region row

  /** What persistRegionLocked has gathered from some of the hosts. */
  datatype Gathered = Gathered(stats: RegionStats, latest: Time, active: bool)

  const NOTHING := Gathered(RegionStats(0, 0, 0, 0), ZERO, false)

  function One(b: bool): int
  {
    if b then 1 else 0
  }

  /** What one host adds to the totals; `warm` is the number of its warm functions. */
  function Plus(stats: RegionStats, host: Host, warm: int): RegionStats
  {
    if !host.state.Active? then stats
    else RegionStats(stats.availableHosts + One(host.slots > 0), stats.availableFullNetworkSlots + host.fullSlots,
                     stats.blankWarm + host.blankWarm, stats.functionWarm + warm)
  }

  /** Hosts that name another region are passed over. */
  function WithHost(name: string, g: Gathered, host: Host, warm: int): Gathered
  {
    if host.region != name then g
    else Gathered(Plus(g.stats, host, warm), if host.lastHeartbeat > g.latest then host.lastHeartbeat else g.latest,
                  g.active || host.state.Active?)
  }

  ghost function Gather(name: string, hosts: map<string, Host>, ids: set<string>): Gathered
    requires ids <= hosts.Keys
    decreases |ids|
  {
    if ids == {} then NOTHING else
      var h :| h in ids;
      WithHost(name, Gather(name, hosts, ids - {h}), hosts[h], FunctionTotal(hosts[h]))
  }

  function RowFrom(name: string, g: Gathered, now: Time): Region
  {
    Region(name, if g.active then "active" else "degraded", g.stats, if g.latest == ZERO then now else g.latest,
           if g.active then "" else "no active hosts connected")
  }

  /** What persistRegionLocked writes. */
  ghost function RegionRow(name: string, sessions: map<string, Host>, now: Time): Region
  {
    RowFrom(name, Gather(name, sessions, sessions.Keys), now)
  }

  // ---------------------------------------------------------------- what the region row shows

  function Located(hosts: map<string, Host>, region: string): map<string, Host>
  {
    map h | h in hosts && hosts[h].region == region :: hosts[h]
  }

  ghost predicate SomeActive(hosts: map<string, Host>)
  {
    exists h <- hosts :: hosts[h].state.Active?
  }

  ghost predicate SumsUp(hosts: map<string, Host>, ids: set<string>, stats: RegionStats)
  {
    && stats.availableHosts == Sum(ids, FreeOf(hosts)) && stats.availableFullNetworkSlots == Sum(ids, FullOf(hosts))
    && stats.blankWarm == Sum(ids, BlankOf(hosts)) && stats.functionWarm == Sum(ids, FunctionOf(hosts))
  }

  lemma SumsUpWith(name: string, hosts: map<string, Host>, ids: set<string>, h: string, g: Gathered)
    requires h in hosts && h !in ids && SumsUp(Located(hosts, name), ids, g.stats)
    ensures SumsUp(Located(hosts, name), ids + {h}, WithHost(name, g, hosts[h], FunctionTotal(hosts[h])).stats)
  {
    var l := Located(hosts, name);
    SumAdd(ids, h, FreeOf(l));
    SumAdd(ids, h, FullOf(l));
    SumAdd(ids, h, BlankOf(l));
    SumAdd(ids, h, FunctionOf(l));
  }

  /** The latest heartbeat, and whether a host is active, among the hosts of the region in `ids`. */
  ghost predicate Heard(name: string, hosts: map<string, Host>, ids: set<string>, g: Gathered)
    requires ids <= hosts.Keys
  {
    && g.latest >= ZERO && (forall h <- ids :: hosts[h].region == name ==> hosts[h].lastHeartbeat <= g.latest)
    && (g.latest == ZERO || exists h :: h in ids && hosts[h].region == name && hosts[h].lastHeartbeat == g.latest)
    && (g.active <==> exists h :: h in ids && hosts[h].region == name && hosts[h].state.Active?)
  }

  lemma HeardWith(name: string, hosts: map<string, Host>, ids: set<string>, h: string, g: Gathered)
    requires ids <= hosts.Keys && h in hosts && Heard(name, hosts, ids, g)
    ensures Heard(name, hosts, ids + {h}, WithHost(name, g, hosts[h], FunctionTotal(hosts[h])))
  {
  }

  /** Some host was gathered last. */
  lemma GatheredLast(name: string, hosts: map<string, Host>, ids: set<string>) returns (h: string)
    requires ids <= hosts.Keys && ids != {}
    ensures h in ids && ids - {h} + {h} == ids
    ensures Gather(name, hosts, ids) == WithHost(name, Gather(name, hosts, ids - {h}), hosts[h], FunctionTotal(hosts[h]))
  {
    h :| h in ids && Gather(name, hosts, ids) == WithHost(name, Gather(name, hosts, ids - {h}), hosts[h], FunctionTotal(hosts[h]));
  }

  lemma {:induction false} GatherHears(name: string, hosts: map<string, Host>, ids: set<string>)
    requires ids <= hosts.Keys
    ensures Heard(name, hosts, ids, Gather(name, hosts, ids))
    decreases |ids|
  {
    if ids != {} {
      var h := GatheredLast(name, hosts, ids);
      GatherHears(name, hosts, ids - {h});
      HeardWith(name, hosts, ids - {h}, h, Gather(name, hosts, ids - {h}));
    }
  }

  lemma {:induction false} GatherSumsUp(name: string, hosts: map<string, Host>, ids: set<string>)
    requires ids <= hosts.Keys
    ensures SumsUp(Located(hosts, name), ids, Gather(name, hosts, ids).stats)
    decreases |ids|
  {
    if ids != {} {
      var h := GatheredLast(name, hosts, ids);
      GatherSumsUp(name, hosts, ids - {h});
      SumsUpWith(name, hosts, ids - {h}, h, Gather(name, hosts, ids - {h}));
    }
  }

  lemma HeardOnce(name: string, hosts: map<string, Host>, ids: set<string>, g: Gathered, g': Gathered)
    requires ids <= hosts.Keys && Heard(name, hosts, ids, g) && Heard(name, hosts, ids, g')
    ensures g.latest == g'.latest && g.active == g'.active
  {
  }

  /** The hosts may be visited in any order. */
  lemma GatherAdds(name: string, hosts: map<string, Host>, ids: set<string>, h: string)
    requires ids <= hosts.Keys && h in hosts && h !in ids
    ensures Gather(name, hosts, ids + {h}) == WithHost(name, Gather(name, hosts, ids), hosts[h], FunctionTotal(hosts[h]))
  {
    var g := Gather(name, hosts, ids);
    GatherHears(name, hosts, ids);
    HeardWith(name, hosts, ids, h, g);
    GatherHears(name, hosts, ids + {h});
    HeardOnce(name, hosts, ids + {h}, Gather(name, hosts, ids + {h}), WithHost(name, g, hosts[h], FunctionTotal(hosts[h])));
    GatherSumsUp(name, hosts, ids);
    SumsUpWith(name, hosts, ids, h, g);
    GatherSumsUp(name, hosts, ids + {h});
  }

  /** The region row shows the totals of the hosts of the region, and is active exactly when one of them is. */
  lemma RowShowsTotals(name: string, sessions: map<string, Host>, now: Time)
    ensures var row := RegionRow(name, sessions, now);
      && row.name == name && row.stats == Totals(Located(sessions, name))
      && (row.state == "active" <==> SomeActive(Located(sessions, name)))
      && (row.state == "degraded" <==> !SomeActive(Located(sessions, name)))
      && row.lastError == if SomeActive(Located(sessions, name)) then "" else "no active hosts connected"
  {
    GatherHears(name, sessions, sessions.Keys);
    GatherSumsUp(name, sessions, sessions.Keys);
    LocatedSums(name, sessions);
  }

  lemma LocatedSums(name: string, hosts: map<string, Host>)
    ensures SumsUp(Located(hosts, name), hosts.Keys, Totals(Located(hosts, name)))
  {
    var l := Located(hosts, name);
    SumDropZeros(hosts.Keys, l.Keys, FreeOf(l));
    SumDropZeros(hosts.Keys, l.Keys, FullOf(l));
    SumDropZeros(hosts.Keys, l.Keys, BlankOf(l));
    SumDropZeros(hosts.Keys, l.Keys, FunctionOf(l));
  }

  /** The row's heartbeat is the latest of the hosts of the region, or the time of writing if none was ever heard. */
  lemma RowShowsLatest(name: string, sessions: map<string, Host>, now: Time)
    ensures var at := RegionRow(name, sessions, now).lastHeartbeatAt;
      && (forall h <- sessions | sessions[h].region == name :: sessions[h].lastHeartbeat <= at || (at == now && sessions[h].lastHeartbeat <= ZERO))
      && (at == now || exists h :: h in sessions && sessions[h].region == name && sessions[h].lastHeartbeat == at)
  {
    GatherHears(name, sessions, sessions.Keys);
  }

  function Foreign(hosts: map<string, Host>, region: string): map<string, Host>
  {
    map h | h in hosts && hosts[h].region != region :: hosts[h]
  }

  lemma ColumnSplits(hosts: map<string, Host>, region: string, all: string -> int, located: string -> int, foreign: string -> int)
    requires forall h <- Located(hosts, region) :: all(h) == located(h)
    requires forall h <- Foreign(hosts, region) :: all(h) == foreign(h)
    ensures Sum(hosts.Keys, all) == Sum(Located(hosts, region).Keys, located) + Sum(Foreign(hosts, region).Keys, foreign)
  {
    var l, f := Located(hosts, region).Keys, Foreign(hosts, region).Keys;
    assert hosts.Keys == l + f;
    SumUnion(l, f, all);
    SumCongruent(l, all, located);
    SumCongruent(f, all, foreign);
  }

  lemma FreeSplits(hosts: map<string, Host>, region: string)
    ensures Totals(hosts).availableHosts == Totals(Located(hosts, region)).availableHosts + Totals(Foreign(hosts, region)).availableHosts
  {
    ColumnSplits(hosts, region, FreeOf(hosts), FreeOf(Located(hosts, region)), FreeOf(Foreign(hosts, region)));
  }

  lemma FullSplits(hosts: map<string, Host>, region: string)
    ensures Totals(hosts).availableFullNetworkSlots == Totals(Located(hosts, region)).availableFullNetworkSlots + Totals(Foreign(hosts, region)).availableFullNetworkSlots
  {
    ColumnSplits(hosts, region, FullOf(hosts), FullOf(Located(hosts, region)), FullOf(Foreign(hosts, region)));
  }

  lemma BlankSplits(hosts: map<string, Host>, region: string)
    ensures Totals(hosts).blankWarm == Totals(Located(hosts, region)).blankWarm + Totals(Foreign(hosts, region)).blankWarm
  {
    ColumnSplits(hosts, region, BlankOf(hosts), BlankOf(Located(hosts, region)), BlankOf(Foreign(hosts, region)));
  }

  lemma FunctionSplits(hosts: map<string, Host>, region: string)
    ensures Totals(hosts).functionWarm == Totals(Located(hosts, region)).functionWarm + Totals(Foreign(hosts, region)).functionWarm
  {
    ColumnSplits(hosts, region, FunctionOf(hosts), FunctionOf(Located(hosts, region)), FunctionOf(Foreign(hosts, region)));
  }

  function AddStats(a: RegionStats, b: RegionStats): RegionStats
  {
    RegionStats(a.availableHosts + b.availableHosts, a.availableFullNetworkSlots + b.availableFullNetworkSlots,
                a.blankWarm + b.blankWarm, a.functionWarm + b.functionWarm)
  }

  lemma SameStatsIff(a: RegionStats, b: RegionStats)
    ensures AddStats(a, b) == a <==> b == RegionStats(0, 0, 0, 0)
  {
  }

  lemma TotalsSplit(hosts: map<string, Host>, region: string)
    ensures Totals(hosts) == AddStats(Totals(Located(hosts, region)), Totals(Foreign(hosts, region)))
  {
    FreeSplits(hosts, region);
    FullSplits(hosts, region);
    BlankSplits(hosts, region);
    FunctionSplits(hosts, region);
  }

  /** Stats counts connected hosts of other regions and the region row does not, so the two agree exactly when those
      hosts offer nothing. */
  lemma StatsAgreeIff(name: string, sessions: map<string, Host>, now: Time)
    ensures Totals(sessions) == RegionRow(name, sessions, now).stats <==> Totals(Foreign(sessions, name)) == RegionStats(0, 0, 0, 0)
  {
    RowShowsTotals(name, sessions, now);
    TotalsSplit(sessions, name);
    SameStatsIff(Totals(Located(sessions, name)), Totals(Foreign(sessions, name)));
  }

  /** A connected host of another region with a blank pool makes them differ. */
  lemma ForeignHostSplitsTotals() returns (sessions: map<string, Host>)
    ensures Totals(sessions).blankWarm != RegionRow("r", sessions, 1).stats.blankWarm
  {
    sessions := map["h" := Host("h", "other", "", Active, 1, 0, 1, map[], 1)];
    SumSingle(sessions.Keys, "h", BlankOf(sessions));
    RowShowsTotals("r", sessions, 1);
    assert Located(sessions, "r") == map[];
  }
}
