/** The coordinator service over its part of the store. */
module Coordinator {
  import opened Options
  import opened Domain
  import opened Sums
  import opened HostTable
  import opened HostViews
  import opened HostRuns
  import Sorting
  import Text

  // ---------------------------------------------------------------- the rows of one host

  function KeyOfPool(p: WarmPool): string
  {
    WarmPoolKey(p.region, p.hostId, p.functionId)
  }

  function PutPools(m: map<string, WarmPool>, pools: seq<WarmPool>, n: nat): map<string, WarmPool>
    requires n <= |pools|
  {
    if n == 0 then m else PutPools(m, pools, n - 1)[KeyOfPool(pools[n - 1]) := pools[n - 1]]
  }

  function Without(m: map<string, WarmPool>, prefix: string): map<string, WarmPool>
  {
    map k | k in m && !(prefix <= k) :: m[k]
  }

  /** The last row written under a key stays. */
  lemma {:induction false} LastPoolStays(m: map<string, WarmPool>, pools: seq<WarmPool>, n: nat, i: nat)
    requires i < n <= |pools| && forall j | i < j < n :: KeyOfPool(pools[j]) != KeyOfPool(pools[i])
    ensures KeyOfPool(pools[i]) in PutPools(m, pools, n) && PutPools(m, pools, n)[KeyOfPool(pools[i])] == pools[i]
  {
    if i < n - 1 {
      LastPoolStays(m, pools, n - 1, i);
    }
  }

  lemma {:induction false} OtherKeysStay(m: map<string, WarmPool>, pools: seq<WarmPool>, n: nat, k: string)
    requires n <= |pools| && forall j | 0 <= j < n :: KeyOfPool(pools[j]) != k
    ensures k in PutPools(m, pools, n) <==> k in m
    ensures k in m ==> PutPools(m, pools, n)[k] == m[k]
  {
    if n > 0 {
      OtherKeysStay(m, pools, n - 1, k);
    }
  }

  function BlankPools(host: Host, at: Time): seq<WarmPool>
  {
    if host.blankWarm > 0 then [WarmPool(host.region, host.id, "", host.blankWarm, 0, at)] else []
  }

  function FunctionPools(host: Host, ids: seq<string>, at: Time): seq<WarmPool>
  {
    seq(|ids|, i requires 0 <= i < |ids| => WarmPool(host.region, host.id, ids[i], 0, host.Warm(ids[i]), at))
  }

  ghost predicate Increasing(ids: seq<string>)
  {
    forall i, j | 0 <= i < j < |ids| :: Text.Less(ids[i], ids[j])
  }

  /** The blank pool, then the pools of the warm functions. */
  ghost predicate Lists(host: Host, at: Time, pools: seq<WarmPool>, ids: seq<string>)
  {
    && pools == BlankPools(host, at) + FunctionPools(host, ids, at)
    && (forall f :: f in ids <==> f in host.functionWarm && host.functionWarm[f] > 0)
  }

  /** The list warmPoolsForHost returns: nothing for a host that is not active, and the functions in order of their ids. */
  ghost predicate IsPoolList(host: Host, at: Time, pools: seq<WarmPool>, ids: seq<string>)
  {
    if host.state.Active? then Lists(host, at, pools, ids) && Increasing(ids) else pools == []
  }

  lemma SameIdSameKey(host: Host, f: string, g: string)
    ensures WarmPoolKey(host.region, host.id, f) == WarmPoolKey(host.region, host.id, g) <==> f == g
  {
    IdInKey(host, f);
    IdInKey(host, g);
  }

  /** Every row of the list is filed under its own function id. */
  lemma PoolInList(host: Host, at: Time, pools: seq<WarmPool>, ids: seq<string>, j: nat)
    requires host.state.Active? && Lists(host, at, pools, ids) && j < |pools|
    ensures KeyOfPool(pools[j]) == WarmPoolKey(host.region, host.id, pools[j].functionId)
    ensures pools[j].functionId in PoolIds(host)
    ensures pools[j].functionId == if j < |BlankPools(host, at)| then "" else ids[j - |BlankPools(host, at)|]
  {
  }

  lemma LaterKeyDiffers(host: Host, at: Time, pools: seq<WarmPool>, ids: seq<string>, i: nat, j: nat)
    requires host.state.Active? && Lists(host, at, pools, ids) && Increasing(ids) && i < j < |pools|
    requires i < |BlankPools(host, at)| ==> "" !in ids
    ensures KeyOfPool(pools[j]) != KeyOfPool(pools[i])
  {
    PoolInList(host, at, pools, ids, i);
    PoolInList(host, at, pools, ids, j);
    SameIdSameKey(host, pools[i].functionId, pools[j].functionId);
    Text.LessIrreflexive(pools[i].functionId);
  }

  /** Where the row that stays under a function id stands in the list. */
  lemma LastIndex(host: Host, at: Time, pools: seq<WarmPool>, ids: seq<string>, f: string) returns (i: nat)
    requires host.state.Active? && Lists(host, at, pools, ids) && f in PoolIds(host)
    ensures i < |pools| && pools[i] == PoolRow(host, f, at)
    ensures i < |BlankPools(host, at)| ==> "" !in ids
  {
    if f in ids {
      var j :| 0 <= j < |ids| && ids[j] == f;
      i := |BlankPools(host, at)| + j;
    } else {
      i := 0;
    }
  }

  lemma ListedRow(m: map<string, WarmPool>, host: Host, at: Time, pools: seq<WarmPool>, ids: seq<string>, f: string)
    requires host.state.Active? && IsPoolList(host, at, pools, ids) && f in PoolIds(host)
    ensures var k := WarmPoolKey(host.region, host.id, f);
      k in PutPools(m, pools, |pools|) && PutPools(m, pools, |pools|)[k] == PoolRow(host, f, at)
  {
    var i := LastIndex(host, at, pools, ids, f);
    forall j | i < j < |pools|
      ensures KeyOfPool(pools[j]) != KeyOfPool(pools[i])
    {
      LaterKeyDiffers(host, at, pools, ids, i, j);
    }
    LastPoolStays(m, pools, |pools|, i);
  }

  lemma UnlistedKey(host: Host, at: Time, pools: seq<WarmPool>, ids: seq<string>, k: string, j: nat)
    requires IsPoolList(host, at, pools, ids) && k !in PoolKeys(host) && j < |pools|
    ensures KeyOfPool(pools[j]) != k
  {
    PoolInList(host, at, pools, ids, j);
    assert KeyOfPool(pools[j]) in PoolKeys(host);
  }

  lemma ReplacedRow(m: map<string, WarmPool>, host: Host, at: Time, pools: seq<WarmPool>, ids: seq<string>, k: string)
    requires IsPoolList(host, at, pools, ids)
    ensures var r := PutPools(Without(m, WarmPoolKey(host.region, host.id, "")), pools, |pools|);
      var e := ReplacePools(m, host, at);
      (k in r <==> k in e) && (k in r ==> r[k] == e[k])
  {
    var rest := Without(m, WarmPoolKey(host.region, host.id, ""));
    if k in PoolKeys(host) {
      var f :| f in PoolIds(host) && k == WarmPoolKey(host.region, host.id, f);
      IdInKey(host, f);
      ListedRow(rest, host, at, pools, ids, f);
    } else {
      forall j | 0 <= j < |pools|
        ensures KeyOfPool(pools[j]) != k
      {
        UnlistedKey(host, at, pools, ids, k, j);
      }
      OtherKeysStay(rest, pools, |pools|, k);
    }
  }

  /** Deleting by prefix and writing the list is replacing the host's rows. */
  lemma ListReplacesPools(m: map<string, WarmPool>, host: Host, at: Time, pools: seq<WarmPool>, ids: seq<string>)
    requires IsPoolList(host, at, pools, ids)
    ensures PutPools(Without(m, WarmPoolKey(host.region, host.id, "")), pools, |pools|) == ReplacePools(m, host, at)
  {
    forall k
      ensures var r := PutPools(Without(m, WarmPoolKey(host.region, host.id, "")), pools, |pools|);
        var e := ReplacePools(m, host, at);
        (k in r <==> k in e) && (k in r ==> r[k] == e[k])
    {
      ReplacedRow(m, host, at, pools, ids, k);
    }
  }

  lemma TwoOccurrences(s: seq<string>, i: nat, j: nat)
    requires i < j < |s| && s[i] == s[j]
    ensures multiset(s)[s[i]] >= 2
  {
    assert s == s[..j] + s[j..];
    assert s[i] in s[..j] && s[j] in s[j..];
    assert multiset(s[..j])[s[i]] >= 1 && multiset(s[j..])[s[i]] >= 1;
  }

  lemma LessIsStrictWeak()
    ensures Sorting.StrictWeak(Text.Less)
  {
    forall a
      ensures !Text.Less(a, a)
    {
      Text.LessIrreflexive(a);
    }
    forall a, b, c | Text.Less(a, b) && Text.Less(b, c)
      ensures Text.Less(a, c)
    {
      Text.LessTransitive(a, b, c);
    }
    forall a, b, c | Text.Less(a, c)
      ensures Text.Less(a, b) || Text.Less(b, c)
    {
      Text.LessTotal(a, b);
      if Text.Less(b, a) {
        Text.LessTransitive(b, a, c);
      }
    }
  }

  /** Distinct ids in sorted order are strictly increasing. */
  lemma SortedIdsIncrease(ids: seq<string>)
    requires forall f :: multiset(ids)[f] <= 1
    ensures Increasing(Sorting.StableSort(ids, Text.Less))
  {
    var r := Sorting.StableSort(ids, Text.Less);
    LessIsStrictWeak();
    Sorting.StableSortSorts(ids, Text.Less);
    forall i, j | 0 <= i < j < |r|
      ensures Text.Less(r[i], r[j])
    {
      if r[i] == r[j] {
        TwoOccurrences(r, i, j);
      }
      Text.LessTotal(r[i], r[j]);
    }
  }

  method WarmPoolsForHost(host: Host, at: Time) returns (pools: seq<WarmPool>, ghost ids: seq<string>)
    ensures IsPoolList(host, at, pools, ids)
  {
    ids := [];
    if !host.state.Active? {
      return [], [];
    }
    pools := BlankPools(host, at);
    var functionIds: seq<string> := [];
    var todo := host.functionWarm.Keys;
    while todo != {}
      invariant todo <= host.functionWarm.Keys
      invariant forall f :: multiset(functionIds)[f] == (if f in host.functionWarm && f !in todo && host.functionWarm[f] > 0 then 1 else 0)
      decreases |todo|
    {
      var f :| f in todo;
      todo := todo - {f};
      if host.functionWarm[f] > 0 {
        functionIds := functionIds + [f];
      }
    }
    SortedIdsIncrease(functionIds);
    var sorted := Sorting.StableSort(functionIds, Text.Less);
    assert forall f :: f in sorted <==> f in multiset(functionIds);
    ids := sorted;
    pools := pools + FunctionPools(host, sorted, at);
  }

  // ---------------------------------------------------------------- adding up

  method CountWarm(host: Host) returns (n: int)
    ensures n == FunctionTotal(host)
  {
    n := 0;
    var todo := host.functionWarm.Keys;
    SumVisited(host.functionWarm.Keys, WarmOf(host));
    while todo != {}
      invariant todo <= host.functionWarm.Keys
      invariant n == Sum(host.functionWarm.Keys - todo, WarmOf(host))
      decreases |todo|
    {
      var f :| f in todo;
      SumVisit(host.functionWarm.Keys, todo, f, WarmOf(host));
      n := n + host.functionWarm[f];
      todo := todo - {f};
    }
  }

  ghost predicate Tallied(hosts: map<string, Host>, todo: set<string>, stats: RegionStats)
  {
    && stats.availableHosts == Sum(hosts.Keys - todo, FreeOf(hosts))
    && stats.availableFullNetworkSlots == Sum(hosts.Keys - todo, FullOf(hosts))
    && stats.blankWarm == Sum(hosts.Keys - todo, BlankOf(hosts))
    && stats.functionWarm == Sum(hosts.Keys - todo, FunctionOf(hosts))
  }

  lemma ColumnVisit(all: set<string>, todo: set<string>, h: string, column: string -> int, total: int, amount: int)
    requires h in todo && todo <= all && total == Sum(all - todo, column) && column(h) == amount
    ensures total + amount == Sum(all - (todo - {h}), column)
  {
    SumVisit(all, todo, h, column);
  }

  lemma TallyOne(hosts: map<string, Host>, todo: set<string>, h: string, stats: RegionStats, warm: int)
    requires Tallied(hosts, todo, stats) && h in todo && todo <= hosts.Keys && warm == FunctionTotal(hosts[h])
    ensures Tallied(hosts, todo - {h}, Plus(stats, hosts[h], warm))
  {
    var active := hosts[h].state.Active?;
    ColumnVisit(hosts.Keys, todo, h, FreeOf(hosts), stats.availableHosts, One(hosts[h].Eligible(false)));
    ColumnVisit(hosts.Keys, todo, h, FullOf(hosts), stats.availableFullNetworkSlots, if active then hosts[h].fullSlots else 0);
    ColumnVisit(hosts.Keys, todo, h, BlankOf(hosts), stats.blankWarm, if active then hosts[h].blankWarm else 0);
    ColumnVisit(hosts.Keys, todo, h, FunctionOf(hosts), stats.functionWarm, if active then warm else 0);
  }

  lemma NothingTallied(hosts: map<string, Host>)
    ensures Tallied(hosts, hosts.Keys, RegionStats(0, 0, 0, 0))
  {
    SumVisited(hosts.Keys, FullOf(hosts));
    SumVisited(hosts.Keys, BlankOf(hosts));
    SumVisited(hosts.Keys, FunctionOf(hosts));
    SumVisited(hosts.Keys, FreeOf(hosts));
  }

  lemma AllTallied(hosts: map<string, Host>, stats: RegionStats)
    requires Tallied(hosts, {}, stats)
    ensures stats == Totals(hosts)
  {
    SumVisited(hosts.Keys, FullOf(hosts));
    SumVisited(hosts.Keys, BlankOf(hosts));
    SumVisited(hosts.Keys, FunctionOf(hosts));
    SumVisited(hosts.Keys, FreeOf(hosts));
  }

  /** The accumulation loop of Stats. */
  method Tally(hosts: map<string, Host>) returns (stats: RegionStats)
    ensures stats == Totals(hosts)
  {
    stats := RegionStats(0, 0, 0, 0);
    var todo := hosts.Keys;
    NothingTallied(hosts);
    while todo != {}
      invariant todo <= hosts.Keys && Tallied(hosts, todo, stats)
      decreases |todo|
    {
      var h :| h in todo;
      var warm := CountWarm(hosts[h]);
      TallyOne(hosts, todo, h, stats, warm);
      stats := Plus(stats, hosts[h], warm);
      todo := todo - {h};
    }
    AllTallied(hosts, stats);
  }

  /** The loop of persistRegionLocked over the connected hosts. */
  method GatherHosts(name: string, hosts: map<string, Host>) returns (g: Gathered)
    ensures g == Gather(name, hosts, hosts.Keys)
  {
    g := NOTHING;
    var todo := hosts.Keys;
    assert hosts.Keys - todo == {};
    while todo != {}
      invariant todo <= hosts.Keys && g == Gather(name, hosts, hosts.Keys - todo)
      decreases |todo|
    {
      var h :| h in todo;
      var warm := CountWarm(hosts[h]);
      GatherAdds(name, hosts, hosts.Keys - todo, h);
      assert hosts.Keys - (todo - {h}) == hosts.Keys - todo + {h};
      g := WithHost(name, g, hosts[h], warm);
      todo := todo - {h};
    }
    assert hosts.Keys - todo == hosts.Keys;
  }
}
