/** When the stored views agree with the host table, and what they then add up to. */
module HostViews {
  import opened Options
  import opened Domain
  import opened Sums
  import opened HostTable

  /** The connected hosts, and the host rows, warm-pool rows and region row of the store. */
  datatype Table = Table(sessions: map<string, Host>, rows: map<string, Host>, pools: map<string, WarmPool>, region: Option<Region>)

  const EMPTY := Table(map[], map[], map[], None)

  /** Counts are not negative and function ids are not empty. */
  ghost predicate Sane(host: Host)
  {
    && host.slots >= 0 && host.fullSlots >= 0 && host.blankWarm >= 0
    && (forall f <- host.functionWarm :: f != "" && host.functionWarm[f] >= 0)
  }

  ghost predicate RowOk(name: string, id: string, host: Host)
  {
    host.id == id && host.region == name && ColonFree(id) && Sane(host)
  }

  ghost predicate RowsOk(name: string, rows: map<string, Host>)
  {
    ColonFree(name) && forall h <- rows :: RowOk(name, h, rows[h])
  }

  /** Each of the host's pools has its row. */
  ghost predicate HasPools(host: Host, pools: map<string, WarmPool>)
  {
    forall f <- PoolIds(host) ::
      var k := WarmPoolKey(host.region, host.id, f);
      k in pools && pools[k] == PoolRow(host, f, pools[k].updatedAt)
  }

  /** The warm-pool rows are exactly those of the host rows, whenever they were written. */
  ghost predicate PoolsAgree(rows: map<string, Host>, pools: map<string, WarmPool>)
  {
    && (forall h <- rows :: HasPools(rows[h], pools))
    && (forall k <- pools :: pools[k].hostId in rows && k in PoolKeys(rows[pools[k].hostId]))
  }

  /** Every host row that is not connected is down. Only a restart leaves others behind. */
  ghost predicate NoOrphans(t: Table)
  {
    forall h <- t.rows | h !in t.sessions :: t.rows[h].state.Down?
  }

  /** The stored region row is the one that follows from the hosts connected now. */
  ghost predicate RegionAgrees(name: string, t: Table)
  {
    t.region.Some? && t.region.value == RegionRow(name, t.sessions, t.region.value.lastHeartbeatAt)
  }

  ghost predicate Inv(name: string, t: Table)
  {
    && RowsOk(name, t.rows)
    && (forall h <- t.sessions :: h in t.rows && t.rows[h] == t.sessions[h] && !t.sessions[h].state.Down?)
    && PoolsAgree(t.rows, t.pools)
    && (t.rows != map[] && NoOrphans(t) ==> RegionAgrees(name, t))
  }

  // ---------------------------------------------------------------- writing one host

  lemma OtherHostKeepsPools(name: string, host: Host, pools: map<string, WarmPool>, changed: Host, at: Time)
    requires ColonFree(name) && RowOk(name, host.id, host) && RowOk(name, changed.id, changed) && host.id != changed.id
    requires HasPools(host, pools)
    ensures HasPools(host, ReplacePools(pools, changed, at))
  {
    forall f <- PoolIds(host)
      ensures var k := WarmPoolKey(host.region, host.id, f); k in ReplacePools(pools, changed, at) && ReplacePools(pools, changed, at)[k] == pools[k]
    {
      var k := WarmPoolKey(host.region, host.id, f);
      PrefixIsExact(changed.region, changed.id, host.region, host.id, f);
      KeysHavePrefix(changed, k);
    }
  }

  lemma KeysHavePrefix(host: Host, k: string)
    ensures k in PoolKeys(host) ==> WarmPoolKey(host.region, host.id, "") <= k
  {
    if k in PoolKeys(host) {
      var f :| f in PoolIds(host) && k == WarmPoolKey(host.region, host.id, f);
      assert k == WarmPoolKey(host.region, host.id, "") + f;
    }
  }

  lemma ChangedHostHasPools(pools: map<string, WarmPool>, changed: Host, at: Time)
    ensures HasPools(changed, ReplacePools(pools, changed, at))
  {
    forall f <- PoolIds(changed)
      ensures var k := WarmPoolKey(changed.region, changed.id, f);
        k in PoolKeys(changed) && HostPools(changed, at)[k] == PoolRow(changed, f, at)
    {
      IdInKey(changed, f);
    }
  }

  /** A row that is left belongs to another host or to the changed one as it is now. */
  lemma RemainingRow(name: string, rows: map<string, Host>, pools: map<string, WarmPool>, changed: Host, at: Time, k: string)
    requires RowsOk(name, rows) && RowOk(name, changed.id, changed) && k in ReplacePools(pools, changed, at)
    requires k in pools ==> pools[k].hostId in rows && k in PoolKeys(rows[pools[k].hostId])
    ensures var p := ReplacePools(pools, changed, at)[k];
      var rows' := rows[changed.id := changed];
      p.hostId in rows' && k in PoolKeys(rows'[p.hostId])
  {
    if k !in PoolKeys(changed) {
      var h := pools[k].hostId;
      if h == changed.id {
        KeysHavePrefix(rows[h], k);
        assert false;
      }
    }
  }

  lemma WriteKeepsPoolsAgree(name: string, rows: map<string, Host>, pools: map<string, WarmPool>, changed: Host, at: Time)
    requires RowsOk(name, rows) && RowOk(name, changed.id, changed) && PoolsAgree(rows, pools)
    ensures PoolsAgree(rows[changed.id := changed], ReplacePools(pools, changed, at))
  {
    var rows' := rows[changed.id := changed];
    forall h <- rows'
      ensures HasPools(rows'[h], ReplacePools(pools, changed, at))
    {
      if h == changed.id {
        ChangedHostHasPools(pools, changed, at);
      } else {
        OtherHostKeepsPools(name, rows[h], pools, changed, at);
      }
    }
    forall k <- ReplacePools(pools, changed, at)
      ensures ReplacePools(pools, changed, at)[k].hostId in rows' && k in PoolKeys(rows'[ReplacePools(pools, changed, at)[k].hostId])
    {
      RemainingRow(name, rows, pools, changed, at, k);
    }
  }

  /** Two collections of rows that differ only in when they were written. */
  ghost predicate SamePools(pools: map<string, WarmPool>, pools': map<string, WarmPool>)
  {
    pools.Keys == pools'.Keys && forall k <- pools :: pools[k] == pools'[k].(updatedAt := pools[k].updatedAt)
  }

  lemma RowIsDetermined(rows: map<string, Host>, pools: map<string, WarmPool>, pools': map<string, WarmPool>, k: string)
    requires PoolsAgree(rows, pools) && PoolsAgree(rows, pools') && k in pools
    ensures k in pools' && pools[k] == pools'[k].(updatedAt := pools[k].updatedAt)
  {
    var host := rows[pools[k].hostId];
    var f :| f in PoolIds(host) && k == WarmPoolKey(host.region, host.id, f);
    assert HasPools(host, pools) && HasPools(host, pools');
  }

  /** The host rows determine the warm-pool rows. */
  lemma PoolsAreDetermined(rows: map<string, Host>, pools: map<string, WarmPool>, pools': map<string, WarmPool>)
    requires PoolsAgree(rows, pools) && PoolsAgree(rows, pools')
    ensures SamePools(pools, pools')
  {
    forall k <- pools
      ensures k in pools' && pools[k] == pools'[k].(updatedAt := pools[k].updatedAt)
    {
      RowIsDetermined(rows, pools, pools', k);
    }
    forall k <- pools'
      ensures k in pools
    {
      RowIsDetermined(rows, pools', pools, k);
    }
  }

  // ---------------------------------------------------------------- sums over warm-pool rows

  ghost function HostOfRow(pools: map<string, WarmPool>): string -> string
  {
    k => if k in pools then pools[k].hostId else ""
  }

  lemma RowsOfHostAreItsPools(name: string, rows: map<string, Host>, pools: map<string, WarmPool>, h: string)
    requires RowsOk(name, rows) && PoolsAgree(rows, pools) && h in rows
    ensures Group(pools.Keys, HostOfRow(pools), h) == PoolKeys(rows[h])
  {
    forall k <- PoolKeys(rows[h])
      ensures k in Group(pools.Keys, HostOfRow(pools), h)
    {
      var f :| f in PoolIds(rows[h]) && k == WarmPoolKey(rows[h].region, rows[h].id, f);
      assert HasPools(rows[h], pools);
    }
  }

  ghost function KeyOf(host: Host): string -> string
  {
    f => WarmPoolKey(host.region, host.id, f)
  }

  ghost function RowBlank(host: Host): string -> int
  {
    f => if host.Warm(f) > 0 then 0 else host.blankWarm
  }

  ghost function RowFunction(host: Host): string -> int
  {
    f => if host.Warm(f) > 0 then host.Warm(f) else 0
  }

  /** Summing over a host's rows is summing over its pools. */
  lemma SumOverRows(host: Host, pools: map<string, WarmPool>, column: string -> int, row: string -> int)
    requires HasPools(host, pools)
    requires forall f <- PoolIds(host) :: column(KeyOf(host)(f)) == row(f)
    ensures Sum(PoolKeys(host), column) == Sum(PoolIds(host), row)
  {
    forall f, g | f in PoolIds(host) && g in PoolIds(host) && KeyOf(host)(f) == KeyOf(host)(g)
      ensures f == g
    {
      IdInKey(host, f);
      IdInKey(host, g);
    }
    forall k <- PoolKeys(host)
      ensures exists f :: f in PoolIds(host) && KeyOf(host)(f) == k
    {
      var f :| f in PoolIds(host) && k == WarmPoolKey(host.region, host.id, f);
      assert KeyOf(host)(f) == k;
    }
    SumImage(PoolIds(host), KeyOf(host), column, row, PoolKeys(host));
  }

  /** The blank pool has a row of its own unless a function pool with an empty id takes its key. */
  lemma BlankOverIds(host: Host)
    ensures Sum(PoolIds(host), RowBlank(host)) ==
      if host.state.Active? && host.blankWarm > 0 && host.Warm("") <= 0 then host.blankWarm else 0
  {
    if "" in PoolIds(host) {
      assert RowBlank(host)("") == if host.Warm("") > 0 then 0 else host.blankWarm;
      SumSingle(PoolIds(host), "", RowBlank(host));
    } else {
      SumZero(PoolIds(host), RowBlank(host));
    }
  }

  lemma FunctionOverIds(host: Host)
    requires host.state.Active?
    ensures Sum(PoolIds(host), RowFunction(host)) >= FunctionTotal(host)
    ensures Sum(PoolIds(host), RowFunction(host)) == FunctionTotal(host) <==> forall f <- host.functionWarm :: host.functionWarm[f] >= 0
  {
    var warm := set f | f in host.functionWarm && host.functionWarm[f] > 0;
    var cold := host.functionWarm.Keys - warm;
    SumDropZeros(PoolIds(host), warm, RowFunction(host));
    SumCongruent(warm, RowFunction(host), WarmOf(host));
    assert host.functionWarm.Keys == warm + cold;
    SumUnion(warm, cold, WarmOf(host));
    SumOfNonPositives(cold, WarmOf(host));
    assert forall f <- cold :: WarmOf(host)(f) == host.functionWarm[f];
  }

  /** Exactly when the rows written for an active host add up to what it reported: no count is negative, and a warm
      function with an empty id does not meet a blank pool. */
  lemma HostTotalsExactIff(host: Host, at: Time)
    requires host.state.Active?
    ensures
      (&& Sum(PoolKeys(host), BlankIn(HostPools(host, at))) == host.blankWarm
       && Sum(PoolKeys(host), FunctionIn(HostPools(host, at))) == FunctionTotal(host))
      <==>
      (&& host.blankWarm >= 0 && (forall f <- host.functionWarm :: host.functionWarm[f] >= 0)
       && (host.Warm("") > 0 ==> host.blankWarm == 0))
  {
    var pools := HostPools(host, at);
    ChangedHostHasPools(map[], host, at);
    assert ReplacePools(map[], host, at) == pools;
    SumOverRows(host, pools, BlankIn(pools), RowBlank(host));
    SumOverRows(host, pools, FunctionIn(pools), RowFunction(host));
    BlankOverIds(host);
    FunctionOverIds(host);
  }

  lemma BlankTotalOfHost(host: Host, pools: map<string, WarmPool>)
    requires Sane(host) && HasPools(host, pools)
    ensures Sum(PoolKeys(host), BlankIn(pools)) == if host.state.Active? then host.blankWarm else 0
  {
    SumOverRows(host, pools, BlankIn(pools), RowBlank(host));
    BlankOverIds(host);
  }

  lemma FunctionTotalOfHost(host: Host, pools: map<string, WarmPool>)
    requires Sane(host) && HasPools(host, pools)
    ensures Sum(PoolKeys(host), FunctionIn(pools)) == if host.state.Active? then FunctionTotal(host) else 0
  {
    if host.state.Active? {
      SumOverRows(host, pools, FunctionIn(pools), RowFunction(host));
      FunctionOverIds(host);
    }
  }

  /** Every warm instance of the host rows is in one warm-pool row, and no row holds anything else. */
  lemma PoolTotals(name: string, rows: map<string, Host>, pools: map<string, WarmPool>)
    requires RowsOk(name, rows) && PoolsAgree(rows, pools)
    ensures Sum(pools.Keys, BlankIn(pools)) == Sum(rows.Keys, BlankOf(rows))
    ensures Sum(pools.Keys, FunctionIn(pools)) == Sum(rows.Keys, FunctionOf(rows))
  {
    forall h <- rows.Keys
      ensures Sum(Group(pools.Keys, HostOfRow(pools), h), BlankIn(pools)) == BlankOf(rows)(h)
      ensures Sum(Group(pools.Keys, HostOfRow(pools), h), FunctionIn(pools)) == FunctionOf(rows)(h)
    {
      RowsOfHostAreItsPools(name, rows, pools, h);
      BlankTotalOfHost(rows[h], pools);
      FunctionTotalOfHost(rows[h], pools);
    }
    SumByGroup(pools.Keys, HostOfRow(pools), rows.Keys, BlankIn(pools), BlankOf(rows));
    SumByGroup(pools.Keys, HostOfRow(pools), rows.Keys, FunctionIn(pools), FunctionOf(rows));
  }

  // ---------------------------------------------------------------- agreement

  /** The warm-pool rows are exactly those of the connected hosts. */
  ghost predicate PoolsOfSessions(t: Table)
  {
    && (forall h <- t.sessions :: HasPools(t.sessions[h], t.pools))
    && (forall k <- t.pools :: t.pools[k].hostId in t.sessions && k in PoolKeys(t.sessions[t.pools[k].hostId]))
  }

  /** Rows of hosts that are down add nothing. */
  lemma SessionTotals(sessions: map<string, Host>, rows: map<string, Host>)
    requires forall h <- sessions :: h in rows && rows[h] == sessions[h]
    requires forall h <- rows | h !in sessions :: rows[h].state.Down?
    ensures Sum(rows.Keys, BlankOf(rows)) == Sum(sessions.Keys, BlankOf(sessions))
    ensures Sum(rows.Keys, FunctionOf(rows)) == Sum(sessions.Keys, FunctionOf(sessions))
  {
    assert sessions.Keys <= rows.Keys;
    SumDropZeros(rows.Keys, sessions.Keys, BlankOf(rows));
    SumDropZeros(rows.Keys, sessions.Keys, FunctionOf(rows));
    SumCongruent(sessions.Keys, BlankOf(rows), BlankOf(sessions));
    SumCongruent(sessions.Keys, FunctionOf(rows), FunctionOf(sessions));
  }

  /** Host rows equal sessions, warm-pool rows are those of the sessions, and the region row shows the totals of the
      sessions, which are the totals of the warm-pool rows; it is active exactly when an active host is connected. */
  ghost predicate Agrees(name: string, t: Table)
  {
    && (forall h <- t.sessions :: h in t.rows && t.rows[h] == t.sessions[h])
    && PoolsOfSessions(t)
    && t.region.Some?
    && var row := t.region.value;
    && row.name == name && row.stats == Totals(t.sessions)
    && row.stats.blankWarm == Sum(t.pools.Keys, BlankIn(t.pools))
    && row.stats.functionWarm == Sum(t.pools.Keys, FunctionIn(t.pools))
    && (row.state == "active" <==> SomeActive(t.sessions))
  }

  lemma InvGivesAgreement(name: string, t: Table)
    requires Inv(name, t) && NoOrphans(t) && t.rows != map[]
    ensures Agrees(name, t)
  {
    assert Located(t.sessions, name) == t.sessions;
    RowShowsTotals(name, t.sessions, t.region.value.lastHeartbeatAt);
    PoolTotals(name, t.rows, t.pools);
    SessionTotals(t.sessions, t.rows);
    PoolsAreOfSessions(name, t);
  }

  lemma PoolsAreOfSessions(name: string, t: Table)
    requires Inv(name, t) && NoOrphans(t)
    ensures PoolsOfSessions(t)
  {
    forall k <- t.pools
      ensures t.pools[k].hostId in t.sessions && k in PoolKeys(t.sessions[t.pools[k].hostId])
    {
      var h := t.pools[k].hostId;
      var f :| f in PoolIds(t.rows[h]) && k == WarmPoolKey(t.rows[h].region, t.rows[h].id, f);
    }
  }
}
