/** From the configuration to the pool: carving the entries and pooling them. */
module NetworkSetup {
  import opened Options
  import opened Text
  import opened TapPool
  import opened SubnetCarving

  // ---------------------------------------------------------------- trimmed names

  lemma {:induction false} TrimLeftJoined(a: string, d: string)
    requires TrimLeft(a) != []
    ensures TrimLeft(a + d) == TrimLeft(a) + d
  {
    if IsSpace(a[0]) {
      assert (a + d)[1..] == a[1..] + d;
      TrimLeftJoined(a[1..], d);
    }
  }

  lemma DecimalEndsInDigit(n: nat)
    ensures var s := Decimal(n); '0' <= s[|s| - 1] <= '9'
  {
  }

  /** Numbered names keep their number when trimmed. */
  lemma TrimmedName(name: string, i: nat)
    requires Trim(name) != ""
    ensures Trim(name + Decimal(i)) == TrimLeft(name) + Decimal(i)
  {
    TrimLeftJoined(name, Decimal(i));
    DecimalEndsInDigit(i);
    var s := TrimLeft(name) + Decimal(i);
    assert s[|s| - 1] == Decimal(i)[|Decimal(i)| - 1];
  }

  lemma DeviceNameIsNotBlank(prefix: string)
    ensures Trim(DeviceName(prefix)) != ""
  {
    var tap := "tap";
    assert !IsSpace(tap[0]) && !IsSpace(tap[2]);
    assert Trim(tap) == tap;
  }

  lemma TrimmedNamesDiffer(name: string, i: nat, j: nat)
    requires Trim(name) != "" && i != j
    ensures Trim(name + Decimal(i)) != Trim(name + Decimal(j))
  {
    TrimmedName(name, i);
    TrimmedName(name, j);
    NamesDiffer(TrimLeft(name), i, j);
  }

  lemma TrimTwice(s: string)
    ensures Trim(Trim(s)) == Trim(s)
  {
    TrimLeftEnd(s);
    TrimRightEnd(TrimLeft(s));
  }

  // ---------------------------------------------------------------- complete entries

  lemma {:induction false} TrimRightKeepsFirst(s: string)
    requires s != [] && !IsSpace(s[0])
    ensures TrimRight(s) != []
  {
    if IsSpace(s[|s| - 1]) {
      assert s[..|s| - 1][0] == s[0];
      TrimRightKeepsFirst(s[..|s| - 1]);
    }
  }

  lemma AddressIsNotBlank(ip: IPv4)
    requires ip.Valid()
    ensures Trim(Dotted(ip)) != ""
  {
    var s := Dotted(ip);
    assert s[0] == Octet(ip.a)[0] && '0' <= Octet(ip.a)[0] <= '9';
    TrimRightKeepsFirst(s);
  }

  lemma EntryIsComplete(name: string, base: nat, i: nat, subnet: nat)
    requires Trim(name) != "" && 0 < subnet <= 30
    ensures Complete(ConfigAt(name, base, i, subnet))
  {
    TrimmedName(name, i);
    AddressIsNotBlank(HostAddress(base, i, subnet, 2));
    AddressIsNotBlank(HostAddress(base, i, subnet, 1));
    AddressIsNotBlank(ToIPv4(Netmask(subnet)));
  }

  // ---------------------------------------------------------------- leases on carved entries

  /** Entries under different taps differ in guest, gateway and hardware address. */
  ghost predicate TapsApart(cfgs: map<string, NetworkConfig>)
  {
    forall t, u | t in cfgs && u in cfgs && t != u :: Apart(cfgs[t], cfgs[u])
  }

  lemma CarvedTapsApart(configs: seq<NetworkConfig>)
    requires AllApart(configs)
    ensures TapsApart(Table(configs, |configs|))
  {
    TableByTap(configs, |configs|);
    var cfgs := Table(configs, |configs|);
    forall t, u | t in cfgs && u in cfgs && t != u
      ensures Apart(cfgs[t], cfgs[u])
    {
      var i :| 0 <= i < |configs| && configs[i] == cfgs[t];
      var j :| 0 <= j < |configs| && configs[j] == cfgs[u];
    }
  }

  /** Two live leases never share a tap, a guest address, a gateway or a hardware address. */
  lemma LiveLeasesApart(pool: NetworkPool, i: nat, j: nat)
    requires pool.Valid() && pool.View().Exclusive() && TapsApart(pool.cfgs)
    requires i < |pool.leases| && j < |pool.leases| && i != j && !pool.leases[i].once && !pool.leases[j].once
    ensures Apart(pool.leases[i].cfg, pool.leases[j].cfg)
  {
    var t, u := Trim(pool.leases[i].cfg.tapDevice), Trim(pool.leases[j].cfg.tapDevice);
    assert pool.View().leases[i] == pool.leases[i].View() && pool.View().leases[j] == pool.leases[j].View();
    assert pool.View().Holds(i, t) && pool.View().Holds(j, u);
  }

  lemma PoolIsComplete(name: string, base: nat, subnet: nat, configs: seq<NetworkConfig>)
    requires Trim(name) != "" && 0 < subnet <= 30 && IsPool(name, base, subnet, configs)
    ensures forall c <- configs :: Complete(c)
  {
    forall c <- configs
      ensures Complete(c)
    {
      var i :| 0 <= i < |configs| && configs[i] == c;
      EntryIsComplete(name, base, i, subnet);
    }
  }

  lemma PoolNamesDiffer(name: string, base: nat, subnet: nat, configs: seq<NetworkConfig>)
    requires Trim(name) != "" && 0 < subnet <= 30 && IsPool(name, base, subnet, configs)
    ensures forall i, j | 0 <= i < j < |configs| :: Trim(configs[i].tapDevice) != Trim(configs[j].tapDevice)
  {
    forall i, j | 0 <= i < j < |configs|
      ensures Trim(configs[i].tapDevice) != Trim(configs[j].tapDevice)
    {
      assert configs[i] == ConfigAt(name, base, i, subnet) && configs[j] == ConfigAt(name, base, j, subnet);
      TrimmedNamesDiffer(name, i, j);
    }
  }

  /** The one tap configured by hand. */
  function Trimmed(c: NetworkConfig): NetworkConfig
  {
    NetworkConfig(Trim(c.tapDevice), Trim(c.guestMAC), Trim(c.guestIP), Trim(c.gatewayIP), Trim(c.netmask))
  }

  lemma TrimmedComplete(c: NetworkConfig)
    ensures Complete(Trimmed(c)) <==> Complete(c)
  {
    TrimTwice(c.tapDevice);
    TrimTwice(c.guestIP);
    TrimTwice(c.gatewayIP);
    TrimTwice(c.netmask);
  }

  /** A pool as it is built: free, and each of its taps listed once. */
  ghost predicate Fresh(pool: NetworkPool, count: nat)
    reads pool, pool.leases
  {
    && pool.Valid() && pool.View().Exclusive() && pool.leases == []
    && |pool.order| == count && (forall t <- pool.inUse :: !pool.inUse[t])
    && (forall i, j | 0 <= i < j < count :: pool.order[i] != pool.order[j])
  }

  /** buildNetworkPool from a tap count: an accepted count gives that many taps, all different and free, and when their
      blocks fit the network no two of them share an address. */
  method CountedPool(devicePrefix: string, count: int, cidr: Option<Prefix>, subnetPrefix: int) returns (r: Result<NetworkPool?>)
    requires (cidr.Some? ==> cidr.value.Valid()) && 0 < count
    ensures var n := SubnetLength(subnetPrefix);
            r.Ok? <==> cidr.Some? && cidr.value.V4? && cidr.value.bits <= n <= 30 && Accepts(count, cidr.value.bits, n)
    ensures r.Ok? ==> r.value != null && fresh(r.value) && Fresh(r.value, count)
    ensures r.Ok? && Fits(count, cidr.value.bits, SubnetLength(subnetPrefix)) ==> TapsApart(r.value.cfgs)
  {
    var configs := BuildTapPoolConfigs(devicePrefix, count, cidr, subnetPrefix);
    if configs.Err? {
      return Err(configs.error);
    }
    var name, base, n := DeviceName(devicePrefix), Masked(cidr.value), SubnetLength(subnetPrefix);
    DeviceNameIsNotBlank(devicePrefix);
    PoolIsComplete(name, base, n, configs.value);
    PoolNamesDiffer(name, base, n, configs.value);
    r := NewNetworkPool(configs.value);
    if Fits(count, cidr.value.bits, n) {
      CarvedTapsApart(configs.value);
    }
  }

  /** buildNetworkPool: the counted taps, or else the one configured by hand, or else no pool. */
  method BuildNetworkPool(devicePrefix: string, count: int, cidr: Option<Prefix>, subnetPrefix: int, single: NetworkConfig)
    returns (r: Result<NetworkPool?>)
    requires cidr.Some? ==> cidr.value.Valid()
    ensures var n := SubnetLength(subnetPrefix);
            count > 0 ==>
              (r.Ok? <==> cidr.Some? && cidr.value.V4? && cidr.value.bits <= n <= 30 && Accepts(count, cidr.value.bits, n))
    ensures count <= 0 ==> (r.Ok? <==> Trim(single.tapDevice) == "" || Complete(single))
    ensures r.Ok? ==> (r.value == null <==> count <= 0 && Trim(single.tapDevice) == "")
    ensures r.Ok? && r.value != null ==> fresh(r.value) && Fresh(r.value, if count > 0 then count else 1)
    ensures r.Ok? && r.value != null && count <= 0 ==>
              r.value.cfgs == map[Trim(single.tapDevice) := NetworkConfig(
                Trim(single.tapDevice), Trim(single.guestMAC), Trim(single.guestIP), Trim(single.gatewayIP), Trim(single.netmask))]
    ensures r.Ok? && r.value != null && (count > 0 ==> Fits(count, cidr.value.bits, SubnetLength(subnetPrefix))) ==>
              TapsApart(r.value.cfgs)
  {
    if count > 0 {
      r := CountedPool(devicePrefix, count, cidr, subnetPrefix);
    } else if Trim(single.tapDevice) == "" {
      r := NewNetworkPool([]);
    } else {
      TrimmedComplete(single);
      var configs := [Trimmed(single)];
      assert configs[0] in configs;
      r := NewNetworkPool(configs);
      CarvedTapsApart(configs);
      TrimTwice(single.tapDevice);
      assert Table(configs, 1) == Table(configs, 0)[Trim(Trim(single.tapDevice)) := configs[0]];
    }
  }
}
