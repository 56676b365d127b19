/** The pool of tap devices: leases, a round-robin cursor, and who holds what over every run. */
module TapPool {
  import opened Options
  import opened Text

  datatype NetworkConfig = NetworkConfig(
    tapDevice: string, guestMAC: string, guestIP: string, gatewayIP: string, netmask: string)

  /** A lease handed to a caller; `released` is its once-flag. */
  datatype Lease = Lease(tap: string, released: bool)

  datatype Pool = Pool(order: seq<string>, inUse: map<string, bool>, next: nat, leases: seq<Lease>)
  {
    /** What newNetworkPool builds and every call keeps. */
    ghost predicate WellFormed()
    {
      && next < |order|
      && (forall i :: 0 <= i < |order| ==> order[i] in inUse)
      && (forall k :: 0 <= k < |leases| ==> leases[k].tap in inUse)
    }

    ghost predicate Holds(k: int, tap: string)
    {
      0 <= k < |leases| && !leases[k].released && leases[k].tap == tap
    }

    /** A tap is marked in use exactly when some unreleased lease holds it, and then just one does. */
    ghost predicate Exclusive()
    {
      && (forall t <- inUse :: inUse[t] <==> exists k :: Holds(k, t))
      && (forall j, k, t :: Holds(j, t) && Holds(k, t) ==> j == k)
    }
  }

  datatype Call = AcquireNext | AcquireSpecific(tap: string) | Release(lease: nat)

  /** The remainder `x % n` of a position less than twice round the ring. */
  function Wrap(x: nat, n: nat): (r: nat)
    requires x < 2 * n
    ensures r == x % n
  {
    RemainderBelowTwice(x, n);
    if x < n then x else x - n
  }

  lemma RemainderBelowTwice(x: nat, n: nat)
    requires x < 2 * n
    ensures x % n == if x < n then x else x - n
  {
    if x >= n {
      var q := x / n;
      assert x == n * q + x % n;
      assert q >= 2 ==> n * q >= n * 2;
      assert q <= 0 ==> n * q <= 0;
    }
  }

  /** First free position, looking `offset` places or more beyond the cursor, with wrap-around. */
  function FirstFree(order: seq<string>, inUse: map<string, bool>, next: nat, offset: nat): Option<nat>
    requires next < |order| && forall i :: 0 <= i < |order| ==> order[i] in inUse
    decreases |order| - offset
  {
    if offset >= |order| then None
    else
      var index := Wrap(next + offset, |order|);
      if inUse[order[index]] then FirstFree(order, inUse, next, offset + 1) else Some(index)
  }

  ghost function Grant(p: Pool, tap: string): Pool
  {
    p.(inUse := p.inUse[tap := true], leases := p.leases + [Lease(tap, false)])
  }

  ghost function Apply(p: Pool, c: Call): Pool
    requires p.WellFormed()
  {
    match c
    case AcquireNext =>
      (match FirstFree(p.order, p.inUse, p.next, 0)
       case None => p
       case Some(i) =>
         NearestFree(p, 0);
         Grant(p, p.order[i]).(next := Wrap(i + 1, |p.order|)))
    case AcquireSpecific(tap) =>
      if tap !in p.inUse || p.inUse[tap] then p else Grant(p, tap)
    case Release(k) =>
      if k < |p.leases| && !p.leases[k].released then
        p.(inUse := p.inUse[p.leases[k].tap := false],
           leases := p.leases[k := p.leases[k].(released := true)])
      else
        p
  }

  /** How many places the cursor has to move to reach position `i`. */
  ghost function Distance(next: nat, i: nat, n: nat): nat
    requires next < n && i < n
  {
    if next <= i then i - next else i + n - next
  }

  /** acquireNextLocked takes the nearest free tap after the cursor, and finds none only if all are in use. */
  lemma {:induction false} NearestFree(p: Pool, offset: nat)
    requires p.WellFormed() && offset <= |p.order|
    ensures var n := |p.order|;
            match FirstFree(p.order, p.inUse, p.next, offset)
            case None =>
              forall i :: 0 <= i < n && offset <= Distance(p.next, i, n) ==> p.inUse[p.order[i]]
            case Some(r) =>
              && r < n && !p.inUse[p.order[r]] && offset <= Distance(p.next, r, n)
              && forall i :: 0 <= i < n && offset <= Distance(p.next, i, n) < Distance(p.next, r, n) ==> p.inUse[p.order[i]]
    decreases |p.order| - offset
  {
    if offset < |p.order| {
      NearestFree(p, offset + 1);
    }
  }

  lemma AcquireNextFailsOnlyWhenExhausted(p: Pool)
    requires p.WellFormed()
    ensures Apply(p, AcquireNext) == p <==> forall t <- p.order :: p.inUse[t]
    ensures Apply(p, AcquireNext) == p <==> FirstFree(p.order, p.inUse, p.next, 0) == None
  {
    NearestFree(p, 0);
    var r := FirstFree(p.order, p.inUse, p.next, 0);
    if r.Some? {
      assert |Apply(p, AcquireNext).leases| == |p.leases| + 1;
      assert p.order[r.value] in p.order;
    }
  }

  /** What each call is for: the nearest free tap, the named tap when it is known and free, and the return of a tap. */
  lemma CallDoesItsWork(p: Pool, c: Call)
    requires p.WellFormed()
    ensures c.AcquireNext? ==>
              match FirstFree(p.order, p.inUse, p.next, 0)
              case None => Apply(p, c) == p
              case Some(i) => i < |p.order| && Granted(p, Apply(p, c), p.order[i])
    ensures c.AcquireSpecific? ==>
              if c.tap in p.inUse && !p.inUse[c.tap] then Granted(p, Apply(p, c), c.tap) && Apply(p, c).next == p.next else Apply(p, c) == p
    ensures c.Release? && c.lease < |p.leases| && !p.leases[c.lease].released ==>
              var tap := p.leases[c.lease].tap;
              && Apply(p, c).inUse == p.inUse[tap := false] && Apply(p, c).next == p.next
              && Apply(p, c).leases == p.leases[c.lease := Lease(tap, true)]
    ensures c.Release? && (c.lease >= |p.leases| || p.leases[c.lease].released) ==> Apply(p, c) == p
  {
    NearestFree(p, 0);
  }

  /** The tap is in use and belongs to one new lease; nothing else has changed hands. */
  ghost predicate Granted(p: Pool, q: Pool, tap: string)
  {
    q.leases == p.leases + [Lease(tap, false)] && q.inUse == p.inUse[tap := true] && q.order == p.order
  }

  lemma ApplyKeepsWellFormed(p: Pool, c: Call)
    requires p.WellFormed()
    ensures Apply(p, c).WellFormed() && Apply(p, c).order == p.order && Apply(p, c).inUse.Keys == p.inUse.Keys
  {
    NearestFree(p, 0);
  }

  lemma GrantKeepsExclusive(p: Pool, tap: string)
    requires p.WellFormed() && p.Exclusive()
    requires tap in p.inUse && !p.inUse[tap]
    ensures Grant(p, tap).Exclusive()
  {
    var q := Grant(p, tap);
    var n := |p.leases|;
    assert q.Holds(n, tap);
    assert forall k, t :: k != n ==> (q.Holds(k, t) <==> p.Holds(k, t));
  }

  lemma ReleaseKeepsExclusive(p: Pool, k: nat)
    requires p.WellFormed() && p.Exclusive()
    ensures Apply(p, Release(k)).Exclusive()
  {
    var q := Apply(p, Release(k));
    if q != p {
      assert p.Holds(k, p.leases[k].tap);
      assert forall j, t :: q.Holds(j, t) <==> p.Holds(j, t) && j != k;
    }
  }

  lemma ApplyKeepsExclusive(p: Pool, c: Call)
    requires p.WellFormed() && p.Exclusive()
    ensures Apply(p, c).Exclusive()
  {
    match c
    case AcquireNext =>
      NearestFree(p, 0);
      var r := FirstFree(p.order, p.inUse, p.next, 0);
      if r.Some? {
        GrantKeepsExclusive(p, p.order[r.value]);
        assert forall k, t :: Apply(p, c).Holds(k, t) <==> Grant(p, p.order[r.value]).Holds(k, t);
      }
    case AcquireSpecific(tap) =>
      if Apply(p, c) != p {
        GrantKeepsExclusive(p, tap);
      }
    case Release(k) =>
      ReleaseKeepsExclusive(p, k);
  }

  // ---------------------------------------------------------------- runs

  ghost predicate IsRun(states: seq<Pool>, calls: seq<Call>)
  {
    && |states| == |calls| + 1
    && states[0].WellFormed()
    && forall i :: 0 <= i < |calls| ==> states[i].WellFormed() && states[i + 1] == Apply(states[i], calls[i])
  }

  /** In every state of every run no two live leases share a tap. */
  lemma {:induction false} TapsStayExclusive(states: seq<Pool>, calls: seq<Call>, i: nat)
    requires IsRun(states, calls) && states[0].Exclusive() && i < |states|
    ensures states[i].WellFormed() && states[i].Exclusive()
    ensures states[i].order == states[0].order
  {
    if i > 0 {
      TapsStayExclusive(states, calls, i - 1);
      ApplyKeepsWellFormed(states[i - 1], calls[i - 1]);
      ApplyKeepsExclusive(states[i - 1], calls[i - 1]);
    }
  }

  /** Releasing a lease again is a no-op for ever, even when its tap has been leased to someone else since. */
  lemma {:induction false} SecondReleaseIsHarmless(states: seq<Pool>, calls: seq<Call>, i: nat, j: nat, k: nat)
    requires IsRun(states, calls) && i <= j < |states|
    requires k < |states[i].leases| && states[i].leases[k].released
    ensures states[j].WellFormed() && Apply(states[j], Release(k)) == states[j]
    ensures k < |states[j].leases| && states[j].leases[k].released
    decreases j
  {
    if j > 0 {
      ApplyKeepsWellFormed(states[j - 1], calls[j - 1]);
    }
    if i < j {
      SecondReleaseIsHarmless(states, calls, i, j - 1, k);
    }
  }

  /** Successful round-robin acquisitions among the first `n` calls of a run. */
  ghost function Grants(states: seq<Pool>, calls: seq<Call>, n: nat): nat
    requires IsRun(states, calls) && n <= |calls|
  {
    if n == 0 then 0 else
      Grants(states, calls, n - 1) + if calls[n - 1].AcquireNext? && states[n] != states[n - 1] then 1 else 0
  }

  /** The cursor comes strictly closer to a tap it passes over. */
  lemma CursorApproaches(p: Pool, c: Call, i: nat)
    requires p.WellFormed() && i < |p.order|
    requires Apply(p, c).WellFormed() && Apply(p, c).order == p.order
    requires !p.inUse[p.order[i]] && !Apply(p, c).inUse[p.order[i]]
    ensures var d, d' := Distance(p.next, i, |p.order|), Distance(Apply(p, c).next, i, |p.order|);
            if c.AcquireNext? && Apply(p, c) != p then d' < d else d' == d
  {
    if c.AcquireNext? {
      NearestFree(p, 0);
      AcquireNextFailsOnlyWhenExhausted(p);
    }
  }

  /** A tap that stays free is passed over fewer times than there are taps, whatever else happens meanwhile. */
  lemma {:induction false} RoundRobinIsFair(states: seq<Pool>, calls: seq<Call>, i: nat, n: nat)
    requires IsRun(states, calls) && n <= |calls|
    requires i < |states[0].order|
    requires forall k :: 0 <= k <= n ==> states[0].order[i] in states[k].inUse && !states[k].inUse[states[0].order[i]]
    ensures states[n].WellFormed() && states[n].order == states[0].order
    ensures Grants(states, calls, n) + Distance(states[n].next, i, |states[0].order|)
            <= Distance(states[0].next, i, |states[0].order|)
            < |states[0].order|
  {
    if n > 0 {
      RoundRobinIsFair(states, calls, i, n - 1);
      ApplyKeepsWellFormed(states[n - 1], calls[n - 1]);
      CursorApproaches(states[n - 1], calls[n - 1], i);
    }
  }

  // ---------------------------------------------------------------- the pool and lease objects

  /** The entries under their trimmed tap names; of two under one name the later stays. */
  ghost function Table(configs: seq<NetworkConfig>, n: nat): map<string, NetworkConfig>
    requires n <= |configs|
  {
    if n == 0 then map[] else Table(configs, n - 1)[Trim(configs[n - 1].tapDevice) := configs[n - 1]]
  }

  lemma {:induction false} TableByTap(configs: seq<NetworkConfig>, n: nat)
    requires n <= |configs|
    ensures forall i :: 0 <= i < n ==> Trim(configs[i].tapDevice) in Table(configs, n)
    ensures forall t <- Table(configs, n) ::
              Table(configs, n)[t] in configs && Trim(Table(configs, n)[t].tapDevice) == t
  {
    if n > 0 {
      TableByTap(configs, n - 1);
    }
  }

  /** The scanning loop of acquireNextLocked. */
  method Scan(order: seq<string>, inUse: map<string, bool>, next: nat) returns (index: Option<nat>)
    requires next < |order| && forall i :: 0 <= i < |order| ==> order[i] in inUse
    ensures index == FirstFree(order, inUse, next, 0)
    ensures index.Some? ==> index.value < |order|
  {
    var offset := 0;
    while offset < |order|
      invariant 0 <= offset <= |order|
      invariant FirstFree(order, inUse, next, offset) == FirstFree(order, inUse, next, 0)
    {
      var i := Wrap(next + offset, |order|);
      if !inUse[order[i]] {
        return Some(i);
      }
      offset := offset + 1;
    }
    return None;
  }

  class NetworkLease {
    const cfg: NetworkConfig
    const pool: NetworkPool
    var once: bool
    /** Its place among the leases of the pool. */
    ghost const slot: nat

    constructor (cfg: NetworkConfig, pool: NetworkPool, ghost slot: nat)
      ensures this.cfg == cfg && this.pool == pool && this.slot == slot && !once
    {
      this.cfg, this.pool, this.slot, once := cfg, pool, slot, false;
    }

    ghost function View(): Lease
      reads this
    {
      Lease(Trim(cfg.tapDevice), once)
    }

    /** Release: only the first call of a lease reaches the pool. */
    method Release()
      requires pool.Valid() && slot < |pool.leases| && pool.leases[slot] == this
      modifies this, pool`inUse, pool`issued
      ensures pool.Valid()
      ensures pool.View() == Apply(old(pool.View()), Call.Release(slot))
    {
      if !once {
        once := true;
        var tap := Trim(cfg.tapDevice);
        if tap != "" && tap in pool.inUse {
          pool.inUse := pool.inUse[tap := false];
        }
        pool.issued := pool.issued[slot := View()];
      }
    }
  }

  class NetworkPool {
    var order: seq<string>
    var cfgs: map<string, NetworkConfig>
    var inUse: map<string, bool>
    var next: nat
    /** Every lease object handed out, and what each says of itself. */
    ghost var leases: seq<NetworkLease>
    ghost var issued: seq<Lease>

    ghost function View(): Pool
      reads this
    {
      Pool(order, inUse, next, issued)
    }

    ghost predicate Valid()
      reads this, leases
    {
      && View().WellFormed()
      && cfgs.Keys == inUse.Keys
      && (forall t <- cfgs :: t != "" && Trim(cfgs[t].tapDevice) == t)
      && Records()
    }

    /** Every lease is this pool's, stands at its own slot as it was recorded, and carries its tap's configuration. */
    ghost predicate Records()
      reads this`cfgs, this`leases, this`issued, leases
    {
      && |issued| == |leases|
      && (forall i :: 0 <= i < |leases| ==>
            leases[i].pool == this && leases[i].slot == i && leases[i].View() == issued[i])
      && (forall i :: 0 <= i < |leases| ==> issued[i].tap in cfgs && cfgs[issued[i].tap] == leases[i].cfg)
    }

    /** newNetworkPool, for a configuration list that names at least one tap and lacks no field. */
    constructor (configs: seq<NetworkConfig>)
      requires configs != [] && forall c <- configs :: Complete(c)
      ensures Valid() && View().Exclusive() && leases == [] && forall t <- inUse :: !inUse[t]
      ensures |order| == |configs| && forall i :: 0 <= i < |configs| ==> order[i] == Trim(configs[i].tapDevice)
      ensures cfgs == Table(configs, |configs|)
    {
      var taps: seq<string>, byTap: map<string, NetworkConfig>, marks: map<string, bool> := [], map[], map[];
      for n := 0 to |configs|
        invariant |taps| == n && forall i :: 0 <= i < n ==> taps[i] == Trim(configs[i].tapDevice)
        invariant byTap.Keys == marks.Keys && byTap == Table(configs, n) && forall t <- marks :: !marks[t]
      {
        var tap := Trim(configs[n].tapDevice);
        taps := taps + [tap];
        byTap := byTap[tap := configs[n]];
        marks := marks[tap := false];
      }
      TableByTap(configs, |configs|);
      order, cfgs, inUse, next, leases, issued := taps, byTap, marks, 0, [], [];
    }

    method AcquireNextLocked() returns (got: Option<NetworkConfig>)
      requires Valid()
      modifies this`inUse, this`next
      ensures Valid()
      ensures var found := FirstFree(order, old(inUse), old(next), 0);
              && (got.None? <==> found.None?)
              && (got.None? ==> inUse == old(inUse) && next == old(next))
              && (got.Some? ==>
                    && found.value < |order| && got.value == cfgs[order[found.value]]
                    && inUse == old(inUse)[order[found.value] := true] && next == Wrap(found.value + 1, |order|))
    {
      var found := Scan(order, inUse, next);
      if found.None? {
        return None;
      }
      got := Some(cfgs[order[found.value]]);
      Mark(found.value);
    }

    /** Marks a tap and moves the cursor past it. */
    method Mark(index: nat)
      requires Valid() && index < |order|
      modifies this`inUse, this`next
      ensures Valid() && inUse == old(inUse)[order[index] := true] && next == Wrap(index + 1, |order|)
    {
      inUse, next := inUse[order[index] := true], Wrap(index + 1, |order|);
    }

    /** Wraps a configuration whose tap has just been marked in a fresh lease. */
    method Issue(cfg: NetworkConfig) returns (lease: NetworkLease)
      requires Valid() && Trim(cfg.tapDevice) in cfgs && cfgs[Trim(cfg.tapDevice)] == cfg
      modifies this`leases, this`issued
      ensures Valid() && fresh(lease) && lease.cfg == cfg && leases == old(leases) + [lease]
      ensures View() == old(View()).(leases := old(issued) + [Lease(Trim(cfg.tapDevice), false)])
    {
      lease := new NetworkLease(cfg, this, |leases|);
      leases, issued := leases + [lease], issued + [lease.View()];
    }

    /** One locked attempt of acquire; the caller polls until it succeeds or its context ends. */
    method Acquire() returns (lease: NetworkLease?)
      requires Valid()
      modifies this`inUse, this`next, this`leases, this`issued
      ensures Valid() && View() == Apply(old(View()), AcquireNext)
      ensures lease == null <==> FirstFree(order, old(inUse), old(next), 0) == None
      ensures lease != null ==> fresh(lease) && leases == old(leases) + [lease]
    {
      var got := AcquireNextLocked();
      if got.None? {
        lease := null;
      } else {
        lease := Issue(got.value);
      }
    }

    /** One locked attempt of acquireSpecific; an unknown or empty name is an error. */
    method AcquireSpecific(name: string) returns (r: Result<NetworkLease?>)
      requires Valid()
      modifies this`inUse, this`leases, this`issued
      ensures Valid() && View() == Apply(old(View()), Call.AcquireSpecific(Trim(name)))
      ensures r.Err? <==> Trim(name) == "" || Trim(name) !in cfgs
      ensures r.Ok? ==> (r.value == null <==> old(inUse)[Trim(name)])
      ensures r.Ok? && r.value != null ==>
                fresh(r.value) && r.value.cfg == cfgs[Trim(name)] && leases == old(leases) + [r.value]
    {
      var tap := Trim(name);
      if tap == "" {
        return Err("tap device is required");
      }
      if tap !in cfgs {
        return Err("unknown tap device " + tap);
      }
      if inUse[tap] {
        return Ok(null);
      }
      inUse := inUse[tap := true];
      var lease := Issue(cfgs[tap]);
      return Ok(lease);
    }
  }

  /** The fields newNetworkPool insists on. */
  predicate Complete(c: NetworkConfig)
  {
    Trim(c.tapDevice) != "" && Trim(c.guestIP) != "" && Trim(c.gatewayIP) != "" && Trim(c.netmask) != ""
  }

  /** newNetworkPool: no pool for an empty list, an error for an incomplete entry. */
  method NewNetworkPool(configs: seq<NetworkConfig>) returns (r: Result<NetworkPool?>)
    ensures r.Err? <==> exists c <- configs :: !Complete(c)
    ensures r.Err? <==> exists c <- configs :: "" in [Trim(c.tapDevice), Trim(c.guestIP), Trim(c.gatewayIP), Trim(c.netmask)]
    ensures r.Ok? ==> (r.value == null <==> configs == [])
    ensures r.Ok? && r.value != null ==>
              && fresh(r.value) && r.value.Valid() && r.value.View().Exclusive() && r.value.leases == []
              && (forall t <- r.value.inUse :: !r.value.inUse[t])
              && r.value.cfgs == Table(configs, |configs|)
              && |r.value.order| == |configs| && forall i | 0 <= i < |configs| :: r.value.order[i] == Trim(configs[i].tapDevice)
  {
    if configs == [] {
      return Ok(null);
    }
    for n := 0 to |configs|
      invariant forall i :: 0 <= i < n ==> Complete(configs[i])
    {
      if !Complete(configs[n]) {
        return Err("network pool entry incomplete");
      }
    }
    var pool := new NetworkPool(configs);
    return Ok(pool);
  }
}
