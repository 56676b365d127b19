/** Carving a CIDR block into one subnet per tap device, in 32-bit arithmetic. */
module SubnetCarving {
  import opened Options
  import opened Text
  import opened TapPool

  const U32: nat := 0x1_0000_0000

  function Pow2(n: nat): (r: nat)
    ensures r >= 1
  {
    if n == 0 then 1 else 2 * Pow2(n - 1)
  }

  /** A parsed network prefix; anything that is not IPv4 is only told apart. */
  datatype Prefix = V4(addr: nat, bits: nat) | V6
  {
    predicate Valid() { V4? ==> addr < U32 && bits <= 32 }
  }

  datatype IPv4 = IPv4(a: nat, b: nat, c: nat, d: nat)
  {
    predicate Valid() { a < 256 && b < 256 && c < 256 && d < 256 }
  }

  function ToIPv4(v: nat): (ip: IPv4)
    requires v < U32
    ensures ip.Valid()
  {
    IPv4(v / 0x100_0000, v / 0x1_0000 % 256, v / 256 % 256, v % 256)
  }

  function FromIPv4(ip: IPv4): (v: nat)
    requires ip.Valid()
    ensures v < U32
  {
    ip.a * 0x100_0000 + ip.b * 0x1_0000 + ip.c * 256 + ip.d
  }

  lemma IPv4RoundTrip(v: nat)
    requires v < U32
    ensures FromIPv4(ToIPv4(v)) == v
  {
    assert v / 0x100_0000 == v / 256 / 256 / 256;
    assert v / 0x1_0000 == v / 256 / 256;
  }

  lemma AddressRoundTrip(ip: IPv4)
    requires ip.Valid()
    ensures ToIPv4(FromIPv4(ip)) == ip
  {
    var v := FromIPv4(ip);
    assert v / 256 == ip.a * 0x1_0000 + ip.b * 256 + ip.c && v % 256 == ip.d;
    assert v / 0x1_0000 == v / 256 / 256 == ip.a * 256 + ip.b;
    assert v / 0x100_0000 == v / 256 / 256 / 256 == ip.a;
  }

  /** netip.Addr.String. */
  function Dotted(ip: IPv4): string
    requires ip.Valid()
  {
    Octet(ip.a) + "." + (Octet(ip.b) + "." + (Octet(ip.c) + "." + Octet(ip.d)))
  }

  function GuestMAC(ip: IPv4): string
    requires ip.Valid()
  {
    "06:00:" + (Hex2(ip.a) + ":" + (Hex2(ip.b) + ":" + (Hex2(ip.c) + ":" + Hex2(ip.d))))
  }

  lemma OctetInjective(m: nat, n: nat)
    requires m < 256 && n < 256 && Octet(m) == Octet(n)
    ensures m == n
  {
    OctetIsDecimal(m);
    OctetIsDecimal(n);
    DecimalInjective(m, n);
  }

  lemma DottedInjective(x: IPv4, y: IPv4)
    requires x.Valid() && y.Valid() && Dotted(x) == Dotted(y)
    ensures x == y
  {
    var x3, y3 := Octet(x.c) + "." + Octet(x.d), Octet(y.c) + "." + Octet(y.d);
    var x2, y2 := Octet(x.b) + "." + x3, Octet(y.b) + "." + y3;
    SplitUnique('.', Octet(x.a), x2, Octet(y.a), y2);
    SplitUnique('.', Octet(x.b), x3, Octet(y.b), y3);
    SplitUnique('.', Octet(x.c), Octet(x.d), Octet(y.c), Octet(y.d));
    OctetInjective(x.a, y.a);
    OctetInjective(x.b, y.b);
    OctetInjective(x.c, y.c);
    OctetInjective(x.d, y.d);
  }

  lemma GuestMACInjective(x: IPv4, y: IPv4)
    requires x.Valid() && y.Valid() && GuestMAC(x) == GuestMAC(y)
    ensures x == y
  {
    var x3, y3 := Hex2(x.c) + ":" + Hex2(x.d), Hex2(y.c) + ":" + Hex2(y.d);
    var x2, y2 := Hex2(x.b) + ":" + x3, Hex2(y.b) + ":" + y3;
    assert GuestMAC(x)[6..] == Hex2(x.a) + ":" + x2 && GuestMAC(y)[6..] == Hex2(y.a) + ":" + y2;
    SplitUnique(':', Hex2(x.a), x2, Hex2(y.a), y2);
    SplitUnique(':', Hex2(x.b), x3, Hex2(y.b), y3);
    SplitUnique(':', Hex2(x.c), Hex2(x.d), Hex2(y.c), Hex2(y.d));
    Hex2Injective(x.a, y.a);
    Hex2Injective(x.b, y.b);
    Hex2Injective(x.c, y.c);
    Hex2Injective(x.d, y.d);
  }

  // ---------------------------------------------------------------- the carving arithmetic

  /** Size of a /bits block as a 32-bit shift computes it: zero for /0. */
  function Shifted(bits: nat): nat
    requires bits <= 32
  {
    Pow2(32 - bits) % U32
  }

  /** The host bits of an address cleared. */
  function RoundDown(x: nat, n: nat): nat
    requires 0 < n
  {
    x / n * n
  }

  function Masked(p: Prefix): nat
    requires p.V4? && p.Valid()
  {
    RoundDown(p.addr, Pow2(32 - p.bits))
  }

  /** The capacity test, all three quantities being 32-bit. */
  predicate Accepts(count: nat, bits: nat, subnet: nat)
    requires bits <= subnet <= 30
  {
    (count % U32) * Shifted(subnet) % U32 <= Shifted(bits)
  }

  function SubnetBase(base: nat, i: nat, subnet: nat): (r: nat)
    requires subnet <= 30
    ensures r < U32
  {
    (base + i % U32 * Shifted(subnet)) % U32
  }

  function Netmask(subnet: nat): (r: nat)
    requires 0 < subnet <= 30
    ensures r < U32
  {
    (U32 - 1) * Pow2(32 - subnet) % U32
  }

  /** Address number `h` of the `i`-th subnet: 1 is its gateway, 2 its guest. */
  function HostAddress(base: nat, i: nat, subnet: nat, h: nat): IPv4
    requires subnet <= 30
  {
    ToIPv4((SubnetBase(base, i, subnet) + h) % U32)
  }

  function ConfigAt(name: string, base: nat, i: nat, subnet: nat): NetworkConfig
    requires 0 < subnet <= 30
  {
    var guest, gateway := HostAddress(base, i, subnet, 2), HostAddress(base, i, subnet, 1);
    NetworkConfig(name + Decimal(i), GuestMAC(guest), Dotted(guest), Dotted(gateway), Dotted(ToIPv4(Netmask(subnet))))
  }

  /** The name and the subnet length after defaulting. */
  function DeviceName(prefix: string): string { if Trim(prefix) == "" then "tap" else prefix }
  function SubnetLength(n: int): int { if n <= 0 then 30 else n }

  /** The entries the loop appends. */
  ghost predicate IsPool(name: string, base: nat, subnet: nat, configs: seq<NetworkConfig>)
    requires 0 < subnet <= 30
  {
    forall i {:trigger ConfigAt(name, base, i, subnet)} | 0 <= i < |configs| :: configs[i] == ConfigAt(name, base, i, subnet)
  }

  method BuildTapPoolConfigs(devicePrefix: string, count: int, cidr: Option<Prefix>, subnetPrefix: int)
    returns (r: Result<seq<NetworkConfig>>)
    requires cidr.Some? ==> cidr.value.Valid()
    ensures count <= 0 ==> r == Ok([])
    ensures var n := if subnetPrefix <= 0 then 30 else subnetPrefix;
            count > 0 ==>
              (r.Ok? <==> cidr.Some? && cidr.value.V4? && cidr.value.bits <= n <= 30 && Accepts(count, cidr.value.bits, n))
    ensures r.Ok? && count > 0 ==>
              |r.value| == count && IsPool(DeviceName(devicePrefix), Masked(cidr.value), SubnetLength(subnetPrefix), r.value)
    ensures r.Ok? ==> forall i | 0 <= i < |r.value| ::
              r.value[i].tapDevice == (if Trim(devicePrefix) == "" then "tap" else devicePrefix) + Decimal(i)
    ensures r.Ok? && count > 0 ==>
              (WellCarved(cidr.value, SubnetLength(subnetPrefix), r.value) <==> Fits(count, cidr.value.bits, SubnetLength(subnetPrefix)))
  {
    if count <= 0 {
      return Ok([]);
    }
    var name, n := DeviceName(devicePrefix), SubnetLength(subnetPrefix);
    if cidr.None? {
      return Err("parse tap network cidr");
    }
    if cidr.value.V6? {
      return Err("tap network cidr must be ipv4");
    }
    if n < cidr.value.bits || n > 30 {
      return Err("tap subnet prefix out of range");
    }
    if !Accepts(count, cidr.value.bits, n) {
      return Err("tap network cidr does not have capacity");
    }
    var configs := CarveAll(name, Masked(cidr.value), count, n);
    WellCarvedIffFits(name, cidr.value, n, configs);
    assert forall i | 0 <= i < |configs| :: configs[i] == ConfigAt(name, Masked(cidr.value), i, n);
    return Ok(configs);
  }

  method CarveAll(name: string, base: nat, count: nat, subnet: nat) returns (configs: seq<NetworkConfig>)
    requires 0 < subnet <= 30
    ensures |configs| == count && IsPool(name, base, subnet, configs)
  {
    configs := AppendAll(count, (i: nat) => ConfigAt(name, base, i, subnet));
  }

  /** The loop that appends one entry per tap. */
  method AppendAll(count: nat, entry: nat -> NetworkConfig) returns (configs: seq<NetworkConfig>)
    ensures |configs| == count && forall i | 0 <= i < count :: configs[i] == entry(i)
  {
    configs := [];
    for i := 0 to count
      invariant |configs| == i && forall k | 0 <= k < i :: configs[k] == entry(k)
    {
      configs := configs + [entry(i)];
    }
  }

  // ---------------------------------------------------------------- facts about powers and remainders

  lemma {:induction false} Pow2Adds(m: nat, n: nat)
    ensures Pow2(m + n) == Pow2(m) * Pow2(n)
  {
    if m > 0 {
      Pow2Adds(m - 1, n);
      assert Pow2(m + n) == 2 * Pow2(m - 1 + n);
    }
  }

  lemma Pow2Of32()
    ensures Pow2(32) == U32
  {
    assert Pow2(8) == 256;
    Pow2Adds(8, 8);
    Pow2Adds(16, 16);
  }

  lemma {:induction false} Pow2Doubles(m: nat, n: nat)
    requires m < n
    ensures 2 * Pow2(m) <= Pow2(n)
  {
    if m + 1 < n {
      Pow2Doubles(m, n - 1);
    }
  }

  lemma BlockSizes(n: nat)
    requires n < 32
    ensures Pow2(n) < U32
    ensures n >= 2 ==> Pow2(n) >= 4
  {
    Pow2Of32();
    Pow2Doubles(n, 32);
    if n >= 2 {
      assert Pow2(1) == 2;
      Pow2Doubles(1, n);
    }
  }

  /** Multiples of `b` with different factors lie at least `b` apart. */
  lemma {:induction false} StepsApart(i: nat, j: nat, b: nat)
    requires i < j
    ensures i * b + b <= j * b
  {
    if i + 1 < j {
      StepsApart(i, j - 1, b);
    }
  }

  lemma ModUnique(x: nat, q: nat, r: nat, n: nat)
    requires x == q * n + r && r < n
    ensures x % n == r && x / n == q
  {
    var q' := x / n;
    assert x == q' * n + x % n;
    if q < q' {
      StepsApart(q, q', n);
    } else if q' < q {
      StepsApart(q', q, n);
    }
  }

  /** Truncating the count before the product changes nothing modulo the word size. */
  lemma TruncatedProduct(count: nat, b: nat)
    ensures (count % U32) * b % U32 == count * b % U32
  {
    var q, c := count / U32, count % U32;
    var p := c * b;
    assert count * b == (q * U32 + c) * b == q * b * U32 + p;
    assert q * b * U32 + p == (q * b + p / U32) * U32 + p % U32;
    ModUnique(count * b, q * b + p / U32, p % U32, U32);
  }

  lemma SumOfMultiples(q: nat, i: nat, b: nat)
    requires 0 < b
    ensures (q * b + i * b) % b == 0
  {
    assert (q + i) * b == q * b + i * b;
    ModUnique((q + i) * b, q + i, 0, b);
  }

  lemma {:induction false} FactorBelowProduct(i: nat, b: nat)
    requires 0 < b
    ensures i <= i * b
  {
    if 0 < i {
      FactorBelowProduct(i - 1, b);
    }
  }

  lemma Regroup(q: nat, k: nat, b: nat)
    ensures q * (b * k) == q * k * b
  {
  }

  /** Rounding down to a multiple of `b * k` gives a multiple of `b`. */
  lemma RoundedIsAligned(x: nat, n: nat, b: nat, k: nat)
    requires 0 < b && 0 < n == b * k
    ensures RoundDown(x, n) % b == 0
  {
    var q := x / n;
    Regroup(q, k, b);
    ModUnique(q * k * b, q * k, 0, b);
  }

  /** Rounding down below `m * n` leaves room for a whole block. */
  lemma RoundedHasRoom(x: nat, n: nat, m: nat)
    requires 0 < n && x < m * n
    ensures RoundDown(x, n) + n <= m * n
  {
    var q := x / n;
    assert x == q * n + x % n;
    if q < m {
      StepsApart(q, m, n);
    } else if m < q {
      StepsApart(m, q, n);
    }
  }

  /** Block `i` of `count` blocks of size `b` that start at `base` and fit into `n`. */
  lemma CarveOne(base: nat, i: nat, count: nat, b: nat, n: nat)
    requires 0 < b && base % b == 0 && i < count && count * b <= n && base + n <= U32
    ensures i < U32 && i * b + b <= n && (base + i * b) % b == 0
  {
    StepsApart(i, count, b);
    FactorBelowProduct(i, b);
    var q := base / b;
    assert base == q * b;
    SumOfMultiples(q, i, b);
  }

  // ---------------------------------------------------------------- the capacity test

  /** Every block fits the CIDR. */
  ghost predicate Fits(count: nat, bits: nat, subnet: nat)
    requires bits <= subnet <= 30
  {
    count * Pow2(32 - subnet) <= Pow2(32 - bits)
  }

  lemma ShiftedSize(bits: nat)
    requires bits <= 32
    ensures Shifted(bits) == if bits == 0 then 0 else Pow2(32 - bits)
    ensures bits == 0 ==> Pow2(32 - bits) == U32
  {
    if bits == 0 {
      Pow2Of32();
    } else {
      BlockSizes(32 - bits);
    }
  }

  /** What the test compares, for a subnet length the source admits. */
  lemma AcceptsMeaning(count: nat, bits: nat, subnet: nat)
    requires bits <= subnet <= 30
    ensures Accepts(count, bits, subnet) <==> count * Pow2(32 - subnet) % U32 <= Shifted(bits)
  {
    ShiftedSize(subnet);
    TruncatedProduct(count, Shifted(subnet));
    if subnet == 0 {
      ModUnique(count * U32, count, 0, U32);
    }
  }

  /** Comparing a wrapped requirement with a wrapped size agrees with the true comparison just here. */
  lemma WrappedComparison(needed: nat, size: nat)
    requires 0 < needed && 0 < size <= U32
    ensures (needed % U32 <= size % U32 <==> needed <= size)
            <==>
            if size == U32 then needed == U32 || (needed > U32 && needed % U32 != 0)
            else needed < U32 || needed % U32 > size
  {
  }

  /** Exactly when the capacity test of the source gives the right answer. */
  lemma CapacityTestIsExactIff(count: nat, bits: nat, subnet: nat)
    requires 0 < count && bits <= subnet <= 30
    ensures var needed := count * Pow2(32 - subnet);
            (Accepts(count, bits, subnet) <==> Fits(count, bits, subnet))
            <==>
            if bits == 0 then needed == U32 || (needed > U32 && needed % U32 != 0)
            else needed < U32 || needed % U32 > Pow2(32 - bits)
  {
    AcceptsMeaning(count, bits, subnet);
    ShiftedSize(bits);
    StepsApart(0, count, Pow2(32 - subnet));
    WrappedComparison(count * Pow2(32 - subnet), Pow2(32 - bits));
  }

  /** One tap more than a billion wraps the product to 4: a /24 is accepted and two taps get one guest address. */
  lemma WrappedCapacityTestSharesAddresses(base: nat)
    requires base < U32
    ensures var count := 0x4000_0001;
            && Accepts(count, 24, 30) && !Fits(count, 24, 30)
            && HostAddress(base, 0, 30, 2) == HostAddress(base, count - 1, 30, 2)
  {
    assert Pow2(2) == 4 && Pow2(8) == 256;
    assert SubnetBase(base, 0, 30) == SubnetBase(base, 0x4000_0000, 30);
  }

  // ---------------------------------------------------------------- what the carved blocks are

  /** An IPv4 CIDR into which `count` subnets fit. */
  ghost predicate Carvable(p: Prefix, count: nat, subnet: nat)
  {
    p.V4? && p.Valid() && p.bits <= subnet <= 30 && 0 < subnet && Fits(count, p.bits, subnet)
  }

  /** Requests whose product does not wrap are accepted exactly when they are carvable. */
  lemma AcceptedIffCarvable(p: Prefix, count: nat, subnet: nat)
    requires p.V4? && p.Valid() && 1 <= p.bits <= subnet <= 30
    requires 0 < count && count * Pow2(32 - subnet) < U32
    ensures Accepts(count, p.bits, subnet) <==> Carvable(p, count, subnet)
  {
    CapacityTestIsExactIff(count, p.bits, subnet);
  }

  lemma MaskedIsAligned(p: Prefix, subnet: nat)
    requires p.V4? && p.Valid() && p.bits <= subnet <= 30
    ensures Masked(p) % Pow2(32 - subnet) == 0
  {
    Pow2Adds(32 - subnet, subnet - p.bits);
    RoundedIsAligned(p.addr, Pow2(32 - p.bits), Pow2(32 - subnet), Pow2(subnet - p.bits));
  }

  lemma MaskedFits(p: Prefix)
    requires p.V4? && p.Valid()
    ensures Masked(p) + Pow2(32 - p.bits) <= U32
  {
    Pow2Adds(p.bits, 32 - p.bits);
    Pow2Of32();
    RoundedHasRoom(p.addr, Pow2(32 - p.bits), Pow2(p.bits));
  }

  lemma SubnetBaseExact(base: nat, i: nat, subnet: nat)
    requires 0 < subnet <= 30 && i < U32 && base + i * Pow2(32 - subnet) < U32
    ensures SubnetBase(base, i, subnet) == base + i * Pow2(32 - subnet)
  {
    ShiftedSize(subnet);
    assert i % U32 == i;
  }

  /** Block `i`: no wrap-around, aligned to its own size, inside the CIDR. */
  lemma BlockInside(p: Prefix, count: nat, subnet: nat, i: nat)
    requires Carvable(p, count, subnet) && i < count
    ensures var b, sb := Pow2(32 - subnet), SubnetBase(Masked(p), i, subnet);
            && b >= 4 && sb == Masked(p) + i * b && sb % b == 0
            && sb + b <= Masked(p) + Pow2(32 - p.bits) <= U32
  {
    BlockSizes(32 - subnet);
    MaskedIsAligned(p, subnet);
    MaskedFits(p);
    CarveOne(Masked(p), i, count, Pow2(32 - subnet), Pow2(32 - p.bits));
    SubnetBaseExact(Masked(p), i, subnet);
  }

  // ---------------------------------------------------------------- the netmask

  /** Bitwise and of the lowest `n` bits. */
  function And(x: nat, y: nat, n: nat): nat
  {
    if n == 0 then 0 else (x % 2) * (y % 2) + 2 * And(x / 2, y / 2, n - 1)
  }

  lemma {:induction false} AndWithOnes(x: nat, n: nat)
    requires x < Pow2(n)
    ensures And(x, Pow2(n) - 1, n) == x
  {
    if n > 0 {
      AndWithOnes(x / 2, n - 1);
      assert (Pow2(n) - 1) % 2 == 1 && (Pow2(n) - 1) / 2 == Pow2(n - 1) - 1;
    }
  }

  lemma HalfRoundDown(x: nat, b: nat)
    requires 0 < b
    ensures 2 * RoundDown(x / 2, b) == RoundDown(x, 2 * b)
  {
    var q, r := x / 2 / b, x / 2 % b;
    assert x / 2 == q * b + r;
    assert x == q * (2 * b) + (2 * r + x % 2) by {
      assert x == 2 * (x / 2) + x % 2;
      assert 2 * (q * b) == q * (2 * b);
    }
    ModUnique(x, q, 2 * r + x % 2, 2 * b);
    assert 2 * (q * b) == q * (2 * b);
  }

  /** `s` ones followed by `m` zeros. */
  function OnesThenZeros(m: nat, s: nat): nat
  {
    if m == 0 then Pow2(s) - 1 else 2 * OnesThenZeros(m - 1, s)
  }

  lemma {:induction false} OnesThenZerosIs(m: nat, s: nat)
    ensures OnesThenZeros(m, s) + Pow2(m) == Pow2(m + s)
  {
    if m > 0 {
      OnesThenZerosIs(m - 1, s);
      assert Pow2(m + s) == 2 * Pow2(m - 1 + s);
    }
  }

  lemma {:induction false} HalfBelow(x: nat, n: nat)
    requires 0 < n && x < Pow2(n)
    ensures x / 2 < Pow2(n - 1)
  {
  }

  /** Such a mask clears the last `m` bits. */
  lemma {:induction false} AndWithMask(x: nat, m: nat, s: nat)
    requires x < Pow2(m + s)
    ensures And(x, OnesThenZeros(m, s), m + s) == RoundDown(x, Pow2(m))
  {
    if m == 0 {
      AndWithOnes(x, s);
    } else {
      HalfBelow(x, m + s);
      AndWithMask(x / 2, m - 1, s);
      HalfRoundDown(x, Pow2(m - 1));
      AndEven(x, OnesThenZeros(m - 1, s), m + s);
    }
  }

  lemma AndEven(x: nat, y: nat, n: nat)
    requires n > 0
    ensures And(x, 2 * y, n) == 2 * And(x / 2, y, n - 1)
  {
    assert 2 * y % 2 == 0 && 2 * y / 2 == y;
  }

  lemma NetmaskIsOnes(subnet: nat)
    requires 0 < subnet <= 30
    ensures Netmask(subnet) == OnesThenZeros(32 - subnet, subnet)
  {
    var b := Pow2(32 - subnet);
    BlockSizes(32 - subnet);
    assert (U32 - 1) * b == (b - 1) * U32 + (U32 - b);
    ModUnique((U32 - 1) * b, b - 1, U32 - b, U32);
    OnesThenZerosIs(32 - subnet, subnet);
    Pow2Of32();
  }

  lemma RoundDownIff(x: nat, net: nat, b: nat)
    requires 0 < b && net % b == 0
    ensures RoundDown(x, b) == net <==> net <= x < net + b
  {
    var q := net / b;
    assert net == q * b;
    if net <= x < net + b {
      ModUnique(x, q, x - net, b);
    } else {
      assert x == x / b * b + x % b;
    }
  }

  /** Masking an address with the netmask gives the network address of a block exactly for the addresses in the block. */
  lemma MaskSelectsBlock(subnet: nat, net: nat, v: nat)
    requires 0 < subnet <= 30 && net % Pow2(32 - subnet) == 0 && v < U32
    ensures And(v, Netmask(subnet), 32) == net <==> net <= v < net + Pow2(32 - subnet)
  {
    NetmaskIsOnes(subnet);
    Pow2Of32();
    AndWithMask(v, 32 - subnet, subnet);
    RoundDownIff(v, net, Pow2(32 - subnet));
  }

  // ---------------------------------------------------------------- what the entries of a pool are

  /** The addresses that the netmask maps to `net` are exactly those of the block that starts there; so `net` is aligned. */
  ghost predicate IsBlock(subnet: nat, net: nat)
    requires 0 < subnet <= 30
  {
    forall v: nat | v < U32 :: And(v, Netmask(subnet), 32) == net <==> net <= v < net + Pow2(32 - subnet)
  }

  /** The address agrees with that of the CIDR in the first `bits` bits. */
  ghost predicate InCidr(p: Prefix, v: nat)
    requires p.V4? && p.Valid()
  {
    v / Pow2(32 - p.bits) == p.addr / Pow2(32 - p.bits)
  }

  ghost predicate AllInCidr(p: Prefix, net: nat, size: nat)
    requires p.V4? && p.Valid()
  {
    forall v: nat | net <= v < net + size :: InCidr(p, v)
  }

  /** The first address of the CIDR. */
  ghost function NetworkStart(p: Prefix): int
    requires p.V4? && p.Valid()
  {
    p.addr - p.addr % Pow2(32 - p.bits)
  }

  /** Masking clears the host bits, so that the CIDR begins there and its own address lies in it. */
  lemma MaskedIsNetwork(p: Prefix)
    requires p.V4? && p.Valid()
    ensures Masked(p) == NetworkStart(p) && Masked(p) % Pow2(32 - p.bits) == 0
    ensures Masked(p) <= p.addr < Masked(p) + Pow2(32 - p.bits)
  {
    var n := Pow2(32 - p.bits);
    var q := p.addr / n;
    assert p.addr == q * n + p.addr % n;
    ModUnique(q * n, q, 0, n);
  }

  /** The CIDR is exactly the addresses from its start on, as many as it has. */
  lemma InCidrIff(p: Prefix, v: nat)
    requires p.V4? && p.Valid()
    ensures InCidr(p, v) <==> Masked(p) <= v < Masked(p) + Pow2(32 - p.bits)
  {
    var n := Pow2(32 - p.bits);
    MaskedIsNetwork(p);
    RoundDownIff(v, Masked(p), n);
    var q, q' := v / n, p.addr / n;
    if q < q' {
      StepsApart(q, q', n);
    } else if q' < q {
      StepsApart(q', q, n);
    }
  }

  lemma RangeInCidr(p: Prefix, net: nat, size: nat)
    requires p.V4? && p.Valid() && Masked(p) <= net && net + size <= Masked(p) + Pow2(32 - p.bits)
    ensures AllInCidr(p, net, size)
  {
    forall v: nat | net <= v < net + size
      ensures InCidr(p, v)
    {
      InCidrIff(p, v);
    }
  }

  lemma BlockStarts(p: Prefix, count: nat, subnet: nat, i: nat)
    requires Carvable(p, count, subnet) && i < count
    ensures SubnetBase(Masked(p), i, subnet) == NetworkStart(p) + i * Pow2(32 - subnet)
  {
    BlockInside(p, count, subnet, i);
    MaskedIsNetwork(p);
  }

  lemma BlockInCidr(p: Prefix, count: nat, subnet: nat, i: nat)
    requires Carvable(p, count, subnet) && i < count
    ensures AllInCidr(p, SubnetBase(Masked(p), i, subnet), Pow2(32 - subnet))
  {
    BlockBounds(p, count, subnet, i);
    RangeInCidr(p, SubnetBase(Masked(p), i, subnet), Pow2(32 - subnet));
  }

  /** The `i`-th entry: its subnet is the `i`-th block of the CIDR and a block of the netmask, and its gateway and its guest are the second
      and third address of the block, so neither is the network address or the last, the broadcast address. */
  ghost predicate IsCarved(p: Prefix, subnet: nat, i: nat, c: NetworkConfig)
    requires p.V4? && p.Valid() && 0 < subnet <= 30
  {
    var net, size := SubnetBase(Masked(p), i, subnet), Pow2(32 - subnet);
    && IsBlock(subnet, net) && Masked(p) <= net && net + size <= Masked(p) + Pow2(32 - p.bits) <= U32
    && net == NetworkStart(p) + i * size && AllInCidr(p, net, size)
    && net + 2 < net + size - 1
    && c.gatewayIP == Dotted(ToIPv4(net + 1)) && c.guestIP == Dotted(ToIPv4(net + 2)) && c.guestIP != c.gatewayIP
    && c.guestMAC == GuestMAC(ToIPv4(net + 2)) && c.netmask == Dotted(ToIPv4(Netmask(subnet)))
  }

  /** Taps, guests, hardware addresses and gateways are all different. */
  ghost predicate Apart(c: NetworkConfig, d: NetworkConfig)
  {
    && c.tapDevice != d.tapDevice && c.guestMAC != d.guestMAC
    && c.guestIP != d.guestIP && c.gatewayIP != d.gatewayIP && c.guestIP != d.gatewayIP && c.gatewayIP != d.guestIP
  }

  ghost predicate BlocksDisjoint(p: Prefix, subnet: nat, i: nat, j: nat)
    requires p.V4? && p.Valid() && 0 < subnet <= 30
  {
    var x, y, size := SubnetBase(Masked(p), i, subnet), SubnetBase(Masked(p), j, subnet), Pow2(32 - subnet);
    x + size <= y || y + size <= x
  }

  lemma BlockBounds(p: Prefix, count: nat, subnet: nat, i: nat)
    requires Carvable(p, count, subnet) && i < count
    ensures var net, size := SubnetBase(Masked(p), i, subnet), Pow2(32 - subnet);
            size >= 4 && Masked(p) <= net && net + size <= Masked(p) + Pow2(32 - p.bits) <= U32
  {
    BlockInside(p, count, subnet, i);
  }

  lemma BlocksInOrder(p: Prefix, count: nat, subnet: nat, i: nat, j: nat)
    requires Carvable(p, count, subnet) && i < j < count
    ensures SubnetBase(Masked(p), i, subnet) + Pow2(32 - subnet) <= SubnetBase(Masked(p), j, subnet)
  {
    BlockInside(p, count, subnet, i);
    BlockInside(p, count, subnet, j);
    StepsApart(i, j, Pow2(32 - subnet));
  }

  lemma BlocksAreDisjoint(p: Prefix, count: nat, subnet: nat, i: nat, j: nat)
    requires Carvable(p, count, subnet) && i < count && j < count && i != j
    ensures BlocksDisjoint(p, subnet, i, j)
  {
    if i < j {
      BlocksInOrder(p, count, subnet, i, j);
    } else {
      BlocksInOrder(p, count, subnet, j, i);
    }
  }

  lemma EveryBlockIsBlock(p: Prefix, count: nat, subnet: nat, i: nat)
    requires Carvable(p, count, subnet) && i < count
    ensures IsBlock(subnet, SubnetBase(Masked(p), i, subnet))
  {
    BlockInside(p, count, subnet, i);
    forall v: nat | v < U32
      ensures var net := SubnetBase(Masked(p), i, subnet); And(v, Netmask(subnet), 32) == net <==> net <= v < net + Pow2(32 - subnet)
    {
      MaskSelectsBlock(subnet, SubnetBase(Masked(p), i, subnet), v);
    }
  }

  lemma HostIsExact(base: nat, i: nat, subnet: nat, h: nat)
    requires subnet <= 30 && SubnetBase(base, i, subnet) + h < U32
    ensures HostAddress(base, i, subnet, h) == ToIPv4(SubnetBase(base, i, subnet) + h)
  {
    assert (SubnetBase(base, i, subnet) + h) % U32 == SubnetBase(base, i, subnet) + h;
  }

  lemma ToIPv4Injective(u: nat, v: nat)
    requires u < U32 && v < U32 && ToIPv4(u) == ToIPv4(v)
    ensures u == v
  {
    IPv4RoundTrip(u);
    IPv4RoundTrip(v);
  }

  /** Addresses of different blocks, or different addresses of one block, are different. */
  lemma HostsDiffer(p: Prefix, count: nat, subnet: nat, i: nat, h: nat, j: nat, h': nat)
    requires Carvable(p, count, subnet) && i < count && j < count && h <= 2 && h' <= 2 && (i != j || h != h')
    ensures HostAddress(Masked(p), i, subnet, h) != HostAddress(Masked(p), j, subnet, h')
  {
    BlockBounds(p, count, subnet, i);
    BlockBounds(p, count, subnet, j);
    if i != j {
      BlocksAreDisjoint(p, count, subnet, i, j);
    }
    var u, v := SubnetBase(Masked(p), i, subnet) + h, SubnetBase(Masked(p), j, subnet) + h';
    HostIsExact(Masked(p), i, subnet, h);
    HostIsExact(Masked(p), j, subnet, h');
    if ToIPv4(u) == ToIPv4(v) {
      ToIPv4Injective(u, v);
    }
  }

  /** Different addresses print differently and give different MAC addresses. */
  lemma TextsDiffer(x: IPv4, y: IPv4)
    requires x.Valid() && y.Valid() && x != y
    ensures Dotted(x) != Dotted(y) && GuestMAC(x) != GuestMAC(y)
  {
    if Dotted(x) == Dotted(y) {
      DottedInjective(x, y);
    }
    if GuestMAC(x) == GuestMAC(y) {
      GuestMACInjective(x, y);
    }
  }

  lemma HostTextsDiffer(p: Prefix, count: nat, subnet: nat, i: nat, h: nat, j: nat, h': nat)
    requires Carvable(p, count, subnet) && i < count && j < count && h <= 2 && h' <= 2 && (i != j || h != h')
    ensures var x, y := HostAddress(Masked(p), i, subnet, h), HostAddress(Masked(p), j, subnet, h');
            Dotted(x) != Dotted(y) && GuestMAC(x) != GuestMAC(y)
  {
    HostsDiffer(p, count, subnet, i, h, j, h');
    TextsDiffer(HostAddress(Masked(p), i, subnet, h), HostAddress(Masked(p), j, subnet, h'));
  }

  /** Every entry of an accepted request that does not wrap is carved out. */
  lemma ConfigIsCarved(name: string, p: Prefix, count: nat, subnet: nat, i: nat)
    requires Carvable(p, count, subnet) && i < count
    ensures IsCarved(p, subnet, i, ConfigAt(name, Masked(p), i, subnet))
  {
    BlockBounds(p, count, subnet, i);
    EveryBlockIsBlock(p, count, subnet, i);
    BlockStarts(p, count, subnet, i);
    BlockInCidr(p, count, subnet, i);
    HostIsExact(Masked(p), i, subnet, 1);
    HostIsExact(Masked(p), i, subnet, 2);
    HostTextsDiffer(p, count, subnet, i, 2, i, 1);
  }

  /** Tap names differ. */
  lemma NamesDiffer(name: string, i: nat, j: nat)
    requires i != j
    ensures name + Decimal(i) != name + Decimal(j)
  {
    if name + Decimal(i) == name + Decimal(j) {
      assert Decimal(i) == (name + Decimal(i))[|name|..] == (name + Decimal(j))[|name|..] == Decimal(j);
      DecimalInjective(i, j);
    }
  }

  lemma ConfigsAreApart(name: string, p: Prefix, count: nat, subnet: nat, i: nat, j: nat)
    requires Carvable(p, count, subnet) && i < count && j < count && i != j
    ensures Apart(ConfigAt(name, Masked(p), i, subnet), ConfigAt(name, Masked(p), j, subnet))
  {
    NamesDiffer(name, i, j);
    HostTextsDiffer(p, count, subnet, i, 2, j, 2);
    HostTextsDiffer(p, count, subnet, i, 1, j, 1);
    HostTextsDiffer(p, count, subnet, i, 2, j, 1);
    HostTextsDiffer(p, count, subnet, i, 1, j, 2);
  }

  ghost predicate AllCarved(p: Prefix, subnet: nat, configs: seq<NetworkConfig>)
    requires p.V4? && p.Valid() && 0 < subnet <= 30
  {
    forall i | 0 <= i < |configs| :: IsCarved(p, subnet, i, configs[i])
  }

  ghost predicate AllApart(configs: seq<NetworkConfig>)
  {
    forall i, j | 0 <= i < |configs| && 0 <= j < |configs| && i != j :: Apart(configs[i], configs[j])
  }

  ghost predicate AllDisjoint(p: Prefix, subnet: nat, count: nat)
    requires p.V4? && p.Valid() && 0 < subnet <= 30
  {
    forall i, j | 0 <= i < count && 0 <= j < count && i != j :: BlocksDisjoint(p, subnet, i, j)
  }

  /** Subnet carving: all entries are carved out, and any two of them are disjoint and different in every respect. */
  ghost predicate WellCarved(p: Prefix, subnet: nat, configs: seq<NetworkConfig>)
    requires p.V4? && p.Valid() && 0 < subnet <= 30
  {
    AllCarved(p, subnet, configs) && AllApart(configs) && AllDisjoint(p, subnet, |configs|)
  }

  lemma EntriesAreCarved(name: string, p: Prefix, subnet: nat, configs: seq<NetworkConfig>, i: nat)
    requires Carvable(p, |configs|, subnet) && IsPool(name, Masked(p), subnet, configs) && i < |configs|
    ensures IsCarved(p, subnet, i, configs[i])
  {
    ConfigIsCarved(name, p, |configs|, subnet, i);
  }

  lemma EntriesAreApart(name: string, p: Prefix, subnet: nat, configs: seq<NetworkConfig>, i: nat, j: nat)
    requires Carvable(p, |configs|, subnet) && IsPool(name, Masked(p), subnet, configs) && i < |configs| && j < |configs| && i != j
    ensures Apart(configs[i], configs[j])
  {
    ConfigsAreApart(name, p, |configs|, subnet, i, j);
  }

  lemma PoolIsCarved(name: string, p: Prefix, subnet: nat, configs: seq<NetworkConfig>)
    requires Carvable(p, |configs|, subnet) && IsPool(name, Masked(p), subnet, configs)
    ensures AllCarved(p, subnet, configs)
  {
    forall i | 0 <= i < |configs|
      ensures IsCarved(p, subnet, i, configs[i])
    {
      EntriesAreCarved(name, p, subnet, configs, i);
    }
  }

  lemma PoolIsApart(name: string, p: Prefix, subnet: nat, configs: seq<NetworkConfig>)
    requires Carvable(p, |configs|, subnet) && IsPool(name, Masked(p), subnet, configs)
    ensures AllApart(configs)
  {
    forall i, j | 0 <= i < |configs| && 0 <= j < |configs| && i != j
      ensures Apart(configs[i], configs[j])
    {
      EntriesAreApart(name, p, subnet, configs, i, j);
    }
  }

  lemma PoolIsDisjoint(p: Prefix, subnet: nat, count: nat)
    requires Carvable(p, count, subnet)
    ensures AllDisjoint(p, subnet, count)
  {
    forall i, j | 0 <= i < count && 0 <= j < count && i != j
      ensures BlocksDisjoint(p, subnet, i, j)
    {
      BlocksAreDisjoint(p, count, subnet, i, j);
    }
  }

  lemma CarvingIsSound(name: string, p: Prefix, subnet: nat, configs: seq<NetworkConfig>)
    requires Carvable(p, |configs|, subnet) && IsPool(name, Masked(p), subnet, configs)
    ensures WellCarved(p, subnet, configs)
  {
    PoolIsCarved(name, p, subnet, configs);
    PoolIsApart(name, p, subnet, configs);
    PoolIsDisjoint(p, subnet, |configs|);
  }

  /** The number of blocks a CIDR holds, and where the block after the last would start. */
  lemma BlockPastTheEnd(p: Prefix, subnet: nat)
    requires p.V4? && p.Valid() && p.bits <= subnet <= 30 && 0 < subnet
    ensures var k := Pow2(subnet - p.bits);
      && k * Pow2(32 - subnet) == Pow2(32 - p.bits) && k < U32
      && SubnetBase(Masked(p), k, subnet) == (Masked(p) + Pow2(32 - p.bits)) % U32
  {
    Pow2Adds(subnet - p.bits, 32 - subnet);
    BlockSizes(subnet - p.bits);
    ShiftedSize(subnet);
    SmallRemainder(Pow2(subnet - p.bits));
  }

  lemma SmallRemainder(x: nat)
    requires x < U32
    ensures x % U32 == x
  {
  }

  lemma MoreBlocksThanFit(count: nat, bits: nat, subnet: nat)
    requires bits <= subnet <= 30 && !Fits(count, bits, subnet)
    requires Pow2(subnet - bits) * Pow2(32 - subnet) == Pow2(32 - bits)
    ensures Pow2(subnet - bits) < count
  {
    var k := Pow2(subnet - bits);
    if count < k {
      StepsApart(count, k, Pow2(32 - subnet));
    }
  }

  lemma WrappedPastTheEnd(base: nat, size: nat, b: nat, net: nat)
    requires 0 < b && base + size <= U32 && net == (base + size) % U32
    ensures !(base <= net && net + b <= base + size) || (net == 0 == base)
  {
  }

  /** Where too many blocks are asked for, the first one too many lies outside the CIDR or, in a /0, on the first block. */
  lemma OneTooMany(p: Prefix, subnet: nat)
    requires p.V4? && p.Valid() && p.bits <= subnet <= 30 && 0 < subnet
    ensures var net, size := SubnetBase(Masked(p), Pow2(subnet - p.bits), subnet), Pow2(32 - subnet);
      || !(Masked(p) <= net && net + size <= Masked(p) + Pow2(32 - p.bits))
      || (net == 0 == SubnetBase(Masked(p), 0, subnet))
  {
    BlockPastTheEnd(p, subnet);
    MaskedFits(p);
    WrappedPastTheEnd(Masked(p), Pow2(32 - p.bits), Pow2(32 - subnet), SubnetBase(Masked(p), Pow2(subnet - p.bits), subnet));
    FirstBlock(subnet);
  }

  lemma TooManyIsNotWellCarved(p: Prefix, subnet: nat, configs: seq<NetworkConfig>)
    requires p.V4? && p.Valid() && p.bits <= subnet <= 30 && 0 < subnet && !Fits(|configs|, p.bits, subnet)
    ensures !WellCarved(p, subnet, configs)
  {
    var k := Pow2(subnet - p.bits);
    BlockPastTheEnd(p, subnet);
    MoreBlocksThanFit(|configs|, p.bits, subnet);
    OneTooMany(p, subnet);
    NotWellCarvedAt(p, subnet, configs, k);
  }

  lemma OutsideIsNotCarved(p: Prefix, subnet: nat, configs: seq<NetworkConfig>, k: nat)
    requires p.V4? && p.Valid() && 0 < subnet <= 30 && k < |configs|
    requires var net := SubnetBase(Masked(p), k, subnet); !(Masked(p) <= net && net + Pow2(32 - subnet) <= Masked(p) + Pow2(32 - p.bits))
    ensures !AllCarved(p, subnet, configs)
  {
    assert !IsCarved(p, subnet, k, configs[k]);
  }

  lemma OverlapIsNotDisjoint(p: Prefix, subnet: nat, count: nat, k: nat)
    requires p.V4? && p.Valid() && 0 < subnet <= 30 && 0 < k < count
    requires SubnetBase(Masked(p), k, subnet) == SubnetBase(Masked(p), 0, subnet)
    ensures !AllDisjoint(p, subnet, count)
  {
    assert !BlocksDisjoint(p, subnet, 0, k);
  }

  lemma NotWellCarvedAt(p: Prefix, subnet: nat, configs: seq<NetworkConfig>, k: nat)
    requires p.V4? && p.Valid() && 0 < subnet <= 30 && 0 < k < |configs|
    requires var net, size := SubnetBase(Masked(p), k, subnet), Pow2(32 - subnet);
      || !(Masked(p) <= net && net + size <= Masked(p) + Pow2(32 - p.bits))
      || (net == 0 == SubnetBase(Masked(p), 0, subnet))
    ensures !WellCarved(p, subnet, configs)
  {
    var net, size := SubnetBase(Masked(p), k, subnet), Pow2(32 - subnet);
    if Masked(p) <= net && net + size <= Masked(p) + Pow2(32 - p.bits) {
      OverlapIsNotDisjoint(p, subnet, |configs|, k);
    } else {
      OutsideIsNotCarved(p, subnet, configs, k);
    }
  }

  lemma FirstBlock(subnet: nat)
    requires subnet <= 30
    ensures SubnetBase(0, 0, subnet) == 0
  {
  }

  /** A pool is well carved if and only if its blocks fit the CIDR. */
  lemma WellCarvedIffFits(name: string, p: Prefix, subnet: nat, configs: seq<NetworkConfig>)
    requires p.V4? && p.Valid() && p.bits <= subnet <= 30 && 0 < subnet && IsPool(name, Masked(p), subnet, configs)
    ensures WellCarved(p, subnet, configs) <==> Fits(|configs|, p.bits, subnet)
  {
    if Fits(|configs|, p.bits, subnet) {
      CarvingIsSound(name, p, subnet, configs);
    } else {
      TooManyIsNotWellCarved(p, subnet, configs);
    }
  }

  // ---------------------------------------------------------------- an example

  lemma ExampleBlock(i: nat)
    requires i < 3
    ensures Masked(V4(0xAC10_0000, 24)) == 0xAC10_0000 && SubnetBase(0xAC10_0000, i, 30) == 0xAC10_0000 + 4 * i
    ensures Netmask(30) == 0xFFFF_FFFC
  {
    assert Pow2(8) == 256 && Pow2(2) == 4;
    Pow2Of32();
  }

  lemma ExampleGateway()
    ensures Dotted(ToIPv4(0xAC10_0005)) == "172.16.0.5"
  {
    assert ToIPv4(0xAC10_0005) == IPv4(172, 16, 0, 5);
    assert Octet(172) == "172" && Octet(16) == "16" && Octet(0) == "0" && Octet(5) == "5";
  }

  lemma ExampleGuest()
    ensures Dotted(ToIPv4(0xAC10_0006)) == "172.16.0.6" && GuestMAC(ToIPv4(0xAC10_0006)) == "06:00:ac:10:00:06"
  {
    assert ToIPv4(0xAC10_0006) == IPv4(172, 16, 0, 6);
    assert Octet(172) == "172" && Octet(16) == "16" && Octet(0) == "0" && Octet(6) == "6";
    assert Hex2(172) == "ac" && Hex2(16) == "10" && Hex2(0) == "00" && Hex2(6) == "06";
  }

  lemma ExampleMask()
    ensures Dotted(ToIPv4(0xFFFF_FFFC)) == "255.255.255.252"
  {
    assert ToIPv4(0xFFFF_FFFC) == IPv4(255, 255, 255, 252);
    assert Octet(255) == "255" && Octet(252) == "252";
  }

  lemma ExampleHosts()
    ensures HostAddress(0xAC10_0000, 1, 30, 1) == ToIPv4(0xAC10_0005) && HostAddress(0xAC10_0000, 1, 30, 2) == ToIPv4(0xAC10_0006)
  {
    ExampleBlock(1);
  }

  /** 172.16.0.0/24 in subnets of /30: the second tap, as text. */
  lemma ExampleNetwork()
    ensures ConfigAt("tap", Masked(V4(0xAC10_0000, 24)), 1, 30)
         == NetworkConfig("tap1", "06:00:ac:10:00:06", "172.16.0.6", "172.16.0.5", "255.255.255.252")
  {
    ExampleBlock(1);
    ExampleHosts();
    ExampleGateway();
    ExampleGuest();
    ExampleMask();
    assert "tap" + Decimal(1) == "tap1";
  }
}
