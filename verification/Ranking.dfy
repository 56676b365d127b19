/** How the scheduler orders the regions a function may run in. */
module Ranking {
  import opened Options
  import opened Domain
  import Sorting
  import Text

  const ACTIVE := "active"

  /** The outcome of reading a region row. */
  datatype RegionLookup = Found(region: Region) | Missing | Unreadable

  /** Everything rankDispatchers reads, taken at one moment. A missing backlog is a store error, and so is a missing
      artifact index; an artifact that does not exist has an empty one. */
  datatype Snapshot = Snapshot(dispatchers: map<string, RegionStats>, backlog: map<string, nat>, rows: map<string, RegionLookup>,
                               artifactRegions: Option<set<string>>, now: Time, maxHeartbeatAge: Time)
  {
    predicate Dispatchable(region: string) { region in dispatchers }
    function Row(region: string): RegionLookup { if region in rows then rows[region] else Missing }
    predicate Readable(region: string) { region in backlog && !Row(region).Unreadable? }
  }

  datatype Candidate = Candidate(region: string, stats: RegionStats, backlog: nat, healthy: bool, artifactLocal: bool, lastHeartbeat: Time)

  /** A row counts as healthy unless it says otherwise or its last heartbeat is too old. */
  predicate RegionHealthy(row: Option<Region>, now: Time, maxHeartbeatAge: Time)
  {
    if row.None? then true
    else if row.value.state != ACTIVE then false
    else if maxHeartbeatAge <= 0 || row.value.lastHeartbeatAt == ZERO then true
    else now - row.value.lastHeartbeatAt <= maxHeartbeatAge
  }

  function CandidateFor(s: Snapshot, region: string): Candidate
    requires s.Dispatchable(region) && s.Readable(region) && s.artifactRegions.Some?
  {
    var local := region in s.artifactRegions.value;
    var row := s.Row(region);
    if row.Found? then
      Candidate(region, row.region.stats.(availableFullNetworkSlots := 0), s.backlog[region],
                RegionHealthy(Some(row.region), s.now, s.maxHeartbeatAge), local, row.region.lastHeartbeatAt)
    else
      Candidate(region, s.dispatchers[region], s.backlog[region], true, local, ZERO)
  }

  /** Heartbeats may age, the region was heard, and that was too long ago. */
  predicate TooOld(row: Region, now: Time, maxHeartbeatAge: Time)
  {
    maxHeartbeatAge > 0 && row.lastHeartbeatAt != ZERO && row.lastHeartbeatAt + maxHeartbeatAge < now
  }

  /** What a candidate says is what was read: an unreadable region gives none; a region counts as unhealthy exactly when its
      row says it is not active, or when heartbeats may age and its last one is too old. */
  lemma CandidateIsRead(s: Snapshot, region: string)
    requires s.Dispatchable(region) && s.Readable(region) && s.artifactRegions.Some?
    ensures var c := CandidateFor(s, region);
            && c.region == region && c.backlog == s.backlog[region] && (c.artifactLocal <==> region in s.artifactRegions.value)
            && match s.Row(region)
               case Missing => c.healthy && c.stats == s.dispatchers[region] && c.lastHeartbeat == ZERO
               case Found(row) =>
                 && c.stats.availableHosts == row.stats.availableHosts && c.stats.blankWarm == row.stats.blankWarm
                 && c.stats.functionWarm == row.stats.functionWarm && c.stats.availableFullNetworkSlots == 0 && c.lastHeartbeat == row.lastHeartbeatAt
                 && (!c.healthy <==> row.state != "active" || TooOld(row, s.now, s.maxHeartbeatAge))
  {
  }

  // ---------------------------------------------------------------- the order

  /** The eight keys, most important first. */
  predicate Better(a: Candidate, b: Candidate)
  {
    if a.healthy != b.healthy then a.healthy
    else if a.artifactLocal != b.artifactLocal then a.artifactLocal
    else if a.backlog != b.backlog then a.backlog < b.backlog
    else if a.stats.functionWarm != b.stats.functionWarm then a.stats.functionWarm > b.stats.functionWarm
    else if a.stats.blankWarm != b.stats.blankWarm then a.stats.blankWarm > b.stats.blankWarm
    else if a.stats.availableHosts != b.stats.availableHosts then a.stats.availableHosts > b.stats.availableHosts
    else if a.lastHeartbeat != b.lastHeartbeat then a.lastHeartbeat > b.lastHeartbeat
    else Text.Less(a.region, b.region)
  }

  /** The seven numeric keys, each to be small. */
  function Keys(c: Candidate): seq<int>
  {
    [if c.healthy then 0 else 1, if c.artifactLocal then 0 else 1, c.backlog, -c.stats.functionWarm, -c.stats.blankWarm,
     -c.stats.availableHosts, -c.lastHeartbeat]
  }

  /** From place `i` on, the first difference is smaller in `a`. */
  predicate Lexicographic(a: seq<int>, b: seq<int>, i: nat)
    requires |a| == |b| && i <= |a|
    decreases |a| - i
  {
    i < |a| && (a[i] < b[i] || (a[i] == b[i] && Lexicographic(a, b, i + 1)))
  }

  /** Candidates are compared by their keys from the most important on, and by name when all keys are equal. */
  lemma BetterIsLexicographic(a: Candidate, b: Candidate)
    ensures Better(a, b) <==> Lexicographic(Keys(a), Keys(b), 0) || (Keys(a) == Keys(b) && Text.Less(a.region, b.region))
  {
    var x, y := Keys(a), Keys(b);
    assert Lexicographic(x, y, 6) <==> x[6] < y[6];
    assert Lexicographic(x, y, 5) <==> x[5] < y[5] || (x[5] == y[5] && Lexicographic(x, y, 6));
    assert Lexicographic(x, y, 4) <==> x[4] < y[4] || (x[4] == y[4] && Lexicographic(x, y, 5));
    assert Lexicographic(x, y, 3) <==> x[3] < y[3] || (x[3] == y[3] && Lexicographic(x, y, 4));
    assert Lexicographic(x, y, 2) <==> x[2] < y[2] || (x[2] == y[2] && Lexicographic(x, y, 3));
    assert Lexicographic(x, y, 1) <==> x[1] < y[1] || (x[1] == y[1] && Lexicographic(x, y, 2));
  }

  lemma BetterIsIrreflexive(a: Candidate)
    ensures !Better(a, a)
  {
    Text.LessIrreflexive(a.region);
  }

  lemma BetterIsTransitive(a: Candidate, b: Candidate, c: Candidate)
    requires Better(a, b) && Better(b, c)
    ensures Better(a, c)
  {
    if Text.Less(a.region, b.region) && Text.Less(b.region, c.region) {
      Text.LessTransitive(a.region, b.region, c.region);
    }
  }

  /** Candidates for different regions never tie. */
  lemma BetterIsTotal(a: Candidate, b: Candidate)
    requires a.region != b.region
    ensures Better(a, b) <==> !Better(b, a)
  {
    Text.LessTotal(a.region, b.region);
    if Better(a, b) && Better(b, a) {
      BetterIsTransitive(a, b, a);
      BetterIsIrreflexive(a);
    }
  }

  lemma BetterIsNegativelyTransitive(a: Candidate, b: Candidate, c: Candidate)
    requires Better(a, c)
    ensures Better(a, b) || Better(b, c)
  {
    if a.region == b.region {
    } else if !Better(a, b) {
      BetterIsTotal(a, b);
      BetterIsTransitive(b, a, c);
    }
  }

  lemma BetterIsStrictWeak()
    ensures Sorting.StrictWeak(Better)
  {
    forall a
      ensures !Better(a, a)
    {
      BetterIsIrreflexive(a);
    }
    forall a, b, c | Better(a, b) && Better(b, c)
      ensures Better(a, c)
    {
      BetterIsTransitive(a, b, c);
    }
    forall a, b, c | Better(a, c)
      ensures Better(a, b) || Better(b, c)
    {
      BetterIsNegativelyTransitive(a, b, c);
    }
  }

  // ---------------------------------------------------------------- ranking

  /** Whether the regions can all be read and at least one can be dispatched to. */
  ghost predicate Rankable(s: Snapshot, regions: seq<string>)
  {
    && s.artifactRegions.Some?
    && (forall r <- regions | s.Dispatchable(r) :: s.Readable(r))
    && (exists r <- regions :: s.Dispatchable(r))
  }

  /** The list is a ranking of the regions: one candidate per listed dispatchable region, best first. */
  ghost predicate IsRanking(s: Snapshot, regions: seq<string>, ranked: seq<Candidate>)
    requires Rankable(s, regions)
  {
    && Sorting.Sorted(ranked, Better)
    && (forall c: Candidate :: multiset(ranked)[c] ==
          if s.Dispatchable(c.region) && c.region in regions && c == CandidateFor(s, c.region) then multiset(regions)[c.region] else 0)
  }

  /** Whatever the order in which the version lists its regions, there is one ranking of them. */
  lemma RankingIsCanonical(s: Snapshot, regions: seq<string>, regions': seq<string>, ranked: seq<Candidate>, ranked': seq<Candidate>)
    requires multiset(regions) == multiset(regions')
    requires Rankable(s, regions) && Rankable(s, regions') && IsRanking(s, regions, ranked) && IsRanking(s, regions', ranked')
    ensures ranked == ranked'
  {
    SameMembers(regions, regions');
    assert multiset(ranked) == multiset(ranked');
    forall x, y | x in ranked && y in ranked && !Better(x, y) && !Better(y, x)
      ensures x == y
    {
      assert multiset(ranked)[x] > 0 && multiset(ranked)[y] > 0;
      if x.region != y.region {
        BetterIsTotal(x, y);
      }
    }
    BetterIsStrictWeak();
    Sorting.SortedUnique(ranked, ranked', Better);
  }

  lemma SameMembers<T>(a: seq<T>, b: seq<T>)
    requires multiset(a) == multiset(b)
    ensures forall x :: x in a <==> x in b
  {
    forall x
      ensures x in a <==> x in b
    {
      assert x in a <==> x in multiset(a);
    }
  }

  lemma RankableWhateverTheOrder(s: Snapshot, regions: seq<string>, regions': seq<string>)
    requires multiset(regions) == multiset(regions')
    ensures Rankable(s, regions) <==> Rankable(s, regions')
  {
    SameMembers(regions, regions');
    if Rankable(s, regions) {
      var r :| r in regions && s.Dispatchable(r);
      assert r in regions';
    }
    if Rankable(s, regions') {
      var r :| r in regions' && s.Dispatchable(r);
      assert r in regions;
    }
  }

  /** No unhealthy region comes before a healthy one, and among equals of health no remote artifact before a local one. */
  lemma HealthyFirst(s: Snapshot, regions: seq<string>, ranked: seq<Candidate>, i: nat, j: nat)
    requires Rankable(s, regions) && IsRanking(s, regions, ranked) && i < j < |ranked|
    ensures ranked[j].healthy ==> ranked[i].healthy
    ensures ranked[i].healthy == ranked[j].healthy && ranked[j].artifactLocal ==> ranked[i].artifactLocal
  {
    assert !Better(ranked[j], ranked[i]);
  }

  /** The dispatchable regions of a prefix, in listed order. */
  ghost predicate Gathered(s: Snapshot, regions: seq<string>, n: nat, cs: seq<Candidate>)
    requires n <= |regions| && s.artifactRegions.Some?
  {
    && (forall r <- regions[..n] | s.Dispatchable(r) :: s.Readable(r))
    && (forall c: Candidate :: multiset(cs)[c] ==
          if s.Dispatchable(c.region) && c.region in regions[..n] && c == CandidateFor(s, c.region) then multiset(regions[..n])[c.region] else 0)
  }

  lemma GatherNext(s: Snapshot, regions: seq<string>, n: nat, cs: seq<Candidate>)
    requires n < |regions| && s.artifactRegions.Some? && Gathered(s, regions, n, cs)
    requires s.Dispatchable(regions[n]) ==> s.Readable(regions[n])
    ensures Gathered(s, regions, n + 1, if s.Dispatchable(regions[n]) then cs + [CandidateFor(s, regions[n])] else cs)
  {
    assert regions[..n + 1] == regions[..n] + [regions[n]];
  }

  lemma SortedIsRanking(s: Snapshot, regions: seq<string>, cs: seq<Candidate>)
    requires s.artifactRegions.Some? && Gathered(s, regions, |regions|, cs) && cs != []
    ensures Rankable(s, regions) && IsRanking(s, regions, Sorting.StableSort(cs, Better))
  {
    assert regions[..|regions|] == regions;
    assert multiset(cs)[cs[0]] > 0;
    assert cs[0].region in regions && s.Dispatchable(cs[0].region);
    BetterIsStrictWeak();
    Sorting.StableSortSorts(cs, Better);
  }

  lemma GathersSomething(s: Snapshot, regions: seq<string>, cs: seq<Candidate>)
    requires s.artifactRegions.Some? && Gathered(s, regions, |regions|, cs)
    ensures Rankable(s, regions) ==> cs != []
  {
    assert regions[..|regions|] == regions;
    if Rankable(s, regions) {
      var r :| r in regions && s.Dispatchable(r);
      assert CandidateFor(s, r) in multiset(cs);
    }
  }

  method RankDispatchers(s: Snapshot, regions: seq<string>) returns (r: Result<seq<Candidate>>)
    ensures r.Ok? <==> Rankable(s, regions)
    ensures r.Ok? ==> IsRanking(s, regions, r.value) && r.value != []
  {
    if s.artifactRegions.None? {
      return Err("artifact lookup failed");
    }
    var candidates: seq<Candidate> := [];
    for i := 0 to |regions|
      invariant Gathered(s, regions, i, candidates)
    {
      var region := regions[i];
      if s.Dispatchable(region) {
        if !s.Readable(region) {
          assert region in regions;
          return Err("store unavailable");
        }
        GatherNext(s, regions, i, candidates);
        candidates := candidates + [CandidateFor(s, region)];
      } else {
        GatherNext(s, regions, i, candidates);
      }
    }
    GathersSomething(s, regions, candidates);
    if candidates == [] {
      return Err("no dispatcher available");
    }
    SortedIsRanking(s, regions, candidates);
    return Ok(Sorting.StableSort(candidates, Better));
  }
}
