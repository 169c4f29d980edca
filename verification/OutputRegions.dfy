/**
  The stretches of the container that are copied to the output: which segment goes with which stretch, the
  demands a stretch collects from its segments, and where it ends up.
 */
module OutputRegions {
  import opened Options
  import Lists
  import opened ElfFormat
  import opened SegmentPlacement
  import opened Alignment
  import opened OutputPlan

  /** A stretch of the container. It moves as a whole, so all its segments share one demand. */
  class Region {
    const origin: int
    const size: nat
    var vaddr: int
    var align: nat
    var place: int

    constructor (s: Segment)
      ensures origin == s.source && size == s.size && vaddr == s.vaddr && align == s.align
    {
      origin, size, vaddr, align, place := s.source, s.size, s.vaddr, s.align, 0;
    }

    ghost function Wants(): Demand
      reads this
    {
      Demand(vaddr, align)
    }
  }

  predicate Contains(r: Region, offset: int, size: nat) {
    r.origin <= offset && offset + size <= r.origin + r.size
  }

  /** The first region that contains a stretch. */
  function RegionFor(regions: seq<Region>, offset: int, size: nat): (r: Region?)
    ensures r != null ==> r in regions && Contains(r, offset, size)
    ensures r == null ==> forall x :: x in regions ==> !Contains(x, offset, size)
  {
    if regions == [] then null
    else if Contains(regions[0], offset, size) then regions[0]
    else RegionFor(regions[1..], offset, size)
  }

  type LoadRegions = map<nat, Region>

  /** A load has its own region, a hosted segment its host's, any other the first that contains it. */
  function OutputRegion(segs: seq<Segment>, loads: LoadRegions, regions: seq<Region>, h: nat): Region?
    requires h < |segs|
  {
    var s := segs[h];
    var host := if s.kind == PT_LOAD then Some(h) else s.host;
    if host.Some? && host.value in loads then loads[host.value] else RegionFor(regions, s.source, s.size)
  }

  /** What a segment demands of the start of its region. */
  function DemandOn(r: Region, s: Segment): Demand { DemandFrom(r.origin, s) }

  // ----- collecting the regions

  /** Every load with bytes has its own region, and every other segment with bytes lies in some region. */
  ghost predicate Collected(segs: seq<Segment>, loads: LoadRegions, regions: seq<Region>, length: nat) {
    && Lists.Distinct(regions) && InContainer(regions, length)
    && (forall h: nat :: h in loads <==> h < |segs| && segs[h].kind == PT_LOAD && segs[h].size > 0)
    && (forall h ::
        h in loads ==> loads[h] in regions && loads[h].origin == segs[h].source && loads[h].size == segs[h].size)
    && Covered(segs, regions, |segs|)
  }

  ghost predicate Ordered(regions: seq<Region>) {
    forall i, j :: 0 <= i < j < |regions| ==> regions[i].origin <= regions[j].origin
  }

  /** The region is the stretch of the container that holds the bytes of a segment. */
  ghost predicate BytesOf(segs: seq<Segment>, r: Region, m: nat) {
    m < |segs| && segs[m].size > 0 && r.origin == segs[m].source && r.size == segs[m].size
  }

  /** The i-th region is the stretch that the i-th maker makes; a load's region is its own. */
  ghost predicate Made(segs: seq<Segment>, loads: LoadRegions, regions: seq<Region>, makers: seq<nat>) {
    && |makers| == |regions| && Among(segs, makers)
    && (forall i :: 0 <= i < |regions| ==> BytesOf(segs, regions[i], makers[i]))
    && (forall i :: 0 <= i < |regions| && makers[i] in loads ==> loads[makers[i]] == regions[i])
  }

  /** What a region demands at first is what the segment it was made for demands. */
  ghost predicate Unraised(segs: seq<Segment>, regions: seq<Region>, makers: seq<nat>)
    reads regions
  {
    && |makers| == |regions| && Among(segs, makers)
    && forall i :: 0 <= i < |regions| ==> regions[i].Wants() == DemandOn(regions[i], segs[makers[i]])
  }

  ghost predicate InContainer(regions: seq<Region>, length: nat) {
    forall r :: r in regions ==> r.size > 0 && 0 <= r.origin && r.origin + r.size <= length
  }

  lemma {:induction false} MadeMore(segs: seq<Segment>, loads: LoadRegions, regions: seq<Region>, makers: seq<nat>,
                                    region: Region, n: nat, loads': LoadRegions)
    requires Made(segs, loads, regions, makers) && BytesOf(segs, region, n) && n !in loads && n !in makers
    requires loads' == loads || loads' == loads[n := region]
    ensures Made(segs, loads', regions + [region], makers + [n])
  {
  }

  lemma {:induction false} UnraisedMore(segs: seq<Segment>, regions: seq<Region>, makers: seq<nat>, region: Region,
                                        n: nat)
    requires Unraised(segs, regions, makers)
    requires n < |segs| && segs[n].size > 0 && region.Wants() == DemandOn(region, segs[n])
    ensures Unraised(segs, regions + [region], makers + [n])
  {
  }

  lemma {:induction false} LoadMakersNext(segs: seq<Segment>, n: nat)
    requires n < |segs|
    ensures LoadMakers(segs, n + 1) == LoadMakers(segs, n) + if LoadWithBytes(segs[n]) then [n] else []
  {
  }

  lemma {:induction false} NothingMade(segs: seq<Segment>)
    ensures Made(segs, map[], [], LoadMakers(segs, 0)) && Unraised(segs, [], LoadMakers(segs, 0))
  {
  }

  method LoadRegionsOf(segs: seq<Segment>, length: nat) returns (regions: seq<Region>, loads: LoadRegions)
    requires forall h :: 0 <= h < |segs| ==> Inside(segs[h], length)
    ensures Lists.Distinct(regions) && InContainer(regions, length) && forall r :: r in regions ==> fresh(r)
    ensures Made(segs, loads, regions, LoadMakers(segs, |segs|)) && Unraised(segs, regions, LoadMakers(segs, |segs|))
    ensures forall h: nat :: h in loads <==> h < |segs| && segs[h].kind == PT_LOAD && segs[h].size > 0
    ensures forall h ::
        h in loads ==> loads[h] in regions && loads[h].origin == segs[h].source && loads[h].size == segs[h].size
  {
    hide Made, Unraised, LoadMakers;
    regions, loads := [], map[];
    NothingMade(segs);
    for n := 0 to |segs|
      invariant Lists.Distinct(regions) && InContainer(regions, length) && forall r :: r in regions ==> fresh(r)
      invariant Made(segs, loads, regions, LoadMakers(segs, n)) && Unraised(segs, regions, LoadMakers(segs, n))
      invariant forall h: nat :: h in loads <==> h < n && segs[h].kind == PT_LOAD && segs[h].size > 0
      invariant forall h ::
          h in loads ==> loads[h] in regions && loads[h].origin == segs[h].source && loads[h].size == segs[h].size
    {
      LoadMakersNext(segs, n);
      assert LoadMakers(segs, n) + [] == LoadMakers(segs, n);
      if segs[n].kind == PT_LOAD && segs[n].size > 0 {
        var region := new Region(segs[n]);
        MadeMore(segs, loads, regions, LoadMakers(segs, n), region, n, loads[n := region]);
        UnraisedMore(segs, regions, LoadMakers(segs, n), region, n);
        regions, loads := regions + [region], loads[n := region];
      }
    }
  }

  /** Every segment of the first n that has bytes and is no load lies in some region. */
  ghost predicate Covered(segs: seq<Segment>, regions: seq<Region>, n: nat)
    requires n <= |segs|
  {
    forall h ::
        0 <= h < n && segs[h].size > 0 && segs[h].kind != PT_LOAD ==>
            RegionFor(regions, segs[h].source, segs[h].size) != null
  }

  lemma {:induction false} StillCovered(segs: seq<Segment>, regions: seq<Region>, regions': seq<Region>, n: nat)
    requires n <= |segs| && Covered(segs, regions, n) && forall r :: r in regions ==> r in regions'
    ensures Covered(segs, regions', n)
  {
  }

  /** The first region that contains a segment is that of the first maker that holds it. */
  lemma {:induction false} RegionForIs(segs: seq<Segment>, loads: LoadRegions, regions: seq<Region>, makers: seq<nat>,
                                       s: Segment, i: nat)
    requires Made(segs, loads, regions, makers) && i <= |regions|
    ensures var first := FirstHolding(segs, makers, s, i);
            RegionFor(regions[i..], s.source, s.size) == if first.None? then null else regions[first.value]
    decreases |regions| - i
  {
    if i < |regions| {
      assert regions[i..][0] == regions[i] && regions[i..][1..] == regions[i + 1..];
      assert BytesOf(segs, regions[i], makers[i]);
      RegionForIs(segs, loads, regions, makers, s, i + 1);
    }
  }

  /** Whether the next segment makes a stretch of its own. */
  lemma {:induction false} MakersNext(segs: seq<Segment>, loads: LoadRegions, regions: seq<Region>, n: nat)
    requires n < |segs| && Made(segs, loads, regions, MakersAfter(segs, n))
    ensures var made := segs[n].kind != PT_LOAD && segs[n].size > 0
                && RegionFor(regions, segs[n].source, segs[n].size) == null;
            MakersAfter(segs, n + 1) == MakersAfter(segs, n) + if made then [n] else []
  {
    hide LoadMakers;
    RegionForIs(segs, loads, regions, MakersAfter(segs, n), segs[n], 0);
    assert regions[0..] == regions;
    assert MakersAfter(segs, n) + [] == MakersAfter(segs, n);
  }

  lemma {:induction false} NotMadeYet(segs: seq<Segment>, n: nat)
    requires n < |segs| && segs[n].kind != PT_LOAD
    ensures n !in MakersAfter(segs, n)
  {
    MakersOnce(segs, n);
  }

  method OtherRegionsOf(segs: seq<Segment>, length: nat, first: seq<Region>, ghost loads: LoadRegions)
    returns (regions: seq<Region>)
    requires forall h :: 0 <= h < |segs| ==> Inside(segs[h], length)
    requires Lists.Distinct(first) && InContainer(first, length)
    requires forall h: nat :: h in loads ==> h < |segs| && segs[h].kind == PT_LOAD
    requires Made(segs, loads, first, LoadMakers(segs, |segs|)) && Unraised(segs, first, LoadMakers(segs, |segs|))
    ensures Lists.Distinct(regions) && InContainer(regions, length)
    ensures Made(segs, loads, regions, MakersAfter(segs, |segs|)) && Unraised(segs, regions, MakersAfter(segs, |segs|))
    ensures forall r :: r in regions ==> r in first || fresh(r)
    ensures (forall r :: r in first ==> r in regions) && Covered(segs, regions, |segs|)
  {
    hide Made, Unraised, LoadMakers, MakersAfter;
    regions := first;
    MakersStart(segs);
    for n := 0 to |segs|
      invariant Lists.Distinct(regions) && InContainer(regions, length)
      invariant Made(segs, loads, regions, MakersAfter(segs, n)) && Unraised(segs, regions, MakersAfter(segs, n))
      invariant forall r :: r in regions ==> r in first || fresh(r)
      invariant (forall r :: r in first ==> r in regions) && Covered(segs, regions, n)
    {
      MakersNext(segs, loads, regions, n);
      assert MakersAfter(segs, n) + [] == MakersAfter(segs, n);
      if segs[n].kind == PT_LOAD || segs[n].size == 0 {
        continue;
      }
      if RegionFor(regions, segs[n].source, segs[n].size) == null {
        var region := new Region(segs[n]);
        StillCovered(segs, regions, regions + [region], n);
        NotMadeYet(segs, n);
        MadeMore(segs, loads, regions, MakersAfter(segs, n), region, n, loads);
        UnraisedMore(segs, regions, MakersAfter(segs, n), region, n);
        regions := regions + [region];
        assert region in regions && Contains(region, segs[n].source, segs[n].size);
      }
    }
  }

  method CollectRegions(segs: seq<Segment>, length: nat) returns (regions: seq<Region>, loads: LoadRegions)
    requires forall h :: 0 <= h < |segs| ==> Inside(segs[h], length)
    ensures Collected(segs, loads, regions, length) && Ordered(regions) && forall r :: r in regions ==> fresh(r)
    ensures Made(segs, loads, regions, Makers(segs)) && Unraised(segs, regions, Makers(segs))
  {
    hide Made, Unraised, MakersAfter, LoadMakers;
    regions, loads := LoadRegionsOf(segs, length);
    ghost var first := regions;
    regions := OtherRegionsOf(segs, length, regions, loads);
    ghost var collected := regions;
    regions := SortRegions(regions);
    SortedIsCollected(segs, loads, first, collected, regions, length);
    SortedIsMade(segs, loads, collected, regions);
  }

  lemma {:induction false} SortedIsMade(segs: seq<Segment>, loads: LoadRegions, collected: seq<Region>,
                                        sorted: seq<Region>)
    requires Made(segs, loads, collected, MakersAfter(segs, |segs|))
    requires Unraised(segs, collected, MakersAfter(segs, |segs|)) && IsSorted(collected, sorted)
    ensures Made(segs, loads, sorted, Makers(segs)) && Unraised(segs, sorted, Makers(segs))
  {
    hide MakersAfter, Order;
    var before := MakersAfter(segs, |segs|);
    assert Origins(collected) == Sources(segs, before) by {
      forall i | 0 <= i < |collected| ensures collected[i].origin == segs[before[i]].source {
        assert BytesOf(segs, collected[i], before[i]);
      }
    }
    OrderIsPermutation(Origins(collected));
  }

  lemma {:induction false} SortedIsCollected(segs: seq<Segment>, loads: LoadRegions, first: seq<Region>,
                                             collected: seq<Region>, sorted: seq<Region>, length: nat)
    requires forall h: nat :: h in loads <==> h < |segs| && segs[h].kind == PT_LOAD && segs[h].size > 0
    requires forall h ::
        h in loads ==> loads[h] in first && loads[h].origin == segs[h].source && loads[h].size == segs[h].size
    requires forall r :: r in first ==> r in collected
    requires InContainer(collected, length) && Covered(segs, collected, |segs|)
    requires Lists.Distinct(sorted) && forall r :: r in sorted <==> r in collected
    ensures Collected(segs, loads, sorted, length)
  {
    StillCovered(segs, collected, sorted, |segs|);
  }

  function Origins(regions: seq<Region>): (r: seq<int>)
    ensures |r| == |regions| && forall i :: 0 <= i < |r| ==> r[i] == regions[i].origin
  {
    seq(|regions|, i requires 0 <= i < |regions| => regions[i].origin)
  }

  ghost predicate IsSorted(regions: seq<Region>, sorted: seq<Region>) {
    && |sorted| == |regions|
    && forall k :: 0 <= k < |sorted| ==>
         var at := Order(Origins(regions))[k].at; at < |regions| && sorted[k] == regions[at]
  }

  /** Sorts by the place in the container. */
  method SortRegions(regions: seq<Region>) returns (sorted: seq<Region>)
    requires Lists.Distinct(regions)
    ensures Ordered(sorted) && |sorted| == |regions| && Lists.Distinct(sorted) && IsSorted(regions, sorted)
    ensures forall r :: r in sorted <==> r in regions
  {
    hide Order;
    var keys := Origins(regions);
    OrderIsPermutation(keys);
    sorted := seq(|regions|, k requires 0 <= k < |regions| => regions[Order(keys)[k].at]);
    forall r | r in regions ensures r in sorted {
      var i :| 0 <= i < |regions| && regions[i] == r;
      assert Ranked(keys[i], i) in Order(keys);
      var k :| 0 <= k < |keys| && Order(keys)[k] == Ranked(keys[i], i);
      assert sorted[k] == r;
    }
  }

  // ----- the demands of a region's segments

  lemma {:induction false} OutputRegionIsOne(segs: seq<Segment>, loads: LoadRegions, regions: seq<Region>, length: nat,
                                             h: nat)
    requires Collected(segs, loads, regions, length) && h < |segs|
    ensures OutputRegion(segs, loads, regions, h) == null || OutputRegion(segs, loads, regions, h) in regions
    ensures segs[h].size > 0 ==> OutputRegion(segs, loads, regions, h) != null
  {
  }

  /** The segment is placed with the region. */
  ghost predicate GoesWith(segs: seq<Segment>, loads: LoadRegions, regions: seq<Region>, h: nat, r: Region)
    requires h < |segs|
  {
    TakesPart(segs[h]) && OutputRegion(segs, loads, regions, h) == r
  }

  /** Starting the region at x suits the first n segments placed with it. */
  ghost predicate Suits(segs: seq<Segment>, loads: LoadRegions, regions: seq<Region>, r: Region, n: nat, x: int)
    requires n <= |segs|
  {
    forall h :: 0 <= h < n && GoesWith(segs, loads, regions, h, r) ==> Meets(x, DemandOn(r, segs[h]))
  }

  /** What the region wants is met exactly by the offsets that meet its first demand and suit the first n segments. */
  ghost predicate Balanced(segs: seq<Segment>, loads: LoadRegions, regions: seq<Region>, r: Region, n: nat,
                           first: Demand, now: Demand)
    requires n <= |segs|
  {
    forall x: int :: Meets(x, now) <==> Meets(x, first) && Suits(segs, loads, regions, r, n, x)
  }

  lemma {:induction false} SuitsNext(segs: seq<Segment>, loads: LoadRegions, regions: seq<Region>, r: Region, n: nat,
                                     x: int)
    requires n < |segs|
    ensures Suits(segs, loads, regions, r, n + 1, x)
            <==>
                Suits(segs, loads, regions, r, n, x) && (GoesWith(segs, loads, regions, n, r) ==>
                    Meets(x, DemandOn(r, segs[n])))
  {
  }

  /** A region that takes in the next segment's demand stays balanced. */
  lemma {:induction false} BalancedByTaking(segs: seq<Segment>, loads: LoadRegions, regions: seq<Region>, r: Region,
                                            n: nat, first: Demand, now: Demand, next: Demand)
    requires n < |segs| && Balanced(segs, loads, regions, r, n, first, now)
    requires GoesWith(segs, loads, regions, n, r) && Take(now, DemandOn(r, segs[n])) == Merged(next)
    ensures Balanced(segs, loads, regions, r, n + 1, first, next)
  {
    forall x: int ensures Meets(x, next) <==> Meets(x, first) && Suits(segs, loads, regions, r, n + 1, x) {
      TakeIsExact(now, DemandOn(r, segs[n]), x);
      SuitsNext(segs, loads, regions, r, n, x);
    }
  }

  lemma {:induction false} BalancedBySkipping(segs: seq<Segment>, loads: LoadRegions, regions: seq<Region>, r: Region,
                                              n: nat, first: Demand, now: Demand)
    requires n < |segs| && Balanced(segs, loads, regions, r, n, first, now) && !GoesWith(segs, loads, regions, n, r)
    ensures Balanced(segs, loads, regions, r, n + 1, first, now)
  {
    forall x: int ensures Meets(x, now) <==> Meets(x, first) && Suits(segs, loads, regions, r, n + 1, x) {
      SuitsNext(segs, loads, regions, r, n, x);
    }
  }

  /** No start of the region meets its first demand and suits the first n segments. */
  ghost predicate Hopeless(segs: seq<Segment>, loads: LoadRegions, regions: seq<Region>, r: Region, n: nat,
                           first: Demand)
    requires n <= |segs|
  {
    forall x: int :: !(Meets(x, first) && Suits(segs, loads, regions, r, n, x))
  }

  /** A clash means that no start at all suits the region's segments any more. */
  lemma {:induction false} ClashIsHopeless(segs: seq<Segment>, loads: LoadRegions, regions: seq<Region>, r: Region,
                                           n: nat, first: Demand, now: Demand)
    requires n < |segs| && Balanced(segs, loads, regions, r, n, first, now)
    requires GoesWith(segs, loads, regions, n, r) && Take(now, DemandOn(r, segs[n])).Clash?
    ensures Hopeless(segs, loads, regions, r, n + 1, first)
  {
    forall x: int ensures !(Meets(x, first) && Suits(segs, loads, regions, r, n + 1, x)) {
      TakeIsExact(now, DemandOn(r, segs[n]), x);
      SuitsNext(segs, loads, regions, r, n, x);
    }
  }

  ghost predicate AllBalanced(segs: seq<Segment>, loads: LoadRegions, regions: seq<Region>, n: nat,
                              first: map<Region, Demand>)
    requires n <= |segs|
    reads regions
  {
    forall r :: r in regions ==> r in first && Balanced(segs, loads, regions, r, n, first[r], r.Wants())
  }

  // ----- what the segments alone say of it

  /** The first demands are those of the makers. */
  ghost predicate FirstDemands(segs: seq<Segment>, regions: seq<Region>, first: map<Region, Demand>) {
    && |regions| == |Makers(segs)|
    && forall i :: 0 <= i < |regions| ==>
         regions[i] in first && first[regions[i]] == DemandFrom(segs[Makers(segs)[i]].source, segs[Makers(segs)[i]])
  }

  /** A segment goes with the region of its home. */
  lemma {:induction false} HomeIsRegion(segs: seq<Segment>, loads: LoadRegions, regions: seq<Region>, length: nat,
                                        h: nat)
    requires Collected(segs, loads, regions, length) && Made(segs, loads, regions, Makers(segs)) && h < |segs|
    ensures var home := Home(segs, Makers(segs), h);
            OutputRegion(segs, loads, regions, h) == if home.None? then null else regions[home.value]
  {
    hide Makers, Made, Collected, RegionFor, FirstHolding, IndexOf;
    MakersAre(segs);
    RegionForIs(segs, loads, regions, Makers(segs), segs[h], 0);
    assert regions[0..] == regions;
    var host := if segs[h].kind == PT_LOAD then Some(h) else segs[h].host;
    if host.Some? { HomeOfLoad(segs, loads, regions, length, host.value); }
  }

  lemma {:induction false} HomeOfLoad(segs: seq<Segment>, loads: LoadRegions, regions: seq<Region>, length: nat, m: nat)
    requires Collected(segs, loads, regions, length) && Made(segs, loads, regions, Makers(segs))
    ensures m in loads <==> m < |segs| && LoadWithBytes(segs[m])
    ensures m in loads ==>
        var i := IndexOf(Makers(segs), m, 0); i.Some? && i.value < |regions| && regions[i.value] == loads[m]
  {
    hide Makers, Covered, InContainer, Among, BytesOf, Held, Lists.Distinct;
    MakersAre(segs);
  }

  lemma {:induction false} GoesHome(segs: seq<Segment>, loads: LoadRegions, regions: seq<Region>, length: nat, h: nat,
                                    i: nat)
    requires Collected(segs, loads, regions, length) && Made(segs, loads, regions, Makers(segs)) && h < |segs|
    requires i < |regions|
    ensures |Makers(segs)| == |regions|
    ensures GoesWith(segs, loads, regions, h, regions[i])
            <==> TakesPart(segs[h]) && Home(segs, Makers(segs), h) == Some(i)
  {
    hide OutputRegion, Home, TakesPart, Makers, Covered, InContainer;
    HomeIsRegion(segs, loads, regions, length, h);
  }

  /** The starts that suit a region are those that suit its stretch. */
  lemma {:induction false} SuitsAlike(segs: seq<Segment>, loads: LoadRegions, regions: seq<Region>, length: nat,
                                      first: map<Region, Demand>, i: nat, n: nat, x: int)
    requires Collected(segs, loads, regions, length) && Made(segs, loads, regions, Makers(segs))
    requires FirstDemands(segs, regions, first) && i < |regions| && n <= |segs|
    ensures Meets(x, first[regions[i]]) && Suits(segs, loads, regions, regions[i], n, x)
            <==> SuitsFirst(segs, Makers(segs), i, n, x)
  {
    hide GoesWith, Home, Collected, Makers, Meets, TakesPart;
    assert BytesOf(segs, regions[i], Makers(segs)[i]);
    forall h | 0 <= h < n
      ensures GoesWith(segs, loads, regions, h, regions[i])
              <==> TakesPart(segs[h]) && Home(segs, Makers(segs), h) == Some(i)
    {
      GoesHome(segs, loads, regions, length, h, i);
    }
  }

  /** What a region wants is met exactly by the starts that suit its stretch. */
  lemma {:induction false} WantsAre(segs: seq<Segment>, loads: LoadRegions, regions: seq<Region>, length: nat,
                                    first: map<Region, Demand>, i: nat, n: nat, wants: Demand)
    requires Collected(segs, loads, regions, length) && Made(segs, loads, regions, Makers(segs))
    requires FirstDemands(segs, regions, first) && i < |regions| && n <= |segs|
    requires Balanced(segs, loads, regions, regions[i], n, first[regions[i]], wants)
    ensures forall x: int :: Meets(x, wants) <==> SuitsFirst(segs, Makers(segs), i, n, x)
  {
    hide Collected, Made, FirstDemands, SuitsFirst, Suits, Makers, Meets;
    MadeParts(segs, loads, regions, first);
    forall x: int ensures Meets(x, wants) <==> SuitsFirst(segs, Makers(segs), i, n, x) {
      SuitsAlike(segs, loads, regions, length, first, i, n, x);
    }
  }

  lemma {:induction false} MadeParts(segs: seq<Segment>, loads: LoadRegions, regions: seq<Region>,
                                     first: map<Region, Demand>)
    requires Made(segs, loads, regions, Makers(segs)) && FirstDemands(segs, regions, first)
    ensures |Makers(segs)| == |regions| && forall i :: 0 <= i < |regions| ==> regions[i] in first
  {
    hide Makers;
  }

  /** As long as the regions are balanced, every stretch has a start left. */
  lemma {:induction false} NotStuckYet(segs: seq<Segment>, loads: LoadRegions, regions: seq<Region>, length: nat,
                                       first: map<Region, Demand>, n: nat, g: nat)
    requires Collected(segs, loads, regions, length) && Made(segs, loads, regions, Makers(segs))
    requires FirstDemands(segs, regions, first) && n <= |segs| && AllBalanced(segs, loads, regions, n, first) && g < n
    ensures !Stuck(segs, g)
  {
    hide Collected, Made, FirstDemands, SuitsFirst, Balanced, Makers, Home, Meets, HasStart, Next;
    MadeParts(segs, loads, regions, first);
    var home := Home(segs, Makers(segs), g);
    if home.Some? {
      var r := regions[home.value];
      WantsAre(segs, loads, regions, length, first, home.value, n, r.Wants());
      NextIsLeast(0, r.Wants());
      SuitedIsNotStuck(segs, g, n, Next(0, r.Wants()));
    }
  }

  lemma {:induction false} HopelessIsStuck(segs: seq<Segment>, loads: LoadRegions, regions: seq<Region>, length: nat,
                                           first: map<Region, Demand>, h: nat)
    requires Collected(segs, loads, regions, length) && Made(segs, loads, regions, Makers(segs))
    requires FirstDemands(segs, regions, first) && h < |segs| && TakesPart(segs[h])
    requires var r := OutputRegion(segs, loads, regions, h);
             r != null && r in first && Hopeless(segs, loads, regions, r, h + 1, first[r])
    ensures Stuck(segs, h)
  {
    hide Collected, Made, FirstDemands, SuitsFirst, Suits, Makers, Home, Meets, OutputRegion, TakesPart;
    MadeParts(segs, loads, regions, first);
    HomeIsRegion(segs, loads, regions, length, h);
    var i := Home(segs, Makers(segs), h).value;
    var n := h + 1;
    forall x: int ensures !SuitsFirst(segs, Makers(segs), i, n, x) {
      SuitsAlike(segs, loads, regions, length, first, i, n, x);
    }
  }

  // ----- two segments that cannot both be served

  ghost predicate Speaks(segs: seq<Segment>, r: Region, g: nat, now: Demand) {
    g < |segs| && Contains(r, segs[g].source, segs[g].size) && now == DemandOn(r, segs[g])
  }

  /** The region holds a segment's bytes, and the demand is that of one of the segments inside it. */
  ghost predicate Spoken(segs: seq<Segment>, r: Region, now: Demand) {
    (exists g: nat :: Speaks(segs, r, g, now)) && exists m: nat :: BytesOf(segs, r, m)
  }

  ghost predicate AllSpoken(segs: seq<Segment>, regions: seq<Region>)
    reads regions
  {
    forall r :: r in regions ==> Spoken(segs, r, r.Wants())
  }

  /** Segments g and h lie in the bytes of segment m, and no start of those bytes would suit both of them. */
  ghost predicate Clash(segs: seq<Segment>, g: nat, h: nat, m: nat) {
    && g < |segs| && h < |segs| && m < |segs| && segs[m].size > 0 && Within(segs[g], segs[m])
        && Within(segs[h], segs[m])
    && forall x: int ::
        !(Meets(x, DemandFrom(segs[m].source, segs[g])) && Meets(x, DemandFrom(segs[m].source, segs[h])))
  }

  /** A region contains every segment that is placed with it. */
  lemma {:induction false} GoesInside(segs: seq<Segment>, loads: LoadRegions, regions: seq<Region>, length: nat, h: nat)
    requires Collected(segs, loads, regions, length) && HostsHold(segs) && h < |segs|
    requires TakesPart(segs[h]) && OutputRegion(segs, loads, regions, h) != null
    ensures Contains(OutputRegion(segs, loads, regions, h), segs[h].source, segs[h].size)
  {
    if segs[h].host.Some? && segs[h].host.value in loads {
      assert Hosted(segs, h, segs[h].host.value);
    }
  }

  ghost predicate Clashes(segs: seq<Segment>, h: nat) {
    exists g: nat, m: nat :: Clash(segs, g, h, m)
  }

  lemma {:induction false} SpokenClash(segs: seq<Segment>, r: Region, h: nat, now: Demand)
    requires h < |segs| && Spoken(segs, r, now) && Contains(r, segs[h].source, segs[h].size)
    requires Take(now, DemandOn(r, segs[h])).Clash?
    ensures Clashes(segs, h)
  {
    var g: nat :| Speaks(segs, r, g, now);
    var m: nat :| BytesOf(segs, r, m);
    forall x: int ensures !(Meets(x, now) && Meets(x, DemandOn(r, segs[h]))) {
      TakeIsExact(now, DemandOn(r, segs[h]), x);
    }
    assert Clash(segs, g, h, m);
  }

  lemma {:induction false} TakenIsSpoken(segs: seq<Segment>, r: Region, h: nat, now: Demand, next: Demand)
    requires h < |segs| && Spoken(segs, r, now) && Contains(r, segs[h].source, segs[h].size)
    requires Take(now, DemandOn(r, segs[h])) == Merged(next)
    ensures Spoken(segs, r, next)
  {
    assert Speaks(segs, r, h, DemandOn(r, segs[h]));
  }

  /** Lets the region of one segment take in its demand. */
  method TakeSegment(segs: seq<Segment>, loads: LoadRegions, regions: seq<Region>, h: nat, ghost length: nat,
                     ghost first: map<Region, Demand>)
    returns (ok: bool)
    requires h < |segs| && Collected(segs, loads, regions, length) && AllBalanced(segs, loads, regions, h, first)
    requires HostsHold(segs) && AllSpoken(segs, regions)
    requires Made(segs, loads, regions, Makers(segs)) && FirstDemands(segs, regions, first)
    modifies regions
    ensures ok ==> AllBalanced(segs, loads, regions, h + 1, first) && AllSpoken(segs, regions)
    ensures !ok ==> Clashes(segs, h) && FirstStuck(segs, h)
  {
    hide Balanced, Spoken, Clashes, HostsHold, Contains, InContainer, Covered, Made, FirstDemands, Makers, Stuck;
    OutputRegionIsOne(segs, loads, regions, length, h);
    var s := segs[h];
    var region := OutputRegion(segs, loads, regions, h);
    if !TakesPart(s) || region == null {
      forall r | r in regions ensures Balanced(segs, loads, regions, r, h + 1, first[r], r.Wants()) {
        BalancedBySkipping(segs, loads, regions, r, h, first[r], r.Wants());
      }
      return true;
    }
    ghost var wants := map r | r in regions :: r.Wants();
    GoesInside(segs, loads, regions, length, h);
    var taken := Take(Demand(region.vaddr, region.align), DemandOn(region, s));
    if taken.Clash? {
      ClashIsHopeless(segs, loads, regions, region, h, first[region], wants[region]);
      HopelessIsStuck(segs, loads, regions, length, first, h);
      forall g | 0 <= g < h ensures !Stuck(segs, g) {
        NotStuckYet(segs, loads, regions, length, first, h, g);
      }
      SpokenClash(segs, region, h, wants[region]);
      return false;
    }
    TakenIsSpoken(segs, region, h, wants[region], taken.demand);
    region.vaddr, region.align := taken.demand.address, taken.demand.align;
    forall r | r in regions ensures Balanced(segs, loads, regions, r, h + 1, first[r], r.Wants()) {
      if r == region {
        BalancedByTaking(segs, loads, regions, r, h, first[r], wants[r], r.Wants());
      } else {
        BalancedBySkipping(segs, loads, regions, r, h, first[r], wants[r]);
      }
    }
    ok := true;
  }

  /**
    Collects the demands of all segments in their regions. Afterwards each region wants exactly the starts that
    suit all its segments; it refuses at the first segment with which some region has no such start.
   */
  method CollectDemands(segs: seq<Segment>, loads: LoadRegions, regions: seq<Region>, ghost length: nat,
                        ghost first: map<Region, Demand>)
    returns (r: Result<()>)
    requires Collected(segs, loads, regions, length)
    requires forall r :: r in regions ==> r in first && first[r] == r.Wants()
    requires HostsHold(segs) && AllSpoken(segs, regions)
    requires Made(segs, loads, regions, Makers(segs)) && FirstDemands(segs, regions, first)
    modifies regions
    ensures r.Ok? ==> AllBalanced(segs, loads, regions, |segs|, first) && AllSpoken(segs, regions)
    ensures r.Refused? ==>
        exists h :: 0 <= h < |segs| && Clashes(segs, h) && FirstStuck(segs, h)
                    && r.why == IncompatibleAlignment(segs[h].index)
  {
    hide Made, FirstDemands, Makers, FirstStuck, Clashes;
    for h := 0 to |segs|
      invariant AllBalanced(segs, loads, regions, h, first) && AllSpoken(segs, regions)
    {
      var ok := TakeSegment(segs, loads, regions, h, length, first);
      if !ok {
        return Refused(IncompatibleAlignment(segs[h].index));
      }
    }
    r := Ok(());
  }

  // ----- laying the regions out

  /** A region as laid out: where its bytes were, how many they are, what it wants and where it starts. */
  datatype Stretch = Stretch(origin: int, size: nat, wants: Demand, place: int)

  function EndBefore(stretches: seq<Stretch>, start: nat, i: nat): int
    requires i <= |stretches|
  {
    if i == 0 then start else stretches[i - 1].place + stretches[i - 1].size
  }

  /** Each stretch starts at the first offset it wants after the one before it, the first one after `start`. */
  ghost predicate Laid(stretches: seq<Stretch>, start: nat) {
    forall i :: 0 <= i < |stretches| ==> StartsWhereWanted(stretches, start, i)
  }

  ghost predicate StartsWhereWanted(stretches: seq<Stretch>, start: nat, i: nat)
    requires i < |stretches|
  {
    stretches[i].place == Next(EndBefore(stretches, start, i), stretches[i].wants)
  }

  ghost predicate Describes(s: Stretch, r: Region)
    reads r
  {
    s == Stretch(r.origin, r.size, r.Wants(), r.place)
  }

  function TotalSize(stretches: seq<Stretch>): nat {
    if stretches == [] then 0 else TotalSize(stretches[..|stretches| - 1]) + stretches[|stretches| - 1].size
  }

  lemma {:induction false} LaidNext(stretches: seq<Stretch>, start: nat, s: Stretch)
    requires Laid(stretches, start) && s.place == Next(EndBefore(stretches, start, |stretches|), s.wants)
    ensures Laid(stretches + [s], start) && EndBefore(stretches + [s], start, |stretches| + 1) == s.place + s.size
    ensures TotalSize(stretches + [s]) == TotalSize(stretches) + s.size
  {
    assert (stretches + [s])[..|stretches|] == stretches;
    forall i | 0 <= i <= |stretches| ensures StartsWhereWanted(stretches + [s], start, i) {
      assert EndBefore(stretches + [s], start, i) == EndBefore(stretches, start, i);
      if i < |stretches| { assert StartsWhereWanted(stretches, start, i); }
    }
  }

  method LayOut(regions: seq<Region>, start: nat) returns (cursor: int, padding: int, stretches: seq<Stretch>)
    requires Lists.Distinct(regions)
    modifies regions
    ensures |stretches| == |regions| && forall i :: 0 <= i < |regions| ==> Describes(stretches[i], regions[i])
    ensures Laid(stretches, start) && cursor == EndBefore(stretches, start, |stretches|)
    ensures padding == cursor - start - TotalSize(stretches)
    ensures forall i :: 0 <= i < |regions| ==> regions[i].Wants() == old(regions[i].Wants())
  {
    cursor, padding, stretches := start, 0, [];
    for n := 0 to |regions|
      invariant |stretches| == n && forall i :: 0 <= i < n ==> Describes(stretches[i], regions[i])
      invariant Laid(stretches, start) && cursor == EndBefore(stretches, start, n)
      invariant padding == cursor - start - TotalSize(stretches)
      invariant forall i :: 0 <= i < |regions| ==> regions[i].Wants() == old(regions[i].Wants())
    {
      var region := regions[n];
      var placed := Next(cursor, Demand(region.vaddr, region.align));
      padding := padding + (placed - cursor);
      region.place := placed;
      cursor := placed + region.size;
      var stretch := Stretch(region.origin, region.size, Demand(region.vaddr, region.align), placed);
      LaidNext(stretches, start, stretch);
      stretches := stretches + [stretch];
    }
  }

  lemma {:induction false} LaidAt(stretches: seq<Stretch>, start: nat, i: nat)
    requires Laid(stretches, start) && i < |stretches|
    ensures EndBefore(stretches, start, i) <= stretches[i].place && Meets(stretches[i].place, stretches[i].wants)
    ensures EndBefore(stretches, start, i + 1) == stretches[i].place + stretches[i].size
  {
    assert StartsWhereWanted(stretches, start, i);
    NextIsLeast(EndBefore(stretches, start, i), stretches[i].wants);
  }

  lemma {:induction false} EndsGrow(stretches: seq<Stretch>, start: nat, i: nat, j: nat)
    requires Laid(stretches, start) && i <= j <= |stretches|
    ensures EndBefore(stretches, start, i) <= EndBefore(stretches, start, j)
  {
    if i < j {
      EndsGrow(stretches, start, i, j - 1);
      LaidAt(stretches, start, j - 1);
    }
  }

  /** Stretches follow one another without overlap, from `start` on, each where it wants to be. */
  lemma {:induction false} LaidInOrder(stretches: seq<Stretch>, start: nat, i: nat, j: nat)
    requires Laid(stretches, start) && i < j <= |stretches|
    ensures start <= stretches[i].place && stretches[i].place + stretches[i].size <= EndBefore(stretches, start, j)
    ensures j < |stretches| ==> stretches[i].place + stretches[i].size <= stretches[j].place
    ensures Meets(stretches[i].place, stretches[i].wants)
  {
    EndsGrow(stretches, start, 0, i);
    LaidAt(stretches, start, i);
    EndsGrow(stretches, start, i + 1, j);
    if j < |stretches| { LaidAt(stretches, start, j); }
  }

  /** Another way of putting the stretches in the same order, each where it wants to be. */
  ghost predicate InOrder(stretches: seq<Stretch>, start: nat, places: seq<int>) {
    && |places| == |stretches|
    && forall k :: 0 <= k < |places| ==> Follows(stretches, start, places, k)
  }

  ghost predicate Follows(stretches: seq<Stretch>, start: nat, places: seq<int>, k: nat)
    requires k < |places| == |stretches|
  {
    Meets(places[k], stretches[k].wants) && (if k == 0 then start else places[k - 1] + stretches[k - 1].size)
        <= places[k]
  }

  /** No stretch could start earlier: the layout pads as little as the demands and the order allow. */
  lemma {:induction false} LaidIsTightest(stretches: seq<Stretch>, start: nat, places: seq<int>, i: nat)
    requires Laid(stretches, start) && InOrder(stretches, start, places) && i < |stretches|
    ensures stretches[i].place <= places[i]
  {
    if i > 0 { LaidIsTightest(stretches, start, places, i - 1); }
    assert StartsWhereWanted(stretches, start, i) && Follows(stretches, start, places, i);
    NextIsLeast(EndBefore(stretches, start, i), stretches[i].wants);
  }
}
