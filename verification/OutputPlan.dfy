/**
  Which stretches of a container its segments give, which stretch each segment goes with, and which starts of a
  stretch suit the segments that go with it: told from the segments alone.
 */
module OutputPlan {
  import opened Options
  import Lists
  import opened ElfFormat
  import opened Sorting
  import opened SegmentPlacement
  import opened Alignment

  /** Segments without bytes and without a place take no part in the layout. */
  predicate TakesPart(s: Segment) {
    !(s.size == 0 && (s.kind == PT_LOAD || s.source == 0))
  }

  /** What a segment demands of the start of a stretch that begins at `origin` in the container. */
  function DemandFrom(origin: int, s: Segment): Demand {
    Demand(s.vaddr - (s.source - origin), s.align)
  }

  predicate Within(s: Segment, whole: Segment) {
    whole.source <= s.source && s.source + s.size <= whole.source + whole.size
  }

  predicate LoadWithBytes(s: Segment) { s.kind == PT_LOAD && s.size > 0 }

  /** The positions of a list of numbers, by increasing number; equal numbers keep their order. */
  function Order(keys: seq<int>): (r: seq<Ranked>)
    ensures |r| == |keys|
  {
    SortBy(seq(|keys|, i requires 0 <= i < |keys| => Ranked(keys[i], i)), BY_KEY)
  }

  lemma {:induction false} OrderIsPermutation(keys: seq<int>)
    ensures forall k :: 0 <= k < |keys| ==> Order(keys)[k].at < |keys| && Order(keys)[k].key == keys[Order(keys)[k].at]
    ensures forall k, l ::
        0 <= k < l < |keys| ==> Order(keys)[k].at != Order(keys)[l].at && Order(keys)[k].key <= Order(keys)[l].key
    ensures forall i :: 0 <= i < |keys| ==> Ranked(keys[i], i) in Order(keys)
  {
    var numbered := seq(|keys|, i requires 0 <= i < |keys| => Ranked(keys[i], i));
    var order := Order(keys);
    SortBySorted(numbered, BY_KEY);
    SortByDistinct(numbered, BY_KEY);
    forall k | 0 <= k < |keys| ensures order[k].at < |keys| && order[k].key == keys[order[k].at] {
      SortByMembers(numbered, BY_KEY, order[k]);
    }
    forall i | 0 <= i < |keys| ensures Ranked(keys[i], i) in order {
      SortByMembers(numbered, BY_KEY, Ranked(keys[i], i));
      assert numbered[i] in numbered;
    }
  }

  // ----- the segments that stretches are made for

  /** The makers are segments, and have bytes. */
  predicate Among(segs: seq<Segment>, makers: seq<nat>) {
    forall i :: 0 <= i < |makers| ==> makers[i] < |segs| && segs[makers[i]].size > 0
  }

  function LoadMakers(segs: seq<Segment>, n: nat): (r: seq<nat>)
    requires n <= |segs|
    ensures Among(segs, r) && forall m: nat :: m in r <==> m < n && LoadWithBytes(segs[m])
  {
    if n == 0 then [] else LoadMakers(segs, n - 1) + if LoadWithBytes(segs[n - 1]) then [n - 1] else []
  }

  /** The first maker from the i-th on whose bytes hold the segment. */
  function FirstHolding(segs: seq<Segment>, makers: seq<nat>, s: Segment, i: nat): (r: Option<nat>)
    requires Among(segs, makers) && i <= |makers|
    ensures r.Some? ==> i <= r.value < |makers| && Within(s, segs[makers[r.value]])
    ensures forall k :: i <= k < |makers| && (r.None? || k < r.value) ==> !Within(s, segs[makers[k]])
    decreases |makers| - i
  {
    if i == |makers| then None
    else if Within(s, segs[makers[i]]) then Some(i)
    else FirstHolding(segs, makers, s, i + 1)
  }

  /** Every load with bytes; and of the others with bytes among the first n, those that no maker so far holds. */
  function MakersAfter(segs: seq<Segment>, n: nat): (r: seq<nat>)
    requires n <= |segs|
    ensures Among(segs, r)
  {
    if n == 0 then LoadMakers(segs, |segs|)
    else
      var makers, s := MakersAfter(segs, n - 1), segs[n - 1];
      if s.kind == PT_LOAD || s.size == 0 || FirstHolding(segs, makers, s, 0).Some? then makers else makers + [n - 1]
  }

  function Sources(segs: seq<Segment>, makers: seq<nat>): (r: seq<int>)
    requires Among(segs, makers)
    ensures |r| == |makers| && forall i :: 0 <= i < |r| ==> r[i] == segs[makers[i]].source
  {
    seq(|makers|, i requires 0 <= i < |makers| => segs[makers[i]].source)
  }

  /** The segments that stretches are made for, by their place in the container. */
  function Makers(segs: seq<Segment>): (r: seq<nat>)
    ensures Among(segs, r)
  {
    var makers := MakersAfter(segs, |segs|);
    var order := Order(Sources(segs, makers));
    OrderIsPermutation(Sources(segs, makers));
    seq(|makers|, k requires 0 <= k < |makers| => makers[order[k].at])
  }

  lemma {:induction false} MakersOnce(segs: seq<Segment>, n: nat)
    requires n <= |segs|
    ensures Lists.Distinct(MakersAfter(segs, n))
    ensures forall m :: m in MakersAfter(segs, n) ==> m < n || LoadWithBytes(segs[m])
  {
    hide MakersAfter, LoadMakers;
    if n == 0 {
      MakersStart(segs);
      LoadMakersOnce(segs, |segs|);
    } else {
      MakersOnce(segs, n - 1);
      MakersStep(segs, n);
    }
  }

  lemma {:induction false} MakersStep(segs: seq<Segment>, n: nat)
    requires 0 < n <= |segs|
    ensures var before := MakersAfter(segs, n - 1);
            MakersAfter(segs, n) == before
            || (segs[n - 1].kind != PT_LOAD && MakersAfter(segs, n) == before + [n - 1])
  {
  }

  lemma {:induction false} LoadMakersOnce(segs: seq<Segment>, n: nat)
    requires n <= |segs|
    ensures Lists.Distinct(LoadMakers(segs, n))
  {
    if n > 0 { LoadMakersOnce(segs, n - 1); }
  }

  predicate Held(segs: seq<Segment>, makers: seq<nat>, s: Segment)
    requires Among(segs, makers)
  {
    FirstHolding(segs, makers, s, 0).Some?
  }

  lemma {:induction false} HeldBy(segs: seq<Segment>, makers: seq<nat>, s: Segment, m: nat)
    requires Among(segs, makers) && m in makers && Within(s, segs[m])
    ensures Held(segs, makers, s)
  {
    var i :| 0 <= i < |makers| && makers[i] == m;
  }

  /** What is held stays held by any list that has the same makers. */
  lemma {:induction false} StillHeld(segs: seq<Segment>, makers: seq<nat>, more: seq<nat>, s: Segment)
    requires Among(segs, makers) && Among(segs, more) && (forall m :: m in makers ==> m in more)
    requires Held(segs, makers, s)
    ensures Held(segs, more, s)
  {
    HeldBy(segs, more, s, makers[FirstHolding(segs, makers, s, 0).value]);
  }

  lemma {:induction false} MakersHold(segs: seq<Segment>, n: nat)
    requires n <= |segs|
    ensures forall m: nat :: m < |segs| && LoadWithBytes(segs[m]) ==> m in MakersAfter(segs, n)
    ensures forall h :: 0 <= h < n && segs[h].size > 0 ==> Held(segs, MakersAfter(segs, n), segs[h])
  {
    hide MakersAfter, LoadMakers, Held;
    if n == 0 {
      MakersStart(segs);
    } else {
      MakersHold(segs, n - 1);
      MakersGrow(segs, n);
      forall h | 0 <= h < n && segs[h].size > 0 ensures Held(segs, MakersAfter(segs, n), segs[h]) {
        if h < n - 1 {
          StillHeld(segs, MakersAfter(segs, n - 1), MakersAfter(segs, n), segs[h]);
        } else {
          LastIsHeld(segs, n);
        }
      }
    }
  }

  lemma {:induction false} MakersStart(segs: seq<Segment>)
    ensures MakersAfter(segs, 0) == LoadMakers(segs, |segs|)
  {
  }

  lemma {:induction false} MakersGrow(segs: seq<Segment>, n: nat)
    requires 0 < n <= |segs|
    ensures forall m :: m in MakersAfter(segs, n - 1) ==> m in MakersAfter(segs, n)
  {
  }

  lemma {:induction false} LastIsHeld(segs: seq<Segment>, n: nat)
    requires 0 < n <= |segs| && segs[n - 1].size > 0
    requires segs[n - 1].kind == PT_LOAD ==> n - 1 in MakersAfter(segs, n - 1)
    ensures Held(segs, MakersAfter(segs, n), segs[n - 1])
  {
    var before, makers := MakersAfter(segs, n - 1), MakersAfter(segs, n);
    if segs[n - 1].kind == PT_LOAD || makers != before { HeldBy(segs, makers, segs[n - 1], n - 1); }
  }

  /** Sorting keeps the makers. */
  lemma {:induction false} MakersStay(segs: seq<Segment>)
    ensures forall m :: m in MakersAfter(segs, |segs|) ==> m in Makers(segs)
  {
    hide MakersAfter, Order;
    var before, makers := MakersAfter(segs, |segs|), Makers(segs);
    var keys := Sources(segs, before);
    OrderIsPermutation(keys);
    forall m | m in before ensures m in makers {
      var i :| 0 <= i < |before| && before[i] == m;
      assert Ranked(keys[i], i) in Order(keys);
      var k :| 0 <= k < |keys| && Order(keys)[k] == Ranked(keys[i], i);
      assert makers[k] == m;
    }
  }

  /**
    One stretch for each load with bytes, and as many more as it takes to hold every segment with bytes: none is
    made twice, and they come in the order of the container.
   */
  lemma {:induction false} MakersAre(segs: seq<Segment>)
    ensures Lists.Distinct(Makers(segs))
    ensures forall m: nat :: m < |segs| && LoadWithBytes(segs[m]) ==> m in Makers(segs)
    ensures forall h :: 0 <= h < |segs| && segs[h].size > 0 ==> Held(segs, Makers(segs), segs[h])
    ensures forall i, j :: 0 <= i < j < |Makers(segs)| ==>
              segs[Makers(segs)[i]].source <= segs[Makers(segs)[j]].source
  {
    hide MakersAfter, Order, Held;
    var before, makers := MakersAfter(segs, |segs|), Makers(segs);
    OrderIsPermutation(Sources(segs, before));
    MakersOnce(segs, |segs|);
    MakersHold(segs, |segs|);
    MakersStay(segs);
    forall h | 0 <= h < |segs| && segs[h].size > 0 ensures Held(segs, makers, segs[h]) {
      StillHeld(segs, before, makers, segs[h]);
    }
  }

  // ----- what goes with a stretch

  function IndexOf(makers: seq<nat>, m: nat, i: nat): (r: Option<nat>)
    requires i <= |makers|
    ensures r.Some? ==> i <= r.value < |makers| && makers[r.value] == m
    ensures r.None? ==> forall k :: i <= k < |makers| ==> makers[k] != m
    decreases |makers| - i
  {
    if i == |makers| then None else if makers[i] == m then Some(i) else IndexOf(makers, m, i + 1)
  }

  /** The stretch a segment goes with: a load's own, the host's of a hosted segment, else the first that holds it. */
  function Home(segs: seq<Segment>, makers: seq<nat>, h: nat): (r: Option<nat>)
    requires Among(segs, makers) && h < |segs|
    ensures r.Some? ==> r.value < |makers|
  {
    var s := segs[h];
    var host := if s.kind == PT_LOAD then Some(h) else s.host;
    if host.Some? && host.value < |segs| && LoadWithBytes(segs[host.value]) then IndexOf(makers, host.value, 0)
    else FirstHolding(segs, makers, s, 0)
  }

  /** Starting the i-th stretch at x suits the segment it is made for, and those of the first n that go with it. */
  ghost predicate SuitsFirst(segs: seq<Segment>, makers: seq<nat>, i: nat, n: nat, x: int)
    requires Among(segs, makers) && i < |makers| && n <= |segs|
  {
    && Meets(x, DemandFrom(segs[makers[i]].source, segs[makers[i]]))
    && forall h :: 0 <= h < n && TakesPart(segs[h]) && Home(segs, makers, h) == Some(i) ==>
         Meets(x, DemandFrom(segs[makers[i]].source, segs[h]))
  }

  lemma {:induction false} SuitsFewerFirst(segs: seq<Segment>, makers: seq<nat>, i: nat, m: nat, n: nat, x: int)
    requires Among(segs, makers) && i < |makers| && m <= n <= |segs| && SuitsFirst(segs, makers, i, n, x)
    ensures SuitsFirst(segs, makers, i, m, x)
  {
  }

  ghost predicate HasStart(segs: seq<Segment>, makers: seq<nat>, i: nat, n: nat)
    requires Among(segs, makers) && i < |makers| && n <= |segs|
  {
    exists x: int :: SuitsFirst(segs, makers, i, n, x)
  }

  /** With segment h, no start is left for the stretch it goes with. */
  ghost predicate Stuck(segs: seq<Segment>, h: nat) {
    && h < |segs| && TakesPart(segs[h]) && Home(segs, Makers(segs), h).Some?
    && !HasStart(segs, Makers(segs), Home(segs, Makers(segs), h).value, h + 1)
  }

  /** Segment h is the first with which some stretch has no start left. */
  ghost predicate FirstStuck(segs: seq<Segment>, h: nat) {
    Stuck(segs, h) && forall g :: 0 <= g < h ==> !Stuck(segs, g)
  }

  lemma {:induction false} SuitedIsNotStuck(segs: seq<Segment>, h: nat, n: nat, x: int)
    requires h < n <= |segs| && Home(segs, Makers(segs), h).Some?
    requires SuitsFirst(segs, Makers(segs), Home(segs, Makers(segs), h).value, n, x)
    ensures !Stuck(segs, h)
  {
    hide Makers, Home, SuitsFirst;
    SuitsFewerFirst(segs, Makers(segs), Home(segs, Makers(segs), h).value, h + 1, n, x);
  }
}
