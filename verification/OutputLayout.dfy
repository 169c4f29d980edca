/**
  Where everything goes in the output, told from the segments alone: the segments that open a stretch, the stretch
  each segment goes to, the starts that suit a stretch, and the place it gets.
 */
module OutputLayout {
  import opened Options
  import opened ElfFormat
  import opened Sorting
  import opened SegmentPlacement
  import opened Alignment
  import opened OutputPlan

  // ----- the layout

  /** A segment that has bytes, or a position in the container without being a load. */
  ghost predicate HasPlace(s: Segment) { s.size > 0 || (s.kind != PT_LOAD && s.source != 0) }

  ghost predicate Holds(whole: Segment, s: Segment) {
    whole.source <= s.source && s.source + s.size <= whole.source + whole.size
  }

  /** A load with bytes, or a segment with bytes that no such load holds, nor any segment before it that opens one. */
  ghost predicate Opens(segs: seq<Segment>, m: nat)
    requires m < |segs|
    decreases m
  {
    && segs[m].size > 0
    && (segs[m].kind == PT_LOAD
        || ((forall l :: 0 <= l < |segs| && segs[l].kind == PT_LOAD && segs[l].size > 0 ==> !Holds(segs[l], segs[m]))
            && forall g :: 0 <= g < m && segs[g].kind != PT_LOAD && Opens(segs, g) ==> !Holds(segs[g], segs[m])))
  }

  /** Loads come first, and otherwise what comes first in the table. */
  ghost predicate Precedes(segs: seq<Segment>, a: nat, b: nat)
    requires a < |segs| && b < |segs|
  {
    if segs[a].kind == PT_LOAD then segs[b].kind != PT_LOAD || a < b else segs[b].kind != PT_LOAD && a < b
  }

  ghost predicate ComesFirst(segs: seq<Segment>, a: nat, b: nat)
    requires a < |segs| && b < |segs|
  {
    segs[a].source < segs[b].source || (segs[a].source == segs[b].source && Precedes(segs, a, b))
  }

  /** All segments that open a stretch, by their source. */
  ghost predicate BySource(segs: seq<Segment>, makers: seq<nat>) {
    && (forall i :: 0 <= i < |makers| ==> makers[i] < |segs|)
    && (forall m: nat :: m in makers <==> m < |segs| && Opens(segs, m))
    && forall i, j :: 0 <= i < j < |makers| ==> ComesFirst(segs, makers[i], makers[j])
  }

  /** A load goes with its own stretch, a hosted segment with its host's, any other with the first that holds it. */
  ghost predicate GoesTo(segs: seq<Segment>, makers: seq<nat>, h: nat, i: nat)
    requires h < |segs| && forall k :: 0 <= k < |makers| ==> makers[k] < |segs|
  {
    && i < |makers|
    && var s := segs[h];
       if s.kind == PT_LOAD then makers[i] == h
       else if s.host.Some? && s.host.value < |segs| && segs[s.host.value].kind == PT_LOAD
         && segs[s.host.value].size > 0 then makers[i] == s.host.value
       else Holds(segs[makers[i]], s) && forall k :: 0 <= k < i ==> !Holds(segs[makers[k]], s)
  }

  /** The rule of the ABI: offset and address agree modulo the alignment. */
  ghost predicate Agrees(s: Segment, offset: int) { s.align >= 1 ==> (offset - s.vaddr) % s.align == 0 }

  /** Starting a stretch at x suits the segment that opens it, and those of the first n that go with it. */
  ghost predicate StartSuits(segs: seq<Segment>, makers: seq<nat>, i: nat, n: nat, x: int)
    requires (forall k :: 0 <= k < |makers| ==> makers[k] < |segs|) && i < |makers| && n <= |segs|
  {
    && Agrees(segs[makers[i]], x)
    && forall h :: 0 <= h < n && HasPlace(segs[h]) && GoesTo(segs, makers, h, i) ==>
         Agrees(segs[h], x + (segs[h].source - segs[makers[i]].source))
  }

  /** Where the stretches before one end. */
  ghost function EndsAt(segs: seq<Segment>, makers: seq<nat>, places: seq<int>, start: nat, i: nat): int
    requires (forall k :: 0 <= k < |makers| ==> makers[k] < |segs|) && i <= |places| == |makers|
  {
    if i == 0 then start else places[i - 1] + segs[makers[i - 1]].size
  }

  ghost predicate PlacedFirst(segs: seq<Segment>, makers: seq<nat>, places: seq<int>, start: nat, i: nat)
    requires (forall k :: 0 <= k < |makers| ==> makers[k] < |segs|) && i < |places| == |makers|
  {
    && EndsAt(segs, makers, places, start, i) <= places[i] && StartSuits(segs, makers, i, |segs|, places[i])
    && forall x: int ::
         EndsAt(segs, makers, places, start, i) <= x < places[i] ==> !StartSuits(segs, makers, i, |segs|, x)
  }

  /** One stretch after the other, each at the first place past the one before that suits all that goes with it. */
  ghost predicate LayoutIs(segs: seq<Segment>, makers: seq<nat>, places: seq<int>, start: nat) {
    && BySource(segs, makers) && |places| == |makers|
    && forall i :: 0 <= i < |makers| ==> PlacedFirst(segs, makers, places, start, i)
  }

  /** The offset of a load without bytes: the smallest that the rule of the ABI allows. */
  ghost function EmptyAt(s: Segment): nat { s.vaddr % (if s.align >= 1 then s.align else 1) }

  /** The output ends with the last stretch, or at the offset of a load without bytes if that is greater. */
  ghost predicate EndIs(segs: seq<Segment>, makers: seq<nat>, places: seq<int>, start: nat, end: int)
    requires (forall k :: 0 <= k < |makers| ==> makers[k] < |segs|) && |places| == |makers|
  {
    var last := EndsAt(segs, makers, places, start, |makers|);
    && last <= end
    && (forall h :: 0 <= h < |segs| && segs[h].kind == PT_LOAD && segs[h].size == 0 ==> EmptyAt(segs[h]) <= end)
    && (end == last
        || exists h :: 0 <= h < |segs| && segs[h].kind == PT_LOAD && segs[h].size == 0 && EmptyAt(segs[h]) == end)
  }

  /** The bytes of the first n stretches. */
  ghost function Copied(segs: seq<Segment>, makers: seq<nat>, n: nat): nat
    requires (forall k :: 0 <= k < |makers| ==> makers[k] < |segs|) && n <= |makers|
  {
    if n == 0 then 0 else Copied(segs, makers, n - 1) + segs[makers[n - 1]].size
  }

  ghost predicate InStretch(segs: seq<Segment>, makers: seq<nat>, places: seq<int>, h: nat, i: nat, offset: int)
    requires (forall k :: 0 <= k < |makers| ==> makers[k] < |segs|) && |places| == |makers| && h < |segs|
  {
    GoesTo(segs, makers, h, i) && offset == places[i] + (segs[h].source - segs[makers[i]].source)
  }

  /** The offset of a segment: as far into its stretch as in the container, or its source if it goes with none. */
  ghost predicate OffsetIs(segs: seq<Segment>, makers: seq<nat>, places: seq<int>, h: nat, offset: int)
    requires (forall k :: 0 <= k < |makers| ==> makers[k] < |segs|) && |places| == |makers| && h < |segs|
  {
    if !HasPlace(segs[h]) then offset == if segs[h].kind == PT_LOAD then EmptyAt(segs[h]) else 0
    else
      || (exists i: nat :: InStretch(segs, makers, places, h, i, offset))
      || (offset == segs[h].source && forall i: nat :: !GoesTo(segs, makers, h, i))
  }

  ghost predicate NoneSuits(segs: seq<Segment>, makers: seq<nat>, i: nat, n: nat)
    requires (forall k :: 0 <= k < |makers| ==> makers[k] < |segs|) && i < |makers| && n <= |segs|
  {
    forall x: int :: !StartSuits(segs, makers, i, n, x)
  }

  /** With segment h, no start is left for the stretch it goes with. */
  ghost predicate NoStart(segs: seq<Segment>, makers: seq<nat>, h: nat)
    requires forall k :: 0 <= k < |makers| ==> makers[k] < |segs|
  {
    && h < |segs| && HasPlace(segs[h])
    && exists i: nat :: GoesTo(segs, makers, h, i) && NoneSuits(segs, makers, i, h + 1)
  }

  // ----- the plan is that layout

  lemma {:induction false} PlaceIsPart(s: Segment)
    ensures HasPlace(s) <==> TakesPart(s)
  {
  }

  lemma {:induction false} MakersOpen(segs: seq<Segment>, n: nat)
    requires n <= |segs|
    ensures forall m: nat ::
              m in MakersAfter(segs, n) <==> (m < |segs| && Opens(segs, m) && (m < n || segs[m].kind == PT_LOAD))
  {
    hide LoadMakers;
    if n == 0 {
      MakersStart(segs);
    } else {
      MakersOpen(segs, n - 1);
      MakerOpens(segs, n);
    }
  }

  lemma {:induction false} HeldIs(segs: seq<Segment>, makers: seq<nat>, s: Segment)
    requires Among(segs, makers)
    ensures FirstHolding(segs, makers, s, 0).None? <==> forall m :: m in makers ==> m < |segs| && !Holds(segs[m], s)
  {
    var first := FirstHolding(segs, makers, s, 0);
    if first.Some? {
      var m := makers[first.value];
      assert m in makers && Holds(segs[m], s);
    } else {
      forall m | m in makers ensures m < |segs| && !Holds(segs[m], s) {
        var k :| 0 <= k < |makers| && makers[k] == m;
        assert !Within(s, segs[makers[k]]);
      }
    }
  }

  lemma {:induction false} NextMaker(segs: seq<Segment>, n: nat)
    requires 0 < n <= |segs|
    ensures var before, s := MakersAfter(segs, n - 1), segs[n - 1];
            MakersAfter(segs, n)
            == if s.kind == PT_LOAD || s.size == 0 || FirstHolding(segs, before, s, 0).Some? then before
               else before + [n - 1]
  {
  }

  /** Whether the next segment is added is whether it opens a stretch. */
  lemma {:induction false} MakerOpens(segs: seq<Segment>, n: nat)
    requires 0 < n <= |segs|
    requires forall m: nat :: m in MakersAfter(segs, n - 1) <==>
               (m < |segs| && Opens(segs, m) && (m < n - 1 || segs[m].kind == PT_LOAD))
    ensures forall m: nat :: m in MakersAfter(segs, n) <==>
              (m in MakersAfter(segs, n - 1) || (m == n - 1 && segs[m].kind != PT_LOAD && Opens(segs, m)))
  {
    hide MakersAfter, FirstHolding, Holds;
    HeldIs(segs, MakersAfter(segs, n - 1), segs[n - 1]);
    NextMaker(segs, n);
  }

  ghost predicate InPrecedence(segs: seq<Segment>, makers: seq<nat>) {
    && (forall i :: 0 <= i < |makers| ==> makers[i] < |segs|)
    && forall i, j :: 0 <= i < j < |makers| ==> Precedes(segs, makers[i], makers[j])
  }

  /** What comes after all of a list in precedence can be added to it. */
  lemma {:induction false} AddedLast(segs: seq<Segment>, makers: seq<nat>, m: nat)
    requires InPrecedence(segs, makers) && m < |segs| && forall g :: g in makers ==> g < |segs| && Precedes(segs, g, m)
    ensures InPrecedence(segs, makers + [m])
  {
    hide Precedes;
    var more := makers + [m];
    forall i, j | 0 <= i < j < |more| ensures Precedes(segs, more[i], more[j]) {
      assert more[i] == makers[i] && makers[i] in makers;
    }
  }

  lemma {:induction false} LoadsPrecede(segs: seq<Segment>, n: nat)
    requires n <= |segs|
    ensures InPrecedence(segs, LoadMakers(segs, n))
  {
    if n > 0 {
      LoadsPrecede(segs, n - 1);
      if LoadWithBytes(segs[n - 1]) { AddedLast(segs, LoadMakers(segs, n - 1), n - 1); }
    }
  }

  lemma {:induction false} MakersPrecede(segs: seq<Segment>, n: nat)
    requires n <= |segs|
    ensures InPrecedence(segs, MakersAfter(segs, n))
  {
    hide MakersAfter, LoadMakers;
    if n == 0 {
      MakersStart(segs);
      LoadsPrecede(segs, |segs|);
    } else {
      MakersPrecede(segs, n - 1);
      MakersOnce(segs, n - 1);
      MakersStep(segs, n);
      var before := MakersAfter(segs, n - 1);
      if MakersAfter(segs, n) != before {
        forall m | m in before ensures m < |segs| && Precedes(segs, m, n - 1) {
          var k :| 0 <= k < |before| && before[k] == m;
        }
        AddedLast(segs, before, n - 1);
      }
    }
  }

  const BY_AT: (Ranked, Ranked) -> bool := (a: Ranked, b: Ranked) => a.at <= b.at

  /** Equal numbers keep their order. */
  lemma {:induction false} OrderIsStable(keys: seq<int>)
    ensures var order := Order(keys);
            forall k, l :: 0 <= k < l < |order| && order[k].key == order[l].key ==> order[k].at < order[l].at
  {
    var numbered := seq(|keys|, i requires 0 <= i < |keys| => Ranked(keys[i], i));
    assert SortedBy(numbered, BY_AT);
    SortByStable(numbered, BY_KEY, BY_AT);
    OrderIsPermutation(keys);
  }

  lemma {:induction false} MakersBySource(segs: seq<Segment>)
    ensures BySource(segs, Makers(segs))
  {
    hide MakersAfter, Order, Opens, Precedes;
    var before, makers := MakersAfter(segs, |segs|), Makers(segs);
    var keys := Sources(segs, before);
    MakersOpen(segs, |segs|);
    MakersPrecede(segs, |segs|);
    MakersStay(segs);
    OrderIsPermutation(keys);
    OrderIsStable(keys);
    forall m: nat | m in makers ensures m in before {
      var k :| 0 <= k < |makers| && makers[k] == m;
      var at := Order(keys)[k].at;
      assert m == before[at] && before[at] in before;
    }
    forall i, j | 0 <= i < j < |makers|
      ensures ComesFirst(segs, makers[i], makers[j])
    {
      var p, q := Order(keys)[i], Order(keys)[j];
      assert p.key == segs[makers[i]].source && q.key == segs[makers[j]].source;
      assert makers[i] == before[p.at] && makers[j] == before[q.at];
      assert p.key <= q.key;
      if p.key == q.key {
        assert InPrecedence(segs, before) && p.at < q.at < |before|;
      }
    }
  }

  /** The home of a segment is the stretch it goes to. */
  lemma {:induction false} HomeIs(segs: seq<Segment>, h: nat, i: nat)
    requires h < |segs| && HasPlace(segs[h])
    ensures Home(segs, Makers(segs), h) == Some(i) <==> GoesTo(segs, Makers(segs), h, i)
  {
    hide Makers, Held;
    MakersAre(segs);
    var makers, s := Makers(segs), segs[h];
    var host := if s.kind == PT_LOAD then Some(h) else s.host;
    if host.Some? && host.value < |segs| && LoadWithBytes(segs[host.value]) {
      var at := IndexOf(makers, host.value, 0);
      assert host.value in makers;
    } else {
      var first := FirstHolding(segs, makers, s, 0);
      assert forall k :: 0 <= k < |makers| ==> (Within(s, segs[makers[k]]) <==> Holds(segs[makers[k]], s));
    }
  }

  /** Meeting the demand of a segment whose alignment is 0 or a power of two is the rule of the ABI for it. */
  lemma {:induction false} DemandIsRule(s: Segment, origin: int, x: int)
    requires s.align == 0 || PowerOfTwo(s.align)
    ensures Meets(x, DemandFrom(origin, s)) <==> Agrees(s, x + (s.source - origin))
  {
    assert x - (s.vaddr - (s.source - origin)) == x + (s.source - origin) - s.vaddr;
  }

  ghost predicate SaneAligns(segs: seq<Segment>) {
    forall h :: 0 <= h < |segs| ==> segs[h].align == 0 || PowerOfTwo(segs[h].align)
  }

  lemma {:induction false} SuitsIs(segs: seq<Segment>, i: nat, n: nat, x: int)
    requires SaneAligns(segs) && i < |Makers(segs)| && n <= |segs|
    ensures SuitsFirst(segs, Makers(segs), i, n, x) <==> StartSuits(segs, Makers(segs), i, n, x)
  {
    hide Makers, Home, GoesTo, Meets, Agrees, PowerOfTwo, TakesPart, HasPlace;
    var makers := Makers(segs);
    DemandIsRule(segs[makers[i]], segs[makers[i]].source, x);
    forall h | 0 <= h < n
      ensures HasPlace(segs[h]) <==> TakesPart(segs[h])
      ensures HasPlace(segs[h]) ==> (Home(segs, makers, h) == Some(i) <==> GoesTo(segs, makers, h, i))
      ensures Meets(x, DemandFrom(segs[makers[i]].source, segs[h]))
              <==> Agrees(segs[h], x + (segs[h].source - segs[makers[i]].source))
    {
      PlaceIsPart(segs[h]);
      if HasPlace(segs[h]) { HomeIs(segs, h, i); }
      DemandIsRule(segs[h], segs[makers[i]].source, x);
    }
  }

  lemma {:induction false} StuckIsNoStart(segs: seq<Segment>, h: nat)
    requires SaneAligns(segs)
    ensures Stuck(segs, h) <==> NoStart(segs, Makers(segs), h)
  {
    hide Makers, Home, GoesTo, SuitsFirst, StartSuits, PowerOfTwo, TakesPart, HasPlace;
    if h < |segs| {
      PlaceIsPart(segs[h]);
      if HasPlace(segs[h]) {
        var home := Home(segs, Makers(segs), h);
        forall i: nat ensures home == Some(i) <==> GoesTo(segs, Makers(segs), h, i) { HomeIs(segs, h, i); }
        if home.Some? {
          var n := h + 1;
          forall x: int ensures SuitsFirst(segs, Makers(segs), home.value, n, x)
              <==> StartSuits(segs, Makers(segs), home.value, n, x)
          {
            SuitsIs(segs, home.value, n, x);
          }
        }
      }
    }
  }

  // ----- there is one layout

  lemma {:induction false} OneOrderUpTo(segs: seq<Segment>, a: seq<nat>, b: seq<nat>, n: nat)
    requires BySource(segs, a) && BySource(segs, b) && n <= |a|
    ensures n <= |b| && a[..n] == b[..n]
  {
    hide Opens, ComesFirst;
    if n > 0 {
      OneOrderUpTo(segs, a, b, n - 1);
      var x := a[n - 1];
      assert x in a && x in b;
      var j :| 0 <= j < |b| && b[j] == x;
      assert forall k :: 0 <= k < n - 1 ==> b[k] == a[..n - 1][k] && a[k] == a[..n - 1][k];
      NotAgain(segs, a, b, n - 1, n - 1, j);
      var y := b[n - 1];
      assert y in b && y in a;
      var k :| 0 <= k < |a| && a[k] == y;
      NotAgain(segs, b, a, n - 1, n - 1, k);
      assert (j == n - 1 || ComesFirst(segs, y, x)) && (k == n - 1 || ComesFirst(segs, x, y));
      NotBoth(segs, x, y);
      assert a[..n] == a[..n - 1] + [x] && b[..n] == b[..n - 1] + [y];
    }
  }

  lemma {:induction false} NotBoth(segs: seq<Segment>, x: nat, y: nat)
    requires x < |segs| && y < |segs|
    ensures !(ComesFirst(segs, x, y) && ComesFirst(segs, y, x))
  {
  }

  /** An element past a common beginning of two orders is past it in both. */
  lemma {:induction false} NotAgain(segs: seq<Segment>, a: seq<nat>, b: seq<nat>, n: nat, i: nat, j: nat)
    requires BySource(segs, a) && n <= i < |a| && j < |b| && a[i] == b[j]
    requires forall k :: 0 <= k < n ==> k < |b| && a[k] == b[k]
    ensures j >= n
  {
    if j < n { NotBoth(segs, a[j], a[i]); }
  }

  /** Any two orders by source are the same. */
  lemma {:induction false} OneOrder(segs: seq<Segment>, a: seq<nat>, b: seq<nat>)
    requires BySource(segs, a) && BySource(segs, b)
    ensures a == b
  {
    OneOrderUpTo(segs, a, b, |a|);
    OneOrderUpTo(segs, b, a, |b|);
    assert a[..|a|] == a && b[..|b|] == b;
  }

  lemma {:induction false} OnePlaceUpTo(segs: seq<Segment>, makers: seq<nat>, a: seq<int>, b: seq<int>, start: nat,
                                        n: nat)
    requires LayoutIs(segs, makers, a, start) && LayoutIs(segs, makers, b, start) && n <= |makers|
    ensures a[..n] == b[..n]
  {
    hide StartSuits, Opens, ComesFirst;
    if n > 0 {
      OnePlaceUpTo(segs, makers, a, b, start, n - 1);
      assert PlacedFirst(segs, makers, a, start, n - 1) && PlacedFirst(segs, makers, b, start, n - 1);
      if n > 1 { assert a[n - 2] == a[..n - 1][n - 2] == b[..n - 1][n - 2] == b[n - 2]; }
      assert a[..n] == a[..n - 1] + [a[n - 1]] && b[..n] == b[..n - 1] + [b[n - 1]];
    }
  }

  /** The segments determine the layout, and so every place and the end of the output. */
  lemma {:induction false} OnePlan(segs: seq<Segment>, a: seq<nat>, b: seq<nat>, p: seq<int>, q: seq<int>, start: nat,
                                   e: int, f: int)
    requires LayoutIs(segs, a, p, start) && LayoutIs(segs, b, q, start)
    requires EndIs(segs, a, p, start, e) && EndIs(segs, b, q, start, f)
    ensures a == b && p == q && e == f
  {
    hide PlacedFirst, Opens, EmptyAt;
    OneOrder(segs, a, b);
    OnePlaceUpTo(segs, a, p, q, start, |a|);
    assert p[..|a|] == p && q[..|a|] == q;
  }
}
