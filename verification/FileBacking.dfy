/**
  Where the bytes of an address range lie in an ELF file: the range must be covered, without a change of
  distance, by the load segments that the file backs.
 */
module FileBacking {
  import opened Options
  import opened Sorting

  /** A load segment, as far as the file has bytes for it. */
  datatype Load = Load(start: nat, offset: nat, size: nat, flags: nat)

  function Delta(l: Load): int { l.offset - l.start }

  predicate Backs(l: Load, delta: int, x: int) {
    Delta(l) == delta && l.start <= x < l.start + l.size
  }

  /** Some load has the byte at address x, at the distance delta from it. */
  ghost predicate Backed(loads: seq<Load>, delta: int, x: int) {
    exists l :: l in loads && Backs(l, delta, x)
  }

  ghost predicate AllBacked(loads: seq<Load>, delta: int, a: int, b: int) {
    forall x :: a <= x < b ==> Backed(loads, delta, x)
  }

  // ----- the sweep

  /** Sorted as Python sorts tuples, and sorted by address alone. */
  predicate TupleOrder(a: Load, b: Load) {
    a.start < b.start || (a.start == b.start && (a.offset < b.offset || (a.offset == b.offset &&
      (a.size < b.size || (a.size == b.size && a.flags <= b.flags)))))
  }

  const BY_TUPLE: (Load, Load) -> bool := (a: Load, b: Load) => TupleOrder(a, b)
  const BY_START: (Load, Load) -> bool := (a: Load, b: Load) => a.start <= b.start

  ghost predicate Ascending(sorted: seq<Load>) {
    forall i, j :: 0 <= i < j < |sorted| ==> sorted[i].start <= sorted[j].start
  }

  lemma {:induction false} SortedAscends(loads: seq<Load>, order: (Load, Load) -> bool)
    requires order == BY_TUPLE || order == BY_START
    ensures Ascending(SortBy(loads, order))
    ensures forall l :: l in SortBy(loads, order) <==> l in loads
  {
    SortBySorted(loads, order);
    forall l: Load ensures l in SortBy(loads, order) <==> l in loads {
      SortByMembers(loads, order, l);
    }
  }

  /** The first address from `from` on that no load backs at this distance. */
  method Sweep(loads: seq<Load>, sorted: seq<Load>, delta: int, from: int) returns (covered: int)
    requires Ascending(sorted) && forall l :: l in sorted <==> l in loads
    ensures covered >= from && AllBacked(loads, delta, from, covered) && !Backed(loads, delta, covered)
  {
    covered := from;
    for i := 0 to |sorted|
      invariant covered >= from && AllBacked(loads, delta, from, covered)
      invariant forall k ::
          0 <= k < i && Delta(sorted[k]) == delta ==>
              sorted[k].start + sorted[k].size <= covered || sorted[k].start > covered
    {
      var l := sorted[i];
      if Delta(l) == delta && l.start <= covered && l.start + l.size > covered {
        forall x | covered <= x < l.start + l.size ensures Backed(loads, delta, x) {
          assert l in loads && Backs(l, delta, x);
        }
        covered := l.start + l.size;
      }
    }
    forall l | l in loads ensures !Backs(l, delta, covered) {
      var k :| 0 <= k < |sorted| && sorted[k] == l;
    }
  }

  // ----- resolving a range

  function PositionIn(l: Load, vaddr: int): int { l.offset + (vaddr - l.start) }

  /** The load touches the address, and loads at its distance have the whole range. */
  ghost predicate Reaches(loads: seq<Load>, l: Load, vaddr: int, length: nat) {
    l.start <= vaddr <= l.start + l.size && AllBacked(loads, Delta(l), vaddr, vaddr + length)
  }

  /** The first load, in file order from i on, that can serve a range of a file of n bytes. */
  ghost function Resolve(loads: seq<Load>, n: nat, vaddr: int, length: nat, i: nat): (r: Option<int>)
    requires i <= |loads|
    ensures r.Some? ==>
        exists l ::
            l in loads && Reaches(loads, l, vaddr, length) && r.value == PositionIn(l, vaddr) && r.value + length <= n
    ensures r.None? ==>
        forall k ::
            i <= k < |loads| && Reaches(loads, loads[k], vaddr, length) ==> PositionIn(loads[k], vaddr) + length > n
    decreases |loads| - i
  {
    if i == |loads| then None
    else if Reaches(loads, loads[i], vaddr, length) && PositionIn(loads[i], vaddr) + length <= n then
      assert loads[i] in loads;
      Some(PositionIn(loads[i], vaddr))
    else Resolve(loads, n, vaddr, length, i + 1)
  }

  /** The position of a range in the file, or none. */
  ghost function At(loads: seq<Load>, n: nat, vaddr: int, length: nat)
    : Option<int> { Resolve(loads, n, vaddr, length, 0) }

  /** At this distance loads have every byte of the range, and the file is long enough for it. */
  ghost predicate Served(loads: seq<Load>, n: nat, delta: int, vaddr: int, length: nat) {
    AllBacked(loads, delta, vaddr, vaddr + length) && vaddr + delta + length <= n
  }

  /**
    A non-empty range has a position exactly when, at one distance, loads have every byte of it and the
    file is long enough.
   */
  lemma {:induction false} ResolvedExactly(loads: seq<Load>, n: nat, vaddr: int, length: nat)
    requires length > 0
    ensures At(loads, n, vaddr, length).Some? <==>
              exists delta :: Served(loads, n, delta, vaddr, length)
  {
    forall delta | Served(loads, n, delta, vaddr, length)
      ensures At(loads, n, vaddr, length).Some?
    {
      assert Backed(loads, delta, vaddr);
      var l :| l in loads && Backs(l, delta, vaddr);
      var k :| 0 <= k < |loads| && loads[k] == l;
      assert Reaches(loads, loads[k], vaddr, length) && PositionIn(l, vaddr) == vaddr + delta;
    }
    if At(loads, n, vaddr, length).Some? {
      var l :| l in loads && Reaches(loads, l, vaddr, length) && At(loads, n, vaddr, length).value == PositionIn(l,
          vaddr);
      assert Served(loads, n, Delta(l), vaddr, length);
    }
  }

  /** Every byte of a resolved range is backed at its place, however many loads it takes. */
  lemma {:induction false} EveryByteIsThere(loads: seq<Load>, n: nat, vaddr: int, length: nat, i: nat)
    requires At(loads, n, vaddr, length).Some? && i < length
    ensures var position := At(loads, n, vaddr, length).value;
            && 0 <= position + i < n
            && exists l :: l in loads && l.start <= vaddr + i < l.start + l.size
                           && l.offset + (vaddr + i - l.start) == position + i
  {
    var first :| first in loads && Reaches(loads, first, vaddr, length)
        && At(loads, n, vaddr, length).value == PositionIn(first, vaddr);
    assert Backed(loads, Delta(first), vaddr + i);
    var l :| l in loads && Backs(l, Delta(first), vaddr + i);
    assert PositionIn(l, vaddr + i) == PositionIn(first, vaddr) + i;
  }

  // ----- the position, said outright

  /** Some load has the byte at an address, this far from its place in the file. */
  ghost predicate HasByte(loads: seq<Load>, distance: int, x: int) {
    exists k :: 0 <= k < |loads| && loads[k].offset - loads[k].start == distance
                && loads[k].start <= x < loads[k].start + loads[k].size
  }

  ghost predicate HasBytes(loads: seq<Load>, distance: int, vaddr: int, length: nat) {
    forall x :: vaddr <= x < vaddr + length ==> HasByte(loads, distance, x)
  }

  /** A load touches the address, and at its distance there is every byte of the range. */
  ghost predicate LeadsTo(loads: seq<Load>, k: nat, vaddr: int, length: nat) {
    && k < |loads| && loads[k].start <= vaddr <= loads[k].start + loads[k].size
    && HasBytes(loads, loads[k].offset - loads[k].start, vaddr, length)
  }

  /** It does so, and the file is long enough. */
  ghost predicate Serves(loads: seq<Load>, n: nat, k: nat, vaddr: int, length: nat) {
    LeadsTo(loads, k, vaddr, length) && loads[k].offset + (vaddr - loads[k].start) + length <= n
  }

  /** The position in the first load that serves the range, or none when no load does. */
  ghost predicate IsAt(loads: seq<Load>, n: nat, vaddr: int, length: nat, r: Option<int>) {
    match r
    case None => forall k: nat :: !Serves(loads, n, k, vaddr, length)
    case Some(position) =>
      exists k: nat ::
        && Serves(loads, n, k, vaddr, length) && (forall j: nat :: j < k ==> !Serves(loads, n, j, vaddr, length))
        && position == loads[k].offset + (vaddr - loads[k].start)
  }

  lemma {:induction false} HasByteIs(loads: seq<Load>, delta: int, x: int)
    ensures Backed(loads, delta, x) <==> HasByte(loads, delta, x)
  {
    if Backed(loads, delta, x) {
      var l :| l in loads && Backs(l, delta, x);
      var k :| 0 <= k < |loads| && loads[k] == l;
    }
    if HasByte(loads, delta, x) {
      var k :| 0 <= k < |loads| && loads[k].offset - loads[k].start == delta
          && loads[k].start <= x < loads[k].start + loads[k].size;
      assert loads[k] in loads && Backs(loads[k], delta, x);
    }
  }

  lemma {:induction false} LeadsIs(loads: seq<Load>, k: nat, vaddr: int, length: nat)
    requires k < |loads|
    ensures Reaches(loads, loads[k], vaddr, length) <==> LeadsTo(loads, k, vaddr, length)
    ensures PositionIn(loads[k], vaddr) == loads[k].offset + (vaddr - loads[k].start)
  {
    forall x ensures Backed(loads, Delta(loads[k]), x) <==> HasByte(loads, Delta(loads[k]), x) {
      HasByteIs(loads, Delta(loads[k]), x);
    }
  }

  lemma {:induction false} ResolveIs(loads: seq<Load>, n: nat, vaddr: int, length: nat, i: nat)
    requires i <= |loads| && forall j: nat :: j < i ==> !Serves(loads, n, j, vaddr, length)
    ensures IsAt(loads, n, vaddr, length, Resolve(loads, n, vaddr, length, i))
    decreases |loads| - i
  {
    hide Reaches, LeadsTo;
    if i == |loads| {
      NoneBeyond(loads, vaddr, length);
    } else {
      LeadsIs(loads, i, vaddr, length);
      if !Serves(loads, n, i, vaddr, length) { ResolveIs(loads, n, vaddr, length, i + 1); }
    }
  }

  lemma {:induction false} NoneBeyond(loads: seq<Load>, vaddr: int, length: nat)
    ensures forall k: nat :: k >= |loads| ==> !LeadsTo(loads, k, vaddr, length)
  {
  }

  lemma {:induction false} ResolveNext(loads: seq<Load>, n: nat, vaddr: int, length: nat, i: nat)
    requires i <= |loads|
    ensures i == |loads| ==> Resolve(loads, n, vaddr, length, i) == None
    ensures i < |loads| ==>
              var l := loads[i];
              Resolve(loads, n, vaddr, length, i)
              == if l.start <= vaddr <= l.start + l.size && PositionIn(l, vaddr) + length <= n
                    && AllBacked(loads, Delta(l), vaddr, vaddr + length) then Some(PositionIn(l, vaddr))
                 else Resolve(loads, n, vaddr, length, i + 1)
  {
  }

  lemma {:induction false} SweepDecides(loads: seq<Load>, delta: int, from: int, covered: int, to: int)
    requires from <= covered && AllBacked(loads, delta, from, covered) && !Backed(loads, delta, covered)
    ensures from <= to ==> (covered >= to <==> AllBacked(loads, delta, from, to))
  {
  }

  /** The position of a range, as the annotated listing resolves it. */
  method Address(loads: seq<Load>, n: nat, vaddr: int, length: nat) returns (r: Option<int>)
    ensures r == At(loads, n, vaddr, length) && IsAt(loads, n, vaddr, length, r)
  {
    hide IsAt, Reaches, AllBacked, Backed, Resolve, Ascending;
    ResolveIs(loads, n, vaddr, length, 0);
    var sorted := SortBy(loads, BY_TUPLE);
    SortedAscends(loads, BY_TUPLE);
    for i := 0 to |loads|
      invariant At(loads, n, vaddr, length) == Resolve(loads, n, vaddr, length, i)
    {
      var l := loads[i];
      ResolveNext(loads, n, vaddr, length, i);
      if l.start <= vaddr <= l.start + l.size {
        var position := PositionIn(l, vaddr);
        if position + length <= n {
          var covered := Sweep(loads, sorted, position - vaddr, vaddr);
          SweepDecides(loads, Delta(l), vaddr, covered, vaddr + length);
          if covered >= vaddr + length {
            return Some(position);
          }
        }
      }
    }
    ResolveNext(loads, n, vaddr, length, |loads|);
    r := None;
  }

  // ----- the same, as the import audit resolves it

  /** The first load that reaches a range, whether or not the file is long enough. */
  ghost function FirstReach(loads: seq<Load>, vaddr: int, length: nat, i: nat): (r: Option<int>)
    requires i <= |loads|
    decreases |loads| - i
  {
    if i == |loads| then None
    else if Reaches(loads, loads[i], vaddr, length) then Some(PositionIn(loads[i], vaddr))
    else FirstReach(loads, vaddr, length, i + 1)
  }

  /** `take` refuses a range that the file does not have. */
  ghost function Taken(n: nat, position: Option<int>, length: nat): Option<int> {
    if position.Some? && position.value + length <= n then position else None
  }

  /** The position in the first load that leads to the range, unless the file is too short for it there. */
  ghost predicate IsOffset(loads: seq<Load>, n: nat, vaddr: int, length: nat, r: Option<int>) {
    || (r == None && forall k: nat :: !LeadsTo(loads, k, vaddr, length))
    || exists k: nat ::
         && LeadsTo(loads, k, vaddr, length) && (forall j: nat :: j < k ==> !LeadsTo(loads, j, vaddr, length))
         && var position := loads[k].offset + (vaddr - loads[k].start);
            r == if position + length <= n then Some(position) else None
  }

  lemma {:induction false} FirstReachIs(loads: seq<Load>, n: nat, vaddr: int, length: nat, i: nat)
    requires i <= |loads| && forall j: nat :: j < i ==> !LeadsTo(loads, j, vaddr, length)
    ensures IsOffset(loads, n, vaddr, length, Taken(n, FirstReach(loads, vaddr, length, i), length))
    decreases |loads| - i
  {
    hide Reaches, LeadsTo;
    if i == |loads| {
      NoneBeyond(loads, vaddr, length);
    } else {
      LeadsIs(loads, i, vaddr, length);
      if !LeadsTo(loads, i, vaddr, length) { FirstReachIs(loads, n, vaddr, length, i + 1); }
    }
  }

  method FileOffset(loads: seq<Load>, n: nat, vaddr: int, length: nat) returns (r: Option<int>)
    ensures r == Taken(n, FirstReach(loads, vaddr, length, 0), length) && IsOffset(loads, n, vaddr, length, r)
  {
    FirstReachIs(loads, n, vaddr, length, 0);
    hide IsOffset;
    var sorted := SortBy(loads, BY_START);
    SortedAscends(loads, BY_START);
    for i := 0 to |loads|
      invariant FirstReach(loads, vaddr, length, 0) == FirstReach(loads, vaddr, length, i)
    {
      var l := loads[i];
      if vaddr >= l.start && vaddr - l.start <= l.size {
        var covered := Sweep(loads, sorted, Delta(l), l.start + l.size);
        CoveredReaches(loads, l, vaddr, length, covered);
        if vaddr + length <= covered {
          var position := PositionIn(l, vaddr);
          if position + length > n {
            return None;
          }
          return Some(position);
        }
      }
    }
    r := None;
  }

  lemma {:induction false} CoveredReaches(loads: seq<Load>, l: Load, vaddr: int, length: nat, covered: int)
    requires l in loads && l.start <= vaddr <= l.start + l.size <= covered
    requires AllBacked(loads, Delta(l), l.start + l.size, covered) && !Backed(loads, Delta(l), covered)
    ensures vaddr + length <= covered <==> Reaches(loads, l, vaddr, length)
  {
  }

  /** Every load that has bytes has them in the file, which the audit checks first. */
  ghost predicate InFile(loads: seq<Load>, n: nat) {
    forall l :: l in loads && l.size > 0 ==> l.offset + l.size <= n
  }

  lemma {:induction false} ReachedIsInFile(loads: seq<Load>, n: nat, l: Load, vaddr: int, length: nat)
    requires InFile(loads, n) && length > 0 && Reaches(loads, l, vaddr, length)
    ensures PositionIn(l, vaddr) + length <= n
  {
    assert Backed(loads, Delta(l), vaddr + length - 1);
  }

  lemma {:induction false} ReachIsResolve(loads: seq<Load>, n: nat, vaddr: int, length: nat, i: nat)
    requires InFile(loads, n) && length > 0 && i <= |loads|
    ensures Taken(n, FirstReach(loads, vaddr, length, i), length) == Resolve(loads, n, vaddr, length, i)
    decreases |loads| - i
  {
    if i < |loads| {
      ReachIsResolve(loads, n, vaddr, length, i + 1);
      if Reaches(loads, loads[i], vaddr, length) { ReachedIsInFile(loads, n, loads[i], vaddr, length); }
    }
  }

  /** The two tools resolve every non-empty range alike when the loads lie in the file. */
  lemma {:induction false} BothResolveAlike(loads: seq<Load>, n: nat, vaddr: int, length: nat)
    requires InFile(loads, n) && length > 0
    ensures Taken(n, FirstReach(loads, vaddr, length, 0), length) == At(loads, n, vaddr, length)
  {
    ReachIsResolve(loads, n, vaddr, length, 0);
  }

  // ----- loads that agree

  /** No address is backed at two distances. */
  ghost predicate OneDelta(loads: seq<Load>) {
    forall a, b, x :: Backed(loads, a, x) && Backed(loads, b, x) ==> a == b
  }

  /** Where loads agree, a part of a resolved range resolves to the part of the position. */
  lemma {:induction false} PartResolves(loads: seq<Load>, n: nat, vaddr: int, length: nat, skip: nat, part: nat)
    requires OneDelta(loads) && At(loads, n, vaddr, length).Some? && part > 0 && skip + part <= length
    ensures At(loads, n, vaddr + skip, part) == Some(At(loads, n, vaddr, length).value + skip)
  {
    var position := At(loads, n, vaddr, length).value;
    var l :| l in loads && Reaches(loads, l, vaddr, length) && position == PositionIn(l, vaddr)
        && position + length <= n;
    var delta := Delta(l);
    assert Served(loads, n, delta, vaddr + skip, part);
    ResolvedExactly(loads, n, vaddr + skip, part);
    var found := At(loads, n, vaddr + skip, part).value;
    var m :| m in loads && Reaches(loads, m, vaddr + skip, part) && found == PositionIn(m, vaddr + skip);
    assert Backed(loads, Delta(m), vaddr + skip) && Backed(loads, delta, vaddr + skip);
  }
}
