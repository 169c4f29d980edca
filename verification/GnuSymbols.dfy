/**
  Two ways of counting the dynamic symbols of a module through its GNU hash table: one follows the single
  chain of the greatest bucket, the other every chain, remembering what it has visited.
 */
module GnuSymbols {
  import opened Options
  import opened ElfFormat
  import opened FileBacking

  // ----- the table

  /** The words of a table, by the index of the symbol they stand for. */
  ghost function WordAt(data: Bytes, loads: seq<Load>, vaddr: int): Option<nat> {
    match At(loads, |data|, vaddr, 4)
    case None => None
    case Some(position) => if 0 <= position && position + 4 <= |data| then Some(Field(data, position, 4)) else None
  }

  lemma {:induction false} ResolvedInFile(loads: seq<Load>, n: nat, vaddr: int, length: nat)
    requires At(loads, n, vaddr, length).Some?
    ensures 0 <= At(loads, n, vaddr, length).value && At(loads, n, vaddr, length).value + length <= n
  {
  }

  method ReadWord(data: Bytes, loads: seq<Load>, vaddr: int) returns (r: Option<nat>)
    ensures r == WordAt(data, loads, vaddr)
  {
    var position := Address(loads, |data|, vaddr, 4);
    if position.None? {
      return None;
    }
    ResolvedInFile(loads, |data|, vaddr, 4);
    r := Some(Field(data, position.value, 4));
  }

  /** Where a table says its buckets and chains are, and the first symbol that is hashed. */
  datatype Table = Table(at: int, buckets: nat, first: nat, bloom: nat)

  function BucketsAt(t: Table): int { t.at + 16 + t.bloom * 8 }

  function ChainsAt(t: Table): int { BucketsAt(t) + t.buckets * 4 }

  function PrefixSize(t: Table): nat { 16 + t.bloom * 8 + t.buckets * 4 }

  ghost function Bucket(data: Bytes, loads: seq<Load>, t: Table, i: nat): Option<nat> {
    WordAt(data, loads, BucketsAt(t) + 4 * i)
  }

  ghost function Chain(data: Bytes, loads: seq<Load>, t: Table, index: int): Option<nat> {
    WordAt(data, loads, ChainsAt(t) + 4 * (index - t.first))
  }

  /** The header and the buckets lie in the file, in one piece. */
  ghost predicate HasPrefix(data: Bytes, loads: seq<Load>, t: Table) {
    At(loads, |data|, t.at, PrefixSize(t)).Some?
  }

  lemma {:induction false} BucketIsRead(data: Bytes, loads: seq<Load>, t: Table, i: nat)
    requires OneDelta(loads) && HasPrefix(data, loads, t) && i < t.buckets
    ensures var at := At(loads, |data|, t.at, PrefixSize(t)).value + 16 + t.bloom * 8 + 4 * i;
            0 <= at && at + 4 <= |data| && Bucket(data, loads, t, i) == Some(Field(data, at, 4))
  {
    PartResolves(loads, |data|, t.at, PrefixSize(t), 16 + t.bloom * 8 + 4 * i, 4);
    ResolvedInFile(loads, |data|, t.at, PrefixSize(t));
  }

  // ----- where a chain ends

  ghost predicate Odd(w: nat) { w % 2 == 1 }

  /** A chain starts at `from` and its last entry is at `to`. */
  ghost predicate Ends(data: Bytes, loads: seq<Load>, t: Table, from: int, to: int) {
    && from <= to
    && (forall j :: from <= j <= to ==> Chain(data, loads, t, j).Some?)
    && (forall j :: from <= j < to ==> !Odd(Chain(data, loads, t, j).value))
    && Odd(Chain(data, loads, t, to).value)
  }

  ghost predicate Ended(data: Bytes, loads: seq<Load>, t: Table, from: int) {
    exists to :: Ends(data, loads, t, from, to)
  }

  lemma {:induction false} EndsOnce(data: Bytes, loads: seq<Load>, t: Table, from: int, a: int, b: int)
    requires Ends(data, loads, t, from, a) && Ends(data, loads, t, from, b)
    ensures a == b
  {
  }

  lemma {:induction false} EndsForward(data: Bytes, loads: seq<Load>, t: Table, from: int, to: int)
    requires Ends(data, loads, t, from, to)
    ensures from <= to
  {
  }

  /** A chain that starts earlier ends no later. */
  lemma {:induction false} EarlierEndsEarlier(data: Bytes, loads: seq<Load>, t: Table, a: int, x: int, b: int, y: int)
    requires Ends(data, loads, t, a, x) && Ends(data, loads, t, b, y) && a <= b
    ensures x <= y
  {
    assert a <= y && Odd(Chain(data, loads, t, y).value);
  }

  /** No load has a byte from here on, so a walk up the chains ends. */
  function Limit(loads: seq<Load>): int {
    if loads == [] then 0
    else
      var rest, end := Limit(loads[1..]), loads[0].start + loads[0].size;
      if end > rest then end else rest
  }

  lemma {:induction false} BelowLimit(loads: seq<Load>, l: Load)
    requires l in loads
    ensures l.start + l.size <= Limit(loads)
  {
    if l != loads[0] { BelowLimit(loads[1..], l); }
  }

  lemma {:induction false} WordBelowLimit(data: Bytes, loads: seq<Load>, vaddr: int)
    requires WordAt(data, loads, vaddr).Some?
    ensures vaddr < Limit(loads)
  {
    EveryByteIsThere(loads, |data|, vaddr, 4, 0);
    var l :| l in loads && l.start <= vaddr < l.start + l.size;
    BelowLimit(loads, l);
  }

  // ----- the header

  ghost function TableAt(data: Bytes, loads: seq<Load>, at: int): Option<Table> {
    match At(loads, |data|, at, 16)
    case None => None
    case Some(p) =>
      if 0 <= p && p + 16 <= |data|
          then Some(Table(at, Field(data, p, 4), Field(data, p + 4, 4), Field(data, p + 8, 4))) else None
  }

  method ReadTable(data: Bytes, loads: seq<Load>, at: int) returns (r: Option<Table>)
    ensures r == TableAt(data, loads, at)
  {
    var p := Address(loads, |data|, at, 16);
    if p.None? {
      return None;
    }
    ResolvedInFile(loads, |data|, at, 16);
    r := Some(Table(at, Field(data, p.value, 4), Field(data, p.value + 4, 4), Field(data, p.value + 8, 4)));
  }

  // ----- the single chain

  /** The greatest bucket. */
  ghost predicate Greatest(data: Bytes, loads: seq<Load>, t: Table, n: nat, last: nat) {
    && (forall i :: 0 <= i < n ==> Bucket(data, loads, t, i).Some? && Bucket(data, loads, t, i).value <= last)
    && (last == 0 || exists i :: 0 <= i < n && Bucket(data, loads, t, i) == Some(last))
  }

  /** The count that the chain of the greatest bucket leads to. */
  ghost predicate OneFrom(data: Bytes, loads: seq<Load>, t: Table, last: nat, count: nat) {
    && Greatest(data, loads, t, t.buckets, last)
    && if last < t.first then count == t.first else Ends(data, loads, t, last, count - 1)
  }

  /** What the walk along one chain counts. */
  ghost predicate CountedByOne(data: Bytes, loads: seq<Load>, t: Table, r: Option<nat>) {
    match r
    case Some(count) =>
      && HasPrefix(data, loads, t)
      && exists last: nat :: OneFrom(data, loads, t, last, count)
    case None =>
      || !HasPrefix(data, loads, t)
      || (exists i :: 0 <= i < t.buckets && Bucket(data, loads, t, i).None?)
      || (exists last: nat ::
          Greatest(data, loads, t, t.buckets, last) && last >= t.first && !Ended(data, loads, t, last))
  }

  lemma {:induction false} GreatestNext(data: Bytes, loads: seq<Load>, t: Table, n: nat, last: nat, word: nat)
    requires Greatest(data, loads, t, n, last) && Bucket(data, loads, t, n) == Some(word)
    ensures Greatest(data, loads, t, n + 1, if word > last then word else last)
  {
    hide Bucket;
    if word <= last && last != 0 {
      var i :| 0 <= i < n && Bucket(data, loads, t, i) == Some(last);
    }
  }

  method GreatestBucket(data: Bytes, loads: seq<Load>, t: Table) returns (r: Option<nat>)
    ensures match r
            case Some(last) => Greatest(data, loads, t, t.buckets, last)
            case None => exists i :: 0 <= i < t.buckets && Bucket(data, loads, t, i).None?
  {
    var last: nat := 0;
    assert Greatest(data, loads, t, 0, last);
    for i := 0 to t.buckets
      invariant Greatest(data, loads, t, i, last)
    {
      hide WordAt, Greatest;
      var word := ReadWord(data, loads, BucketsAt(t) + 4 * i);
      assert word == Bucket(data, loads, t, i);
      if word.None? {
        return None;
      }
      GreatestNext(data, loads, t, i, last, word.value);
      last := if word.value > last then word.value else last;
    }
    r := Some(last);
  }

  /** Follows a chain to its end. */
  method FollowChain(data: Bytes, loads: seq<Load>, t: Table, from: nat) returns (r: Option<nat>)
    ensures r.Some? ==> Ends(data, loads, t, from, r.value)
    ensures r.None? ==> !Ended(data, loads, t, from)
  {
    var last := from;
    hide WordAt;
    while true
      invariant from <= last
      invariant forall j :: from <= j < last ==> Chain(data, loads, t, j).Some? && !Odd(Chain(data, loads, t, j).value)
      decreases Limit(loads) - (ChainsAt(t) + 4 * (last - t.first))
    {
      var word := ReadWord(data, loads, ChainsAt(t) + 4 * (last as int - t.first));
      assert word == Chain(data, loads, t, last);
      if word.None? {
        return None;
      }
      if word.value % 2 == 1 {
        return Some(last);
      }
      WordBelowLimit(data, loads, ChainsAt(t) + 4 * (last as int - t.first));
      last := last + 1;
    }
  }

  /** Counts the symbols along the chain of the greatest bucket. */
  method CountByOneChain(data: Bytes, loads: seq<Load>, t: Table) returns (r: Option<nat>)
    ensures CountedByOne(data, loads, t, r)
  {
    hide At, WordAt, Bucket, Chain, Greatest, Ends, PrefixSize;
    var prefix := Address(loads, |data|, t.at, PrefixSize(t));
    if prefix.None? {
      return None;
    }
    var last := GreatestBucket(data, loads, t);
    if last.None? {
      return None;
    }
    if last.value < t.first {
      assert OneFrom(data, loads, t, last.value, t.first);
      return Some(t.first);
    }
    var end := FollowChain(data, loads, t, last.value);
    if end.None? {
      return None;
    }
    r := Some(end.value + 1);
    assert OneFrom(data, loads, t, last.value, r.value);
  }

  // ----- every chain

  ghost predicate EndsBy(data: Bytes, loads: seq<Load>, t: Table, from: int, maximum: int) {
    exists to :: Ends(data, loads, t, from, to) && to <= maximum
  }

  /** The end of the chain that starts at `from`. */
  ghost function EndOf(data: Bytes, loads: seq<Load>, t: Table, from: nat): (r: int)
    requires Ended(data, loads, t, from)
    ensures Ends(data, loads, t, from, r)
  {
    var to :| Ends(data, loads, t, from, to);
    to
  }

  ghost predicate EvenBetween(data: Bytes, loads: seq<Load>, t: Table, b: nat, index: nat) {
    forall j :: b <= j < index ==> Chain(data, loads, t, j).Some? && !Odd(Chain(data, loads, t, j).value)
  }

  lemma {:induction false} EndsFurther(data: Bytes, loads: seq<Load>, t: Table, b: nat, index: nat, to: int)
    requires b <= index && Ends(data, loads, t, index, to) && EvenBetween(data, loads, t, b, index)
    ensures forall v: nat :: b <= v <= index ==> Ends(data, loads, t, v, to)
  {
  }

  lemma {:induction false} NotEnded(data: Bytes, loads: seq<Load>, t: Table, b: nat, index: nat)
    requires b <= index && EvenBetween(data, loads, t, b, index) && Chain(data, loads, t, index).None?
    ensures !Ended(data, loads, t, b)
  {
    forall to ensures !Ends(data, loads, t, b, to) {
      assert b <= to < index ==> !Odd(Chain(data, loads, t, to).value);
    }
  }

  /** The bucket's chain ends, and everything visited ends by the new maximum. */
  ghost predicate BucketDone(data: Bytes, loads: seq<Load>, t: Table, b: nat, maximum: int, visited': set<nat>,
                             maximum': int) {
    && Ended(data, loads, t, b)
    && maximum' == (if EndOf(data, loads, t, b) > maximum then EndOf(data, loads, t, b) else maximum)
    && forall v: nat :: v in visited' ==> EndsBy(data, loads, t, v, maximum')
  }

  lemma {:induction false} BucketIsDone(data: Bytes, loads: seq<Load>, t: Table, b: nat, index: nat, to: int,
                                        visited: set<nat>, maximum: int, visited': set<nat>, maximum': int)
    requires b <= index && EvenBetween(data, loads, t, b, index) && Ends(data, loads, t, index, to)
    requires forall v: nat :: v in visited ==> EndsBy(data, loads, t, v, maximum)
    requires forall v: nat :: v in visited' ==> v in visited || b <= v <= index
    requires maximum' == if to > maximum then to else maximum
    ensures BucketDone(data, loads, t, b, maximum, visited', maximum')
  {
    EndsFurther(data, loads, t, b, index, to);
    assert Ends(data, loads, t, b, to);
    EndsOnce(data, loads, t, b, to, EndOf(data, loads, t, b));
    hide Ends;
    forall v: nat | v in visited' ensures EndsBy(data, loads, t, v, maximum') {
      if v in visited {
        var x :| Ends(data, loads, t, v, x) && x <= maximum;
      } else {
        assert Ends(data, loads, t, v, to);
      }
    }
  }

  /** Follows the chain of one bucket until it ends or meets an entry that was visited. */
  method FollowBucket(data: Bytes, loads: seq<Load>, t: Table, b: nat, visited: set<nat>, maximum: int)
    returns (ok: bool, visited': set<nat>, maximum': int)
    requires InFile(loads, |data|) && forall v: nat :: v in visited ==> EndsBy(data, loads, t, v, maximum)
    ensures ok <==> Ended(data, loads, t, b)
    ensures ok ==> BucketDone(data, loads, t, b, maximum, visited', maximum')
  {
    var index: nat := b;
    visited', maximum' := visited, maximum;
    hide WordAt, Ends, Ended, EndsBy, BucketDone;
    while index !in visited'
      invariant b <= index && EvenBetween(data, loads, t, b, index)
      invariant maximum' == if index > b && index - 1 > maximum then index - 1 else maximum
      invariant forall v: nat :: v in visited' <==> v in visited || b <= v < index
      decreases Limit(loads) - (ChainsAt(t) + 4 * (index - t.first))
    {
      var word := ReadChain(data, loads, t, index);
      if word.None? {
        NotEnded(data, loads, t, b, index);
        return false, visited', maximum';
      }
      visited' := visited' + {index};
      if index > maximum' {
        maximum' := index;
      }
      if word.value % 2 == 1 {
        OddEnds(data, loads, t, index);
        BucketIsDone(data, loads, t, b, index, index, visited, maximum, visited', maximum');
        DoneParts(data, loads, t, b, maximum, visited', maximum');
        return true, visited', maximum';
      }
      index := index + 1;
    }
    var to := VisitedEnds(data, loads, t, index, maximum);
    BucketIsDone(data, loads, t, b, index, to, visited, maximum, visited', maximum');
    DoneParts(data, loads, t, b, maximum, visited', maximum');
    ok := true;
  }

  lemma {:induction false} OddEnds(data: Bytes, loads: seq<Load>, t: Table, index: nat)
    requires Chain(data, loads, t, index).Some? && Odd(Chain(data, loads, t, index).value)
    ensures Ends(data, loads, t, index, index)
  {
  }

  lemma {:induction false} VisitedEnds(data: Bytes, loads: seq<Load>, t: Table, index: nat, maximum: int)
    returns (to: int)
    requires EndsBy(data, loads, t, index, maximum)
    ensures Ends(data, loads, t, index, to) && index <= to <= maximum
  {
    to :| Ends(data, loads, t, index, to) && to <= maximum;
  }

  /** A chain entry, read the way the audit resolves addresses. */
  method ReadChain(data: Bytes, loads: seq<Load>, t: Table, index: nat) returns (r: Option<nat>)
    requires InFile(loads, |data|)
    ensures r == Chain(data, loads, t, index)
    ensures r.Some? ==> ChainsAt(t) + 4 * (index - t.first) < Limit(loads)
  {
    hide IsOffset, InFile, FirstReach, Resolve;
    var vaddr: int := ChainsAt(t) + 4 * (index as int - t.first);
    var position := FileOffset(loads, |data|, vaddr, 4);
    BothResolveAlike(loads, |data|, vaddr, 4);
    if position.None? {
      return None;
    }
    ResolvedInFile(loads, |data|, vaddr, 4);
    r := Some(Field(data, position.value, 4));
    WordBelowLimit(data, loads, vaddr);
  }

  /** The buckets as they lie in the file, one after the other. */
  function Words(data: Bytes, at: nat, n: nat): (r: seq<nat>)
    requires at + 4 * n <= |data|
    ensures |r| == n && forall i :: 0 <= i < n ==> r[i] == Field(data, at + 4 * i, 4)
  {
    seq(n, i requires 0 <= i < n => Field(data, at + 4 * i, 4))
  }

  ghost predicate Used(words: seq<nat>, n: nat, b: nat)
    requires n <= |words|
  {
    b != 0 && exists i :: 0 <= i < n && words[i] == b
  }

  ghost predicate UsedEnds(data: Bytes, loads: seq<Load>, t: Table, words: seq<nat>, n: nat, b: nat, to: int)
    requires n <= |words|
  {
    Used(words, n, b) && Ends(data, loads, t, b, to)
  }

  /** Every used bucket's chain ends by `maximum`, and one of them ends there, unless no bucket is used. */
  ghost predicate Highest(data: Bytes, loads: seq<Load>, t: Table, words: seq<nat>, n: nat, maximum: int)
    requires n <= |words|
  {
    maximum >= t.first - 1 && AllEndBy(data, loads, t, words, n, maximum)
    && (maximum == t.first - 1 || OneEndsAt(data, loads, t, words, n, maximum))
  }

  ghost predicate AllEndBy(data: Bytes, loads: seq<Load>, t: Table, words: seq<nat>, n: nat, maximum: int)
    requires n <= |words|
  {
    forall b: nat :: Used(words, n, b) ==> b >= t.first && EndsBy(data, loads, t, b, maximum)
  }

  ghost predicate OneEndsAt(data: Bytes, loads: seq<Load>, t: Table, words: seq<nat>, n: nat, maximum: int)
    requires n <= |words|
  {
    exists b: nat :: UsedEnds(data, loads, t, words, n, b, maximum)
  }

  /** What the walk along all chains counts: one more than the greatest end of a used bucket's chain. */
  ghost predicate CountedByAll(data: Bytes, loads: seq<Load>, t: Table, words: seq<nat>, r: Option<int>) {
    match r
    case Some(count) => Highest(data, loads, t, words, |words|, count - 1)
    case None => exists b: nat :: Used(words, |words|, b) && (b < t.first || !Ended(data, loads, t, b))
  }

  lemma {:induction false} NextUsed(words: seq<nat>, i: nat, b: nat)
    requires i < |words|
    ensures Used(words, i + 1, b) <==> Used(words, i, b) || (b != 0 && words[i] == b)
  {
  }

  lemma {:induction false} EndsLater(data: Bytes, loads: seq<Load>, t: Table, b: nat, maximum: int, maximum': int)
    requires EndsBy(data, loads, t, b, maximum) && maximum <= maximum'
    ensures EndsBy(data, loads, t, b, maximum')
  {
    hide Ends;
    var x :| Ends(data, loads, t, b, x) && x <= maximum;
    assert Ends(data, loads, t, b, x) && x <= maximum';
  }

  lemma {:induction false} NextAllEnd(data: Bytes, loads: seq<Load>, t: Table, words: seq<nat>, i: nat, maximum: int,
                                      to: int, maximum': int)
    requires i < |words| && AllEndBy(data, loads, t, words, i, maximum) && maximum <= maximum'
    requires words[i] != 0 ==> words[i] >= t.first && Ends(data, loads, t, words[i], to) && to <= maximum'
    ensures AllEndBy(data, loads, t, words, i + 1, maximum')
  {
    hide Ends, Used, EndsBy;
    forall b: nat | Used(words, i + 1, b) ensures b >= t.first && EndsBy(data, loads, t, b, maximum') {
      NextUsed(words, i, b);
      if Used(words, i, b) {
        EndsLater(data, loads, t, b, maximum, maximum');
      } else {
        EndsIsBy(data, loads, t, b, to, maximum');
      }
    }
  }

  lemma {:induction false} NextOneEnds(data: Bytes, loads: seq<Load>, t: Table, words: seq<nat>, i: nat, maximum: int)
    requires i < |words|
    requires OneEndsAt(data, loads, t, words, i, maximum) || (words[i] != 0 && Ends(data, loads, t, words[i], maximum))
    ensures OneEndsAt(data, loads, t, words, i + 1, maximum)
  {
    hide Ends, Used;
    if OneEndsAt(data, loads, t, words, i, maximum) {
      var x: nat :| UsedEnds(data, loads, t, words, i, x, maximum);
      NextUsed(words, i, x);
      assert UsedEnds(data, loads, t, words, i + 1, x, maximum);
    } else {
      NextUsed(words, i, words[i]);
      assert UsedEnds(data, loads, t, words, i + 1, words[i], maximum);
    }
  }

  lemma {:induction false} NextBucket(data: Bytes, loads: seq<Load>, t: Table, words: seq<nat>, i: nat, maximum: int,
                                      to: int, maximum': int)
    requires i < |words| && Highest(data, loads, t, words, i, maximum)
    requires words[i] == 0 ==> maximum' == maximum
    requires words[i] != 0 ==> words[i] >= t.first && Ends(data, loads, t, words[i], to)
    requires words[i] != 0 ==> maximum' == if to > maximum then to else maximum
    ensures Highest(data, loads, t, words, i + 1, maximum')
  {
    hide Ends, AllEndBy, OneEndsAt;
    NextAllEnd(data, loads, t, words, i, maximum, to, maximum');
    if maximum' != t.first - 1 {
      NextOneEnds(data, loads, t, words, i, maximum');
    }
  }

  lemma {:induction false} EndsIsBy(data: Bytes, loads: seq<Load>, t: Table, b: nat, to: int, maximum: int)
    requires Ends(data, loads, t, b, to) && to <= maximum
    ensures EndsBy(data, loads, t, b, maximum)
  {
    hide Ends;
  }

  lemma {:induction false} NoBucketYet(data: Bytes, loads: seq<Load>, t: Table, words: seq<nat>)
    ensures Highest(data, loads, t, words, 0, t.first - 1)
  {
  }

  lemma {:induction false} RefusedBucket(data: Bytes, loads: seq<Load>, t: Table, words: seq<nat>, i: nat)
    requires i < |words| && words[i] != 0 && (words[i] < t.first || !Ended(data, loads, t, words[i]))
    ensures CountedByAll(data, loads, t, words, None)
  {
    assert Used(words, |words|, words[i]);
  }

  lemma {:induction false} DoneParts(data: Bytes, loads: seq<Load>, t: Table, b: nat, maximum: int, visited': set<nat>,
                                     maximum': int)
    requires BucketDone(data, loads, t, b, maximum, visited', maximum')
    ensures Ended(data, loads, t, b)
    ensures maximum' == (if EndOf(data, loads, t, b) > maximum then EndOf(data, loads, t, b) else maximum)
    ensures forall v: nat :: v in visited' ==> EndsBy(data, loads, t, v, maximum')
  {
  }

  /** After the first i buckets. */
  ghost predicate Walked(data: Bytes, loads: seq<Load>, t: Table, words: seq<nat>, i: nat, visited: set<nat>,
                         maximum: int)
    requires i <= |words|
  {
    && Highest(data, loads, t, words, i, maximum)
    && forall v: nat :: v in visited ==> EndsBy(data, loads, t, v, maximum)
  }

  /** Walks every chain from the buckets at a position of the file. */
  method WalkAll(data: Bytes, loads: seq<Load>, t: Table, at: nat) returns (r: Option<int>)
    requires InFile(loads, |data|) && at + 4 * t.buckets <= |data|
    ensures CountedByAll(data, loads, t, Words(data, at, t.buckets), r)
  {
    ghost var words := Words(data, at, t.buckets);
    var maximum: int := t.first - 1;
    var visited: set<nat> := {};
    NoBucketYet(data, loads, t, words);
    for i := 0 to t.buckets
      invariant Walked(data, loads, t, words, i, visited, maximum)
    {
      hide Walked, Highest;
      var ok;
      ok, visited, maximum := WalkOne(data, loads, t, Field(data, at + 4 * i, 4), words, i, visited, maximum);
      if !ok {
        return None;
      }
    }
    r := Some(maximum + 1);
  }

  method WalkOne(data: Bytes, loads: seq<Load>, t: Table, index: nat, ghost words: seq<nat>, ghost i: nat,
                 visited: set<nat>, maximum: int)
    returns (ok: bool, visited': set<nat>, maximum': int)
    requires InFile(loads, |data|) && i < |words| && words[i] == index
        && Walked(data, loads, t, words, i, visited, maximum)
    ensures ok ==> Walked(data, loads, t, words, i + 1, visited', maximum')
    ensures !ok ==> CountedByAll(data, loads, t, words, None)
  {
    visited', maximum' := visited, maximum;
    hide EndsBy, Ended, Ends, BucketDone, Highest;
    if index == 0 {
      NextBucket(data, loads, t, words, i, maximum, 0, maximum);
      return true, visited', maximum';
    }
    if index < t.first {
      RefusedBucket(data, loads, t, words, i);
      return false, visited', maximum';
    }
    ok, visited', maximum' := FollowBucket(data, loads, t, index, visited, maximum);
    if !ok {
      RefusedBucket(data, loads, t, words, i);
    } else {
      DoneParts(data, loads, t, index, maximum, visited', maximum');
      NextBucket(data, loads, t, words, i, maximum, EndOf(data, loads, t, index), maximum');
    }
  }

  // ----- the two counts

  /** Where the audit reads the buckets, one after the other, when the header lies at this position. */
  function BucketsFrom(t: Table, position: nat): nat { position + 16 + t.bloom * 8 }

  /** The count along all chains from the buckets behind the header; none when the prefix is not in the file. */
  ghost predicate CountedByEvery(data: Bytes, loads: seq<Load>, t: Table, position: nat, r: Option<int>) {
    if HasPrefix(data, loads, t) && BucketsFrom(t, position) + 4 * t.buckets <= |data| then
      CountedByAll(data, loads, t, Words(data, BucketsFrom(t, position), t.buckets), r)
    else r == None
  }

  /** Counts the symbols along every chain; the audit has checked that the loads lie in the file. */
  method CountByEveryChain(data: Bytes, loads: seq<Load>, t: Table, position: nat) returns (r: Option<int>)
    requires InFile(loads, |data|) && At(loads, |data|, t.at, 16) == Some(position)
    ensures CountedByEvery(data, loads, t, position, r)
  {
    hide CountedByAll, InFile, FirstReach, Resolve, IsOffset;
    var prefix := FileOffset(loads, |data|, t.at, PrefixSize(t));
    BothResolveAlike(loads, |data|, t.at, PrefixSize(t));
    if prefix.None? {
      return None;
    }
    var at := position + 16 + t.bloom * 8;
    if at + 4 * t.buckets > |data| {
      return None;
    }
    r := WalkAll(data, loads, t, at);
  }

  /** The greatest of the words, or 0. */
  ghost predicate GreatestWord(words: seq<nat>, w: nat) {
    (forall i :: 0 <= i < |words| ==> words[i] <= w) && (w == 0 || w in words)
  }

  lemma {:induction false} SomeGreatestWord(words: seq<nat>) returns (w: nat)
    ensures GreatestWord(words, w)
  {
    w := 0;
    if words != [] {
      var last := words[|words| - 1];
      w := SomeGreatestWord(words[..|words| - 1]);
      w := if last > w then last else w;
    }
  }

  /**
    Of the greatest bucket as one tool resolves it and the greatest as the other reads it: no chain is followed from
    either, or the chains from both end at one symbol.
   */
  ghost predicate SameEnd(data: Bytes, loads: seq<Load>, t: Table, one: nat, all: nat) {
    if all == 0 then one < t.first
    else one >= t.first && exists end :: Ends(data, loads, t, one, end) && Ends(data, loads, t, all, end)
  }

  ghost predicate LeadAlike(data: Bytes, loads: seq<Load>, t: Table, words: seq<nat>) {
    exists one: nat, all: nat ::
      Greatest(data, loads, t, t.buckets, one) && GreatestWord(words, all) && SameEnd(data, loads, t, one, all)
  }

  lemma {:induction false} WordIsUsed(words: seq<nat>, w: nat)
    requires GreatestWord(words, w)
    ensures w == 0 <==> AllZero(words)
    ensures w != 0 ==> Used(words, |words|, w)
    ensures forall b: nat :: Used(words, |words|, b) ==> b <= w
  {
    if w != 0 {
      var i :| 0 <= i < |words| && words[i] == w;
    }
  }

  ghost predicate AllZero(words: seq<nat>) { forall i :: 0 <= i < |words| ==> words[i] == 0 }

  /** The count along all chains is the end of the greatest word's chain, and one; or that nothing is hashed. */
  lemma {:induction false} AllIs(data: Bytes, loads: seq<Load>, t: Table, words: seq<nat>, w: nat, all: int)
    requires CountedByAll(data, loads, t, words, Some(all)) && GreatestWord(words, w)
    ensures if w == 0 then all == t.first else w >= t.first && Ends(data, loads, t, w, all - 1)
  {
    hide CountedByAll, GreatestWord, Ends, Used;
    WordIsUsed(words, w);
    if w == 0 {
      NoBucketUsed(data, loads, t, words, all);
    } else {
      GreatestDecides(data, loads, t, words, w, all);
    }
  }

  /** The count along all chains is the end of the greatest bucket's chain, and one. */
  lemma {:induction false} GreatestDecides(data: Bytes, loads: seq<Load>, t: Table, words: seq<nat>, last: nat,
                                           count: int)
    requires CountedByAll(data, loads, t, words, Some(count)) && Used(words, |words|, last)
    requires forall b: nat :: Used(words, |words|, b) ==> b <= last
    ensures last >= t.first && Ends(data, loads, t, last, count - 1)
  {
    var maximum := count - 1;
    hide Ends, Used;
    assert AllEndBy(data, loads, t, words, |words|, maximum) && EndsBy(data, loads, t, last, maximum);
    var e :| Ends(data, loads, t, last, e) && e <= maximum;
    EndsForward(data, loads, t, last, e);
    var b: nat :| UsedEnds(data, loads, t, words, |words|, b, maximum);
    EarlierEndsEarlier(data, loads, t, b, maximum, last, e);
    assert e == maximum;
  }

  lemma {:induction false} NoBucketUsed(data: Bytes, loads: seq<Load>, t: Table, words: seq<nat>, count: int)
    requires AllZero(words) && CountedByAll(data, loads, t, words, Some(count))
    ensures count == t.first
  {
  }

  lemma {:induction false} GreatestOnce(data: Bytes, loads: seq<Load>, t: Table, n: nat, a: nat, b: nat)
    requires Greatest(data, loads, t, n, a) && Greatest(data, loads, t, n, b)
    ensures a == b
  {
  }

  lemma {:induction false} GreatestWordOnce(words: seq<nat>, a: nat, b: nat)
    requires GreatestWord(words, a) && GreatestWord(words, b)
    ensures a == b
  {
  }

  /** The count along one chain, from the greatest bucket. */
  lemma {:induction false} OneIs(data: Bytes, loads: seq<Load>, t: Table, last: nat, one: Option<nat>)
    requires HasPrefix(data, loads, t) && Greatest(data, loads, t, t.buckets, last)
    requires CountedByOne(data, loads, t, one)
    ensures match one
            case Some(count) => if last < t.first then count == t.first else Ends(data, loads, t, last, count - 1)
            case None => last >= t.first && !Ended(data, loads, t, last)
  {
    hide HasPrefix, Ends;
    forall other: nat | Greatest(data, loads, t, t.buckets, other) ensures other == last {
      GreatestOnce(data, loads, t, t.buckets, last, other);
    }
  }

  /**
    Whatever the loads are: where the walk along all chains gives a count, the walk along one chain gives the same
    exactly when the greatest bucket each of them sees leads to the same end, or neither is followed.
   */
  lemma {:induction false} CountsAgreeWhen(data: Bytes, loads: seq<Load>, t: Table, position: nat, all: int,
                                           one: Option<nat>)
    requires CountedByEvery(data, loads, t, position, Some(all)) && CountedByOne(data, loads, t, one)
    ensures BucketsFrom(t, position) + 4 * t.buckets <= |data|
    ensures (one.Some? && one.value == all)
            <==> LeadAlike(data, loads, t, Words(data, BucketsFrom(t, position), t.buckets))
  {
    hide HasPrefix, CountedByAll, Greatest, GreatestWord, Ends, Words;
    var words := Words(data, BucketsFrom(t, position), t.buckets);
    var w := SomeGreatestWord(words);
    AllIs(data, loads, t, words, w, all);
    if one.Some? && one.value == all {
      var last: nat :| OneFrom(data, loads, t, last, all);
      OneIs(data, loads, t, last, one);
      EqualIsSameEnd(data, loads, t, last, w, all);
    }
    if LeadAlike(data, loads, t, words) {
      var last: nat, w': nat :|
        Greatest(data, loads, t, t.buckets, last) && GreatestWord(words, w') && SameEnd(data, loads, t, last, w');
      GreatestWordOnce(words, w, w');
      OneIs(data, loads, t, last, one);
      SameEndIsEqual(data, loads, t, last, w, all, one);
    }
  }

  lemma {:induction false} EqualIsSameEnd(data: Bytes, loads: seq<Load>, t: Table, last: nat, w: nat, all: int)
    requires if w == 0 then all == t.first else w >= t.first && Ends(data, loads, t, w, all - 1)
    requires if last < t.first then all == t.first else Ends(data, loads, t, last, all - 1)
    ensures SameEnd(data, loads, t, last, w)
  {
    hide Ends;
    if w != 0 { EndsForward(data, loads, t, w, all - 1); }
    if last >= t.first { EndsForward(data, loads, t, last, all - 1); }
  }

  lemma {:induction false} SameEndIsEqual(data: Bytes, loads: seq<Load>, t: Table, last: nat, w: nat, all: int,
                                          one: Option<nat>)
    requires if w == 0 then all == t.first else w >= t.first && Ends(data, loads, t, w, all - 1)
    requires SameEnd(data, loads, t, last, w)
    requires match one
             case Some(count) => if last < t.first then count == t.first else Ends(data, loads, t, last, count - 1)
             case None => last >= t.first && !Ended(data, loads, t, last)
    ensures one.Some? && one.value == all
  {
    hide Ends;
    if w != 0 {
      var end :| Ends(data, loads, t, last, end) && Ends(data, loads, t, w, end);
      EndsOnce(data, loads, t, w, end, all - 1);
      if one.Some? { EndsOnce(data, loads, t, last, end, one.value - 1); }
    }
  }

  // ----- where loads agree

  /** The words are the buckets, which they are when loads agree on every address. */
  ghost predicate AreBuckets(data: Bytes, loads: seq<Load>, t: Table, words: seq<nat>) {
    |words| == t.buckets && forall i :: 0 <= i < t.buckets ==> Bucket(data, loads, t, i) == Some(words[i])
  }

  lemma {:induction false} WordsAreBuckets(data: Bytes, loads: seq<Load>, t: Table, position: nat)
    requires OneDelta(loads) && HasPrefix(data, loads, t) && At(loads, |data|, t.at, 16) == Some(position)
    ensures BucketsFrom(t, position) + 4 * t.buckets <= |data|
    ensures AreBuckets(data, loads, t, Words(data, BucketsFrom(t, position), t.buckets))
  {
    PartResolves(loads, |data|, t.at, PrefixSize(t), 0, 16);
    ResolvedInFile(loads, |data|, t.at, PrefixSize(t));
    forall i | 0 <= i < t.buckets
      ensures Bucket(data, loads, t, i) == Some(Words(data, BucketsFrom(t, position), t.buckets)[i])
    {
      BucketIsRead(data, loads, t, i);
    }
  }

  lemma {:induction false} GreatestIsWord(data: Bytes, loads: seq<Load>, t: Table, words: seq<nat>, w: nat)
    requires AreBuckets(data, loads, t, words)
    ensures Greatest(data, loads, t, t.buckets, w) <==> GreatestWord(words, w)
  {
    hide Bucket;
  }

  /**
    When no address is backed at two distances, the two counts agree, except on a table that hashes from symbol 0 on
    and has no used bucket.
   */
  lemma {:induction false} CountsAgree(data: Bytes, loads: seq<Load>, t: Table, position: nat, all: int,
                                       one: Option<nat>)
    requires OneDelta(loads) && At(loads, |data|, t.at, 16) == Some(position)
    requires CountedByEvery(data, loads, t, position, Some(all)) && CountedByOne(data, loads, t, one)
    ensures (one.Some? && one.value == all)
            <==> !(t.first == 0 && forall i :: 0 <= i < t.buckets ==> Bucket(data, loads, t, i) == Some(0))
  {
    hide HasPrefix, CountedByAll, CountedByOne, Greatest, GreatestWord, Ends, Words, Bucket, OneDelta, At;
    WordsAreBuckets(data, loads, t, position);
    var words := Words(data, BucketsFrom(t, position), t.buckets);
    var w := SomeGreatestWord(words);
    AllIs(data, loads, t, words, w, all);
    WordIsUsed(words, w);
    GreatestIsWord(data, loads, t, words, w);
    CountsAgreeWhen(data, loads, t, position, all, one);
    forall last: nat, w': nat | Greatest(data, loads, t, t.buckets, last) && GreatestWord(words, w')
      ensures last == w' == w
    {
      GreatestOnce(data, loads, t, t.buckets, last, w);
      GreatestWordOnce(words, w, w');
    }
    assert LeadAlike(data, loads, t, words) <==> SameEnd(data, loads, t, w, w);
  }
}
