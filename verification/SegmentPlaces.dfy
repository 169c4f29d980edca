/**
  Where every segment ends up, told from headers and records alone: which record settles it, after which segment it is
  stored, which record a load takes, which load hosts it, and why a container is refused.
 */
module SegmentPlaces {
  import opened Options
  import opened ElfFormat
  import opened Sorting
  import opened SegmentPlacement

  // ----- what a header says; a PT_NULL one counts as zero

  ghost function Address(s: Segment): nat { if s.kind == PT_NULL then 0 else s.vaddr }

  ghost function Bytes(s: Segment): nat { if s.kind == PT_NULL then 0 else s.size }

  ghost function Memory(s: Segment): nat { if s.kind == PT_NULL then 0 else s.memory }

  ghost function InElf(s: Segment): nat { if s.kind == PT_NULL then 0 else s.offset }

  /** Neither a load nor mapped to an address. */
  ghost predicate Loose(s: Segment) { s.kind != PT_LOAD && Address(s) == 0 }

  // ----- records settle the headers they name

  /** The record carries a segment number, which is this header's, and has its size. */
  ghost predicate NamesIt(segs: seq<Segment>, records: seq<Record>, i: nat, h: nat)
    requires i < |records| && h < |segs|
  {
    && records[i].flags / 0x800 % 2 == 1 && records[i].flags / 0x10_0000 == h
    && records[i].size == Bytes(segs[h])
  }

  /** The first record that names the header. */
  ghost predicate Settles(segs: seq<Segment>, records: seq<Record>, i: nat, h: nat)
    requires h < |segs|
  {
    i < |records| && NamesIt(segs, records, i, h) && forall k :: 0 <= k < i ==> !NamesIt(segs, records, k, h)
  }

  ghost predicate Settled(segs: seq<Segment>, records: seq<Record>, h: nat)
    requires h < |segs|
  {
    exists i :: 0 <= i < |records| && NamesIt(segs, records, i, h)
  }

  ghost predicate NamedBefore(segs: seq<Segment>, records: seq<Record>, h: nat, n: nat)
    requires h < |segs| && n <= |records|
  {
    exists i :: 0 <= i < n && NamesIt(segs, records, i, h)
  }

  ghost predicate Used(segs: seq<Segment>, records: seq<Record>, k: nat) {
    exists h :: 0 <= h < |segs| && Settles(segs, records, k, h)
  }

  /** The record pass after n records. */
  ghost predicate SettledUpTo(segs: seq<Segment>, records: seq<Record>, n: nat, m: Matching)
    requires n <= |records|
  {
    && |m.segs| == |segs|
    && (forall h :: 0 <= h < |segs| ==> m.segs[h] == Nulled(segs[h]).(source := m.segs[h].source))
    && (forall h :: 0 <= h < |segs| ==> (h in m.placed <==> NamedBefore(segs, records, h, n)))
    && (forall h :: h in m.placed ==> h < |segs|)
    && (forall h :: 0 <= h < |segs| && h !in m.placed ==> m.segs[h] == Nulled(segs[h]))
    && (forall i, h :: 0 <= i < n && 0 <= h < |segs| && Settles(segs, records, i, h) ==>
          m.segs[h].source == records[i].segment)
    && (forall k: nat :: k in m.used <==> k < n && Used(segs, records, k))
  }

  lemma {:induction false} RecordsSettle(segs: seq<Segment>, records: seq<Record>, n: nat)
    requires n <= |records|
    ensures SettledUpTo(segs, records, n, RecordPass(NullAll(segs), records, n))
  {
    hide SettledUpTo, RecordStep;
    if n == 0 {
      NoneSettled(segs, records);
    } else {
      RecordsSettle(segs, records, n - 1);
      RecordSettles(segs, records, n - 1, RecordPass(NullAll(segs), records, n - 1));
    }
  }

  lemma {:induction false} NoneSettled(segs: seq<Segment>, records: seq<Record>)
    ensures SettledUpTo(segs, records, 0, RecordPass(NullAll(segs), records, 0))
  {
  }

  lemma {:induction false} RecordSettles(segs: seq<Segment>, records: seq<Record>, n: nat, m: Matching)
    requires n < |records| && SettledUpTo(segs, records, n, m)
    ensures SettledUpTo(segs, records, n + 1, RecordStep(m, records[n], n))
  {
    var m', t := RecordStep(m, records[n], n), records[n].flags / RECORD_SEGMENT_SCALE;
    forall h | 0 <= h < |segs|
      ensures NamedBefore(segs, records, h, n + 1) <==> NamedBefore(segs, records, h, n) || NamesIt(segs, records, n, h)
      ensures Settles(segs, records, n, h) <==> NamesIt(segs, records, n, h) && !NamedBefore(segs, records, h, n)
    {
      if NamedBefore(segs, records, h, n + 1) {
        var i :| 0 <= i < n + 1 && NamesIt(segs, records, i, h);
      }
    }
    hide NamedBefore;
    assert Feeds(m, records[n]) <==> t < |segs| && Settles(segs, records, n, t);
    forall h | 0 <= h < |segs| && Settles(segs, records, n, h) ensures h == t {
    }
    forall i, h | 0 <= i < n && 0 <= h < |segs| && Settles(segs, records, i, h) ensures h in m.placed {
      NamedIsBefore(segs, records, i, h, n);
    }
  }

  lemma {:induction false} NamedIsBefore(segs: seq<Segment>, records: seq<Record>, i: nat, h: nat, n: nat)
    requires i < n <= |records| && h < |segs| && NamesIt(segs, records, i, h)
    ensures NamedBefore(segs, records, h, n)
  {
  }

  // ----- what is loose is stored after the last loose header that is settled

  /** The settled loose header with the greatest offset, the first of them if there are several. */
  ghost predicate IsLast(segs: seq<Segment>, records: seq<Record>, l: nat) {
    && l < |segs| && Loose(segs[l]) && Settled(segs, records, l)
    && forall h :: 0 <= h < |segs| && h != l && Loose(segs[h]) && Settled(segs, records, h) ==>
         InElf(segs[h]) < InElf(segs[l]) || (InElf(segs[h]) == InElf(segs[l]) && l < h)
  }

  /** A loose header with bytes, not settled, that comes after it in the ELF. */
  ghost predicate ComesAfter(segs: seq<Segment>, records: seq<Record>, l: nat, h: nat)
    requires l < |segs| && h < |segs|
  {
    Loose(segs[h]) && Bytes(segs[h]) > 0 && !Settled(segs, records, h) && InElf(segs[h]) > InElf(segs[l])
  }

  ghost predicate Earlier(segs: seq<Segment>, g: nat, h: nat)
    requires g < |segs| && h < |segs|
  {
    InElf(segs[g]) < InElf(segs[h]) || (InElf(segs[g]) == InElf(segs[h]) && g < h)
  }

  /** All of them, by offset and then as in the table. */
  ghost predicate InElfOrder(segs: seq<Segment>, records: seq<Record>, l: nat, order: seq<nat>)
    requires l < |segs|
  {
    && (forall a :: 0 <= a < |order| ==> order[a] < |segs| && ComesAfter(segs, records, l, order[a]))
    && (forall h :: 0 <= h < |segs| && ComesAfter(segs, records, l, h) ==> h in order)
    && forall a, b :: 0 <= a < b < |order| ==> Earlier(segs, order[a], order[b])
  }

  /** The bytes of the first n of them, notes aside. */
  ghost function BytesOf(segs: seq<Segment>, order: seq<nat>, n: nat): nat
    requires n <= |order| && forall a :: 0 <= a < |order| ==> order[a] < |segs|
  {
    if n == 0 then 0
    else BytesOf(segs, order, n - 1) + if segs[order[n - 1]].kind == PT_NOTE then 0 else segs[order[n - 1]].size
  }

  /** It lies right after those before it, or has no bytes left if it is a note or would run past the end. */
  ghost predicate StoredOne(segs: seq<Segment>, length: nat, order: seq<nat>, start: int, out: seq<Segment>, a: nat)
    requires |out| == |segs| && (forall b :: 0 <= b < |order| ==> order[b] < |segs|) && a < |order|
  {
    var s, at := segs[order[a]], start + BytesOf(segs, order, a);
    if s.kind == PT_NOTE || at + s.size > length then out[order[a]].source == 0 && out[order[a]].size == 0
    else out[order[a]].source == at && out[order[a]].size == s.size
  }

  ghost predicate StoredRight(segs: seq<Segment>, length: nat, order: seq<nat>, start: int, out: seq<Segment>)
    requires |out| == |segs| && forall a :: 0 <= a < |order| ==> order[a] < |segs|
  {
    forall a :: 0 <= a < |order| ==> StoredOne(segs, length, order, start, out, a)
  }

  ghost predicate TrailingRight(segs: seq<Segment>, records: seq<Record>, length: nat, out: seq<Segment>)
    requires |out| == |segs|
  {
    (exists l: nat :: IsLast(segs, records, l)) ==>
      exists l: nat, order: seq<nat> :: IsLast(segs, records, l) && InElfOrder(segs, records, l, order)
                         && StoredRight(segs, length, order, out[l].source + out[l].size, out)
  }

  ghost predicate FirstGreatest(segs: seq<Segment>, placed: set<nat>, l: nat, n: nat)
    requires l < |segs| && n <= |segs|
  {
    forall h: nat :: h < n && h in placed && Unaddressed(segs[h]) && h != l ==>
      segs[h].offset < segs[l].offset || (segs[h].offset == segs[l].offset && l < h)
  }

  lemma {:induction false} LastRecordedIs(segs: seq<Segment>, placed: set<nat>, n: nat)
    requires n <= |segs|
    ensures var r := LastRecorded(segs, placed, n);
            r.None? ==> forall h: nat :: h < n && h in placed ==> !Unaddressed(segs[h])
    ensures var r := LastRecorded(segs, placed, n);
            r.Some? ==> Unaddressed(segs[r.value]) && FirstGreatest(segs, placed, r.value, n)
  {
    if n > 0 { LastRecordedIs(segs, placed, n - 1); }
  }

  lemma {:induction false} LooseIs(s: Segment)
    ensures Loose(s) <==> Unaddressed(Nulled(s))
    ensures InElf(s) == Nulled(s).offset && Bytes(s) == Nulled(s).size && Nulled(s).kind == s.kind
  {
  }

  lemma {:induction false} LastIs(segs: seq<Segment>, records: seq<Record>, m: Matching)
    requires SettledUpTo(segs, records, |records|, m)
    ensures var r := LastRecorded(m.segs, m.placed, |m.segs|);
            && (r.Some? ==> IsLast(segs, records, r.value))
            && (r.None? ==> forall l: nat :: !IsLast(segs, records, l))
  {
    hide NamesIt;
    LastRecordedIs(m.segs, m.placed, |m.segs|);
    forall h | 0 <= h < |segs|
      ensures Loose(segs[h]) <==> Unaddressed(m.segs[h])
      ensures InElf(segs[h]) == m.segs[h].offset && (h in m.placed <==> Settled(segs, records, h))
    {
      LooseIs(segs[h]);
    }
  }

  // ----- the order of the trailing pass is the order in the ELF

  const BY_PLACE: (Ranked, Ranked) -> bool := (a: Ranked, b: Ranked) => a.at <= b.at

  function Places(order: seq<Ranked>): (r: seq<nat>)
    ensures |r| == |order| && forall a :: 0 <= a < |r| ==> r[a] == order[a].at
  {
    seq(|order|, a requires 0 <= a < |order| => order[a].at)
  }

  lemma {:induction false} TrailingInPlace(segs: seq<Segment>, placed: set<nat>, last: nat, n: nat)
    requires last < |segs| && n <= |segs|
    ensures SortedBy(TrailingIn(segs, placed, last, n), BY_PLACE)
  {
    hide Trails;
    if n > 0 {
      TrailingInPlace(segs, placed, last, n - 1);
      TrailingInMembers(segs, placed, last, n - 1);
      var init := TrailingIn(segs, placed, last, n - 1);
      forall a | 0 <= a < |init| ensures init[a].at < n - 1 {
        assert init[a] in init;
      }
    }
  }

  lemma {:induction false} TrailingIsStable(segs: seq<Segment>, placed: set<nat>, last: nat)
    requires last < |segs|
    ensures var order := Trailing(segs, placed, last);
            forall a, b :: 0 <= a < b < |order| && order[a].key == order[b].key ==> order[a].at <= order[b].at
  {
    TrailingInPlace(segs, placed, last, |segs|);
    SortByStable(TrailingIn(segs, placed, last, |segs|), BY_KEY, BY_PLACE);
  }

  lemma {:induction false} OrderIs(segs: seq<Segment>, records: seq<Record>, m: Matching, l: nat)
    requires SettledUpTo(segs, records, |records|, m) && l < |segs|
    ensures InElfOrder(segs, records, l, Places(Trailing(m.segs, m.placed, l)))
  {
    hide NamesIt, Trailing;
    var order := Trailing(m.segs, m.placed, l);
    TrailingMembers(m.segs, m.placed, l);
    TrailingIsStable(m.segs, m.placed, l);
    LooseIs(segs[l]);
    forall h | 0 <= h < |segs|
      ensures ComesAfter(segs, records, l, h) <==> Trails(m.segs, m.placed, l, h)
      ensures InElf(segs[h]) == m.segs[h].offset
    {
      LooseIs(segs[h]);
    }
    forall a | 0 <= a < |order| ensures order[a].at < |segs| && ComesAfter(segs, records, l, order[a].at) {
      assert order[a] in order;
    }
    forall h | 0 <= h < |segs| && ComesAfter(segs, records, l, h) ensures h in Places(order) {
      var a :| 0 <= a < |order| && order[a] == Ranked(m.segs[h].offset, h);
      assert Places(order)[a] == h;
    }
    forall a, b | 0 <= a < b < |order|
      ensures var x, y := segs[order[a].at], segs[order[b].at];
              InElf(x) < InElf(y) || (InElf(x) == InElf(y) && order[a].at < order[b].at)
    {
      assert order[a] in order && order[b] in order;
    }
  }

  lemma {:induction false} BytesAre(segs: seq<Segment>, records: seq<Record>, m: Matching, order: seq<Ranked>, n: nat)
    requires SettledUpTo(segs, records, |records|, m) && n <= |order| && (forall x :: x in order ==> x.at < |segs|)
    requires forall x :: x in order ==> Bytes(segs[x.at]) > 0
    ensures forall a :: 0 <= a < |order| ==> Places(order)[a] < |segs|
    ensures StoredUpTo(m.segs, order, n) == BytesOf(segs, Places(order), n)
  {
    hide SettledUpTo;
    forall a | 0 <= a < |order| ensures Places(order)[a] < |segs| {
      assert order[a] in order;
    }
    if n > 0 {
      BytesAre(segs, records, m, order, n - 1);
      assert order[n - 1] in order;
      SegmentIs(segs, records, m, order[n - 1].at);
    }
  }

  lemma {:induction false} SegmentIs(segs: seq<Segment>, records: seq<Record>, m: Matching, h: nat)
    requires SettledUpTo(segs, records, |records|, m) && h < |segs|
    ensures |m.segs| == |segs| && m.segs[h].kind == segs[h].kind && m.segs[h].size == Bytes(segs[h])
  {
  }

  /** The header's place is settled by a record or by the trailing pass. */
  ghost predicate IsTrailing(segs: seq<Segment>, records: seq<Record>, h: nat)
    requires h < |segs|
  {
    exists l: nat :: l < |segs| && IsLast(segs, records, l) && ComesAfter(segs, records, l, h)
  }

  ghost predicate InPlace(segs: seq<Segment>, records: seq<Record>, h: nat)
    requires h < |segs|
  {
    Settled(segs, records, h) || IsTrailing(segs, records, h)
  }

  /** What the records and the trailing pass leave of the headers. */
  ghost predicate Trailed(segs: seq<Segment>, records: seq<Record>, length: nat, t: Matching) {
    && |t.segs| == |segs| && TrailingRight(segs, records, length, t.segs)
    && (forall h :: h in t.placed ==> h < |segs|)
    && (forall h :: 0 <= h < |segs| ==> TrailedAt(segs, records, t, h))
    && (forall i, h :: 0 <= i < |records| && 0 <= h < |segs| && Settles(segs, records, i, h) ==>
          t.segs[h].source == records[i].segment)
    && (forall k: nat :: k in t.used <==> Used(segs, records, k))
  }

  ghost predicate TrailedAt(segs: seq<Segment>, records: seq<Record>, t: Matching, h: nat)
    requires h < |segs| == |t.segs|
  {
    && t.segs[h] == Nulled(segs[h]).(source := t.segs[h].source, size := t.segs[h].size)
    && (h in t.placed <==> InPlace(segs, records, h))
    && (!InPlace(segs, records, h) ==> t.segs[h] == Nulled(segs[h]))
    && (!IsTrailing(segs, records, h) ==> t.segs[h].size == Bytes(segs[h]))
  }

  lemma {:induction false} OneLast(segs: seq<Segment>, records: seq<Record>, l: nat, k: nat)
    requires IsLast(segs, records, l) && IsLast(segs, records, k)
    ensures l == k
  {
    hide NamesIt, Loose, InElf;
  }

  lemma {:induction false} TrailingPassIs(segs: seq<Segment>, records: seq<Record>, length: nat, m: Matching)
    requires SettledUpTo(segs, records, |records|, m)
    ensures Trailed(segs, records, length, TrailingPass(m, length))
  {
    hide NamesIt, Loose, SettledUpTo, Trailed, IsLast, Trailing, TrailPass;
    LastIs(segs, records, m);
    SameLengths(segs, records, m);
    match LastRecorded(m.segs, m.placed, |m.segs|)
    case None => NothingTrails(segs, records, length, m);
    case Some(l) =>
      StoredIsTrailed(segs, records, length, m, l);
  }

  lemma {:induction false} SameLengths(segs: seq<Segment>, records: seq<Record>, m: Matching)
    requires SettledUpTo(segs, records, |records|, m)
    ensures |m.segs| == |segs|
  {
  }

  lemma {:induction false} SettledIs(segs: seq<Segment>, records: seq<Record>, h: nat)
    requires h < |segs|
    ensures Settled(segs, records, h) <==> NamedBefore(segs, records, h, |records|)
  {
  }

  lemma {:induction false} NothingTrails(segs: seq<Segment>, records: seq<Record>, length: nat, m: Matching)
    requires SettledUpTo(segs, records, |records|, m) && forall l: nat :: !IsLast(segs, records, l)
    ensures Trailed(segs, records, length, m)
  {
    hide NamesIt, Loose, IsLast, Nulled, ComesAfter;
    forall h | 0 <= h < |segs| ensures TrailedAt(segs, records, m, h) {
      SettledIs(segs, records, h);
      LooseIs(segs[h]);
    }
    forall k: nat ensures k in m.used <==> Used(segs, records, k) {
    }
  }

  /** The pass after one header l. */
  ghost function StoredFrom(m: Matching, l: nat, length: nat): (r: Matching)
    requires l < |m.segs|
    ensures |r.segs| == |m.segs|
  {
    TrailingInRange(m.segs, m.placed, l);
    var order := Trailing(m.segs, m.placed, l);
    TrailPass(m, m.segs[l].source + m.segs[l].size, order, |order|, length).0
  }

  /** The a-th of the order is stored; it was not settled before. */
  lemma {:induction false} StoredAmong(m: Matching, l: nat, length: nat, a: nat)
    requires l < |m.segs| && a < |Trailing(m.segs, m.placed, l)|
    ensures var order, t := Trailing(m.segs, m.placed, l), StoredFrom(m, l, length);
            && (forall x :: x in order ==> x.at < |m.segs|)
            && StoredAt(m, order, m.segs[l].source + m.segs[l].size, length, a, t.segs)
            && order[a].at in t.placed && order[a].at !in m.placed
  {
    hide Trailing, TrailPass, StoredUpTo;
    var order := Trailing(m.segs, m.placed, l);
    TrailingMembers(m.segs, m.placed, l);
    TrailPassStores(m, m.segs[l].source + m.segs[l].size, order, |order|, length);
    assert order[a] in order;
  }

  lemma {:induction false} OthersStay(m: Matching, l: nat, length: nat, h: nat)
    requires l < |m.segs| && h < |m.segs|
    requires forall a :: 0 <= a < |Trailing(m.segs, m.placed, l)| ==> Trailing(m.segs, m.placed, l)[a].at != h
    ensures var t := StoredFrom(m, l, length); t.segs[h] == m.segs[h] && (h in t.placed <==> h in m.placed)
  {
    hide Trailing, TrailPass, StoredUpTo, StoredAt, Trails;
    var order := Trailing(m.segs, m.placed, l);
    TrailingMembers(m.segs, m.placed, l);
    TrailPassStores(m, m.segs[l].source + m.segs[l].size, order, |order|, length);
  }

  lemma {:induction false} FeedsStayStored(m: Matching, l: nat, length: nat)
    requires l < |m.segs| && forall h :: h in m.placed ==> h < |m.segs|
    ensures StoredFrom(m, l, length).used == m.used
    ensures forall h :: h in StoredFrom(m, l, length).placed ==> h < |m.segs|
  {
    hide Trailing, TrailPass, StoredUpTo, StoredAt, Trails;
    var order := Trailing(m.segs, m.placed, l);
    TrailingMembers(m.segs, m.placed, l);
    TrailPassStores(m, m.segs[l].source + m.segs[l].size, order, |order|, length);
    forall h | h in StoredFrom(m, l, length).placed ensures h < |m.segs| {
      if h !in m.placed {
        var a :| 0 <= a < |order| && order[a].at == h;
        assert order[a] in order;
      }
    }
  }

  lemma {:induction false} StoredIsTrailed(segs: seq<Segment>, records: seq<Record>, length: nat, m: Matching, l: nat)
    requires SettledUpTo(segs, records, |records|, m) && IsLast(segs, records, l) && l < |m.segs|
    ensures Trailed(segs, records, length, StoredFrom(m, l, length))
  {
    hide NamesIt, Loose, StoredFrom, Settles, ComesAfter, IsLast, InElf, TrailedAt, TrailingRight, Used, NamedBefore;
    var t := StoredFrom(m, l, length);
    OrderIs(segs, records, m, l);
    LastIsSettled(segs, records, l);
    forall h | 0 <= h < |segs|
      ensures TrailedAt(segs, records, t, h) && (Settled(segs, records, h) ==> t.segs[h] == m.segs[h])
    {
      TrailedIs(segs, records, length, m, l, h);
    }
    StoredIsRight(segs, records, length, m, l);
    forall i, h | 0 <= i < |records| && 0 <= h < |segs| && Settles(segs, records, i, h)
      ensures t.segs[h].source == records[i].segment
    {
      SettlesIsSettled(segs, records, i, h);
    }
    FeedsStayStored(m, l, length);
    forall k: nat ensures k in t.used <==> Used(segs, records, k) {
      UsedIsRecord(segs, records, k);
    }
  }

  lemma {:induction false} SettlesIsSettled(segs: seq<Segment>, records: seq<Record>, i: nat, h: nat)
    requires h < |segs| && Settles(segs, records, i, h)
    ensures Settled(segs, records, h) && i < |records|
  {
  }

  lemma {:induction false} UsedIsRecord(segs: seq<Segment>, records: seq<Record>, k: nat)
    ensures Used(segs, records, k) ==> k < |records|
  {
  }

  lemma {:induction false} LastIsSettled(segs: seq<Segment>, records: seq<Record>, l: nat)
    requires IsLast(segs, records, l)
    ensures l < |segs| && Settled(segs, records, l)
  {
  }

  lemma {:induction false} ComesAfterIsUnsettled(segs: seq<Segment>, records: seq<Record>, l: nat, h: nat)
    requires l < |segs| && h < |segs| && ComesAfter(segs, records, l, h)
    ensures !Settled(segs, records, h) && Bytes(segs[h]) > 0 && segs[h].kind != PT_NULL && segs[h].kind != PT_LOAD
  {
  }

  /** One header after the pass. */
  lemma {:induction false} TrailedIs(segs: seq<Segment>, records: seq<Record>, length: nat, m: Matching, l: nat, h: nat)
    requires SettledUpTo(segs, records, |records|, m) && IsLast(segs, records, l) && h < |segs| && l < |m.segs|
    requires InElfOrder(segs, records, l, Places(Trailing(m.segs, m.placed, l)))
    ensures var t := StoredFrom(m, l, length);
            TrailedAt(segs, records, t, h) && (Settled(segs, records, h) ==> t.segs[h] == m.segs[h])
  {
    hide NamesIt, Loose, Trailing, StoredFrom, Settles, ComesAfter, IsLast, Settled, NamedBefore, StoredUpTo;
    var order := Trailing(m.segs, m.placed, l);
    SettledIs(segs, records, h);
    if ComesAfter(segs, records, l, h) {
      ComesAfterIsUnsettled(segs, records, l, h);
      var a :| 0 <= a < |order| && Places(order)[a] == h;
      StoredAmong(m, l, length, a);
    } else {
      forall a | 0 <= a < |order| ensures order[a].at != h {
        assert Places(order)[a] == order[a].at;
      }
      OthersStay(m, l, length, h);
      forall k: nat | k < |segs| && IsLast(segs, records, k) ensures !ComesAfter(segs, records, k, h) {
        OneLast(segs, records, l, k);
      }
    }
  }

  lemma {:induction false} StoredIsRight(segs: seq<Segment>, records: seq<Record>, length: nat, m: Matching, l: nat)
    requires SettledUpTo(segs, records, |records|, m) && IsLast(segs, records, l) && l < |m.segs|
    requires InElfOrder(segs, records, l, Places(Trailing(m.segs, m.placed, l)))
    ensures TrailingRight(segs, records, length, StoredFrom(m, l, length).segs)
  {
    hide NamesIt, Loose, Trailing, StoredFrom, SettledUpTo, IsLast, ComesAfter, StoredOne, StoredAt, Settled;
    var order, start := Trailing(m.segs, m.placed, l), m.segs[l].source + m.segs[l].size;
    SameLengths(segs, records, m);
    TrailedIs(segs, records, length, m, l, l);
    LastIsSettled(segs, records, l);
    var out := StoredFrom(m, l, length).segs;
    assert forall a :: 0 <= a < |order| ==> Places(order)[a] < |segs|;
    assert |out| == |segs|;
    forall a: nat | a < |order| ensures StoredOne(segs, length, Places(order), start, out, a) {
      StoredIsOne(segs, records, length, m, l, a);
    }
  }

  lemma {:induction false} StoredIsOne(segs: seq<Segment>, records: seq<Record>, length: nat, m: Matching, l: nat,
                                       a: nat)
    requires SettledUpTo(segs, records, |records|, m) && l < |segs| == |m.segs|
    requires InElfOrder(segs, records, l, Places(Trailing(m.segs, m.placed, l)))
    requires a < |Trailing(m.segs, m.placed, l)|
    ensures StoredOne(segs, length, Places(Trailing(m.segs, m.placed, l)), m.segs[l].source + m.segs[l].size,
                      StoredFrom(m, l, length).segs, a)
  {
    hide NamesIt, Loose, Trailing, StoredFrom, SettledUpTo, ComesAfter, Settled;
    var order := Trailing(m.segs, m.placed, l);
    forall x | x in order ensures x.at < |segs| && Bytes(segs[x.at]) > 0 {
      var b :| 0 <= b < |order| && order[b] == x;
      assert Places(order)[b] == x.at;
      ComesAfterIsUnsettled(segs, records, l, x.at);
    }
    BytesAre(segs, records, m, order, a);
    StoredAmong(m, l, length, a);
    SegmentIs(segs, records, m, order[a].at);
    assert order[a] in order;
    ComesAfterIsUnsettled(segs, records, l, order[a].at);
  }

  // ----- loads take records in the order of the table

  /** A load with bytes that no record names. */
  ghost predicate Asks(segs: seq<Segment>, records: seq<Record>, h: nat)
    requires h < |segs|
  {
    segs[h].kind == PT_LOAD && segs[h].size > 0 && !Settled(segs, records, h)
  }

  /** The record settles no header, and no load before h takes it. */
  ghost predicate Free(segs: seq<Segment>, records: seq<Record>, took: seq<Option<nat>>, k: nat, h: nat)
    requires h <= |took|
  {
    !Used(segs, records, k) && forall g :: 0 <= g < h ==> took[g] != Some(k)
  }

  /** A load that asks takes the first free record of its size, if there is one; no other header takes one. */
  ghost predicate TakesFirst(segs: seq<Segment>, records: seq<Record>, took: seq<Option<nat>>, h: nat)
    requires h < |segs| && h <= |took|
  {
    h < |took|
    && if !Asks(segs, records, h) then took[h] == None
       else match took[h]
            case Some(i) =>
              && i < |records| && records[i].size == segs[h].size && Free(segs, records, took, i, h)
              && forall k :: 0 <= k < i && records[k].size == segs[h].size ==> !Free(segs, records, took, k, h)
            case None =>
              forall k :: 0 <= k < |records| && records[k].size == segs[h].size ==> !Free(segs, records, took, k, h)
  }

  ghost predicate Took(segs: seq<Segment>, records: seq<Record>, took: seq<Option<nat>>) {
    |took| == |segs| && forall h :: 0 <= h < |segs| ==> TakesFirst(segs, records, took, h)
  }

  /** The load pass after n headers. */
  ghost predicate LoadedUpTo(segs: seq<Segment>, records: seq<Record>, t: Matching, took: seq<Option<nat>>,
                             m: Matching)
  {
    && |took| <= |segs| == |t.segs| == |m.segs| && m.placed == t.placed
    && (forall h :: 0 <= h < |took| ==> TakesFirst(segs, records, took, h))
    && (forall k: nat :: k in m.used <==> Used(segs, records, k) || Some(k) in took)
    && (forall h :: 0 <= h < |took| && took[h].Some? ==>
          took[h].value < |records| && m.segs[h] == t.segs[h].(source := records[took[h].value].segment))
    && (forall h :: 0 <= h < |segs| && (h >= |took| || took[h].None?) ==> m.segs[h] == t.segs[h])
  }

  lemma {:induction false} AsksIsWanting(segs: seq<Segment>, records: seq<Record>, length: nat, t: Matching, h: nat,
                                         m: Matching)
    requires Trailed(segs, records, length, t) && h < |segs| == |m.segs| && m.placed == t.placed
    requires m.segs[h] == t.segs[h]
    ensures WantsRecord(m, h) <==> Asks(segs, records, h)
    ensures Asks(segs, records, h) ==> m.segs[h].size == segs[h].size
  {
    hide NamesIt, IsLast, TrailingRight, Settles, Used;
    assert TrailedAt(segs, records, t, h);
    if segs[h].kind == PT_LOAD { LoadsDoNotTrail(segs, records, h); }
  }

  lemma {:induction false} LoadsDoNotTrail(segs: seq<Segment>, records: seq<Record>, h: nat)
    requires h < |segs| && segs[h].kind == PT_LOAD
    ensures !IsTrailing(segs, records, h)
  {
    hide IsLast;
  }

  lemma {:induction false} LoadTakes(segs: seq<Segment>, records: seq<Record>, length: nat, t: Matching,
                                     took: seq<Option<nat>>, m: Matching)
    returns (took': seq<Option<nat>>)
    requires Trailed(segs, records, length, t) && LoadedUpTo(segs, records, t, took, m) && |took| < |segs|
    ensures |took'| == |took| + 1 && LoadedUpTo(segs, records, t, took', LoadStep(m, records, |took|))
  {
    hide NamesIt, Trailed, Settled, Used, FirstUnused;
    var h := |took|;
    AsksIsWanting(segs, records, length, t, h, m);
    var found := if WantsRecord(m, h) then FirstUnused(records, m.used, m.segs[h].size, 0) else None;
    took' := took + [found];
    forall g | 0 <= g < |took'| ensures TakesFirst(segs, records, took', g) {
      if g < h { StillFirst(segs, records, took, found, g); }
      else { TakesFound(segs, records, m, took, h, found); }
    }
    forall k: nat ensures Some(k) in took' <==> Some(k) in took || Some(k) == found {
      assert found in took';
      assert forall g :: 0 <= g < h ==> took'[g] == took[g];
    }
  }

  lemma {:induction false} StillFirst(segs: seq<Segment>, records: seq<Record>, took: seq<Option<nat>>,
                                      next: Option<nat>, g: nat)
    requires g < |took| <= |segs| && TakesFirst(segs, records, took, g)
    ensures TakesFirst(segs, records, took + [next], g)
  {
    hide Asks, Used;
    assert forall i :: 0 <= i < |took| ==> (took + [next])[i] == took[i];
    forall k: nat ensures Free(segs, records, took + [next], k, g) <==> Free(segs, records, took, k, g) {
    }
  }

  lemma {:induction false} TakesFound(segs: seq<Segment>, records: seq<Record>, m: Matching, took: seq<Option<nat>>,
                                      h: nat, found: Option<nat>)
    requires h == |took| < |segs| == |m.segs| && (Asks(segs, records, h) ==> m.segs[h].size == segs[h].size)
    requires forall k: nat :: k in m.used <==> Used(segs, records, k) || Some(k) in took
    requires found == if Asks(segs, records, h) then FirstUnused(records, m.used, m.segs[h].size, 0) else None
    ensures TakesFirst(segs, records, took + [found], h)
  {
    hide Asks, Used, FirstUnused;
    assert forall i :: 0 <= i < |took| ==> (took + [found])[i] == took[i];
    forall k: nat ensures Free(segs, records, took + [found], k, h) <==> k !in m.used {
    }
  }

  lemma {:induction false} LoadsTake(segs: seq<Segment>, records: seq<Record>, length: nat, t: Matching, n: nat)
    returns (took: seq<Option<nat>>)
    requires Trailed(segs, records, length, t) && n <= |segs| == |t.segs|
    ensures |took| == n && LoadedUpTo(segs, records, t, took, LoadPass(t, records, n))
  {
    hide Trailed, LoadedUpTo, LoadStep;
    if n == 0 {
      took := [];
      NoneTaken(segs, records, length, t);
    } else {
      var before := LoadsTake(segs, records, length, t, n - 1);
      took := LoadTakes(segs, records, length, t, before, LoadPass(t, records, n - 1));
    }
  }

  lemma {:induction false} NoneTaken(segs: seq<Segment>, records: seq<Record>, length: nat, t: Matching)
    requires Trailed(segs, records, length, t)
    ensures LoadedUpTo(segs, records, t, [], t)
  {
    hide TrailedAt, TrailingRight;
  }

  // ----- the other headers are mapped

  /** The load spans the address in memory, or ends there if there are no bytes to map. */
  ghost predicate Spans(load: Segment, address: nat, bytes: nat) {
    && load.kind == PT_LOAD && load.memory > 0 && load.vaddr <= address
    && (address < load.vaddr + load.memory || (bytes == 0 && address == load.vaddr + load.memory))
  }

  ghost predicate NoneSpans(out: seq<Segment>, address: nat, bytes: nat) {
    forall l :: 0 <= l < |out| ==> !Spans(out[l], address, bytes)
  }

  ghost predicate LastSpanning(out: seq<Segment>, address: nat, bytes: nat, l: nat) {
    && l < |out| && Spans(out[l], address, bytes)
    && forall k :: l < k < |out| ==> !Spans(out[k], address, bytes)
  }

  /** An address, or a kind that is mapped even to address 0. */
  ghost predicate Mapped(s: Segment) {
    Address(s) != 0 || s.kind == PT_PHDR || s.kind == PT_DYNAMIC || s.kind == PT_TLS
  }

  /** A header in place is hosted by the last load that spans it, if its bytes lie there in the file. */
  ghost predicate HostedInPlace(out: seq<Segment>, address: nat, h: nat)
    requires h < |out|
  {
    && (NoneSpans(out, address, out[h].size) ==> out[h].host == None)
    && forall l: nat :: LastSpanning(out, address, out[h].size, l) ==>
         var load, at := out[l], address - out[l].vaddr;
         out[h].host
         == if load.size > 0 && at <= load.size && out[h].size <= load.size - at && out[h].source == load.source + at
            then Some(l) else None
  }

  /** A mapped header lies where the last load that spans it has its address. */
  ghost predicate HostedByAddress(out: seq<Segment>, address: nat, bytes: nat, h: nat)
    requires h < |out|
  {
    && out[h].size == bytes
    && (NoneSpans(out, address, bytes) ==> bytes == 0 && out[h].source == 0 && out[h].host == None)
    && forall l: nat :: LastSpanning(out, address, bytes, l) ==>
         var load, at := out[l], address - out[l].vaddr;
         && (bytes > 0 ==> at <= load.size && bytes <= load.size - at)
         && if load.size == 0 || at > load.size then out[h].source == 0 && out[h].host == None
            else out[h].source == load.source + at && out[h].host == Some(l)
  }

  /** A header whose place in the container tells how far the ones after it are shifted. */
  ghost predicate Anchors(segs: seq<Segment>, records: seq<Record>, out: seq<Segment>, g: nat)
    requires g < |segs| == |out|
  {
    && segs[g].kind != PT_LOAD
    && if InPlace(segs, records, g) then out[g].size > 0 else Mapped(segs[g]) && out[g].host.Some?
  }

  /** Of the headers before h that do, the one furthest into the ELF, and the first of them. */
  ghost predicate Furthest(segs: seq<Segment>, records: seq<Record>, out: seq<Segment>, h: nat, g: nat)
    requires h <= |segs| == |out|
  {
    && g < h && Anchors(segs, records, out, g)
    && forall k :: 0 <= k < h && k != g && Anchors(segs, records, out, k) ==>
         InElf(segs[k]) < InElf(segs[g]) || (InElf(segs[k]) == InElf(segs[g]) && g < k)
  }

  /** The rest is as far from the furthest of them as in the ELF, and cut off at the end of the container. */
  ghost predicate CutOffAt(s: Segment, length: nat, shift: int, x: Segment) {
    var wanted := s.offset + shift;
    && x.host == None && x.source == (if wanted > length then length else wanted)
    && x.size == (if x.source + s.size <= length then s.size else length - x.source)
    && x.memory == (if x.source + s.memory <= length then s.memory else length - x.source)
  }

  ghost predicate ShiftedRight(segs: seq<Segment>, records: seq<Record>, length: nat, out: seq<Segment>, h: nat)
    requires h < |segs| == |out|
  {
    && ((forall g :: 0 <= g < h ==> !Anchors(segs, records, out, g)) ==> CutOffAt(segs[h], length, 0, out[h]))
    && forall g: nat :: Furthest(segs, records, out, h, g) ==>
         CutOffAt(segs[h], length, out[g].source - InElf(segs[g]), out[h])
  }

  ghost predicate MappedRight(segs: seq<Segment>, records: seq<Record>, length: nat, out: seq<Segment>, h: nat)
    requires h < |segs| == |out|
  {
    if segs[h].kind == PT_LOAD then out[h].host == None
    else if InPlace(segs, records, h) then
      out[h].memory == Memory(segs[h]) && HostedInPlace(out, Address(segs[h]), h)
    else if Mapped(segs[h]) then
      out[h].memory == Memory(segs[h]) && HostedByAddress(out, Address(segs[h]), Bytes(segs[h]), h)
    else if Bytes(segs[h]) == 0 then out[h] == Nulled(segs[h])
    else ShiftedRight(segs, records, length, out, h)
  }

  /** What the first three passes leave to the last. */
  ghost predicate Ready(segs: seq<Segment>, records: seq<Record>, m: Matching) {
    && |m.segs| == |segs| && (forall h :: 0 <= h < |segs| ==> ReadyAt(segs, records, m, h))
  }

  ghost predicate ReadyAt(segs: seq<Segment>, records: seq<Record>, m: Matching, h: nat)
    requires h < |segs| == |m.segs|
  {
    && m.segs[h] == Nulled(segs[h]).(source := m.segs[h].source, size := m.segs[h].size)
    && (h in m.placed <==> InPlace(segs, records, h)) && m.segs[h].host == None
    && (!IsTrailing(segs, records, h) ==> m.segs[h].size == Bytes(segs[h]))
    && (!InPlace(segs, records, h) && segs[h].kind != PT_LOAD ==> m.segs[h] == Nulled(segs[h]))
  }

  lemma {:induction false} LoadForIs(segs: seq<Segment>, address: nat, bytes: nat, n: nat)
    requires n <= |segs|
    ensures match LoadFor(segs, address, bytes, n)
            case None => forall l :: 0 <= l < n ==> !Spans(segs[l], address, bytes)
            case Some(l) => Spans(segs[l], address, bytes) && forall k :: l < k < n ==> !Spans(segs[k], address, bytes)
  {
    if n > 0 { LoadForIs(segs, address, bytes, n - 1); }
  }

  /** Two tables with the same loads. */
  ghost predicate SameLoads(a: seq<Segment>, b: seq<Segment>) {
    |a| == |b| && forall l :: 0 <= l < |a| ==> a[l].kind == b[l].kind && (a[l].kind == PT_LOAD ==> a[l] == b[l])
  }

  /** Two tables whose loads are alike in memory. */
  ghost predicate LoadsAlike(a: seq<Segment>, b: seq<Segment>) {
    && |a| == |b|
    && forall l :: 0 <= l < |a| ==>
         && a[l].kind == b[l].kind
         && (a[l].kind == PT_LOAD ==> a[l].vaddr == b[l].vaddr && a[l].memory == b[l].memory)
  }

  lemma {:induction false} LoadForAlike(a: seq<Segment>, b: seq<Segment>, address: nat, bytes: nat)
    requires LoadsAlike(a, b)
    ensures match LoadFor(a, address, bytes, |a|)
            case None => NoneSpans(b, address, bytes)
            case Some(l) => LastSpanning(b, address, bytes, l) && a[l].kind == PT_LOAD
  {
    LoadForIs(a, address, bytes, |a|);
    forall l | 0 <= l < |a| ensures Spans(a[l], address, bytes) <==> Spans(b[l], address, bytes) {
    }
  }

  lemma {:induction false} LoadForOther(a: seq<Segment>, b: seq<Segment>, address: nat, bytes: nat)
    requires SameLoads(a, b)
    ensures match LoadFor(a, address, bytes, |a|)
            case None => NoneSpans(b, address, bytes)
            case Some(l) => LastSpanning(b, address, bytes, l) && a[l] == b[l]
  {
    hide LoadFor, NoneSpans, LastSpanning;
    LoadForAlike(a, b, address, bytes);
  }

  lemma {:induction false} OneSpanning(out: seq<Segment>, address: nat, bytes: nat, l: nat)
    requires LastSpanning(out, address, bytes, l)
    ensures !NoneSpans(out, address, bytes) && forall k :: LastSpanning(out, address, bytes, k) ==> k == l
  {
    hide Spans;
  }

  lemma {:induction false} NoSpanning(out: seq<Segment>, address: nat, bytes: nat)
    requires NoneSpans(out, address, bytes)
    ensures forall k :: !LastSpanning(out, address, bytes, k)
  {
  }

  // ----- the last pass, header by header

  lemma {:induction false} HostPassAt(segs: seq<Segment>, placed: set<nat>, h: nat, n: nat, length: nat)
    requires h < n <= |segs| && HostPass(segs, placed, n, length).Ok?
    ensures HostPass(segs, placed, h, length).Ok?
    ensures var before, out := HostPass(segs, placed, h, length).value, HostPass(segs, placed, n, length).value.0;
            && HostStep(before.0, placed, h, before.1, length).Ok?
            && out[h] == HostStep(before.0, placed, h, before.1, length).value.0
            && (forall g :: 0 <= g < h ==> before.0[g] == out[g])
            && (forall g :: h <= g < |segs| ==> before.0[g] == segs[g])
  {
    hide HostStep;
    UntouchedYet(segs, placed, h, length);
    if h < n - 1 { HostPassAt(segs, placed, h, n - 1, length); }
  }

  lemma {:induction false} UntouchedYet(segs: seq<Segment>, placed: set<nat>, n: nat, length: nat)
    requires n <= |segs|
    ensures HostPass(segs, placed, n, length).Ok? ==>
              forall g :: n <= g < |segs| ==> HostPass(segs, placed, n, length).value.0[g] == segs[g]
  {
    hide HostStep;
    if n > 0 { UntouchedYet(segs, placed, n - 1, length); }
  }

  /** What the pass remembers of the headers before h. */
  ghost predicate TailIs(segs: seq<Segment>, records: seq<Record>, out: seq<Segment>, h: nat, tail: Option<Tail>)
    requires h <= |segs| == |out|
  {
    match tail
    case None => forall g :: 0 <= g < h ==> !Anchors(segs, records, out, g)
    case Some(t) =>
      exists g: nat :: Furthest(segs, records, out, h, g) && t.offset == InElf(segs[g])
                       && t.shift == out[g].source - InElf(segs[g])
  }

  lemma {:induction false} OneFurthest(segs: seq<Segment>, records: seq<Record>, out: seq<Segment>, h: nat, g: nat,
                                       k: nat)
    requires h <= |segs| == |out| && Furthest(segs, records, out, h, g) && Furthest(segs, records, out, h, k)
    ensures g == k
  {
    hide Anchors, InElf;
  }

  lemma {:induction false} TailStays(segs: seq<Segment>, records: seq<Record>, out: seq<Segment>, h: nat,
                                     tail: Option<Tail>)
    requires h < |segs| == |out| && TailIs(segs, records, out, h, tail) && !Anchors(segs, records, out, h)
    ensures TailIs(segs, records, out, h + 1, tail)
  {
    hide Anchors, InElf;
    if tail.Some? {
      var g: nat :| Furthest(segs, records, out, h, g) && tail.value.offset == InElf(segs[g])
          && tail.value.shift == out[g].source - InElf(segs[g]);
      assert Furthest(segs, records, out, h + 1, g);
    }
  }

  lemma {:induction false} TailGoesOn(segs: seq<Segment>, records: seq<Record>, out: seq<Segment>, h: nat,
                                      tail: Option<Tail>)
    requires h < |segs| == |out| && TailIs(segs, records, out, h, tail) && Anchors(segs, records, out, h)
    requires out[h].offset == InElf(segs[h])
    ensures TailIs(segs, records, out, h + 1, Further(tail, out[h]))
  {
    hide Anchors, InElf;
    match tail
    case None =>
      assert Furthest(segs, records, out, h + 1, h);
    case Some(t) =>
      var g: nat :| Furthest(segs, records, out, h, g) && t.offset == InElf(segs[g])
          && t.shift == out[g].source - InElf(segs[g]);
      if InElf(segs[h]) > InElf(segs[g]) {
        assert Furthest(segs, records, out, h + 1, h);
      } else {
        assert Furthest(segs, records, out, h + 1, g);
      }
  }

  /** The pass stands before h: earlier headers are as they end up, the others as they were, the loads either way. */
  ghost predicate StandsAt(segs: seq<Segment>, records: seq<Record>, m: Matching, out: seq<Segment>,
                           before: seq<Segment>, h: nat)
  {
    && Ready(segs, records, m) && h < |segs| == |out| == |before|
    && before[h] == m.segs[h] && SameLoads(before, out)
  }

  lemma {:induction false} InPlaceIsRight(segs: seq<Segment>, records: seq<Record>, m: Matching, out: seq<Segment>,
                                          before: seq<Segment>, h: nat, tail: Option<Tail>, length: nat)
    requires StandsAt(segs, records, m, out, before, h) && TailIs(segs, records, out, h, tail)
    requires segs[h].kind != PT_LOAD && InPlace(segs, records, h)
    requires out[h] == HostPlaced(before, h, tail).0
    ensures MappedRight(segs, records, length, out, h)
    ensures TailIs(segs, records, out, h + 1, HostPlaced(before, h, tail).1)
  {
    hide InPlace, Ready, SameLoads, LoadFor, NoneSpans, LastSpanning, TailIs;
    assert ReadyAt(segs, records, m, h) by { ReadyIs(segs, records, m, h); }
    var s := before[h];
    LoadForOther(before, out, s.vaddr, s.size);
    var found := LoadFor(before, s.vaddr, s.size, |before|);
    if found.Some? { OneSpanning(out, s.vaddr, s.size, found.value); } else { NoSpanning(out, s.vaddr, s.size); }
    if out[h].size > 0 { TailGoesOn(segs, records, out, h, tail); } else { TailStays(segs, records, out, h, tail); }
  }

  lemma {:induction false} ReadyIs(segs: seq<Segment>, records: seq<Record>, m: Matching, h: nat)
    requires Ready(segs, records, m) && h < |segs|
    ensures |m.segs| == |segs| && ReadyAt(segs, records, m, h)
  {
  }

  lemma {:induction false} MappedIsRight(segs: seq<Segment>, records: seq<Record>, m: Matching, out: seq<Segment>,
                                         before: seq<Segment>, h: nat, tail: Option<Tail>, length: nat)
    requires StandsAt(segs, records, m, out, before, h) && TailIs(segs, records, out, h, tail)
    requires segs[h].kind != PT_LOAD && !InPlace(segs, records, h) && Mapped(segs[h])
    requires HostAddressed(before, h, tail).Ok? && out[h] == HostAddressed(before, h, tail).value.0
    ensures MappedRight(segs, records, length, out, h)
    ensures TailIs(segs, records, out, h + 1, HostAddressed(before, h, tail).value.1)
  {
    hide InPlace, Ready, SameLoads, LoadFor, NoneSpans, LastSpanning, TailIs;
    assert ReadyAt(segs, records, m, h) by { ReadyIs(segs, records, m, h); }
    var s := before[h];
    LoadForOther(before, out, s.vaddr, s.size);
    var found := LoadFor(before, s.vaddr, s.size, |before|);
    if found.Some? { OneSpanning(out, s.vaddr, s.size, found.value); } else { NoSpanning(out, s.vaddr, s.size); }
    if out[h].host.Some? { TailGoesOn(segs, records, out, h, tail); } else { TailStays(segs, records, out, h, tail); }
  }

  lemma {:induction false} ShiftedIsRight(segs: seq<Segment>, records: seq<Record>, m: Matching, out: seq<Segment>,
                                          before: seq<Segment>, h: nat, tail: Option<Tail>, length: nat)
    requires StandsAt(segs, records, m, out, before, h) && TailIs(segs, records, out, h, tail)
    requires segs[h].kind != PT_LOAD && !InPlace(segs, records, h) && !Mapped(segs[h])
    requires out[h] == if before[h].size != 0 then Shifted(before[h], tail, length) else before[h]
    ensures MappedRight(segs, records, length, out, h) && TailIs(segs, records, out, h + 1, tail)
  {
    hide InPlace, Ready, SameLoads, Anchors, CutOffAt, Shifted, TailIs, ShiftedRight, HostedInPlace, HostedByAddress;
    assert ReadyAt(segs, records, m, h) by { ReadyIs(segs, records, m, h); }
    NoAnchor(segs, records, out, h);
    TailStays(segs, records, out, h, tail);
    if Bytes(segs[h]) > 0 {
      ShiftedIsCutOff(segs[h], tail, length);
      CutOffIsShifted(segs, records, length, out, h, tail);
    }
  }

  lemma {:induction false} CutOffIsShifted(segs: seq<Segment>, records: seq<Record>, length: nat, out: seq<Segment>,
                                           h: nat, tail: Option<Tail>)
    requires h < |segs| == |out| && TailIs(segs, records, out, h, tail)
    requires CutOffAt(segs[h], length, if tail.Some? then tail.value.shift else 0, out[h])
    ensures ShiftedRight(segs, records, length, out, h)
  {
    hide Anchors, CutOffAt, InElf;
    if tail.Some? {
      var t := tail.value;
      var g: nat :| Furthest(segs, records, out, h, g) && t.offset == InElf(segs[g])
          && t.shift == out[g].source - InElf(segs[g]);
      forall k: nat | Furthest(segs, records, out, h, k) ensures k == g {
        OneFurthest(segs, records, out, h, g, k);
      }
    }
  }

  lemma {:induction false} ShiftedIsCutOff(s: Segment, tail: Option<Tail>, length: nat)
    requires s.host == None
    ensures CutOffAt(s, length, if tail.Some? then tail.value.shift else 0, Shifted(s, tail, length))
  {
  }

  lemma {:induction false} NoAnchor(segs: seq<Segment>, records: seq<Record>, out: seq<Segment>, h: nat)
    requires h < |segs| == |out| && !InPlace(segs, records, h) && !Mapped(segs[h])
    ensures !Anchors(segs, records, out, h)
  {
  }

  lemma {:induction false} MappedIsByAddress(segs: seq<Segment>, records: seq<Record>, m: Matching, h: nat)
    requires Ready(segs, records, m) && h < |segs|
    ensures |m.segs| == |segs| && (ByAddress(m.segs[h]) <==> Mapped(segs[h])) && m.segs[h].kind == segs[h].kind
    ensures h in m.placed <==> InPlace(segs, records, h)
  {
    hide InPlace;
    assert ReadyAt(segs, records, m, h);
  }

  lemma {:induction false} StepIsRight(segs: seq<Segment>, records: seq<Record>, m: Matching, out: seq<Segment>,
                                       before: seq<Segment>, h: nat, tail: Option<Tail>, length: nat)
    requires StandsAt(segs, records, m, out, before, h) && TailIs(segs, records, out, h, tail)
    requires HostStep(before, m.placed, h, tail, length).Ok?
    requires out[h] == HostStep(before, m.placed, h, tail, length).value.0
    ensures MappedRight(segs, records, length, out, h)
    ensures TailIs(segs, records, out, h + 1, HostStep(before, m.placed, h, tail, length).value.1)
  {
    hide Ready, SameLoads, InPlace, ByAddress, Mapped, TailIs, HostAddressed, HostPlaced, Shifted, MappedRight;
    MappedIsByAddress(segs, records, m, h);
    if segs[h].kind == PT_LOAD {
      LoadIsRight(segs, records, m, out, before, h, tail, length);
    } else if InPlace(segs, records, h) {
      InPlaceIsRight(segs, records, m, out, before, h, tail, length);
    } else if Mapped(segs[h]) {
      MappedIsRight(segs, records, m, out, before, h, tail, length);
    } else {
      ShiftedIsRight(segs, records, m, out, before, h, tail, length);
    }
  }

  lemma {:induction false} LoadIsRight(segs: seq<Segment>, records: seq<Record>, m: Matching, out: seq<Segment>,
                                       before: seq<Segment>, h: nat, tail: Option<Tail>, length: nat)
    requires StandsAt(segs, records, m, out, before, h) && TailIs(segs, records, out, h, tail)
    requires segs[h].kind == PT_LOAD && out[h] == before[h]
    ensures MappedRight(segs, records, length, out, h) && TailIs(segs, records, out, h + 1, tail)
  {
    hide Ready, SameLoads, InPlace, Mapped, TailIs;
    ReadyIs(segs, records, m, h);
    TailStays(segs, records, out, h, tail);
  }

  // ----- the whole placement

  /** A header keeps what it says but for where its bytes are, and how many. */
  ghost predicate SaysTheSame(s: Segment, x: Segment) {
    && x.index == s.index && x.kind == s.kind && x.vaddr == Address(s) && x.offset == InElf(s)
    && x.flags == (if s.kind == PT_NULL then 0 else s.flags) && x.align == (if s.kind == PT_NULL then 0 else s.align)
  }

  ghost predicate LoadRight(segs: seq<Segment>, records: seq<Record>, took: seq<Option<nat>>, out: seq<Segment>,
                            h: nat)
    requires h < |segs| == |out| == |took|
  {
    && out[h].size == segs[h].size && out[h].memory == segs[h].memory
    && (took[h].Some? ==> took[h].value < |records| && out[h].source == records[took[h].value].segment)
    && (took[h].None? && !Settled(segs, records, h) ==> out[h].source == segs[h].source)
  }

  /** Every header is where records, order, loads and the headers before it put it. */
  ghost predicate PlacesAre(segs: seq<Segment>, records: seq<Record>, length: nat, took: seq<Option<nat>>,
                            out: seq<Segment>)
  {
    && |out| == |segs| && Took(segs, records, took) && TrailingRight(segs, records, length, out)
    && (forall i, h :: 0 <= i < |records| && 0 <= h < |segs| && Settles(segs, records, i, h) ==>
          out[h].source == records[i].segment && out[h].size == records[i].size)
    && forall h :: 0 <= h < |segs| ==>
         && SaysTheSame(segs[h], out[h]) && MappedRight(segs, records, length, out, h)
         && (segs[h].kind == PT_LOAD ==> LoadRight(segs, records, took, out, h))
  }

  /** The bytes lie in the container; a load without any need not. */
  ghost predicate LiesInside(s: Segment, length: nat) {
    (s.kind == PT_LOAD && s.size == 0) || (0 <= s.source && s.source + s.size <= length)
  }

  lemma {:induction false} TrailingTransfers(segs: seq<Segment>, records: seq<Record>, length: nat, a: seq<Segment>,
                                             b: seq<Segment>)
    requires |a| == |b| == |segs| && TrailingRight(segs, records, length, a)
    requires forall h :: 0 <= h < |segs| && segs[h].kind != PT_LOAD && InPlace(segs, records, h) ==>
               a[h].source == b[h].source && a[h].size == b[h].size
    ensures TrailingRight(segs, records, length, b)
  {
    hide NamesIt, Settled, BytesOf;
    if exists l: nat :: IsLast(segs, records, l) {
      var l: nat, order: seq<nat> :| IsLast(segs, records, l) && InElfOrder(segs, records, l, order)
          && StoredRight(segs, length, order, a[l].source + a[l].size, a);
      assert InPlace(segs, records, l);
      var start := a[l].source + a[l].size;
      forall c: nat | c < |order| ensures StoredOne(segs, length, order, start, b, c) {
        assert StoredOne(segs, length, order, start, a, c);
        assert IsTrailing(segs, records, order[c]);
      }
      assert StoredRight(segs, length, order, b[l].source + b[l].size, b);
    }
  }

  /** What the first three passes make of fresh headers. */
  lemma {:induction false} MatchedIsReady(segs: seq<Segment>, records: seq<Record>, length: nat)
    returns (took: seq<Option<nat>>)
    requires Fresh(segs)
    ensures var m := Matched(segs, records, length);
            && Ready(segs, records, m) && Took(segs, records, took) && TrailingRight(segs, records, length, m.segs)
            && (forall i, h :: 0 <= i < |records| && 0 <= h < |segs| && Settles(segs, records, i, h) ==>
                  m.segs[h].source == records[i].segment)
            && (forall h :: 0 <= h < |segs| && segs[h].kind == PT_LOAD ==>
                  LoadRight(segs, records, took, m.segs, h))
  {
    hide RecordPass, TrailingPass, LoadPass, SettledUpTo;
    RecordsSettle(segs, records, |records|);
    var r := RecordPass(NullAll(segs), records, |records|);
    TrailingPassIs(segs, records, length, r);
    var t := TrailingPass(r, length);
    TrailedLengths(segs, records, length, t);
    took := LoadsTake(segs, records, length, t, |segs|);
    LoadedIsReady(segs, records, length, t, took, LoadPass(t, records, |segs|));
  }

  lemma {:induction false} TrailedLengths(segs: seq<Segment>, records: seq<Record>, length: nat, t: Matching)
    requires Trailed(segs, records, length, t)
    ensures |t.segs| == |segs|
  {
  }

  lemma {:induction false} LoadedIsReady(segs: seq<Segment>, records: seq<Record>, length: nat, t: Matching,
                                         took: seq<Option<nat>>, m: Matching)
    requires Fresh(segs) && Trailed(segs, records, length, t) && LoadedUpTo(segs, records, t, took, m)
    requires |took| == |segs|
    ensures Ready(segs, records, m) && Took(segs, records, took) && TrailingRight(segs, records, length, m.segs)
    ensures forall i, h :: 0 <= i < |records| && 0 <= h < |segs| && Settles(segs, records, i, h) ==>
              m.segs[h].source == records[i].segment
    ensures forall h :: 0 <= h < |segs| && segs[h].kind == PT_LOAD ==> LoadRight(segs, records, took, m.segs, h)
  {
    hide NamesIt, Settled, IsTrailing, TrailingRight, Settles, Free, Used;
    forall h | 0 <= h < |segs|
      ensures ReadyAt(segs, records, m, h) && (segs[h].kind == PT_LOAD ==> LoadRight(segs, records, took, m.segs, h))
      ensures segs[h].kind != PT_LOAD || Settled(segs, records, h) ==> m.segs[h] == t.segs[h]
    {
      assert TrailedAt(segs, records, t, h) && TakesFirst(segs, records, took, h);
      if segs[h].kind == PT_LOAD { LoadsDoNotTrail(segs, records, h); }
    }
    TrailingTransfers(segs, records, length, t.segs, m.segs);
    forall i, h | 0 <= i < |records| && 0 <= h < |segs| && Settles(segs, records, i, h)
      ensures m.segs[h].source == records[i].segment
    {
      SettlesIsSettled(segs, records, i, h);
    }
  }

  lemma {:induction false} PassStandsAt(segs: seq<Segment>, records: seq<Record>, length: nat, m: Matching, h: nat)
    requires Ready(segs, records, m) && HostPass(m.segs, m.placed, |m.segs|, length).Ok? && h < |segs|
    ensures HostPass(m.segs, m.placed, h, length).Ok?
    ensures StandsAt(segs, records, m, HostPass(m.segs, m.placed, |m.segs|, length).value.0,
                     HostPass(m.segs, m.placed, h, length).value.0, h)
  {
    hide HostPass, InPlace;
    ReadyAreFresh(segs, records, m);
    HostPassAt(m.segs, m.placed, h, |m.segs|, length);
    HostPassMoves(m.segs, m.placed, |m.segs|, length);
    HostPassMoves(m.segs, m.placed, h, length);
    var out := HostPass(m.segs, m.placed, |m.segs|, length).value.0;
    var before := HostPass(m.segs, m.placed, h, length).value.0;
    forall l | 0 <= l < |segs|
      ensures before[l].kind == out[l].kind && (before[l].kind == PT_LOAD ==> before[l] == out[l])
    {
      assert HostMove(m.placed, l, m.segs[l], out[l]) && HostMove(m.placed, l, m.segs[l], before[l]);
    }
  }

  lemma {:induction false} ReadyAreFresh(segs: seq<Segment>, records: seq<Record>, m: Matching)
    requires Ready(segs, records, m)
    ensures |m.segs| == |segs| && forall h :: 0 <= h < |m.segs| ==> m.segs[h].host == None
  {
    hide InPlace;
    forall h | 0 <= h < |m.segs| ensures m.segs[h].host == None {
      assert ReadyAt(segs, records, m, h);
    }
  }

  lemma {:induction false} PassIsRight(segs: seq<Segment>, records: seq<Record>, length: nat, m: Matching, h: nat)
    requires Ready(segs, records, m) && HostPass(m.segs, m.placed, |m.segs|, length).Ok? && h <= |segs| == |m.segs|
    ensures HostPass(m.segs, m.placed, h, length).Ok?
    ensures var out := HostPass(m.segs, m.placed, |m.segs|, length).value.0;
            && TailIs(segs, records, out, h, HostPass(m.segs, m.placed, h, length).value.1)
            && forall k :: 0 <= k < h ==> MappedRight(segs, records, length, out, k)
  {
    hide MappedRight, Ready, HostStep, StandsAt, TailIs;
    var out := HostPass(m.segs, m.placed, |m.segs|, length).value.0;
    if h == 0 {
      NoTail(segs, records, out);
    } else {
      PassIsRight(segs, records, length, m, h - 1);
      PassStandsAt(segs, records, length, m, h - 1);
      HostPassAt(m.segs, m.placed, h - 1, |m.segs|, length);
      if h < |m.segs| { HostPassAt(m.segs, m.placed, h, |m.segs|, length); }
      var before := HostPass(m.segs, m.placed, h - 1, length).value;
      StepIsRight(segs, records, m, out, before.0, h - 1, before.1, length);
    }
  }

  lemma {:induction false} NoTail(segs: seq<Segment>, records: seq<Record>, out: seq<Segment>)
    requires |out| == |segs|
    ensures TailIs(segs, records, out, 0, None)
  {
  }

  /** What the last pass leaves unchanged. */
  lemma {:induction false} PassKeeps(segs: seq<Segment>, records: seq<Record>, length: nat, m: Matching, h: nat)
    requires Ready(segs, records, m) && HostPass(m.segs, m.placed, |m.segs|, length).Ok? && h < |segs|
    ensures var out := HostPass(m.segs, m.placed, |m.segs|, length).value.0;
            && |out| == |segs| && SaysTheSame(segs[h], out[h])
            && (segs[h].kind == PT_LOAD ==> out[h] == m.segs[h])
            && (InPlace(segs, records, h) ==> out[h].source == m.segs[h].source && out[h].size == m.segs[h].size)
  {
    hide HostPass, InPlace;
    ReadyAreFresh(segs, records, m);
    HostPassMoves(m.segs, m.placed, |m.segs|, length);
    assert ReadyAt(segs, records, m, h);
    assert HostMove(m.placed, h, m.segs[h], HostPass(m.segs, m.placed, |m.segs|, length).value.0[h]);
  }

  lemma {:induction false} HostedIsPlaced(segs: seq<Segment>, records: seq<Record>, length: nat,
                                          took: seq<Option<nat>>, m: Matching)
    requires Ready(segs, records, m) && HostPass(m.segs, m.placed, |m.segs|, length).Ok?
    requires Took(segs, records, took) && TrailingRight(segs, records, length, m.segs)
    requires forall i, h :: 0 <= i < |records| && 0 <= h < |segs| && Settles(segs, records, i, h) ==>
               m.segs[h].source == records[i].segment
    requires forall h :: 0 <= h < |segs| && segs[h].kind == PT_LOAD ==> LoadRight(segs, records, took, m.segs, h)
    ensures PlacesAre(segs, records, length, took, HostPass(m.segs, m.placed, |m.segs|, length).value.0)
  {
    hide HostPass, Ready, MappedRight, Settles, TrailingRight, InPlace, SaysTheSame, TakesFirst, Settled;
    ReadyAreFresh(segs, records, m);
    var out := HostPass(m.segs, m.placed, |m.segs|, length).value.0;
    PassIsRight(segs, records, length, m, |segs|);
    forall h | 0 <= h < |segs|
      ensures SaysTheSame(segs[h], out[h]) && (segs[h].kind == PT_LOAD ==> out[h] == m.segs[h])
      ensures InPlace(segs, records, h) ==> out[h].source == m.segs[h].source && out[h].size == m.segs[h].size
    {
      PassKeeps(segs, records, length, m, h);
    }
    TrailingTransfers(segs, records, length, m.segs, out);
    forall i, h | 0 <= i < |records| && 0 <= h < |segs| && Settles(segs, records, i, h)
      ensures out[h].source == records[i].segment && out[h].size == records[i].size
    {
      SettledSize(segs, records, m, i, h);
    }
  }

  lemma {:induction false} SettledSize(segs: seq<Segment>, records: seq<Record>, m: Matching, i: nat, h: nat)
    requires Ready(segs, records, m) && h < |segs| && Settles(segs, records, i, h)
    ensures i < |records| && |m.segs| == |segs| && InPlace(segs, records, h) && m.segs[h].size == records[i].size
  {
    hide IsLast;
    SettlesIsSettled(segs, records, i, h);
    assert ReadyAt(segs, records, m, h);
  }

  // ----- refusals

  /** A header with bytes to map, which no load spans, or which reaches past what the last such load has in the file. */
  ghost predicate Stray(segs: seq<Segment>, records: seq<Record>, h: nat)
    requires h < |segs|
  {
    && segs[h].kind != PT_LOAD && !InPlace(segs, records, h) && Mapped(segs[h]) && Bytes(segs[h]) > 0
    && (NoneSpans(segs, Address(segs[h]), Bytes(segs[h]))
        || exists l: nat :: LastSpanning(segs, Address(segs[h]), Bytes(segs[h]), l)
             && Address(segs[h]) - segs[l].vaddr + Bytes(segs[h]) > segs[l].size)
  }

  /** The first stray header, and what is the matter with it. */
  ghost predicate FirstStray(segs: seq<Segment>, records: seq<Record>, h: nat, why: Refusal) {
    && h < |segs| && Stray(segs, records, h) && (forall k :: 0 <= k < h ==> !Stray(segs, records, k))
    && why == if NoneSpans(segs, Address(segs[h]), Bytes(segs[h])) then InNoLoad(segs[h].index)
              else NotFileBacked(segs[h].index)
  }

  lemma {:induction false} StrayIsRefused(segs: seq<Segment>, records: seq<Record>, m: Matching, before: seq<Segment>,
                                          h: nat, tail: Option<Tail>, length: nat)
    requires Ready(segs, records, m) && h < |segs| == |before| && before[h] == m.segs[h] && SameLoads(before, m.segs)
    ensures HostStep(before, m.placed, h, tail, length).Refused? <==> Stray(segs, records, h)
    ensures Stray(segs, records, h) ==>
              HostStep(before, m.placed, h, tail, length).why
              == if NoneSpans(segs, Address(segs[h]), Bytes(segs[h])) then InNoLoad(segs[h].index)
                 else NotFileBacked(segs[h].index)
  {
    hide Ready, InPlace, HostPlaced, Shifted, LoadFor, NoneSpans, LastSpanning, Further, SameLoads;
    MappedIsByAddress(segs, records, m, h);
    assert ReadyAt(segs, records, m, h) by { ReadyIs(segs, records, m, h); }
    var s := before[h];
    LoadsAreAlike(segs, records, m, before);
    LoadForAlike(before, segs, s.vaddr, s.size);
    var found := LoadFor(before, s.vaddr, s.size, |before|);
    if found.Some? { OneSpanning(segs, s.vaddr, s.size, found.value); } else { NoSpanning(segs, s.vaddr, s.size); }
    if !InPlace(segs, records, h) { NotTrailing(segs, records, h); }
  }

  lemma {:induction false} NotTrailing(segs: seq<Segment>, records: seq<Record>, h: nat)
    requires h < |segs| && !InPlace(segs, records, h)
    ensures !IsTrailing(segs, records, h)
  {
  }

  lemma {:induction false} LoadsAreAlike(segs: seq<Segment>, records: seq<Record>, m: Matching, before: seq<Segment>)
    requires Ready(segs, records, m) && SameLoads(before, m.segs)
    ensures LoadsAlike(before, segs)
    ensures forall l :: 0 <= l < |segs| && segs[l].kind == PT_LOAD ==>
              before[l].size == segs[l].size && before[l].vaddr == segs[l].vaddr && before[l].memory == segs[l].memory
  {
    hide InPlace;
    forall l | 0 <= l < |segs|
      ensures before[l].kind == segs[l].kind
      ensures segs[l].kind == PT_LOAD ==>
                before[l].size == segs[l].size && before[l].vaddr == segs[l].vaddr && before[l].memory == segs[l].memory
    {
      assert ReadyAt(segs, records, m, l);
      if segs[l].kind == PT_LOAD { LoadsDoNotTrail(segs, records, l); }
    }
  }

  /** The pass is refused at the first stray header, and only there. */
  lemma {:induction false} PassRefuses(segs: seq<Segment>, records: seq<Record>, length: nat, m: Matching, n: nat)
    requires Ready(segs, records, m) && n <= |segs| == |m.segs|
    ensures var pass := HostPass(m.segs, m.placed, n, length);
            && (pass.Ok? ==> forall h :: 0 <= h < n ==> !Stray(segs, records, h))
            && (pass.Refused? ==> exists h: nat :: h < n && FirstStray(segs, records, h, pass.why))
  {
    hide Ready, Stray, HostStep, NoneSpans;
    if n > 0 {
      PassRefuses(segs, records, length, m, n - 1);
      if HostPass(m.segs, m.placed, n - 1, length).Ok? {
        var before := HostPass(m.segs, m.placed, n - 1, length).value;
        BeforeAreSame(segs, records, length, m, n - 1);
        StrayIsRefused(segs, records, m, before.0, n - 1, before.1, length);
        var step := HostPass(m.segs, m.placed, n, length);
        if Stray(segs, records, n - 1) {
          var h: nat := n - 1;
          assert step.Refused? && h < n && FirstStray(segs, records, h, step.why);
        } else {
          assert step.Ok?;
        }
      } else {
        var why := HostPass(m.segs, m.placed, n - 1, length).why;
        var h: nat :| h < n - 1 && FirstStray(segs, records, h, why);
        assert HostPass(m.segs, m.placed, n, length).Refused? && HostPass(m.segs, m.placed, n, length).why == why;
      }
    }
  }

  lemma {:induction false} BeforeAreSame(segs: seq<Segment>, records: seq<Record>, length: nat, m: Matching, h: nat)
    requires Ready(segs, records, m) && h < |segs| == |m.segs| && HostPass(m.segs, m.placed, h, length).Ok?
    ensures var before := HostPass(m.segs, m.placed, h, length).value.0;
            |before| == |segs| && before[h] == m.segs[h] && SameLoads(before, m.segs)
  {
    hide HostPass, Ready;
    ReadyAreFresh(segs, records, m);
    UntouchedYet(m.segs, m.placed, h, length);
    HostPassMoves(m.segs, m.placed, h, length);
    var before := HostPass(m.segs, m.placed, h, length).value.0;
    forall l | 0 <= l < |segs|
      ensures before[l].kind == m.segs[l].kind && (before[l].kind == PT_LOAD ==> before[l] == m.segs[l])
    {
      assert HostMove(m.placed, l, m.segs[l], before[l]);
    }
  }

  lemma {:induction false} LiesInsideIs(s: Segment, length: nat)
    ensures Inside(s, length) <==> LiesInside(s, length)
  {
  }

  /** The first header that does not lie in the container. */
  ghost predicate FirstBeyond(out: seq<Segment>, length: nat, h: nat) {
    h < |out| && !LiesInside(out[h], length) && forall k :: 0 <= k < h ==> LiesInside(out[k], length)
  }

  lemma {:induction false} FirstOutsideIs(out: seq<Segment>, length: nat, i: nat)
    requires i <= |out|
    ensures match FirstOutside(out, length, i)
            case None => forall h :: i <= h < |out| ==> LiesInside(out[h], length)
            case Some(h) => i <= h < |out| && !LiesInside(out[h], length)
                            && forall k :: i <= k < h ==> LiesInside(out[k], length)
    decreases |out| - i
  {
    hide Inside, LiesInside;
    if i < |out| {
      LiesInsideIs(out[i], length);
      FirstOutsideIs(out, length, i + 1);
    }
  }

  /** Why a placement is refused: a stray header, or else one that is put beyond the end of the container. */
  ghost predicate Misplaced(segs: seq<Segment>, records: seq<Record>, length: nat, why: Refusal) {
    || (exists h: nat :: FirstStray(segs, records, h, why))
    || ((forall h :: 0 <= h < |segs| ==> !Stray(segs, records, h))
        && exists took, out, h: nat :: PlacesAre(segs, records, length, took, out) && FirstBeyond(out, length, h)
                                       && why == OutsideFile(segs[h].index))
  }

  /** The placement of fresh headers, told from headers, records and length alone. */
  lemma {:induction false} PlacementIs(segs: seq<Segment>, records: seq<Record>, length: nat)
    returns (took: seq<Option<nat>>)
    requires Fresh(segs)
    ensures match Placed(segs, records, length)
            case Ok(out) =>
              && PlacesAre(segs, records, length, took, out)
              && (forall h :: 0 <= h < |segs| ==> LiesInside(out[h], length) && !Stray(segs, records, h))
            case Refused(why) => Misplaced(segs, records, length, why)
  {
    hide Matched, HostPass, FirstOutside, PlacesAre, Ready, Stray, LiesInside, Fresh, Took, TrailingRight, Settles,
      LoadRight;
    took := MatchedIsReady(segs, records, length);
    var m := Matched(segs, records, length);
    ReadyAreFresh(segs, records, m);
    PassRefuses(segs, records, length, m, |segs|);
    var hosted := HostPass(m.segs, m.placed, |m.segs|, length);
    if hosted.Ok? {
      HostedIsPlaced(segs, records, length, took, m);
      PlacesKeepIndex(segs, records, length, took, hosted.value.0);
      FirstOutsideIs(hosted.value.0, length, 0);
      if FirstOutside(hosted.value.0, length, 0).Some? {
        assert FirstBeyond(hosted.value.0, length, FirstOutside(hosted.value.0, length, 0).value);
      }
    }
  }

  lemma {:induction false} PlacesKeepIndex(segs: seq<Segment>, records: seq<Record>, length: nat,
                                           took: seq<Option<nat>>, out: seq<Segment>)
    requires PlacesAre(segs, records, length, took, out)
    ensures |out| == |segs| && forall h :: 0 <= h < |segs| ==> out[h].index == segs[h].index
  {
    hide MappedRight, LoadRight, Settles, Took, TrailingRight;
  }

  // ----- there is one placement

  lemma {:induction false} OneTook(segs: seq<Segment>, records: seq<Record>, a: seq<Option<nat>>, b: seq<Option<nat>>,
                                   n: nat)
    requires Took(segs, records, a) && Took(segs, records, b) && n <= |segs|
    ensures a[..n] == b[..n]
  {
    hide Asks, Used;
    if n > 0 {
      OneTook(segs, records, a, b, n - 1);
      var h := n - 1;
      assert TakesFirst(segs, records, a, h) && TakesFirst(segs, records, b, h);
      assert forall g :: 0 <= g < h ==> a[..h][g] == a[g] && b[..h][g] == b[g];
      forall k: nat ensures Free(segs, records, a, k, h) <==> Free(segs, records, b, k, h) {
      }
      hide Free;
      assert a[..n] == a[..h] + [a[h]] && b[..n] == b[..h] + [b[h]];
    }
  }

  lemma {:induction false} NotBothEarlier(segs: seq<Segment>, g: nat, h: nat)
    requires g < |segs| && h < |segs|
    ensures !(Earlier(segs, g, h) && Earlier(segs, h, g))
  {
  }

  /** What comes next in one order comes next or later in the other. */
  lemma {:induction false} ComesLater(segs: seq<Segment>, records: seq<Record>, l: nat, a: seq<nat>, b: seq<nat>,
                                      n: nat)
    returns (q: nat)
    requires l < |segs| && InElfOrder(segs, records, l, a) && InElfOrder(segs, records, l, b)
    requires n < |a| && n <= |b| && a[..n] == b[..n]
    ensures n <= q < |b| && b[q] == a[n]
  {
    hide ComesAfter, Earlier;
    q :| 0 <= q < |b| && b[q] == a[n];
    forall i | 0 <= i < n ensures b[i] == a[i] != a[n] {
      assert b[i] == b[..n][i] == a[..n][i];
      NotBothEarlier(segs, a[i], a[n]);
    }
  }

  /** The order is the only one. */
  lemma {:induction false} OneOrder(segs: seq<Segment>, records: seq<Record>, l: nat, a: seq<nat>, b: seq<nat>, n: nat)
    requires l < |segs| && InElfOrder(segs, records, l, a) && InElfOrder(segs, records, l, b)
    requires n <= |a| && n <= |b| && a[..n] == b[..n]
    ensures a == b
    decreases |a| - n
  {
    if n < |a| {
      OrderGoesOn(segs, records, l, a, b, n);
      hide InElfOrder;
      assert a[..n + 1] == a[..n] + [a[n]] && b[..n + 1] == b[..n] + [b[n]];
      OneOrder(segs, records, l, a, b, n + 1);
    } else {
      if n < |b| { var q := ComesLater(segs, records, l, b, a, n); }
      assert a == a[..n] && b == b[..n];
    }
  }

  lemma {:induction false} OrderGoesOn(segs: seq<Segment>, records: seq<Record>, l: nat, a: seq<nat>, b: seq<nat>,
                                       n: nat)
    requires l < |segs| && InElfOrder(segs, records, l, a) && InElfOrder(segs, records, l, b)
    requires n < |a| && n <= |b| && a[..n] == b[..n]
    ensures n < |b| && a[n] == b[n]
  {
    hide ComesAfter, Earlier;
    var q := ComesLater(segs, records, l, a, b, n);
    var p := ComesLater(segs, records, l, b, a, n);
    if q > n && p > n { NotBothEarlier(segs, a[n], b[n]); }
  }

  /** A header in place has one place. */
  lemma {:induction false} OneInPlace(segs: seq<Segment>, records: seq<Record>, length: nat, took: seq<Option<nat>>,
                                      took': seq<Option<nat>>, a: seq<Segment>, b: seq<Segment>, h: nat)
    requires PlacesAre(segs, records, length, took, a) && PlacesAre(segs, records, length, took', b)
    requires h < |segs| && InPlace(segs, records, h)
    ensures a[h].source == b[h].source && a[h].size == b[h].size
  {
    hide MappedRight, Took, SaysTheSame, LoadRight, TrailingRight, IsTrailing;
    if Settled(segs, records, h) {
      OneSettled(segs, records, length, took, took', a, b, h);
    } else {
      OneTrailing(segs, records, length, took, took', a, b, h);
    }
  }

  lemma {:induction false} SettledByFirst(segs: seq<Segment>, records: seq<Record>, h: nat, n: nat) returns (i: nat)
    requires h < |segs| && n <= |records| && NamedBefore(segs, records, h, n)
    ensures i < n && Settles(segs, records, i, h)
  {
    hide NamesIt;
    var k :| 0 <= k < n && NamesIt(segs, records, k, h);
    if forall j :: 0 <= j < k ==> !NamesIt(segs, records, j, h) {
      i := k;
    } else {
      i := SettledByFirst(segs, records, h, k);
    }
  }

  lemma {:induction false} OneSettled(segs: seq<Segment>, records: seq<Record>, length: nat, took: seq<Option<nat>>,
                                      took': seq<Option<nat>>, a: seq<Segment>, b: seq<Segment>, h: nat)
    requires PlacesAre(segs, records, length, took, a) && PlacesAre(segs, records, length, took', b)
    requires h < |segs| && Settled(segs, records, h)
    ensures a[h].source == b[h].source && a[h].size == b[h].size
  {
    hide MappedRight, Took, SaysTheSame, LoadRight, TrailingRight, Settles, NamesIt;
    SettledIs(segs, records, h);
    var i := SettledByFirst(segs, records, h, |records|);
  }

  lemma {:induction false} OneTrailing(segs: seq<Segment>, records: seq<Record>, length: nat, took: seq<Option<nat>>,
                                       took': seq<Option<nat>>, a: seq<Segment>, b: seq<Segment>, h: nat)
    requires PlacesAre(segs, records, length, took, a) && PlacesAre(segs, records, length, took', b)
    requires h < |segs| && IsTrailing(segs, records, h)
    ensures a[h].source == b[h].source && a[h].size == b[h].size
  {
    hide PlacesAre, IsLast, InElfOrder, StoredRight, ComesAfter, Settled, BytesOf, StoredOne, TrailingRight;
    PlacesTrail(segs, records, length, took, a);
    PlacesTrail(segs, records, length, took', b);
    var l: nat :| l < |segs| && IsLast(segs, records, l) && ComesAfter(segs, records, l, h);
    var order := OrderAt(segs, records, length, a, l);
    var order' := OrderAt(segs, records, length, b, l);
    LastIsSettled(segs, records, l);
    OneSettled(segs, records, length, took, took', a, b, l);
    OneOrder(segs, records, l, order, order', 0);
    OneStored(segs, records, length, l, order, a[l].source + a[l].size, a, b, h);
  }

  lemma {:induction false} PlacesTrail(segs: seq<Segment>, records: seq<Record>, length: nat, took: seq<Option<nat>>,
                                       out: seq<Segment>)
    requires PlacesAre(segs, records, length, took, out)
    ensures |out| == |segs| && TrailingRight(segs, records, length, out)
  {
    hide MappedRight, Took, SaysTheSame, LoadRight, Settles, TrailingRight;
  }

  lemma {:induction false} OrderAt(segs: seq<Segment>, records: seq<Record>, length: nat, out: seq<Segment>, l: nat)
    returns (order: seq<nat>)
    requires |out| == |segs| && TrailingRight(segs, records, length, out) && IsLast(segs, records, l) && l < |segs|
    ensures InElfOrder(segs, records, l, order)
    ensures StoredRight(segs, length, order, out[l].source + out[l].size, out)
  {
    hide ComesAfter, StoredOne, Earlier;
    var k: nat;
    k, order :| IsLast(segs, records, k) && InElfOrder(segs, records, k, order)
        && StoredRight(segs, length, order, out[k].source + out[k].size, out);
    OneLast(segs, records, l, k);
  }

  lemma {:induction false} OneStored(segs: seq<Segment>, records: seq<Record>, length: nat, l: nat, order: seq<nat>,
                                     start: int, a: seq<Segment>, b: seq<Segment>, h: nat)
    requires l < |segs| == |a| == |b| && h < |segs| && InElfOrder(segs, records, l, order)
    requires StoredRight(segs, length, order, start, a) && StoredRight(segs, length, order, start, b)
    requires ComesAfter(segs, records, l, h)
    ensures a[h].source == b[h].source && a[h].size == b[h].size
  {
    hide ComesAfter, BytesOf, Earlier;
    var c :| 0 <= c < |order| && order[c] == h;
    assert StoredOne(segs, length, order, start, a, c) && StoredOne(segs, length, order, start, b, c);
  }

  /** A load has one place. */
  lemma {:induction false} OneLoad(segs: seq<Segment>, records: seq<Record>, length: nat, took: seq<Option<nat>>,
                                   took': seq<Option<nat>>, a: seq<Segment>, b: seq<Segment>, h: nat)
    requires PlacesAre(segs, records, length, took, a) && PlacesAre(segs, records, length, took', b)
    requires h < |segs| && segs[h].kind == PT_LOAD
    ensures a[h] == b[h]
  {
    hide Took, TrailingRight, IsTrailing, TakesFirst, Settles;
    OneTook(segs, records, took, took', |segs|);
    TookLengths(segs, records, took);
    TookLengths(segs, records, took');
    assert took == took[..|segs|] && took' == took'[..|segs|];
    if Settled(segs, records, h) { OneSettled(segs, records, length, took, took', a, b, h); }
  }

  lemma {:induction false} TookLengths(segs: seq<Segment>, records: seq<Record>, took: seq<Option<nat>>)
    requires Took(segs, records, took)
    ensures |took| == |segs|
  {
    hide TakesFirst;
  }

  lemma {:induction false} SameSpanning(a: seq<Segment>, b: seq<Segment>, address: nat, bytes: nat)
    requires SameLoads(a, b)
    ensures NoneSpans(a, address, bytes) <==> NoneSpans(b, address, bytes)
    ensures forall l: nat :: LastSpanning(a, address, bytes, l) ==> LastSpanning(b, address, bytes, l) && a[l] == b[l]
  {
    forall l | 0 <= l < |a| ensures Spans(a[l], address, bytes) <==> Spans(b[l], address, bytes) {
    }
  }

  lemma {:induction false} SomeSpanning(out: seq<Segment>, address: nat, bytes: nat, n: nat) returns (l: nat)
    requires n <= |out| && (exists k :: 0 <= k < n && Spans(out[k], address, bytes))
    requires forall k :: n <= k < |out| ==> !Spans(out[k], address, bytes)
    ensures LastSpanning(out, address, bytes, l)
  {
    hide Spans;
    if Spans(out[n - 1], address, bytes) { l := n - 1; } else { l := SomeSpanning(out, address, bytes, n - 1); }
  }

  lemma {:induction false} OneHost(a: seq<Segment>, b: seq<Segment>, address: nat, h: nat)
    requires SameLoads(a, b) && h < |a| && a[h].source == b[h].source && a[h].size == b[h].size
    requires HostedInPlace(a, address, h) && HostedInPlace(b, address, h)
    ensures a[h].host == b[h].host
  {
    hide SameLoads, Spans, LastSpanning;
    var n := a[h].size;
    SameSpanning(a, b, address, n);
    if !NoneSpans(a, address, n) { var l := SomeSpanning(a, address, n, |a|); }
  }

  lemma {:induction false} OneMapped(a: seq<Segment>, b: seq<Segment>, address: nat, bytes: nat, h: nat)
    requires SameLoads(a, b) && h < |a|
    requires HostedByAddress(a, address, bytes, h) && HostedByAddress(b, address, bytes, h)
    ensures a[h].source == b[h].source && a[h].size == b[h].size && a[h].host == b[h].host
  {
    hide SameLoads, Spans, LastSpanning;
    SameSpanning(a, b, address, bytes);
    if !NoneSpans(a, address, bytes) { var l := SomeSpanning(a, address, bytes, |a|); }
  }

  lemma {:induction false} SomeFurthest(segs: seq<Segment>, records: seq<Record>, out: seq<Segment>, h: nat)
    returns (g: Option<nat>)
    requires h <= |segs| == |out|
    ensures g.None? ==> forall k :: 0 <= k < h ==> !Anchors(segs, records, out, k)
    ensures g.Some? ==> Furthest(segs, records, out, h, g.value)
  {
    hide Anchors;
    g := None;
    if h > 0 {
      g := SomeFurthest(segs, records, out, h - 1);
      if Anchors(segs, records, out, h - 1) && (g.None? || InElf(segs[h - 1]) > InElf(segs[g.value])) {
        g := Some(h - 1);
      }
    }
  }

  lemma {:induction false} OneShifted(segs: seq<Segment>, records: seq<Record>, length: nat, a: seq<Segment>,
                                      b: seq<Segment>, h: nat)
    requires h < |segs| == |a| == |b| && forall g :: 0 <= g < h ==> a[g] == b[g]
    requires ShiftedRight(segs, records, length, a, h) && ShiftedRight(segs, records, length, b, h)
    ensures a[h].source == b[h].source && a[h].size == b[h].size && a[h].memory == b[h].memory && a[h].host == b[h].host
  {
    hide Furthest;
    forall g | 0 <= g < h ensures Anchors(segs, records, a, g) <==> Anchors(segs, records, b, g) {
    }
    hide Anchors;
    var g := SomeFurthest(segs, records, a, h);
    if g.Some? { SameFurthest(segs, records, a, b, h, g.value); }
  }

  lemma {:induction false} SameFurthest(segs: seq<Segment>, records: seq<Record>, a: seq<Segment>, b: seq<Segment>,
                                        h: nat, g: nat)
    requires h <= |segs| == |a| == |b| && Furthest(segs, records, a, h, g)
    requires forall k :: 0 <= k < h ==> a[k] == b[k]
    ensures g < h && Furthest(segs, records, b, h, g)
  {
    hide InElf, InPlace;
  }

  /** Header after header, the placement is determined. */
  lemma {:induction false} OnePlaceEach(segs: seq<Segment>, records: seq<Record>, length: nat,
                                        took: seq<Option<nat>>, took': seq<Option<nat>>, a: seq<Segment>,
                                        b: seq<Segment>, n: nat)
    requires PlacesAre(segs, records, length, took, a) && PlacesAre(segs, records, length, took', b) && n <= |segs|
    ensures |a| == |b| == |segs| && forall h :: 0 <= h < n ==> a[h] == b[h]
  {
    hide Took, TrailingRight, Settles, InPlace, LoadRight, HostedInPlace, HostedByAddress, ShiftedRight, Mapped;
    if n > 0 {
      OnePlaceEach(segs, records, length, took, took', a, b, n - 1);
      var h := n - 1;
      assert SaysTheSame(segs[h], a[h]) && SaysTheSame(segs[h], b[h]);
      assert MappedRight(segs, records, length, a, h) && MappedRight(segs, records, length, b, h);
      if segs[h].kind == PT_LOAD {
        OneLoad(segs, records, length, took, took', a, b, h);
      } else if InPlace(segs, records, h) {
        LoadsAgree(segs, records, length, took, took', a, b);
        OneInPlace(segs, records, length, took, took', a, b, h);
        OneHost(a, b, Address(segs[h]), h);
      } else if Mapped(segs[h]) {
        LoadsAgree(segs, records, length, took, took', a, b);
        OneMapped(a, b, Address(segs[h]), Bytes(segs[h]), h);
      } else if Bytes(segs[h]) > 0 {
        OneShifted(segs, records, length, a, b, h);
      }
    }
  }

  lemma {:induction false} LoadsAgree(segs: seq<Segment>, records: seq<Record>, length: nat, took: seq<Option<nat>>,
                                      took': seq<Option<nat>>, a: seq<Segment>, b: seq<Segment>)
    requires PlacesAre(segs, records, length, took, a) && PlacesAre(segs, records, length, took', b)
    ensures SameLoads(a, b)
  {
    hide Took, TrailingRight, Settles, MappedRight, LoadRight;
    forall h | 0 <= h < |segs| ensures a[h].kind == b[h].kind && (a[h].kind == PT_LOAD ==> a[h] == b[h]) {
      assert SaysTheSame(segs[h], a[h]) && SaysTheSame(segs[h], b[h]);
      if segs[h].kind == PT_LOAD { OneLoad(segs, records, length, took, took', a, b, h); }
    }
  }

  /** Headers, records and the length of the container determine where everything is. */
  lemma {:induction false} OnePlacement(segs: seq<Segment>, records: seq<Record>, length: nat,
                                        took: seq<Option<nat>>, took': seq<Option<nat>>, a: seq<Segment>,
                                        b: seq<Segment>)
    requires PlacesAre(segs, records, length, took, a) && PlacesAre(segs, records, length, took', b)
    ensures a == b && took == took'
  {
    hide PlacesAre;
    OnePlaceEach(segs, records, length, took, took', a, b, |segs|);
    PlacesTook(segs, records, length, took, a);
    PlacesTook(segs, records, length, took', b);
    OneTook(segs, records, took, took', |segs|);
    TookLengths(segs, records, took);
    TookLengths(segs, records, took');
    assert took == took[..|segs|] && took' == took'[..|segs|];
  }

  lemma {:induction false} PlacesTook(segs: seq<Segment>, records: seq<Record>, length: nat, took: seq<Option<nat>>,
                                      out: seq<Segment>)
    requires PlacesAre(segs, records, length, took, out)
    ensures Took(segs, records, took)
  {
    hide MappedRight, Took, SaysTheSame, LoadRight, Settles, TrailingRight;
  }
}
