/**
  Where the bytes of each program segment lie in a SELF container: matched to a record, stored after the
  last recorded segment, or mapped into the load segment that contains its address.
 */
module SegmentPlacement {
  import opened Options
  import opened ElfFormat
  import opened Sorting

  /** A program header while it is worked on. `source` is where its bytes are in the container. */
  datatype Segment = Segment(index: nat, kind: nat, flags: nat, offset: nat, vaddr: nat, size: nat, memory: nat,
      align: nat,
                             source: int, host: Option<nat>)

  function FromEntry(e: Entry, index: nat): Segment {
    Segment(index, e.kind, e.flags, e.offset, e.vaddr, e.size, e.memory, e.align, e.offset, None)
  }

  function Nulled(s: Segment): Segment {
    if s.kind == PT_NULL then Segment(s.index, PT_NULL, 0, 0, 0, 0, 0, 0, 0, s.host) else s
  }

  /** A record that gave a header its place. */
  datatype Feeding = Feeding(record: nat, segment: nat)

  /** The headers, those with a settled place, the used records, and all feedings so far, one after the other. */
  datatype Matching = Matching(segs: seq<Segment>, placed: set<nat>, used: set<nat>, feeds: seq<Feeding>)

  // ----- records that name their segment

  predicate HasSegment(flags: nat) { flags / RECORD_HAS_SEGMENT % 2 == 1 }

  predicate Feeds(m: Matching, r: Record) {
    var target := r.flags / RECORD_SEGMENT_SCALE;
    HasSegment(r.flags) && target < |m.segs| && target !in m.placed && m.segs[target].size == r.size
  }

  function RecordStep(m: Matching, r: Record, i: nat): Matching {
    var target := r.flags / RECORD_SEGMENT_SCALE;
    if Feeds(m, r) then
      Matching(m.segs[target := m.segs[target].(source := r.segment)], m.placed + {target}, m.used + {i},
          m.feeds + [Feeding(i, target)])
    else m
  }

  function RecordPass(segs: seq<Segment>, records: seq<Record>, n: nat): (r: Matching)
    requires n <= |records|
    ensures |r.segs| == |segs|
  {
    if n == 0 then Matching(segs, {}, {}, [])
    else RecordStep(RecordPass(segs, records, n - 1), records[n - 1], n - 1)
  }

  // ----- unaddressed segments after the last recorded one

  predicate Unaddressed(s: Segment) { s.vaddr == 0 && s.kind != PT_LOAD }

  /** The first of the recorded unaddressed segments with the greatest offset. */
  function LastRecorded(segs: seq<Segment>, placed: set<nat>, n: nat): (r: Option<nat>)
    requires n <= |segs|
    ensures r.Some? ==> r.value < n && r.value in placed
  {
    if n == 0 then None
    else
      var best := LastRecorded(segs, placed, n - 1);
      if n - 1 in placed && Unaddressed(segs[n - 1]) && (best.None? || segs[n - 1].offset > segs[best.value].offset)
      then Some(n - 1) else best
  }

  /** A header with the number it is sorted by. */
  datatype Ranked = Ranked(key: int, at: nat)

  const BY_KEY: (Ranked, Ranked) -> bool := (a: Ranked, b: Ranked) => a.key <= b.key

  predicate Trails(segs: seq<Segment>, placed: set<nat>, last: nat, h: nat)
    requires last < |segs| && h < |segs|
  {
    h !in placed && Unaddressed(segs[h]) && segs[h].size > 0 && segs[h].offset > segs[last].offset
  }

  function TrailingIn(segs: seq<Segment>, placed: set<nat>, last: nat, n: nat): seq<Ranked>
    requires last < |segs| && n <= |segs|
  {
    if n == 0 then []
    else
        TrailingIn(segs, placed, last, n - 1) + if Trails(segs, placed, last, n - 1)
            then [Ranked(segs[n - 1].offset, n - 1)] else []
  }

  function Trailing(segs: seq<Segment>, placed: set<nat>, last: nat): seq<Ranked>
    requires last < |segs|
  {
    SortBy(TrailingIn(segs, placed, last, |segs|), BY_KEY)
  }

  function StoreTrailing(s: Segment, cursor: int, length: nat): Segment {
    if s.kind == PT_NOTE || cursor + s.size > length then s.(source := 0, size := 0) else s.(source := cursor)
  }

  function NextCursor(s: Segment, cursor: int): int {
    if s.kind == PT_NOTE then cursor else cursor + s.size
  }

  /** The first n of the order stored back to back from a cursor on. */
  function TrailPass(m: Matching, cursor: int, order: seq<Ranked>, n: nat, length: nat): (r: (Matching, int))
    requires n <= |order| && forall x :: x in order ==> x.at < |m.segs|
    ensures |r.0.segs| == |m.segs|
  {
    if n == 0 then (m, cursor)
    else
      var (before, at) := TrailPass(m, cursor, order, n - 1, length);
      var h := order[n - 1].at;
      (before.(segs := before.segs[h := StoreTrailing(before.segs[h], at, length)], placed := before.placed + {h}),
       NextCursor(before.segs[h], at))
  }

  lemma {:induction false} TrailingMembers(segs: seq<Segment>, placed: set<nat>, last: nat)
    requires last < |segs|
    ensures var order := Trailing(segs, placed, last);
            && (forall x ::
                x in order ==> x.at < |segs| && Trails(segs, placed, last, x.at) && x.key == segs[x.at].offset)
            && (forall h :: 0 <= h < |segs| && Trails(segs, placed, last, h) ==> Ranked(segs[h].offset, h) in order)
            && (forall a, b :: 0 <= a < b < |order| ==> order[a].at != order[b].at && order[a].key <= order[b].key)
  {
    var all := TrailingIn(segs, placed, last, |segs|);
    TrailingInMembers(segs, placed, last, |segs|);
    var order := Trailing(segs, placed, last);
    forall x: Ranked ensures x in order <==> x in all {
      SortByMembers(all, BY_KEY, x);
    }
    SortByDistinct(all, BY_KEY);
    SortBySorted(all, BY_KEY);
    forall a, b | 0 <= a < b < |order| ensures order[a].at != order[b].at {
      assert order[a] in all && order[b] in all;
    }
  }

  lemma {:induction false} TrailingInRange(segs: seq<Segment>, placed: set<nat>, last: nat)
    requires last < |segs|
    ensures forall x :: x in Trailing(segs, placed, last) ==> x.at < |segs|
  {
    TrailingMembers(segs, placed, last);
  }

  lemma {:induction false} TrailingInMembers(segs: seq<Segment>, placed: set<nat>, last: nat, n: nat)
    requires last < |segs| && n <= |segs|
    ensures forall x ::
        x in TrailingIn(segs, placed, last, n) <==>
            x.at < n && Trails(segs, placed, last, x.at) && x.key == segs[x.at].offset
    ensures forall a, b :: 0 <= a < b < |TrailingIn(segs, placed, last, n)| ==>
              TrailingIn(segs, placed, last, n)[a] != TrailingIn(segs, placed, last, n)[b]
  {
    if n > 0 {
      TrailingInMembers(segs, placed, last, n - 1);
      var init := TrailingIn(segs, placed, last, n - 1);
      forall b | 0 <= b < |init| ensures init[b].at < n - 1 {
        assert init[b] in init;
      }
    }
  }

  /** Stores the unaddressed segments that follow the last recorded one in the ELF. */
  function TrailingPass(m: Matching, length: nat): (r: Matching)
    ensures |r.segs| == |m.segs|
  {
    match LastRecorded(m.segs, m.placed, |m.segs|)
    case None => m
    case Some(last) =>
      TrailingInRange(m.segs, m.placed, last);
      TrailPass(m, m.segs[last].source + m.segs[last].size, Trailing(m.segs, m.placed, last),
          |Trailing(m.segs, m.placed, last)|, length).0
  }

  // ----- load segments take an unused record of their size

  function FirstUnused(records: seq<Record>, used: set<nat>, size: nat, i: nat): (r: Option<nat>)
    requires i <= |records|
    ensures r.Some? ==> i <= r.value < |records| && r.value !in used && records[r.value].size == size
    ensures forall k :: i <= k < |records| && (r.None? || k < r.value) ==> k in used || records[k].size != size
    decreases |records| - i
  {
    if i == |records| then None
    else if i !in used && records[i].size == size then Some(i)
    else FirstUnused(records, used, size, i + 1)
  }

  predicate WantsRecord(m: Matching, h: nat)
    requires h < |m.segs|
  {
    m.segs[h].kind == PT_LOAD && m.segs[h].size != 0 && h !in m.placed
  }

  function LoadStep(m: Matching, records: seq<Record>, h: nat): (r: Matching)
    requires h < |m.segs|
    ensures |r.segs| == |m.segs|
  {
    if !WantsRecord(m, h) then m
    else
      match FirstUnused(records, m.used, m.segs[h].size, 0)
      case None => m
      case Some(i) =>
        m.(segs := m.segs[h := m.segs[h].(source := records[i].segment)], used := m.used + {i},
           feeds := m.feeds + [Feeding(i, h)])
  }

  function LoadPass(m: Matching, records: seq<Record>, n: nat): (r: Matching)
    requires n <= |m.segs|
    ensures |r.segs| == |m.segs|
  {
    if n == 0 then m else LoadStep(LoadPass(m, records, n - 1), records, n - 1)
  }

  // ----- the other segments are mapped by address

  predicate Holds(load: Segment, vaddr: nat, size: nat) {
    var end := load.vaddr + load.memory;
    load.kind == PT_LOAD && load.memory != 0 && load.vaddr <= vaddr && (vaddr < end || (size == 0 && vaddr == end))
  }

  /** The last load segment among the first n that contains the address. */
  function LoadFor(segs: seq<Segment>, vaddr: nat, size: nat, n: nat): (r: Option<nat>)
    requires n <= |segs|
    ensures r.Some? ==> r.value < n && Holds(segs[r.value], vaddr, size)
  {
    if n == 0 then None else if Holds(segs[n - 1], vaddr, size) then Some(n - 1) else LoadFor(segs, vaddr, size, n - 1)
  }

  /** The offset and the shift of the placed segment furthest into the ELF so far. */
  datatype Tail = Tail(offset: nat, shift: int)

  function Further(tail: Option<Tail>, s: Segment): Option<Tail> {
    if tail.None? || s.offset > tail.value.offset then Some(Tail(s.offset, s.source - s.offset)) else tail
  }

  /** A segment of size n at distance `offset` from a load's address lies in the bytes the load has in the file. */
  predicate Backed(load: Segment, offset: int, n: nat) {
    load.size != 0 && 0 <= offset <= load.size && n <= load.size - offset
  }

  predicate ByAddress(s: Segment) {
    s.vaddr != 0 || s.kind == PT_PHDR || s.kind == PT_DYNAMIC || s.kind == PT_TLS
  }

  /** A segment with a settled place only learns its host, when its bytes are the host's. */
  function HostPlaced(segs: seq<Segment>, h: nat, tail: Option<Tail>): (Segment, Option<Tail>)
    requires h < |segs|
  {
    var s := segs[h];
    var found := LoadFor(segs, s.vaddr, s.size, |segs|);
    var s' := if found.Some? && Backed(segs[found.value], s.vaddr - segs[found.value].vaddr, s.size)
                 && s.source == segs[found.value].source + (s.vaddr - segs[found.value].vaddr)
              then s.(host := found) else s;
    (s', if s'.size != 0 then Further(tail, s') else tail)
  }

  function HostAddressed(segs: seq<Segment>, h: nat, tail: Option<Tail>): Result<(Segment, Option<Tail>)>
    requires h < |segs|
  {
    var s := segs[h];
    match LoadFor(segs, s.vaddr, s.size, |segs|)
    case None => if s.size == 0 then Ok((s.(source := 0), tail)) else Refused(InNoLoad(s.index))
    case Some(l) =>
      var load := segs[l];
      var offset := s.vaddr - load.vaddr;
      if s.size != 0 && (offset > load.size || s.size > load.size - offset) then Refused(NotFileBacked(s.index))
      else if load.size == 0 || offset > load.size then Ok((s.(source := 0), tail))
      else
        var s' := s.(host := Some(l), source := load.source + offset);
        Ok((s', Further(tail, s')))
  }

  /** The rest keeps the shift of the last placed segment, cut off at the end of the container. */
  function Shifted(s: Segment, tail: Option<Tail>, length: nat): Segment {
    var wanted := s.offset + if tail.Some? then tail.value.shift else 0;
    var source := if wanted > length then length else wanted;
    var keep := if length - source > 0 then length - source else 0;
    s.(source := source, size := if s.size <= keep then
        s.size else keep, memory := if s.memory <= keep then s.memory else keep)
  }

  function HostStep(segs: seq<Segment>, placed: set<nat>, h: nat, tail: Option<Tail>, length: nat)
    : Result<(Segment, Option<Tail>)>
    requires h < |segs|
  {
    var s := segs[h];
    if s.kind == PT_LOAD then Ok((s, tail))
    else if h in placed then Ok(HostPlaced(segs, h, tail))
    else if ByAddress(s) then HostAddressed(segs, h, tail)
    else Ok((if s.size != 0 then Shifted(s, tail, length) else s, tail))
  }

  function HostPass(segs: seq<Segment>, placed: set<nat>, n: nat, length: nat)
    : (r: Result<(seq<Segment>, Option<Tail>)>)
    requires n <= |segs|
    ensures r.Ok? ==> |r.value.0| == |segs|
  {
    if n == 0 then Ok((segs, None))
    else
      var before := HostPass(segs, placed, n - 1, length);
      if before.Refused? then before
      else
        var step := HostStep(before.value.0, placed, n - 1, before.value.1, length);
        if step.Refused? then Refused(step.why) else Ok((before.value.0[n - 1 := step.value.0], step.value.1))
  }

  // ----- everything has to be inside the container

  predicate Inside(s: Segment, length: nat) {
    (s.kind == PT_LOAD && s.size == 0) || (0 <= s.source <= length && s.size <= length - s.source)
  }

  function FirstOutside(segs: seq<Segment>, length: nat, i: nat): (r: Option<nat>)
    requires i <= |segs|
    ensures r.None? <==> forall k :: i <= k < |segs| ==> Inside(segs[k], length)
    ensures r.Some? ==> i <= r.value < |segs|
    decreases |segs| - i
  {
    if i == |segs| then None else if !Inside(segs[i], length) then Some(i) else FirstOutside(segs, length, i + 1)
  }

  function NullAll(segs: seq<Segment>): (r: seq<Segment>)
    ensures |r| == |segs| && forall i :: 0 <= i < |segs| ==> r[i] == Nulled(segs[i])
  {
    seq(|segs|, i requires 0 <= i < |segs| => Nulled(segs[i]))
  }

  function Matched(segs: seq<Segment>, records: seq<Record>, length: nat): (r: Matching)
    ensures |r.segs| == |segs|
  {
    var m := TrailingPass(RecordPass(NullAll(segs), records, |records|), length);
    LoadPass(m, records, |m.segs|)
  }

  /** All the passes, in order. */
  function Placed(segs: seq<Segment>, records: seq<Record>, length: nat): (r: Result<seq<Segment>>)
    ensures r.Ok? ==> |r.value| == |segs|
  {
    var m := Matched(segs, records, length);
    var hosted := HostPass(m.segs, m.placed, |m.segs|, length);
    if hosted.Refused? then Refused(hosted.why)
    else
      match FirstOutside(hosted.value.0, length, 0)
      case Some(i) => Refused(OutsideFile(hosted.value.0[i].index))
      case None => Ok(hosted.value.0)
  }

  // ----- what the passes keep

  /** Only the place of a segment changes: where its bytes are, how many are left of them, and its host. */
  ghost predicate OnlyMoved(a: Segment, b: Segment) {
    && b == a.(source := b.source, size := b.size, memory := b.memory, host := b.host)
    && b.size <= a.size && b.memory <= a.memory
  }

  ghost predicate AllMoved(a: seq<Segment>, b: seq<Segment>) {
    |a| == |b| && forall i :: 0 <= i < |a| ==> OnlyMoved(a[i], b[i])
  }

  function RecordsOf(feeds: seq<Feeding>): set<nat> { set f | f in feeds :: f.record }

  /** The fed segment has its record's offset and size, and is settled or a load. */
  ghost predicate FedBy(m: Matching, records: seq<Record>, f: Feeding) {
    && f.record < |records| && f.segment < |m.segs|
    && m.segs[f.segment].source == records[f.record].segment && m.segs[f.segment].size == records[f.record].size
    && (f.segment in m.placed || m.segs[f.segment].kind == PT_LOAD)
  }

  /** No two feedings have a record or a segment in common. */
  ghost predicate FedOnce(feeds: seq<Feeding>) {
    forall j, k :: 0 <= j < k < |feeds| ==> feeds[j].record != feeds[k].record && feeds[j].segment != feeds[k].segment
  }

  /** The used records are those that feed a segment, each one segment, and each fed segment has its record's bytes. */
  ghost predicate Fed(m: Matching, records: seq<Record>) {
    && m.used == RecordsOf(m.feeds) && FedOnce(m.feeds)
    && forall k :: 0 <= k < |m.feeds| ==> FedBy(m, records, m.feeds[k])
  }

  lemma {:induction false} OneMoreFeeding(feeds: seq<Feeding>, f: Feeding)
    requires FedOnce(feeds) && f.record !in RecordsOf(feeds)
    requires forall k :: 0 <= k < |feeds| ==> feeds[k].segment != f.segment
    ensures FedOnce(feeds + [f]) && RecordsOf(feeds + [f]) == RecordsOf(feeds) + {f.record}
  {
    assert forall k :: 0 <= k < |feeds| ==> feeds[k] in feeds && feeds[k].record in RecordsOf(feeds);
    assert forall g :: g in feeds + [f] <==> g in feeds || g == f;
  }

  /** After the first n records: only sources moved, and only of the settled segments. */
  ghost predicate Recorded(segs: seq<Segment>, records: seq<Record>, n: nat, m: Matching) {
    && Fed(m, records) && |m.segs| == |segs|
    && (forall k :: 0 <= k < |m.feeds| ==> m.feeds[k].record < n && m.feeds[k].segment in m.placed)
    && (forall h :: 0 <= h < |segs| ==> m.segs[h] == segs[h].(source := m.segs[h].source))
    && (forall h :: 0 <= h < |segs| && h !in m.placed ==> m.segs[h] == segs[h])
  }

  lemma {:induction false} NothingRecorded(segs: seq<Segment>, records: seq<Record>)
    ensures Recorded(segs, records, 0, RecordPass(segs, records, 0))
  {
  }

  lemma {:induction false} RecordPassFeeds(segs: seq<Segment>, records: seq<Record>, n: nat)
    requires n <= |records|
    ensures Recorded(segs, records, n, RecordPass(segs, records, n))
  {
    hide Recorded, RecordStep;
    if n == 0 {
      NothingRecorded(segs, records);
    } else {
      RecordPassFeeds(segs, records, n - 1);
      RecordStepFeeds(segs, records, n - 1, RecordPass(segs, records, n - 1));
    }
  }

  lemma {:induction false} RecordStepFeeds(segs: seq<Segment>, records: seq<Record>, i: nat, m: Matching)
    requires i < |records| && Recorded(segs, records, i, m)
    ensures Recorded(segs, records, i + 1, RecordStep(m, records[i], i))
  {
    hide FedOnce, RecordsOf;
    if Feeds(m, records[i]) {
      var f, m' := Feeding(i, records[i].flags / RECORD_SEGMENT_SCALE), RecordStep(m, records[i], i);
      NotUsedYet(m.feeds, i);
      OneMoreFeeding(m.feeds, f);
      forall k | 0 <= k < |m'.feeds|
        ensures FedBy(m', records, m'.feeds[k]) && m'.feeds[k].record < i + 1 && m'.feeds[k].segment in m'.placed
      {
        if k < |m.feeds| { assert FedBy(m, records, m.feeds[k]); }
      }
    }
  }

  lemma {:induction false} NotUsedYet(feeds: seq<Feeding>, n: nat)
    requires forall k :: 0 <= k < |feeds| ==> feeds[k].record < n
    ensures n !in RecordsOf(feeds)
  {
  }

  /** The bytes of the first n of the order that the container is expected to hold. */
  ghost function StoredUpTo(segs: seq<Segment>, order: seq<Ranked>, n: nat): nat
    requires n <= |order| && forall x :: x in order ==> x.at < |segs|
  {
    if n == 0 then 0
    else
        StoredUpTo(segs, order, n - 1) + if segs[order[n - 1].at].kind == PT_NOTE then 0 else segs[order[n - 1].at].size
  }

  lemma {:induction false} StoredGrows(segs: seq<Segment>, order: seq<Ranked>, n: nat, k: nat)
    requires n <= k <= |order| && forall x :: x in order ==> x.at < |segs|
    ensures StoredUpTo(segs, order, n) <= StoredUpTo(segs, order, k)
  {
    if n < k { StoredGrows(segs, order, n, k - 1); }
  }

  /** One of the order after the pass: right after the ones before it, unless it is a note or runs past the end. */
  ghost predicate StoredAt(m: Matching, order: seq<Ranked>, cursor: int, length: nat, a: nat, segs: seq<Segment>)
    requires a < |order| && (forall x :: x in order ==> x.at < |m.segs|) && |segs| == |m.segs|
  {
    var s := m.segs[order[a].at];
    var at := cursor + StoredUpTo(m.segs, order, a);
    segs[order[a].at] == if s.kind == PT_NOTE || at + s.size > length then
        s.(source := 0, size := 0) else s.(source := at)
  }

  ghost predicate SameFeeds(m: Matching, m': Matching) { m'.used == m.used && m'.feeds == m.feeds }

  /** Only settled segments have been fed. */
  ghost predicate SettledFeeds(m: Matching) {
    forall k :: 0 <= k < |m.feeds| ==> m.feeds[k].segment in m.placed
  }

  /** What storing the next one changes. */
  lemma {:induction false} TrailPassNext(m: Matching, cursor: int, order: seq<Ranked>, n: nat, length: nat)
    requires n <= |order| && forall x :: x in order ==> x.at < |m.segs|
    ensures n == 0 ==> TrailPass(m, cursor, order, n, length) == (m, cursor)
    ensures n > 0 ==>
              var (before, at) := TrailPass(m, cursor, order, n - 1, length);
              var h := order[n - 1].at;
              TrailPass(m, cursor, order, n, length)
              == (Matching(before.segs[h := StoreTrailing(before.segs[h], at, length)], before.placed + {h},
                  before.used, before.feeds),
                  NextCursor(before.segs[h], at))
  {
  }

  lemma {:induction false} TrailPassStores(m: Matching, cursor: int, order: seq<Ranked>, n: nat, length: nat)
    requires n <= |order| && forall x :: x in order ==> x.at < |m.segs|
    requires forall a, b :: 0 <= a < b < |order| ==> order[a].at != order[b].at
    ensures var (m', end) := TrailPass(m, cursor, order, n, length);
            && end == cursor + StoredUpTo(m.segs, order, n) && SameFeeds(m, m')
            && (forall a :: 0 <= a < n ==> StoredAt(m, order, cursor, length, a, m'.segs))
            && (forall h ::
                0 <= h < |m.segs| && (forall a :: 0 <= a < n ==> order[a].at != h) ==> m'.segs[h] == m.segs[h])
            && (forall h :: h in m'.placed <==> h in m.placed || exists a :: 0 <= a < n && order[a].at == h)
  {
    hide TrailPass;
    TrailPassNext(m, cursor, order, n, length);
    if n > 0 {
      TrailPassStores(m, cursor, order, n - 1, length);
      var (before, at) := TrailPass(m, cursor, order, n - 1, length);
      var (m', end) := TrailPass(m, cursor, order, n, length);
      var h := order[n - 1].at;
      assert before.segs[h] == m.segs[h];
      forall a | 0 <= a < n ensures StoredAt(m, order, cursor, length, a, m'.segs) {
        if a < n - 1 {
          assert StoredAt(m, order, cursor, length, a, before.segs);
          assert m'.segs[order[a].at] == before.segs[order[a].at];
        }
      }
    }
  }

  /** An order in which the trailing pass can store segments: unsettled unaddressed ones, each once. */
  ghost predicate InTrailingOrder(m: Matching, order: seq<Ranked>) {
    && (forall x :: x in order ==> x.at < |m.segs| && x.at !in m.placed && Unaddressed(m.segs[x.at]))
    && (forall a, b :: 0 <= a < b < |order| ==> order[a].at != order[b].at)
  }

  /** Nothing but unaddressed segments without a settled place moves; their bytes stay or go as a whole. */
  ghost predicate TrailMove(m: Matching, m': Matching, h: nat)
    requires h < |m.segs| == |m'.segs|
  {
    && OnlyMoved(m.segs[h], m'.segs[h])
    && m'.segs[h].host == m.segs[h].host && m'.segs[h].memory == m.segs[h].memory
    && (h in m.placed || !Unaddressed(m.segs[h]) ==> m'.segs[h] == m.segs[h] && (h in m'.placed <==> h in m.placed))
    && (m'.segs[h].size != m.segs[h].size ==> m'.segs[h].size == 0 && m'.segs[h].source == 0 && h in m'.placed)
  }

  lemma {:induction false} TrailPassMoves(m: Matching, cursor: int, order: seq<Ranked>, length: nat, h: nat)
    requires InTrailingOrder(m, order) && h < |m.segs|
    ensures var m' := TrailPass(m, cursor, order, |order|, length).0;
            TrailMove(m, m', h) && SameFeeds(m, m') && m.placed <= m'.placed
  {
    TrailPassStores(m, cursor, order, |order|, length);
    if exists a :: 0 <= a < |order| && order[a].at == h {
      var a :| 0 <= a < |order| && order[a].at == h;
      assert StoredAt(m, order, cursor, length, a, TrailPass(m, cursor, order, |order|, length).0.segs);
      assert order[a] in order;
    }
  }

  lemma {:induction false} TrailingStorable(m: Matching, last: nat)
    requires last < |m.segs|
    ensures InTrailingOrder(m, Trailing(m.segs, m.placed, last))
  {
    TrailingMembers(m.segs, m.placed, last);
  }

  lemma {:induction false} TrailingPassAt(m: Matching, length: nat, h: nat)
    requires h < |m.segs|
    ensures var m' := TrailingPass(m, length); TrailMove(m, m', h) && SameFeeds(m, m') && m.placed <= m'.placed
  {
    match LastRecorded(m.segs, m.placed, |m.segs|)
    case None =>
    case Some(last) =>
      TrailingStorable(m, last);
      TrailPassMoves(m, m.segs[last].source + m.segs[last].size, Trailing(m.segs, m.placed, last), length, h);
  }

  lemma {:induction false} NothingFed(m: Matching, records: seq<Record>)
    requires Fed(m, records)
    ensures m.segs == [] ==> m.feeds == []
  {
    if m.feeds != [] { assert FedBy(m, records, m.feeds[0]); }
  }

  lemma {:induction false} TrailingPassMoves(m: Matching, records: seq<Record>, length: nat)
    requires Fed(m, records) && SettledFeeds(m)
    ensures Fed(TrailingPass(m, length), records) && AllMoved(m.segs, TrailingPass(m, length).segs)
  {
    NothingFed(m, records);
    forall h | 0 <= h < |m.segs|
      ensures OnlyMoved(m.segs[h], TrailingPass(m, length).segs[h])
      ensures h in m.placed ==> TrailingPass(m, length).segs[h] == m.segs[h]
      ensures SameFeeds(m, TrailingPass(m, length)) && m.placed <= TrailingPass(m, length).placed
    {
      TrailingPassAt(m, length, h);
    }
  }

  /** After the first n headers: only sources moved, and only of loads that were not settled. */
  ghost predicate LoadsFed(m: Matching, records: seq<Record>, n: nat, m': Matching) {
    && Fed(m', records) && |m'.segs| == |m.segs| && m'.placed == m.placed
    && (forall h :: 0 <= h < |m.segs| ==> m'.segs[h] == m.segs[h].(source := m'.segs[h].source))
    && (forall h ::
        0 <= h < |m.segs| && (h in m.placed || m.segs[h].kind != PT_LOAD || h >= n) ==> m'.segs[h] == m.segs[h])
    && (forall k :: 0 <= k < |m'.feeds| ==> m'.feeds[k].segment in m.placed || m'.feeds[k].segment < n)
  }

  lemma {:induction false} LoadStepFeeds(m: Matching, records: seq<Record>, h: nat, m': Matching)
    requires LoadsFed(m, records, h, m') && h < |m.segs|
    ensures LoadsFed(m, records, h + 1, LoadStep(m', records, h))
  {
    hide FedOnce, RecordsOf, FirstUnused;
    var m'' := LoadStep(m', records, h);
    if m'' != m' {
      var f := m''.feeds[|m'.feeds|];
      OneMoreFeeding(m'.feeds, f);
      forall k | 0 <= k < |m''.feeds|
        ensures FedBy(m'', records, m''.feeds[k])
        ensures m''.feeds[k].segment in m.placed || m''.feeds[k].segment < h + 1
      {
        if k < |m'.feeds| { assert FedBy(m', records, m'.feeds[k]); }
      }
    }
  }

  lemma {:induction false} LoadsFedFromNone(m: Matching, records: seq<Record>)
    requires Fed(m, records) && SettledFeeds(m)
    ensures LoadsFed(m, records, 0, m)
  {
    forall h | 0 <= h < |m.segs| ensures m.segs[h] == m.segs[h].(source := m.segs[h].source) {
    }
  }

  lemma {:induction false} LoadPassFeeds(m: Matching, records: seq<Record>, n: nat)
    requires Fed(m, records) && n <= |m.segs|
    requires SettledFeeds(m)
    ensures LoadsFed(m, records, n, LoadPass(m, records, n))
  {
    if n == 0 {
      LoadsFedFromNone(m, records);
    } else {
      LoadPassFeeds(m, records, n - 1);
      hide Fed, LoadsFed, LoadStep;
      LoadStepFeeds(m, records, n - 1, LoadPass(m, records, n - 1));
    }
  }

  /** The segment's bytes are its host's: same distance in the container as in memory, inside what the file holds. */
  ghost predicate Hosted(segs: seq<Segment>, h: nat, l: nat)
    requires h < |segs|
  {
    && l < |segs| && segs[l].kind == PT_LOAD
    && segs[h].source - segs[l].source == segs[h].vaddr - segs[l].vaddr
    && Backed(segs[l], segs[h].vaddr - segs[l].vaddr, segs[h].size)
  }

  ghost predicate HostsHold(segs: seq<Segment>) {
    forall h :: 0 <= h < |segs| && segs[h].host.Some? ==> segs[h].kind != PT_LOAD && Hosted(segs, h, segs[h].host.value)
  }

  /** What the host pass leaves of a segment. */
  ghost predicate HostMove(placed: set<nat>, h: nat, a: Segment, b: Segment) {
    && OnlyMoved(a, b)
    && (a.kind == PT_LOAD ==> b == a)
    && (h in placed ==> b == a.(host := b.host))
    && (ByAddress(a) ==> b.size == a.size && b.memory == a.memory)
  }

  lemma {:induction false} HostStepMoves(segs: seq<Segment>, placed: set<nat>, h: nat, tail: Option<Tail>, length: nat)
    requires h < |segs| && HostStep(segs, placed, h, tail, length).Ok? && segs[h].host == None
    ensures var s' := HostStep(segs, placed, h, tail, length).value.0;
            HostMove(placed, h, segs[h], s') && (s'.host.Some? ==>
                s'.kind != PT_LOAD && Hosted(segs[h := s'], h, s'.host.value))
  {
  }

  lemma {:induction false} HostPassMoves(segs: seq<Segment>, placed: set<nat>, n: nat, length: nat)
    requires n <= |segs| && HostPass(segs, placed, n, length).Ok?
    requires forall h :: 0 <= h < |segs| ==> segs[h].host == None
    ensures var s' := HostPass(segs, placed, n, length).value.0;
            && (forall h :: 0 <= h < |segs| ==> HostMove(placed, h, segs[h], s'[h]))
            && (forall h :: n <= h < |segs| ==> s'[h] == segs[h])
            && HostsHold(s')
  {
    if n > 0 {
      HostPassMoves(segs, placed, n - 1, length);
      var before := HostPass(segs, placed, n - 1, length).value;
      HostStepMoves(before.0, placed, n - 1, before.1, length);
      var s' := HostPass(segs, placed, n, length).value.0;
      forall h | 0 <= h < |segs| && s'[h].host.Some? ensures s'[h].kind != PT_LOAD && Hosted(s', h, s'[h].host.value) {
        if h < n - 1 {
          assert s'[h] == before.0[h] && Hosted(before.0, h, s'[h].host.value);
        }
      }
    }
  }

  // ----- what a successful placement guarantees

  ghost predicate Fresh(segs: seq<Segment>) {
    forall h :: 0 <= h < |segs| ==> segs[h].host == None
  }

  lemma {:induction false} MatchedIsFed(segs: seq<Segment>, records: seq<Record>, length: nat)
    ensures Fed(Matched(segs, records, length), records)
    ensures AllMoved(NullAll(segs), Matched(segs, records, length).segs)
    ensures Fresh(segs) ==> Fresh(Matched(segs, records, length).segs)
  {
    RecordPassFeeds(NullAll(segs), records, |records|);
    var m := RecordPass(NullAll(segs), records, |records|);
    TrailingPassMoves(m, records, length);
    var t := TrailingPass(m, length);
    forall h | 0 <= h < |segs| ensures SameFeeds(m, t) && m.placed <= t.placed && t.segs[h].host == m.segs[h].host {
      TrailingPassAt(m, length, h);
    }
    NothingFed(t, records);
    LoadPassFeeds(t, records, |segs|);
  }

  /**
    No record is used for two segments and no segment is fed by two records, in all the feedings from the first record
    to the last load; and every fed segment has its record's bytes at the end.
   */
  lemma {:induction false} NoRecordFeedsTwo(segs: seq<Segment>, records: seq<Record>, length: nat)
    requires Fresh(segs) && Placed(segs, records, length).Ok?
    ensures var feeds, out := Matched(segs, records, length).feeds, Placed(segs, records, length).value;
            && (forall j, k :: 0 <= j < |feeds| && 0 <= k < |feeds| && feeds[j].record == feeds[k].record ==> j == k)
            && (forall j, k :: 0 <= j < |feeds| && 0 <= k < |feeds| && feeds[j].segment == feeds[k].segment ==> j == k)
            && (forall k :: 0 <= k < |feeds| ==>
                  && feeds[k].record < |records| && feeds[k].segment < |out|
                  && out[feeds[k].segment].source == records[feeds[k].record].segment
                  && out[feeds[k].segment].size == records[feeds[k].record].size)
  {
    var m := Matched(segs, records, length);
    MatchedIsFed(segs, records, length);
    HostPassMoves(m.segs, m.placed, |m.segs|, length);
    var out := Placed(segs, records, length).value;
    forall k | 0 <= k < |m.feeds|
      ensures var f := m.feeds[k];
              f.record < |records| && f.segment < |out| && out[f.segment].source == records[f.record].segment
                  && out[f.segment].size == records[f.record].size
    {
      var f := m.feeds[k];
      assert FedBy(m, records, f) && HostMove(m.placed, f.segment, m.segs[f.segment], out[f.segment]);
    }
  }

  function SegmentsOf(feeds: seq<Feeding>): set<nat> { set f | f in feeds :: f.segment }

  lemma {:induction false} SegmentsOfMore(feeds: seq<Feeding>, f: Feeding)
    ensures SegmentsOf(feeds + [f]) == SegmentsOf(feeds) + {f.segment}
  {
    assert forall g :: g in feeds + [f] <==> g in feeds || g == f;
  }

  /** The segments that records settle are those they feed; a record that names a segment of its size settles it. */
  lemma {:induction false} RecordPassSettles(segs: seq<Segment>, records: seq<Record>, n: nat)
    requires n <= |records|
    ensures var m := RecordPass(segs, records, n); m.placed == SegmentsOf(m.feeds)
    ensures forall i :: 0 <= i < n ==> NamedIsSettled(segs, records, i, RecordPass(segs, records, n).placed)
  {
    hide Recorded, RecordStep, NamedIsSettled, SegmentsOf;
    if n == 0 {
      NoSegments();
    } else {
      RecordPassSettles(segs, records, n - 1);
      RecordPassFeeds(segs, records, n - 1);
      var m := RecordPass(segs, records, n - 1);
      RecordStepSettles(segs, records, n - 1, m);
      forall i | 0 <= i < n ensures NamedIsSettled(segs, records, i, RecordPass(segs, records, n).placed) {
        if i < n - 1 { StillSettled(segs, records, i, m.placed, RecordPass(segs, records, n).placed); }
      }
    }
  }

  lemma {:induction false} NoSegments()
    ensures SegmentsOf([]) == {}
  {
  }

  lemma {:induction false} StillSettled(segs: seq<Segment>, records: seq<Record>, i: nat, placed: set<nat>,
                                        placed': set<nat>)
    requires i < |records| && NamedIsSettled(segs, records, i, placed) && placed <= placed'
    ensures NamedIsSettled(segs, records, i, placed')
  {
  }

  lemma {:induction false} RecordStepSettles(segs: seq<Segment>, records: seq<Record>, i: nat, m: Matching)
    requires i < |records| && Recorded(segs, records, i, m) && m.placed == SegmentsOf(m.feeds)
    ensures var m' := RecordStep(m, records[i], i);
            m'.placed == SegmentsOf(m'.feeds) && m.placed <= m'.placed && NamedIsSettled(segs, records, i, m'.placed)
  {
    hide Fed, SegmentsOf;
    SegmentsOfMore(m.feeds, Feeding(i, records[i].flags / RECORD_SEGMENT_SCALE));
  }

  ghost predicate NamedIsSettled(segs: seq<Segment>, records: seq<Record>, i: nat, placed: set<nat>)
    requires i < |records|
  {
    var target := records[i].flags / RECORD_SEGMENT_SCALE;
    HasSegment(records[i].flags) && target < |segs| && segs[target].size == records[i].size ==> target in placed
  }

  /** Later loads only add feedings. */
  lemma {:induction false} FeedsStay(m: Matching, records: seq<Record>, n: nat, k: nat)
    requires n <= k <= |m.segs|
    ensures var a, b := LoadPass(m, records, n), LoadPass(m, records, k);
            a.feeds <= b.feeds && a.used <= b.used && b.placed == m.placed
    ensures forall h :: 0 <= h < |m.segs| ==> LoadPass(m, records, k).segs[h].kind == m.segs[h].kind
                                              && LoadPass(m, records, k).segs[h].size == m.segs[h].size
  {
    if n < k {
      FeedsStay(m, records, n, k - 1);
    } else if n > 0 {
      FeedsStay(m, records, n - 1, k - 1);
    }
  }

  lemma {:induction false} LoadTakesOne(m: Matching, records: seq<Record>, h: nat)
    requires h < |m.segs| && WantsRecord(m, h)
    ensures var m' := LoadStep(m, records, h);
            h in SegmentsOf(m'.feeds)
            || forall i :: 0 <= i < |records| && records[i].size == m.segs[h].size ==> i in m'.used
  {
    var m' := LoadStep(m, records, h);
    if m' != m { assert m'.feeds[|m.feeds|] in m'.feeds; }
  }

  /** A load with bytes goes without a record only when every record of its size is used for another segment. */
  lemma {:induction false} UnfedLoadFindsNone(segs: seq<Segment>, records: seq<Record>, length: nat, h: nat)
    requires h < |segs| && segs[h].kind == PT_LOAD && segs[h].size > 0
    requires h !in SegmentsOf(Matched(segs, records, length).feeds)
    ensures forall i :: 0 <= i < |records| && records[i].size == segs[h].size ==>
              i in RecordsOf(Matched(segs, records, length).feeds)
  {
    hide RecordPass, LoadStep, TrailingPass;
    var r := RecordPass(NullAll(segs), records, |records|);
    RecordPassFeeds(NullAll(segs), records, |records|);
    RecordPassSettles(NullAll(segs), records, |records|);
    TrailingPassAt(r, length, h);
    var t := TrailingPass(r, length);
    FeedsStay(t, records, 0, |segs|);
    assert h !in t.placed by {
      assert forall f :: f in t.feeds ==> f in Matched(segs, records, length).feeds;
    }
    FeedsStay(t, records, 0, h);
    LoadTakesOne(LoadPass(t, records, h), records, h);
    FeedsStay(t, records, h + 1, |segs|);
    assert LoadPass(t, records, h + 1) == LoadStep(LoadPass(t, records, h), records, h);
    MatchedIsFed(segs, records, length);
  }

  /** Every header keeps its identity, has its bytes in the container, and agrees with its host. */
  lemma {:induction false} PlacementIsSound(segs: seq<Segment>, records: seq<Record>, length: nat)
    requires Fresh(segs) && Placed(segs, records, length).Ok?
    ensures var out := Placed(segs, records, length).value;
            && AllMoved(NullAll(segs), out) && HostsHold(out)
            && (forall h :: 0 <= h < |out| ==> Inside(out[h], length))
  {
    var m := Matched(segs, records, length);
    MatchedIsFed(segs, records, length);
    HostPassMoves(m.segs, m.placed, |m.segs|, length);
    var out := Placed(segs, records, length).value;
    forall h | 0 <= h < |out| ensures OnlyMoved(NullAll(segs)[h], out[h]) {
      assert OnlyMoved(NullAll(segs)[h], m.segs[h]);
      assert HostMove(m.placed, h, m.segs[h], out[h]);
    }
  }

  /** A load keeps its size; a segment that is mapped by address keeps its size or is left without bytes. */
  lemma {:induction false} SizesStayOrGo(segs: seq<Segment>, records: seq<Record>, length: nat, h: nat)
    requires Fresh(segs) && Placed(segs, records, length).Ok? && h < |segs|
    requires ByAddress(Nulled(segs[h])) || Nulled(segs[h]).kind == PT_LOAD
    ensures var a, b := Nulled(segs[h]), Placed(segs, records, length).value[h];
            b.memory == a.memory && (b.size == a.size || (a.kind != PT_LOAD && b.size == 0 && b.source == 0))
  {
    var r := RecordPass(NullAll(segs), records, |records|);
    RecordPassFeeds(NullAll(segs), records, |records|);
    TrailingPassMoves(r, records, length);
    var t := TrailingPass(r, length);
    TrailingPassAt(r, length, h);
    assert SameFeeds(r, t) && r.placed <= t.placed;
    LoadPassFeeds(t, records, |segs|);
    var m := Matched(segs, records, length);
    MatchedIsFed(segs, records, length);
    HostPassMoves(m.segs, m.placed, |m.segs|, length);
    assert HostMove(m.placed, h, m.segs[h], Placed(segs, records, length).value[h]);
  }

  /** The trailing segments, and where the first of them is expected; empty when nothing unaddressed is recorded. */
  ghost function TrailingOrder(segs: seq<Segment>, records: seq<Record>): (r: (seq<Ranked>, int))
    ensures forall x :: x in r.0 ==> x.at < |segs|
  {
    var m := RecordPass(NullAll(segs), records, |records|);
    match LastRecorded(m.segs, m.placed, |m.segs|)
    case None => ([], 0)
    case Some(last) =>
      TrailingInRange(m.segs, m.placed, last);
      (Trailing(m.segs, m.placed, last), m.segs[last].source + m.segs[last].size)
  }

  /** A segment settled by the records or by the trailing pass keeps its place. */
  lemma {:induction false} SettledStays(segs: seq<Segment>, records: seq<Record>, length: nat, h: nat)
    requires Fresh(segs) && Placed(segs, records, length).Ok? && h < |segs|
    requires h in TrailingPass(RecordPass(NullAll(segs), records, |records|), length).placed
    ensures var t, out := TrailingPass(RecordPass(NullAll(segs), records, |records|), length),
        Placed(segs, records, length).value;
            out[h].source == t.segs[h].source && out[h].size == t.segs[h].size
  {
    var r := RecordPass(NullAll(segs), records, |records|);
    RecordPassFeeds(NullAll(segs), records, |records|);
    TrailingPassMoves(r, records, length);
    TrailingPassAt(r, length, h);
    LoadPassFeeds(TrailingPass(r, length), records, |segs|);
    var m := Matched(segs, records, length);
    MatchedIsFed(segs, records, length);
    HostPassMoves(m.segs, m.placed, |m.segs|, length);
    assert HostMove(m.placed, h, m.segs[h], Placed(segs, records, length).value[h]);
  }

  /** The trailing pass, in terms of the headers as they were parsed. */
  lemma {:induction false} RecordPassMoves(segs: seq<Segment>, records: seq<Record>, n: nat)
    requires n <= |records|
    ensures var m := RecordPass(segs, records, n);
            |m.segs| == |segs| && forall h :: 0 <= h < |segs| ==> m.segs[h] == segs[h].(source := m.segs[h].source)
  {
    hide Fed, FedOnce, FedBy;
    RecordPassFeeds(segs, records, n);
  }

  lemma {:induction false} TrailingStored(segs: seq<Segment>, records: seq<Record>, length: nat, a: nat)
    requires a < |TrailingOrder(segs, records).0|
    ensures var nulled, t := NullAll(segs), TrailingPass(RecordPass(NullAll(segs), records, |records|), length);
            var (order, start) := TrailingOrder(segs, records);
            && (forall x :: x in order ==> x.at < |segs|)
            && order[a].at in t.placed
            && (forall b :: 0 <= b < a ==> nulled[order[b].at].offset <= nulled[order[a].at].offset)
            && var at := start + StoredUpTo(nulled, order, a);
               var s, stored := nulled[order[a].at], t.segs[order[a].at];
               if s.kind == PT_NOTE || at + s.size > length then stored.source == 0 && stored.size == 0
               else stored.source == at && stored.size == s.size
  {
    hide RecordPass, Recorded, LastRecorded, TrailPass, Trailing, Trails, NullAll, StoredUpTo;
    var r := RecordPass(NullAll(segs), records, |records|);
    RecordPassMoves(NullAll(segs), records, |records|);
    var (order, start) := TrailingOrder(segs, records);
    TrailingMembers(r.segs, r.placed, LastRecorded(r.segs, r.placed, |r.segs|).value);
    TrailPassStores(r, start, order, |order|, length);
    assert StoredAt(r, order, start, length, a, TrailingPass(r, length).segs);
    StoredOfNulled(r.segs, NullAll(segs), order, a);
    assert order[a] in order;
    forall b | 0 <= b < a ensures NullAll(segs)[order[b].at].offset <= NullAll(segs)[order[a].at].offset {
      assert order[b] in order;
    }
  }

  /**
    The trailing segments end up back to back in ELF order after the last recorded one: each right after the
    ones before it, the notes aside, or without bytes if it is a note or would run past the end.
   */
  lemma {:induction false} TrailingIsBackToBack(segs: seq<Segment>, records: seq<Record>, length: nat, a: nat)
    requires Fresh(segs) && Placed(segs, records, length).Ok? && a < |TrailingOrder(segs, records).0|
    ensures var nulled, out := NullAll(segs), Placed(segs, records, length).value;
            var (order, start) := TrailingOrder(segs, records);
            && (forall x :: x in order ==> x.at < |segs|)
            && (forall b :: 0 <= b < a ==> nulled[order[b].at].offset <= nulled[order[a].at].offset)
            && var at := start + StoredUpTo(nulled, order, a);
               var s, stored := nulled[order[a].at], out[order[a].at];
               if s.kind == PT_NOTE || at + s.size > length then stored.source == 0 && stored.size == 0
               else stored.source == at && stored.size == s.size
  {
    TrailingStored(segs, records, length, a);
    SettledStays(segs, records, length, TrailingOrder(segs, records).0[a].at);
  }

  lemma {:induction false} StoredOfNulled(segs: seq<Segment>, segs': seq<Segment>, order: seq<Ranked>, n: nat)
    requires n <= |order| && |segs| == |segs'| && forall x :: x in order ==> x.at < |segs|
    requires forall h :: 0 <= h < |segs| ==> segs[h].kind == segs'[h].kind && segs[h].size == segs'[h].size
    ensures StoredUpTo(segs, order, n) == StoredUpTo(segs', order, n)
  {
    if n > 0 { StoredOfNulled(segs, segs', order, n - 1); }
  }

  /** Among the trailing segments that are not notes, the ones that keep their bytes come first. */
  lemma {:induction false} KeptTrailingIsPrefix(segs: seq<Segment>, records: seq<Record>, length: nat, a: nat, b: nat)
    requires Fresh(segs) && Placed(segs, records, length).Ok? && a < b < |TrailingOrder(segs, records).0|
    ensures var order, out := TrailingOrder(segs, records).0, Placed(segs, records, length).value;
            (forall x :: x in order ==> x.at < |segs|)
            && (segs[order[a].at].kind != PT_NOTE && out[order[b].at].size > 0 ==> out[order[a].at].size > 0)
  {
    TrailingIsBackToBack(segs, records, length, a);
    TrailingIsBackToBack(segs, records, length, b);
    StoredGrows(NullAll(segs), TrailingOrder(segs, records).0, a + 1, b);
    TrailingHasBytes(segs, records, a);
  }

  lemma {:induction false} TrailingHasBytes(segs: seq<Segment>, records: seq<Record>, a: nat)
    requires a < |TrailingOrder(segs, records).0| && TrailingOrder(segs, records).0[a].at < |segs|
    ensures NullAll(segs)[TrailingOrder(segs, records).0[a].at].size > 0
  {
    var r := RecordPass(NullAll(segs), records, |records|);
    RecordPassFeeds(NullAll(segs), records, |records|);
    TrailingMembers(r.segs, r.placed, LastRecorded(r.segs, r.placed, |r.segs|).value);
    assert TrailingOrder(segs, records).0[a] in TrailingOrder(segs, records).0;
  }

  // ----- segments that end up without bytes

  /** The container ends before the segment would, stored after the ones before it in ELF order. */
  ghost predicate CutOff(segs: seq<Segment>, records: seq<Record>, length: nat, h: nat)
    requires h < |segs|
  {
    var (order, start) := TrailingOrder(segs, records);
    exists a ::
        0 <= a < |order| && order[a].at == h && start + StoredUpTo(NullAll(segs), order, a) + segs[h].size > length
  }

  /** A segment that is mapped by address and had bytes is left without them exactly when it is cut off. */
  lemma {:induction false} EmptiedIffCutOff(segs: seq<Segment>, records: seq<Record>, length: nat, h: nat)
    requires Fresh(segs) && Placed(segs, records, length).Ok? && h < |segs|
    requires ByAddress(segs[h]) && segs[h].kind != PT_NULL && segs[h].kind != PT_NOTE && segs[h].size > 0
    ensures Placed(segs, records, length).value[h].size == 0 <==> CutOff(segs, records, length, h)
  {
    hide Placed, TrailingOrder, StoredUpTo, Fresh;
    var (order, start) := TrailingOrder(segs, records);
    if exists a :: 0 <= a < |order| && order[a].at == h {
      var a :| 0 <= a < |order| && order[a].at == h;
      TrailingIsBackToBack(segs, records, length, a);
      forall b | 0 <= b < |order| && order[b].at == h ensures b == a {
        TrailingOnce(segs, records, a, b);
      }
    } else {
      UntrailedStays(segs, records, length, h);
    }
  }

  lemma {:induction false} TrailingOnce(segs: seq<Segment>, records: seq<Record>, a: nat, b: nat)
    requires a < |TrailingOrder(segs, records).0| && b < |TrailingOrder(segs, records).0|
    requires TrailingOrder(segs, records).0[a].at == TrailingOrder(segs, records).0[b].at
    ensures a == b
  {
    var r := RecordPass(NullAll(segs), records, |records|);
    TrailingMembers(r.segs, r.placed, LastRecorded(r.segs, r.placed, |r.segs|).value);
  }

  /** A segment mapped by address that does not trail keeps its size. */
  lemma {:induction false} UntrailedStays(segs: seq<Segment>, records: seq<Record>, length: nat, h: nat)
    requires Fresh(segs) && Placed(segs, records, length).Ok? && h < |segs|
    requires ByAddress(segs[h]) && segs[h].kind != PT_NULL
    requires forall a :: 0 <= a < |TrailingOrder(segs, records).0| ==> TrailingOrder(segs, records).0[a].at != h
    ensures Placed(segs, records, length).value[h].size == segs[h].size
  {
    hide RecordPass, LoadPass, HostPass;
    var r := RecordPass(NullAll(segs), records, |records|);
    RecordPassFeeds(NullAll(segs), records, |records|);
    TrailingPassMoves(r, records, length);
    TrailingPassAt(r, length, h);
    UntrailedUntouched(segs, records, length, h);
    LoadPassFeeds(TrailingPass(r, length), records, |segs|);
    var m := Matched(segs, records, length);
    MatchedIsFed(segs, records, length);
    HostPassMoves(m.segs, m.placed, |m.segs|, length);
    assert HostMove(m.placed, h, m.segs[h], Placed(segs, records, length).value[h]);
  }

  lemma {:induction false} UntrailedUntouched(segs: seq<Segment>, records: seq<Record>, length: nat, h: nat)
    requires h < |segs|
    requires forall a :: 0 <= a < |TrailingOrder(segs, records).0| ==> TrailingOrder(segs, records).0[a].at != h
    ensures var r := RecordPass(NullAll(segs), records, |records|); TrailingPass(r, length).segs[h] == r.segs[h]
  {
    hide RecordPass, TrailPass, Trailing;
    var r := RecordPass(NullAll(segs), records, |records|);
    var (order, start) := TrailingOrder(segs, records);
    match LastRecorded(r.segs, r.placed, |r.segs|)
    case None =>
    case Some(last) =>
      TrailingMembers(r.segs, r.placed, last);
      TrailPassStores(r, start, order, |order|, length);
  }

  // ----- the passes, in place on the headers

  method ApplyRecords(headers: array<Segment>, records: seq<Record>)
    returns (placed: set<nat>, used: set<nat>, ghost feeds: seq<Feeding>)
    modifies headers
    ensures Matching(headers[..], placed, used, feeds) == RecordPass(old(headers[..]), records, |records|)
  {
    placed, used, feeds := {}, {}, [];
    for i := 0 to |records|
      invariant Matching(headers[..], placed, used, feeds) == RecordPass(old(headers[..]), records, i)
    {
      ghost var before := headers[..];
      var target := records[i].flags / RECORD_SEGMENT_SCALE;
      if HasSegment(records[i].flags) && target < headers.Length && target !in placed
          && headers[target].size == records[i].size {
        headers[target] := headers[target].(source := records[i].segment);
        assert headers[..] == before[target := headers[target]];
        placed := placed + {target};
        used, feeds := used + {i}, feeds + [Feeding(i, target)];
      }
    }
  }

  method StoreTrailingSegments(headers: array<Segment>, placed: set<nat>, ghost used: set<nat>,
                               ghost feeds: seq<Feeding>, length: nat)
    returns (placed': set<nat>)
    modifies headers
    ensures Matching(headers[..], placed', used, feeds)
        == TrailingPass(Matching(old(headers[..]), placed, used, feeds), length)
  {
    var recorded := LastRecorded(headers[..], placed, headers.Length);
    if recorded.None? {
      return placed;
    }
    var last := recorded.value;
    var order := Trailing(headers[..], placed, last);
    TrailingInRange(headers[..], placed, last);
    placed' := StoreInOrder(headers, placed, used, feeds, order, headers[last].source + headers[last].size, length);
  }

  method StoreInOrder(headers: array<Segment>, placed: set<nat>, ghost used: set<nat>,
                      ghost feeds: seq<Feeding>, order: seq<Ranked>, start: int, length: nat)
    returns (placed': set<nat>)
    requires forall x :: x in order ==> x.at < headers.Length
    modifies headers
    ensures Matching(headers[..], placed', used, feeds)
        == TrailPass(Matching(old(headers[..]), placed, used, feeds), start, order, |order|, length).0
  {
    placed' := placed;
    ghost var m := Matching(headers[..], placed, used, feeds);
    var cursor := start;
    for n := 0 to |order|
      invariant (Matching(headers[..], placed', used, feeds), cursor) == TrailPass(m, start, order, n, length)
    {
      ghost var before := headers[..];
      assert order[n] in order;
      var h := order[n].at;
      placed' := placed' + {h};
      if headers[h].kind == PT_NOTE {
        headers[h] := headers[h].(source := 0, size := 0);
      } else {
        var stored := headers[h].(source := cursor);
        cursor := cursor + headers[h].size;
        headers[h] := if cursor > length then stored.(source := 0, size := 0) else stored;
      }
      assert headers[..] == before[h := headers[h]];
    }
  }

  method FeedLoads(headers: array<Segment>, records: seq<Record>, placed: set<nat>, used: set<nat>,
                   ghost feeds: seq<Feeding>)
    returns (used': set<nat>, ghost feeds': seq<Feeding>)
    modifies headers
    ensures Matching(headers[..], placed, used', feeds')
        == LoadPass(Matching(old(headers[..]), placed, used, feeds), records, headers.Length)
  {
    used', feeds' := used, feeds;
    for h := 0 to headers.Length
      invariant Matching(headers[..], placed, used', feeds')
          == LoadPass(Matching(old(headers[..]), placed, used, feeds), records, h)
    {
      ghost var before := headers[..];
      if headers[h].kind != PT_LOAD || headers[h].size == 0 || h in placed {
        continue;
      }
      var i := 0;
      while i < |records|
        invariant i <= |records| && headers[..] == before
        invariant FirstUnused(records, used', before[h].size, 0) == FirstUnused(records, used', before[h].size, i)
      {
        if i !in used' && records[i].size == headers[h].size {
          break;
        }
        i := i + 1;
      }
      if i < |records| {
        used', feeds' := used' + {i}, feeds' + [Feeding(i, h)];
        headers[h] := headers[h].(source := records[i].segment);
        assert headers[..] == before[h := headers[h]];
      }
    }
  }

  /** The last load that contains an address. */
  method FindLoad(headers: array<Segment>, vaddr: nat, size: nat) returns (found: Option<nat>)
    ensures found == LoadFor(headers[..], vaddr, size, headers.Length)
  {
    found := None;
    for h := 0 to headers.Length
      invariant found == LoadFor(headers[..], vaddr, size, h)
    {
      if Holds(headers[h], vaddr, size) {
        found := Some(h);
      }
    }
  }

  method HostSegment(headers: array<Segment>, placed: set<nat>, h: nat, tail: Option<Tail>, length: nat)
    returns (r: Result<Option<Tail>>)
    requires h < headers.Length
    modifies headers
    ensures var step := HostStep(old(headers[..]), placed, h, tail, length);
            if step.Refused? then r == Refused(step.why) && headers[..] == old(headers[..])
            else r == Ok(step.value.1) && headers[..] == old(headers[..])[h := step.value.0]
  {
    var s := headers[h];
    if s.kind == PT_LOAD {
      return Ok(tail);
    }
    if h in placed {
      var host := FindLoad(headers, s.vaddr, s.size);
      if host.Some? && Backed(headers[host.value], s.vaddr - headers[host.value].vaddr, s.size)
         && s.source == headers[host.value].source + (s.vaddr - headers[host.value].vaddr) {
        headers[h] := s.(host := host);
      }
      return Ok(if s.size != 0 then Further(tail, s) else tail);
    }
    if ByAddress(s) {
      var host := FindLoad(headers, s.vaddr, s.size);
      if host.None? {
        if s.size == 0 {
          headers[h] := s.(source := 0);
          return Ok(tail);
        }
        return Refused(InNoLoad(s.index));
      }
      var load := headers[host.value];
      var offset := s.vaddr - load.vaddr;
      if s.size != 0 && (offset > load.size || s.size > load.size - offset) {
        return Refused(NotFileBacked(s.index));
      }
      if load.size == 0 || offset > load.size {
        headers[h] := s.(source := 0);
        return Ok(tail);
      }
      headers[h] := s.(host := host, source := load.source + offset);
      return Ok(Further(tail, headers[h]));
    }
    if s.size != 0 {
      headers[h] := Shifted(s, tail, length);
    }
    r := Ok(tail);
  }

  method HostSegments(headers: array<Segment>, placed: set<nat>, length: nat) returns (r: Result<()>)
    modifies headers
    ensures var hosted := HostPass(old(headers[..]), placed, headers.Length, length);
            if hosted.Refused? then r == Refused(hosted.why) else r == Ok(()) && headers[..] == hosted.value.0
  {
    var tail: Option<Tail> := None;
    ghost var first := headers[..];
    for h := 0 to headers.Length
      invariant HostPass(first, placed, h, length) == Ok((headers[..], tail))
    {
      var step := HostSegment(headers, placed, h, tail, length);
      if step.Refused? {
        HostStaysRefused(first, placed, h + 1, headers.Length, length);
        return Refused(step.why);
      }
      tail := step.value;
    }
    r := Ok(());
  }

  lemma {:induction false} HostStaysRefused(segs: seq<Segment>, placed: set<nat>, m: nat, n: nat, length: nat)
    requires m <= n <= |segs| && HostPass(segs, placed, m, length).Refused?
    ensures HostPass(segs, placed, n, length) == HostPass(segs, placed, m, length)
  {
    if m < n { HostStaysRefused(segs, placed, m, n - 1, length); }
  }

  method ClearNulls(headers: array<Segment>)
    modifies headers
    ensures headers[..] == NullAll(old(headers[..]))
  {
    for h := 0 to headers.Length
      invariant forall i :: 0 <= i < h ==> headers[i] == Nulled(old(headers[..])[i])
      invariant forall i :: h <= i < headers.Length ==> headers[i] == old(headers[..])[i]
    {
      headers[h] := Nulled(headers[h]);
    }
  }

  method CheckInside(headers: array<Segment>, length: nat) returns (r: Result<()>)
    ensures match FirstOutside(headers[..], length, 0)
            case None => r == Ok(())
            case Some(i) => r == Refused(OutsideFile(headers[i].index))
  {
    for h := 0 to headers.Length
      invariant FirstOutside(headers[..], length, h) == FirstOutside(headers[..], length, 0)
    {
      if !Inside(headers[h], length) {
        return Refused(OutsideFile(headers[h].index));
      }
    }
    r := Ok(());
  }

  /** Works out where the bytes of every segment are, or refuses. */
  method PlaceSegments(headers: array<Segment>, records: seq<Record>, length: nat) returns (r: Result<()>)
    modifies headers
    ensures var placed := Placed(old(headers[..]), records, length);
            if placed.Refused? then r == Refused(placed.why) else r == Ok(()) && headers[..] == placed.value
  {
    ClearNulls(headers);
    var placed, used;
    ghost var feeds;
    placed, used, feeds := ApplyRecords(headers, records);
    placed := StoreTrailingSegments(headers, placed, used, feeds, length);
    used, feeds := FeedLoads(headers, records, placed, used, feeds);
    r := HostSegments(headers, placed, length);
    if r.Ok? {
      r := CheckInside(headers, length);
    }
  }
}
