/**
  What unwrapping a container comes to, said outright: what is read of it, where everything goes, every byte of the
  file that is written, and the first reason for refusing.
 */
module UnwrapOutcome {
  import opened Options
  import opened ElfFormat
  import opened ElfReading
  import opened SegmentPlacement
  import opened SegmentPlaces
  import opened Alignment
  import opened OutputPlan
  import opened OutputRegions
  import opened OutputLayout
  import opened UnwrapSelf

  type Octets = ElfFormat.Bytes

  // ----- what is read

  ghost predicate IsSelf(data: Octets) {
    |data| >= 0x400 && (U32(data, 0) == 0x1D3D154F || U32(data, 0) == 0xEEF51454)
  }

  /** What is asked of PT_PHDR, in this order. */
  ghost function PhdrChecks(entries: seq<Entry>, p: nat): seq<Check>
    requires p < |entries|
  {
    [ Check(entries[p].size >= 56 * |entries| && entries[p].memory >= 56 * |entries|, PhdrTooSmall),
      Check(forall h :: 0 <= h < p ==> entries[h].kind != PT_LOAD, PhdrAfterLoad) ]
  }

  ghost predicate PhdrIs(entries: seq<Entry>, phdr: Option<nat>) {
    OnlyPhdr(entries, phdr) && (phdr.Some? ==> AllHold(PhdrChecks(entries, phdr.value)))
  }

  ghost predicate PhdrWrong(entries: seq<Entry>, why: Refusal) {
    || (why == SecondPhdr
        && exists p, q :: 0 <= p < q < |entries| && entries[p].kind == PT_PHDR && entries[q].kind == PT_PHDR)
    || exists p: nat :: OnlyPhdr(entries, Some(p)) && FirstFails(PhdrChecks(entries, p), why)
  }

  ghost predicate HeadersAre(entries: seq<Entry>, headers: seq<Segment>) {
    && |headers| == |entries|
    && forall h :: 0 <= h < |entries| ==>
         var e := entries[h];
         headers[h] == Segment(h, e.kind, e.flags, e.offset, e.vaddr, e.size, e.memory, e.align, e.offset, None)
  }

  /** A container with an ELF file, its PT_PHDR, its headers and its records. */
  ghost predicate Says(data: Octets, elf: Elf, phdr: Option<nat>, headers: seq<Segment>, records: seq<Record>) {
    && IsSelf(data) && ElfIs(data, elf) && PhdrIs(elf.entries, phdr) && HeadersAre(elf.entries, headers)
    && RecordsAre(data, records)
  }

  ghost predicate AllPlaced(headers: seq<Segment>, records: seq<Record>, length: nat, took: seq<Option<nat>>,
                            segs: seq<Segment>)
  {
    && PlacesAre(headers, records, length, took, segs)
    && |segs| == |headers|
    && forall h :: 0 <= h < |headers| ==> LiesInside(segs[h], length) && !Stray(headers, records, h)
  }

  /** A segment has the bytes of the program header table. */
  ghost predicate HasTable(data: Octets, elf: Elf, s: Segment) {
    var table, n := elf.inner + elf.programOffset, 56 * |elf.entries|;
    && 0 <= s.source && s.source + n <= |data| && table + n <= |data|
    && data[s.source..s.source + n] == data[table..table + n]
  }

  ghost predicate PhdrHosted(data: Octets, elf: Elf, phdr: Option<nat>, segs: seq<Segment>) {
    phdr.Some? ==> phdr.value < |segs| && segs[phdr.value].host.Some? && HasTable(data, elf, segs[phdr.value])
  }

  /** The container that is read of the data. */
  ghost predicate IsRead(data: Octets, encrypted: (Octets, seq<Segment>) -> bool, c: Container) {
    exists headers, records, took ::
      && Says(data, c.elf, c.phdr, headers, records) && AllPlaced(headers, records, |data|, took, c.segs)
      && PhdrHosted(data, c.elf, c.phdr, c.segs) && !encrypted(data, c.segs)
  }

  /** What is the matter with the segments of a container once they are placed. */
  ghost predicate PlacedWrong(data: Octets, encrypted: (Octets, seq<Segment>) -> bool, elf: Elf, phdr: Option<nat>,
                              segs: seq<Segment>, why: Refusal)
  {
    || (why == PhdrNotHosted && phdr.Some? && phdr.value < |segs| && segs[phdr.value].host.None?)
    || (why == PhdrMapsOtherBytes && phdr.Some? && phdr.value < |segs| && segs[phdr.value].host.Some?
        && !HasTable(data, elf, segs[phdr.value]))
    || (why == Encrypted && PhdrHosted(data, elf, phdr, segs) && encrypted(data, segs))
  }

  ghost predicate NotPlaced(data: Octets, encrypted: (Octets, seq<Segment>) -> bool, why: Refusal) {
    exists elf, phdr, headers, records ::
      && Says(data, elf, phdr, headers, records)
      && (Misplaced(headers, records, |data|, why)
          || exists took, segs :: AllPlaced(headers, records, |data|, took, segs)
                                  && PlacedWrong(data, encrypted, elf, phdr, segs, why))
  }

  /** Why no container is read of the data: the first reason there is. */
  ghost predicate NotRead(data: Octets, encrypted: (Octets, seq<Segment>) -> bool, why: Refusal) {
    if |data| < 0x400 then why == TooSmall
    else if !IsSelf(data) then why == NotSelf
    else
      || NotElf(data, why) || (exists elf :: ElfIs(data, elf) && PhdrWrong(elf.entries, why))
      || NotPlaced(data, encrypted, why)
  }

  // ----- what is written

  /** The layout of a container: past the header area and the original table, to an end. */
  ghost predicate Plan(c: Container, makers: seq<nat>, places: seq<int>, start: nat, end: int) {
    && (var table := c.elf.programOffset + 56 * |c.elf.entries|; start == if table > 0x400 then table else 0x400)
    && LayoutIs(c.segs, makers, places, start) && EndIs(c.segs, makers, places, start, end)
  }

  /** The layout pads no more than 64 MiB, and ends within four times the container or 256 MiB. */
  ghost predicate Modest(length: nat, c: Container, makers: seq<nat>, places: seq<int>, start: nat, end: int)
    requires Plan(c, makers, places, start, end)
  {
    && end - start - Copied(c.segs, makers, |makers|) <= 0x400_0000
    && (end <= 4 * length || end <= 0x1000_0000)
  }

  /** A segment with a place does not end inside the output. */
  ghost predicate PastEnd(c: Container, makers: seq<nat>, places: seq<int>, end: int, h: nat)
    requires (forall k :: 0 <= k < |makers| ==> makers[k] < |c.segs|) && |places| == |makers|
  {
    && h < |c.segs| && HasPlace(c.segs[h])
    && exists offset :: OffsetIs(c.segs, makers, places, h, offset) && offset + c.segs[h].size > end
  }

  ghost predicate TooFar(c: Container, makers: seq<nat>, places: seq<int>, h: nat)
    requires (forall k :: 0 <= k < |makers| ==> makers[k] < |c.segs|) && |places| == |makers|
  {
    && h < |c.segs|
    && exists offset :: OffsetIs(c.segs, makers, places, h, offset) && !(0 <= offset < 0x1_0000_0000_0000_0000)
  }

  ghost predicate Overruns(length: nat, c: Container, makers: seq<nat>, places: seq<int>, start: nat, end: int,
                           why: Refusal)
    requires Plan(c, makers, places, start, end)
  {
    match why
    case TooMuchPadding => end - start - Copied(c.segs, makers, |makers|) > 0x400_0000
    case TooLarge =>
      && end - start - Copied(c.segs, makers, |makers|) <= 0x400_0000
      && end > 4 * length && end > 0x1000_0000
    case Escaped(h) =>
      && Modest(length, c, makers, places, start, end) && PastEnd(c, makers, places, end, h)
      && forall g :: 0 <= g < h ==> !PastEnd(c, makers, places, end, g)
    case Unpackable =>
      && Modest(length, c, makers, places, start, end) && (forall h: nat :: !PastEnd(c, makers, places, end, h))
      && exists h: nat :: TooFar(c, makers, places, h)
    case _ => false
  }

  /** Why a container is refused: the first segment with which a stretch has no start left, or its layout. */
  ghost predicate NotWritten(length: nat, c: Container, why: Refusal) {
    if why.IncompatibleAlignment? then
      exists makers :: BySource(c.segs, makers) && NoStart(c.segs, makers, why.segment)
                       && forall g :: 0 <= g < why.segment ==> !NoStart(c.segs, makers, g)
    else
      exists makers, places, start, end ::
        Plan(c, makers, places, start, end) && Overruns(length, c, makers, places, start, end, why)
  }

  /** The table entry of a segment: what its header says, with its new offset. */
  ghost predicate EntryWritten(u: Unwrapped, h: nat)
    requires h < |u.offsets| == |u.container.segs|
  {
    var s := u.container.segs[h];
    && u.table + 56 * h + 56 <= |u.file|
    && EntryIn(u.file, u.table, h)
       == Entry(s.kind, s.flags, u.offsets[h], s.vaddr, s.vaddr, s.size, s.memory, s.align)
  }

  /** The stretches that are copied are those of the layout. */
  ghost predicate StretchesAre(u: Unwrapped, makers: seq<nat>, places: seq<int>) {
    && |u.stretches| == |makers| == |places|
    && forall i :: 0 <= i < |makers| ==>
         && makers[i] < |u.container.segs| && u.stretches[i].origin == u.container.segs[makers[i]].source
         && u.stretches[i].size == u.container.segs[makers[i]].size && u.stretches[i].place == places[i]
  }

  /** The file of the layout of a container, byte by byte. */
  ghost predicate Written(data: Octets, u: Unwrapped, makers: seq<nat>, places: seq<int>) {
    var c := u.container;
    && Plan(c, makers, places, u.start, |u.file|) && Modest(|data|, c, makers, places, u.start, |u.file|)
    && |u.offsets| == |c.segs|
    && (forall h :: 0 <= h < |c.segs| ==>
          && OffsetIs(c.segs, makers, places, h, u.offsets[h]) && u.offsets[h] < 0x1_0000_0000_0000_0000
          && (HasPlace(c.segs[h]) ==> u.offsets[h] + c.segs[h].size <= |u.file|))
    && StretchesAre(u, makers, places)
    && (c.phdr.Some? ==> c.phdr.value < |u.offsets|)
    && u.table == (if c.phdr.Some? then u.offsets[c.phdr.value] else c.elf.programOffset)
    && HeaderIs(u) && BodyIs(data, u) && forall h :: 0 <= h < |c.segs| ==> EntryWritten(u, h)
  }

  // ----- what is read is that

  lemma {:induction false} HeadersAreSegments(entries: seq<Entry>)
    ensures HeadersAre(entries, Segments(entries)) && Fresh(Segments(entries))
  {
  }

  lemma {:induction false} PhdrOfIs(entries: seq<Entry>)
    ensures match PhdrOf(entries)
            case Ok(phdr) => PhdrIs(entries, phdr)
            case Refused(why) => PhdrWrong(entries, why)
  {
    var phdrs := PhdrsAmong(entries, |entries|);
    PhdrsAmongAre(entries, |entries|);
    if |phdrs| > 1 {
      TwoPhdrs(entries, |entries|);
    } else if |phdrs| == 1 {
      assert phdrs[0] in phdrs && forall h :: h in phdrs ==> h == phdrs[0];
      var checks := PhdrChecks(entries, phdrs[0]);
      if PhdrOf(entries).Refused? { FailsAt(checks, if PhdrOf(entries).why.PhdrTooSmall? then 0 else 1); }
    } else {
      assert phdrs == [];
    }
  }

  lemma {:induction false} TwoPhdrs(entries: seq<Entry>, n: nat)
    requires n <= |entries| && |PhdrsAmong(entries, n)| > 1
    ensures exists p, q :: 0 <= p < q < n && entries[p].kind == PT_PHDR && entries[q].kind == PT_PHDR
  {
    var before := PhdrsAmong(entries, n - 1);
    if |before| > 1 {
      TwoPhdrs(entries, n - 1);
    } else {
      PhdrsAmongAre(entries, n - 1);
      assert before[0] in before;
    }
  }

  lemma {:induction false} MapsTableIs(data: Octets, elf: Elf, s: Segment)
    requires 0 <= s.source <= |data| && elf.inner + elf.programOffset + 56 * |elf.entries| <= |data|
    ensures MapsTable(data, elf, s) <==> HasTable(data, elf, s)
  {
    var table, n := elf.inner + elf.programOffset, |elf.entries| * ENTRY_SIZE;
    assert Slice(data, table, table + n) == data[table..table + n];
  }

  lemma {:induction false} ElfFits(data: Octets, elf: Elf)
    requires ElfIs(data, elf)
    ensures elf.inner + elf.programOffset + 56 * |elf.entries| <= |data|
  {
    hide FirstMagic, HeaderChecks, EntryChecks, EntryIn, AllHold, U16, U64;
  }

  lemma {:induction false} SelfIs(data: Octets)
    requires |data| >= 0x400
    ensures IsSelf(data) <==> Field(data, 0, 4) == SELF_MAGIC || Field(data, 0, 4) == SELF_MAGIC_KERNEL
  {
    hide Field, U32;
    FieldsAre(data, 0);
  }

  /** What the placement of the headers of a container comes to. */
  lemma {:induction false} PlacementSays(data: Octets, encrypted: (Octets, seq<Segment>) -> bool, elf: Elf,
                                         phdr: Option<nat>)
    requires |data| >= 0x400
    requires Says(data, elf, phdr, Segments(elf.entries), RecordsFrom(data, RECORD_OFFSET))
    ensures match Placed(Segments(elf.entries), RecordsFrom(data, RECORD_OFFSET), |data|)
            case Ok(segs) =>
              && |segs| == |elf.entries|
              && (exists took :: AllPlaced(Segments(elf.entries), RecordsFrom(data, RECORD_OFFSET), |data|, took, segs))
              && (forall h :: 0 <= h < |segs| && segs[h].kind != PT_LOAD ==> 0 <= segs[h].source <= |data|)
              && (forall h :: 0 <= h < |segs| ==> segs[h].kind == elf.entries[h].kind)
            case Refused(why) => NotPlaced(data, encrypted, why)
  {
    hide RecordsFrom, Segments, Placed, Misplaced, PlacesAre, Says, Stray, Fresh;
    var headers, records := Segments(elf.entries), RecordsFrom(data, RECORD_OFFSET);
    HeadersAreSegments(elf.entries);
    var took := PlacementIs(headers, records, |data|);
    match Placed(headers, records, |data|)
    case Ok(segs) =>
      assert |segs| == |headers| && forall h :: 0 <= h < |segs| ==> SaysTheSame(headers[h], segs[h]) by {
        PlacesSay(headers, records, |data|, took, segs);
      }
      assert AllPlaced(headers, records, |data|, took, segs);
      forall h | 0 <= h < |segs|
        ensures segs[h].kind == elf.entries[h].kind
        ensures segs[h].kind != PT_LOAD ==> 0 <= segs[h].source <= |data|
      {
        assert SaysTheSame(headers[h], segs[h]) && LiesInside(segs[h], |data|);
      }
    case Refused(why) =>
      assert Misplaced(headers, records, |data|, why);
  }

  lemma {:induction false} PlacesSay(headers: seq<Segment>, records: seq<Record>, length: nat, took: seq<Option<nat>>,
                                     segs: seq<Segment>)
    requires PlacesAre(headers, records, length, took, segs)
    ensures |segs| == |headers| && forall h :: 0 <= h < |segs| ==> SaysTheSame(headers[h], segs[h])
  {
    hide Took, TrailingRight, Settles, MappedRight, LoadRight, SaysTheSame;
  }

  /** The reading of a container, and its refusals. */
  lemma {:induction false} ReadIs(data: Octets, encrypted: (Octets, seq<Segment>) -> bool)
    ensures match Read(data, encrypted)
            case Ok(c) => IsRead(data, encrypted, c)
            case Refused(why) => NotRead(data, encrypted, why)
  {
    hide Parsed, PhdrOf, Placed, RecordsFrom, Segments, MapsTable, IsSelf, ElfIs, NotElf, PhdrIs, PhdrWrong, NotPlaced;
    if |data| >= 0x400 {
      SelfIs(data);
      ParsedIs(data);
      if IsSelf(data) && Parsed(data).Ok? {
        var elf := Parsed(data).value;
        PhdrOfIs(elf.entries);
        if PhdrOf(elf.entries).Ok? { PlacedReadIs(data, encrypted, elf, PhdrOf(elf.entries).value); }
      }
    }
  }

  lemma {:induction false} PlacedReadIs(data: Octets, encrypted: (Octets, seq<Segment>) -> bool, elf: Elf,
                                        phdr: Option<nat>)
    requires |data| >= 0x400 && IsSelf(data) && Parsed(data) == Ok(elf) && ElfIs(data, elf)
    requires PhdrOf(elf.entries) == Ok(phdr) && PhdrIs(elf.entries, phdr)
    ensures match Read(data, encrypted)
            case Ok(c) => IsRead(data, encrypted, c)
            case Refused(why) => NotPlaced(data, encrypted, why)
  {
    hide Parsed, PhdrOf, Placed, RecordsFrom, Segments, MapsTable, HasTable, IsSelf, ElfIs, AllPlaced, Misplaced,
      HeadersAre, RecordsAre, AllHold, PhdrChecks;
    SelfIs(data);
    HeadersAreSegments(elf.entries);
    RecordsAreRead(data);
    var headers, records := Segments(elf.entries), RecordsFrom(data, RECORD_OFFSET);
    assert Says(data, elf, phdr, headers, records);
    PlacementSays(data, encrypted, elf, phdr);
    if Placed(headers, records, |data|).Ok? {
      var segs := Placed(headers, records, |data|).value;
      var took :| AllPlaced(headers, records, |data|, took, segs);
      if phdr.Some? {
        ElfFits(data, elf);
        MapsTableIs(data, elf, segs[phdr.value]);
      }
      match Read(data, encrypted)
      case Ok(c) => assert c == Container(elf, phdr, segs);
      case Refused(why) => assert PlacedWrong(data, encrypted, elf, phdr, segs, why);
    }
  }

  // ----- the layout is that

  ghost function PlacesOf(stretches: seq<Stretch>): (r: seq<int>)
    ensures |r| == |stretches| && forall i :: 0 <= i < |r| ==> r[i] == stretches[i].place
  {
    seq(|stretches|, i requires 0 <= i < |stretches| => stretches[i].place)
  }

  lemma {:induction false} UsableIsSane(data: Octets, c: Container)
    requires Usable(data, c)
    ensures SaneAligns(c.segs)
  {
    forall h | 0 <= h < |c.segs| ensures c.segs[h].align == 0 || PowerOfTwo(c.segs[h].align) {
      assert WellPlaced(c, |data|, h);
    }
  }

  lemma {:induction false} DrawnEnds(c: Container, stretches: seq<Stretch>, i: nat)
    requires Drawn(c, stretches) && i <= |stretches|
    ensures EndsAt(c.segs, Makers(c.segs), PlacesOf(stretches), LayoutStart(c.elf), i)
        == EndBefore(stretches, LayoutStart(c.elf), i)
  {
    hide Makers, Laid;
    if i > 0 { assert StretchOf(c.segs, i - 1, stretches[i - 1]); }
  }

  lemma {:induction false} DrawnIsFirst(c: Container, stretches: seq<Stretch>, i: nat)
    requires Drawn(c, stretches) && SaneAligns(c.segs) && i < |stretches|
    ensures PlacedFirst(c.segs, Makers(c.segs), PlacesOf(stretches), LayoutStart(c.elf), i)
  {
    hide Makers, StartSuits, SuitsFirst, Meets, Next, SaneAligns, EndsAt, LayoutStart;
    var from, t := EndBefore(stretches, LayoutStart(c.elf), i), stretches[i];
    DrawnEnds(c, stretches, i);
    assert StartsWhereWanted(stretches, LayoutStart(c.elf), i) && StretchOf(c.segs, i, t);
    NextIsLeast(from, t.wants);
    forall x: int ensures Meets(x, t.wants) <==> StartSuits(c.segs, Makers(c.segs), i, |c.segs|, x) {
      SuitsIs(c.segs, i, |c.segs|, x);
    }
  }

  lemma {:induction false} EndForIs(segs: seq<Segment>, cursor: int, n: nat)
    requires n <= |segs|
    ensures var end := EndFor(segs, cursor, n);
            && cursor <= end
            && (forall h :: 0 <= h < n && segs[h].kind == PT_LOAD && segs[h].size == 0 ==> EmptyAt(segs[h]) <= end)
            && (end == cursor
                || exists h :: 0 <= h < n && segs[h].kind == PT_LOAD && segs[h].size == 0 && EmptyAt(segs[h]) == end)
  {
    if n > 0 {
      EndForIs(segs, cursor, n - 1);
      var s := segs[n - 1];
      assert EmptyAt(s) == s.vaddr % (if s.align >= 1 then s.align else 1);
      hide EmptyAt;
    }
  }

  lemma {:induction false} CopiedIs(segs: seq<Segment>, makers: seq<nat>, stretches: seq<Stretch>, n: nat)
    requires (forall k :: 0 <= k < |makers| ==> makers[k] < |segs|) && n <= |makers| == |stretches|
    requires forall i :: 0 <= i < |makers| ==> stretches[i].size == segs[makers[i]].size
    ensures TotalSize(stretches[..n]) == Copied(segs, makers, n)
  {
    if n > 0 {
      CopiedIs(segs, makers, stretches, n - 1);
      assert stretches[..n][..n - 1] == stretches[..n - 1];
    }
  }

  /** A drawn layout is the plan of the container. */
  lemma {:induction false} DrawnIsPlan(c: Container, stretches: seq<Stretch>)
    requires Drawn(c, stretches) && SaneAligns(c.segs)
    ensures var makers, places, start := Makers(c.segs), PlacesOf(stretches), LayoutStart(c.elf);
            && Plan(c, makers, places, start, OutputEnd(c.segs, stretches, start))
            && OutputEnd(c.segs, stretches, start) - start - Copied(c.segs, makers, |makers|)
               == Padding(c.segs, stretches, start)
  {
    hide Makers, BySource, PlacedFirst, StretchOf, Laid, SaneAligns, EndFor, Copied, TotalSize, EndsAt, EmptyAt;
    MakersBySource(c.segs);
    forall i | 0 <= i < |stretches|
      ensures PlacedFirst(c.segs, Makers(c.segs), PlacesOf(stretches), LayoutStart(c.elf), i)
    {
      DrawnIsFirst(c, stretches, i);
    }
    DrawnEnds(c, stretches, |stretches|);
    EndForIs(c.segs, EndBefore(stretches, LayoutStart(c.elf), |stretches|), |c.segs|);
    forall i | 0 <= i < |stretches| ensures stretches[i].size == c.segs[Makers(c.segs)[i]].size {
      DrawnSize(c, stretches, i);
    }
    CopiedIs(c.segs, Makers(c.segs), stretches, |stretches|);
    assert stretches[..|stretches|] == stretches;
  }

  lemma {:induction false} DrawnSize(c: Container, stretches: seq<Stretch>, i: nat)
    requires Drawn(c, stretches) && i < |stretches|
    ensures var m := Makers(c.segs)[i];
            stretches[i].origin == c.segs[m].source && stretches[i].size == c.segs[m].size
  {
    hide Makers;
    assert StretchOf(c.segs, i, stretches[i]);
  }

  lemma {:induction false} NoPlaceOffset(c: Container, stretches: seq<Stretch>, h: nat, offset: int)
    requires |stretches| == |Makers(c.segs)| && h < |c.segs| && !HasPlace(c.segs[h])
    ensures OffsetIs(c.segs, Makers(c.segs), PlacesOf(stretches), h, offset)
        <==> offset == OffsetIn(c.segs, stretches, h)
  {
    hide Makers;
  }

  /** The offset of a segment in the plan. */
  lemma {:induction false} OffsetIsIn(c: Container, stretches: seq<Stretch>, h: nat, offset: int)
    requires Drawn(c, stretches) && |stretches| == |Makers(c.segs)| && h < |c.segs|
    ensures OffsetIs(c.segs, Makers(c.segs), PlacesOf(stretches), h, offset)
        <==> offset == OffsetIn(c.segs, stretches, h)
  {
    hide Makers, Drawn, Home, GoesTo, HasPlace, TakesPart;
    PlaceIsPart(c.segs[h]);
    if HasPlace(c.segs[h]) {
      var makers, places := Makers(c.segs), PlacesOf(stretches);
      var home := Home(c.segs, makers, h);
      forall i: nat ensures home == Some(i) <==> GoesTo(c.segs, makers, h, i) { HomeIs(c.segs, h, i); }
      if home.Some? {
        DrawnSize(c, stretches, home.value);
        assert OffsetIn(c.segs, stretches, h) == places[home.value]
            + (c.segs[h].source - c.segs[makers[home.value]].source);
        assert forall i: nat :: InStretch(c.segs, makers, places, h, i, offset) ==> i == home.value;
        assert InStretch(c.segs, makers, places, h, home.value, OffsetIn(c.segs, stretches, h));
        assert GoesTo(c.segs, makers, h, home.value);
        assert OffsetIs(c.segs, makers, places, h, offset) ==> offset == OffsetIn(c.segs, stretches, h);
        assert offset == OffsetIn(c.segs, stretches, h) ==> OffsetIs(c.segs, makers, places, h, offset);
      } else {
        assert forall i: nat :: !InStretch(c.segs, makers, places, h, i, offset);
        assert OffsetIs(c.segs, makers, places, h, offset) ==> offset == OffsetIn(c.segs, stretches, h);
        assert offset == OffsetIn(c.segs, stretches, h) ==> OffsetIs(c.segs, makers, places, h, offset);
      }
    } else {
      NoPlaceOffset(c, stretches, h, offset);
    }
  }

  lemma {:induction false} DrawnLength(c: Container, stretches: seq<Stretch>)
    requires Drawn(c, stretches)
    ensures |stretches| == |Makers(c.segs)|
  {
  }

  lemma {:induction false} EscapesIsPast(c: Container, stretches: seq<Stretch>, h: nat)
    requires Drawn(c, stretches) && |stretches| == |Makers(c.segs)| && h < |c.segs|
    ensures Escapes(c, stretches, h)
        <==> PastEnd(c, Makers(c.segs), PlacesOf(stretches), OutputEnd(c.segs, stretches, LayoutStart(c.elf)), h)
  {
    hide Makers, Drawn, OffsetIs, OffsetIn, HasPlace, TakesPart, OutputEnd, LayoutStart;
    PlaceIsPart(c.segs[h]);
    forall offset: int ensures OffsetIs(c.segs, Makers(c.segs), PlacesOf(stretches), h, offset)
        <==> offset == OffsetIn(c.segs, stretches, h)
    {
      OffsetIsIn(c, stretches, h, offset);
    }
    assert OffsetIs(c.segs, Makers(c.segs), PlacesOf(stretches), h, OffsetIn(c.segs, stretches, h));
  }

  // ----- the outcome is that

  lemma {:induction false} SizedIsModest(length: nat, c: Container, stretches: seq<Stretch>)
    requires Drawn(c, stretches) && SaneAligns(c.segs)
    ensures var makers, places, start := Makers(c.segs), PlacesOf(stretches), LayoutStart(c.elf);
            var end := OutputEnd(c.segs, stretches, start);
            && Plan(c, makers, places, start, end)
            && (Sized(length, c, stretches) <==> Modest(length, c, makers, places, start, end))
            && (PadsTooMuch(c, stretches) <==> Overruns(length, c, makers, places, start, end, TooMuchPadding))
            && (GrowsTooMuch(length, c, stretches) <==> Overruns(length, c, makers, places, start, end, TooLarge))
  {
    hide Makers, Drawn, Plan, SaneAligns, OutputEnd, Padding, Copied, LayoutStart;
    DrawnIsPlan(c, stretches);
  }

  lemma {:induction false} PlanOverruns(length: nat, c: Container, stretches: seq<Stretch>, why: Refusal)
    requires Drawn(c, stretches) && SaneAligns(c.segs) && !why.IncompatibleAlignment?
    requires var makers, places, start := Makers(c.segs), PlacesOf(stretches), LayoutStart(c.elf);
             var end := OutputEnd(c.segs, stretches, start);
             Plan(c, makers, places, start, end) && Overruns(length, c, makers, places, start, end, why)
    ensures NotWritten(length, c, why)
  {
    hide Makers, Drawn, Plan, Overruns, SaneAligns, OutputEnd;
  }

  lemma {:induction false} ClashIs(length: nat, c: Container, h: nat)
    requires SaneAligns(c.segs) && FirstStuck(c.segs, h)
    ensures NotWritten(length, c, IncompatibleAlignment(h))
  {
    hide Makers, BySource, NoStart, Stuck, SaneAligns;
    MakersBySource(c.segs);
    StuckIsNoStart(c.segs, h);
    forall g: nat | g < h ensures !NoStart(c.segs, Makers(c.segs), g) { StuckIsNoStart(c.segs, g); }
  }

  lemma {:induction false} EscapesOverruns(length: nat, c: Container, stretches: seq<Stretch>, h: nat)
    requires SaneAligns(c.segs) && h < |c.segs| && FirstEscapes(length, c, stretches, h)
    ensures NotWritten(length, c, Escaped(h))
  {
    hide Makers, SaneAligns, OutputEnd, Padding, Drawn, Escapes, PastEnd, Modest, Plan, Copied, LayoutStart;
    SizedIsModest(length, c, stretches);
    DrawnLength(c, stretches);
    forall g: nat | g <= h
      ensures Escapes(c, stretches, g)
          <==> PastEnd(c, Makers(c.segs), PlacesOf(stretches), OutputEnd(c.segs, stretches, LayoutStart(c.elf)), g)
    {
      EscapesIsPast(c, stretches, g);
    }
    PlanOverruns(length, c, stretches, Escaped(h));
  }

  lemma {:induction false} UnpackedIsTooFar(c: Container, stretches: seq<Stretch>, h: nat)
    requires Drawn(c, stretches) && |stretches| == |Makers(c.segs)| && h < |c.segs|
    requires Storable(EmittedEntry(c.segs[h], 0))
    ensures Packs(c.segs[h], OffsetIn(c.segs, stretches, h)) <==> !TooFar(c, Makers(c.segs), PlacesOf(stretches), h)
  {
    hide Makers, Drawn, OffsetIs, OffsetIn;
    forall offset: int ensures OffsetIs(c.segs, Makers(c.segs), PlacesOf(stretches), h, offset)
        <==> offset == OffsetIn(c.segs, stretches, h)
    {
      OffsetIsIn(c, stretches, h, offset);
    }
    assert OffsetIs(c.segs, Makers(c.segs), PlacesOf(stretches), h, OffsetIn(c.segs, stretches, h));
  }

  lemma {:induction false} NonePast(c: Container, stretches: seq<Stretch>, end: int)
    requires Drawn(c, stretches) && |stretches| == |Makers(c.segs)|
    requires end == OutputEnd(c.segs, stretches, LayoutStart(c.elf)) && NoneEscapes(c, stretches, |c.segs|)
    ensures forall h: nat :: !PastEnd(c, Makers(c.segs), PlacesOf(stretches), end, h)
  {
    hide Makers, Drawn, OutputEnd, Escapes, PastEnd, LayoutStart;
    forall h: nat ensures !PastEnd(c, Makers(c.segs), PlacesOf(stretches), end, h) {
      if h < |c.segs| { EscapesIsPast(c, stretches, h); } else { BeyondIsNotPast(c, stretches, end, h); }
    }
  }

  lemma {:induction false} BeyondIsNotPast(c: Container, stretches: seq<Stretch>, end: int, h: nat)
    requires |stretches| == |Makers(c.segs)| && h >= |c.segs|
    ensures !PastEnd(c, Makers(c.segs), PlacesOf(stretches), end, h)
  {
    hide Makers;
  }

  lemma {:induction false} UnpackableOverruns(data: Octets, c: Container, stretches: seq<Stretch>)
    requires Usable(data, c) && SomeDoesNotPack(|data|, c, stretches)
    ensures NotWritten(|data|, c, Unpackable)
  {
    hide Makers, SaneAligns, OutputEnd, Padding, Drawn, NoneEscapes, PastEnd, TooFar, Modest, Plan, Copied, LayoutStart,
      WellPlaced, Storable, Packs, OffsetIn;
    UsableIsSane(data, c);
    SizedIsModest(|data|, c, stretches);
    DrawnLength(c, stretches);
    NonePast(c, stretches, OutputEnd(c.segs, stretches, LayoutStart(c.elf)));
    var h :| 0 <= h < |c.segs| && !Packs(c.segs[h], OffsetIn(c.segs, stretches, h));
    assert Storable(EmittedEntry(c.segs[h], 0));
    UnpackedIsTooFar(c, stretches, h);
    PlanOverruns(|data|, c, stretches, Unpackable);
  }

  /** Why a container is refused. */
  lemma {:induction false} ExcusedIs(data: Octets, c: Container, why: Refusal)
    requires Usable(data, c) && Excused(|data|, c, why)
    ensures NotWritten(|data|, c, why)
  {
    hide Usable, NotWritten, FirstStuck, Clashes, PadsTooMuch, GrowsTooMuch, FirstEscapes, SomeDoesNotPack, Drawn,
      Plan, SaneAligns;
    UsableIsSane(data, c);
    match why
    case IncompatibleAlignment(h) => ClashIs(|data|, c, h);
    case TooMuchPadding =>
      var stretches :| PadsTooMuch(c, stretches);
      PadsIsDrawn(|data|, c, stretches);
      SizedIsModest(|data|, c, stretches);
      PlanOverruns(|data|, c, stretches, why);
    case TooLarge =>
      var stretches :| GrowsTooMuch(|data|, c, stretches);
      PadsIsDrawn(|data|, c, stretches);
      SizedIsModest(|data|, c, stretches);
      PlanOverruns(|data|, c, stretches, why);
    case Escaped(h) =>
      var stretches :| FirstEscapes(|data|, c, stretches, h);
      EscapesOverruns(|data|, c, stretches, h);
    case Unpackable =>
      var stretches :| SomeDoesNotPack(|data|, c, stretches);
      UnpackableOverruns(data, c, stretches);
  }

  lemma {:induction false} PadsIsDrawn(length: nat, c: Container, stretches: seq<Stretch>)
    requires PadsTooMuch(c, stretches) || GrowsTooMuch(length, c, stretches)
    ensures Drawn(c, stretches)
  {
    hide Drawn;
  }

  lemma {:induction false} EntriesAreWritten(u: Unwrapped)
    requires TableMatches(u)
    ensures |u.offsets| == |u.container.segs| && forall h :: 0 <= h < |u.offsets| ==> EntryWritten(u, h)
  {
    hide Decode, EntryOf;
    forall h | 0 <= h < |u.offsets| ensures EntryWritten(u, h) {
      EntryIs(u.file, u.table + h * ENTRY_SIZE);
    }
  }

  lemma {:induction false} OffsetsFit(c: Container, stretches: seq<Stretch>, offsets: seq<nat>, end: int, h: nat)
    requires Drawn(c, stretches) && |stretches| == |Makers(c.segs)| && h < |c.segs| == |offsets|
    requires end == OutputEnd(c.segs, stretches, LayoutStart(c.elf)) && NoneEscapes(c, stretches, |c.segs|)
    requires AllPack(c, stretches) && offsets[h] == OffsetIn(c.segs, stretches, h)
    ensures OffsetIs(c.segs, Makers(c.segs), PlacesOf(stretches), h, offsets[h])
    ensures offsets[h] < 0x1_0000_0000_0000_0000 && (HasPlace(c.segs[h]) ==> offsets[h] + c.segs[h].size <= end)
  {
    hide Makers, Drawn, OutputEnd, OffsetIs, OffsetIn, TakesPart, HasPlace, LayoutStart;
    OffsetIsIn(c, stretches, h, offsets[h]);
    PlaceIsPart(c.segs[h]);
    assert !Escapes(c, stretches, h) && Packs(c.segs[h], OffsetIn(c.segs, stretches, h));
  }

  /** What is written is the file of the plan. */
  lemma {:induction false} FileIsWritten(data: Octets, u: Unwrapped)
    requires SaneAligns(u.container.segs) && FollowsPlan(|data|, u) && Promised(data, u)
    requires u.start == LayoutStart(u.container.elf)
    ensures Written(data, u, Makers(u.container.segs), PlacesOf(u.stretches))
  {
    hide Makers, SaneAligns, Drawn, Plan, Modest, OutputEnd, Padding, NoneEscapes, AllPack, OffsetIs, OffsetIn,
      HasPlace, HeaderIs, BodyIs, TableMatches, Aligned, Disjoint, KeepsBytes, KeepsDistances, LayoutStart,
      EntryWritten;
    var c := u.container;
    SizedIsModest(|data|, c, u.stretches);
    DrawnLength(c, u.stretches);
    EntriesAreWritten(u);
    forall h | 0 <= h < |c.segs|
      ensures OffsetIs(c.segs, Makers(c.segs), PlacesOf(u.stretches), h, u.offsets[h])
      ensures u.offsets[h] < 0x1_0000_0000_0000_0000
      ensures HasPlace(c.segs[h]) ==> u.offsets[h] + c.segs[h].size <= |u.file|
    {
      OffsetsFit(c, u.stretches, u.offsets, |u.file|, h);
    }
    forall i | 0 <= i < |u.stretches|
      ensures var m := Makers(c.segs)[i];
              u.stretches[i].origin == c.segs[m].source && u.stretches[i].size == c.segs[m].size
    {
      DrawnSize(c, u.stretches, i);
    }
  }

  // ----- the output is an ELF file again

  /** An ELF file that begins the output, with the table that was written. */
  ghost predicate ReadsAs(u: Unwrapped, elf: Elf) {
    && ElfIs(u.file, elf) && elf.inner == 0 && elf.programOffset == u.table
    && |elf.entries| == |u.offsets| == |u.container.segs|
    && forall h :: 0 <= h < |u.offsets| ==>
         var s := u.container.segs[h];
         elf.entries[h] == Entry(s.kind, s.flags, u.offsets[h], s.vaddr, s.vaddr, s.size, s.memory, s.align)
  }

  lemma {:induction false} ParsesIsReads(u: Unwrapped)
    ensures ParsesAgain(u) <==> exists elf :: ReadsAs(u, elf)
  {
    hide Parsed, ElfIs, NotElf;
    ParsedIs(u.file);
    if ParsesAgain(u) { assert ReadsAs(u, Parsed(u.file).value); }
    if elf :| ReadsAs(u, elf) { ElfIsParsed(u.file, elf); }
  }

  // ----- unwrapping

  lemma {:induction false} OutcomeDecides(length: nat, c: Container, r: Result<Unwrapped>)
    requires match r
             case Ok(u) => u.container == c && FollowsPlan(length, u)
             case Refused(why) => Excused(length, c, why)
    ensures r.Ok? <==> Accepted(length, c)
  {
    hide Fits, Excused;
    match r
    case Ok(u) => assert Fits(length, c, u.stretches);
    case Refused(why) =>
      if Accepted(length, c) { OneOutcome(length, c, None, Some(why)); }
  }

  /** A container that kept the bytes of its PT_PHDR, if it has one. */
  ghost predicate KeepsPhdr(c: Container) {
    c.phdr.Some? ==> c.phdr.value < |c.segs| && c.segs[c.phdr.value].size > 0
  }

  lemma {:induction false} HeaderFits(data: Octets, c: Container)
    requires HeaderFrom(data, c)
    ensures |c.elf.header| == HEADER_SIZE
  {
  }

  lemma {:induction false} ReadsAgain(data: Octets, u: Unwrapped)
    requires Usable(data, u.container) && (ParsesAgain(u) <==> !PhdrEmptied(u.container))
    ensures (exists elf :: ReadsAs(u, elf)) <==> KeepsPhdr(u.container)
    ensures KeepsPhdr(u.container) <==> !PhdrEmptied(u.container)
  {
    ParsesIsReads(u);
    hide ParsesAgain, ReadsAs;
  }

  /**
    Unwraps a container, with the entropy check as a parameter. The file is that of the only layout of what is read;
    it is an ELF file again exactly when PT_PHDR, if there is one, has kept its bytes, that is, unless the container
    ends before it.
   */
  method Unwrap(data: Octets, encrypted: (Octets, seq<Segment>) -> bool)
    returns (r: Result<Unwrapped>, ghost makers: seq<nat>, ghost places: seq<int>)
    ensures r.Ok? ==> IsRead(data, encrypted, r.value.container) && Written(data, r.value, makers, places)
    ensures r.Refused? ==>
        NotRead(data, encrypted, r.why) || exists c :: IsRead(data, encrypted, c) && NotWritten(|data|, c, r.why)
    ensures r.Ok? ==> Promised(data, r.value)
    ensures r.Ok? ==> ((exists elf :: ReadsAs(r.value, elf)) <==> KeepsPhdr(r.value.container))
    ensures r.Ok? ==> (KeepsPhdr(r.value.container) <==> !PhdrCutOff(data, r.value.container))
    ensures Read(data, encrypted).Refused? ==> r == Refused(Read(data, encrypted).why)
    ensures r.Ok? ==> Read(data, encrypted) == Ok(r.value.container)
    ensures r.Ok? <==> Read(data, encrypted).Ok? && Accepted(|data|, Read(data, encrypted).value)
    ensures r.Ok? ==> FollowsPlan(|data|, r.value)
    ensures r.Refused? && Read(data, encrypted).Ok? ==> Excused(|data|, Read(data, encrypted).value, r.why)
  {
    hide *;
    makers, places := [], [];
    ReadIs(data, encrypted);
    var container := ReadContainer(data, encrypted);
    if container.Refused? {
      return Refused(container.why), makers, places;
    }
    ReadIsReadable(data, encrypted);
    ReadableIsUsable(data, container.value);
    ReadableHasHeader(data, container.value);
    EmptiedIsCutOff(data, container.value);
    HeaderFits(data, container.value);
    r := WriteOut(data, container.value);
    OutcomeDecides(|data|, container.value, r);
    match r
    case Ok(u) =>
      UsableIsSane(data, u.container);
      FileIsWritten(data, u);
      ReadsAgain(data, u);
      makers, places := Makers(u.container.segs), PlacesOf(u.stretches);
    case Refused(why) =>
      ExcusedIs(data, container.value, why);
  }
}
