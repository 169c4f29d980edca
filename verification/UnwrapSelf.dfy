/**
  Turning a decrypted SELF container into a clean ELF file: reading the container, placing its segments,
  laying them out by alignment, copying them, and rewriting the header and its table.
 */
module UnwrapSelf {
  import opened Options
  import Lists
  import opened ElfFormat
  import opened ElfReading
  import opened SegmentPlacement
  import opened Alignment
  import opened OutputPlan
  import opened OutputRegions

  const SELF_MAGIC := 0x1D3D154F
  const SELF_MAGIC_KERNEL := 0xEEF51454
  const MAX_ALIGNMENT_PADDING := 64 * 1024 * 1024
  const MAX_OUTPUT_FACTOR := 4
  const MIN_OUTPUT_LIMIT := 256 * 1024 * 1024

  // ----- reading the container

  /** What the layout works on. */
  datatype Container = Container(elf: Elf, phdr: Option<nat>, segs: seq<Segment>)

  function Segments(entries: seq<Entry>): (r: seq<Segment>)
    ensures |r| == |entries| && forall h :: 0 <= h < |r| ==> r[h] == FromEntry(entries[h], h)
  {
    seq(|entries|, h requires 0 <= h < |entries| => FromEntry(entries[h], h))
  }

  /** The only PT_PHDR of a table, if it has one. */
  ghost predicate OnlyPhdr(entries: seq<Entry>, phdr: Option<nat>) {
    match phdr
    case None => forall h :: 0 <= h < |entries| ==> entries[h].kind != PT_PHDR
    case Some(p) => p < |entries| && forall h :: 0 <= h < |entries| ==> (entries[h].kind == PT_PHDR <==> h == p)
  }

  /** A slice that stops at the end of the data. */
  function Slice(data: Bytes, from: int, to: int): Bytes {
    var lo := if from < 0 then 0 else if from > |data| then |data| else from;
    var hi := if to < lo then lo else if to > |data| then |data| else to;
    data[lo..hi]
  }

  function PhdrsAmong(entries: seq<Entry>, n: nat): (r: seq<nat>)
    requires n <= |entries|
    ensures forall p :: p in r ==> p < n
  {
    if n == 0 then [] else PhdrsAmong(entries, n - 1) + if entries[n - 1].kind == PT_PHDR then [n - 1] else []
  }

  /** The PT_PHDR of a table: at most one, covering the table, before the loads. */
  function PhdrOf(entries: seq<Entry>): (r: Result<Option<nat>>)
    ensures r.Ok? && r.value.Some? ==> r.value.value < |entries|
  {
    var phdrs := PhdrsAmong(entries, |entries|);
    if |phdrs| > 1 then Refused(SecondPhdr)
    else if |phdrs| == 0 then Ok(None)
    else
      var p := phdrs[0];
      assert p in phdrs;
      if entries[p].size < |entries| * ENTRY_SIZE || entries[p].memory < |entries| * ENTRY_SIZE
          then Refused(PhdrTooSmall)
      else if exists h :: 0 <= h < p && entries[h].kind == PT_LOAD then Refused(PhdrAfterLoad)
      else Ok(Some(p))
  }

  lemma {:induction false} PhdrsAmongAre(entries: seq<Entry>, n: nat)
    requires n <= |entries|
    ensures forall p: nat :: p in PhdrsAmong(entries, n) <==> p < n && entries[p].kind == PT_PHDR
  {
    if n > 0 { PhdrsAmongAre(entries, n - 1); }
  }

  lemma {:induction false} PhdrIsOnly(entries: seq<Entry>)
    requires PhdrOf(entries).Ok?
    ensures OnlyPhdr(entries, PhdrOf(entries).value)
    ensures PhdrOf(entries).value.Some? ==> entries[PhdrOf(entries).value.value].size >= |entries| * ENTRY_SIZE
  {
    PhdrsAmongAre(entries, |entries|);
  }

  /** The program header table that PT_PHDR maps is the one that was parsed. */
  predicate MapsTable(data: Bytes, elf: Elf, p: Segment) {
    var table, tableSize := elf.inner + elf.programOffset, |elf.entries| * ENTRY_SIZE;
    Slice(data, p.source, p.source + tableSize) == Slice(data, table, table + tableSize)
  }

  /** Reading a container and placing its segments; `encrypted` is the entropy check. */
  function Read(data: Bytes, encrypted: (Bytes, seq<Segment>) -> bool): Result<Container> {
    if |data| < FIRST_REGION then Refused(TooSmall)
    else if Field(data, 0, 4) != SELF_MAGIC && Field(data, 0, 4) != SELF_MAGIC_KERNEL then Refused(NotSelf)
    else if Parsed(data).Refused? then Refused(Parsed(data).why)
    else
      var elf := Parsed(data).value;
      if PhdrOf(elf.entries).Refused? then Refused(PhdrOf(elf.entries).why)
      else
        var phdr := PhdrOf(elf.entries).value;
        var placed := Placed(Segments(elf.entries), RecordsFrom(data, RECORD_OFFSET), |data|);
        if placed.Refused? then Refused(placed.why)
        else if phdr.Some? && placed.value[phdr.value].host.None? then Refused(PhdrNotHosted)
        else if phdr.Some? && !MapsTable(data, elf, placed.value[phdr.value]) then Refused(PhdrMapsOtherBytes)
        else if encrypted(data, placed.value) then Refused(Encrypted)
        else Ok(Container(elf, phdr, placed.value))
  }

  method FindPhdr(entries: seq<Entry>) returns (r: Result<Option<nat>>)
    ensures r == PhdrOf(entries)
  {
    var phdrs := [];
    for h := 0 to |entries|
      invariant phdrs == PhdrsAmong(entries, h)
    {
      if entries[h].kind == PT_PHDR {
        phdrs := phdrs + [h];
      }
    }
    if |phdrs| > 1 {
      return Refused(SecondPhdr);
    }
    if phdrs == [] {
      return Ok(None);
    }
    var p := phdrs[0];
    assert p in phdrs;
    if entries[p].size < |entries| * ENTRY_SIZE || entries[p].memory < |entries| * ENTRY_SIZE {
      return Refused(PhdrTooSmall);
    }
    if exists h :: 0 <= h < p && entries[h].kind == PT_LOAD {
      return Refused(PhdrAfterLoad);
    }
    r := Ok(Some(p));
  }

  method ReadContainer(data: Bytes, encrypted: (Bytes, seq<Segment>) -> bool) returns (r: Result<Container>)
    ensures r == Read(data, encrypted)
  {
    if |data| < FIRST_REGION {
      return Refused(TooSmall);
    }
    var magic := Field(data, 0, 4);
    if magic != SELF_MAGIC && magic != SELF_MAGIC_KERNEL {
      return Refused(NotSelf);
    }
    var records := ReadRecords(data);
    var parsed := ParseElf(data);
    if parsed.Refused? {
      return Refused(parsed.why);
    }
    var elf := parsed.value;
    var phdr := FindPhdr(elf.entries);
    if phdr.Refused? {
      return Refused(phdr.why);
    }
    PhdrIsOnly(elf.entries);
    var headers := new Segment[|elf.entries|](h requires 0 <= h < |elf.entries| => FromEntry(elf.entries[h], h));
    assert headers[..] == Segments(elf.entries);
    var placed := PlaceSegments(headers, records, |data|);
    if placed.Refused? {
      return Refused(placed.why);
    }
    var segs := headers[..];
    if phdr.value.Some? {
      var p := segs[phdr.value.value];
      if p.host.None? {
        return Refused(PhdrNotHosted);
      }
      if !MapsTable(data, elf, p) {
        return Refused(PhdrMapsOtherBytes);
      }
    }
    if encrypted(data, segs) {
      return Refused(Encrypted);
    }
    r := Ok(Container(elf, phdr.value, segs));
  }

  // ----- facts about a container that was read

  ghost predicate Readable(data: Bytes, c: Container) {
    && |data| >= FIRST_REGION && |c.segs| == |c.elf.entries|
    && Parsed(data) == Ok(c.elf)
    && Placed(Segments(c.elf.entries), RecordsFrom(data, RECORD_OFFSET), |data|) == Ok(c.segs)
    && OnlyPhdr(c.elf.entries, c.phdr)
    && (c.phdr.Some? ==>
        c.elf.entries[c.phdr.value].size >= |c.elf.entries| * ENTRY_SIZE && c.segs[c.phdr.value].host.Some?)
  }

  lemma {:induction false} ReadIsReadable(data: Bytes, encrypted: (Bytes, seq<Segment>) -> bool)
    requires Read(data, encrypted).Ok?
    ensures Readable(data, Read(data, encrypted).value)
  {
    hide Parsed, Placed, MapsTable, PhdrOf, Segments, RecordsFrom, OnlyPhdr;
    PhdrIsOnly(Parsed(data).value.entries);
  }

  /** Everything the layout needs to know of one segment. */
  ghost predicate WellPlaced(c: Container, length: nat, h: nat)
    requires h < |c.segs| == |c.elf.entries|
  {
    var e, s := c.elf.entries[h], c.segs[h];
    && s.index == h && s.kind == e.kind && Inside(s, length) && s.size <= e.size
    && (e.kind != PT_NULL ==> s.flags == e.flags && s.vaddr == e.vaddr && s.align == e.align)
    && (e.kind == PT_NULL ==> s.flags == 0 && s.vaddr == 0 && s.align == 0 && s.size == 0 && s.memory == 0)
    && (s.align == 0 || PowerOfTwo(s.align))
    && (s.host.Some? ==> s.kind != PT_LOAD && Hosted(c.segs, h, s.host.value))
  }

  /** A segment is the header it was read from, moved. */
  ghost predicate MovedFrom(e: Entry, h: nat, s: Segment) {
    CheckEntry(e, h).Ok? && OnlyMoved(Nulled(FromEntry(e, h)), s)
  }

  lemma {:induction false} ReadableMoves(data: Bytes, c: Container)
    requires Readable(data, c)
    ensures AllMoved(NullAll(Segments(c.elf.entries)), c.segs) && HostsHold(c.segs)
    ensures forall h :: 0 <= h < |c.segs| ==> Inside(c.segs[h], |data|)
  {
    PlacementIsSound(Segments(c.elf.entries), RecordsFrom(data, RECORD_OFFSET), |data|);
  }

  lemma {:induction false} ReadableChecks(data: Bytes, c: Container, h: nat)
    requires Readable(data, c) && h < |c.segs|
    ensures CheckEntry(c.elf.entries[h], h).Ok?
  {
    ParsedChecks(data, c.elf, h);
  }

  lemma {:induction false} ParsedChecks(data: Bytes, elf: Elf, h: nat)
    requires Parsed(data) == Ok(elf) && h < |elf.entries|
    ensures CheckEntry(elf.entries[h], h).Ok?
  {
    var table := ParsedTable(data, elf);
    EntryAt(data, table, elf.entries, h);
  }

  /** Loads, TLS and PT_PHDR keep their memory; they keep their bytes, or all of them go. */
  lemma {:induction false} ReadableSizes(data: Bytes, c: Container, h: nat)
    requires Readable(data, c) && h < |c.segs|
    requires c.elf.entries[h].kind == PT_LOAD || c.elf.entries[h].kind == PT_TLS || c.elf.entries[h].kind == PT_PHDR
    ensures var e, s := c.elf.entries[h], c.segs[h];
            s.memory == e.memory && (s.size == e.size || (e.kind != PT_LOAD && s.size == 0 && s.source == 0))
  {
    SizesStayOrGo(Segments(c.elf.entries), RecordsFrom(data, RECORD_OFFSET), |data|, h);
  }

  lemma {:induction false} MovedIsPlaced(c: Container, length: nat, h: nat)
    requires h < |c.segs| == |c.elf.entries| && MovedFrom(c.elf.entries[h], h, c.segs[h])
    requires Inside(c.segs[h], length) && HostsHold(c.segs)
    ensures WellPlaced(c, length, h)
  {
  }

  lemma {:induction false} ReadableIsWellPlaced(data: Bytes, c: Container, h: nat)
    requires Readable(data, c) && h < |c.segs|
    ensures WellPlaced(c, |data|, h) && MovedFrom(c.elf.entries[h], h, c.segs[h])
  {
    ReadableMoves(data, c);
    ReadableChecks(data, c, h);
    assert OnlyMoved(NullAll(Segments(c.elf.entries))[h], c.segs[h]);
    MovedIsPlaced(c, |data|, h);
  }

  lemma {:induction false} ParsedTable(data: Bytes, elf: Elf) returns (table: nat)
    requires Parsed(data) == Ok(elf)
    ensures table + |elf.entries| * ENTRY_SIZE <= |data| && Entries(data, table, |elf.entries|) == Ok(elf.entries)
  {
    table := ParsedAtTable(data, FindMagic(data, 0), elf);
  }

  lemma {:induction false} ParsedAtTable(data: Bytes, inner: nat, elf: Elf) returns (table: nat)
    requires inner + HEADER_SIZE <= |data| && ParsedAt(data, inner) == Ok(elf)
    ensures table + |elf.entries| * ENTRY_SIZE <= |data| && Entries(data, table, |elf.entries|) == Ok(elf.entries)
  {
    hide Entries, Value, Field;
    table := inner + elf.programOffset;
  }

  lemma {:induction false} EntryAt(data: Bytes, table: nat, entries: seq<Entry>, h: nat)
    requires h < |entries| && table + |entries| * ENTRY_SIZE <= |data| && Entries(data, table, |entries|) == Ok(entries)
    ensures CheckEntry(entries[h], h).Ok? && Storable(entries[h])
  {
    EntriesAt(data, table, |entries|, h);
    DecodedIsStorable(data, table + h * ENTRY_SIZE);
  }

  function EmittedEntry(s: Segment, offset: nat): Entry {
    Entry(s.kind, s.flags, offset, s.vaddr, s.vaddr, s.size, s.memory, s.align)
  }

  /** What the layout needs to know of the segments, whatever passes they came through. */
  ghost predicate Usable(data: Bytes, c: Container) {
    && |data| >= FIRST_REGION && |c.segs| == |c.elf.entries|
    && (forall h {:trigger c.segs[h]} ::
        0 <= h < |c.segs| ==> WellPlaced(c, |data|, h) && Storable(EmittedEntry(c.segs[h], 0)))
    && (c.phdr.Some? ==>
          c.phdr.value < |c.segs| &&
          var p := c.segs[c.phdr.value];
              p.kind != PT_LOAD && (p.size >= |c.segs| * ENTRY_SIZE > 0 || (p.size == 0 && p.source == 0)))
  }

  /** The ELF header of the container, and the rules its segments still keep. */
  ghost predicate HeaderFrom(data: Bytes, c: Container) {
    && c.elf.inner + HEADER_SIZE <= |data| && c.elf.header == data[c.elf.inner..c.elf.inner + HEADER_SIZE]
    && HeaderAt(data, c.elf.inner) == Ok(|c.segs|) && c.elf.header[0..4] == ELF_MAGIC
    && HEADER_SIZE <= c.elf.programOffset == Field(c.elf.header, 0x20, 8) < TWO_TO_64
    && forall h {:trigger c.segs[h]} :: 0 <= h < |c.segs| ==> CheckEntry(EmittedEntry(c.segs[h], 0), h).Ok?
  }

  lemma {:induction false} MovedKeepsRules(e: Entry, h: nat, s: Segment, offset: nat)
    requires MovedFrom(e, h, s)
    requires e.kind == PT_LOAD || e.kind == PT_TLS ==> s.memory == e.memory
    ensures CheckEntry(EmittedEntry(s, offset), h).Ok?
  {
  }

  lemma {:induction false} EmittedKeepsRules(data: Bytes, c: Container, h: nat, offset: nat)
    requires Readable(data, c) && h < |c.segs|
    ensures CheckEntry(EmittedEntry(c.segs[h], offset), h).Ok?
  {
    ReadableIsWellPlaced(data, c, h);
    if c.elf.entries[h].kind == PT_LOAD || c.elf.entries[h].kind == PT_TLS {
      ReadableSizes(data, c, h);
    }
    MovedKeepsRules(c.elf.entries[h], h, c.segs[h], offset);
  }

  lemma {:induction false} ReadableFits(data: Bytes, c: Container, h: nat)
    requires Readable(data, c) && h < |c.segs| && MovedFrom(c.elf.entries[h], h, c.segs[h])
    ensures Storable(EmittedEntry(c.segs[h], 0))
  {
    hide CheckEntry, Entries, Parsed, Placed, PhdrOf;
    var table := ParsedTable(data, c.elf);
    EntryAt(data, table, c.elf.entries, h);
  }

  lemma {:induction false} ReadableIsUsable(data: Bytes, c: Container)
    requires Readable(data, c)
    ensures Usable(data, c)
  {
    forall h | 0 <= h < |c.segs| ensures WellPlaced(c, |data|, h) && Storable(EmittedEntry(c.segs[h], 0)) {
      ReadableIsWellPlaced(data, c, h);
      ReadableFits(data, c, h);
    }
    if c.phdr.Some? {
      ReadableSizes(data, c, c.phdr.value);
    }
  }

  lemma {:induction false} ReadableHasHeader(data: Bytes, c: Container)
    requires Readable(data, c)
    ensures HeaderFrom(data, c)
  {
    forall h | 0 <= h < |c.segs| ensures CheckEntry(EmittedEntry(c.segs[h], 0), h).Ok? {
      EmittedKeepsRules(data, c, h, 0);
    }
    assert c.elf.header[0..4] == data[c.elf.inner..c.elf.inner + 4];
    HeaderFieldBound(c.elf.header);
  }

  lemma {:induction false} HeaderFieldBound(header: Bytes)
    requires |header| == HEADER_SIZE
    ensures Field(header, 0x20, 8) < TWO_TO_64
  {
    Widths();
    ValueBound(header[0x20..0x28]);
  }

  // ----- writing bytes in place

  function Splice(s: Bytes, at: nat, b: Bytes): (r: Bytes)
    requires at + |b| <= |s|
    ensures |r| == |s|
    ensures forall i :: 0 <= i < |s| ==> r[i] == if at <= i < at + |b| then b[i - at] else s[i]
  {
    s[..at] + b + s[at + |b|..]
  }

  method WriteAt(result: array<Byte>, at: nat, b: Bytes)
    requires at + |b| <= result.Length
    modifies result
    ensures result[..] == Splice(old(result[..]), at, b)
  {
    for k := 0 to |b|
      invariant forall i :: 0 <= i < result.Length ==>
                  result[i] == if at <= i < at + k then b[i - at] else old(result[..])[i]
    {
      result[at + k] := b[k];
    }
  }

  /** The stretch of the file at its place is the stretch of the container it came from. */
  ghost predicate Carries(file: Bytes, data: Bytes, s: Stretch) {
    && 0 <= s.origin && s.origin + s.size <= |data| && 0 <= s.place && s.place + s.size <= |file|
    && file[s.place..s.place + s.size] == data[s.origin..s.origin + s.size]
  }

  /** A byte of the file that no stretch is copied to. */
  ghost predicate Between(stretches: seq<Stretch>, p: int) {
    forall i :: 0 <= i < |stretches| ==> !(stretches[i].place <= p < stretches[i].place + stretches[i].size)
  }

  ghost predicate NoughtBetween(file: Bytes, stretches: seq<Stretch>) {
    forall p :: 0 <= p < |file| && Between(stretches, p) ==> file[p] == 0
  }

  lemma {:induction false} StillBetween(file: Bytes, stretches: seq<Stretch>, n: nat, b: Bytes)
    requires NoughtBetween(file, stretches) && n < |stretches| && 0 <= stretches[n].place
    requires |b| == stretches[n].size && stretches[n].place + |b| <= |file|
    ensures NoughtBetween(Splice(file, stretches[n].place, b), stretches)
  {
  }

  /** Copies every stretch to its place; stretches do not overlap, so each survives the later ones. */
  method CopyStretches(data: Bytes, stretches: seq<Stretch>, ghost start: nat, total: nat) returns (result: array<Byte>)
    requires Laid(stretches, start) && EndBefore(stretches, start, |stretches|) <= total
    requires forall i ::
        0 <= i < |stretches| ==> 0 <= stretches[i].origin && stretches[i].origin + stretches[i].size <= |data|
    ensures fresh(result) && result.Length == total
    ensures forall i :: 0 <= i < |stretches| ==> Carries(result[..], data, stretches[i])
    ensures forall p :: 0 <= p < total && Between(stretches, p) ==> result[p] == 0
  {
    hide Between, Splice;
    result := new Byte[total](_ => 0);
    for n := 0 to |stretches|
      invariant forall i :: 0 <= i < n ==> Carries(result[..], data, stretches[i])
      invariant NoughtBetween(result[..], stretches)
    {
      ghost var before := result[..];
      var s := stretches[n];
      LaidInOrder(stretches, start, n, |stretches|);
      WriteAt(result, s.place, data[s.origin..s.origin + s.size]);
      StillBetween(before, stretches, n, data[s.origin..s.origin + s.size]);
      forall i | 0 <= i <= n ensures Carries(result[..], data, stretches[i]) {
        if i < n {
          LaidInOrder(stretches, start, i, n);
          StillCarries(before, data, stretches[i], s.place, data[s.origin..s.origin + s.size]);
        }
      }
    }
  }

  lemma {:induction false} StillCarries(file: Bytes, data: Bytes, s: Stretch, at: nat, b: Bytes)
    requires Carries(file, data, s) && at + |b| <= |file| && (s.place + s.size <= at || at + |b| <= s.place)
    ensures Carries(Splice(file, at, b), data, s)
  {
  }

  // ----- where each segment goes

  /** The offset written for a segment. */
  ghost function NewOffset(segs: seq<Segment>, loads: LoadRegions, regions: seq<Region>, h: nat): int
    requires h < |segs|
    reads regions, loads.Values
  {
    var s := segs[h];
    if !TakesPart(s) then (if s.kind == PT_LOAD then s.vaddr % (if s.align >= 1 then s.align else 1) else 0)
    else
      var region := OutputRegion(segs, loads, regions, h);
      if region == null then s.source else region.place + (s.source - region.origin)
  }

  method EmptyLoad(s: Segment) returns (offset: int)
    requires s.kind == PT_LOAD
    ensures offset == s.vaddr % (if s.align >= 1 then s.align else 1)
  {
    offset := s.vaddr % (if s.align >= 1 then s.align else 1);
  }

  /** The segment is the first that would end past the output. */
  ghost predicate FirstPast(segs: seq<Segment>, loads: LoadRegions, regions: seq<Region>, total: nat, h: nat)
    reads regions, loads.Values
  {
    && h < |segs| && TakesPart(segs[h]) && NewOffset(segs, loads, regions, h) + segs[h].size > total
    && forall g :: 0 <= g < h && TakesPart(segs[g]) ==> NewOffset(segs, loads, regions, g) + segs[g].size <= total
  }

  method PlaceInOutput(segs: seq<Segment>, loads: LoadRegions, regions: seq<Region>, total: nat)
    returns (r: Result<seq<int>>)
    ensures match r
            case Ok(offsets) =>
              |offsets| == |segs|
              && forall h :: 0 <= h < |segs| ==>
                   && offsets[h] == NewOffset(segs, loads, regions, h)
                   && (TakesPart(segs[h]) ==> offsets[h] + segs[h].size <= total)
            case Refused(why) =>
              exists h: nat :: FirstPast(segs, loads, regions, total, h) && why == Escaped(segs[h].index)
  {
    var offsets := [];
    for h := 0 to |segs|
      invariant |offsets| == h
      invariant forall k :: 0 <= k < h ==>
                  && offsets[k] == NewOffset(segs, loads, regions, k)
                  && (TakesPart(segs[k]) ==> offsets[k] + segs[k].size <= total)
    {
      var s := segs[h];
      var offset := 0;
      if !TakesPart(s) {
        if s.kind == PT_LOAD {
          offset := EmptyLoad(s);
        }
      } else {
        var region := OutputRegion(segs, loads, regions, h);
        offset := if region == null then s.source else region.place + (s.source - region.origin);
        if offset + s.size > total {
          assert FirstPast(segs, loads, regions, total, h);
          return Refused(Escaped(s.index));
        }
      }
      offsets := offsets + [offset];
    }
    r := Ok(offsets);
  }

  // ----- the layout as a whole

  /** Everything that is known once regions are collected, balanced and laid out. */
  ghost predicate LaidOut(data: Bytes, c: Container, loads: LoadRegions, regions: seq<Region>,
                          first: map<Region, Demand>, stretches: seq<Stretch>, start: nat, total: nat)
    reads regions
  {
    && Usable(data, c) && Collected(c.segs, loads, regions, |data|)
    && AllBalanced(c.segs, loads, regions, |c.segs|, first)
    && |stretches| == |regions| && (forall i :: 0 <= i < |regions| ==> Describes(stretches[i], regions[i]))
    && Laid(stretches, start) && EndBefore(stretches, start, |stretches|) <= total
  }

  /** A segment with bytes lies in its region, wherever that comes from. */
  lemma {:induction false} SegmentInRegion(data: Bytes, c: Container, loads: LoadRegions, regions: seq<Region>, h: nat)
    requires Usable(data, c) && Collected(c.segs, loads, regions, |data|)
    requires h < |c.segs| && c.segs[h].size > 0
    ensures var r := OutputRegion(c.segs, loads, regions, h);
            r != null && r in regions && Contains(r, c.segs[h].source, c.segs[h].size)
  {
    assert WellPlaced(c, |data|, h);
    OutputRegionIsOne(c.segs, loads, regions, |data|, h);
    if c.segs[h].kind != PT_LOAD && c.segs[h].host.Some? && c.segs[h].host.value in loads {
      assert Hosted(c.segs, h, c.segs[h].host.value);
    }
  }

  /** The stretch a segment with bytes moves with. */
  ghost predicate MovesWith(s: Segment, offset: int, stretch: Stretch) {
    && stretch.origin <= s.source && s.source + s.size <= stretch.origin + stretch.size
    && offset == stretch.place + (s.source - stretch.origin)
  }

  lemma {:induction false} SegmentMoves(data: Bytes, c: Container, loads: LoadRegions, regions: seq<Region>,
                                        first: map<Region, Demand>, stretches: seq<Stretch>, start: nat, total: nat,
                                        h: nat)
    returns (i: nat)
    requires LaidOut(data, c, loads, regions, first, stretches, start, total)
    requires h < |c.segs| && c.segs[h].size > 0
    ensures i < |stretches| && MovesWith(c.segs[h], NewOffset(c.segs, loads, regions, h), stretches[i])
    ensures start <= NewOffset(c.segs, loads, regions, h) && NewOffset(c.segs, loads, regions, h) + c.segs[h].size
        <= total
    ensures (NewOffset(c.segs, loads, regions, h) - c.segs[h].vaddr) % Effective(c.segs[h].align) == 0
  {
    SegmentInRegion(data, c, loads, regions, h);
    var r := OutputRegion(c.segs, loads, regions, h);
    i :| 0 <= i < |regions| && regions[i] == r;
    assert Describes(stretches[i], r);
    LaidInOrder(stretches, start, i, |stretches|);
    assert Meets(stretches[i].place, DemandOn(r, c.segs[h])) by {
      PlaceSuits(c.segs, loads, regions, r, h, first[r], r.Wants(), stretches[i].place);
    }
  }

  lemma {:induction false} PlaceSuits(segs: seq<Segment>, loads: LoadRegions, regions: seq<Region>, r: Region, h: nat,
                                      first: Demand, now: Demand, place: int)
    requires h < |segs| && Balanced(segs, loads, regions, r, |segs|, first, now)
    requires GoesWith(segs, loads, regions, h, r) && Meets(place, now)
    ensures Meets(place, DemandOn(r, segs[h]))
  {
  }

  /** The rule of the ABI, for one segment and the offset it was given. */
  ghost predicate FollowsElfRule(s: Segment, offset: int) {
    (s.kind == PT_LOAD || s.size > 0) && s.align >= 1 ==> offset % s.align == s.vaddr % s.align
  }

  lemma {:induction false} EmittedFollowsElfRule(data: Bytes, c: Container, loads: LoadRegions, regions: seq<Region>,
                                                 first: map<Region, Demand>, stretches: seq<Stretch>, start: nat,
                                                 total: nat, h: nat)
    requires LaidOut(data, c, loads, regions, first, stretches, start, total) && h < |c.segs|
    ensures FollowsElfRule(c.segs[h], NewOffset(c.segs, loads, regions, h))
  {
    var s := c.segs[h];
    assert WellPlaced(c, |data|, h);
    if s.size > 0 {
      var i := SegmentMoves(data, c, loads, regions, first, stretches, start, total, h);
      if s.align >= 1 {
        MeetsIsTheElfRule(NewOffset(c.segs, loads, regions, h), Demand(s.vaddr, s.align));
      }
    } else if s.kind == PT_LOAD && s.align >= 1 {
      EmptyLoadOffset(s.vaddr, s.align);
    }
  }

  lemma {:induction false} EmptyLoadOffset(vaddr: nat, align: nat)
    requires align >= 1
    ensures (vaddr % align) % align == vaddr % align
  {
    QuotientIs(vaddr % align, align, 0, vaddr % align);
  }

  /** A hosted segment keeps its distance to its host. */
  lemma {:induction false} HostedKeepsDistance(data: Bytes, c: Container, loads: LoadRegions, regions: seq<Region>,
                                               h: nat)
    requires Usable(data, c) && Collected(c.segs, loads, regions, |data|)
    requires h < |c.segs| && c.segs[h].host.Some? && TakesPart(c.segs[h])
    ensures var l := c.segs[h].host.value;
            l < |c.segs| && NewOffset(c.segs, loads, regions, h) - NewOffset(c.segs, loads, regions, l)
                == c.segs[h].vaddr - c.segs[l].vaddr
  {
    assert WellPlaced(c, |data|, h);
    var l := c.segs[h].host.value;
    assert Hosted(c.segs, h, l);
    assert l in loads;
  }

  // ----- the header and the table

  /** The file after the first n entries of the table have been written. */
  function TableWritten(file: Bytes, at: nat, entries: seq<Entry>, n: nat): (r: Bytes)
    requires n <= |entries| && at + |entries| * ENTRY_SIZE <= |file|
    ensures |r| == |file|
  {
    if n == 0 then
        file else Splice(TableWritten(file, at, entries, n - 1), at + (n - 1) * ENTRY_SIZE, Encode(entries[n - 1]))
  }

  lemma {:induction false} TableElsewhere(file: Bytes, at: nat, entries: seq<Entry>, n: nat, i: nat)
    requires n <= |entries| && at + |entries| * ENTRY_SIZE <= |file|
    requires i < |file| && !(at <= i < at + |entries| * ENTRY_SIZE)
    ensures TableWritten(file, at, entries, n)[i] == file[i]
  {
    if n > 0 { TableElsewhere(file, at, entries, n - 1, i); }
  }

  lemma {:induction false} TableHolds(file: Bytes, at: nat, entries: seq<Entry>, n: nat, i: nat)
    requires i < n <= |entries| && at + |entries| * ENTRY_SIZE <= |file|
    ensures TableWritten(file, at, entries, n)[at + i * ENTRY_SIZE..at + i * ENTRY_SIZE + ENTRY_SIZE]
        == Encode(entries[i])
  {
    var file' := TableWritten(file, at, entries, n);
    if i < n - 1 {
      TableHolds(file, at, entries, n - 1, i);
      var before := TableWritten(file, at, entries, n - 1);
      assert file'[at + i * ENTRY_SIZE..at + i * ENTRY_SIZE + ENTRY_SIZE]
          == before[at + i * ENTRY_SIZE..at + i * ENTRY_SIZE + ENTRY_SIZE];
    } else {
      assert file'[at + i * ENTRY_SIZE..at + i * ENTRY_SIZE + ENTRY_SIZE] == Encode(entries[i]);
    }
  }

  /** The ELF header written: it points to the table, and to no section headers. */
  function HeaderWritten(header: Bytes, phdr: Option<nat>, at: nat): (r: Bytes)
    requires |header| == HEADER_SIZE
    ensures |r| == HEADER_SIZE
  {
    var pointed := if phdr.Some? then Splice(header, 0x20, Le(at, 8)) else header;
    Splice(Splice(Splice(pointed, 0x28, Le(0, 8)), 0x3C, Le(0, 2)), 0x3E, Le(0, 2))
  }

  method WriteHeader(result: array<Byte>, header: Bytes, phdr: Option<nat>, at: nat)
    requires |header| == HEADER_SIZE <= result.Length
    modifies result
    ensures result[..] == Splice(old(result[..]), 0, HeaderWritten(header, phdr, at))
  {
    var pointed := header;
    if phdr.Some? {
      pointed := Splice(header, 0x20, Le(at, 8));
    }
    WriteAt(result, 0, pointed);
    WriteAt(result, 0x28, Le(0, 8));
    WriteAt(result, 0x3C, Le(0, 2));
    WriteAt(result, 0x3E, Le(0, 2));
  }

  method WriteTable(result: array<Byte>, at: nat, entries: seq<Entry>)
    requires at + |entries| * ENTRY_SIZE <= result.Length
    modifies result
    ensures result[..] == TableWritten(old(result[..]), at, entries, |entries|)
  {
    hide Encode, Splice;
    for i := 0 to |entries|
      invariant result[..] == TableWritten(old(result[..]), at, entries, i)
    {
      WriteAt(result, at + i * ENTRY_SIZE, Encode(entries[i]));
    }
  }

  // ----- the result

  /** The file, with the segments, their offsets, the copied stretches and the place of the table. */
  datatype Unwrapped = Unwrapped(file: Bytes, container: Container, offsets: seq<nat>, stretches: seq<Stretch>,
      start: nat, table: nat)

  /** Where the layout begins: past the header area and past the slot of the original table. */
  function LayoutStart(elf: Elf): nat {
    var tableEnd := elf.programOffset + |elf.entries| * ENTRY_SIZE;
    if tableEnd > FIRST_REGION then tableEnd else FIRST_REGION
  }

  /** Every load, empty ones included, and every other segment with bytes follows the rule of the ABI. */
  ghost predicate Aligned(u: Unwrapped) {
    |u.offsets| == |u.container.segs| && forall h ::
        0 <= h < |u.offsets| ==> FollowsElfRule(u.container.segs[h], u.offsets[h])
  }

  /** The copied stretches follow one another past the header and the original table, each read from the container. */
  ghost predicate Disjoint(u: Unwrapped) {
    && (forall i :: 0 <= i < |u.stretches| ==>
          u.start <= u.stretches[i].place && u.stretches[i].place + u.stretches[i].size <= |u.file|)
    && (forall i, j ::
        0 <= i < j < |u.stretches| ==> u.stretches[i].place + u.stretches[i].size <= u.stretches[j].place)
    && u.start >= FIRST_REGION && u.start >= u.container.elf.programOffset + |u.container.segs| * ENTRY_SIZE
  }

  /** The byte is one of the rewritten table. */
  predicate InTable(u: Unwrapped, at: int) {
    u.table <= at < u.table + |u.container.segs| * ENTRY_SIZE
  }

  /** Every segment moves with a stretch, and reads back its bytes except where the table now is. */
  ghost predicate KeepsBytes(data: Bytes, u: Unwrapped) {
    && |u.offsets| == |u.container.segs|
    && forall h :: 0 <= h < |u.offsets| && u.container.segs[h].size > 0 ==> SegmentKept(data, u, h)
  }

  ghost predicate SegmentKept(data: Bytes, u: Unwrapped, h: nat)
    requires h < |u.offsets| == |u.container.segs|
  {
    var s := u.container.segs[h];
    && 0 <= s.source && s.source + s.size <= |data| && u.offsets[h] + s.size <= |u.file|
    && (exists i :: 0 <= i < |u.stretches| && MovesWith(s, u.offsets[h], u.stretches[i]))
    && forall p ::
        u.offsets[h] <= p < u.offsets[h] + s.size && !InTable(u, p) ==> u.file[p] == data[s.source + (p - u.offsets[h])]
  }

  /** A segment that lies in a load's bytes keeps its distance to the load. */
  ghost predicate KeepsDistances(u: Unwrapped) {
    && |u.offsets| == |u.container.segs|
    && forall h :: 0 <= h < |u.offsets| && u.container.segs[h].host.Some? && TakesPart(u.container.segs[h]) ==>
         var l := u.container.segs[h].host.value;
         l < |u.offsets| && u.offsets[h] as int - u.offsets[l] == u.container.segs[h].vaddr - u.container.segs[l].vaddr
  }

  /** The table in the file is the segments with their new offsets. */
  ghost predicate TableMatches(u: Unwrapped) {
    && |u.offsets| == |u.container.segs|
    && forall h :: 0 <= h < |u.offsets| ==>
         u.table + h * ENTRY_SIZE + ENTRY_SIZE <= |u.file|
         && Decode(u.file, u.table + h * ENTRY_SIZE) == EmittedEntry(u.container.segs[h], u.offsets[h])
  }

  /** Writing the header and the table leaves every other byte past the header alone. */
  lemma {:induction false} BodyStays(copied: Bytes, header: Bytes, phdr: Option<nat>, at: nat, entries: seq<Entry>,
                                     p: nat)
    requires |header| == HEADER_SIZE <= p < |copied| && at + |entries| * ENTRY_SIZE <= |copied|
    requires !(at <= p < at + |entries| * ENTRY_SIZE)
    ensures TableWritten(Splice(copied, 0, HeaderWritten(header, phdr, at)), at, entries, |entries|)[p] == copied[p]
  {
    TableElsewhere(Splice(copied, 0, HeaderWritten(header, phdr, at)), at, entries, |entries|, p);
  }

  lemma {:induction false} CarriedByte(file: Bytes, data: Bytes, stretch: Stretch, s: Segment, offset: int, p: int)
    requires Carries(file, data, stretch) && MovesWith(s, offset, stretch) && offset <= p < offset + s.size
    ensures 0 <= p < |file| && 0 <= s.source + (p - offset) < |data| && file[p] == data[s.source + (p - offset)]
  {
    var k := p - stretch.place;
    assert file[stretch.place..stretch.place + stretch.size][k] == data[stretch.origin..stretch.origin
        + stretch.size][k];
  }

  /** The header as it was, but pointing to the table and to no section headers. */
  ghost predicate HeaderIs(u: Unwrapped) {
    && |u.container.elf.header| == 0x40 <= |u.file|
    && (forall p :: 0 <= p < 0x40 && !InTable(u, p) && !(0x20 <= p < 0x30) && p < 0x3C ==>
          u.file[p] == u.container.elf.header[p])
    && (forall p :: (0x28 <= p < 0x30 || 0x3C <= p < 0x40) && !InTable(u, p) ==> u.file[p] == 0)
    && (u.table >= 0x40 && u.container.phdr.Some? ==> U64(u.file, 0x20) == u.table)
    && (u.table >= 0x40 && u.container.phdr.None? ==>
          forall p :: 0x20 <= p < 0x28 ==> u.file[p] == u.container.elf.header[p])
  }

  /** Past the header, and apart from the table, the bytes of the stretches, and zeros between them. */
  ghost predicate BodyIs(data: Bytes, u: Unwrapped) {
    && (forall i, p :: 0 <= i < |u.stretches| && 0x40 <= p < |u.file| && !InTable(u, p) ==>
          var t := u.stretches[i];
          t.place <= p < t.place + t.size ==>
            0 <= t.origin + (p - t.place) < |data| && u.file[p] == data[t.origin + (p - t.place)])
    && forall p :: 0x40 <= p < |u.file| && !InTable(u, p) && Between(u.stretches, p) ==> u.file[p] == 0
  }

  ghost predicate Rewritten(u: Unwrapped, copied: Bytes, entries: seq<Entry>) {
    && |copied| == |u.file| && |u.container.elf.header| == HEADER_SIZE <= |copied|
        && |entries| == |u.container.segs| == |u.offsets|
    && (forall h ::
        0 <= h < |entries| ==> entries[h] == EmittedEntry(u.container.segs[h], u.offsets[h]) && Storable(entries[h]))
    && u.table + |entries| * ENTRY_SIZE <= |copied|
    && u.file == TableWritten(Splice(copied, 0, HeaderWritten(u.container.elf.header, u.container.phdr, u.table)),
        u.table, entries, |entries|)
  }

  lemma {:induction false} SegmentIsKept(data: Bytes, u: Unwrapped, copied: Bytes, entries: seq<Entry>, h: nat, i: nat)
    requires Rewritten(u, copied, entries)
    requires h < |u.offsets| && i < |u.stretches| && Carries(copied, data, u.stretches[i])
    requires MovesWith(u.container.segs[h], u.offsets[h], u.stretches[i]) && FIRST_REGION <= u.offsets[h]
    ensures SegmentKept(data, u, h)
  {
    forall p | u.offsets[h] <= p < u.offsets[h] + u.container.segs[h].size && !InTable(u, p)
      ensures u.file[p] == data[u.container.segs[h].source + (p - u.offsets[h])]
    {
      KeptByte(data, u, copied, entries, h, i, p);
    }
  }

  lemma {:induction false} KeptByte(data: Bytes, u: Unwrapped, copied: Bytes, entries: seq<Entry>, h: nat, i: nat,
                                    p: nat)
    requires Rewritten(u, copied, entries)
    requires h < |u.offsets| && i < |u.stretches| && Carries(copied, data, u.stretches[i])
    requires MovesWith(u.container.segs[h], u.offsets[h], u.stretches[i]) && FIRST_REGION <= u.offsets[h]
    requires u.offsets[h] <= p < u.offsets[h] + u.container.segs[h].size && !InTable(u, p)
    ensures p < |u.file| && 0 <= u.container.segs[h].source + (p - u.offsets[h]) < |data|
    ensures u.file[p] == data[u.container.segs[h].source + (p - u.offsets[h])]
  {
    hide TableWritten, HeaderWritten, Splice, EmittedEntry, Storable, Carries, MovesWith;
    CarriedByte(copied, data, u.stretches[i], u.container.segs[h], u.offsets[h], p);
    BodyStays(copied, u.container.elf.header, u.container.phdr, u.table, entries, p);
  }

  lemma {:induction false} LeZero(k: nat, i: nat)
    requires i < k
    ensures Le(0, k)[i] == 0
  {
    if i > 0 { LeZero(k - 1, i - 1); }
  }

  lemma {:induction false} HeaderByte(header: Bytes, phdr: Option<nat>, at: nat, p: nat)
    requires |header| == HEADER_SIZE && p < HEADER_SIZE
    ensures var h := HeaderWritten(header, phdr, at);
            && (0x28 <= p < 0x30 || 0x3C <= p < 0x40 ==> h[p] == 0)
            && (!(0x28 <= p < 0x30 || 0x3C <= p < 0x40) && (phdr.None? || !(0x20 <= p < 0x28)) ==> h[p] == header[p])
  {
    if 0x28 <= p < 0x30 { LeZero(8, p - 0x28); }
    if 0x3C <= p < 0x3E { LeZero(2, p - 0x3C); }
    if 0x3E <= p < 0x40 { LeZero(2, p - 0x3E); }
    hide Le;
  }

  /** A byte outside the table is the one that was there before. */
  lemma {:induction false} HeadByte(u: Unwrapped, copied: Bytes, entries: seq<Entry>, p: nat)
    requires Rewritten(u, copied, entries) && p < HEADER_SIZE && !InTable(u, p)
    ensures p < |u.file|
    ensures u.file[p] == HeaderWritten(u.container.elf.header, u.container.phdr, u.table)[p]
  {
    hide TableWritten, HeaderWritten, EmittedEntry, Storable;
    TableElsewhere(Splice(copied, 0, HeaderWritten(u.container.elf.header, u.container.phdr, u.table)), u.table,
        entries, |entries|, p);
  }

  lemma {:induction false} HeaderIsWritten(u: Unwrapped, copied: Bytes, entries: seq<Entry>)
    requires Rewritten(u, copied, entries) && (u.container.phdr.Some? ==> u.table < TWO_TO_64)
    ensures HeaderIs(u)
  {
    hide Rewritten, HeaderWritten, U64;
    RewrittenSizes(u, copied, entries);
    var header, phdr := u.container.elf.header, u.container.phdr;
    var h := HeaderWritten(header, phdr, u.table);
    forall p: nat | p < 0x40
      ensures !InTable(u, p) ==> u.file[p] == h[p]
      ensures 0x28 <= p < 0x30 || 0x3C <= p < 0x40 ==> h[p] == 0
      ensures !(0x28 <= p < 0x30 || 0x3C <= p < 0x40) && (phdr.None? || !(0x20 <= p < 0x28)) ==> h[p] == header[p]
    {
      HeaderByte(header, phdr, u.table, p);
      if !InTable(u, p) { HeadByte(u, copied, entries, p); }
    }
    if u.table >= 0x40 && phdr.Some? {
      HeaderPointsTo(header, phdr, u.table);
      assert u.file[0x20..0x28] == h[0x20..0x28];
      FieldsAre(u.file, 0x20);
    }
  }

  lemma {:induction false} RewrittenSizes(u: Unwrapped, copied: Bytes, entries: seq<Entry>)
    requires Rewritten(u, copied, entries)
    ensures |copied| == |u.file| && |u.container.elf.header| == HEADER_SIZE <= |copied|
        && |entries| == |u.container.segs| == |u.offsets|
  {
  }

  lemma {:induction false} BodyByte(u: Unwrapped, copied: Bytes, entries: seq<Entry>, p: nat)
    requires Rewritten(u, copied, entries) && HEADER_SIZE <= p < |u.file| && !InTable(u, p)
    ensures |copied| == |u.file| && u.file[p] == copied[p]
  {
    hide TableWritten, HeaderWritten, Splice, EmittedEntry, Storable;
    BodyStays(copied, u.container.elf.header, u.container.phdr, u.table, entries, p);
  }

  lemma {:induction false} BodyIsWritten(data: Bytes, u: Unwrapped, copied: Bytes, entries: seq<Entry>)
    requires Rewritten(u, copied, entries)
    requires forall i :: 0 <= i < |u.stretches| ==> Carries(copied, data, u.stretches[i])
    requires forall p :: 0 <= p < |copied| && Between(u.stretches, p) ==> copied[p] == 0
    ensures BodyIs(data, u)
  {
    hide Rewritten;
    RewrittenSizes(u, copied, entries);
    forall p: nat | 0x40 <= p < |u.file| && !InTable(u, p) ensures u.file[p] == copied[p] {
      BodyByte(u, copied, entries, p);
    }
    forall i, p | 0 <= i < |u.stretches| && 0x40 <= p < |u.file|
        && u.stretches[i].place <= p < u.stretches[i].place + u.stretches[i].size
      ensures var at := u.stretches[i].origin + (p - u.stretches[i].place); 0 <= at < |data| && copied[p] == data[at]
    {
      CarriedAt(copied, data, u.stretches[i], p);
    }
  }

  lemma {:induction false} CarriedAt(file: Bytes, data: Bytes, s: Stretch, p: int)
    requires Carries(file, data, s) && s.place <= p < s.place + s.size
    ensures 0 <= p < |file| && 0 <= s.origin + (p - s.place) < |data| && file[p] == data[s.origin + (p - s.place)]
  {
    assert file[s.place..s.place + s.size][p - s.place] == data[s.origin..s.origin + s.size][p - s.place];
  }

  // ----- the final steps

  /** The table as it was written reads back. */
  lemma {:induction false} WrittenReadsBack(file: Bytes, at: nat, entries: seq<Entry>, h: nat)
    requires h < |entries| && at + |entries| * ENTRY_SIZE <= |file| && Storable(entries[h])
    ensures at + h * ENTRY_SIZE + ENTRY_SIZE <= |file|
    ensures Decode(TableWritten(file, at, entries, |entries|), at + h * ENTRY_SIZE) == entries[h]
  {
    TableHolds(file, at, entries, |entries|, h);
    EntryRoundTrip(TableWritten(file, at, entries, |entries|), at + h * ENTRY_SIZE, entries[h]);
  }

  lemma {:induction false} RewrittenMatchesAt(u: Unwrapped, copied: Bytes, entries: seq<Entry>, h: nat)
    requires Rewritten(u, copied, entries) && h < |entries|
    ensures u.table + h * ENTRY_SIZE + ENTRY_SIZE <= |u.file|
    ensures entries[h] == EmittedEntry(u.container.segs[h], u.offsets[h])
    ensures Decode(u.file, u.table + h * ENTRY_SIZE) == entries[h]
  {
    hide TableWritten, HeaderWritten, Splice, Decode, EmittedEntry, Storable;
    WrittenReadsBack(Splice(copied, 0, HeaderWritten(u.container.elf.header, u.container.phdr, u.table)), u.table,
        entries, h);
  }

  lemma {:induction false} RewrittenMatches(u: Unwrapped, copied: Bytes, entries: seq<Entry>)
    requires Rewritten(u, copied, entries)
    ensures TableMatches(u)
  {
    forall h | 0 <= h < |u.offsets|
      ensures u.table + h * ENTRY_SIZE + ENTRY_SIZE <= |u.file|
      ensures Decode(u.file, u.table + h * ENTRY_SIZE) == EmittedEntry(u.container.segs[h], u.offsets[h])
    {
      RewrittenMatchesAt(u, copied, entries, h);
    }
  }

  /** All that an accepted container is promised. */
  ghost predicate Promised(data: Bytes, u: Unwrapped) {
    && Aligned(u) && Disjoint(u) && KeepsBytes(data, u) && KeepsDistances(u) && TableMatches(u)
    && HeaderIs(u) && BodyIs(data, u)
  }

  lemma {:induction false} LayoutKeepsPromises(data: Bytes, loads: LoadRegions, regions: seq<Region>,
                                               first: map<Region, Demand>, u: Unwrapped, copied: Bytes,
                                               entries: seq<Entry>)
    requires LaidOut(data, u.container, loads, regions, first, u.stretches, u.start, |u.file|)
    requires Rewritten(u, copied, entries) && u.start == LayoutStart(u.container.elf)
    requires forall i :: 0 <= i < |u.stretches| ==> Carries(copied, data, u.stretches[i])
    requires forall p :: 0 <= p < |copied| && Between(u.stretches, p) ==> copied[p] == 0
    requires forall h :: 0 <= h < |u.offsets| ==> u.offsets[h] == NewOffset(u.container.segs, loads, regions, h)
    requires u.container.phdr.Some? ==> u.table < TWO_TO_64
    ensures Promised(data, u)
  {
    var c := u.container;
    forall h | 0 <= h < |u.offsets| ensures FollowsElfRule(c.segs[h], u.offsets[h]) {
      EmittedFollowsElfRule(data, c, loads, regions, first, u.stretches, u.start, |u.file|, h);
    }
    forall h | 0 <= h < |u.offsets| && c.segs[h].size > 0 ensures SegmentKept(data, u, h) {
      var i := SegmentMoves(data, c, loads, regions, first, u.stretches, u.start, |u.file|, h);
      SegmentIsKept(data, u, copied, entries, h, i);
    }
    DistancesKept(data, u, loads, regions);
    StretchesDisjoint(u);
    RewrittenMatches(u, copied, entries);
    HeaderIsWritten(u, copied, entries);
    BodyIsWritten(data, u, copied, entries);
  }

  lemma {:induction false} DistancesKept(data: Bytes, u: Unwrapped, loads: LoadRegions, regions: seq<Region>)
    requires Usable(data, u.container) && Collected(u.container.segs, loads, regions, |data|)
        && |u.offsets| == |u.container.segs|
    requires forall h :: 0 <= h < |u.offsets| ==> u.offsets[h] == NewOffset(u.container.segs, loads, regions, h)
    ensures KeepsDistances(u)
  {
    forall h | 0 <= h < |u.offsets| && u.container.segs[h].host.Some? && TakesPart(u.container.segs[h])
      ensures var l := u.container.segs[h].host.value;
              l < |u.offsets| && u.offsets[h] as int - u.offsets[l]
                  == u.container.segs[h].vaddr - u.container.segs[l].vaddr
    {
      HostedKeepsDistance(data, u.container, loads, regions, h);
    }
  }

  lemma {:induction false} StretchesDisjoint(u: Unwrapped)
    requires Laid(u.stretches, u.start) && EndBefore(u.stretches, u.start, |u.stretches|) <= |u.file|
    requires u.start == LayoutStart(u.container.elf) && |u.container.segs| == |u.container.elf.entries|
    ensures Disjoint(u)
  {
    forall i | 0 <= i < |u.stretches|
      ensures u.start <= u.stretches[i].place && u.stretches[i].place + u.stretches[i].size <= |u.file|
    {
      LaidInOrder(u.stretches, u.start, i, |u.stretches|);
    }
    forall i, j | 0 <= i < j < |u.stretches| ensures u.stretches[i].place + u.stretches[i].size
        <= u.stretches[j].place {
      LaidInOrder(u.stretches, u.start, i, j);
    }
  }

  /** The end of the output, so that it reaches the offset of each of the first n loads that have no bytes. */
  function EndFor(segs: seq<Segment>, cursor: int, n: nat): (r: int)
    requires n <= |segs|
    ensures r >= cursor
  {
    if n == 0 then cursor
    else
      var end, s := EndFor(segs, cursor, n - 1), segs[n - 1];
      var offset := s.vaddr % (if s.align >= 1 then s.align else 1);
      if s.kind == PT_LOAD && s.size == 0 && offset > end then offset else end
  }

  method EmptyEnd(segs: seq<Segment>, cursor: int) returns (end: int)
    ensures end == EndFor(segs, cursor, |segs|)
  {
    end := cursor;
    for h := 0 to |segs|
      invariant end == EndFor(segs, cursor, h)
    {
      if segs[h].kind == PT_LOAD && segs[h].size == 0 {
        var offset := EmptyLoad(segs[h]);
        if offset > end {
          end := offset;
        }
      }
    }
  }

  function OutputLimit(length: nat): nat {
    if MAX_OUTPUT_FACTOR * length > MIN_OUTPUT_LIMIT then MAX_OUTPUT_FACTOR * length else MIN_OUTPUT_LIMIT
  }

  /** The regions of a container, each wanting exactly the starts that suit all its segments. */
  method BalanceRegions(data: Bytes, c: Container)
    returns (r: Result<()>, loads: LoadRegions, regions: seq<Region>, ghost first: map<Region, Demand>)
    requires Usable(data, c)
    ensures Collected(c.segs, loads, regions, |data|) && forall x :: x in regions ==> fresh(x)
    ensures Made(c.segs, loads, regions, Makers(c.segs)) && FirstDemands(c.segs, regions, first)
    ensures r.Ok? ==> AllBalanced(c.segs, loads, regions, |c.segs|, first)
    ensures r.Refused? ==> exists h ::
        0 <= h < |c.segs| && Clashes(c.segs, h) && FirstStuck(c.segs, h) && r.why == IncompatibleAlignment(h)
  {
    hide Collected, Clashes, FirstStuck, Balanced, Made, Unraised, Makers, FirstDemands, Spoken;
    forall h | 0 <= h < |c.segs|
      ensures Inside(c.segs[h], |data|) && c.segs[h].index == h
      ensures c.segs[h].host.Some? ==> c.segs[h].kind != PT_LOAD && Hosted(c.segs, h, c.segs[h].host.value)
    {
      assert WellPlaced(c, |data|, h);
    }
    regions, loads := CollectRegions(c.segs, |data|);
    MadeSpeak(c.segs, loads, regions);
    first := map x | x in regions :: x.Wants();
    UnraisedIsFirst(c.segs, loads, regions, first);
    forall i | 0 <= i < |regions| ensures fresh(regions[i]) {
      assert regions[i] in regions;
    }
    r := CollectDemands(c.segs, loads, regions, |data|, first);
  }

  /** The length of the output, and how much of it past `start` holds no byte of a stretch. */
  function OutputEnd(segs: seq<Segment>, stretches: seq<Stretch>, start: nat): int {
    EndFor(segs, EndBefore(stretches, start, |stretches|), |segs|)
  }

  function Padding(segs: seq<Segment>, stretches: seq<Stretch>, start: nat): int {
    OutputEnd(segs, stretches, start) - start - TotalSize(stretches)
  }

  /** Lays the regions out, makes room for the offsets of empty loads, and refuses an output that grows too much. */
  method SizeOutput(segs: seq<Segment>, regions: seq<Region>, start: nat, length: nat)
    returns (r: Result<nat>, stretches: seq<Stretch>)
    requires Lists.Distinct(regions)
    modifies regions
    ensures forall i :: 0 <= i < |regions| ==> regions[i].Wants() == old(regions[i].Wants())
    ensures |stretches| == |regions| && (forall i :: 0 <= i < |regions| ==> Describes(stretches[i], regions[i]))
    ensures Laid(stretches, start) && start <= EndBefore(stretches, start, |stretches|)
        <= OutputEnd(segs, stretches, start)
    ensures r == if Padding(segs, stretches, start) > MAX_ALIGNMENT_PADDING then Refused(TooMuchPadding)
                 else if OutputEnd(segs, stretches, start) > OutputLimit(length) then Refused(TooLarge)
                 else Ok(OutputEnd(segs, stretches, start))
  {
    var cursor, padding, laid := LayOut(regions, start);
    stretches := laid;
    EndsGrow(stretches, start, 0, |stretches|);
    var end := EmptyEnd(segs, cursor);
    if padding + (end - cursor) > MAX_ALIGNMENT_PADDING {
      return Refused(TooMuchPadding), stretches;
    }
    if end > OutputLimit(length) {
      return Refused(TooLarge), stretches;
    }
    r := Ok(end);
  }

  /** The output is big enough for the table, wherever it goes. */
  lemma {:induction false} TableFits(data: Bytes, c: Container, loads: LoadRegions, regions: seq<Region>,
                                     first: map<Region, Demand>, stretches: seq<Stretch>, total: nat)
    requires LaidOut(data, c, loads, regions, first, stretches, LayoutStart(c.elf), total)
    requires LayoutStart(c.elf) <= total
    ensures c.phdr.None? ==> c.elf.programOffset + |c.segs| * ENTRY_SIZE <= total
    ensures c.phdr.Some? ==>
        0 <= NewOffset(c.segs, loads, regions, c.phdr.value) && NewOffset(c.segs, loads, regions, c.phdr.value)
            + |c.segs| * ENTRY_SIZE <= total
    ensures c.phdr.Some? ==>
        (if c.segs[c.phdr.value].size > 0 then LayoutStart(c.elf) <= NewOffset(c.segs, loads, regions, c.phdr.value)
                              else NewOffset(c.segs, loads, regions, c.phdr.value) == 0)
  {
    if c.phdr.Some? && c.segs[c.phdr.value].size > 0 {
      var i := SegmentMoves(data, c, loads, regions, first, stretches, LayoutStart(c.elf), total, c.phdr.value);
    }
  }

  // ----- the output is an ELF file again

  /** The file starts with an ELF header that leads to the rewritten table. */
  ghost predicate ParsesAgain(u: Unwrapped) {
    && Parsed(u.file).Ok? && Parsed(u.file).value.inner == 0 && Parsed(u.file).value.programOffset == u.table
    && |u.offsets| == |u.container.segs| == |Parsed(u.file).value.entries|
    && forall h ::
        0 <= h < |u.offsets| ==> Parsed(u.file).value.entries[h] == EmittedEntry(u.container.segs[h], u.offsets[h])
  }

  /** A PT_PHDR that the placement left without bytes: a trailing one that ran past the end of the container. */
  predicate PhdrEmptied(c: Container) {
    c.phdr.Some? && c.phdr.value < |c.segs| && c.segs[c.phdr.value].size == 0
  }

  /** The header written differs from the parsed one in the table's offset and the section header fields only. */
  lemma {:induction false} HeaderFieldsStay(header: Bytes, phdr: Option<nat>, at: nat)
    requires |header| == HEADER_SIZE
    ensures var h := HeaderWritten(header, phdr, at);
            && h[0..0x20] == header[0..0x20] && h[0x30..0x3C] == header[0x30..0x3C]
            && h[0x20..0x28] == if phdr.Some? then Le(at, 8) else header[0x20..0x28]
  {
  }

  /** The fields an ELF header is checked for, the offset of the table aside. */
  ghost predicate SameIdentity(a: Bytes, b: Bytes)
    requires |a| == |b| == HEADER_SIZE
  {
    && a[4] == b[4] && a[5] == b[5] && a[6] == b[6]
    && Field(a, 0x14, 4) == Field(b, 0x14, 4) && Field(a, 0x12, 2) == Field(b, 0x12, 2)
    && Field(a, 0x34, 2) == Field(b, 0x34, 2) && Field(a, 0x36, 2) == Field(b, 0x36, 2)
        && Field(a, 0x38, 2) == Field(b, 0x38, 2)
  }

  lemma {:induction false} SameField(a: Bytes, b: Bytes, from: nat, to: nat, at: nat, k: nat)
    requires from <= at && at + k <= to <= |a| && to <= |b| && a[from..to] == b[from..to]
    ensures Field(a, at, k) == Field(b, at, k)
    ensures k > 0 ==> a[at] == b[at]
  {
    forall i | at <= i < at + k ensures a[i] == b[i] {
      assert a[from..to][i - from] == b[from..to][i - from];
    }
    assert a[at..at + k] == b[at..at + k];
  }

  lemma {:induction false} HeaderKeepsIdentity(header: Bytes, phdr: Option<nat>, at: nat)
    requires |header| == HEADER_SIZE
    ensures SameIdentity(HeaderWritten(header, phdr, at), header)
  {
    var h := HeaderWritten(header, phdr, at);
    HeaderFieldsStay(header, phdr, at);
    EqualPartsSameIdentity(h, header);
  }

  lemma {:induction false} EqualPartsSameIdentity(a: Bytes, b: Bytes)
    requires |a| == |b| == HEADER_SIZE && a[0..0x20] == b[0..0x20] && a[0x30..0x3C] == b[0x30..0x3C]
    ensures SameIdentity(a, b)
  {
    SameField(a, b, 0, 0x20, 0x14, 4);
    SameField(a, b, 0, 0x20, 0x12, 2);
    SameField(a, b, 0x30, 0x3C, 0x34, 2);
    SameField(a, b, 0x30, 0x3C, 0x36, 2);
    SameField(a, b, 0x30, 0x3C, 0x38, 2);
    SameField(a, b, 0, 0x20, 4, 1);
    SameField(a, b, 0, 0x20, 5, 1);
    SameField(a, b, 0, 0x20, 6, 1);
  }

  lemma {:induction false} HeaderPointsTo(header: Bytes, phdr: Option<nat>, at: nat)
    requires |header| == HEADER_SIZE && at < TWO_TO_64 && (phdr.None? ==> at == Field(header, 0x20, 8))
    ensures Field(HeaderWritten(header, phdr, at), 0x20, 8) == at
  {
    HeaderFieldsStay(header, phdr, at);
    Widths();
    FieldRoundTrip(at, 8);
  }

  lemma {:induction false} HeaderStillAccepted(data: Bytes, inner: nat, file: Bytes)
    requires inner + HEADER_SIZE <= |data| && HeaderAt(data, inner).Ok? && HEADER_SIZE <= |file|
    requires SameIdentity(file[0..0 + HEADER_SIZE], data[inner..inner + HEADER_SIZE])
    requires HEADER_SIZE <= Field(file[0..0 + HEADER_SIZE], 0x20, 8)
    requires Field(file[0..0 + HEADER_SIZE], 0x20, 8) + HeaderAt(data, inner).value * ENTRY_SIZE <= |file|
    ensures HeaderAt(file, 0) == HeaderAt(data, inner)
  {
  }

  lemma {:induction false} FileHeader(u: Unwrapped, copied: Bytes, entries: seq<Entry>)
    requires Rewritten(u, copied, entries) && HEADER_SIZE <= u.table
    ensures u.file[0..HEADER_SIZE] == HeaderWritten(u.container.elf.header, u.container.phdr, u.table)
  {
    hide TableWritten, HeaderWritten, Splice, EmittedEntry, Storable;
    HeadedStays(copied, HeaderWritten(u.container.elf.header, u.container.phdr, u.table), u.table, entries);
  }

  lemma {:induction false} HeadedStays(file: Bytes, header: Bytes, at: nat, entries: seq<Entry>)
    requires |header| <= |file| && |header| <= at && at + |entries| * ENTRY_SIZE <= |file|
    ensures TableWritten(Splice(file, 0, header), at, entries, |entries|)[0..|header|] == header
  {
    hide TableWritten;
    var headed := Splice(file, 0, header);
    forall i | 0 <= i < |header| ensures TableWritten(headed, at, entries, |entries|)[i] == header[i] {
      TableElsewhere(headed, at, entries, |entries|, i);
    }
  }

  lemma {:induction false} OffsetPastHeader(data: Bytes)
    requires Parsed(data).Ok?
    ensures Parsed(data).value.programOffset >= HEADER_SIZE
  {
  }

  lemma {:induction false} OffsetUnchecked(s: Segment, h: nat, offset: nat)
    requires CheckEntry(EmittedEntry(s, 0), h).Ok?
    ensures CheckEntry(EmittedEntry(s, offset), h).Ok?
  {
  }

  lemma {:induction false} FileTableAt(data: Bytes, u: Unwrapped, copied: Bytes, entries: seq<Entry>, h: nat)
    requires HeaderFrom(data, u.container) && Rewritten(u, copied, entries) && h < |entries|
    ensures u.table + h * ENTRY_SIZE + ENTRY_SIZE <= |u.file|
    ensures Decode(u.file, u.table + h * ENTRY_SIZE) == entries[h] && CheckEntry(entries[h], h).Ok?
  {
    RewrittenMatchesAt(u, copied, entries, h);
    var s := u.container.segs[h];
    assert CheckEntry(EmittedEntry(s, 0), h).Ok?;
    OffsetUnchecked(s, h, u.offsets[h]);
  }

  lemma {:induction false} FileTable(data: Bytes, u: Unwrapped, copied: Bytes, entries: seq<Entry>)
    requires HeaderFrom(data, u.container) && Rewritten(u, copied, entries)
    ensures u.table + |entries| * ENTRY_SIZE <= |u.file| && Entries(u.file, u.table, |entries|) == Ok(entries)
  {
    hide Entries, CheckEntry, Decode, HeaderFrom, TableWritten, HeaderWritten, Splice, EmittedEntry, Storable;
    forall h | 0 <= h < |entries|
      ensures u.table + h * ENTRY_SIZE + ENTRY_SIZE <= |u.file|
      ensures Decode(u.file, u.table + h * ENTRY_SIZE) == entries[h] && CheckEntry(entries[h], h).Ok?
    {
      FileTableAt(data, u, copied, entries, h);
    }
    EntriesAccepted(u.file, u.table, |entries|, entries);
  }

  lemma {:induction false} FileAccepted(data: Bytes, u: Unwrapped, copied: Bytes, entries: seq<Entry>)
    requires HeaderFrom(data, u.container) && Rewritten(u, copied, entries) && HEADER_SIZE <= u.table < TWO_TO_64
    requires u.container.phdr.None? ==> u.table == u.container.elf.programOffset
    ensures HeaderAt(u.file, 0) == Ok(|entries|) && Field(u.file[0..HEADER_SIZE], 0x20, 8) == u.table
    ensures FindMagic(u.file, 0) == 0
  {
    var elf, phdr := u.container.elf, u.container.phdr;
    FileHeader(u, copied, entries);
    HeaderKeepsIdentity(elf.header, phdr, u.table);
    HeaderPointsTo(elf.header, phdr, u.table);
    HeaderStillAccepted(data, elf.inner, u.file);
    HeaderFieldsStay(elf.header, phdr, u.table);
    MagicComesFirst(elf.header, u.file);
  }

  lemma {:induction false} MagicComesFirst(header: Bytes, file: Bytes)
    requires |header| == HEADER_SIZE <= |file| && header[0..4] == ELF_MAGIC
    requires file[0..HEADER_SIZE][0..0x20] == header[0..0x20]
    ensures FindMagic(file, 0) == 0
  {
    forall i | 0 <= i < 4 ensures file[i] == header[i] {
      assert file[0..HEADER_SIZE][0..0x20][i] == header[0..0x20][i];
    }
    assert file[0..4] == header[0..4];
  }

  lemma {:induction false} PartsParse(file: Bytes, table: nat, entries: seq<Entry>)
    requires HEADER_SIZE <= |file| && FindMagic(file, 0) == 0 && HeaderAt(file, 0) == Ok(|entries|)
    requires Field(file[0..0 + HEADER_SIZE], 0x20, 8) == table
    requires table + |entries| * ENTRY_SIZE <= |file| && Entries(file, table, |entries|) == Ok(entries)
    ensures Parsed(file) == Ok(Elf(0, file[0..0 + HEADER_SIZE], table, entries))
  {
  }

  lemma {:induction false} FileParses(data: Bytes, u: Unwrapped, copied: Bytes, entries: seq<Entry>)
    requires HeaderFrom(data, u.container) && Rewritten(u, copied, entries) && HEADER_SIZE <= u.table < TWO_TO_64
    requires u.container.phdr.None? ==> u.table == u.container.elf.programOffset
    ensures HEADER_SIZE <= |u.file| && Parsed(u.file) == Ok(Elf(0, u.file[0..HEADER_SIZE], u.table, entries))
  {
    assert HEADER_SIZE <= |u.file|;
    hide *;
    FileAccepted(data, u, copied, entries);
    FileTable(data, u, copied, entries);
    PartsParse(u.file, u.table, entries);
  }

  /** Where the table went: to the new place of PT_PHDR, or to its old place when there is none. */
  ghost predicate TablePlaced(u: Unwrapped) {
    if u.container.phdr.None? then u.table == u.container.elf.programOffset
    else
      && u.container.phdr.value < |u.offsets| && u.table == u.offsets[u.container.phdr.value]
      && (if PhdrEmptied(u.container) then u.table == 0 else HEADER_SIZE <= u.table)
  }

  lemma {:induction false} TableBound(data: Bytes, u: Unwrapped, copied: Bytes, entries: seq<Entry>)
    requires HeaderFrom(data, u.container) && Rewritten(u, copied, entries) && TablePlaced(u)
        && !PhdrEmptied(u.container)
    ensures HEADER_SIZE <= u.table < TWO_TO_64
  {
    assert u.container.phdr.Some? ==> Storable(entries[u.container.phdr.value]);
  }

  /** The output parses again, to the table that was written, exactly when PT_PHDR did not lose its bytes. */
  lemma {:induction false} OutputParsesAgain(data: Bytes, u: Unwrapped, copied: Bytes, entries: seq<Entry>)
    requires HeaderFrom(data, u.container) && Rewritten(u, copied, entries) && TablePlaced(u)
    ensures ParsesAgain(u) <==> !PhdrEmptied(u.container)
  {
    if PhdrEmptied(u.container) {
      EmptiedDoesNotParse(u);
    } else {
      TableBound(data, u, copied, entries);
      FileParses(data, u, copied, entries);
      ParsedIsParsesAgain(u, copied, entries);
    }
  }

  lemma {:induction false} EmptiedDoesNotParse(u: Unwrapped)
    requires u.table == 0
    ensures !ParsesAgain(u)
  {
    if Parsed(u.file).Ok? { OffsetPastHeader(u.file); }
  }

  lemma {:induction false} ParsedIsParsesAgain(u: Unwrapped, copied: Bytes, entries: seq<Entry>)
    requires Rewritten(u, copied, entries)
    requires HEADER_SIZE <= |u.file| && Parsed(u.file) == Ok(Elf(0, u.file[0..HEADER_SIZE], u.table, entries))
    ensures ParsesAgain(u)
  {
  }

  // ----- unwrapping

  method BuildEntries(segs: seq<Segment>, offsets: seq<int>) returns (r: Result<seq<Entry>>)
    requires |offsets| == |segs| && forall h :: 0 <= h < |segs| ==> offsets[h] >= 0
    ensures match r
            case Ok(entries) =>
              |entries| == |segs| && forall h ::
                  0 <= h < |segs| ==> entries[h] == EmittedEntry(segs[h], offsets[h]) && Storable(entries[h])
            case Refused(why) => why == Unpackable && exists h ::
                0 <= h < |segs| && !Storable(EmittedEntry(segs[h], offsets[h]))
  {
    var entries := [];
    for h := 0 to |segs|
      invariant |entries| == h
      invariant forall k :: 0 <= k < h ==> entries[k] == EmittedEntry(segs[k], offsets[k]) && Storable(entries[k])
    {
      var entry := EmittedEntry(segs[h], offsets[h]);
      if !Storable(entry) {
        return Refused(Unpackable);
      }
      entries := entries + [entry];
    }
    r := Ok(entries);
  }

  /** An offset is no greater than the output allows, unless it is that of a segment without bytes and region. */
  ghost predicate Reached(c: Container, loads: LoadRegions, regions: seq<Region>, total: nat, h: nat)
    requires h < |c.segs|
    reads regions, loads.Values
  {
    var s, offset := c.segs[h], NewOffset(c.segs, loads, regions, h);
    && 0 <= offset && (!TakesPart(s) ==> offset < TWO_TO_64)
    && (offset + s.size <= total || !TakesPart(s) || (s.size == 0 && s.host.None? && offset == s.source))
  }

  lemma {:induction false} ReachedOffset(c: Container, loads: LoadRegions, regions: seq<Region>, total: nat, h: nat)
    requires h < |c.segs| && Reached(c, loads, regions, total, h)
    ensures NewOffset(c.segs, loads, regions, h) >= 0
  {
  }

  lemma {:induction false} OffsetsReach(data: Bytes, c: Container, loads: LoadRegions, regions: seq<Region>,
                                        first: map<Region, Demand>, stretches: seq<Stretch>, start: nat, total: nat,
                                        h: nat)
    requires LaidOut(data, c, loads, regions, first, stretches, start, total) && h < |c.segs|
    ensures Reached(c, loads, regions, total, h) && c.segs[h].index == h
  {
    assert WellPlaced(c, |data|, h) && Storable(EmittedEntry(c.segs[h], 0));
    if c.segs[h].size > 0 {
      var i := SegmentMoves(data, c, loads, regions, first, stretches, start, total, h);
    } else if TakesPart(c.segs[h]) {
      EmptySegmentMoves(data, c, loads, regions, first, stretches, start, total, h);
    }
  }

  lemma {:induction false} EmptySegmentMoves(data: Bytes, c: Container, loads: LoadRegions, regions: seq<Region>,
                                             first: map<Region, Demand>, stretches: seq<Stretch>, start: nat,
                                             total: nat, h: nat)
    requires LaidOut(data, c, loads, regions, first, stretches, start, total) && h < |c.segs|
    requires c.segs[h].size == 0 && TakesPart(c.segs[h])
    ensures Reached(c, loads, regions, total, h)
  {
    assert WellPlaced(c, |data|, h);
    OutputRegionIsOne(c.segs, loads, regions, |data|, h);
    var r := OutputRegion(c.segs, loads, regions, h);
    if c.segs[h].host.Some? {
      assert Hosted(c.segs, h, c.segs[h].host.value);
    }
    if r != null {
      var i :| 0 <= i < |regions| && regions[i] == r;
      assert Describes(stretches[i], r);
      LaidInOrder(stretches, start, i, |stretches|);
    }
  }

  // ----- when unwrapping is refused

  /**
    The stretches of a layout, told from the segments: one for each maker, wanting exactly the starts that suit the
    segments that go with it, each starting as early as it can after the one before it.
   */
  ghost predicate Drawn(c: Container, stretches: seq<Stretch>) {
    && Laid(stretches, LayoutStart(c.elf)) && |stretches| == |Makers(c.segs)|
    && forall i :: 0 <= i < |stretches| ==> StretchOf(c.segs, i, stretches[i])
  }

  ghost predicate StretchOf(segs: seq<Segment>, i: nat, t: Stretch)
    requires i < |Makers(segs)|
  {
    var m := Makers(segs)[i];
    && t.origin == segs[m].source && t.size == segs[m].size
    && forall x: int :: Meets(x, t.wants) <==> SuitsFirst(segs, Makers(segs), i, |segs|, x)
  }

  /** The offset of a segment in a layout. */
  function OffsetIn(segs: seq<Segment>, stretches: seq<Stretch>, h: nat): int
    requires h < |segs| && |stretches| == |Makers(segs)|
  {
    var s, home := segs[h], Home(segs, Makers(segs), h);
    if !TakesPart(s) then (if s.kind == PT_LOAD then s.vaddr % (if s.align >= 1 then s.align else 1) else 0)
    else if home.None? then s.source
    else stretches[home.value].place + (s.source - stretches[home.value].origin)
  }

  /** The layout neither pads nor grows too much. */
  ghost predicate Sized(length: nat, c: Container, stretches: seq<Stretch>) {
    && Drawn(c, stretches) && Padding(c.segs, stretches, LayoutStart(c.elf)) <= MAX_ALIGNMENT_PADDING
    && OutputEnd(c.segs, stretches, LayoutStart(c.elf)) <= OutputLimit(length)
  }

  /** The segment does not end inside the output. */
  predicate Escapes(c: Container, stretches: seq<Stretch>, h: nat)
    requires h < |c.segs| && |stretches| == |Makers(c.segs)|
  {
    TakesPart(c.segs[h])
    && OffsetIn(c.segs, stretches, h) + c.segs[h].size > OutputEnd(c.segs, stretches, LayoutStart(c.elf))
  }

  ghost predicate NoneEscapes(c: Container, stretches: seq<Stretch>, n: nat)
    requires n <= |c.segs| && |stretches| == |Makers(c.segs)|
  {
    forall h :: 0 <= h < n ==> !Escapes(c, stretches, h)
  }

  /** The segment can be packed with its new offset. */
  predicate Packs(s: Segment, offset: int) { 0 <= offset && Storable(EmittedEntry(s, offset)) }

  ghost predicate AllPack(c: Container, stretches: seq<Stretch>)
    requires |stretches| == |Makers(c.segs)|
  {
    forall h :: 0 <= h < |c.segs| ==> Packs(c.segs[h], OffsetIn(c.segs, stretches, h))
  }

  /** A layout that the tool writes out. */
  ghost predicate Fits(length: nat, c: Container, stretches: seq<Stretch>) {
    Sized(length, c, stretches) && NoneEscapes(c, stretches, |c.segs|) && AllPack(c, stretches)
  }

  /** A container that was read is accepted: its only layout fits. */
  ghost predicate Accepted(length: nat, c: Container) {
    exists stretches :: Fits(length, c, stretches)
  }

  ghost predicate PadsTooMuch(c: Container, stretches: seq<Stretch>) {
    Drawn(c, stretches) && Padding(c.segs, stretches, LayoutStart(c.elf)) > MAX_ALIGNMENT_PADDING
  }

  ghost predicate GrowsTooMuch(length: nat, c: Container, stretches: seq<Stretch>) {
    && Drawn(c, stretches) && Padding(c.segs, stretches, LayoutStart(c.elf)) <= MAX_ALIGNMENT_PADDING
    && OutputEnd(c.segs, stretches, LayoutStart(c.elf)) > OutputLimit(length)
  }

  ghost predicate FirstEscapes(length: nat, c: Container, stretches: seq<Stretch>, h: nat)
    requires h < |c.segs|
  {
    Sized(length, c, stretches) && NoneEscapes(c, stretches, h) && Escapes(c, stretches, h)
  }

  ghost predicate SomeDoesNotPack(length: nat, c: Container, stretches: seq<Stretch>) {
    Sized(length, c, stretches) && NoneEscapes(c, stretches, |c.segs|) && !AllPack(c, stretches)
  }

  /**
    Why a container that was read is refused: two segments that no layout could serve, or what is the matter with its
    only layout. It pads or grows too much, a segment escapes it, which only one without bytes and host can, or an
    offset does not fit 64 bits, which takes an output as large as that.
   */
  ghost predicate Excused(length: nat, c: Container, why: Refusal) {
    match why
    case IncompatibleAlignment(h) => FirstStuck(c.segs, h) && Clashes(c.segs, h)
    case TooMuchPadding => exists stretches :: PadsTooMuch(c, stretches)
    case TooLarge => exists stretches :: GrowsTooMuch(length, c, stretches)
    case Escaped(h) =>
      && h < |c.segs| && (exists stretches :: FirstEscapes(length, c, stretches, h))
      && c.segs[h].size == 0 && c.segs[h].host.None? && c.segs[h].source > LayoutStart(c.elf)
    case Unpackable =>
      (exists stretches :: SomeDoesNotPack(length, c, stretches)) && MAX_OUTPUT_FACTOR * length >= TWO_TO_64
    case _ => false
  }

  // ----- there is one layout, and so one outcome

  lemma {:induction false} DrawnAt(c: Container, a: seq<Stretch>, b: seq<Stretch>, i: nat)
    requires Drawn(c, a) && Drawn(c, b) && i <= |a| == |b|
    ensures EndBefore(a, LayoutStart(c.elf), i) == EndBefore(b, LayoutStart(c.elf), i)
    ensures forall k :: 0 <= k < i ==>
              a[k].place == b[k].place && a[k].origin == b[k].origin && a[k].size == b[k].size
  {
    hide Makers, SuitsFirst, Next, Meets;
    if i > 0 {
      DrawnAt(c, a, b, i - 1);
      var s, t, from := a[i - 1], b[i - 1], EndBefore(a, LayoutStart(c.elf), i - 1);
      assert StretchOf(c.segs, i - 1, s) && StretchOf(c.segs, i - 1, t);
      assert StartsWhereWanted(a, LayoutStart(c.elf), i - 1) && StartsWhereWanted(b, LayoutStart(c.elf), i - 1);
      NextIsLeast(from, s.wants);
      NextIsLeast(from, t.wants);
      assert Meets(s.place, t.wants) && Meets(t.place, s.wants);
    }
  }

  lemma {:induction false} SameTotal(a: seq<Stretch>, b: seq<Stretch>)
    requires |a| == |b| && forall k :: 0 <= k < |a| ==> a[k].size == b[k].size
    ensures TotalSize(a) == TotalSize(b)
  {
    if a != [] { SameTotal(a[..|a| - 1], b[..|b| - 1]); }
  }

  /** Any two layouts of a container put everything at the same place. */
  lemma {:induction false} OneLayout(c: Container, a: seq<Stretch>, b: seq<Stretch>)
    requires Drawn(c, a) && Drawn(c, b)
    ensures |a| == |b| == |Makers(c.segs)| && forall h :: 0 <= h < |c.segs| ==>
                                                OffsetIn(c.segs, a, h) == OffsetIn(c.segs, b, h)
    ensures OutputEnd(c.segs, a, LayoutStart(c.elf)) == OutputEnd(c.segs, b, LayoutStart(c.elf))
    ensures Padding(c.segs, a, LayoutStart(c.elf)) == Padding(c.segs, b, LayoutStart(c.elf))
  {
    hide Makers, Laid, StretchOf, EndFor, Home;
    DrawnAt(c, a, b, |a|);
    SameTotal(a, b);
  }

  lemma {:induction false} DrawnIsNotStuck(c: Container, stretches: seq<Stretch>, h: nat)
    requires Drawn(c, stretches)
    ensures !Stuck(c.segs, h)
  {
    hide Makers, Home, SuitsFirst, HasStart, Next, Meets, Laid;
    if h < |c.segs| && Home(c.segs, Makers(c.segs), h).Some? {
      var t := stretches[Home(c.segs, Makers(c.segs), h).value];
      NextIsLeast(0, t.wants);
      SuitedIsNotStuck(c.segs, h, |c.segs|, Next(0, t.wants));
    }
  }

  /** What the outcome is, none standing for acceptance. */
  ghost predicate Comes(length: nat, c: Container, outcome: Option<Refusal>) {
    if outcome.None? then Accepted(length, c) else Excused(length, c, outcome.value)
  }

  /** An outcome other than a clash comes with a layout. */
  lemma {:induction false} OutcomeIs(length: nat, c: Container, outcome: Option<Refusal>)
    returns (stretches: seq<Stretch>)
    requires Comes(length, c, outcome) && !(outcome.Some? && outcome.value.IncompatibleAlignment?)
    ensures Drawn(c, stretches)
    ensures match outcome
            case None => Fits(length, c, stretches)
            case Some(TooMuchPadding) => PadsTooMuch(c, stretches)
            case Some(TooLarge) => GrowsTooMuch(length, c, stretches)
            case Some(Escaped(h)) => h < |c.segs| && FirstEscapes(length, c, stretches, h)
            case Some(_) => outcome == Some(Unpackable) && SomeDoesNotPack(length, c, stretches)
  {
    hide Drawn, Padding, OutputEnd, OutputLimit, NoneEscapes, AllPack, Makers, Escapes;
    match outcome
    case None => stretches :| Fits(length, c, stretches);
    case Some(TooMuchPadding) => stretches :| PadsTooMuch(c, stretches);
    case Some(TooLarge) => stretches :| GrowsTooMuch(length, c, stretches);
    case Some(Escaped(h)) => stretches :| FirstEscapes(length, c, stretches, h);
    case Some(Unpackable) => stretches :| SomeDoesNotPack(length, c, stretches);
  }

  lemma {:induction false} ClashOrLayout(length: nat, c: Container, h: nat, outcome: Option<Refusal>)
    requires Excused(length, c, IncompatibleAlignment(h)) && Comes(length, c, outcome)
    ensures outcome == Some(IncompatibleAlignment(h))
  {
    hide Drawn, Stuck, Clashes, Fits, PadsTooMuch, GrowsTooMuch, FirstEscapes, SomeDoesNotPack;
    assert FirstStuck(c.segs, h);
    if outcome.Some? && outcome.value.IncompatibleAlignment? {
      assert FirstStuck(c.segs, outcome.value.segment);
    } else {
      var stretches := OutcomeIs(length, c, outcome);
      DrawnIsNotStuck(c, stretches, h);
    }
  }

  lemma {:induction false} SamePlan(c: Container, a: seq<Stretch>, b: seq<Stretch>)
    requires Drawn(c, a) && Drawn(c, b)
    ensures |a| == |b| == |Makers(c.segs)|
    ensures forall h :: 0 <= h < |c.segs| ==> Escapes(c, a, h) == Escapes(c, b, h)
    ensures forall n :: 0 <= n <= |c.segs| ==> NoneEscapes(c, a, n) == NoneEscapes(c, b, n)
    ensures AllPack(c, a) <==> AllPack(c, b)
  {
    hide Drawn, OutputEnd, OffsetIn, Makers, Packs, TakesPart;
    OneLayout(c, a, b);
    if AllPack(c, a) || AllPack(c, b) {
      forall h | 0 <= h < |c.segs| ensures Packs(c.segs[h], OffsetIn(c.segs, a, h)) == Packs(c.segs[h],
          OffsetIn(c.segs, b, h)) {
      }
    }
  }

  /** A container that was read has one outcome: it is accepted, or refused for one reason. */
  lemma {:induction false} OneOutcome(length: nat, c: Container, a: Option<Refusal>, b: Option<Refusal>)
    requires Comes(length, c, a) && Comes(length, c, b)
    ensures a == b
  {
    hide Comes, Drawn, Padding, OutputEnd, OutputLimit, OffsetIn, Makers, Escapes, AllPack;
    if a.Some? && a.value.IncompatibleAlignment? {
      ComesIs(length, c, a);
      ClashOrLayout(length, c, a.value.segment, b);
    } else if b.Some? && b.value.IncompatibleAlignment? {
      ComesIs(length, c, b);
      ClashOrLayout(length, c, b.value.segment, a);
    } else {
      var s := OutcomeIs(length, c, a);
      var t := OutcomeIs(length, c, b);
      OneLayout(c, s, t);
      SamePlan(c, s, t);
    }
  }

  lemma {:induction false} ComesIs(length: nat, c: Container, a: Option<Refusal>)
    requires Comes(length, c, a) && a.Some?
    ensures Excused(length, c, a.value)
  {
  }

  // ----- the layout that is made is that layout

  lemma {:induction false} MadeSpeak(segs: seq<Segment>, loads: LoadRegions, regions: seq<Region>)
    requires Made(segs, loads, regions, Makers(segs)) && Unraised(segs, regions, Makers(segs))
    ensures AllSpoken(segs, regions)
  {
    hide Makers;
    var makers := Makers(segs);
    forall r | r in regions ensures Spoken(segs, r, r.Wants()) {
      var i :| 0 <= i < |regions| && regions[i] == r;
      assert BytesOf(segs, r, makers[i]) && Speaks(segs, r, makers[i], r.Wants());
    }
  }

  lemma {:induction false} UnraisedIsFirst(segs: seq<Segment>, loads: LoadRegions, regions: seq<Region>,
                                           first: map<Region, Demand>)
    requires Made(segs, loads, regions, Makers(segs))
    requires Unraised(segs, regions, Makers(segs)) && (forall x :: x in regions ==> x in first && first[x] == x.Wants())
    ensures FirstDemands(segs, regions, first)
  {
    hide Makers;
    forall i | 0 <= i < |regions|
      ensures regions[i] in first
      ensures first[regions[i]] == DemandFrom(segs[Makers(segs)[i]].source, segs[Makers(segs)[i]])
    {
      assert BytesOf(segs, regions[i], Makers(segs)[i]);
    }
  }

  /** The regions, once balanced and laid out, give the stretches of the layout. */
  lemma {:induction false} RegionsAreDrawn(c: Container, loads: LoadRegions, regions: seq<Region>, length: nat,
                                           first: map<Region, Demand>, stretches: seq<Stretch>)
    requires Collected(c.segs, loads, regions, length) && Made(c.segs, loads, regions, Makers(c.segs))
    requires FirstDemands(c.segs, regions, first) && AllBalanced(c.segs, loads, regions, |c.segs|, first)
    requires Laid(stretches, LayoutStart(c.elf))
    requires |stretches| == |regions| && forall i :: 0 <= i < |regions| ==> Describes(stretches[i], regions[i])
    ensures Drawn(c, stretches)
  {
    hide Collected, FirstDemands, Balanced, SuitsFirst, Makers, Meets, Laid;
    MadeParts(c.segs, loads, regions, first);
    forall i | 0 <= i < |stretches| ensures StretchOf(c.segs, i, stretches[i]) {
      assert regions[i] in regions && BytesOf(c.segs, regions[i], Makers(c.segs)[i]);
      WantsAre(c.segs, loads, regions, length, first, i, |c.segs|, stretches[i].wants);
    }
  }

  /** The new offsets are those of the layout. */
  lemma {:induction false} OffsetsAreDrawn(c: Container, loads: LoadRegions, regions: seq<Region>, length: nat,
                                           stretches: seq<Stretch>, h: nat)
    requires Collected(c.segs, loads, regions, length) && Made(c.segs, loads, regions, Makers(c.segs))
    requires |stretches| == |regions| && forall i :: 0 <= i < |regions| ==> Describes(stretches[i], regions[i])
    requires h < |c.segs|
    ensures |stretches| == |Makers(c.segs)|
    ensures NewOffset(c.segs, loads, regions, h) == OffsetIn(c.segs, stretches, h)
  {
    hide Collected, Makers, OutputRegion, Home, TakesPart;
    HomeIsRegion(c.segs, loads, regions, length, h);
  }

  /** The regions are where the stretches say, and the stretches are those of the layout. */
  ghost predicate OnPlan(length: nat, c: Container, loads: LoadRegions, regions: seq<Region>, stretches: seq<Stretch>,
                         total: nat)
    reads regions, loads.Values
  {
    && Sized(length, c, stretches) && total == OutputEnd(c.segs, stretches, LayoutStart(c.elf))
    && |stretches| == |Makers(c.segs)|
    && forall h :: 0 <= h < |c.segs| ==> NewOffset(c.segs, loads, regions, h) == OffsetIn(c.segs, stretches, h)
  }

  /** The file was written from the layout. */
  ghost predicate FollowsPlan(length: nat, u: Unwrapped) {
    && Fits(length, u.container, u.stretches)
    && |u.file| == OutputEnd(u.container.segs, u.stretches, u.start)
    && |u.offsets| == |u.container.segs|
    && (forall h :: 0 <= h < |u.offsets| ==> u.offsets[h] == OffsetIn(u.container.segs, u.stretches, h))
    && TableStands(u)
  }

  /** The table is where PT_PHDR is now, or where it was when there is none. */
  ghost predicate TableStands(u: Unwrapped) {
    && (u.container.phdr.Some? ==> u.container.phdr.value < |u.offsets|)
    && u.table == if u.container.phdr.Some? then u.offsets[u.container.phdr.value] else u.container.elf.programOffset
  }

  /**
    Lays a container out and writes the file, or refuses for a reason. Every segment with bytes finds its place
    inside the output.
   */
  method WriteOut(data: Bytes, c: Container) returns (r: Result<Unwrapped>)
    requires Usable(data, c) && |c.elf.header| == HEADER_SIZE
    ensures match r
            case Ok(u) =>
              && u.container == c && u.start == LayoutStart(c.elf) && |u.file| <= OutputLimit(|data|)
              && FollowsPlan(|data|, u)
              && Promised(data, u) && (HeaderFrom(data, c) ==> (ParsesAgain(u) <==> !PhdrEmptied(c)))
            case Refused(why) => Excused(|data|, c, why)
  {
    hide Usable, Made, FirstDemands, AllBalanced, Collected, Makers, OutputLimit, FollowsPlan, Promised, HeaderFrom,
      ParsesAgain, PhdrEmptied, LayoutStart, FirstStuck, Clashes, PadsTooMuch, GrowsTooMuch, FirstEscapes,
      SomeDoesNotPack;
    var balanced, loads, regions, first := BalanceRegions(data, c);
    if balanced.Refused? {
      return Refused(balanced.why);
    }
    forall i | 0 <= i < |regions| ensures fresh(regions[i]) {
      assert regions[i] in regions;
    }
    r := WriteBalanced(data, c, loads, regions, first);
  }

  method WriteBalanced(data: Bytes, c: Container, loads: LoadRegions, regions: seq<Region>,
                       ghost first: map<Region, Demand>)
    returns (r: Result<Unwrapped>)
    requires Usable(data, c) && |c.elf.header| == HEADER_SIZE
    requires Collected(c.segs, loads, regions, |data|) && Made(c.segs, loads, regions, Makers(c.segs))
    requires FirstDemands(c.segs, regions, first) && AllBalanced(c.segs, loads, regions, |c.segs|, first)
    modifies regions
    ensures match r
            case Ok(u) =>
              && u.container == c && u.start == LayoutStart(c.elf) && |u.file| <= OutputLimit(|data|)
              && FollowsPlan(|data|, u)
              && Promised(data, u) && (HeaderFrom(data, c) ==> (ParsesAgain(u) <==> !PhdrEmptied(c)))
            case Refused(why) => Excused(|data|, c, why)
  {
    hide Usable, Made, FirstDemands, Balanced, Makers, Laid, Padding, OutputEnd, FollowsPlan, Promised, HeaderFrom,
      ParsesAgain, LayoutStart, Describes, Drawn, OnPlan, NewOffset, OffsetIn;
    var start := LayoutStart(c.elf);
    var sized, stretches := SizeOutput(c.segs, regions, start, |data|);
    assert AllBalanced(c.segs, loads, regions, |c.segs|, first);
    RegionsAreDrawn(c, loads, regions, |data|, first, stretches);
    if sized.Refused? {
      RefusedBySize(|data|, c, stretches, sized.why);
      return Refused(sized.why);
    }
    var total := sized.value;
    SizedIsOnPlan(|data|, c, loads, regions, stretches, total);
    assert LaidOut(data, c, loads, regions, first, stretches, start, total);
    r := WriteLaidOut(data, c, loads, regions, first, stretches, total);
  }

  lemma {:induction false} RefusedBySize(length: nat, c: Container, stretches: seq<Stretch>, why: Refusal)
    requires Drawn(c, stretches)
    requires if Padding(c.segs, stretches, LayoutStart(c.elf)) > MAX_ALIGNMENT_PADDING then why == TooMuchPadding
             else OutputEnd(c.segs, stretches, LayoutStart(c.elf)) > OutputLimit(length) && why == TooLarge
    ensures Excused(length, c, why)
  {
    hide Drawn, Padding, OutputEnd, OutputLimit, LayoutStart;
    assert PadsTooMuch(c, stretches) || GrowsTooMuch(length, c, stretches);
  }

  lemma {:induction false} SizedIsOnPlan(length: nat, c: Container, loads: LoadRegions, regions: seq<Region>,
                                         stretches: seq<Stretch>, total: nat)
    requires Collected(c.segs, loads, regions, length) && Made(c.segs, loads, regions, Makers(c.segs))
    requires |stretches| == |regions| && forall i :: 0 <= i < |regions| ==> Describes(stretches[i], regions[i])
    requires Drawn(c, stretches) && Padding(c.segs, stretches, LayoutStart(c.elf)) <= MAX_ALIGNMENT_PADDING
    requires total == OutputEnd(c.segs, stretches, LayoutStart(c.elf)) <= OutputLimit(length)
    ensures OnPlan(length, c, loads, regions, stretches, total)
  {
    hide Collected, Made, Makers, Padding, OutputEnd, OutputLimit, LayoutStart, NewOffset, OffsetIn, Describes;
    forall h | 0 <= h < |c.segs| ensures |stretches| == |Makers(c.segs)|
        && NewOffset(c.segs, loads, regions, h) == OffsetIn(c.segs, stretches, h) {
      OffsetsAreDrawn(c, loads, regions, length, stretches, h);
    }
    assert Drawn(c, stretches) ==> |stretches| == |Makers(c.segs)|;
  }

  method WriteLaidOut(data: Bytes, c: Container, loads: LoadRegions, regions: seq<Region>,
                      ghost first: map<Region, Demand>, stretches: seq<Stretch>, total: nat)
    returns (r: Result<Unwrapped>)
    requires LaidOut(data, c, loads, regions, first, stretches, LayoutStart(c.elf), total)
        && LayoutStart(c.elf) <= total <= OutputLimit(|data|)
    requires OnPlan(|data|, c, loads, regions, stretches, total)
    requires |c.elf.header| == HEADER_SIZE
    ensures match r
            case Ok(u) =>
              && u.container == c && u.start == LayoutStart(c.elf) && |u.file| <= OutputLimit(|data|)
              && FollowsPlan(|data|, u)
              && Promised(data, u) && (HeaderFrom(data, c) ==> (ParsesAgain(u) <==> !PhdrEmptied(c)))
            case Refused(why) => Excused(|data|, c, why)
  {
    hide LaidOut, OnPlan, FollowsPlan, Promised, HeaderFrom, ParsesAgain, PhdrEmptied, LayoutStart, OutputLimit,
      Excused, Storable, NewOffset, EmittedEntry;
    var placed := EmitEntries(data, c, loads, regions, first, stretches, total);
    if placed.Refused? {
      return Refused(placed.why);
    }
    var (offsets, entries) := placed.value;
    var u := WriteFile(data, c, loads, regions, first, stretches, total, offsets, entries);
    FileFollowsPlan(data, c, loads, regions, stretches, total, u);
    r := Ok(u);
  }

  lemma {:induction false} FileFollowsPlan(data: Bytes, c: Container, loads: LoadRegions, regions: seq<Region>,
                                           stretches: seq<Stretch>, total: nat, u: Unwrapped)
    requires OnPlan(|data|, c, loads, regions, stretches, total) && Fits(|data|, c, stretches)
    requires u.container == c && u.start == LayoutStart(c.elf) && u.stretches == stretches && |u.file| == total
    requires |u.offsets| == |c.segs| && forall h ::
        0 <= h < |u.offsets| ==> u.offsets[h] == NewOffset(c.segs, loads, regions, h)
    requires TableStands(u)
    ensures FollowsPlan(|data|, u)
  {
    hide TableStands, Fits, Sized, NewOffset, OffsetIn, Makers, OutputEnd, LayoutStart;
  }

  method WriteFile(data: Bytes, c: Container, ghost loads: LoadRegions, ghost regions: seq<Region>,
                   ghost first: map<Region, Demand>, stretches: seq<Stretch>, total: nat, offsets: seq<nat>,
                   entries: seq<Entry>)
    returns (u: Unwrapped)
    requires LaidOut(data, c, loads, regions, first, stretches, LayoutStart(c.elf), total)
        && LayoutStart(c.elf) <= total
    requires |c.elf.header| == HEADER_SIZE && |offsets| == |c.segs| == |entries|
    requires forall h :: 0 <= h < |offsets| ==> offsets[h] == NewOffset(c.segs, loads, regions, h)
    requires forall h ::
        0 <= h < |entries| ==> entries[h] == EmittedEntry(c.segs[h], offsets[h]) && Storable(entries[h])
    ensures u.container == c && u.start == LayoutStart(c.elf) && |u.file| == total && Promised(data, u)
    ensures u.offsets == offsets && u.stretches == stretches && TableStands(u)
    ensures HeaderFrom(data, c) ==> (ParsesAgain(u) <==> !PhdrEmptied(c))
  {
    hide *;
    OriginsInside(data, c, loads, regions, first, stretches, LayoutStart(c.elf), total);
    LaidOutParts(data, c, loads, regions, first, stretches, total);
    TableFits(data, c, loads, regions, first, stretches, total);
    var table := if c.phdr.Some? then offsets[c.phdr.value] else c.elf.programOffset;
    var file, copied := CopyAndRewrite(data, stretches, LayoutStart(c.elf), total, c.elf.header, c.phdr, table,
        entries);
    u := Unwrapped(file, c, offsets, stretches, LayoutStart(c.elf), table);
    TableStandsThere(u);
    FileKeepsPromises(data, loads, regions, first, u, copied, entries);
  }

  lemma {:induction false} TableStandsThere(u: Unwrapped)
    requires u.container.phdr.Some? ==> u.container.phdr.value < |u.offsets|
    requires u.table == if u.container.phdr.Some? then u.offsets[u.container.phdr.value]
                        else u.container.elf.programOffset
    ensures TableStands(u)
  {
  }

  lemma {:induction false} LaidOutParts(data: Bytes, c: Container, loads: LoadRegions, regions: seq<Region>,
                                        first: map<Region, Demand>, stretches: seq<Stretch>, total: nat)
    requires LaidOut(data, c, loads, regions, first, stretches, LayoutStart(c.elf), total)
    ensures Laid(stretches, LayoutStart(c.elf)) && EndBefore(stretches, LayoutStart(c.elf), |stretches|) <= total
    ensures c.phdr.Some? ==> c.phdr.value < |c.segs|
    ensures HEADER_SIZE <= LayoutStart(c.elf)
  {
  }

  method CopyAndRewrite(data: Bytes, stretches: seq<Stretch>, ghost start: nat, total: nat,
                        header: Bytes, phdr: Option<nat>, table: nat, entries: seq<Entry>)
    returns (file: Bytes, ghost copied: Bytes)
    requires Laid(stretches, start) && EndBefore(stretches, start, |stretches|) <= total
    requires forall i ::
        0 <= i < |stretches| ==> 0 <= stretches[i].origin && stretches[i].origin + stretches[i].size <= |data|
    requires |header| == HEADER_SIZE <= total && table + |entries| * ENTRY_SIZE <= total
    ensures |copied| == total && forall i :: 0 <= i < |stretches| ==> Carries(copied, data, stretches[i])
    ensures forall p :: 0 <= p < total && Between(stretches, p) ==> copied[p] == 0
    ensures file == TableWritten(Splice(copied, 0, HeaderWritten(header, phdr, table)), table, entries, |entries|)
  {
    var result := CopyStretches(data, stretches, start, total);
    copied := result[..];
    WriteHeader(result, header, phdr, table);
    WriteTable(result, table, entries);
    file := result[..];
  }

  lemma {:induction false} FileKeepsPromises(data: Bytes, loads: LoadRegions, regions: seq<Region>,
                                             first: map<Region, Demand>, u: Unwrapped, copied: Bytes,
                                             entries: seq<Entry>)
    requires LaidOut(data, u.container, loads, regions, first, u.stretches, u.start, |u.file|)
    requires Rewritten(u, copied, entries) && u.start == LayoutStart(u.container.elf) <= |u.file|
    requires forall i :: 0 <= i < |u.stretches| ==> Carries(copied, data, u.stretches[i])
    requires forall p :: 0 <= p < |copied| && Between(u.stretches, p) ==> copied[p] == 0
    requires forall h :: 0 <= h < |u.offsets| ==> u.offsets[h] == NewOffset(u.container.segs, loads, regions, h)
    requires u.container.phdr.Some? ==> u.container.phdr.value < |u.offsets| == |u.container.segs|
    requires u.table == if u.container.phdr.Some? then
        u.offsets[u.container.phdr.value] else u.container.elf.programOffset
    ensures Promised(data, u)
    ensures HeaderFrom(data, u.container) ==> (ParsesAgain(u) <==> !PhdrEmptied(u.container))
  {
    if u.container.phdr.Some? { assert Storable(entries[u.container.phdr.value]); }
    LayoutKeepsPromises(data, loads, regions, first, u, copied, entries);
    if HeaderFrom(data, u.container) {
      TableFits(data, u.container, loads, regions, first, u.stretches, |u.file|);
      OutputParsesAgain(data, u, copied, entries);
    }
  }

  /** The offset of every segment, and the table entries that say so. */
  method EmitEntries(data: Bytes, c: Container, loads: LoadRegions, regions: seq<Region>,
                     ghost first: map<Region, Demand>, stretches: seq<Stretch>, total: nat)
    returns (r: Result<(seq<nat>, seq<Entry>)>)
    requires LaidOut(data, c, loads, regions, first, stretches, LayoutStart(c.elf), total)
    requires LayoutStart(c.elf) <= total <= OutputLimit(|data|)
    requires OnPlan(|data|, c, loads, regions, stretches, total)
    ensures match r
            case Ok((offsets, entries)) =>
              && |offsets| == |c.segs| == |entries| && Fits(|data|, c, stretches)
              && (forall h :: 0 <= h < |offsets| ==> offsets[h] == NewOffset(c.segs, loads, regions, h))
              && forall h ::
                  0 <= h < |entries| ==> entries[h] == EmittedEntry(c.segs[h], offsets[h]) && Storable(entries[h])
            case Refused(why) => Excused(|data|, c, why)
  {
    hide *;
    forall h | 0 <= h < |c.segs|
      ensures Reached(c, loads, regions, total, h) && c.segs[h].index == h && NewOffset(c.segs, loads, regions, h) >= 0
    {
      OffsetsReach(data, c, loads, regions, first, stretches, LayoutStart(c.elf), total, h);
      ReachedOffset(c, loads, regions, total, h);
    }
    var placed := PlaceInOutput(c.segs, loads, regions, total);
    if placed.Refused? {
      EscapesExcused(data, c, loads, regions, stretches, total, placed.why);
      return Refused(placed.why);
    }
    var offsets := placed.value;
    NoneEscaped(data, c, loads, regions, stretches, total, offsets);
    var entries := BuildEntries(c.segs, offsets);
    if entries.Refused? {
      UnpackableExcused(data, c, loads, regions, first, stretches, total, offsets);
      return Refused(entries.why);
    }
    EntriesFit(data, c, loads, regions, stretches, total, offsets);
    r := Ok((offsets, entries.value));
  }

  lemma {:induction false} EscapesExcused(data: Bytes, c: Container, loads: LoadRegions, regions: seq<Region>,
                                          stretches: seq<Stretch>, total: nat, why: Refusal)
    requires LayoutStart(c.elf) <= total && OnPlan(|data|, c, loads, regions, stretches, total)
    requires forall h :: 0 <= h < |c.segs| ==> Reached(c, loads, regions, total, h) && c.segs[h].index == h
    requires exists h: nat :: FirstPast(c.segs, loads, regions, total, h) && why == Escaped(c.segs[h].index)
    ensures Excused(|data|, c, why)
  {
    hide NewOffset, LayoutStart, OffsetIn, Makers, OutputEnd, Sized, TakesPart;
    var h: nat :| FirstPast(c.segs, loads, regions, total, h) && why == Escaped(c.segs[h].index);
    assert Reached(c, loads, regions, total, h);
    assert FirstEscapes(|data|, c, stretches, h);
  }

  lemma {:induction false} NoneEscaped(data: Bytes, c: Container, loads: LoadRegions, regions: seq<Region>,
                                       stretches: seq<Stretch>, total: nat, offsets: seq<int>)
    requires OnPlan(|data|, c, loads, regions, stretches, total)
    requires |offsets| == |c.segs| && forall h :: 0 <= h < |c.segs| ==>
               offsets[h] == NewOffset(c.segs, loads, regions, h)
                   && (TakesPart(c.segs[h]) ==> offsets[h] + c.segs[h].size <= total)
    ensures Sized(|data|, c, stretches) && |stretches| == |Makers(c.segs)|
    ensures NoneEscapes(c, stretches, |c.segs|)
    ensures forall h :: 0 <= h < |c.segs| ==> offsets[h] == OffsetIn(c.segs, stretches, h)
  {
    hide NewOffset, OffsetIn, Makers, OutputEnd, Sized, TakesPart;
  }

  lemma {:induction false} EntriesFit(data: Bytes, c: Container, loads: LoadRegions, regions: seq<Region>,
                                      stretches: seq<Stretch>, total: nat, offsets: seq<nat>)
    requires Sized(|data|, c, stretches) && |stretches| == |Makers(c.segs)|
    requires NoneEscapes(c, stretches, |c.segs|) && |offsets| == |c.segs|
    requires forall h :: 0 <= h < |c.segs| ==>
               offsets[h] == OffsetIn(c.segs, stretches, h) && Storable(EmittedEntry(c.segs[h], offsets[h]))
    ensures Fits(|data|, c, stretches)
  {
    hide NoneEscapes, OffsetIn, Makers, Sized, Storable;
  }

  lemma {:induction false} UnpackableExcused(data: Bytes, c: Container, loads: LoadRegions, regions: seq<Region>,
                                             first: map<Region, Demand>, stretches: seq<Stretch>, total: nat,
                                             offsets: seq<int>)
    requires LaidOut(data, c, loads, regions, first, stretches, LayoutStart(c.elf), total)
        && total <= OutputLimit(|data|)
    requires Sized(|data|, c, stretches) && |stretches| == |Makers(c.segs)| && NoneEscapes(c, stretches, |c.segs|)
    requires forall h :: 0 <= h < |c.segs| ==> Reached(c, loads, regions, total, h)
    requires |offsets| == |c.segs| && forall h :: 0 <= h < |c.segs| ==>
               offsets[h] == NewOffset(c.segs, loads, regions, h) == OffsetIn(c.segs, stretches, h) >= 0
                   && (TakesPart(c.segs[h]) ==> offsets[h] + c.segs[h].size <= total)
    requires exists h :: 0 <= h < |c.segs| && !Storable(EmittedEntry(c.segs[h], offsets[h]))
    ensures Excused(|data|, c, Unpackable)
  {
    hide NewOffset, LayoutStart, Collected, AllBalanced, Laid, WellPlaced, OffsetIn, Makers, NoneEscapes, Sized;
    var h :| 0 <= h < |c.segs| && !Storable(EmittedEntry(c.segs[h], offsets[h]));
    assert Storable(EmittedEntry(c.segs[h], 0)) && Reached(c, loads, regions, total, h);
    assert offsets[h] >= TWO_TO_64 && TakesPart(c.segs[h]);
    assert !Packs(c.segs[h], OffsetIn(c.segs, stretches, h));
    assert SomeDoesNotPack(|data|, c, stretches);
  }

  lemma {:induction false} OriginsInside(data: Bytes, c: Container, loads: LoadRegions, regions: seq<Region>,
                                         first: map<Region, Demand>, stretches: seq<Stretch>, start: nat, total: nat)
    requires LaidOut(data, c, loads, regions, first, stretches, start, total)
    ensures forall i ::
        0 <= i < |stretches| ==> 0 <= stretches[i].origin && stretches[i].origin + stretches[i].size <= |data|
  {
    forall i | 0 <= i < |stretches| ensures 0 <= stretches[i].origin && stretches[i].origin + stretches[i].size
        <= |data| {
      assert Describes(stretches[i], regions[i]) && regions[i] in regions;
    }
  }

  /**
    The container ends before its PT_PHDR would, stored with the other unaddressed segments after the last
    recorded one: this can be told from the headers and the records alone.
   */
  ghost predicate PhdrCutOff(data: Bytes, c: Container) {
    && |data| >= FIRST_REGION && c.phdr.Some? && c.phdr.value < |c.elf.entries|
    && CutOff(Segments(c.elf.entries), RecordsFrom(data, RECORD_OFFSET), |data|, c.phdr.value)
  }

  lemma {:induction false} EmptiedIsCutOff(data: Bytes, c: Container)
    requires Readable(data, c)
    ensures PhdrEmptied(c) <==> PhdrCutOff(data, c)
  {
    hide Parsed, Placed, CutOff;
    if c.phdr.Some? {
      EmptiedIffCutOff(Segments(c.elf.entries), RecordsFrom(data, RECORD_OFFSET), |data|, c.phdr.value);
    }
  }
}
