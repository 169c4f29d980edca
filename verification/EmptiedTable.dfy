/**
  A container that is accepted although its PT_PHDR loses its bytes, so that its output does not parse. The first
  header's type is the magic of the container, so the header table can double as the start of the file; the second
  header is a PT_NULL whose fields double as the only segment record.
 */
module EmptiedTable {
  import opened Options
  import opened ElfFormat
  import opened ElfSample
  import opened SegmentPlacement
  import opened Alignment
  import opened OutputPlan
  import opened OutputRegions
  import opened UnwrapSelf
  import opened UnwrapOutcome

  const LENGTH := 1024
  const INNER := 512
  const TABLE_AT := 576
  const TABLE_SIZE := 224

  function Stored(k: nat): Entry
    requires k < 4
  {
    if k == 0 then Entry(SELF_MAGIC, 0, 0, 0, 0, 176, 176, 0)
    else if k == 1 then Entry(PT_NULL, 0, RECORD_HAS_SEGMENT, 848, 176, 176, 0, 0)
    else if k == 2 then Entry(PT_PHDR, 0, 1, 0, 0, TABLE_SIZE, TABLE_SIZE, 0)
    else Entry(PT_LOAD, 0, 0, 0, 0, 1, 1, 0)
  }

  function AllStored(): (r: seq<Entry>)
    ensures |r| == 4 && forall k :: 0 <= k < 4 ==> r[k] == Stored(k)
  {
    [Stored(0), Stored(1), Stored(2), Stored(3)]
  }

  function TableBytes(): (r: Bytes)
    ensures |r| == TABLE_SIZE
  {
    Encode(Stored(0)) + Encode(Stored(1)) + Encode(Stored(2)) + Encode(Stored(3))
  }

  /** The container, and the layout of its bytes that matters. */
  function Witness(): (r: Bytes)
    ensures |r| == LENGTH
  {
    TableBytes() + Zeros(288) + Header(4) + TableBytes() + Zeros(224)
  }

  ghost predicate CutShort(data: Bytes) {
    && |data| == LENGTH && data[0..TABLE_SIZE] == TableBytes() && data[TABLE_AT..TABLE_AT + TABLE_SIZE] == TableBytes()
    && data[INNER..INNER + HEADER_SIZE] == Header(4) && Plain(data[..INNER])
  }

  // ----- no byte of an ELF magic in the first half

  predicate Plain(s: Bytes) { forall i :: 0 <= i < |s| ==> s[i] != ELF_MAGIC[0] }

  lemma {:induction false} PlainZero(k: nat)
    ensures Plain(Le(0, k))
  {
    if k > 0 { PlainZero(k - 1); }
  }

  lemma {:induction false} PlainLe(n: nat, k: nat)
    requires k > 0 && n % 256 != ELF_MAGIC[0] && Plain(Le(n / 256, k - 1))
    ensures Plain(Le(n, k))
  {
  }

  lemma {:induction false} PlainSmall(n: nat, k: nat)
    requires k > 0 && n < 256 && n != ELF_MAGIC[0]
    ensures Plain(Le(n, k))
  {
    PlainZero(k - 1);
    PlainLe(n, k);
  }

  lemma {:induction false} PlainPair(high: nat, low: nat, k: nat)
    requires k > 1 && high < 256 && low < 256 && high != ELF_MAGIC[0] && low != ELF_MAGIC[0]
    ensures Plain(Le(256 * high + low, k))
  {
    PlainSmall(high, k - 1);
    PlainLe(256 * high + low, k);
  }

  lemma {:induction false} PlainMagic()
    ensures Plain(Le(SELF_MAGIC, 4))
  {
    PlainPair(0x1D, 0x3D, 2);
    PlainLe(0x1D3D15, 3);
    PlainLe(SELF_MAGIC, 4);
  }

  lemma {:induction false} PlainEntry(e: Entry)
    requires Plain(Le(e.kind, 4)) && Plain(Le(e.flags, 4)) && Plain(Le(e.offset, 8)) && Plain(Le(e.vaddr, 8))
    requires Plain(Le(e.paddr, 8)) && Plain(Le(e.size, 8)) && Plain(Le(e.memory, 8)) && Plain(Le(e.align, 8))
    ensures Plain(Encode(e))
  {
    hide Le;
  }

  lemma {:induction false} PlainTable()
    ensures Plain(TableBytes())
  {
    hide Le, Encode, Plain;
    PlainZero(4);
    PlainZero(8);
    PlainMagic();
    PlainSmall(176, 8);
    PlainEntry(Stored(0));
    PlainPair(8, 0, 8);
    PlainPair(3, 80, 8);
    PlainEntry(Stored(1));
    PlainSmall(6, 4);
    PlainSmall(1, 8);
    PlainSmall(1, 4);
    PlainSmall(TABLE_SIZE, 8);
    PlainEntry(Stored(2));
    PlainEntry(Stored(3));
    PlainFour(Encode(Stored(0)), Encode(Stored(1)), Encode(Stored(2)), Encode(Stored(3)));
  }

  lemma {:induction false} PlainFour(a: Bytes, b: Bytes, c: Bytes, d: Bytes)
    requires Plain(a) && Plain(b) && Plain(c) && Plain(d)
    ensures Plain(a + b + c + d)
  {
  }

  lemma {:induction false} FindsFirst(data: Bytes, from: nat, to: nat)
    requires from <= to && to + 4 <= |data| && data[to..to + 4] == ELF_MAGIC
    requires forall i :: from <= i < to ==> data[i] != ELF_MAGIC[0]
    ensures FindMagic(data, from) == to
    decreases |data| - from
  {
    if from < to {
      assert data[from..from + 4][0] == data[from];
      FindsFirst(data, from + 1, to);
    }
  }

  // ----- the table

  lemma {:induction false} FourParts(a: Bytes, b: Bytes, c: Bytes, d: Bytes)
    requires |a| == |b| == |c| == |d| == ENTRY_SIZE
    ensures var s := a + b + c + d; s[0..56] == a && s[56..112] == b && s[112..168] == c && s[168..224] == d
  {
  }

  lemma {:induction false} StoredFits(k: nat)
    requires k < 4
    ensures Storable(Stored(k)) && CheckEntry(Stored(k), k).Ok?
  {
  }

  /** The stored headers read back from wherever the table is. */
  lemma {:induction false} EntryReadsBack(data: Bytes, at: nat, k: nat)
    requires at + TABLE_SIZE <= |data| && data[at..at + TABLE_SIZE] == TableBytes() && k < 4
    ensures data[at + k * ENTRY_SIZE..at + k * ENTRY_SIZE + ENTRY_SIZE] == Encode(Stored(k))
    ensures Decode(data, at + k * ENTRY_SIZE) == Stored(k)
  {
    hide Encode, Decode, Stored, Storable;
    FourParts(Encode(Stored(0)), Encode(Stored(1)), Encode(Stored(2)), Encode(Stored(3)));
    PartOf(data, at, TableBytes(), k * ENTRY_SIZE, k * ENTRY_SIZE + ENTRY_SIZE);
    StoredFits(k);
    EntryRoundTrip(data, at + k * ENTRY_SIZE, Stored(k));
  }

  lemma {:induction false} TableReadsBack(data: Bytes, at: nat)
    requires at + TABLE_SIZE <= |data| && data[at..at + TABLE_SIZE] == TableBytes()
    ensures Entries(data, at, 4) == Ok(AllStored())
  {
    hide Decode, CheckEntry, TableBytes, Stored, Entries;
    forall i | 0 <= i < 4 ensures Decode(data, at + i * ENTRY_SIZE) == AllStored()[i]
        && CheckEntry(AllStored()[i], i).Ok? {
      EntryReadsBack(data, at, i);
      StoredFits(i);
    }
    EntriesAccepted(data, at, 4, AllStored());
  }

  // ----- the header and the table together

  /** The container parses to the stored headers. */
  lemma {:induction false} WitnessParses(data: Bytes)
    requires CutShort(data)
    ensures Parsed(data) == Ok(Elf(INNER, Header(4), HEADER_SIZE, AllStored()))
  {
    hide Header, TableBytes, AllStored, Field, Entries;
    HeaderFields(4);
    PartOf(data, INNER, Header(4), 0, 4);
    forall i | 0 <= i < INNER ensures data[i] != ELF_MAGIC[0] {
      assert data[..INNER][i] == data[i];
    }
    FindsFirst(data, 0, INNER);
    TableReadsBack(data, TABLE_AT);
  }

  // ----- the records

  /** The second header is the only record: the third would-be size is not said twice. */
  lemma {:induction false} WitnessRecords(data: Bytes)
    requires CutShort(data)
    ensures RecordsFrom(data, RECORD_OFFSET) == [Record(RECORD_HAS_SEGMENT, 848, 176)]
  {
    hide Field, TableBytes, Plain;
    EntryReadsBack(data, 0, 1);
    FieldsOf(data, 56, Stored(1));
    assert RecordsFrom(data, RECORD_OFFSET + RECORD_SIZE) == [];
  }

  lemma {:induction false} FieldsOf(data: Bytes, at: nat, e: Entry)
    requires at + ENTRY_SIZE <= |data| && Decode(data, at) == e
    ensures Field(data, at, 4) == e.kind && Field(data, at + 8, 8) == e.offset && Field(data, at + 16, 8) == e.vaddr
    ensures Field(data, at + 24, 8) == e.paddr && Field(data, at + 32, 8) == e.size
        && Field(data, at + 48, 8) == e.align
  {
    hide Field;
  }

  // ----- the placement

  function At(k: nat, source: int): Segment
    requires k < 4
  {
    Nulled(FromEntry(Stored(k), k)).(source := source)
  }

  /** PT_PHDR without bytes, in the load at address 0. */
  function Cut(): Segment { At(2, 0).(size := 0) }

  lemma {:induction false} WitnessNulled()
    ensures NullAll(Segments(AllStored())) == [At(0, 0), At(1, 0), At(2, 1), At(3, 0)]
  {
    var segs := NullAll(Segments(AllStored()));
    assert segs[0] == At(0, 0) && segs[1] == At(1, 0) && segs[2] == At(2, 1) && segs[3] == At(3, 0);
  }

  lemma {:induction false} WitnessRecorded(segs: seq<Segment>, records: seq<Record>)
    requires segs == [At(0, 0), At(1, 0), At(2, 1), At(3, 0)] && records == [Record(RECORD_HAS_SEGMENT, 848, 176)]
    ensures RecordPass(segs, records, 1)
        == Matching([At(0, 848), At(1, 0), At(2, 1), At(3, 0)], {0}, {0}, [Feeding(0, 0)])
  {
    var m := RecordPass(segs, records, 0);
    assert m == Matching(segs, {}, {}, []);
    assert HasSegment(RECORD_HAS_SEGMENT) && Feeds(m, records[0]);
    assert segs[0 := At(0, 848)] == [At(0, 848), At(1, 0), At(2, 1), At(3, 0)];
  }

  lemma {:induction false} WitnessTrailing(segs: seq<Segment>)
    requires segs == [At(0, 848), At(1, 0), At(2, 1), At(3, 0)]
    ensures LastRecorded(segs, {0}, 4) == Some(0) && Trailing(segs, {0}, 0) == [Ranked(1, 2)]
  {
    assert LastRecorded(segs, {0}, 0) == None;
    assert LastRecorded(segs, {0}, 1) == LastRecorded(segs, {0}, 2) == LastRecorded(segs, {0}, 3) == Some(0);
    assert TrailingIn(segs, {0}, 0, 0) == TrailingIn(segs, {0}, 0, 1) == TrailingIn(segs, {0}, 0, 2) == [];
    assert TrailingIn(segs, {0}, 0, 3) == [Ranked(1, 2)] == TrailingIn(segs, {0}, 0, 4);
  }

  lemma {:induction false} WitnessStored(segs: seq<Segment>)
    requires segs == [At(0, 848), At(1, 0), At(2, 1), At(3, 0)]
    ensures TrailingPass(Matching(segs, {0}, {0}, [Feeding(0, 0)]), LENGTH)
            == Matching([At(0, 848), At(1, 0), Cut(), At(3, 0)], {0, 2}, {0}, [Feeding(0, 0)])
  {
    hide LastRecorded, Trailing, TrailPass;
    WitnessTrailing(segs);
    var m, order := Matching(segs, {0}, {0}, [Feeding(0, 0)]), [Ranked(1, 2)];
    TrailPassNext(m, LENGTH, order, 0, LENGTH);
    TrailPassNext(m, LENGTH, order, 1, LENGTH);
    assert segs[2 := Cut()] == [At(0, 848), At(1, 0), Cut(), At(3, 0)];
  }

  lemma {:induction false} WitnessFed(m: Matching, records: seq<Record>)
    requires m == Matching([At(0, 848), At(1, 0), Cut(), At(3, 0)], {0, 2}, {0}, [Feeding(0, 0)])
    requires records == [Record(RECORD_HAS_SEGMENT, 848, 176)]
    ensures LoadPass(m, records, 4) == m
  {
    assert FirstUnused(records, m.used, 1, 1) == None == FirstUnused(records, m.used, 1, 0);
    assert LoadPass(m, records, 0) == LoadPass(m, records, 1) == LoadPass(m, records, 2) == LoadPass(m, records, 3)
        == m;
  }

  lemma {:induction false} WitnessHosted(segs: seq<Segment>)
    requires segs == [At(0, 848), At(1, 0), Cut(), At(3, 0)]
    ensures HostPass(segs, {0, 2}, 4, LENGTH) == Ok((segs[2 := Cut().(host := Some(3))], Some(Tail(0, 848))))
  {
    var tail, cut := Some(Tail(0, 848)), Cut().(host := Some(3));
    assert LoadFor(segs, 0, 176, 4) == Some(3) == LoadFor(segs, 0, 0, 4);
    assert HostPass(segs, {0, 2}, 0, LENGTH) == Ok((segs, None));
    assert HostStep(segs, {0, 2}, 0, None, LENGTH) == Ok((segs[0], tail)) && segs[0 := segs[0]] == segs;
    assert HostPass(segs, {0, 2}, 1, LENGTH) == Ok((segs, tail));
    assert HostStep(segs, {0, 2}, 1, tail, LENGTH) == Ok((segs[1], tail)) && segs[1 := segs[1]] == segs;
    assert HostPass(segs, {0, 2}, 2, LENGTH) == Ok((segs, tail));
    assert HostStep(segs, {0, 2}, 2, tail, LENGTH) == Ok((cut, tail));
    var hosted := segs[2 := cut];
    assert HostPass(segs, {0, 2}, 3, LENGTH) == Ok((hosted, tail));
    assert HostStep(hosted, {0, 2}, 3, tail, LENGTH) == Ok((hosted[3], tail)) && hosted[3 := hosted[3]] == hosted;
  }

  function PlacedSegments(): (r: seq<Segment>)
    ensures |r| == 4
  {
    [At(0, 848), At(1, 0), Cut().(host := Some(3)), At(3, 0)]
  }

  lemma {:induction false} WitnessPlaced(records: seq<Record>)
    requires records == [Record(RECORD_HAS_SEGMENT, 848, 176)]
    ensures Placed(Segments(AllStored()), records, LENGTH) == Ok(PlacedSegments())
  {
    hide RecordPass, TrailingPass, LoadPass, HostPass, NullAll, At, Cut, Segments, AllStored;
    WitnessNulled();
    WitnessRecorded([At(0, 0), At(1, 0), At(2, 1), At(3, 0)], records);
    WitnessStored([At(0, 848), At(1, 0), At(2, 1), At(3, 0)]);
    WitnessFed(Matching([At(0, 848), At(1, 0), Cut(), At(3, 0)], {0, 2}, {0}, [Feeding(0, 0)]), records);
    var segs := [At(0, 848), At(1, 0), Cut(), At(3, 0)];
    WitnessHosted(segs);
    assert segs[2 := Cut().(host := Some(3))] == PlacedSegments();
    WitnessInside();
  }

  lemma {:induction false} WitnessInside()
    ensures FirstOutside(PlacedSegments(), LENGTH, 0) == None
  {
  }

  // ----- the container is read

  lemma {:induction false} WitnessPhdr()
    ensures PhdrOf(AllStored()) == Ok(Some(2))
  {
    hide AllStored;
    var entries := AllStored();
    assert PhdrsAmong(entries, 0) == PhdrsAmong(entries, 1) == PhdrsAmong(entries, 2) == [];
    assert PhdrsAmong(entries, 3) == [2] == PhdrsAmong(entries, 4);
  }

  lemma {:induction false} WitnessIsCutShort()
    ensures CutShort(Witness())
  {
    hide TableBytes, Header, Plain;
    WitnessParts(TableBytes(), Header(4));
    PlainTable();
    PlainStart(TableBytes(), Zeros(288), Witness());
  }

  lemma {:induction false} PlainStart(a: Bytes, b: Bytes, data: Bytes)
    requires Plain(a) && (forall i :: 0 <= i < |b| ==> b[i] == 0) && |a| + |b| == INNER <= |data|
        && data[..INNER] == a + b
    ensures Plain(data[..INNER])
  {
  }

  lemma {:induction false} WitnessParts(table: Bytes, header: Bytes)
    requires |table| == TABLE_SIZE && |header| == HEADER_SIZE
    ensures var data := table + Zeros(288) + header + table + Zeros(224);
            && |data| == LENGTH && data[0..TABLE_SIZE] == table && data[TABLE_AT..TABLE_AT + TABLE_SIZE] == table
            && data[INNER..INNER + HEADER_SIZE] == header && data[..INNER] == table + Zeros(288)
  {
  }

  /**
    Such a container is accepted, unless its load counts as encrypted: PT_PHDR maps the table and is hosted, but
    it follows the last recorded segment, runs past the end of the container, and is left without bytes.
   */
  lemma {:induction false} PhdrCanBeCutShort(encrypted: (Bytes, seq<Segment>) -> bool)
    requires !encrypted(Witness(), PlacedSegments())
    ensures var r := Read(Witness(), encrypted);
            && r == Ok(Container(Elf(INNER, Header(4), HEADER_SIZE, AllStored()), Some(2), PlacedSegments()))
            && PhdrEmptied(r.value) && PhdrCutOff(Witness(), r.value)
  {
    hide *;
    ReadOfWitness(encrypted);
    ReadIsReadable(Witness(), encrypted);
    CutIsEmptied();
    EmptiedIsCutOff(Witness(), Read(Witness(), encrypted).value);
  }

  lemma {:induction false} CutIsEmptied()
    ensures PhdrEmptied(Container(Elf(INNER, Header(4), HEADER_SIZE, AllStored()), Some(2), PlacedSegments()))
  {
    hide Header, AllStored;
  }

  lemma {:induction false} ReadOfWitness(encrypted: (Bytes, seq<Segment>) -> bool)
    requires !encrypted(Witness(), PlacedSegments())
    ensures Read(Witness(), encrypted)
        == Ok(Container(Elf(INNER, Header(4), HEADER_SIZE, AllStored()), Some(2), PlacedSegments()))
  {
    hide CutShort, Witness, Header, AllStored, Placed, PhdrOf, Parsed, RecordsFrom, MapsTable, Field;
    var data := Witness();
    WitnessIsCutShort();
    WitnessParses(data);
    WitnessPhdr();
    WitnessRecords(data);
    WitnessPlaced(RecordsFrom(data, RECORD_OFFSET));
    WitnessStarts(data);
  }

  lemma {:induction false} WitnessStarts(data: Bytes)
    requires CutShort(data)
    ensures |data| == LENGTH && Field(data, 0, 4) == SELF_MAGIC
    ensures MapsTable(data, Elf(INNER, Header(4), HEADER_SIZE, AllStored()), PlacedSegments()[2])
  {
    hide Field, Header, AllStored, TableBytes;
    EntryReadsBack(data, 0, 0);
    FieldsOf(data, 0, Stored(0));
  }

  // ----- the container is laid out

  function TheContainer(): Container {
    Container(Elf(INNER, Header(4), HEADER_SIZE, AllStored()), Some(2), PlacedSegments())
  }

  /** The load's byte and the recorded segment, one after the other. */
  function TheStretches(): seq<Stretch> {
    [Stretch(0, 1, Demand(0, 0), FIRST_REGION), Stretch(848, 176, Demand(0, 0), FIRST_REGION + 1)]
  }

  lemma {:induction false} PlacedAre(segs: seq<Segment>)
    requires segs == PlacedSegments()
    ensures segs[0].kind == SELF_MAGIC && segs[0].source == 848 && segs[0].size == 176 && segs[0].host == None
    ensures segs[1].kind == PT_NULL && segs[1].source == 0 && segs[1].size == 0
    ensures segs[2].kind == PT_PHDR && segs[2].source == 0 && segs[2].size == 0
    ensures segs[3].kind == PT_LOAD && segs[3].source == 0 && segs[3].size == 1
    ensures forall h :: 0 <= h < 4 ==> segs[h].align == 0 && Storable(EmittedEntry(segs[h], 0))
  {
  }

  lemma {:induction false} WitnessMakersAfter(segs: seq<Segment>)
    requires segs == PlacedSegments()
    ensures MakersAfter(segs, 4) == [3, 0]
  {
    hide PlacedSegments, At, Cut;
    PlacedAre(segs);
    assert LoadMakers(segs, 0) == LoadMakers(segs, 1) == LoadMakers(segs, 2) == LoadMakers(segs, 3) == [];
    assert LoadMakers(segs, 4) == [3] == MakersAfter(segs, 0);
    assert FirstHolding(segs, [3], segs[0], 1) == None;
    assert MakersAfter(segs, 1) == [3] + [0] == [3, 0];
    assert MakersAfter(segs, 2) == MakersAfter(segs, 3) == [3, 0];
  }

  lemma {:induction false} InOrder(keys: seq<int>)
    requires keys == [0, 848]
    ensures Order(keys) == [Ranked(0, 0), Ranked(848, 1)]
  {
    var numbered := seq(|keys|, i requires 0 <= i < |keys| => Ranked(keys[i], i));
    assert numbered == [Ranked(0, 0), Ranked(848, 1)];
    assert numbered[1..] == [Ranked(848, 1)] && numbered[1..][1..] == [];
  }

  lemma {:induction false} WitnessMakers(segs: seq<Segment>)
    requires segs == PlacedSegments()
    ensures Makers(segs) == [3, 0]
    ensures Home(segs, Makers(segs), 3) == Some(0) && Home(segs, Makers(segs), 0) == Some(1)
  {
    hide PlacedSegments, At, Cut, MakersAfter, Order;
    PlacedAre(segs);
    WitnessMakersAfter(segs);
    assert Sources(segs, [3, 0]) == [0, 848];
    InOrder([0, 848]);
    assert Makers(segs) == [3, 0];
    assert FirstHolding(segs, [3, 0], segs[0], 1) == Some(1);
  }

  lemma {:induction false} NoDemand(x: int, d: Demand)
    requires d.align == 0
    ensures Meets(x, d) && Next(x, d) == x
  {
  }

  lemma {:induction false} WitnessDrawn()
    ensures Drawn(TheContainer(), TheStretches())
  {
    hide Header, AllStored, PlacedSegments, Makers, Home, Meets, Next;
    var segs, stretches := PlacedSegments(), TheStretches();
    PlacedAre(segs);
    WitnessMakers(segs);
    forall x: int, h: nat | h < 4 ensures Meets(x, DemandFrom(0, segs[h])) && Meets(x, DemandFrom(848, segs[h]))
        && Meets(x, Demand(0, 0)) && Next(x, Demand(0, 0)) == x {
      NoDemand(x, DemandFrom(0, segs[h]));
      NoDemand(x, DemandFrom(848, segs[h]));
      NoDemand(x, Demand(0, 0));
    }
    assert StretchOf(segs, 0, stretches[0]) && StretchOf(segs, 1, stretches[1]);
    assert StartsWhereWanted(stretches, FIRST_REGION, 0) && StartsWhereWanted(stretches, FIRST_REGION, 1);
  }

  lemma {:induction false} WitnessSize()
    ensures OutputEnd(PlacedSegments(), TheStretches(), FIRST_REGION) == FIRST_REGION + 177
    ensures Padding(PlacedSegments(), TheStretches(), FIRST_REGION) == 0
  {
    hide PlacedSegments, At, Cut;
    var segs, stretches := PlacedSegments(), TheStretches();
    PlacedAre(segs);
    var end := FIRST_REGION + 177;
    assert EndFor(segs, end, 0) == end == EndFor(segs, end, 1);
    assert EndFor(segs, end, 2) == end == EndFor(segs, end, 3);
    var first := [stretches[0]];
    assert stretches[..1] == first && first[..0] == [];
    assert TotalSize(first) == 1;
  }

  lemma {:induction false} WitnessFits()
    ensures Fits(LENGTH, TheContainer(), TheStretches())
  {
    hide Header, AllStored, PlacedSegments, Makers, Home, Drawn, OutputEnd, Padding, Storable, EmittedEntry;
    var segs, stretches := PlacedSegments(), TheStretches();
    PlacedAre(segs);
    WitnessMakers(segs);
    WitnessDrawn();
    WitnessSize();
    forall h | 0 <= h < 4
      ensures !Escapes(TheContainer(), stretches, h) && Packs(segs[h], OffsetIn(segs, stretches, h))
    {
      WitnessPacks(segs[h], OffsetIn(segs, stretches, h));
    }
  }

  lemma {:induction false} WitnessPacks(s: Segment, offset: int)
    requires Storable(EmittedEntry(s, 0)) && 0 <= offset < TWO_TO_64
    ensures Packs(s, offset)
  {
  }

  /** The output of such a container is written, and does not parse. */
  method UnwrapWitness(encrypted: (Bytes, seq<Segment>) -> bool) returns (r: Result<Unwrapped>)
    requires !encrypted(Witness(), PlacedSegments())
    ensures r.Ok? && r.value.container == TheContainer() && Promised(Witness(), r.value)
    ensures forall elf :: !ReadsAs(r.value, elf)
  {
    hide *;
    ContainerIs();
    PhdrCanBeCutShort(encrypted);
    WitnessFits();
    WitnessAccepted();
    ghost var makers, places;
    r, makers, places := Unwrap(Witness(), encrypted);
  }

  lemma {:induction false} ContainerIs()
    ensures TheContainer() == Container(Elf(INNER, Header(4), HEADER_SIZE, AllStored()), Some(2), PlacedSegments())
    ensures |Witness()| == LENGTH
  {
  }

  lemma {:induction false} WitnessAccepted()
    requires Fits(LENGTH, TheContainer(), TheStretches())
    ensures Accepted(LENGTH, TheContainer())
  {
  }
}
