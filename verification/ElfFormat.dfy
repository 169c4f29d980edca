/**
  The bytes a SELF container and an ELF file are made of: little-endian fields, the ELF64 header, the
  program header table and the container's segment records.
 */
module ElfFormat {

  type Byte = x: nat | x < 256
  type Bytes = seq<Byte>

  const ELF_MAGIC: Bytes := [0x7F, 0x45, 0x4C, 0x46]
  const HEADER_SIZE := 0x40
  const ENTRY_SIZE := 56
  const RECORD_OFFSET := 0x40
  const RECORD_SIZE := 0x20
  const FIRST_REGION := 0x400
  const RECORD_HAS_SEGMENT := 0x800
  const RECORD_SEGMENT_SCALE := 0x10_0000
  const PT_NULL := 0
  const PT_LOAD := 1
  const PT_DYNAMIC := 2
  const PT_NOTE := 4
  const PT_PHDR := 6
  const PT_TLS := 7
  const TWO_TO_64 := 0x1_0000_0000_0000_0000

  // ----- little-endian fields

  function Le(n: nat, k: nat): (r: Bytes)
    ensures |r| == k
  {
    if k == 0 then [] else [n % 256] + Le(n / 256, k - 1)
  }

  function Value(s: Bytes): nat {
    if s == [] then 0 else s[0] + 256 * Value(s[1..])
  }

  function Pow256(k: nat): nat {
    if k == 0 then 1 else 256 * Pow256(k - 1)
  }

  /** Writing a number into k bytes and reading it back gives the number, as far as k bytes can hold it. */
  lemma {:induction false} FieldRoundTrip(n: nat, k: nat)
    requires n < Pow256(k)
    ensures Value(Le(n, k)) == n
  {
    if k > 0 {
      FieldRoundTrip(n / 256, k - 1);
      assert Le(n, k)[1..] == Le(n / 256, k - 1);
    }
  }

  lemma {:induction false} ValueBound(s: Bytes)
    ensures Value(s) < Pow256(|s|)
  {
    if s != [] { ValueBound(s[1..]); }
  }

  lemma {:induction false} Widths()
    ensures Pow256(2) == 0x1_0000 && Pow256(4) == 0x1_0000_0000 && Pow256(8) == TWO_TO_64
  {
  }

  /** The k-byte field at an offset. */
  function Field(data: Bytes, offset: nat, k: nat): nat
    requires offset + k <= |data|
  {
    Value(data[offset..offset + k])
  }

  // ----- program headers

  /** One ELF64 program header, as stored. */
  datatype Entry = Entry(kind: nat, flags: nat, offset: nat, vaddr: nat, paddr: nat, size: nat, memory: nat, align: nat)

  predicate Storable(e: Entry) {
    && e.kind < 0x1_0000_0000 && e.flags < 0x1_0000_0000 && e.offset < TWO_TO_64 && e.vaddr < TWO_TO_64
    && e.paddr < TWO_TO_64 && e.size < TWO_TO_64 && e.memory < TWO_TO_64 && e.align < TWO_TO_64
  }

  function Encode(e: Entry): (r: Bytes)
    ensures |r| == ENTRY_SIZE
  {
    Le(e.kind, 4) + Le(e.flags, 4) + Le(e.offset, 8) + Le(e.vaddr, 8) + Le(e.paddr, 8) + Le(e.size, 8)
        + Le(e.memory, 8) + Le(e.align, 8)
  }

  function Decode(data: Bytes, at: nat): Entry
    requires at + ENTRY_SIZE <= |data|
  {
    Entry(Field(data, at, 4), Field(data, at + 4, 4), Field(data, at + 8, 8), Field(data, at + 16, 8),
        Field(data, at + 24, 8),
          Field(data, at + 32, 8), Field(data, at + 40, 8), Field(data, at + 48, 8))
  }

  lemma {:induction false} FieldIn(data: Bytes, at: nat, s: Bytes, o: nat, k: nat, n: nat)
    requires at + |s| <= |data| && data[at..at + |s|] == s
    requires o + k <= |s| && s[o..o + k] == Le(n, k) && n < Pow256(k)
    ensures Field(data, at + o, k) == n
  {
    var whole, part := data[at..at + |s|], data[at + o..at + o + k];
    forall i | 0 <= i < k ensures part[i] == whole[o..o + k][i] {
      assert part[i] == data[at + o + i] == whole[o + i];
    }
    assert part == whole[o..o + k];
    FieldRoundTrip(n, k);
  }

  lemma {:induction false} EncodedFields(e: Entry)
    ensures var s := Encode(e);
            && s[0..4] == Le(e.kind, 4) && s[4..8] == Le(e.flags, 4) && s[8..16] == Le(e.offset, 8)
                && s[16..24] == Le(e.vaddr, 8)
            && s[24..32] == Le(e.paddr, 8) && s[32..40] == Le(e.size, 8) && s[40..48] == Le(e.memory, 8)
                && s[48..56] == Le(e.align, 8)
  {
    var head := Le(e.kind, 4) + Le(e.flags, 4) + Le(e.offset, 8) + Le(e.vaddr, 8);
    var s := Encode(e);
    assert s == head + (Le(e.paddr, 8) + Le(e.size, 8) + Le(e.memory, 8) + Le(e.align, 8));
  }

  lemma {:induction false} FirstFields(data: Bytes, at: nat, e: Entry)
    requires at + ENTRY_SIZE <= |data| && data[at..at + ENTRY_SIZE] == Encode(e) && Storable(e)
    ensures Field(data, at, 4) == e.kind && Field(data, at + 4, 4) == e.flags
    ensures Field(data, at + 8, 8) == e.offset && Field(data, at + 16, 8) == e.vaddr
  {
    Widths();
    EncodedFields(e);
    FieldIn(data, at, Encode(e), 0, 4, e.kind);
    FieldIn(data, at, Encode(e), 4, 4, e.flags);
    FieldIn(data, at, Encode(e), 8, 8, e.offset);
    FieldIn(data, at, Encode(e), 16, 8, e.vaddr);
  }

  lemma {:induction false} LastFields(data: Bytes, at: nat, e: Entry)
    requires at + ENTRY_SIZE <= |data| && data[at..at + ENTRY_SIZE] == Encode(e) && Storable(e)
    ensures Field(data, at + 24, 8) == e.paddr && Field(data, at + 32, 8) == e.size
    ensures Field(data, at + 40, 8) == e.memory && Field(data, at + 48, 8) == e.align
  {
    Widths();
    EncodedFields(e);
    FieldIn(data, at, Encode(e), 24, 8, e.paddr);
    FieldIn(data, at, Encode(e), 32, 8, e.size);
    FieldIn(data, at, Encode(e), 40, 8, e.memory);
    FieldIn(data, at, Encode(e), 48, 8, e.align);
  }

  /** An entry that is written reads back. */
  lemma {:induction false} EntryRoundTrip(data: Bytes, at: nat, e: Entry)
    requires at + ENTRY_SIZE <= |data| && data[at..at + ENTRY_SIZE] == Encode(e) && Storable(e)
    ensures Decode(data, at) == e
  {
    FirstFields(data, at, e);
    LastFields(data, at, e);
  }

  // ----- refusals

  datatype Refusal =
    | NoElfHeader | HeaderTruncated | NotElf64LittleEndian | BadVersion | BadMachine | BadHeaderSize | BadTable
    | TableOverlapsHeader | TableOutsideFile
    | AlignmentNotPowerOfTwo(segment: nat) | FileExceedsMemory(segment: nat) | TlsAlignment(segment: nat)
    | TlsMemory(segment: nat) | RangeExceedsElf64(segment: nat)
    | InNoLoad(segment: nat) | NotFileBacked(segment: nat) | OutsideFile(segment: nat)
    | TooSmall | NotSelf | SecondPhdr | PhdrTooSmall | PhdrAfterLoad | PhdrNotHosted | PhdrMapsOtherBytes | Encrypted
    | IncompatibleAlignment(segment: nat) | TooMuchPadding | TooLarge | Escaped(segment: nat) | Unpackable

  datatype Result<+T> = Ok(value: T) | Refused(why: Refusal)

  // ----- powers of two

  /** What `a & (a - 1) == 0` says of a positive a. */
  predicate PowerOfTwo(a: nat) {
    a == 1 || (a > 1 && a % 2 == 0 && PowerOfTwo(a / 2))
  }

  // ----- parsing

  /** The position of the first ELF magic at or after `from`, or -1. */
  function FindMagic(data: Bytes, from: nat): (r: int)
    ensures r == -1 || (from <= r && r + 4 <= |data| && data[r..r + 4] == ELF_MAGIC)
    decreases |data| - from
  {
    if from + 4 > |data| then -1
    else if data[from..from + 4] == ELF_MAGIC then from
    else FindMagic(data, from + 1)
  }

  /** The rules every program header is held to, in the order in which they are checked. */
  function CheckEntry(e: Entry, index: nat): Result<()> {
    if e.kind != PT_NULL && e.align != 0 && !PowerOfTwo(e.align) then Refused(AlignmentNotPowerOfTwo(index))
    else if (e.kind == PT_LOAD || e.kind == PT_TLS) && e.size > e.memory then Refused(FileExceedsMemory(index))
    else if e.kind == PT_TLS && e.align > 8192 then Refused(TlsAlignment(index))
    else if e.kind == PT_TLS && e.memory > 0x7FFF0000 then Refused(TlsMemory(index))
    else if e.kind == PT_LOAD && e.memory > TWO_TO_64 - e.vaddr then Refused(RangeExceedsElf64(index))
    else Ok(())
  }

  /** The entries of a table, unless one of the first n breaks a rule. */
  function Entries(data: Bytes, table: nat, n: nat): (r: Result<seq<Entry>>)
    requires table + n * ENTRY_SIZE <= |data|
    ensures r.Ok? ==> |r.value| == n
  {
    if n == 0 then Ok([])
    else
      var rest := Entries(data, table, n - 1);
      if rest.Refused? then rest
      else
        var e := Decode(data, table + (n - 1) * ENTRY_SIZE);
        var check := CheckEntry(e, n - 1);
        if check.Refused? then Refused(check.why) else Ok(rest.value + [e])
  }

  /** An accepted file: where its ELF header is, that header, the table's offset from it, and the table. */
  datatype Elf = Elf(inner: nat, header: Bytes, programOffset: nat, entries: seq<Entry>)

  function HeaderAt(data: Bytes, inner: nat): Result<nat>
    requires inner + HEADER_SIZE <= |data|
  {
    var h := data[inner..inner + HEADER_SIZE];
    if h[4] != 2 || h[5] != 1 then Refused(NotElf64LittleEndian)
    else if h[6] != 1 || Field(h, 0x14, 4) != 1 then Refused(BadVersion)
    else if Field(h, 0x12, 2) != 62 then Refused(BadMachine)
    else if Field(h, 0x34, 2) != 64 then Refused(BadHeaderSize)
    else if Field(h, 0x36, 2) != 56 || Field(h, 0x38, 2) == 0 then Refused(BadTable)
    else if Field(h, 0x20, 8) < HEADER_SIZE then Refused(TableOverlapsHeader)
    else if inner + Field(h, 0x20, 8) + Field(h, 0x38, 2) * ENTRY_SIZE > |data| then Refused(TableOutsideFile)
    else Ok(Field(h, 0x38, 2))
  }

  function ParsedAt(data: Bytes, inner: nat): Result<Elf>
    requires inner + HEADER_SIZE <= |data|
  {
    var count := HeaderAt(data, inner);
    if count.Refused? then Refused(count.why)
    else
      var h := data[inner..inner + HEADER_SIZE];
      var entries := Entries(data, inner + Field(h, 0x20, 8), count.value);
      if entries.Refused? then Refused(entries.why) else Ok(Elf(inner, h, Field(h, 0x20, 8), entries.value))
  }

  function Parsed(data: Bytes): Result<Elf> {
    var inner := FindMagic(data, 0);
    if inner < 0 then Refused(NoElfHeader)
    else if inner + HEADER_SIZE > |data| then Refused(HeaderTruncated)
    else ParsedAt(data, inner)
  }

  /** Finds the inner ELF header and reads its program header table. */
  method ParseElf(data: Bytes) returns (r: Result<Elf>)
    ensures r == Parsed(data)
  {
    var inner := FindMagic(data, 0);
    if inner < 0 {
      return Refused(NoElfHeader);
    }
    if inner + HEADER_SIZE > |data| {
      return Refused(HeaderTruncated);
    }
    r := ParseHeader(data, inner);
  }

  method ParseHeader(data: Bytes, inner: nat) returns (r: Result<Elf>)
    requires inner + HEADER_SIZE <= |data|
    ensures r == ParsedAt(data, inner)
  {
    var count := HeaderAt(data, inner);
    if count.Refused? {
      return Refused(count.why);
    }
    var header := data[inner..inner + HEADER_SIZE];
    var entries := ReadTable(data, inner + Field(header, 0x20, 8), count.value);
    if entries.Refused? {
      return Refused(entries.why);
    }
    r := Ok(Elf(inner, header, Field(header, 0x20, 8), entries.value));
  }

  method ReadTable(data: Bytes, table: nat, count: nat) returns (r: Result<seq<Entry>>)
    requires table + count * ENTRY_SIZE <= |data|
    ensures r == Entries(data, table, count)
  {
    hide Entries, Decode, CheckEntry;
    var entries := [];
    EntriesOfNone(data, table);
    for index := 0 to count
      invariant Entries(data, table, index) == Ok(entries)
    {
      EntriesOfOneMore(data, table, index, entries);
      var entry := Decode(data, table + index * ENTRY_SIZE);
      var check := CheckEntry(entry, index);
      if check.Refused? {
        EntriesStayRefused(data, table, index + 1, count);
        return Refused(check.why);
      }
      entries := entries + [entry];
    }
    r := Ok(entries);
  }

  lemma {:induction false} EntriesOfNone(data: Bytes, table: nat)
    requires table <= |data|
    ensures Entries(data, table, 0) == Ok([])
  {
  }

  lemma {:induction false} EntriesOfOneMore(data: Bytes, table: nat, n: nat, entries: seq<Entry>)
    requires table + (n + 1) * ENTRY_SIZE <= |data| && Entries(data, table, n) == Ok(entries)
    ensures var e := Decode(data, table + n * ENTRY_SIZE);
            Entries(data, table, n + 1)
            == if CheckEntry(e, n).Refused? then Refused(CheckEntry(e, n).why) else Ok(entries + [e])
  {
  }

  lemma {:induction false} EntriesStayRefused(data: Bytes, table: nat, m: nat, n: nat)
    requires m <= n && table + n * ENTRY_SIZE <= |data| && Entries(data, table, m).Refused?
    ensures Entries(data, table, n) == Entries(data, table, m)
  {
    if m < n { EntriesStayRefused(data, table, m, n - 1); }
  }

  /** Every entry of an accepted table is the stored one, and keeps the rules. */
  lemma {:induction false} EntriesAt(data: Bytes, table: nat, n: nat, i: nat)
    requires table + n * ENTRY_SIZE <= |data| && Entries(data, table, n).Ok? && i < n
    ensures Entries(data, table, n).value[i] == Decode(data, table + i * ENTRY_SIZE)
    ensures CheckEntry(Entries(data, table, n).value[i], i).Ok?
  {
    if i < n - 1 { EntriesAt(data, table, n - 1, i); }
  }

  /** A table whose entries all keep the rules is accepted. */
  lemma {:induction false} EntriesAccepted(data: Bytes, table: nat, n: nat, entries: seq<Entry>)
    requires table + n * ENTRY_SIZE <= |data| && |entries| == n
    requires forall i ::
        0 <= i < n ==> Decode(data, table + i * ENTRY_SIZE) == entries[i] && CheckEntry(entries[i], i).Ok?
    ensures Entries(data, table, n) == Ok(entries)
  {
    hide Decode, CheckEntry;
    if n > 0 {
      EntriesAccepted(data, table, n - 1, entries[..n - 1]);
      assert entries == entries[..n - 1] + [entries[n - 1]];
    }
  }

  lemma {:induction false} DecodedIsStorable(data: Bytes, at: nat)
    requires at + ENTRY_SIZE <= |data|
    ensures Storable(Decode(data, at))
  {
    Widths();
    ValueBound(data[at..at + 4]);
    ValueBound(data[at + 4..at + 8]);
    ValueBound(data[at + 8..at + 16]);
    ValueBound(data[at + 16..at + 24]);
    ValueBound(data[at + 24..at + 32]);
    ValueBound(data[at + 32..at + 40]);
    ValueBound(data[at + 40..at + 48]);
    ValueBound(data[at + 48..at + 56]);
  }

  // ----- segment records

  /** A record of the container: the data of a segment, at an offset of the container. */
  datatype Record = Record(flags: nat, segment: nat, size: nat)

  /** A record that is plausible: its size is said twice, and its data starts in the container at a multiple of 16. */
  predicate GoodRecord(data: Bytes, segment: nat, size: nat, again: nat) {
    && size != 0 && size == again
    && segment < |data| && segment >= 0x350 && segment % 0x10 == 0
    && size <= |data|
  }

  /** The records from an offset on, up to the first that is not plausible or the first region. */
  function RecordsFrom(data: Bytes, offset: nat): seq<Record>
    requires |data| >= FIRST_REGION
    decreases FIRST_REGION - offset
  {
    if offset + RECORD_SIZE > FIRST_REGION then []
    else
      var segment, size := Field(data, offset + 8, 8), Field(data, offset + 16, 8);
      if !GoodRecord(data, segment, size, Field(data, offset + 24, 8)) then []
      else [Record(Field(data, offset, 8), segment, size)] + RecordsFrom(data, offset + RECORD_SIZE)
  }

  method ReadRecords(data: Bytes) returns (records: seq<Record>)
    requires |data| >= FIRST_REGION
    ensures records == RecordsFrom(data, RECORD_OFFSET)
  {
    records := [];
    var offset := RECORD_OFFSET;
    while offset + RECORD_SIZE <= FIRST_REGION
      invariant RECORD_OFFSET <= offset
      invariant records + RecordsFrom(data, offset) == RecordsFrom(data, RECORD_OFFSET)
    {
      var flags, segment, size := Field(data, offset, 8), Field(data, offset + 8, 8), Field(data, offset + 16, 8);
      var again := Field(data, offset + 24, 8);
      if !GoodRecord(data, segment, size, again) {
        break;
      }
      records := records + [Record(flags, segment, size)];
      offset := offset + RECORD_SIZE;
    }
  }
}
