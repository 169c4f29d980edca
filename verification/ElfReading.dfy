/**
  What the bytes of a container and of the ELF file in it say: numbers, records, the header and its table, and the
  first thing wrong with them.
 */
module ElfReading {
  import opened ElfFormat

  // ----- numbers

  ghost function U16(data: Bytes, at: nat): nat
    requires at + 2 <= |data|
  {
    var low: nat, high: nat := data[at], data[at + 1];
    low + 0x100 * high
  }

  ghost function U32(data: Bytes, at: nat): nat
    requires at + 4 <= |data|
  {
    U16(data, at) + 0x1_0000 * U16(data, at + 2)
  }

  ghost function U64(data: Bytes, at: nat): nat
    requires at + 8 <= |data|
  {
    U32(data, at) + 0x1_0000_0000 * U32(data, at + 4)
  }

  lemma {:induction false} ValueSplits(s: Bytes, k: nat)
    requires k <= |s|
    ensures Value(s) == Value(s[..k]) + Pow256(k) * Value(s[k..])
  {
    if k == 0 {
      assert s[..0] == [] && s[0..] == s;
    } else {
      ValueSplits(s[1..], k - 1);
      assert s[1..][k - 1..] == s[k..] && s[..k][1..] == s[1..][..k - 1];
      Regroup(Value(s[1..][..k - 1]), Pow256(k - 1), Value(s[k..]));
    }
  }

  lemma {:induction false} Regroup(a: nat, p: nat, b: nat)
    ensures 256 * (a + p * b) == 256 * a + (256 * p) * b
  {
  }

  lemma {:induction false} FieldSplits(data: Bytes, at: nat, k: nat, n: nat)
    requires at + k + n <= |data|
    ensures Field(data, at, k + n) == Field(data, at, k) + Pow256(k) * Field(data, at + k, n)
  {
    var s := data[at..at + (k + n)];
    ValueSplits(s, k);
    assert s[..k] == data[at..at + k] && s[k..] == data[at + k..at + k + n];
  }

  lemma {:induction false} FieldIsByte(data: Bytes, at: nat)
    requires at < |data|
    ensures Field(data, at, 1) == data[at] && Pow256(1) == 256
  {
    var s := data[at..at + 1];
    assert s[0] == data[at] && s[1..] == [] && Value([]) == 0;
    assert Pow256(0) == 1;
  }

  lemma {:induction false} Field16(data: Bytes, at: nat)
    requires at + 2 <= |data|
    ensures Field(data, at, 2) == U16(data, at)
  {
    hide Field, Pow256;
    FieldSplits(data, at, 1, 1);
    FieldIsByte(data, at);
    FieldIsByte(data, at + 1);
  }

  lemma {:induction false} Field32(data: Bytes, at: nat)
    requires at + 4 <= |data|
    ensures Field(data, at, 4) == U32(data, at)
  {
    hide Field, Pow256, U16;
    Widths();
    FieldSplits(data, at, 2, 2);
    Field16(data, at);
    Field16(data, at + 2);
  }

  /** The fields are the numbers that the bytes stand for, the first byte being the lowest. */
  lemma {:induction false} FieldsAre(data: Bytes, at: nat)
    ensures at + 2 <= |data| ==> Field(data, at, 2) == U16(data, at)
    ensures at + 4 <= |data| ==> Field(data, at, 4) == U32(data, at)
    ensures at + 8 <= |data| ==> Field(data, at, 8) == U64(data, at)
  {
    hide Field, Pow256, U16, U32;
    Widths();
    if at + 2 <= |data| { Field16(data, at); }
    if at + 4 <= |data| { Field32(data, at); }
    if at + 8 <= |data| {
      FieldSplits(data, at, 4, 4);
      Field32(data, at + 4);
    }
  }

  // ----- records

  ghost predicate Plausible(data: Bytes, at: nat)
    requires at + 0x20 <= |data|
  {
    && U64(data, at + 16) != 0 && U64(data, at + 16) == U64(data, at + 24) && U64(data, at + 16) <= |data|
    && 0x350 <= U64(data, at + 8) < |data| && U64(data, at + 8) % 0x10 == 0
  }

  /** The records from 0x40 on, up to the first that is not plausible or to 0x400. */
  ghost predicate RecordsAre(data: Bytes, records: seq<Record>) {
    && |data| >= 0x400 && |records| <= 30
    && (forall i :: 0 <= i < |records| ==>
          var at := 0x40 + 0x20 * i;
          Plausible(data, at) && records[i] == Record(U64(data, at), U64(data, at + 8), U64(data, at + 16)))
    && (|records| == 30 || !Plausible(data, 0x40 + 0x20 * |records|))
  }

  lemma {:induction false} PlausibleIsGood(data: Bytes, at: nat)
    requires at + 0x20 <= |data|
    ensures GoodRecord(data, Field(data, at + 8, 8), Field(data, at + 16, 8), Field(data, at + 24, 8))
            <==> Plausible(data, at)
    ensures Field(data, at, 8) == U64(data, at) && Field(data, at + 8, 8) == U64(data, at + 8)
    ensures Field(data, at + 16, 8) == U64(data, at + 16)
  {
    hide Field, U64;
    FieldsAre(data, at);
    FieldsAre(data, at + 8);
    FieldsAre(data, at + 16);
    FieldsAre(data, at + 24);
  }

  lemma {:induction false} RecordsFromAre(data: Bytes, i: nat)
    requires |data| >= 0x400 && i <= 30
    ensures var s := RecordsFrom(data, 0x40 + 0x20 * i);
            && |s| <= 30 - i
            && (forall j :: i <= j < i + |s| ==>
                  var at := 0x40 + 0x20 * j;
                  Plausible(data, at) && s[j - i] == Record(U64(data, at), U64(data, at + 8), U64(data, at + 16)))
            && (|s| == 30 - i || !Plausible(data, 0x40 + 0x20 * (i + |s|)))
    decreases 30 - i
  {
    hide Field, U64, Plausible;
    if i < 30 {
      PlausibleIsGood(data, 0x40 + 0x20 * i);
      RecordsFromAre(data, i + 1);
    }
  }

  /** The records that are read. */
  lemma {:induction false} RecordsAreRead(data: Bytes)
    requires |data| >= 0x400
    ensures RecordsAre(data, RecordsFrom(data, RECORD_OFFSET))
  {
    hide U64, Plausible;
    RecordsFromAre(data, 0);
  }

  // ----- checks, made one after the other

  /** A check that holds or not, and what it says when it does not. */
  datatype Check = Check(holds: bool, why: Refusal)

  ghost predicate AllHold(checks: seq<Check>) { forall i :: 0 <= i < |checks| ==> checks[i].holds }

  /** The first check that does not hold says this. */
  ghost predicate FirstFails(checks: seq<Check>, why: Refusal) {
    exists i :: 0 <= i < |checks| && !checks[i].holds && checks[i].why == why && AllHold(checks[..i])
  }

  lemma {:induction false} FailsAt(checks: seq<Check>, i: nat)
    requires i < |checks| && !checks[i].holds && forall k :: 0 <= k < i ==> checks[k].holds
    ensures FirstFails(checks, checks[i].why) && !AllHold(checks)
  {
  }

  // ----- the ELF header and its table

  ghost predicate IsMagic(data: Bytes, p: nat) {
    p + 4 <= |data| && data[p] == 0x7F && data[p + 1] == 0x45 && data[p + 2] == 0x4C && data[p + 3] == 0x46
  }

  ghost predicate FirstMagic(data: Bytes, inner: nat) {
    IsMagic(data, inner) && forall p: nat :: p < inner ==> !IsMagic(data, p)
  }

  /** What is asked of the header, in this order, for a file of so many bytes. */
  ghost function HeaderChecks(h: Bytes, inner: nat, length: nat): seq<Check>
    requires |h| == 0x40
  {
    [ Check(h[4] == 2 && h[5] == 1, NotElf64LittleEndian),
      Check(h[6] == 1 && U32(h, 0x14) == 1, BadVersion),
      Check(U16(h, 0x12) == 62, BadMachine),
      Check(U16(h, 0x34) == 64, BadHeaderSize),
      Check(U16(h, 0x36) == 56 && U16(h, 0x38) != 0, BadTable),
      Check(U64(h, 0x20) >= 0x40, TableOverlapsHeader),
      Check(inner + U64(h, 0x20) + 56 * U16(h, 0x38) <= length, TableOutsideFile) ]
  }

  ghost function Twice(k: nat): nat { if k == 0 then 1 else 2 * Twice(k - 1) }

  ghost predicate IsPower(a: nat) { exists k: nat :: a == Twice(k) }

  /** What is asked of an entry, in this order. */
  ghost function EntryChecks(e: Entry, i: nat): seq<Check> {
    [ Check(e.kind == PT_NULL || e.align == 0 || IsPower(e.align), AlignmentNotPowerOfTwo(i)),
      Check(e.kind == PT_LOAD || e.kind == PT_TLS ==> e.size <= e.memory, FileExceedsMemory(i)),
      Check(e.kind == PT_TLS ==> e.align <= 8192, TlsAlignment(i)),
      Check(e.kind == PT_TLS ==> e.memory <= 0x7FFF_0000, TlsMemory(i)),
      Check(e.kind == PT_LOAD ==> e.vaddr + e.memory <= 0x1_0000_0000_0000_0000, RangeExceedsElf64(i)) ]
  }

  /** The entry that the bytes at an offset say. */
  ghost function EntryOf(data: Bytes, at: nat): Entry
    requires at + 56 <= |data|
  {
    Entry(U32(data, at), U32(data, at + 4), U64(data, at + 8), U64(data, at + 16), U64(data, at + 24),
      U64(data, at + 32), U64(data, at + 40), U64(data, at + 48))
  }

  /** The i-th entry of a table. */
  ghost function EntryIn(data: Bytes, table: nat, i: nat): Entry
    requires table + 56 * i + 56 <= |data|
  {
    EntryOf(data, table + 56 * i)
  }

  /** The first entries keep the rules. */
  ghost predicate TableKeeps(data: Bytes, table: nat, n: nat) {
    table + 56 * n <= |data| && forall i :: 0 <= i < n ==> AllHold(EntryChecks(EntryIn(data, table, i), i))
  }

  /** The first ELF header of the data, with a table whose entries all keep the rules. */
  ghost predicate ElfIs(data: Bytes, elf: Elf) {
    && FirstMagic(data, elf.inner) && elf.inner + 0x40 <= |data|
    && elf.header == data[elf.inner..elf.inner + 0x40]
    && AllHold(HeaderChecks(elf.header, elf.inner, |data|))
    && elf.programOffset == U64(elf.header, 0x20) && |elf.entries| == U16(elf.header, 0x38)
    && TableKeeps(data, elf.inner + elf.programOffset, |elf.entries|)
    && forall i :: 0 <= i < |elf.entries| ==>
         elf.entries[i] == EntryIn(data, elf.inner + elf.programOffset, i)
  }

  ghost predicate EntryBreaks(data: Bytes, table: nat, i: nat, why: Refusal) {
    && table + 56 * i + 56 <= |data| && TableKeeps(data, table, i)
    && FirstFails(EntryChecks(EntryIn(data, table, i), i), why)
  }

  ghost predicate SomeBreaks(data: Bytes, table: nat, n: nat, why: Refusal) {
    exists i :: 0 <= i < n && EntryBreaks(data, table, i, why)
  }

  ghost predicate HeaderBreaks(data: Bytes, inner: nat, why: Refusal) {
    if inner + 0x40 > |data| then why == HeaderTruncated
    else
      var h := data[inner..inner + 0x40];
      || FirstFails(HeaderChecks(h, inner, |data|), why)
      || (AllHold(HeaderChecks(h, inner, |data|)) && SomeBreaks(data, inner + U64(h, 0x20), U16(h, 0x38), why))
  }

  /** Why there is no ELF file in the data. */
  ghost predicate NotElf(data: Bytes, why: Refusal) {
    || (why == NoElfHeader && forall p: nat :: !IsMagic(data, p))
    || exists inner: nat :: FirstMagic(data, inner) && HeaderBreaks(data, inner, why)
  }

  lemma {:induction false} MagicIs(data: Bytes, p: nat)
    requires p + 4 <= |data|
    ensures data[p..p + 4] == ELF_MAGIC <==> IsMagic(data, p)
  {
    var s := data[p..p + 4];
    assert s[0] == data[p] && s[1] == data[p + 1] && s[2] == data[p + 2] && s[3] == data[p + 3];
    if IsMagic(data, p) { assert s == ELF_MAGIC; }
  }

  lemma {:induction false} FindMagicIs(data: Bytes, from: nat)
    ensures var r := FindMagic(data, from);
            if r < 0 then forall p: nat :: from <= p ==> !IsMagic(data, p)
            else IsMagic(data, r) && forall p: nat :: from <= p < r ==> !IsMagic(data, p)
    decreases |data| - from
  {
    if from + 4 <= |data| {
      MagicIs(data, from);
      if data[from..from + 4] != ELF_MAGIC { FindMagicIs(data, from + 1); }
    }
  }

  lemma {:induction false} PowerIs(a: nat)
    ensures PowerOfTwo(a) <==> IsPower(a)
  {
    if PowerOfTwo(a) {
      if a == 1 {
        assert a == Twice(0);
      } else {
        PowerIs(a / 2);
        var k: nat :| a / 2 == Twice(k);
        assert a == Twice(k + 1);
      }
    }
    if k: nat :| a == Twice(k) { TwicePowers(k); }
  }

  lemma {:induction false} TwicePowers(k: nat)
    ensures Twice(k) >= 1 && PowerOfTwo(Twice(k))
  {
    if k > 0 { TwicePowers(k - 1); }
  }

  lemma {:induction false} EntryIs(data: Bytes, at: nat)
    requires at + 56 <= |data|
    ensures Decode(data, at) == EntryOf(data, at)
  {
    hide Field, U32, U64;
    FieldsAre(data, at);
    FieldsAre(data, at + 4);
    FieldsAre(data, at + 8);
    FieldsAre(data, at + 16);
    FieldsAre(data, at + 24);
    FieldsAre(data, at + 32);
    FieldsAre(data, at + 40);
    FieldsAre(data, at + 48);
  }

  lemma {:induction false} EntryChecksAre(e: Entry, i: nat)
    ensures match CheckEntry(e, i)
            case Ok(_) => AllHold(EntryChecks(e, i))
            case Refused(why) => FirstFails(EntryChecks(e, i), why)
  {
    hide PowerOfTwo, IsPower;
    PowerIs(e.align);
    var checks := EntryChecks(e, i);
    if CheckEntry(e, i).Refused? {
      var why := CheckEntry(e, i).why;
      FailsAt(checks,
        if why.AlignmentNotPowerOfTwo? then 0 else if why.FileExceedsMemory? then 1 else if why.TlsAlignment? then 2
        else if why.TlsMemory? then 3 else 4);
    }
  }

  lemma {:induction false} HeaderFieldsAre(h: Bytes)
    requires |h| == 0x40
    ensures Field(h, 0x14, 4) == U32(h, 0x14) && Field(h, 0x12, 2) == U16(h, 0x12) && Field(h, 0x34, 2) == U16(h, 0x34)
    ensures Field(h, 0x36, 2) == U16(h, 0x36) && Field(h, 0x38, 2) == U16(h, 0x38) && Field(h, 0x20, 8) == U64(h, 0x20)
  {
    hide Field, U16, U32, U64;
    FieldsAre(h, 0x14);
    FieldsAre(h, 0x12);
    FieldsAre(h, 0x34);
    FieldsAre(h, 0x36);
    FieldsAre(h, 0x38);
    FieldsAre(h, 0x20);
  }

  lemma {:induction false} HeaderChecksAre(data: Bytes, inner: nat)
    requires inner + 0x40 <= |data|
    ensures var h := data[inner..inner + 0x40];
            match HeaderAt(data, inner)
            case Ok(count) => AllHold(HeaderChecks(h, inner, |data|)) && count == U16(h, 0x38)
            case Refused(why) => FirstFails(HeaderChecks(h, inner, |data|), why)
  {
    hide Field, U16, U32, U64;
    var h := data[inner..inner + 0x40];
    HeaderFieldsAre(h);
    var checks := HeaderChecks(h, inner, |data|);
    if HeaderAt(data, inner).Refused? {
      var why := HeaderAt(data, inner).why;
      FailsAt(checks,
        if why.NotElf64LittleEndian? then 0 else if why.BadVersion? then 1 else if why.BadMachine? then 2
        else if why.BadHeaderSize? then 3 else if why.BadTable? then 4 else if why.TableOverlapsHeader? then 5 else 6);
    }
  }

  lemma {:induction false} EntriesAre(data: Bytes, table: nat, n: nat)
    requires table + n * ENTRY_SIZE <= |data|
    ensures match Entries(data, table, n)
            case Ok(entries) =>
              && TableKeeps(data, table, n)
              && forall i :: 0 <= i < n ==> entries[i] == EntryIn(data, table, i)
            case Refused(why) => SomeBreaks(data, table, n, why)
  {
    hide Decode, CheckEntry, EntryOf, EntryChecks, AllHold, FirstFails;
    if n > 0 {
      EntriesAre(data, table, n - 1);
      var rest := Entries(data, table, n - 1);
      if rest.Ok? {
        var e := EntryIn(data, table, n - 1);
        EntryIs(data, table + 56 * (n - 1));
        EntryChecksAre(e, n - 1);
        assert Entries(data, table, n) == if CheckEntry(e, n - 1).Refused?
            then Refused(CheckEntry(e, n - 1).why) else Ok(rest.value + [e]);
        if CheckEntry(e, n - 1).Refused? {
          assert EntryBreaks(data, table, n - 1, CheckEntry(e, n - 1).why);
        }
      }
    }
  }

  /** What is parsed is the ELF file in the data, and a refusal says the first thing wrong with it. */
  lemma {:induction false} ParsedIs(data: Bytes)
    ensures match Parsed(data)
            case Ok(elf) => ElfIs(data, elf)
            case Refused(why) => NotElf(data, why)
  {
    hide HeaderAt, Entries, IsMagic, HeaderChecks, TableKeeps, SomeBreaks, AllHold, FirstFails, U16, U64, Field;
    FindMagicIs(data, 0);
    var inner := FindMagic(data, 0);
    if inner >= 0 {
      assert FirstMagic(data, inner);
      if inner + 0x40 <= |data| { ParsedAtIs(data, inner); }
    }
  }

  lemma {:induction false} ParsedAtIs(data: Bytes, inner: nat)
    requires inner + 0x40 <= |data| && FirstMagic(data, inner)
    ensures match ParsedAt(data, inner)
            case Ok(elf) => ElfIs(data, elf)
            case Refused(why) => HeaderBreaks(data, inner, why)
  {
    hide HeaderAt, Entries, FirstMagic, HeaderChecks, TableKeeps, SomeBreaks, AllHold, FirstFails, U16, U64, Field;
    HeaderChecksAre(data, inner);
    var h := data[inner..inner + 0x40];
    HeaderFieldsAre(h);
    var count := HeaderAt(data, inner);
    if count.Ok? {
      HeaderTableFits(data, inner);
      EntriesAre(data, inner + U64(h, 0x20), count.value);
    }
  }

  lemma {:induction false} HeaderTableFits(data: Bytes, inner: nat)
    requires inner + 0x40 <= |data| && HeaderAt(data, inner).Ok?
    ensures inner + U64(data[inner..inner + 0x40], 0x20) + HeaderAt(data, inner).value * ENTRY_SIZE <= |data|
  {
    hide Field, U64;
    HeaderFieldsAre(data[inner..inner + 0x40]);
  }

  // ----- there is one ELF file in the data, or none for one reason

  lemma {:induction false} OneMagic(data: Bytes, a: nat, b: nat)
    requires FirstMagic(data, a) && FirstMagic(data, b)
    ensures a == b
  {
  }

  lemma {:induction false} OneElf(data: Bytes, a: Elf, b: Elf)
    requires ElfIs(data, a) && ElfIs(data, b)
    ensures a == b
  {
    hide FirstMagic, AllHold, HeaderChecks, TableKeeps, EntryIn, U16, U64;
    OneMagic(data, a.inner, b.inner);
    assert a.entries == b.entries;
  }

  lemma {:induction false} HoldsOrFails(checks: seq<Check>, why: Refusal)
    requires FirstFails(checks, why)
    ensures !AllHold(checks)
  {
  }

  lemma {:induction false} ElfOrNot(data: Bytes, elf: Elf, why: Refusal)
    requires ElfIs(data, elf)
    ensures !NotElf(data, why)
  {
    hide IsMagic, HeaderChecks, EntryChecks, EntryIn, FirstFails, AllHold, U16, U64;
    if NotElf(data, why) {
      var inner: nat :| FirstMagic(data, inner) && HeaderBreaks(data, inner, why);
      OneMagic(data, elf.inner, inner);
      if FirstFails(HeaderChecks(elf.header, inner, |data|), why) {
        HoldsOrFails(HeaderChecks(elf.header, inner, |data|), why);
      } else {
        TableOrNot(data, inner + elf.programOffset, |elf.entries|, why);
      }
    }
  }

  lemma {:induction false} TableOrNot(data: Bytes, table: nat, n: nat, why: Refusal)
    requires TableKeeps(data, table, n)
    ensures !SomeBreaks(data, table, n, why)
  {
    hide EntryChecks, EntryIn, FirstFails, AllHold;
    if SomeBreaks(data, table, n, why) {
      var i :| 0 <= i < n && EntryBreaks(data, table, i, why);
      HoldsOrFails(EntryChecks(EntryIn(data, table, i), i), why);
    }
  }

  /** The ELF file in the data is what is parsed. */
  lemma {:induction false} ElfIsParsed(data: Bytes, elf: Elf)
    requires ElfIs(data, elf)
    ensures Parsed(data) == Ok(elf)
  {
    hide ElfIs, NotElf, Parsed;
    ParsedIs(data);
    match Parsed(data)
    case Ok(e) => OneElf(data, e, elf);
    case Refused(why) => ElfOrNot(data, elf, why);
  }
}
