/**
  An ELF file on which the two symbol counts differ: its GNU hash table has one bucket, which is not used, and
  hashes from symbol 0 on.
 */
module UnusedBucket {
  import opened Options
  import opened ElfFormat
  import opened ElfSample
  import opened FileBacking
  import opened GnuSymbols

  const LENGTH := 296
  const TABLE := 272

  function LoadEntry(): Entry { Entry(PT_LOAD, 4, 0, 0, 0, LENGTH, LENGTH, 0x1000) }

  function DynamicEntry(): Entry { Entry(PT_DYNAMIC, 4, 176, 176, 176, 96, 96, 8) }

  /** One bucket, symbols hashed from 0 on, no bloom words; the bucket is not used, and chain 0 ends at once. */
  function HashTable(): (r: Bytes)
    ensures |r| == 24
  {
    Le(1, 4) + Le(0, 4) + Le(0, 4) + Le(0, 4) + Le(0, 4) + Le(1, 4)
  }

  function Unused(): (r: Bytes)
    ensures |r| == LENGTH
  {
    Header(2) + Encode(LoadEntry()) + Encode(DynamicEntry()) + Dynamic(TABLE, 0) + HashTable()
  }

  lemma {:induction false} UnusedParts(header: Bytes, a: Bytes, b: Bytes, tags: Bytes, table: Bytes)
    requires |header| == HEADER_SIZE && |a| == |b| == ENTRY_SIZE && |tags| == 96 && |table| == 24
    ensures var data := header + a + b + tags + table;
            && data[0..HEADER_SIZE] == header && data[64..120] == a && data[120..176] == b
                && data[TABLE..TABLE + 24] == table
  {
  }

  // ----- the file is an ELF file

  lemma {:induction false} UnusedParses()
    ensures Parsed(Unused()) == Ok(Elf(0, Header(2), HEADER_SIZE, [LoadEntry(), DynamicEntry()]))
  {
    hide Header, Encode, Dynamic, HashTable, Entries, Decode, CheckEntry, Storable, Field;
    var data := Unused();
    UnusedParts(Header(2), Encode(LoadEntry()), Encode(DynamicEntry()), Dynamic(TABLE, 0), HashTable());
    HeaderFields(2);
    PartOf(data, 0, Header(2), 0, 4);
    EntriesFit();
    EntryRoundTrip(data, 64, LoadEntry());
    EntryRoundTrip(data, 120, DynamicEntry());
    EntriesAccepted(data, 64, 2, [LoadEntry(), DynamicEntry()]);
  }

  lemma {:induction false} EntriesFit()
    ensures Storable(LoadEntry()) && CheckEntry(LoadEntry(), 0).Ok? && Storable(DynamicEntry())
        && CheckEntry(DynamicEntry(), 1).Ok?
  {
  }

  // ----- its hash table

  /** One load that maps the file from address 0 on. */
  ghost predicate Maps(data: Bytes, loads: seq<Load>) {
    exists flags: nat :: loads == [Load(0, 0, |data|, flags)]
  }

  lemma {:induction false} MappedResolves(loads: seq<Load>, n: nat, flags: nat, vaddr: nat, length: nat)
    requires loads == [Load(0, 0, n, flags)] && vaddr + length <= n
    ensures At(loads, n, vaddr, length) == Some(vaddr)
  {
    assert Reaches(loads, loads[0], vaddr, length) by {
      forall x | vaddr <= x < vaddr + length ensures Backed(loads, 0, x) {
        assert loads[0] in loads && Backs(loads[0], 0, x);
      }
    }
  }

  lemma {:induction false} MappedWord(data: Bytes, loads: seq<Load>, vaddr: nat)
    requires Maps(data, loads) && vaddr + 4 <= |data|
    ensures WordAt(data, loads, vaddr) == Some(Field(data, vaddr, 4))
  {
    hide Field, At;
    var flags: nat :| loads == [Load(0, 0, |data|, flags)];
    MappedResolves(loads, |data|, flags, vaddr, 4);
  }

  lemma {:induction false} MappedTable(data: Bytes, loads: seq<Load>, t: Table, at: nat)
    requires Maps(data, loads) && t.at == at && at + PrefixSize(t) <= |data|
    requires t.buckets == Field(data, at, 4) && t.first == Field(data, at + 4, 4) && t.bloom == Field(data, at + 8, 4)
    ensures TableAt(data, loads, at) == Some(t) && HasPrefix(data, loads, t)
  {
    hide Field, At;
    var flags: nat :| loads == [Load(0, 0, |data|, flags)];
    MappedResolves(loads, |data|, flags, at, 16);
    MappedResolves(loads, |data|, flags, at, PrefixSize(t));
  }

  ghost predicate HoldsTable(data: Bytes, at: nat) {
    at + 24 <= |data| && data[at..at + 24] == HashTable()
  }

  lemma {:induction false} TableWords(data: Bytes, at: nat)
    requires HoldsTable(data, at)
    ensures Field(data, at, 4) == 1 && Field(data, at + 4, 4) == 0 && Field(data, at + 8, 4) == 0
    ensures Field(data, at + 16, 4) == 0 && Field(data, at + 20, 4) == 1
  {
    hide Le, Field, Pow256;
    Widths();
    TableParts(Le(1, 4), Le(0, 4), Le(0, 4), Le(0, 4), Le(0, 4), Le(1, 4));
    PartOf(data, at, HashTable(), 0, 4);
    PartOf(data, at, HashTable(), 4, 8);
    PartOf(data, at, HashTable(), 8, 12);
    PartOf(data, at, HashTable(), 16, 20);
    PartOf(data, at, HashTable(), 20, 24);
    FieldIs(data, at, 4, 1);
    FieldIs(data, at + 4, 4, 0);
    FieldIs(data, at + 8, 4, 0);
    FieldIs(data, at + 16, 4, 0);
    FieldIs(data, at + 20, 4, 1);
  }

  lemma {:induction false} TableParts(a: Bytes, b: Bytes, c: Bytes, d: Bytes, e: Bytes, f: Bytes)
    requires |a| == |b| == |c| == |d| == |e| == |f| == 4
    ensures var all := a + b + c + d + e + f;
        all[0..4] == a && all[4..8] == b && all[8..12] == c && all[16..20] == e && all[20..24] == f
  {
  }

  lemma {:induction false} TableIsRead(data: Bytes, loads: seq<Load>, t: Table, at: nat)
    requires HoldsTable(data, at) && Maps(data, loads) && t.at == at && t.first == t.bloom == 0 && t.buckets == 1
    ensures TableAt(data, loads, at) == Some(t) && HasPrefix(data, loads, t)
    ensures Bucket(data, loads, t, 0) == Some(0) && Chain(data, loads, t, 0) == Some(1)
  {
    hide TableAt, HasPrefix, WordAt, Field, HashTable, Maps;
    TableWords(data, at);
    MappedTable(data, loads, t, at);
    MappedWord(data, loads, at + 16);
    MappedWord(data, loads, at + 20);
  }

  /** Wherever such a table is mapped: along all chains there is nothing to count, but chain 0 gives one symbol. */
  lemma {:induction false} CountsDiffer(data: Bytes, loads: seq<Load>, t: Table, at: nat)
    requires HoldsTable(data, at) && Maps(data, loads) && t.at == at && t.first == t.bloom == 0 && t.buckets == 1
    ensures TableAt(data, loads, at) == Some(t) && At(loads, |data|, at, 16) == Some(at)
    ensures CountedByEvery(data, loads, t, at, Some(0)) && CountedByOne(data, loads, t, Some(1))
  {
    hide HoldsTable, Maps, Bucket, Chain, TableAt, HasPrefix, At, Field, Words;
    TableIsRead(data, loads, t, at);
    TableWords(data, at);
    var flags := HeldIsMapped(data, loads, at);
    MappedResolves(loads, |data|, flags, at, 16);
    assert Words(data, at + 16, 1) == [0];
    assert Highest(data, loads, t, [0], 1, -1);
    assert Greatest(data, loads, t, 1, 0);
    assert Ends(data, loads, t, 0, 0);
    assert OneFrom(data, loads, t, 0, 1);
  }

  lemma {:induction false} HeldIsMapped(data: Bytes, loads: seq<Load>, at: nat) returns (flags: nat)
    requires HoldsTable(data, at) && Maps(data, loads)
    ensures loads == [Load(0, 0, |data|, flags)] && at + 24 <= |data|
  {
    flags :| loads == [Load(0, 0, |data|, flags)];
  }

  /** An ELF file whose only load maps all of it, and whose symbols the two tools count as none and as one. */
  lemma {:induction false} CountsCanDiffer()
    ensures Parsed(Unused()) == Ok(Elf(0, Header(2), HEADER_SIZE, [LoadEntry(), DynamicEntry()]))
    ensures var data, loads, t := Unused(), [LoadOf(LoadEntry())], Table(TABLE, 1, 0, 0);
            && TableAt(data, loads, TABLE) == Some(t) && At(loads, |data|, TABLE, 16) == Some(TABLE)
            && CountedByEvery(data, loads, t, TABLE, Some(0)) && CountedByOne(data, loads, t, Some(1))
  {
    hide TableAt, CountedByEvery, CountedByOne, Parsed, Header, Encode, Dynamic, HashTable, At;
    UnusedParses();
    UnusedParts(Header(2), Encode(LoadEntry()), Encode(DynamicEntry()), Dynamic(TABLE, 0), HashTable());
    assert [LoadOf(LoadEntry())] == [Load(0, 0, |Unused()|, 4)];
    CountsDiffer(Unused(), [LoadOf(LoadEntry())], Table(TABLE, 1, 0, 0), TABLE);
  }
}
