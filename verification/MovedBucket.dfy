/**
  An ELF file on which the two symbol counts differ although its bucket is used: two loads have the bucket's address,
  at two distances. One tool resolves the bucket by its address, the other reads on behind the header.
 */
module MovedBucket {
  import opened Options
  import opened ElfFormat
  import opened ElfSample
  import opened FileBacking
  import opened GnuSymbols

  const LENGTH := 432
  const TABLE := 328
  const SYMBOLS := 360

  /** Four bytes at the bucket's address, from behind the chains. */
  function WindowEntry(): Entry { Entry(PT_LOAD, 4, TABLE + 28, TABLE + 16, TABLE + 16, 4, 4, 4) }

  function WholeEntry(): Entry { Entry(PT_LOAD, 4, 0, 0, 0, LENGTH, LENGTH, 0x1000) }

  function DynamicEntry(): Entry { Entry(PT_DYNAMIC, 4, 232, 232, 232, 96, 96, 8) }

  /** One bucket, symbols hashed from 1 on; the bucket is 1, chains 1 and 2 end at once; then a 2. */
  function HashTable(): (r: Bytes)
    ensures |r| == 32
  {
    Le(1, 4) + Le(1, 4) + Zeros(8) + Le(1, 4) + Le(1, 4) + Le(1, 4) + Le(2, 4)
  }

  /** The file, with room for three symbols at its end. */
  function Moved(): (r: Bytes)
    ensures |r| == LENGTH
  {
    Header(3) + Encode(WindowEntry()) + Encode(WholeEntry()) + Encode(DynamicEntry()) + Dynamic(TABLE, SYMBOLS)
    + HashTable() + Zeros(72)
  }

  lemma {:induction false} MovedParts(header: Bytes, a: Bytes, b: Bytes, c: Bytes, tags: Bytes, table: Bytes,
                                      symbols: Bytes)
    requires |header| == HEADER_SIZE && |a| == |b| == |c| == ENTRY_SIZE && |tags| == 96 && |table| == 32
    ensures var data := header + a + b + c + tags + table + symbols;
            && data[0..HEADER_SIZE] == header && data[64..120] == a && data[120..176] == b && data[176..232] == c
            && data[TABLE..TABLE + 32] == table
  {
  }

  function AllEntries(): seq<Entry> { [WindowEntry(), WholeEntry(), DynamicEntry()] }

  // ----- the file is an ELF file

  lemma {:induction false} MovedParses()
    ensures Parsed(Moved()) == Ok(Elf(0, Header(3), HEADER_SIZE, AllEntries()))
  {
    hide Header, Encode, Dynamic, HashTable, Zeros, Entries, Decode, CheckEntry, Storable, Field;
    var data := Moved();
    MovedParts(Header(3), Encode(WindowEntry()), Encode(WholeEntry()), Encode(DynamicEntry()),
        Dynamic(TABLE, SYMBOLS), HashTable(), Zeros(72));
    HeaderFields(3);
    PartOf(data, 0, Header(3), 0, 4);
    EntriesFit();
    EntryRoundTrip(data, 64, WindowEntry());
    EntryRoundTrip(data, 120, WholeEntry());
    EntryRoundTrip(data, 176, DynamicEntry());
    EntriesAccepted(data, 64, 3, AllEntries());
  }

  lemma {:induction false} EntriesFit()
    ensures Storable(WindowEntry()) && CheckEntry(WindowEntry(), 0).Ok?
    ensures Storable(WholeEntry()) && CheckEntry(WholeEntry(), 1).Ok?
    ensures Storable(DynamicEntry()) && CheckEntry(DynamicEntry(), 2).Ok?
  {
    assert PowerOfTwo(0x1000) && PowerOfTwo(8) && PowerOfTwo(4);
  }

  // ----- its hash table

  function Loads(): seq<Load> { [LoadOf(WindowEntry()), LoadOf(WholeEntry())] }

  lemma {:induction false} LoadsAre()
    ensures Loads() == [Load(TABLE + 16, TABLE + 28, 4, 4), Load(0, 0, LENGTH, 4)] && InFile(Loads(), LENGTH)
  {
  }

  /** Everything but the bucket resolves to where it lies. */
  lemma {:induction false} PlainResolves(vaddr: nat, length: nat)
    requires vaddr + length <= LENGTH && length > 0 && !(TABLE + 16 <= vaddr < TABLE + 20)
    ensures At(Loads(), LENGTH, vaddr, length) == Some(vaddr)
  {
    hide Reaches;
    LoadsAre();
    WindowDoesNotReach(Loads(), vaddr, length);
    WholeReaches(Loads(), vaddr, length);
  }

  lemma {:induction false} WindowDoesNotReach(loads: seq<Load>, vaddr: nat, length: nat)
    requires loads == [Load(TABLE + 16, TABLE + 28, 4, 4), Load(0, 0, LENGTH, 4)]
    requires length > 0 && !(TABLE + 16 <= vaddr < TABLE + 20)
    ensures !Reaches(loads, loads[0], vaddr, length)
  {
    assert !Backed(loads, 12, vaddr);
    assert Delta(loads[0]) == 12;
  }

  lemma {:induction false} WholeReaches(loads: seq<Load>, vaddr: nat, length: nat)
    requires loads == [Load(TABLE + 16, TABLE + 28, 4, 4), Load(0, 0, LENGTH, 4)] && vaddr + length <= LENGTH
    ensures Reaches(loads, loads[1], vaddr, length)
  {
    forall x | vaddr <= x < vaddr + length ensures Backed(loads, 0, x) {
      assert loads[1] in loads && Backs(loads[1], 0, x);
    }
  }

  lemma {:induction false} BucketResolves()
    ensures At(Loads(), LENGTH, TABLE + 16, 4) == Some(TABLE + 28)
  {
    LoadsAre();
    var loads := Loads();
    assert Reaches(loads, loads[0], TABLE + 16, 4) by {
      forall x | TABLE + 16 <= x < TABLE + 20 ensures Backed(loads, 12, x) {
        assert loads[0] in loads && Backs(loads[0], 12, x);
      }
    }
  }

  lemma {:induction false} TableParts(a: Bytes, b: Bytes, z: Bytes, c: Bytes, d: Bytes, e: Bytes, f: Bytes)
    requires |a| == |b| == |c| == |d| == |e| == |f| == 4 && |z| == 8
    ensures var all := a + b + z + c + d + e + f;
            && all[0..4] == a && all[4..8] == b && all[8..12] == z[0..4] && all[16..20] == c && all[20..24] == d
            && all[24..28] == e && all[28..32] == f
  {
  }

  lemma {:induction false} ZerosAreZero()
    ensures Zeros(8)[0..4] == Le(0, 4)
  {
  }

  lemma {:induction false} TableWords(data: Bytes)
    requires |data| == LENGTH && data[TABLE..TABLE + 32] == HashTable()
    ensures Field(data, TABLE, 4) == 1 && Field(data, TABLE + 4, 4) == 1 && Field(data, TABLE + 8, 4) == 0
    ensures Field(data, TABLE + 16, 4) == 1 && Field(data, TABLE + 20, 4) == 1 && Field(data, TABLE + 24, 4) == 1
    ensures Field(data, TABLE + 28, 4) == 2
  {
    hide Le, Field, Pow256, Zeros;
    Widths();
    ZerosAreZero();
    TableParts(Le(1, 4), Le(1, 4), Zeros(8), Le(1, 4), Le(1, 4), Le(1, 4), Le(2, 4));
    forall k: nat | k < 8 ensures data[TABLE + 4 * k..TABLE + 4 * k + 4] == HashTable()[4 * k..4 * k + 4] {
      PartOf(data, TABLE, HashTable(), 4 * k, 4 * k + 4);
    }
    FieldIs(data, TABLE + 4 * 0, 4, 1);
    FieldIs(data, TABLE + 4 * 1, 4, 1);
    FieldIs(data, TABLE + 4 * 2, 4, 0);
    FieldIs(data, TABLE + 4 * 4, 4, 1);
    FieldIs(data, TABLE + 4 * 5, 4, 1);
    FieldIs(data, TABLE + 4 * 6, 4, 1);
    FieldIs(data, TABLE + 4 * 7, 4, 2);
  }

  function HeldTable(): Table { Table(TABLE, 1, 1, 0) }

  /** One tool sees bucket 2 and the other bucket 1, and both chains end at once. */
  lemma {:induction false} TableIsRead(data: Bytes)
    requires |data| == LENGTH && data[TABLE..TABLE + 32] == HashTable()
    ensures var loads, t := Loads(), HeldTable();
            && TableAt(data, loads, TABLE) == Some(t) && At(loads, |data|, TABLE, 16) == Some(TABLE)
            && HasPrefix(data, loads, t) && Bucket(data, loads, t, 0) == Some(2)
            && Words(data, BucketsFrom(t, TABLE), 1) == [1]
            && Ends(data, loads, t, 1, 1) && Ends(data, loads, t, 2, 2)
  {
    hide At, Loads, Field, HashTable;
    TableWords(data);
    PlainResolves(TABLE, 16);
    PlainResolves(TABLE, 20);
    PlainResolves(TABLE + 20, 4);
    PlainResolves(TABLE + 24, 4);
    BucketResolves();
  }

  lemma {:induction false} TheyCount(data: Bytes, loads: seq<Load>, t: Table)
    requires t == HeldTable() && |data| == LENGTH && HasPrefix(data, loads, t)
    requires Bucket(data, loads, t, 0) == Some(2) && Words(data, BucketsFrom(t, TABLE), 1) == [1]
    requires Ends(data, loads, t, 1, 1) && Ends(data, loads, t, 2, 2)
    ensures CountedByEvery(data, loads, t, TABLE, Some(2)) && CountedByOne(data, loads, t, Some(3))
  {
    hide HasPrefix, Bucket, Ends, Words;
    assert [1][0] == 1 && Used([1], 1, 1);
    assert UsedEnds(data, loads, t, [1], 1, 1, 1);
    assert EndsBy(data, loads, t, 1, 1);
    assert Highest(data, loads, t, [1], 1, 1);
    assert Greatest(data, loads, t, 1, 2);
    assert OneFrom(data, loads, t, 2, 3);
  }

  /** An ELF file whose loads lie in it, and whose symbols one tool counts as two and the other as three. */
  lemma {:induction false} BucketsCanDiffer()
    ensures Parsed(Moved()) == Ok(Elf(0, Header(3), HEADER_SIZE, AllEntries()))
    ensures var data, loads, t := Moved(), [LoadOf(WindowEntry()), LoadOf(WholeEntry())], Table(TABLE, 1, 1, 0);
            && InFile(loads, |data|)
            && TableAt(data, loads, TABLE) == Some(t) && At(loads, |data|, TABLE, 16) == Some(TABLE)
            && Bucket(data, loads, t, 0) == Some(2)
            && CountedByEvery(data, loads, t, TABLE, Some(2)) && CountedByOne(data, loads, t, Some(3))
  {
    hide TableAt, HasPrefix, CountedByEvery, CountedByOne, Parsed, Header, Encode, Dynamic, HashTable, At, Bucket, Ends,
      Words, InFile, Zeros;
    MovedParses();
    MovedParts(Header(3), Encode(WindowEntry()), Encode(WholeEntry()), Encode(DynamicEntry()),
        Dynamic(TABLE, SYMBOLS), HashTable(), Zeros(72));
    LoadsAre();
    TableIsRead(Moved());
    TheyCount(Moved(), Loads(), HeldTable());
  }
}
