/** An ELF64 header as a linker would write it, for the files that serve as examples. */
module ElfSample {
  import opened ElfFormat
  import opened FileBacking

  function Zeros(n: nat): (r: Bytes)
    ensures |r| == n && forall i :: 0 <= i < n ==> r[i] == 0
  {
    seq(n, _ => 0)
  }

  function Identity(): (r: Bytes)
    ensures |r| == 0x20
  {
    ELF_MAGIC + [2, 1, 1] + Zeros(11) + Le(62, 2) + Le(1, 4) + Zeros(8)
  }

  /** A header with its table right behind it. */
  function Header(count: nat): (r: Bytes)
    ensures |r| == HEADER_SIZE
  {
    Identity() + Le(HEADER_SIZE, 8) + Zeros(12) + Le(64, 2) + Le(56, 2) + Le(count, 2) + Zeros(6)
  }

  /** An entry of the dynamic section. */
  function Tag(tag: nat, value: nat): (r: Bytes)
    ensures |r| == 16
  {
    Le(tag, 8) + Le(value, 8)
  }

  /** DT_GNU_HASH, DT_STRTAB, DT_STRSZ, DT_SYMTAB, DT_SYMENT and DT_NULL. */
  function Dynamic(table: nat, symbols: nat): (r: Bytes)
    ensures |r| == 96
  {
    Tag(0x6FFF_FEF5, table) + Tag(5, 0) + Tag(10, 1) + Tag(6, symbols) + Tag(11, 24) + Tag(0, 0)
  }

  /** The load, as the tools take it from the table. */
  function LoadOf(e: Entry): Load { Load(e.vaddr, e.offset, e.size, e.flags) }

  lemma {:induction false} PartOf(data: Bytes, at: nat, whole: Bytes, from: nat, to: nat)
    requires at + |whole| <= |data| && data[at..at + |whole|] == whole && from <= to <= |whole|
    ensures data[at + from..at + to] == whole[from..to]
  {
    forall i | from <= i < to ensures data[at + i] == whole[i] {
      assert data[at..at + |whole|][i] == data[at + i];
    }
  }

  lemma {:induction false} HeaderParts(count: nat)
    ensures var h := Header(count);
            && h[0..0x20] == Identity() && h[0x20..0x28] == Le(HEADER_SIZE, 8)
            && h[0x34..0x36] == Le(64, 2) && h[0x36..0x38] == Le(56, 2) && h[0x38..0x3A] == Le(count, 2)
  {
    hide Identity, Le;
  }

  lemma {:induction false} IdentityParts()
    ensures var h := Identity();
            h[0..4] == ELF_MAGIC && h[4] == 2 && h[5] == 1 && h[6] == 1 && h[0x12..0x14] == Le(62, 2)
                && h[0x14..0x18] == Le(1, 4)
  {
    hide Le;
  }

  lemma {:induction false} FieldIs(s: Bytes, from: nat, k: nat, n: nat)
    requires from + k <= |s| && s[from..from + k] == Le(n, k) && n < Pow256(k)
    ensures Field(s, from, k) == n
  {
    FieldRoundTrip(n, k);
  }

  lemma {:induction false} HeaderFields(count: nat)
    requires count < 0x1_0000
    ensures var h := Header(count);
            && h[0..4] == ELF_MAGIC && h[4] == 2 && h[5] == 1 && h[6] == 1 && Field(h, 0x12, 2) == 62
                && Field(h, 0x14, 4) == 1
            && Field(h, 0x20, 8) == HEADER_SIZE && Field(h, 0x34, 2) == 64 && Field(h, 0x36, 2) == 56
                && Field(h, 0x38, 2) == count
  {
    hide Header, Identity, Le, Field, Pow256;
    Widths();
    HeaderParts(count);
    IdentityParts();
    var h := Header(count);
    PartOf(h, 0, Identity(), 0, 4);
    PartOf(h, 0, Identity(), 0x12, 0x14);
    PartOf(h, 0, Identity(), 0x14, 0x18);
    assert h[4] == h[0..0x20][4] && h[5] == h[0..0x20][5] && h[6] == h[0..0x20][6];
    FieldIs(h, 0x12, 2, 62);
    FieldIs(h, 0x14, 4, 1);
    FieldIs(h, 0x20, 8, HEADER_SIZE);
    FieldIs(h, 0x34, 2, 64);
    FieldIs(h, 0x36, 2, 56);
    FieldIs(h, 0x38, 2, count);
  }
}
