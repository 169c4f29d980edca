/** Where the words of a GNU hash table lie, and what bytes they are. */
module SymbolWords {
  import opened Options
  import opened ElfFormat
  import opened ElfReading
  import opened FileBacking
  import opened GnuSymbols

  /** The word at an address: the four bytes at its position in the file, if it has one. */
  ghost predicate WordIs(data: Bytes, loads: seq<Load>, vaddr: int, word: Option<nat>) {
    exists position :: IsAt(loads, |data|, vaddr, 4, position) && WordFrom(data, position, word)
  }

  ghost predicate WordFrom(data: Bytes, position: Option<int>, word: Option<nat>) {
    match position
    case None => word == None
    case Some(p) => 0 <= p && p + 4 <= |data| && word == Some(U32(data, p))
  }

  lemma {:induction false} WordAtIs(data: Bytes, loads: seq<Load>, vaddr: int)
    ensures WordIs(data, loads, vaddr, WordAt(data, loads, vaddr))
  {
    hide IsAt, Resolve;
    var position := At(loads, |data|, vaddr, 4);
    ResolveIs(loads, |data|, vaddr, 4, 0);
    if position.Some? {
      ResolvedInFile(loads, |data|, vaddr, 4);
      FieldsAre(data, position.value);
    }
    assert IsAt(loads, |data|, vaddr, 4, position) && WordFrom(data, position, WordAt(data, loads, vaddr));
  }

  /** The header of a table: the numbers of buckets, of the first hashed symbol, and of the words of the filter. */
  ghost predicate TableIs(data: Bytes, loads: seq<Load>, at: int, t: Table) {
    exists p: nat :: IsAt(loads, |data|, at, 16, Some(p)) && p + 16 <= |data|
                     && t == Table(at, U32(data, p), U32(data, p + 4), U32(data, p + 8))
  }

  lemma {:induction false} TableAtIs(data: Bytes, loads: seq<Load>, at: int)
    requires TableAt(data, loads, at).Some?
    ensures TableIs(data, loads, at, TableAt(data, loads, at).value)
  {
    hide IsAt, Resolve;
    ResolveIs(loads, |data|, at, 16, 0);
    ResolvedInFile(loads, |data|, at, 16);
    var p: nat := At(loads, |data|, at, 16).value;
    FieldsAre(data, p);
    FieldsAre(data, p + 4);
    FieldsAre(data, p + 8);
    assert IsAt(loads, |data|, at, 16, Some(p));
  }

  /**
    Past the 16 bytes of the header and 8 for each word of the filter come the buckets, 4 bytes each, and then the
    chains, with a word for each symbol from the first hashed one on.
   */
  lemma {:induction false} WordsLieThere(data: Bytes, loads: seq<Load>, t: Table, i: nat, index: int)
    ensures WordIs(data, loads, t.at + 16 + 8 * t.bloom + 4 * i, Bucket(data, loads, t, i))
    ensures WordIs(data, loads, t.at + 16 + 8 * t.bloom + 4 * t.buckets + 4 * (index - t.first),
                   Chain(data, loads, t, index))
    ensures HasPrefix(data, loads, t) <==>
              exists p: int :: IsAt(loads, |data|, t.at, 16 + 8 * t.bloom + 4 * t.buckets, Some(p))
  {
    hide IsAt, Resolve, WordAt, WordIs;
    WordAtIs(data, loads, t.at + 16 + 8 * t.bloom + 4 * i);
    WordAtIs(data, loads, t.at + 16 + 8 * t.bloom + 4 * t.buckets + 4 * (index - t.first));
    var length := 16 + 8 * t.bloom + 4 * t.buckets;
    var position := At(loads, |data|, t.at, length);
    ResolveIs(loads, |data|, t.at, length, 0);
    if p: int :| IsAt(loads, |data|, t.at, length, Some(p)) {
      PositionOnce(loads, |data|, t.at, length, position, Some(p));
    }
  }

  lemma {:induction false} PositionOnce(loads: seq<Load>, n: nat, vaddr: int, length: nat, a: Option<int>,
                                        b: Option<int>)
    requires IsAt(loads, n, vaddr, length, a) && IsAt(loads, n, vaddr, length, b)
    ensures a == b
  {
    hide Serves;
  }

  /** What the audit reads as the buckets: the words in the file behind the header, wherever loads have them. */
  lemma {:induction false} WordsAre(data: Bytes, t: Table, position: nat)
    requires position + 16 + 8 * t.bloom + 4 * t.buckets <= |data|
    ensures BucketsFrom(t, position) + 4 * t.buckets <= |data|
    ensures var words := Words(data, BucketsFrom(t, position), t.buckets);
            |words| == t.buckets && forall i :: 0 <= i < t.buckets ==>
              words[i] == U32(data, position + 16 + 8 * t.bloom + 4 * i)
  {
    hide Field, U32;
    forall i: nat | i < t.buckets
      ensures Field(data, position + 16 + 8 * t.bloom + 4 * i, 4) == U32(data, position + 16 + 8 * t.bloom + 4 * i)
    {
      FieldsAre(data, position + 16 + 8 * t.bloom + 4 * i);
    }
  }
}
