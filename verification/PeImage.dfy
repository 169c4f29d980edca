/**
  Reading a PE file as it is mapped: a byte of the image is a byte of the one section that contains its
  address, or zero past the section's raw data. The readers work in chunks.
 */
module PeImage {
  import ElfFormat

  type Byte = ElfFormat.Byte
  type Bytes = ElfFormat.Bytes

  const ADDRESS_SPACE := 0x1_0000_0000
  const SCAN := 4096

  datatype Section = Section(rva: nat, size: nat, rawSize: nat, rawPointer: nat)

  datatype Refusal = NoSection(rva: nat) | Overlapping(rva: nat) | Truncated | OutsideAddressSpace

  datatype Read<+T> = Ok(value: T) | Refused(why: Refusal)

  // ----- the image, byte by byte

  predicate Contains(s: Section, rva: nat) { s.rva <= rva < s.rva + s.size }

  /** The sections that contain an address. */
  function Holding(sections: seq<Section>, rva: nat): (r: seq<Section>)
    ensures forall s :: s in r <==> s in sections && Contains(s, rva)
  {
    if sections == [] then []
    else (if Contains(sections[0], rva) then [sections[0]] else []) + Holding(sections[1..], rva)
  }

  function ByteIn(s: Section, data: Bytes, rva: nat): Read<Byte>
    requires Contains(s, rva)
  {
    var offset := rva - s.rva;
    if offset >= s.rawSize then Ok(0)
    else if s.rawPointer + s.rawSize > |data| then Refused(Truncated)
    else Ok(data[s.rawPointer + offset])
  }

  function ByteAt(sections: seq<Section>, data: Bytes, rva: nat): Read<Byte> {
    var holding := Holding(sections, rva);
    if holding == [] then Refused(NoSection(rva))
    else if |holding| != 1 then Refused(Overlapping(rva))
    else
      assert holding[0] in holding;
      ByteIn(holding[0], data, rva)
  }

  function Prepend(bytes: Bytes, rest: Read<Bytes>): Read<Bytes> {
    match rest
    case Ok(more) => Ok(bytes + more)
    case Refused(why) => Refused(why)
  }

  /** One byte after the other, refused at the first byte that is. */
  function Bytewise(sections: seq<Section>, data: Bytes, rva: nat, count: nat): Read<Bytes>
    decreases count
  {
    if count == 0 then Ok([])
    else
      var first := ByteAt(sections, data, rva);
      if first.Refused? then
          Refused(first.why) else Prepend([first.value], Bytewise(sections, data, rva + 1, count - 1))
  }

  /** The bytes up to the first zero. */
  function Text(sections: seq<Section>, data: Bytes, rva: nat): Read<Bytes>
    decreases ADDRESS_SPACE - rva
  {
    if rva >= ADDRESS_SPACE then Refused(OutsideAddressSpace)
    else
      var first := ByteAt(sections, data, rva);
      if first.Refused? then Refused(first.why)
      else if first.value == 0 then Ok([])
      else Prepend([first.value], Text(sections, data, rva + 1))
  }

  // ----- a stretch of one section

  /** The nearest start of another section after an address, or the limit. */
  function EndFrom(sections: seq<Section>, rva: nat, limit: nat): (r: nat)
    requires rva < limit
    ensures rva < r <= limit
    ensures forall s :: s in sections && s.size > 0 && s.rva > rva ==> r <= s.rva
  {
    if sections == [] then limit
    else
      var rest := EndFrom(sections[1..], rva, limit);
      if sections[0].size > 0 && rva < sections[0].rva < rest then sections[0].rva else rest
  }

  /** The section of an address, and how far it reaches before another one starts. */
  datatype Range = Range(section: Section, offset: nat, available: nat)

  function MappedRange(sections: seq<Section>, rva: nat): (r: Read<Range>)
    ensures r.Ok? ==>
              && Contains(r.value.section, rva) && r.value.offset == rva - r.value.section.rva && r.value.available > 0
              && r.value.offset + r.value.available <= r.value.section.size
  {
    var holding := Holding(sections, rva);
    if holding == [] then Refused(NoSection(rva))
    else if |holding| != 1 then Refused(Overlapping(rva))
    else
      var s := holding[0];
      assert s in holding;
      Ok(Range(s, rva - s.rva, EndFrom(sections, rva, s.rva + s.size) - rva))
  }

  lemma {:induction false} HoldingSame(sections: seq<Section>, a: nat, b: nat)
    requires forall s :: s in sections ==> (Contains(s, a) <==> Contains(s, b))
    ensures Holding(sections, a) == Holding(sections, b)
  {
    if sections != [] { HoldingSame(sections[1..], a, b); }
  }

  lemma {:induction false} HoldingFewer(sections: seq<Section>, a: nat, b: nat)
    requires forall s :: s in sections && Contains(s, b) ==> Contains(s, a)
    ensures |Holding(sections, b)| <= |Holding(sections, a)|
  {
    if sections != [] { HoldingFewer(sections[1..], a, b); }
  }

  lemma {:induction false} StartsFurther(sections: seq<Section>, rva: nat, o: Section)
    requires MappedRange(sections, rva).Ok? && o in sections && o.size > 0
    ensures o.rva <= rva || rva + MappedRange(sections, rva).value.available <= o.rva
  {
  }

  /** All of the range lies in the one section. */
  lemma {:induction false} RangeIsOneSection(sections: seq<Section>, rva: nat, x: nat)
    requires MappedRange(sections, rva).Ok? && rva <= x < rva + MappedRange(sections, rva).value.available
    ensures Holding(sections, x) == [MappedRange(sections, rva).value.section]
  {
    var s := MappedRange(sections, rva).value.section;
    forall o | o in sections && Contains(o, x) ensures Contains(o, rva) {
      StartsFurther(sections, rva, o);
    }
    HoldingFewer(sections, rva, x);
    assert Holding(sections, rva) == [s];
    assert s in Holding(sections, rva);
    assert Contains(s, x) && s in Holding(sections, x);
    assert |Holding(sections, x)| == 1;
    assert Holding(sections, x)[0] == s;
  }

  lemma {:induction false} RangeBytes(sections: seq<Section>, data: Bytes, rva: nat, x: nat)
    requires MappedRange(sections, rva).Ok? && rva <= x < rva + MappedRange(sections, rva).value.available
    ensures var s := MappedRange(sections, rva).value.section;
        Contains(s, x) && ByteAt(sections, data, x) == ByteIn(s, data, x)
  {
    RangeIsOneSection(sections, rva, x);
    assert MappedRange(sections, rva).value.section in Holding(sections, x);
  }

  // ----- chunks

  /** The bytes of the image from an address on. */
  ghost predicate Holds(sections: seq<Section>, data: Bytes, rva: nat, bytes: Bytes) {
    forall i :: 0 <= i < |bytes| ==> ByteAt(sections, data, rva + i) == Ok(bytes[i])
  }

  lemma {:induction false} HoldsFirst(sections: seq<Section>, data: Bytes, rva: nat, bytes: Bytes)
    requires Holds(sections, data, rva, bytes) && bytes != []
    ensures ByteAt(sections, data, rva) == Ok(bytes[0]) && Holds(sections, data, rva + 1, bytes[1..])
  {
    hide ByteAt;
    assert ByteAt(sections, data, rva + 0) == Ok(bytes[0]);
    var rest := bytes[1..];
    forall i | 0 <= i < |rest| ensures ByteAt(sections, data, rva + 1 + i) == Ok(rest[i]) {
      assert ByteAt(sections, data, rva + (i + 1)) == Ok(bytes[i + 1]);
    }
  }

  /** Reading goes on after a chunk whose bytes are known. */
  lemma {:induction false} AfterChunk(sections: seq<Section>, data: Bytes, rva: nat, count: nat, bytes: Bytes)
    requires |bytes| <= count && Holds(sections, data, rva, bytes)
    ensures Bytewise(sections, data, rva, count) == Prepend(bytes,
        Bytewise(sections, data, rva + |bytes|, count - |bytes|))
    decreases bytes
  {
    hide ByteAt, Holds;
    if bytes == [] {
      PrependNothing(Bytewise(sections, data, rva, count));
    } else {
      HoldsFirst(sections, data, rva, bytes);
      var rest := bytes[1..];
      AfterChunk(sections, data, rva + 1, count - 1, rest);
      PrependTwice([bytes[0]], rest, Bytewise(sections, data, rva + |bytes|, count - |bytes|));
      assert bytes == [bytes[0]] + rest;
    }
  }

  lemma {:induction false} PrependNothing(rest: Read<Bytes>)
    ensures Prepend([], rest) == rest
  {
    if rest.Ok? { assert [] + rest.value == rest.value; }
  }

  lemma {:induction false} PrependTwice(a: Bytes, b: Bytes, rest: Read<Bytes>)
    ensures Prepend(a, Prepend(b, rest)) == Prepend(a + b, rest)
  {
    if rest.Ok? { assert a + (b + rest.value) == a + b + rest.value; }
  }

  lemma {:induction false} TextAfterByte(sections: seq<Section>, data: Bytes, rva: nat, b: Byte)
    requires rva < ADDRESS_SPACE && b != 0 && ByteAt(sections, data, rva) == Ok(b)
    ensures Text(sections, data, rva) == Prepend([b], Text(sections, data, rva + 1))
  {
  }

  predicate NoZeros(bytes: Bytes) { forall i :: 0 <= i < |bytes| ==> bytes[i] != 0 }

  lemma {:induction false} TextAfterChunk(sections: seq<Section>, data: Bytes, rva: nat, bytes: Bytes)
    requires rva + |bytes| <= ADDRESS_SPACE && NoZeros(bytes) && Holds(sections, data, rva, bytes)
    ensures Text(sections, data, rva) == Prepend(bytes, Text(sections, data, rva + |bytes|))
    decreases bytes
  {
    hide ByteAt, Text, Holds;
    if bytes == [] {
      PrependNothing(Text(sections, data, rva));
    } else {
      HoldsFirst(sections, data, rva, bytes);
      TextAfterByte(sections, data, rva, bytes[0]);
      var rest := bytes[1..];
      TextAfterChunk(sections, data, rva + 1, rest);
      PrependTwice([bytes[0]], rest, Text(sections, data, rva + |bytes|));
      assert bytes == [bytes[0]] + rest;
    }
  }

  function Least(a: nat, b: nat): (r: nat)
    ensures r <= a && r <= b && (r == a || r == b)
  {
    if b < a then b else a
  }

  /** Raw data of a mapped range. */
  lemma {:induction false} RawHolds(sections: seq<Section>, data: Bytes, rva: nat, range: Range, n: nat)
    requires MappedRange(sections, rva) == Ok(range) && n <= range.available
        && range.offset + n <= range.section.rawSize
    requires range.section.rawPointer + range.section.rawSize <= |data|
    ensures var from := range.section.rawPointer + range.offset; Holds(sections, data, rva, data[from..from + n])
  {
    hide ByteAt, MappedRange, Holding;
    var from := range.section.rawPointer + range.offset;
    var bytes := data[from..from + n];
    forall i | 0 <= i < |bytes| ensures ByteAt(sections, data, rva + i) == Ok(bytes[i]) {
      RangeBytes(sections, data, rva, rva + i);
    }
  }

  /** A mapped range past the raw data. */
  lemma {:induction false} ZerosHold(sections: seq<Section>, data: Bytes, rva: nat, zeros: Bytes)
    requires MappedRange(sections, rva).Ok? && |zeros| <= MappedRange(sections, rva).value.available
    requires MappedRange(sections, rva).value.offset >= MappedRange(sections, rva).value.section.rawSize
    requires forall i :: 0 <= i < |zeros| ==> zeros[i] == 0
    ensures Holds(sections, data, rva, zeros)
  {
    hide ByteAt, MappedRange, Holding;
    forall i | 0 <= i < |zeros| ensures ByteAt(sections, data, rva + i) == Ok(zeros[i]) {
      RangeBytes(sections, data, rva, rva + i);
    }
  }

  /** Why there is no byte, or that it is a zero past the raw data. */
  lemma {:induction false} FirstByte(sections: seq<Section>, data: Bytes, rva: nat)
    ensures match MappedRange(sections, rva)
            case Refused(why) => ByteAt(sections, data, rva) == Refused(why)
            case Ok(Range(s, offset, available)) =>
              && available > 0 && Holds(sections, data, rva, [])
              && (offset >= s.rawSize ==> ByteAt(sections, data, rva) == Ok(0))
              && (offset < s.rawSize && s.rawPointer + s.rawSize > |data| ==>
                  ByteAt(sections, data, rva) == Refused(Truncated))
  {
    if MappedRange(sections, rva).Ok? { RangeBytes(sections, data, rva, rva); }
  }

  /** The next chunk of at most `count` bytes, from one section. */
  method NextChunk(sections: seq<Section>, data: Bytes, rva: nat, count: nat) returns (r: Read<Bytes>)
    requires count > 0
    ensures match r
            case Ok(bytes) => 0 < |bytes| <= count && Holds(sections, data, rva, bytes)
            case Refused(why) => ByteAt(sections, data, rva) == Refused(why)
  {
    hide ByteAt, MappedRange, Holding, Holds, Contains;
    var range := MappedRange(sections, rva);
    FirstByte(sections, data, rva);
    if range.Refused? {
      return Refused(range.why);
    }
    var Range(s, offset, available) := range.value;
    var chunk := Least(count, available);
    if offset >= s.rawSize {
      var zeros: Bytes := seq(chunk, _ => 0);
      ZerosHold(sections, data, rva, zeros);
      return Ok(zeros);
    }
    chunk := Least(chunk, s.rawSize - offset);
    if s.rawPointer + s.rawSize > |data| {
      return Refused(Truncated);
    }
    RawHolds(sections, data, rva, range.value, chunk);
    r := Ok(data[s.rawPointer + offset..s.rawPointer + offset + chunk]);
  }

  // ----- what is read, said outright

  /** The sections that contain an address, by number. */
  ghost function Inside(sections: seq<Section>, rva: nat): iset<nat> {
    iset i: nat | i < |sections| && sections[i].rva <= rva < sections[i].rva + sections[i].size
  }

  /** The byte of the image at an address: of the one section that contains it, or zero past its raw data. */
  ghost predicate ByteIs(sections: seq<Section>, data: Bytes, rva: nat, r: Read<Byte>) {
    var inside := Inside(sections, rva);
    || (r == Refused(NoSection(rva)) && inside == iset{})
    || (r == Refused(Overlapping(rva)) && exists i, j :: i in inside && j in inside && i != j)
    || exists i :: inside == iset{i} && ByteOf(sections[i], data, rva - sections[i].rva, r)
  }

  ghost predicate ByteOf(s: Section, data: Bytes, offset: nat, r: Read<Byte>) {
    if offset >= s.rawSize then r == Ok(0)
    else if s.rawPointer + s.rawSize > |data| then r == Refused(Truncated)
    else r == Ok(data[s.rawPointer + offset])
  }

  ghost predicate BytesAre(sections: seq<Section>, data: Bytes, rva: nat, bytes: Bytes) {
    forall i :: 0 <= i < |bytes| ==> ByteIs(sections, data, rva + i, Ok(bytes[i]))
  }

  /** All bytes of a range, or the first refusal among them. */
  ghost predicate RangeReads(sections: seq<Section>, data: Bytes, rva: nat, count: nat, r: Read<Bytes>) {
    if rva + count > 0x1_0000_0000 then r == Refused(OutsideAddressSpace)
    else
      match r
      case Ok(bytes) => |bytes| == count && BytesAre(sections, data, rva, bytes)
      case Refused(why) =>
        exists bytes: Bytes :: |bytes| < count && BytesAre(sections, data, rva, bytes)
                               && ByteIs(sections, data, rva + |bytes|, Refused(why))
  }

  /** The bytes before the first zero, or the refusal that is met first, the end of the address space included. */
  ghost predicate StringReads(sections: seq<Section>, data: Bytes, rva: nat, r: Read<Bytes>) {
    exists bytes: Bytes ::
      && BytesAre(sections, data, rva, bytes) && (forall i :: 0 <= i < |bytes| ==> bytes[i] != 0)
      && (bytes == [] || rva + |bytes| <= 0x1_0000_0000)
      && var at := rva + |bytes|;
         if at >= 0x1_0000_0000 then r == Refused(OutsideAddressSpace)
         else if r.Ok? then r.value == bytes && ByteIs(sections, data, at, Ok(0))
         else ByteIs(sections, data, at, Refused(r.why))
  }

  ghost function Shifted(at: seq<nat>): (r: seq<nat>)
    ensures |r| == |at| && forall j :: 0 <= j < |r| ==> r[j] == at[j] + 1
  {
    seq(|at|, j requires 0 <= j < |at| => at[j] + 1)
  }

  lemma {:induction false} ShiftedMembers(at: seq<nat>, i: nat)
    ensures i in Shifted(at) <==> i > 0 && i - 1 in at
  {
    if i > 0 && i - 1 in at {
      var j :| 0 <= j < |at| && at[j] == i - 1;
      assert Shifted(at)[j] == i;
    }
  }

  lemma {:induction false} InsideNext(sections: seq<Section>, rva: nat, i: nat)
    requires sections != []
    ensures i in Inside(sections, rva)
        <==> if i == 0 then Contains(sections[0], rva) else i - 1 in Inside(sections[1..], rva)
  {
    assert i > 0 && i < |sections| ==> sections[i] == sections[1..][i - 1];
  }

  /** The sections that hold an address, by number. */
  ghost function Numbers(sections: seq<Section>, rva: nat): seq<nat> {
    if sections == [] then []
    else (if Contains(sections[0], rva) then [0] else []) + Shifted(Numbers(sections[1..], rva))
  }

  lemma {:induction false} NumbersAre(sections: seq<Section>, rva: nat, i: nat)
    ensures i in Numbers(sections, rva) <==> i in Inside(sections, rva)
  {
    hide Contains, Inside, Shifted;
    if sections == [] {
      NothingInside(rva);
    } else {
      var rest := Numbers(sections[1..], rva);
      ShiftedMembers(rest, i);
      InsideNext(sections, rva, i);
      if i > 0 { NumbersAre(sections[1..], rva, i - 1); }
    }
  }

  /** The sections that hold an address, by number and in order. */
  lemma {:induction false} HoldingAt(sections: seq<Section>, rva: nat)
    ensures var at := Numbers(sections, rva);
            && |at| == |Holding(sections, rva)| && (forall j, k :: 0 <= j < k < |at| ==> at[j] < at[k])
            && forall j :: 0 <= j < |at| ==> at[j] < |sections| && Holding(sections, rva)[j] == sections[at[j]]
  {
    hide Contains;
    if sections != [] { HoldingAt(sections[1..], rva); }
  }

  lemma {:induction false} NothingInside(rva: nat)
    ensures Inside([], rva) == iset{}
  {
  }

  /** The byte at an address is as the image says. */
  lemma {:induction false} ByteAtIs(sections: seq<Section>, data: Bytes, rva: nat)
    ensures ByteIs(sections, data, rva, ByteAt(sections, data, rva))
  {
    hide Holding, Inside, Numbers;
    var at := Numbers(sections, rva);
    HoldingAt(sections, rva);
    forall i: nat ensures i in at <==> i in Inside(sections, rva) { NumbersAre(sections, rva, i); }
    InsideMembers(sections, rva);
    if at == [] {
      assert Inside(sections, rva) == iset{};
    } else if |at| > 1 {
      assert at[0] in at && at[1] in at;
    } else {
      assert at[0] in at && Inside(sections, rva) == iset{at[0]};
      assert ByteOf(sections[at[0]], data, rva - sections[at[0]].rva, ByteAt(sections, data, rva));
    }
  }

  lemma {:induction false} InsideMembers(sections: seq<Section>, rva: nat)
    ensures forall i :: i in Inside(sections, rva) ==> i < |sections| && Contains(sections[i], rva)
  {
  }

  lemma {:induction false} HeldAre(sections: seq<Section>, data: Bytes, rva: nat, bytes: Bytes)
    requires Holds(sections, data, rva, bytes)
    ensures BytesAre(sections, data, rva, bytes)
  {
    hide ByteAt, ByteIs;
    forall i | 0 <= i < |bytes| ensures ByteIs(sections, data, rva + i, Ok(bytes[i])) {
      ByteAtIs(sections, data, rva + i);
      assert ByteAt(sections, data, rva + i) == Ok(bytes[i]);
    }
  }

  /** Bytes that are known, and the next one. */
  lemma {:induction false} HoldsMore(sections: seq<Section>, data: Bytes, rva: nat, bytes: Bytes, b: Byte)
    requires Holds(sections, data, rva, bytes) && ByteAt(sections, data, rva + |bytes|) == Ok(b)
    ensures Holds(sections, data, rva, bytes + [b])
  {
    hide ByteAt;
  }

  lemma {:induction false} BytewiseReads(sections: seq<Section>, data: Bytes, rva: nat, count: nat, before: Bytes)
    requires Holds(sections, data, rva, before) && |before| <= count
    ensures match Bytewise(sections, data, rva + |before|, count - |before|)
            case Ok(rest) => |before + rest| == count && Holds(sections, data, rva, before + rest)
            case Refused(why) =>
              exists bytes: Bytes :: |bytes| < count && Holds(sections, data, rva, bytes)
                                     && ByteAt(sections, data, rva + |bytes|) == Refused(why)
    decreases count - |before|
  {
    hide ByteAt, Holds;
    if |before| == count {
      assert before + [] == before;
    } else {
      var first := ByteAt(sections, data, rva + |before|);
      if first.Ok? {
        HoldsMore(sections, data, rva, before, first.value);
        BytewiseReads(sections, data, rva, count, before + [first.value]);
        assert rva + |before + [first.value]| == rva + |before| + 1;
        var rest := Bytewise(sections, data, rva + |before| + 1, count - |before| - 1);
        if rest.Ok? { assert before + [first.value] + rest.value == before + ([first.value] + rest.value); }
      }
    }
  }

  lemma {:induction false} TextReads(sections: seq<Section>, data: Bytes, rva: nat, before: Bytes)
    requires Holds(sections, data, rva, before) && NoZeros(before)
    requires before == [] || rva + |before| <= ADDRESS_SPACE
    ensures exists bytes: Bytes ::
              && Holds(sections, data, rva, bytes) && NoZeros(bytes)
              && (bytes == [] || rva + |bytes| <= ADDRESS_SPACE)
              && Ends(sections, data, rva + |bytes|, bytes,
                      Prepend(before, Text(sections, data, rva + |before|)))
    decreases ADDRESS_SPACE - rva - |before|
  {
    hide ByteAt, Holds;
    var at := rva + |before|;
    TextStops(sections, data, at);
    if at >= ADDRESS_SPACE || ByteAt(sections, data, at).Refused? || ByteAt(sections, data, at) == Ok(0) {
      assert before + [] == before;
      assert Ends(sections, data, at, before, Prepend(before, Text(sections, data, at)));
    } else {
      var b := ByteAt(sections, data, at).value;
      HoldsMore(sections, data, rva, before, b);
      TextReads(sections, data, rva, before + [b]);
      assert rva + |before + [b]| == at + 1;
      TextAfterByte(sections, data, at, b);
      PrependTwice(before, [b], Text(sections, data, at + 1));
    }
  }

  /** How a string ends after some bytes. */
  ghost predicate Ends(sections: seq<Section>, data: Bytes, at: nat, bytes: Bytes, r: Read<Bytes>) {
    if at >= ADDRESS_SPACE then r == Refused(OutsideAddressSpace)
    else if r.Ok? then r.value == bytes && ByteAt(sections, data, at) == Ok(0)
    else ByteAt(sections, data, at) == Refused(r.why)
  }

  lemma {:induction false} RangeIsRead(sections: seq<Section>, data: Bytes, rva: nat, count: nat)
    ensures RangeReads(sections, data, rva, count,
              if rva + count > ADDRESS_SPACE then Refused(OutsideAddressSpace)
              else Bytewise(sections, data, rva, count))
  {
    hide ByteAt, ByteIs, Holds, BytesAre, Bytewise;
    if rva + count <= ADDRESS_SPACE {
      NothingHeld(sections, data, rva);
      BytewiseReads(sections, data, rva, count, []);
      match Bytewise(sections, data, rva, count)
      case Ok(bytes) =>
        assert [] + bytes == bytes;
        HeldAre(sections, data, rva, bytes);
      case Refused(why) =>
        var bytes: Bytes :| |bytes| < count && Holds(sections, data, rva, bytes)
          && ByteAt(sections, data, rva + |bytes|) == Refused(why);
        HeldAre(sections, data, rva, bytes);
        ByteAtIs(sections, data, rva + |bytes|);
    }
  }

  lemma {:induction false} NothingHeld(sections: seq<Section>, data: Bytes, rva: nat)
    ensures Holds(sections, data, rva, [])
  {
  }

  lemma {:induction false} StringIsRead(sections: seq<Section>, data: Bytes, rva: nat)
    ensures StringReads(sections, data, rva, Text(sections, data, rva))
  {
    hide ByteAt, ByteIs, Holds, BytesAre, Text;
    NothingHeld(sections, data, rva);
    TextReads(sections, data, rva, []);
    PrependNothing(Text(sections, data, rva));
    var bytes: Bytes :| Holds(sections, data, rva, bytes) && NoZeros(bytes)
      && (bytes == [] || rva + |bytes| <= ADDRESS_SPACE)
      && Ends(sections, data, rva + |bytes|, bytes, Prepend([], Text(sections, data, rva + 0)));
    HeldAre(sections, data, rva, bytes);
    ByteAtIs(sections, data, rva + |bytes|);
  }

  /** Reads a range in chunks: just what reading it byte by byte gives, refusals included. */
  method ReadBytes(sections: seq<Section>, data: Bytes, rva: nat, count: nat) returns (r: Read<Bytes>)
    ensures r == if rva + count > ADDRESS_SPACE then
        Refused(OutsideAddressSpace) else Bytewise(sections, data, rva, count)
    ensures RangeReads(sections, data, rva, count, r)
  {
    hide RangeReads, ByteAt, Holds;
    RangeIsRead(sections, data, rva, count);
    if rva + count > ADDRESS_SPACE {
      return Refused(OutsideAddressSpace);
    }
    var result: Bytes := [];
    var at: nat, left: nat := rva, count;
    PrependNothing(Bytewise(sections, data, rva, count));
    while left > 0
      invariant Bytewise(sections, data, rva, count) == Prepend(result, Bytewise(sections, data, at, left))
      decreases left
    {
      var chunk := NextChunk(sections, data, at, left);
      if chunk.Refused? {
        return Refused(chunk.why);
      }
      AfterChunk(sections, data, at, left, chunk.value);
      PrependTwice(result, chunk.value, Bytewise(sections, data, at + |chunk.value|, left - |chunk.value|));
      result, at, left := result + chunk.value, at + |chunk.value|, left - |chunk.value|;
    }
    assert result + [] == result;
    r := Ok(result);
  }

  /** The position of the first zero, or the length. */
  function FirstZero(bytes: Bytes): (k: nat)
    ensures k <= |bytes| && (forall i :: 0 <= i < k ==> bytes[i] != 0) && (k < |bytes| ==> bytes[k] == 0)
  {
    if bytes == [] || bytes[0] == 0 then 0 else 1 + FirstZero(bytes[1..])
  }

  /** The next stretch of raw data to look for a zero in; nothing past the raw data, where there are only zeros. */
  method NextScan(sections: seq<Section>, data: Bytes, rva: nat) returns (r: Read<Bytes>)
    requires rva < ADDRESS_SPACE
    ensures match r
            case Ok(bytes) =>
              && |bytes| <= ADDRESS_SPACE - rva && Holds(sections, data, rva, bytes)
              && (bytes == [] ==> ByteAt(sections, data, rva) == Ok(0))
            case Refused(why) => ByteAt(sections, data, rva) == Refused(why)
  {
    hide ByteAt, MappedRange, Holding, Holds, Contains;
    var range := MappedRange(sections, rva);
    FirstByte(sections, data, rva);
    if range.Refused? {
      return Refused(range.why);
    }
    var Range(s, offset, available) := range.value;
    if offset >= s.rawSize {
      return Ok([]);
    }
    if s.rawPointer + s.rawSize > |data| {
      return Refused(Truncated);
    }
    var scan := Least(Least(s.rawSize - offset, available), Least(SCAN, ADDRESS_SPACE - rva));
    RawHolds(sections, data, rva, range.value, scan);
    r := Ok(data[s.rawPointer + offset..s.rawPointer + offset + scan]);
  }

  lemma {:induction false} TextStops(sections: seq<Section>, data: Bytes, at: nat)
    ensures at >= ADDRESS_SPACE ==> Text(sections, data, at) == Refused(OutsideAddressSpace)
    ensures at < ADDRESS_SPACE && ByteAt(sections, data, at).Refused? ==>
        Text(sections, data, at) == Refused(ByteAt(sections, data, at).why)
    ensures at < ADDRESS_SPACE && ByteAt(sections, data, at) == Ok(0) ==> Text(sections, data, at) == Ok([])
  {
  }

  /** Reads the bytes up to the first zero, a stretch at a time. */
  method ReadString(sections: seq<Section>, data: Bytes, rva: nat) returns (r: Read<Bytes>)
    ensures r == Text(sections, data, rva) && StringReads(sections, data, rva, r)
  {
    StringIsRead(sections, data, rva);
    var chunks: Bytes := [];
    var at: nat := rva;
    PrependNothing(Text(sections, data, rva));
    hide Text, Bytewise, ByteAt, StringReads;
    while true
      invariant Text(sections, data, rva) == Prepend(chunks, Text(sections, data, at))
      decreases ADDRESS_SPACE - at
    {
      if at >= ADDRESS_SPACE {
        TextStops(sections, data, at);
        return Refused(OutsideAddressSpace);
      }
      var chunk := NextScan(sections, data, at);
      if chunk.Refused? {
        TextStops(sections, data, at);
        return Refused(chunk.why);
      }
      var zero := FirstZero(chunk.value);
      var kept := chunk.value[..zero];
      TextAfterChunk(sections, data, at, kept);
      PrependTwice(chunks, kept, Text(sections, data, at + zero));
      chunks := chunks + kept;
      if chunk.value == [] || zero < |chunk.value| {
        TextStops(sections, data, at + zero);
        assert chunks + [] == chunks;
        return Ok(chunks);
      }
      at := at + zero;
    }
  }
}
