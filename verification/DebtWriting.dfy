/**
  What the debt files and the index are written as, line by line, in which order, and which files a change touches.
 */
module DebtWriting {
  import opened Options
  import opened DebtText
  import opened DebtFiles
  import opened DebtPreamble
  import opened DebtReading
  import DebtDisk
  import DebtSplit

  // ----- in which order

  ghost function Thirds(items: seq<Item>): iset<nat> { iset i: nat | i < |items| && IsThird(items[i]) }

  /** The titles of a file are those of its third-level headings. */
  lemma {:induction false} TitlesAre(items: seq<Item>) returns (at: seq<nat>)
    ensures Enumerates(at, |items|, Thirds(items))
    ensures |DebtDisk.Titles(items)| == |at|
    ensures forall j :: 0 <= j < |at| ==>
              at[j] < |items| && items[at[j]].section == Some(DebtDisk.Titles(items)[j])
  {
    hide IsThird, Level, Enumerates;
    at := [];
    NoneChosen(Thirds(items));
    if items != [] {
      var init, last := items[..|items| - 1], items[|items| - 1];
      at := TitlesAre(init);
      ThirdIs(last);
      ThirdHasSection(last);
      OneMoreChosen(items, at, Thirds(init), Thirds(items));
      if IsThird(last) { at := at + [|init|]; }
    }
  }

  lemma {:induction false} ThirdHasSection(item: Item)
    ensures IsThird(item) ==> item.section.Some?
  {
  }

  ghost function Headings(items: seq<Item>): iset<nat> {
    iset i: nat | i < |items| && items[i].kind == Heading && items[i].section.Some?
  }

  /** The sections of the index, in which the files list theirs, are those its headings stand under. */
  lemma {:induction false} SectionsOfAre(items: seq<Item>) returns (at: seq<nat>)
    ensures Enumerates(at, |items|, Headings(items))
    ensures |DebtSplit.SectionsOf(items)| == |at|
    ensures forall j :: 0 <= j < |at| ==>
              at[j] < |items| && items[at[j]].section == Some(DebtSplit.SectionsOf(items)[j])
  {
    hide Enumerates;
    at := [];
    NoneChosen(Headings(items));
    if items != [] {
      var init, last := items[..|items| - 1], items[|items| - 1];
      at := SectionsOfAre(init);
      OneMoreChosen(items, at, Headings(init), Headings(items));
      if last.kind == Heading && last.section.Some? { at := at + [|init|]; }
    }
  }

  /** Above the first section: every item but the first-level headings. */
  ghost function AboveSections(items: seq<Item>): iset<nat> {
    iset i: nat | i < |items| && (forall k :: 0 <= k <= i ==> items[k].section.None?) && !HasLevel(items[i], 1)
  }

  /** What is read above the sections of a file. */
  lemma {:induction false} PreambleIs(items: seq<Item>) returns (at: seq<nat>)
    ensures Enumerates(at, |items|, AboveSections(items))
    ensures |PreambleOf(items)| == |at|
    ensures forall j :: 0 <= j < |at| ==> at[j] < |items| && PreambleOf(items)[j] == items[at[j]].lines
  {
    hide Enumerates, HasLevel, Level, PreambleOf, AboveSections, NoneSectioned;
    at := [];
    NoneChosen(AboveSections(items));
    if items == [] {
      NothingAbove();
    } else {
      var init, last := items[..|items| - 1], items[|items| - 1];
      assert items == init + [last];
      at := PreambleIs(init);
      PreambleNext(init, last);
      AboveNext(init, last);
      OneMoreChosen(items, at, AboveSections(init), AboveSections(items));
      if |init| in AboveSections(items) { at := at + [|init|]; }
    }
  }

  lemma {:induction false} NothingAbove()
    ensures PreambleOf([]) == []
  {
  }

  ghost predicate NoneSectioned(items: seq<Item>) { forall k :: 0 <= k < |items| ==> items[k].section.None? }

  lemma {:induction false} AboveNext(init: seq<Item>, last: Item)
    ensures var items := init + [last];
            && (forall i: nat :: i < |init| ==> (i in AboveSections(init) <==> i in AboveSections(items)))
            && (|init| in AboveSections(items)
                <==> NoneSectioned(init) && last.section.None? && !HasLevel(last, 1))
  {
    hide HasLevel;
    assert forall k :: 0 <= k < |init| ==> (init + [last])[k] == init[k];
  }

  lemma {:induction false} PreambleNext(init: seq<Item>, last: Item)
    ensures PreambleOf(init + [last])
        == PreambleOf(init) + if NoneSectioned(init) && last.section.None? && !HasLevel(last, 1)
                              then [last.lines] else []
  {
    hide HasLevel, Level;
    LevelIs(last, 1);
    var all := init + [last];
    if init == [] {
      assert all[1..] == [];
      HeadingHasLevel(last);
    } else {
      assert all[0] == init[0] && all[1..] == init[1..] + [last];
      PreambleNext(init[1..], last);
      assert NoneSectioned(init) <==> init[0].section.None? && NoneSectioned(init[1..]) by {
        if init[0].section.None? && NoneSectioned(init[1..]) {
          forall k | 0 <= k < |init| ensures init[k].section.None? {
            if k > 0 { assert init[k] == init[1..][k - 1]; }
          }
        }
      }
    }
  }

  lemma {:induction false} HeadingHasLevel(item: Item)
    ensures HasLevel(item, 1) ==> item.kind == Heading
  {
  }

  /** Where a section comes: at the first place where the order has it, or after all. */
  lemma {:induction false} PlaceIsFirst(order: seq<string>, key: Option<string>)
    ensures var p := DebtText.Place(order, key);
            && p <= |order| && (p < |order| ==> Some(order[p]) == key)
            && forall i :: 0 <= i < p ==> Some(order[i]) != key
  {
    if order != [] && key != Some(order[0]) { PlaceIsFirst(order[1..], key); }
  }

  // ----- line by line

  /** A title, the texts above the sections, and the sections, each with its heading and its texts. */
  ghost function FileBlocks(name: string, preamble: seq<DebtText.Text>, sections: seq<Section>): seq<seq<string>> {
    [["# " + name + " technical debt", ""]]
    + seq(|preamble|, i requires 0 <= i < |preamble| => preamble[i] + [""])
    + seq(|sections|, i requires 0 <= i < |sections| =>
        ["### " + (if sections[i].key.Some? then sections[i].key.value else "None"), ""]
        + Joined(sections[i].texts) + [""])
  }

  lemma {:induction false} AboveIs(name: string, preamble: seq<DebtText.Text>)
    ensures Above(Title(name), preamble) == Joined(FileBlocks(name, preamble, []))
  {
    if preamble == [] {
      assert FileBlocks(name, [], []) == [] + [["# " + name + " technical debt", ""]];
      JoinedMore([], ["# " + name + " technical debt", ""]);
    } else {
      var init, last := preamble[..|preamble| - 1], preamble[|preamble| - 1];
      AboveIs(name, init);
      assert FileBlocks(name, preamble, []) == FileBlocks(name, init, []) + [last + [""]];
      JoinedMore(FileBlocks(name, init, []), last + [""]);
    }
  }

  lemma {:induction false} RenderNext(above: seq<string>, sections: seq<Section>)
    requires sections != []
    ensures Render(above, sections)
        == Render(above, sections[..|sections| - 1]) + SectionLines(sections[|sections| - 1])
  {
    hide SectionLines;
    var init, last := sections[..|sections| - 1], sections[|sections| - 1];
    assert above + (SectionsLines(init) + SectionLines(last)) == (above + SectionsLines(init)) + SectionLines(last);
  }

  lemma {:induction false} BlocksNext(name: string, preamble: seq<DebtText.Text>, sections: seq<Section>)
    requires sections != []
    ensures FileBlocks(name, preamble, sections)
        == FileBlocks(name, preamble, sections[..|sections| - 1]) + [SectionLines(sections[|sections| - 1])]
  {
    hide Joined, Flat;
    FlatIsJoined(sections[|sections| - 1].texts);
  }

  /** A debt file, line by line. */
  lemma {:induction false} FileIs(name: string, preamble: seq<DebtText.Text>, sections: seq<Section>)
    ensures Render(Above(Title(name), preamble), sections) == Joined(FileBlocks(name, preamble, sections))
  {
    hide Above, Title, Render, SectionLines, FileBlocks, Joined;
    if sections == [] {
      AboveIs(name, preamble);
      NothingBelow(Above(Title(name), preamble));
    } else {
      var init, last := sections[..|sections| - 1], sections[|sections| - 1];
      FileIs(name, preamble, init);
      RenderNext(Above(Title(name), preamble), sections);
      BlocksNext(name, preamble, sections);
      JoinedMore(FileBlocks(name, preamble, init), SectionLines(last));
    }
  }

  lemma {:induction false} NothingBelow(above: seq<string>)
    ensures Render(above, []) == above
  {
  }

  // ----- which files

  ghost predicate Changes(op: Op, before: seq<Keyed>, after: seq<Keyed>, n: string) {
    && !op.equal
    && ((exists x :: op.i1 <= x < op.i2 && x < |before| && before[x].key.name == n)
        || exists y :: op.j1 <= y < op.j2 && y < |after| && after[y].key.name == n)
  }

  lemma {:induction false} NamesAre(entries: seq<Keyed>, n: string)
    ensures n in Names(entries) <==> exists x :: 0 <= x < |entries| && entries[x].key.name == n
  {
  }

  lemma {:induction false} StretchHas(op: Op, before: seq<Keyed>, after: seq<Keyed>, n: string)
    requires op.i1 <= op.i2 <= |before| && op.j1 <= op.j2 <= |after|
    ensures !op.equal ==>
              (n in Names(before[op.i1..op.i2] + after[op.j1..op.j2]) <==> Changes(op, before, after, n))
  {
    var old', new' := before[op.i1..op.i2], after[op.j1..op.j2];
    var both := old' + new';
    NamesAre(both, n);
    hide Names;
    if x :| 0 <= x < |both| && both[x].key.name == n {
      if x < |old'| { assert both[x] == before[op.i1 + x]; } else { assert both[x] == after[op.j1 + (x - |old'|)]; }
    }
    if x :| op.i1 <= x < op.i2 && before[x].key.name == n { assert both[x - op.i1] == before[x]; }
    if y :| op.j1 <= y < op.j2 && after[y].key.name == n { assert both[|old'| + (y - op.j1)] == after[y]; }
  }

  /** A change touches the components that have an entry in a stretch that is not equal, old or new. */
  lemma {:induction false} TouchedAre(ops: seq<Op>, before: seq<Keyed>, after: seq<Keyed>, i: nat, j: nat, n: string)
    requires Covers(ops, before, after, i, j)
    ensures n in Touched(ops, before, after, i, j)
        <==> exists o :: 0 <= o < |ops| && Changes(ops[o], before, after, n)
    decreases |ops|
  {
    hide Names, Changes;
    if ops != [] {
      var op, rest := ops[0], ops[1..];
      TouchedAre(rest, before, after, op.i2, op.j2, n);
      StretchHas(op, before, after, n);
      if op.equal { EqualChangesNothing(op, before, after, n); }
      assert forall o :: 1 <= o < |ops| ==> ops[o] == rest[o - 1];
      if o :| 0 <= o < |rest| && Changes(rest[o], before, after, n) { assert ops[o + 1] == rest[o]; }
    }
  }

  lemma {:induction false} EqualChangesNothing(op: Op, before: seq<Keyed>, after: seq<Keyed>, n: string)
    requires op.equal
    ensures !Changes(op, before, after, n)
  {
  }
}
