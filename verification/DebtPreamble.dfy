/** What stands above the first section of a debt file, and what of it is read again once it is written back. */
module DebtPreamble {
  import opened Options
  import opened DebtText

  /** The texts above the first section; a first-level heading is the title, which is written anew. */
  function PreambleOf(items: seq<Item>): seq<Text> {
    if items == [] || items[0].section.Some? then []
    else (if items[0].kind == Heading && Level(items[0], 1) then [] else [items[0].lines]) + PreambleOf(items[1..])
  }

  method ReadPreamble(lines: seq<string>) returns (texts: seq<Text>)
    ensures texts == PreambleOf(Parsed(lines))
  {
    hide Level, Parsed;
    var items := Parse(lines);
    texts := [];
    var n := 0;
    while n < |items| && items[n].section.None?
      invariant n <= |items| && PreambleOf(items) == texts + PreambleOf(items[n..])
    {
      assert items[n..][0] == items[n] && items[n..][1..] == items[n + 1..];
      if !(items[n].kind == Heading && Level(items[n], 1)) {
        assert texts + ([items[n].lines] + PreambleOf(items[n + 1..]))
            == (texts + [items[n].lines]) + PreambleOf(items[n + 1..]);
        texts := texts + [items[n].lines];
      } else {
        assert [] + PreambleOf(items[n + 1..]) == PreambleOf(items[n + 1..]);
      }
      n := n + 1;
    }
    assert n < |items| ==> items[n..][0] == items[n];
    assert PreambleOf(items[n..]) == [] && texts + [] == texts;
  }

  function Title(name: string): string { "# " + name + " technical debt" }

  lemma {:induction false} TitleHeads(name: string)
    ensures NoSection([Title(name), ""])
  {
    HashesBefore(Title(name), 1);
  }

  lemma {:induction false} NoSectionConcat(a: seq<string>, b: seq<string>)
    requires NoSection(a) && NoSection(b)
    ensures NoSection(a + b)
  {
    hide HeadingOf;
  }

  /** No text has a heading of a section. */
  ghost predicate Sectionless(texts: seq<Text>) { forall i :: 0 <= i < |texts| ==> NoSection(texts[i]) }

  lemma {:induction false} AboveHasNoSection(name: string, texts: seq<Text>)
    requires Sectionless(texts)
    ensures NoSection(Above(Title(name), texts))
  {
    hide NoSection, Title;
    if texts == [] {
      TitleHeads(name);
    } else {
      AboveHasNoSection(name, texts[..|texts| - 1]);
      BlankHasNoSection();
      NoSectionConcat(Above(Title(name), texts[..|texts| - 1]), texts[|texts| - 1]);
      NoSectionConcat(Above(Title(name), texts[..|texts| - 1]) + texts[|texts| - 1], [""]);
    }
  }

  lemma {:induction false} BlankHasNoSection()
    ensures NoSection([""])
  {
  }

  /** An item that stands under no section has no heading of one. */
  lemma {:induction false} ItemHasNoSection(item: Item)
    requires ItemOk(item) && item.section.None?
    ensures NoSection(item.lines)
  {
  }

  lemma {:induction false} PreambleIsSectionless(items: seq<Item>)
    requires forall i :: 0 <= i < |items| ==> ItemOk(items[i])
    ensures Sectionless(PreambleOf(items))
  {
    hide ItemOk, NoSection, Level;
    if items != [] && items[0].section.None? {
      PreambleIsSectionless(items[1..]);
      ItemHasNoSection(items[0]);
    }
  }

  /** Whatever the file is, what is written above its sections is not read as one. */
  lemma {:induction false} PreambleHasNoSection(lines: seq<string>, name: string)
    ensures NoSection(Above(Title(name), PreambleOf(Parsed(lines))))
  {
    hide ItemOk, NoSection, Run, Title, Above;
    StartIsOk();
    RunKeeps(START, lines);
    PreambleIsSectionless(Parsed(lines));
    AboveHasNoSection(name, PreambleOf(Parsed(lines)));
  }

  // ----- when the preamble reads back as it was

  /** What stands above the sections: an entry, a line, or a heading that is neither a title nor one of a section. */
  predicate AboveShape(t: Text) {
    || EntryShape(t) || PlainShape(t)
    || (|t| == 1 && HeadingOf(t[0]).Some? && HeadingOf(t[0]).value.0 != 1 && HeadingOf(t[0]).value.0 != 3)
  }

  ghost predicate AllAbove(texts: seq<Text>) { forall i :: 0 <= i < |texts| ==> AboveShape(texts[i]) }

  lemma {:induction false} PreambleIsAbove(items: seq<Item>)
    requires forall i :: 0 <= i < |items| ==> ItemOk(items[i])
    ensures AllAbove(PreambleOf(items))
  {
    hide EntryShape, PlainShape, HeadingOf;
    if items != [] && items[0].section.None? { PreambleIsAbove(items[1..]); }
  }

  /** One text gives one item, unless the entry before it swallows it. */
  lemma {:induction false} AboveRuns(s: State, t: Text)
    requires Proper(s) && AboveShape(t)
    ensures var s' := Run(s, t); Proper(s') && s'.section == s.section
    ensures var swallowed := s.open && PlainShape(t) && Indented(t[0]); var s' := Run(s, t);
            if swallowed then |s'.items| == |s.items| && s'.open
            else s'.items == s.items + [ItemOf(t, s.section)] && s'.open == EntryShape(t)
  {
    if EntryShape(t) || PlainShape(t) {
      TextRuns(s, t);
    } else {
      assert t == [t[0]];
      RunOne(s, t[0]);
    }
  }

  ghost predicate OpenAfter(texts: seq<Text>, open: bool) {
    if texts == [] then open else EntryShape(texts[|texts| - 1])
  }

  lemma {:induction false} SeparateMore(init: seq<Text>, last: Text, open: bool)
    ensures Separate(init + [last], open) <==>
            Separate(init, open) && !(OpenAfter(init, open) && PlainShape(last) && Indented(last[0]))
  {
    hide EntryShape, PlainShape, Indented;
    if init == [] {
      assert init + [last] == [last] && [last][1..] == [];
    } else {
      SeparateMore(init[1..], last, EntryShape(init[0]));
      assert (init + [last])[1..] == init[1..] + [last];
    }
  }

  function TitleItem(title: string): Item { Item(Heading, None, [title]) }

  /** What the lines above the sections are parsed to, given the texts they were made of. */
  ghost predicate ReadsAbove(s: State, title: string, texts: seq<Text>) {
    && Proper(s) && s.section.None? && s.items != [] && s.items[0] == TitleItem(title)
    && |s.items| <= 1 + |texts|
    && (Separate(texts, false) ==>
          s.items == [TitleItem(title)] + ItemsOf(texts, None) && s.open == OpenAfter(texts, false))
    && (!Separate(texts, false) ==> |s.items| < 1 + |texts|)
  }

  lemma {:induction false} TitleRuns(title: string)
    requires HeadingOf(title).Some? && HeadingOf(title).value.0 == 1
    ensures ReadsAbove(Run(START, [title, ""]), title, [])
  {
    assert [title, ""] == [title] + [""];
    RunConcat(START, [title], [""]);
    RunOne(START, title);
    var s := Step(START, title);
    assert s == State([TitleItem(title)], None, false, []);
    RunOne(s, "");
    BlankStays(s);
  }

  lemma {:induction false} OneMoreAbove(s: State, title: string, init: seq<Text>, last: Text)
    requires ReadsAbove(s, title, init) && AboveShape(last)
    ensures ReadsAbove(Run(s, last), title, init + [last])
  {
    hide AboveShape, EntryShape, PlainShape, Indented, Run, ItemOf, Separate;
    var s' := Run(s, last);
    AboveRuns(s, last);
    SeparateMore(init, last, false);
    FirstStays(s, last);
    if Separate(init + [last], false) {
      assert ItemsOf(init + [last], None) == ItemsOf(init, None) + [ItemOf(last, None)];
    }
  }

  /** The first item, when it is a heading, is never changed. */
  lemma {:induction false} FirstStays(s: State, lines: seq<string>)
    requires Proper(s) && s.items != [] && s.items[0].kind == Heading
    ensures Run(s, lines).items != [] && Run(s, lines).items[0] == s.items[0]
  {
    ItemsStay(s, lines);
  }

  ghost function Fixed(s: State): int { |s.items| - if s.open then 1 else 0 }

  /** Items are only added, and the last one changed while it is an entry that goes on. */
  lemma {:induction false} ItemsStay(s: State, lines: seq<string>)
    requires Proper(s)
    ensures Fixed(s) <= |Run(s, lines).items| && forall i :: 0 <= i < Fixed(s) ==> Run(s, lines).items[i] == s.items[i]
    decreases |lines|
  {
    hide Step, HeadingOf;
    if lines != [] {
      StepStays(s, lines[0]);
      ItemsStay(Step(s, lines[0]), lines[1..]);
    }
  }

  lemma {:induction false} StepStays(s: State, line: string)
    requires Proper(s)
    ensures var s' := Step(s, line);
            && Proper(s') && Fixed(s) <= Fixed(s')
            && forall i :: 0 <= i < Fixed(s) ==> s'.items[i] == s.items[i]
  {
    hide HeadingOf, StartsEntry, Indented, IsBlank;
  }

  lemma {:induction false} AboveReads(title: string, texts: seq<Text>)
    requires HeadingOf(title).Some? && HeadingOf(title).value.0 == 1 && AllAbove(texts)
    ensures ReadsAbove(Run(START, Above(title, texts)), title, texts)
  {
    hide AboveShape, Run, Separate, ReadsAbove, HeadingOf;
    if texts == [] {
      TitleRuns(title);
    } else {
      var init, last := texts[..|texts| - 1], texts[|texts| - 1];
      AboveReads(title, init);
      var s := Run(START, Above(title, init));
      OneMoreAbove(s, title, init, last);
      assert init + [last] == texts;
      assert Above(title, texts) == Above(title, init) + (last + [""]);
      RunConcat(START, Above(title, init), last + [""]);
      RunConcat(s, last, [""]);
      BlankReads(Run(s, last), title, texts);
    }
  }

  lemma {:induction false} BlankReads(s: State, title: string, texts: seq<Text>)
    requires ReadsAbove(s, title, texts)
    ensures ReadsAbove(Run(s, [""]), title, texts)
  {
    hide Step, Separate;
    RunOne(s, "");
    BlankStays(s);
  }

  // ----- where the preamble ends

  lemma {:induction false} PreambleStops(items: seq<Item>, heading: Item, more: seq<Item>)
    requires heading.section.Some?
    ensures PreambleOf(items + [heading] + more) == PreambleOf(items)
  {
    hide Level;
    if items != [] {
      PreambleStops(items[1..], heading, more);
      assert (items + [heading] + more)[1..] == items[1..] + [heading] + more;
    }
  }

  lemma {:induction false} PreambleIsShort(items: seq<Item>)
    ensures |PreambleOf(items)| <= |items|
  {
    if items != [] { PreambleIsShort(items[1..]); }
  }

  lemma {:induction false} PreambleOfItems(texts: seq<Text>)
    requires AllAbove(texts)
    ensures PreambleOf(ItemsOf(texts, None)) == texts
  {
    hide EntryShape, PlainShape, HeadingOf;
    if texts != [] {
      PreambleOfItems(texts[1..]);
      assert ItemsOf(texts, None)[1..] == ItemsOf(texts[1..], None);
    }
  }

  lemma {:induction false} FirstLine(sections: seq<Section>)
    requires sections != []
    ensures SectionsLines(sections) != [] && SectionsLines(sections)[0] == "### " + Label(sections[0].key)
  {
    if |sections| > 1 {
      FirstLine(sections[..|sections| - 1]);
    } else {
      assert SectionsLines(sections[..0]) == [];
    }
  }

  lemma {:induction false} LabelIsHeading(title: string)
    requires title != ""
    ensures HeadingOf("### " + title).Some? && HeadingOf("### " + title).value.0 == 3
  {
    HashesBefore("### " + title, 3);
  }

  /** The sections below add nothing to the preamble. */
  lemma {:induction false} SectionsAreBelow(above: seq<string>, sections: seq<Section>)
    requires sections == [] || Label(sections[0].key) != ""
    requires Proper(Run(START, above))
    ensures PreambleOf(Parsed(Render(above, sections))) == PreambleOf(Parsed(above))
  {
    hide Run, PreambleOf, HeadingOf, SectionsLines;
    var lines := SectionsLines(sections);
    if sections == [] {
      NoLines();
      assert above + [] == above;
    } else {
      FirstLine(sections);
      LabelIsHeading(Label(sections[0].key));
      var s := Run(START, above);
      var heads := Step(s, lines[0]);
      StepStays(s, lines[0]);
      assert lines == [lines[0]] + lines[1..];
      RunConcat(START, above, lines);
      RunConcat(s, [lines[0]], lines[1..]);
      RunOne(s, lines[0]);
      ItemsStay(heads, lines[1..]);
      var all := Run(heads, lines[1..]).items;
      assert all == s.items + [heads.items[|s.items|]] + all[|s.items| + 1..];
      PreambleStops(s.items, heads.items[|s.items|], all[|s.items| + 1..]);
    }
  }

  lemma {:induction false} NoLines()
    ensures SectionsLines([]) == []
  {
  }

  lemma {:induction false} TitleIsHeading(name: string)
    ensures HeadingOf(Title(name)).Some? && HeadingOf(Title(name)).value.0 == 1
  {
    HashesBefore(Title(name), 1);
  }

  lemma {:induction false} AboveKeeps(s: State, title: string, texts: seq<Text>)
    requires HeadingOf(title).Some? && HeadingOf(title).value.0 == 1 && AllAbove(texts) && ReadsAbove(s, title, texts)
    ensures PreambleOf(s.items) == texts <==> Separate(texts, false)
  {
    hide AllAbove, HeadingOf, Separate;
    assert Level(TitleItem(title), 1);
    PreambleIsShort(s.items[1..]);
    if Separate(texts, false) {
      PreambleOfItems(texts);
      assert s.items[1..] == ItemsOf(texts, None);
    }
  }

  /**
    What a file has above its sections reads back as it was, once the file is written anew, exactly when no entry
    swallows the text that now follows it. A section's title is not empty, as those that are read never are.
   */
  lemma {:induction false} PreambleReadsBack(lines: seq<string>, name: string, sections: seq<Section>)
    requires sections == [] || Label(sections[0].key) != ""
    ensures var texts := PreambleOf(Parsed(lines));
            PreambleOf(Parsed(Render(Above(Title(name), texts), sections))) == texts <==> Separate(texts, false)
  {
    hide ItemOk, Run, Render, Above, Title, PreambleOf, AllAbove, HeadingOf, Separate;
    var texts := PreambleOf(Parsed(lines));
    StartIsOk();
    RunKeeps(START, lines);
    PreambleIsAbove(Parsed(lines));
    TitleIsHeading(name);
    AboveReads(Title(name), texts);
    SectionsAreBelow(Above(Title(name), texts), sections);
    AboveKeeps(Run(START, Above(Title(name), texts)), Title(name), texts);
  }

  /** A title between an entry and an indented line is not a text, so the entry swallows the line. */
  lemma {:induction false} PreambleCanChange(name: string, sections: seq<Section>)
    requires sections == [] || Label(sections[0].key) != ""
    ensures PreambleOf(Parsed(["- a", "# T", "  b"])) == [["- a"], ["  b"]]
    ensures PreambleOf(Parsed(Render(Above(Title(name), [["- a"], ["  b"]]), sections))) != [["- a"], ["  b"]]
  {
    hide Parsed, Render, Above, Title, PreambleOf, HeadingOf;
    SwallowedIsRead();
    PreambleReadsBack(["- a", "# T", "  b"], name, sections);
    SwallowedLines();
    assert [["- a"], ["  b"]][1..] == [["  b"]];
  }

  lemma {:induction false} SwallowedLines()
    ensures HeadingOf("# T").Some? && HeadingOf("# T").value.0 == 1
    ensures HeadingOf("- a").None? && StartsEntry("- a") && EntryShape(["- a"])
    ensures HeadingOf("  b").None? && !StartsEntry("  b") && !IsBlank("  b") && Indented("  b") && PlainShape(["  b"])
  {
    HashesBefore("# T", 1);
    HashesBefore("- a", 0);
    HashesBefore("  b", 0);
    assert !IsSpace("  b"[2]);
  }

  lemma {:induction false} PreambleNext(items: seq<Item>, item: Item)
    requires item.section.None?
    ensures PreambleOf([item] + items)
        == (if item.kind == Heading && Level(item, 1) then [] else [item.lines]) + PreambleOf(items)
    ensures PreambleOf([]) == []
  {
    assert ([item] + items)[1..] == items;
  }

  lemma {:induction false} SwallowedIsRead()
    ensures PreambleOf(Parsed(["- a", "# T", "  b"])) == [["- a"], ["  b"]]
  {
    hide HeadingOf, StartsEntry, IsBlank, Indented, Run, PreambleOf;
    SwallowedLines();
    assert ["- a", "# T", "  b"] == ["- a", "# T"] + ["  b"] && ["- a", "# T"] == ["- a"] + ["# T"];
    RunConcat(START, ["- a", "# T"], ["  b"]);
    RunConcat(START, ["- a"], ["# T"]);
    RunOne(START, "- a");
    var entry, title, line := Item(Entry, None, ["- a"]), Item(Heading, None, ["# T"]), Item(Plain, None, ["  b"]);
    var s := Step(START, "- a");
    assert s == State([entry], None, true, []);
    RunOne(s, "# T");
    var s' := Step(s, "# T");
    assert s' == State([entry, title], None, false, []);
    RunOne(s', "  b");
    assert Parsed(["- a", "# T", "  b"]) == [entry, title, line];
    assert Level(title, 1);
    PreambleNext([], line);
    PreambleNext([line], title);
    PreambleNext([title, line], entry);
    assert [line] + [] == [line] && [title] + [line] == [title, line];
    assert [entry] + [title, line] == [entry, title, line];
  }
}
