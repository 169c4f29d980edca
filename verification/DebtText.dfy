/**
  The text of a debt file: its lines parsed to items, its sections read from the items, and sections written
  back as lines. An item's text is kept as its lines.
 */
module DebtText {
  import opened Options
  import opened Sorting

  type Text = seq<string>

  datatype Kind = Heading | Entry | Plain
  datatype Item = Item(kind: Kind, section: Option<string>, lines: Text)

  // ----- lines

  predicate IsSpace(c: char) { c == ' ' || '\t' <= c <= '\r' }

  predicate IsBlank(line: string) { forall i :: 0 <= i < |line| ==> IsSpace(line[i]) }

  predicate Indented(line: string) { line != "" && (line[0] == ' ' || line[0] == '\t') }

  predicate StartsEntry(line: string) { |line| >= 2 && line[0] == '-' && line[1] == ' ' }

  function TrimRight(s: string): (r: string)
    ensures r == "" || !IsSpace(r[|r| - 1])
  {
    if s != "" && IsSpace(s[|s| - 1]) then TrimRight(s[..|s| - 1]) else s
  }

  /** The title in the rest of a heading: at least one character, trailing space aside. */
  function TitleOf(rest: string): (r: string)
    requires rest != ""
    ensures r != ""
  {
    if TrimRight(rest) == "" then rest[..1] else TrimRight(rest)
  }

  function Hashes(line: string): (n: nat)
    ensures n <= |line| && (forall i :: 0 <= i < n ==> line[i] == '#') && (n < |line| ==> line[n] != '#')
  {
    if line == "" || line[0] != '#' then 0 else 1 + Hashes(line[1..])
  }

  /** The level and the title of a heading. */
  function HeadingOf(line: string): (r: Option<(nat, string)>)
    ensures r.Some? ==> r.value.1 != "" && line != "" && line[0] == '#'
  {
    var n := Hashes(line);
    if 1 <= n <= 6 && n + 1 < |line| && line[n] == ' ' then Some((n, TitleOf(line[n + 1..]))) else None
  }

  // ----- parsing

  /** The items so far, whether the last one is an entry that can go on, and the blank lines since its last line. */
  datatype State = State(items: seq<Item>, section: Option<string>, open: bool, blanks: seq<string>)

  const START := State([], None, false, [])

  ghost predicate Proper(s: State) {
    s.open ==> s.items != [] && s.items[|s.items| - 1].kind == Entry && s.items[|s.items| - 1].section == s.section
  }

  function Continued(items: seq<Item>, more: seq<string>): seq<Item>
    requires items != []
  {
    var last := items[|items| - 1];
    items[..|items| - 1] + [last.(lines := last.lines + more)]
  }

  function Step(s: State, line: string): (r: State)
    requires s.open ==> s.items != []
    ensures r.open ==> r.items != []
  {
    match HeadingOf(line)
    case Some((level, title)) =>
      var section := if level == 3 then Some(title) else s.section;
      State(s.items + [Item(Heading, section, [line])], section, false, s.blanks)
    case None =>
      if StartsEntry(line) then State(s.items + [Item(Entry, s.section, [line])], s.section, true, [])
      else if s.open && Indented(line) then State(Continued(s.items, s.blanks + [line]), s.section, true, [])
      else if !IsBlank(line) then State(s.items + [Item(Plain, s.section, [line])], s.section, false, s.blanks)
      else s.(blanks := s.blanks + [line])
  }

  function Run(s: State, lines: seq<string>): (r: State)
    requires s.open ==> s.items != []
    ensures r.open ==> r.items != []
    decreases |lines|
  {
    if lines == [] then s else Run(Step(s, lines[0]), lines[1..])
  }

  lemma {:induction false} RunConcat(s: State, a: seq<string>, b: seq<string>)
    requires s.open ==> s.items != []
    ensures Run(s, a + b) == Run(Run(s, a), b)
    decreases |a|
  {
    if a == [] {
      assert a + b == b;
    } else {
      assert (a + b)[0] == a[0] && (a + b)[1..] == a[1..] + b;
      RunConcat(Step(s, a[0]), a[1..], b);
    }
  }

  lemma {:induction false} RunOne(s: State, line: string)
    requires s.open ==> s.items != []
    ensures Run(s, [line]) == Step(s, line)
  {
  }

  function Parsed(lines: seq<string>): seq<Item> { Run(START, lines).items }

  /** Parses the lines of a file. */
  method Parse(lines: seq<string>) returns (items: seq<Item>)
    ensures items == Parsed(lines)
  {
    var section: Option<string>, open, blanks := None, false, [];
    items := [];
    for n := 0 to |lines|
      invariant open ==> items != []
      invariant Run(START, lines) == Run(State(items, section, open, blanks), lines[n..])
    {
      var line := lines[n];
      assert lines[n..][1..] == lines[n + 1..];
      var heading := HeadingOf(line);
      if heading.Some? {
        section := if heading.value.0 == 3 then Some(heading.value.1) else section;
        open := false;
        items := items + [Item(Heading, section, [line])];
      } else if StartsEntry(line) {
        items, open, blanks := items + [Item(Entry, section, [line])], true, [];
      } else if open && Indented(line) {
        items, blanks := Continued(items, blanks + [line]), [];
      } else if !IsBlank(line) {
        items, open := items + [Item(Plain, section, [line])], false;
      } else {
        blanks := blanks + [line];
      }
    }
  }

  // ----- reading the sections

  type Sections = map<Option<string>, seq<Text>>

  /** The section being read, and the sections so far. */
  datatype Reading = Reading(section: Option<string>, sections: Sections)

  function TextsIn(sections: Sections, section: Option<string>)
    : seq<Text> { if section in sections then sections[section] else [] }

  predicate Level(item: Item, level: nat) {
    item.lines != [] && HeadingOf(item.lines[0]).Some? && HeadingOf(item.lines[0]).value.0 == level
  }

  function ReadItem(r: Reading, item: Item): Reading {
    if item.kind == Heading && item.section.Some? && Level(item, 3) then
      Reading(item.section, r.sections[item.section := TextsIn(r.sections, item.section)])
    else if r.section.Some? && (item.kind != Heading || Level(item, 4)) then
      r.(sections := r.sections[r.section := TextsIn(r.sections, r.section) + [item.lines]])
    else r
  }

  function ReadAll(items: seq<Item>): Reading {
    if items == [] then Reading(None, map[]) else ReadItem(ReadAll(items[..|items| - 1]), items[|items| - 1])
  }

  /** What a file holds under each section. */
  function Read(lines: seq<string>): Sections { ReadAll(Parsed(lines)).sections }

  method ReadDebt(lines: seq<string>) returns (sections: Sections)
    ensures sections == Read(lines)
  {
    var items := Parse(lines);
    var section: Option<string> := None;
    sections := map[];
    for n := 0 to |items|
      invariant Reading(section, sections) == ReadAll(items[..n])
    {
      assert items[..n + 1][..n] == items[..n];
      var item := items[n];
      if item.kind == Heading && item.section.Some? && Level(item, 3) {
        section := item.section;
        sections := sections[section := TextsIn(sections, section)];
      } else if section.Some? && (item.kind != Heading || Level(item, 4)) {
        sections := sections[section := TextsIn(sections, section) + [item.lines]];
      }
    }
    assert items[..|items|] == items;
  }

  // ----- writing them

  datatype Section = Section(key: Option<string>, texts: seq<Text>)

  function Label(key: Option<string>): string { if key.Some? then key.value else "None" }

  function Flat(texts: seq<Text>): seq<string> {
    if texts == [] then [] else texts[0] + Flat(texts[1..])
  }

  function SectionLines(s: Section): seq<string> { ["### " + Label(s.key), ""] + Flat(s.texts) + [""] }

  function SectionsLines(sections: seq<Section>): seq<string> {
    if sections == [] then []
    else SectionsLines(sections[..|sections| - 1]) + SectionLines(sections[|sections| - 1])
  }

  /** A whole file; `above` is its title and preamble. */
  function Render(above: seq<string>, sections: seq<Section>): seq<string> { above + SectionsLines(sections) }

  function AsMap(sections: seq<Section>): Sections {
    if sections == [] then map[]
    else
      var last := sections[|sections| - 1];
      AsMap(sections[..|sections| - 1])[last.key := last.texts]
  }

  ghost predicate DistinctKeys(sections: seq<Section>) {
    forall i, j :: 0 <= i < j < |sections| ==> sections[i].key != sections[j].key
  }

  // ----- what can be written and read back

  /** A continuation of an entry: an indented line, or a blank one before an indented one. */
  predicate Goes(line: string) { HeadingOf(line).None? && !StartsEntry(line) && (Indented(line) || IsBlank(line)) }

  predicate EntryShape(t: Text) {
    && t != [] && HeadingOf(t[0]).None? && StartsEntry(t[0]) && (forall i :: 1 <= i < |t| ==> Goes(t[i]))
    && (|t| > 1 ==> Indented(t[|t| - 1]))
  }

  predicate PlainShape(t: Text) { |t| == 1 && HeadingOf(t[0]).None? && !StartsEntry(t[0]) && !IsBlank(t[0]) }

  predicate SubheadingShape(t: Text) { |t| == 1 && HeadingOf(t[0]).Some? && HeadingOf(t[0]).value.0 == 4 }

  predicate Shaped(t: Text) { EntryShape(t) || PlainShape(t) || SubheadingShape(t) }

  /** No indented text stands right after an entry, which would swallow it. */
  predicate Separate(texts: seq<Text>, open: bool) {
    texts == [] || (!(open && PlainShape(texts[0]) && Indented(texts[0][0]))
        && Separate(texts[1..], EntryShape(texts[0])))
  }

  predicate Clean(title: string) { title != "" && TitleOf(title) == title }

  predicate Writable(s: Section) {
    && s.key.Some? && Clean(s.key.value) && (forall i :: 0 <= i < |s.texts| ==> Shaped(s.texts[i]))
    && Separate(s.texts, false)
  }

  ghost predicate NoSection(lines: seq<string>) {
    forall i :: 0 <= i < |lines| && HeadingOf(lines[i]).Some? ==> HeadingOf(lines[i]).value.0 != 3
  }

  // ----- the items of shaped texts

  lemma {:induction false} HashesBefore(line: string, n: nat)
    requires n < |line| && (forall i :: 0 <= i < n ==> line[i] == '#') && line[n] != '#'
    ensures Hashes(line) == n
  {
  }

  lemma {:induction false} LabelHeads(title: string)
    requires Clean(title)
    ensures HeadingOf("### " + title) == Some((3, title))
  {
    HashesBefore("### " + title, 3);
    assert ("### " + title)[4..] == title;
  }

  lemma {:induction false} BlankStays(s: State)
    requires s.open ==> s.items != []
    ensures Step(s, "") == s.(blanks := s.blanks + [""])
  {
  }

  lemma {:induction false} GoesOn(s: State, line: string)
    requires Proper(s) && s.open && Goes(line)
    ensures Proper(Step(s, line)) && !Indented("")
    ensures Step(s, line) == if Indented(line) then State(Continued(s.items, s.blanks + [line]), s.section, true, [])
                             else s.(blanks := s.blanks + [line])
  {
  }

  /** An entry goes on to the last of these lines. */
  lemma {:induction false} ContinuationRuns(s: State, lines: seq<string>)
    requires Proper(s) && s.open && (forall i :: 0 <= i < |lines| ==> Goes(lines[i]))
    requires lines != [] ==> Indented(lines[|lines| - 1])
    ensures Run(s, lines) == if lines == [] then s else State(Continued(s.items, s.blanks + lines), s.section, true, [])
    decreases |lines|
  {
    hide Step, Goes, Indented;
    if lines != [] {
      var line, rest := lines[0], lines[1..];
      var next := Step(s, line);
      GoesOn(s, line);
      ContinuationRuns(next, rest);
      if Indented(line) {
        ContinuedTwice(s.items, s.blanks + [line], [] + rest);
        assert s.blanks + [line] + ([] + rest) == s.blanks + lines;
        if rest == [] { assert s.blanks + [line] == s.blanks + lines; }
      } else {
        assert s.blanks + [line] + rest == s.blanks + lines;
      }
    }
  }

  lemma {:induction false} ContinuedTwice(items: seq<Item>, a: seq<string>, b: seq<string>)
    requires items != []
    ensures Continued(Continued(items, a), b) == Continued(items, a + b)
  {
    var init, last := items[..|items| - 1], items[|items| - 1];
    assert last.lines + a + b == last.lines + (a + b);
    assert Continued(items, a)[..|items| - 1] == init;
  }

  lemma {:induction false} EntryRuns(s: State, t: Text)
    requires Proper(s) && EntryShape(t)
    ensures Run(s, t) == State(s.items + [Item(Entry, s.section, t)], s.section, true, [])
  {
    var rest := t[1..];
    var first := Step(s, t[0]);
    ContinuationRuns(first, rest);
    assert first.items[..|s.items|] == s.items;
    assert [t[0]] + ([] + rest) == t;
    if rest == [] { assert t == [t[0]]; }
  }

  function ItemOf(t: Text, section: Option<string>): Item {
    Item(if EntryShape(t) then Entry else if PlainShape(t) then Plain else Heading, section, t)
  }

  function ItemsOf(texts: seq<Text>, section: Option<string>): (r: seq<Item>)
    ensures |r| == |texts| && forall i :: 0 <= i < |r| ==> r[i] == ItemOf(texts[i], section)
  {
    seq(|texts|, i requires 0 <= i < |texts| => ItemOf(texts[i], section))
  }

  /** One text gives one item, unless the entry before it swallows it. */
  lemma {:induction false} TextRuns(s: State, t: Text)
    requires Proper(s) && Shaped(t)
    ensures var s' := Run(s, t); Proper(s') && s'.section == s.section
    ensures var swallowed := s.open && PlainShape(t) && Indented(t[0]); var s' := Run(s, t);
            if swallowed then |s'.items| == |s.items| && s'.open
            else s'.items == s.items + [ItemOf(t, s.section)] && s'.open == EntryShape(t)
  {
    if EntryShape(t) {
      EntryRuns(s, t);
    } else {
      assert t == [t[0]];
      RunOne(s, t[0]);
    }
  }

  lemma {:induction false} RunNone(s: State)
    requires s.open ==> s.items != []
    ensures Run(s, []) == s
  {
  }

  /** Texts give one item each when none is swallowed. */
  lemma {:induction false} SeparateTextsRun(s: State, texts: seq<Text>)
    requires Proper(s) && (forall i :: 0 <= i < |texts| ==> Shaped(texts[i])) && Separate(texts, s.open)
    ensures var s' := Run(s, Flat(texts));
            Proper(s') && s'.section == s.section && s'.items == s.items + ItemsOf(texts, s.section)
    decreases |texts|
  {
    hide Shaped, EntryShape, PlainShape, Step, Run, ItemOf;
    if texts == [] {
      RunNone(s);
      assert s.items + ItemsOf(texts, s.section) == s.items;
    } else {
      RunConcat(s, texts[0], Flat(texts[1..]));
      TextRuns(s, texts[0]);
      SeparateTextsRun(Run(s, texts[0]), texts[1..]);
      ItemsJoin(s.items, texts, s.section);
    }
  }

  lemma {:induction false} ItemsJoin(items: seq<Item>, texts: seq<Text>, section: Option<string>)
    requires texts != []
    ensures (items + [ItemOf(texts[0], section)]) + ItemsOf(texts[1..], section) == items + ItemsOf(texts, section)
  {
    hide ItemOf;
  }

  /** They never give more than one each, and fewer when one is swallowed. */
  lemma {:induction false} TextsRun(s: State, texts: seq<Text>)
    requires Proper(s) && forall i :: 0 <= i < |texts| ==> Shaped(texts[i])
    ensures var s' := Run(s, Flat(texts));
            && Proper(s') && s'.section == s.section && |s'.items| <= |s.items| + |texts|
            && (!Separate(texts, s.open) ==> |s'.items| < |s.items| + |texts|)
    decreases |texts|
  {
    hide Shaped, EntryShape, PlainShape, Step, Run, ItemOf;
    if texts == [] {
      RunNone(s);
    } else {
      RunConcat(s, texts[0], Flat(texts[1..]));
      TextRuns(s, texts[0]);
      TextsRun(Run(s, texts[0]), texts[1..]);
    }
  }

  // ----- reading back what was written

  lemma {:induction false} ReadOneMore(items: seq<Item>, item: Item)
    ensures ReadAll(items + [item]) == ReadItem(ReadAll(items), item)
  {
  }

  lemma {:induction false} ShapedIsRead(r: Reading, t: Text)
    requires Shaped(t) && r.section.Some? && r.section in r.sections
    ensures ReadItem(r, ItemOf(t, r.section)) == r.(sections := r.sections[r.section := r.sections[r.section] + [t]])
  {
    hide HeadingOf, StartsEntry, IsBlank, Goes, Indented;
  }

  /** Shaped texts under a section are read as they are. */
  lemma {:induction false} ReadTexts(items: seq<Item>, texts: seq<Text>, key: Option<string>)
    requires key.Some? && ReadAll(items).section == key && (forall i :: 0 <= i < |texts| ==> Shaped(texts[i]))
    requires key in ReadAll(items).sections
    ensures ReadAll(items + ItemsOf(texts, key)) == Reading(key,
        ReadAll(items).sections[key := ReadAll(items).sections[key] + texts])
  {
    hide ReadAll, ReadItem, Shaped, ItemOf;
    var all, r := ItemsOf(texts, key), ReadAll(items);
    if texts == [] {
      assert items + all == items && r.sections[key] + texts == r.sections[key];
    } else {
      var init, last := texts[..|texts| - 1], texts[|texts| - 1];
      ReadTexts(items, init, key);
      assert items + all == (items + ItemsOf(init, key)) + [ItemOf(last, key)];
      ReadOneMore(items + ItemsOf(init, key), ItemOf(last, key));
      ShapedIsRead(ReadAll(items + ItemsOf(init, key)), last);
      assert r.sections[key] + init + [last] == r.sections[key] + texts;
    }
  }

  /** Nothing but the texts of the current section changes, and there are no more of them than new items. */
  ghost predicate OnlyGrows(before: Reading, after: Reading, more: int) {
    && after.section == before.section && |TextsIn(after.sections, after.section)|
        <= |TextsIn(before.sections, before.section)| + more
    && (before.section.None? ==> after == before)
    && (forall key :: key in before.sections ==> key in after.sections)
    && (forall key :: key in after.sections ==> key in before.sections || key == before.section)
    && (forall key :: key in before.sections && key != before.section ==> after.sections[key] == before.sections[key])
  }

  lemma {:induction false} AddedReads(items: seq<Item>, item: Item)
    requires item.kind == Heading ==> !Level(item, 3)
    ensures OnlyGrows(ReadAll(items), ReadAll(items + [item]), 1)
  {
    hide ReadAll, Level;
    ReadOneMore(items, item);
  }

  lemma {:induction false} ContinuedReads(items: seq<Item>, more: seq<string>)
    requires items != [] && items[|items| - 1].kind == Entry
    ensures OnlyGrows(ReadAll(items), ReadAll(Continued(items, more)), 0)
  {
  }

  lemma {:induction false} StepIs(s: State, line: string) returns (item: Item)
    requires Proper(s) && (HeadingOf(line).Some? ==> HeadingOf(line).value.0 != 3)
    ensures Proper(Step(s, line)) && Step(s, line).section == s.section && (item.kind == Heading ==> !Level(item, 3))
    ensures var items := Step(s, line).items;
            items == s.items || items == s.items + [item] || (s.open && items == Continued(s.items, s.blanks + [line]))
  {
    hide HeadingOf, IsBlank;
    var next := Step(s, line);
    item := if |next.items| > |s.items| then next.items[|s.items|] else Item(Plain, None, []);
  }

  lemma {:induction false} StepReads(s: State, line: string)
    requires Proper(s) && (HeadingOf(line).Some? ==> HeadingOf(line).value.0 != 3)
    ensures Proper(Step(s, line)) && Step(s, line).section == s.section
    ensures OnlyGrows(ReadAll(s.items), ReadAll(Step(s, line).items), |Step(s, line).items| - |s.items|)
  {
    hide HeadingOf, Step, ReadAll, OnlyGrows, Level;
    var item := StepIs(s, line);
    AddedReads(s.items, item);
    NothingReads(ReadAll(s.items));
    if s.open { ContinuedReads(s.items, s.blanks + [line]); }
  }

  lemma {:induction false} GrowsTwice(a: Reading, b: Reading, c: Reading, m: int, n: int)
    requires OnlyGrows(a, b, m) && OnlyGrows(b, c, n)
    ensures OnlyGrows(a, c, m + n)
  {
  }

  lemma {:induction false} NothingReads(r: Reading)
    ensures OnlyGrows(r, r, 0)
  {
  }

  lemma {:induction false} LinesRead(s: State, lines: seq<string>)
    requires Proper(s) && NoSection(lines)
    ensures Proper(Run(s, lines)) && Run(s, lines).section == s.section
    ensures OnlyGrows(ReadAll(s.items), ReadAll(Run(s, lines).items), |Run(s, lines).items| - |s.items|)
    decreases |lines|
  {
    hide Step, ReadAll, HeadingOf, OnlyGrows;
    if lines == [] {
      NothingReads(ReadAll(s.items));
    } else {
      StepReads(s, lines[0]);
      forall i | 0 <= i < |lines[1..]| && HeadingOf(lines[1..][i]).Some? ensures HeadingOf(lines[1..][i]).value.0 != 3 {
        assert lines[1..][i] == lines[i + 1];
      }
      var next := Step(s, lines[0]);
      LinesRead(next, lines[1..]);
      GrowsTwice(ReadAll(s.items), ReadAll(next.items), ReadAll(Run(s, lines).items), |next.items| - |s.items|,
          |Run(s, lines).items| - |next.items|);
    }
  }

  lemma {:induction false} FlatHasNoSection(texts: seq<Text>)
    requires forall i :: 0 <= i < |texts| ==> Shaped(texts[i])
    ensures NoSection(Flat(texts))
  {
    hide HeadingOf;
    if texts != [] {
      var first, rest := texts[0], texts[1..];
      FlatHasNoSection(rest);
      forall i | 0 <= i < |Flat(texts)| && HeadingOf(Flat(texts)[i]).Some?
          ensures HeadingOf(Flat(texts)[i]).value.0 != 3 {
        if i < |first| { assert Flat(texts)[i] == first[i]; } else { assert Flat(texts)[i] == Flat(rest)[i - |first|]; }
      }
    }
  }

  /** A section with a clean title and shaped texts, as it is read. */
  ghost predicate ReadsSection(before: Sections, after: Sections, s: Section) {
    && s.key !in before && after.Keys == before.Keys + {s.key}
    && (forall key :: key in before ==> after[key] == before[key])
    && (Separate(s.texts, false) ==> after[s.key] == s.texts)
    && (!Separate(s.texts, false) ==> |after[s.key]| < |s.texts|)
  }

  lemma {:induction false} HeadingReads(s: State, title: string)
    requires Proper(s) && Clean(title) && Some(title) !in ReadAll(s.items).sections
    ensures var next := Run(s, ["### " + title, ""]);
            && Proper(next) && !next.open && next.section == Some(title)
            && ReadAll(next.items) == Reading(Some(title), ReadAll(s.items).sections[Some(title) := []])
  {
    LabelHeads(title);
    var line := "### " + title;
    var item := Item(Heading, Some(title), [line]);
    RunConcat(s, [line], [""]);
    RunOne(s, line);
    RunOne(Step(s, line), "");
    BlankStays(Step(s, line));
    ReadOneMore(s.items, item);
    assert [line] + [""] == [line, ""];
    assert Level(item, 3);
  }

  lemma {:induction false} SectionGrows(before: Sections, r1: Reading, r2: Reading, sec: Section, more: int)
    requires sec.key !in before && sec.key.Some? && r1 == Reading(sec.key, before[sec.key := []])
        && OnlyGrows(r1, r2, more)
    requires if Separate(sec.texts, false) then
        r2 == Reading(sec.key, r1.sections[sec.key := sec.texts]) else more < |sec.texts|
    ensures ReadsSection(before, r2.sections, sec)
  {
    hide Separate;
  }

  lemma {:induction false} SectionReads(s: State, sec: Section)
    requires Proper(s) && sec.key.Some? && Clean(sec.key.value) && (forall i ::
        0 <= i < |sec.texts| ==> Shaped(sec.texts[i]))
    requires sec.key !in ReadAll(s.items).sections
    ensures var s' := Run(s, SectionLines(sec));
            Proper(s') && ReadsSection(ReadAll(s.items).sections, ReadAll(s'.items).sections, sec)
  {
    hide ReadAll, Shaped, Step, HeadingOf, Run, Flat, Separate, Clean, OnlyGrows, ReadsSection;
    var header, flat := ["### " + Label(sec.key), ""], Flat(sec.texts);
    RunConcat(s, header + flat, [""]);
    RunConcat(s, header, flat);
    HeadingReads(s, sec.key.value);
    var s1 := Run(s, header);
    TextsRun(s1, sec.texts);
    FlatHasNoSection(sec.texts);
    LinesRead(s1, flat);
    var s2 := Run(s1, flat);
    RunOne(s2, "");
    BlankStays(s2);
    if Separate(sec.texts, false) {
      SeparateTextsRun(s1, sec.texts);
      ReadTexts(s1.items, sec.texts, sec.key);
      assert [] + sec.texts == sec.texts;
    }
    SectionGrows(ReadAll(s.items).sections, ReadAll(s1.items), ReadAll(s2.items), sec, |s2.items| - |s1.items|);
  }

  /** What holds after a file with these sections. */
  ghost predicate ReadsAs(sections: seq<Section>, found: Sections) {
    && (forall key :: key in found <==> exists i :: 0 <= i < |sections| && sections[i].key == key)
    && forall i :: 0 <= i < |sections| ==>
         && (Separate(sections[i].texts, false) ==> found[sections[i].key] == sections[i].texts)
         && (!Separate(sections[i].texts, false) ==> |found[sections[i].key]| < |sections[i].texts|)
  }

  ghost predicate AllShaped(sections: seq<Section>) {
    forall i :: 0 <= i < |sections| ==>
      && sections[i].key.Some? && Clean(sections[i].key.value)
      && forall j :: 0 <= j < |sections[i].texts| ==> Shaped(sections[i].texts[j])
  }

  lemma {:induction false} NotReadYet(init: seq<Section>, last: Section, found: Sections)
    requires ReadsAs(init, found) && forall i :: 0 <= i < |init| ==> init[i].key != last.key
    ensures last.key !in found
  {
  }

  lemma {:induction false} FileReads(above: seq<string>, sections: seq<Section>)
    requires NoSection(above) && DistinctKeys(sections) && AllShaped(sections)
    ensures var s := Run(START, Render(above, sections)); Proper(s) && ReadsAs(sections, ReadAll(s.items).sections)
  {
    hide ReadAll, Run, SectionLines, Shaped, Clean, Separate, ReadsAs, Proper;
    if sections == [] {
      assert Render(above, sections) == above;
      NothingRead();
      LinesRead(START, above);
    } else {
      var init, last := sections[..|sections| - 1], sections[|sections| - 1];
      FileReads(above, init);
      assert Render(above, sections) == Render(above, init) + SectionLines(last);
      RunConcat(START, Render(above, init), SectionLines(last));
      var s := Run(START, Render(above, init));
      NotReadYet(init, last, ReadAll(s.items).sections);
      SectionReads(s, last);
      OneMoreSection(init, last, ReadAll(s.items).sections, ReadAll(Run(s, SectionLines(last)).items).sections);
      assert init + [last] == sections;
    }
  }

  lemma {:induction false} NothingRead()
    ensures ReadAll(START.items) == Reading(None, map[]) && Proper(START)
    ensures forall found :: ReadsAs([], found) <==> found == map[]
  {
  }

  lemma {:induction false} OneMoreSection(init: seq<Section>, last: Section, before: Sections, after: Sections)
    requires ReadsAs(init, before) && ReadsSection(before, after, last)
    ensures ReadsAs(init + [last], after)
  {
    hide Separate;
    var all := init + [last];
    forall key | key in after ensures exists i :: 0 <= i < |all| && all[i].key == key {
      if key in before {
        var i :| 0 <= i < |init| && init[i].key == key;
        assert all[i].key == key;
      } else {
        assert all[|init|].key == key;
      }
    }
    forall i | 0 <= i < |all|
      ensures all[i].key in after
      ensures Separate(all[i].texts, false) ==> after[all[i].key] == all[i].texts
      ensures !Separate(all[i].texts, false) ==> |after[all[i].key]| < |all[i].texts|
    {
      if i < |init| { assert all[i] == init[i] && init[i].key in before; }
    }
  }

  lemma {:induction false} AsMapIs(sections: seq<Section>)
    requires DistinctKeys(sections)
    ensures forall key :: key in AsMap(sections) <==> exists i :: 0 <= i < |sections| && sections[i].key == key
    ensures forall i :: 0 <= i < |sections| ==> AsMap(sections)[sections[i].key] == sections[i].texts
  {
    if sections != [] {
      var init, last := sections[..|sections| - 1], sections[|sections| - 1];
      AsMapIs(init);
      forall key | key in AsMap(sections) ensures exists i :: 0 <= i < |sections| && sections[i].key == key {
        if key in AsMap(init) {
          var i :| 0 <= i < |init| && init[i].key == key;
          assert sections[i].key == key;
        } else {
          assert sections[|init|].key == key;
        }
      }
      forall i | 0 <= i < |sections| ensures sections[i].key in AsMap(sections)
          && AsMap(sections)[sections[i].key] == sections[i].texts {
        if i < |init| { assert sections[i] == init[i] && init[i].key in AsMap(init); }
      }
    }
  }

  // ----- everything that is read has the shape that can be written

  lemma {:induction false} TrimTwice(s: string)
    ensures TrimRight(TrimRight(s)) == TrimRight(s)
    ensures TrimRight(s) == "" && s != "" ==> IsSpace(s[0])
  {
    if s != "" && IsSpace(s[|s| - 1]) { TrimTwice(s[..|s| - 1]); }
  }

  lemma {:induction false} TitleIsClean(rest: string)
    requires rest != ""
    ensures Clean(TitleOf(rest))
  {
    TrimTwice(rest);
    if TrimRight(rest) == "" {
      var one := rest[..1];
      assert one[..|one| - 1] == "" && TrimRight(one) == TrimRight(one[..|one| - 1]) == "";
      assert one[..1] == one;
    }
  }

  lemma {:induction false} HeadingIsClean(line: string)
    requires HeadingOf(line).Some?
    ensures Clean(HeadingOf(line).value.1)
  {
    TitleIsClean(line[Hashes(line) + 1..]);
  }

  predicate ItemOk(item: Item) {
    match item.kind
    case Entry => EntryShape(item.lines)
    case Plain => PlainShape(item.lines)
    case Heading =>
      && |item.lines| == 1 && HeadingOf(item.lines[0]).Some?
      && (Level(item, 3) ==> item.section == Some(HeadingOf(item.lines[0]).value.1))
  }

  ghost predicate StateOk(s: State) {
    && Proper(s) && (forall i :: 0 <= i < |s.items| ==> ItemOk(s.items[i]))
        && (forall i :: 0 <= i < |s.blanks| ==> Goes(s.blanks[i]))
  }

  lemma {:induction false} EntryGrows(t: Text, blanks: seq<string>, line: string)
    requires EntryShape(t) && (forall i :: 0 <= i < |blanks| ==> Goes(blanks[i])) && Goes(line) && Indented(line)
    ensures EntryShape(t + (blanks + [line]))
  {
  }

  lemma {:induction false} StepKeeps(s: State, line: string)
    requires StateOk(s)
    ensures StateOk(Step(s, line))
  {
    hide HeadingOf, IsBlank, Indented;
    if HeadingOf(line).None? && !StartsEntry(line) && s.open && Indented(line) {
      hide EntryShape;
      EntryGrows(s.items[|s.items| - 1].lines, s.blanks, line);
    }
  }

  lemma {:induction false} RunKeeps(s: State, lines: seq<string>)
    requires StateOk(s)
    ensures StateOk(Run(s, lines))
    decreases |lines|
  {
    hide Step, ItemOk, Goes;
    if lines != [] {
      StepKeeps(s, lines[0]);
      RunKeeps(Step(s, lines[0]), lines[1..]);
    }
  }

  ghost predicate SectionsOk(sections: Sections) {
    forall key :: key in sections ==>
      key.Some? && Clean(key.value) && forall j :: 0 <= j < |sections[key]| ==> Shaped(sections[key][j])
  }

  lemma {:induction false} ItemReadsOk(r: Reading, item: Item)
    requires ItemOk(item) && SectionsOk(r.sections) && (r.section.Some? ==> Clean(r.section.value))
    ensures var r' := ReadItem(r, item); SectionsOk(r'.sections) && (r'.section.Some? ==> Clean(r'.section.value))
  {
    hide EntryShape, HeadingOf, Clean, IsBlank, StartsEntry, Indented;
    if item.kind == Heading { HeadingIsClean(item.lines[0]); }
  }

  lemma {:induction false} ReadIsOk(items: seq<Item>)
    requires forall i :: 0 <= i < |items| ==> ItemOk(items[i])
    ensures var r := ReadAll(items); SectionsOk(r.sections) && (r.section.Some? ==> Clean(r.section.value))
  {
    hide ItemOk, ReadItem, SectionsOk, Clean;
    if items == [] {
      NothingIsOk();
    } else {
      ReadIsOk(items[..|items| - 1]);
      ItemReadsOk(ReadAll(items[..|items| - 1]), items[|items| - 1]);
    }
  }

  lemma {:induction false} NothingIsOk()
    ensures SectionsOk(map[])
  {
  }

  lemma {:induction false} WhatIsReadIsShaped(lines: seq<string>)
    ensures SectionsOk(Read(lines))
  {
    hide ItemOk, ReadAll, Run, SectionsOk;
    StartIsOk();
    RunKeeps(START, lines);
    ReadIsOk(Parsed(lines));
  }

  lemma {:induction false} StartIsOk()
    ensures StateOk(START)
  {
  }

  // ----- the round trip

  /**
    A file reads back as what was written exactly when every section has a clean title, and texts of the shape
    of an entry, a line or a subheading, none of which an entry before it swallows.
   */
  lemma {:induction false} ReadsBackIffWritable(above: seq<string>, sections: seq<Section>)
    requires NoSection(above) && DistinctKeys(sections)
    ensures Read(Render(above, sections)) == AsMap(sections) <==>
        forall i :: 0 <= i < |sections| ==> Writable(sections[i])
  {
    hide Read, Render, AsMap, Separate, Shaped, Clean;
    AsMapIs(sections);
    WhatIsReadIsShaped(Render(above, sections));
    if Read(Render(above, sections)) == AsMap(sections) {
      MappedIsShaped(sections);
    }
    if AllShaped(sections) {
      ShapedReads(above, sections);
      WritableIffSeparate(sections);
      SameIffSeparate(sections, Read(Render(above, sections)));
    } else {
      NotAllWritable(sections);
    }
  }

  lemma {:induction false} ShapedReads(above: seq<string>, sections: seq<Section>)
    requires NoSection(above) && DistinctKeys(sections) && AllShaped(sections)
    ensures ReadsAs(sections, Read(Render(above, sections)))
  {
    hide Run, Render, ReadAll, ReadsAs, AllShaped;
    FileReads(above, sections);
  }

  lemma {:induction false} MappedIsShaped(sections: seq<Section>)
    requires DistinctKeys(sections) && SectionsOk(AsMap(sections))
    ensures AllShaped(sections)
  {
    hide AsMap, Shaped, Clean;
    AsMapIs(sections);
    forall i | 0 <= i < |sections| ensures sections[i].key in AsMap(sections)
        && AsMap(sections)[sections[i].key] == sections[i].texts {
    }
  }

  lemma {:induction false} WritableIffSeparate(sections: seq<Section>)
    requires AllShaped(sections)
    ensures forall i :: 0 <= i < |sections| ==> (Writable(sections[i]) <==> Separate(sections[i].texts, false))
  {
    hide Separate, Shaped, Clean;
  }

  lemma {:induction false} NotAllWritable(sections: seq<Section>)
    requires !AllShaped(sections)
    ensures !(forall i :: 0 <= i < |sections| ==> Writable(sections[i]))
  {
  }

  lemma {:induction false} SameIffSeparate(sections: seq<Section>, found: Sections)
    requires DistinctKeys(sections) && ReadsAs(sections, found)
    ensures found == AsMap(sections) <==> forall i :: 0 <= i < |sections| ==> Separate(sections[i].texts, false)
  {
    hide AsMap, Separate;
    AsMapIs(sections);
    if forall i :: 0 <= i < |sections| ==> Separate(sections[i].texts, false) {
      forall key | key in found ensures key in AsMap(sections) && found[key] == AsMap(sections)[key] {
        var i :| 0 <= i < |sections| && sections[i].key == key;
        assert Separate(sections[i].texts, false);
      }
    } else {
      var i :| 0 <= i < |sections| && !Separate(sections[i].texts, false);
      assert |found[sections[i].key]| < |sections[i].texts|;
    }
  }

  /** Writing what was read loses nothing of it exactly when no entry would swallow the text that now follows it. */
  lemma {:induction false} RewritingKeeps(lines: seq<string>, above: seq<string>, sections: seq<Section>)
    requires NoSection(above) && DistinctKeys(sections) && AsMap(sections) == Read(lines)
    ensures Read(Render(above, sections)) == Read(lines) <==>
        forall i :: 0 <= i < |sections| ==> Separate(sections[i].texts, false)
  {
    hide Read, Render, AsMap, Separate, AllShaped, Writable;
    WhatIsReadIsShaped(lines);
    MappedIsShaped(sections);
    WritableIffSeparate(sections);
    ReadsBackIffWritable(above, sections);
  }

  // ----- writing a file

  /** Where a section comes: at its place in the index, or after all that have one. */
  function Place(order: seq<string>, key: Option<string>): (r: nat)
    ensures r <= |order|
  {
    if order == [] || key == Some(order[0]) then 0 else 1 + Place(order[1..], key)
  }

  function ByPlace(order: seq<string>): (Section, Section) -> bool {
    (a: Section, b: Section) => Place(order, a.key) <= Place(order, b.key)
  }

  lemma {:induction false} NothingInOrder(also: (Section, Section) -> bool)
    ensures SortedBy([], also)
  {
  }

  lemma {:induction false} FilledInOrder(sections: seq<Section>, also: (Section, Section) -> bool)
    requires SortedBy(sections, also)
    ensures SortedBy(Filled(sections), also) && forall s :: s in Filled(sections) ==> s in sections
  {
    hide SortedBy;
    if sections != [] {
      SortedRest(sections, also);
      FilledInOrder(sections[1..], also);
      SortedBefore(sections[0], Filled(sections[1..]), also);
      assert sections == [sections[0]] + sections[1..] && [] + Filled(sections[1..]) == Filled(sections[1..]);
    } else {
      NothingInOrder(also);
    }
  }

  function Filled(sections: seq<Section>): seq<Section> {
    if sections == [] then []
    else (if sections[0].texts != [] then [sections[0]] else []) + Filled(sections[1..])
  }

  function Above(title: string, preamble: seq<Text>): seq<string> {
    if preamble == [] then [title, ""] else Above(title, preamble[..|preamble| - 1]) + preamble[|preamble| - 1] + [""]
  }

  lemma {:induction false} FilledMembers(sections: seq<Section>)
    requires DistinctKeys(sections)
    ensures DistinctKeys(Filled(sections)) && forall s :: s in Filled(sections) <==> s in sections && s.texts != []
  {
    if sections != [] {
      var rest := sections[1..];
      FilledMembers(rest);
      forall s | s in Filled(rest) ensures s.key != sections[0].key {
        var i :| 0 <= i < |rest| && rest[i] == s;
        assert sections[i + 1] == s;
      }
      assert sections == [sections[0]] + rest;
      forall i, j | 0 <= i < j < |Filled(sections)| ensures Filled(sections)[i].key != Filled(sections)[j].key {
        if sections[0].texts != [] {
          assert Filled(sections)[j] == Filled(rest)[j - 1];
          if i > 0 { assert Filled(sections)[i] == Filled(rest)[i - 1]; }
              else { assert Filled(rest)[j - 1] in Filled(rest); }
        }
      }
    }
  }

  lemma {:induction false} SortedKeepsKeys(sections: seq<Section>, order: seq<string>)
    requires DistinctKeys(sections)
    ensures DistinctKeys(SortBy(sections, ByPlace(order)))
    ensures forall s :: s in SortBy(sections, ByPlace(order)) <==> s in sections
  {
    var sorted := SortBy(sections, ByPlace(order));
    forall s: Section ensures s in sorted <==> s in sections {
      SortByMembers(sections, ByPlace(order), s);
    }
    assert forall i, j :: 0 <= i < j < |sections| ==> sections[i] != sections[j];
    SortByDistinct(sections, ByPlace(order));
    forall i, j | 0 <= i < j < |sorted| ensures sorted[i].key != sorted[j].key {
      assert sorted[i] in sections && sorted[j] in sections;
      var k :| 0 <= k < |sections| && sections[k] == sorted[i];
      var l :| 0 <= l < |sections| && sections[l] == sorted[j];
    }
  }

  /** What is written: the sections that have texts, each once, as in the index, and if not there as they were given. */
  ghost predicate Written(sections: seq<Section>, order: seq<string>, written: seq<Section>) {
    && DistinctKeys(written) && (forall s :: s in written <==> s in sections && s.texts != [])
    && SortedStably(written, ByPlace(order), ByIndex(sections))
  }

  /**
    Writes a file, or removes it when nothing is left to write. The file has the sections with texts in the
    order of the index, and reads back as them exactly when they can be written.
   */
  method WriteDebt(title: string, sections: seq<Section>, order: seq<string>, preamble: seq<Text>)
    returns (r: Option<seq<string>>)
    requires DistinctKeys(sections) && NoSection(Above(title, preamble))
    ensures r.None? <==> preamble == [] && forall s :: s in sections ==> s.texts == []
    ensures r.Some? ==> exists written ::
              && Written(sections, order, written) && r.value == Render(Above(title, preamble), written)
              && (Read(r.value) == AsMap(written) <==> forall i :: 0 <= i < |written| ==> Writable(written[i]))
  {
    hide Place, Above, Render, Read, AsMap, Writable, NoSection;
    var filled := Filled(sections);
    FilledMembers(sections);
    assert forall i, j :: 0 <= i < j < |sections| ==> sections[i] != sections[j];
    ItselfInOrder(sections);
    FilledInOrder(sections, ByIndex(sections));
    if filled == [] && preamble == [] {
      assert forall s :: s in sections ==> s !in filled;
      return None;
    }
    if filled != [] { assert filled[0] in filled; }
    var sorted := SortBy(filled, ByPlace(order));
    SortedKeepsKeys(filled, order);
    SortByStable(filled, ByPlace(order), ByIndex(sections));
    assert Written(sections, order, sorted);
    ReadsBackIffWritable(Above(title, preamble), sorted);
    r := Some(Render(Above(title, preamble), sorted));
  }

  // ----- rewriting can lose text

  /**
    A file whose rewriting loses text: the `## h` heading between an entry and an indented line is not read, so
    the line ends up in the entry.
   */
  lemma {:induction false} RewritingCanLose(above: seq<string>)
    requires NoSection(above)
    ensures Read(["### s", "- e", "## h", "  note"]) == map[Some("s") := [["- e"], ["  note"]]]
    ensures Read(Render(above, [Section(Some("s"), [["- e"], ["  note"]])])) != map[Some("s") := [["- e"], ["  note"]]]
  {
    hide Render;
    LostIsRead();
    var sections := [Section(Some("s"), [["- e"], ["  note"]])];
    LostIsSwallowed(sections);
    RewritingKeeps(["### s", "- e", "## h", "  note"], above, sections);
  }

  lemma {:induction false} LostIsSwallowed(sections: seq<Section>)
    requires sections == [Section(Some("s"), [["- e"], ["  note"]])]
    ensures AsMap(sections) == map[Some("s") := [["- e"], ["  note"]]] && !Separate(sections[0].texts, false)
  {
    LostLines();
    assert AsMap([]) == map[] && sections[..0] == [];
    assert [["- e"], ["  note"]][1..] == [["  note"]];
  }

  lemma {:induction false} LostLines()
    ensures HeadingOf("### s") == Some((3, "s")) && HeadingOf("## h").Some? && HeadingOf("## h").value.0 == 2
    ensures HeadingOf("- e").None? && StartsEntry("- e") && EntryShape(["- e"])
    ensures HeadingOf("  note").None? && !StartsEntry("  note") && !IsBlank("  note") && Indented("  note")
        && PlainShape(["  note"])
  {
    HashesBefore("### s", 3);
    HashesBefore("## h", 2);
    HashesBefore("- e", 0);
    HashesBefore("  note", 0);
    assert "### s"[4..] == "s";
    assert !IsSpace("  note"[2]);
  }

  function LostItems(): (r: seq<Item>)
    ensures |r| == 4
  {
    [Item(Heading, Some("s"), ["### s"]), Item(Entry, Some("s"), ["- e"]), Item(Heading, Some("s"), ["## h"]),
        Item(Plain, Some("s"), ["  note"])]
  }

  lemma {:induction false} LostIsParsed()
    ensures Parsed(["### s", "- e", "## h", "  note"]) == LostItems()
  {
    hide HeadingOf, StartsEntry, IsBlank, Indented, Run;
    LostLines();
    RunFour("### s", "- e", "## h", "  note");
    var all, key: Option<string> := LostItems(), Some("s");
    var s1 := Step(START, "### s");
    assert s1 == State([all[0]], key, false, []);
    var s2 := Step(s1, "- e");
    assert s2 == State([all[0], all[1]], key, true, []);
    var s3 := Step(s2, "## h");
    assert s3 == State([all[0], all[1], all[2]], key, false, []);
  }

  lemma {:induction false} LostIsRead()
    ensures Read(["### s", "- e", "## h", "  note"]) == map[Some("s") := [["- e"], ["  note"]]]
  {
    hide HeadingOf, Parsed, ReadAll;
    LostIsParsed();
    LostLines();
    var i, j, k, l := LostItems()[0], LostItems()[1], LostItems()[2], LostItems()[3];
    ReadFour(i, j, k, l);
    assert Level(i, 3) && !Level(k, 3) && !Level(k, 4);
    var r1 := Reading(Some("s"), map[Some("s") := []]);
    assert ReadItem(Reading(None, map[]), i) == r1;
    TextIsRead(r1, j, [], ["- e"]);
    var r2 := Reading(Some("s"), map[Some("s") := [] + [["- e"]]]);
    assert ReadItem(r2, k) == r2;
    TextIsRead(r2, l, [] + [["- e"]], ["  note"]);
    assert ([] + [["- e"]]) + [["  note"]] == [["- e"], ["  note"]];
  }

  lemma {:induction false} TextIsRead(r: Reading, item: Item, texts: seq<Text>, text: Text)
    requires r == Reading(Some("s"), map[Some("s") := texts]) && item.kind != Heading && item.lines == text
    ensures ReadItem(r, item) == Reading(Some("s"), map[Some("s") := texts + [text]])
  {
  }

  lemma {:induction false} RunFour(a: string, b: string, c: string, d: string)
    ensures Run(START, [a, b, c, d]) == Step(Step(Step(Step(START, a), b), c), d)
  {
    hide Step;
    assert [a, b, c, d] == [a, b] + [c, d] && [a, b] == [a] + [b] && [c, d] == [c] + [d];
    RunConcat(START, [a, b], [c, d]);
    RunConcat(START, [a], [b]);
    RunOne(START, a);
    RunOne(Step(START, a), b);
    var s := Step(Step(START, a), b);
    RunConcat(s, [c], [d]);
    RunOne(s, c);
    RunOne(Step(s, c), d);
  }

  lemma {:induction false} ReadFour(i: Item, j: Item, k: Item, l: Item)
    ensures ReadAll([i, j, k, l]) == ReadItem(ReadItem(ReadItem(ReadItem(Reading(None, map[]), i), j), k), l)
  {
    hide ReadItem;
    assert [i, j, k, l] == [i, j, k] + [l] && [i, j, k] == [i, j] + [k] && [i, j] == [i] + [j] && [i] == [] + [i];
    ReadOneMore([i, j, k], l);
    ReadOneMore([i, j], k);
    ReadOneMore([i], j);
    ReadOneMore([], i);
  }
}
