/** When the entries of an index can be filed: told from where they stand, if relinking leaves an entry an entry. */
module DebtShapes {
  import opened Options
  import opened DebtText
  import opened DebtFiles
  import opened DebtDisk
  import DebtSplit

  // ----- the sections of parsed items

  ghost predicate CleanSection(section: Option<string>) { section.Some? ==> Clean(section.value) }

  ghost predicate CleanSections(s: State) {
    CleanSection(s.section) && forall i :: 0 <= i < |s.items| ==> CleanSection(s.items[i].section)
  }

  lemma {:induction false} StepKeepsClean(s: State, line: string)
    requires Proper(s) && CleanSections(s)
    ensures CleanSections(Step(s, line))
  {
    hide Clean, HeadingOf, IsBlank, Indented, StartsEntry;
    if HeadingOf(line).Some? { HeadingIsClean(line); }
  }

  lemma {:induction false} RunKeepsClean(s: State, lines: seq<string>)
    requires StateOk(s) && CleanSections(s)
    ensures CleanSections(Run(s, lines))
    decreases |lines|
  {
    hide Step, ItemOk, Goes, CleanSection;
    if lines != [] {
      StepKeeps(s, lines[0]);
      StepKeepsClean(s, lines[0]);
      RunKeepsClean(Step(s, lines[0]), lines[1..]);
    }
  }

  /** Every item that is parsed is well formed and stands under a clean title, if any. */
  lemma {:induction false} ParsedAreClean(lines: seq<string>)
    ensures forall i :: 0 <= i < |Parsed(lines)| ==>
              ItemOk(Parsed(lines)[i]) && CleanSection(Parsed(lines)[i].section)
  {
    hide ItemOk, Run, CleanSection;
    StartIsOk();
    StartIsClean();
    RunKeeps(START, lines);
    RunKeepsClean(START, lines);
  }

  lemma {:induction false} StartIsClean()
    ensures CleanSections(START)
  {
  }

  // ----- what is filed of them

  ghost predicate Entries(entries: seq<Keyed>) {
    forall e :: e in entries ==> EntryShape(e.item) && CleanSection(e.key.section)
  }

  lemma {:induction false} KeyedAreEntries(items: seq<Item>, debtName: DebtSplit.DebtName)
    requires forall i :: 0 <= i < |items| ==> ItemOk(items[i]) && CleanSection(items[i].section)
    ensures Entries(DebtSplit.KeyedItems(items, debtName))
  {
    hide EntryShape, PlainShape, CleanSection, HeadingOf;
    if items != [] { KeyedAreEntries(items[..|items| - 1], debtName); }
  }

  /** Relinking changes no more of an entry than leaves it an entry. */
  ghost predicate KeepsShape(relink: Relink) {
    forall t: DebtText.Text, name: string :: EntryShape(t) ==> EntryShape(relink(t, name))
  }

  lemma {:induction false} FiledAreEntries(entries: seq<Keyed>, relink: Relink, k: Key)
    requires Entries(entries) && KeepsShape(relink)
    ensures forall i :: 0 <= i < |Filed(entries, relink, k)| ==> EntryShape(Filed(entries, relink, k)[i])
  {
    hide EntryShape, CleanSection;
    if entries != [] {
      FiledAreEntries(entries[..|entries| - 1], relink, k);
      assert entries[|entries| - 1] in entries;
    }
  }

  lemma {:induction false} EntriesAreSeparate(texts: seq<DebtText.Text>, open: bool)
    requires forall i :: 0 <= i < |texts| ==> EntryShape(texts[i])
    ensures Separate(texts, open)
  {
    hide HeadingOf, IsBlank;
    if texts != [] { EntriesAreSeparate(texts[1..], true); }
  }

  lemma {:induction false} EntriesAreWritable(key: Option<string>, texts: seq<DebtText.Text>)
    requires CleanSection(key) && forall i :: 0 <= i < |texts| ==> EntryShape(texts[i])
    ensures Writable(Section(key, texts)) <==> key.Some?
  {
    hide EntryShape, Clean;
    EntriesAreSeparate(texts, false);
  }

  /**
    Of any index, with a relinking that keeps entries entries: all that the split files reads back once it is written
    exactly when no entry with a component stands above the first section.
   */
  lemma {:induction false} FileableUnlessAbove(lines: seq<string>, debtName: DebtSplit.DebtName, relink: Relink)
    requires KeepsShape(relink)
    ensures var entries := DebtSplit.KeyedItems(Parsed(lines), debtName);
            Fileable(entries, relink, EVERYWHERE) <==> forall e :: e in entries ==> e.key.section.Some?
  {
    hide Parsed, ItemOk, CleanSection, EntryShape, Writable, Filed, KeepsShape;
    var entries := DebtSplit.KeyedItems(Parsed(lines), debtName);
    ParsedAreClean(lines);
    KeyedAreEntries(Parsed(lines), debtName);
    forall k: Key | Filed(entries, relink, k) != []
      ensures Writable(Section(k.section, Filed(entries, relink, k))) <==> k.section.Some?
    {
      FiledIsSome(entries, relink, k);
      FiledAreEntries(entries, relink, k);
      EntriesAreWritable(k.section, Filed(entries, relink, k));
    }
    forall e | e in entries ensures Filed(entries, relink, e.key) != [] {
      FiledIsSome(entries, relink, e.key);
    }
    forall k: Key | Filed(entries, relink, k) != [] ensures exists e :: e in entries && e.key == k {
      FiledIsSome(entries, relink, k);
    }
  }

  // ----- a change that moves an entry above the sections

  const OLD_LINES := ["### s", "- e"]
  const NEW_LINES := ["- e", "### s"]
  const ONE_NAME: DebtSplit.DebtName := t => Some("n")
  const AS_IT_IS: Relink := (t, name) => t

  function HeadingItem(): Item { Item(Heading, Some("s"), ["### s"]) }

  function EntryItem(section: Option<string>): Item { Item(DebtText.Entry, section, ["- e"]) }

  lemma {:induction false} TwoAreParsed(a: string, b: string)
    ensures Parsed([a, b]) == Step(Step(START, a), b).items
  {
    hide Step;
    assert [a, b] == [a] + [b];
    RunConcat(START, [a], [b]);
    RunOne(START, a);
    RunOne(Step(START, a), b);
  }

  lemma {:induction false} LinesAreParsed()
    ensures Parsed(OLD_LINES) == [HeadingItem(), EntryItem(Some("s"))]
    ensures Parsed(NEW_LINES) == [EntryItem(None), HeadingItem()]
  {
    hide HeadingOf, StartsEntry, Indented, IsBlank, Parsed;
    LostLines();
    TwoAreParsed("### s", "- e");
    TwoAreParsed("- e", "### s");
  }

  lemma {:induction false} TwoAreKeyed(items: seq<Item>, section: Option<string>)
    requires items == [HeadingItem(), EntryItem(section)] || items == [EntryItem(section), HeadingItem()]
    ensures DebtSplit.KeyedItems(items, ONE_NAME) == [Keyed(Key("n", section), ["- e"])]
    ensures DebtSplit.Unkeyed(items, ONE_NAME) == [HeadingItem()]
  {
    var init := [items[0]];
    assert items[..1] == init && init[..0] == [];
    if items[0] == HeadingItem() {
      assert DebtSplit.KeyedItems(init, ONE_NAME) == [] && DebtSplit.Unkeyed(init, ONE_NAME) == [HeadingItem()];
    } else {
      assert DebtSplit.KeyedItems(init, ONE_NAME) == [Keyed(Key("n", section), ["- e"])];
      assert DebtSplit.Unkeyed(init, ONE_NAME) == [];
    }
  }

  /**
    A change of the index that leaves all other lines as they are and cannot be replayed onto the files: it moves an
    entry above the first section. There it is filed under no title, which does not read back.
   */
  lemma {:induction false} AboveIsNotFileable()
    ensures var before := DebtSplit.KeyedItems(Parsed(OLD_LINES), ONE_NAME);
            var after := DebtSplit.KeyedItems(Parsed(NEW_LINES), ONE_NAME);
            && before == [Keyed(Key("n", Some("s")), ["- e"])] && after == [Keyed(Key("n", None), ["- e"])]
            && DebtSplit.Unkeyed(Parsed(OLD_LINES), ONE_NAME) == DebtSplit.Unkeyed(Parsed(NEW_LINES), ONE_NAME)
            && Covers([Op(false, 0, 1, 0, 1)], before, after, 0, 0)
            && Fileable(before, AS_IT_IS, EVERYWHERE) && !Fileable(after, AS_IT_IS, EVERYWHERE)
  {
    hide Parsed, EntryShape, Fileable, DebtSplit.KeyedItems, DebtSplit.Unkeyed;
    LinesAreParsed();
    TwoAreKeyed(Parsed(OLD_LINES), Some("s"));
    TwoAreKeyed(Parsed(NEW_LINES), None);
    assert KeepsShape(AS_IT_IS);
    FileableUnlessAbove(OLD_LINES, ONE_NAME, AS_IT_IS);
    FileableUnlessAbove(NEW_LINES, ONE_NAME, AS_IT_IS);
    assert DebtSplit.KeyedItems(Parsed(NEW_LINES), ONE_NAME)[0].key.section.None?;
  }
}
