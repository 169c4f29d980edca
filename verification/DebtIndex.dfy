/** What the split leaves of the index: the items that are not moved, and a note, written so that they read back. */
module DebtIndex {
  import opened Options
  import opened DebtText
  import opened DebtFiles
  import opened DebtDisk
  import opened DebtReading
  import DebtSplit
  import opened Lists

  const NOTE_START := "Entries"
  const NOTE := NOTE_START + " about one library or component are in [debt](debt/), one file per library "
    + "or component, under the same sections as this page. Entries that belong to none stay here."

  function NoteItem(section: Option<string>): Item { Item(Plain, section, [NOTE]) }

  predicate HasNote(items: seq<Item>) {
    exists i :: 0 <= i < |items| && items[i].kind == Plain && items[i].lines == [NOTE]
  }

  /** The items with the note among them, as the second one if it was not there. */
  function Noted(items: seq<Item>): seq<Item> {
    if HasNote(items) then items
    else if items == [] then [NoteItem(None)]
    else [items[0], NoteItem(items[0].section)] + items[1..]
  }

  // ----- writing the index

  /** The items as they are written: headings and lines have a blank line before and after them. */
  function IndexTexts(items: seq<Item>): seq<DebtText.Text> {
    if items == [] then []
    else
      var last := items[|items| - 1];
      var out := IndexTexts(items[..|items| - 1]);
      (if last.kind != Entry && out != [] && out[|out| - 1] != [""] then out + [[""]] else out)
      + (if last.kind != Entry then [last.lines, [""]] else [last.lines])
  }

  function TrimEnd(lines: seq<string>): seq<string> {
    if lines != [] && lines[|lines| - 1] == "" then TrimEnd(lines[..|lines| - 1]) else lines
  }

  /** The lines of the index, which ends with a line break and no blank line. */
  function IndexLines(items: seq<Item>): seq<string> {
    var lines := TrimEnd(Flat(IndexTexts(items)));
    if lines == [] then [""] else lines
  }

  method RenderIndex(items: seq<Item>) returns (lines: seq<string>)
    ensures lines == IndexLines(items)
  {
    var out: seq<DebtText.Text> := [];
    for n := 0 to |items|
      invariant out == IndexTexts(items[..n])
    {
      assert items[..n + 1][..n] == items[..n];
      var item := items[n];
      if item.kind != Entry && out != [] && out[|out| - 1] != [""] {
        out := out + [[""]];
      }
      out := out + if item.kind != Entry then [item.lines, [""]] else [item.lines];
    }
    assert items[..|items|] == items;
    lines := Flat(out);
    while lines != [] && lines[|lines| - 1] == ""
      invariant TrimEnd(lines) == TrimEnd(Flat(IndexTexts(items)))
    {
      lines := lines[..|lines| - 1];
    }
    if lines == [] {
      lines := [""];
    }
  }

  // ----- the index, line by line

  /** The lines of an item, with a blank line after a heading or line, and before one that follows an entry. */
  ghost function IndexBlock(items: seq<Item>, i: nat): seq<string>
    requires i < |items|
  {
    (if i > 0 && items[i].kind != Entry && items[i - 1].kind == Entry then [""] else [])
    + items[i].lines + (if items[i].kind != Entry then [""] else [])
  }

  ghost function IndexBlocks(items: seq<Item>): seq<seq<string>> {
    seq(|items|, i requires 0 <= i < |items| => IndexBlock(items, i))
  }

  /** The lines of all items, less the blank lines at the end. */
  ghost predicate IndexIs(lines: seq<string>, items: seq<Item>) {
    var all := Joined(IndexBlocks(items));
    if forall i :: 0 <= i < |all| ==> all[i] == "" then lines == [""]
    else
      lines != [] && lines <= all && lines[|lines| - 1] != "" && forall i :: |lines| <= i < |all| ==> all[i] == ""
  }

  lemma {:induction false} TrimEndIs(lines: seq<string>)
    ensures var r := TrimEnd(lines);
            && r <= lines && (r != [] ==> r[|r| - 1] != "") && forall i :: |r| <= i < |lines| ==> lines[i] == ""
  {
    if lines != [] && lines[|lines| - 1] == "" { TrimEndIs(lines[..|lines| - 1]); }
  }

  lemma {:induction false} BlocksNext(items: seq<Item>)
    requires items != []
    ensures IndexBlocks(items) == IndexBlocks(items[..|items| - 1]) + [IndexBlock(items, |items| - 1)]
  {
  }

  /** The texts of the index, with their blank ones, are its blocks. */
  lemma {:induction false} TextsAreBlocks(items: seq<Item>)
    requires forall i :: 0 <= i < |items| ==> items[i].lines != [""]
    ensures Joined(IndexTexts(items)) == Joined(IndexBlocks(items))
    ensures items == [] <==> IndexTexts(items) == []
    ensures items != [] ==>
              (IndexTexts(items)[|IndexTexts(items)| - 1] == [""] <==> items[|items| - 1].kind != Entry)
  {
    hide Joined, IndexTexts, IndexBlocks;
    if items == [] {
      NoBlocks();
    } else {
      var init, last := items[..|items| - 1], items[|items| - 1];
      var out := IndexTexts(init);
      TextsAreBlocks(init);
      IndexTextsNext(items);
      BlocksNext(items);
      JoinedMore(IndexBlocks(init), IndexBlock(items, |items| - 1));
      JoinedMore(out, [""]);
      var before := if last.kind != Entry && out != [] && out[|out| - 1] != [""] then out + [[""]] else out;
      JoinedMore(before, last.lines);
      if last.kind != Entry {
        assert before + [last.lines, [""]] == before + [last.lines] + [[""]];
        JoinedMore(before + [last.lines], [""]);
      }
    }
  }

  lemma {:induction false} NoBlocks()
    ensures IndexTexts([]) == [] && IndexBlocks([]) == []
  {
  }

  /** What is written of items none of which is a blank line. */
  lemma {:induction false} IndexIsWritten(items: seq<Item>)
    requires forall i :: 0 <= i < |items| ==> items[i].lines != [""]
    ensures IndexIs(IndexLines(items), items)
  {
    hide Flat, Joined, IndexTexts, IndexBlocks, TrimEnd;
    TextsAreBlocks(items);
    FlatIsJoined(IndexTexts(items));
    TrimEndIs(Flat(IndexTexts(items)));
  }

  // ----- items that follow one another as they are parsed

  function LastSection(items: seq<Item>): Option<string> {
    if items == [] then None else items[|items| - 1].section
  }

  predicate EndsOpen(items: seq<Item>) { items != [] && items[|items| - 1].kind == Entry }

  /** An item may come next: it stands under the nearest section, and no entry before it would swallow it. */
  predicate NextOk(items: seq<Item>, next: Item) {
    && ItemOk(next) && ((next.kind == Heading && Level(next, 3)) || next.section == LastSection(items))
    && !(EndsOpen(items) && next.kind == Plain && Indented(next.lines[0]))
  }

  ghost predicate Follows(items: seq<Item>) {
    items == [] || (Follows(items[..|items| - 1]) && NextOk(items[..|items| - 1], items[|items| - 1]))
  }

  lemma {:induction false} OneMoreFollows(items: seq<Item>, next: Item)
    requires Follows(items) && NextOk(items, next)
    ensures Follows(items + [next])
  {
    assert (items + [next])[..|items|] == items;
  }

  ghost predicate Chained(s: State) {
    StateOk(s) && Follows(s.items) && s.section == LastSection(s.items) && (s.open <==> EndsOpen(s.items))
  }

  lemma {:induction false} StepChains(s: State, line: string)
    requires Chained(s)
    ensures Chained(Step(s, line))
  {
    hide HeadingOf, IsBlank, Indented, StartsEntry, EntryShape, Follows;
    StepKeeps(s, line);
    var s' := Step(s, line);
    if |s'.items| > |s.items| {
      assert s'.items == s.items + [s'.items[|s.items|]];
      OneMoreFollows(s.items, s'.items[|s.items|]);
    } else if s'.items != s.items {
      ContinuedFollows(s.items, s.blanks + [line]);
    }
  }

  lemma {:induction false} ContinuedFollows(items: seq<Item>, more: seq<string>)
    requires Follows(items) && EndsOpen(items) && ItemOk(Continued(items, more)[|items| - 1])
    ensures Follows(Continued(items, more))
  {
    hide ItemOk, Level;
    assert Continued(items, more)[..|items| - 1] == items[..|items| - 1];
  }

  lemma {:induction false} RunChains(s: State, lines: seq<string>)
    requires Chained(s)
    ensures Chained(Run(s, lines))
    decreases |lines|
  {
    hide Step, StateOk, Follows;
    if lines != [] {
      StepChains(s, lines[0]);
      RunChains(Step(s, lines[0]), lines[1..]);
    }
  }

  lemma {:induction false} ParsedFollows(lines: seq<string>)
    ensures Follows(Parsed(lines))
  {
    hide Run;
    StartIsOk();
    RunChains(START, lines);
  }

  /** Moving entries away leaves items that follow one another. */
  lemma {:induction false} UnkeyedFollows(items: seq<Item>, debtName: DebtSplit.DebtName)
    requires Follows(items)
    ensures var index := DebtSplit.Unkeyed(items, debtName);
            && Follows(index) && LastSection(index) == LastSection(items)
            && (items != [] && !EndsOpen(items) ==> index != [] && index[|index| - 1] == items[|items| - 1])
  {
    hide ItemOk, Level, Indented;
    if items != [] {
      var init, last := items[..|items| - 1], items[|items| - 1];
      UnkeyedFollows(init, debtName);
      if DebtSplit.NameOf(last, debtName).None? {
        OneMoreFollows(DebtSplit.Unkeyed(init, debtName), last);
        assert DebtSplit.Unkeyed(items, debtName) == DebtSplit.Unkeyed(init, debtName) + [last];
      } else {
        assert last.kind == Entry && DebtSplit.Unkeyed(init, debtName) + [] == DebtSplit.Unkeyed(init, debtName);
      }
    }
  }

  lemma {:induction false} NoneIsBlank(items: seq<Item>)
    requires Follows(items)
    ensures forall i :: 0 <= i < |items| ==> items[i].lines != [""]
  {
    hide Level, Indented, HeadingOf;
    if items != [] {
      NoneIsBlank(items[..|items| - 1]);
      OkIsNotBlank(items[|items| - 1]);
    }
  }

  lemma {:induction false} OkIsNotBlank(item: Item)
    requires ItemOk(item)
    ensures item.lines != [""]
  {
    hide IsSpace;
  }

  lemma {:induction false} NoteIsOk(items: seq<Item>)
    ensures NextOk(items, NoteItem(LastSection(items)))
  {
    assert NOTE[0] == NOTE_START[0] == 'E' && !IsSpace(NOTE[0]);
    HashesBefore(NOTE, 0);
  }

  /** The note can stand after the first item. */
  lemma {:induction false} InsertedFollows(items: seq<Item>, n: nat)
    requires 1 <= n <= |items| && Follows(items[..n])
    ensures Follows([items[0], NoteItem(items[0].section)] + items[1..n])
  {
    hide ItemOk, Level, Indented;
    var start := [items[0], NoteItem(items[0].section)];
    if n == 1 {
      NoteIsOk(items[..1]);
      OneMoreFollows(items[..1], NoteItem(items[0].section));
      assert start + items[1..1] == items[..1] + [NoteItem(items[0].section)];
    } else {
      assert items[..n][..n - 1] == items[..n - 1];
      InsertedFollows(items, n - 1);
      assert start + items[1..n] == (start + items[1..n - 1]) + [items[n - 1]];
      OneMoreFollows(start + items[1..n - 1], items[n - 1]);
    }
  }

  lemma {:induction false} NotedFollows(items: seq<Item>)
    requires Follows(items)
    ensures Follows(Noted(items))
  {
    hide Follows, HasNote;
    if !HasNote(items) {
      if items == [] {
        NothingFollows();
        NoteIsOk([]);
        OneMoreFollows([], NoteItem(None));
        assert [] + [NoteItem(None)] == [NoteItem(None)];
      } else {
        assert items[..|items|] == items && items[1..|items|] == items[1..];
        InsertedFollows(items, |items|);
      }
    }
  }

  lemma {:induction false} NothingFollows()
    ensures Follows([])
  {
  }

  lemma {:induction false} NotedHasNote(items: seq<Item>)
    ensures HasNote(Noted(items))
  {
    if !HasNote(items) {
      var i := if items == [] then 0 else 1;
      assert Noted(items)[i] == NoteItem(Noted(items)[i].section);
    }
  }

  // ----- reading them back

  lemma {:induction false} FlatNext(texts: seq<DebtText.Text>)
    ensures Flat(texts) == if texts == [] then [] else texts[0] + Flat(texts[1..])
  {
  }

  lemma {:induction false} FlatConcat(a: seq<DebtText.Text>, b: seq<DebtText.Text>)
    ensures Flat(a + b) == Flat(a) + Flat(b)
  {
    hide Flat;
    FlatNext([]);
    if a == [] {
      assert a + b == b && [] + Flat(b) == Flat(b);
    } else {
      var all := a + b;
      assert all[0] == a[0] && all[1..] == a[1..] + b;
      FlatConcat(a[1..], b);
      FlatNext(all);
      FlatNext(a);
      assert a[0] + (Flat(a[1..]) + Flat(b)) == (a[0] + Flat(a[1..])) + Flat(b);
    }
  }

  lemma {:induction false} FlatOne(t: DebtText.Text)
    ensures Flat([t]) == t
  {
    assert [t][1..] == [] && Flat([]) == [];
  }

  ghost predicate Stands(s: State, items: seq<Item>) {
    Proper(s) && s.items == items && s.section == LastSection(items) && (s.open <==> EndsOpen(items))
  }

  lemma {:induction false} ItemRuns(s: State, items: seq<Item>, next: Item)
    requires Stands(s, items) && NextOk(items, next)
    ensures Stands(Run(s, next.lines), items + [next])
  {
    hide IsBlank, StartsEntry;
    if next.kind == Entry {
      EntryRuns(s, next.lines);
    } else {
      assert next.lines == [next.lines[0]];
      RunOne(s, next.lines[0]);
    }
  }

  lemma {:induction false} BlankStands(s: State, items: seq<Item>)
    requires Stands(s, items)
    ensures Stands(Run(s, [""]), items)
  {
    hide Step;
    RunOne(s, "");
    BlankStays(s);
  }

  lemma {:induction false} OneMoreText(out: seq<DebtText.Text>, t: DebtText.Text)
    ensures Run(START, Flat(out + [t])) == Run(Run(START, Flat(out)), t)
  {
    FlatConcat(out, [t]);
    FlatOne(t);
    RunConcat(START, Flat(out), t);
  }

  lemma {:induction false} IndexTextsNext(items: seq<Item>)
    requires items != []
    ensures var last, out := items[|items| - 1], IndexTexts(items[..|items| - 1]);
            IndexTexts(items)
            == (if last.kind != Entry && out != [] && out[|out| - 1] != [""] then out + [[""]] else out)
               + (if last.kind != Entry then [last.lines, [""]] else [last.lines])
  {
  }

  lemma {:induction false} TextsStand(items: seq<Item>)
    requires Follows(items)
    ensures Stands(Run(START, Flat(IndexTexts(items))), items)
  {
    hide Run, Stands, NextOk, Flat, IndexTexts;
    if items == [] {
      NothingStands();
    } else {
      var init, last := items[..|items| - 1], items[|items| - 1];
      var out := IndexTexts(init);
      TextsStand(init);
      IndexTextsNext(items);
      var blank := last.kind != Entry && out != [] && out[|out| - 1] != [""];
      var before := if blank then out + [[""]] else out;
      if blank { BlankTextStands(out, init); }
      OneMoreText(before, last.lines);
      ItemRuns(Run(START, Flat(before)), init, last);
      assert init + [last] == items;
      if last.kind != Entry {
        BlankTextStands(before + [last.lines], items);
        assert before + [last.lines] + [[""]] == before + [last.lines, [""]];
      }
    }
  }

  lemma {:induction false} BlankTextStands(out: seq<DebtText.Text>, items: seq<Item>)
    requires Stands(Run(START, Flat(out)), items)
    ensures Stands(Run(START, Flat(out + [[""]])), items)
  {
    hide Run, Stands, Flat;
    OneMoreText(out, [""]);
    BlankStands(Run(START, Flat(out)), items);
  }

  lemma {:induction false} NothingStands()
    ensures Stands(Run(START, Flat(IndexTexts([]))), [])
  {
  }

  lemma {:induction false} TrimmedIsParsed(lines: seq<string>)
    ensures Parsed(TrimEnd(lines)) == Parsed(lines)
  {
    hide Run;
    if lines != [] && lines[|lines| - 1] == "" {
      var init := lines[..|lines| - 1];
      TrimmedIsParsed(init);
      assert lines == init + [""];
      RunConcat(START, init, [""]);
      RunOne(Run(START, init), "");
      BlankStays(Run(START, init));
    }
  }

  /** Items that follow one another read back from the index as they were, sections included. */
  lemma {:induction false} IndexReadsBack(items: seq<Item>)
    requires Follows(items)
    ensures Parsed(IndexLines(items)) == items
  {
    hide Run, Flat, IndexTexts, Follows;
    var lines := Flat(IndexTexts(items));
    TextsStand(items);
    TrimmedIsParsed(lines);
    if TrimEnd(lines) == [] {
      TrimmedIsParsed([""]);
      assert TrimEnd([""]) == [];
    }
  }

  // ----- the split of the index

  /** None of the items has a component. */
  predicate Nameless(items: seq<Item>, debtName: DebtSplit.DebtName) {
    forall i :: 0 <= i < |items| ==> DebtSplit.NameOf(items[i], debtName) == None
  }

  lemma {:induction false} NothingKeyed(debtName: DebtSplit.DebtName)
    ensures DebtSplit.KeyedItems([], debtName) == [] && DebtSplit.Unkeyed([], debtName) == []
  {
  }

  lemma {:induction false} NoneIsKeyed(items: seq<Item>, debtName: DebtSplit.DebtName)
    requires Nameless(items, debtName)
    ensures DebtSplit.KeyedItems(items, debtName) == [] && DebtSplit.Unkeyed(items, debtName) == items
  {
    hide DebtSplit.NameOf, DebtSplit.KeyedItems, DebtSplit.Unkeyed, DebtSplit.SectionsOf;
    if items == [] {
      NothingKeyed(debtName);
    } else {
      NoneIsKeyed(items[..|items| - 1], debtName);
      DebtSplit.ItemsNext(items, |items| - 1, debtName);
      assert items[..|items| - 1 + 1] == items == items[..|items| - 1] + [items[|items| - 1]];
    }
  }

  lemma {:induction false} UnkeyedAreNameless(items: seq<Item>, debtName: DebtSplit.DebtName)
    ensures Nameless(DebtSplit.Unkeyed(items, debtName), debtName)
  {
    hide DebtSplit.NameOf;
    if items != [] { UnkeyedAreNameless(items[..|items| - 1], debtName); }
  }

  lemma {:induction false} NotedAreNameless(items: seq<Item>, debtName: DebtSplit.DebtName)
    requires Nameless(items, debtName)
    ensures Nameless(Noted(items), debtName)
  {
    hide HasNote;
    forall i | 0 <= i < |Noted(items)| ensures DebtSplit.NameOf(Noted(items)[i], debtName) == None {
      if !HasNote(items) && i > 1 { assert Noted(items)[i] == items[i - 1]; }
    }
  }

  /** Of what the split leaves nothing is moved any more, and the note is not set again. */
  lemma {:induction false} NothingMoreMoves(items: seq<Item>, debtName: DebtSplit.DebtName)
    ensures var index := Noted(DebtSplit.Unkeyed(items, debtName));
            DebtSplit.KeyedItems(index, debtName) == [] && Noted(DebtSplit.Unkeyed(index, debtName)) == index
  {
    NotedHasNote(DebtSplit.Unkeyed(items, debtName));
    UnkeyedAreNameless(items, debtName);
    NotedAreNameless(DebtSplit.Unkeyed(items, debtName), debtName);
    NoneIsKeyed(Noted(DebtSplit.Unkeyed(items, debtName)), debtName);
  }

  // ----- every item has a place

  /** The text of the note. */
  ghost predicate IsNote(item: Item) {
    item.kind == Plain
    && item.lines == ["Entries" + " about one library or component are in [debt](debt/), one file per library "
      + "or component, under the same sections as this page. Entries that belong to none stay here."]
  }

  /**
    What is left of some items: those that stay, all of them and in their order, and the note as the second one unless
    it is already there.
   */
  ghost predicate StaysWithNote(now: seq<Item>, stay: seq<Item>) {
    if exists i :: 0 <= i < |stay| && IsNote(stay[i]) then now == stay
    else |now| >= 2 && IsNote(now[1]) && now[1].section == now[0].section && now[..1] + now[2..] == stay
  }

  /** The items that have a component, which are entries, and those that have none. */
  ghost predicate Parted(items: seq<Item>, stay: seq<Item>, move: seq<Item>, keyed: seq<Keyed>,
                         debtName: DebtSplit.DebtName) {
    && Interleaves(items, stay, move) && |move| == |keyed|
    && (forall i :: 0 <= i < |stay| ==> stay[i].kind == Entry ==> debtName(stay[i].lines) == None)
    && forall i :: 0 <= i < |move| ==>
         && move[i].kind == Entry && debtName(move[i].lines) == Some(keyed[i].key.name)
         && keyed[i].key.section == move[i].section && keyed[i].item == move[i].lines
  }

  lemma {:induction false} OneMoreParted(init: seq<Item>, stay: seq<Item>, move: seq<Item>, keyed: seq<Keyed>,
                                         last: Item, debtName: DebtSplit.DebtName)
    requires Parted(init, stay, move, keyed, debtName)
    ensures DebtSplit.NameOf(last, debtName).None? ==> Parted(init + [last], stay + [last], move, keyed, debtName)
    ensures match DebtSplit.NameOf(last, debtName)
            case None => true
            case Some(name) =>
              Parted(init + [last], stay, move + [last], keyed + [Keyed(Key(name, last.section), last.lines)], debtName)
  {
    hide Interleaves;
    OneMoreInterleaves(init, stay, move, last, DebtSplit.NameOf(last, debtName).None?);
  }

  /** Every item stays or is moved, and never both, in the order in which they come. */
  lemma {:induction false} EveryItemHasAPlace(items: seq<Item>, debtName: DebtSplit.DebtName)
    returns (move: seq<Item>)
    ensures Parted(items, DebtSplit.Unkeyed(items, debtName), move, DebtSplit.KeyedItems(items, debtName), debtName)
  {
    hide Parted, DebtSplit.Unkeyed, DebtSplit.KeyedItems, DebtSplit.NameOf, DebtSplit.SectionsOf;
    if items == [] {
      move := [];
      NothingParted(debtName);
    } else {
      var init, last := items[..|items| - 1], items[|items| - 1];
      move := EveryItemHasAPlace(init, debtName);
      OneMoreParted(init, DebtSplit.Unkeyed(init, debtName), move, DebtSplit.KeyedItems(init, debtName), last,
          debtName);
      DebtSplit.ItemsNext(items, |items| - 1, debtName);
      assert items[..|items| - 1 + 1] == items == init + [last];
      if DebtSplit.NameOf(last, debtName).Some? { move := move + [last]; }
    }
  }

  lemma {:induction false} NothingParted(debtName: DebtSplit.DebtName)
    ensures Parted([], DebtSplit.Unkeyed([], debtName), [], DebtSplit.KeyedItems([], debtName), debtName)
  {
  }

  lemma {:induction false} NotedStays(stay: seq<Item>)
    requires stay != []
    ensures StaysWithNote(Noted(stay), stay)
  {
    assert forall i :: 0 <= i < |stay| ==> (IsNote(stay[i]) <==> stay[i].kind == Plain && stay[i].lines == [NOTE]);
    if !HasNote(stay) {
      assert Noted(stay)[..1] + Noted(stay)[2..] == stay;
    }
  }

  /** An index with an entry to move has a heading above it, which stays. */
  lemma {:induction false} SomethingStays(items: seq<Item>, debtName: DebtSplit.DebtName)
    requires Follows(items) && DebtSplit.KeyedItems(items, debtName) != [] && !EntryAbove(items)
    ensures DebtSplit.Unkeyed(items, debtName) != []
  {
    UnkeyedFollows(items, debtName);
    KeyedAreListed(items, debtName);
    if DebtSplit.Unkeyed(items, debtName) == [] { AllKeyedNoSection(items, debtName); }
  }

  lemma {:induction false} AllKeyedNoSection(items: seq<Item>, debtName: DebtSplit.DebtName)
    requires Follows(items) && DebtSplit.Unkeyed(items, debtName) == []
    ensures LastSection(items) == None && DebtSplit.SectionsOf(items) == []
  {
    hide ItemOk, Indented;
    if items != [] { AllKeyedNoSection(items[..|items| - 1], debtName); }
  }

  // ----- the files of the split are determined

  /** Every section of items that follow one another is one of the index's, which the files are ordered by. */
  lemma {:induction false} SectionIsListed(items: seq<Item>)
    requires Follows(items)
    ensures LastSection(items).Some? ==> LastSection(items).value in DebtSplit.SectionsOf(items)
  {
    hide ItemOk, Level, Indented;
    if items != [] { SectionIsListed(items[..|items| - 1]); }
  }

  lemma {:induction false} KeyedAreListed(items: seq<Item>, debtName: DebtSplit.DebtName)
    requires Follows(items) && !EntryAbove(items)
    ensures forall e :: e in DebtSplit.KeyedItems(items, debtName) ==>
              e.key.section.Some? && e.key.section.value in DebtSplit.SectionsOf(items)
  {
    hide NextOk;
    if items != [] {
      var init, last := items[..|items| - 1], items[|items| - 1];
      assert !EntryAbove(init) by {
        assert forall i :: 0 <= i < |init| ==> init[i] == items[i];
      }
      KeyedAreListed(init, debtName);
      SectionIsListed(items);
      assert last == items[|items| - 1];
    }
  }

  /** What is read from a file stands under a title of the file. */
  lemma {:induction false} ReadAreTitles(items: seq<Item>)
    ensures var r := ReadAll(items);
            && (r.section.Some? ==> r.section.value in Titles(items))
            && forall key :: key in r.sections ==> key.Some? && key.value in Titles(items)
  {
    hide Level;
    if items != [] { ReadAreTitles(items[..|items| - 1]); }
  }

  lemma {:induction false} AddedAreOrdered(disk: Disk, files: Files, items: seq<Item>, debtName: DebtSplit.DebtName,
                                           relink: Relink, name: string)
    requires Follows(items) && !EntryAbove(items)
    requires DebtSplit.IsSplitOf(files, DebtSplit.KeyedItems(items, debtName), relink)
    ensures Ordered(Added(FilesOf(disk, NamesIn(files)), files), name, DebtSplit.SectionsOf(items),
                    TitlesOn(disk, name))
  {
    hide Follows, EntryAbove, Filed, FilesOf, Added, Titles, ReadAll, TextsAt, DebtSplit.SectionsOf,
      DebtSplit.KeyedItems;
    var keyed, held := DebtSplit.KeyedItems(items, debtName), FilesOf(disk, NamesIn(files));
    forall s | TextsAt(Added(held, files), Key(name, s)) != []
      ensures s.Some? && (s.value in DebtSplit.SectionsOf(items) || s.value in TitlesOn(disk, name))
    {
      var k := Key(name, s);
      AddedIs(held, files, k);
      FilesOfIs(disk, NamesIn(files), k);
      FiledIsSome(keyed, relink, k);
      KeyedAreListed(items, debtName);
      if name in disk { ReadAreTitles(Parsed(disk[name])); }
      assert TextsAt(files, k) != [] || On(disk, k) != [];
    }
  }

  /** The split has one result: two disks it may leave are the same, line by line. */
  lemma {:induction false} OneSplit(disk: Disk, disk1: Disk, disk2: Disk, files: Files, lines: seq<string>,
                                    debtName: DebtSplit.DebtName, relink: Relink)
    requires !EntryAbove(Parsed(lines))
    requires DebtSplit.IsSplitOf(files, DebtSplit.KeyedItems(Parsed(lines), debtName), relink)
    requires SplitInto(disk, disk1, files, lines) && SplitInto(disk, disk2, files, lines)
    ensures disk1 == disk2
  {
    hide Parsed, Follows, EntryAbove, Rewritten, Ordered, Added, FilesOf, DebtSplit.IsSplitOf, DebtSplit.SectionsOf,
      TitlesOn;
    ParsedFollows(lines);
    forall n ensures (n in disk1 <==> n in disk2) && (n in disk1 ==> disk1[n] == disk2[n]) {
      if n in NamesIn(files) {
        AddedAreOrdered(disk, files, Parsed(lines), debtName, relink, n);
        OneFile(disk, disk1, disk2, Added(FilesOf(disk, NamesIn(files)), files), n,
            DebtSplit.SectionsOf(Parsed(lines)));
      }
    }
  }

  /** The files of the split's components are rewritten with what is filed there, and no others. */
  ghost predicate SplitInto(disk: Disk, disk': Disk, files: Files, lines: seq<string>) {
    && Elsewhere(disk, disk', NamesIn(files))
    && forall n :: n in NamesIn(files) ==>
         Rewritten(disk, disk', Added(FilesOf(disk, NamesIn(files)), files), n, DebtSplit.SectionsOf(Parsed(lines)))
  }

  lemma {:induction false} IsSplitInto(disk: Disk, disk': Disk, files: Files, lines: seq<string>)
    requires Elsewhere(disk, disk', NamesIn(files))
    requires forall n :: n in NamesIn(files) ==>
               Rewritten(disk, disk', Added(FilesOf(disk, NamesIn(files)), files), n,
                         DebtSplit.SectionsOf(Parsed(lines)))
    ensures SplitInto(disk, disk', files, lines)
  {
  }

  /** What the split writes: the files of the components, and the index. */
  datatype Outcome = Outcome(disk: Disk, index: seq<string>)

  /**
    Splits the index onto the files. It refuses an index without an entry to move, or with an entry above its sections.
    Otherwise the new index reads as the items that are not moved, each under its section, in their order, with the
    note; and each file holds what it held and after it what is moved there, exactly if all of that can be written.
    So nothing is lost, and from the new index nothing more would be moved.
   */
  method SplitIndex(disk: Disk, lines: seq<string>, debtName: DebtSplit.DebtName, relink: Relink)
    returns (r: Option<Outcome>, ghost files: Files, ghost move: seq<Item>)
    ensures Parted(Parsed(lines), DebtSplit.Unkeyed(Parsed(lines), debtName), move,
                   DebtSplit.KeyedItems(Parsed(lines), debtName), debtName)
    ensures DebtSplit.IsSplitOf(files, DebtSplit.KeyedItems(Parsed(lines), debtName), relink)
    ensures r.None? <==> DebtSplit.KeyedItems(Parsed(lines), debtName) == [] || EntryAbove(Parsed(lines))
    ensures r.Some? ==>
              && StaysWithNote(Parsed(r.value.index), DebtSplit.Unkeyed(Parsed(lines), debtName))
              && IndexIs(r.value.index, Parsed(r.value.index))
              && DebtSplit.KeyedItems(Parsed(r.value.index), debtName) == []
              && IndexLines(Noted(DebtSplit.Unkeyed(Parsed(r.value.index), debtName))) == r.value.index
    ensures r.Some? ==>
              var keyed := DebtSplit.KeyedItems(Parsed(lines), debtName);
              && SplitInto(disk, r.value.disk, files, lines) && NamesIn(files) == Names(keyed)
              && (Appended(disk, r.value.disk, keyed, relink) <==> Appendable(disk, keyed, relink))
  {
    hide *;
    var items := Parse(lines);
    var split, index, filed := SplitOnDisk(disk, items, debtName, relink);
    files := filed;
    move := EveryItemHasAPlace(items, debtName);
    if split.None? {
      return None, files, move;
    }
    var written := RenderIndex(Noted(index));
    r := Some(Outcome(split.value, written));
    SplitIsAppended(disk, split.value, files, DebtSplit.KeyedItems(items, debtName), relink);
    IsSplitInto(disk, split.value, files, lines);
    ParsedFollows(lines);
    UnkeyedFollows(items, debtName);
    NotedFollows(index);
    IndexReadsBack(Noted(index));
    NoneIsBlank(Noted(index));
    IndexIsWritten(Noted(index));
    NothingMoreMoves(items, debtName);
    SomethingStays(items, debtName);
    NotedStays(index);
  }
}
