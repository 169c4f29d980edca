/**
  Splitting the index and replaying a change of it on the debt files themselves: each component's file is read,
  changed and written back as lines.
 */
module DebtDisk {
  import opened Options
  import opened DebtText
  import opened DebtFiles
  import opened DebtPreamble
  import DebtSplit
  import DebtOriginals
  import Lists
  import opened Sorting

  /** The lines of each component's file, as far as it has one. */
  type Disk = map<string, seq<string>>

  function SectionsOn(disk: Disk, name: string): Sections { if name in disk then Read(disk[name]) else map[] }

  /** The texts a file has under a section. */
  function On(disk: Disk, k: Key): seq<DebtText.Text> { TextsIn(SectionsOn(disk, k.name), k.section) }

  /** What the files of some components hold. */
  ghost function FilesOf(disk: Disk, names: set<string>): Files {
    map k | k in (set n, s | n in names && s in SectionsOn(disk, n) :: Key(n, s)) ::
      SectionsOn(disk, k.name)[k.section]
  }

  lemma {:induction false} FilesOfIs(disk: Disk, names: set<string>, k: Key)
    ensures TextsAt(FilesOf(disk, names), k) == if k.name in names then On(disk, k) else []
  {
  }

  /** The sections of one component. */
  function Under(name: string, sections: Sections): Files { map s | s in sections :: Key(name, s) := sections[s] }

  method ReadFile(disk: Disk, name: string) returns (sections: Sections)
    ensures sections == SectionsOn(disk, name)
  {
    if name in disk {
      sections := ReadDebt(disk[name]);
    } else {
      sections := map[];
    }
  }

  /** Reads the files of some components. */
  method ReadFiles(disk: Disk, names: set<string>) returns (files: Files)
    ensures files == FilesOf(disk, names)
  {
    hide FilesOf, SectionsOn, Under;
    files := map[];
    var todo := names;
    ghost var done: set<string> := {};
    NoFiles(disk);
    while todo != {}
      invariant todo + done == names && todo !! done && files == FilesOf(disk, done)
      decreases todo
    {
      var name :| name in todo;
      var sections := ReadFile(disk, name);
      OneMoreFile(disk, done, name);
      files := files + Under(name, sections);
      todo, done := todo - {name}, done + {name};
    }
    assert done == names;
  }

  lemma {:induction false} NoFiles(disk: Disk)
    ensures FilesOf(disk, {}) == map[]
  {
  }

  lemma {:induction false} FilesHave(disk: Disk, names: set<string>, k: Key)
    ensures k in FilesOf(disk, names) <==> k.name in names && k.section in SectionsOn(disk, k.name)
    ensures k in FilesOf(disk, names) ==> FilesOf(disk, names)[k] == SectionsOn(disk, k.name)[k.section]
  {
    hide SectionsOn;
  }

  lemma {:induction false} UnderHas(name: string, sections: Sections, k: Key)
    ensures k in Under(name, sections) <==> k.name == name && k.section in sections
    ensures k in Under(name, sections) ==> Under(name, sections)[k] == sections[k.section]
  {
  }

  lemma {:induction false} OneMoreFile(disk: Disk, done: set<string>, name: string)
    requires name !in done
    ensures FilesOf(disk, done + {name}) == FilesOf(disk, done) + Under(name, SectionsOn(disk, name))
  {
    hide SectionsOn, FilesOf, Under;
    var all, parts := FilesOf(disk, done + {name}), FilesOf(disk, done) + Under(name, SectionsOn(disk, name));
    forall k: Key ensures (k in all <==> k in parts) && (k in all ==> all[k] == parts[k]) {
      FilesHave(disk, done + {name}, k);
      FilesHave(disk, done, k);
      UnderHas(name, SectionsOn(disk, name), k);
    }
  }

  // ----- writing one file

  /** The sections of a component, in some order. */
  ghost predicate Listed(files: Files, name: string, sections: seq<Section>) {
    && DistinctKeys(sections)
    && (forall s :: s in sections ==> Key(name, s.key) in files && files[Key(name, s.key)] == s.texts)
    && forall k :: k in files && k.name == name ==> Section(k.section, files[k]) in sections
  }

  method ListSections(files: Files, name: string) returns (sections: seq<Section>)
    ensures Listed(files, name, sections)
  {
    sections := [];
    var todo := set k | k in files && k.name == name;
    while todo != {}
      invariant todo <= set k | k in files && k.name == name
      invariant DistinctKeys(sections)
      invariant forall s :: s in sections ==>
          Key(name, s.key) in files && Key(name, s.key) !in todo && files[Key(name, s.key)] == s.texts
      invariant forall k :: k in files && k.name == name && k !in todo ==> Section(k.section, files[k]) in sections
    {
      var k :| k in todo;
      todo := todo - {k};
      ghost var before := sections;
      sections := sections + [Section(k.section, files[k])];
      assert forall s :: s in before ==> s in sections;
    }
  }

  /** The file holds exactly these texts under its sections. */
  ghost predicate HeldAs(found: Sections, files: Files, name: string) {
    forall s :: TextsIn(found, s) == TextsAt(files, Key(name, s))
  }

  /** Every section that has texts reads back once it is written. */
  ghost predicate CanWrite(files: Files, name: string) {
    forall s :: TextsAt(files, Key(name, s)) != [] ==> Writable(Section(s, TextsAt(files, Key(name, s))))
  }

  /** The written sections are those of the component that have texts. */
  ghost predicate Chosen(files: Files, name: string, written: seq<Section>) {
    && DistinctKeys(written)
    && (forall i :: 0 <= i < |written| ==>
          written[i].texts != [] && TextsAt(files, Key(name, written[i].key)) == written[i].texts)
    && forall s :: TextsAt(files, Key(name, s)) != [] ==> Section(s, TextsAt(files, Key(name, s))) in written
  }

  lemma {:induction false} WrittenIsChosen(files: Files, name: string, sections: seq<Section>, order: seq<string>,
                                           written: seq<Section>)
    requires Listed(files, name, sections) && Written(sections, order, written)
    ensures Chosen(files, name, written)
  {
  }

  lemma {:induction false} ChosenWritable(files: Files, name: string, written: seq<Section>)
    requires Chosen(files, name, written)
    ensures CanWrite(files, name) <==> forall i :: 0 <= i < |written| ==> Writable(written[i])
  {
  }

  lemma {:induction false} MapIsHeld(files: Files, name: string, written: seq<Section>)
    requires Chosen(files, name, written)
    ensures HeldAs(AsMap(written), files, name)
  {
    hide AsMap;
    AsMapIs(written);
    forall s ensures TextsIn(AsMap(written), s) == TextsAt(files, Key(name, s)) {
      if TextsAt(files, Key(name, s)) != [] {
        var i :| 0 <= i < |written| && written[i] == Section(s, TextsAt(files, Key(name, s)));
      }
    }
  }

  /** What holds these texts has a section for each that is written, and so the shape of what can be read. */
  lemma {:induction false} HeldIsShaped(files: Files, name: string, written: seq<Section>, found: Sections)
    requires Chosen(files, name, written) && HeldAs(found, files, name) && SectionsOk(found)
    ensures AllShaped(written)
    ensures forall i :: 0 <= i < |written| ==> written[i].key in found && found[written[i].key] == written[i].texts
  {
  }

  lemma {:induction false} HeldIsWritable(above: seq<string>, files: Files, name: string, written: seq<Section>)
    requires NoSection(above) && Chosen(files, name, written) && HeldAs(Read(Render(above, written)), files, name)
    ensures forall i :: 0 <= i < |written| ==> Writable(written[i])
  {
    hide NoSection, HeldAs, Read, Render, AllShaped, Writable, Separate, Shaped, Clean;
    var found := Read(Render(above, written));
    WhatIsReadIsShaped(Render(above, written));
    HeldIsShaped(files, name, written, found);
    ShapedReads(above, written);
    forall i | 0 <= i < |written| ensures Separate(written[i].texts, false) {
      assert found[written[i].key] == written[i].texts;
    }
    WritableIffSeparate(written);
  }

  /** What is written is held exactly when every section with texts can be written. */
  lemma {:induction false} WrittenIsHeld(above: seq<string>, files: Files, name: string, written: seq<Section>)
    requires NoSection(above) && Chosen(files, name, written)
    ensures HeldAs(Read(Render(above, written)), files, name) <==> CanWrite(files, name)
  {
    hide NoSection, HeldAs, Read, Render, AsMap, Writable, CanWrite;
    ChosenWritable(files, name, written);
    ReadsBackIffWritable(above, written);
    MapIsHeld(files, name, written);
    if HeldAs(Read(Render(above, written)), files, name) { HeldIsWritable(above, files, name, written); }
  }

  lemma {:induction false} NothingToHold(files: Files, name: string, sections: seq<Section>)
    requires Listed(files, name, sections) && forall s :: s in sections ==> s.texts == []
    ensures HeldAs(map[], files, name) && CanWrite(files, name)
  {
  }

  /** All files but those of some components stay. */
  ghost predicate Elsewhere(before: Disk, after: Disk, names: set<string>) {
    forall n :: n !in names ==> (n in after <==> n in before) && (n in before ==> after[n] == before[n])
  }

  /** The titles of the sections in the order in which they come. */
  function Titles(items: seq<Item>): seq<string> {
    if items == [] then []
    else
      var last := items[|items| - 1];
      Titles(items[..|items| - 1])
      + if last.kind == Heading && last.section.Some? && Level(last, 3) then [last.section.value] else []
  }

  function TitlesOn(disk: Disk, name: string): seq<string> { if name in disk then Titles(Parsed(disk[name])) else [] }

  method ReadTitles(lines: seq<string>) returns (titles: seq<string>)
    ensures titles == Titles(Parsed(lines))
  {
    hide Level, Parsed;
    var items := Parse(lines);
    titles := [];
    for n := 0 to |items|
      invariant titles == Titles(items[..n])
    {
      assert items[..n + 1][..n] == items[..n];
      if items[n].kind == Heading && items[n].section.Some? && Level(items[n], 3) {
        titles := titles + [items[n].section.value];
      }
    }
    assert items[..|items|] == items;
  }

  function PreambleOn(disk: Disk, name: string): seq<DebtText.Text> {
    if name in disk then PreambleOf(Parsed(disk[name])) else []
  }

  /** A file: its title, what stood above its sections, and the sections that have texts, in their order. */
  ghost predicate Composed(lines: seq<string>, files: Files, name: string, order: seq<string>, titles: seq<string>,
                           preamble: seq<DebtText.Text>) {
    exists written :: Chosen(files, name, written) && Sequenced(written, order, titles)
                      && lines == Render(Above(Title(name), preamble), written)
  }

  /** Sections come as in the index, then those it does not have as in the file before, and then new ones. */
  ghost predicate Sequenced(written: seq<Section>, order: seq<string>, titles: seq<string>) {
    forall i, j :: 0 <= i < j < |written| ==> Precedes(written[i].key, written[j].key, order, titles)
  }

  ghost predicate Precedes(a: Option<string>, b: Option<string>, order: seq<string>, titles: seq<string>) {
    || Place(order, a) < Place(order, b)
    || (Place(order, a) == Place(order, b) && Place(titles, a) <= Place(titles, b))
  }

  ghost predicate Bare(files: Files, name: string) { forall s :: TextsAt(files, Key(name, s)) == [] }

  /** What becomes of a component's file: it is gone when there is nothing to write, and composed anew otherwise. */
  ghost predicate Rewritten(before: Disk, after: Disk, files: Files, name: string, order: seq<string>) {
    if PreambleOn(before, name) == [] && Bare(files, name) then name !in after
    else name in after && Composed(after[name], files, name, order, TitlesOn(before, name), PreambleOn(before, name))
  }

  lemma {:induction false} BareIsEmpty(files: Files, name: string, sections: seq<Section>)
    requires Listed(files, name, sections)
    ensures Bare(files, name) <==> forall s :: s in sections ==> s.texts == []
  {
  }

  lemma {:induction false} WrittenIsSequenced(sections: seq<Section>, order: seq<string>, titles: seq<string>,
                                              written: seq<Section>)
    requires DistinctKeys(sections) && SortedBy(sections, ByPlace(titles)) && Written(sections, order, written)
    ensures Sequenced(written, order, titles)
  {
    hide Place, IndexIn;
    assert forall i, j :: 0 <= i < j < |sections| ==> sections[i] != sections[j];
    forall i, j | 0 <= i < j < |written| ensures Precedes(written[i].key, written[j].key, order, titles) {
      assert written[i] in sections && written[j] in sections;
      var p :| 0 <= p < |sections| && sections[p] == written[i];
      var q :| 0 <= q < |sections| && sections[q] == written[j];
      IsAtIndex(sections, p);
      IsAtIndex(sections, q);
    }
  }

  lemma {:induction false} WrittenIsComposed(files: Files, name: string, sections: seq<Section>, order: seq<string>,
                                             titles: seq<string>, written: seq<Section>, preamble: seq<DebtText.Text>)
    requires Listed(files, name, sections) && SortedBy(sections, ByPlace(titles)) && Written(sections, order, written)
    ensures Chosen(files, name, written)
    ensures Composed(Render(Above(Title(name), preamble), written), files, name, order, titles, preamble)
  {
    hide Chosen, Listed, Written, Sequenced, Render, Above, Title;
    WrittenIsChosen(files, name, sections, order, written);
    ListedKeys(files, name, sections);
    WrittenIsSequenced(sections, order, titles, written);
  }

  lemma {:induction false} ListedAlike(files: Files, name: string, a: seq<Section>, b: seq<Section>)
    requires Listed(files, name, a) && DistinctKeys(b) && forall s :: s in b <==> s in a
    ensures Listed(files, name, b)
  {
    hide DistinctKeys;
  }

  lemma {:induction false} PlaceOrders(titles: seq<string>)
    ensures TotalPreorder(ByPlace(titles))
  {
    hide Place;
  }

  /** Listed in the order of the file before. */
  lemma {:induction false} SortedIsListed(files: Files, name: string, sections: seq<Section>, titles: seq<string>)
    requires Listed(files, name, sections)
    ensures Listed(files, name, SortBy(sections, ByPlace(titles)))
    ensures SortedBy(SortBy(sections, ByPlace(titles)), ByPlace(titles))
  {
    hide *;
    ListedKeys(files, name, sections);
    SortedKeepsKeys(sections, titles);
    ListedAlike(files, name, sections, SortBy(sections, ByPlace(titles)));
    PlaceOrders(titles);
    SortBySorted(sections, ByPlace(titles));
  }

  /**
    Writes a component's file with the sections it is given, below what stood above them before. The file then holds
    exactly their texts if and only if each of those that has any can be written.
   */
  method WriteFile(disk: Disk, name: string, files: Files, order: seq<string>) returns (disk': Disk)
    ensures Elsewhere(disk, disk', {name}) && Rewritten(disk, disk', files, name, order)
    ensures HeldAs(SectionsOn(disk', name), files, name) <==> CanWrite(files, name)
  {
    hide Listed, NoSection, Render, Read, AsMap, Writable, HeldAs, CanWrite, Written, Title, Above, Chosen, Bare,
      Composed, PreambleOf, Parsed, Titles, SortBy;
    var listed := ListSections(files, name);
    var preamble: seq<DebtText.Text>, titles: seq<string> := [], [];
    if name in disk {
      PreambleHasNoSection(disk[name], name);
      preamble := ReadPreamble(disk[name]);
      titles := ReadTitles(disk[name]);
    } else {
      AboveHasNoSection(name, []);
    }
    SortedIsListed(files, name, listed, titles);
    var sections := SortBy(listed, ByPlace(titles));
    ListedKeys(files, name, sections);
    BareIsEmpty(files, name, sections);
    var lines := WriteDebt(Title(name), sections, order, preamble);
    if lines.None? {
      NothingToHold(files, name, sections);
      disk' := map n | n in disk && n != name :: disk[n];
      assert SectionsOn(disk', name) == map[];
    } else {
      disk' := disk[name := lines.value];
      ghost var written :|
        Written(sections, order, written) && lines.value == Render(Above(Title(name), preamble), written);
      WrittenIsComposed(files, name, sections, order, titles, written, preamble);
      WrittenIsHeld(Above(Title(name), preamble), files, name, written);
    }
  }

  // ----- a file has one form

  /** Every section with texts has a title that the index has, or the file before. */
  ghost predicate Ordered(files: Files, name: string, order: seq<string>, titles: seq<string>) {
    forall s :: TextsAt(files, Key(name, s)) != [] ==> s.Some? && (s.value in order || s.value in titles)
  }

  lemma {:induction false} PlaceIs(order: seq<string>, key: Option<string>)
    ensures Place(order, key) < |order| <==> key.Some? && key.value in order
    ensures Place(order, key) < |order| ==> key == Some(order[Place(order, key)])
  {
    if order != [] && key != Some(order[0]) {
      PlaceIs(order[1..], key);
      assert order == [order[0]] + order[1..];
    }
  }

  lemma {:induction false} SamePlaces(a: Option<string>, b: Option<string>, order: seq<string>, titles: seq<string>)
    requires a.Some? && (a.value in order || a.value in titles)
    requires Precedes(a, b, order, titles) && Precedes(b, a, order, titles)
    ensures a == b
  {
    hide Place;
    PlaceIs(order, a);
    PlaceIs(order, b);
    PlaceIs(titles, a);
    PlaceIs(titles, b);
  }

  lemma {:induction false} FirstIsFirst(a: seq<Section>, b: seq<Section>, order: seq<string>, titles: seq<string>)
    requires a != [] && b != [] && a[0] in b && b[0] in a && DistinctKeys(a)
    requires Sequenced(a, order, titles) && Sequenced(b, order, titles)
    requires a[0].key.Some? && (a[0].key.value in order || a[0].key.value in titles)
    ensures a[0] == b[0]
  {
    hide Precedes;
    var p :| 0 <= p < |b| && b[p] == a[0];
    var q :| 0 <= q < |a| && a[q] == b[0];
    if p > 0 && q > 0 { SamePlaces(a[0].key, b[0].key, order, titles); }
  }

  lemma {:induction false} SomeMember(a: seq<Section>)
    ensures a != [] ==> exists s :: s in a
  {
    if a != [] { assert a[0] in a; }
  }

  lemma {:induction false} RestOfSequence(a: seq<Section>, order: seq<string>, titles: seq<string>)
    requires a != [] && DistinctKeys(a) && Sequenced(a, order, titles)
    ensures DistinctKeys(a[1..]) && Sequenced(a[1..], order, titles)
    ensures forall s :: s in a[1..] <==> s in a && s != a[0]
  {
    hide Precedes;
    assert a == [a[0]] + a[1..];
    forall s | s in a[1..] ensures s != a[0] {
      var i :| 0 <= i < |a[1..]| && a[1..][i] == s;
    }
  }

  /** There is one sequence of some sections. */
  lemma {:induction false} OneSequence(a: seq<Section>, b: seq<Section>, order: seq<string>, titles: seq<string>)
    requires DistinctKeys(a) && DistinctKeys(b) && forall s :: s in a <==> s in b
    requires Sequenced(a, order, titles) && Sequenced(b, order, titles)
    requires forall s :: s in a ==> s.key.Some? && (s.key.value in order || s.key.value in titles)
    ensures a == b
  {
    hide Precedes, Sequenced, DistinctKeys;
    SomeMember(a);
    SomeMember(b);
    if a != [] && b != [] {
      FirstIsFirst(a, b, order, titles);
      assert a == [a[0]] + a[1..] && b == [b[0]] + b[1..];
      RestOfSequence(a, order, titles);
      RestOfSequence(b, order, titles);
      OneSequence(a[1..], b[1..], order, titles);
    }
  }

  lemma {:induction false} ChosenAreOne(files: Files, name: string, a: seq<Section>, b: seq<Section>)
    requires Chosen(files, name, a) && Chosen(files, name, b)
    ensures forall s :: s in a <==> s in b
  {
    forall s | s in a ensures s in b {
      var i :| 0 <= i < |a| && a[i] == s;
    }
    forall s | s in b ensures s in a {
      var i :| 0 <= i < |b| && b[i] == s;
    }
  }

  lemma {:induction false} ChosenAreOrdered(files: Files, name: string, a: seq<Section>, order: seq<string>,
                                            titles: seq<string>)
    requires Chosen(files, name, a) && Ordered(files, name, order, titles)
    ensures forall s :: s in a ==> s.key.Some? && (s.key.value in order || s.key.value in titles)
  {
    forall s | s in a ensures TextsAt(files, Key(name, s.key)) != [] {
      var i :| 0 <= i < |a| && a[i] == s;
    }
  }

  /** What a component's file becomes is determined, line by line, by what it was, what it is given, and the index. */
  lemma {:induction false} OneFile(before: Disk, after: Disk, after': Disk, files: Files, name: string,
                                   order: seq<string>)
    requires Rewritten(before, after, files, name, order) && Rewritten(before, after', files, name, order)
    requires Ordered(files, name, order, TitlesOn(before, name))
    ensures (name in after <==> name in after') && (name in after ==> after[name] == after'[name])
  {
    hide Chosen, Sequenced, Ordered, Bare, TitlesOn, PreambleOn, Render, Above, Title;
    if name in after && name in after' {
      var titles := TitlesOn(before, name);
      var a :| Chosen(files, name, a) && Sequenced(a, order, titles)
          && after[name] == Render(Above(Title(name), PreambleOn(before, name)), a);
      var b :| Chosen(files, name, b) && Sequenced(b, order, titles)
          && after'[name] == Render(Above(Title(name), PreambleOn(before, name)), b);
      ChosenAreOne(files, name, a, b);
      ChosenAreOrdered(files, name, a, order, titles);
      ChosenKeys(files, name, a);
      ChosenKeys(files, name, b);
      OneSequence(a, b, order, titles);
    }
  }

  lemma {:induction false} ChosenKeys(files: Files, name: string, a: seq<Section>)
    requires Chosen(files, name, a)
    ensures DistinctKeys(a)
  {
  }

  /** No section of a component has an empty title, as no heading has. */
  ghost predicate Titled(files: Files, name: string) { Key(name, Some("")) !in files }

  lemma {:induction false} FirstIsTitled(files: Files, name: string, written: seq<Section>)
    requires Chosen(files, name, written) && Titled(files, name)
    ensures written == [] || Label(written[0].key) != ""
  {
  }

  /** What stood above the sections stays, as read, exactly when no entry swallows the text that now follows it. */
  lemma {:induction false} RewrittenKeepsPreamble(before: Disk, after: Disk, files: Files, name: string,
                                                  order: seq<string>)
    requires Rewritten(before, after, files, name, order) && Titled(files, name)
    ensures PreambleOn(after, name) == PreambleOn(before, name) <==> Separate(PreambleOn(before, name), false)
  {
    hide Parsed, PreambleOf, Separate, Chosen, Bare, Sequenced, Render, Above, Title, Titled;
    var preamble := PreambleOn(before, name);
    if preamble == [] { NothingAbove(); }
    if name in after {
      var written :| Chosen(files, name, written) && Sequenced(written, order, TitlesOn(before, name))
          && after[name] == Render(Above(Title(name), preamble), written);
      FirstIsTitled(files, name, written);
      PreambleReadsBack(if name in before then before[name] else [], name, written);
    }
  }

  lemma {:induction false} NothingAbove()
    ensures Separate([], false) && PreambleOf(Parsed([])) == []
  {
  }

  lemma {:induction false} ListedKeys(files: Files, name: string, sections: seq<Section>)
    requires Listed(files, name, sections)
    ensures DistinctKeys(sections)
  {
  }

  /** Writes the files of some components. */
  method WriteFiles(disk: Disk, names: set<string>, files: Files, order: seq<string>) returns (disk': Disk)
    ensures Elsewhere(disk, disk', names) && forall n :: n in names ==> Rewritten(disk, disk', files, n, order)
    ensures forall n :: n in names ==> (HeldAs(SectionsOn(disk', n), files, n) <==> CanWrite(files, n))
  {
    hide SectionsOn, HeldAs, CanWrite, Rewritten;
    disk' := disk;
    var todo := names;
    ghost var done: set<string> := {};
    while todo != {}
      invariant todo + done == names && todo !! done && Elsewhere(disk, disk', done)
      invariant forall n :: n in done ==> Rewritten(disk, disk', files, n, order)
      invariant forall n :: n in done ==> (HeldAs(SectionsOn(disk', n), files, n) <==> CanWrite(files, n))
      decreases todo
    {
      var name :| name in todo;
      ghost var before := disk';
      disk' := WriteFile(disk', name, files, order);
      forall n | n in done
        ensures SectionsOn(disk', n) == SectionsOn(before, n) && Rewritten(disk, disk', files, n, order)
      {
        SameSections(before, disk', n);
        StillRewritten(disk, disk, before, disk', files, n, order);
      }
      StillRewritten(before, disk, disk', disk', files, name, order);
      todo, done := todo - {name}, done + {name};
    }
    assert done == names;
  }

  lemma {:induction false} StillRewritten(before: Disk, before': Disk, after: Disk, after': Disk, files: Files,
                                          n: string, order: seq<string>)
    requires Rewritten(before, after, files, n, order)
    requires (n in before' <==> n in before) && (n in before ==> before'[n] == before[n])
    requires (n in after' <==> n in after) && (n in after ==> after'[n] == after[n])
    ensures Rewritten(before', after', files, n, order)
  {
    hide Composed, Bare;
  }

  lemma {:induction false} SameSections(before: Disk, after: Disk, n: string)
    requires (n in after <==> n in before) && (n in before ==> after[n] == before[n])
    ensures SectionsOn(after, n) == SectionsOn(before, n)
  {
  }

  // ----- splitting the index

  function Added(a: Files, b: Files): Files {
    map k | k in a.Keys + b.Keys :: TextsAt(a, k) + TextsAt(b, k)
  }

  lemma {:induction false} AddedIs(a: Files, b: Files, k: Key)
    ensures TextsAt(Added(a, b), k) == TextsAt(a, k) + TextsAt(b, k)
  {
  }

  function NamesIn(files: Files): set<string> { set k | k in files :: k.name }

  lemma {:induction false} FiledIsSome(entries: seq<Keyed>, relink: Relink, k: Key)
    ensures Filed(entries, relink, k) != [] <==> exists e :: e in entries && e.key == k
  {
    if entries != [] {
      var last := entries[|entries| - 1];
      FiledIsSome(entries[..|entries| - 1], relink, k);
      assert entries == entries[..|entries| - 1] + [last];
    }
  }

  lemma {:induction false} NamesAreFiled(files: Files, entries: seq<Keyed>, relink: Relink)
    requires DebtSplit.IsSplitOf(files, entries, relink) && forall k :: k in files ==> files[k] != []
    ensures NamesIn(files) == Names(entries) && (files == map[] <==> entries == [])
  {
    hide Filed;
    forall e | e in entries ensures e.key in files {
      FiledIsSome(entries, relink, e.key);
      assert TextsAt(files, e.key) != [];
    }
    forall k | k in files ensures k.name in Names(entries) {
      FiledIsSome(entries, relink, k);
      assert TextsAt(files, k) != [];
      var e :| e in entries && e.key == k;
    }
    if entries != [] { assert entries[0].key in files; }
  }

  /** An entry stands above the first section of the index. */
  ghost predicate EntryAbove(items: seq<Item>) {
    exists i :: 0 <= i < |items| && items[i].kind == Entry && items[i].section.None?
  }

  /** Looks for such an entry. */
  method FindAbove(items: seq<Item>) returns (above: bool)
    ensures above <==> EntryAbove(items)
  {
    above := false;
    for n := 0 to |items|
      invariant above <==> exists i :: 0 <= i < n && items[i].kind == Entry && items[i].section.None?
    {
      if items[n].kind == Entry && items[n].section.None? {
        above := true;
      }
    }
  }

  /**
    Splits the index onto the files; nothing is done when no entry has a component, or when an entry has no section to
    be filed under. Each component's file then holds what it held and after it what is filed there, exactly if all of
    that can be written.
   */
  method SplitOnDisk(disk: Disk, items: seq<Item>, debtName: DebtSplit.DebtName, relink: Relink)
    returns (r: Option<Disk>, index: seq<Item>, ghost files: Files)
    ensures index == DebtSplit.Unkeyed(items, debtName)
    ensures DebtSplit.IsSplitOf(files, DebtSplit.KeyedItems(items, debtName), relink)
    ensures NamesIn(files) == Names(DebtSplit.KeyedItems(items, debtName))
    ensures r.None? <==> DebtSplit.KeyedItems(items, debtName) == [] || EntryAbove(items)
    ensures r.Some? ==> Elsewhere(disk, r.value, NamesIn(files)) && forall n :: n in NamesIn(files) ==>
        Rewritten(disk, r.value, Added(FilesOf(disk, NamesIn(files)), files), n, DebtSplit.SectionsOf(items))
    ensures r.Some? ==> forall n :: n in NamesIn(files) ==>
        (HeldAs(SectionsOn(r.value, n), Added(FilesOf(disk, NamesIn(files)), files), n)
         <==> CanWrite(Added(FilesOf(disk, NamesIn(files)), files), n))
  {
    hide *;
    var filed, order;
    index, filed, order := DebtSplit.Split(items, debtName, relink);
    files := filed;
    NamesAreFiled(files, DebtSplit.KeyedItems(items, debtName), relink);
    var above := FindAbove(items);
    if filed == map[] || above {
      return None, index, files;
    }
    var names := NamesIn(filed);
    var existing := ReadFiles(disk, names);
    var disk' := WriteFiles(disk, names, Added(existing, filed), order);
    r := Some(disk');
  }

  /** The files hold what the split of the index files, and nothing else. */
  ghost predicate HoldsSplit(disk: Disk, entries: seq<Keyed>, relink: Relink) {
    forall k: Key :: On(disk, k) == Filed(entries, relink, k)
  }

  /** Whatever the split files under a section of some of the components reads back once it is written. */
  ghost predicate Fileable(entries: seq<Keyed>, relink: Relink, names: iset<string>) {
    forall k: Key :: k.name in names && Filed(entries, relink, k) != [] ==>
      Writable(Section(k.section, Filed(entries, relink, k)))
  }

  ghost const EVERYWHERE: iset<string> := iset n: string | true

  /** On one component, held as the split files it. */
  lemma {:induction false} HeldIsOn(disk: Disk, files: Files, entries: seq<Keyed>, relink: Relink, name: string)
    requires forall s :: TextsAt(files, Key(name, s)) == Filed(entries, relink, Key(name, s))
    ensures HeldAs(SectionsOn(disk, name), files, name)
            <==> forall k: Key :: k.name == name ==> On(disk, k) == Filed(entries, relink, k)
    ensures CanWrite(files, name) <==> Fileable(entries, relink, iset{name})
  {
  }

  /** The same on some components: what is written of them is their part of the split exactly if it can be written. */
  lemma {:induction false} HeldIsFileable(disk: Disk, files: Files, entries: seq<Keyed>, relink: Relink,
                                          names: set<string>)
    requires forall k: Key :: k.name in names ==> TextsAt(files, k) == Filed(entries, relink, k)
    requires forall n :: n in names ==> (HeldAs(SectionsOn(disk, n), files, n) <==> CanWrite(files, n))
    requires forall k: Key :: k.name !in names ==> On(disk, k) == Filed(entries, relink, k)
    ensures HoldsSplit(disk, entries, relink) <==> Fileable(entries, relink, iset n | n in names)
  {
    hide HeldAs, SectionsOn, CanWrite, On, Filed, Writable;
    forall n | n in names
      ensures (forall k: Key :: k.name == n ==> On(disk, k) == Filed(entries, relink, k))
              <==> Fileable(entries, relink, iset{n})
    {
      HeldIsOn(disk, files, entries, relink, n);
    }
    if HoldsSplit(disk, entries, relink) {
      forall k: Key | k.name in names && Filed(entries, relink, k) != []
        ensures Writable(Section(k.section, Filed(entries, relink, k)))
      {
        assert Fileable(entries, relink, iset{k.name});
      }
    }
    if Fileable(entries, relink, iset n | n in names) {
      forall k: Key ensures On(disk, k) == Filed(entries, relink, k) {
        if k.name in names { assert Fileable(entries, relink, iset{k.name}); }
      }
    }
  }

  lemma {:induction false} NotNamed(entries: seq<Keyed>, relink: Relink, k: Key)
    requires k.name !in Names(entries)
    ensures Filed(entries, relink, k) == []
  {
    DebtSplit.FiledNothing(entries, relink, k);
  }

  /** Every file holds what it held and after it what the split files there. */
  ghost predicate Appended(disk: Disk, disk': Disk, entries: seq<Keyed>, relink: Relink) {
    forall k: Key :: On(disk', k) == On(disk, k) + Filed(entries, relink, k)
  }

  /** All that the files of the split then hold reads back once it is written. */
  ghost predicate Appendable(disk: Disk, entries: seq<Keyed>, relink: Relink) {
    forall k: Key :: k.name in Names(entries) && On(disk, k) + Filed(entries, relink, k) != [] ==>
      Writable(Section(k.section, On(disk, k) + Filed(entries, relink, k)))
  }

  /** On one component. */
  lemma {:induction false} HeldIsAppended(disk: Disk, disk': Disk, files: Files, entries: seq<Keyed>, relink: Relink,
                                          name: string)
    requires forall s :: TextsAt(files, Key(name, s)) == On(disk, Key(name, s)) + Filed(entries, relink, Key(name, s))
    ensures HeldAs(SectionsOn(disk', name), files, name)
            <==> forall k: Key :: k.name == name ==> On(disk', k) == On(disk, k) + Filed(entries, relink, k)
    ensures CanWrite(files, name)
            <==> forall k: Key :: k.name == name && On(disk, k) + Filed(entries, relink, k) != [] ==>
                   Writable(Section(k.section, On(disk, k) + Filed(entries, relink, k)))
  {
    hide Writable, SectionsOn, Filed, TextsIn, TextsAt;
    forall k: Key | k.name == name ensures k == Key(name, k.section) {
    }
    forall s ensures On(disk', Key(name, s)) == TextsIn(SectionsOn(disk', name), s) {
    }
  }

  /** After the split every file holds what it held and what is filed there exactly if all of that can be written. */
  lemma {:induction false} SplitIsAppended(disk: Disk, disk': Disk, files: Files, entries: seq<Keyed>, relink: Relink)
    requires DebtSplit.IsSplitOf(files, entries, relink) && Elsewhere(disk, disk', Names(entries))
    requires forall n :: n in Names(entries) ==>
        (HeldAs(SectionsOn(disk', n), Added(FilesOf(disk, Names(entries)), files), n)
         <==> CanWrite(Added(FilesOf(disk, Names(entries)), files), n))
    ensures Appended(disk, disk', entries, relink) <==> Appendable(disk, entries, relink)
  {
    hide HeldAs, SectionsOn, CanWrite, Filed, Writable, FilesOf, Added, TextsAt, Names, On;
    var names := Names(entries);
    var all := Added(FilesOf(disk, names), files);
    forall n | n in names
      ensures (forall k: Key :: k.name == n ==> On(disk', k) == On(disk, k) + Filed(entries, relink, k))
              <==> forall k: Key :: k.name == n && On(disk, k) + Filed(entries, relink, k) != [] ==>
                     Writable(Section(k.section, On(disk, k) + Filed(entries, relink, k)))
    {
      forall s ensures TextsAt(all, Key(n, s)) == On(disk, Key(n, s)) + Filed(entries, relink, Key(n, s)) {
        FilesOfIs(disk, names, Key(n, s));
        AddedIs(FilesOf(disk, names), files, Key(n, s));
      }
      HeldIsAppended(disk, disk', all, entries, relink, n);
    }
    forall k: Key | k.name !in names ensures On(disk', k) == On(disk, k) + Filed(entries, relink, k) {
      SameOn(disk, disk', k);
      NotNamed(entries, relink, k);
    }
  }

  lemma {:induction false} SameOn(disk: Disk, disk': Disk, k: Key)
    requires (k.name in disk' <==> k.name in disk) && (k.name in disk ==> disk'[k.name] == disk[k.name])
    ensures On(disk', k) == On(disk, k)
  {
  }

  /** Onto files that hold nothing yet, the split is held exactly if all of it can be written. */
  lemma {:induction false} SplitIsHeld(disk: Disk, disk': Disk, entries: seq<Keyed>, relink: Relink)
    requires forall k: Key :: On(disk, k) == []
    ensures Appended(disk, disk', entries, relink) <==> HoldsSplit(disk', entries, relink)
    ensures Appendable(disk, entries, relink) <==> Fileable(entries, relink, EVERYWHERE)
  {
    hide On, Filed, Writable, Names;
    forall k: Key ensures On(disk, k) + Filed(entries, relink, k) == Filed(entries, relink, k) {
    }
    forall k: Key | k.name !in Names(entries) ensures Filed(entries, relink, k) == [] {
      NotNamed(entries, relink, k);
    }
  }

  // ----- replaying a change

  /**
    Replays a change of the index onto the files of the components it touches, which are those reported. None stands
    for a LookupError, with nothing written. `out` is what the replay on entries makes of the texts those files hold.
   */
  method ApplyOnDisk(disk: Disk, before: seq<Keyed>, after: seq<Keyed>, ops: seq<Op>, relink: Relink,
                     order: seq<string>)
    returns (r: Option<Disk>, written: set<string>, ghost out: Files)
    requires Covers(ops, before, after, 0, 0)
    ensures var touched := Touched(ops, before, after, 0, 0);
            var held := FilesOf(disk, touched);
            && written == (if r.None? then {} else touched)
            && (r.None? <==> DebtSplit.SomeMissing(ops, held, before, relink))
            && (r.Some? ==>
                  && Elsewhere(disk, r.value, touched)
                  && (forall n :: n in touched ==> Rewritten(disk, r.value, out, n, order))
                  && (forall n :: n in touched ==> (HeldAs(SectionsOn(r.value, n), out, n) <==> CanWrite(out, n))))
            && (r.Some? ==> DebtSplit.AllExchanged(ops, held, out, before, after, relink, touched))
            && (r.Some? && DebtSplit.CanReplay(ops, held, before, after, relink) ==>
                  forall k: Key :: k.name in touched ==>
                    Lists.Interleaves(TextsAt(out, k), Filed(after, relink, k),
                                      DebtSplit.Others(held, before, relink, k)))
  {
    hide *;
    var touched := Touched(ops, before, after, 0, 0);
    var held := ReadFiles(disk, touched);
    var changed := DebtSplit.ApplyChange(held, before, after, ops, relink);
    if changed.None? {
      out := map[];
      return None, {}, out;
    }
    out := changed.value;
    var disk' := WriteFiles(disk, touched, changed.value, order);
    r, written := Some(disk'), touched;
  }

  /** On files that hold the split of the old index, nothing is missing and the texts of the new one are made. */
  lemma {:induction false} HeldCanReplay(disk: Disk, before: seq<Keyed>, after: seq<Keyed>, ops: seq<Op>,
                                         relink: Relink)
    requires Covers(ops, before, after, 0, 0) && HoldsSplit(disk, before, relink)
    ensures var held := FilesOf(disk, Touched(ops, before, after, 0, 0));
            && DebtSplit.CanReplay(ops, held, before, after, relink)
            && !DebtSplit.SomeMissing(ops, held, before, relink)
            && forall k: Key :: k.name in Touched(ops, before, after, 0, 0) ==>
                 DebtSplit.Others(held, before, relink, k) == []
  {
    hide FilesOf, On, TextsAt, Filed, Touched, Covers, DebtSplit.CanReplay, DebtSplit.SomeMissing, DebtSplit.Others;
    var touched := Touched(ops, before, after, 0, 0);
    forall k: Key | k.name in touched ensures TextsAt(FilesOf(disk, touched), k) == Filed(before, relink, k) {
      FilesOfIs(disk, touched, k);
    }
    DebtSplit.TouchedCanReplay(ops, FilesOf(disk, touched), before, after, relink);
  }

  /** What ApplyOnDisk promises, on the files of the split of the old index, is the split of the new one. */
  lemma {:induction false} SquareOnDisk(disk: Disk, disk': Disk, out: Files, before: seq<Keyed>, after: seq<Keyed>,
                                        ops: seq<Op>, relink: Relink)
    requires Covers(ops, before, after, 0, 0) && HoldsSplit(disk, before, relink)
    requires Elsewhere(disk, disk', Touched(ops, before, after, 0, 0))
    requires forall n :: n in Touched(ops, before, after, 0, 0) ==>
               (HeldAs(SectionsOn(disk', n), out, n) <==> CanWrite(out, n))
    requires forall k: Key :: k.name in Touched(ops, before, after, 0, 0) ==>
               Lists.Interleaves(TextsAt(out, k), Filed(after, relink, k), [])
    ensures HoldsSplit(disk', after, relink)
            <==> Fileable(after, relink, iset n | n in Touched(ops, before, after, 0, 0))
  {
    hide HeldAs, SectionsOn, CanWrite, Filed, Writable, TextsAt, Touched, Covers, TextsIn, Lists.Interleaves;
    var touched := Touched(ops, before, after, 0, 0);
    forall k: Key | k.name in touched ensures TextsAt(out, k) == Filed(after, relink, k) {
      Lists.InterleavesNothing(TextsAt(out, k), Filed(after, relink, k));
    }
    forall k: Key | k.name !in touched ensures On(disk', k) == Filed(after, relink, k) {
      SameSections(disk, disk', k.name);
      assert On(disk, k) == Filed(before, relink, k);
      DebtSplit.UntouchedIsTheSame(ops, before, after, relink, 0, 0, k);
      assert before[0..] == before && after[0..] == after;
    }
    HeldIsFileable(disk', out, after, relink, touched);
  }

  /** What can be written of the components a change does not touch is the same before and after it. */
  lemma {:induction false} TouchedDecide(before: seq<Keyed>, after: seq<Keyed>, ops: seq<Op>, relink: Relink)
    requires Covers(ops, before, after, 0, 0) && Fileable(before, relink, EVERYWHERE)
    ensures Fileable(after, relink, EVERYWHERE)
            <==> Fileable(after, relink, iset n | n in Touched(ops, before, after, 0, 0))
  {
    hide Filed, Writable, Touched, Covers;
    var touched := Touched(ops, before, after, 0, 0);
    if Fileable(after, relink, iset n | n in touched) {
      forall k: Key | k.name !in touched ensures Filed(after, relink, k) == Filed(before, relink, k) {
        DebtSplit.UntouchedIsTheSame(ops, before, after, relink, 0, 0, k);
        assert before[0..] == before && after[0..] == after;
      }
    }
  }

  // ----- the commuting square, on files

  /** None of the texts that the files of some components have of their own is filed there as well. */
  ghost predicate Apart(disk: Disk, entries: seq<Keyed>, relink: Relink, names: set<string>) {
    forall k: Key :: k.name in names ==> forall t :: t in On(disk, k) ==> t !in Filed(entries, relink, k)
  }

  /**
    What the replay makes of files that had texts of their own before the split: each touched file is given these and
    what is filed of the new index, no text more and none less. Both keep their order when no text is of both kinds.
   */
  ghost predicate Remade(disk: Disk, out: Files, before: seq<Keyed>, after: seq<Keyed>, relink: Relink,
                         names: set<string>) {
    && (forall k: Key :: k.name in names ==>
          multiset(TextsAt(out, k)) == multiset(On(disk, k)) + multiset(Filed(after, relink, k)))
    && (Apart(disk, before, relink, names) ==>
          forall k: Key :: k.name in names ==>
            Lists.Interleaves(TextsAt(out, k), Filed(after, relink, k), On(disk, k)))
  }

  /** On files that hold the split after texts of their own nothing is missing, and all can be replayed if apart. */
  lemma {:induction false} AppendedCanReplay(disk: Disk, split: Disk, before: seq<Keyed>, after: seq<Keyed>,
                                             ops: seq<Op>, relink: Relink)
    requires Covers(ops, before, after, 0, 0) && Appended(disk, split, before, relink)
    ensures var touched := Touched(ops, before, after, 0, 0);
            var held := FilesOf(split, touched);
            && !DebtSplit.SomeMissing(ops, held, before, relink)
            && (forall k: Key :: k.name in touched ==>
                  TextsAt(held, k) == On(disk, k) + Filed(before, relink, k))
            && (Apart(disk, before, relink, touched) ==>
                  && DebtSplit.CanReplay(ops, held, before, after, relink)
                  && forall k: Key :: k.name in touched ==> DebtSplit.Others(held, before, relink, k) == On(disk, k))
  {
    hide FilesOf, On, TextsAt, Filed, Touched, Covers, DebtSplit.SomeMissing, DebtSplit.Others,
      DebtOriginals.Replayable;
    var touched := Touched(ops, before, after, 0, 0);
    var held := FilesOf(split, touched);
    forall k: Key | k.name in touched ensures TextsAt(held, k) == On(disk, k) + Filed(before, relink, k) {
      FilesOfIs(split, touched, k);
    }
    DebtSplit.NoneMissing(ops, held, before, after, relink, touched, 0, 0);
    if Apart(disk, before, relink, touched) {
      forall k: Key | k.name in touched
        ensures DebtOriginals.Replayable(held, before, relink, k)
        ensures DebtSplit.Others(held, before, relink, k) == On(disk, k)
      {
        DebtSplit.AppendedReplayable(held, before, relink, k, On(disk, k));
      }
    }
  }

  lemma {:induction false} AppendedIsRemade(disk: Disk, held: Files, out: Files, before: seq<Keyed>, after: seq<Keyed>,
                                            ops: seq<Op>, relink: Relink)
    requires Covers(ops, before, after, 0, 0)
    requires forall k: Key :: k.name in Touched(ops, before, after, 0, 0) ==>
               TextsAt(held, k) == On(disk, k) + Filed(before, relink, k)
    requires DebtSplit.AllExchanged(ops, held, out, before, after, relink, Touched(ops, before, after, 0, 0))
    requires Apart(disk, before, relink, Touched(ops, before, after, 0, 0)) ==>
        forall k: Key :: k.name in Touched(ops, before, after, 0, 0) ==>
          Lists.Interleaves(TextsAt(out, k), Filed(after, relink, k), On(disk, k))
    ensures Remade(disk, out, before, after, relink, Touched(ops, before, after, 0, 0))
  {
    hide On, TextsAt, Filed, Touched, Covers, Apart, Lists.Interleaves;
    forall k: Key | k.name in Touched(ops, before, after, 0, 0)
      ensures multiset(TextsAt(out, k)) == multiset(On(disk, k)) + multiset(Filed(after, relink, k))
    {
      DebtSplit.AppendedBalance(ops, before, after, relink, k, On(disk, k), TextsAt(out, k));
    }
  }

  /** Where the change touches nothing, the files hold what the split of the new index would append. */
  lemma {:induction false} AppendedElsewhere(disk: Disk, split: Disk, disk': Disk, before: seq<Keyed>,
                                             after: seq<Keyed>, ops: seq<Op>, relink: Relink)
    requires Covers(ops, before, after, 0, 0) && Appended(disk, split, before, relink)
    requires Elsewhere(split, disk', Touched(ops, before, after, 0, 0))
    ensures forall k: Key :: k.name !in Touched(ops, before, after, 0, 0) ==>
              On(disk', k) == On(disk, k) + Filed(after, relink, k)
  {
    hide On, Filed, Touched, Covers;
    forall k: Key | k.name !in Touched(ops, before, after, 0, 0)
      ensures On(disk', k) == On(disk, k) + Filed(after, relink, k)
    {
      SameOn(split, disk', k);
      DebtSplit.UntouchedIsTheSame(ops, before, after, relink, 0, 0, k);
      assert before[0..] == before && after[0..] == after;
    }
  }

  /** The split of the old index took place, and all that its files then hold can be read back. */
  ghost predicate SplitTakesPlace(disk: Disk, items: seq<Item>, debtName: DebtSplit.DebtName, relink: Relink) {
    && DebtSplit.KeyedItems(items, debtName) != [] && !EntryAbove(items)
    && Appendable(disk, DebtSplit.KeyedItems(items, debtName), relink)
  }

  lemma {:induction false} TakesPlace(disk: Disk, items: seq<Item>, debtName: DebtSplit.DebtName, relink: Relink)
    requires SplitTakesPlace(disk, items, debtName, relink)
    ensures Appendable(disk, DebtSplit.KeyedItems(items, debtName), relink)
  {
  }

  lemma {:induction false} NoneTakesPlace(disk: Disk, items: seq<Item>, debtName: DebtSplit.DebtName, relink: Relink)
    requires DebtSplit.KeyedItems(items, debtName) == [] || EntryAbove(items)
    ensures !SplitTakesPlace(disk, items, debtName, relink)
  {
  }

  /**
    Splitting the old index and then replaying a change of the index on what was written. Given that all the files
    hold after the split reads back: nothing is missing, and each touched file is given what it had of its own and what
    is filed of the new index, which it then holds exactly if that can be written; the other files hold just that.

    From files that hold nothing, the result is thus the split of the new index: exactly when all that is filed of it
    reads back once it is written.
   */
  method SplitThenApplyOnDisk(disk: Disk, oldItems: seq<Item>, newItems: seq<Item>, debtName: DebtSplit.DebtName,
                              ops: seq<Op>, relink: Relink, order: seq<string>)
    returns (r: Option<Disk>, ghost out: Files)
    requires Covers(ops, DebtSplit.KeyedItems(oldItems, debtName), DebtSplit.KeyedItems(newItems, debtName), 0, 0)
    ensures DebtSplit.KeyedItems(oldItems, debtName) == [] || EntryAbove(oldItems) ==> r == None
    ensures var before, after := DebtSplit.KeyedItems(oldItems, debtName), DebtSplit.KeyedItems(newItems, debtName);
            var touched := Touched(ops, before, after, 0, 0);
            SplitTakesPlace(disk, oldItems, debtName, relink) ==>
              && r.Some? && Remade(disk, out, before, after, relink, touched)
              && (forall n :: n in touched ==> (HeldAs(SectionsOn(r.value, n), out, n) <==> CanWrite(out, n)))
              && forall k: Key :: k.name !in touched ==> On(r.value, k) == On(disk, k) + Filed(after, relink, k)
    ensures SplitTakesPlace(disk, oldItems, debtName, relink) && (forall k: Key :: On(disk, k) == []) ==>
              (HoldsSplit(r.value, DebtSplit.KeyedItems(newItems, debtName), relink)
               <==> Fileable(DebtSplit.KeyedItems(newItems, debtName), relink, EVERYWHERE))
  {
    hide *;
    var before, after := DebtSplit.KeyedItems(oldItems, debtName), DebtSplit.KeyedItems(newItems, debtName);
    var split, index, files := SplitOnDisk(disk, oldItems, debtName, relink);
    if split.None? {
      NoneTakesPlace(disk, oldItems, debtName, relink);
      return None, map[];
    }
    SplitIsAppended(disk, split.value, files, before, relink);
    var written;
    r, written, out := ApplyOnDisk(split.value, before, after, ops, relink, order);
    if SplitTakesPlace(disk, oldItems, debtName, relink) {
      TakesPlace(disk, oldItems, debtName, relink);
      AppendedCanReplay(disk, split.value, before, after, ops, relink);
      AppendedIsRemade(disk, FilesOf(split.value, Touched(ops, before, after, 0, 0)), out, before, after, ops, relink);
      AppendedElsewhere(disk, split.value, r.value, before, after, ops, relink);
      if forall k: Key :: On(disk, k) == [] {
        SplitIsHeld(disk, split.value, before, relink);
        HeldCanReplay(split.value, before, after, ops, relink);
        SquareOnDisk(split.value, r.value, out, before, after, ops, relink);
        TouchedDecide(before, after, ops, relink);
      }
    }
  }
}
