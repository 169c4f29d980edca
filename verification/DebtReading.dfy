/**
  What the lines of a debt file say: the headings, entries and other texts in them, the sections these stand under, and
  what the file holds of each.
 */
module DebtReading {
  import opened Options
  import opened DebtText

  // ----- lines

  ghost predicate White(c: char) { c in {' ', '\t', '\n', '\U{000B}', '\U{000C}', '\r'} }

  ghost predicate AllWhite(s: string) { forall i :: 0 <= i < |s| ==> White(s[i]) }

  /** The title in the rest of a heading: up to trailing space, but at least one character. */
  ghost predicate TitleText(rest: string, title: string) {
    && title != "" && title <= rest && AllWhite(rest[|title|..])
    && (|title| == 1 || !White(title[|title| - 1]))
  }

  /** A heading: one to six hashes, a space, and a title. */
  ghost predicate HeadingLine(line: string, level: nat, title: string) {
    && 1 <= level <= 6 && level + 1 < |line| && (forall i :: 0 <= i < level ==> line[i] == '#') && line[level] == ' '
    && TitleText(line[level + 1..], title)
  }

  ghost predicate IsHeading(line: string) { exists level, title :: HeadingLine(line, level, title) }

  ghost predicate IsEntry(line: string) { |line| >= 2 && line[0] == '-' && line[1] == ' ' }

  ghost predicate IsIndented(line: string) { line != "" && (line[0] == ' ' || line[0] == '\t') }

  /** A line that an entry can go on over. */
  ghost predicate Continues(line: string) { !IsHeading(line) && !IsEntry(line) && (IsIndented(line) || AllWhite(line)) }

  /** The title of the last third-level heading among the first n lines. */
  ghost predicate SectionBefore(lines: seq<string>, n: nat, section: Option<string>)
    requires n <= |lines|
  {
    if section.None? then forall k, t :: 0 <= k < n ==> !HeadingLine(lines[k], 3, t)
    else
      exists k: nat :: k < n && HeadingLine(lines[k], 3, section.value)
                       && forall j, t :: k < j < n ==> !HeadingLine(lines[j], 3, t)
  }

  // ----- items

  /** An entry cannot be taken on past a line. */
  ghost predicate Stops(lines: seq<string>, end: nat, n: nat)
    requires n <= |lines|
  {
    exists k: nat :: end <= k < n && !Continues(lines[k]) && forall j :: end <= j < k ==> !IsIndented(lines[j])
  }

  ghost predicate Trails(lines: seq<string>, end: nat, n: nat)
    requires n <= |lines|
  {
    end <= n && forall j :: end <= j < n ==> AllWhite(lines[j]) && !IsIndented(lines[j]) && Continues(lines[j])
  }

  /** The item is what stands in the lines from one to another. */
  ghost predicate StandsIn(lines: seq<string>, item: Item, from: nat, to: nat)
    requires from < to <= |lines|
  {
    && item.lines == lines[from..to] && SectionBefore(lines, from + 1, item.section)
    && match item.kind
       case Heading => IsHeading(lines[from]) && to == from + 1
       case Entry =>
         && !IsHeading(lines[from]) && IsEntry(lines[from]) && (forall k :: from < k < to ==> Continues(lines[k]))
         && (to > from + 1 ==> IsIndented(lines[to - 1]))
       case Plain => !IsHeading(lines[from]) && !IsEntry(lines[from]) && !AllWhite(lines[from]) && to == from + 1
  }

  /** The items of the first n lines, where each stands, and nothing but blank lines elsewhere. */
  ghost predicate ItemsUpTo(lines: seq<string>, n: nat, items: seq<Item>, from: seq<nat>, to: seq<nat>)
    requires n <= |lines|
  {
    && |from| == |to| == |items|
    && (forall i :: 0 <= i < |items| ==> from[i] < to[i] <= n && StandsIn(lines, items[i], from[i], to[i]))
    && (forall i, j :: 0 <= i < j < |items| ==> to[i] <= from[j])
    && (forall k :: 0 <= k < n ==> AllWhite(lines[k]) || exists i :: 0 <= i < |items| && from[i] <= k < to[i])
  }

  /** The items of a file: each entry goes on as far as it can. */
  ghost predicate ItemsAre(lines: seq<string>, items: seq<Item>, from: seq<nat>, to: seq<nat>) {
    && ItemsUpTo(lines, |lines|, items, from, to)
    && forall i :: 0 <= i < |items| && items[i].kind == Entry ==>
         Stops(lines, to[i], |lines|) || Trails(lines, to[i], |lines|)
  }

  // ----- the parser finds them

  lemma {:induction false} BlankIs(line: string)
    ensures IsBlank(line) <==> AllWhite(line)
  {
  }

  lemma {:induction false} TrimIs(s: string)
    ensures TrimRight(s) <= s && AllWhite(s[|TrimRight(s)|..])
  {
    if s != "" && IsSpace(s[|s| - 1]) {
      TrimIs(s[..|s| - 1]);
      var t := TrimRight(s);
      forall i | 0 <= i < |s[|t|..]| ensures White(s[|t|..][i]) {
        if i < |s| - 1 - |t| { assert s[|t|..][i] == s[..|s| - 1][|t|..][i]; }
      }
    }
  }

  lemma {:induction false} TitleIs(rest: string, title: string)
    requires rest != ""
    ensures TitleOf(rest) == title <==> TitleText(rest, title)
  {
    TrimIs(rest);
    var t := TitleOf(rest);
    if TrimRight(rest) == "" {
      assert AllWhite(rest[0..]) && rest[0..] == rest && White(rest[0]);
    }
    if TitleText(rest, title) { OneTitle(rest, t, title); }
  }

  lemma {:induction false} OneTitle(rest: string, a: string, b: string)
    requires TitleText(rest, a) && TitleText(rest, b)
    ensures a == b
  {
    if |a| < |b| { LongerEndsWhite(rest, a, b); }
    if |b| < |a| { LongerEndsWhite(rest, b, a); }
  }

  lemma {:induction false} LongerEndsWhite(rest: string, a: string, b: string)
    requires TitleText(rest, a) && b <= rest && |a| < |b|
    ensures |b| > 1 && White(b[|b| - 1])
  {
    assert rest[|a|..][|b| - 1 - |a|] == b[|b| - 1];
  }

  /** The headings that are read. */
  lemma {:induction false} HeadingIs(line: string, level: nat, title: string)
    ensures HeadingOf(line) == Some((level, title)) <==> HeadingLine(line, level, title)
  {
    var n := Hashes(line);
    if n + 1 < |line| { TitleIs(line[n + 1..], title); }
    if HeadingLine(line, level, title) { HashesBefore(line, level); }
  }

  lemma {:induction false} HeadingsAre(line: string)
    ensures HeadingOf(line).Some? <==> IsHeading(line)
  {
    if HeadingOf(line).Some? { HeadingIs(line, HeadingOf(line).value.0, HeadingOf(line).value.1); }
    if level, title :| HeadingLine(line, level, title) { HeadingIs(line, level, title); }
  }

  lemma {:induction false} LineIs(line: string)
    ensures HeadingOf(line).Some? <==> IsHeading(line)
    ensures StartsEntry(line) <==> IsEntry(line)
    ensures Indented(line) <==> IsIndented(line)
    ensures IsBlank(line) <==> AllWhite(line)
  {
    HeadingsAre(line);
    BlankIs(line);
  }

  /** The entries of the first n lines that cannot go on; the last one still can if the parser is open. */
  ghost predicate Closed(lines: seq<string>, n: nat, s: State, to: seq<nat>)
    requires n <= |lines| && |to| == |s.items|
  {
    && (forall i :: 0 <= i < |s.items| && s.items[i].kind == Entry && (s.open ==> i < |s.items| - 1) ==>
          to[i] <= n && Stops(lines, to[i], n))
    && (s.open ==> s.items != [] && s.items[|s.items| - 1].kind == Entry && Trails(lines, to[|to| - 1], n)
                   && s.blanks == lines[to[|to| - 1]..n])
  }

  /** The parser after n lines. */
  ghost predicate Parsing(lines: seq<string>, n: nat, s: State, from: seq<nat>, to: seq<nat>) {
    && n <= |lines| && ItemsUpTo(lines, n, s.items, from, to) && SectionBefore(lines, n, s.section)
    && Closed(lines, n, s, to)
  }

  lemma {:induction false} SectionNext(lines: seq<string>, n: nat, section: Option<string>)
    requires n < |lines| && SectionBefore(lines, n, section)
    ensures match HeadingOf(lines[n])
            case Some((level, title)) => SectionBefore(lines, n + 1, if level == 3 then Some(title) else section)
            case None => SectionBefore(lines, n + 1, section)
  {
    forall level: nat, title
      ensures HeadingOf(lines[n]) == Some((level, title)) <==> HeadingLine(lines[n], level, title)
    {
      HeadingIs(lines[n], level, title);
    }
    hide HeadingLine, HeadingOf;
  }

  lemma {:induction false} StillStops(lines: seq<string>, end: nat, n: nat, m: nat)
    requires n <= m <= |lines| && Stops(lines, end, n)
    ensures Stops(lines, end, m)
  {
  }

  lemma {:induction false} TrailStops(lines: seq<string>, end: nat, n: nat)
    requires n < |lines| && Trails(lines, end, n)
    ensures !Continues(lines[n]) ==> Stops(lines, end, n + 1)
    ensures Continues(lines[n]) && !IsIndented(lines[n]) ==> Trails(lines, end, n + 1)
  {
  }

  /** One more line that is an item of its own. */
  lemma {:induction false} OneMoreItem(lines: seq<string>, n: nat, items: seq<Item>, from: seq<nat>, to: seq<nat>,
                                       item: Item)
    requires n < |lines| && ItemsUpTo(lines, n, items, from, to) && StandsIn(lines, item, n, n + 1)
    ensures ItemsUpTo(lines, n + 1, items + [item], from + [n], to + [n + 1])
  {
    hide StandsIn, AllWhite;
    var all, f, t := items + [item], from + [n], to + [n + 1];
    forall k | 0 <= k < n + 1 ensures AllWhite(lines[k]) || exists i :: 0 <= i < |all| && f[i] <= k < t[i] {
      if k < n {
        if !AllWhite(lines[k]) {
          var i :| 0 <= i < |items| && from[i] <= k < to[i];
          assert f[i] <= k < t[i];
        }
      } else {
        assert f[|items|] <= k < t[|items|];
      }
    }
  }

  lemma {:induction false} OneMoreBlank(lines: seq<string>, n: nat, items: seq<Item>, from: seq<nat>, to: seq<nat>)
    requires n < |lines| && ItemsUpTo(lines, n, items, from, to) && AllWhite(lines[n])
    ensures ItemsUpTo(lines, n + 1, items, from, to)
  {
    hide StandsIn, AllWhite;
  }

  lemma {:induction false} LongerStands(lines: seq<string>, item: Item, from: nat, end: nat, n: nat)
    requires from < end <= n < |lines| && StandsIn(lines, item, from, end) && item.kind == Entry
    requires Trails(lines, end, n) && Continues(lines[n]) && IsIndented(lines[n])
    ensures StandsIn(lines, item.(lines := item.lines + (lines[end..n] + [lines[n]])), from, n + 1)
  {
    hide Continues, IsIndented, IsHeading, IsEntry, AllWhite, SectionBefore;
    assert lines[from..end] + (lines[end..n] + [lines[n]]) == lines[from..n + 1];
  }

  lemma {:induction false} LastReplaced(lines: seq<string>, n: nat, items: seq<Item>, from: seq<nat>, to: seq<nat>,
                                        item: Item)
    requires n < |lines| && ItemsUpTo(lines, n, items, from, to) && items != []
    requires to[|to| - 1] <= n && StandsIn(lines, item, from[|items| - 1], n + 1)
    requires forall k :: to[|to| - 1] <= k < n ==> AllWhite(lines[k])
    ensures ItemsUpTo(lines, n + 1, items[..|items| - 1] + [item], from, to[..|to| - 1] + [n + 1])
  {
    hide StandsIn, AllWhite;
    var last := |items| - 1;
    var t := to[..last] + [n + 1];
    forall k | 0 <= k < n + 1 ensures AllWhite(lines[k]) || exists i :: 0 <= i < |items| && from[i] <= k < t[i] {
      if from[last] <= k {
        assert from[last] <= k < t[last];
      } else if !AllWhite(lines[k]) {
        var i :| 0 <= i < |items| && from[i] <= k < to[i];
        assert from[i] <= k < t[i];
      }
    }
  }

  /** The last entry goes on to line n. */
  lemma {:induction false} EntryGoesOn(lines: seq<string>, n: nat, items: seq<Item>, from: seq<nat>, to: seq<nat>)
    requires n < |lines| && ItemsUpTo(lines, n, items, from, to) && items != []
    requires items[|items| - 1].kind == Entry && Trails(lines, to[|to| - 1], n)
    requires Continues(lines[n]) && IsIndented(lines[n])
    ensures ItemsUpTo(lines, n + 1, Continued(items, lines[to[|to| - 1]..n] + [lines[n]]), from,
                      to[..|to| - 1] + [n + 1])
  {
    hide StandsIn, AllWhite, Continues, IsIndented;
    var last, e := items[|items| - 1], to[|to| - 1];
    LongerStands(lines, last, from[|items| - 1], e, n);
    LastReplaced(lines, n, items, from, to, last.(lines := last.lines + (lines[e..n] + [lines[n]])));
  }

  /** The parser takes in one more line. */
  lemma {:induction false} StepParses(lines: seq<string>, n: nat, s: State, from: seq<nat>, to: seq<nat>)
    returns (from': seq<nat>, to': seq<nat>)
    requires n < |lines| && Parsing(lines, n, s, from, to) && (s.open ==> s.items != [])
    ensures Parsing(lines, n + 1, Step(s, lines[n]), from', to')
  {
    hide StandsIn, ItemsUpTo, SectionBefore, Stops, Trails, IsHeading, AllWhite, IsIndented, IsEntry, HeadingOf,
      StartsEntry, Indented, IsBlank;
    var line, next := lines[n], Step(s, lines[n]);
    from', to' := from, to;
    ItemCounts(lines, n, s.items, from, to);
    LineIs(line);
    SectionNext(lines, n, s.section);
    forall i | 0 <= i < |s.items| && s.items[i].kind == Entry && Stops(lines, to[i], n)
      ensures Stops(lines, to[i], n + 1)
    {
      StillStops(lines, to[i], n, n + 1);
    }
    if s.open { TrailStops(lines, to[|to| - 1], n); }
    if |next.items| > |s.items| {
      var item := next.items[|s.items|];
      from', to' := from + [n], to + [n + 1];
      NewStands(lines, n, s, item);
      OneMoreItem(lines, n, s.items, from, to, item);
      assert next.items == s.items + [item];
      NothingTrails(lines, n + 1);
      assert lines[n + 1..n + 1] == [];
    } else if HeadingOf(line).None? && !StartsEntry(line) && s.open && Indented(line) {
      EntryGoesOn(lines, n, s.items, from, to);
      to' := to[..|to| - 1] + [n + 1];
      NothingTrails(lines, n + 1);
      assert lines[n + 1..n + 1] == [];
    } else {
      OneMoreBlank(lines, n, s.items, from, to);
      if s.open {
        TrailBound(lines, to[|to| - 1], n);
        assert lines[to[|to| - 1]..n] + [line] == lines[to[|to| - 1]..n + 1];
      }
    }
  }

  lemma {:induction false} TrailBound(lines: seq<string>, end: nat, n: nat)
    requires n <= |lines| && Trails(lines, end, n)
    ensures end <= n
  {
  }

  lemma {:induction false} NothingTrails(lines: seq<string>, n: nat)
    requires n <= |lines|
    ensures Trails(lines, n, n)
  {
  }

  lemma {:induction false} ItemCounts(lines: seq<string>, n: nat, items: seq<Item>, from: seq<nat>, to: seq<nat>)
    requires n <= |lines| && ItemsUpTo(lines, n, items, from, to)
    ensures |from| == |to| == |items| && forall i :: 0 <= i < |items| ==> to[i] <= n
  {
  }

  lemma {:induction false} NewStands(lines: seq<string>, n: nat, s: State, item: Item)
    requires n < |lines| && SectionBefore(lines, n, s.section) && (s.open ==> s.items != [])
    requires Step(s, lines[n]).items == s.items + [item]
    ensures StandsIn(lines, item, n, n + 1)
  {
    hide HeadingOf, StartsEntry, Indented, IsBlank, IsHeading, AllWhite, IsEntry, IsIndented, SectionBefore, Continues;
    LineIs(lines[n]);
    SectionNext(lines, n, s.section);
    assert lines[n..n + 1] == [lines[n]];
    assert (s.items + [item])[|s.items|] == item;
  }

  lemma {:induction false} RunParses(lines: seq<string>, n: nat, s: State, from: seq<nat>, to: seq<nat>)
    returns (from': seq<nat>, to': seq<nat>)
    requires Parsing(lines, n, s, from, to) && (s.open ==> s.items != [])
    ensures Parsing(lines, |lines|, Run(s, lines[n..]), from', to')
    decreases |lines| - n
  {
    hide Step, Parsing;
    ParsingBound(lines, n, s, from, to);
    if n == |lines| {
      from', to' := from, to;
    } else {
      from', to' := StepParses(lines, n, s, from, to);
      assert lines[n..][0] == lines[n] && lines[n..][1..] == lines[n + 1..];
      from', to' := RunParses(lines, n + 1, Step(s, lines[n]), from', to');
    }
  }

  lemma {:induction false} ParsingBound(lines: seq<string>, n: nat, s: State, from: seq<nat>, to: seq<nat>)
    requires Parsing(lines, n, s, from, to)
    ensures n <= |lines|
  {
  }

  /** The items of a file, line by line. */
  lemma {:induction false} ParsedIs(lines: seq<string>) returns (from: seq<nat>, to: seq<nat>)
    ensures ItemsAre(lines, Parsed(lines), from, to)
  {
    hide Run, ItemsUpTo, Stops, Trails, SectionBefore;
    NothingParsed(lines);
    from, to := RunParses(lines, 0, START, [], []);
    assert lines[0..] == lines;
    ItemCounts(lines, |lines|, Parsed(lines), from, to);
  }

  lemma {:induction false} NothingParsed(lines: seq<string>)
    ensures Parsing(lines, 0, START, [], [])
  {
  }

  // ----- what is picked of the items, in their order

  /** The numbers below n that are chosen, in order. */
  ghost predicate Enumerates(at: seq<nat>, n: nat, chosen: iset<nat>) {
    && (forall i, j :: 0 <= i < j < |at| ==> at[i] < at[j])
    && forall i: nat :: i in at <==> i < n && i in chosen
  }

  lemma {:induction false} EnumeratesNext(at: seq<nat>, n: nat, chosen: iset<nat>)
    requires Enumerates(at, n, chosen)
    ensures Enumerates(if n in chosen then at + [n] else at, n + 1, chosen)
  {
    forall i | 0 <= i < |at| ensures at[i] < n { assert at[i] in at; }
  }

  /** The chosen numbers below n are the same when they are the same below n. */
  lemma {:induction false} EnumeratesAlike(at: seq<nat>, n: nat, chosen: iset<nat>, alike: iset<nat>)
    requires Enumerates(at, n, chosen) && forall i: nat :: i < n ==> (i in chosen <==> i in alike)
    ensures Enumerates(at, n, alike)
  {
  }

  lemma {:induction false} OneMoreChosen(items: seq<Item>, at: seq<nat>, before: iset<nat>, chosen: iset<nat>)
    requires items != [] && Enumerates(at, |items| - 1, before)
    requires forall i: nat :: i < |items| - 1 ==> (i in before <==> i in chosen)
    ensures Enumerates(if |items| - 1 in chosen then at + [|items| - 1] else at, |items|, chosen)
  {
    EnumeratesAlike(at, |items| - 1, before, chosen);
    EnumeratesNext(at, |items| - 1, chosen);
  }

  lemma {:induction false} NoneChosen(chosen: iset<nat>)
    ensures Enumerates([], 0, chosen)
  {
  }

  ghost predicate IsThird(item: Item) {
    && item.kind == Heading && item.section.Some? && item.lines != []
    && exists title :: HeadingLine(item.lines[0], 3, title)
  }

  ghost predicate HasLevel(item: Item, level: nat) {
    item.kind == Heading && item.lines != [] && exists title :: HeadingLine(item.lines[0], level, title)
  }

  /** The last third-level heading before an item has this section. */
  ghost predicate Heads(items: seq<Item>, i: nat, key: Option<string>) {
    exists h: nat :: h < i && h < |items| && IsThird(items[h]) && items[h].section == key
                     && forall k :: h < k < i && k < |items| ==> !IsThird(items[k])
  }

  /** The item is one of the texts under a section: no heading, or one of the fourth level. */
  ghost predicate IsUnder(items: seq<Item>, i: nat, key: Option<string>) {
    i < |items| && Heads(items, i, key) && !IsThird(items[i]) && (items[i].kind != Heading || HasLevel(items[i], 4))
  }

  lemma {:induction false} LevelIs(item: Item, level: nat)
    ensures item.kind == Heading ==> (Level(item, level) <==> HasLevel(item, level))
  {
    if item.lines != [] {
      forall title
        ensures HeadingOf(item.lines[0]) == Some((level, title)) <==> HeadingLine(item.lines[0], level, title)
      {
        HeadingIs(item.lines[0], level, title);
      }
    }
  }

  lemma {:induction false} HeadsNext(items: seq<Item>, next: Item, key: Option<string>)
    ensures Heads(items + [next], |items| + 1, key)
        <==> if IsThird(next) then next.section == key else Heads(items, |items|, key)
    ensures forall i: nat :: i <= |items| ==> (Heads(items + [next], i, key) <==> Heads(items, i, key))
  {
    hide IsThird;
    var all := items + [next];
    if Heads(all, |items| + 1, key) {
      var h: nat :| h < |items| + 1 && IsThird(all[h]) && all[h].section == key
        && forall k :: h < k < |items| + 1 ==> !IsThird(all[k]);
      if h < |items| {
        assert forall k :: h < k < |items| ==> items[k] == all[k];
        assert items[h] == all[h] && all[|items|] == next;
      }
    }
    if !IsThird(next) && Heads(items, |items|, key) {
      var h: nat :| h < |items| && IsThird(items[h]) && items[h].section == key
        && forall k :: h < k < |items| ==> !IsThird(items[k]);
      assert all[h] == items[h] && forall k :: h < k < |all| ==> !IsThird(all[k]);
    }
    if IsThird(next) && next.section == key { assert all[|items|] == next; }
    forall i: nat | i <= |items| ensures Heads(all, i, key) <==> Heads(items, i, key) {
      assert forall k :: 0 <= k < i ==> k < |items| && all[k] == items[k];
    }
  }

  lemma {:induction false} UnderNext(items: seq<Item>, next: Item, key: Option<string>)
    ensures forall i: nat :: i < |items| ==> (IsUnder(items + [next], i, key) <==> IsUnder(items, i, key))
    ensures IsUnder(items + [next], |items|, key)
        <==> Heads(items, |items|, key) && !IsThird(next) && (next.kind != Heading || HasLevel(next, 4))
  {
    hide Heads, IsThird, HasLevel;
    HeadsNext(items, next, key);
    assert forall i :: 0 <= i < |items| ==> (items + [next])[i] == items[i];
  }

  /** The section being read is that of the last third-level heading. */
  lemma {:induction false} ReadingIs(items: seq<Item>, key: Option<string>)
    requires key.Some?
    ensures ReadAll(items).section == key <==> Heads(items, |items|, key)
  {
    hide Level;
    if items != [] {
      var init, last := items[..|items| - 1], items[|items| - 1];
      assert items == init + [last];
      ReadingIs(init, key);
      HeadsNext(init, last, key);
      LevelIs(last, 3);
      hide IsThird, Heads;
      ThirdIs(last);
    }
  }

  lemma {:induction false} ThirdIs(item: Item)
    ensures IsThird(item) <==> item.kind == Heading && item.section.Some? && HasLevel(item, 3)
    ensures IsThird(item) <==> item.kind == Heading && item.section.Some? && Level(item, 3)
  {
    LevelIs(item, 3);
  }

  /** The sections that are read are those of the third-level headings. */
  lemma {:induction false} KeysAre(items: seq<Item>, key: Option<string>)
    ensures key in ReadAll(items).sections
        <==> exists i :: 0 <= i < |items| && IsThird(items[i]) && items[i].section == key
    ensures ReadAll(items).section.Some? ==> ReadAll(items).section in ReadAll(items).sections
  {
    hide Level, IsThird;
    if items != [] {
      var init, last := items[..|items| - 1], items[|items| - 1];
      KeysAre(init, key);
      ThirdIs(last);
      assert forall i :: 0 <= i < |init| ==> items[i] == init[i];
    }
  }

  lemma {:induction false} TextsNext(r: Reading, item: Item, key: Option<string>)
    ensures key.Some? ==>
              TextsIn(ReadItem(r, item).sections, key)
              == TextsIn(r.sections, key)
                 + if r.section == key && !IsThird(item) && (item.kind != Heading || HasLevel(item, 4))
                   then [item.lines] else []
  {
    hide Level, IsThird, HasLevel;
    ThirdIs(item);
    LevelIs(item, 4);
  }

  ghost function Texts(items: seq<Item>, key: Option<string>): iset<nat> { iset i: nat | IsUnder(items, i, key) }

  lemma {:induction false} TextsGrow(init: seq<Item>, last: Item, key: Option<string>)
    ensures forall i: nat :: i < |init| ==> (i in Texts(init, key) <==> i in Texts(init + [last], key))
    ensures |init| in Texts(init + [last], key)
        <==> Heads(init, |init|, key) && !IsThird(last) && (last.kind != Heading || HasLevel(last, 4))
  {
    hide IsUnder, IsThird, HasLevel, Heads;
    UnderNext(init, last, key);
  }

  /** What is read under a section: its texts, in their order. */
  lemma {:induction false} SectionIs(items: seq<Item>, key: Option<string>) returns (at: seq<nat>)
    requires key.Some?
    ensures Enumerates(at, |items|, Texts(items, key))
    ensures var texts := TextsIn(ReadAll(items).sections, key);
            |texts| == |at| && forall j :: 0 <= j < |at| ==> at[j] < |items| && texts[j] == items[at[j]].lines
  {
    hide ReadItem, ReadAll, IsUnder, IsThird, HasLevel, Heads, Enumerates, Texts;
    at := [];
    NoneChosen(Texts(items, key));
    if items == [] {
      NothingUnder(key);
    } else {
      var init, last := items[..|items| - 1], items[|items| - 1];
      assert items == init + [last];
      at := SectionIs(init, key);
      ReadOneMore(init, last);
      ReadingIs(init, key);
      TextsNext(ReadAll(init), last, key);
      TextsGrow(init, last, key);
      OneMoreChosen(items, at, Texts(init, key), Texts(items, key));
      if |init| in Texts(items, key) { at := at + [|init|]; }
    }
  }

  lemma {:induction false} NothingUnder(key: Option<string>)
    ensures TextsIn(ReadAll([]).sections, key) == []
  {
  }

  // ----- lines of texts, one after the other

  ghost function Joined(blocks: seq<seq<string>>): seq<string> {
    if blocks == [] then [] else Joined(blocks[..|blocks| - 1]) + blocks[|blocks| - 1]
  }

  lemma {:induction false} JoinedMore(blocks: seq<seq<string>>, block: seq<string>)
    ensures Joined(blocks + [block]) == Joined(blocks) + block
  {
    assert (blocks + [block])[..|blocks|] == blocks;
  }

  lemma {:induction false} FlatIsJoined(texts: seq<Text>)
    ensures Flat(texts) == Joined(texts)
  {
    hide Flat;
    if texts == [] {
      FlatNothing();
    } else {
      var init, last := texts[..|texts| - 1], texts[|texts| - 1];
      FlatIsJoined(init);
      FlatLast(texts);
    }
  }

  lemma {:induction false} FlatNothing()
    ensures Flat([]) == []
  {
  }

  lemma {:induction false} FlatLast(texts: seq<Text>)
    requires texts != []
    ensures Flat(texts) == Flat(texts[..|texts| - 1]) + texts[|texts| - 1]
  {
    if |texts| == 1 {
      assert texts[1..] == [] && texts[..0] == [];
    } else {
      FlatLast(texts[1..]);
      assert texts[1..][..|texts| - 2] == texts[..|texts| - 1][1..];
      assert texts[0] + (Flat(texts[1..][..|texts| - 2]) + texts[|texts| - 1])
          == (texts[0] + Flat(texts[1..][..|texts| - 2])) + texts[|texts| - 1];
    }
  }
}
