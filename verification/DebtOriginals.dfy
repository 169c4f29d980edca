/**
  Which object of the loaded files stands for each entry of the old index.
 */
module DebtOriginals {
  import opened Lists
  import opened DebtFiles
  import opened ReplayState

  // ----- finding the original of each old entry

  ghost function Texts(l: seq<Ref>, texts: map<Ref, Text>): seq<Text>
    requires forall e :: e in l ==> e in texts
  {
    seq(|l|, x requires 0 <= x < |l| => texts[l[x]])
  }

  /** The entries of l whose text is in T. */
  ghost function Having(l: seq<Ref>, texts: map<Ref, Text>, T: set<Text>): seq<Ref>
    requires forall e :: e in l ==> e in texts
  {
    if l == [] then []
    else Having(l[..|l| - 1], texts, T) + if texts[l[|l| - 1]] in T then [l[|l| - 1]] else []
  }

  lemma {:induction false} HavingMembers(l: seq<Ref>, texts: map<Ref, Text>, T: set<Text>)
    requires forall e :: e in l ==> e in texts
    ensures forall e :: e in Having(l, texts, T) <==> e in l && texts[e] in T
    ensures Distinct(l) ==> Distinct(Having(l, texts, T))
  {
    if l != [] {
      HavingMembers(l[..|l| - 1], texts, T);
      assert l == l[..|l| - 1] + [l[|l| - 1]];
    }
  }

  lemma {:induction false} TextsOfHaving(l: seq<Ref>, texts: map<Ref, Text>, T: set<Text>)
    requires forall e :: e in l ==> e in texts
    ensures (forall e :: e in Having(l, texts, T) ==> e in texts) && Texts(Having(l, texts, T), texts)
        == Sift(Texts(l, texts), T, true)
  {
    HavingMembers(l, texts, T);
    if l != [] {
      var init, last := l[..|l| - 1], l[|l| - 1];
      TextsOfHaving(init, texts, T);
      HavingMembers(init, texts, T);
      assert Texts(l, texts)[..|l| - 1] == Texts(init, texts);
    }
  }

  lemma {:induction false} HavingOne(l: seq<Ref>, texts: map<Ref, Text>, T: set<Text>, t: Text)
    requires (forall e :: e in l ==> e in texts) && t in T
    requires forall e :: e in Having(l, texts, T) ==> e in texts
    ensures Having(Having(l, texts, T), texts, {t}) == Having(l, texts, {t})
  {
    if l != [] {
      var init, last := l[..|l| - 1], l[|l| - 1];
      HavingMembers(init, texts, T);
      HavingMembers(l, texts, T);
      HavingOne(init, texts, T, t);
      var h := Having(init, texts, T);
      if texts[last] in T {
        assert (h + [last])[..|h|] == h;
      } else {
        assert Having(l, texts, T) == h;
      }
    }
  }

  /** The copies of a text come one after another. */
  lemma {:induction false} HavingNth(l: seq<Ref>, texts: map<Ref, Text>, t: Text, p: nat)
    requires (forall e :: e in l ==> e in texts) && p < |l| && texts[l[p]] == t
    ensures |Having(l, texts, {t})| == multiset(Texts(l, texts))[t]
    ensures multiset(Texts(l, texts)[..p])[t] < |Having(l, texts, {t})|
    ensures Having(l, texts, {t})[multiset(Texts(l, texts)[..p])[t]] == l[p]
  {
    HavingCount(l, texts, t);
    var init, last := l[..|l| - 1], l[|l| - 1];
    var all := Texts(l, texts);
    assert Texts(init, texts) == all[..|l| - 1];
    HavingCount(init, texts, t);
    if p < |l| - 1 {
      HavingNth(init, texts, t, p);
      assert all[..|l| - 1][..p] == all[..p];
    } else {
      assert all[..p] == Texts(init, texts);
    }
  }

  lemma {:induction false} HavingCount(l: seq<Ref>, texts: map<Ref, Text>, t: Text)
    requires forall e :: e in l ==> e in texts
    ensures |Having(l, texts, {t})| == multiset(Texts(l, texts))[t]
  {
    if l != [] {
      HavingCount(l[..|l| - 1], texts, t);
      assert Texts(l, texts) == Texts(l[..|l| - 1], texts) + [texts[l[|l| - 1]]];
    }
  }

  /** The file has no copy left for before[a]: the entries up to it with that text are more than the copies. */
  ghost predicate Missing(disk: Files, before: seq<Keyed>, relink: Relink, a: nat)
    requires a < |before|
  {
    var k := before[a].key;
    var t := relink(before[a].item, k.name);
    multiset(TextsAt(disk, k))[t] <= multiset(Filed(before[..a], relink, k))[t]
  }

  lemma {:induction false} FiledCount(before: seq<Keyed>, a: nat, relink: Relink, k: Key, t: Text)
    requires a < |before|
    ensures multiset(Filed(before[..a + 1], relink, k))[t]
            == multiset(Filed(before[..a], relink, k))[t] + if before[a].key == k
                && relink(before[a].item, k.name) == t then 1 else 0
  {
    assert before[..a + 1][..a] == before[..a];
  }

  lemma {:induction false} FiledCountGrows(before: seq<Keyed>, a: nat, b: nat, relink: Relink, k: Key, t: Text)
    requires a <= b <= |before|
    ensures multiset(Filed(before[..a], relink, k))[t] <= multiset(Filed(before[..b], relink, k))[t]
  {
    hide Filed;
    if a < b {
      FiledCountGrows(before, a, b - 1, relink, k, t);
      FiledCount(before, b - 1, relink, k, t);
    }
  }

  /** The loaded files: every entry is known and filed once. */
  ghost predicate Loaded(files: Board, texts: map<Ref, Text>) {
    FiledOnce(files) && null !in texts && forall k, e :: k in files && e in files[k] ==> e in texts
  }

  lemma {:induction false} LoadedAt(files: Board, texts: map<Ref, Text>, k: Key)
    requires Loaded(files, texts)
    ensures Distinct(At(files, k)) && forall e :: e in At(files, k) ==> e in texts
  {
  }

  /** The copies of before[a]'s text in its file. */
  ghost function Copies(files: Board, texts: map<Ref, Text>, relink: Relink, e: Keyed): seq<Ref>
    requires Loaded(files, texts)
  {
    LoadedAt(files, texts, e.key);
    Having(At(files, e.key), texts, {relink(e.item, e.key.name)})
  }

  ghost function Earlier(before: seq<Keyed>, relink: Relink, a: nat): nat
    requires a < |before|
  {
    multiset(Filed(before[..a], relink, before[a].key))[relink(before[a].item, before[a].key.name)]
  }

  /** The n-th old entry with a text gets the n-th copy of that text. */
  ghost predicate Assigned(before: seq<Keyed>, relink: Relink, files: Board, texts: map<Ref, Text>,
                           originals: seq<Ref>)
    requires Loaded(files, texts)
  {
    && |originals| <= |before|
    && forall a {:trigger AssignedAt(before, relink, files, texts, a, originals[a])} ::
         0 <= a < |originals| ==> AssignedAt(before, relink, files, texts, a, originals[a])
  }

  ghost predicate AssignedAt(before: seq<Keyed>, relink: Relink, files: Board, texts: map<Ref, Text>, a: nat, o: Ref)
    requires Loaded(files, texts) && a < |before|
  {
    var copies := Copies(files, texts, relink, before[a]);
    o == if Earlier(before, relink, a) < |copies| then copies[Earlier(before, relink, a)] else null
  }

  lemma {:induction false} AssignedIsFiled(before: seq<Keyed>, relink: Relink, files: Board, texts: map<Ref, Text>,
                                           a: nat, o: Ref)
    requires Loaded(files, texts) && a < |before| && AssignedAt(before, relink, files, texts, a, o) && o != null
    ensures o in At(files, before[a].key) && o in texts && texts[o] == relink(before[a].item, before[a].key.name)
    ensures o in Copies(files, texts, relink, before[a])
  {
    LoadedAt(files, texts, before[a].key);
    HavingMembers(At(files, before[a].key), texts, {relink(before[a].item, before[a].key.name)});
  }

  /** No object serves two old entries. */
  lemma {:induction false} AssignedOnce(before: seq<Keyed>, relink: Relink, files: Board, texts: map<Ref, Text>,
                                        a: nat, b: nat, o: Ref)
    requires Loaded(files, texts) && a < b < |before| && o != null && AssignedAt(before, relink, files, texts, a, o)
    ensures !AssignedAt(before, relink, files, texts, b, o)
  {
    hide Having, Filed;
    AssignedIsFiled(before, relink, files, texts, a, o);
    if before[b].key == before[a].key && relink(before[b].item, before[b].key.name) == texts[o] {
      LoadedAt(files, texts, before[a].key);
      HavingMembers(At(files, before[a].key), texts, {texts[o]});
      FiledCount(before, a, relink, before[a].key, texts[o]);
      FiledCountGrows(before, a + 1, b, relink, before[a].key, texts[o]);
    } else if AssignedAt(before, relink, files, texts, b, o) {
      AssignedIsFiled(before, relink, files, texts, b, o);
      assert false;
    }
  }

  lemma {:induction false} AssignedMissing(disk: Files, before: seq<Keyed>, relink: Relink, files: Board,
                                           texts: map<Ref, Text>, a: nat, o: Ref)
    requires Loaded(files, texts) && a < |before| && AssignedAt(before, relink, files, texts, a, o)
    requires (forall e :: e in At(files, before[a].key) ==> e in texts)
        && Texts(At(files, before[a].key), texts) == TextsAt(disk, before[a].key)
    ensures o == null <==> Missing(disk, before, relink, a)
  {
    HavingCount(At(files, before[a].key), texts, relink(before[a].item, before[a].key.name));
    HavingMembers(At(files, before[a].key), texts, {relink(before[a].item, before[a].key.name)});
    assert null !in Copies(files, texts, relink, before[a]);
  }

  // ----- files that still hold the entries of the index, in its order, and perhaps others

  ghost function TextSet(l: seq<Text>): set<Text> { set t | t in l }

  /** Among the lines of k, those with a text the index has under k are exactly the index's, in its order. */
  ghost predicate Replayable(disk: Files, before: seq<Keyed>, relink: Relink, k: Key) {
    var base := Filed(before, relink, k);
    Sift(TextsAt(disk, k), TextSet(base), true) == base
  }

  lemma {:induction false} FiledPrefix(before: seq<Keyed>, relink: Relink, k: Key, a: nat)
    requires a <= |before|
    ensures |Filed(before[..a], relink, k)| <= |Filed(before, relink, k)|
    ensures Filed(before, relink, k)[..|Filed(before[..a], relink, k)|] == Filed(before[..a], relink, k)
    ensures a < |before| && before[a].key == k ==>
              |Filed(before[..a], relink, k)| < |Filed(before, relink, k)|
              && Filed(before, relink, k)[|Filed(before[..a], relink, k)|] == relink(before[a].item, k.name)
    decreases |before| - a
  {
    if a < |before| {
      FiledPrefix(before, relink, k, a + 1);
      assert before[..a + 1][..a] == before[..a];
    } else {
      assert before[..a] == before;
    }
  }

  lemma {:induction false} PickInOrder(before: seq<Keyed>, relink: Relink, originals: seq<Ref>, k: Key, mine: seq<Ref>,
                                       a: nat)
    requires |originals| == |before| && a <= |before|
    requires forall b :: 0 <= b < a && before[b].key == k ==>
               |Filed(before[..b], relink, k)| < |mine| && originals[b] == mine[|Filed(before[..b], relink, k)|]
    ensures |Filed(before[..a], relink, k)| <= |mine|
    ensures Pick(before, originals, k, 0, a, {}) == mine[..|Filed(before[..a], relink, k)|]
  {
    if a > 0 {
      PickInOrder(before, relink, originals, k, mine, a - 1);
      assert before[..a][..a - 1] == before[..a - 1];
    }
  }

  lemma {:induction false} ReplayableMine(disk: Files, before: seq<Keyed>, relink: Relink, files: Board,
                                          texts: map<Ref, Text>, k: Key) returns (mine: seq<Ref>)
    requires Loaded(files, texts) && Replayable(disk, before, relink, k)
    requires forall e :: e in At(files, k) ==> e in texts
    requires Texts(At(files, k), texts) == TextsAt(disk, k)
    ensures mine == Having(At(files, k), texts, TextSet(Filed(before, relink, k)))
    ensures (forall e :: e in mine ==> e in texts) && Texts(mine, texts) == Filed(before, relink, k)
  {
    mine := Having(At(files, k), texts, TextSet(Filed(before, relink, k)));
    HavingMembers(At(files, k), texts, TextSet(Filed(before, relink, k)));
    TextsOfHaving(At(files, k), texts, TextSet(Filed(before, relink, k)));
  }

  lemma {:induction false} NextOriginal(before: seq<Keyed>, relink: Relink, files: Board, texts: map<Ref, Text>,
                                        originals: seq<Ref>, a: nat, mine: seq<Ref>)
    requires Loaded(files, texts) && Assigned(before, relink, files, texts, originals) && a < |originals|
        && a < |before|
    requires forall e :: e in At(files, before[a].key) ==> e in texts
    requires mine == Having(At(files, before[a].key), texts, TextSet(Filed(before, relink, before[a].key)))
    requires (forall e :: e in mine ==> e in texts) && Texts(mine, texts) == Filed(before, relink, before[a].key)
    ensures |Filed(before[..a], relink, before[a].key)| < |mine|
    ensures originals[a] != null && originals[a] == mine[|Filed(before[..a], relink, before[a].key)|]
  {
    var k := before[a].key;
    var t := relink(before[a].item, k.name);
    var p := |Filed(before[..a], relink, k)|;
    var base := Filed(before, relink, k);
    FiledPrefix(before, relink, k, a);
    assert t == base[p] && t in base;
    HavingOne(At(files, k), texts, TextSet(base), t);
    HavingNth(mine, texts, t, p);
    assert AssignedAt(before, relink, files, texts, a, originals[a]);
    HavingMembers(At(files, k), texts, TextSet(base));
    assert mine[p] in mine;
  }

  lemma {:induction false} SiftIsHaving(l: seq<Ref>, texts: map<Ref, Text>, S: set<Ref>, T: set<Text>)
    requires forall e :: e in l ==> e in texts && (e in S <==> texts[e] in T)
    ensures Sift(l, S, true) == Having(l, texts, T)
    ensures forall e :: e in Sift(l, S, false) ==> e in texts
    ensures Texts(Sift(l, S, false), texts) == Sift(Texts(l, texts), T, false)
  {
    SiftMembers(l, S, false);
    if l != [] {
      var init := l[..|l| - 1];
      SiftIsHaving(init, texts, S, T);
      SiftMembers(init, S, false);
      assert Texts(l, texts)[..|l| - 1] == Texts(init, texts);
    }
  }

  /** An entry of a file that can be replayed onto is an original exactly when its text is one of the index. */
  lemma {:induction false} OriginalsByText(before: seq<Keyed>, relink: Relink, files: Board, texts: map<Ref, Text>,
                                           originals: seq<Ref>, k: Key, mine: seq<Ref>, e: Ref)
    requires Loaded(files, texts) && Assigned(before, relink, files, texts, originals) && |originals| == |before|
    requires forall e :: e in At(files, k) ==> e in texts
    requires mine == Having(At(files, k), texts, TextSet(Filed(before, relink, k)))
    requires Pick(before, originals, k, 0, |before|, {}) == mine && e in At(files, k)
    ensures e in originals <==> texts[e] in TextSet(Filed(before, relink, k))
  {
    HavingMembers(At(files, k), texts, TextSet(Filed(before, relink, k)));
    PickMembers(before, originals, k, 0, |before|, {});
    if e in originals {
      var a :| 0 <= a < |originals| && originals[a] == e;
      assert AssignedAt(before, relink, files, texts, a, e);
      AssignedIsFiled(before, relink, files, texts, a, e);
      assert before[a].key == k by {
        assert e in At(files, before[a].key);
      }
      FiledPrefix(before, relink, k, a);
    }
    if texts[e] in TextSet(Filed(before, relink, k)) {
      assert e in mine;
    }
  }

  /** In a file that can be replayed onto, the originals of a key are the file's entries with a text of the index. */
  lemma {:induction false} OriginalsInOrder(disk: Files, before: seq<Keyed>, relink: Relink, files: Board,
                                            texts: map<Ref, Text>, originals: seq<Ref>, k: Key)
    returns (mine: seq<Ref>)
    requires Loaded(files, texts) && Assigned(before, relink, files, texts, originals) && |originals| == |before|
    requires forall e :: e in At(files, k) ==> e in texts
    requires Replayable(disk, before, relink, k) && Texts(At(files, k), texts) == TextsAt(disk, k)
    ensures Pick(before, originals, k, 0, |before|, {}) == mine == Having(At(files, k), texts,
        TextSet(Filed(before, relink, k)))
    ensures forall a :: 0 <= a < |before| && before[a].key == k ==> originals[a] != null
  {
    mine := ReplayableMine(disk, before, relink, files, texts, k);
    forall a | 0 <= a < |before| && before[a].key == k
      ensures originals[a] != null
      ensures |Filed(before[..a], relink, k)| < |mine| && originals[a] == mine[|Filed(before[..a], relink, k)|]
    {
      NextOriginal(before, relink, files, texts, originals, a, mine);
    }
    PickInOrder(before, relink, originals, k, mine, |before|);
    assert before[..|before|] == before;
    assert |mine| == |Texts(mine, texts)|;
  }

  /** The replay starts in sync: in every file it touches, the index's entries are its originals. */
  lemma {:induction false} StartTracked(disk: Files, c: Plan, s: State, k: Key)
    requires Loaded(s.files, s.texts) && |c.originals| == |c.before| && |s.resolved| == |c.after|
    requires Assigned(c.before, c.relink, s.files, s.texts, c.originals)
    requires forall e :: e in At(s.files, k) ==> e in s.texts
    requires Replayable(disk, c.before, c.relink, k) && Texts(At(s.files, k), s.texts) == TextsAt(disk, k)
    requires forall o :: o in s.mine <==> o != null && o in c.originals
    requires At(c.others, k) == Sift(At(s.files, k), s.mine, false)
    ensures Tracked(c, s, 0, {}, 0, {}, k)
    ensures forall a :: 0 <= a < |c.before| && c.before[a].key == k ==> c.originals[a] != null
    ensures forall e :: e in At(c.others, k) ==> e in s.texts
    ensures Texts(At(c.others, k), s.texts) == Sift(TextsAt(disk, k), TextSet(Filed(c.before, c.relink, k)), false)
  {
    assert null !in s.texts;
    hide Texts, Filed, Assigned, Loaded;
    var l, T := At(s.files, k), TextSet(Filed(c.before, c.relink, k));
    var mine := OriginalsInOrder(disk, c.before, c.relink, s.files, s.texts, c.originals, k);
    forall e | e in l ensures e in s.mine <==> s.texts[e] in T {
      OriginalsByText(c.before, c.relink, s.files, s.texts, c.originals, k, mine, e);
    }
    SiftIsHaving(l, s.texts, s.mine, T);
  }

  // ----- serving the originals, copy by copy

  method WithText(l: seq<Ref>, t: Text, ghost texts: map<Ref, Text>) returns (r: seq<Ref>)
    requires null !in texts && forall e :: e in l ==> e in texts && e.text == texts[e]
    ensures r == Having(l, texts, {t})
  {
    r := [];
    for n := 0 to |l|
      invariant r == Having(l[..n], texts, {t})
    {
      assert l[..n + 1][..n] == l[..n];
      assert l[n] in l;
      if l[n].text == t {
        r := r + [l[n]];
      }
    }
    assert l[..|l|] == l;
  }

  /** A text in the file of a key. */
  datatype Slot = Slot(key: Key, text: Text)
  type Shelf = map<Slot, seq<Ref>>

  function SlotOf(e: Keyed, relink: Relink): Slot {
    Slot(e.key, relink(e.item, e.key.name))
  }

  /** What is left of the copies of a text once before[..a] has been served. */
  ghost predicate LeftOver(before: seq<Keyed>, relink: Relink, files: Board, texts: map<Ref, Text>, a: nat, q: Slot,
                           left: seq<Ref>)
    requires Loaded(files, texts) && a <= |before|
  {
    LoadedAt(files, texts, q.key);
    var copies := Having(At(files, q.key), texts, {q.text});
    var served := multiset(Filed(before[..a], relink, q.key))[q.text];
    left == copies[if served <= |copies| then served else |copies|..]
  }

  /** Taking the next copy from what is left. */
  ghost predicate Takes(left: seq<Ref>, next: Ref, rest: seq<Ref>) {
    if left == [] then next == null && rest == [] else next == left[0] && rest == left[1..]
  }

  lemma {:induction false} Served(before: seq<Keyed>, relink: Relink, files: Board, texts: map<Ref, Text>, a: nat,
                                  left: seq<Ref>, next: Ref, rest: seq<Ref>)
    requires Loaded(files, texts) && a < |before| && Takes(left, next, rest)
    requires LeftOver(before, relink, files, texts, a, SlotOf(before[a], relink), left)
    ensures AssignedAt(before, relink, files, texts, a, next)
    ensures LeftOver(before, relink, files, texts, a + 1, SlotOf(before[a], relink), rest)
  {
    FiledCount(before, a, relink, before[a].key, relink(before[a].item, before[a].key.name));
  }

  lemma {:induction false} NotServed(before: seq<Keyed>, relink: Relink, files: Board, texts: map<Ref, Text>, a: nat,
                                     q: Slot, left: seq<Ref>)
    requires Loaded(files, texts) && a < |before| && q != SlotOf(before[a], relink)
    requires LeftOver(before, relink, files, texts, a, q, left)
    ensures LeftOver(before, relink, files, texts, a + 1, q, left)
  {
    FiledCount(before, a, relink, q.key, q.text);
  }

  ghost function OnShelf(available: Shelf, files: Board, texts: map<Ref, Text>, q: Slot): seq<Ref>
    requires Loaded(files, texts)
  {
    if q in available then available[q] else LoadedAt(files, texts, q.key); Having(At(files, q.key), texts, {q.text})
  }

  ghost predicate StockedAt(before: seq<Keyed>, relink: Relink, files: Board, texts: map<Ref, Text>, a: nat,
                            available: Shelf, q: Slot)
    requires Loaded(files, texts) && a <= |before|
  {
    LeftOver(before, relink, files, texts, a, q, OnShelf(available, files, texts, q))
  }

  ghost predicate Stocked(before: seq<Keyed>, relink: Relink, files: Board, texts: map<Ref, Text>, a: nat,
                          available: Shelf)
    requires Loaded(files, texts) && a <= |before|
  {
    forall q :: StockedAt(before, relink, files, texts, a, available, q)
  }

  lemma {:induction false} StockedNext(before: seq<Keyed>, relink: Relink, files: Board, texts: map<Ref, Text>,
                                       a: nat, b: nat, available: Shelf, available': Shelf, left: seq<Ref>, next: Ref,
                                       rest: seq<Ref>)
    requires Loaded(files, texts) && a < |before| && Stocked(before, relink, files, texts, a, available)
        && Takes(left, next, rest)
    requires left == OnShelf(available, files, texts, SlotOf(before[a], relink))
    requires available' == available[SlotOf(before[a], relink) := rest] && b == a + 1
    ensures Stocked(before, relink, files, texts, b, available')
  {
    forall q ensures StockedAt(before, relink, files, texts, b, available', q) {
      StockedNextAt(before, relink, files, texts, a, available, available', left, next, rest, q);
    }
  }

  lemma {:induction false} StockedNextAt(before: seq<Keyed>, relink: Relink, files: Board, texts: map<Ref, Text>,
                                         a: nat, available: Shelf, available': Shelf, left: seq<Ref>, next: Ref,
                                         rest: seq<Ref>, q: Slot)
    requires Loaded(files, texts) && a < |before| && Stocked(before, relink, files, texts, a, available)
        && Takes(left, next, rest)
    requires left == OnShelf(available, files, texts, SlotOf(before[a], relink))
    requires available' == available[SlotOf(before[a], relink) := rest]
    ensures StockedAt(before, relink, files, texts, a + 1, available', q)
  {
    hide Loaded, Having, Filed, LeftOver;
    assert StockedAt(before, relink, files, texts, a, available, q);
    if q == SlotOf(before[a], relink) {
      Served(before, relink, files, texts, a, left, next, rest);
    } else {
      NotServed(before, relink, files, texts, a, q, OnShelf(available, files, texts, q));
    }
  }

  /** Hands every old entry the next copy of its text in its file, or null when there is none left. */
  method FindOriginals(before: seq<Keyed>, relink: Relink, files: Board, ghost texts: map<Ref, Text>)
    returns (originals: seq<Ref>)
    requires Loaded(files, texts) && forall e :: e in texts ==> e.text == texts[e]
    ensures |originals| == |before| && Assigned(before, relink, files, texts, originals)
  {
    originals := [];
    var available: Shelf := map[];
    for a := 0 to |before|
      invariant |originals| == a && Assigned(before, relink, files, texts, originals)
      invariant Stocked(before, relink, files, texts, a, available)
    {
      var q := SlotOf(before[a], relink);
      LoadedAt(files, texts, q.key);
      var left;
      if q in available {
        left := available[q];
      } else {
        left := WithText(At(files, q.key), q.text, texts);
      }
      assert StockedAt(before, relink, files, texts, a, available, q);
      var next: Ref, rest: seq<Ref> := null, [];
      if left != [] {
        next, rest := left[0], left[1..];
      }
      Served(before, relink, files, texts, a, left, next, rest);
      StockedNext(before, relink, files, texts, a, a + 1, available, available[q := rest], left, next, rest);
      AssignedMore(before, relink, files, texts, originals, next);
      originals := originals + [next];
      available := available[q := rest];
    }
  }

  lemma {:induction false} AssignedMore(before: seq<Keyed>, relink: Relink, files: Board, texts: map<Ref, Text>,
                                        originals: seq<Ref>, o: Ref)
    requires Loaded(files, texts) && |originals| < |before| && Assigned(before, relink, files, texts, originals)
    requires AssignedAt(before, relink, files, texts, |originals|, o)
    ensures Assigned(before, relink, files, texts, originals + [o])
  {
    forall a | 0 <= a < |originals| + 1 ensures AssignedAt(before, relink, files, texts, a, (originals + [o])[a]) {
      if a < |originals| {
        assert AssignedAt(before, relink, files, texts, a, originals[a]);
      }
    }
  }
}
