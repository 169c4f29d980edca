/**
  What a replay makes of the texts of any files: those it does not change stay in their order, and the changed old
  ones are exchanged for the changed new ones.
 */
module DebtExchange {
  import opened Lists
  import opened DebtFiles
  import opened ReplayState
  import opened ReplayBalance
  import opened DebtOriginals

  // ----- the texts of changed stretches

  /** What the split files under k of the old entries that are changed, stretch after stretch. */
  function OldTexts(ops: seq<Op>, before: seq<Keyed>, relink: Relink, k: Key): seq<Text> {
    if ops == [] then []
    else
      (if ops[0].equal then [] else Filed(Stretch(before, ops[0].i1, ops[0].i2), relink, k))
      + OldTexts(ops[1..], before, relink, k)
  }

  /** And of the new entries. */
  function NewTexts(ops: seq<Op>, after: seq<Keyed>, relink: Relink, k: Key): seq<Text> {
    if ops == [] then []
    else
      (if ops[0].equal then [] else Filed(Stretch(after, ops[0].j1, ops[0].j2), relink, k))
      + NewTexts(ops[1..], after, relink, k)
  }

  /** A stretch of a list; the opcodes that cover it stay within it. */
  function Stretch(es: seq<Keyed>, lo: nat, hi: nat): seq<Keyed> { if lo <= hi <= |es| then es[lo..hi] else [] }

  /** The list becomes another: `gone` goes, `come` comes, in some order, and the rest keeps its own. */
  ghost predicate Exchanged(was: seq<Text>, now: seq<Text>, gone: seq<Text>, come: seq<Text>) {
    exists rest, out, new' ::
      && Interleaves(was, rest, out) && multiset(out) == multiset(gone)
      && Interleaves(now, rest, new') && multiset(new') == multiset(come)
  }

  lemma {:induction false} InterleavesCounts<T>(c: seq<T>, a: seq<T>, b: seq<T>)
    requires Interleaves(c, a, b)
    ensures multiset(c) == multiset(a) + multiset(b)
  {
    if c != [] {
      var init, last := c[..|c| - 1], c[|c| - 1];
      assert c == init + [last];
      if a != [] && a[|a| - 1] == last && Interleaves(init, a[..|a| - 1], b) {
        InterleavesCounts(init, a[..|a| - 1], b);
        assert a == a[..|a| - 1] + [last];
      } else {
        InterleavesCounts(init, a, b[..|b| - 1]);
        assert b == b[..|b| - 1] + [last];
      }
    }
  }

  /** As multisets: what is there now and what went is what was there and what came. */
  lemma {:induction false} ExchangedCounts(was: seq<Text>, now: seq<Text>, gone: seq<Text>, come: seq<Text>)
    requires Exchanged(was, now, gone, come)
    ensures multiset(now) + multiset(gone) == multiset(was) + multiset(come)
  {
    var rest, out, new' :| Interleaves(was, rest, out) && multiset(out) == multiset(gone)
        && Interleaves(now, rest, new') && multiset(new') == multiset(come);
    InterleavesCounts(was, rest, out);
    InterleavesCounts(now, rest, new');
  }

  // ----- the same, by places

  /** The texts of the entries lo..hi of k whose places are among some. */
  function Among(es: seq<Keyed>, relink: Relink, k: Key, places: set<nat>, lo: nat, hi: nat): seq<Text>
    requires lo <= hi <= |es|
    decreases hi
  {
    if lo == hi then []
    else
      Among(es, relink, k, places, lo, hi - 1)
      + if es[hi - 1].key == k && hi - 1 in places then [relink(es[hi - 1].item, k.name)] else []
  }

  lemma {:induction false} AmongConcat(es: seq<Keyed>, relink: Relink, k: Key, places: set<nat>, lo: nat, mid: nat,
                                       hi: nat)
    requires lo <= mid <= hi <= |es|
    ensures Among(es, relink, k, places, lo, hi)
        == Among(es, relink, k, places, lo, mid) + Among(es, relink, k, places, mid, hi)
  {
    if mid < hi { AmongConcat(es, relink, k, places, lo, mid, hi - 1); }
  }

  lemma {:induction false} AmongStretch(es: seq<Keyed>, relink: Relink, k: Key, places: set<nat>, lo: nat, hi: nat)
    requires lo <= hi <= |es|
    ensures (forall x :: lo <= x < hi ==> x in places) ==>
              Among(es, relink, k, places, lo, hi) == Filed(es[lo..hi], relink, k)
    ensures (forall x :: lo <= x < hi ==> x !in places) ==> Among(es, relink, k, places, lo, hi) == []
  {
    if lo == hi {
      assert es[lo..hi] == [];
    } else {
      hide Filed;
      AmongStretch(es, relink, k, places, lo, hi - 1);
      FiledNext(es, relink, k, lo, hi);
    }
  }

  lemma {:induction false} FiledNext(es: seq<Keyed>, relink: Relink, k: Key, lo: nat, hi: nat)
    requires lo < hi <= |es|
    ensures Filed(es[lo..hi], relink, k)
        == Filed(es[lo..hi - 1], relink, k) + if es[hi - 1].key == k then [relink(es[hi - 1].item, k.name)] else []
  {
    assert es[lo..hi][..hi - 1 - lo] == es[lo..hi - 1];
  }

  function OldPlaces(ops: seq<Op>): set<nat> {
    if ops == [] then {} else (if ops[0].equal then {} else Span(ops[0].i1, ops[0].i2)) + OldPlaces(ops[1..])
  }

  function NewPlaces(ops: seq<Op>): set<nat> {
    if ops == [] then {} else (if ops[0].equal then {} else Span(ops[0].j1, ops[0].j2)) + NewPlaces(ops[1..])
  }

  lemma {:induction false} PlacesAhead(ops: seq<Op>, before: seq<Keyed>, after: seq<Keyed>, i: nat, j: nat)
    requires Covers(ops, before, after, i, j)
    ensures forall x :: x in OldPlaces(ops) ==> i <= x < |before|
    ensures forall y :: y in NewPlaces(ops) ==> j <= y < |after|
    ensures i <= |before| && j <= |after|
    decreases |ops|
  {
    if ops != [] { PlacesAhead(ops[1..], before, after, ops[0].i2, ops[0].j2); }
  }

  lemma {:induction false} AmongPlaces(ops: seq<Op>, before: seq<Keyed>, after: seq<Keyed>, relink: Relink, k: Key,
                                       i: nat, j: nat, old': set<nat>, new': set<nat>)
    requires Covers(ops, before, after, i, j) && i <= |before| && j <= |after|
    requires forall x: nat :: i <= x ==> (x in old' <==> x in OldPlaces(ops))
    requires forall y: nat :: j <= y ==> (y in new' <==> y in NewPlaces(ops))
    ensures Among(before, relink, k, old', i, |before|) == OldTexts(ops, before, relink, k)
    ensures Among(after, relink, k, new', j, |after|) == NewTexts(ops, after, relink, k)
    decreases |ops|
  {
    hide Among, Filed;
    if ops == [] {
      AmongNone(before, relink, k, old', |before|);
      AmongNone(after, relink, k, new', |after|);
    } else {
      var op, rest := ops[0], ops[1..];
      PlacesAhead(rest, before, after, op.i2, op.j2);
      AmongPlaces(rest, before, after, relink, k, op.i2, op.j2, old', new');
      AmongConcat(before, relink, k, old', i, op.i2, |before|);
      AmongConcat(after, relink, k, new', j, op.j2, |after|);
      AmongStretch(before, relink, k, old', i, op.i2);
      AmongStretch(after, relink, k, new', j, op.j2);
    }
  }

  lemma {:induction false} AmongNone(es: seq<Keyed>, relink: Relink, k: Key, places: set<nat>, n: nat)
    requires n <= |es|
    ensures Among(es, relink, k, places, n, n) == []
  {
  }

  // ----- texts of objects

  lemma {:induction false} TextsInterleave(l: seq<Ref>, texts: map<Ref, Text>, S: set<Ref>)
    requires forall e :: e in l ==> e in texts
    ensures forall inside, e :: e in Sift(l, S, inside) ==> e in texts
    ensures Interleaves(Texts(l, texts), Texts(Sift(l, S, true), texts), Texts(Sift(l, S, false), texts))
  {
    hide Interleaves, Texts, Sift;
    SiftMembers(l, S, true);
    SiftMembers(l, S, false);
    if l == [] {
      NothingInterleaves(texts, S);
    } else {
      var init, last := l[..|l| - 1], l[|l| - 1];
      var inside := last in S;
      TextsInterleave(init, texts, S);
      assert l == init + [last];
      SiftConcat(init, [last], S, true);
      SiftConcat(init, [last], S, false);
      SiftOne(last, S, inside);
      SiftOne(last, S, !inside);
      assert Sift(l, S, !inside) == Sift(init, S, !inside) + [] == Sift(init, S, !inside);
      TextsOfMore(init, last, texts);
      TextsOfMore(Sift(init, S, inside), last, texts);
      OneMoreInterleaves(Texts(init, texts), Texts(Sift(init, S, true), texts), Texts(Sift(init, S, false), texts),
          texts[last], inside);
    }
  }

  lemma {:induction false} NothingInterleaves(texts: map<Ref, Text>, S: set<Ref>)
    ensures Sift([], S, true) == Sift([], S, false) == []
    ensures Interleaves(Texts([], texts), Texts([], texts), Texts([], texts))
  {
  }

  lemma {:induction false} TextsOfMore(l: seq<Ref>, e: Ref, texts: map<Ref, Text>)
    requires e in texts && forall x :: x in l ==> x in texts
    ensures Texts(l + [e], texts) == Texts(l, texts) + [texts[e]]
    ensures Texts(l + [e], texts)[..|Texts(l, texts)|] == Texts(l, texts)
  {
    assert (l + [e])[..|l|] == l;
  }

  lemma {:induction false} SameTexts(l: seq<Ref>, texts: map<Ref, Text>, texts': map<Ref, Text>)
    requires forall e :: e in l ==> e in texts && e in texts' && texts[e] == texts'[e]
    ensures Texts(l, texts) == Texts(l, texts')
  {
  }

  /** The objects at some places of k. */
  function ObjectsAmong(es: seq<Keyed>, objs: seq<Ref>, k: Key, places: set<nat>, n: nat): seq<Ref>
    requires n <= |es| == |objs|
  {
    if n == 0 then []
    else
      ObjectsAmong(es, objs, k, places, n - 1)
      + if es[n - 1].key == k && n - 1 in places then [objs[n - 1]] else []
  }

  /** The object at a place has the text of its entry. */
  ghost predicate Says(es: seq<Keyed>, objs: seq<Ref>, relink: Relink, texts: map<Ref, Text>, x: nat)
    requires x < |es| == |objs|
  {
    objs[x] in texts && texts[objs[x]] == relink(es[x].item, es[x].key.name)
  }

  lemma {:induction false} ObjectsAmongAre(es: seq<Keyed>, objs: seq<Ref>, relink: Relink, texts: map<Ref, Text>,
                                           k: Key, places: set<nat>, n: nat)
    requires n <= |es| == |objs|
    requires forall x :: x in places && x < n && es[x].key == k ==> Says(es, objs, relink, texts, x)
    requires forall x, y :: x in places && y in places && x < y < n ==> objs[x] != objs[y]
    ensures var l := ObjectsAmong(es, objs, k, places, n);
            && Distinct(l) && (forall e :: e in l ==> e in texts)
            && (forall e :: e in l <==> exists x :: x in places && x < n && es[x].key == k && objs[x] == e)
            && Texts(l, texts) == Among(es, relink, k, places, 0, n)
  {
    if n > 0 {
      ObjectsAmongAre(es, objs, relink, texts, k, places, n - 1);
      if es[n - 1].key == k && n - 1 in places {
        var l := ObjectsAmong(es, objs, k, places, n - 1);
        assert Says(es, objs, relink, texts, n - 1);
        TextsOfMore(l, objs[n - 1], texts);
        forall i | 0 <= i < |l| ensures l[i] != objs[n - 1] {
          assert l[i] in l;
        }
      }
    }
  }

  lemma {:induction false} SomeMember(b: seq<Ref>)
    ensures b != [] ==> exists e :: e in b
  {
    if b != [] { assert b[0] in b; }
  }

  lemma {:induction false} MembersWithout(b: seq<Ref>, p: nat)
    requires Distinct(b) && p < |b|
    ensures var b' := b[..p] + b[p + 1..]; Distinct(b') && forall e :: e in b' <==> e in b && e != b[p]
  {
    assert b == b[..p] + [b[p]] + b[p + 1..];
  }

  lemma {:induction false} SameMembersSameTexts(a: seq<Ref>, b: seq<Ref>, texts: map<Ref, Text>)
    requires Distinct(a) && Distinct(b) && (forall e :: e in a <==> e in b) && forall e :: e in a ==> e in texts
    ensures multiset(Texts(a, texts)) == multiset(Texts(b, texts))
  {
    if a == [] {
      SomeMember(b);
    } else {
      var init, x := a[..|a| - 1], a[|a| - 1];
      assert x in a && x in b;
      var p :| 0 <= p < |b| && b[p] == x;
      var b' := b[..p] + b[p + 1..];
      assert init == a[..|a| - 1] + a[|a|..];
      MembersWithout(a, |a| - 1);
      MembersWithout(b, p);
      SameMembersSameTexts(init, b', texts);
      TextsWithout(a, |a| - 1, texts);
      TextsWithout(b, p, texts);
    }
  }

  lemma {:induction false} TextsWithout(b: seq<Ref>, p: nat, texts: map<Ref, Text>)
    requires p < |b| && forall e :: e in b ==> e in texts
    ensures var b' := b[..p] + b[p + 1..];
            && (forall e :: e in b' ==> e in b)
            && multiset(Texts(b, texts)) == multiset(Texts(b', texts)) + multiset{texts[b[p]]}
  {
    var all, b' := Texts(b, texts), b[..p] + b[p + 1..];
    assert all == all[..p] + [all[p]] + all[p + 1..];
    assert Texts(b', texts) == all[..p] + all[p + 1..];
  }

  // ----- what a replay exchanges

  /** Of the files as they were loaded: what goes are the originals of the changed old entries. */
  lemma {:induction false} GoneTexts(c: Plan, s: State, gone: set<nat>, come: set<nat>, k: Key)
    requires Settled(c, s, gone, come)
    ensures var l := Sift(At(c.firstFiles, k), Rest(c, gone), false);
            (forall e :: e in l ==> e in c.firstTexts)
            && multiset(Texts(l, c.firstTexts)) == multiset(Among(c.before, c.relink, k, gone, 0, |c.before|))
  {
    hide Sift, Among, Settled, Rest;
    SettledParts(c, s, gone, come, k);
    var all, l := At(c.firstFiles, k), Sift(At(c.firstFiles, k), Rest(c, gone), false);
    SiftMembers(all, Rest(c, gone), false);
    SiftDistinct(all, Rest(c, gone), false);
    ObjectsAmongAre(c.before, c.originals, c.relink, c.firstTexts, k, gone, |c.before|);
    var objects := ObjectsAmong(c.before, c.originals, k, gone, |c.before|);
    forall e ensures e in l <==> e in objects {
      GoneObject(c, gone, k, e);
    }
    forall e | e in l ensures e in c.firstTexts {
      assert e in all;
    }
    SameMembersSameTexts(l, objects, c.firstTexts);
  }

  lemma {:induction false} SettledParts(c: Plan, s: State, gone: set<nat>, come: set<nat>, k: Key)
    requires Settled(c, s, gone, come)
    ensures Grounded(c) && |c.originals| == |c.before| && Distinct(At(c.firstFiles, k)) && Distinct(At(s.files, k))
    ensures forall e :: e in At(c.firstFiles, k) ==> e in c.firstTexts
    ensures forall x :: x in gone ==>
              x < |c.before| && c.originals[x] != null && Says(c.before, c.originals, c.relink, c.firstTexts, x)
    ensures forall x, y :: x in gone && y in gone && x < y < |c.before| ==> c.originals[x] != c.originals[y]
  {
  }

  lemma {:induction false} GoneObject(c: Plan, gone: set<nat>, k: Key, e: Ref)
    requires Grounded(c) && forall x :: x in gone ==> x < |c.before| && c.originals[x] != null
    ensures e in At(c.firstFiles, k) && e !in Rest(c, gone)
            <==> exists x :: x in gone && x < |c.before| && c.before[x].key == k && c.originals[x] == e
  {
    if e in At(c.firstFiles, k) && e !in Rest(c, gone) {
      var x :| x in gone && x < |c.originals| && c.originals[x] == e;
      FiledUnderOne(c.firstFiles, c.before[x].key, k, e);
    }
  }

  /** Of the files at the end: what came are the objects of the changed new entries. */
  lemma {:induction false} ComeTexts(c: Plan, s: State, gone: set<nat>, come: set<nat>, k: Key)
    requires Settled(c, s, gone, come) && forall e :: e in At(s.files, k) ==> e in s.texts
    ensures var l := Sift(At(s.files, k), Rest(c, gone), false);
            (forall e :: e in l ==> e in s.texts)
            && multiset(Texts(l, s.texts)) == multiset(Among(c.after, c.relink, k, come, 0, |c.after|))
  {
    hide Sift, Among, Settled, Rest;
    SettledParts(c, s, gone, come, k);
    SettledEnds(c, s, gone, come, k);
    var all, l := At(s.files, k), Sift(At(s.files, k), Rest(c, gone), false);
    SiftMembers(all, Rest(c, gone), false);
    SiftDistinct(all, Rest(c, gone), false);
    ObjectsAmongAre(c.after, s.resolved, c.relink, s.texts, k, come, |c.after|);
    forall e | e in l ensures e in s.texts {
      assert e in all;
    }
    SameMembersSameTexts(l, ObjectsAmong(c.after, s.resolved, k, come, |c.after|), s.texts);
  }

  lemma {:induction false} SettledEnds(c: Plan, s: State, gone: set<nat>, come: set<nat>, k: Key)
    requires Settled(c, s, gone, come)
    ensures |s.resolved| == |c.after|
    ensures forall y :: y in come ==> y < |c.after| && Says(c.after, s.resolved, c.relink, s.texts, y)
    ensures forall y, z :: y in come && z in come && y < z < |c.after| ==> s.resolved[y] != s.resolved[z]
    ensures forall e :: e in At(s.files, k) && e !in Rest(c, gone)
                        <==> exists y :: y in come && y < |c.after| && c.after[y].key == k && s.resolved[y] == e
  {
    hide Grounded, Rest, FiledOnce, Sift;
    forall y | y in come ensures y < |c.after| && Says(c.after, s.resolved, c.relink, s.texts, y) {
      assert StandsFor(c, s, gone, y);
    }
    assert SettledAt(c, s, gone, come, k);
    forall y | y in come && y < |c.after| && c.after[y].key == k
      ensures s.resolved[y] in At(s.files, k) && s.resolved[y] !in Rest(c, gone)
    {
      assert StandsFor(c, s, gone, y);
    }
    forall e | e in At(s.files, k) && e !in Rest(c, gone)
      ensures exists y :: y in come && y < |c.after| && c.after[y].key == k && s.resolved[y] == e
    {
      assert Comes(c, s, come, k, e);
    }
  }

  /** What a replay has made of a file so far: the changed old texts are exchanged for the changed new ones. */
  lemma {:induction false} ReplayExchanges(c: Plan, s: State, gone: set<nat>, come: set<nat>, k: Key)
    requires Settled(c, s, gone, come) && forall e :: e in At(s.files, k) ==> e in s.texts
    ensures forall e :: e in At(c.firstFiles, k) ==> e in c.firstTexts
    ensures Exchanged(Texts(At(c.firstFiles, k), c.firstTexts), Texts(At(s.files, k), s.texts),
                      Among(c.before, c.relink, k, gone, 0, |c.before|),
                      Among(c.after, c.relink, k, come, 0, |c.after|))
  {
    hide Sift, Among, Rest, Texts, Interleaves, Grounded;
    SettledParts(c, s, gone, come, k);
    GoneTexts(c, s, gone, come, k);
    ComeTexts(c, s, gone, come, k);
    var R := Rest(c, gone);
    TextsInterleave(At(c.firstFiles, k), c.firstTexts, R);
    TextsInterleave(At(s.files, k), s.texts, R);
    assert SettledAt(c, s, gone, come, k);
    SiftMembers(At(s.files, k), R, true);
    SameTexts(Sift(At(s.files, k), R, true), c.firstTexts, s.texts);
  }
}
