/**
  What a replay keeps of any files, whatever they hold: the entries it does not change stay as and where they are
  among themselves, and all others stand for new entries of changed stretches.
 */
module ReplayBalance {
  import opened Lists
  import opened DebtFiles
  import opened ReplayState

  // ----- sifting by less

  lemma {:induction false} SiftLess<T>(l: seq<T>, R: set<T>, o: T)
    ensures Sift(l, R - {o}, true) == Sift(Sift(l, R, true), {o}, false)
  {
    if l != [] {
      var init, last := l[..|l| - 1], l[|l| - 1];
      SiftLess(init, R, o);
      SiftConcat(Sift(init, R, true), if last in R then [last] else [], {o}, false);
      SiftOne(last, {o}, false);
      SiftOfNone({o}, false);
    }
  }

  lemma {:induction false} SiftAfterDrop<T>(l: seq<T>, R: set<T>, o: T)
    requires o !in R
    ensures Sift(Sift(l, {o}, false), R, true) == Sift(l, R, true)
  {
    SiftTwice(l, R, true, o);
    SiftMembers(l, R, true);
    SiftKeepsAll(Sift(l, R, true), {o}, false);
  }

  lemma {:induction false} SiftAfterInsert<T>(l: seq<T>, p: nat, x: T, R: set<T>)
    requires p <= |l| && x !in R
    ensures Sift(l[..p] + [x] + l[p..], R, true) == Sift(l, R, true)
  {
    SiftConcat(l[..p] + [x], l[p..], R, true);
    SiftConcat(l[..p], [x], R, true);
    SiftOne(x, R, true);
    assert l == l[..p] + l[p..];
    SiftConcat(l[..p], l[p..], R, true);
  }

  // ----- the invariant

  /** Where a replay starts: every original is filed once, under its key, with the text of its entry. */
  ghost predicate Grounded(c: Plan) {
    && |c.originals| == |c.before| && FiledOnce(c.firstFiles)
    && (forall k, e :: k in c.firstFiles && e in c.firstFiles[k] ==> e in c.firstTexts)
    && (forall a :: 0 <= a < |c.before| && c.originals[a] != null ==>
          && c.originals[a] in At(c.firstFiles, c.before[a].key) && c.originals[a] in c.firstTexts
          && c.firstTexts[c.originals[a]] == c.relink(c.before[a].item, c.before[a].key.name))
    && (forall a, b :: 0 <= a < b < |c.before| && c.originals[a] != null ==> c.originals[a] != c.originals[b])
  }

  /** The entries that were loaded, but for the originals of the old entries at these places. */
  ghost function Rest(c: Plan, gone: set<nat>): set<Ref> {
    c.firstTexts.Keys - set x | x in gone && x < |c.originals| :: c.originals[x]
  }

  /** Changed so far: the old entries at `gone`, their originals rewritten or dropped, and the new ones at `come`. */
  ghost predicate Settled(c: Plan, s: State, gone: set<nat>, come: set<nat>) {
    && Grounded(c) && |s.resolved| == |c.after| && FiledOnce(s.files)
    && (forall x :: x in gone ==> x < |c.before| && c.originals[x] != null)
    && (forall y :: y in come ==> y < |c.after| && StandsFor(c, s, gone, y))
    && (forall y, z :: y in come && z in come && y != z ==> s.resolved[y] != s.resolved[z])
    && (forall e :: e in Rest(c, gone) ==> e in s.texts && s.texts[e] == c.firstTexts[e])
    && forall k: Key :: SettledAt(c, s, gone, come, k)
  }

  /** The object of a new entry has its text, and is filed under its key. */
  ghost predicate StandsFor(c: Plan, s: State, gone: set<nat>, y: nat)
    requires y < |c.after| == |s.resolved|
  {
    var e := s.resolved[y];
    && e in s.texts && s.texts[e] == c.relink(c.after[y].item, c.after[y].key.name)
    && e !in Rest(c, gone) && e in At(s.files, c.after[y].key)
  }

  /** In one file: what is not changed is in the order in which it was, and all else stands for a changed new entry. */
  ghost predicate SettledAt(c: Plan, s: State, gone: set<nat>, come: set<nat>, k: Key) {
    && Sift(At(s.files, k), Rest(c, gone), true) == Sift(At(c.firstFiles, k), Rest(c, gone), true)
    && forall e :: e in At(s.files, k) && e !in Rest(c, gone) ==> Comes(c, s, come, k, e)
  }

  ghost predicate Comes(c: Plan, s: State, come: set<nat>, k: Key, e: Ref) {
    exists y :: y in come && y < |c.after| && y < |s.resolved| && c.after[y].key == k && s.resolved[y] == e
  }

  // ----- the steps keep it

  lemma {:induction false} RestIsLess(c: Plan, gone: set<nat>, x: nat)
    requires Grounded(c) && x < |c.originals| && c.originals[x] != null && x !in gone
    requires forall g :: g in gone ==> g < |c.originals| && c.originals[g] != null
    ensures c.originals[x] in Rest(c, gone) && Rest(c, gone + {x}) == Rest(c, gone) - {c.originals[x]}
  {
    forall g | g in gone ensures c.originals[g] != c.originals[x] {
      if g < x { assert c.originals[g] != c.originals[x]; } else { assert x < g; }
    }
  }

  lemma {:induction false} RewriteSettles(c: Plan, s: State, s': State, x: nat, y: nat, gone: set<nat>, come: set<nat>)
    requires Rewrites(c, s, s', x, y) && Settled(c, s, gone, come) && x !in gone && y !in come
    requires c.originals[x] in At(s.files, c.before[x].key)
    ensures Settled(c, s', gone + {x}, come + {y})
  {
    hide Grounded, Rest, FiledOnce, Sift;
    var o := c.originals[x];
    RestIsLess(c, gone, x);
    forall z | z in come + {y} ensures z < |c.after| && StandsFor(c, s', gone + {x}, z) {
      if z in come { assert StandsFor(c, s, gone, z) && s.resolved[z] != o; }
    }
    forall k: Key ensures SettledAt(c, s', gone + {x}, come + {y}, k) {
      assert SettledAt(c, s, gone, come, k);
      SiftLess(At(s.files, k), Rest(c, gone), o);
      SiftLess(At(c.firstFiles, k), Rest(c, gone), o);
      forall e | e in At(s'.files, k) && e !in Rest(c, gone + {x}) ensures Comes(c, s', come + {y}, k, e) {
        if e == o {
          FiledUnderOne(s.files, c.before[x].key, k, o);
          assert s'.resolved[y] == o;
        } else {
          ComesStill(c, s, s', come, y, k, e);
        }
      }
    }
  }

  lemma {:induction false} FiledUnderOne(files: Board, k: Key, l: Key, e: Ref)
    requires FiledOnce(files) && e in At(files, k) && e in At(files, l)
    ensures k == l
  {
  }

  lemma {:induction false} ComesStill(c: Plan, s: State, s': State, come: set<nat>, y: nat, k: Key, e: Ref)
    requires Comes(c, s, come, k, e) && |s'.resolved| == |s.resolved|
    requires forall z :: z in come && z < |s.resolved| ==> s'.resolved[z] == s.resolved[z]
    ensures Comes(c, s', come + {y}, k, e) && Comes(c, s', come, k, e)
  {
    var z :| z in come && z < |c.after| && z < |s.resolved| && c.after[z].key == k && s.resolved[z] == e;
    assert s'.resolved[z] == e;
  }

  lemma {:induction false} DropSettles(c: Plan, s: State, s': State, x: nat, gone: set<nat>, come: set<nat>)
    requires Drops(c, s, s', x) && Settled(c, s, gone, come) && x !in gone
    requires c.originals[x] in At(s.files, c.before[x].key)
    ensures Settled(c, s', gone + {x}, come)
  {
    hide Grounded, Rest, Sift;
    var o, key := c.originals[x], c.before[x].key;
    RestIsLess(c, gone, x);
    SiftMembers(s.files[key], {o}, false);
    SiftDistinct(s.files[key], {o}, false);
    forall z | z in come ensures z < |c.after| && StandsFor(c, s', gone + {x}, z) {
      assert StandsFor(c, s, gone, z) && s.resolved[z] != o;
    }
    forall k: Key ensures SettledAt(c, s', gone + {x}, come, k) {
      assert SettledAt(c, s, gone, come, k);
      SiftLess(At(s.files, k), Rest(c, gone), o);
      SiftLess(At(c.firstFiles, k), Rest(c, gone), o);
      SiftAfterDrop(At(s.files, k), Rest(c, gone + {x}), o);
      forall e | e in At(s'.files, k) && e !in Rest(c, gone + {x}) ensures Comes(c, s', come, k, e) {
        assert e in At(s.files, k) && e != o by {
          if e == o && k != key { FiledUnderOne(s.files, key, k, o); }
        }
        ComesStill(c, s, s', come, 0, k, e);
      }
    }
  }

  lemma {:induction false} InsertSettles(c: Plan, s: State, s': State, y: nat, p: nat, moved: Ref, gone: set<nat>,
                                         come: set<nat>)
    requires Inserts(c, s, s', y, p, moved) && Settled(c, s, gone, come) && y !in come && FiledOnce(s'.files)
    requires y < |c.after|
    ensures Settled(c, s', gone, come + {y})
  {
    hide Grounded, Rest, Sift, FiledOnce, At, Inserts;
    var key := c.after[y].key;
    InsertsAt(c, s, s', y, p, moved);
    NotLoaded(c, s, gone, come, moved);
    forall z | z in come + {y} ensures z < |c.after| && StandsFor(c, s', gone, z) {
      if z in come { assert StandsFor(c, s, gone, z) && s.resolved[z] != moved; }
    }
    forall k: Key ensures SettledAt(c, s', gone, come + {y}, k) {
      assert SettledAt(c, s, gone, come, k);
      if k == key { SiftAfterInsert(At(s.files, k), p, moved, Rest(c, gone)); }
      forall e | e in At(s'.files, k) && e !in Rest(c, gone) ensures Comes(c, s', come + {y}, k, e) {
        if e == moved && k == key {
          assert s'.resolved[y] == e;
        } else {
          ComesStill(c, s, s', come, y, k, e);
        }
      }
    }
  }

  lemma {:induction false} InsertsAt(c: Plan, s: State, s': State, y: nat, p: nat, moved: Ref)
    requires Inserts(c, s, s', y, p, moved)
    ensures var key := c.after[y].key;
            && p <= |At(s.files, key)|
            && At(s'.files, key) == At(s.files, key)[..p] + [moved] + At(s.files, key)[p..]
            && (forall e :: e in At(s'.files, key) <==> e == moved || e in At(s.files, key))
            && (forall k: Key :: k != key ==> At(s'.files, k) == At(s.files, k))
            && moved !in s.texts && s'.resolved == s.resolved[y := moved]
            && s'.texts == s.texts[moved := c.relink(c.after[y].item, key.name)]
  {
    var e := At(s.files, c.after[y].key);
    assert e == e[..p] + e[p..];
  }

  lemma {:induction false} NotLoaded(c: Plan, s: State, gone: set<nat>, come: set<nat>, e: Ref)
    requires Settled(c, s, gone, come) && e !in s.texts
    ensures e !in Rest(c, gone)
  {
  }

  lemma {:induction false} EqualSettles(c: Plan, s: State, s': State, i1: nat, i2: nat, j1: nat, j2: nat,
                                        gone: set<nat>, come: set<nat>)
    requires HandsOver(c, s, s', i1, i2, j1, j2) && Settled(c, s, gone, come) && forall y :: y in come ==> y < j1
    ensures Settled(c, s', gone, come)
  {
    hide Grounded, Rest, Sift, FiledOnce;
    HandsOverAt(c, s, s', i1, i2, j1, j2);
    forall z | z in come ensures z < |c.after| && StandsFor(c, s', gone, z) {
      assert StandsFor(c, s, gone, z);
    }
    forall k: Key ensures SettledAt(c, s', gone, come, k) {
      assert SettledAt(c, s, gone, come, k);
      forall e | e in At(s'.files, k) && e !in Rest(c, gone) ensures Comes(c, s', come, k, e) {
        ComesStill(c, s, s', come, 0, k, e);
      }
    }
  }

  /** Nothing is changed at first. */
  lemma {:induction false} StartSettles(c: Plan, s: State)
    requires Grounded(c) && s.files == c.firstFiles && s.texts == c.firstTexts && |s.resolved| == |c.after|
    ensures Settled(c, s, {}, {})
  {
    hide Sift;
    assert Rest(c, {}) == c.firstTexts.Keys;
  }
}
