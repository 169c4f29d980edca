/**
  The state of a replay of a change on the files, what holds between its opcodes, and what each step does to it.
 */
module ReplayState {
  import opened Lists
  import opened DebtFiles

  // ----- the state of a replay

  /** An entry of a component's file. Two entries with the same text are still two entries. */
  class Entry {
    var text: Text

    constructor (text: Text)
      ensures this.text == text
    {
      this.text := text;
    }
  }

  /** An entry, or null where the index has an entry and the files have none. */
  type Ref = Entry?
  type Board = map<Key, seq<Ref>>

  function At(files: Board, k: Key): seq<Ref> {
    if k in files then files[k] else []
  }

  /** What a replay starts from and never changes. */
  datatype Plan = Plan(before: seq<Keyed>, after: seq<Keyed>, relink: Relink, touched: set<string>,
                             originals: seq<Ref>, others: Board, firstFiles: Board, firstTexts: map<Ref, Text>)

  /** What it changes. `mine` are the entries of the index, the originals and the inserted ones. */
  datatype State = State(files: Board, resolved: seq<Ref>, mine: set<Ref>, texts: map<Ref, Text>)

  ghost predicate FiledOnce(files: Board) {
    && (forall k :: k in files ==> Distinct(files[k]))
    && (forall k, l, e :: k in files && l in files && k != l && e in files[k] ==> e !in files[l])
  }

  /** Holds for any files: objects are filed once, and no entry of the index shares its original. */
  ghost predicate Sound(c: Plan, s: State) {
    && |c.originals| == |c.before| && |s.resolved| == |c.after|
    && FiledOnce(s.files) && (forall k :: k in s.files ==> k.name in c.touched)
    && null !in s.texts && (forall k, e :: k in s.files && e in s.files[k] ==> e in s.texts)
    && (forall a :: 0 <= a < |c.before| && c.originals[a] != null ==> c.originals[a] in s.texts)
    && (forall y :: 0 <= y < |c.after| && s.resolved[y] != null ==> s.resolved[y] in s.texts)
    && (forall a, b :: 0 <= a < b < |c.before| && c.originals[a] != null ==> c.originals[a] != c.originals[b])
  }

  /** The originals that are still to be processed are where they were loaded. */
  ghost predicate Waiting(c: Plan, s: State, i: nat, out: set<nat>)
    requires |c.originals| == |c.before|
  {
    forall a ::
        i <= a < |c.before| && a !in out && c.originals[a] != null ==> c.originals[a] in At(s.files, c.before[a].key)
  }

  lemma {:induction false} WaitingAt(c: Plan, s: State, i: nat, a: nat, out: set<nat>)
    requires |c.originals| == |c.before| && Waiting(c, s, i, out) && i <= a < |c.before| && a !in out
    ensures c.originals[a] != null ==> c.originals[a] in At(s.files, c.before[a].key)
  {
  }

  /** Every entry of the index with a touched name was found in the files. */
  ghost predicate Matched(c: Plan)
    requires |c.originals| == |c.before|
  {
    forall a :: 0 <= a < |c.before| && c.before[a].key.name in c.touched ==> c.originals[a] != null
  }

  /** The objects behind after[..j], without the pending ones, belong to processed entries only and differ. */
  ghost predicate Resolved(c: Plan, s: State, i: nat, j: nat, pending: set<nat>)
    requires |c.originals| == |c.before| && j <= |c.after| == |s.resolved|
  {
    && (forall y, a ::
        0 <= y < j && y !in pending && i <= a < |c.before| && s.resolved[y] != null ==> s.resolved[y] != c.originals[a])
    && (forall y, z ::
        0 <= y < z < j && y !in pending && z !in pending && s.resolved[y] != null ==> s.resolved[y] != s.resolved[z])
    && (forall y :: 0 <= y < j && y !in pending && c.after[y].key.name in c.touched ==>
                      s.resolved[y] != null && s.resolved[y] in s.mine && s.resolved[y] in s.texts
                      && s.texts[s.resolved[y]] == c.relink(c.after[y].item, c.after[y].key.name))
  }

  ghost predicate Untold(c: Plan, s: State, i: nat)
    requires |c.originals| == |c.before|
  {
    && (forall a ::
        0 <= a < |c.before| && c.before[a].key.name in c.touched && c.originals[a] != null ==> c.originals[a] in s.mine)
    && (forall a :: i <= a < |c.before| && c.before[a].key.name in c.touched ==>
                      c.originals[a] in s.texts && s.texts[c.originals[a]]
                          == c.relink(c.before[a].item, c.before[a].key.name))
    && (forall e :: e in c.firstTexts && e !in s.mine ==> e in s.texts && s.texts[e] == c.firstTexts[e])
  }

  /**
    The files of the touched components: the entries of the index in them are the processed part of `after`
    followed by the rest of `before`, and the other entries are as they were.
   */
  ghost predicate Tracks(c: Plan, s: State, i: nat, out: set<nat>, j: nat, pending: set<nat>)
    requires |c.originals| == |c.before| && i <= |c.before| && j <= |c.after| == |s.resolved|
  {
    forall k: Key :: k.name in c.touched ==> Tracked(c, s, i, out, j, pending, k)
  }

  ghost predicate Tracked(c: Plan, s: State, i: nat, out: set<nat>, j: nat, pending: set<nat>, k: Key)
    requires |c.originals| == |c.before| && i <= |c.before| && j <= |c.after| == |s.resolved|
  {
    && Sift(At(s.files, k), s.mine, true)
       == Pick(c.after, s.resolved, k, 0, j, pending) + Pick(c.before, c.originals, k, i, |c.before|, out)
    && Sift(At(s.files, k), s.mine, false) == At(c.others, k)
  }

  // ----- the steps of a replay, on its state

  /** An equal stretch hands the originals over. */
  ghost predicate HandsOver(c: Plan, s: State, s': State, i1: nat, i2: nat, j1: nat, j2: nat) {
    && |c.originals| == |c.before| && |s.resolved| == |c.after|
    && i1 <= i2 <= |c.before| && j1 <= j2 <= |c.after| && i2 - i1 == j2 - j1
    && c.before[i1..i2] == c.after[j1..j2]
    && s' == s.(resolved := s.resolved[..j1] + c.originals[i1..i2] + s.resolved[j2..])
  }

  lemma {:induction false} HandsOverAt(c: Plan, s: State, s': State, i1: nat, i2: nat, j1: nat, j2: nat)
    requires HandsOver(c, s, s', i1, i2, j1, j2)
    ensures |s'.resolved| == |s.resolved|
    ensures forall y :: 0 <= y < j1 ==> s'.resolved[y] == s.resolved[y]
    ensures forall y ::
        j1 <= y < j2 ==> s'.resolved[y] == c.originals[y - j1 + i1] && c.after[y] == c.before[y - j1 + i1]
  {
  }

  lemma {:induction false} EqualTracked(c: Plan, s: State, s': State, i1: nat, i2: nat, j1: nat, j2: nat, k: Key)
    requires HandsOver(c, s, s', i1, i2, j1, j2)
    requires Tracked(c, s, i1, {}, j1, {}, k)
    ensures |s'.resolved| == |c.after| && Tracked(c, s', i2, {}, j2, {}, k)
  {
    hide Pick, Sift;
    HandsOverAt(c, s, s', i1, i2, j1, j2);
    PickConcat(c.after, s'.resolved, k, 0, j1, j2, {});
    PickConcat(c.before, c.originals, k, i1, i2, |c.before|, {});
    PickSettled(c.after, s.resolved, s'.resolved, k, 0, j1, {});
    PickAgrees(c.after, s'.resolved, j1, j2, {}, c.before, c.originals, i1, i2, {}, k);
  }

  lemma {:induction false} EqualSound(c: Plan, s: State, s': State, i1: nat, i2: nat, j1: nat, j2: nat)
    requires HandsOver(c, s, s', i1, i2, j1, j2) && Sound(c, s)
    ensures Sound(c, s')
  {
  }

  lemma {:induction false} EqualResolved(c: Plan, s: State, s': State, i1: nat, i2: nat, j1: nat, j2: nat)
    requires HandsOver(c, s, s', i1, i2, j1, j2)
    requires Sound(c, s) && Resolved(c, s, i1, j1, {}) && Untold(c, s, i1) && Matched(c)
    ensures Resolved(c, s', i2, j2, {})
  {
    HandsOverAt(c, s, s', i1, i2, j1, j2);
  }

  lemma {:induction false} EqualStep(c: Plan, s: State, s': State, i1: nat, i2: nat, j1: nat, j2: nat)
    requires HandsOver(c, s, s', i1, i2, j1, j2)
    requires Sound(c, s) && Tracks(c, s, i1, {}, j1, {}) && Resolved(c, s, i1, j1, {}) && Untold(c, s, i1) && Matched(c)
    ensures |s'.resolved| == |c.after|
    ensures Tracks(c, s', i2, {}, j2, {}) && Resolved(c, s', i2, j2, {}) && Untold(c, s', i2)
  {
    HandsOverAt(c, s, s', i1, i2, j1, j2);
    EqualResolved(c, s, s', i1, i2, j1, j2);
    forall k: Key | k.name in c.touched ensures Tracked(c, s', i2, {}, j2, {}, k) {
      EqualTracked(c, s, s', i1, i2, j1, j2, k);
    }
  }

  /** A rewritten pair keeps its object, which now stands for the new item. */
  ghost predicate Rewrites(c: Plan, s: State, s': State, x: nat, y: nat) {
    && |c.originals| == |c.before| && |s.resolved| == |c.after|
    && x < |c.before| && y < |c.after| && c.before[x].key == c.after[y].key && c.originals[x] != null
    && s' == s.(resolved := s.resolved[y := c.originals[x]],
                texts := s.texts[c.originals[x] := c.relink(c.after[y].item, c.after[y].key.name)])
  }

  ghost predicate Kept(c: Plan, s: State, i1: nat, j1: nat, kept: set<nat>)
    requires |c.originals| == |c.before| && |s.resolved| == |c.after|
  {
    forall o :: o in kept ==>
                  && i1 + o < |c.before| && j1 + o < |c.after| && c.before[i1 + o].key == c.after[j1 + o].key
                  && c.originals[i1 + o] != null && s.resolved[j1 + o] == c.originals[i1 + o]
                  && s.resolved[j1 + o] in s.texts
                  && s.texts[s.resolved[j1 + o]] == c.relink(c.after[j1 + o].item, c.after[j1 + o].key.name)
  }

  lemma {:induction false} KeptNone(c: Plan, s: State, i1: nat, j1: nat)
    requires |c.originals| == |c.before| && |s.resolved| == |c.after|
    ensures Kept(c, s, i1, j1, {})
  {
  }

  lemma {:induction false} RewriteSound(c: Plan, s: State, s': State, x: nat, y: nat, i1: nat, j1: nat, o: nat,
                                        kept: set<nat>)
    requires Rewrites(c, s, s', x, y) && Sound(c, s) && Kept(c, s, i1, j1, kept)
    requires x == i1 + o && y == j1 + o && o !in kept
    ensures Sound(c, s') && Kept(c, s', i1, j1, kept + {o})
  {
  }

  lemma {:induction false} RewriteStep(c: Plan, s: State, s': State, x: nat, y: nat, i1: nat, i2: nat, j1: nat)
    requires Rewrites(c, s, s', x, y) && Sound(c, s) && i1 <= x < i2 <= |c.before| && j1 <= y
    requires Tracks(c, s, i1, {}, j1, {}) && Resolved(c, s, i1, j1, {}) && Untold(c, s, i2)
    requires c.before[x].key.name in c.touched
    ensures Tracks(c, s', i1, {}, j1, {}) && Resolved(c, s', i1, j1, {}) && Untold(c, s', i2)
  {
    forall k: Key | k.name in c.touched ensures Tracked(c, s', i1, {}, j1, {}, k) {
      assert Tracked(c, s, i1, {}, j1, {}, k);
      PickSettled(c.after, s.resolved, s'.resolved, k, 0, j1, {});
    }
  }

  /** A dropped entry leaves its file. */
  ghost predicate Drops(c: Plan, s: State, s': State, x: nat) {
    && |c.originals| == |c.before| && |s.resolved| == |c.after|
    && x < |c.before| && c.originals[x] != null && c.before[x].key in s.files
    && s' == s.(files := s.files[c.before[x].key := Sift(s.files[c.before[x].key], {c.originals[x]}, false)])
  }

  lemma {:induction false} SiftDistinct<T>(l: seq<T>, S: set<T>, inside: bool)
    requires Distinct(l)
    ensures Distinct(Sift(l, S, inside))
  {
    if l != [] {
      SiftDistinct(l[..|l| - 1], S, inside);
      SiftMembers(l[..|l| - 1], S, inside);
      assert l[|l| - 1] !in l[..|l| - 1];
    }
  }

  lemma {:induction false} DropSound(c: Plan, s: State, s': State, x: nat, i1: nat, out: set<nat>)
    requires Drops(c, s, s', x) && Sound(c, s) && Waiting(c, s, i1, out) && i1 <= x
    ensures Sound(c, s') && Waiting(c, s', i1, out + {x})
  {
    var k, o := c.before[x].key, c.originals[x];
    SiftDistinct(s.files[k], {o}, false);
    SiftMembers(s.files[k], {o}, false);
    forall a | i1 <= a < |c.before| && a !in out + {x} && c.originals[a] != null
      ensures c.originals[a] in At(s'.files, c.before[a].key)
    {
      assert c.originals[a] != c.originals[x] by { if a < x {} else {} }
    }
  }

  lemma {:induction false} DropStep(c: Plan, s: State, s': State, x: nat, i1: nat, i2: nat, j1: nat, out: set<nat>)
    requires Drops(c, s, s', x) && Sound(c, s) && i1 <= x < i2 <= |c.before| && x !in out && j1 <= |c.after|
    requires Tracks(c, s, i1, out, j1, {}) && Resolved(c, s, i1, j1, {}) && Untold(c, s, i2)
    requires c.before[x].key.name in c.touched
    ensures Tracks(c, s', i1, out + {x}, j1, {}) && Resolved(c, s', i1, j1, {}) && Untold(c, s', i2)
  {
    forall k: Key | k.name in c.touched ensures Tracked(c, s', i1, out + {x}, j1, {}, k) {
      assert Tracked(c, s, i1, out, j1, {}, k);
      DropTracked(c, s, s', x, i1, j1, out, k);
    }
  }

  lemma {:induction false} DropTracked(c: Plan, s: State, s': State, x: nat, i1: nat, j1: nat, out: set<nat>, k: Key)
    requires Drops(c, s, s', x) && Sound(c, s) && i1 <= x && x !in out && j1 <= |c.after|
    requires Tracked(c, s, i1, out, j1, {}, k) && Resolved(c, s, i1, j1, {}) && c.originals[x] in s.mine
    ensures Tracked(c, s', i1, out + {x}, j1, {}, k)
  {
    var o := c.originals[x];
    var done, rest := Pick(c.after, s.resolved, k, 0, j1, {}), Pick(c.before, c.originals, k, i1, |c.before|, out);
    PickLeavesOut(c.before, c.originals, k, i1, |c.before|, out, x);
    if c.before[x].key == k {
      SiftTwice(s.files[k], s.mine, true, o);
      SiftTwice(s.files[k], s.mine, false, o);
      SiftConcat(done, rest, {o}, false);
      PickMembers(c.after, s.resolved, k, 0, j1, {});
      SiftKeepsAll(done, {o}, false);
      SiftMembers(s.files[k], s.mine, false);
      SiftKeepsAll(Sift(s.files[k], s.mine, false), {o}, false);
    }
  }

  /** The pairs o of a stretch that are kept, against the positions dropped and the positions still to insert. */
  ghost predicate Unkept(from: nat, to: nat, kept: set<nat>, rest: set<nat>) {
    && from <= to
    && (forall x :: x in rest ==> from <= x < to)
    && (forall x {:trigger x in rest} :: from <= x < to ==> (x in rest <==> x - from !in kept))
  }

  lemma {:induction false} UnkeptNone(from: nat, kept: set<nat>)
    ensures Unkept(from, from, kept, {})
  {
  }

  lemma {:induction false} UnkeptNext(from: nat, x: nat, kept: set<nat>, rest: set<nat>)
    requires Unkept(from, x, kept, rest)
    ensures Unkept(from, x + 1, kept, if x - from in kept then rest else rest + {x}) && x !in rest
  {
  }

  lemma {:induction false} UnkeptOf(from: nat, to: nat, kept: set<nat>) returns (rest: set<nat>)
    requires from <= to
    ensures Unkept(from, to, kept, rest)
  {
    rest := {};
    var x := from;
    while x < to
      invariant from <= x <= to && Unkept(from, x, kept, rest)
    {
      UnkeptNext(from, x, kept, rest);
      rest := if x - from in kept then rest else rest + {x};
      x := x + 1;
    }
  }

  lemma {:induction false} KeptFrame(c: Plan, s: State, s': State, i1: nat, j1: nat, kept: set<nat>)
    requires |c.originals| == |c.before| && |s.resolved| == |c.after| && Kept(c, s, i1, j1, kept)
    requires s'.resolved == s.resolved && s'.texts == s.texts
    ensures Kept(c, s', i1, j1, kept)
  {
  }

  lemma {:induction false} TurnBefore(c: Plan, i1: nat, i2: nat, m: nat, kept: set<nat>, out: set<nat>, k: Key)
    requires |c.originals| == |c.before| && i1 + m <= i2 <= |c.before| && Unkept(i1, i2, kept, out)
    requires forall o :: o in kept ==> o < m
    ensures Pick(c.before, c.originals, k, i1, |c.before|, out)
            == Pick(c.before, c.originals, k, i1, i1 + m, out) + Pick(c.before, c.originals, k, i2, |c.before|, {})
  {
    PickConcat(c.before, c.originals, k, i1, i2, |c.before|, out);
    PickConcat(c.before, c.originals, k, i1, i1 + m, i2, out);
    PickNone(c.before, c.originals, k, i1 + m, i2, out);
    PickAgrees(c.before, c.originals, i2, |c.before|, out, c.before, c.originals, i2, |c.before|, {}, k);
  }

  lemma {:induction false} TurnAfter(c: Plan, s: State, j1: nat, j2: nat, m: nat, kept: set<nat>, pending: set<nat>,
                                     k: Key)
    requires |s.resolved| == |c.after| && j1 + m <= j2 <= |c.after| && Unkept(j1, j2, kept, pending)
    requires forall o :: o in kept ==> o < m
    ensures Pick(c.after, s.resolved, k, 0, j2, pending)
            == Pick(c.after, s.resolved, k, 0, j1, {}) + Pick(c.after, s.resolved, k, j1, j1 + m, pending)
  {
    PickConcat(c.after, s.resolved, k, 0, j1, j2, pending);
    PickConcat(c.after, s.resolved, k, j1, j1 + m, j2, pending);
    PickNone(c.after, s.resolved, k, j1 + m, j2, pending);
    PickAgrees(c.after, s.resolved, 0, j1, {}, c.after, s.resolved, 0, j1, pending, k);
  }

  lemma {:induction false} TurnPairs(c: Plan, s: State, i1: nat, i2: nat, j1: nat, j2: nat, m: nat, kept: set<nat>,
                                     out: set<nat>, pending: set<nat>, k: Key)
    requires |c.originals| == |c.before| && |s.resolved| == |c.after|
    requires i1 + m <= i2 <= |c.before| && j1 + m <= j2 <= |c.after|
    requires Unkept(i1, i2, kept, out) && Unkept(j1, j2, kept, pending) && Kept(c, s, i1, j1, kept)
    ensures Pick(c.before, c.originals, k, i1, i1 + m, out) == Pick(c.after, s.resolved, k, j1, j1 + m, pending)
  {
    forall x | i1 <= x < i1 + m
      ensures x !in out <==> x - i1 + j1 !in pending
      ensures x !in out ==> c.before[x].key == c.after[x - i1 + j1].key && c.originals[x] == s.resolved[x - i1 + j1]
    {
      assert x !in out <==> x - i1 in kept;
    }
    PickAgrees(c.before, c.originals, i1, i1 + m, out, c.after, s.resolved, j1, j1 + m, pending, k);
  }

  /** Once the pairs are rewritten and the rest is dropped, the stretch of `before` is done. */
  lemma {:induction false} TurnTracked(c: Plan, s: State, i1: nat, i2: nat, j1: nat, j2: nat, kept: set<nat>,
                                       out: set<nat>, pending: set<nat>, k: Key)
    requires |c.originals| == |c.before| && |s.resolved| == |c.after| && i2 <= |c.before| && j2 <= |c.after|
    requires Unkept(i1, i2, kept, out) && Unkept(j1, j2, kept, pending) && Kept(c, s, i1, j1, kept)
    requires forall o :: o in kept ==> i1 + o < i2 && j1 + o < j2
    requires Tracked(c, s, i1, out, j1, {}, k)
    ensures Tracked(c, s, i2, {}, j2, pending, k)
  {
    var m := if i2 - i1 <= j2 - j1 then i2 - i1 else j2 - j1;
    hide Pick, Sift, Kept;
    TurnBefore(c, i1, i2, m, kept, out, k);
    TurnAfter(c, s, j1, j2, m, kept, pending, k);
    TurnPairs(c, s, i1, i2, j1, j2, m, kept, out, pending, k);
  }

  lemma {:induction false} TurnResolved(c: Plan, s: State, i1: nat, i2: nat, j1: nat, j2: nat, kept: set<nat>,
                                        out: set<nat>, pending: set<nat>)
    requires Sound(c, s) && i2 <= |c.before| && j2 <= |c.after|
    requires Unkept(i1, i2, kept, out) && Unkept(j1, j2, kept, pending) && Kept(c, s, i1, j1, kept)
    requires forall o :: o in kept ==> i1 + o < i2 && j1 + o < j2
    requires Resolved(c, s, i1, j1, {}) && Untold(c, s, i2)
    ensures Resolved(c, s, i2, j2, pending)
  {
  }

  lemma {:induction false} TurnStep(c: Plan, s: State, i1: nat, i2: nat, j1: nat, j2: nat, kept: set<nat>,
                                    out: set<nat>, pending: set<nat>)
    requires Sound(c, s) && i2 <= |c.before| && j2 <= |c.after|
    requires Unkept(i1, i2, kept, out) && Unkept(j1, j2, kept, pending) && Kept(c, s, i1, j1, kept)
    requires forall o :: o in kept ==> i1 + o < i2 && j1 + o < j2
    requires Tracks(c, s, i1, out, j1, {}) && Resolved(c, s, i1, j1, {}) && Untold(c, s, i2)
    ensures Tracks(c, s, i2, {}, j2, pending) && Resolved(c, s, i2, j2, pending)
  {
    TurnResolved(c, s, i1, i2, j1, j2, kept, out, pending);
    forall k: Key | k.name in c.touched ensures Tracked(c, s, i2, {}, j2, pending, k) {
      assert Tracked(c, s, i1, out, j1, {}, k);
      TurnTracked(c, s, i1, i2, j1, j2, kept, out, pending, k);
    }
  }

  /** A new entry goes into its file at position p. */
  ghost predicate Inserts(c: Plan, s: State, s': State, y: nat, p: nat, moved: Ref) {
    && |c.originals| == |c.before| && |s.resolved| == |c.after|
    && y < |c.after| && moved != null && moved !in s.texts && p <= |At(s.files, c.after[y].key)|
    && var k := c.after[y].key;
    && s' == State(s.files[k := At(s.files, k)[..p] + [moved] + At(s.files, k)[p..]], s.resolved[y := moved],
        s.mine + {moved},
                   s.texts[moved := c.relink(c.after[y].item, k.name)])
  }

  lemma {:induction false} InsertSound(c: Plan, s: State, s': State, y: nat, p: nat, moved: Ref, i: nat)
    requires Inserts(c, s, s', y, p, moved) && Sound(c, s) && Waiting(c, s, i, {}) && c.after[y].key.name in c.touched
    ensures Sound(c, s') && Waiting(c, s', i, {})
  {
    var k := c.after[y].key;
    var e, e' := At(s.files, k), s'.files[k];
    assert moved !in e;
    InsertDistinct(e, p, moved);
    assert s'.files == s.files[k := e'];
    hide Inserts;
  }

  lemma {:induction false} InsertDistinct<T>(e: seq<T>, p: nat, x: T)
    requires Distinct(e) && p <= |e| && x !in e
    ensures var e' := e[..p] + [x] + e[p..]; Distinct(e') && forall y :: y in e' <==> y == x || y in e
  {
  }

  /** The object of the nearest earlier entry with the same key, and nothing of that key after it. */
  ghost predicate Anchors(c: Plan, y: nat, anchor: int)
    requires y <= |c.after|
  {
    && -1 <= anchor < y
    && (y < |c.after| && anchor >= 0 ==> c.after[anchor].key == c.after[y].key)
    && (forall a :: anchor < a < y && y < |c.after| ==> c.after[a].key != c.after[y].key)
  }

  /** The picked objects before y end with the anchor's, if there is an anchor. */
  lemma {:induction false} PickToAnchor(c: Plan, s: State, y: nat, anchor: int, pending: set<nat>)
    requires y < |c.after| == |s.resolved| && Anchors(c, y, anchor) && forall x :: x in pending ==> y <= x
    ensures var k := c.after[y].key;
            Pick(c.after, s.resolved, k, 0, y, pending)
            == if anchor < 0 then [] else Pick(c.after, s.resolved, k, 0, anchor, pending) + [s.resolved[anchor]]
  {
    var k := c.after[y].key;
    hide Pick;
    if anchor < 0 {
      PickNone(c.after, s.resolved, k, 0, y, pending);
    } else {
      PickConcat(c.after, s.resolved, k, 0, anchor, y, pending);
      PickConcat(c.after, s.resolved, k, anchor, anchor + 1, y, pending);
      PickNone(c.after, s.resolved, k, anchor + 1, y, pending);
      PickOne(c.after, s.resolved, k, anchor, pending);
    }
  }

  /** A pick passes over a position that is left out. */
  lemma {:induction false} PickPassesOver<T>(es: seq<Keyed>, objs: seq<T>, k: Key, y: nat, hi: nat, out: set<nat>)
    requires y < hi <= |es| == |objs| && y in out
    ensures Pick(es, objs, k, 0, hi, out) == Pick(es, objs, k, 0, y, out) + Pick(es, objs, k, y + 1, hi, out)
  {
    hide Pick;
    PickConcat(es, objs, k, 0, y, hi, out);
    PickConcat(es, objs, k, y, y + 1, hi, out);
    PickNone(es, objs, k, y, y + 1, out);
  }

  /** In the file of its key, the insertion point comes after the processed entries and before the others. */
  lemma {:induction false} InsertPoint(c: Plan, s: State, y: nat, p: nat, anchor: int, i: nat, j: nat,
                                       pending: set<nat>)
    requires Sound(c, s) && i <= |c.before| && y < j <= |c.after| && y in pending && forall x :: x in pending ==> y <= x
    requires Anchors(c, y, anchor) && Resolved(c, s, i, j, pending) && c.after[y].key.name in c.touched
    requires Tracked(c, s, i, {}, j, pending, c.after[y].key)
    requires var e := At(s.files, c.after[y].key);
        p <= |e| && if anchor < 0 then p == 0 else 0 < p && e[p - 1] == s.resolved[anchor]
    ensures var k := c.after[y].key; var e := At(s.files, k);
            && Sift(e[..p], s.mine, true) == Pick(c.after, s.resolved, k, 0, y, pending)
            && Sift(e[p..], s.mine, true) == Pick(c.after, s.resolved, k, y + 1, j, pending)
                + Pick(c.before, c.originals, k, i, |c.before|, {})
  {
    var k := c.after[y].key;
    var e := At(s.files, k);
    assert Distinct(e) && (anchor >= 0 ==> s.resolved[anchor] in s.mine);
    assert |c.originals| == |c.before| && |s.resolved| == |c.after|;
    hide Sound, Resolved, Pick, Sift;
    var done, rest := Pick(c.after, s.resolved, k, 0, y, pending),
                      Pick(c.after, s.resolved, k, y + 1, j, pending)
                          + Pick(c.before, c.originals, k, i, |c.before|, {});
    PickPassesOver(c.after, s.resolved, k, y, j, pending);
    assert Sift(e, s.mine, true) == done + rest;
    PickToAnchor(c, s, y, anchor, pending);
    if anchor < 0 {
      SiftOfNone(s.mine, true);
      assert e[..p] == [] && e[p..] == e;
    } else {
      SiftAround(e, p, s.mine, Pick(c.after, s.resolved, k, 0, anchor, pending), s.resolved[anchor], rest);
    }
  }

  lemma {:induction false} PickElsewhere<T>(es: seq<Keyed>, objs: seq<T>, objs': seq<T>, k: Key, hi: nat,
                                            out: set<nat>, y: nat)
    requires hi <= |es| == |objs| == |objs'| && y < |es| && es[y].key != k && objs' == objs[y := objs'[y]]
    ensures Pick(es, objs, k, 0, hi, out) == Pick(es, objs', k, 0, hi, out - {y})
  {
    if hi > 0 { PickElsewhere(es, objs, objs', k, hi - 1, out, y); }
  }

  lemma {:induction false} InsertElsewhere(c: Plan, s: State, s': State, y: nat, p: nat, moved: Ref, i: nat, j: nat,
                                           pending: set<nat>, k: Key)
    requires Inserts(c, s, s', y, p, moved) && Sound(c, s)
    requires i <= |c.before| && y < j <= |c.after| && c.after[y].key != k
    requires Tracked(c, s, i, {}, j, pending, k)
    ensures Tracked(c, s', i, {}, j, pending - {y}, k)
  {
    var e := At(s.files, k);
    assert moved !in e;
    hide Pick, Sift, Sound;
    SiftAgrees(e, s.mine, s'.mine, true);
    SiftAgrees(e, s.mine, s'.mine, false);
    PickElsewhere(c.after, s.resolved, s'.resolved, k, j, pending, y);
  }

  lemma {:induction false} InsertHere(c: Plan, s: State, s': State, y: nat, p: nat, moved: Ref, i: nat, j: nat,
                                      pending: set<nat>, k: Key)
    requires Inserts(c, s, s', y, p, moved) && k == c.after[y].key && moved !in At(s.files, k)
    requires i <= |c.before| && y < j <= |c.after|
    requires Sift(At(s.files, k)[..p], s.mine, true) == Pick(c.after, s.resolved, k, 0, y, pending)
    requires Sift(At(s.files, k)[p..], s.mine, true)
             == Pick(c.after, s.resolved, k, y + 1, j, pending) + Pick(c.before, c.originals, k, i, |c.before|, {})
    requires Sift(At(s.files, k), s.mine, false) == At(c.others, k)
    ensures Tracked(c, s', i, {}, j, pending - {y}, k)
  {
    hide Pick, Sift;
    var e := At(s.files, k);
    var done, todo := Pick(c.after, s.resolved, k, 0, y, pending), Pick(c.after, s.resolved, k, y + 1, j, pending);
    var rest := Pick(c.before, c.originals, k, i, |c.before|, {});
    InsertPick(c, s, s', y, j, pending, moved);
    InsertSift(e, p, moved, s.mine);
    assert done + [moved] + (todo + rest) == done + [moved] + todo + rest;
  }

  lemma {:induction false} InsertPick(c: Plan, s: State, s': State, y: nat, j: nat, pending: set<nat>, moved: Ref)
    requires |s.resolved| == |s'.resolved| == |c.after| && y < j <= |c.after|
    requires s'.resolved == s.resolved[y := moved]
    ensures Pick(c.after, s'.resolved, c.after[y].key, 0, j, pending - {y})
            == Pick(c.after, s.resolved, c.after[y].key, 0, y, pending) + [moved]
                + Pick(c.after, s.resolved, c.after[y].key, y + 1, j, pending)
  {
    var k := c.after[y].key;
    hide Pick;
    PickConcat(c.after, s'.resolved, k, 0, y, j, pending - {y});
    PickConcat(c.after, s'.resolved, k, y, y + 1, j, pending - {y});
    PickOne(c.after, s'.resolved, k, y, pending - {y});
    PickSettles(c.after, s.resolved, s'.resolved, k, 0, y, pending, pending - {y});
    PickSettles(c.after, s.resolved, s'.resolved, k, y + 1, j, pending, pending - {y});
  }

  lemma {:induction false} InsertSift<T>(e: seq<T>, p: nat, x: T, S: set<T>)
    requires p <= |e| && x !in e
    ensures Sift(e[..p] + [x] + e[p..], S + {x}, true) == Sift(e[..p], S, true) + [x] + Sift(e[p..], S, true)
    ensures Sift(e[..p] + [x] + e[p..], S + {x}, false) == Sift(e, S, false)
  {
    forall inside: bool
      ensures Sift(e[..p] + [x] + e[p..], S + {x}, inside)
              == Sift(e[..p], S, inside) + Sift([x], S + {x}, inside) + Sift(e[p..], S, inside)
    {
      SiftConcat(e[..p] + [x], e[p..], S + {x}, inside);
      SiftConcat(e[..p], [x], S + {x}, inside);
      SiftAgrees(e[..p], S, S + {x}, inside);
      SiftAgrees(e[p..], S, S + {x}, inside);
    }
    SiftOne(x, S + {x}, true);
    SiftOne(x, S + {x}, false);
    assert e == e[..p] + e[p..];
    SiftConcat(e[..p], e[p..], S, false);
  }

  lemma {:induction false} InsertResolved(c: Plan, s: State, s': State, y: nat, p: nat, moved: Ref, i: nat, j: nat,
                                          pending: set<nat>)
    requires Inserts(c, s, s', y, p, moved) && Sound(c, s)
    requires i <= |c.before| && y < j <= |c.after| && y in pending
    requires Resolved(c, s, i, j, pending) && Untold(c, s, i)
    ensures Resolved(c, s', i, j, pending - {y}) && Untold(c, s', i)
  {
  }

  lemma {:induction false} InsertStep(c: Plan, s: State, s': State, y: nat, p: nat, moved: Ref, anchor: int, i: nat,
                                      j: nat, pending: set<nat>)
    requires Inserts(c, s, s', y, p, moved) && Sound(c, s)
    requires i <= |c.before| && y < j <= |c.after| && y in pending && forall x :: x in pending ==> y <= x
    requires Anchors(c, y, anchor) && Resolved(c, s, i, j, pending) && c.after[y].key.name in c.touched
    requires Tracks(c, s, i, {}, j, pending) && Untold(c, s, i)
    requires var e := At(s.files, c.after[y].key);
        if anchor < 0 then p == 0 else 0 < p && e[p - 1] == s.resolved[anchor]
    ensures Tracks(c, s', i, {}, j, pending - {y}) && Resolved(c, s', i, j, pending - {y}) && Untold(c, s', i)
  {
    InsertResolved(c, s, s', y, p, moved, i, j, pending);
    forall k: Key | k.name in c.touched ensures Tracked(c, s', i, {}, j, pending - {y}, k) {
      assert Tracked(c, s, i, {}, j, pending, k);
      if c.after[y].key == k {
        InsertPoint(c, s, y, p, anchor, i, j, pending);
        InsertHere(c, s, s', y, p, moved, i, j, pending, k);
      } else {
        InsertElsewhere(c, s, s', y, p, moved, i, j, pending, k);
      }
    }
  }

  function IndexOf<T(==)>(l: seq<T>, x: T): (p: nat)
    requires x in l
    ensures p < |l| && l[p] == x
  {
    if l[0] == x then 0 else 1 + IndexOf(l[1..], x)
  }

  /** All of the above between two opcodes, at (i, j). */
  ghost predicate InSync(c: Plan, s: State, i: nat, j: nat) {
    && |c.originals| == |c.before| && i <= |c.before| && j <= |c.after| == |s.resolved|
    && Matched(c) && Tracks(c, s, i, {}, j, {}) && Resolved(c, s, i, j, {}) && Untold(c, s, i)
  }

  /** While the stretch before[i1..i2] is being rewritten and dropped. */
  ghost predicate Clearing(c: Plan, s: State, i1: nat, i2: nat, out: set<nat>, j1: nat) {
    && |c.originals| == |c.before| && i1 <= i2 <= |c.before| && j1 <= |c.after| == |s.resolved|
    && Matched(c) && Tracks(c, s, i1, out, j1, {}) && Resolved(c, s, i1, j1, {}) && Untold(c, s, i2)
  }

  /** While the stretch after[..j2] is being completed. */
  ghost predicate Filling(c: Plan, s: State, i2: nat, j2: nat, pending: set<nat>) {
    && |c.originals| == |c.before| && i2 <= |c.before| && j2 <= |c.after| == |s.resolved|
    && Matched(c) && Tracks(c, s, i2, {}, j2, pending) && Resolved(c, s, i2, j2, pending) && Untold(c, s, i2)
  }

  /** The offsets below `upto` at which the two stretches have an entry with the same key. */
  ghost predicate SameKeys(before: seq<Keyed>, after: seq<Keyed>, i1: nat, i2: nat, j1: nat, j2: nat, upto: nat,
                           kept: set<nat>)
    requires i1 <= i2 <= |before| && j1 <= j2 <= |after|
  {
    forall o: nat :: o in kept <==> o < upto && o < i2 - i1 && o < j2 - j1 && before[i1 + o].key == after[j1 + o].key
  }

  lemma {:induction false} SameKeysNext(before: seq<Keyed>, after: seq<Keyed>, i1: nat, i2: nat, j1: nat, j2: nat,
                                        upto: nat, kept: set<nat>)
    requires i1 <= i2 <= |before| && j1 <= j2 <= |after| && upto < i2 - i1 && upto < j2 - j1
    requires SameKeys(before, after, i1, i2, j1, j2, upto, kept)
    ensures SameKeys(before, after, i1, i2, j1, j2, upto + 1,
                     if before[i1 + upto].key == after[j1 + upto].key then kept + {upto} else kept)
    ensures upto !in kept
  {
  }

  lemma {:induction false} SameKeysEnd(before: seq<Keyed>, after: seq<Keyed>, i1: nat, i2: nat, j1: nat, j2: nat,
                                       upto: nat, kept: set<nat>)
    requires i1 <= i2 <= |before| && j1 <= j2 <= |after| && (upto >= i2 - i1 || upto >= j2 - j1)
    requires SameKeys(before, after, i1, i2, j1, j2, upto, kept)
    ensures SameKeys(before, after, i1, i2, j1, j2, i2 - i1, kept)
  {
  }

  /** Every old entry of a changed stretch has an original. */
  ghost predicate AllFound(ops: seq<Op>, originals: seq<Ref>) {
    if ops == [] then true
    else
      && (ops[0].equal || forall x :: ops[0].i1 <= x < ops[0].i2 && x < |originals| ==> originals[x] != null)
      && AllFound(ops[1..], originals)
  }
}
