/**
  The replay itself: opcode after opcode on the loaded entries, by identity and by anchor.
 */
module DebtReplay {
  import opened Lists
  import opened DebtFiles
  import opened ReplayState
  import opened ReplayBalance
  import opened DebtExchange

  /** The objects of a replay: the loaded files, the original of each old entry, the object of each new one. */
  class Replay {
    const before: seq<Keyed>
    const after: seq<Keyed>
    const relink: Relink
    const originals: seq<Ref>
    var files: Board
    var resolved: seq<Ref>
    ghost const plan: Plan
    ghost var mine: set<Ref>
    ghost var texts: map<Ref, Text>
    ghost var pool: set<Entry>
    ghost var gone: set<nat>
    ghost var come: set<nat>

    ghost function Now(): State
      reads this
    {
      State(files, resolved, mine, texts)
    }

    ghost predicate Valid()
      reads this, pool
    {
      && plan.before == before && plan.after == after && plan.relink == relink && plan.originals == originals
      && |originals| == |before| && |resolved| == |after|
      && (forall e :: e in texts ==> e != null && e in pool)
      && (forall e :: e in pool ==> e in texts && e.text == texts[e])
      && Sound(plan, Now()) && Settled(plan, Now(), gone, come)
    }

    lemma {:induction false} Shape()
      requires Valid()
      ensures plan.before == before && plan.after == after && plan.relink == relink && plan.originals == originals
      ensures |originals| == |before| && |resolved| == |after| && Sound(plan, Now())
    {
    }

    constructor (before: seq<Keyed>, after: seq<Keyed>, relink: Relink, originals: seq<Ref>, files: Board,
                 ghost plan: Plan, ghost start: State)
      requires plan.before == before && plan.after == after && plan.relink == relink && plan.originals == originals
      requires Sound(plan, start) && start.files == files && start.resolved == seq(|after|, _ => null)
      requires forall e :: e in start.texts ==> e != null && e.text == start.texts[e]
      requires Settled(plan, start, {}, {})
      ensures Valid() && Now() == start && this.plan == plan && this.before == before && this.after == after
      ensures this.originals == originals
      ensures pool == (set e: Entry | e in start.texts) && gone == come == {}
    {
      this.before, this.after, this.relink, this.originals, this.files := before, after, relink, originals, files;
      this.resolved := seq(|after|, _ => null);
      this.plan, this.mine, this.texts := plan, start.mine, start.texts;
      this.pool, this.gone, this.come := set e: Entry | e in start.texts, {}, {};
    }

    /** The position of an old entry in its file, unless it was never there or is gone. */
    method Locate(index: nat) returns (found: bool, position: nat)
      requires Valid() && index < |before|
      ensures found <==> originals[index] != null && originals[index] in At(files, before[index].key)
      ensures found ==>
          position < |At(files, before[index].key)| && At(files, before[index].key)[position] == originals[index]
    {
      var entries := At(files, before[index].key);
      var original := originals[index];
      if original == null || original !in entries {
        return false, 0;
      }
      return true, IndexOf(entries, original);
    }

    /** Rewrites the pairs of old and new entries that have the same key. */
    method RewritePairs(i1: nat, i2: nat, j1: nat, j2: nat, ghost good: bool) returns (ok: bool, kept: set<nat>)
      requires Valid() && i1 <= i2 <= |before| && j1 <= j2 <= |after| && Waiting(plan, Now(), i1, {})
      requires good ==> Clearing(plan, Now(), i1, i2, {}, j1)
      requires forall x :: i1 <= x < i2 ==> before[x].key.name in plan.touched
      requires Below(gone, i1) && Below(come, j1)
      modifies this, pool
      ensures Valid() && pool == old(pool) && files == old(files) && mine == old(mine)
      ensures ok ==> gone == old(gone) + Places(i1, kept) && come == old(come) + Places(j1, kept)
      ensures !ok ==> exists x :: i1 <= x < i2 && originals[x] == null
      ensures ok ==> SameKeys(before, after, i1, i2, j1, j2, i2 - i1, kept)
      ensures ok ==> Waiting(plan, Now(), i1, {}) && Kept(plan, Now(), i1, j1, kept)
      ensures ok && good ==> Clearing(plan, Now(), i1, i2, {}, j1)
    {
      hide Valid, Sound, Settled, Clearing, Kept, SameKeys, Waiting, Places, Below;
      Shape();
      kept := {};
      var offset: nat := 0;
      KeptNone(plan, Now(), i1, j1);
      NoSameKeys(before, after, i1, i2, j1, j2);
      NoPlaces(i1);
      NoPlaces(j1);
      while offset < i2 - i1 && offset < j2 - j1
        invariant Valid() && pool == old(pool) && files == old(files) && mine == old(mine)
        invariant offset <= i2 - i1 && offset <= j2 - j1
        invariant |plan.originals| == |plan.before| && |resolved| == |plan.after|
        invariant SameKeys(before, after, i1, i2, j1, j2, offset, kept)
        invariant Waiting(plan, Now(), i1, {}) && Kept(plan, Now(), i1, j1, kept)
        invariant good ==> Clearing(plan, Now(), i1, i2, {}, j1)
        invariant gone == old(gone) + Places(i1, kept) && come == old(come) + Places(j1, kept)
      {
        NotPlacedYet(before, after, i1, i2, j1, j2, offset, kept, old(gone), old(come));
        ghost var was := kept;
        ok, kept := RewritePair(i1, i2, j1, j2, offset, kept, good);
        if !ok {
          return false, kept;
        }
        MorePlaces(i1, was, kept);
        MorePlaces(j1, was, kept);
        offset := offset + 1;
      }
      SameKeysEnd(before, after, i1, i2, j1, j2, offset, kept);
      ok := true;
    }

    /** Rewrites one pair, when its entries have the same key. */
    method RewritePair(i1: nat, i2: nat, j1: nat, j2: nat, offset: nat, kept: set<nat>, ghost good: bool)
      returns (ok: bool, kept': set<nat>)
      requires Valid() && i1 + offset < i2 <= |before| && j1 + offset < j2 <= |after|
          && |plan.originals| == |plan.before|
      requires Waiting(plan, Now(), i1, {}) && Kept(plan, Now(), i1, j1, kept)
      requires SameKeys(before, after, i1, i2, j1, j2, offset, kept)
      requires good ==> Clearing(plan, Now(), i1, i2, {}, j1)
      requires forall x :: i1 <= x < i2 ==> before[x].key.name in plan.touched
      requires i1 + offset !in gone && j1 + offset !in come
      modifies this, pool
      ensures Valid() && pool == old(pool) && files == old(files) && mine == old(mine)
      ensures kept <= kept'
      ensures ok ==> gone == old(gone) + Places(i1, kept' - kept) && come == old(come) + Places(j1, kept' - kept)
      ensures |plan.originals| == |plan.before| && |resolved| == |plan.after|
      ensures ok <==> before[i1 + offset].key != after[j1 + offset].key || originals[i1 + offset] != null
      ensures ok ==> SameKeys(before, after, i1, i2, j1, j2, offset + 1, kept')
      ensures ok ==> Waiting(plan, Now(), i1, {}) && Kept(plan, Now(), i1, j1, kept')
      ensures ok && good ==> Clearing(plan, Now(), i1, i2, {}, j1)
    {
      hide Valid, Sound, Settled, Clearing, Kept, SameKeys;
      Shape();
      SameKeysNext(before, after, i1, i2, j1, j2, offset, kept);
      if before[i1 + offset].key != after[j1 + offset].key {
        return true, kept;
      }
      var found, position := Locate(i1 + offset);
      if !found {
        return false, kept;
      }
      Rewrite(i1 + offset, j1 + offset, i1, i2, j1, offset, kept, good);
      Shape();
      assert kept + {offset} - kept == {offset};
      return true, kept + {offset};
    }

    method Rewrite(x: nat, y: nat, ghost i1: nat, ghost i2: nat, ghost j1: nat, ghost o: nat, ghost kept: set<nat>,
                   ghost good: bool)
      requires Valid() && i1 <= x < i2 <= |before| && j1 <= y < |after| && before[x].key == after[y].key
          && originals[x] != null
      requires x == i1 + o && y == j1 + o && o !in kept && Kept(plan, Now(), i1, j1, kept)
      requires good ==> Clearing(plan, Now(), i1, i2, {}, j1)
      requires before[x].key.name in plan.touched
      requires x !in gone && y !in come && originals[x] in At(files, before[x].key)
      modifies this, pool
      ensures Valid() && pool == old(pool) && files == old(files) && mine == old(mine)
      ensures gone == old(gone) + {x} && come == old(come) + {y}
      ensures Kept(plan, Now(), i1, j1, kept + {o})
      ensures good ==> Clearing(plan, Now(), i1, i2, {}, j1)
    {
      hide Sound, Settled, Clearing, Kept, At;
      OriginalIsLoaded(plan, Now(), x);
      ghost var was := Now();
      var entry := originals[x];
      entry.text := relink(after[y].item, after[y].key.name);
      resolved := resolved[y := entry];
      texts := texts[entry := entry.text];
      RewriteKeeps(plan, was, Now(), x, y, i1, i2, j1, o, kept, gone, come, good);
      gone, come := gone + {x}, come + {y};
    }

    /** Drops the old entries that were not kept. */
    method DropRest(i1: nat, i2: nat, kept: set<nat>, ghost j1: nat, ghost good: bool)
      returns (ok: bool, ghost out: set<nat>)
      requires Valid() && i1 <= i2 <= |before| && Waiting(plan, Now(), i1, {}) && Kept(plan, Now(), i1, j1, kept)
      requires forall o :: o in kept ==> i1 + o < i2
      requires good ==> Clearing(plan, Now(), i1, i2, {}, j1)
      requires forall x :: i1 <= x < i2 ==> before[x].key.name in plan.touched
      requires forall x :: i1 <= x < i2 && x - i1 !in kept ==> x !in gone
      modifies this
      ensures Valid() && pool == old(pool) && resolved == old(resolved) && texts == old(texts) && mine == old(mine)
      ensures come == old(come) && (ok ==> gone == old(gone) + out)
      ensures ok <==> forall x :: i1 <= x < i2 && x - i1 !in kept ==> originals[x] != null
      ensures ok ==> Unkept(i1, i2, kept, out) && Waiting(plan, Now(), i1, out)
      ensures ok && good ==> Clearing(plan, Now(), i1, i2, out, j1)
    {
      out := {};
      var x: nat := i1;
      hide Valid, Sound, Settled, Clearing, Kept, Waiting, Unkept, At;
      UnkeptNone(i1, kept);
      Shape();
      while x < i2
        invariant i1 <= x <= i2 && |originals| == |before|
        invariant Valid() && pool == old(pool) && resolved == old(resolved) && texts == old(texts) && mine == old(mine)
        invariant Unkept(i1, x, kept, out) && Waiting(plan, Now(), i1, out)
        invariant come == old(come) && gone == old(gone) + out
        invariant forall y :: i1 <= y < x && y - i1 !in kept ==> originals[y] != null
        invariant good ==> Clearing(plan, Now(), i1, i2, out, j1)
      {
        Shape();
        UnkeptNext(i1, x, kept, out);
        if x - i1 !in kept {
          var found, position := Locate(x);
          if !found {
            WaitingAt(plan, Now(), i1, x, out);
            return false, out;
          }
          Drop(x, position, i1, i2, j1, out, good);
          out := out + {x};
        }
        x := x + 1;
      }
      ok := true;
    }

    method Drop(x: nat, position: nat, ghost i1: nat, ghost i2: nat, ghost j1: nat, ghost out: set<nat>,
                ghost good: bool)
      requires Valid() && i1 <= x < i2 <= |before| && x !in out && originals[x] != null
      requires var e := At(files, before[x].key); position < |e| && e[position] == originals[x]
      requires Waiting(plan, Now(), i1, out) && before[x].key.name in plan.touched
      requires good ==> Clearing(plan, Now(), i1, i2, out, j1)
      requires x !in gone
      modifies this`files, this`gone
      ensures gone == old(gone) + {x}
      ensures Valid() && Waiting(plan, Now(), i1, out + {x})
      ensures good ==> Clearing(plan, Now(), i1, i2, out + {x}, j1)
    {
      hide Sound, Settled, Clearing, Waiting, Sift;
      ghost var was := Now();
      var entries := At(files, before[x].key);
      FilesAreDistinct(plan, was, before[x].key);
      DeleteIsSift(entries, position);
      files := files[before[x].key := entries[..position] + entries[position + 1..]];
      DropKeeps(plan, was, Now(), x, i1, i2, j1, out, gone, come, good);
      gone := gone + {x};
    }

    /** Inserts the new entries that were not kept, each after the nearest earlier entry of its key. */
    method InsertRest(j1: nat, j2: nat, kept: set<nat>, ghost i2: nat, ghost pending: set<nat>, ghost good: bool)
      requires Valid() && j1 <= j2 <= |after| && i2 <= |before| && Waiting(plan, Now(), i2, {})
      requires Unkept(j1, j2, kept, pending)
      requires good ==> Filling(plan, Now(), i2, j2, pending)
      requires forall y :: j1 <= y < j2 ==> after[y].key.name in plan.touched
      requires pending !! come
      modifies this, pool
      ensures Valid() && fresh(pool - old(pool)) && old(pool) <= pool && Waiting(plan, Now(), i2, {})
      ensures gone == old(gone) && come == old(come) + pending
      ensures good ==> Filling(plan, Now(), i2, j2, {})
    {
      hide Valid, Sound, Settled, Filling, Waiting, Anchors;
      ghost var left := pending;
      var y := j1;
      Shape();
      while y < j2
        invariant j1 <= y <= j2
        invariant Valid() && fresh(pool - old(pool)) && old(pool) <= pool && Waiting(plan, Now(), i2, {})
        invariant forall z :: z in left <==> z in pending && y <= z
        invariant gone == old(gone) && come == old(come) + (pending - left)
        invariant good ==> Filling(plan, Now(), i2, j2, left)
      {
        if y - j1 !in kept {
          Shape();
          var anchor := Anchor(y);
          Insert(y, anchor, i2, j2, left, good);
          left := left - {y};
        }
        y := y + 1;
      }
      assert left == {};
    }

    method Anchor(y: nat) returns (anchor: int)
      requires y < |after| && plan.after == after
      ensures Anchors(plan, y, anchor)
    {
      anchor := y - 1;
      while anchor >= 0 && after[anchor].key != after[y].key
        invariant -1 <= anchor < y
        invariant forall a :: anchor < a < y ==> after[a].key != after[y].key
      {
        anchor := anchor - 1;
      }
    }

    /** Right after the anchor; at the front without one; at the end when the anchor is not in the file. */
    method Position(y: nat, anchor: int) returns (position: nat)
      requires Valid() && y < |after| && Anchors(plan, y, anchor)
      ensures var e := At(files, after[y].key);
              && position <= |e|
              && (anchor < 0 ==> position == 0)
              && (anchor >= 0 && resolved[anchor] in e ==> 0 < position && e[position - 1] == resolved[anchor])
              && (anchor >= 0 && resolved[anchor] !in e ==> position == |e|)
    {
      var entries := At(files, after[y].key);
      position := if anchor < 0 then 0 else |entries|;
      if anchor >= 0 {
        var anchored := resolved[anchor];
        if anchored in entries {
          position := IndexOf(entries, anchored) + 1;
        }
      }
    }

    method Place(y: nat, position: nat) returns (moved: Entry)
      requires Valid() && y < |after| && position <= |At(files, after[y].key)|
      modifies this`files, this`resolved, this`mine, this`texts, this`pool
      ensures Inserts(plan, old(Now()), Now(), y, position, moved)
      ensures fresh(moved) && pool == old(pool) + {moved}
      ensures forall e :: e in texts ==> e != null && e in pool
      ensures forall e :: e in pool ==> e in texts && e.text == texts[e]
    {
      hide Sound, Settled, At;
      var k := after[y].key;
      var entries := At(files, k);
      moved := new Entry(relink(after[y].item, k.name));
      files := files[k := entries[..position] + [moved] + entries[position..]];
      resolved := resolved[y := moved];
      mine, texts, pool := mine + {moved}, texts[moved := moved.text], pool + {moved};
    }

    method Insert(y: nat, anchor: int, ghost i2: nat, ghost j2: nat, ghost pending: set<nat>, ghost good: bool)
      requires Valid() && y < j2 <= |after| && i2 <= |before| && Waiting(plan, Now(), i2, {})
          && Anchors(plan, y, anchor)
      requires y in pending && (forall x :: x in pending ==> y <= x) && after[y].key.name in plan.touched
      requires good ==> Filling(plan, Now(), i2, j2, pending)
      requires y !in come
      modifies this
      ensures Valid() && fresh(pool - old(pool)) && old(pool) <= pool && Waiting(plan, Now(), i2, {})
      ensures gone == old(gone) && come == old(come) + {y}
      ensures good ==> Filling(plan, Now(), i2, j2, pending - {y})
    {
      hide Sound, Settled, Filling, Waiting, Anchors, Inserts, At;
      ghost var was := Now();
      var position := Position(y, anchor);
      var moved := Place(y, position);
      InsertKeeps(plan, was, Now(), y, position, moved, anchor, i2, j2, pending, gone, come, good);
      come := come + {y};
    }

    /** A stretch that is not equal. It fails exactly when one of the old entries has no original. */
    method Replace(i1: nat, i2: nat, j1: nat, j2: nat, ghost good: bool) returns (ok: bool)
      requires Valid() && i1 <= i2 <= |before| && j1 <= j2 <= |after| && Waiting(plan, Now(), i1, {})
      requires forall x :: i1 <= x < i2 ==> before[x].key.name in plan.touched
      requires forall y :: j1 <= y < j2 ==> after[y].key.name in plan.touched
      requires good ==> Clearing(plan, Now(), i1, i2, {}, j1)
      requires Below(gone, i1) && Below(come, j1)
      modifies this, pool
      ensures Valid() && fresh(pool - old(pool)) && old(pool) <= pool
      ensures ok ==> gone == old(gone) + Span(i1, i2) && come == old(come) + Span(j1, j2)
      ensures ok <==> forall x :: i1 <= x < i2 ==> originals[x] != null
      ensures ok ==> Waiting(plan, Now(), i2, {})
      ensures ok && good ==> Filling(plan, Now(), i2, j2, {})
    {
      hide Valid, Sound, Settled, Clearing, Filling, Waiting, Kept, Unkept, Places, Below, At;
      Shape();
      var kept;
      ok, kept := RewritePairs(i1, i2, j1, j2, good);
      if !ok {
        return;
      }
      ghost var was := Now();
      ghost var out;
      NotKeptNotGone(i1, kept, old(gone));
      ok, out := DropRest(i1, i2, kept, j1, good);
      if !ok {
        return;
      }
      Shape();
      ghost var pending := UnkeptOf(j1, j2, kept);
      TurnKeeps(plan, was, Now(), i1, i2, j1, j2, kept, out, pending, good);
      PlacesAreSpan(i1, i2, kept, out);
      PlacesAreSpan(j1, j2, kept, pending);
      PendingNotCome(j1, j2, kept, pending, old(come));
      InsertRest(j1, j2, kept, i2, pending, good);
    }

    /** One opcode. It fails exactly when one of the old entries it changes has no original. */
    method Apply(op: Op, ghost good: bool) returns (ok: bool)
      requires Valid() && op.i1 <= op.i2 <= |before| && op.j1 <= op.j2 <= |after|
      requires Waiting(plan, Now(), op.i1, {}) && (op.equal ==> before[op.i1..op.i2] == after[op.j1..op.j2])
      requires !op.equal ==> Names(before[op.i1..op.i2] + after[op.j1..op.j2]) <= plan.touched
      requires good ==> InSync(plan, Now(), op.i1, op.j1)
      requires Below(gone, op.i1) && Below(come, op.j1)
      modifies this, pool
      ensures ok ==> gone == old(gone) + (if op.equal then {} else Span(op.i1, op.i2))
      ensures ok ==> come == old(come) + (if op.equal then {} else Span(op.j1, op.j2))
      ensures Valid() && fresh(pool - old(pool)) && old(pool) <= pool
      ensures ok <==> op.equal || forall x :: op.i1 <= x < op.i2 ==> originals[x] != null
      ensures ok ==> Waiting(plan, Now(), op.i2, {})
      ensures ok && good ==> InSync(plan, Now(), op.i2, op.j2)
    {
      var Op(equal, i1, i2, j1, j2) := op;
      ghost var was := Now();
      if equal {
        HandsOverLengths(before, after, i1, i2, j1, j2);
        resolved := resolved[..j1] + originals[i1..i2] + resolved[j2..];
        EqualSound(plan, was, Now(), i1, i2, j1, j2);
        EqualSettles(plan, was, Now(), i1, i2, j1, j2, gone, come);
        if good {
          EqualStep(plan, was, Now(), i1, i2, j1, j2);
        }
        return true;
      }
      NamesOf(before, after, i1, i2, j1, j2);
      ok := Replace(i1, i2, j1, j2, good);
    }

    /** The whole script. It fails exactly when an entry of a changed stretch has no original. */
    method Run(ops: seq<Op>, ghost good: bool) returns (ok: bool)
      requires Valid() && Covers(ops, before, after, 0, 0) && Touched(ops, before, after, 0, 0) <= plan.touched
      requires Waiting(plan, Now(), 0, {}) && (good ==> InSync(plan, Now(), 0, 0))
      requires gone == come == {}
      modifies this, pool
      ensures ok ==> gone == OldPlaces(ops) && come == NewPlaces(ops)
      ensures Valid() && fresh(pool - old(pool)) && old(pool) <= pool
      ensures ok <==> AllFound(ops, originals)
      ensures ok && good ==> InSync(plan, Now(), |before|, |after|)
    {
      hide Valid, Settled, Sound, InSync, Waiting, Covers, Touched, OldPlaces, NewPlaces, AllFound, Below, Span;
      Shape();
      ghost var i: nat, j: nat := 0, 0;
      NoneBelow(0);
      assert ops[0..] == ops;
      for n := 0 to |ops|
        invariant Valid() && fresh(pool - old(pool)) && old(pool) <= pool
        invariant |plan.originals| == |plan.before| == |before| == |originals|
        invariant Covers(ops[n..], before, after, i, j) && i <= |before| && j <= |after|
        invariant Touched(ops[n..], before, after, i, j) <= plan.touched
        invariant Waiting(plan, Now(), i, {})
        invariant AllFound(ops, originals) <==> AllFound(ops[n..], originals)
        invariant good ==> InSync(plan, Now(), i, j)
        invariant Below(gone, i) && Below(come, j)
        invariant OldPlaces(ops) == gone + OldPlaces(ops[n..]) && NewPlaces(ops) == come + NewPlaces(ops[n..])
      {
        assert ops[n..][0] == ops[n] && ops[n..][1..] == ops[n + 1..];
        NextOp(ops[n..], before, after, i, j, originals, gone, come);
        ok := Apply(ops[n], good);
        if !ok {
          return;
        }
        i, j := ops[n].i2, ops[n].j2;
      }
      NoMoreOps(before, after, i, j, originals);
      assert ops[|ops|..] == [];
      ok := true;
    }
  }

  // ----- the steps keep all that holds of any files, and more while the files are in step

  lemma {:induction false} RewriteKeeps(c: Plan, s: State, s': State, x: nat, y: nat, i1: nat, i2: nat, j1: nat, o: nat,
                                        kept: set<nat>, gone: set<nat>, come: set<nat>, good: bool)
    requires Rewrites(c, s, s', x, y) && Sound(c, s) && Settled(c, s, gone, come) && Kept(c, s, i1, j1, kept)
    requires x == i1 + o && y == j1 + o && o !in kept && x < i2 <= |c.before|
    requires x !in gone && y !in come && c.originals[x] in At(s.files, c.before[x].key)
    requires c.before[x].key.name in c.touched && (good ==> Clearing(c, s, i1, i2, {}, j1))
    ensures Sound(c, s') && Settled(c, s', gone + {x}, come + {y}) && Kept(c, s', i1, j1, kept + {o})
    ensures good ==> Clearing(c, s', i1, i2, {}, j1)
  {
    hide Sound, Settled, Kept, Tracks, Resolved, Untold, At;
    RewriteSettles(c, s, s', x, y, gone, come);
    RewriteSound(c, s, s', x, y, i1, j1, o, kept);
    if good { RewriteStep(c, s, s', x, y, i1, i2, j1); }
  }

  lemma {:induction false} DropKeeps(c: Plan, s: State, s': State, x: nat, i1: nat, i2: nat, j1: nat, out: set<nat>,
                                     gone: set<nat>, come: set<nat>, good: bool)
    requires Drops(c, s, s', x) && Sound(c, s) && Settled(c, s, gone, come) && Waiting(c, s, i1, out)
    requires i1 <= x < i2 <= |c.before| && x !in out && x !in gone && c.originals[x] in At(s.files, c.before[x].key)
    requires c.before[x].key.name in c.touched && (good ==> Clearing(c, s, i1, i2, out, j1))
    ensures Sound(c, s') && Settled(c, s', gone + {x}, come) && Waiting(c, s', i1, out + {x})
    ensures good ==> Clearing(c, s', i1, i2, out + {x}, j1)
  {
    hide Sound, Settled, Waiting, Tracks, Resolved, Untold, At, Sift;
    DropSettles(c, s, s', x, gone, come);
    DropSound(c, s, s', x, i1, out);
    if good { DropStep(c, s, s', x, i1, i2, j1, out); }
  }

  lemma {:induction false} TurnKeeps(c: Plan, s: State, s': State, i1: nat, i2: nat, j1: nat, j2: nat, kept: set<nat>,
                                     out: set<nat>, pending: set<nat>, good: bool)
    requires Sound(c, s') && |c.originals| == |c.before| && s'.resolved == s.resolved && s'.texts == s.texts
    requires |s.resolved| == |c.after| && Kept(c, s, i1, j1, kept)
    requires i1 <= i2 <= |c.before| && j1 <= j2 <= |c.after|
    requires Unkept(i1, i2, kept, out) && Unkept(j1, j2, kept, pending)
    requires SameKeys(c.before, c.after, i1, i2, j1, j2, i2 - i1, kept)
    requires Waiting(c, s', i1, out) && (good ==> Clearing(c, s', i1, i2, out, j1))
    ensures Waiting(c, s', i2, {}) && (good ==> Filling(c, s', i2, j2, pending))
    ensures forall x :: i1 <= x < i2 && x - i1 in kept ==> c.originals[x] != null
  {
    hide Sound, Tracks, Resolved, Untold, At;
    forall x | i1 <= x < i2 && x - i1 in kept ensures c.originals[x] != null {
      assert i1 + (x - i1) == x;
    }
    KeptFrame(c, s, s', i1, j1, kept);
    if good { TurnStep(c, s', i1, i2, j1, j2, kept, out, pending); }
  }

  lemma {:induction false} InsertKeeps(c: Plan, s: State, s': State, y: nat, p: nat, moved: Ref, anchor: int, i: nat,
                                       j: nat, pending: set<nat>, gone: set<nat>, come: set<nat>, good: bool)
    requires Inserts(c, s, s', y, p, moved) && Sound(c, s) && Settled(c, s, gone, come) && Waiting(c, s, i, {})
    requires i <= |c.before| && y < j <= |c.after| && y in pending && y !in come && forall x :: x in pending ==> y <= x
    requires Anchors(c, y, anchor) && c.after[y].key.name in c.touched && (good ==> Filling(c, s, i, j, pending))
    requires var e := At(s.files, c.after[y].key);
             && (anchor < 0 ==> p == 0)
             && (anchor >= 0 && s.resolved[anchor] in e ==> 0 < p && e[p - 1] == s.resolved[anchor])
    ensures Sound(c, s') && Settled(c, s', gone, come + {y}) && Waiting(c, s', i, {})
    ensures good ==> Filling(c, s', i, j, pending - {y})
  {
    InsertSound(c, s, s', y, p, moved, i);
    InsertSettles(c, s, s', y, p, moved, gone, come);
    if good {
      if 0 <= anchor { AnchorIsFiled(c, s, y, anchor, i, j, pending); }
      InsertStep(c, s, s', y, p, moved, anchor, i, j, pending);
    }
  }

  lemma {:induction false} FilesAreDistinct(c: Plan, s: State, k: Key)
    requires Sound(c, s)
    ensures Distinct(At(s.files, k))
  {
  }

  lemma {:induction false} NoSameKeys(before: seq<Keyed>, after: seq<Keyed>, i1: nat, i2: nat, j1: nat, j2: nat)
    requires i1 <= i2 <= |before| && j1 <= j2 <= |after|
    ensures SameKeys(before, after, i1, i2, j1, j2, 0, {})
  {
  }

  lemma {:induction false} NoneBelow(n: nat)
    ensures Below({}, n)
  {
  }

  // ----- from one opcode to the next

  lemma {:induction false} NextOp(ops: seq<Op>, before: seq<Keyed>, after: seq<Keyed>, i: nat, j: nat,
                                  originals: seq<Ref>, gone: set<nat>, come: set<nat>)
    requires ops != [] && Covers(ops, before, after, i, j) && i <= |before| && j <= |after| && |originals| == |before|
    requires Below(gone, i) && Below(come, j)
    ensures var op := ops[0];
            && op.i1 == i <= op.i2 <= |before| && op.j1 == j <= op.j2 <= |after|
            && (op.equal ==> before[op.i1..op.i2] == after[op.j1..op.j2])
            && Covers(ops[1..], before, after, op.i2, op.j2)
            && Touched(ops, before, after, i, j)
               == (if op.equal then {} else Names(before[i..op.i2] + after[j..op.j2]))
                  + Touched(ops[1..], before, after, op.i2, op.j2)
            && OldPlaces(ops) == (if op.equal then {} else Span(op.i1, op.i2)) + OldPlaces(ops[1..])
            && NewPlaces(ops) == (if op.equal then {} else Span(op.j1, op.j2)) + NewPlaces(ops[1..])
            && Below(gone + (if op.equal then {} else Span(op.i1, op.i2)), op.i2)
            && Below(come + (if op.equal then {} else Span(op.j1, op.j2)), op.j2)
            && (AllFound(ops, originals) <==>
                  && (op.equal || forall x :: op.i1 <= x < op.i2 ==> originals[x] != null)
                  && AllFound(ops[1..], originals))
  {
  }

  lemma {:induction false} NoMoreOps(before: seq<Keyed>, after: seq<Keyed>, i: nat, j: nat, originals: seq<Ref>)
    requires Covers([], before, after, i, j)
    ensures i == |before| && j == |after| && OldPlaces([]) == NewPlaces([]) == {} && AllFound([], originals)
  {
  }

  lemma {:induction false} OriginalIsLoaded(c: Plan, s: State, x: nat)
    requires Sound(c, s) && x < |c.before| && c.originals[x] != null
    ensures c.originals[x] in s.texts
  {
  }

  ghost predicate Below(places: set<nat>, n: nat) { forall x :: x in places ==> x < n }

  /** The places of a stretch at these offsets. */
  ghost function Places(from: nat, offsets: set<nat>): set<nat> { set o | o in offsets :: from + o }

  lemma {:induction false} NoPlaces(from: nat)
    ensures Places(from, {}) == {}
  {
  }

  lemma {:induction false} NotPlacedYet(before: seq<Keyed>, after: seq<Keyed>, i1: nat, i2: nat, j1: nat, j2: nat,
                                        upto: nat, kept: set<nat>, gone: set<nat>, come: set<nat>)
    requires i1 <= i2 <= |before| && j1 <= j2 <= |after| && SameKeys(before, after, i1, i2, j1, j2, upto, kept)
    requires Below(gone, i1) && Below(come, j1)
    ensures i1 + upto !in gone + Places(i1, kept) && j1 + upto !in come + Places(j1, kept)
  {
  }

  lemma {:induction false} MorePlaces(from: nat, offsets: set<nat>, more: set<nat>)
    requires offsets <= more
    ensures Places(from, more) == Places(from, offsets) + Places(from, more - offsets)
  {
    forall x ensures x in Places(from, more) <==> x in Places(from, offsets) + Places(from, more - offsets) {
      if x in Places(from, more) {
        var o :| o in more && from + o == x;
        assert o in offsets || o in more - offsets;
      }
    }
  }

  lemma {:induction false} NotKeptNotGone(i1: nat, kept: set<nat>, gone: set<nat>)
    requires Below(gone, i1)
    ensures forall x :: i1 <= x && x - i1 !in kept ==> x !in gone + Places(i1, kept)
  {
  }

  lemma {:induction false} PlacesAreSpan(from: nat, to: nat, kept: set<nat>, rest: set<nat>)
    requires Unkept(from, to, kept, rest) && forall o :: o in kept ==> from + o < to
    ensures Places(from, kept) + rest == Span(from, to)
  {
    forall x | from <= x < to ensures x in Places(from, kept) + rest {
      if x !in rest { assert x == from + (x - from) && x - from in kept; }
    }
  }

  lemma {:induction false} PendingNotCome(j1: nat, j2: nat, kept: set<nat>, pending: set<nat>, come: set<nat>)
    requires Unkept(j1, j2, kept, pending) && Below(come, j1)
    ensures pending !! come + Places(j1, kept)
  {
  }

  lemma {:induction false} HandsOverLengths(before: seq<Keyed>, after: seq<Keyed>, i1: nat, i2: nat, j1: nat, j2: nat)
    requires i1 <= i2 <= |before| && j1 <= j2 <= |after| && before[i1..i2] == after[j1..j2]
    ensures i2 - i1 == j2 - j1
  {
  }

  lemma {:induction false} NamesOf(before: seq<Keyed>, after: seq<Keyed>, i1: nat, i2: nat, j1: nat, j2: nat)
    requires i1 <= i2 <= |before| && j1 <= j2 <= |after|
    ensures forall x :: i1 <= x < i2 ==> before[x].key.name in Names(before[i1..i2] + after[j1..j2])
    ensures forall y :: j1 <= y < j2 ==> after[y].key.name in Names(before[i1..i2] + after[j1..j2])
  {
  }

  /** While the replay is in sync, the anchor of an insertion is in its file. */
  lemma {:induction false} AnchorIsFiled(c: Plan, s: State, y: nat, anchor: int, i: nat, j: nat, pending: set<nat>)
    requires Sound(c, s) && Filling(c, s, i, j, pending) && y < j && Anchors(c, y, anchor) && 0 <= anchor
    requires (forall x :: x in pending ==> y <= x) && c.after[y].key.name in c.touched
    ensures s.resolved[anchor] in At(s.files, c.after[y].key)
  {
    var k := c.after[y].key;
    assert Tracked(c, s, i, {}, j, pending, k);
    PickMembers(c.after, s.resolved, k, 0, j, pending);
    SiftMembers(At(s.files, k), s.mine, true);
    assert s.resolved[anchor] in Pick(c.after, s.resolved, k, 0, j, pending);
  }
}
