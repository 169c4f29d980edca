/**
  The entries of a debt index, the files they are moved to, and the opcodes of a change to the index.

  Entry texts are compared and rewritten only through `relink`, the text of an item in the file of a name.
 */
module DebtFiles {
  import opened Options
  import opened Lists
  import DebtText

  type Text = DebtText.Text

  /** Where an entry is filed: its component's file and the section it stands under, if any. */
  datatype Key = Key(name: string, section: Option<string>)

  /** An entry of the index that has a component. */
  datatype Keyed = Keyed(key: Key, item: Text)

  type Relink = (Text, string) -> Text
  type Files = map<Key, seq<Text>>

  /** An opcode: before[i1..i2] became after[j1..j2]. Replace, delete and insert are treated alike. */
  datatype Op = Op(equal: bool, i1: nat, i2: nat, j1: nat, j2: nat)

  function TextsAt(files: Files, k: Key): seq<Text> {
    if k in files then files[k] else []
  }

  /** What the split files under k: the relinked items with that key, in the order of the index. */
  function Filed(entries: seq<Keyed>, relink: Relink, k: Key): seq<Text> {
    if entries == [] then []
    else
      var last := entries[|entries| - 1];
      Filed(entries[..|entries| - 1], relink, k) + if last.key == k then [relink(last.item, k.name)] else []
  }

  /** The opcodes cover both lists from (i, j) on, in order, and equal stretches are equal. */
  ghost predicate Covers(ops: seq<Op>, before: seq<Keyed>, after: seq<Keyed>, i: nat, j: nat)
    decreases |ops|
  {
    if ops == [] then i == |before| && j == |after|
    else
      var op := ops[0];
      && op.i1 == i && op.j1 == j && i <= op.i2 <= |before| && j <= op.j2 <= |after|
      && (op.equal ==> before[i..op.i2] == after[j..op.j2])
      && Covers(ops[1..], before, after, op.i2, op.j2)
  }

  /** The places from lo up to hi. */
  function Span(lo: nat, hi: nat): (r: set<nat>)
    ensures forall x :: x in r <==> lo <= x < hi
    decreases hi - lo
  {
    if lo >= hi then {} else {lo} + Span(lo + 1, hi)
  }

  function Names(entries: seq<Keyed>): set<string> {
    set e | e in entries :: e.key.name
  }

  /** The components with an entry in a stretch that is not equal. */
  function Touched(ops: seq<Op>, before: seq<Keyed>, after: seq<Keyed>, i: nat, j: nat): set<string>
    requires Covers(ops, before, after, i, j)
    decreases |ops|
  {
    if ops == [] then {}
    else
      var op := ops[0];
      (if op.equal then {} else Names(before[i..op.i2] + after[j..op.j2]))
      + Touched(ops[1..], before, after, op.i2, op.j2)
  }

  // ----- picking the objects of a key

  /** objs[x] for the x in lo..hi with key k that are not in `out`. */
  function Pick<T>(es: seq<Keyed>, objs: seq<T>, k: Key, lo: nat, hi: nat, out: set<nat>): seq<T>
    requires lo <= hi <= |es| == |objs|
    decreases hi
  {
    if lo == hi then []
    else Pick(es, objs, k, lo, hi - 1, out) + if es[hi - 1].key == k && hi - 1 !in out then [objs[hi - 1]] else []
  }

  lemma {:induction false} PickConcat<T>(es: seq<Keyed>, objs: seq<T>, k: Key, lo: nat, mid: nat, hi: nat,
                                         out: set<nat>)
    requires lo <= mid <= hi <= |es| == |objs|
    ensures Pick(es, objs, k, lo, hi, out) == Pick(es, objs, k, lo, mid, out) + Pick(es, objs, k, mid, hi, out)
  {
    if mid < hi {
      PickConcat(es, objs, k, lo, mid, hi - 1, out);
    }
  }

  lemma {:induction false} PickNone<T>(es: seq<Keyed>, objs: seq<T>, k: Key, lo: nat, hi: nat, out: set<nat>)
    requires lo <= hi <= |es| == |objs|
    requires forall x :: lo <= x < hi ==> es[x].key != k || x in out
    ensures Pick(es, objs, k, lo, hi, out) == []
  {
    if lo < hi { PickNone(es, objs, k, lo, hi - 1, out); }
  }

  /** Two picks that agree position by position are equal. */
  lemma {:induction false} PickAgrees<T>(es: seq<Keyed>, objs: seq<T>, lo: nat, hi: nat, out: set<nat>,
                                         es': seq<Keyed>, objs': seq<T>, lo': nat, hi': nat, out': set<nat>, k: Key)
    requires lo <= hi <= |es| == |objs| && lo' <= hi' <= |es'| == |objs'| && hi - lo == hi' - lo'
    requires forall x :: lo <= x < hi ==>
               (es[x].key == k && x !in out <==> es'[x - lo + lo'].key == k && x - lo + lo' !in out')
               && (es[x].key == k && x !in out ==> objs[x] == objs'[x - lo + lo'])
    ensures Pick(es, objs, k, lo, hi, out) == Pick(es', objs', k, lo', hi', out')
  {
    if lo < hi {
      assert hi' - 1 == hi - 1 - lo + lo' && es[hi - 1] in es;
      PickAgrees(es, objs, lo, hi - 1, out, es', objs', lo', hi' - 1, out', k);
    }
  }

  lemma {:induction false} PickMembers<T>(es: seq<Keyed>, objs: seq<T>, k: Key, lo: nat, hi: nat, out: set<nat>)
    requires lo <= hi <= |es| == |objs|
    ensures forall o ::
        o in Pick(es, objs, k, lo, hi, out) <==> exists x :: lo <= x < hi && es[x].key == k && x !in out && objs[x] == o
  {
    if lo < hi { PickMembers(es, objs, k, lo, hi - 1, out); }
  }

  /** Leaving out the last position. */
  lemma {:induction false} PickLeavesOutLast<T>(es: seq<Keyed>, objs: seq<T>, k: Key, lo: nat, x: nat, out: set<nat>)
    requires lo <= x < |es| == |objs|
    requires forall y :: lo <= y < x && es[y].key == es[x].key ==> objs[y] != objs[x]
    ensures Pick(es, objs, k, lo, x, out + {x}) == Pick(es, objs, k, lo, x, out)
    ensures es[x].key == k ==> Sift(Pick(es, objs, k, lo, x, out), {objs[x]}, false) == Pick(es, objs, k, lo, x, out)
  {
    PickAgrees(es, objs, lo, x, out, es, objs, lo, x, out + {x}, k);
    PickMembers(es, objs, k, lo, x, out);
    if es[x].key == k { SiftKeepsAll(Pick(es, objs, k, lo, x, out), {objs[x]}, false); }
  }

  /** Leaving out one more position is taking its object out of the pick. */
  lemma {:induction false} PickLeavesOut<T>(es: seq<Keyed>, objs: seq<T>, k: Key, lo: nat, hi: nat, out: set<nat>,
                                            x: nat)
    requires lo <= hi <= |es| == |objs| && lo <= x < hi
    requires forall y :: lo <= y < hi && y != x && es[y].key == es[x].key ==> objs[y] != objs[x]
    ensures es[x].key == k ==>
        Pick(es, objs, k, lo, hi, out + {x}) == Sift(Pick(es, objs, k, lo, hi, out), {objs[x]}, false)
    ensures es[x].key != k ==> Pick(es, objs, k, lo, hi, out + {x}) == Pick(es, objs, k, lo, hi, out)
  {
    var init, left := Pick(es, objs, k, lo, hi - 1, out), Pick(es, objs, k, lo, hi - 1, out + {x});
    var last := if es[hi - 1].key == k && hi - 1 !in out then [objs[hi - 1]] else [];
    assert Pick(es, objs, k, lo, hi, out) == init + last;
    assert Pick(es, objs, k, lo, hi, out + {x}) == left + if x == hi - 1 then [] else last;
    hide Pick;
    if x < hi - 1 {
      PickLeavesOut(es, objs, k, lo, hi - 1, out, x);
    } else {
      PickLeavesOutLast(es, objs, k, lo, x, out);
    }
    if es[x].key == k {
      PickLeavesOutEnd(init, last, objs[hi - 1], objs[x]);
    }
  }

  lemma {:induction false} PickLeavesOutEnd<T>(init: seq<T>, last: seq<T>, o: T, x: T)
    requires last == [] || last == [o]
    ensures Sift(init + last, {x}, false) == Sift(init, {x}, false) + if o == x then [] else last
  {
    SiftConcat(init, last, {x}, false);
    SiftOne(o, {x}, false);
  }

  lemma {:induction false} PickOne<T>(es: seq<Keyed>, objs: seq<T>, k: Key, x: nat, out: set<nat>)
    requires x < |es| == |objs| && es[x].key == k && x !in out
    ensures Pick(es, objs, k, x, x + 1, out) == [objs[x]]
  {
    assert Pick(es, objs, k, x, x, out) == [];
  }

  lemma {:induction false} PickSettles<T>(es: seq<Keyed>, objs: seq<T>, objs': seq<T>, k: Key, lo: nat, hi: nat,
                                          out: set<nat>, out': set<nat>)
    requires lo <= hi <= |es| == |objs| == |objs'|
    requires forall x :: lo <= x < hi ==> (x in out <==> x in out')
    requires forall x :: lo <= x < hi && es[x].key == k && x !in out ==> objs[x] == objs'[x]
    ensures Pick(es, objs, k, lo, hi, out) == Pick(es, objs', k, lo, hi, out')
  {
    if lo < hi { PickSettles(es, objs, objs', k, lo, hi - 1, out, out'); }
  }

  /** The pick of a growing list only looks at the positions below its end. */
  lemma {:induction false} PickSettled<T>(es: seq<Keyed>, objs: seq<T>, objs': seq<T>, k: Key, lo: nat, hi: nat,
                                          out: set<nat>)
    requires lo <= hi <= |es| == |objs| == |objs'|
    requires forall x :: lo <= x < hi && es[x].key == k && x !in out ==> objs[x] == objs'[x]
    ensures Pick(es, objs, k, lo, hi, out) == Pick(es, objs', k, lo, hi, out)
  {
    PickSettles(es, objs, objs', k, lo, hi, out, out);
  }
}
