/** Sifting a list by a set, and what the list operations of an editor do to the two halves. */
module Lists {

  /** The elements of s that are in S (inside) or not in S (outside), in order. */
  function Sift<T(==)>(s: seq<T>, S: set<T>, inside: bool): seq<T>
  {
    if s == [] then []
    else Sift(s[..|s| - 1], S, inside) + if (s[|s| - 1] in S) == inside then [s[|s| - 1]] else []
  }

  lemma {:induction false} SiftMembers<T>(s: seq<T>, S: set<T>, inside: bool)
    ensures forall x :: x in Sift(s, S, inside) <==> x in s && (x in S) == inside
    ensures forall i :: 0 <= i < |Sift(s, S, inside)| ==>
              Sift(s, S, inside)[i] in s && (Sift(s, S, inside)[i] in S) == inside
  {
    if s != [] {
      SiftMembers(s[..|s| - 1], S, inside);
      assert s == s[..|s| - 1] + [s[|s| - 1]];
    }
  }

  ghost predicate Distinct<T>(s: seq<T>) {
    forall i, j :: 0 <= i < j < |s| ==> s[i] != s[j]
  }

  lemma {:induction false} SiftConcat<T>(a: seq<T>, b: seq<T>, S: set<T>, inside: bool)
    ensures Sift(a + b, S, inside) == Sift(a, S, inside) + Sift(b, S, inside)
  {
    if b == [] {
      assert a + b == a;
    } else {
      var c := b[..|b| - 1];
      assert (a + b)[..|a + b| - 1] == a + c;
      SiftConcat(a, c, S, inside);
    }
  }

  lemma {:induction false} SiftAgrees<T>(s: seq<T>, S: set<T>, S': set<T>, inside: bool)
    requires forall x :: x in s ==> (x in S <==> x in S')
    ensures Sift(s, S, inside) == Sift(s, S', inside)
  {
    if s != [] { SiftAgrees(s[..|s| - 1], S, S', inside); }
  }

  lemma {:induction false} SiftKeepsAll<T>(s: seq<T>, S: set<T>, inside: bool)
    requires forall x :: x in s ==> (x in S) == inside
    ensures Sift(s, S, inside) == s
  {
    if s != [] {
      SiftKeepsAll(s[..|s| - 1], S, inside);
      assert s == s[..|s| - 1] + [s[|s| - 1]];
    }
  }

  lemma {:induction false} SiftDropsAll<T>(s: seq<T>, S: set<T>, inside: bool)
    requires forall x :: x in s ==> (x in S) != inside
    ensures Sift(s, S, inside) == []
  {
    if s != [] { SiftDropsAll(s[..|s| - 1], S, inside); }
  }

  lemma {:induction false} SiftTwice<T>(s: seq<T>, S: set<T>, inside: bool, o: T)
    ensures Sift(Sift(s, S, inside), {o}, false) == Sift(Sift(s, {o}, false), S, inside)
  {
    if s != [] {
      var init, last := s[..|s| - 1], s[|s| - 1];
      SiftTwice(init, S, inside, o);
      SiftConcat(Sift(init, S, inside), if (last in S) == inside then [last] else [], {o}, false);
      SiftConcat(Sift(init, {o}, false), if last != o then [last] else [], S, inside);
      SiftOne(last, S, inside);
      SiftOne(last, {o}, false);
    }
  }

  lemma {:induction false} SiftOne<T>(x: T, S: set<T>, inside: bool)
    ensures Sift([x], S, inside) == if (x in S) == inside then [x] else []
  {
  }

  /** Deleting the only occurrence of an element is sifting it out. */
  lemma {:induction false} DeleteIsSift<T>(s: seq<T>, p: nat)
    requires p < |s| && Distinct(s)
    ensures s[..p] + s[p + 1..] == Sift(s, {s[p]}, false)
  {
    assert s == s[..p] + [s[p]] + s[p + 1..];
    SiftConcat(s[..p] + [s[p]], s[p + 1..], {s[p]}, false);
    SiftConcat(s[..p], [s[p]], {s[p]}, false);
    SiftOne(s[p], {s[p]}, false);
    SiftKeepsAll(s[..p], {s[p]}, false);
    SiftKeepsAll(s[p + 1..], {s[p]}, false);
  }

  /** Two ways of splitting a list around an element that occurs once are the same. */
  lemma {:induction false} SplitAroundOnce<T>(a: seq<T>, b: seq<T>, c: seq<T>, d: seq<T>, x: T)
    requires a + [x] + b == c + [x] + d && x !in a && x !in b
    ensures a == c && b == d
  {
    var s := a + [x] + b;
    forall k | 0 <= k < |s| && k != |a| ensures s[k] != x {
      if k < |a| {
        assert s[k] == a[k];
      } else {
        assert s[k] == b[k - |a| - 1];
      }
    }
    assert s[|c|] == x;
    assert a == s[..|a|] && c == s[..|c|];
    assert b == s[|a| + 1..] && d == s[|c| + 1..];
  }

  /** c is made of a and b, each in its own order. */
  ghost predicate Interleaves<T>(c: seq<T>, a: seq<T>, b: seq<T>)
    decreases |c|
  {
    if c == [] then a == [] && b == []
    else
      || (a != [] && a[|a| - 1] == c[|c| - 1] && Interleaves(c[..|c| - 1], a[..|a| - 1], b))
      || (b != [] && b[|b| - 1] == c[|c| - 1] && Interleaves(c[..|c| - 1], a, b[..|b| - 1]))
  }

  lemma {:induction false} OneMoreInterleaves<T>(c: seq<T>, a: seq<T>, b: seq<T>, x: T, first: bool)
    requires Interleaves(c, a, b)
    ensures if first then Interleaves(c + [x], a + [x], b) else Interleaves(c + [x], a, b + [x])
  {
    assert (c + [x])[..|c|] == c && (a + [x])[..|a|] == a && (b + [x])[..|b|] == b;
  }

  lemma {:induction false} InterleavesNothing<T>(c: seq<T>, a: seq<T>)
    requires Interleaves(c, a, [])
    ensures c == a
  {
    if c != [] {
      InterleavesNothing(c[..|c| - 1], a[..|a| - 1]);
      assert c == c[..|c| - 1] + [c[|c| - 1]] && a == a[..|a| - 1] + [a[|a| - 1]];
    }
  }

  lemma {:induction false} SiftOfNone<T>(S: set<T>, inside: bool)
    ensures Sift([], S, inside) == []
  {
  }

  /** A list that has r once, right before p, is sifted apart there. */
  lemma {:induction false} SiftAround<T>(e: seq<T>, p: nat, S: set<T>, head: seq<T>, r: T, rest: seq<T>)
    requires Distinct(e) && 0 < p <= |e| && e[p - 1] == r && r in S
    requires Sift(e, S, true) == head + [r] + rest
    ensures Sift(e[..p], S, true) == head + [r] && Sift(e[p..], S, true) == rest
  {
    assert e == (e[..p - 1] + [r]) + e[p..];
    SiftConcat(e[..p - 1] + [r], e[p..], S, true);
    SiftConcat(e[..p - 1], [r], S, true);
    SiftOne(r, S, true);
    SiftMembers(e[..p - 1], S, true);
    SiftMembers(e[p..], S, true);
    SplitAroundOnce(Sift(e[..p - 1], S, true), Sift(e[p..], S, true), head, rest, r);
    assert e[..p] == e[..p - 1] + [r];
  }
}
