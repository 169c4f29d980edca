/** Python's stable `sorted`, as a function over an explicit order. */
module Sorting {

  ghost predicate TotalPreorder<T(!new)>(leq: (T, T) -> bool) {
    && (forall x, y :: leq(x, y) || leq(y, x))
    && (forall x, y, z :: leq(x, y) && leq(y, z) ==> leq(x, z))
  }

  ghost predicate SortedBy<T>(s: seq<T>, leq: (T, T) -> bool) {
    forall i, j :: 0 <= i < j < |s| ==> leq(s[i], s[j])
  }

  /** Inserts before the first element that is not smaller, which keeps equal keys in order. */
  function Insert<T>(x: T, s: seq<T>, leq: (T, T) -> bool): (r: seq<T>)
    ensures multiset(r) == multiset{x} + multiset(s)
    ensures |r| == |s| + 1
  {
    if s == [] || leq(x, s[0]) then [x] + s
    else
      assert s == [s[0]] + s[1..];
      [s[0]] + Insert(x, s[1..], leq)
  }

  function SortBy<T>(s: seq<T>, leq: (T, T) -> bool): (r: seq<T>)
    ensures multiset(r) == multiset(s)
    ensures |r| == |s|
  {
    if s == [] then []
    else
      assert s == [s[0]] + s[1..];
      Insert(s[0], SortBy(s[1..], leq), leq)
  }

  lemma {:induction false} InsertSorted<T(!new)>(x: T, s: seq<T>, leq: (T, T) -> bool)
    requires TotalPreorder(leq) && SortedBy(s, leq)
    ensures SortedBy(Insert(x, s, leq), leq)
  {
    if s != [] && !leq(x, s[0]) {
      InsertSorted(x, s[1..], leq);
      var rest := Insert(x, s[1..], leq);
      forall j | 0 <= j < |rest| ensures leq(s[0], rest[j]) {
        assert rest[j] in multiset(rest);
        assert rest[j] == x || rest[j] in s[1..];
      }
    }
  }

  lemma {:induction false} SortBySorted<T(!new)>(s: seq<T>, leq: (T, T) -> bool)
    requires TotalPreorder(leq)
    ensures SortedBy(SortBy(s, leq), leq)
  {
    if s != [] {
      SortBySorted(s[1..], leq);
      InsertSorted(s[0], SortBy(s[1..], leq), leq);
    }
  }

  /** In order, and those that are alike by it in another order. */
  ghost predicate SortedStably<T>(s: seq<T>, leq: (T, T) -> bool, also: (T, T) -> bool) {
    forall i, j :: 0 <= i < j < |s| ==> leq(s[i], s[j]) && (leq(s[j], s[i]) ==> also(s[i], s[j]))
  }

  lemma {:induction false} InsertStable<T(!new)>(x: T, s: seq<T>, leq: (T, T) -> bool, also: (T, T) -> bool)
    requires TotalPreorder(leq) && SortedStably(s, leq, also) && forall y :: y in s ==> also(x, y)
    ensures SortedStably(Insert(x, s, leq), leq, also)
  {
    if s != [] && !leq(x, s[0]) {
      InsertStable(x, s[1..], leq, also);
      var rest := Insert(x, s[1..], leq);
      forall j | 0 <= j < |rest| ensures leq(s[0], rest[j]) && (leq(rest[j], s[0]) ==> also(s[0], rest[j])) {
        assert rest[j] in multiset(rest);
        assert rest[j] == x || rest[j] in s[1..];
      }
    }
  }

  /** Sorting is stable: elements that are alike keep the order they had. */
  lemma {:induction false} SortByStable<T(!new)>(s: seq<T>, leq: (T, T) -> bool, also: (T, T) -> bool)
    requires TotalPreorder(leq) && SortedBy(s, also)
    ensures SortedStably(SortBy(s, leq), leq, also)
  {
    if s != [] {
      SortByStable(s[1..], leq, also);
      forall y | y in SortBy(s[1..], leq) ensures also(s[0], y) {
        SortByMembers(s[1..], leq, y);
      }
      InsertStable(s[0], SortBy(s[1..], leq), leq, also);
    }
  }

  lemma {:induction false} SortedRest<T>(s: seq<T>, leq: (T, T) -> bool)
    requires s != [] && SortedBy(s, leq)
    ensures SortedBy(s[1..], leq) && forall y :: y in s[1..] ==> leq(s[0], y)
  {
  }

  lemma {:induction false} SortedBefore<T>(x: T, s: seq<T>, leq: (T, T) -> bool)
    requires SortedBy(s, leq) && forall y :: y in s ==> leq(x, y)
    ensures SortedBy([x] + s, leq)
  {
    var all := [x] + s;
    forall i, j | 0 <= i < j < |all| ensures leq(all[i], all[j]) {
      assert all[j] in s;
    }
  }

  /** Where an element is first found. */
  function IndexIn<T(==)>(s: seq<T>, x: T): nat {
    if s == [] || s[0] == x then 0 else 1 + IndexIn(s[1..], x)
  }

  function ByIndex<T(==)>(s: seq<T>): (T, T) -> bool { (x: T, y: T) => IndexIn(s, x) <= IndexIn(s, y) }

  lemma {:induction false} IsAtIndex<T>(s: seq<T>, i: nat)
    requires (forall j, k :: 0 <= j < k < |s| ==> s[j] != s[k]) && i < |s|
    ensures IndexIn(s, s[i]) == i
  {
    if i > 0 { IsAtIndex(s[1..], i - 1); }
  }

  lemma {:induction false} ItselfInOrder<T>(s: seq<T>)
    requires forall j, k :: 0 <= j < k < |s| ==> s[j] != s[k]
    ensures SortedBy(s, ByIndex(s))
  {
    forall i, j | 0 <= i < j < |s| ensures ByIndex(s)(s[i], s[j]) {
      IsAtIndex(s, i);
      IsAtIndex(s, j);
    }
  }

  /** Sorting keeps exactly the elements, so it also keeps membership. */
  lemma {:induction false} SortByMembers<T>(s: seq<T>, leq: (T, T) -> bool, x: T)
    ensures x in SortBy(s, leq) <==> x in s
  {
    assert x in SortBy(s, leq) <==> x in multiset(SortBy(s, leq));
    assert x in s <==> x in multiset(s);
  }

  lemma {:induction false} DistinctByMultiset<T>(s: seq<T>)
    requires forall x :: x in s ==> multiset(s)[x] == 1
    ensures forall i, j :: 0 <= i < j < |s| ==> s[i] != s[j]
  {
    forall i, j | 0 <= i < j < |s| ensures s[i] != s[j] {
      assert s == s[..j] + [s[j]] + s[j + 1..];
      assert multiset(s) == multiset(s[..j]) + multiset{s[j]} + multiset(s[j + 1..]);
      assert s[i] in s[..j];
      assert s[i] in multiset(s[..j]);
      assert s[j] in s;
    }
  }

  lemma {:induction false} CountOfDistinct<T>(s: seq<T>, x: T)
    requires forall i, j :: 0 <= i < j < |s| ==> s[i] != s[j]
    ensures multiset(s)[x] <= 1
  {
    if s != [] {
      CountOfDistinct(s[1..], x);
      assert s == [s[0]] + s[1..];
      assert x == s[0] ==> x !in s[1..];
    }
  }

  lemma {:induction false} SortByDistinct<T>(s: seq<T>, leq: (T, T) -> bool)
    requires forall i, j :: 0 <= i < j < |s| ==> s[i] != s[j]
    ensures forall i, j :: 0 <= i < j < |s| ==> SortBy(s, leq)[i] != SortBy(s, leq)[j]
  {
    var r := SortBy(s, leq);
    forall x | x in r ensures multiset(r)[x] == 1 {
      CountOfDistinct(s, x);
      assert x in multiset(r);
    }
    DistinctByMultiset(r);
  }
}
