/**
  Persistence of a frame-time series: the union-find sweep that reports the spikes of a trace.

  The direct definition below never mentions a forest or an order of visits: a peak lives from its own
  value down to the highest pass that leads to a point outranking it.
 */
module PersistentPeaks {
  import opened Sorting

  // ----- the direct definition

  /** Higher value first, then the earlier frame. */
  predicate Outranks(v: seq<real>, p: nat, q: nat)
    requires p < |v| && q < |v|
  {
    v[p] > v[q] || (v[p] == v[q] && p < q)
  }

  function Lower(a: real, b: real): real { if a <= b then a else b }

  /** The least value of v over lo..hi, both ends included. */
  function MinOver(v: seq<real>, lo: nat, hi: nat): real
    requires lo <= hi < |v|
    decreases hi - lo
  {
    if lo == hi then v[lo] else Lower(v[hi], MinOver(v, lo, hi - 1))
  }

  function Saddle(v: seq<real>, p: nat, q: nat): real
    requires p < |v| && q < |v|
  {
    if p <= q then MinOver(v, p, q) else MinOver(v, q, p)
  }

  /** A position with a number attached: its value while visiting, its persistence in the result. */
  datatype Entry = Entry(index: nat, weight: real)

  datatype Pass = NoPass | Highest(level: real)

  /** The highest saddle from p to a point below n that outranks p. */
  function PassBelow(v: seq<real>, p: nat, n: nat): Pass
    requires p < |v| && n <= |v|
  {
    if n == 0 then NoPass
    else
      var rest := PassBelow(v, p, n - 1);
      if !Outranks(v, n - 1, p) then rest
      else if rest.Highest? && Saddle(v, p, n - 1) <= rest.level then rest
      else Highest(Saddle(v, p, n - 1))
  }

  function Persistence(v: seq<real>, p: nat): real
    requires p < |v|
  {
    match PassBelow(v, p, |v|)
    case NoPass => v[p] - MinOver(v, 0, |v| - 1)
    case Highest(level) => v[p] - level
  }

  lemma {:induction false} MinOverIsLeast(v: seq<real>, lo: nat, hi: nat)
    requires lo <= hi < |v|
    ensures forall i :: lo <= i <= hi ==> MinOver(v, lo, hi) <= v[i]
    ensures exists i :: lo <= i <= hi && MinOver(v, lo, hi) == v[i]
    decreases hi - lo
  {
    if lo == hi || v[hi] <= MinOver(v, lo, hi - 1) {
      assert MinOver(v, lo, hi) == v[hi];
    }
    if lo < hi {
      MinOverIsLeast(v, lo, hi - 1);
    }
  }

  /** A saddle is a lower bound of the values between its ends, and one of them. */
  lemma {:induction false} SaddleIsLeast(v: seq<real>, p: nat, q: nat, x: nat)
    requires p < |v| && q < |v|
    requires p <= x <= q || q <= x <= p
    ensures Saddle(v, p, q) <= v[x]
    ensures (forall i :: 0 <= i < |v| && (p <= i <= q || q <= i <= p) ==> v[x] <= v[i]) ==> Saddle(v, p, q) == v[x]
  {
    MinOverIsLeast(v, if p <= q then p else q, if p <= q then q else p);
  }

  lemma {:induction false} PassBelowIs(v: seq<real>, p: nat, n: nat, q: nat)
    requires p < |v| && q < n <= |v| && Outranks(v, q, p)
    requires forall r :: 0 <= r < n && Outranks(v, r, p) ==> Saddle(v, p, r) <= Saddle(v, p, q)
    ensures PassBelow(v, p, n) == Highest(Saddle(v, p, q))
  {
    PassBelowBounds(v, p, n);
  }

  lemma {:induction false} PassBelowBounds(v: seq<real>, p: nat, n: nat)
    requires p < |v| && n <= |v|
    ensures PassBelow(v, p, n).NoPass? <==> forall q :: 0 <= q < n ==> !Outranks(v, q, p)
    ensures PassBelow(v, p, n).Highest? ==>
        forall q :: 0 <= q < n && Outranks(v, q, p) ==> Saddle(v, p, q) <= PassBelow(v, p, n).level
    ensures PassBelow(v, p, n).Highest? ==>
        exists q :: 0 <= q < n && Outranks(v, q, p) && Saddle(v, p, q) == PassBelow(v, p, n).level
  {
    if n > 0 { PassBelowBounds(v, p, n - 1); }
  }

  /**
    What Persistence says, without its recursion: the top point keeps its height over the whole series,
    any other point its height over the best of the passes to the points that outrank it.
   */
  lemma {:induction false} PersistenceIsHeightOverBestPass(v: seq<real>, p: nat)
    requires p < |v|
    ensures (forall q :: 0 <= q < |v| ==> !Outranks(v, q, p)) ==> Persistence(v, p) == v[p] - MinOver(v, 0, |v| - 1)
    ensures forall q :: 0 <= q < |v| && Outranks(v, q, p) ==> Persistence(v, p) <= v[p] - Saddle(v, p, q)
    ensures (exists q :: 0 <= q < |v| && Outranks(v, q, p)) ==>
              exists q :: 0 <= q < |v| && Outranks(v, q, p) && Persistence(v, p) == v[p] - Saddle(v, p, q)
  {
    PassBelowBounds(v, p, |v|);
  }

  // ----- the same, told from the values alone

  /** m is the least value of v over lo..hi. */
  ghost predicate Least(v: seq<real>, lo: nat, hi: nat, m: real)
    requires hi < |v|
  {
    (forall i :: lo <= i <= hi ==> m <= v[i]) && exists i :: lo <= i <= hi && m == v[i]
  }

  ghost predicate Lowest(v: seq<real>, m: real)
    requires v != []
  {
    Least(v, 0, |v| - 1, m)
  }

  /** m is the least value on the way from p to q. */
  ghost predicate OnTheWay(v: seq<real>, p: nat, q: nat, m: real)
    requires p < |v| && q < |v|
  {
    if p <= q then Least(v, p, q, m) else Least(v, q, p, m)
  }

  /**
    How long p lives, told from the values alone. The highest point, the earliest of them if there are several, lives
    down to the lowest. Any other lives until the way to some point that is higher, or equally high and earlier, goes
    below it, and no such way goes less deep.
   */
  ghost predicate LivesFor(v: seq<real>, p: nat, x: real)
    requires p < |v|
  {
    if forall q :: 0 <= q < |v| ==> v[q] < v[p] || (v[q] == v[p] && p <= q)
    then exists m :: Lowest(v, m) && x == v[p] - m
    else
      && (forall q, m {:trigger OnTheWay(v, p, q, m)} ::
            0 <= q < |v| && (v[q] > v[p] || (v[q] == v[p] && q < p)) && OnTheWay(v, p, q, m) ==> x <= v[p] - m)
      && exists q, m {:trigger OnTheWay(v, p, q, m)} ::
           0 <= q < |v| && (v[q] > v[p] || (v[q] == v[p] && q < p)) && OnTheWay(v, p, q, m) && x == v[p] - m
  }

  lemma {:induction false} LeastIs(v: seq<real>, lo: nat, hi: nat)
    requires lo <= hi < |v|
    ensures forall m :: Least(v, lo, hi, m) <==> m == MinOver(v, lo, hi)
  {
    MinOverIsLeast(v, lo, hi);
  }

  lemma {:induction false} OnTheWayIs(v: seq<real>, p: nat, q: nat)
    requires p < |v| && q < |v|
    ensures forall m :: OnTheWay(v, p, q, m) <==> m == Saddle(v, p, q)
  {
    LeastIs(v, if p <= q then p else q, if p <= q then q else p);
  }

  /** The persistence of a point is how long it lives, and nothing else is. */
  lemma {:induction false} PersistenceIsLife(v: seq<real>, p: nat, x: real)
    requires p < |v|
    ensures LivesFor(v, p, x) <==> x == Persistence(v, p)
  {
    hide MinOver, Saddle, PassBelow, Least, OnTheWay;
    LeastIs(v, 0, |v| - 1);
    PassBelowBounds(v, p, |v|);
    forall q, m | 0 <= q < |v| ensures OnTheWay(v, p, q, m) <==> m == Saddle(v, p, q) {
      OnTheWayIs(v, p, q);
    }
    if forall q :: 0 <= q < |v| ==> v[q] < v[p] || (v[q] == v[p] && p <= q) {
      assert forall q :: 0 <= q < |v| ==> !Outranks(v, q, p);
      assert Lowest(v, MinOver(v, 0, |v| - 1));
    } else {
      var higher :| 0 <= higher < |v| && !(v[higher] < v[p] || (v[higher] == v[p] && p <= higher));
      assert Outranks(v, higher, p);
      var q :| 0 <= q < |v| && Outranks(v, q, p) && Saddle(v, p, q) == PassBelow(v, p, |v|).level;
      assert OnTheWay(v, p, q, Saddle(v, p, q));
    }
  }

  // ----- the forest of the sweep

  /** Every boundary between i and j has been joined; boundary e lies between positions e - 1 and e. */
  ghost predicate Linked(joined: seq<bool>, i: nat, j: nat)
    requires i < |joined| && j < |joined|
  {
    forall e :: (i < e <= j || j < e <= i) ==> joined[e]
  }

  /**
    rank[i] is the visiting time of i. Parents stay inside the component and come strictly earlier, so every
    path ends; and a root comes before everything in its component, so a component has one root.
   */
  ghost predicate Forest(parent: seq<nat>, rank: seq<nat>, joined: seq<bool>) {
    && |parent| == |rank| == |joined|
    && (forall i {:trigger parent[i]} :: 0 <= i < |parent| ==>
          parent[i] < |parent| && Linked(joined, i, parent[i]) && (parent[i] == i || rank[parent[i]] < rank[i]))
    && (forall i, j {:trigger Linked(joined, i, j)} ::
          0 <= i < |parent| && 0 <= j < |parent| && parent[i] == i && Linked(joined, i, j) ==>
              i == j || rank[i] < rank[j])
  }

  /** Follows parents to the root, halving the path on the way. */
  method Find(parent: array<nat>, start: nat, ghost rank: seq<nat>, ghost joined: seq<bool>) returns (index: nat)
    requires Forest(parent[..], rank, joined)
    requires start < parent.Length
    modifies parent
    ensures Forest(parent[..], rank, joined)
    ensures forall i :: 0 <= i < parent.Length ==> (parent[i] == i <==> old(parent[i]) == i)
    ensures index < parent.Length && parent[index] == index
    ensures Linked(joined, start, index)
  {
    index := start;
    while parent[index] != index
      invariant index < parent.Length
      invariant Forest(parent[..], rank, joined)
      invariant forall i :: 0 <= i < parent.Length ==> (parent[i] == i <==> old(parent[i]) == i)
      invariant Linked(joined, start, index)
      decreases rank[index]
    {
      ghost var before := parent[..];
      parent[index] := parent[parent[index]];
      assert parent[..] == before[index := before[before[index]]];
      index := parent[index];
    }
  }

  /** A link that needs the new boundary e crosses it, and is made of two old links. */
  lemma {:induction false} LinkAcross(joined: seq<bool>, e: nat, i: nat, j: nat)
    requires i < |joined| && j < |joined| && 0 < e < |joined|
    requires Linked(joined[e := true], i, j) && !Linked(joined, i, j)
    ensures i < e <= j || j < e <= i
    ensures if i < e then Linked(joined, i, e - 1) && Linked(joined, e, j)
            else Linked(joined, i, e) && Linked(joined, e - 1, j)
  {
    forall f | (i < f <= j || j < f <= i) && f != e ensures joined[f] {
      assert joined[e := true][f];
    }
  }

  lemma {:induction false} NothingJoined(parent: seq<nat>, rank: seq<nat>, joined: seq<bool>)
    requires |parent| == |rank| == |joined|
    requires forall i :: 0 <= i < |parent| ==> parent[i] == i && !joined[i]
    ensures Forest(parent, rank, joined)
  {
    forall i, j | 0 <= i < |parent| && 0 <= j < |parent| && Linked(joined, i, j) ensures i == j {
      var e := if i < j then j else i;
      assert !joined[e];
    }
  }

  lemma {:induction false} LinkThrough(joined: seq<bool>, i: nat, m: nat, j: nat)
    requires i < |joined| && m < |joined| && j < |joined|
    ensures Linked(joined, i, m) && Linked(joined, m, j) ==> Linked(joined, i, j)
  {
  }

  /** low and high are the two components that meet at boundary e. */
  ghost predicate Meeting(joined: seq<bool>, e: nat, low: nat, high: nat)
    requires 0 < e < |joined| && low < |joined| && high < |joined|
  {
    || (Linked(joined, low, e - 1) && Linked(joined, high, e))
    || (Linked(joined, high, e - 1) && Linked(joined, low, e))
  }

  /** After the join, a root that is linked across e is the earlier of the two. */
  lemma {:induction false} JoinedRoot(parent: seq<nat>, rank: seq<nat>, joined: seq<bool>, e: nat, low: nat, high: nat,
                                      i: nat, j: nat)
    requires Forest(parent, rank, joined)
    requires 0 < e < |parent| && low < |parent| && high < |parent|
    requires parent[low] == low && parent[high] == high && rank[high] < rank[low] && Meeting(joined, e, low, high)
    requires i < |parent| && j < |parent| && i != low && parent[i] == i && Linked(joined[e := true], i, j)
    ensures i == j || rank[i] < rank[j]
  {
    if !Linked(joined, i, j) {
      LinkAcross(joined, e, i, j);
      var near, far := if i < e then e - 1 else e, if i < e then e else e - 1;
      assert Linked(joined, i, near) && Linked(joined, far, j);
      var a := if Linked(joined, low, near) then low else high;
      assert Linked(joined, a, near);
      assert Linked(joined, i, a) && Linked(joined, a, i);
      assert i == high;
      LinkThrough(joined, i, near, low);
      LinkThrough(joined, low, near, i);
      assert Linked(joined, low, far);
      assert Linked(joined, low, j);
    }
  }

  /** Joining two neighbouring components under the earlier root keeps the forest. */
  lemma {:induction false} JoinKeepsForest(parent: seq<nat>, rank: seq<nat>, joined: seq<bool>, e: nat, low: nat,
                                           high: nat)
    requires Forest(parent, rank, joined)
    requires 0 < e < |parent| && low < |parent| && high < |parent|
    requires parent[low] == low && parent[high] == high && rank[high] < rank[low] && Meeting(joined, e, low, high)
    ensures Forest(parent[low := high], rank, joined[e := true])
  {
    var parent', joined' := parent[low := high], joined[e := true];
    forall i | 0 <= i < |parent|
      ensures Linked(joined', i, parent'[i])
    {
      if i != low { assert Linked(joined, i, parent[i]); }
    }
    forall i, j | 0 <= i < |parent| && 0 <= j < |parent| && parent'[i] == i && Linked(joined', i, j)
      ensures i == j || rank[i] < rank[j]
    {
      JoinedRoot(parent, rank, joined, e, low, high, i, j);
    }
  }

  // ----- the death of a component

  /** Boundary e touches x on a side that has not been looked at yet. */
  predicate Pending(e: nat, x: nat, sides: nat) {
    (e == x && sides < 1) || (e == x + 1 && sides < 2)
  }

  /** Both positions next to boundary e have been visited by time k. */
  predicate Between(rank: seq<nat>, e: nat, k: int)
    requires 0 < e < |rank|
  {
    rank[e - 1] <= k && rank[e] <= k
  }

  /** Boundaries joined when everything visited up to time k, and x on its first `sides` sides, is in. */
  ghost predicate JoinedUpTo(joined: seq<bool>, rank: seq<nat>, k: int, x: nat, sides: nat)
    requires |joined| == |rank|
  {
    forall e :: 0 < e < |joined| ==> joined[e] == (Between(rank, e, k) && !Pending(e, x, sides))
  }

  ghost predicate RankedBy(v: seq<real>, rank: seq<nat>) {
    && |rank| == |v|
    && (forall i, j {:trigger Outranks(v, i, j)} ::
        0 <= i < |v| && 0 <= j < |v| ==> (Outranks(v, i, j) <==> rank[i] < rank[j]))
  }

  /** Everything linked to an end of boundary e, other than across it, was visited no later than x. */
  lemma {:induction false} LinkedIsVisited(rank: seq<nat>, joined: seq<bool>, k: nat, x: nat, sides: nat, from: nat,
                                           to: nat, i: nat)
    requires |joined| == |rank| && JoinedUpTo(joined, rank, k, x, sides)
    requires from < |rank| && to < |rank| && rank[to] <= k && Linked(joined, from, to)
    requires from <= i <= to || to <= i <= from
    ensures rank[i] <= k
  {
    if i < to {
      assert joined[i + 1];
    } else if to < i {
      assert joined[i];
      assert rank[i - 1] <= k && rank[i] <= k;
    }
  }

  /** Leaving a component means crossing x or a point visited later than x. */
  lemma {:induction false} LeavingGoesLow(v: seq<real>, rank: seq<nat>, joined: seq<bool>, k: nat, x: nat, sides: nat,
                                          p: nat, q: nat)
    requires RankedBy(v, rank) && |joined| == |rank| && JoinedUpTo(joined, rank, k, x, sides)
    requires x < |v| && rank[x] == k && p < |v| && q < |v| && !Linked(joined, p, q)
    ensures Saddle(v, p, q) <= v[x]
  {
    var f :| (p < f <= q || q < f <= p) && !joined[f];
    var y := if f == x || f == x + 1 then x else if rank[f] > k then f else f - 1;
    assert y == x || rank[y] > k;
    assert v[y] <= v[x] by {
      if y != x { assert Outranks(v, x, y); }
    }
    SaddleIsLeast(v, p, q, y);
  }

  lemma {:induction false} RankOrders(v: seq<real>, rank: seq<nat>, i: nat, j: nat)
    requires RankedBy(v, rank) && i < |v| && j < |v|
    ensures Outranks(v, i, j) <==> rank[i] < rank[j]
    ensures i != j ==> rank[i] != rank[j]
  {
    assert Outranks(v, i, j) || Outranks(v, j, i) || i == j;
  }

  /** The component under `low` meets `high` at x: no point that outranks low is reached above v[x]. */
  lemma {:induction false} DeathIsPersistence(v: seq<real>, parent: seq<nat>, rank: seq<nat>, joined: seq<bool>,
                           k: nat, x: nat, sides: nat, e: nat, low: nat, high: nat)
    requires RankedBy(v, rank) && Forest(parent, rank, joined) && |parent| == |v|
        && JoinedUpTo(joined, rank, k, x, sides)
    requires x < |v| && rank[x] == k
    requires e == x || e == x + 1
    requires 0 < e < |v| && rank[e - 1] <= k && rank[e] <= k
    requires low < |v| && high < |v| && parent[low] == low && parent[high] == high && rank[high] < rank[low]
    requires Meeting(joined, e, low, high) && !joined[e]
    ensures Persistence(v, low) == v[low] - v[x]
  {
    assert Outranks(v, high, low);
    MeetingIsVisited(v, rank, joined, k, x, sides, e, low, high);
    SaddleIsLeast(v, low, high, x);
    forall q | 0 <= q < |v| && Outranks(v, q, low) ensures Saddle(v, low, q) <= Saddle(v, low, high) {
      assert !Linked(joined, low, q);
      LeavingGoesLow(v, rank, joined, k, x, sides, low, q);
    }
    PassBelowIs(v, low, |v|, high);
  }

  lemma {:induction false} MeetingIsVisited(v: seq<real>, rank: seq<nat>, joined: seq<bool>, k: nat, x: nat,
                                            sides: nat, e: nat, low: nat, high: nat)
    requires RankedBy(v, rank) && |joined| == |v| && JoinedUpTo(joined, rank, k, x, sides)
    requires x < |v| && rank[x] == k
    requires e == x || e == x + 1
    requires 0 < e < |v| && rank[e - 1] <= k && rank[e] <= k
    requires low < |v| && high < |v| && low != high && Meeting(joined, e, low, high) && !joined[e]
    ensures low <= x <= high || high <= x <= low
    ensures forall i :: 0 <= i < |v| && (low <= i <= high || high <= i <= low) ==> v[x] <= v[i]
  {
    var a, b := if Linked(joined, low, e - 1) then low else high, if Linked(joined, low, e - 1) then high else low;
    assert Linked(joined, a, e - 1) && Linked(joined, b, e);
    assert a < e <= b;
    forall i | 0 <= i < |v| && a <= i <= b ensures v[x] <= v[i] {
      if i < e {
        LinkedIsVisited(rank, joined, k, x, sides, a, e - 1, i);
      } else {
        LinkedIsVisited(rank, joined, k, x, sides, b, e, i);
      }
      RankOrders(v, rank, i, x);
    }
  }

  // ----- the conservation law

  function Total(peaks: seq<Entry>): real {
    if peaks == [] then 0.0 else Total(peaks[..|peaks| - 1]) + peaks[|peaks| - 1].weight
  }

  /** The sum of all increases from one frame to the next. */
  function Climb(v: seq<real>, n: nat): real
    requires n <= |v|
  {
    if n <= 1 then 0.0 else Climb(v, n - 1) + if v[n - 1] > v[n - 2] then v[n - 1] - v[n - 2] else 0.0
  }

  /** The values of the recorded points, less the lower end of each joined boundary. */
  ghost function Ledger(v: seq<real>, parent: seq<nat>, joined: seq<bool>, n: nat): real
    requires n <= |v| == |parent| == |joined|
  {
    if n == 0 then 0.0
    else
      Ledger(v, parent, joined, n - 1)
      + (if parent[n - 1] != n - 1 then v[n - 1] else 0.0)
      - (if n > 1 && joined[n - 1] then Lower(v[n - 2], v[n - 1]) else 0.0)
  }

  lemma {:induction false} LedgerJoin(v: seq<real>, parent: seq<nat>, joined: seq<bool>, e: nat, low: nat, high: nat,
                                      n: nat)
    requires n <= |v| == |parent| == |joined|
    requires 0 < e < |v| && !joined[e] && low < |v| && parent[low] == low && high != low
    ensures Ledger(v, parent[low := high], joined[e := true], n) == Ledger(v, parent, joined, n)
              + (if low < n then v[low] else 0.0) - (if e < n then Lower(v[e - 1], v[e]) else 0.0)
  {
    if n > 0 { LedgerJoin(v, parent, joined, e, low, high, n - 1); }
  }

  lemma {:induction false} LedgerSettled(v: seq<real>, parent: seq<nat>, parent': seq<nat>, joined: seq<bool>, n: nat)
    requires n <= |v| == |parent| == |parent'| == |joined|
    requires forall i :: 0 <= i < |v| ==> (parent[i] == i <==> parent'[i] == i)
    ensures Ledger(v, parent, joined, n) == Ledger(v, parent', joined, n)
  {
    if n > 0 { LedgerSettled(v, parent, parent', joined, n - 1); }
  }

  lemma {:induction false} LedgerFull(v: seq<real>, parent: seq<nat>, joined: seq<bool>, top: nat, n: nat)
    requires 0 < n <= |v| == |parent| == |joined| && top < |v|
    requires forall i :: 0 <= i < |v| ==> (parent[i] == i <==> i == top)
    requires forall e :: 0 < e < |v| ==> joined[e]
    ensures Ledger(v, parent, joined, n) + (if top < n then v[top] else 0.0) == v[0] + Climb(v, n)
  {
    if n > 1 { LedgerFull(v, parent, joined, top, n - 1); }
  }

  lemma {:induction false} LedgerEmpty(v: seq<real>, parent: seq<nat>, joined: seq<bool>, n: nat)
    requires n <= |v| == |parent| == |joined|
    requires forall i :: 0 <= i < |v| ==> parent[i] == i && !joined[i]
    ensures Ledger(v, parent, joined, n) == 0.0
  {
    if n > 0 { LedgerEmpty(v, parent, joined, n - 1); }
  }

  // ----- the sweep

  /** What the list of recorded deaths says while the sweep runs; life[p] stands for the persistence of p. */
  ghost predicate Recorded(life: seq<real>, parent: seq<nat>, peaks: seq<Entry>)
    requires |parent| == |life|
  {
    && (forall a :: 0 <= a < |peaks| ==> peaks[a].index < |life| && parent[peaks[a].index] != peaks[a].index
                                         && peaks[a].weight == life[peaks[a].index])
    && (forall a, b :: 0 <= a < b < |peaks| ==> peaks[a].index != peaks[b].index)
    && (forall p :: 0 <= p < |life| && parent[p] != p ==> Entry(p, life[p]) in peaks)
  }

  lemma {:induction false} RecordDeath(life: seq<real>, parent: seq<nat>, peaks: seq<Entry>, low: nat, high: nat)
    requires |parent| == |life| && Recorded(life, parent, peaks)
    requires low < |life| && parent[low] == low && high != low
    ensures Recorded(life, parent[low := high], peaks + [Entry(low, life[low])])
    ensures Total(peaks + [Entry(low, life[low])]) == Total(peaks) + life[low]
  {
    var peaks' := peaks + [Entry(low, life[low])];
    assert peaks'[..|peaks|] == peaks;
    assert peaks'[|peaks|] == Entry(low, life[low]);
    forall p | 0 <= p < |life| && parent[low := high][p] != p ensures Entry(p, life[p]) in peaks' {
      if p != low { assert Entry(p, life[p]) in peaks; }
    }
  }

  ghost predicate Lives(v: seq<real>, life: seq<real>) {
    |life| == |v| && forall p {:trigger Persistence(v, p)} :: 0 <= p < |v| ==> life[p] == Persistence(v, p)
  }

  /** Positions by decreasing value, the earlier position first among equals. */
  const HIGHER_FIRST: (Entry, Entry) -> bool :=
    (a: Entry, b: Entry) => a.weight > b.weight || (a.weight == b.weight && a.index <= b.index)

  function Numbered(v: seq<real>): (r: seq<Entry>)
    ensures |r| == |v|
    ensures forall i :: 0 <= i < |v| ==> r[i] == Entry(i, v[i])
  {
    seq(|v|, i requires 0 <= i < |v| => Entry(i, v[i]))
  }

  function VisitingOrder(v: seq<real>): (r: seq<Entry>)
    ensures |r| == |v|
  {
    SortBy(Numbered(v), HIGHER_FIRST)
  }

  /** The visiting time of every position. */
  lemma {:induction false} Ranking(v: seq<real>) returns (rank: seq<nat>)
    ensures RankedBy(v, rank) && forall i :: 0 <= i < |v| ==> rank[i] < |v|
    ensures forall k :: 0 <= k < |v| ==> VisitingOrder(v)[k].index < |v| && rank[VisitingOrder(v)[k].index] == k
  {
    var s := VisitingOrder(v);
    SortBySorted(Numbered(v), HIGHER_FIRST);
    SortByDistinct(Numbered(v), HIGHER_FIRST);
    forall i | 0 <= i < |v| ensures exists k :: 0 <= k < |v| && s[k] == Entry(i, v[i]) {
      SortByMembers(Numbered(v), HIGHER_FIRST, Entry(i, v[i]));
      assert Numbered(v)[i] == Entry(i, v[i]);
    }
    forall k | 0 <= k < |v| ensures s[k].index < |v| && s[k].weight == v[s[k].index] {
      SortByMembers(Numbered(v), HIGHER_FIRST, s[k]);
    }
    rank := Times(v, s);
  }

  lemma {:induction false} Times(v: seq<real>, s: seq<Entry>) returns (rank: seq<nat>)
    requires |s| == |v| && SortedBy(s, HIGHER_FIRST)
    requires forall k, l :: 0 <= k < l < |v| ==> s[k] != s[l]
    requires forall i :: 0 <= i < |v| ==> exists k :: 0 <= k < |v| && s[k] == Entry(i, v[i])
    requires forall k :: 0 <= k < |v| ==> s[k].index < |v| && s[k].weight == v[s[k].index]
    ensures RankedBy(v, rank) && forall i :: 0 <= i < |v| ==> rank[i] < |v|
    ensures forall k :: 0 <= k < |v| ==> rank[s[k].index] == k
  {
    rank := seq(|v|, i requires 0 <= i < |v| => var k :| 0 <= k < |v| && s[k] == Entry(i, v[i]); k);
    forall i, j | 0 <= i < |v| && 0 <= j < |v| ensures Outranks(v, i, j) <==> rank[i] < rank[j] {
      assert s[rank[i]] == Entry(i, v[i]) && s[rank[j]] == Entry(j, v[j]);
    }
    forall k | 0 <= k < |v| ensures rank[s[k].index] == k {
      assert s[rank[s[k].index]] == s[k];
    }
  }

  /** Everything that holds while x, visited at time k, has been joined on its first `sides` sides. */
  ghost predicate Swept(v: seq<real>, life: seq<real>, parent: seq<nat>, rank: seq<nat>, joined: seq<bool>,
                        peaks: seq<Entry>, k: nat, x: nat, sides: nat)
  {
    && RankedBy(v, rank) && |parent| == |life| == |v| && Forest(parent, rank, joined)
    && x < |v| && rank[x] == k && JoinedUpTo(joined, rank, k, x, sides)
    && Recorded(life, parent, peaks) && Total(peaks) == Ledger(v, parent, joined, |v|)
  }

  /** The same between two visits: everything visited before time k is in. */
  ghost predicate SweptBefore(v: seq<real>, life: seq<real>, parent: seq<nat>, rank: seq<nat>, joined: seq<bool>,
                              peaks: seq<Entry>, k: nat)
  {
    && RankedBy(v, rank) && |parent| == |life| == |v| && Forest(parent, rank, joined)
    && (forall e :: 0 < e < |joined| ==> joined[e] == Between(rank, e, k - 1))
    && Recorded(life, parent, peaks) && Total(peaks) == Ledger(v, parent, joined, |v|)
  }

  lemma {:induction false} VisitStarts(v: seq<real>, life: seq<real>, parent: seq<nat>, rank: seq<nat>,
                                       joined: seq<bool>, peaks: seq<Entry>, k: nat, x: nat)
    requires SweptBefore(v, life, parent, rank, joined, peaks, k) && x < |v| && rank[x] == k
    ensures Swept(v, life, parent, rank, joined, peaks, k, x, 0)
    ensures forall i :: 0 <= i < |v| ==> (rank[i] <= k <==> rank[i] < k || i == x)
  {
    forall i | 0 <= i < |v| ensures rank[i] <= k <==> rank[i] < k || i == x {
      RankOrders(v, rank, i, x);
    }
    forall e | 0 < e < |joined| ensures joined[e] == (Between(rank, e, k) && !Pending(e, x, 0)) {
      RankOrders(v, rank, e - 1, x);
      RankOrders(v, rank, e, x);
    }
  }

  lemma {:induction false} VisitSkips(v: seq<real>, life: seq<real>, parent: seq<nat>, rank: seq<nat>,
                                      joined: seq<bool>, peaks: seq<Entry>, k: nat, x: nat, sides: nat)
    requires Swept(v, life, parent, rank, joined, peaks, k, x, sides) && sides < 2
    requires 0 < x + sides < |v| ==> k < rank[if sides == 0 then x - 1 else x + 1]
    ensures Swept(v, life, parent, rank, joined, peaks, k, x, sides + 1)
  {
    assert forall e :: 0 < e < |joined| ==> joined[e] == (Between(rank, e, k) && !Pending(e, x, sides + 1));
  }

  lemma {:induction false} VisitEnds(v: seq<real>, life: seq<real>, parent: seq<nat>, rank: seq<nat>,
                                     joined: seq<bool>, peaks: seq<Entry>, k: nat, x: nat)
    requires Swept(v, life, parent, rank, joined, peaks, k, x, 2)
    ensures SweptBefore(v, life, parent, rank, joined, peaks, k + 1)
  {
    assert forall e :: 0 < e < |joined| ==> joined[e] == (Between(rank, e, k) && !Pending(e, x, 2));
  }

  lemma {:induction false} NotYetJoined(parent: seq<nat>, rank: seq<nat>, joined: seq<bool>, k: nat, x: nat, sides: nat)
    requires Forest(parent, rank, joined) && JoinedUpTo(joined, rank, k, x, sides) && sides < 2
        && 0 < x + sides < |parent|
    ensures |parent| == |joined| == |rank| && !joined[x + sides]
  {
  }

  lemma {:induction false} JoinStep(v: seq<real>, life: seq<real>, parent: seq<nat>, rank: seq<nat>, joined: seq<bool>,
                                    peaks: seq<Entry>, k: nat, x: nat, sides: nat, low: nat, high: nat)
    requires Swept(v, life, parent, rank, joined, peaks, k, x, sides) && sides < 2
    requires 0 < x + sides < |v| && rank[x + sides - 1] <= k && rank[x + sides] <= k
    requires low < |v| && high < |v| && parent[low] == low && parent[high] == high && low != high
    requires Outranks(v, high, low) && Meeting(joined, x + sides, low, high) && life[low] == v[low] - v[x]
    ensures Swept(v, life, parent[low := high], rank, joined[x + sides := true], peaks + [Entry(low, life[low])], k,
        x, sides + 1)
  {
    hide Forest, Recorded, Ledger, Total, Meeting, JoinedUpTo, RankedBy, Outranks;
    var e := x + sides;
    NotYetJoined(parent, rank, joined, k, x, sides);
    RankOrders(v, rank, high, low);
    JoinKeepsForest(parent, rank, joined, e, low, high);
    JoinedNext(rank, joined, k, x, sides);
    RecordDeath(life, parent, peaks, low, high);
    LedgerJoin(v, parent, joined, e, low, high, |v|);
    LowerEnd(v, rank, k, x, sides);
  }

  lemma {:induction false} JoinedNext(rank: seq<nat>, joined: seq<bool>, k: nat, x: nat, sides: nat)
    requires |joined| == |rank| && JoinedUpTo(joined, rank, k, x, sides) && sides < 2
    requires 0 < x + sides < |rank| && rank[x + sides - 1] <= k && rank[x + sides] <= k
    ensures JoinedUpTo(joined[x + sides := true], rank, k, x, sides + 1)
  {
    var joined' := joined[x + sides := true];
    assert forall e :: 0 < e < |joined| ==> joined'[e] == (Between(rank, e, k) && !Pending(e, x, sides + 1));
  }

  lemma {:induction false} LowerEnd(v: seq<real>, rank: seq<nat>, k: nat, x: nat, sides: nat)
    requires RankedBy(v, rank) && x < |v| && rank[x] == k && sides < 2
    requires 0 < x + sides < |v| && rank[x + sides - 1] <= k && rank[x + sides] <= k
    ensures Lower(v[x + sides - 1], v[x + sides]) == v[x]
  {
    var other := if sides == 0 then x - 1 else x + 1;
    RankOrders(v, rank, other, x);
  }

  /** Path halving does not disturb the sweep: only who is a root matters to the records. */
  lemma {:induction false} SettlingKeepsSwept(v: seq<real>, life: seq<real>, parent: seq<nat>, parent': seq<nat>,
                                              rank: seq<nat>, joined: seq<bool>, peaks: seq<Entry>, k: nat, x: nat,
                                              sides: nat)
    requires Swept(v, life, parent, rank, joined, peaks, k, x, sides)
    requires Forest(parent', rank, joined) && |parent'| == |parent|
    requires forall i :: 0 <= i < |v| ==> (parent[i] == i <==> parent'[i] == i)
    ensures Swept(v, life, parent', rank, joined, peaks, k, x, sides)
  {
    LedgerSettled(v, parent, parent', joined, |v|);
  }

  lemma {:induction false} DeathStep(v: seq<real>, life: seq<real>, parent: seq<nat>, rank: seq<nat>,
                                     joined: seq<bool>, peaks: seq<Entry>, k: nat, x: nat, side: nat, low: nat,
                                     high: nat)
    requires Swept(v, life, parent, rank, joined, peaks, k, x, side) && side < 2 && Lives(v, life)
    requires 0 < x + side < |v| && rank[x + side - 1] <= k && rank[x + side] <= k
    requires low < |v| && high < |v| && parent[low] == low && parent[high] == high && low != high
    requires Outranks(v, high, low) && Meeting(joined, x + side, low, high)
    ensures Swept(v, life, parent[low := high], rank, joined[x + side := true], peaks + [Entry(low, v[low] - v[x])],
        k, x, side + 1)
  {
    assert life[low] == v[low] - v[x] by {
      RankOrders(v, rank, high, low);
      DeathIsPersistence(v, parent, rank, joined, k, x, side, x + side, low, high);
    }
    JoinStep(v, life, parent, rank, joined, peaks, k, x, side, low, high);
    assert Entry(low, v[low] - v[x]) == Entry(low, life[low]);
  }

  /** The two roots next to a boundary that is still open belong to different components. */
  lemma {:induction false} RootsDiffer(v: seq<real>, rank: seq<nat>, joined: seq<bool>, k: nat, x: nat, side: nat,
                                       first: nat, second: nat)
    requires RankedBy(v, rank) && |joined| == |v| && x < |v| && JoinedUpTo(joined, rank, k, x, side) && side < 2
    requires 0 < x + side < |v| && first < |v| && second < |v|
    requires Linked(joined, x, first) && Linked(joined, if side == 0 then x - 1 else x + 1, second)
    ensures first != second && Meeting(joined, x + side, first, second)
    ensures Outranks(v, first, second) || Outranks(v, second, first)
  {
    var other := if side == 0 then x - 1 else x + 1;
    assert !joined[x + side];
    LinkThrough(joined, x, first, other);
  }

  /** The roots on the two sides of a boundary that is about to be joined. */
  method Roots(v: seq<real>, parent: array<nat>, index: nat, neighbour: nat, ghost peaks: seq<Entry>,
               ghost life: seq<real>, ghost rank: seq<nat>, ghost joined: seq<bool>, ghost k: nat, ghost side: nat)
    returns (first: nat, second: nat)
    requires Swept(v, life, parent[..], rank, joined, peaks, k, index, side) && side < 2
    requires neighbour < |v| && neighbour == (if side == 0 then index - 1 else index + 1)
    modifies parent
    ensures Swept(v, life, parent[..], rank, joined, peaks, k, index, side)
    ensures first < |v| && second < |v| && parent[first] == first && parent[second] == second
    ensures first != second && Meeting(joined, index + side, first, second)
    ensures Outranks(v, first, second) || Outranks(v, second, first)
  {
    ghost var before := parent[..];
    first := Find(parent, index, rank, joined);
    second := Find(parent, neighbour, rank, joined);
    SettlingKeepsSwept(v, life, before, parent[..], rank, joined, peaks, k, index, side);
    RootsDiffer(v, rank, joined, k, index, side, first, second);
  }

  /** Joins the component of the newly active `index` with the one of its active neighbour on one side. */
  method JoinSide(v: seq<real>, parent: array<nat>, peak: seq<nat>, index: nat, neighbour: nat, peaks: seq<Entry>,
                  ghost life: seq<real>, ghost rank: seq<nat>, ghost joined: seq<bool>, ghost k: nat, ghost side: nat)
    returns (peaks': seq<Entry>)
    requires Swept(v, life, parent[..], rank, joined, peaks, k, index, side) && side < 2
    requires Lives(v, life)
    requires |peak| == |v| && forall i :: 0 <= i < |v| ==> peak[i] == i
    requires neighbour < |v| && rank[neighbour] <= k && neighbour == (if side == 0 then index - 1 else index + 1)
    modifies parent
    ensures Swept(v, life, parent[..], rank, joined[index + side := true], peaks', k, index, side + 1)
  {
    hide *;
    var first, second := Roots(v, parent, index, neighbour, peaks, life, rank, joined, k, side);
    if first == second {
      return peaks;
    }
    var low, high := second, first;
    if Outranks(v, peak[second], peak[first]) {
      low, high := first, second;
    }
    ghost var settled := parent[..];
    DeathStep(v, life, settled, rank, joined, peaks, k, index, side, low, high);
    assert Entry(peak[low], v[peak[low]] - v[index]) == Entry(low, v[low] - v[index]);
    peaks' := peaks + [Entry(peak[low], v[peak[low]] - v[index])];
    parent[low] := high;
    assert parent[..] == settled[low := high];
  }

  /** Activates one position and joins it with whichever neighbours are active already. */
  method Visit(v: seq<real>, parent: array<nat>, peak: seq<nat>, active: array<bool>, index: nat, peaks: seq<Entry>,
               ghost life: seq<real>, ghost rank: seq<nat>, ghost joined: seq<bool>, ghost k: nat)
    returns (peaks': seq<Entry>, ghost joined': seq<bool>)
    requires SweptBefore(v, life, parent[..], rank, joined, peaks, k) && Lives(v, life)
    requires |peak| == |v| && forall i :: 0 <= i < |v| ==> peak[i] == i
    requires index < |v| && rank[index] == k
    requires active.Length == |v| && forall i :: 0 <= i < |v| ==> active[i] == (rank[i] < k)
    modifies parent, active
    ensures SweptBefore(v, life, parent[..], rank, joined', peaks', k + 1)
    ensures forall i :: 0 <= i < |v| ==> active[i] == (rank[i] < k + 1)
  {
    peaks', joined' := peaks, joined;
    active[index] := true;
    VisitStarts(v, life, parent[..], rank, joined, peaks, k, index);
    for side := 0 to 2
      invariant Swept(v, life, parent[..], rank, joined', peaks', k, index, side)
      invariant forall i :: 0 <= i < |v| ==> active[i] == (rank[i] <= k)
    {
      var neighbour: int := if side == 0 then index as int - 1 else index as int + 1;
      if 0 <= neighbour < |v| && active[neighbour] {
        peaks' := JoinSide(v, parent, peak, index, neighbour, peaks', life, rank, joined', k, side);
        joined' := joined'[index + side := true];
      } else {
        VisitSkips(v, life, parent[..], rank, joined', peaks', k, index, side);
      }
    }
    VisitEnds(v, life, parent[..], rank, joined', peaks', k, index);
  }

  lemma {:induction false} AllJoined(v: seq<real>, life: seq<real>, parent: seq<nat>, rank: seq<nat>,
                                     joined: seq<bool>, peaks: seq<Entry>)
    requires SweptBefore(v, life, parent, rank, joined, peaks, |v|)
    requires forall i :: 0 <= i < |v| ==> rank[i] < |v|
    ensures forall e :: 0 < e < |v| ==> joined[e]
  {
    forall e | 0 < e < |v| ensures joined[e] {
      assert Between(rank, e, |v| - 1);
    }
  }

  /** Once every boundary is joined, the one root left is the top, and it closes the records. */
  lemma {:induction false} SweepEnd(v: seq<real>, life: seq<real>, parent: seq<nat>, rank: seq<nat>, joined: seq<bool>,
                                    peaks: seq<Entry>, top: nat)
    requires SweptBefore(v, life, parent, rank, joined, peaks, |v|) && Lives(v, life)
    requires forall e :: 0 < e < |v| ==> joined[e]
    requires top < |v| && parent[top] == top
    ensures life[top] == v[top] - MinOver(v, 0, |v| - 1)
    ensures forall i :: 0 <= i < |v| && i != top ==> parent[i] != i
    ensures Total(peaks) + life[top] == (v[0] - MinOver(v, 0, |v| - 1)) + Climb(v, |v|)
  {
    forall i | 0 <= i < |v| && i != top ensures parent[i] != i && !Outranks(v, i, top) {
      assert Linked(joined, top, i) && Linked(joined, i, top);
      RankOrders(v, rank, top, i);
    }
    PassBelowBounds(v, top, |v|);
    assert Persistence(v, top) == v[top] - MinOver(v, 0, |v| - 1);
    LedgerFull(v, parent, joined, top, |v|);
  }

  /** The closed records, in terms of the direct definition. */
  lemma {:induction false} RecordsAreComplete(v: seq<real>, life: seq<real>, parent: seq<nat>, peaks: seq<Entry>,
                                              last: Entry)
    requires |parent| == |v| && Lives(v, life) && Recorded(life, parent, peaks)
    requires last.index < |v| && parent[last.index] == last.index && last.weight == life[last.index]
    requires forall i :: 0 <= i < |v| && i != last.index ==> parent[i] != i
    ensures Complete(v, peaks + [last]) && Total(peaks + [last]) == Total(peaks) + last.weight
  {
    var all := peaks + [last];
    assert all[..|peaks|] == peaks;
    forall a | 0 <= a < |all| ensures all[a].index < |v| && all[a].weight == Persistence(v, all[a].index) {
      if a < |peaks| { assert all[a] == peaks[a]; }
    }
    forall p | 0 <= p < |v| ensures Entry(p, Persistence(v, p)) in all {
      assert life[p] == Persistence(v, p);
      if p == last.index {
        assert all[|peaks|] == Entry(p, life[p]);
      } else {
        assert Entry(p, life[p]) in peaks;
      }
    }
  }

  /** Every position once, each with its persistence. */
  ghost predicate Complete(v: seq<real>, peaks: seq<Entry>) {
    && (forall a :: 0 <= a < |peaks| ==> peaks[a].index < |v| && peaks[a].weight == Persistence(v, peaks[a].index))
    && (forall a, b :: 0 <= a < b < |peaks| ==> peaks[a].index != peaks[b].index)
    && (forall p :: 0 <= p < |v| ==> Entry(p, Persistence(v, p)) in peaks)
  }

  lemma {:induction false} SweepCloses(v: seq<real>, life: seq<real>, parent: seq<nat>, parent': seq<nat>,
                                       rank: seq<nat>, joined: seq<bool>, peaks: seq<Entry>, last: Entry)
    requires SweptBefore(v, life, parent, rank, joined, peaks, |v|) && Lives(v, life)
    requires forall i :: 0 <= i < |v| ==> rank[i] < |v|
    requires |parent'| == |v| && forall i :: 0 <= i < |v| ==> (parent[i] == i <==> parent'[i] == i)
    requires last.index < |v| && parent'[last.index] == last.index
    requires last.weight == v[last.index] - MinOver(v, 0, |v| - 1)
    ensures Complete(v, peaks + [last]) && Total(peaks + [last]) == (v[0] - MinOver(v, 0, |v| - 1)) + Climb(v, |v|)
  {
    AllJoined(v, life, parent, rank, joined, peaks);
    SweepEnd(v, life, parent, rank, joined, peaks, last.index);
    RecordsAreComplete(v, life, parent, peaks, last);
  }

  lemma {:induction false} SweepOpens(v: seq<real>, parent: seq<nat>)
    returns (life: seq<real>, rank: seq<nat>, joined: seq<bool>)
    requires |parent| == |v| && forall i :: 0 <= i < |v| ==> parent[i] == i
    ensures SweptBefore(v, life, parent, rank, joined, [], 0) && Lives(v, life)
    ensures forall i :: 0 <= i < |v| ==> rank[i] < |v|
    ensures forall k :: 0 <= k < |v| ==> VisitingOrder(v)[k].index < |v| && rank[VisitingOrder(v)[k].index] == k
  {
    rank := Ranking(v);
    life := seq(|v|, p requires 0 <= p < |v| => Persistence(v, p));
    joined := seq(|v|, _ => false);
    NothingJoined(parent, rank, joined);
    LedgerEmpty(v, parent, joined, |v|);
  }

  /**
    The sweep itself. Every point is recorded exactly once, with its persistence, and the persistences add
    up to the height of the first frame over the lowest one plus every later increase.
   */
  method Sweep(v: seq<real>) returns (peaks: seq<Entry>)
    ensures Complete(v, peaks)
    ensures v != [] ==> Total(peaks) == (v[0] - MinOver(v, 0, |v| - 1)) + Climb(v, |v|)
  {
    peaks := [];
    if v == [] {
      return;
    }
    var n := |v|;
    var parent := new nat[n](i => i);
    var peak := seq(n, i => i);
    var active := new bool[n](_ => false);
    var order := VisitingOrder(v);
    ghost var life, rank, joined := SweepOpens(v, parent[..]);
    for k := 0 to n
      invariant SweptBefore(v, life, parent[..], rank, joined, peaks, k)
      invariant forall i :: 0 <= i < n ==> active[i] == (rank[i] < k)
    {
      peaks, joined := Visit(v, parent, peak, active, order[k].index, peaks, life, rank, joined, k);
    }
    ghost var before := parent[..];
    var root := Find(parent, 0, rank, joined);
    var top := peak[root];
    var last := Entry(top, v[top] - MinOver(v, 0, n - 1));
    SweepCloses(v, life, before, parent[..], rank, joined, peaks, last);
    peaks := peaks + [last];
  }

  // ----- the report

  function Positive(peaks: seq<Entry>): (r: seq<Entry>)
    ensures forall x :: x in r <==> x in peaks && x.weight > 0.0
  {
    if peaks == [] then [] else (if peaks[0].weight > 0.0 then [peaks[0]] else []) + Positive(peaks[1..])
  }

  lemma {:induction false} PositiveDistinct(peaks: seq<Entry>)
    requires forall a, b :: 0 <= a < b < |peaks| ==> peaks[a].index != peaks[b].index
    ensures forall a, b :: 0 <= a < b < |Positive(peaks)| ==> Positive(peaks)[a].index != Positive(peaks)[b].index
  {
    if peaks != [] {
      PositiveDistinct(peaks[1..]);
      forall b | 0 <= b < |Positive(peaks[1..])| ensures Positive(peaks[1..])[b].index != peaks[0].index {
        assert Positive(peaks[1..])[b] in peaks[1..];
      }
    }
  }

  /** The points that live at all, and only those, once each: longest-lived first, then the earlier frame. */
  method Peaks(v: seq<real>) returns (result: seq<Entry>)
    ensures forall e: Entry :: e in result <==> e.index < |v| && LivesFor(v, e.index, e.weight) && e.weight > 0.0
    ensures forall a, b :: 0 <= a < b < |result| ==>
              result[a].weight > result[b].weight
              || (result[a].weight == result[b].weight && result[a].index < result[b].index)
  {
    hide LivesFor, Persistence;
    var peaks := Sweep(v);
    var kept := Positive(peaks);
    result := SortBy(kept, HIGHER_FIRST);
    PositiveDistinct(peaks);
    SortBySorted(kept, HIGHER_FIRST);
    SortByDistinct(kept, HIGHER_FIRST);
    forall x: Entry ensures x in result <==> x in peaks && x.weight > 0.0 {
      SortByMembers(kept, HIGHER_FIRST, x);
    }
    forall e: Entry | e.index < |v| && e.weight == Persistence(v, e.index) ensures e in peaks {
      assert Entry(e.index, Persistence(v, e.index)) in peaks;
      assert e == Entry(e.index, Persistence(v, e.index));
    }
    forall e: Entry | e.index < |v| ensures LivesFor(v, e.index, e.weight) <==> e.weight == Persistence(v, e.index) {
      PersistenceIsLife(v, e.index, e.weight);
    }
  }
}
