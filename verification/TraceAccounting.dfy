/**
  What a trace says about one thread: how deep its slices nest, and how much of a window is spent inside
  slices and inside waits. Times are whole nanoseconds, and a stretch of time is the set of them.
 */
module TraceAccounting {
  import opened Options
  import opened Sorting

  /** A complete event of a thread, and whether its name is that of a wait. */
  datatype Event = Event(ts: int, dur: nat, waiting: bool)

  function End(e: Event): int { e.ts + e.dur }

  /** The slices of a thread: by start, the longer first among those that start together. */
  predicate Before(a: Event, b: Event) {
    a.ts < b.ts || (a.ts == b.ts && a.dur >= b.dur)
  }

  const BY_START: (Event, Event) -> bool := (a: Event, b: Event) => Before(a, b)

  ghost predicate InOrder(s: seq<Event>) {
    forall i, j :: 0 <= i < j < |s| ==> Before(s[i], s[j])
  }

  // ----- nesting

  ghost predicate Open(s: seq<Event>, m: nat, i: nat)
    requires m < |s| && i < |s|
  {
    s[m].ts + s[m].dur > s[i].ts
  }

  /** One of the slices from j on is still open when k starts. */
  ghost predicate Continues(s: seq<Event>, j: nat, k: nat)
    requires j < k < |s|
  {
    exists m :: j <= m < k && Open(s, m, k)
  }

  /** Since j started there was never a start at which everything from j on had ended. */
  ghost predicate Holds(s: seq<Event>, j: nat, i: nat)
    requires j < i < |s|
  {
    forall k :: j < k <= i ==> Continues(s, j, k)
  }

  /** The slices that i is nested in. */
  ghost function Around(s: seq<Event>, i: nat): set<nat>
    requires i < |s|
  {
    set j: nat | j < i && Holds(s, j, i)
  }

  ghost predicate Root(s: seq<Event>, i: nat)
    requires i < |s|
  {
    Around(s, i) == {}
  }

  ghost predicate InWait(s: seq<Event>, i: nat)
    requires i < |s|
  {
    exists j :: j in Around(s, i) && s[j].waiting
  }

  lemma {:induction false} OpenHolds(s: seq<Event>, j: nat, i: nat)
    requires InOrder(s) && j < i < |s| && Open(s, j, i)
    ensures j in Around(s, i)
  {
    forall k | j < k <= i ensures Continues(s, j, k) {
      assert Open(s, j, k);
    }
  }

  /** A slice has depth 0 exactly when every earlier slice has ended by its start. */
  lemma {:induction false} RootStandsAlone(s: seq<Event>, i: nat)
    requires InOrder(s) && i < |s|
    ensures Root(s, i) <==> forall j :: 0 <= j < i ==> !Open(s, j, i)
  {
    forall j | 0 <= j < i && Open(s, j, i) ensures !Root(s, i) {
      OpenHolds(s, j, i);
      assert Around(s, i) != {};
    }
    forall j | j in Around(s, i) ensures exists m :: 0 <= m < i && Open(s, m, i) {
      assert Continues(s, j, i);
    }
  }

  /** Every two slices are apart, or the later one lies in the earlier one. */
  ghost predicate WellNested(s: seq<Event>) {
    forall j, i :: 0 <= j < i < |s| && Open(s, j, i) ==> End(s[i]) <= End(s[j])
  }

  /** In well-nested slices, exactly the open ones are around a slice. */
  lemma {:induction false} AroundIsOpen(s: seq<Event>, j: nat, i: nat)
    requires InOrder(s) && WellNested(s) && j < i < |s|
    ensures j in Around(s, i) <==> Open(s, j, i)
  {
    if Open(s, j, i) {
      OpenHolds(s, j, i);
    } else if j in Around(s, i) {
      assert Continues(s, j, i);
      var m :| j <= m < i && Open(s, m, i);
      if m > j {
        assert j in Around(s, m);
        AroundIsOpen(s, j, m);
      }
    }
  }

  // ----- the pass with the stack

  /** A slice of the trace, with what the nesting pass finds out about it. */
  class Slice {
    const event: Event
    var depth: nat
    var nested: bool

    constructor (event: Event)
      ensures this.event == event
    {
      this.event, this.depth, this.nested := event, 0, false;
    }
  }

  ghost function Events(slices: seq<Slice>): (r: seq<Event>)
    ensures |r| == |slices| && forall i :: 0 <= i < |r| ==> r[i] == slices[i].event
  {
    seq(|slices|, i requires 0 <= i < |slices| => slices[i].event)
  }

  ghost predicate Ascending(stack: seq<nat>, n: nat) {
    (forall a :: 0 <= a < |stack| ==> stack[a] < n) && forall a, b :: 0 <= a < b < |stack| ==> stack[a] < stack[b]
  }

  /** The stack before the ended slices are popped for i: every slice that held up to the one before i. */
  ghost predicate Pushed(s: seq<Event>, stack: seq<nat>, i: nat)
    requires i <= |s|
  {
    Ascending(stack, i) && forall j :: 0 <= j < i ==> (j in stack <==> j == i - 1 || Holds(s, j, i - 1))
  }

  ghost predicate Popped(s: seq<Event>, stack: seq<nat>, i: nat)
    requires i < |s|
  {
    Ascending(stack, i) && forall j :: 0 <= j < i ==> (j in stack <==> Holds(s, j, i))
  }

  /** While popping for i: a shorter stack, and whatever is off it has ended. */
  ghost predicate Popping(s: seq<Event>, full: seq<nat>, stack: seq<nat>, i: nat)
    requires i < |s|
  {
    stack <= full && forall m :: 0 <= m < i && m !in stack ==> !Open(s, m, i)
  }

  lemma {:induction false} PoppingStarts(s: seq<Event>, full: seq<nat>, i: nat)
    requires InOrder(s) && i < |s| && Pushed(s, full, i)
    ensures Popping(s, full, full, i)
  {
    forall m | 0 <= m < i && m !in full ensures !Open(s, m, i) {
      var k :| m < k <= i - 1 && !Continues(s, m, k);
      assert !Open(s, m, k);
    }
  }

  lemma {:induction false} PoppingGoesOn(s: seq<Event>, full: seq<nat>, stack: seq<nat>, i: nat)
    requires i < |s| && Ascending(full, i) && Popping(s, full, stack, i) && stack != []
    requires stack[|stack| - 1] < i && !Open(s, stack[|stack| - 1], i)
    ensures Popping(s, full, stack[..|stack| - 1], i)
  {
    var top := stack[|stack| - 1];
    forall m | 0 <= m < i && m !in stack[..|stack| - 1] ensures !Open(s, m, i) {
      assert m in stack ==> m == top;
    }
  }

  /** Popping up to an open slice leaves exactly the slices around i. */
  lemma {:induction false} PoppingEnds(s: seq<Event>, full: seq<nat>, stack: seq<nat>, i: nat)
    requires i < |s| && Pushed(s, full, i) && Popping(s, full, stack, i)
    requires stack != [] ==> stack[|stack| - 1] < i && Open(s, stack[|stack| - 1], i)
    ensures Popped(s, stack, i)
  {
    forall x | x in stack ensures x in full {
      var a :| 0 <= a < |stack| && stack[a] == x;
      assert full[a] == x;
    }
    forall j | 0 <= j < i ensures j in stack <==> Holds(s, j, i) {
      if j in stack {
        StaysOnStack(s, stack, j, i);
      } else if Holds(s, j, i) {
        NotOnStack(s, full, stack, j, i);
      }
    }
  }

  lemma {:induction false} StaysOnStack(s: seq<Event>, stack: seq<nat>, j: nat, i: nat)
    requires i < |s| && Ascending(stack, i) && j in stack && j < i && (j == i - 1 || Holds(s, j, i - 1))
    requires stack[|stack| - 1] < i && Open(s, stack[|stack| - 1], i)
    ensures Holds(s, j, i)
  {
    var a :| 0 <= a < |stack| && stack[a] == j;
    var top := stack[|stack| - 1];
    assert a < |stack| - 1 ==> j < top;
    assert j <= top < i && Open(s, top, i);
    assert Continues(s, j, i);
    forall k | j < k <= i ensures Continues(s, j, k) {
    }
  }

  lemma {:induction false} AscendingPlaces(stack: seq<nat>, n: nat, a: nat, b: nat)
    requires Ascending(stack, n) && a < |stack| && b < |stack| && stack[b] <= stack[a]
    ensures b <= a
  {
  }

  lemma {:induction false} NotOnStack(s: seq<Event>, full: seq<nat>, stack: seq<nat>, j: nat, i: nat)
    requires i < |s| && Pushed(s, full, i) && Popping(s, full, stack, i) && j < i && Holds(s, j, i)
    ensures j in stack
  {
    assert Continues(s, j, i);
    var m :| j <= m < i && Open(s, m, i);
    assert m in stack;
    assert j == i - 1 || Holds(s, j, i - 1);
    var a :| 0 <= a < |stack| && stack[a] == m;
    assert j in full;
    var b :| 0 <= b < |full| && full[b] == j;
    assert full[a] == m;
    AscendingPlaces(full, i, a, b);
    assert stack[b] == full[b];
  }

  lemma {:induction false} PushNext(s: seq<Event>, stack: seq<nat>, i: nat)
    requires i < |s| && Popped(s, stack, i)
    ensures Pushed(s, stack + [i], i + 1)
  {
    forall j | 0 <= j < i + 1 ensures j in stack + [i] <==> j == i || Holds(s, j, i) {
      assert j in stack + [i] <==> j in stack || j == i;
    }
  }

  ghost function Elements(stack: seq<nat>): (r: set<nat>)
    ensures forall x :: x in r <==> x in stack
  {
    if stack == [] then {}
    else
      assert stack == stack[..|stack| - 1] + [stack[|stack| - 1]];
      Elements(stack[..|stack| - 1]) + {stack[|stack| - 1]}
  }

  lemma {:induction false} CountAscending(stack: seq<nat>, n: nat)
    requires Ascending(stack, n)
    ensures |Elements(stack)| == |stack|
  {
    if stack != [] {
      CountAscending(stack[..|stack| - 1], n);
      assert stack[|stack| - 1] !in stack[..|stack| - 1];
    }
  }

  /** The number on the stack is the number of slices around. */
  lemma {:induction false} DepthIsAround(s: seq<Event>, stack: seq<nat>, i: nat)
    requires i < |s| && Popped(s, stack, i)
    ensures |stack| == |Around(s, i)|
  {
    CountAscending(stack, i);
    assert Elements(stack) == Around(s, i);
  }

  /** A slice is in a wait when the one right around it is a wait or in one. */
  lemma {:induction false} InWaitByTop(s: seq<Event>, stack: seq<nat>, i: nat)
    requires i < |s| && Popped(s, stack, i)
    ensures stack == [] ==> !InWait(s, i)
    ensures stack != [] ==> stack[|stack| - 1] < i
    ensures stack != [] ==> (InWait(s, i) <==> s[stack[|stack| - 1]].waiting || InWait(s, stack[|stack| - 1]))
  {
    forall j | j in Around(s, i) ensures j in stack {
    }
    if stack != [] {
      var top := stack[|stack| - 1];
      assert top in stack && top < i;
      assert top in Around(s, i);
      forall j | j in Around(s, i) && j != top ensures j in Around(s, top) {
        assert j in stack && j < top;
      }
      forall j | j in Around(s, top) ensures j in Around(s, i) {
        AroundOfAround(s, j, top, i);
      }
    }
  }

  lemma {:induction false} AroundOfAround(s: seq<Event>, j: nat, top: nat, i: nat)
    requires top < i < |s| && j in Around(s, top) && Holds(s, top, i)
    ensures j in Around(s, i)
  {
    forall k | j < k <= i ensures Continues(s, j, k) {
      if k > top {
        assert Continues(s, top, k);
        var m :| top <= m < k && Open(s, m, k);
      } else {
        assert Continues(s, j, k);
      }
    }
  }

  ghost predicate NestedAt(slices: seq<Slice>, i: nat)
    requires i < |slices|
    reads slices
  {
    slices[i].depth == |Around(Events(slices), i)| && slices[i].nested == InWait(Events(slices), i)
  }

  /** Gives every slice its depth and says whether it is in a wait. */
  method Nest(slices: seq<Slice>)
    requires InOrder(Events(slices)) && forall i, j :: 0 <= i < j < |slices| ==> slices[i] != slices[j]
    modifies slices
    ensures forall i :: 0 <= i < |slices| ==> NestedAt(slices, i)
  {
    ghost var s := Events(slices);
    var stack: seq<nat> := [];
    for i := 0 to |slices|
      invariant Pushed(s, stack, i)
      invariant forall k :: 0 <= k < i ==> NestedAt(slices, k)
    {
      label before:
      stack := PopEnded(slices, stack, i);
      DepthIsAround(s, stack, i);
      InWaitByTop(s, stack, i);
      assert stack != [] ==> NestedAt(slices, stack[|stack| - 1]);
      slices[i].depth := |stack|;
      assert forall k :: 0 <= k < i ==> slices[k] != slices[i];
      slices[i].nested := stack != [] && (slices[stack[|stack| - 1]].nested
          || slices[stack[|stack| - 1]].event.waiting);
      PushNext(s, stack, i);
      stack := stack + [i];
      forall k | 0 <= k < i + 1 ensures NestedAt(slices, k) {
        assert k < i ==> old@before(NestedAt(slices, k));
      }
    }
  }

  method PopEnded(slices: seq<Slice>, stack: seq<nat>, i: nat) returns (left: seq<nat>)
    requires i < |slices| && InOrder(Events(slices)) && Pushed(Events(slices), stack, i)
    ensures Popped(Events(slices), left, i)
  {
    left := stack;
    PoppingStarts(Events(slices), stack, i);
    while left != [] && slices[i].event.ts >= End(slices[left[|left| - 1]].event)
      invariant Popping(Events(slices), stack, left, i) && Ascending(left, i)
    {
      PoppingGoesOn(Events(slices), stack, left, i);
      left := left[..|left| - 1];
    }
    PoppingEnds(Events(slices), stack, left, i);
  }

  // ----- stretches of time

  /** The part of the trace that is reported: all of it, or what lies between two presents. */
  datatype Window = Whole | Clipped(from: int, to: int)

  function BeginIn(w: Window, e: Event): int { if w.Clipped? && w.from > e.ts then w.from else e.ts }

  function EndIn(w: Window, e: Event): int { if w.Clipped? && w.to < End(e) then w.to else End(e) }

  predicate Within(a: int, x: int, b: int) { a <= x < b }

  function Span(a: int, b: int): set<int> { set x | a <= x < b && Within(a, x, b) }

  function Length(a: int, b: int): nat { if b > a then b - a else 0 }

  lemma {:induction false} SpanLength(a: int, b: int)
    ensures |Span(a, b)| == Length(a, b)
    decreases b - a
  {
    if a < b {
      SpanLength(a, b - 1);
      assert Span(a, b) == Span(a, b - 1) + {b - 1};
    } else {
      assert Span(a, b) == {};
    }
  }

  ghost function TimeOf(w: Window, e: Event): set<int> { Span(BeginIn(w, e), EndIn(w, e)) }

  /** The time inside some chosen slice among the first n. */
  ghost function TimeIn(w: Window, s: seq<Event>, chosen: set<nat>, n: nat): set<int>
    requires n <= |s|
  {
    if n == 0 then {} else TimeIn(w, s, chosen, n - 1) + if n - 1 in chosen then TimeOf(w, s[n - 1]) else {}
  }

  lemma {:induction false} TimeInIs(w: Window, s: seq<Event>, chosen: set<nat>, n: nat)
    requires n <= |s|
    ensures forall x :: x in TimeIn(w, s, chosen, n) <==> exists i :: 0 <= i < n && i in chosen && x in TimeOf(w, s[i])
  {
    if n > 0 {
      TimeInIs(w, s, chosen, n - 1);
      forall x | x in TimeIn(w, s, chosen, n) ensures exists i :: 0 <= i < n && i in chosen && x in TimeOf(w, s[i]) {
        if x in TimeIn(w, s, chosen, n - 1) {
          var i :| 0 <= i < n - 1 && i in chosen && x in TimeOf(w, s[i]);
        } else {
          assert x in TimeOf(w, s[n - 1]);
        }
      }
    }
  }

  lemma {:induction false} CardinalsAdd(a: set<int>, b: set<int>)
    requires a * b == {}
    ensures |a + b| == |a| + |b|
  {
  }

  predicate IsIndex(s: seq<Event>, i: nat) { i < |s| }

  ghost function All(s: seq<Event>): set<nat> { set i: nat | i < |s| && IsIndex(s, i) }

  ghost function Roots(s: seq<Event>): set<nat> { set i: nat | i < |s| && Root(s, i) }

  /** The waits that are in no other wait. */
  ghost function OuterWaits(s: seq<Event>): set<nat> { set i: nat | i < |s| && s[i].waiting && !InWait(s, i) }

  ghost function Waits(s: seq<Event>): set<nat> { set i: nat | i < |s| && s[i].waiting }

  /** Roots never overlap, and neither do outer waits, however the slices lie. */
  lemma {:induction false} NoOverlap(s: seq<Event>, chosen: set<nat>, j: nat, i: nat)
    requires InOrder(s) && j < i < |s| && j in chosen && i in chosen && (chosen == Roots(s) || chosen == OuterWaits(s))
    ensures End(s[j]) <= s[i].ts
  {
    if Open(s, j, i) {
      OpenHolds(s, j, i);
      assert j in Around(s, i);
      assert chosen == OuterWaits(s) ==> InWait(s, i);
    }
  }

  /** One more slice that overlaps none of the chosen ones before adds its length. */
  lemma {:induction false} ApartAdds(w: Window, s: seq<Event>, chosen: set<nat>, i: nat)
    requires InOrder(s) && i < |s| && i in chosen && (chosen == Roots(s) || chosen == OuterWaits(s))
    ensures |TimeIn(w, s, chosen, i + 1)| == |TimeIn(w, s, chosen, i)| + Length(BeginIn(w, s[i]), EndIn(w, s[i]))
  {
    TimeInIs(w, s, chosen, i);
    forall x | x in TimeIn(w, s, chosen, i) ensures x < s[i].ts {
      var j :| 0 <= j < i && j in chosen && x in TimeOf(w, s[j]);
      NoOverlap(s, chosen, j, i);
    }
    SpanLength(BeginIn(w, s[i]), EndIn(w, s[i]));
    CardinalsAdd(TimeIn(w, s, chosen, i), TimeOf(w, s[i]));
  }

  // ----- the accounting loop

  /** What the sweep of overlapping slices knows: time before `until` is covered from each later start on. */
  ghost predicate CoveredUntil(w: Window, s: seq<Event>, i: nat, until: Option<int>)
    requires i <= |s|
  {
    var covered := TimeIn(w, s, All(s), i);
    match until
    case None => covered == {}
    case Some(t) =>
      && (forall x :: x in covered ==> x < t)
      && (forall x, k :: i <= k < |s| && BeginIn(w, s[k]) <= x < t ==> x in covered)
  }

  function From(begin: int, until: Option<int>): int {
    if until.Some? && until.value > begin then until.value else begin
  }

  function Later(until: Option<int>, end: int): Option<int> {
    if until.Some? && until.value >= end then until else Some(end)
  }

  lemma {:induction false} OneMoreOfAll(w: Window, s: seq<Event>, i: nat)
    requires i < |s|
    ensures TimeIn(w, s, All(s), i + 1) == TimeIn(w, s, All(s), i) + TimeOf(w, s[i])
  {
    assert IsIndex(s, i) && i in All(s);
  }

  /** The uncovered part of the next slice is exactly what it adds. */
  lemma {:induction false} SweepAdds(w: Window, s: seq<Event>, i: nat, until: Option<int>)
    requires InOrder(s) && i < |s| && CoveredUntil(w, s, i, until)
    ensures |TimeIn(w, s, All(s), i + 1)| == |TimeIn(w, s, All(s), i)|
        + Length(From(BeginIn(w, s[i]), until), EndIn(w, s[i]))
  {
    hide TimeIn, All, InOrder, CoveredUntil, TimeOf;
    OneMoreOfAll(w, s, i);
    NewTime(w, s, i, until);
    SpanLength(From(BeginIn(w, s[i]), until), EndIn(w, s[i]));
    CardinalsAdd(TimeIn(w, s, All(s), i), Span(From(BeginIn(w, s[i]), until), EndIn(w, s[i])));
  }

  /** What is not covered yet of the next slice. */
  lemma {:induction false} NewTime(w: Window, s: seq<Event>, i: nat, until: Option<int>)
    requires i < |s| && CoveredUntil(w, s, i, until)
    ensures var covered, added := TimeIn(w, s, All(s), i), Span(From(BeginIn(w, s[i]), until), EndIn(w, s[i]));
            covered + TimeOf(w, s[i]) == covered + added && covered * added == {}
  {
    hide TimeIn, All;
  }

  lemma {:induction false} SweepGoesOn(w: Window, s: seq<Event>, i: nat, until: Option<int>)
    requires InOrder(s) && i < |s| && CoveredUntil(w, s, i, until)
    ensures BeginIn(w, s[i]) < EndIn(w, s[i]) ==> CoveredUntil(w, s, i + 1, Later(until, EndIn(w, s[i])))
    ensures BeginIn(w, s[i]) >= EndIn(w, s[i]) ==> CoveredUntil(w, s, i + 1, until)
  {
    var covered, next := TimeIn(w, s, All(s), i), TimeIn(w, s, All(s), i + 1);
    assert next == covered + TimeOf(w, s[i]);
    if BeginIn(w, s[i]) < EndIn(w, s[i]) {
      var t := Later(until, EndIn(w, s[i])).value;
      forall x, k | i + 1 <= k < |s| && BeginIn(w, s[k]) <= x < t ensures x in next {
        assert Before(s[i], s[k]);
        assert BeginIn(w, s[i]) <= x;
      }
    } else {
      assert next == covered;
    }
  }

  /** The sums after the first i slices. */
  ghost predicate Sums(w: Window, s: seq<Event>, gpu: bool, i: nat, until: Option<int>, traced: nat, waited: nat)
    requires i <= |s|
  {
    && traced == |TimeIn(w, s, if gpu then All(s) else Roots(s), i)|
    && waited == |TimeIn(w, s, OuterWaits(s), i)|
    && (gpu ==> CoveredUntil(w, s, i, until))
  }

  lemma {:induction false} NothingSummed(w: Window, s: seq<Event>, gpu: bool)
    ensures Sums(w, s, gpu, 0, None, 0, 0)
  {
  }

  /** The time a thread spends in slices and in waits. */
  method Account(slices: seq<Slice>, w: Window, gpu: bool) returns (traced: nat, waited: nat)
    requires InOrder(Events(slices)) && forall i :: 0 <= i < |slices| ==> NestedAt(slices, i)
    ensures var s := Events(slices);
            && traced == |TimeIn(w, s, if gpu then All(s) else Roots(s), |s|)|
            && waited == |TimeIn(w, s, OuterWaits(s), |s|)|
  {
    hide TimeIn, All, Roots, OuterWaits, InOrder, CoveredUntil, Around;
    ghost var s := Events(slices);
    NothingSummed(w, s, gpu);
    traced, waited := 0, 0;
    var coveredUntil: Option<int> := None;
    for i := 0 to |slices|
      invariant Sums(w, s, gpu, i, coveredUntil, traced, waited)
    {
      assert NestedAt(slices, i);
      traced, waited, coveredUntil := AddSlice(slices[i], w, gpu, traced, waited, coveredUntil, s, i);
    }
  }

  /** One round of the loop. */
  method AddSlice(slice: Slice, w: Window, gpu: bool, traced: nat, waited: nat, coveredUntil: Option<int>,
                  ghost s: seq<Event>, ghost i: nat)
    returns (traced': nat, waited': nat, coveredUntil': Option<int>)
    requires InOrder(s) && i < |s| && Sums(w, s, gpu, i, coveredUntil, traced, waited)
    requires slice.event == s[i] && slice.depth == |Around(s, i)| && slice.nested == InWait(s, i)
    ensures Sums(w, s, gpu, i + 1, coveredUntil', traced', waited')
  {
    traced', waited', coveredUntil' := traced, waited, coveredUntil;
    var event := slice.event;
    var begin, end := BeginIn(w, event), EndIn(w, event);
    var overlap := Length(begin, end);
    if overlap > 0 {
      if slice.depth == 0 || gpu {
        var contribution := if gpu then Length(From(begin, coveredUntil), end) else overlap;
        coveredUntil' := Later(coveredUntil, end);
        traced' := traced + contribution;
      }
      if event.waiting && !slice.nested {
        waited' := waited + overlap;
      }
    }
    AddTime(w, s, i, coveredUntil, gpu, slice.depth, slice.nested);
    hide TimeIn, CoveredUntil, InOrder, Around, InWait, Roots, All, OuterWaits;
  }

  /** What one slice adds to the two sums. */
  lemma {:induction false} AddTime(w: Window, s: seq<Event>, i: nat, until: Option<int>, gpu: bool, depth: nat,
                                   nested: bool)
    requires InOrder(s) && i < |s| && depth == |Around(s, i)| && nested == InWait(s, i)
        && (gpu ==> CoveredUntil(w, s, i, until))
    ensures var begin, end, outer := BeginIn(w, s[i]), EndIn(w, s[i]), OuterWaits(s);
            && (gpu ==>
                  && |TimeIn(w, s, All(s), i + 1)| == |TimeIn(w, s, All(s), i)| + Length(From(begin, until), end)
                  && CoveredUntil(w, s, i + 1, if begin < end then Later(until, end) else until))
            && |TimeIn(w, s, Roots(s), i + 1)| == |TimeIn(w, s, Roots(s), i)|
                + (if depth == 0 then Length(begin, end) else 0)
            && |TimeIn(w, s, outer, i + 1)| == |TimeIn(w, s, outer, i)|
                + (if s[i].waiting && !nested then Length(begin, end) else 0)
  {
    if gpu {
      SweepAdds(w, s, i, until);
      SweepGoesOn(w, s, i, until);
    }
    assert i in Roots(s) <==> depth == 0;
    if i in Roots(s) { ApartAdds(w, s, Roots(s), i); }
    if i in OuterWaits(s) { ApartAdds(w, s, OuterWaits(s), i); }
  }

  // ----- what the two sums mean

  lemma {:induction false} SmallerSet(a: set<int>, b: set<int>)
    requires a <= b
    ensures |a| <= |b| && (|a| == |b| ==> a == b)
  {
    CardinalsAdd(a, b - a);
    assert a + (b - a) == b;
    if |a| == |b| { assert b - a == {}; }
  }

  lemma {:induction false} FirstIsRoot(s: seq<Event>)
    ensures s != [] ==> Root(s, 0)
  {
  }

  /** The last root up to i. */
  ghost function RootOf(s: seq<Event>, i: nat): (r: nat)
    requires i < |s|
    ensures r <= i && Root(s, r) && forall k :: r < k <= i ==> !Root(s, k)
  {
    if Root(s, i) then i
    else
      FirstIsRoot(s);
      RootOf(s, i - 1)
  }

  lemma {:induction false} RootBefore(w: Window, s: seq<Event>, q: nat, r: nat, i: nat)
    requires InOrder(s) && q < r <= i < |s| && Root(s, r)
    ensures forall x :: x in TimeOf(w, s[q]) ==> x !in TimeOf(w, s[i])
  {
    RootStandsAlone(s, r);
    assert !Open(s, q, r);
    assert s[r].ts <= s[i].ts by { assert r < i ==> Before(s[r], s[i]); }
  }

  lemma {:induction false} RootAfter(w: Window, s: seq<Event>, i: nat, q: nat)
    requires InOrder(s) && i < q < |s| && Root(s, q)
    ensures forall x :: x in TimeOf(w, s[q]) ==> x !in TimeOf(w, s[i])
  {
    RootStandsAlone(s, q);
    assert !Open(s, i, q);
  }

  /** Of all roots, only the last one up to i can share time with i. */
  lemma {:induction false} OtherRootsApart(w: Window, s: seq<Event>, i: nat, q: nat)
    requires InOrder(s) && i < |s| && q in Roots(s) && q != RootOf(s, i)
    ensures forall x :: x in TimeOf(w, s[q]) ==> x !in TimeOf(w, s[i])
  {
    if q < RootOf(s, i) {
      RootBefore(w, s, q, RootOf(s, i), i);
    } else {
      RootAfter(w, s, i, q);
    }
  }

  /** The slice ends, as far as the window shows, no later than its root. */
  ghost predicate EndsInRoot(w: Window, s: seq<Event>, i: nat)
    requires i < |s|
  {
    BeginIn(w, s[i]) >= EndIn(w, s[i]) || EndIn(w, s[i]) <= EndIn(w, s[RootOf(s, i)])
  }

  lemma {:induction false} InRootTime(w: Window, s: seq<Event>, i: nat)
    requires InOrder(s) && i < |s|
    ensures EndsInRoot(w, s, i) <==> TimeOf(w, s[i]) <= TimeIn(w, s, Roots(s), |s|)
  {
    var r := RootOf(s, i);
    TimeInIs(w, s, Roots(s), |s|);
    assert r < i ==> Before(s[r], s[i]);
    if EndsInRoot(w, s, i) {
      assert TimeOf(w, s[i]) <= TimeOf(w, s[r]);
    } else {
      var x := From(BeginIn(w, s[i]), Some(EndIn(w, s[r])));
      assert x in TimeOf(w, s[i]) && x !in TimeOf(w, s[r]);
      forall q | q in Roots(s) ensures x !in TimeOf(w, s[q]) {
        if q != r { OtherRootsApart(w, s, i, q); }
      }
    }
  }

  lemma {:induction false} ChosenInRootTime(w: Window, s: seq<Event>, chosen: set<nat>)
    requires InOrder(s) && chosen <= All(s)
    ensures TimeIn(w, s, chosen, |s|) <= TimeIn(w, s, Roots(s), |s|) <==>
        forall i :: i in chosen ==> EndsInRoot(w, s, i)
  {
    TimeInIs(w, s, chosen, |s|);
    forall i | i in chosen ensures EndsInRoot(w, s, i) <==> TimeOf(w, s[i]) <= TimeIn(w, s, Roots(s), |s|) {
      InRootTime(w, s, i);
    }
    var time := TimeIn(w, s, chosen, |s|);
    forall i | i in chosen ensures i < |s| && TimeOf(w, s[i]) <= time {
      assert i in All(s);
    }
    if forall i :: i in chosen ==> EndsInRoot(w, s, i) {
      forall x | x in time ensures x in TimeIn(w, s, Roots(s), |s|) {
        var i :| 0 <= i < |s| && i in chosen && x in TimeOf(w, s[i]);
      }
    }
  }

  lemma {:induction false} RootsAreAmongAll(s: seq<Event>)
    ensures Roots(s) <= All(s)
  {
  }

  lemma {:induction false} MoreChosen(w: Window, s: seq<Event>, a: set<nat>, b: set<nat>, n: nat)
    requires a <= b && n <= |s|
    ensures TimeIn(w, s, a, n) <= TimeIn(w, s, b, n)
  {
    if n > 0 { MoreChosen(w, s, a, b, n - 1); }
  }

  /**
    The roots never count a moment twice, and they count all traced time exactly when no slice outlasts
    its root inside the window.
   */
  lemma {:induction false} RootsCountAllTime(w: Window, s: seq<Event>)
    requires InOrder(s)
    ensures |TimeIn(w, s, Roots(s), |s|)| <= |TimeIn(w, s, All(s), |s|)|
    ensures |TimeIn(w, s, Roots(s), |s|)| == |TimeIn(w, s, All(s), |s|)| <==>
        forall i :: 0 <= i < |s| ==> EndsInRoot(w, s, i)
  {
    hide TimeIn, Roots, EndsInRoot, InOrder;
    RootsAreAmongAll(s);
    var roots, all := TimeIn(w, s, Roots(s), |s|), TimeIn(w, s, All(s), |s|);
    MoreChosen(w, s, Roots(s), All(s), |s|);
    SmallerSet(roots, all);
    ChosenInRootTime(w, s, All(s));
    if all <= roots { assert all == roots; }
    forall i: nat ensures i in All(s) <==> i < |s| {
      assert i < |s| ==> IsIndex(s, i);
    }
  }

  /** The waits of the gpu thread never exceed its traced time, nor that the window. */
  lemma {:induction false} GpuBounds(w: Window, s: seq<Event>)
    ensures |TimeIn(w, s, OuterWaits(s), |s|)| <= |TimeIn(w, s, All(s), |s|)|
    ensures w.Clipped? ==> |TimeIn(w, s, All(s), |s|)| <= Length(w.from, w.to)
  {
    hide TimeIn;
    MoreChosen(w, s, OuterWaits(s), All(s), |s|);
    SmallerSet(TimeIn(w, s, OuterWaits(s), |s|), TimeIn(w, s, All(s), |s|));
    if w.Clipped? {
      TimeInIs(w, s, All(s), |s|);
      SpanLength(w.from, w.to);
      assert TimeIn(w, s, All(s), |s|) <= Span(w.from, w.to);
      SmallerSet(TimeIn(w, s, All(s), |s|), Span(w.from, w.to));
    }
  }

  lemma {:induction false} NestedEndsInRoot(s: seq<Event>, i: nat)
    requires InOrder(s) && WellNested(s) && i < |s|
    ensures End(s[i]) <= End(s[RootOf(s, i)])
  {
    var r := RootOf(s, i);
    if r < i {
      RootStandsAlone(s, i);
      var j :| 0 <= j < i && Open(s, j, i);
      RootStandsAlone(s, r);
      assert Before(s[r], s[i]);
      assert j < r ==> !Open(s, j, r);
      assert RootOf(s, j) == r by { RootIsLast(s, r, j); }
      NestedEndsInRoot(s, j);
    }
  }

  lemma {:induction false} RootIsLast(s: seq<Event>, r: nat, j: nat)
    requires r <= j < |s| && Root(s, r) && forall k :: r < k <= j ==> !Root(s, k)
    ensures RootOf(s, j) == r
  {
  }

  lemma {:induction false} OuterWaitAround(w: Window, s: seq<Event>, i: nat) returns (o: nat)
    requires InOrder(s) && WellNested(s) && i in Waits(s)
    ensures o in OuterWaits(s) && TimeOf(w, s[i]) <= TimeOf(w, s[o])
  {
    if !InWait(s, i) {
      o := i;
    } else {
      var j :| j in Around(s, i) && s[j].waiting;
      AroundIsOpen(s, j, i);
      assert Before(s[j], s[i]);
      o := OuterWaitAround(w, s, j);
    }
  }

  /**
    For well-nested slices the sums are the time in any slice and the time in any wait, and a wait is
    always inside traced time.
   */
  lemma {:induction false} WellNestedSums(w: Window, s: seq<Event>)
    requires InOrder(s) && WellNested(s)
    ensures TimeIn(w, s, Roots(s), |s|) == TimeIn(w, s, All(s), |s|)
    ensures TimeIn(w, s, OuterWaits(s), |s|) == TimeIn(w, s, Waits(s), |s|)
    ensures WaitsEndInRoots(w, s)
  {
    forall i | i in All(s) ensures EndsInRoot(w, s, i) {
      NestedEndsInRoot(s, i);
    }
    ChosenInRootTime(w, s, All(s));
    MoreChosen(w, s, Roots(s), All(s), |s|);
    OuterWaitsAreAll(w, s);
    GpuBounds(w, s);
  }

  lemma {:induction false} OuterWaitsAreAll(w: Window, s: seq<Event>)
    requires InOrder(s) && WellNested(s)
    ensures TimeIn(w, s, OuterWaits(s), |s|) == TimeIn(w, s, Waits(s), |s|)
  {
    TimeInIs(w, s, OuterWaits(s), |s|);
    TimeInIs(w, s, Waits(s), |s|);
    MoreChosen(w, s, OuterWaits(s), Waits(s), |s|);
    forall x | x in TimeIn(w, s, Waits(s), |s|) ensures x in TimeIn(w, s, OuterWaits(s), |s|) {
      var i :| 0 <= i < |s| && i in Waits(s) && x in TimeOf(w, s[i]);
      var o := OuterWaitAround(w, s, i);
      assert x in TimeOf(w, s[o]);
    }
  }

  /**
    The waited time is part of the traced time exactly when no outermost wait outlasts its root inside the
    window. In any case their difference is the traced time outside waits less the waited time that is not traced.
   */
  lemma {:induction false} WaitsInsideTraced(w: Window, s: seq<Event>)
    requires InOrder(s)
    ensures var traced, waited := TimeIn(w, s, Roots(s), |s|), TimeIn(w, s, OuterWaits(s), |s|);
            && (waited <= traced <==> WaitsEndInRoots(w, s))
            && |traced| - |waited| == |traced - waited| - |waited - traced|
            && (WaitsEndInRoots(w, s) ==> |waited| <= |traced|)
  {
    hide TimeIn, Roots, EndsInRoot, InOrder;
    ChosenInRootTime(w, s, OuterWaits(s));
    SurplusIs(TimeIn(w, s, Roots(s), |s|), TimeIn(w, s, OuterWaits(s), |s|));
  }

  lemma {:induction false} SurplusIs(a: set<int>, b: set<int>)
    ensures |a| - |b| == |a - b| - |b - a| && (b <= a ==> |b| <= |a|)
  {
    CardinalsAdd(a - b, a * b);
    CardinalsAdd(b - a, a * b);
    assert (a - b) + a * b == a && (b - a) + a * b == b;
    if b <= a { assert b - a == {}; }
  }

  ghost predicate WaitsEndInRoots(w: Window, s: seq<Event>) {
    forall i :: i in OuterWaits(s) ==> EndsInRoot(w, s, i)
  }

  /** A wait that outlasts its root: 15 units are waited in 10 units of traced time, so the busy time is -5. */
  const STRADDLING: seq<Event> := [Event(0, 10, false), Event(5, 15, true)]

  lemma {:induction false} WaitedCanExceedTraced()
    ensures InOrder(STRADDLING) && !WaitsEndInRoots(Whole, STRADDLING)
    ensures |TimeIn(Whole, STRADDLING, Roots(STRADDLING), 2)| == 10 && |TimeIn(Whole, STRADDLING,
        OuterWaits(STRADDLING), 2)| == 15
  {
    hide WaitsEndInRoots, EndsInRoot, InWait, Around, Roots, OuterWaits;
    var s := STRADDLING;
    StraddlingRoots(s);
    assert TimeIn(Whole, s, {0}, 0) == {} == TimeIn(Whole, s, {1}, 0) == TimeIn(Whole, s, {1}, 1);
    assert TimeIn(Whole, s, {0}, 1) == Span(0, 10) == TimeIn(Whole, s, {0}, 2);
    assert TimeIn(Whole, s, {1}, 2) == Span(5, 20);
    SpanLength(0, 10);
    SpanLength(5, 20);
    WaitsInsideTraced(Whole, s);
  }

  lemma {:induction false} StraddlingRoots(s: seq<Event>)
    requires s == STRADDLING
    ensures InOrder(s) && Roots(s) == {0} && OuterWaits(s) == {1}
  {
    hide TimeIn;
    assert Open(s, 0, 1);
    OpenHolds(s, 0, 1);
    assert Around(s, 0) == {} && Around(s, 1) == {0};
  }

  // ----- frames

  /** The time between two presents. */
  datatype Frame = Frame(begin: int, end: int)

  ghost predicate Rising(starts: seq<int>) {
    forall i, j :: 0 <= i < j < |starts| ==> starts[i] <= starts[j]
  }

  function LastBound(starts: seq<int>, end: Option<int>): int {
    if end.Some? then end.value else if starts != [] then starts[|starts| - 1] else 0
  }

  /** The presents, and the end of the window when it comes after the last of them. */
  function Bounds(starts: seq<int>, end: Option<int>): (r: seq<int>)
    ensures |r| >= 1
  {
    starts + if starts == [] || LastBound(starts, end) > starts[|starts| - 1] then [LastBound(starts, end)] else []
  }

  function Frames(starts: seq<int>, end: Option<int>): (r: seq<Frame>)
    ensures FramesOf(r, starts, end)
  {
    var bounds := Bounds(starts, end);
    seq(|bounds| - 1, i requires 0 <= i < |bounds| - 1 => Frame(bounds[i], bounds[i + 1]))
  }

  /**
    The frames lie between one present and the next; there is one more, from the last present to the end of the window,
    exactly when that comes later. Without a present there is none.
   */
  ghost predicate FramesOf(frames: seq<Frame>, starts: seq<int>, end: Option<int>) {
    && (starts == [] ==> frames == [])
    && (starts != [] ==>
          var last := starts[|starts| - 1];
          && |frames| == |starts| - (if end.Some? && end.value > last then 0 else 1)
          && (forall i :: 0 <= i < |frames| ==> frames[i].begin == starts[i])
          && (forall i :: 0 <= i < |starts| - 1 ==> frames[i].end == starts[i + 1])
          && (|frames| == |starts| ==> Some(frames[|frames| - 1].end) == end))
  }

  function Durations(frames: seq<Frame>, n: nat): int
    requires n <= |frames|
  {
    if n == 0 then 0 else Durations(frames, n - 1) + (frames[n - 1].end - frames[n - 1].begin)
  }

  lemma {:induction false} FrameMeets(frames: seq<Frame>, starts: seq<int>, end: Option<int>, n: nat)
    requires FramesOf(frames, starts, end) && 0 < n < |frames|
    ensures frames[n - 1].end == frames[n].begin
  {
  }

  lemma {:induction false} DurationsAddUp(frames: seq<Frame>, starts: seq<int>, end: Option<int>, n: nat)
    requires FramesOf(frames, starts, end) && 0 < n <= |frames|
    ensures Durations(frames, n) == frames[n - 1].end - frames[0].begin
  {
    hide FramesOf;
    if n > 1 {
      DurationsAddUp(frames, starts, end, n - 1);
      FrameMeets(frames, starts, end, n - 1);
    } else {
      assert Durations(frames, 0) == 0;
    }
  }

  /** The frame a moment falls into: the last one that starts at or before it. */
  ghost function FrameAt(frames: seq<Frame>, x: int, n: nat): (i: int)
    requires n <= |frames|
    ensures -1 <= i < n
    ensures i >= 0 ==> frames[i].begin <= x
    ensures forall k :: i < k < n ==> x < frames[k].begin
  {
    if n == 0 then -1 else if frames[n - 1].begin <= x then n - 1 else FrameAt(frames, x, n - 1)
  }

  /** Every moment between the first present and the end of the last frame is in exactly one frame. */
  lemma {:induction false} FramesTile(frames: seq<Frame>, starts: seq<int>, end: Option<int>, x: int)
    returns (i: nat)
    requires Rising(starts) && FramesOf(frames, starts, end) && frames != []
    requires starts[0] <= x < frames[|frames| - 1].end
    ensures i < |frames| && frames[i].begin <= x < frames[i].end
    ensures forall k :: 0 <= k < |frames| && frames[k].begin <= x < frames[k].end ==> k == i
  {
    FramesInOrder(frames, starts, end);
    i := FrameAt(frames, x, |frames|);
    if i + 1 < |frames| { FrameMeets(frames, starts, end, i + 1); }
  }

  lemma {:induction false} FramesInOrder(frames: seq<Frame>, starts: seq<int>, end: Option<int>)
    requires Rising(starts) && FramesOf(frames, starts, end)
    ensures forall k :: 0 <= k < |frames| ==> frames[k].begin <= frames[k].end
    ensures forall a, b :: 0 <= a < b < |frames| ==> frames[a].end <= frames[b].begin
  {
  }

  /** The window of a report: from the first present to the last bound. */
  function WindowOf(frames: seq<Frame>): Window {
    if frames == [] then Whole else Clipped(frames[0].begin, frames[|frames| - 1].end)
  }

  function SpanOf(frames: seq<Frame>): int {
    if frames == [] then 0 else frames[|frames| - 1].end - frames[0].begin
  }

  // ----- the report of a thread

  method MakeSlices(events: seq<Event>) returns (slices: seq<Slice>)
    ensures Events(slices) == events && forall x :: x in slices ==> fresh(x)
    ensures forall i, j :: 0 <= i < j < |slices| ==> slices[i] != slices[j]
  {
    slices := [];
    for n := 0 to |events|
      invariant |slices| == n && forall i :: 0 <= i < n ==> slices[i].event == events[i]
      invariant forall x :: x in slices ==> fresh(x)
      invariant forall i, j :: 0 <= i < j < |slices| ==> slices[i] != slices[j]
    {
      var slice := new Slice(events[n]);
      slices := slices + [slice];
    }
  }

  /** Busy, waiting and untraced time of a thread. */
  datatype Report = Report(traced: nat, busy: int, waited: nat, untraced: nat)

  /**
    The three shares always add up to the span of the frames. None is negative on the gpu thread, and none
    is on another thread when its outermost waits end in their roots, as they do when slices are well nested.
    Otherwise the busy time is too small by the waited time that is not traced.
   */
  ghost predicate Accounted(r: Report, s: seq<Event>, gpu: bool, frames: seq<Frame>) {
    var w := WindowOf(frames);
    && r.traced == |TimeIn(w, s, if gpu then All(s) else Roots(s), |s|)|
    && r.waited == |TimeIn(w, s, OuterWaits(s), |s|)|
    && r.busy + r.waited == r.traced
    && (frames != [] ==> r.busy + r.waited + r.untraced == Durations(frames, |frames|))
    && BusyIs(r, s, gpu, w)
  }

  /** The events of a thread by start, the longer first among those that start together. */
  ghost predicate ByStart(s: seq<Event>, events: seq<Event>) {
    && multiset(s) == multiset(events)
    && forall i, j :: 0 <= i < j < |s| ==> s[i].ts < s[j].ts || (s[i].ts == s[j].ts && s[i].dur >= s[j].dur)
  }

  /** These are the moments between the first present and the end of the last frame that lie in a chosen slice. */
  ghost predicate Spent(moments: set<int>, s: seq<Event>, chosen: set<nat>, frames: seq<Frame>) {
    forall x :: x in moments <==>
      && (exists i :: 0 <= i < |s| && i in chosen && s[i].ts <= x < s[i].ts + s[i].dur)
      && (frames == [] || frames[0].begin <= x < frames[|frames| - 1].end)
  }

  /**
    The shares as measures of moments: traced are those in a slice that no earlier one is open around, or in any slice
    on the gpu thread; waited are those in a wait that lies in no other. The rest of the frames is untraced.
   */
  ghost predicate SharesAre(r: Report, s: seq<Event>, gpu: bool, frames: seq<Frame>) {
    exists traced: set<int>, waited: set<int> ::
      && Spent(traced, s, if gpu then All(s) else Roots(s), frames) && Spent(waited, s, OuterWaits(s), frames)
      && r.traced == |traced| && r.waited == |waited| && r.busy == |traced| - |waited|
      && r.traced + r.untraced
         == if frames == [] then |traced| else frames[|frames| - 1].end - frames[0].begin
  }

  ghost predicate BusyIs(r: Report, s: seq<Event>, gpu: bool, w: Window) {
    && (gpu || WaitsEndInRoots(w, s) ==> r.busy >= 0)
    && (!gpu ==> r.busy == |TimeIn(w, s, Roots(s), |s|) - TimeIn(w, s, OuterWaits(s), |s|)|
                           - |TimeIn(w, s, OuterWaits(s), |s|) - TimeIn(w, s, Roots(s), |s|)|)
    && (WellNested(s) ==> WaitsEndInRoots(w, s) && r.waited == |TimeIn(w, s, Waits(s), |s|)|)
    && (gpu || WellNested(s) ==> r.traced == |TimeIn(w, s, All(s), |s|)|)
  }

  lemma {:induction false} SortedInOrder(events: seq<Event>)
    ensures InOrder(SortBy(events, BY_START))
  {
    SortBySorted(events, BY_START);
  }

  lemma {:induction false} SortedByStart(events: seq<Event>)
    ensures InOrder(SortBy(events, BY_START)) && ByStart(SortBy(events, BY_START), events)
  {
    SortedInOrder(events);
  }

  /** The report of a thread, between the first present and the last one, or the end of the window if it is later. */
  method ReportThread(events: seq<Event>, gpu: bool, starts: seq<int>, end: Option<int>)
    returns (r: Report, ghost s: seq<Event>, ghost frames: seq<Frame>)
    requires Rising(starts)
    ensures ByStart(s, events) && FramesOf(frames, starts, end)
    ensures SharesAre(r, s, gpu, frames) && Accounted(r, s, gpu, frames)
    ensures starts != [] && frames != [] ==>
              r.traced + r.untraced
              == (if end.Some? && end.value > starts[|starts| - 1] then end.value else starts[|starts| - 1]) - starts[0]
  {
    hide TimeIn, All, Roots, OuterWaits, Accounted, SharesAre, Frames, InOrder, SpanOf, WindowOf;
    var shown := Frames(starts, end);
    var traced, waited := SumUp(events, gpu, WindowOf(shown));
    var untraced := if SpanOf(shown) > traced then SpanOf(shown) - traced else 0;
    var busy: int := traced as int - waited as int;
    r := Report(traced, busy, waited, untraced);
    s, frames := SortBy(events, BY_START), shown;
    SortedByStart(events);
    ReportAddsUp(r, s, gpu, frames, starts, end);
    if frames != [] { SpanIs(frames, starts, end); }
  }

  method SumUp(events: seq<Event>, gpu: bool, w: Window) returns (traced: nat, waited: nat)
    ensures var s := SortBy(events, BY_START);
            && traced == |TimeIn(w, s, if gpu then All(s) else Roots(s), |s|)|
            && waited == |TimeIn(w, s, OuterWaits(s), |s|)|
  {
    var s := SortBy(events, BY_START);
    SortedInOrder(events);
    var slices := MakeSlices(s);
    forall i | 0 <= i < |slices| ensures fresh(slices[i]) {
      assert slices[i] in slices;
    }
    hide TimeIn, All, Roots, OuterWaits, Around;
    Nest(slices);
    traced, waited := Account(slices, w, gpu);
  }

  lemma {:induction false} ReportAddsUp(r: Report, s: seq<Event>, gpu: bool, frames: seq<Frame>, starts: seq<int>,
                                        end: Option<int>)
    requires InOrder(s) && Rising(starts) && FramesOf(frames, starts, end)
    requires var w := WindowOf(frames);
             && r.traced == |TimeIn(w, s, if gpu then All(s) else Roots(s), |s|)|
             && r.waited == |TimeIn(w, s, OuterWaits(s), |s|)| && r.busy == r.traced - r.waited
             && r.untraced == if SpanOf(frames) > r.traced then SpanOf(frames) - r.traced else 0
    ensures Accounted(r, s, gpu, frames) && SharesAre(r, s, gpu, frames)
    ensures frames != [] ==> r.traced + r.untraced == SpanOf(frames)
  {
    hide TimeIn, All, Roots, OuterWaits, BusyIs, InOrder, Durations, FramesOf, Rising, Spent, WindowOf;
    SpanBounds(s, frames, starts, end);
    var w := WindowOf(frames);
    RootsCountAllTime(w, s);
    BusyAddsUp(r, s, gpu, w);
    TimeIsSpent(s, if gpu then All(s) else Roots(s), frames);
    TimeIsSpent(s, OuterWaits(s), frames);
  }

  lemma {:induction false} TimeIsSpent(s: seq<Event>, chosen: set<nat>, frames: seq<Frame>)
    ensures Spent(TimeIn(WindowOf(frames), s, chosen, |s|), s, chosen, frames)
  {
    hide TimeIn;
    TimeInIs(WindowOf(frames), s, chosen, |s|);
    forall x, i | 0 <= i < |s|
      ensures x in TimeOf(WindowOf(frames), s[i]) <==>
              s[i].ts <= x < s[i].ts + s[i].dur && (frames == [] || frames[0].begin <= x < frames[|frames| - 1].end)
    {
      assert x in TimeOf(WindowOf(frames), s[i])
          <==> Within(BeginIn(WindowOf(frames), s[i]), x, EndIn(WindowOf(frames), s[i]));
    }
  }

  lemma {:induction false} SpanIs(frames: seq<Frame>, starts: seq<int>, end: Option<int>)
    requires FramesOf(frames, starts, end) && frames != []
    ensures SpanOf(frames)
        == (if end.Some? && end.value > starts[|starts| - 1] then end.value else starts[|starts| - 1]) - starts[0]
  {
  }

  lemma {:induction false} BusyAddsUp(r: Report, s: seq<Event>, gpu: bool, w: Window)
    requires InOrder(s)
    requires r.traced == |TimeIn(w, s, if gpu then All(s) else Roots(s), |s|)|
    requires r.waited == |TimeIn(w, s, OuterWaits(s), |s|)| && r.busy == r.traced - r.waited
    ensures BusyIs(r, s, gpu, w)
  {
    hide TimeIn, All, Roots, OuterWaits, Waits, WaitsEndInRoots, WellNested, InOrder;
    GpuBounds(w, s);
    WaitsInsideTraced(w, s);
    if WellNested(s) { WellNestedSums(w, s); }
  }

  lemma {:induction false} SpanBounds(s: seq<Event>, frames: seq<Frame>, starts: seq<int>, end: Option<int>)
    requires Rising(starts) && FramesOf(frames, starts, end)
    ensures var w := WindowOf(frames);
            && (frames != [] ==> |TimeIn(w, s, All(s), |s|)| <= SpanOf(frames) == Durations(frames, |frames|))
            && |TimeIn(w, s, OuterWaits(s), |s|)| <= |TimeIn(w, s, All(s), |s|)|
  {
    hide TimeIn, All, OuterWaits, Durations;
    GpuBounds(WindowOf(frames), s);
    if frames != [] {
      DurationsAddUp(frames, starts, end, |frames|);
      FramesInOrder(frames, starts, end);
    }
  }
}
