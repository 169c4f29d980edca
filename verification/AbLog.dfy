/**
  Reading the log of an in-run A/B comparison: which reports belong to which phase. A report counts only
  when the phase had settled both at that report and at the one of its kind before it.
 */
module AbLog {
  import opened Options
  import Lists

  /** A present and a time. */
  datatype Point = Point(present: int, seconds: real)

  /** A line of the log; a report line may carry numbers that cannot be read. */
  datatype Line =
    | Run(config: string)
    | Begins(phase: string, index: nat, at: Point)
    | Settles(phase: string, index: nat, at: Point)
    | Report(kind: nat, parsed: Option<string>)
    | Other

  /** A phase of the log. Its fields are filled in as the log is read. */
  class Phase {
    const kind: string
    const index: nat
    const begin: Point
    var settled: Option<Point>
    var end: Option<Point>
    var reports: seq<nat>

    constructor (kind: string, index: nat, begin: Point)
      ensures this.kind == kind && this.index == index && this.begin == begin
      ensures settled == None && end == None && reports == []
    {
      this.kind, this.index, this.begin := kind, index, begin;
      settled, end, reports := None, None, [];
    }
  }

  datatype Error = SecondRun | IndexRestarts | BeganEarly | SettledTwice | SettledEarly

  // ----- what a log says

  function Before(a: Point, b: Point): bool { a.present <= b.present && a.seconds <= b.seconds }

  /** The line that began the phase that is current at a line, if one has begun. */
  function CurrentAt(lines: seq<Line>, n: nat): (r: Option<nat>)
    requires n <= |lines|
    ensures r.Some? ==> r.value < n && lines[r.value].Begins?
  {
    if n == 0 then None else if lines[n - 1].Begins? then Some(n - 1) else CurrentAt(lines, n - 1)
  }

  predicate SettlesFor(line: Line, begin: Line)
    requires begin.Begins?
  {
    line.Settles? && line.index == begin.index && line.phase == begin.phase
  }

  /** The line that settled the current phase, if it has settled. */
  function SettledAt(lines: seq<Line>, n: nat): (r: Option<nat>)
    requires n <= |lines|
    ensures r.Some? ==> CurrentAt(lines, n).Some? && CurrentAt(lines, n).value < r.value < n
    ensures r.Some? ==> SettlesFor(lines[r.value], lines[CurrentAt(lines, n).value])
  {
    if n == 0 || lines[n - 1].Begins? then None
    else
      var current := CurrentAt(lines, n - 1);
      if SettledAt(lines, n - 1).Some? then SettledAt(lines, n - 1)
      else if current.Some? && SettlesFor(lines[n - 1], lines[current.value]) then Some(n - 1)
      else None
  }

  /** The last report of a kind before a line. */
  function PreviousReport(lines: seq<Line>, kind: nat, n: nat): (r: Option<nat>)
    requires n <= |lines|
    ensures r.Some? ==> r.value < n && lines[r.value].Report? && lines[r.value].kind == kind
  {
    if n == 0 then None
    else if lines[n - 1].Report? && lines[n - 1].kind == kind then Some(n - 1)
    else PreviousReport(lines, kind, n - 1)
  }

  /** The phase that began at line b is current at line n and has settled. */
  predicate SettledIn(lines: seq<Line>, b: nat, n: nat)
    requires n <= |lines|
  {
    CurrentAt(lines, n) == Some(b) && SettledAt(lines, n).Some?
  }

  /** The report at line n counts for the phase that began at line b. */
  predicate Counts(lines: seq<Line>, b: nat, n: nat)
    requires n < |lines|
  {
    && lines[n].Report? && lines[n].parsed.Some? && SettledIn(lines, b, n)
    && PreviousReport(lines, lines[n].kind, n).Some? && SettledIn(lines, b,
        PreviousReport(lines, lines[n].kind, n).value)
  }

  /** The lines of the reports that count for a phase among the first n. */
  function Counted(lines: seq<Line>, b: nat, n: nat): seq<nat>
    requires n <= |lines|
  {
    if n == 0 then [] else Counted(lines, b, n - 1) + if Counts(lines, b, n - 1) then [n - 1] else []
  }

  /** The lines at which phases begin among the first n. */
  function Beginnings(lines: seq<Line>, n: nat): (r: seq<nat>)
    requires n <= |lines|
    ensures forall i :: 0 <= i < |r| ==> r[i] < n && lines[r[i]].Begins?
  {
    if n == 0 then [] else Beginnings(lines, n - 1) + if lines[n - 1].Begins? then [n - 1] else []
  }

  /** The boundary that a new one must not come before: where the current phase settled, or where it began. */
  function LastBoundary(lines: seq<Line>, n: nat): Option<Point>
    requires n <= |lines|
  {
    if SettledAt(lines, n).Some? then Some(lines[SettledAt(lines, n).value].at)
    else if CurrentAt(lines, n).Some? then Some(lines[CurrentAt(lines, n).value].at)
    else None
  }

  /** What is wrong with a line, given what came before it. */
  function Fault(lines: seq<Line>, n: nat): Option<Error>
    requires n < |lines|
  {
    var current := CurrentAt(lines, n);
    match lines[n]
    case Run(_) => if current.Some? || exists i :: 0 <= i < n && lines[i].Run? then Some(SecondRun) else None
    case Begins(_, index, at) =>
      if current.Some? && index <= lines[current.value].index then Some(IndexRestarts)
      else if current.Some? && !Before(LastBoundary(lines, n).value, at) then Some(BeganEarly)
      else None
    case Settles(_, _, at) =>
      if current.None? || !SettlesFor(lines[n], lines[current.value]) then None
      else if SettledAt(lines, n).Some? then Some(SettledTwice)
      else if !Before(lines[current.value].at, at) then Some(SettledEarly)
      else None
    case _ => None
  }

  ghost predicate Accepted(lines: seq<Line>, n: nat)
    requires n <= |lines|
  {
    forall i :: 0 <= i < n ==> Fault(lines, i).None?
  }

  // ----- what holds of an accepted log

  /** Where the next phase begins, if there is one among the first n lines. */
  function NextBegin(lines: seq<Line>, b: nat, n: nat): Option<nat>
    requires b < n <= |lines|
    decreases n
  {
    if n == b + 1 then None
    else
      var earlier := NextBegin(lines, b, n - 1);
      if earlier.Some? then earlier else if lines[n - 1].Begins? then Some(n - 1) else None
  }

  lemma {:induction false} CurrentIndexGrows(lines: seq<Line>, b: nat, n: nat)
    requires b < n <= |lines| && lines[b].Begins? && Accepted(lines, n)
    ensures CurrentAt(lines, n).Some? && CurrentAt(lines, n).value >= b
    ensures lines[CurrentAt(lines, n).value].index >= lines[b].index
    ensures CurrentAt(lines, n).value > b ==> lines[CurrentAt(lines, n).value].index > lines[b].index
  {
    if n > b + 1 {
      CurrentIndexGrows(lines, b, n - 1);
      assert Fault(lines, n - 1).None?;
    }
  }

  lemma {:induction false} CountedMembers(lines: seq<Line>, b: nat, n: nat)
    requires n <= |lines|
    ensures forall i: nat :: i in Counted(lines, b, n) <==> i < n && Counts(lines, b, i)
    ensures forall i, j :: 0 <= i < j < |Counted(lines, b, n)| ==> Counted(lines, b, n)[i] < Counted(lines, b, n)[j]
  {
    hide Counts;
    if n > 0 {
      CountedMembers(lines, b, n - 1);
      var init := Counted(lines, b, n - 1);
      forall i | 0 <= i < |init| ensures init[i] < n - 1 { assert init[i] in init; }
    }
  }

  // ----- reading the log

  /** Where a phase settled, if it did among the first n lines. */
  function SettleOf(lines: seq<Line>, b: nat, n: nat): Option<nat>
    requires b < n <= |lines| && lines[b].Begins?
    decreases n
  {
    if n == b + 1 then None
    else
      var earlier := SettleOf(lines, b, n - 1);
      if earlier.Some? then earlier
      else if CurrentAt(lines, n - 1) == Some(b) && SettlesFor(lines[n - 1], lines[b]) then Some(n - 1)
      else None
  }

  lemma {:induction false} SettleOfCurrent(lines: seq<Line>, b: nat, n: nat)
    requires b < n <= |lines| && lines[b].Begins? && CurrentAt(lines, n) == Some(b)
    ensures SettledAt(lines, n) == SettleOf(lines, b, n)
  {
    if n > b + 1 { SettleOfCurrent(lines, b, n - 1); }
  }

  function PointAt(lines: seq<Line>, i: Option<nat>): Option<Point>
    requires i.Some? ==> i.value < |lines| && (lines[i.value].Begins? || lines[i.value].Settles?)
  {
    if i.Some? then Some(lines[i.value].at) else None
  }

  lemma {:induction false} NextBeginBegins(lines: seq<Line>, b: nat, n: nat)
    requires b < n <= |lines|
    ensures NextBegin(lines, b, n).Some? ==>
        NextBegin(lines, b, n).value < n && lines[NextBegin(lines, b, n).value].Begins?
  {
    if n > b + 1 { NextBeginBegins(lines, b, n - 1); }
  }

  lemma {:induction false} SettleOfSettles(lines: seq<Line>, b: nat, n: nat)
    requires b < n <= |lines| && lines[b].Begins?
    ensures SettleOf(lines, b, n).Some? ==>
        SettleOf(lines, b, n).value < n && lines[SettleOf(lines, b, n).value].Settles?
  {
    if n > b + 1 { SettleOfSettles(lines, b, n - 1); }
  }

  /** A phase as the first n lines describe it: where it begins, settles and ends, and the reports that count for it. */
  datatype Summary = Summary(kind: string, index: nat, begin: Point, settled: Option<Point>, end: Option<Point>,
      reports: seq<nat>)

  function Told(lines: seq<Line>, b: nat, n: nat): Summary
    requires b < n <= |lines| && lines[b].Begins?
  {
    NextBeginBegins(lines, b, n);
    SettleOfSettles(lines, b, n);
    Summary(lines[b].phase, lines[b].index, lines[b].at, PointAt(lines, SettleOf(lines, b, n)),
        PointAt(lines, NextBegin(lines, b, n)),
            Counted(lines, b, n))
  }

  ghost function Fields(p: Phase): Summary
    reads p
  {
    Summary(p.kind, p.index, p.begin, p.settled, p.end, p.reports)
  }

  ghost function Summaries(phases: seq<Phase>): (r: seq<Summary>)
    reads phases
    ensures |r| == |phases| && forall i :: 0 <= i < |r| ==> r[i] == Fields(phases[i])
  {
    seq(|phases|, i requires 0 <= i < |phases| reads phases => Fields(phases[i]))
  }

  /** What a report line leaves behind for the next one of its kind. */
  datatype State = State(index: nat, settled: bool)

  function StateAt(lines: seq<Line>, n: nat): Option<State>
    requires n <= |lines|
  {
    var current := CurrentAt(lines, n);
    if current.None? then None else Some(State(lines[current.value].index, SettledAt(lines, n).Some?))
  }

  function PreviousState(lines: seq<Line>, kind: nat, n: nat): Option<State>
    requires n <= |lines|
  {
    var p := PreviousReport(lines, kind, n);
    if p.None? then None else StateAt(lines, p.value)
  }

  lemma {:induction false} CurrentBefore(lines: seq<Line>, b: nat, p: nat, n: nat)
    requires p <= n <= |lines| && CurrentAt(lines, n) == Some(b) && b < p
    ensures CurrentAt(lines, p) == Some(b)
  {
    if p < n { CurrentBefore(lines, b, p, n - 1); }
  }

  /** The comparison of states finds exactly the reports that count. */
  lemma {:induction false} StatesDecide(lines: seq<Line>, n: nat)
    requires n < |lines| && Accepted(lines, n) && lines[n].Report?
    ensures var state := StateAt(lines, n);
            (lines[n].parsed.Some? && state.Some? && state.value.settled
                && PreviousState(lines, lines[n].kind, n) == state)
            <==> CurrentAt(lines, n).Some? && Counts(lines, CurrentAt(lines, n).value, n)
  {
    var p := PreviousReport(lines, lines[n].kind, n);
    if CurrentAt(lines, n).Some? && p.Some? && CurrentAt(lines, p.value).Some? {
      var b, c := CurrentAt(lines, n).value, CurrentAt(lines, p.value).value;
      assert Accepted(lines, n);
      CurrentIndexGrows(lines, c, n);
      assert b > c ==> lines[b].index > lines[c].index;
    }
  }

  /** A line changes nothing about a phase that is not current. */
  lemma {:induction false} OthersStay(lines: seq<Line>, b: nat, n: nat)
    requires b < n < |lines| && lines[b].Begins? && CurrentAt(lines, n) != Some(b)
    ensures Told(lines, b, n + 1) == Told(lines, b, n)
  {
    EndedOnce(lines, b, n);
  }

  lemma {:induction false} EndedOnce(lines: seq<Line>, b: nat, n: nat)
    requires b < n <= |lines| && lines[b].Begins? && CurrentAt(lines, n) != Some(b)
    ensures NextBegin(lines, b, n).Some?
  {
    if n > b + 1 && !lines[n - 1].Begins? { EndedOnce(lines, b, n - 1); }
  }

  lemma {:induction false} NotEnded(lines: seq<Line>, b: nat, n: nat)
    requires b < n <= |lines| && CurrentAt(lines, n) == Some(b)
    ensures NextBegin(lines, b, n).None?
  {
    if n > b + 1 { NotEnded(lines, b, n - 1); }
  }

  lemma {:induction false} BeginningsAre(lines: seq<Line>, n: nat)
    requires n <= |lines|
    ensures CurrentAt(lines, n).None? <==> Beginnings(lines, n) == []
    ensures CurrentAt(lines, n).Some? ==>
              CurrentAt(lines, n).value == Beginnings(lines, n)[|Beginnings(lines, n)| - 1]
    ensures forall i, j :: 0 <= i < j < |Beginnings(lines, n)| ==> Beginnings(lines, n)[i] < Beginnings(lines, n)[j]
  {
    if n > 0 { BeginningsAre(lines, n - 1); }
  }

  // ----- what one line adds

  lemma {:induction false} NewlyTold(lines: seq<Line>, n: nat)
    requires n < |lines| && lines[n].Begins?
    ensures Told(lines, n, n + 1) == Summary(lines[n].phase, lines[n].index, lines[n].at, None, None, [])
  {
    NothingCounted(lines, n, n + 1);
  }

  lemma {:induction false} NothingCounted(lines: seq<Line>, b: nat, n: nat)
    requires n <= |lines| && n <= b + 1
    ensures Counted(lines, b, n) == []
  {
    if n > 0 { NothingCounted(lines, b, n - 1); }
  }

  lemma {:induction false} BeginToldTo(lines: seq<Line>, n: nat, b: nat)
    requires b < n < |lines| && lines[n].Begins? && lines[b].Begins?
    ensures Told(lines, b, n + 1) == if CurrentAt(lines, n) == Some(b)
        then Told(lines, b, n).(end := Some(lines[n].at)) else Told(lines, b, n)
  {
    if CurrentAt(lines, n) == Some(b) { NotEnded(lines, b, n); } else { OthersStay(lines, b, n); }
  }

  lemma {:induction false} SettleToldTo(lines: seq<Line>, n: nat, b: nat)
    requires b < n < |lines| && lines[n].Settles? && lines[b].Begins? && Fault(lines, n).None?
    ensures Told(lines, b, n + 1)
            == if CurrentAt(lines, n) == Some(b) && SettlesFor(lines[n], lines[b])
                then Told(lines, b, n).(settled := Some(lines[n].at))
               else Told(lines, b, n)
  {
    if CurrentAt(lines, n) == Some(b) {
      NotEnded(lines, b, n);
      SettleOfCurrent(lines, b, n);
    } else {
      OthersStay(lines, b, n);
    }
  }

  lemma {:induction false} ReportToldTo(lines: seq<Line>, n: nat, b: nat)
    requires b < n < |lines| && lines[n].Report? && lines[b].Begins?
    ensures Told(lines, b, n + 1)
            == if Counts(lines, b, n) then
                Told(lines, b, n).(reports := Told(lines, b, n).reports + [n]) else Told(lines, b, n)
  {
    if CurrentAt(lines, n) == Some(b) { NotEnded(lines, b, n); } else { OthersStay(lines, b, n); }
  }

  lemma {:induction false} PlainToldTo(lines: seq<Line>, n: nat, b: nat)
    requires b < n < |lines| && (lines[n].Run? || lines[n].Other?) && lines[b].Begins?
    ensures Told(lines, b, n + 1) == Told(lines, b, n)
  {
    if CurrentAt(lines, n) == Some(b) { NotEnded(lines, b, n); } else { OthersStay(lines, b, n); }
  }

  lemma {:induction false} PreviousStays(lines: seq<Line>, n: nat)
    requires n < |lines| && !lines[n].Report?
    ensures forall kind: nat :: PreviousState(lines, kind, n + 1) == PreviousState(lines, kind, n)
  {
  }

  /** The summaries are those of the phases that have begun, in order. */
  ghost predicate AllTold(lines: seq<Line>, n: nat, told: seq<Summary>)
    requires n <= |lines|
  {
    |told| == |Beginnings(lines, n)| && forall i ::
        0 <= i < |told| ==> told[i] == Told(lines, Beginnings(lines, n)[i], n)
  }

  ghost predicate Remembers(lines: seq<Line>, n: nat, previous: map<nat, Option<State>>)
    requires n <= |lines|
  {
    forall kind: nat :: (if kind in previous then previous[kind] else None) == PreviousState(lines, kind, n)
  }

  /** The configuration is that of a line among the first n, or none of them has one. */
  ghost predicate RunSeen(lines: seq<Line>, n: nat, config: Option<string>)
    requires n <= |lines|
  {
    if config.Some? then exists i :: 0 <= i < n && lines[i] == Run(config.value)
    else forall i :: 0 <= i < n ==> !lines[i].Run?
  }

  lemma {:induction false} RunSeenNext(lines: seq<Line>, n: nat, config: Option<string>)
    requires n < |lines| && RunSeen(lines, n, config)
    ensures RunSeen(lines, n + 1, if lines[n].Run? then Some(lines[n].config) else config)
  {
    if lines[n].Run? {
      assert lines[n] == Run(lines[n].config);
    } else if config.Some? {
      var i :| 0 <= i < n && lines[i] == Run(config.value);
    }
  }

  lemma {:induction false} RememberedStill(lines: seq<Line>, n: nat, previous: map<nat, Option<State>>)
    requires n < |lines| && !lines[n].Report? && Remembers(lines, n, previous)
    ensures Remembers(lines, n + 1, previous)
  {
    PreviousStays(lines, n);
  }

  lemma {:induction false} RememberedNow(lines: seq<Line>, n: nat, previous: map<nat, Option<State>>)
    requires n < |lines| && lines[n].Report? && Remembers(lines, n, previous)
    ensures Remembers(lines, n + 1, previous[lines[n].kind := StateAt(lines, n)])
    ensures (lines[n].kind in previous && previous[lines[n].kind] == StateAt(lines, n) && StateAt(lines, n).Some?)
            <==> (PreviousState(lines, lines[n].kind, n) == StateAt(lines, n) && StateAt(lines, n).Some?)
  {
    forall kind: nat | kind != lines[n].kind ensures PreviousState(lines, kind, n + 1)
        == PreviousState(lines, kind, n) {
    }
  }

  /** The last summary is the current phase's. */
  lemma {:induction false} LastIsCurrent(lines: seq<Line>, n: nat, told: seq<Summary>)
    requires n <= |lines| && AllTold(lines, n, told)
    ensures told == [] <==> CurrentAt(lines, n).None?
    ensures told != [] ==> told[|told| - 1] == Told(lines, CurrentAt(lines, n).value, n)
    ensures told != [] && |told| == |Beginnings(lines, n)| ==>
        CurrentAt(lines, n) == Some(Beginnings(lines, n)[|told| - 1])
    ensures |told| == |Beginnings(lines, n)| && forall i ::
        0 <= i < |told| ==> told[i] == Told(lines, Beginnings(lines, n)[i], n)
    ensures forall i :: 0 <= i < |told| - 1 ==> CurrentAt(lines, n) != Some(Beginnings(lines, n)[i])
  {
    BeginningsAre(lines, n);
  }

  lemma {:induction false} BeginTold(lines: seq<Line>, n: nat, told: seq<Summary>)
    requires n < |lines| && lines[n].Begins? && AllTold(lines, n, told)
    ensures var ended := if told == [] then [] else told[|told| - 1 := told[|told| - 1].(end := Some(lines[n].at))];
            AllTold(lines, n + 1, ended + [Summary(lines[n].phase, lines[n].index, lines[n].at, None, None, [])])
  {
    hide Told, CurrentAt;
    LastIsCurrent(lines, n, told);
    BeginningsAre(lines, n);
    NewlyTold(lines, n);
    assert Beginnings(lines, n + 1) == Beginnings(lines, n) + [n];
    forall i | 0 <= i < |told|
      ensures Told(lines, Beginnings(lines, n)[i], n + 1) == if i == |told| - 1
          then told[i].(end := Some(lines[n].at)) else told[i]
    {
      BeginToldTo(lines, n, Beginnings(lines, n)[i]);
    }
  }

  lemma {:induction false} SettleTold(lines: seq<Line>, n: nat, told: seq<Summary>)
    requires n < |lines| && lines[n].Settles? && Fault(lines, n).None? && AllTold(lines, n, told)
    ensures AllTold(lines, n + 1,
              if told != [] && told[|told| - 1].index == lines[n].index && told[|told| - 1].kind == lines[n].phase
              then told[|told| - 1 := told[|told| - 1].(settled := Some(lines[n].at))] else told)
  {
    hide AllTold, Beginnings, CurrentAt, Fault;
    LastIsCurrent(lines, n, told);
    BeginningsAre(lines, n);
    var settles := told != [] && told[|told| - 1].index == lines[n].index && told[|told| - 1].kind == lines[n].phase;
    forall i | 0 <= i < |told|
      ensures Told(lines, Beginnings(lines, n)[i], n + 1)
              == if i == |told| - 1 && settles then told[i].(settled := Some(lines[n].at)) else told[i]
    {
      SettleToldTo(lines, n, Beginnings(lines, n)[i]);
    }
    AllToldNext(lines, n, told, if settles then
        told[|told| - 1 := told[|told| - 1].(settled := Some(lines[n].at))] else told);
  }

  /** A line that begins no phase leaves as many summaries. */
  lemma {:induction false} AllToldNext(lines: seq<Line>, n: nat, told: seq<Summary>, told': seq<Summary>)
    requires n < |lines| && !lines[n].Begins? && |told'| == |told| == |Beginnings(lines, n)|
    requires forall i :: 0 <= i < |told| ==> Told(lines, Beginnings(lines, n)[i], n + 1) == told'[i]
    ensures AllTold(lines, n + 1, told')
  {
    hide Told;
    assert Beginnings(lines, n + 1) == Beginnings(lines, n);
  }

  lemma {:induction false} StateTold(lines: seq<Line>, n: nat, told: seq<Summary>)
    requires n <= |lines| && AllTold(lines, n, told)
    ensures (if told == [] then None else Some(State(told[|told| - 1].index, told[|told| - 1].settled.Some?)))
        == StateAt(lines, n)
  {
    LastIsCurrent(lines, n, told);
    if told != [] { SettleOfCurrent(lines, CurrentAt(lines, n).value, n); }
  }

  lemma {:induction false} ReportTold(lines: seq<Line>, n: nat, told: seq<Summary>)
    requires n < |lines| && lines[n].Report? && Accepted(lines, n) && AllTold(lines, n, told)
    ensures (if told == [] then None else Some(State(told[|told| - 1].index, told[|told| - 1].settled.Some?)))
        == StateAt(lines, n)
    ensures AllTold(lines, n + 1,
              if told != [] && lines[n].parsed.Some? && StateAt(lines, n).value.settled
                 && PreviousState(lines, lines[n].kind, n) == StateAt(lines, n)
              then told[|told| - 1 := told[|told| - 1].(reports := told[|told| - 1].reports + [n])] else told)
  {
    hide AllTold, Beginnings, Told, CurrentAt, StateAt, PreviousState, Accepted;
    StateTold(lines, n, told);
    LastIsCurrent(lines, n, told);
    StatesDecide(lines, n);
    var counts := told != [] && Counts(lines, CurrentAt(lines, n).value, n);
    forall i | 0 <= i < |told|
      ensures Told(lines, Beginnings(lines, n)[i], n + 1)
              == if i == |told| - 1 && counts then told[i].(reports := told[i].reports + [n]) else told[i]
    {
      BeginningsAre(lines, n);
      ReportToldTo(lines, n, Beginnings(lines, n)[i]);
    }
    AllToldNext(lines, n, told, if counts then
        told[|told| - 1 := told[|told| - 1].(reports := told[|told| - 1].reports + [n])] else told);
  }

  lemma {:induction false} PlainTold(lines: seq<Line>, n: nat, told: seq<Summary>)
    requires n < |lines| && (lines[n].Run? || lines[n].Other?) && AllTold(lines, n, told)
    ensures AllTold(lines, n + 1, told)
  {
    forall i | 0 <= i < |told| ensures Told(lines, Beginnings(lines, n)[i], n + 1) == told[i] {
      PlainToldTo(lines, n, Beginnings(lines, n)[i]);
    }
  }

  /** The reader's state while it goes through the log. */
  class LogReader {
    var config: Option<string>
    var phases: seq<Phase>
    var previous: map<nat, Option<State>>

    constructor ()
      ensures config == None && phases == [] && previous == map[]
    {
      config, phases, previous := None, [], map[];
    }

    /** The state is what the first n lines say. */
    ghost predicate Reads(lines: seq<Line>, n: nat)
      reads this, phases
    {
      && n <= |lines| && Lists.Distinct(phases) && AllTold(lines, n, Summaries(phases))
      && RunSeen(lines, n, config) && Remembers(lines, n, previous)
    }

    lemma {:induction false} ReadsNothing(lines: seq<Line>)
      requires config == None && phases == [] && previous == map[]
      ensures Reads(lines, 0) && Accepted(lines, 0)
    {
    }

    /** The current phase is the last. */
    ghost predicate KnowsCurrent(lines: seq<Line>, n: nat)
      requires n <= |lines|
      reads this, phases
    {
      if phases == [] then CurrentAt(lines, n).None? && SettledAt(lines, n).None?
      else
        var p := phases[|phases| - 1];
        && CurrentAt(lines, n).Some? && Fields(p) == Told(lines, CurrentAt(lines, n).value, n)
        && (p.settled.Some? <==> SettledAt(lines, n).Some?) && p.end == None
        && (p.settled.Some? ==> p.settled.value == lines[SettledAt(lines, n).value].at)
    }

    lemma {:induction false} CurrentIsLast(lines: seq<Line>, n: nat)
      requires Reads(lines, n)
      ensures KnowsCurrent(lines, n)
    {
      BeginningsAre(lines, n);
      if phases != [] {
        SettleOfCurrent(lines, CurrentAt(lines, n).value, n);
        NotEnded(lines, CurrentAt(lines, n).value, n);
      }
    }

    /** At the end of the log the phases are those of the log. */
    lemma {:induction false} ReadsAll(lines: seq<Line>)
      requires Reads(lines, |lines|)
      ensures var begins := Beginnings(lines, |lines|);
              AllBegin(lines, begins) && PhasesAre(lines, begins, phases) && RunSeen(lines, |lines|, config)
    {
      hide PhaseIs, Told;
      var begins := Beginnings(lines, |lines|);
      BeginningsAre(lines, |lines|);
      BeginningsBegin(lines, |lines|);
      forall i | 0 <= i < |begins| ensures PhaseIs(lines, begins[i], Fields(phases[i])) {
        ToldIs(lines, begins[i]);
        assert Summaries(phases)[i] == Fields(phases[i]);
      }
    }

    /** What is wrong with the next line, as the reader sees it. */
    method Judge(lines: seq<Line>, n: nat) returns (fault: Option<Error>)
      requires n < |lines| && Reads(lines, n)
      ensures fault == Fault(lines, n)
    {
      CurrentIsLast(lines, n);
      match lines[n]
      case Run(_) =>
        fault := if config.Some? || phases != [] then Some(SecondRun) else None;
      case Begins(_, index, at) =>
        if phases == [] {
          return None;
        }
        var current := phases[|phases| - 1];
        if index <= current.index {
          return Some(IndexRestarts);
        }
        var boundary := if current.settled.Some? then current.settled.value else current.begin;
        fault := if Before(boundary, at) then None else Some(BeganEarly);
      case Settles(phase, index, at) =>
        if phases == [] {
          return None;
        }
        var current := phases[|phases| - 1];
        if current.index != index || current.kind != phase {
          return None;
        }
        if current.settled.Some? {
          return Some(SettledTwice);
        }
        fault := if Before(current.begin, at) then None else Some(SettledEarly);
      case _ =>
        fault := None;
    }

    /** Rewriting the last phase rewrites the last summary. */
    twostate lemma LastRewritten()
      requires old(Lists.Distinct(phases)) && phases == old(phases) && phases != []
      requires forall i :: 0 <= i < |phases| - 1 ==> old(Fields(phases[i])) == Fields(phases[i])
      ensures Summaries(phases) == old(Summaries(phases))[|phases| - 1 := Fields(phases[|phases| - 1])]
    {
    }

    method EndLast(at: Point)
      requires Lists.Distinct(phases) && phases != []
      modifies phases
      ensures Summaries(phases) == old(Summaries(phases))[|phases| - 1 :=
          old(Summaries(phases))[|phases| - 1].(end := Some(at))]
    {
      phases[|phases| - 1].end := Some(at);
      assert forall i :: 0 <= i < |phases| - 1 ==> phases[i] != phases[|phases| - 1];
      LastRewritten();
    }

    method SettleLast(at: Point)
      requires Lists.Distinct(phases) && phases != []
      modifies phases
      ensures Summaries(phases) == old(Summaries(phases))[|phases| - 1 :=
          old(Summaries(phases))[|phases| - 1].(settled := Some(at))]
    {
      phases[|phases| - 1].settled := Some(at);
      assert forall i :: 0 <= i < |phases| - 1 ==> phases[i] != phases[|phases| - 1];
      LastRewritten();
    }

    method CountForLast(n: nat)
      requires Lists.Distinct(phases) && phases != []
      modifies phases
      ensures var last := old(Summaries(phases))[|phases| - 1];
              Summaries(phases) == old(Summaries(phases))[|phases| - 1 := last.(reports := last.reports + [n])]
    {
      phases[|phases| - 1].reports := phases[|phases| - 1].reports + [n];
      assert forall i :: 0 <= i < |phases| - 1 ==> phases[i] != phases[|phases| - 1];
      LastRewritten();
    }

    lemma {:induction false} ReadsParts(lines: seq<Line>, n: nat)
      ensures Reads(lines, n) <==>
                && n <= |lines| && Lists.Distinct(phases) && AllTold(lines, n, Summaries(phases))
                && RunSeen(lines, n, config) && Remembers(lines, n, previous)
    {
    }

    lemma {:induction false} LastSummary()
      requires phases != []
      ensures var last := phases[|phases| - 1];
              Summaries(phases)[|phases| - 1] == Fields(last)
              && Fields(last) == Summary(last.kind, last.index, last.begin, last.settled, last.end, last.reports)
    {
    }

    method TakeBegin(lines: seq<Line>, n: nat)
      requires n < |lines| && lines[n].Begins? && Reads(lines, n)
      modifies this, phases
      ensures Reads(lines, n + 1) && forall p :: p in phases ==> p in old(phases) || fresh(p)
    {
      hide *;
      ReadsParts(lines, n);
      BeginTold(lines, n, Summaries(phases));
      RememberedStill(lines, n, previous);
      RunSeenNext(lines, n, config);
      if phases != [] {
        LastSummary();
        EndLast(lines[n].at);
      }
      Append(lines[n]);
      ReadsParts(lines, n + 1);
    }

    /** Adds a phase that begins at a line. */
    method Append(line: Line)
      requires line.Begins? && Lists.Distinct(phases)
      modifies this`phases
      ensures |phases| == |old(phases)| + 1 && phases[..|old(phases)|] == old(phases) && fresh(phases[|old(phases)|])
          && Lists.Distinct(phases)
      ensures Summaries(phases) == old(Summaries(phases)) + [Summary(line.phase, line.index, line.at, None, None, [])]
    {
      var next := new Phase(line.phase, line.index, line.at);
      ghost var before := Summaries(phases);
      phases := phases + [next];
      assert Summaries(phases) == before + [Fields(next)];
    }

    method TakeSettle(lines: seq<Line>, n: nat)
      requires n < |lines| && lines[n].Settles? && Reads(lines, n) && Fault(lines, n).None?
      modifies this, phases
      ensures Reads(lines, n + 1) && phases == old(phases)
    {
      hide *;
      ReadsParts(lines, n);
      SettleTold(lines, n, Summaries(phases));
      RememberedStill(lines, n, previous);
      RunSeenNext(lines, n, config);
      if phases != [] {
        LastSummary();
        var last := phases[|phases| - 1];
        if last.index == lines[n].index && last.kind == lines[n].phase {
          SettleLast(lines[n].at);
        }
      }
      ReadsParts(lines, n + 1);
    }

    method TakeReport(lines: seq<Line>, n: nat)
      requires n < |lines| && lines[n].Report? && Reads(lines, n) && Accepted(lines, n)
      modifies this, phases
      ensures Reads(lines, n + 1) && phases == old(phases)
    {
      hide *;
      ReadsParts(lines, n);
      var kind := lines[n].kind;
      ReportTold(lines, n, Summaries(phases));
      RememberedNow(lines, n, previous);
      RunSeenNext(lines, n, config);
      var state: Option<State> := None;
      if phases != [] {
        LastSummary();
        var last := phases[|phases| - 1];
        state := Some(State(last.index, last.settled.Some?));
        if lines[n].parsed.Some? && state.value.settled && kind in previous && previous[kind] == state {
          CountForLast(n);
        }
      }
      previous := previous[kind := state];
      ReadsParts(lines, n + 1);
    }

    /** Takes in a line that nothing is wrong with. */
    method Take(lines: seq<Line>, n: nat)
      requires n < |lines| && Reads(lines, n) && Accepted(lines, n + 1)
      modifies this, phases
      ensures Reads(lines, n + 1)
      ensures forall p :: p in phases ==> p in old(phases) || fresh(p)
    {
      if lines[n].Begins? {
        TakeBegin(lines, n);
      } else if lines[n].Settles? {
        TakeSettle(lines, n);
      } else if lines[n].Report? {
        TakeReport(lines, n);
      } else {
        PlainTold(lines, n, Summaries(phases));
        RememberedStill(lines, n, previous);
        RunSeenNext(lines, n, config);
        if lines[n].Run? {
          config := Some(lines[n].config);
        }
      }
    }
  }

  // ----- what a log says, line by line

  /** The phase that began at line b is the last to have begun before line n. */
  ghost predicate Reigns(lines: seq<Line>, b: nat, n: nat) {
    b < n <= |lines| && lines[b].Begins? && forall i :: b < i < n ==> !lines[i].Begins?
  }

  /** Line s reports that the phase of line b has settled. */
  ghost predicate Names(lines: seq<Line>, b: nat, s: nat) {
    && b < s < |lines| && lines[b].Begins? && lines[s].Settles?
    && lines[s].index == lines[b].index && lines[s].phase == lines[b].phase
  }

  /** The phase of line b is the current one at line n, and first settled at line s. */
  ghost predicate Since(lines: seq<Line>, b: nat, s: nat, n: nat) {
    Reigns(lines, b, n) && Names(lines, b, s) && s < n && forall i :: b < i < s ==> !Names(lines, b, i)
  }

  /** The phase of line b is the current one at line n, and has not settled. */
  ghost predicate Unsettled(lines: seq<Line>, b: nat, n: nat) {
    Reigns(lines, b, n) && forall i :: b < i < n ==> !Names(lines, b, i)
  }

  ghost predicate Earlier(a: Point, b: Point) { a.present < b.present || a.seconds < b.seconds }

  /** What is wrong with a line. */
  ghost predicate WrongAt(lines: seq<Line>, n: nat, e: Error) {
    && n < |lines|
    && match e
       case SecondRun => lines[n].Run? && exists i :: 0 <= i < n && (lines[i].Run? || lines[i].Begins?)
       case IndexRestarts =>
         lines[n].Begins? && exists b: nat :: Reigns(lines, b, n) && lines[n].index <= lines[b].index
       case BeganEarly =>
         && lines[n].Begins?
         && exists b: nat :: Reigns(lines, b, n) && lines[n].index > lines[b].index
              && ((Unsettled(lines, b, n) && Earlier(lines[n].at, lines[b].at))
                  || exists s: nat :: Since(lines, b, s, n) && Earlier(lines[n].at, lines[s].at))
       case SettledTwice =>
         exists b: nat, s: nat :: Reigns(lines, b, n) && Names(lines, b, n) && s < n && Names(lines, b, s)
       case SettledEarly =>
         exists b: nat :: Unsettled(lines, b, n) && Names(lines, b, n) && Earlier(lines[n].at, lines[b].at)
  }

  /** The report at line n can be read, and the phase of line b had settled at the report of its kind before it. */
  ghost predicate CountsFor(lines: seq<Line>, b: nat, n: nat) {
    && Reigns(lines, b, n) && n < |lines| && lines[n].Report? && lines[n].parsed.Some?
    && exists s: nat, q: nat :: Since(lines, b, s, q) && q < n && lines[q].Report? && lines[q].kind == lines[n].kind
         && forall i :: q < i < n ==> !(lines[i].Report? && lines[i].kind == lines[n].kind)
  }

  /** A phase is as the log says: where it began, first settled and ended, and the reports that count for it. */
  ghost predicate PhaseIs(lines: seq<Line>, b: nat, p: Summary) {
    && b < |lines| && lines[b].Begins?
    && p.kind == lines[b].phase && p.index == lines[b].index && p.begin == lines[b].at
    && (p.settled.None? ==> forall s: nat :: Reigns(lines, b, s) ==> !Names(lines, b, s))
    && (p.settled.Some? ==>
          exists s: nat :: Unsettled(lines, b, s) && Names(lines, b, s) && p.settled.value == lines[s].at)
    && (p.end.None? ==> Reigns(lines, b, |lines|))
    && (p.end.Some? ==>
          exists e: nat :: Reigns(lines, b, e) && e < |lines| && lines[e].Begins? && p.end.value == lines[e].at)
    && (forall n: nat :: n in p.reports <==> CountsFor(lines, b, n))
    && forall i, j :: 0 <= i < j < |p.reports| ==> p.reports[i] < p.reports[j]
  }

  /** The lines at which phases begin, in order. */
  ghost predicate AllBegin(lines: seq<Line>, begins: seq<nat>) {
    && (forall i, j :: 0 <= i < j < |begins| ==> begins[i] < begins[j])
    && forall n: nat :: n in begins <==> n < |lines| && lines[n].Begins?
  }

  /** One phase for each of the lines, as the log says. */
  ghost predicate PhasesAre(lines: seq<Line>, begins: seq<nat>, phases: seq<Phase>)
    reads phases
  {
    |phases| == |begins| && forall i :: 0 <= i < |begins| ==> PhaseIs(lines, begins[i], Fields(phases[i]))
  }

  /** Nothing is wrong with a log. */
  ghost predicate Faultless(lines: seq<Line>) { forall n: nat, e :: !WrongAt(lines, n, e) }

  /** The first line that something is wrong with is wrong in this way. */
  ghost predicate FirstWrong(lines: seq<Line>, error: Error) {
    exists n: nat :: WrongAt(lines, n, error) && forall i: nat, e :: i < n ==> !WrongAt(lines, i, e)
  }

  lemma {:induction false} CurrentReigns(lines: seq<Line>, b: nat, n: nat)
    requires n <= |lines|
    ensures CurrentAt(lines, n) == Some(b) <==> Reigns(lines, b, n)
    ensures CurrentAt(lines, n).None? <==> forall i :: 0 <= i < n ==> !lines[i].Begins?
  {
    if n > 0 { CurrentReigns(lines, b, n - 1); }
  }

  lemma {:induction false} SettledSince(lines: seq<Line>, b: nat, s: nat, n: nat)
    requires n <= |lines| && CurrentAt(lines, n) == Some(b)
    ensures SettledAt(lines, n) == Some(s) <==> Since(lines, b, s, n)
    ensures SettledAt(lines, n).None? <==> Unsettled(lines, b, n)
    decreases n
  {
    CurrentReigns(lines, b, n);
    if n > b + 1 {
      CurrentReigns(lines, b, n - 1);
      SettledSince(lines, b, s, n - 1);
      assert SettlesFor(lines[n - 1], lines[b]) <==> Names(lines, b, n - 1);
      if SettledAt(lines, n - 1).Some? { SettledSince(lines, b, SettledAt(lines, n - 1).value, n - 1); }
    }
  }

  lemma {:induction false} PreviousIsLast(lines: seq<Line>, kind: nat, q: nat, n: nat)
    requires n <= |lines|
    ensures PreviousReport(lines, kind, n) == Some(q)
            <==> q < n && lines[q].Report? && lines[q].kind == kind
                 && forall i :: q < i < n ==> !(lines[i].Report? && lines[i].kind == kind)
  {
    if n > 0 { PreviousIsLast(lines, kind, q, n - 1); }
  }

  lemma {:induction false} SettleOfIs(lines: seq<Line>, b: nat, n: nat)
    requires b < n <= |lines| && lines[b].Begins?
    ensures SettleOf(lines, b, n).None? ==> forall s: nat :: s < n && Reigns(lines, b, s) ==> !Names(lines, b, s)
    ensures SettleOf(lines, b, n).Some? ==>
              var s := SettleOf(lines, b, n).value; s < n && Unsettled(lines, b, s) && Names(lines, b, s)
  {
    if n > b + 1 {
      SettleOfIs(lines, b, n - 1);
      CurrentReigns(lines, b, n - 1);
    }
  }

  lemma {:induction false} NextBeginIs(lines: seq<Line>, b: nat, n: nat)
    requires b < n <= |lines| && lines[b].Begins?
    ensures NextBegin(lines, b, n).None? ==> Reigns(lines, b, n)
    ensures NextBegin(lines, b, n).Some? ==>
              var e := NextBegin(lines, b, n).value; e < n && Reigns(lines, b, e) && lines[e].Begins?
  {
    if n > b + 1 { NextBeginIs(lines, b, n - 1); }
  }

  lemma {:induction false} CountsIs(lines: seq<Line>, b: nat, n: nat)
    requires n < |lines|
    ensures Counts(lines, b, n) <==> CountsFor(lines, b, n)
  {
    CurrentReigns(lines, b, n);
    if lines[n].Report? {
      var kind := lines[n].kind;
      var p := PreviousReport(lines, kind, n);
      if Counts(lines, b, n) {
        var q := p.value;
        PreviousIsLast(lines, kind, q, n);
        SettledSince(lines, b, SettledAt(lines, q).value, q);
      }
      if CountsFor(lines, b, n) {
        var s: nat, q: nat :| Since(lines, b, s, q) && q < n && lines[q].Report? && lines[q].kind == kind
            && forall i :: q < i < n ==> !(lines[i].Report? && lines[i].kind == kind);
        PreviousIsLast(lines, kind, q, n);
        CurrentReigns(lines, b, q);
        SettledSince(lines, b, s, q);
        SettledSince(lines, b, s, n);
        assert Since(lines, b, s, n);
      }
    }
  }

  lemma {:induction false} RunFaultIs(lines: seq<Line>, n: nat, e: Error)
    requires n < |lines| && lines[n].Run?
    ensures Fault(lines, n) == Some(e) <==> WrongAt(lines, n, e)
  {
    CurrentReigns(lines, if CurrentAt(lines, n).Some? then CurrentAt(lines, n).value else 0, n);
  }

  lemma {:induction false} FirstBeginIsRight(lines: seq<Line>, n: nat, e: Error)
    requires n < |lines| && lines[n].Begins? && CurrentAt(lines, n).None?
    ensures Fault(lines, n).None? && !WrongAt(lines, n, e)
  {
    CurrentReigns(lines, 0, n);
  }

  lemma {:induction false} BeginFaultIs(lines: seq<Line>, n: nat, e: Error)
    requires n < |lines| && lines[n].Begins?
    ensures Fault(lines, n) == Some(e) <==> WrongAt(lines, n, e)
  {
    hide CurrentAt, SettledAt, SettlesFor;
    if CurrentAt(lines, n).None? {
      FirstBeginIsRight(lines, n, e);
    } else {
      var b := CurrentAt(lines, n).value;
      CurrentReigns(lines, b, n);
      var s := if SettledAt(lines, n).Some? then SettledAt(lines, n).value else 0;
      SettledSince(lines, b, s, n);
    }
  }

  lemma {:induction false} SettleFaultIs(lines: seq<Line>, n: nat, e: Error)
    requires n < |lines| && lines[n].Settles?
    ensures Fault(lines, n) == Some(e) <==> WrongAt(lines, n, e)
  {
    if CurrentAt(lines, n).None? {
      CurrentReigns(lines, 0, n);
    } else {
      var b := CurrentAt(lines, n).value;
      CurrentReigns(lines, b, n);
      var s := if SettledAt(lines, n).Some? then SettledAt(lines, n).value else 0;
      SettledSince(lines, b, s, n);
      assert SettlesFor(lines[n], lines[b]) <==> Names(lines, b, n);
    }
  }

  /** The reader's faults are what is wrong with a line; nothing is wrong in two ways. */
  lemma {:induction false} FaultIs(lines: seq<Line>, n: nat, e: Error)
    requires n < |lines|
    ensures Fault(lines, n) == Some(e) <==> WrongAt(lines, n, e)
  {
    hide CurrentAt, SettledAt;
    match lines[n]
    case Run(_) => RunFaultIs(lines, n, e);
    case Begins(_, _, _) => BeginFaultIs(lines, n, e);
    case Settles(_, _, _) => SettleFaultIs(lines, n, e);
    case _ =>
  }

  lemma {:induction false} AcceptedIs(lines: seq<Line>, n: nat)
    requires n <= |lines|
    ensures Accepted(lines, n) <==> forall i: nat, e :: i < n ==> !WrongAt(lines, i, e)
  {
    forall i: nat, e | i < n ensures Fault(lines, i) == Some(e) <==> WrongAt(lines, i, e) { FaultIs(lines, i, e); }
    assert forall i: nat :: i < n && Fault(lines, i).Some? ==> WrongAt(lines, i, Fault(lines, i).value);
  }

  /** In a faultless log the index of a phase is greater than that of every earlier phase. */
  lemma {:induction false} IndicesIncrease(lines: seq<Line>, a: nat, b: nat)
    requires a < b < |lines| && lines[a].Begins? && lines[b].Begins? && Faultless(lines)
    ensures lines[a].index < lines[b].index
  {
    AcceptedIs(lines, |lines|);
    assert Accepted(lines, b);
    CurrentIndexGrows(lines, a, b);
    assert Fault(lines, b).None?;
  }

  /** A line is a boundary when a phase begins there, or when it settles the current one. */
  ghost predicate Boundary(lines: seq<Line>, i: nat) {
    i < |lines| && (lines[i].Begins? || exists b: nat :: Reigns(lines, b, i) && Names(lines, b, i))
  }

  lemma {:induction false} BoundaryIsLast(lines: seq<Line>, i: nat, n: nat)
    requires i < n <= |lines| && Boundary(lines, i) && Accepted(lines, n)
    ensures LastBoundary(lines, n).Some? && Before(lines[i].at, LastBoundary(lines, n).value)
  {
    if n == i + 1 {
      assert Fault(lines, i).None?;
      if lines[i].Begins? {
        assert CurrentAt(lines, n) == Some(i) && SettledAt(lines, n) == None;
      } else {
        var b: nat :| Reigns(lines, b, i) && Names(lines, b, i);
        CurrentReigns(lines, b, i);
        assert SettledAt(lines, i).None? && SettledAt(lines, n) == Some(i);
      }
    } else {
      BoundaryIsLast(lines, i, n - 1);
      assert Fault(lines, n - 1).None?;
    }
  }

  /** In a faultless log the boundaries never go back, in presents or in time. */
  lemma {:induction false} BoundariesGoOn(lines: seq<Line>, a: nat, b: nat)
    requires a < b && Boundary(lines, a) && Boundary(lines, b) && Faultless(lines)
    ensures lines[a].at.present <= lines[b].at.present && lines[a].at.seconds <= lines[b].at.seconds
  {
    AcceptedIs(lines, |lines|);
    assert Accepted(lines, b);
    BoundaryIsLast(lines, a, b);
    assert Fault(lines, b).None?;
    if !lines[b].Begins? {
      var c: nat :| Reigns(lines, c, b) && Names(lines, c, b);
      CurrentReigns(lines, c, b);
    }
  }

  /** What the reader keeps of a phase is what the log says of it. */
  lemma {:induction false} ToldIs(lines: seq<Line>, b: nat)
    requires b < |lines| && lines[b].Begins?
    ensures PhaseIs(lines, b, Told(lines, b, |lines|))
  {
    var p := Told(lines, b, |lines|);
    SettleOfIs(lines, b, |lines|);
    NextBeginIs(lines, b, |lines|);
    CountedMembers(lines, b, |lines|);
    forall n: nat ensures n in p.reports <==> CountsFor(lines, b, n) {
      if n < |lines| { CountsIs(lines, b, n); }
    }
  }

  lemma {:induction false} BeginningsBegin(lines: seq<Line>, n: nat)
    requires n <= |lines|
    ensures forall i: nat :: i in Beginnings(lines, n) <==> i < n && lines[i].Begins?
  {
    if n > 0 { BeginningsBegin(lines, n - 1); }
  }

  lemma {:induction false} AcceptedIsFaultless(lines: seq<Line>)
    ensures Accepted(lines, |lines|) <==> Faultless(lines)
  {
    hide Accepted;
    AcceptedIs(lines, |lines|);
  }

  /** Where the reader stops is the first line that something is wrong with. */
  lemma {:induction false} FirstFault(lines: seq<Line>, n: nat, error: Error)
    requires n < |lines| && Accepted(lines, n) && Fault(lines, n) == Some(error)
    ensures FirstWrong(lines, error) && !Faultless(lines)
  {
    hide Accepted, Fault, WrongAt;
    AcceptedIs(lines, n);
    FaultIs(lines, n, error);
  }

  lemma {:induction false} AcceptedNext(lines: seq<Line>, n: nat)
    requires n < |lines| && Accepted(lines, n)
    ensures Accepted(lines, n + 1) <==> Fault(lines, n).None?
    ensures Fault(lines, n).Some? ==> !Accepted(lines, |lines|)
  {
    assert Accepted(lines, |lines|) ==> Fault(lines, n).None?;
  }

  /**
    Reads a log. It fails at the first line that something is wrong with; otherwise the phases are those of
    the log, in order, each with exactly the reports that count for it.
   */
  method ReadLog(lines: seq<Line>) returns (ok: bool, error: Error, reader: LogReader, ghost begins: seq<nat>)
    ensures ok <==> Faultless(lines)
    ensures !ok ==> FirstWrong(lines, error)
    ensures ok ==> AllBegin(lines, begins) && PhasesAre(lines, begins, reader.phases)
    ensures ok ==> RunSeen(lines, |lines|, reader.config)
  {
    reader := new LogReader();
    ok, error, begins := true, SecondRun, [];
    hide *;
    reader.ReadsNothing(lines);
    for n := 0 to |lines|
      invariant reader.Reads(lines, n) && Accepted(lines, n) && fresh(reader) && forall p ::
          p in reader.phases ==> fresh(p)
    {
      var fault := reader.Judge(lines, n);
      AcceptedNext(lines, n);
      if fault.Some? {
        FirstFault(lines, n, fault.value);
        return false, fault.value, reader, begins;
      }
      forall i | 0 <= i < |reader.phases| ensures fresh(reader.phases[i]) {
        assert reader.phases[i] in reader.phases;
      }
      reader.Take(lines, n);
    }
    AcceptedIsFaultless(lines);
    reader.ReadsAll(lines);
    begins := Beginnings(lines, |lines|);
  }
}
