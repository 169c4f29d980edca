/**
  Which tests a change affects: those it reaches through files, and then everything that fixtures and
  dependencies tie to them.
 */
module TestSelection {
  import opened Options

  type Path = string
  type Name = string

  datatype Test = Test(target: Option<string>, registered: set<Path>, arguments: set<Path>,
                       required: set<string>, setups: set<string>, depends: set<Name>)

  datatype Graph = Graph(tests: map<Name, Test>, closures: map<string, set<Path>>)

  /** How paths are judged: changes that call for a full run, and files that count for their whole directory. */
  datatype Rules = Rules(full: Path -> bool, local: Path -> bool)

  // ----- what a change touches directly

  function Scope(g: Graph, t: Test): set<Path> {
    (if t.target.Some? && t.target.value in g.closures then g.closures[t.target.value] else {}) + t.arguments
  }

  predicate Known(g: Graph, f: Path) {
    || (exists k :: k in g.closures && f in g.closures[k])
    || (exists n :: n in g.tests && f in g.tests[n].arguments)
  }

  /** Where the last slash is, or -1. */
  function LastSlash(f: Path): (r: int)
    ensures -1 <= r < |f|
    ensures r >= 0 ==> f[r] == '/'
    ensures forall i :: r < i < |f| ==> f[i] != '/'
  {
    if f == [] then -1 else if f[|f| - 1] == '/' then |f| - 1 else LastSlash(f[..|f| - 1])
  }

  /** The directory of a path, up to and including its slash. */
  function Directory(f: Path): Path { f[..LastSlash(f) + 1] }

  /** The directories that a change counts for. */
  function Directories(g: Graph, rules: Rules, changed: set<Path>): set<Path> {
    set f | f in changed && LastSlash(f) >= 0 && (rules.local(f) || !Known(g, f)) :: Directory(f)
  }

  datatype Reason =
    | NoExecutable | Input(path: Path) | Registration(path: Path) | Within(directory: Path)
    | SetupFor(test: Name) | ConsumerOf(test: Name) | DependencyOf(test: Name)

  function DirectReasons(g: Graph, rules: Rules, changed: set<Path>, t: Test): set<Reason> {
    (if t.target.None? then {NoExecutable} else {})
    + (set f | f in changed * Scope(g, t) :: Input(f))
    + (set f | f in changed * t.registered :: Registration(f))
    + (set d | d in Directories(g, rules, changed) && (exists f ::
        f in Scope(g, t) + t.registered && d <= f) :: Within(d))
  }

  predicate Direct(g: Graph, rules: Rules, changed: set<Path>, t: Test) {
    || t.target.None?
    || changed * t.registered != {}
    || changed * Scope(g, t) != {}
    || exists d :: d in Directories(g, rules, changed) && exists f :: f in Scope(g, t) + t.registered && d <= f
  }

  lemma {:induction false} DirectHasReason(g: Graph, rules: Rules, changed: set<Path>, t: Test)
    ensures Direct(g, rules, changed, t) <==> DirectReasons(g, rules, changed, t) != {}
  {
    if Direct(g, rules, changed, t) {
      if t.target.None? {
        assert NoExecutable in DirectReasons(g, rules, changed, t);
      } else if changed * t.registered != {} {
        var f :| f in changed * t.registered;
        assert Registration(f) in DirectReasons(g, rules, changed, t);
      } else if changed * Scope(g, t) != {} {
        var f :| f in changed * Scope(g, t);
        assert Input(f) in DirectReasons(g, rules, changed, t);
      } else {
        var d :| d in Directories(g, rules, changed) && exists f :: f in Scope(g, t) + t.registered && d <= f;
        assert Within(d) in DirectReasons(g, rules, changed, t);
      }
    }
    if DirectReasons(g, rules, changed, t) != {} {
      var r :| r in DirectReasons(g, rules, changed, t);
      match r
      case NoExecutable =>
      case Input(f) => assert f in changed * Scope(g, t);
      case Registration(f) => assert f in changed * t.registered;
      case Within(d) =>
      case _ =>
    }
  }

  // ----- what tests drag in

  /** The tests that a test brings along: its dependencies, the setups it requires, the consumers of what it sets up. */
  function Extras(g: Graph, n: Name): (r: set<Name>)
    requires n in g.tests
    ensures r <= g.tests.Keys
  {
    var t := g.tests[n];
    set e | e in g.tests && (e in t.depends || t.required * g.tests[e].setups != {}
        || t.setups * g.tests[e].required != {})
  }

  ghost predicate Closed(g: Graph, names: set<Name>) {
    names <= g.tests.Keys && forall n :: n in names ==> Extras(g, n) <= names
  }

  function DirectTests(g: Graph, rules: Rules, changed: set<Path>): set<Name> {
    set n | n in g.tests && Direct(g, rules, changed, g.tests[n])
  }

  /** The least set of tests that contains the directly affected ones and all that its members bring along. */
  ghost predicate LeastClosure(g: Graph, start: set<Name>, names: set<Name>) {
    && start <= names && Closed(g, names)
    && forall other :: start <= other && Closed(g, other) ==> names <= other
  }

  function ReasonFor(g: Graph, n: Name, e: Name): Reason
    requires n in g.tests && e in g.tests
  {
    var t, x := g.tests[n], g.tests[e];
    if t.required * x.setups != {} then
        SetupFor(n) else if t.setups * x.required != {} then ConsumerOf(n) else DependencyOf(n)
  }

  type Reasons = map<Name, set<Reason>>

  /** Why a test is affected: what about it changed, and the tests among `done` that bring it along. */
  ghost function ReasonsFrom(g: Graph, rules: Rules, changed: set<Path>, done: set<Name>, e: Name): set<Reason>
    requires e in g.tests
  {
    DirectReasons(g, rules, changed, g.tests[e])
    + set n | n in done && n in g.tests && e in Extras(g, n) :: ReasonFor(g, n, e)
  }

  /** Every picked test has a reason, and the reasons recorded for it are all there are so far. */
  ghost predicate Recorded(g: Graph, rules: Rules, changed: set<Path>, picked: set<Name>, done: set<Name>,
                           reasons: Reasons) {
    && reasons.Keys == picked && picked <= g.tests.Keys
    && forall e :: e in picked ==> reasons[e] != {} && reasons[e] == ReasonsFrom(g, rules, changed, done, e)
  }

  // ----- why a test is picked, said outright

  /** A test uses a file: as an argument, or in the closure of its target. */
  ghost predicate Uses(g: Graph, t: Test, f: Path) {
    f in t.arguments || (t.target.Some? && t.target.value in g.closures && f in g.closures[t.target.value])
  }

  /** A change of a file counts for the whole directory d: the file is local, or in no closure and no argument. */
  ghost predicate Spreads(g: Graph, rules: Rules, f: Path, d: Path) {
    && d <= f && d != [] && d[|d| - 1] == '/' && (forall i :: |d| <= i < |f| ==> f[i] != '/')
    && (rules.local(f) || ((forall k :: k in g.closures ==> f !in g.closures[k])
                           && forall n :: n in g.tests ==> f !in g.tests[n].arguments))
  }

  /** A change is by itself a reason to run a test. */
  ghost predicate Because(g: Graph, rules: Rules, changed: set<Path>, t: Test, r: Reason) {
    match r
    case NoExecutable => t.target.None?
    case Input(f) => f in changed && Uses(g, t, f)
    case Registration(f) => f in changed && f in t.registered
    case Within(d) =>
      && (exists f :: f in changed && Spreads(g, rules, f, d))
      && exists h :: (Uses(g, t, h) || h in t.registered) && d <= h
    case _ => false
  }

  /** One test brings another along: it sets up what that one needs or needs what that one sets up, or depends on it. */
  ghost predicate Brings(g: Graph, n: Name, e: Name, r: Reason) {
    && n in g.tests && e in g.tests
    && var needs := exists x :: x in g.tests[n].required && x in g.tests[e].setups;
       var gives := exists x :: x in g.tests[n].setups && x in g.tests[e].required;
       || (needs && r == SetupFor(n))
       || (!needs && gives && r == ConsumerOf(n))
       || (!needs && !gives && e in g.tests[n].depends && r == DependencyOf(n))
  }

  /** All tests with a reason of their own, and all that those in the set bring along. */
  ghost predicate Complete(g: Graph, rules: Rules, changed: set<Path>, names: set<Name>) {
    && names <= g.tests.Keys
    && (forall n, r :: n in g.tests && Because(g, rules, changed, g.tests[n], r) ==> n in names)
    && forall n, e, r :: n in names && Brings(g, n, e, r) ==> e in names
  }

  /** The least complete set. */
  ghost predicate Affected(g: Graph, rules: Rules, changed: set<Path>, names: set<Name>) {
    Complete(g, rules, changed, names) && forall other :: Complete(g, rules, changed, other) ==> names <= other
  }

  /** Each picked test has a reason, and exactly the reasons there are. */
  ghost predicate Explained(g: Graph, rules: Rules, changed: set<Path>, picked: set<Name>, reasons: Reasons) {
    && reasons.Keys == picked && picked <= g.tests.Keys
    && forall e :: e in picked ==>
         && reasons[e] != {}
         && forall r :: r in reasons[e] <==>
              Because(g, rules, changed, g.tests[e], r) || exists n :: n in picked && Brings(g, n, e, r)
  }

  lemma {:induction false} DirectoryIs(f: Path, d: Path)
    ensures LastSlash(f) >= 0 && d == Directory(f)
            <==> d <= f && d != [] && d[|d| - 1] == '/' && forall i :: |d| <= i < |f| ==> f[i] != '/'
  {
    var r := LastSlash(f);
    if r >= 0 && d == Directory(f) { assert d[|d| - 1] == f[r]; }
    if d <= f && d != [] && d[|d| - 1] == '/' && forall i :: |d| <= i < |f| ==> f[i] != '/' {
      assert f[|d| - 1] == '/';
      assert r == |d| - 1;
    }
  }

  lemma {:induction false} DirectoriesAre(g: Graph, rules: Rules, changed: set<Path>, d: Path)
    ensures d in Directories(g, rules, changed) <==> exists f :: f in changed && Spreads(g, rules, f, d)
  {
    forall f | f in changed
      ensures LastSlash(f) >= 0 && (rules.local(f) || !Known(g, f)) && d == Directory(f) <==> Spreads(g, rules, f, d)
    {
      DirectoryIs(f, d);
    }
  }

  lemma {:induction false} ScopeIs(g: Graph, t: Test, f: Path)
    ensures f in Scope(g, t) <==> Uses(g, t, f)
  {
  }

  lemma {:induction false} DirectReasonsAre(g: Graph, rules: Rules, changed: set<Path>, t: Test, r: Reason)
    ensures r in DirectReasons(g, rules, changed, t) <==> Because(g, rules, changed, t, r)
  {
    forall f ensures f in Scope(g, t) <==> Uses(g, t, f) { ScopeIs(g, t, f); }
    if r.Within? { DirectoriesAre(g, rules, changed, r.directory); }
    hide Scope, Uses, Directories, Spreads;
  }

  lemma {:induction false} ExtrasAre(g: Graph, n: Name, e: Name)
    requires n in g.tests && e in g.tests
    ensures e in Extras(g, n) <==> exists r :: Brings(g, n, e, r)
    ensures forall r :: Brings(g, n, e, r) <==> e in Extras(g, n) && r == ReasonFor(g, n, e)
  {
    var t, x := g.tests[n], g.tests[e];
    Meets(t.required, x.setups);
    Meets(t.setups, x.required);
    if e in Extras(g, n) { assert Brings(g, n, e, ReasonFor(g, n, e)); }
  }

  lemma {:induction false} Meets(a: set<string>, b: set<string>)
    ensures a * b != {} <==> exists x :: x in a && x in b
  {
    if a * b != {} {
      var x :| x in a * b;
    }
    if x :| x in a && x in b { assert x in a * b; }
  }

  lemma {:induction false} CompleteIs(g: Graph, rules: Rules, changed: set<Path>, names: set<Name>)
    ensures Complete(g, rules, changed, names) <==> DirectTests(g, rules, changed) <= names && Closed(g, names)
  {
    hide Extras, Because, Brings, Direct, DirectReasons;
    forall n | n in g.tests
      ensures n in DirectTests(g, rules, changed) <==> exists r :: Because(g, rules, changed, g.tests[n], r)
    {
      var t := g.tests[n];
      DirectHasReason(g, rules, changed, t);
      forall r ensures r in DirectReasons(g, rules, changed, t) <==> Because(g, rules, changed, t, r) {
        DirectReasonsAre(g, rules, changed, t, r);
      }
    }
    forall n, e | n in g.tests && e in g.tests ensures e in Extras(g, n) <==> exists r :: Brings(g, n, e, r) {
      ExtrasAre(g, n, e);
    }
    forall n, e, r | Brings(g, n, e, r) ensures n in g.tests && e in g.tests { BringsTests(g, n, e, r); }
  }

  lemma {:induction false} BringsTests(g: Graph, n: Name, e: Name, r: Reason)
    requires Brings(g, n, e, r)
    ensures n in g.tests && e in g.tests
  {
  }

  lemma {:induction false} AffectedIs(g: Graph, rules: Rules, changed: set<Path>, names: set<Name>)
    ensures Affected(g, rules, changed, names) <==> LeastClosure(g, DirectTests(g, rules, changed), names)
  {
    hide Complete, Closed, DirectTests;
    forall other ensures Complete(g, rules, changed, other)
        <==> DirectTests(g, rules, changed) <= other && Closed(g, other)
    {
      CompleteIs(g, rules, changed, other);
    }
  }

  lemma {:induction false} ExplainedIs(g: Graph, rules: Rules, changed: set<Path>, picked: set<Name>, reasons: Reasons)
    requires Recorded(g, rules, changed, picked, picked, reasons)
    ensures Explained(g, rules, changed, picked, reasons)
  {
    hide DirectReasons, Because, Brings, Extras, ReasonFor;
    forall e, r | e in picked
      ensures r in reasons[e] <==>
        Because(g, rules, changed, g.tests[e], r) || exists n :: n in picked && Brings(g, n, e, r)
    {
      DirectReasonsAre(g, rules, changed, g.tests[e], r);
      forall n | n in picked ensures Brings(g, n, e, r) <==> e in Extras(g, n) && r == ReasonFor(g, n, e) {
        ExtrasAre(g, n, e);
      }
    }
  }

  // ----- the selection

  datatype Selection = Everything(because: set<Path>) | Only(picked: set<Name>, reasons: Reasons)

  /** Picks tests until nothing more is dragged in. */
  method Select(g: Graph, rules: Rules, changed: set<Path>) returns (r: Selection)
    ensures r.Everything? <==> exists f :: f in changed && rules.full(f)
    ensures r.Everything? ==> r.because == set f | f in changed && rules.full(f)
    ensures r.Only? ==> Affected(g, rules, changed, r.picked)
    ensures r.Only? ==> Explained(g, rules, changed, r.picked, r.reasons)
  {
    var full := set f | f in changed && rules.full(f);
    if full != {} {
      var f :| f in full;
      return Everything(full);
    }
    assert forall f :: f in changed && rules.full(f) ==> f in full;
    var picked, reasons := PickDirect(g, rules, changed);
    picked, reasons := Close(g, rules, changed, picked, reasons);
    AffectedIs(g, rules, changed, picked);
    ExplainedIs(g, rules, changed, picked, reasons);
    r := Only(picked, reasons);
  }

  /** While the worklist is worked off: what is picked has to be, and what is done has brought along all it brings. */
  ghost predicate Closing(g: Graph, start: set<Name>, picked: set<Name>, todo: set<Name>, done: set<Name>) {
    && start <= picked && picked <= g.tests.Keys && todo <= picked && done == picked - todo
    && (forall n :: n in done ==> Extras(g, n) <= picked)
    && forall other :: start <= other && Closed(g, other) ==> picked <= other
  }

  lemma {:induction false} ClosingGoesOn(g: Graph, start: set<Name>, picked: set<Name>, todo: set<Name>,
                                         done: set<Name>, name: Name)
    requires Closing(g, start, picked, todo, done) && name in todo
    ensures var picked' := picked + Extras(g, name);
            Closing(g, start, picked', (todo - {name}) + (picked' - picked), done + {name})
  {
  }

  /** Works off the worklist. */
  method Close(g: Graph, rules: Rules, changed: set<Path>, start: set<Name>, because: Reasons)
    returns (picked: set<Name>, reasons: Reasons)
    requires start == DirectTests(g, rules, changed) && Recorded(g, rules, changed, start, {}, because)
    ensures LeastClosure(g, start, picked) && Recorded(g, rules, changed, picked, picked, reasons)
  {
    hide *;
    picked, reasons := start, because;
    var todo := start;
    ghost var done: set<Name> := {};
    ClosingStarts(g, rules, changed);
    while todo != {}
      invariant Recorded(g, rules, changed, picked, done, reasons) && Closing(g, start, picked, todo, done)
      decreases g.tests.Keys - done
    {
      var name :| name in todo;
      ClosingIs(g, start, picked, todo, done);
      ClosingGoesOn(g, start, picked, todo, done, name);
      var added;
      picked, reasons, added := Drag(g, rules, changed, picked, reasons, done, name);
      todo := (todo - {name}) + added;
      done := done + {name};
    }
    ClosingIs(g, start, picked, todo, done);
    assert done == picked;
    ClosingEnds(g, start, picked);
  }

  lemma {:induction false} ClosingStarts(g: Graph, rules: Rules, changed: set<Path>)
    ensures var start := DirectTests(g, rules, changed);
            start <= g.tests.Keys && Closing(g, start, start, start, {})
  {
  }

  lemma {:induction false} ClosingIs(g: Graph, start: set<Name>, picked: set<Name>, todo: set<Name>, done: set<Name>)
    requires Closing(g, start, picked, todo, done)
    ensures start <= picked <= g.tests.Keys && todo <= picked && done == picked - todo
    ensures forall n :: n in done ==> n in g.tests && Extras(g, n) <= picked
  {
  }

  lemma {:induction false} ClosingEnds(g: Graph, start: set<Name>, picked: set<Name>)
    requires Closing(g, start, picked, {}, picked)
    ensures LeastClosure(g, start, picked)
  {
  }

  method PickDirect(g: Graph, rules: Rules, changed: set<Path>) returns (picked: set<Name>, reasons: Reasons)
    ensures picked == DirectTests(g, rules, changed) && Recorded(g, rules, changed, picked, {}, reasons)
  {
    picked, reasons := {}, map[];
    var names := g.tests.Keys;
    while names != {}
      invariant names <= g.tests.Keys
      invariant picked == (set n | n in g.tests.Keys - names && Direct(g, rules, changed, g.tests[n]))
      invariant reasons.Keys == picked
      invariant forall e ::
          e in picked ==> reasons[e] != {} && reasons[e] == DirectReasons(g, rules, changed, g.tests[e])
    {
      var name :| name in names;
      names := names - {name};
      var test := g.tests[name];
      DirectHasReason(g, rules, changed, test);
      if Direct(g, rules, changed, test) {
        picked := picked + {name};
        reasons := reasons[name := DirectReasons(g, rules, changed, test)];
      }
    }
  }

  /** One more test that has been gone through is one more reason for those it brings along. */
  lemma {:induction false} OneMoreReason(g: Graph, rules: Rules, changed: set<Path>, done: set<Name>, name: Name,
                                         e: Name)
    requires e in g.tests && name in g.tests
    ensures ReasonsFrom(g, rules, changed, done + {name}, e)
            == ReasonsFrom(g, rules, changed, done, e) + if e in Extras(g, name) then {ReasonFor(g, name, e)} else {}
  {
    hide DirectReasons, Extras, ReasonFor;
  }

  /** A test that has not been picked has no reason so far. */
  lemma {:induction false} NoReasonYet(g: Graph, rules: Rules, changed: set<Path>, picked: set<Name>, done: set<Name>,
                                       e: Name)
    requires DirectTests(g, rules, changed) <= picked && e in g.tests && e !in picked
    requires forall n :: n in done && n in g.tests ==> Extras(g, n) <= picked
    ensures ReasonsFrom(g, rules, changed, done, e) == {}
  {
  }

  /** While a test's extras are gone through: those in `now` have it as a reason already. */
  ghost predicate Recording(g: Graph, rules: Rules, changed: set<Path>, picked: set<Name>, done: set<Name>,
                            name: Name, now: set<Name>, reasons: Reasons) {
    && reasons.Keys == picked && picked <= g.tests.Keys
    && forall e :: e in picked ==>
         && reasons[e] != {}
         && reasons[e] == ReasonsFrom(g, rules, changed, if e in now then done + {name} else done, e)
  }

  function WithReason(reasons: Reasons, e: Name, reason: Reason): Reasons {
    reasons[e := (if e in reasons then reasons[e] else {}) + {reason}]
  }

  /** Adds everything one test brings along. */
  method Drag(g: Graph, rules: Rules, changed: set<Path>, picked: set<Name>, reasons: Reasons, ghost done: set<Name>,
              name: Name)
    returns (picked': set<Name>, reasons': Reasons, added: set<Name>)
    requires name in picked && Recorded(g, rules, changed, picked, done, reasons)
    requires DirectTests(g, rules, changed) <= picked
    requires forall n :: n in done && n in g.tests ==> Extras(g, n) <= picked
    ensures picked' == picked + Extras(g, name) && added == picked' - picked
    ensures Recorded(g, rules, changed, picked', done + {name}, reasons')
  {
    hide *;
    picked', reasons', added := picked, reasons, {};
    NothingRecording(g, rules, changed, picked, done, name, reasons);
    var extras := Extras(g, name);
    ghost var now: set<Name> := {};
    while extras != {}
      invariant extras + now == Extras(g, name) && extras !! now
      invariant picked' == picked + now && added == picked' - picked
      invariant Recording(g, rules, changed, picked', done, name, now, reasons')
      decreases extras
    {
      var extra :| extra in extras;
      extras := extras - {extra};
      ReasonAdded(g, rules, changed, picked', done, name, extra, now, reasons');
      ghost var before := picked';
      now := now + {extra};
      reasons' := WithReason(reasons', extra, ReasonFor(g, name, extra));
      if extra !in picked' {
        picked' := picked' + {extra};
        added := added + {extra};
      }
      assert picked' == before + {extra} == picked + now;
    }
    AllRecorded(g, rules, changed, picked', done, name, reasons');
  }

  lemma {:induction false} NothingRecording(g: Graph, rules: Rules, changed: set<Path>, picked: set<Name>,
                                            done: set<Name>, name: Name, reasons: Reasons)
    requires name in picked && Recorded(g, rules, changed, picked, done, reasons)
    ensures name in g.tests && Recording(g, rules, changed, picked, done, name, {}, reasons)
  {
    hide ReasonsFrom;
  }

  lemma {:induction false} AllRecorded(g: Graph, rules: Rules, changed: set<Path>, picked: set<Name>, done: set<Name>,
                                       name: Name, reasons: Reasons)
    requires name in picked && name in g.tests
    requires Recording(g, rules, changed, picked, done, name, Extras(g, name), reasons)
    ensures Recorded(g, rules, changed, picked, done + {name}, reasons)
  {
    hide ReasonsFrom, Extras, ReasonFor;
    forall e | e in picked ensures reasons[e] == ReasonsFrom(g, rules, changed, done + {name}, e) {
      OneMoreReason(g, rules, changed, done, name, e);
    }
  }

  lemma {:induction false} ReasonAdded(g: Graph, rules: Rules, changed: set<Path>, picked: set<Name>, done: set<Name>,
                                       name: Name, extra: Name, now: set<Name>, reasons: Reasons)
    requires Recording(g, rules, changed, picked, done, name, now, reasons) && name in g.tests
    requires extra in Extras(g, name) && extra in g.tests && extra !in now
    requires DirectTests(g, rules, changed) <= picked
    requires forall n :: n in done && n in g.tests ==> Extras(g, n) <= picked
    ensures Recording(g, rules, changed, picked + {extra}, done, name, now + {extra},
                      WithReason(reasons, extra, ReasonFor(g, name, extra)))
  {
    hide ReasonsFrom, Extras, ReasonFor, DirectTests;
    OneMoreReason(g, rules, changed, done, name, extra);
    if extra !in picked { NoReasonYet(g, rules, changed, picked, done, extra); }
  }

  // ----- more changes, more tests

  lemma {:induction false} DirectoriesGrow(g: Graph, rules: Rules, a: set<Path>, b: set<Path>)
    requires a <= b
    ensures Directories(g, rules, a) <= Directories(g, rules, b)
  {
  }

  lemma {:induction false} DirectGrows(g: Graph, rules: Rules, a: set<Path>, b: set<Path>)
    requires a <= b
    ensures DirectTests(g, rules, a) <= DirectTests(g, rules, b)
  {
    DirectoriesGrow(g, rules, a, b);
    forall n | n in DirectTests(g, rules, a) ensures n in DirectTests(g, rules, b) {
      var t := g.tests[n];
      if a * t.registered != {} {
        var f :| f in a * t.registered;
        assert f in b * t.registered;
      }
      if a * Scope(g, t) != {} {
        var f :| f in a * Scope(g, t);
        assert f in b * Scope(g, t);
      }
    }
  }

  /** The tests a selection runs, a full run being all of them. */
  ghost predicate Runs(g: Graph, rules: Rules, changed: set<Path>, names: set<Name>) {
    if exists f :: f in changed && rules.full(f) then names == g.tests.Keys else Affected(g, rules, changed, names)
  }

  /** A larger change never runs fewer tests. */
  lemma {:induction false} MoreChangesMoreTests(g: Graph, rules: Rules, a: set<Path>, b: set<Path>, x: set<Name>,
                                                y: set<Name>)
    requires a <= b && Runs(g, rules, a, x) && Runs(g, rules, b, y)
    ensures x <= y
  {
    DirectGrows(g, rules, a, b);
    assert Closed(g, g.tests.Keys);
    AffectedIs(g, rules, a, x);
    AffectedIs(g, rules, b, y);
    if (exists f :: f in a && rules.full(f)) {
      var f :| f in a && rules.full(f);
      assert f in b;
    }
  }
}
