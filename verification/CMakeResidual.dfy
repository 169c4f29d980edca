/**
  Deleting lines from a CMake list: first those of the moved atoms, then, innermost first, those of every
  single-branch `if` that has nothing left inside.
 */
module CMakeResidual {
  import opened CommandTree
  import opened CMakeFragments

  function Lines(commands: seq<Command>): set<nat> { set c | c in commands :: c.line }

  ghost predicate DistinctLines(commands: seq<Command>) {
    forall i, j :: 0 <= i < j < |commands| ==> commands[i].line != commands[j].line
  }

  /** The commands whose lines were not deleted. */
  function Kept(commands: seq<Command>, deleted: set<nat>): seq<Command> {
    if commands == [] then
        [] else (if commands[0].line in deleted then [] else [commands[0]]) + Kept(commands[1..], deleted)
  }

  lemma {:induction false} KeptConcat(a: seq<Command>, b: seq<Command>, deleted: set<nat>)
    ensures Kept(a + b, deleted) == Kept(a, deleted) + Kept(b, deleted)
  {
    if a == [] {
      assert a + b == b;
    } else {
      assert (a + b)[1..] == a[1..] + b && (a + b)[0] == a[0];
      KeptConcat(a[1..], b, deleted);
    }
  }

  lemma {:induction false} KeptSame(commands: seq<Command>, a: set<nat>, b: set<nat>)
    requires forall c :: c in commands ==> (c.line in a <==> c.line in b)
    ensures Kept(commands, a) == Kept(commands, b)
  {
    if commands != [] {
      assert commands[0] in commands;
      KeptSame(commands[1..], a, b);
    }
  }

  lemma {:induction false} KeptNone(commands: seq<Command>, deleted: set<nat>)
    requires Lines(commands) <= deleted
    ensures Kept(commands, deleted) == []
  {
    if commands != [] {
      assert commands[0] in commands && commands[0].line in Lines(commands);
      assert Lines(commands[1..]) <= Lines(commands);
      KeptNone(commands[1..], deleted);
    }
  }

  lemma {:induction false} KeptAll(commands: seq<Command>, deleted: set<nat>)
    requires Lines(commands) !! deleted
    ensures Kept(commands, deleted) == commands
  {
    if commands != [] {
      assert commands[0] in commands && commands[0].line in Lines(commands);
      assert Lines(commands[1..]) <= Lines(commands);
      KeptAll(commands[1..], deleted);
    }
  }

  lemma {:induction false} NothingKept(commands: seq<Command>, deleted: set<nat>)
    requires Kept(commands, deleted) == []
    ensures Lines(commands) <= deleted
  {
    if commands != [] {
      NothingKept(commands[1..], deleted);
      assert commands == [commands[0]] + commands[1..];
    }
  }

  lemma {:induction false} LinesConcat(a: seq<Command>, b: seq<Command>)
    ensures Lines(a + b) == Lines(a) + Lines(b)
    ensures DistinctLines(a + b) ==> DistinctLines(a) && DistinctLines(b) && Lines(a) !! Lines(b)
  {
    forall l | l in Lines(a) + Lines(b) ensures l in Lines(a + b) {
      if l in Lines(a) { var c :| c in a && c.line == l; assert c in a + b; }
          else { var c :| c in b && c.line == l; assert c in a + b; }
    }
    if DistinctLines(a + b) {
      DistinctParts(a, b);
    }
  }

  lemma {:induction false} DistinctParts(a: seq<Command>, b: seq<Command>)
    requires DistinctLines(a + b)
    ensures DistinctLines(a) && DistinctLines(b) && Lines(a) !! Lines(b)
  {
    var all := a + b;
    forall i, j | 0 <= i < j < |a| ensures a[i].line != a[j].line { assert all[i].line != all[j].line; }
    forall i, j | 0 <= i < j < |b| ensures b[i].line != b[j].line { assert all[|a| + i].line != all[|a| + j].line; }
    forall x, y | x in a && y in b ensures x.line != y.line {
      var i :| 0 <= i < |a| && a[i] == x;
      var j :| 0 <= j < |b| && b[j] == y;
      assert all[i].line != all[|a| + j].line;
    }
  }

  // ----- what is gone

  /** The lines of the atoms that have moved. */
  ghost function MovedLines(nodes: seq<Node>, moved: set<nat>): set<nat>
    decreases nodes, 1
  {
    if nodes == [] then {} else MovedOf(nodes[0], moved) + MovedLines(nodes[1..], moved)
  }

  ghost function MovedOf(node: Node, moved: set<nat>): set<nat>
    decreases node, 0
  {
    if IsGuard(node) then MovedLines(node.arms[0].children, moved)
    else if Id(node) in moved then Lines(Flatten(node))
    else {}
  }

  /** The lines that pruning takes away. */
  ghost function Gone(nodes: seq<Node>, moved: set<nat>): set<nat>
    decreases nodes, 1
  {
    if nodes == [] then {} else GoneNode(nodes[0], moved) + Gone(nodes[1..], moved)
  }

  ghost function GoneNode(node: Node, moved: set<nat>): set<nat>
    decreases node, 0
  {
    if IsGuard(node) then
      if Prune(node.arms[0].children, moved) == [] then Lines(Flatten(node)) else Gone(node.arms[0].children, moved)
    else if Id(node) in moved then Lines(Flatten(node))
    else if node.Leaf? then {}
    else GoneArms(node.arms)
  }

  ghost function GoneArms(arms: seq<Arm>): set<nat>
    decreases arms, 2
  {
    if arms == [] then {} else GoneArm(arms[0]) + GoneArms(arms[1..])
  }

  ghost function GoneArm(arm: Arm): set<nat>
    decreases arm, 2
  {
    Gone(arm.children, {})
  }

  // ----- everything stays inside

  lemma {:induction false} BlockLines(arms: seq<Arm>, end: Command)
    ensures Lines(Flatten(Block(arms, end))) == Lines(FlattenArms(arms)) + {end.line}
    ensures DistinctLines(Flatten(Block(arms, end))) ==>
        DistinctLines(FlattenArms(arms)) && end.line !in Lines(FlattenArms(arms))
  {
    LinesConcat(FlattenArms(arms), [end]);
    assert Lines([end]) == {end.line};
  }

  lemma {:induction false} ArmLines(arm: Arm)
    ensures Lines(FlattenArm(arm)) == {arm.header.line} + Lines(FlattenAll(arm.children))
    ensures DistinctLines(FlattenArm(arm)) ==>
        DistinctLines(FlattenAll(arm.children)) && arm.header.line !in Lines(FlattenAll(arm.children))
  {
    LinesConcat([arm.header], FlattenAll(arm.children));
    assert Lines([arm.header]) == {arm.header.line};
  }

  lemma {:induction false} GuardLines(node: Node)
    requires IsGuard(node)
    ensures Lines(Flatten(node)) == {node.arms[0].header.line} + Lines(FlattenAll(node.arms[0].children))
        + {node.end.line}
    ensures Flatten(node) == [node.arms[0].header] + FlattenAll(node.arms[0].children) + [node.end]
    ensures DistinctLines(Flatten(node)) ==>
              && DistinctLines(FlattenAll(node.arms[0].children))
              && node.arms[0].header.line !in Lines(FlattenAll(node.arms[0].children))
              && node.end.line !in Lines(FlattenAll(node.arms[0].children))
  {
    BlockLines(node.arms, node.end);
    ArmLines(node.arms[0]);
    OneArm(node.arms[0]);
    assert node.arms == [node.arms[0]];
  }

  lemma {:induction false} GoneInside(nodes: seq<Node>, moved: set<nat>)
    ensures Gone(nodes, moved) <= Lines(FlattenAll(nodes))
    decreases nodes, 1
  {
    if nodes != [] {
      GoneNodeInside(nodes[0], moved);
      GoneInside(nodes[1..], moved);
      LinesConcat(Flatten(nodes[0]), FlattenAll(nodes[1..]));
    }
  }

  lemma {:induction false} GoneNodeInside(node: Node, moved: set<nat>)
    ensures GoneNode(node, moved) <= Lines(Flatten(node))
    decreases node, 0
  {
    if IsGuard(node) {
      GuardLines(node);
      GoneInside(node.arms[0].children, moved);
    } else if Id(node) !in moved && node.Block? {
      BlockLines(node.arms, node.end);
      GoneArmsInside(node.arms);
    }
  }

  lemma {:induction false} GoneArmsInside(arms: seq<Arm>)
    ensures GoneArms(arms) <= Lines(FlattenArms(arms))
    decreases arms, 2
  {
    if arms != [] {
      GoneArmInside(arms[0]);
      GoneArmsInside(arms[1..]);
      LinesConcat(FlattenArm(arms[0]), FlattenArms(arms[1..]));
    }
  }

  lemma {:induction false} GoneArmInside(arm: Arm)
    ensures GoneArm(arm) <= Lines(FlattenArm(arm))
    decreases arm, 2
  {
    GoneInside(arm.children, {});
    ArmLines(arm);
  }

  // ----- deleting those lines is pruning

  lemma {:induction false} KeptApart(a: seq<Command>, b: seq<Command>, x: set<nat>, y: set<nat>)
    requires DistinctLines(a + b) && x <= Lines(a) && y <= Lines(b)
    ensures Kept(a + b, x + y) == Kept(a, x) + Kept(b, y)
  {
    DistinctParts(a, b);
    KeptConcat(a, b, x + y);
    forall c | c in a ensures c.line in x + y <==> c.line in x { assert c.line in Lines(a); }
    forall c | c in b ensures c.line in x + y <==> c.line in y { assert c.line in Lines(b); }
    KeptSame(a, x + y, x);
    KeptSame(b, x + y, y);
  }

  /** The commands whose lines are not gone are those of the pruned list. */
  lemma {:induction false} KeptIsPruned(nodes: seq<Node>, moved: set<nat>)
    requires DistinctLines(FlattenAll(nodes))
    ensures Kept(FlattenAll(nodes), Gone(nodes, moved)) == FlattenAll(Prune(nodes, moved))
    decreases nodes, 1
  {
    if nodes != [] {
      DistinctParts(Flatten(nodes[0]), FlattenAll(nodes[1..]));
      KeptNodeIsPruned(nodes[0], moved);
      KeptIsPruned(nodes[1..], moved);
      GoneNodeInside(nodes[0], moved);
      GoneInside(nodes[1..], moved);
      KeptApart(Flatten(nodes[0]), FlattenAll(nodes[1..]), GoneNode(nodes[0], moved), Gone(nodes[1..], moved));
      FlattenConcat(PruneNode(nodes[0], moved), Prune(nodes[1..], moved));
    }
  }

  lemma {:induction false} KeptNodeIsPruned(node: Node, moved: set<nat>)
    requires DistinctLines(Flatten(node))
    ensures Kept(Flatten(node), GoneNode(node, moved)) == FlattenAll(PruneNode(node, moved))
    decreases node, 0
  {
    if IsGuard(node) {
      KeptGuardIsPruned(node, moved);
    } else if Id(node) in moved {
      KeptNone(Flatten(node), Lines(Flatten(node)));
    } else if node.Leaf? {
      OneNode(node);
      KeptAll(Flatten(node), {});
    } else {
      BlockLines(node.arms, node.end);
      KeptArmsArePruned(node.arms);
      GoneArmsInside(node.arms);
      KeptApart(FlattenArms(node.arms), [node.end], GoneArms(node.arms), {});
      KeptAll([node.end], {});
      OneNode(Block(PruneArms(node.arms), node.end));
      assert GoneArms(node.arms) + {} == GoneArms(node.arms);
    }
  }

  lemma {:induction false} KeptGuardIsPruned(node: Node, moved: set<nat>)
    requires IsGuard(node) && DistinctLines(Flatten(node))
    ensures Kept(Flatten(node), GoneNode(node, moved)) == FlattenAll(PruneNode(node, moved))
    decreases node.arms, 3
  {
    GuardLines(node);
    var header, children := node.arms[0].header, node.arms[0].children;
    var left := Prune(children, moved);
    if left == [] {
      KeptNone(Flatten(node), Lines(Flatten(node)));
    } else {
      KeptIsPruned(children, moved);
      GoneInside(children, moved);
      var gone := Gone(children, moved);
      KeptConcat([header] + FlattenAll(children), [node.end], gone);
      KeptConcat([header], FlattenAll(children), gone);
      KeptAll([header], gone);
      KeptAll([node.end], gone);
      var block := Block([Arm(header, left)], node.end);
      GuardLines(block);
      OneNode(block);
    }
  }

  lemma {:induction false} KeptArmsArePruned(arms: seq<Arm>)
    requires DistinctLines(FlattenArms(arms))
    ensures Kept(FlattenArms(arms), GoneArms(arms)) == FlattenArms(PruneArms(arms))
    decreases arms, 2
  {
    if arms != [] {
      DistinctParts(FlattenArm(arms[0]), FlattenArms(arms[1..]));
      KeptArmIsPruned(arms[0]);
      KeptArmsArePruned(arms[1..]);
      GoneArmInside(arms[0]);
      GoneArmsInside(arms[1..]);
      KeptApart(FlattenArm(arms[0]), FlattenArms(arms[1..]), GoneArm(arms[0]), GoneArms(arms[1..]));
      assert PruneArms(arms)[1..] == PruneArms(arms[1..]) && PruneArms(arms)[0] == PruneArm(arms[0]);
    }
  }

  lemma {:induction false} KeptArmIsPruned(arm: Arm)
    requires DistinctLines(FlattenArm(arm))
    ensures Kept(FlattenArm(arm), GoneArm(arm)) == FlattenArm(PruneArm(arm))
    decreases arm, 2
  {
    ArmLines(arm);
    KeptIsPruned(arm.children, {});
    GoneInside(arm.children, {});
    KeptApart([arm.header], FlattenAll(arm.children), {}, GoneArm(arm));
    KeptAll([arm.header], {});
    assert {} + GoneArm(arm) == GoneArm(arm);
  }

  // ----- the deletion

  lemma {:induction false} MovedAreGone(nodes: seq<Node>, moved: set<nat>)
    ensures MovedLines(nodes, moved) <= Gone(nodes, moved)
    decreases nodes, 1
  {
    if nodes != [] {
      MovedOfIsGone(nodes[0], moved);
      MovedAreGone(nodes[1..], moved);
    }
  }

  lemma {:induction false} MovedOfIsGone(node: Node, moved: set<nat>)
    ensures MovedOf(node, moved) <= GoneNode(node, moved)
    decreases node, 0
  {
    if IsGuard(node) {
      MovedAreGone(node.arms[0].children, moved);
      GoneInside(node.arms[0].children, moved);
      GuardLines(node);
    }
  }

  lemma {:induction false} NothingMoved(nodes: seq<Node>)
    ensures MovedLines(nodes, {}) == {}
    decreases nodes, 1
  {
    if nodes != [] {
      if IsGuard(nodes[0]) { NothingMoved(nodes[0].arms[0].children); }
      NothingMoved(nodes[1..]);
    }
  }

  /** The deleted lines among these are those of the moved atoms. */
  ghost predicate Started(lines: set<nat>, moved: set<nat>, deleted: set<nat>) { deleted * lines == moved }

  lemma {:induction false} FlattenIsSome(nodes: seq<Node>)
    ensures FlattenAll(nodes) == [] <==> nodes == []
  {
  }

  /** Nothing is left inside a guard exactly when everything inside is gone. */
  lemma {:induction false} EmptyIsGone(children: seq<Node>, moved: set<nat>, deleted: set<nat>)
    requires DistinctLines(FlattenAll(children)) && Started(Lines(FlattenAll(children)), MovedLines(children, moved),
        deleted)
    ensures Lines(FlattenAll(children)) <= deleted + Gone(children, moved) <==> Prune(children, moved) == []
  {
    KeptIsPruned(children, moved);
    FlattenIsSome(Prune(children, moved));
    MovedAreGone(children, moved);
    GoneInside(children, moved);
    if Lines(FlattenAll(children)) <= deleted + Gone(children, moved) {
      assert Lines(FlattenAll(children)) <= Gone(children, moved);
      KeptNone(FlattenAll(children), Gone(children, moved));
    }
    if Prune(children, moved) == [] { NothingKept(FlattenAll(children), Gone(children, moved)); }
  }

  /** Deletes every guard that is empty by now, innermost first. */
  method DeleteEmptied(nodes: seq<Node>, deleted: set<nat>, ghost moved: set<nat>) returns (deleted': set<nat>)
    ensures Lines(FlattenAll(nodes)) <= deleted ==> deleted' == deleted
    ensures DistinctLines(FlattenAll(nodes)) && Started(Lines(FlattenAll(nodes)), MovedLines(nodes, moved), deleted) ==>
              deleted' == deleted + Gone(nodes, moved)
    decreases nodes, 1
  {
    deleted' := deleted;
    if nodes == [] {
      return;
    }
    ghost var first, rest := Flatten(nodes[0]), FlattenAll(nodes[1..]);
    LinesConcat(first, rest);
    deleted' := DeleteEmptiedNode(nodes[0], deleted, moved);
    ghost var between := deleted';
    deleted' := DeleteEmptied(nodes[1..], deleted', moved);
    if DistinctLines(FlattenAll(nodes)) && Started(Lines(FlattenAll(nodes)), MovedLines(nodes, moved), deleted) {
      StartedParts(nodes, moved, deleted);
    }
  }

  lemma {:induction false} MovedInside(nodes: seq<Node>, moved: set<nat>)
    ensures MovedLines(nodes, moved) <= Lines(FlattenAll(nodes))
  {
    MovedAreGone(nodes, moved);
    GoneInside(nodes, moved);
  }

  lemma {:induction false} StartedParts(nodes: seq<Node>, moved: set<nat>, deleted: set<nat>)
    requires nodes != [] && DistinctLines(FlattenAll(nodes)) && Started(Lines(FlattenAll(nodes)),
        MovedLines(nodes, moved), deleted)
    ensures DistinctLines(Flatten(nodes[0])) && DistinctLines(FlattenAll(nodes[1..]))
    ensures Started(Lines(Flatten(nodes[0])), MovedOf(nodes[0], moved), deleted)
    ensures Started(Lines(FlattenAll(nodes[1..])), MovedLines(nodes[1..], moved), deleted + GoneNode(nodes[0], moved))
  {
    LinesConcat(Flatten(nodes[0]), FlattenAll(nodes[1..]));
    GoneNodeInside(nodes[0], moved);
    MovedOfIsGone(nodes[0], moved);
    MovedInside(nodes[1..], moved);
  }

  method DeleteEmptiedNode(node: Node, deleted: set<nat>, ghost moved: set<nat>) returns (deleted': set<nat>)
    ensures Lines(Flatten(node)) <= deleted ==> deleted' == deleted
    ensures DistinctLines(Flatten(node)) && Started(Lines(Flatten(node)), MovedOf(node, moved), deleted) ==>
              deleted' == deleted + GoneNode(node, moved)
    decreases node, 0
  {
    if node.Leaf? {
      return deleted;
    }
    BlockLines(node.arms, node.end);
    if !IsGuard(node) {
      deleted' := DeleteEmptiedArms(node.arms, deleted);
      return;
    }
    GuardLines(node);
    ghost var header := node.arms[0].header;
    var children := node.arms[0].children;
    MovedInside(children, moved);
    deleted' := DeleteEmptied(children, deleted, moved);
    if DistinctLines(Flatten(node)) && Started(Lines(Flatten(node)), MovedOf(node, moved), deleted) {
      EmptyIsGone(children, moved, deleted);
      GoneInside(children, moved);
    }
    if Lines(FlattenAll(children)) <= deleted' {
      deleted' := deleted' + Lines(Flatten(node));
    }
  }

  /** Inside an atom, from which nothing moves. */
  method DeleteEmptiedArms(arms: seq<Arm>, deleted: set<nat>) returns (deleted': set<nat>)
    ensures Lines(FlattenArms(arms)) <= deleted ==> deleted' == deleted
    ensures DistinctLines(FlattenArms(arms)) && deleted !! Lines(FlattenArms(arms)) ==>
        deleted' == deleted + GoneArms(arms)
    decreases arms, 2
  {
    deleted' := deleted;
    if arms == [] {
      return;
    }
    LinesConcat(FlattenArm(arms[0]), FlattenArms(arms[1..]));
    ArmLines(arms[0]);
    NothingMoved(arms[0].children);
    GoneArmInside(arms[0]);
    deleted' := DeleteEmptied(arms[0].children, deleted, {});
    deleted' := DeleteEmptiedArms(arms[1..], deleted');
  }

  /** The lines of the moved atoms. */
  function AtomLines(atoms: seq<Atom>, moved: set<nat>): set<nat> {
    if atoms == [] then
        {} else
            (if Id(atoms[0].node) in moved then Lines(Flatten(atoms[0].node)) else {}) + AtomLines(atoms[1..], moved)
  }

  lemma {:induction false} AtomLinesConcat(a: seq<Atom>, b: seq<Atom>, moved: set<nat>)
    ensures AtomLines(a + b, moved) == AtomLines(a, moved) + AtomLines(b, moved)
  {
    if a == [] {
      assert a + b == b;
    } else {
      assert (a + b)[1..] == a[1..] + b && (a + b)[0] == a[0];
      AtomLinesConcat(a[1..], b, moved);
    }
  }

  lemma {:induction false} AtomLinesAreMoved(nodes: seq<Node>, conditions: seq<Guard>, moved: set<nat>)
    ensures AtomLines(Atoms(nodes, conditions), moved) == MovedLines(nodes, moved)
    decreases nodes
  {
    if nodes != [] {
      AtomLinesAreMoved(nodes[1..], conditions, moved);
      var rest := Atoms(nodes[1..], conditions);
      if IsGuard(nodes[0]) {
        var inner := conditions + [GuardOf(nodes[0])];
        AtomLinesAreMoved(nodes[0].arms[0].children, inner, moved);
        AtomLinesConcat(Atoms(nodes[0].arms[0].children, inner), rest, moved);
      } else {
        var one := [Atom(nodes[0], conditions)];
        AtomLinesConcat(one, rest, moved);
        assert one[1..] == [];
      }
    }
  }

  /** Deletes the moved atoms and the emptied guards, line by line; the commands left are those of the pruned tree. */
  method Residual(nodes: seq<Node>, moved: set<nat>) returns (kept: seq<Command>)
    requires DistinctLines(FlattenAll(nodes))
    ensures kept == FlattenAll(Prune(nodes, moved))
  {
    var deleted := AtomLines(Atoms(nodes, []), moved);
    AtomLinesAreMoved(nodes, [], moved);
    MovedInside(nodes, moved);
    MovedAreGone(nodes, moved);
    deleted := DeleteEmptied(nodes, deleted, moved);
    KeptIsPruned(nodes, moved);
    assert deleted == Gone(nodes, moved);
    kept := Kept(FlattenAll(nodes), deleted);
  }
}
