/**
  Where the commands of a CMake list are after the split, said of the tree alone: which nodes a fragment has, which
  guards stand around them, and which commands stay.
 */
module CMakePlaces {
  import opened Options
  import opened CommandTree
  import opened CMakeFragments
  import opened CMakeResidual
  import opened CMakeShells

  // ----- said of the tree

  /** An `if` with one branch. */
  ghost predicate Single(node: Node, header: Command, children: seq<Node>, end: Command) {
    node == Block([Arm(header, children)], end) && header.kind == Opens(0)
  }

  /** The node stands in the list inside these single-branch `if`s, outermost first, and directly in the last. */
  ghost predicate Under(nodes: seq<Node>, chain: seq<Guard>, node: Node)
    decreases |chain|
  {
    if chain == [] then node in nodes
    else
      exists children :: Under(children, chain[1..], node)
        && exists outer :: outer in nodes && Single(outer, chain[0].header, children, chain[0].end)
  }

  /** A node that is no single-branch `if` and begins on this line. */
  ghost predicate WholeAt(node: Node, line: nat) {
    && (forall header, children, end :: !Single(node, header, children, end))
    && (node.Leaf? ==> node.command.line == line)
    && (node.Block? ==> node.arms != [] && node.arms[0].header.line == line)
  }

  /** The node moves to the unit. */
  ghost predicate MovesTo(nodes: seq<Node>, units: Units, name: string, node: Node) {
    exists chain, line :: Under(nodes, chain, node) && WholeAt(node, line) && line in units && units[line] == name
  }

  /** The node is in the list, however deep. */
  ghost predicate PartOf(nodes: seq<Node>, node: Node)
    decreases nodes, 1
  {
    && nodes != []
    && (nodes[0] == node || (nodes[0].Block? && PartOfArms(nodes[0].arms, node)) || PartOf(nodes[1..], node))
  }

  ghost predicate PartOfArms(arms: seq<Arm>, node: Node)
    decreases arms, 2
  {
    arms != [] && (PartOf(arms[0].children, node) || PartOfArms(arms[1..], node))
  }

  /** The first or last line of a single-branch `if`. */
  ghost predicate Bounds(nodes: seq<Node>, c: Command) {
    exists node, header, children, end ::
      PartOf(nodes, node) && Single(node, header, children, end) && (c == header || c == end)
  }

  /** The one list is in the other, in order. */
  ghost predicate InOrder(part: seq<Command>, whole: seq<Command>) {
    part == []
    || (whole != [] && ((part[0] == whole[0] && InOrder(part[1..], whole[1..])) || InOrder(part, whole[1..])))
  }

  /**
    The fragment has just the nodes that move to the unit, in order, and each stands in it, as in the list, inside
    the guards around it.
   */
  ghost predicate HasUnit(nodes: seq<Node>, units: Units, name: string, items: seq<Item>) {
    && (forall node :: Do(node) in items <==> MovesTo(nodes, units, name, node))
    && (forall k :: 0 <= k < |items| && items[k].Do? ==>
          OpenGuards(items[..k]).Some? && Under(nodes, OpenGuards(items[..k]).value, items[k].node))
    && InOrder(FlattenAll(Dos(items)), FlattenAll(nodes))
  }

  ghost predicate KeepsBounds(kept: seq<Command>, header: Command, children: seq<Node>, end: Command) {
    && (header in kept <==> exists c :: c in FlattenAll(children) && c in kept)
    && (end in kept <==> exists c :: c in FlattenAll(children) && c in kept)
  }

  /**
    What stays is in order. A single-branch `if` keeps both its lines when something inside stays, and neither
    otherwise; any other command stays just when it is in no fragment.
   */
  ghost predicate Stays(nodes: seq<Node>, kept: seq<Command>, fragments: map<string, seq<Item>>) {
    && InOrder(kept, FlattenAll(nodes))
    && (forall node, header, children, end :: PartOf(nodes, node) && Single(node, header, children, end) ==>
          KeepsBounds(kept, header, children, end))
    && (forall c :: c in FlattenAll(nodes) && !Bounds(nodes, c) ==>
          (c in kept <==> forall name :: name in fragments ==> c !in FlattenAll(Dos(fragments[name]))))
  }

  /** There is a fragment for each unit that a node moves to. */
  ghost predicate Divided(nodes: seq<Node>, units: Units, kept: seq<Command>, fragments: map<string, seq<Item>>) {
    && (forall name :: name in fragments <==> exists node :: MovesTo(nodes, units, name, node))
    && (forall name :: name in fragments ==> HasUnit(nodes, units, name, fragments[name]))
    && Stays(nodes, kept, fragments)
  }

  // ----- the atoms are the nodes that stand so

  lemma {:induction false} SingleIsGuard(node: Node)
    ensures IsGuard(node) ==> Single(node, node.arms[0].header, node.arms[0].children, node.end)
    ensures !IsGuard(node) ==> forall header, children, end :: !Single(node, header, children, end)
  {
    if IsGuard(node) { assert node.arms == [Arm(node.arms[0].header, node.arms[0].children)]; }
  }

  lemma {:induction false} WholeIs(node: Node)
    requires Formed(node)
    ensures !IsGuard(node) <==> WholeAt(node, Id(node))
    ensures forall line :: WholeAt(node, line) ==> line == Id(node)
  {
    SingleIsGuard(node);
  }

  lemma {:induction false} UnderWider(nodes: seq<Node>, all: seq<Node>, chain: seq<Guard>, node: Node)
    requires Under(nodes, chain, node) && forall n :: n in nodes ==> n in all
    ensures Under(all, chain, node)
  {
    if chain != [] {
      var children, outer := Innards(nodes, chain, node);
      assert outer in all;
    }
  }

  lemma {:induction false} Innards(nodes: seq<Node>, chain: seq<Guard>, node: Node)
    returns (children: seq<Node>, outer: Node)
    requires Under(nodes, chain, node) && chain != []
    ensures Under(children, chain[1..], node)
    ensures outer in nodes && Single(outer, chain[0].header, children, chain[0].end)
  {
    children :| Under(children, chain[1..], node)
        && exists outer :: outer in nodes && Single(outer, chain[0].header, children, chain[0].end);
    outer :| outer in nodes && Single(outer, chain[0].header, children, chain[0].end);
  }

  lemma {:induction false} UnderFirst(nodes: seq<Node>, chain: seq<Guard>, node: Node)
    requires nodes != [] && Under(nodes, chain, node) && !Under(nodes[1..], chain, node)
    ensures chain == [] ==> node == nodes[0]
    ensures chain != [] ==>
              && IsGuard(nodes[0]) && chain[0] == GuardOf(nodes[0])
              && Under(nodes[0].arms[0].children, chain[1..], node)
  {
    if chain != [] {
      var children, outer := Innards(nodes, chain, node);
      assert outer == nodes[0];
      SingleIsGuard(nodes[0]);
    }
  }

  lemma {:induction false} UnderGuard(nodes: seq<Node>, inner: seq<Guard>, node: Node)
    requires nodes != [] && IsGuard(nodes[0]) && Under(nodes[0].arms[0].children, inner, node)
    ensures Under(nodes, [GuardOf(nodes[0])] + inner, node)
  {
    var chain := [GuardOf(nodes[0])] + inner;
    SingleIsGuard(nodes[0]);
    assert chain[1..] == inner;
    assert nodes[0] in nodes && Single(nodes[0], chain[0].header, nodes[0].arms[0].children, chain[0].end);
  }

  lemma {:induction false} StandsHere(nodes: seq<Node>, node: Node)
    ensures Under(nodes, [], node) <==> node in nodes
  {
  }

  lemma {:induction false} AtomOfFirst(nodes: seq<Node>, conditions: seq<Guard>, atom: Atom)
    requires atom in Atoms(nodes, conditions)
    ensures nodes != []
    ensures atom !in Atoms(nodes[1..], conditions) ==>
              if IsGuard(nodes[0]) then atom in Atoms(nodes[0].arms[0].children, conditions + [GuardOf(nodes[0])])
              else atom == Atom(nodes[0], conditions)
  {
  }

  lemma {:induction false} PartsFormed(nodes: seq<Node>)
    requires FormedAll(nodes) && nodes != []
    ensures Formed(nodes[0]) && FormedAll(nodes[1..])
    ensures IsGuard(nodes[0]) ==> nodes[0].Block? && nodes[0].arms != [] && FormedAll(nodes[0].arms[0].children)
  {
  }

  lemma {:induction false} AtomStands(nodes: seq<Node>, conditions: seq<Guard>, atom: Atom) returns (chain: seq<Guard>)
    requires FormedAll(nodes) && atom in Atoms(nodes, conditions)
    ensures atom.conditions == conditions + chain && Under(nodes, chain, atom.node) && Formed(atom.node)
        && !IsGuard(atom.node)
    decreases nodes
  {
    hide Under, GuardOf, Atoms, Single, IsGuard;
    AtomOfFirst(nodes, conditions, atom);
    PartsFormed(nodes);
    if atom in Atoms(nodes[1..], conditions) {
      chain := AtomStands(nodes[1..], conditions, atom);
      UnderWider(nodes[1..], nodes, chain, atom.node);
    } else if IsGuard(nodes[0]) {
      var children, g := nodes[0].arms[0].children, GuardOf(nodes[0]);
      var inner := AtomStands(children, conditions + [g], atom);
      chain := [g] + inner;
      UnderGuard(nodes, inner, atom.node);
      assert conditions + [g] + inner == conditions + chain;
    } else {
      chain := [];
      assert conditions + chain == conditions;
      StandsHere(nodes, atom.node);
    }
  }

  lemma {:induction false} StandsIsAtom(nodes: seq<Node>, conditions: seq<Guard>, chain: seq<Guard>, node: Node)
    requires FormedAll(nodes) && Under(nodes, chain, node) && !IsGuard(node)
    ensures Atom(node, conditions + chain) in Atoms(nodes, conditions) && Formed(node)
    decreases nodes
  {
    if nodes == [] {
      if chain != [] { var children, outer := Innards(nodes, chain, node); }
    } else if Under(nodes[1..], chain, node) {
      StandsIsAtom(nodes[1..], conditions, chain, node);
    } else {
      UnderFirst(nodes, chain, node);
      if chain == [] {
        assert conditions + chain == conditions;
      } else {
        StandsIsAtom(nodes[0].arms[0].children, conditions + [chain[0]], chain[1..], node);
        assert conditions + [chain[0]] + chain[1..] == conditions + chain;
      }
    }
  }

  // ----- a fragment has the nodes of its unit, in order

  lemma {:induction false} InDos(items: seq<Item>, node: Node)
    ensures Do(node) in items <==> node in Dos(items)
  {
    if items != [] {
      var n := |items| - 1;
      InDos(items[..n], node);
      assert items == items[..n] + [items[n]];
    }
  }

  lemma {:induction false} InMembers(atoms: seq<Atom>, units: Units, name: string, atom: Atom)
    ensures atom in MembersOf(atoms, units, name)
        <==> atom in atoms && Id(atom.node) in units && units[Id(atom.node)] == name
  {
    if atoms != [] {
      InMembers(atoms[1..], units, name, atom);
      assert atom in atoms <==> atom == atoms[0] || atom in atoms[1..];
    }
  }

  lemma {:induction false} MemberMoves(nodes: seq<Node>, units: Units, name: string, atom: Atom)
    requires FormedAll(nodes) && atom in MembersOf(Atoms(nodes, []), units, name)
    ensures Under(nodes, atom.conditions, atom.node) && MovesTo(nodes, units, name, atom.node)
  {
    InMembers(Atoms(nodes, []), units, name, atom);
    var chain := AtomStands(nodes, [], atom);
    assert [] + chain == chain;
    WholeIs(atom.node);
    assert WholeAt(atom.node, Id(atom.node));
  }

  lemma {:induction false} MovesIsMember(nodes: seq<Node>, units: Units, name: string, node: Node)
    returns (atom: Atom)
    requires FormedAll(nodes) && MovesTo(nodes, units, name, node)
    ensures atom.node == node && atom in MembersOf(Atoms(nodes, []), units, name)
  {
    var chain, line :| Under(nodes, chain, node) && WholeAt(node, line) && line in units && units[line] == name;
    SingleIsGuard(node);
    StandsIsAtom(nodes, [], chain, node);
    WholeIs(node);
    assert [] + chain == chain;
    atom := Atom(node, chain);
    InMembers(Atoms(nodes, []), units, name, atom);
  }

  /** The nodes that the fragment of a unit has, where they stand and in which order. */
  lemma {:induction false} FragmentHasUnit(nodes: seq<Node>, units: Units, name: string, items: seq<Item>)
    requires FormedAll(nodes) && Dos(items) == NodesOf(MembersOf(Atoms(nodes, []), units, name))
    requires InPlace(items, MembersOf(Atoms(nodes, []), units, name))
    ensures HasUnit(nodes, units, name, items)
  {
    hide Atoms, MembersOf, Dos, Under, MovesTo, FlattenAll, Choose, Wholes, UnitIds, InOrder;
    var members := MembersOf(Atoms(nodes, []), units, name);
    forall node ensures Do(node) in items <==> MovesTo(nodes, units, name, node) {
      InDos(items, node);
      if node in Dos(items) {
        var i :| 0 <= i < |members| && NodesOf(members)[i] == node;
        MemberMoves(nodes, units, name, members[i]);
      }
      if MovesTo(nodes, units, name, node) {
        var atom := MovesIsMember(nodes, units, name, node);
        var i :| 0 <= i < |members| && members[i] == atom;
        assert NodesOf(members)[i] == node;
      }
    }
    forall k | 0 <= k < |items| && items[k].Do?
      ensures OpenGuards(items[..k]).Some? && Under(nodes, OpenGuards(items[..k]).value, items[k].node)
    {
      MemberMoves(nodes, units, name, Atom(items[k].node, OpenGuards(items[..k]).value));
    }
    WholesAreAtoms(nodes, []);
    MembersAreChosen(Atoms(nodes, []), units, name);
    ChosenInOrder(nodes, UnitIds(units, name));
  }

  lemma {:induction false} InOrderConcat(a: seq<Command>, b: seq<Command>, c: seq<Command>, d: seq<Command>)
    requires InOrder(a, b) && InOrder(c, d)
    ensures InOrder(a + c, b + d)
    decreases |b|
  {
    if b == [] {
      assert a + c == c && b + d == d;
    } else {
      assert (b + d)[1..] == b[1..] + d;
      if a == [] {
        InOrderConcat(a, b[1..], c, d);
      } else if a[0] == b[0] && InOrder(a[1..], b[1..]) {
        InOrderConcat(a[1..], b[1..], c, d);
        assert (a + c)[1..] == a[1..] + c;
      } else {
        InOrderConcat(a, b[1..], c, d);
      }
    }
  }

  lemma {:induction false} InOrderSelf(a: seq<Command>)
    ensures InOrder(a, a)
  {
    if a != [] { InOrderSelf(a[1..]); }
  }

  lemma {:induction false} ChosenInOrder(nodes: seq<Node>, ids: set<nat>)
    ensures InOrder(FlattenAll(Choose(Wholes(nodes), ids, true)), FlattenAll(nodes))
    decreases nodes
  {
    hide InOrder, FlattenAll, Id, Flatten;
    if nodes == [] {
      NothingInOrder([]);
      NothingFlat();
    } else {
      var first := if IsGuard(nodes[0]) then Wholes(nodes[0].arms[0].children) else [nodes[0]];
      ChooseConcat(first, Wholes(nodes[1..]), ids, true);
      FlattenConcat(Choose(first, ids, true), Choose(Wholes(nodes[1..]), ids, true));
      FlattenNext(nodes);
      ChosenInOrder(nodes[1..], ids);
      if IsGuard(nodes[0]) {
        ChosenInOrder(nodes[0].arms[0].children, ids);
        InsideInOrder(nodes[0], FlattenAll(Choose(first, ids, true)));
      } else {
        WholeInOrder(nodes[0], ids);
      }
      InOrderConcat(FlattenAll(Choose(first, ids, true)), Flatten(nodes[0]),
                    FlattenAll(Choose(Wholes(nodes[1..]), ids, true)), FlattenAll(nodes[1..]));
    }
  }

  lemma {:induction false} NothingInOrder(whole: seq<Command>)
    ensures InOrder([], whole)
  {
  }

  lemma {:induction false} FlattenNext(nodes: seq<Node>)
    requires nodes != []
    ensures FlattenAll(nodes) == Flatten(nodes[0]) + FlattenAll(nodes[1..])
  {
  }

  lemma {:induction false} WholeInOrder(node: Node, ids: set<nat>)
    ensures InOrder(FlattenAll(Choose([node], ids, true)), Flatten(node))
  {
    ChooseOne(node, ids, true);
    OneNode(node);
    if Id(node) in ids { InOrderSelf(Flatten(node)); }
  }

  lemma {:induction false} InsideInOrder(node: Node, part: seq<Command>)
    requires IsGuard(node) && InOrder(part, FlattenAll(node.arms[0].children))
    ensures InOrder(part, Flatten(node))
  {
    GuardLines(node);
    var header, children := node.arms[0].header, node.arms[0].children;
    InOrderConcat([], [header], part, FlattenAll(children));
    InOrderConcat(part, [header] + FlattenAll(children), [], [node.end]);
    assert [] + part == part && part + [] == part;
  }

  lemma {:induction false} KeptInOrder(commands: seq<Command>, deleted: set<nat>)
    ensures InOrder(Kept(commands, deleted), commands)
  {
    if commands != [] {
      KeptInOrder(commands[1..], deleted);
      assert [] + Kept(commands[1..], deleted) == Kept(commands[1..], deleted);
    }
  }

  // ----- what stays

  /** Both lines are gone when all inside is gone, and neither otherwise. */
  ghost predicate Empties(gone: set<nat>, header: Command, children: seq<Node>, end: Command) {
    && (header.line in gone <==> Lines(FlattenAll(children)) <= gone)
    && (end.line in gone <==> Lines(FlattenAll(children)) <= gone)
  }

  /** The lines are all among these. */
  ghost predicate Inside(lines: set<nat>, header: Command, children: seq<Node>, end: Command) {
    {header.line} + Lines(FlattenAll(children)) + {end.line} <= lines
  }

  lemma {:induction false} SingleLines(node: Node, header: Command, children: seq<Node>, end: Command)
    requires Single(node, header, children, end)
    ensures Inside(Lines(Flatten(node)), header, children, end)
  {
    GuardLines(node);
  }

  lemma {:induction false} PartInside(nodes: seq<Node>, node: Node, header: Command, children: seq<Node>, end: Command)
    requires PartOf(nodes, node) && Single(node, header, children, end)
    ensures Inside(Lines(FlattenAll(nodes)), header, children, end)
    decreases nodes, 1
  {
    LinesConcat(Flatten(nodes[0]), FlattenAll(nodes[1..]));
    if nodes[0] == node {
      SingleLines(node, header, children, end);
    } else if nodes[0].Block? && PartOfArms(nodes[0].arms, node) {
      BlockLines(nodes[0].arms, nodes[0].end);
      ArmsPartInside(nodes[0].arms, node, header, children, end);
    } else {
      PartInside(nodes[1..], node, header, children, end);
    }
  }

  lemma {:induction false} ArmsPartInside(arms: seq<Arm>, node: Node, header: Command, children: seq<Node>,
                                          end: Command)
    requires PartOfArms(arms, node) && Single(node, header, children, end)
    ensures Inside(Lines(FlattenArms(arms)), header, children, end)
    decreases arms, 2
  {
    LinesConcat(FlattenArm(arms[0]), FlattenArms(arms[1..]));
    if PartOf(arms[0].children, node) {
      ArmLines(arms[0]);
      PartInside(arms[0].children, node, header, children, end);
    } else {
      ArmsPartInside(arms[1..], node, header, children, end);
    }
  }

  lemma {:induction false} EmptiesSame(a: set<nat>, b: set<nat>, lines: set<nat>, header: Command,
                                       children: seq<Node>, end: Command)
    requires Empties(a, header, children, end) && Inside(lines, header, children, end) && a * lines == b * lines
    ensures Empties(b, header, children, end)
  {
    forall l | l in lines ensures l in a <==> l in b {
      assert l in a * lines <==> l in b * lines;
    }
  }

  lemma {:induction false} AllGone(lines: set<nat>, header: Command, children: seq<Node>, end: Command)
    requires Inside(lines, header, children, end)
    ensures Empties(lines, header, children, end)
  {
  }

  lemma {:induction false} OwnEmpties(node: Node, moved: set<nat>, header: Command, children: seq<Node>, end: Command)
    requires Single(node, header, children, end) && DistinctLines(Flatten(node))
    ensures Empties(GoneNode(node, moved), header, children, end)
  {
    SingleLines(node, header, children, end);
    if Prune(children, moved) == [] {
      AllGone(Lines(Flatten(node)), header, children, end);
    } else {
      GuardLines(node);
      MovedInside(children, moved);
      EmptyIsGone(children, moved, MovedLines(children, moved));
      MovedAreGone(children, moved);
      assert MovedLines(children, moved) + Gone(children, moved) == Gone(children, moved);
      GoneInside(children, moved);
    }
  }

  lemma {:induction false} PartEmpties(nodes: seq<Node>, moved: set<nat>, node: Node, header: Command,
                                       children: seq<Node>, end: Command)
    requires DistinctLines(FlattenAll(nodes)) && PartOf(nodes, node) && Single(node, header, children, end)
    ensures Empties(Gone(nodes, moved), header, children, end)
    decreases nodes, 1
  {
    hide Single, Flatten, FlattenAll, GoneNode, Empties, Inside, DistinctLines, PartOfArms;
    var first, rest := Flatten(nodes[0]), FlattenAll(nodes[1..]);
    FlattenNext(nodes);
    DistinctParts(first, rest);
    GoneNodeInside(nodes[0], moved);
    GoneInside(nodes[1..], moved);
    var gone := Gone(nodes, moved);
    if PartOf(nodes[1..], node) {
      PartEmpties(nodes[1..], moved, node, header, children, end);
      PartInside(nodes[1..], node, header, children, end);
      EmptiesSame(Gone(nodes[1..], moved), gone, Lines(rest), header, children, end);
    } else if nodes[0] == node {
      OwnEmpties(node, moved, header, children, end);
      SingleLines(node, header, children, end);
      EmptiesSame(GoneNode(node, moved), gone, Lines(first), header, children, end);
    } else {
      NodeEmpties(nodes[0], moved, node, header, children, end);
      NodeInside(nodes[0], node, header, children, end);
      EmptiesSame(GoneNode(nodes[0], moved), gone, Lines(first), header, children, end);
    }
  }

  lemma {:induction false} NodeInside(outer: Node, node: Node, header: Command, children: seq<Node>, end: Command)
    requires outer.Block? && PartOfArms(outer.arms, node) && Single(node, header, children, end)
    ensures Inside(Lines(Flatten(outer)), header, children, end)
  {
    BlockLines(outer.arms, outer.end);
    ArmsPartInside(outer.arms, node, header, children, end);
  }

  lemma {:induction false} NodeEmpties(outer: Node, moved: set<nat>, node: Node, header: Command,
                                       children: seq<Node>, end: Command)
    requires DistinctLines(Flatten(outer)) && outer.Block? && PartOfArms(outer.arms, node)
    requires Single(node, header, children, end)
    ensures Empties(GoneNode(outer, moved), header, children, end)
    decreases outer, 0
  {
    hide Single, Flatten, FlattenAll, Empties, Inside, Id;
    NodeInside(outer, node, header, children, end);
    AllGone(Lines(Flatten(outer)), header, children, end);
    if IsGuard(outer) {
      GuardLines(outer);
      assert outer.arms[1..] == [];
      PartEmpties(outer.arms[0].children, moved, node, header, children, end);
    } else if Id(outer) !in moved {
      BlockLines(outer.arms, outer.end);
      ArmsEmpties(outer.arms, node, header, children, end);
    }
  }

  lemma {:induction false} ArmsEmpties(arms: seq<Arm>, node: Node, header: Command, children: seq<Node>, end: Command)
    requires DistinctLines(FlattenArms(arms)) && PartOfArms(arms, node) && Single(node, header, children, end)
    ensures Empties(GoneArms(arms), header, children, end)
    decreases arms, 2
  {
    hide Single, FlattenAll, Empties, Inside, DistinctLines, PartOf;
    var first, rest := FlattenArm(arms[0]), FlattenArms(arms[1..]);
    DistinctParts(first, rest);
    GoneArmInside(arms[0]);
    GoneArmsInside(arms[1..]);
    if PartOfArms(arms[1..], node) {
      ArmsEmpties(arms[1..], node, header, children, end);
      ArmsPartInside(arms[1..], node, header, children, end);
      EmptiesSame(GoneArms(arms[1..]), GoneArms(arms), Lines(rest), header, children, end);
    } else {
      ArmLines(arms[0]);
      PartEmpties(arms[0].children, {}, node, header, children, end);
      PartInside(arms[0].children, node, header, children, end);
      EmptiesSame(GoneArm(arms[0]), GoneArms(arms), Lines(FlattenAll(arms[0].children)), header, children, end);
    }
  }

  /** What goes to no place is a line of a single-branch `if`. */
  lemma {:induction false} ShellsBound(nodes: seq<Node>, moved: set<nat>, c: Command)
    requires c in Shells(nodes, moved)
    ensures Bounds(nodes, c)
    decreases nodes, 1
  {
    if c in Shells(nodes[1..], moved) {
      ShellsBound(nodes[1..], moved, c);
      var node, header, children, end :| PartOf(nodes[1..], node) && Single(node, header, children, end)
          && (c == header || c == end);
      assert PartOf(nodes, node);
    } else {
      var node, header, children, end := ShellOfBounds(nodes[0], moved, c);
      assert PartOf(nodes, node);
    }
  }

  lemma {:induction false} ShellOfBounds(outer: Node, moved: set<nat>, c: Command)
    returns (node: Node, header: Command, children: seq<Node>, end: Command)
    requires c in ShellsOf(outer, moved)
    ensures outer == node || (outer.Block? && PartOfArms(outer.arms, node))
    ensures Single(node, header, children, end) && (c == header || c == end)
    decreases outer, 0
  {
    if IsGuard(outer) {
      SingleIsGuard(outer);
      header, children, end := outer.arms[0].header, outer.arms[0].children, outer.end;
      if c == header || c == end {
        node := outer;
      } else {
        ShellsBound(children, moved, c);
        node, header, children, end :| PartOf(outer.arms[0].children, node) && Single(node, header, children, end)
            && (c == header || c == end);
      }
    } else {
      node, header, children, end := ShellInBounds(outer.arms, c);
    }
  }

  lemma {:induction false} ShellInBounds(arms: seq<Arm>, c: Command)
    returns (node: Node, header: Command, children: seq<Node>, end: Command)
    requires c in ShellsIn(arms)
    ensures PartOfArms(arms, node) && Single(node, header, children, end) && (c == header || c == end)
    decreases arms, 2
  {
    if c in Shells(arms[0].children, {}) {
      ShellsBound(arms[0].children, {}, c);
      node, header, children, end :| PartOf(arms[0].children, node) && Single(node, header, children, end)
          && (c == header || c == end);
    } else {
      node, header, children, end := ShellInBounds(arms[1..], c);
    }
  }

  lemma {:induction false} PartThere(nodes: seq<Node>, node: Node, header: Command, children: seq<Node>, end: Command,
                                     c: Command)
    requires PartOf(nodes, node) && Single(node, header, children, end)
    requires c == header || c == end || c in FlattenAll(children)
    ensures c in FlattenAll(nodes)
    decreases nodes, 1
  {
    FlattenNext(nodes);
    if PartOf(nodes[1..], node) {
      PartThere(nodes[1..], node, header, children, end, c);
    } else if nodes[0] == node {
      GuardLines(node);
    } else {
      ArmsPartThere(nodes[0].arms, node, header, children, end, c);
    }
  }

  lemma {:induction false} ArmsPartThere(arms: seq<Arm>, node: Node, header: Command, children: seq<Node>,
                                         end: Command, c: Command)
    requires PartOfArms(arms, node) && Single(node, header, children, end)
    requires c == header || c == end || c in FlattenAll(children)
    ensures c in FlattenArms(arms)
    decreases arms, 2
  {
    if PartOf(arms[0].children, node) {
      PartThere(arms[0].children, node, header, children, end, c);
    } else {
      ArmsPartThere(arms[1..], node, header, children, end, c);
    }
  }

  lemma {:induction false} InKept(commands: seq<Command>, deleted: set<nat>, c: Command)
    ensures c in Kept(commands, deleted) <==> c in commands && c.line !in deleted
  {
    if commands != [] { InKept(commands[1..], deleted, c); }
  }

  /** A single-branch `if` keeps its lines just when something inside stays. */
  lemma {:induction false} SingleStays(nodes: seq<Node>, moved: set<nat>, node: Node, header: Command,
                                       children: seq<Node>, end: Command)
    requires DistinctLines(FlattenAll(nodes)) && PartOf(nodes, node) && Single(node, header, children, end)
    ensures KeepsBounds(FlattenAll(Prune(nodes, moved)), header, children, end)
  {
    hide Prune, Gone, Kept, FlattenAll, PartOf, Single, Lines;
    var all, kept, gone := FlattenAll(nodes), FlattenAll(Prune(nodes, moved)), Gone(nodes, moved);
    KeptIsPruned(nodes, moved);
    PartEmpties(nodes, moved, node, header, children, end);
    PartInside(nodes, node, header, children, end);
    forall c | c in [header, end] + FlattenAll(children) ensures c in kept <==> c.line !in gone {
      PartThere(nodes, node, header, children, end, c);
      InKept(all, gone, c);
    }
    SomeLine(FlattenAll(children), gone);
    assert header in [header, end] + FlattenAll(children) && end in [header, end] + FlattenAll(children);
  }

  lemma {:induction false} SomeLine(commands: seq<Command>, gone: set<nat>)
    ensures Lines(commands) <= gone <==> forall c :: c in commands ==> c.line in gone
  {
    forall c | c in commands ensures c.line in Lines(commands) {}
  }
}
