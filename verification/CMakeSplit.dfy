/**
  The split of a CMake list as a whole: its atoms grouped by unit, a fragment for each unit, and what is left
  of the list, read as a list again.
 */
module CMakeSplit {
  import opened Options
  import opened CommandTree
  import opened CMakeFragments
  import opened CMakeResidual
  import opened CMakeShells
  import opened CMakePlaces

  // ----- what is left is a list again

  lemma {:induction false} PrunedIsFormed(nodes: seq<Node>, moved: set<nat>)
    requires FormedAll(nodes)
    ensures FormedAll(Prune(nodes, moved))
    decreases nodes, 1
  {
    if nodes != [] {
      PrunedNodeIsFormed(nodes[0], moved);
      PrunedIsFormed(nodes[1..], moved);
      FormedConcat(PruneNode(nodes[0], moved), Prune(nodes[1..], moved));
    }
  }

  lemma {:induction false} PrunedNodeIsFormed(node: Node, moved: set<nat>)
    requires Formed(node)
    ensures FormedAll(PruneNode(node, moved))
    decreases node, 0
  {
    if IsGuard(node) {
      PrunedIsFormed(node.arms[0].children, moved);
      var block := Block([Arm(node.arms[0].header, Prune(node.arms[0].children, moved))], node.end);
      assert block.arms[1..] == [];
      OneNode(block);
    } else if Id(node) !in moved {
      if node.Leaf? {
        OneNode(node);
      } else {
        PrunedIsFormed(node.arms[0].children, {});
        PrunedArmsAreFormed(node.arms[1..]);
        var block := Block(PruneArms(node.arms), node.end);
        assert block == Tidied(node);
        assert block.arms[1..] == PruneArms(node.arms[1..]) && block.arms[0] == PruneArm(node.arms[0]);
        OneNode(block);
      }
    }
  }

  lemma {:induction false} PrunedArmsAreFormed(arms: seq<Arm>)
    requires FormedArms(arms)
    ensures FormedArms(PruneArms(arms))
    decreases arms, 2
  {
    if arms != [] {
      PrunedIsFormed(arms[0].children, {});
      PrunedArmsAreFormed(arms[1..]);
      assert PruneArms(arms)[1..] == PruneArms(arms[1..]);
    }
  }

  // ----- atoms by unit

  ghost predicate Belongs(atom: Atom, units: Units, unit: string) {
    Id(atom.node) in units && units[Id(atom.node)] == unit
  }

  lemma {:induction false} MembersOfMore(atoms: seq<Atom>, atom: Atom, units: Units, unit: string)
    ensures MembersOf(atoms + [atom], units, unit) == MembersOf(atoms, units, unit) + if Belongs(atom, units, unit)
        then [atom] else []
  {
    if atoms == [] {
      assert [atom][1..] == [] && [] + [atom] == [atom];
    } else {
      assert (atoms + [atom])[1..] == atoms[1..] + [atom];
      MembersOfMore(atoms[1..], atom, units, unit);
    }
  }

  type Groups = map<string, seq<Atom>>

  /** A group for each unit that has members, with its members in order. */
  ghost predicate Grouped(atoms: seq<Atom>, units: Units, names: seq<string>, groups: Groups) {
    && (forall name :: name in names <==> name in groups)
    && (forall name :: name in groups <==> MembersOf(atoms, units, name) != [])
    && (forall name :: name in groups ==> groups[name] == MembersOf(atoms, units, name))
  }

  /** The groups once one more atom is in. */
  ghost function Joined(groups: Groups, atom: Atom, units: Units): Groups {
    var id := Id(atom.node);
    if id !in units then groups
    else groups[units[id] := (if units[id] in groups then groups[units[id]] else []) + [atom]]
  }

  lemma {:induction false} JoinedIsGrouped(atoms: seq<Atom>, atom: Atom, units: Units, names: seq<string>,
                                           groups: Groups)
    requires Grouped(atoms, units, names, groups)
    ensures var id := Id(atom.node);
            Grouped(atoms + [atom], units, if id in units && units[id] !in groups then
                names + [units[id]] else names, Joined(groups, atom, units))
  {
    hide MembersOf;
    forall unit
      ensures MembersOf(atoms + [atom], units, unit) == MembersOf(atoms, units, unit) + if Belongs(atom, units, unit)
          then [atom] else []
    {
      MembersOfMore(atoms, atom, units, unit);
    }
    assert forall unit :: unit !in groups ==> MembersOf(atoms, units, unit) == [];
  }

  /** Groups the atoms; the units in the order in which they are met. */
  method Group(atoms: seq<Atom>, units: Units) returns (names: seq<string>, groups: Groups)
    ensures Grouped(atoms, units, names, groups)
  {
    hide Id, MembersOf;
    names, groups := [], map[];
    NothingGrouped(units);
    for n := 0 to |atoms|
      invariant Grouped(atoms[..n], units, names, groups)
    {
      JoinedIsGrouped(atoms[..n], atoms[n], units, names, groups);
      assert atoms[..n + 1] == atoms[..n] + [atoms[n]];
      var id := Id(atoms[n].node);
      if id in units {
        if units[id] in groups {
          groups := groups[units[id] := groups[units[id]] + [atoms[n]]];
        } else {
          assert [] + [atoms[n]] == [atoms[n]];
          names, groups := names + [units[id]], groups[units[id] := [atoms[n]]];
        }
      }
    }
    assert atoms[..|atoms|] == atoms;
  }

  lemma {:induction false} NothingGrouped(units: Units)
    ensures Grouped([], units, [], map[])
  {
  }

  // ----- the split

  type Fragments = map<string, seq<Item>>

  /**
    The fragment has the nodes of the unit's atoms as they are in the list, in order, and running it reaches just
    those of them that the list would have reached.
   */
  ghost predicate RunsUnit(nodes: seq<Node>, units: Units, name: string, items: seq<Item>) {
    && OpenGuards(items) == Some([])
    && Dos(items) == Choose(Wholes(nodes), UnitIds(units, name), true)
    && forall v: Valuation :: RunItems(items, v) == InUnit(Run(nodes, v), units, name)
  }

  /**
    The list and its split mean the same: the fragments are those of the units that have atoms, each runs its
    unit's atoms, and what is left is a list that runs the others, tidied up.
   */
  ghost predicate SameMeaning(nodes: seq<Node>, units: Units, left: seq<Node>, fragments: Fragments) {
    && (forall name :: name in fragments <==> MembersOf(Atoms(nodes, []), units, name) != [])
    && (forall name :: name in fragments ==> RunsUnit(nodes, units, name, fragments[name]))
    && (forall v: Valuation :: Run(left, v) == TidiedAll(Without(Run(nodes, v), units.Keys)))
  }

  /** The commands that a fragment has besides those of its guards. */
  ghost function Carried(items: seq<Item>): seq<Command> { FlattenAll(Dos(items)) }

  /** The command is in what is left, in one fragment, or among the lines of emptied guards, and in one of them only. */
  ghost predicate InOnePlace(c: Command, kept: seq<Command>, fragments: Fragments, shells: seq<Command>) {
    if c in kept || c in shells then
      !(c in kept && c in shells) && forall name :: name in fragments ==> c !in Carried(fragments[name])
    else
      exists name :: name in fragments && c in Carried(fragments[name])
                     && forall other :: other in fragments && c in Carried(fragments[other]) ==> other == name
  }

  /**
    Every command goes to one place, and comes from the list. Those that go nowhere are lines of single-branch
    `if`s with nothing left inside.
   */
  ghost predicate AllInOnePlace(commands: seq<Command>, kept: seq<Command>, fragments: Fragments,
                                shells: seq<Command>) {
    && (forall c :: c in commands ==> InOnePlace(c, kept, fragments, shells))
    && (forall c :: c in kept || c in shells ==> c in commands)
    && (forall name, c :: name in fragments && c in Carried(fragments[name]) ==> c in commands)
    && (forall c :: c in shells ==> Conditional(c))
  }

  /** Splits a list of commands; `units` says which atoms move, and where to. */
  method Split(commands: seq<Command>, units: Units) returns (r: Result<(seq<Command>, Fragments)>)
    requires DistinctLines(commands)
    ensures match r
            case Ok((kept, fragments)) =>
              exists nodes, left ::
                && FormedAll(nodes) && FlattenAll(nodes) == commands
                && FormedAll(left) && FlattenAll(left) == kept && left == Prune(nodes, units.Keys)
                && SameMeaning(nodes, units, left, fragments) && Divided(nodes, units, kept, fragments)
                && AllInOnePlace(commands, kept, fragments, Shells(nodes, units.Keys))
            case Failed(_) => OpenAfter(commands, |commands|) != Ok([])
  {
    var tree := Tree(commands);
    if tree.Failed? {
      return Failed(tree.error);
    }
    var nodes := tree.value;
    var atoms := Atoms(nodes, []);
    var names, groups := Group(atoms, units);
    var fragments := Fragmented(nodes, units, names, groups);
    var kept := Residual(nodes, units.Keys);
    PrunedIsFormed(nodes, units.Keys);
    forall v: Valuation ensures Run(Prune(nodes, units.Keys), v) == TidiedAll(Without(Run(nodes, v), units.Keys)) {
      PruneRuns(nodes, units.Keys, v);
    }
    assert SameMeaning(nodes, units, Prune(nodes, units.Keys), fragments);
    CommandsHavePlaces(nodes, units, kept, fragments);
    IsDivided(nodes, units, kept, fragments);
    r := Ok((kept, fragments));
  }

  lemma {:induction false} FragmentRuns(nodes: seq<Node>, units: Units, name: string, items: seq<Item>)
    requires OpenGuards(items) == Some([]) && Dos(items) == NodesOf(MembersOf(Atoms(nodes, []), units, name))
    requires forall v: Valuation :: RunItems(items, v) == Reached(MembersOf(Atoms(nodes, []), units, name), v)
    ensures RunsUnit(nodes, units, name, items)
  {
    WholesAreAtoms(nodes, []);
    MembersAreChosen(Atoms(nodes, []), units, name);
    forall v: Valuation ensures RunItems(items, v) == InUnit(Run(nodes, v), units, name) {
      SplitKeepsMeaning(nodes, units, name, items, v);
    }
  }

  method Fragmented(nodes: seq<Node>, units: Units, names: seq<string>, groups: Groups) returns (fragments: Fragments)
    requires FormedAll(nodes) && Grouped(Atoms(nodes, []), units, names, groups)
    ensures fragments.Keys == groups.Keys && forall name ::
        name in fragments ==>
          RunsUnit(nodes, units, name, fragments[name]) && HasUnit(nodes, units, name, fragments[name])
  {
    hide RunsUnit, HasUnit, MembersOf, Atoms, FormedAll;
    fragments := map[];
    for n := 0 to |names|
      invariant forall name :: name in fragments <==> name in names[..n]
      invariant forall name :: name in fragments ==>
          RunsUnit(nodes, units, name, fragments[name]) && HasUnit(nodes, units, name, fragments[name])
    {
      var name := names[n];
      assert name in names;
      var items := FragmentItems(groups[name]);
      FragmentRuns(nodes, units, name, items);
      FragmentHasUnit(nodes, units, name, items);
      fragments := fragments[name := items];
    }
    assert names[..|names|] == names;
  }

  // ----- every command has one place

  lemma {:induction false} DistinctIsOnce(commands: seq<Command>, c: Command)
    requires DistinctLines(commands)
    ensures multiset(commands)[c] <= 1
  {
    if commands != [] {
      var rest := commands[1..];
      DistinctIsOnce(rest, c);
      assert commands == [commands[0]] + rest;
      forall i | 0 <= i < |rest| ensures rest[i] != commands[0] {
        assert rest[i] == commands[i + 1];
      }
    }
  }

  /** A command that moves is in the fragment of its unit and in no other. */
  lemma {:induction false} MovedIsInOneFragment(nodes: seq<Node>, units: Units, fragments: Fragments, c: Command)
    requires forall name :: name in fragments <==> MembersOf(Atoms(nodes, []), units, name) != []
    requires forall name :: name in fragments ==> RunsUnit(nodes, units, name, fragments[name])
    requires Bag(Moved(nodes, units.Keys))[c] <= 1
    ensures c in Bag(Moved(nodes, units.Keys)) <==> exists name :: name in fragments && c in Carried(fragments[name])
    ensures forall a, b :: a in fragments && b in fragments && c in Carried(fragments[a]) && c in Carried(fragments[b])
              ==> a == b
  {
    hide Bag, Choose, Wholes, RunsUnit, MembersOf;
    forall name | name in fragments ensures multiset(Carried(fragments[name])) == UnitBag(nodes, units, name) {
      UnitBagIs(nodes, units, name, fragments[name]);
    }
    forall name | name in fragments && c in Carried(fragments[name]) ensures c in Bag(Moved(nodes, units.Keys)) {
      assert c in UnitBag(nodes, units, name);
      ChosenApart(Wholes(nodes), UnitIds(units, name), {}, units.Keys);
    }
    if c in Bag(Moved(nodes, units.Keys)) {
      var id := MovesToUnit(Wholes(nodes), units, c);
      UnitHasMembers(nodes, units, units[id], c);
      assert multiset(Carried(fragments[units[id]]))[c] > 0;
    }
    forall a, b | a in fragments && b in fragments && c in Carried(fragments[a]) && c in Carried(fragments[b])
      ensures a == b
    {
      if a != b { NotInTwo(nodes, units, a, b, c); }
    }
  }

  ghost function UnitBag(nodes: seq<Node>, units: Units, name: string): multiset<Command> {
    Bag(Choose(Wholes(nodes), UnitIds(units, name), true))
  }

  lemma {:induction false} NotInTwo(nodes: seq<Node>, units: Units, a: string, b: string, c: Command)
    requires a != b && Bag(Moved(nodes, units.Keys))[c] <= 1
    ensures !(c in UnitBag(nodes, units, a) && c in UnitBag(nodes, units, b))
  {
    hide Bag, Choose, Wholes;
    ChosenApart(Wholes(nodes), UnitIds(units, a), UnitIds(units, b), units.Keys);
    var both := UnitBag(nodes, units, a) + UnitBag(nodes, units, b);
    assert both[c] <= Bag(Moved(nodes, units.Keys))[c];
  }

  lemma {:induction false} UnitBagIs(nodes: seq<Node>, units: Units, name: string, items: seq<Item>)
    requires RunsUnit(nodes, units, name, items)
    ensures multiset(Carried(items)) == UnitBag(nodes, units, name)
  {
  }

  lemma {:induction false} UnitHasMembers(nodes: seq<Node>, units: Units, name: string, c: Command)
    requires c in UnitBag(nodes, units, name)
    ensures MembersOf(Atoms(nodes, []), units, name) != []
  {
    hide Choose, MembersOf;
    WholesAreAtoms(nodes, []);
    MembersAreChosen(Atoms(nodes, []), units, name);
  }

  lemma {:induction false} CommandsHavePlaces(nodes: seq<Node>, units: Units, kept: seq<Command>, fragments: Fragments)
    requires FormedAll(nodes) && DistinctLines(FlattenAll(nodes)) && kept == FlattenAll(Prune(nodes, units.Keys))
    requires forall name :: name in fragments <==> MembersOf(Atoms(nodes, []), units, name) != []
    requires forall name :: name in fragments ==> RunsUnit(nodes, units, name, fragments[name])
    ensures AllInOnePlace(FlattenAll(nodes), kept, fragments, Shells(nodes, units.Keys))
  {
    hide Choose, Wholes, RunsUnit, MembersOf, Prune, Shells, Moved, Conditional;
    var commands, shells := FlattenAll(nodes), Shells(nodes, units.Keys);
    ShellsAreConditional(nodes, units.Keys);
    NothingIsLost(nodes, units.Keys);
    var moved := Bag(Moved(nodes, units.Keys));
    forall c: Command
      ensures c in commands ==> InOnePlace(c, kept, fragments, shells)
      ensures c in kept || c in shells ==> c in commands
      ensures forall name :: name in fragments && c in Carried(fragments[name]) ==> c in commands
    {
      DistinctIsOnce(commands, c);
      assert multiset(commands)[c] == multiset(kept)[c] + moved[c] + multiset(shells)[c] <= 1;
      MovedIsInOneFragment(nodes, units, fragments, c);
      CountsAreMembers(commands, kept, shells, moved, c);
    }
  }

  lemma {:induction false} CountsAreMembers(commands: seq<Command>, kept: seq<Command>, shells: seq<Command>,
                                            moved: multiset<Command>, c: Command)
    requires multiset(commands)[c] == multiset(kept)[c] + moved[c] + multiset(shells)[c] <= 1
    ensures c in commands <==> c in kept || c in moved || c in shells
    ensures !(c in kept && c in moved) && !(c in kept && c in shells) && !(c in moved && c in shells)
  {
  }

  /** What moves and what stays, said of the tree alone. */
  lemma {:induction false} IsDivided(nodes: seq<Node>, units: Units, kept: seq<Command>, fragments: Fragments)
    requires FormedAll(nodes) && DistinctLines(FlattenAll(nodes)) && kept == FlattenAll(Prune(nodes, units.Keys))
    requires forall name :: name in fragments <==> MembersOf(Atoms(nodes, []), units, name) != []
    requires forall name :: name in fragments ==> HasUnit(nodes, units, name, fragments[name])
    requires AllInOnePlace(FlattenAll(nodes), kept, fragments, Shells(nodes, units.Keys))
    ensures Divided(nodes, units, kept, fragments)
  {
    hide HasUnit, MovesTo, Atoms, MembersOf, Prune, FlattenAll, DistinctLines, PartOf, Single, KeepsBounds, Shells,
      InOrder, Bounds, Dos, FormedAll;
    forall name ensures name in fragments <==> exists node :: MovesTo(nodes, units, name, node) {
      if name in fragments {
        MemberMoves(nodes, units, name, MembersOf(Atoms(nodes, []), units, name)[0]);
      }
      if node :| MovesTo(nodes, units, name, node) {
        var atom := MovesIsMember(nodes, units, name, node);
      }
    }
    KeptIsPruned(nodes, units.Keys);
    KeptInOrder(FlattenAll(nodes), Gone(nodes, units.Keys));
    forall node, header, children, end | PartOf(nodes, node) && Single(node, header, children, end)
      ensures KeepsBounds(kept, header, children, end)
    {
      SingleStays(nodes, units.Keys, node, header, children, end);
    }
    forall c | c in FlattenAll(nodes) && !Bounds(nodes, c)
      ensures c in kept <==> forall name :: name in fragments ==> c !in FlattenAll(Dos(fragments[name]))
    {
      if c in Shells(nodes, units.Keys) { ShellsBound(nodes, units.Keys, c); }
      assert InOnePlace(c, kept, fragments, Shells(nodes, units.Keys));
      assert forall name :: name in fragments ==> Carried(fragments[name]) == FlattenAll(Dos(fragments[name]));
    }
  }

  // ----- every atom has one place

  /**
    Whatever the conditions are, a node that the list reaches is reached as often by the split: by the fragment of
    its unit and by no other, or, tidied up, by what is left when it has no unit.
   */
  lemma {:induction false} OnePlaceOnly(nodes: seq<Node>, units: Units, left: seq<Node>, fragments: Fragments,
                                        v: Valuation, node: Node)
    requires SameMeaning(nodes, units, left, fragments) && node in Run(nodes, v)
    ensures Id(node) in units ==> units[Id(node)] in fragments
    ensures forall name :: name in fragments ==>
              multiset(RunItems(fragments[name], v))[node] == if Id(node) in units
                  && units[Id(node)] == name then multiset(Run(nodes, v))[node] else 0
    ensures Tidied(node) in Run(left, v) <==> Id(node) !in units
  {
    if Id(node) in units {
      RunReachesAtoms(nodes, [], v);
      MemberIsReached(Atoms(nodes, []), units, v, node);
    }
    forall name | name in fragments
      ensures multiset(RunItems(fragments[name], v))[node] == if Id(node) in units
          && units[Id(node)] == name then multiset(Run(nodes, v))[node] else 0
    {
      assert RunsUnit(nodes, units, name, fragments[name]);
      ChooseCounts(Run(nodes, v), UnitIds(units, name), true, node);
    }
    RunIsWhole(nodes, v);
    TidiedStays(Run(nodes, v), units.Keys, node);
  }

  lemma {:induction false} MemberIsReached(atoms: seq<Atom>, units: Units, v: Valuation, node: Node)
    requires node in Reached(atoms, v) && Id(node) in units
    ensures MembersOf(atoms, units, units[Id(node)]) != []
  {
    var first: seq<Node> := if AllHold(atoms[0].conditions, v) then [atoms[0].node] else [];
    if node !in first { MemberIsReached(atoms[1..], units, v, node); }
  }

  lemma {:induction false} RunIsWhole(nodes: seq<Node>, v: Valuation)
    ensures forall node :: node in Run(nodes, v) ==> !IsGuard(node)
    decreases nodes
  {
    if nodes != [] {
      RunIsWhole(nodes[1..], v);
      if IsGuard(nodes[0]) { RunIsWhole(nodes[0].arms[0].children, v); }
    }
  }

  /** Tidied up, the nodes that stay are there, and no node that moves is. */
  lemma {:induction false} TidiedStays(nodes: seq<Node>, moved: set<nat>, node: Node)
    requires node in nodes && forall n :: n in nodes ==> !IsGuard(n)
    ensures Tidied(node) in TidiedAll(Without(nodes, moved)) <==> Id(node) !in moved
  {
    hide Tidied, Id;
    StayingIds(nodes, moved);
    if Id(node) !in moved { TidiedIsThere(nodes, moved, node); }
  }

  lemma {:induction false} TidiedNext(nodes: seq<Node>, moved: set<nat>)
    requires nodes != []
    ensures TidiedAll(Without(nodes, moved))
        == (if Id(nodes[0]) in moved then [] else [Tidied(nodes[0])]) + TidiedAll(Without(nodes[1..], moved))
  {
    hide Tidied, Id;
    TidiedOne(nodes[0]);
    TidiedConcat([nodes[0]], Without(nodes[1..], moved));
    assert [] + Without(nodes[1..], moved) == Without(nodes[1..], moved);
    assert [] + TidiedAll(Without(nodes[1..], moved)) == TidiedAll(Without(nodes[1..], moved));
  }

  lemma {:induction false} StayingIds(nodes: seq<Node>, moved: set<nat>)
    requires forall n :: n in nodes ==> !IsGuard(n)
    ensures forall t :: t in TidiedAll(Without(nodes, moved)) ==> Id(t) !in moved
  {
    hide Tidied, Id;
    if nodes != [] {
      StayingIds(nodes[1..], moved);
      TidiedNext(nodes, moved);
    }
  }

  lemma {:induction false} TidiedIsThere(nodes: seq<Node>, moved: set<nat>, node: Node)
    requires node in nodes && Id(node) !in moved
    ensures Tidied(node) in TidiedAll(Without(nodes, moved))
  {
    hide Tidied, Id;
    TidiedNext(nodes, moved);
    if node != nodes[0] { TidiedIsThere(nodes[1..], moved, node); }
  }
}
