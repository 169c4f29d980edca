/**
  What becomes of every command of a CMake list that is split: it stays, it moves with its atom, or it is a line of
  a single-branch `if` that has nothing left inside.
 */
module CMakeShells {
  import opened CommandTree
  import opened CMakeFragments

  // ----- the nodes of the atoms

  /** The nodes that move or stay as a whole. */
  ghost function Wholes(nodes: seq<Node>): seq<Node>
    decreases nodes
  {
    if nodes == [] then []
    else (if IsGuard(nodes[0]) then Wholes(nodes[0].arms[0].children) else [nodes[0]]) + Wholes(nodes[1..])
  }

  lemma {:induction false} WholesAreAtoms(nodes: seq<Node>, conditions: seq<Guard>)
    ensures NodesOf(Atoms(nodes, conditions)) == Wholes(nodes)
    decreases nodes
  {
    if nodes != [] {
      WholesAreAtoms(nodes[1..], conditions);
      if IsGuard(nodes[0]) {
        WholesAreAtoms(nodes[0].arms[0].children, conditions + [GuardOf(nodes[0])]);
      }
    }
  }

  lemma {:induction false} MembersAreChosen(atoms: seq<Atom>, units: Units, unit: string)
    ensures NodesOf(MembersOf(atoms, units, unit)) == Choose(NodesOf(atoms), UnitIds(units, unit), true)
  {
    if atoms != [] {
      MembersAreChosen(atoms[1..], units, unit);
      assert NodesOf(atoms)[1..] == NodesOf(atoms[1..]);
    }
  }

  // ----- emptied guards

  /** The first and last lines of the guards that are emptied, those inside atoms that stay among them. */
  ghost function Shells(nodes: seq<Node>, moved: set<nat>): seq<Command>
    decreases nodes, 1
  {
    if nodes == [] then [] else ShellsOf(nodes[0], moved) + Shells(nodes[1..], moved)
  }

  ghost function ShellsOf(node: Node, moved: set<nat>): seq<Command>
    decreases node, 0
  {
    if IsGuard(node) then
      var inside := Shells(node.arms[0].children, moved);
      if Prune(node.arms[0].children, moved) == [] then [node.arms[0].header] + inside + [node.end] else inside
    else if Id(node) in moved || node.Leaf? then []
    else ShellsIn(node.arms)
  }

  ghost function ShellsIn(arms: seq<Arm>): seq<Command>
    decreases arms, 2
  {
    if arms == [] then [] else Shells(arms[0].children, {}) + ShellsIn(arms[1..])
  }

  ghost predicate Conditional(c: Command) { c.kind == Opens(IF) || c.kind == Closes(IF) }

  /** Nothing but `if` and `endif` lines goes to no place. */
  lemma {:induction false} ShellsAreConditional(nodes: seq<Node>, moved: set<nat>)
    requires FormedAll(nodes)
    ensures forall c :: c in Shells(nodes, moved) ==> Conditional(c)
    decreases nodes, 1
  {
    if nodes != [] {
      ShellsOfAreConditional(nodes[0], moved);
      ShellsAreConditional(nodes[1..], moved);
    }
  }

  lemma {:induction false} ShellsOfAreConditional(node: Node, moved: set<nat>)
    requires Formed(node)
    ensures forall c :: c in ShellsOf(node, moved) ==> Conditional(c)
    decreases node, 0
  {
    if IsGuard(node) {
      ShellsAreConditional(node.arms[0].children, moved);
    } else if Id(node) !in moved && node.Block? {
      ShellsAreConditional(node.arms[0].children, {});
      ShellsInAreConditional(node.arms[1..]);
    }
  }

  lemma {:induction false} ShellsInAreConditional(arms: seq<Arm>)
    requires FormedArms(arms)
    ensures forall c :: c in ShellsIn(arms) ==> Conditional(c)
    decreases arms, 2
  {
    if arms != [] {
      ShellsAreConditional(arms[0].children, {});
      ShellsInAreConditional(arms[1..]);
    }
  }

  // ----- nothing is lost and nothing is doubled

  /** The commands of a list, as often as they are in it. */
  ghost function Bag(nodes: seq<Node>): multiset<Command> { multiset(FlattenAll(nodes)) }

  lemma {:induction false} BagConcat(a: seq<Node>, b: seq<Node>)
    ensures Bag(a + b) == Bag(a) + Bag(b)
  {
    FlattenConcat(a, b);
  }

  lemma {:induction false} BagOne(node: Node)
    ensures Bag([node]) == multiset(Flatten(node)) && Bag([]) == multiset{}
  {
    OneNode(node);
  }

  ghost function Moved(nodes: seq<Node>, moved: set<nat>): seq<Node> { Choose(Wholes(nodes), moved, true) }

  /** What becomes of the commands of a list: they stay, move, or belong to an emptied guard. */
  ghost function Places(nodes: seq<Node>, moved: set<nat>): multiset<Command> {
    Bag(Prune(nodes, moved)) + Bag(Moved(nodes, moved)) + multiset(Shells(nodes, moved))
  }

  lemma {:induction false} WholesNext(nodes: seq<Node>)
    requires nodes != []
    ensures Wholes(nodes) == Wholes([nodes[0]]) + Wholes(nodes[1..])
  {
    assert [nodes[0]][1..] == [];
  }

  lemma {:induction false} PlacesNext(nodes: seq<Node>, moved: set<nat>)
    requires nodes != []
    ensures Bag(nodes) == Bag([nodes[0]]) + Bag(nodes[1..])
    ensures Places(nodes, moved) == Places([nodes[0]], moved) + Places(nodes[1..], moved)
  {
    hide Bag, PruneNode, ShellsOf, Wholes;
    var one, rest := [nodes[0]], nodes[1..];
    assert one[1..] == [] && one + rest == nodes;
    BagConcat(one, rest);
    WholesNext(nodes);
    ChooseConcat(Wholes(one), Wholes(rest), moved, true);
    BagConcat(Moved(one, moved), Moved(rest, moved));
    assert Prune(nodes, moved) == Prune(one, moved) + Prune(rest, moved);
    BagConcat(Prune(one, moved), Prune(rest, moved));
    assert Shells(nodes, moved) == Shells(one, moved) + Shells(rest, moved);
  }

  /** Every command stays, moves, or belongs to an emptied guard, as often as it is in the list. */
  lemma {:induction false} NothingIsLost(nodes: seq<Node>, moved: set<nat>)
    ensures Bag(nodes) == Places(nodes, moved)
    decreases nodes, 1
  {
    hide Places;
    if nodes == [] {
      NothingIsNothing(moved);
    } else {
      PlacesNext(nodes, moved);
      NodeIsNotLost(nodes[0], moved);
      NothingIsLost(nodes[1..], moved);
    }
  }

  lemma {:induction false} NothingIsNothing(moved: set<nat>)
    ensures Bag([]) == Places([], moved) == multiset{}
  {
  }

  lemma {:induction false} NodeIsNotLost(node: Node, moved: set<nat>)
    ensures Bag([node]) == Places([node], moved)
    decreases node, 0
  {
    hide Bag, Places, Flatten, Tidied;
    if IsGuard(node) {
      NothingIsLost(node.arms[0].children, moved);
      GuardIsNotLost(node, moved);
    } else if Id(node) in moved {
      MovesWhole(node, moved);
    } else {
      if node.Block? { ArmsAreNotLost(node.arms); }
      StaysWhole(node, moved);
    }
  }

  lemma {:induction false} MovesWhole(node: Node, moved: set<nat>)
    requires !IsGuard(node) && Id(node) in moved
    ensures Bag([node]) == Places([node], moved)
  {
    hide Bag, Id;
    OneWhole(node);
    ChooseOne(node, moved, true);
    BagOne(node);
    PruneOne(node, moved);
    assert ShellsOf(node, moved) == [] && Shells([node], moved) == [];
  }

  lemma {:induction false} OneWhole(node: Node)
    ensures [node][1..] == [] && (!IsGuard(node) ==> Wholes([node]) == [node])
  {
  }

  lemma {:induction false} StaysWhole(node: Node, moved: set<nat>)
    requires !IsGuard(node) && Id(node) !in moved
    requires node.Block? ==>
        multiset(FlattenArms(node.arms)) == multiset(FlattenArms(PruneArms(node.arms))) + multiset(ShellsIn(node.arms))
    ensures Bag([node]) == Places([node], moved)
  {
    hide Bag, Id;
    var tidied := Tidied(node);
    OneWhole(node);
    ChooseOne(node, moved, true);
    BagOne(node);
    BagOne(tidied);
    assert Prune([node], moved) == [tidied] && Moved([node], moved) == [];
    if node.Leaf? {
      assert Shells([node], moved) == [];
    } else {
      assert Shells([node], moved) == ShellsIn(node.arms);
      assert multiset(Flatten(node)) == multiset(Flatten(tidied)) + multiset(ShellsIn(node.arms));
    }
  }

  lemma {:induction false} GuardBag(header: Command, children: seq<Node>, end: Command)
    ensures Bag([Block([Arm(header, children)], end)]) == multiset{header} + Bag(children) + multiset{end}
  {
    OneArm(Arm(header, children));
    BagOne(Block([Arm(header, children)], end));
  }

  lemma {:induction false} GuardIsNotLost(node: Node, moved: set<nat>)
    requires IsGuard(node) && Bag(node.arms[0].children) == Places(node.arms[0].children, moved)
    ensures Bag([node]) == Places([node], moved)
  {
    hide Bag, Choose;
    var header, children := node.arms[0].header, node.arms[0].children;
    var left, inside := Prune(children, moved), Shells(children, moved);
    GuardBag(header, children, node.end);
    BagOne(node);
    GuardPlaces(node, moved);
    if left != [] { GuardBag(header, left, node.end); }
  }

  lemma {:induction false} GuardPlaces(node: Node, moved: set<nat>)
    requires IsGuard(node)
    ensures node == Block([Arm(node.arms[0].header, node.arms[0].children)], node.end)
    ensures var header, children := node.arms[0].header, node.arms[0].children;
            var left, inside := Prune(children, moved), Shells(children, moved);
            && Moved([node], moved) == Moved(children, moved)
            && Prune([node], moved) == (if left == [] then [] else [Block([Arm(header, left)], node.end)])
            && Shells([node], moved) == if left == [] then [header] + inside + [node.end] else inside
  {
    hide Prune;
    OneWhole(node);
    PruneOne(node, moved);
    assert ShellsOf(node, moved) + [] == ShellsOf(node, moved);
    assert Wholes([node]) == Wholes(node.arms[0].children);
  }

  lemma {:induction false} PruneOne(node: Node, moved: set<nat>)
    ensures Prune([node], moved) == PruneNode(node, moved)
  {
  }

  lemma {:induction false} ArmsAreNotLost(arms: seq<Arm>)
    ensures multiset(FlattenArms(arms)) == multiset(FlattenArms(PruneArms(arms))) + multiset(ShellsIn(arms))
    decreases arms, 2
  {
    hide Wholes, Prune, Shells, Choose, FlattenAll;
    if arms != [] {
      var children := arms[0].children;
      NothingIsLost(children, {});
      NothingChosen(Wholes(children));
      ArmsAreNotLost(arms[1..]);
      assert PruneArms(arms)[1..] == PruneArms(arms[1..]) && PruneArms(arms)[0] == PruneArm(arms[0]);
      NothingFlat();
      assert multiset(FlattenAll(children)) == multiset(FlattenAll(Prune(children, {})))
          + multiset(Shells(children, {}));
    }
  }

  lemma {:induction false} NothingFlat()
    ensures FlattenAll([]) == []
  {
  }

  lemma {:induction false} NothingChosen(nodes: seq<Node>)
    ensures Choose(nodes, {}, true) == []
  {
    if nodes != [] { NothingChosen(nodes[1..]); }
  }

  // ----- what moves goes to one unit

  lemma {:induction false} OneMoreChosen(nodes: seq<Node>, ids: set<nat>)
    requires nodes != []
    ensures Bag(Choose(nodes, ids, true)) == (if Id(nodes[0]) in ids then multiset(Flatten(nodes[0])) else multiset{})
        + Bag(Choose(nodes[1..], ids, true))
  {
    hide Bag, Flatten;
    BagOne(nodes[0]);
    BagConcat([nodes[0]], Choose(nodes[1..], ids, true));
    assert [] + Choose(nodes[1..], ids, true) == Choose(nodes[1..], ids, true);
  }

  /** Disjoint ids choose parts that are apart, of what any more ids choose. */
  lemma {:induction false} ChosenApart(nodes: seq<Node>, a: set<nat>, b: set<nat>, all: set<nat>)
    requires a !! b && a + b <= all
    ensures Bag(Choose(nodes, a, true)) + Bag(Choose(nodes, b, true)) <= Bag(Choose(nodes, all, true))
  {
    hide Bag, Choose, Flatten;
    if nodes == [] {
      NothingChosenAtAll(a);
      NothingChosenAtAll(b);
      NothingChosenAtAll(all);
    } else {
      ChosenApart(nodes[1..], a, b, all);
      OneMoreChosen(nodes, a);
      OneMoreChosen(nodes, b);
      OneMoreChosen(nodes, all);
      var first := multiset(Flatten(nodes[0]));
      assert Id(nodes[0]) in a + b ==> Id(nodes[0]) in all;
      AddsAtMost(
        if Id(nodes[0]) in a + b then first else multiset{}, if Id(nodes[0]) in all then first else multiset{},
        Bag(Choose(nodes[1..], a, true)) + Bag(Choose(nodes[1..], b, true)), Bag(Choose(nodes[1..], all, true)));
      assert Bag(Choose(nodes, a, true)) + Bag(Choose(nodes, b, true))
          == (if Id(nodes[0]) in a + b then first else multiset{})
              + (Bag(Choose(nodes[1..], a, true)) + Bag(Choose(nodes[1..], b, true)));
    }
  }

  lemma {:induction false} AddsAtMost(a: multiset<Command>, b: multiset<Command>, c: multiset<Command>,
                                      d: multiset<Command>)
    requires a <= b && c <= d
    ensures a + c <= b + d
  {
  }

  /** A moved command moves with an atom, and so to the unit of that atom. */
  lemma {:induction false} MovesToUnit(nodes: seq<Node>, units: Units, c: Command) returns (id: nat)
    requires c in Bag(Choose(nodes, units.Keys, true))
    ensures id in units && c in Bag(Choose(nodes, UnitIds(units, units[id]), true))
  {
    hide Bag, Choose, Flatten;
    if nodes == [] {
      NothingChosenAtAll(units.Keys);
      assert false;
    } else {
      OneMoreChosen(nodes, units.Keys);
      if Id(nodes[0]) in units && c in Flatten(nodes[0]) {
        id := Id(nodes[0]);
      } else {
        id := MovesToUnit(nodes[1..], units, c);
      }
      OneMoreChosen(nodes, UnitIds(units, units[id]));
    }
  }

  lemma {:induction false} NothingChosenAtAll(ids: set<nat>)
    ensures Bag(Choose([], ids, true)) == multiset{}
  {
  }
}
