/**
  Splitting a CMake list into fragments: atoms under single-branch `if` blocks, the text of a fragment, and
  what is left of the list when atoms have moved out.
 */
module CMakeFragments {
  import opened Options
  import opened CommandTree

  /** An `if` with one branch. Its header and its end are repeated around the atoms that move out of it. */
  datatype Guard = Guard(header: Command, end: Command)

  predicate IsGuard(node: Node) { node.Block? && |node.arms| == 1 && node.arms[0].header.kind == Opens(IF) }

  function GuardOf(node: Node): Guard
    requires IsGuard(node)
  {
    Guard(node.arms[0].header, node.end)
  }

  /** A node is known by the line it starts on. */
  function Id(node: Node): nat {
    match node
    case Leaf(command) => command.line
    case Block(arms, end) => if arms == [] then end.line else arms[0].header.line
  }

  /** A node that is moved or kept as a whole, and the guards around it, outermost first. */
  datatype Atom = Atom(node: Node, conditions: seq<Guard>)

  function Atoms(nodes: seq<Node>, conditions: seq<Guard>): seq<Atom>
    decreases nodes
  {
    if nodes == [] then []
    else
      (if IsGuard(nodes[0]) then
          Atoms(nodes[0].arms[0].children, conditions + [GuardOf(nodes[0])]) else [Atom(nodes[0], conditions)])
      + Atoms(nodes[1..], conditions)
  }

  // ----- running a list

  /** The headers whose conditions hold. */
  type Valuation = set<nat>

  ghost predicate AllHold(conditions: seq<Guard>, v: Valuation) {
    forall i :: 0 <= i < |conditions| ==> conditions[i].header.line in v
  }

  /** The nodes that running a list reaches: guards are gone through, any other node is run as a whole. */
  ghost function Run(nodes: seq<Node>, v: Valuation): seq<Node>
    decreases nodes
  {
    if nodes == [] then []
    else
      (if !IsGuard(nodes[0]) then [nodes[0]]
       else if nodes[0].arms[0].header.line in v then Run(nodes[0].arms[0].children, v)
       else [])
      + Run(nodes[1..], v)
  }

  /** The atoms of a list whose guards all hold. */
  ghost function Reached(atoms: seq<Atom>, v: Valuation): seq<Node> {
    if atoms == [] then []
    else (if AllHold(atoms[0].conditions, v) then [atoms[0].node] else []) + Reached(atoms[1..], v)
  }

  lemma {:induction false} ReachedConcat(a: seq<Atom>, b: seq<Atom>, v: Valuation)
    ensures Reached(a + b, v) == Reached(a, v) + Reached(b, v)
  {
    if a == [] {
      assert a + b == b;
    } else {
      assert (a + b)[1..] == a[1..] + b && (a + b)[0] == a[0];
      ReachedConcat(a[1..], b, v);
    }
  }

  lemma {:induction false} OneMoreHolds(conditions: seq<Guard>, g: Guard, v: Valuation)
    ensures AllHold(conditions + [g], v) <==> AllHold(conditions, v) && g.header.line in v
  {
    var all := conditions + [g];
    if AllHold(all, v) {
      assert all[|conditions|] == g;
      forall i | 0 <= i < |conditions| ensures conditions[i].header.line in v { assert all[i] == conditions[i]; }
    }
  }

  /** Running a list reaches exactly the atoms whose guards hold, in order. */
  lemma {:induction false} RunReachesAtoms(nodes: seq<Node>, conditions: seq<Guard>, v: Valuation)
    ensures Reached(Atoms(nodes, conditions), v) == if AllHold(conditions, v) then Run(nodes, v) else []
    decreases nodes
  {
    if nodes != [] {
      var rest := Atoms(nodes[1..], conditions);
      RunReachesAtoms(nodes[1..], conditions, v);
      if IsGuard(nodes[0]) {
        var inner := Atoms(nodes[0].arms[0].children, conditions + [GuardOf(nodes[0])]);
        RunReachesAtoms(nodes[0].arms[0].children, conditions + [GuardOf(nodes[0])], v);
        OneMoreHolds(conditions, GuardOf(nodes[0]), v);
        ReachedConcat(inner, rest, v);
      } else {
        var one := [Atom(nodes[0], conditions)];
        ReachedConcat(one, rest, v);
        assert one[1..] == [];
      }
    }
  }

  // ----- fragments

  datatype Item = Enter(guard: Guard) | Leave(guard: Guard) | Do(node: Node)

  /** The open guards after the items, or none when a guard is left that was not entered last. */
  ghost function OpenGuards(items: seq<Item>): Option<seq<Guard>> {
    if items == [] then Some([])
    else
      var before, last := OpenGuards(items[..|items| - 1]), items[|items| - 1];
      if before.None? then None
      else
        match last
        case Enter(g) => Some(before.value + [g])
        case Leave(g) => if before.value != [] && before.value[|before.value| - 1] == g
            then Some(before.value[..|before.value| - 1]) else None
        case Do(_) => before
  }

  /** The nodes that running the items reaches. */
  ghost function RunItems(items: seq<Item>, v: Valuation): seq<Node> {
    if items == [] then []
    else
      var before, last := items[..|items| - 1], items[|items| - 1];
      RunItems(before, v)
      + if last.Do? && OpenGuards(before).Some? && AllHold(OpenGuards(before).value, v) then [last.node] else []
  }

  /** The nodes a fragment has, whatever the guards around them. */
  ghost function Dos(items: seq<Item>): seq<Node> {
    if items == [] then []
    else
      var last := items[|items| - 1];
      Dos(items[..|items| - 1]) + if last.Do? then [last.node] else []
  }

  ghost function NodesOf(atoms: seq<Atom>): (r: seq<Node>)
    ensures |r| == |atoms| && forall i :: 0 <= i < |r| ==> r[i] == atoms[i].node
  {
    seq(|atoms|, i requires 0 <= i < |atoms| => atoms[i].node)
  }

  lemma {:induction false} TakeMore(s: seq<Guard>, n: nat)
    requires n < |s|
    ensures s[..n + 1] == [s[0]] + s[1..][..n]
  {
  }

  /** How many guards two chains begin with together. */
  function Common(a: seq<Guard>, b: seq<Guard>): (n: nat)
    ensures n <= |a| && n <= |b| && a[..n] == b[..n]
    ensures n < |a| && n < |b| ==> a[n] != b[n]
  {
    if a == [] || b == [] || a[0] != b[0] then 0
    else
      var rest := Common(a[1..], b[1..]);
      TakeMore(a, rest);
      TakeMore(b, rest);
      1 + rest
  }

  /** Each node stands inside the guards that its atom has. */
  ghost predicate InPlace(items: seq<Item>, members: seq<Atom>) {
    forall k :: 0 <= k < |items| && items[k].Do? ==>
        OpenGuards(items[..k]).Some? && Atom(items[k].node, OpenGuards(items[..k]).value) in members
  }

  ghost predicate SaysSo(out: seq<Item>, open: seq<Guard>, members: seq<Atom>) {
    && OpenGuards(out) == Some(open) && Dos(out) == NodesOf(members) && InPlace(out, members)
    && forall v: Valuation :: RunItems(out, v) == Reached(members, v)
  }

  lemma {:induction false} OneItemMore(out: seq<Item>, item: Item, open: seq<Guard>, members: seq<Atom>)
    requires SaysSo(out, open, members) && !item.Do?
    requires item.Leave? ==> open != [] && item.guard == open[|open| - 1]
    ensures SaysSo(out + [item], if item.Enter? then open + [item.guard] else open[..|open| - 1], members)
  {
    StillInPlace(out, item, members);
  }

  lemma {:induction false} StillInPlace(out: seq<Item>, item: Item, members: seq<Atom>)
    requires InPlace(out, members)
    requires item.Do? ==> OpenGuards(out).Some? && Atom(item.node, OpenGuards(out).value) in members
    ensures InPlace(out + [item], members)
  {
    var all := out + [item];
    assert all[..|out|] == out;
    forall k | 0 <= k < |out| && all[k].Do?
      ensures OpenGuards(all[..k]).Some? && Atom(all[k].node, OpenGuards(all[..k]).value) in members
    {
      assert all[..k] == out[..k] && all[k] == out[k];
    }
  }

  lemma {:induction false} OnePlaceMore(out: seq<Item>, open: seq<Guard>, members: seq<Atom>, atom: Atom)
    requires OpenGuards(out) == Some(open) && InPlace(out, members) && atom.conditions == open
    ensures InPlace(out + [Do(atom.node)], members + [atom])
  {
    assert atom == Atom(atom.node, open);
    StillInPlace(out, Do(atom.node), members + [atom]);
  }

  lemma {:induction false} OneAtomMore(out: seq<Item>, open: seq<Guard>, members: seq<Atom>, atom: Atom)
    requires SaysSo(out, open, members) && atom.conditions == open
    ensures SaysSo(out + [Do(atom.node)], open, members + [atom])
  {
    hide InPlace;
    var all := out + [Do(atom.node)];
    assert all[..|all| - 1] == out;
    assert InPlace(all, members + [atom]) by { OnePlaceMore(out, open, members, atom); }
    forall v: Valuation ensures RunItems(all, v) == Reached(members + [atom], v) {
      assert RunItems(out, v) == Reached(members, v);
      ReachedConcat(members, [atom], v);
      assert [atom][1..] == [];
    }
  }

  /**
    The items of a fragment: each atom with its guards, which stay open as long as the next atom needs them.
    They are balanced and have the members' nodes as they were, in order. Whatever the conditions are, running
    them reaches just the members that the list would have reached, in order.
   */
  method FragmentItems(members: seq<Atom>) returns (out: seq<Item>)
    ensures OpenGuards(out) == Some([]) && Dos(out) == NodesOf(members) && InPlace(out, members)
    ensures forall v: Valuation :: RunItems(out, v) == Reached(members, v)
  {
    out := [];
    var stack: seq<Guard> := [];
    for n := 0 to |members|
      invariant SaysSo(out, stack, members[..n])
    {
      var conditions := members[n].conditions;
      var common := Common(stack, conditions);
      out, stack := LeaveTo(out, stack, common, members[..n]);
      out, stack := EnterFrom(out, stack, conditions, members[..n]);
      OneAtomMore(out, stack, members[..n], members[n]);
      out := out + [Do(members[n].node)];
      assert members[..n + 1] == members[..n] + [members[n]];
    }
    assert members[..|members|] == members;
    out, stack := LeaveTo(out, stack, 0, members);
    assert stack == [];
  }

  method LeaveTo(out: seq<Item>, stack: seq<Guard>, common: nat, ghost members: seq<Atom>)
    returns (out': seq<Item>, stack': seq<Guard>)
    requires common <= |stack| && SaysSo(out, stack, members)
    ensures stack' == stack[..common] && SaysSo(out', stack', members)
  {
    out', stack' := out, stack;
    while |stack'| > common
      invariant common <= |stack'| <= |stack| && stack' == stack[..|stack'|] && SaysSo(out', stack', members)
    {
      OneItemMore(out', Leave(stack'[|stack'| - 1]), stack', members);
      out' := out' + [Leave(stack'[|stack'| - 1])];
      stack' := stack'[..|stack'| - 1];
    }
  }

  method EnterFrom(out: seq<Item>, stack: seq<Guard>, conditions: seq<Guard>, ghost members: seq<Atom>)
    returns (out': seq<Item>, stack': seq<Guard>)
    requires stack <= conditions && SaysSo(out, stack, members)
    ensures stack' == conditions && SaysSo(out', stack', members)
  {
    out', stack' := out, stack;
    while |stack'| < |conditions|
      invariant stack' <= conditions && SaysSo(out', stack', members)
      decreases |conditions| - |stack'|
    {
      var block := conditions[|stack'|];
      OneItemMore(out', Enter(block), stack', members);
      out' := out' + [Enter(block)];
      stack' := stack' + [block];
    }
  }

  // ----- what is left of the list

  /** The list without the moved atoms, and without guards that are empty. Nothing moves out of an atom. */
  ghost function Prune(nodes: seq<Node>, moved: set<nat>): seq<Node>
    decreases nodes, 1
  {
    if nodes == [] then [] else PruneNode(nodes[0], moved) + Prune(nodes[1..], moved)
  }

  ghost function PruneNode(node: Node, moved: set<nat>): seq<Node>
    decreases node, 1
  {
    if IsGuard(node) then
      var children := Prune(node.arms[0].children, moved);
      if children == [] then [] else [Block([Arm(node.arms[0].header, children)], node.end)]
    else if Id(node) in moved then []
    else [Tidied(node)]
  }

  /** A node that stays: the same, but that single-branch `if`s with nothing in them are gone from it. */
  ghost function Tidied(node: Node): (r: Node)
    ensures !IsGuard(node) ==> Id(r) == Id(node) && !IsGuard(r)
    decreases node, 0
  {
    if node.Leaf? then node else Block(PruneArms(node.arms), node.end)
  }

  ghost function TidiedAll(nodes: seq<Node>): seq<Node> {
    if nodes == [] then [] else [Tidied(nodes[0])] + TidiedAll(nodes[1..])
  }

  lemma {:induction false} TidiedConcat(a: seq<Node>, b: seq<Node>)
    ensures TidiedAll(a + b) == TidiedAll(a) + TidiedAll(b)
  {
    if a == [] {
      assert a + b == b;
    } else {
      assert (a + b)[1..] == a[1..] + b && (a + b)[0] == a[0];
      TidiedConcat(a[1..], b);
    }
  }

  lemma {:induction false} TidiedOne(node: Node)
    ensures TidiedAll([node]) == [Tidied(node)] && TidiedAll([]) == []
  {
  }

  ghost function PruneArms(arms: seq<Arm>): (r: seq<Arm>)
    ensures |r| == |arms| && forall i :: 0 <= i < |r| ==> r[i].header == arms[i].header
    decreases arms, 2
  {
    if arms == [] then [] else [PruneArm(arms[0])] + PruneArms(arms[1..])
  }

  ghost function PruneArm(arm: Arm): Arm
    decreases arm, 2
  {
    Arm(arm.header, Prune(arm.children, {}))
  }

  /** The nodes whose lines are among `ids` (inside), or are not (outside), in order. */
  ghost function Choose(nodes: seq<Node>, ids: set<nat>, inside: bool): seq<Node> {
    if nodes == [] then []
    else (if (Id(nodes[0]) in ids) == inside then [nodes[0]] else []) + Choose(nodes[1..], ids, inside)
  }

  lemma {:induction false} ChooseConcat(a: seq<Node>, b: seq<Node>, ids: set<nat>, inside: bool)
    ensures Choose(a + b, ids, inside) == Choose(a, ids, inside) + Choose(b, ids, inside)
  {
    hide Id;
    if a == [] {
      assert a + b == b;
    } else {
      assert (a + b)[1..] == a[1..] + b && (a + b)[0] == a[0];
      ChooseConcat(a[1..], b, ids, inside);
    }
  }

  lemma {:induction false} ChooseOne(node: Node, ids: set<nat>, inside: bool)
    ensures Choose([node], ids, inside) == (if (Id(node) in ids) == inside then [node] else [])
        && Choose([], ids, inside) == []
  {
  }

  /** The nodes that have not moved. */
  ghost function Without(nodes: seq<Node>, moved: set<nat>): seq<Node> { Choose(nodes, moved, false) }

  lemma {:induction false} RunConcat(a: seq<Node>, b: seq<Node>, v: Valuation)
    ensures Run(a + b, v) == Run(a, v) + Run(b, v)
  {
    if a == [] {
      assert a + b == b;
    } else {
      assert (a + b)[1..] == a[1..] + b && (a + b)[0] == a[0];
      RunConcat(a[1..], b, v);
    }
  }

  /** What is left reaches just the atoms that did not move, tidied up, whatever the conditions are. */
  lemma {:induction false} PruneRuns(nodes: seq<Node>, moved: set<nat>, v: Valuation)
    ensures Run(Prune(nodes, moved), v) == TidiedAll(Without(Run(nodes, v), moved))
    decreases nodes, 1
  {
    hide Tidied, PruneNode;
    if nodes != [] {
      PruneRuns(nodes[1..], moved, v);
      NodeRuns(nodes[0], moved, v);
      RunConcat(PruneNode(nodes[0], moved), Prune(nodes[1..], moved), v);
      RunConcat([nodes[0]], nodes[1..], v);
      assert [nodes[0]] + nodes[1..] == nodes;
      ChooseConcat(Run([nodes[0]], v), Run(nodes[1..], v), moved, false);
      TidiedConcat(Without(Run([nodes[0]], v), moved), Without(Run(nodes[1..], v), moved));
    }
  }

  lemma {:induction false} NodeRuns(node: Node, moved: set<nat>, v: Valuation)
    ensures Run(PruneNode(node, moved), v) == TidiedAll(Without(Run([node], v), moved))
    decreases node, 0
  {
    OneRuns(node, v);
    TidiedOne(node);
    ChooseOne(node, moved, false);
    if IsGuard(node) {
      var children := node.arms[0].children;
      PruneRuns(children, moved, v);
      if Prune(children, moved) != [] {
        OneRuns(Block([Arm(node.arms[0].header, Prune(children, moved))], node.end), v);
      }
    } else {
      OneRuns(Tidied(node), v);
    }
  }

  lemma {:induction false} OneRuns(node: Node, v: Valuation)
    ensures Run([node], v)
            == if !IsGuard(node) then
                [node] else if node.arms[0].header.line in v then Run(node.arms[0].children, v) else []
  {
  }

  // ----- every atom goes to one place

  /** The unit an atom is assigned to, if it moves. */
  type Units = map<nat, string>

  ghost function MembersOf(atoms: seq<Atom>, units: Units, unit: string): seq<Atom> {
    if atoms == [] then []
    else
      (if Id(atoms[0].node) in units && units[Id(atoms[0].node)] == unit then [atoms[0]] else [])
          + MembersOf(atoms[1..], units, unit)
  }

  ghost function UnitIds(units: Units, unit: string): set<nat> { set id | id in units && units[id] == unit }

  /** The nodes of a run that belong to a unit. */
  ghost function InUnit(nodes: seq<Node>, units: Units, unit: string): seq<Node> {
    Choose(nodes, UnitIds(units, unit), true)
  }

  lemma {:induction false} MembersReached(atoms: seq<Atom>, units: Units, unit: string, v: Valuation)
    ensures Reached(MembersOf(atoms, units, unit), v) == InUnit(Reached(atoms, v), units, unit)
  {
    if atoms != [] {
      MembersReached(atoms[1..], units, unit, v);
      var a, members := atoms[0], MembersOf(atoms[1..], units, unit);
      var first: seq<Node> := if AllHold(a.conditions, v) then [a.node] else [];
      ChooseConcat(first, Reached(atoms[1..], v), UnitIds(units, unit), true);
      ChooseOne(a.node, UnitIds(units, unit), true);
      ReachedConcat([a], members, v);
      assert [a][1..] == [] && Reached([a], v) == first;
      assert [] + members == members;
    }
  }

  /**
    Whatever the conditions are, an atom that the list reaches is reached in exactly one place: as it was in the
    fragment of its unit, or tidied up in what is left. In each place the order is that of the list.
   */
  lemma {:induction false} SplitKeepsMeaning(nodes: seq<Node>, units: Units, unit: string, items: seq<Item>,
                                             v: Valuation)
    requires RunItems(items, v) == Reached(MembersOf(Atoms(nodes, []), units, unit), v)
    ensures RunItems(items, v) == InUnit(Run(nodes, v), units, unit)
    ensures Run(Prune(nodes, units.Keys), v) == TidiedAll(Without(Run(nodes, v), units.Keys))
  {
    RunReachesAtoms(nodes, [], v);
    MembersReached(Atoms(nodes, []), units, unit, v);
    PruneRuns(nodes, units.Keys, v);
  }

  lemma {:induction false} ChooseCounts(nodes: seq<Node>, ids: set<nat>, inside: bool, node: Node)
    ensures multiset(Choose(nodes, ids, inside))[node]
        == if (Id(node) in ids) == inside then multiset(nodes)[node] else 0
  {
    if nodes != [] {
      ChooseCounts(nodes[1..], ids, inside, node);
      assert nodes == [nodes[0]] + nodes[1..];
    }
  }
}
