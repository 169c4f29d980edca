/** The commands of a CMake list as a tree of blocks. */
module CommandTree {

  /** The word of a block: `if` is 0, the others are numbered after it. */
  type Word = nat
  const IF: Word := 0

  datatype Kind = Simple | Opens(word: Word) | Branches | Closes(word: Word)

  /** A command and the line it starts on. */
  datatype Command = Command(kind: Kind, line: nat)

  datatype Node = Leaf(command: Command) | Block(arms: seq<Arm>, end: Command)

  /** A header or branch of a block, with what stands under it. */
  datatype Arm = Arm(header: Command, children: seq<Node>)

  // ----- flattening

  function Flatten(node: Node): seq<Command>
    decreases node, 0
  {
    match node
    case Leaf(command) => [command]
    case Block(arms, end) => FlattenArms(arms) + [end]
  }

  function FlattenArms(arms: seq<Arm>): seq<Command>
    decreases arms, 2
  {
    if arms == [] then [] else FlattenArm(arms[0]) + FlattenArms(arms[1..])
  }

  function FlattenArm(arm: Arm): seq<Command>
    decreases arm, 2
  {
    [arm.header] + FlattenAll(arm.children)
  }

  function FlattenAll(nodes: seq<Node>): seq<Command>
    decreases nodes, 1
  {
    if nodes == [] then [] else Flatten(nodes[0]) + FlattenAll(nodes[1..])
  }

  /** Blocks close what they open, and only an `if` has branches. */
  ghost predicate Formed(node: Node)
    decreases node, 0
  {
    match node
    case Leaf(command) => command.kind == Simple
    case Block(arms, end) =>
      && arms != [] && arms[0].header.kind.Opens? && end.kind == Closes(arms[0].header.kind.word)
      && FormedAll(arms[0].children) && FormedArms(arms[1..]) && (|arms| > 1 ==> arms[0].header.kind.word == IF)
  }

  ghost predicate FormedArms(arms: seq<Arm>)
    decreases arms, 2
  {
    arms == [] || (arms[0].header.kind == Branches && FormedAll(arms[0].children) && FormedArms(arms[1..]))
  }

  ghost predicate FormedAll(nodes: seq<Node>)
    decreases nodes, 1
  {
    nodes == [] || (Formed(nodes[0]) && FormedAll(nodes[1..]))
  }

  lemma {:induction false} FlattenConcat(a: seq<Node>, b: seq<Node>)
    ensures FlattenAll(a + b) == FlattenAll(a) + FlattenAll(b)
  {
    if a == [] {
      assert a + b == b;
    } else {
      assert (a + b)[1..] == a[1..] + b && (a + b)[0] == a[0];
      FlattenConcat(a[1..], b);
    }
  }

  lemma {:induction false} FormedConcat(a: seq<Node>, b: seq<Node>)
    requires FormedAll(a) && FormedAll(b)
    ensures FormedAll(a + b)
  {
    if a == [] {
      assert a + b == b;
    } else {
      assert (a + b)[1..] == a[1..] + b && (a + b)[0] == a[0];
      FormedConcat(a[1..], b);
    }
  }

  lemma {:induction false} FlattenArmsConcat(a: seq<Arm>, b: seq<Arm>)
    ensures FlattenArms(a + b) == FlattenArms(a) + FlattenArms(b)
  {
    if a == [] {
      assert a + b == b;
    } else {
      assert (a + b)[1..] == a[1..] + b && (a + b)[0] == a[0];
      FlattenArmsConcat(a[1..], b);
    }
  }

  lemma {:induction false} FormedArmsConcat(a: seq<Arm>, b: seq<Arm>)
    requires FormedArms(a) && FormedArms(b)
    ensures FormedArms(a + b)
  {
    if a == [] {
      assert a + b == b;
    } else {
      assert (a + b)[1..] == a[1..] + b && (a + b)[0] == a[0];
      FormedArmsConcat(a[1..], b);
    }
  }

  lemma {:induction false} OneNode(node: Node)
    ensures FlattenAll([node]) == Flatten(node) && (FormedAll([node]) <==> Formed(node))
  {
  }

  lemma {:induction false} OneArm(arm: Arm)
    ensures FlattenArms([arm]) == FlattenArm(arm)
    ensures arm.header.kind == Branches && FormedAll(arm.children) ==> FormedArms([arm])
  {
  }

  // ----- what is balanced

  datatype Error = BranchOutsideIf(line: nat) | Unmatched(line: nat) | Unclosed(line: nat)

  datatype Result<+T> = Ok(value: T) | Failed(error: Error)

  /** The words of the open blocks after the first n commands, or the first command that does not fit. */
  ghost function OpenAfter(commands: seq<Command>, n: nat): Result<seq<Command>>
    requires n <= |commands|
  {
    if n == 0 then Ok([])
    else
      var before := OpenAfter(commands, n - 1);
      if before.Failed? then before
      else
        var open, c := before.value, commands[n - 1];
        match c.kind
        case Simple => Ok(open)
        case Opens(_) => Ok(open + [c])
        case Branches =>
          if open == [] || open[|open| - 1].kind != Opens(IF) then Failed(BranchOutsideIf(c.line)) else Ok(open)
        case Closes(word) =>
          if open == [] || open[|open| - 1].kind != Opens(word) then
              Failed(Unmatched(c.line)) else Ok(open[..|open| - 1])
  }

  lemma {:induction false} StaysFailed(commands: seq<Command>, m: nat, n: nat)
    requires m <= n <= |commands| && OpenAfter(commands, m).Failed?
    ensures OpenAfter(commands, n) == OpenAfter(commands, m)
  {
    if m < n { StaysFailed(commands, m, n - 1); }
  }

  // ----- a list is the flattening of one tree only

  /** What cannot follow inside a list of nodes: nothing, a branch or an end. */
  ghost predicate Stops(rest: seq<Command>) { rest == [] || rest[0].kind == Branches || rest[0].kind.Closes? }

  lemma {:induction false} BlockParts(node: Node)
    requires node.Block? && node.arms != []
    ensures var first, rest := node.arms[0], node.arms[1..];
            Flatten(node) == [first.header] + (FlattenAll(first.children) + (FlattenArms(rest) + [node.end]))
  {
    var first, rest := node.arms[0], node.arms[1..];
    assert FlattenArms(node.arms) == ([first.header] + FlattenAll(first.children)) + FlattenArms(rest);
    Associates([first.header], FlattenAll(first.children), FlattenArms(rest), [node.end]);
  }

  lemma {:induction false} Associates(a: seq<Command>, b: seq<Command>, c: seq<Command>, d: seq<Command>)
    ensures ((a + b) + c) + d == a + (b + (c + d)) == (a + (b + c)) + d && (b + (c + d))[|b|..] == c + d
  {
  }

  lemma {:induction false} FirstOf(node: Node)
    requires Formed(node)
    ensures var s := Flatten(node);
        s != [] && if node.Leaf? then s == [node.command] && s[0].kind == Simple else s[0].kind.Opens?
  {
    if node.Block? { BlockParts(node); }
  }

  /** The parts of a list with something after it. */
  lemma {:induction false} ListParts(nodes: seq<Node>, x: seq<Command>)
    requires FormedAll(nodes)
    ensures nodes == [] ==> FlattenAll(nodes) + x == x
    ensures nodes != [] ==>
              && Formed(nodes[0]) && FormedAll(nodes[1..]) && nodes == [nodes[0]] + nodes[1..]
              && FlattenAll(nodes) + x == Flatten(nodes[0]) + (FlattenAll(nodes[1..]) + x)
              && !Stops(FlattenAll(nodes) + x)
  {
    if nodes == [] {
      assert FlattenAll(nodes) == [] && [] + x == x;
    } else {
      FirstOf(nodes[0]);
      assert (FlattenAll(nodes) + x)[0] == Flatten(nodes[0])[0];
    }
  }

  lemma {:induction false} ArmParts(arms: seq<Arm>, x: seq<Command>)
    requires FormedArms(arms)
    ensures arms == [] ==> FlattenArms(arms) + x == x
    ensures arms != [] ==>
              && arms[0].header.kind == Branches && FormedAll(arms[0].children) && FormedArms(arms[1..])
                  && arms == [arms[0]] + arms[1..]
              && FlattenArms(arms) + x == [arms[0].header] + (FlattenAll(arms[0].children)
                  + (FlattenArms(arms[1..]) + x))
  {
  }

  lemma {:induction false} SameEnds(a: seq<Command>, b: seq<Command>, x: seq<Command>, y: seq<Command>)
    requires a + x == b + y && |a| == |b|
    ensures a == b && x == y
  {
    assert (a + x)[..|a|] == a && (b + y)[..|b|] == b && (a + x)[|a|..] == x && (b + y)[|b|..] == y;
  }

  lemma {:induction false} SameNode(p: Node, q: Node, x: seq<Command>, y: seq<Command>)
    requires Formed(p) && Formed(q) && Flatten(p) + x == Flatten(q) + y
    ensures p == q && x == y
    decreases p, 0
  {
    hide Flatten, Formed;
    FirstOf(p);
    FirstOf(q);
    assert Flatten(p)[0] == (Flatten(p) + x)[0] == (Flatten(q) + y)[0] == Flatten(q)[0];
    if p.Leaf? {
      SameEnds(Flatten(p), Flatten(q), x, y);
    } else {
      SameBlock(p, q, x, y);
    }
  }

  lemma {:induction false} SameBlock(p: Node, q: Node, x: seq<Command>, y: seq<Command>)
    requires p.Block? && q.Block? && Formed(p) && Formed(q) && Flatten(p) + x == Flatten(q) + y
    ensures p == q && x == y
    decreases p.arms, 3
  {
    hide Flatten, FlattenAll, FlattenArms, FormedAll, FormedArms, Stops;
    BlockParts(p);
    BlockParts(q);
    var a, b, s, t := p.arms[0], q.arms[0], p.arms[1..], q.arms[1..];
    Peel(a.header, FlattenAll(a.children), FlattenArms(s), [p.end], x);
    Peel(b.header, FlattenAll(b.children), FlattenArms(t), [q.end], y);
    SameEnds([a.header], [b.header], FlattenAll(a.children) + (FlattenArms(s) + ([p.end] + x)),
        FlattenAll(b.children) + (FlattenArms(t) + ([q.end] + y)));
    ArmsStop(s, [p.end] + x);
    ArmsStop(t, [q.end] + y);
    SameAll(a.children, b.children, FlattenArms(s) + ([p.end] + x), FlattenArms(t) + ([q.end] + y));
    SameArms(s, t, [p.end] + x, [q.end] + y);
    SameEnds([p.end], [q.end], x, y);
    assert p.arms == [a] + s && q.arms == [b] + t;
  }

  lemma {:induction false} Peel(header: Command, children: seq<Command>, arms: seq<Command>, end: seq<Command>,
                                x: seq<Command>)
    ensures ([header] + (children + (arms + end))) + x == [header] + (children + (arms + (end + x)))
  {
  }

  lemma {:induction false} ArmsStop(arms: seq<Arm>, x: seq<Command>)
    requires FormedArms(arms) && x != [] && x[0].kind.Closes?
    ensures Stops(FlattenArms(arms) + x)
  {
  }

  lemma {:induction false} SameAll(a: seq<Node>, b: seq<Node>, x: seq<Command>, y: seq<Command>)
    requires FormedAll(a) && FormedAll(b) && Stops(x) && Stops(y) && FlattenAll(a) + x == FlattenAll(b) + y
    ensures a == b && x == y
    decreases a, 1
  {
    hide Flatten, FlattenAll, Formed, FormedAll, Stops;
    ListParts(a, x);
    ListParts(b, y);
    if a != [] && b != [] {
      SameNode(a[0], b[0], FlattenAll(a[1..]) + x, FlattenAll(b[1..]) + y);
      SameAll(a[1..], b[1..], x, y);
    }
  }

  lemma {:induction false} SameArms(a: seq<Arm>, b: seq<Arm>, x: seq<Command>, y: seq<Command>)
    requires FormedArms(a) && FormedArms(b) && x != [] && x[0].kind.Closes? && y != [] && y[0].kind.Closes?
    requires FlattenArms(a) + x == FlattenArms(b) + y
    ensures a == b && x == y
    decreases a, 2
  {
    hide FlattenAll, FlattenArms, FormedAll, FormedArms, Stops;
    ArmParts(a, x);
    ArmParts(b, y);
    if a != [] && b != [] {
      var s, t := FlattenArms(a[1..]) + x, FlattenArms(b[1..]) + y;
      SameEnds([a[0].header], [b[0].header], FlattenAll(a[0].children) + s, FlattenAll(b[0].children) + t);
      ArmsStop(a[1..], x);
      ArmsStop(b[1..], y);
      SameAll(a[0].children, b[0].children, s, t);
      SameArms(a[1..], b[1..], x, y);
    } else {
      assert (FlattenArms(a) + x)[0].kind == (FlattenArms(b) + y)[0].kind;
    }
  }

  // ----- flattening a tree gives a balanced list

  /** From n on the commands are these. */
  ghost predicate Reads(commands: seq<Command>, n: nat, s: seq<Command>) {
    n + |s| <= |commands| && commands[n..n + |s|] == s
  }

  lemma {:induction false} ReadsParts(commands: seq<Command>, n: nat, a: seq<Command>, b: seq<Command>)
    requires Reads(commands, n, a + b)
    ensures Reads(commands, n, a) && Reads(commands, n + |a|, b)
  {
    assert commands[n..n + |a|] == (a + b)[..|a|] && commands[n + |a|..n + |a| + |b|] == (a + b)[|a|..];
  }

  lemma {:induction false} OneRead(commands: seq<Command>, n: nat, c: Command)
    requires Reads(commands, n, [c])
    ensures commands[n] == c
  {
  }

  lemma {:induction false} NodeBalances(commands: seq<Command>, n: nat, node: Node, open: seq<Command>)
    requires Formed(node) && Reads(commands, n, Flatten(node)) && OpenAfter(commands, n) == Ok(open)
    ensures OpenAfter(commands, n + |Flatten(node)|) == Ok(open)
    decreases node, 0
  {
    if node.Leaf? {
      OneRead(commands, n, node.command);
    } else {
      BlockBalances(commands, n, node, open);
    }
  }

  lemma {:induction false} BlockBalances(commands: seq<Command>, n: nat, node: Node, open: seq<Command>)
    requires node.Block? && Formed(node) && Reads(commands, n, Flatten(node)) && OpenAfter(commands, n) == Ok(open)
    ensures OpenAfter(commands, n + |Flatten(node)|) == Ok(open)
    decreases node.arms, 3
  {
    hide Flatten, FlattenAll, FlattenArms, FormedAll, FormedArms, Reads, OpenAfter;
    BlockParts(node);
    var first, rest := node.arms[0], node.arms[1..];
    var s, t := FlattenAll(first.children), FlattenArms(rest);
    ReadsParts(commands, n, [first.header], s + (t + [node.end]));
    ReadsParts(commands, n + 1, s, t + [node.end]);
    ReadsParts(commands, n + 1 + |s|, t, [node.end]);
    Opening(commands, n, first.header, open);
    AllBalance(commands, n + 1, first.children, open + [first.header]);
    ArmsBalance(commands, n + 1 + |s|, rest, open, first.header);
    Closing(commands, n + 1 + |s| + |t|, node.end, open, first.header);
  }

  lemma {:induction false} Opening(commands: seq<Command>, n: nat, c: Command, open: seq<Command>)
    requires Reads(commands, n, [c]) && c.kind.Opens? && OpenAfter(commands, n) == Ok(open)
    ensures n < |commands| && OpenAfter(commands, n + 1) == Ok(open + [c])
  {
  }

  lemma {:induction false} Branching(commands: seq<Command>, n: nat, c: Command, open: seq<Command>, opener: Command)
    requires Reads(commands, n, [c]) && c.kind == Branches && opener.kind == Opens(IF)
        && OpenAfter(commands, n) == Ok(open + [opener])
    ensures n < |commands| && OpenAfter(commands, n + 1) == Ok(open + [opener])
  {
  }

  lemma {:induction false} Closing(commands: seq<Command>, n: nat, c: Command, open: seq<Command>, opener: Command)
    requires Reads(commands, n, [c]) && opener.kind.Opens? && c.kind == Closes(opener.kind.word)
    requires OpenAfter(commands, n) == Ok(open + [opener])
    ensures n < |commands| && OpenAfter(commands, n + 1) == Ok(open)
  {
  }

  lemma {:induction false} AllBalance(commands: seq<Command>, n: nat, nodes: seq<Node>, open: seq<Command>)
    requires FormedAll(nodes) && Reads(commands, n, FlattenAll(nodes)) && OpenAfter(commands, n) == Ok(open)
    ensures OpenAfter(commands, n + |FlattenAll(nodes)|) == Ok(open)
    decreases nodes, 1
  {
    hide Flatten, FlattenAll, Formed, FormedAll, Reads, OpenAfter;
    ListParts(nodes, []);
    assert FlattenAll(nodes) + [] == FlattenAll(nodes);
    if nodes != [] {
      assert FlattenAll(nodes[1..]) + [] == FlattenAll(nodes[1..]);
      ReadsParts(commands, n, Flatten(nodes[0]), FlattenAll(nodes[1..]));
      NodeBalances(commands, n, nodes[0], open);
      AllBalance(commands, n + |Flatten(nodes[0])|, nodes[1..], open);
    }
  }

  lemma {:induction false} ArmsBalance(commands: seq<Command>, n: nat, arms: seq<Arm>, open: seq<Command>,
                                       opener: Command)
    requires FormedArms(arms) && Reads(commands, n, FlattenArms(arms)) && OpenAfter(commands, n) == Ok(open + [opener])
    requires arms != [] ==> opener.kind == Opens(IF)
    ensures OpenAfter(commands, n + |FlattenArms(arms)|) == Ok(open + [opener])
    decreases arms, 2
  {
    hide FlattenAll, FlattenArms, FormedAll, FormedArms, Reads, OpenAfter;
    ArmParts(arms, []);
    assert FlattenArms(arms) + [] == FlattenArms(arms);
    if arms != [] {
      var s, t := FlattenAll(arms[0].children), FlattenArms(arms[1..]);
      assert t + [] == t;
      ReadsParts(commands, n, [arms[0].header], s + t);
      ReadsParts(commands, n + 1, s, t);
      Branching(commands, n, arms[0].header, open, opener);
      AllBalance(commands, n + 1, arms[0].children, open + [opener]);
      ArmsBalance(commands, n + 1 + |s|, arms[1..], open, opener);
    }
  }

  /** A list of commands is balanced exactly when it is the flattening of a tree. */
  lemma {:induction false} FormedIsBalanced(nodes: seq<Node>)
    requires FormedAll(nodes)
    ensures OpenAfter(FlattenAll(nodes), |FlattenAll(nodes)|) == Ok([])
  {
    AllBalance(FlattenAll(nodes), 0, nodes, []);
  }

  // ----- building the tree

  /** A block that is still open: what came before it, its finished arms, and the header of the current one. */
  datatype Pending = Pending(outer: seq<Node>, arms: seq<Arm>, header: Command)

  /** The header that opened the block. */
  function Opener(p: Pending): Command { if p.arms == [] then p.header else p.arms[0].header }

  ghost function FlattenPending(stack: seq<Pending>): seq<Command> {
    if stack == [] then []
    else
      var last := stack[|stack| - 1];
      FlattenPending(stack[..|stack| - 1]) + FlattenAll(last.outer) + FlattenArms(last.arms) + [last.header]
  }

  ghost predicate FormedPending(p: Pending) {
    && FormedAll(p.outer)
    && (if p.arms == [] then p.header.kind.Opens?
        else
            p.header.kind == Branches && p.arms[0].header.kind == Opens(IF) && FormedAll(p.arms[0].children)
                && FormedArms(p.arms[1..]))
  }

  /** The pending blocks and the current list say what the first n commands say. */
  ghost predicate Building(commands: seq<Command>, n: nat, stack: seq<Pending>, current: seq<Node>)
    requires n <= |commands|
  {
    && FlattenPending(stack) + FlattenAll(current) == commands[..n] && FormedAll(current)
    && OpenAfter(commands, n).Ok? && |OpenAfter(commands, n).value| == |stack|
    && forall i :: 0 <= i < |stack| ==> FormedPending(stack[i]) && Opener(stack[i]) == OpenAfter(commands, n).value[i]
  }

  lemma {:induction false} BuildLeaf(commands: seq<Command>, n: nat, stack: seq<Pending>, current: seq<Node>)
    requires n < |commands| && commands[n].kind == Simple && Building(commands, n, stack, current)
    ensures Building(commands, n + 1, stack, current + [Leaf(commands[n])])
  {
    var node := Leaf(commands[n]);
    OneNode(node);
    FlattenConcat(current, [node]);
    FormedConcat(current, [node]);
    assert commands[..n + 1] == commands[..n] + [commands[n]];
    assert FlattenPending(stack) + (FlattenAll(current) + [commands[n]])
        == FlattenPending(stack) + FlattenAll(current) + [commands[n]];
  }

  lemma {:induction false} BuildOpen(commands: seq<Command>, n: nat, stack: seq<Pending>, current: seq<Node>)
    requires n < |commands| && commands[n].kind.Opens? && Building(commands, n, stack, current)
    ensures Building(commands, n + 1, stack + [Pending(current, [], commands[n])], [])
  {
  }

  function WithArm(p: Pending, children: seq<Node>): seq<Arm> { p.arms + [Arm(p.header, children)] }

  lemma {:induction false} ArmJoins(p: Pending, children: seq<Node>)
    requires FormedPending(p) && FormedAll(children)
    ensures var arms := WithArm(p, children);
            && arms[0].header == Opener(p) && arms[0].header.kind.Opens? && FormedAll(arms[0].children)
                && FormedArms(arms[1..])
            && (|arms| > 1 ==> arms[0].header.kind == Opens(IF))
            && FlattenArms(arms) == FlattenArms(p.arms) + [p.header] + FlattenAll(children)
  {
    var arm := Arm(p.header, children);
    OneArm(arm);
    FlattenArmsConcat(p.arms, [arm]);
    if p.arms != [] {
      assert WithArm(p, children)[1..] == p.arms[1..] + [arm];
      FormedArmsConcat(p.arms[1..], [arm]);
    }
  }

  lemma {:induction false} FlattenNextArm(init: seq<Pending>, p: Pending, children: seq<Node>, header: Command)
    requires FormedPending(p) && FormedAll(children) && header.kind == Branches && Opener(p).kind == Opens(IF)
    ensures var p' := Pending(p.outer, WithArm(p, children), header);
            && FormedPending(p') && Opener(p') == Opener(p)
            && FlattenPending(init + [p']) + FlattenAll([]) == FlattenPending(init + [p]) + FlattenAll(children)
                + [header]
  {
    ArmJoins(p, children);
    var p' := Pending(p.outer, WithArm(p, children), header);
    assert (init + [p'])[..|init|] == init == (init + [p])[..|init|];
    var before := FlattenPending(init) + FlattenAll(p.outer);
    assert before + (FlattenArms(p.arms) + [p.header] + FlattenAll(children))
        == before + FlattenArms(p.arms) + [p.header] + FlattenAll(children);
    assert FlattenPending(init + [p']) == before + FlattenArms(p'.arms) + [header];
  }

  lemma {:induction false} BuildBranch(commands: seq<Command>, n: nat, stack: seq<Pending>, current: seq<Node>)
    requires n < |commands| && commands[n].kind == Branches && Building(commands, n, stack, current)
        && OpenAfter(commands, n + 1).Ok?
    ensures stack != []
    ensures var p := stack[|stack| - 1];
            Building(commands, n + 1, stack[..|stack| - 1] + [Pending(p.outer, WithArm(p, current), commands[n])], [])
  {
    var init, p := stack[..|stack| - 1], stack[|stack| - 1];
    assert init + [p] == stack;
    FlattenNextArm(init, p, current, commands[n]);
    assert commands[..n + 1] == commands[..n] + [commands[n]];
    hide FlattenPending, FlattenAll, FormedAll, FormedPending, WithArm, Opener;
  }

  lemma {:induction false} Regrouped(before: seq<Command>, done: seq<Command>, arms: seq<Command>, header: Command,
                                     children: seq<Command>, end: Command)
    ensures before + (done + ((arms + [header] + children) + [end])) == (before + done + arms + [header] + children)
        + [end]
  {
  }

  lemma {:induction false} FlattenClosed(init: seq<Pending>, p: Pending, children: seq<Node>, end: Command)
    requires FormedPending(p) && FormedAll(children) && end.kind.Closes? && Opener(p).kind == Opens(end.kind.word)
    ensures var outer := p.outer + [Block(WithArm(p, children), end)];
            && FormedAll(outer)
            && FlattenPending(init) + FlattenAll(outer) == FlattenPending(init + [p]) + FlattenAll(children) + [end]
  {
    ArmJoins(p, children);
    var node := Block(WithArm(p, children), end);
    OneNode(node);
    FlattenConcat(p.outer, [node]);
    FormedConcat(p.outer, [node]);
    assert (init + [p])[..|init|] == init;
    var before := FlattenPending(init);
    var done, arms := FlattenAll(p.outer), FlattenArms(WithArm(p, children));
    Regrouped(before, done, FlattenArms(p.arms), p.header, FlattenAll(children), end);
    assert FlattenAll(p.outer + [node]) == done + (arms + [end]);
    hide FlattenAll, FlattenArms, FormedAll, FormedArms, WithArm, Formed, Flatten;
    assert before + (FlattenAll(p.outer) + (FlattenArms(WithArm(p, children)) + [end]))
           == (before + FlattenAll(p.outer) + FlattenArms(p.arms) + [p.header] + FlattenAll(children)) + [end];
  }

  lemma {:induction false} BuildClose(commands: seq<Command>, n: nat, stack: seq<Pending>, current: seq<Node>)
    requires n < |commands| && commands[n].kind.Closes? && Building(commands, n, stack, current)
        && OpenAfter(commands, n + 1).Ok?
    ensures stack != []
    ensures var p := stack[|stack| - 1];
            Building(commands, n + 1, stack[..|stack| - 1], p.outer + [Block(WithArm(p, current), commands[n])])
  {
    var init, p := stack[..|stack| - 1], stack[|stack| - 1];
    assert init + [p] == stack;
    FlattenClosed(init, p, current, commands[n]);
    assert commands[..n + 1] == commands[..n] + [commands[n]];
    hide FlattenPending, FlattenAll, FormedAll, FormedPending, WithArm, Opener;
  }

  /**
    Builds the tree. It fails exactly where the commands are not balanced; otherwise flattening the tree
    gives the commands back, and no other tree does.
   */
  method Tree(commands: seq<Command>) returns (r: Result<seq<Node>>)
    ensures r.Ok? <==> OpenAfter(commands, |commands|) == Ok([])
    ensures r.Ok? ==> FlattenAll(r.value) == commands && FormedAll(r.value)
    ensures forall nodes :: FormedAll(nodes) && FlattenAll(nodes) == commands ==> r == Ok(nodes)
    ensures OpenAfter(commands, |commands|).Failed? ==> r == Failed(OpenAfter(commands, |commands|).error)
    ensures OpenAfter(commands, |commands|).Ok? && OpenAfter(commands, |commands|).value != [] ==>
              var open := OpenAfter(commands, |commands|).value; r == Failed(Unclosed(open[|open| - 1].line))
  {
    OnlyTree(commands);
    var current: seq<Node>, stack: seq<Pending> := [], [];
    for n := 0 to |commands|
      invariant Building(commands, n, stack, current)
    {
      var c := commands[n];
      var fault := Fault(c, stack);
      FaultIsOpenAfter(commands, n, stack, current);
      if fault.Failed? {
        StaysFailed(commands, n + 1, |commands|);
        return Failed(fault.error);
      }
      current, stack := Take(commands, n, current, stack);
    }
    assert commands[..|commands|] == commands;
    if stack != [] {
      return Failed(Unclosed(Opener(stack[|stack| - 1]).line));
    }
    r := Ok(current);
  }

  lemma {:induction false} OnlyTree(commands: seq<Command>)
    ensures forall nodes ::
        FormedAll(nodes) && FlattenAll(nodes) == commands ==> OpenAfter(commands, |commands|) == Ok([])
    ensures forall a, b ::
        FormedAll(a) && FlattenAll(a) == commands && FormedAll(b) && FlattenAll(b) == commands ==> a == b
  {
    forall nodes | FormedAll(nodes) && FlattenAll(nodes) == commands ensures OpenAfter(commands, |commands|) == Ok([]) {
      FormedIsBalanced(nodes);
    }
    forall a, b | FormedAll(a) && FlattenAll(a) == commands && FormedAll(b) && FlattenAll(b) == commands
        ensures a == b {
      SameAll(a, b, [], []);
    }
  }

  /** Why a command does not fit the open blocks. */
  function Fault(c: Command, stack: seq<Pending>): Result<()> {
    match c.kind
    case Simple => Ok(())
    case Opens(_) => Ok(())
    case Branches =>
      if stack == [] || Opener(stack[|stack| - 1]).kind != Opens(IF) then Failed(BranchOutsideIf(c.line)) else Ok(())
    case Closes(word) =>
      if stack == [] || Opener(stack[|stack| - 1]).kind != Opens(word) then Failed(Unmatched(c.line)) else Ok(())
  }

  lemma {:induction false} FaultIsOpenAfter(commands: seq<Command>, n: nat, stack: seq<Pending>, current: seq<Node>)
    requires n < |commands| && Building(commands, n, stack, current)
    ensures Fault(commands[n], stack).Failed? <==> OpenAfter(commands, n + 1).Failed?
    ensures Fault(commands[n], stack).Failed? ==> OpenAfter(commands, n + 1) == Failed(Fault(commands[n], stack).error)
  {
  }

  method Take(commands: seq<Command>, n: nat, current: seq<Node>, stack: seq<Pending>)
    returns (current': seq<Node>, stack': seq<Pending>)
    requires n < |commands| && Building(commands, n, stack, current) && OpenAfter(commands, n + 1).Ok?
    ensures Building(commands, n + 1, stack', current')
  {
    var c := commands[n];
    if c.kind == Simple {
      BuildLeaf(commands, n, stack, current);
      return current + [Leaf(c)], stack;
    }
    if c.kind.Opens? {
      BuildOpen(commands, n, stack, current);
      return [], stack + [Pending(current, [], c)];
    }
    if c.kind == Branches {
      BuildBranch(commands, n, stack, current);
      var p := stack[|stack| - 1];
      return [], stack[..|stack| - 1] + [Pending(p.outer, WithArm(p, current), c)];
    }
    BuildClose(commands, n, stack, current);
    var p := stack[|stack| - 1];
    return p.outer + [Block(WithArm(p, current), c)], stack[..|stack| - 1];
  }
}
