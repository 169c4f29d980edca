/**
  Conditional groups in a function body: reading them into a tree, and the tie between the enumerated texts
  and the text that conditional inclusion keeps (section 6.10.1 of ISO/IEC 9899:2018).
 */
module ConditionalInclusion {
  import opened BranchVariants

  /** A body is stretches of text with directives between them; #ifdef and #ifndef are read as #if. */
  datatype Token = Words(text: string) | If | Elif | Else | Endif

  const BRANCH_VARIANT_LIMIT := 256

  // ----- what conditional inclusion keeps

  /** An open group: whether one of its branches was taken already, and whether the current one is. */
  datatype Level = Level(taken: bool, active: bool)

  predicate Active(levels: seq<Level>) {
    forall i :: 0 <= i < |levels| ==> levels[i].active
  }

  /** The level after a directive of a group, of which a branch was taken already or not. */
  function Enter(kind: Token, taken: bool, holds: bool): Level {
    if kind == Else then Level(true, !taken) else if taken then Level(true, false) else Level(holds, holds)
  }

  /** `holds` says whether the condition of the directive is true. */
  function Step(levels: seq<Level>, token: Token, holds: bool): seq<Level> {
    if token == If then levels + [Enter(If, false, holds)]
    else if token.Words? || levels == [] then levels
    else if token == Endif then levels[..|levels| - 1]
    else levels[..|levels| - 1] + [Enter(token, levels[|levels| - 1].taken, holds)]
  }

  function KeptOf(levels: seq<Level>, token: Token): string {
    if token.Words? && Active(levels) then token.text else ""
  }

  function Kept(tokens: seq<Token>, holds: seq<bool>, levels: seq<Level>): string
    requires |holds| == |tokens|
  {
    if tokens == [] then
        "" else KeptOf(levels, tokens[0]) + Kept(tokens[1..], holds[1..], Step(levels, tokens[0], holds[0]))
  }

  function After(tokens: seq<Token>, holds: seq<bool>, levels: seq<Level>): seq<Level>
    requires |holds| == |tokens|
  {
    if tokens == [] then levels else After(tokens[1..], holds[1..], Step(levels, tokens[0], holds[0]))
  }

  lemma {:induction false} AfterConcat(a: seq<Token>, b: seq<Token>, holds: seq<bool>, levels: seq<Level>)
    requires |holds| == |a| + |b|
    ensures After(a + b, holds, levels) == After(b, holds[|a|..], After(a, holds[..|a|], levels))
  {
    if a == [] {
      assert a + b == b && holds[|a|..] == holds;
    } else {
      hide Step;
      assert (a + b)[1..] == a[1..] + b && (a + b)[0] == a[0];
      assert holds[1..][..|a| - 1] == holds[..|a|][1..] && holds[1..][|a| - 1..] == holds[|a|..];
      AfterConcat(a[1..], b, holds[1..], Step(levels, a[0], holds[0]));
    }
  }

  lemma {:induction false} KeptConcat(a: seq<Token>, b: seq<Token>, holds: seq<bool>, levels: seq<Level>)
    requires |holds| == |a| + |b|
    ensures var between := After(a, holds[..|a|], levels);
            && After(a + b, holds, levels) == After(b, holds[|a|..], between)
            && Kept(a + b, holds, levels) == Kept(a, holds[..|a|], levels) + Kept(b, holds[|a|..], between)
  {
    hide *;
    AfterConcat(a, b, holds, levels);
    FirstToken(a, holds[..|a|], levels);
    if a == [] {
      assert a + b == b && holds[|a|..] == holds;
    } else {
      var next, mine := Step(levels, a[0], holds[0]), holds[..|a|];
      assert (a + b)[1..] == a[1..] + b && (a + b)[0] == a[0];
      assert holds[1..][..|a| - 1] == mine[1..] && holds[1..][|a| - 1..] == holds[|a|..];
      FirstToken(a + b, holds, levels);
      KeptConcat(a[1..], b, holds[1..], next);
    }
  }

  /** What the first token does to the text kept and the levels. */
  lemma {:induction false} FirstToken(tokens: seq<Token>, holds: seq<bool>, levels: seq<Level>)
    requires |holds| == |tokens|
    ensures tokens == [] ==> After(tokens, holds, levels) == levels && Kept(tokens, holds, levels) == ""
    ensures tokens != [] ==>
              var next := Step(levels, tokens[0], holds[0]);
              && After(tokens, holds, levels) == After(tokens[1..], holds[1..], next)
              && Kept(tokens, holds, levels) == KeptOf(levels, tokens[0]) + Kept(tokens[1..], holds[1..], next)
  {
  }

  // ----- a body as it was written

  datatype Block = Plain(text: string) | Conditional(branches: seq<Branch>)
  datatype Branch = Branch(kind: Token, blocks: seq<Block>)

  function Print(blocks: seq<Block>): seq<Token>
    decreases blocks, 1
  {
    if blocks == [] then [] else PrintBlock(blocks[0]) + Print(blocks[1..])
  }

  function PrintBlock(block: Block): seq<Token>
    decreases block, 0
  {
    match block
    case Plain(text) => [Words(text)]
    case Conditional(branches) => PrintBranches(branches) + [Endif]
  }

  function PrintBranches(branches: seq<Branch>): seq<Token>
    decreases branches, 2
  {
    if branches == [] then [] else PrintBranch(branches[0]) + PrintBranches(branches[1..])
  }

  function PrintBranch(branch: Branch): seq<Token>
    decreases branch, 2
  {
    [branch.kind] + Print(branch.blocks)
  }

  /** Groups open with #if, and only there. */
  predicate Proper(blocks: seq<Block>)
    decreases blocks, 1
  {
    blocks == [] || (ProperBlock(blocks[0]) && Proper(blocks[1..]))
  }

  predicate ProperBlock(block: Block)
    decreases block, 0
  {
    block.Conditional? ==>
      block.branches != [] && block.branches[0].kind == If && Proper(block.branches[0].blocks)
          && ProperBranches(block.branches[1..])
  }

  predicate ProperBranches(branches: seq<Branch>)
    decreases branches, 2
  {
    branches == []
    || ((branches[0].kind == Elif || branches[0].kind == Else) && Proper(branches[0].blocks)
        && ProperBranches(branches[1..]))
  }

  predicate HasElse(branches: seq<Branch>) {
    exists k :: 0 <= k < |branches| && branches[k].kind == Else
  }

  /** What the tree keeps of a body: not which directive a branch had, but whether one of them was #else. */
  function Erase(blocks: seq<Block>): seq<Item>
    decreases blocks, 1
  {
    if blocks == [] then [] else [EraseBlock(blocks[0])] + Erase(blocks[1..])
  }

  function EraseBlock(block: Block): Item
    decreases block, 0
  {
    match block
    case Plain(text) => Text(text)
    case Conditional(branches) => Group(EraseBranches(branches) + if HasElse(branches) then [] else [Alternative([])])
  }

  function EraseBranches(branches: seq<Branch>): seq<Alternative>
    decreases branches, 2
  {
    if branches == [] then [] else [Alternative(Erase(branches[0].blocks))] + EraseBranches(branches[1..])
  }

  // ----- membership in the enumeration

  lemma {:induction false} InSpread(choices: seq<string>, others: seq<seq<string>>, c: string, o: string)
    requires c in choices && o in Product(others)
    ensures c + o in Spread(choices, others)
    decreases choices
  {
    if choices[0] == c {
      var i :| 0 <= i < |Product(others)| && Product(others)[i] == o;
      assert Prefixed(c, Product(others))[i] == c + o;
    } else {
      InSpread(choices[1..], others, c, o);
    }
  }

  lemma {:induction false} OfSpread(choices: seq<string>, others: seq<seq<string>>, v: string)
    returns (c: string, o: string)
    requires v in Spread(choices, others)
    ensures c in choices && o in Product(others) && v == c + o
    decreases choices
  {
    if v in Prefixed(choices[0], Product(others)) {
      var i :| 0 <= i < |Product(others)| && Prefixed(choices[0], Product(others))[i] == v;
      c, o := choices[0], Product(others)[i];
    } else {
      c, o := OfSpread(choices[1..], others, v);
    }
  }

  lemma {:induction false} VariantsOfMore(item: Item, items: seq<Item>)
    ensures Variants([item] + items) == Spread(Choices(item), ChoiceLists(items))
  {
    var all := [item] + items;
    assert all[1..] == items;
    assert ChoiceLists(all)[1..] == ChoiceLists(items);
  }

  lemma {:induction false} VariantsOfConcat(a: seq<Alternative>, b: seq<Alternative>)
    ensures VariantsOfAll(a + b) == VariantsOfAll(a) + VariantsOfAll(b)
  {
    if a == [] {
      assert a + b == b;
    } else {
      assert (a + b)[1..] == a[1..] + b;
      VariantsOfConcat(a[1..], b);
    }
  }

  lemma {:induction false} EmptyAlternative()
    ensures VariantsOfAll([Alternative([])]) == [""]
  {
    assert Variants([]) == [""];
    assert VariantsOfAll([Alternative([])][1..]) == [];
  }

  // ----- every kept text is enumerated

  /** Where the interpreter stands before a branch of a group. */
  ghost predicate Enters(levels: seq<Level>, outer: seq<Level>, taken: bool, kind: Token) {
    if kind == If then levels == outer && !taken
    else
        (kind == Elif || kind == Else) && levels != [] && levels[..|levels| - 1] == outer
            && levels[|levels| - 1].taken == taken
  }

  lemma {:induction false} ActiveInner(outer: seq<Level>, top: Level)
    ensures Active(outer + [top]) <==> Active(outer) && top.active
  {
    if Active(outer + [top]) {
      assert (outer + [top])[|outer|] == top;
      forall i | 0 <= i < |outer| ensures outer[i].active { assert (outer + [top])[i] == outer[i]; }
    }
  }

  lemma {:induction false} BlocksKeep(blocks: seq<Block>, holds: seq<bool>, levels: seq<Level>)
    requires Proper(blocks) && |holds| == |Print(blocks)|
    ensures After(Print(blocks), holds, levels) == levels
    ensures Active(levels) ==> Kept(Print(blocks), holds, levels) in Variants(Erase(blocks))
    ensures !Active(levels) ==> Kept(Print(blocks), holds, levels) == ""
    decreases blocks, 3
  {
    if blocks == [] {
      assert Product([]) == [""];
    } else {
      var first, rest := PrintBlock(blocks[0]), Print(blocks[1..]);
      KeptConcat(first, rest, holds, levels);
      BlockKeeps(blocks[0], holds[..|first|], levels);
      BlocksKeep(blocks[1..], holds[|first|..], levels);
      if Active(levels) {
        VariantsOfMore(EraseBlock(blocks[0]), Erase(blocks[1..]));
        InSpread(Choices(EraseBlock(blocks[0])), ChoiceLists(Erase(blocks[1..])),
                 Kept(first, holds[..|first|], levels), Kept(rest, holds[|first|..], levels));
      }
    }
  }

  lemma {:induction false} BlockKeeps(block: Block, holds: seq<bool>, levels: seq<Level>)
    requires ProperBlock(block) && |holds| == |PrintBlock(block)|
    ensures After(PrintBlock(block), holds, levels) == levels
    ensures Active(levels) ==> Kept(PrintBlock(block), holds, levels) in Choices(EraseBlock(block))
    ensures !Active(levels) ==> Kept(PrintBlock(block), holds, levels) == ""
    decreases block, 2
  {
    match block
    case Plain(text) =>
      var kept := KeptOf(levels, Words(text));
      assert kept + "" == kept == Kept([Words(text)], holds, levels);
    case Conditional(branches) =>
      ConditionalKeeps(branches, holds, levels);
  }

  lemma {:induction false} ConditionalKeeps(branches: seq<Branch>, holds: seq<bool>, levels: seq<Level>)
    requires ProperBlock(Conditional(branches)) && |holds| == |PrintBranches(branches)| + 1
    ensures After(PrintBranches(branches) + [Endif], holds, levels) == levels
    ensures Active(levels) ==>
        Kept(PrintBranches(branches) + [Endif], holds, levels) in Choices(EraseBlock(Conditional(branches)))
    ensures !Active(levels) ==> Kept(PrintBranches(branches) + [Endif], holds, levels) == ""
    decreases branches, 6
  {
    var inner := PrintBranches(branches);
    KeptConcat(inner, [Endif], holds, levels);
    BranchesKeep(branches, holds[..|inner|], levels, levels, false);
    EndifCloses(After(inner, holds[..|inner|], levels), holds[|inner|..]);
    var kept := Kept(inner, holds[..|inner|], levels);
    assert kept + "" == kept;
    hide Kept, After, PrintBranches, EraseBranches, Active;
    GroupChoices(branches);
  }

  /** A group offers the texts of its branches, and nothing when it has no #else. */
  lemma {:induction false} GroupChoices(branches: seq<Branch>)
    ensures Choices(EraseBlock(Conditional(branches)))
            == VariantsOfAll(EraseBranches(branches)) + if HasElse(branches) then [] else [""]
  {
    EmptyAlternative();
    VariantsOfConcat(EraseBranches(branches), [Alternative([])]);
    assert EraseBranches(branches) + [] == EraseBranches(branches);
  }

  lemma {:induction false} EndifCloses(levels: seq<Level>, holds: seq<bool>)
    requires levels != [] && |holds| == 1
    ensures After([Endif], holds, levels) == levels[..|levels| - 1] && Kept([Endif], holds, levels) == ""
  {
    assert After([Endif], holds, levels) == After([], holds[1..], Step(levels, Endif, holds[0]));
  }

  /** One branch: its directive, then its blocks at the level the directive leads to. */
  lemma {:induction false} BranchKeeps(branch: Branch, holds: seq<bool>, levels: seq<Level>, outer: seq<Level>,
                                       taken: bool)
    requires Proper(branch.blocks) && |holds| == |PrintBranch(branch)| && Enters(levels, outer, taken, branch.kind)
    ensures After(PrintBranch(branch), holds, levels) == outer + [Enter(branch.kind, taken, holds[0])]
    ensures Active(outer) && Enter(branch.kind, taken, holds[0]).active ==>
              Kept(PrintBranch(branch), holds, levels) in Variants(Erase(branch.blocks))
    ensures !(Active(outer) && Enter(branch.kind, taken, holds[0]).active) ==>
        Kept(PrintBranch(branch), holds, levels) == ""
    decreases branch, 4
  {
    var top := Enter(branch.kind, taken, holds[0]);
    var tokens := PrintBranch(branch);
    assert tokens[1..] == Print(branch.blocks);
    assert Step(levels, branch.kind, holds[0]) == outer + [top];
    assert KeptOf(levels, branch.kind) == "";
    ActiveInner(outer, top);
    BlocksKeep(branch.blocks, holds[1..], outer + [top]);
    var kept := Kept(Print(branch.blocks), holds[1..], outer + [top]);
    assert "" + kept == kept == Kept(tokens, holds, levels);
  }

  /** What a group keeps: the text of one branch, or nothing when none was taken and there is no #else. */
  ghost predicate GroupKept(branches: seq<Branch>, outer: seq<Level>, taken: bool, kept: string, levels: seq<Level>) {
    && levels != [] && levels[..|levels| - 1] == outer
    && (!Active(outer) || taken ==> kept == "")
    && (Active(outer) && !taken ==>
        kept in VariantsOfAll(EraseBranches(branches)) || (kept == "" && !HasElse(branches)))
  }

  lemma {:induction false} BranchesKeep(branches: seq<Branch>, holds: seq<bool>, levels: seq<Level>, outer: seq<Level>,
                                        taken: bool)
    requires branches != [] && Enters(levels, outer, taken, branches[0].kind)
    requires Proper(branches[0].blocks) && ProperBranches(branches[1..]) && |holds| == |PrintBranches(branches)|
    ensures GroupKept(branches, outer, taken, Kept(PrintBranches(branches), holds, levels),
        After(PrintBranches(branches), holds, levels))
    decreases branches, 5
  {
    var first, rest := PrintBranch(branches[0]), PrintBranches(branches[1..]);
    KeptConcat(first, rest, holds, levels);
    BranchKeeps(branches[0], holds[..|first|], levels, outer, taken);
    var top := Enter(branches[0].kind, taken, holds[0]);
    var a, b := Kept(first, holds[..|first|], levels), Kept(rest, holds[|first|..], outer + [top]);
    assert EraseBranches(branches) == [Alternative(Erase(branches[0].blocks))] + EraseBranches(branches[1..]);
    if branches[1..] == [] {
      assert rest == [] && b == "" && a + b == a;
      assert After(rest, holds[|first|..], outer + [top]) == outer + [top];
      FirstKept(branches, outer, taken, top, a);
    } else {
      BranchesKeep(branches[1..], holds[|first|..], outer + [top], outer, top.taken);
      RestKept(branches, outer, taken, top, a, b, After(rest, holds[|first|..], outer + [top]));
    }
    assert a + b == Kept(PrintBranches(branches), holds, levels);
  }

  lemma {:induction false} HasElseSplit(branches: seq<Branch>)
    requires branches != []
    ensures HasElse(branches) <==> branches[0].kind == Else || HasElse(branches[1..])
  {
    if HasElse(branches[1..]) {
      var k :| 0 <= k < |branches[1..]| && branches[1..][k].kind == Else;
      assert branches[k + 1].kind == Else;
    }
    forall k | 0 <= k < |branches| && branches[k].kind == Else ensures k == 0 || HasElse(branches[1..]) {
      if k > 0 { assert branches[1..][k - 1].kind == Else; }
    }
  }

  lemma {:induction false} FirstKept(branches: seq<Branch>, outer: seq<Level>, taken: bool, top: Level, kept: string)
    requires branches != [] && branches[1..] == [] && (top == Level(true, false) || top.taken == top.active)
    requires taken ==> top == Level(true, false)
    requires branches[0].kind == Else ==> top == Level(true, !taken)
    requires if Active(outer) && top.active then kept in Variants(Erase(branches[0].blocks)) else kept == ""
    ensures GroupKept(branches, outer, taken, kept, outer + [top])
  {
    HasElseSplit(branches);
    assert EraseBranches(branches) == [Alternative(Erase(branches[0].blocks))] + EraseBranches(branches[1..]);
  }

  lemma {:induction false} RestKept(branches: seq<Branch>, outer: seq<Level>, taken: bool, top: Level, a: string,
                                    b: string, levels: seq<Level>)
    requires branches != [] && (top == Level(true, false) || top.taken == top.active)
    requires taken ==> top == Level(true, false)
    requires !taken ==> top.taken == top.active
    requires branches[0].kind == Else ==> top.taken
    requires if Active(outer) && top.active then a in Variants(Erase(branches[0].blocks)) else a == ""
    requires GroupKept(branches[1..], outer, top.taken, b, levels)
    ensures GroupKept(branches, outer, taken, a + b, levels)
  {
    var all := EraseBranches(branches);
    assert all == [Alternative(Erase(branches[0].blocks))] + EraseBranches(branches[1..]);
    assert all[1..] == EraseBranches(branches[1..]);
    if Active(outer) && !taken {
      if top.active {
        assert a + b == a;
      } else {
        assert a + b == b;
        HasElseSplit(branches);
      }
    }
  }

  // ----- every enumerated text is kept

  /** No branch follows an #else, which the standard requires. */
  predicate ElseLast(blocks: seq<Block>)
    decreases blocks, 1
  {
    blocks == [] || (ElseLastBlock(blocks[0]) && ElseLast(blocks[1..]))
  }

  predicate ElseLastBlock(block: Block)
    decreases block, 0
  {
    block.Conditional? ==> ElseLastBranches(block.branches)
  }

  predicate ElseLastBranches(branches: seq<Branch>)
    decreases branches, 2
  {
    branches == []
    || (ElseLast(branches[0].blocks) && (branches[0].kind == Else ==> branches[1..] == [])
        && ElseLastBranches(branches[1..]))
  }

  function Falses(n: nat): (r: seq<bool>)
    ensures |r| == n && forall i :: 0 <= i < n ==> !r[i]
  {
    seq(n, _ => false)
  }

  /** For each of the enumerated texts there are truth values under which it is kept. */
  lemma {:induction false} BlocksCanKeep(blocks: seq<Block>, levels: seq<Level>, v: string) returns (holds: seq<bool>)
    requires Proper(blocks) && ElseLast(blocks) && Active(levels) && v in Variants(Erase(blocks))
    ensures |holds| == |Print(blocks)| && Kept(Print(blocks), holds, levels) == v
    decreases blocks, 3
  {
    if blocks == [] {
      assert Product([]) == [""];
      holds := [];
    } else {
      var first, rest := PrintBlock(blocks[0]), Print(blocks[1..]);
      VariantsOfMore(EraseBlock(blocks[0]), Erase(blocks[1..]));
      var c, o := OfSpread(Choices(EraseBlock(blocks[0])), ChoiceLists(Erase(blocks[1..])), v);
      var a := BlockCanKeep(blocks[0], levels, c);
      var b := BlocksCanKeep(blocks[1..], levels, o);
      holds := a + b;
      assert holds[..|first|] == a && holds[|first|..] == b;
      KeptConcat(first, rest, holds, levels);
      BlockKeeps(blocks[0], a, levels);
    }
  }

  lemma {:induction false} BlockCanKeep(block: Block, levels: seq<Level>, v: string) returns (holds: seq<bool>)
    requires ProperBlock(block) && ElseLastBlock(block) && Active(levels) && v in Choices(EraseBlock(block))
    ensures |holds| == |PrintBlock(block)| && Kept(PrintBlock(block), holds, levels) == v
    decreases block, 2
  {
    match block
    case Plain(text) =>
      holds := [false];
      assert v + "" == v == KeptOf(levels, Words(text));
    case Conditional(branches) =>
      var inner := PrintBranches(branches);
      GroupChoices(branches);
      var h := BranchesCanKeep(branches, levels, levels, v);
      holds := h + [false];
      assert holds[..|inner|] == h && holds[|inner|..] == [false];
      KeptConcat(inner, [Endif], holds, levels);
      BranchesKeep(branches, h, levels, levels, false);
      EndifCloses(After(inner, h, levels), [false]);
      assert v + "" == v;
  }

  /** The branch with the text is taken: the conditions before it fail and its own holds. */
  lemma {:induction false} BranchesCanKeep(branches: seq<Branch>, levels: seq<Level>, outer: seq<Level>, v: string)
    returns (holds: seq<bool>)
    requires branches != [] && Enters(levels, outer, false, branches[0].kind) && Active(outer)
    requires Proper(branches[0].blocks) && ProperBranches(branches[1..]) && ElseLastBranches(branches)
    requires v in VariantsOfAll(EraseBranches(branches)) || (v == "" && !HasElse(branches))
    ensures |holds| == |PrintBranches(branches)| && Kept(PrintBranches(branches), holds, levels) == v
    decreases branches, 5
  {
    var first, rest := PrintBranch(branches[0]), PrintBranches(branches[1..]);
    var all := EraseBranches(branches);
    assert all == [Alternative(Erase(branches[0].blocks))] + EraseBranches(branches[1..]);
    assert all[1..] == EraseBranches(branches[1..]);
    HasElseSplit(branches);
    if v in Variants(Erase(branches[0].blocks)) {
      var a := BranchCanKeep(branches[0], levels, outer, v);
      holds := a + Falses(|rest|);
      assert holds[..|first|] == a && holds[|first|..] == Falses(|rest|);
      KeptConcat(first, rest, holds, levels);
      BranchKeeps(branches[0], a, levels, outer, false);
      RestSkipped(branches[1..], Falses(|rest|), outer + [Level(true, true)], outer);
      assert v + "" == v;
    } else {
      holds := SkipFirst(branches, levels, outer, v);
    }
  }

  lemma {:induction false} BranchCanKeep(branch: Branch, levels: seq<Level>, outer: seq<Level>, v: string)
    returns (holds: seq<bool>)
    requires Proper(branch.blocks) && ElseLast(branch.blocks) && Active(outer)
    requires Enters(levels, outer, false, branch.kind) && v in Variants(Erase(branch.blocks))
    ensures |holds| == |PrintBranch(branch)| && holds[0] && Kept(PrintBranch(branch), holds, levels) == v
    decreases branch, 4
  {
    ActiveInner(outer, Level(true, true));
    var h := BlocksCanKeep(branch.blocks, outer + [Level(true, true)], v);
    holds := [true] + h;
    var tokens := PrintBranch(branch);
    assert tokens[1..] == Print(branch.blocks) && holds[1..] == h;
    assert Step(levels, branch.kind, true) == outer + [Level(true, true)];
    assert "" + v == v && KeptOf(levels, branch.kind) == "";
  }

  /** Once a branch was taken the rest of the group keeps nothing. */
  lemma {:induction false} RestSkipped(branches: seq<Branch>, holds: seq<bool>, levels: seq<Level>, outer: seq<Level>)
    requires ProperBranches(branches) && |holds| == |PrintBranches(branches)|
    requires levels != [] && levels[..|levels| - 1] == outer && levels[|levels| - 1].taken
    ensures Kept(PrintBranches(branches), holds, levels) == ""
  {
    if branches != [] {
      BranchesKeep(branches, holds, levels, outer, true);
    }
  }

  lemma {:induction false} SkipFirst(branches: seq<Branch>, levels: seq<Level>, outer: seq<Level>, v: string)
    returns (holds: seq<bool>)
    requires branches != [] && Enters(levels, outer, false, branches[0].kind) && Active(outer)
        && branches[0].kind != Else
    requires Proper(branches[0].blocks) && ProperBranches(branches[1..]) && ElseLastBranches(branches)
    requires v in VariantsOfAll(EraseBranches(branches[1..])) || (v == "" && !HasElse(branches))
    ensures |holds| == |PrintBranches(branches)| && Kept(PrintBranches(branches), holds, levels) == v
    decreases branches, 4
  {
    var first, rest := PrintBranch(branches[0]), PrintBranches(branches[1..]);
    HasElseSplit(branches);
    var a := Falses(|first|);
    BranchKeeps(branches[0], a, levels, outer, false);
    var top := Level(false, false);
    var b := [];
    if branches[1..] != [] {
      b := BranchesCanKeep(branches[1..], outer + [top], outer, v);
    }
    holds := a + b;
    assert holds[..|first|] == a && holds[|first|..] == b;
    KeptConcat(first, rest, holds, levels);
    assert "" + v == v;
  }

  /**
    The enumerated texts of a body are exactly the texts that conditional inclusion can keep of it, when no
    branch follows an #else.
   */
  lemma {:induction false} VariantsAreKept(blocks: seq<Block>, v: string)
    requires Proper(blocks)
    ensures forall holds :: |holds| == |Print(blocks)| ==> Kept(Print(blocks), holds, []) in Variants(Erase(blocks))
    ensures ElseLast(blocks) ==>
              (v in Variants(Erase(blocks)) <==>
                  exists holds :: |holds| == |Print(blocks)| && Kept(Print(blocks), holds, []) == v)
  {
    forall holds: seq<bool> | |holds| == |Print(blocks)| ensures Kept(Print(blocks), holds,
        []) in Variants(Erase(blocks)) {
      BlocksKeep(blocks, holds, []);
    }
    if ElseLast(blocks) && v in Variants(Erase(blocks)) {
      var holds := BlocksCanKeep(blocks, [], v);
    }
  }

  /** An alternative after an #else is enumerated although it can never be kept. */
  const AFTER_ELSE: seq<Block> := [Conditional([Branch(If, []), Branch(Else, []), Branch(Elif, [Plain("x")])])]

  lemma {:induction false} AfterElseIsNotKept(holds: seq<bool>)
    requires |holds| == |Print(AFTER_ELSE)|
    ensures Proper(AFTER_ELSE) && !ElseLast(AFTER_ELSE)
    ensures "x" in Variants(Erase(AFTER_ELSE)) && Kept(Print(AFTER_ELSE), holds, []) != "x"
  {
    AfterElseIsProper();
    AfterElseEnumerated();
    hide Variants, Proper, ElseLast, Print, Erase, Kept;
    var a, b, c := Enter(If, false, holds[0]), Enter(Else, holds[0], holds[1]), Enter(Elif, true, holds[2]);
    assert Step([], If, holds[0]) == [a] && Step([a], Else, holds[1]) == [b] && Step([b], Elif, holds[2]) == [c];
    assert !Active([c]) by { assert !([c][0]).active; }
    KeptOfFive(If, Else, Elif, Words("x"), Endif, holds, [a], [b], [c]);
  }

  lemma {:induction false} AfterElseIsProper()
    ensures Proper(AFTER_ELSE) && !ElseLast(AFTER_ELSE) && Print(AFTER_ELSE) == [If, Else, Elif, Words("x"), Endif]
  {
    var x := [Plain("x")];
    OneBlock(Plain("x"));
    var third := [Branch(Elif, x)];
    OneBranch(third[0]);
    assert PrintBranch(third[0]) == [Elif] + Print(x) == [Elif, Words("x")];
    assert third[1..] == [] && ProperBranches(third);
    var second := [Branch(Else, []), Branch(Elif, x)];
    assert PrintBranch(second[0]) == [Else] + Print([]) == [Else];
    assert second[1..] == third && ProperBranches(second) && PrintBranches(second) == [Else] + PrintBranches(third);
    var all := [Branch(If, []), Branch(Else, []), Branch(Elif, x)];
    assert PrintBranch(all[0]) == [If] + Print([]) == [If];
    assert all[1..] == second && PrintBranches(all) == [If] + PrintBranches(second) == [If, Else, Elif, Words("x")];
    assert !ElseLastBranches(second) && !ElseLastBranches(all);
    var block := Conditional(all);
    assert AFTER_ELSE == [block] && ProperBlock(block) && !ElseLastBlock(block);
    OneBlock(block);
  }

  lemma {:induction false} AfterElseEnumerated()
    ensures "x" in Variants(Erase(AFTER_ELSE))
  {
    var branches := AFTER_ELSE[0].branches;
    assert branches[1..] == [Branch(Else, []), Branch(Elif, [Plain("x")])]
        && branches[1..][1..] == [Branch(Elif, [Plain("x")])];
    var plain := [Plain("x")];
    assert Erase(plain) == [Text("x")] + Erase(plain[1..]) == [Text("x")];
    VariantsOfMore(Text("x"), []);
    assert [Text("x")] + [] == [Text("x")];
    var none: string := "";
    assert none in Product([]);
    InSpread(["x"], [], "x", none);
    assert "x" + none == "x";
    assert "x" in VariantsOfAll(EraseBranches(branches[1..][1..]));
    assert "x" in VariantsOfAll(EraseBranches(branches[1..]));
    assert "x" in VariantsOfAll(EraseBranches(branches));
    GroupChoices(branches);
    VariantsOfMore(EraseBlock(AFTER_ELSE[0]), []);
    assert Erase(AFTER_ELSE) == [EraseBlock(AFTER_ELSE[0])] + Erase(AFTER_ELSE[1..])
        == [EraseBlock(AFTER_ELSE[0])] + [];
    InSpread(Choices(EraseBlock(AFTER_ELSE[0])), [], "x", none);
  }

  lemma {:induction false} KeptOfFive(t0: Token, t1: Token, t2: Token, t3: Token, t4: Token, holds: seq<bool>,
                                      l1: seq<Level>, l2: seq<Level>, l3: seq<Level>)
    requires |holds| == 5 && Step([], t0, holds[0]) == l1 && Step(l1, t1, holds[1]) == l2
        && Step(l2, t2, holds[2]) == l3
    requires !t0.Words? && !t1.Words? && !t2.Words? && !t4.Words? && !Active(l3)
    ensures Kept([t0, t1, t2, t3, t4], holds, []) == ""
  {
    hide Kept, Step, After;
    var l4 := Step(l3, t3, holds[3]);
    KeepsNone([], [t0, t1, t2, t3, t4], [t1, t2, t3, t4], holds);
    KeepsNone(l1, [t1, t2, t3, t4], [t2, t3, t4], holds[1..]);
    KeepsNone(l2, [t2, t3, t4], [t3, t4], holds[2..]);
    KeepsNone(l3, [t3, t4], [t4], holds[3..]);
    KeepsNone(l4, [t4], [], holds[4..]);
    FirstToken([], [], Step(l4, t4, holds[4]));
    assert holds[1..][1..] == holds[2..] && holds[2..][1..] == holds[3..] && holds[3..][1..] == holds[4..]
        && holds[4..][1..] == [];
  }

  lemma {:induction false} KeepsNone(levels: seq<Level>, all: seq<Token>, rest: seq<Token>, holds: seq<bool>)
    requires |holds| == |all| > 0 && rest == all[1..] && KeptOf(levels, all[0]) == ""
    ensures Kept(all, holds, levels) == Kept(rest, holds[1..], Step(levels, all[0], holds[0]))
  {
    FirstToken(all, holds, levels);
  }

  // ----- reading the directives

  /** A group that is being read: what came before it, and its finished alternatives. */
  datatype Open = Open(outer: seq<Item>, done: seq<Alternative>, default: bool)

  /** The same group as it was written. */
  datatype Written = Written(outer: seq<Block>, done: seq<Branch>, kind: Token)

  /** How many groups are open after the first n tokens. */
  function Depth(tokens: seq<Token>, n: nat): int
    requires n <= |tokens|
  {
    if n == 0 then 0
    else Depth(tokens, n - 1) + if tokens[n - 1] == If then 1 else if tokens[n - 1] == Endif then -1 else 0
  }

  /** A directive of a group where no group is open. */
  predicate Stray(tokens: seq<Token>, i: nat)
    requires i < |tokens|
  {
    Depth(tokens, i) <= 0 && (tokens[i] == Elif || tokens[i] == Else || tokens[i] == Endif)
  }

  function PrintOpen(written: seq<Written>): seq<Token> {
    if written == [] then []
    else
      var last := written[|written| - 1];
      PrintOpen(written[..|written| - 1]) + Print(last.outer) + PrintBranches(last.done) + [last.kind]
  }

  ghost predicate ProperOpen(w: Written) {
    && Proper(w.outer)
    && (if w.done == [] then w.kind == If
        else
            (w.kind == Elif || w.kind == Else) && w.done[0].kind == If && Proper(w.done[0].blocks)
                && ProperBranches(w.done[1..]))
  }

  ghost predicate Matches(open: Open, w: Written) {
    && open.outer == Erase(w.outer) && open.done == EraseBranches(w.done)
    && (open.default <==> HasElse(w.done) || w.kind == Else)
  }

  /** The open groups and the current list say what the first n tokens say. */
  ghost predicate Reading(tokens: seq<Token>, n: nat, open: seq<Open>, items: seq<Item>, written: seq<Written>,
                          blocks: seq<Block>)
    requires n <= |tokens|
  {
    && |open| == |written| == Depth(tokens, n) && items == Erase(blocks) && Proper(blocks)
    && (forall i :: 0 <= i < |open| ==> Matches(open[i], written[i]) && ProperOpen(written[i]))
    && PrintOpen(written) + Print(blocks) == tokens[..n]
    && (forall i :: 0 <= i < n ==> !Stray(tokens, i))
  }

  lemma {:induction false} PrintConcat(a: seq<Block>, b: seq<Block>)
    ensures Print(a + b) == Print(a) + Print(b)
  {
    if a == [] {
      assert a + b == b;
    } else {
      assert (a + b)[1..] == a[1..] + b && (a + b)[0] == a[0];
      PrintConcat(a[1..], b);
    }
  }

  lemma {:induction false} EraseConcat(a: seq<Block>, b: seq<Block>)
    ensures Erase(a + b) == Erase(a) + Erase(b)
    ensures Proper(a) && Proper(b) ==> Proper(a + b)
  {
    if a == [] {
      assert a + b == b;
    } else {
      assert (a + b)[1..] == a[1..] + b && (a + b)[0] == a[0];
      EraseConcat(a[1..], b);
    }
  }

  lemma {:induction false} PrintBranchesConcat(a: seq<Branch>, b: seq<Branch>)
    ensures PrintBranches(a + b) == PrintBranches(a) + PrintBranches(b)
  {
    if a == [] {
      assert a + b == b;
    } else {
      assert (a + b)[1..] == a[1..] + b && (a + b)[0] == a[0];
      PrintBranchesConcat(a[1..], b);
    }
  }

  lemma {:induction false} EraseBranchesConcat(a: seq<Branch>, b: seq<Branch>)
    ensures EraseBranches(a + b) == EraseBranches(a) + EraseBranches(b)
  {
    if a == [] {
      assert a + b == b;
    } else {
      assert (a + b)[1..] == a[1..] + b && (a + b)[0] == a[0];
      EraseBranchesConcat(a[1..], b);
    }
  }

  lemma {:induction false} ProperBranchesConcat(a: seq<Branch>, b: seq<Branch>)
    requires ProperBranches(a) && ProperBranches(b)
    ensures ProperBranches(a + b)
  {
    if a == [] {
      assert a + b == b;
    } else {
      assert (a + b)[1..] == a[1..] + b && (a + b)[0] == a[0];
      ProperBranchesConcat(a[1..], b);
    }
  }

  lemma {:induction false} OneBlock(block: Block)
    ensures Print([block]) == PrintBlock(block) && Erase([block]) == [EraseBlock(block)]
        && (ProperBlock(block) ==> Proper([block]))
  {
    assert [block][1..] == [];
    assert PrintBlock(block) + Print([]) == PrintBlock(block);
  }

  lemma {:induction false} OneBranch(branch: Branch)
    ensures PrintBranches([branch]) == PrintBranch(branch) && EraseBranches([branch])
        == [Alternative(Erase(branch.blocks))]
  {
    assert [branch][1..] == [];
    assert PrintBranch(branch) + PrintBranches([]) == PrintBranch(branch);
  }

  lemma {:induction false} ReadWords(tokens: seq<Token>, n: nat, open: seq<Open>, items: seq<Item>,
                                     written: seq<Written>, blocks: seq<Block>)
    requires n < |tokens| && tokens[n].Words? && Reading(tokens, n, open, items, written, blocks)
    ensures Reading(tokens, n + 1, open, items + [Text(tokens[n].text)], written, blocks + [Plain(tokens[n].text)])
  {
    var block := Plain(tokens[n].text);
    OneBlock(block);
    PrintConcat(blocks, [block]);
    EraseConcat(blocks, [block]);
    assert tokens[..n + 1] == tokens[..n] + [tokens[n]];
    assert PrintOpen(written) + (Print(blocks) + [tokens[n]]) == PrintOpen(written) + Print(blocks) + [tokens[n]];
  }

  lemma {:induction false} ReadIf(tokens: seq<Token>, n: nat, open: seq<Open>, items: seq<Item>, written: seq<Written>,
                                  blocks: seq<Block>)
    requires n < |tokens| && tokens[n] == If && Reading(tokens, n, open, items, written, blocks)
    ensures Reading(tokens, n + 1, open + [Open(items, [], false)], [], written + [Written(blocks, [], If)], [])
  {
    var w := Written(blocks, [], If);
    assert (written + [w])[..|written|] == written;
    assert tokens[..n + 1] == tokens[..n] + [If];
    assert PrintOpen(written + [w]) + Print([]) == PrintOpen(written) + Print(blocks) + [If];
  }

  /** The branch in hand joins the finished ones. */
  function WithBranch(w: Written, blocks: seq<Block>): seq<Branch> { w.done + [Branch(w.kind, blocks)] }

  lemma {:induction false} BranchJoins(open: Open, w: Written, blocks: seq<Block>)
    requires Matches(open, w) && ProperOpen(w) && Proper(blocks)
    ensures var branches := WithBranch(w, blocks);
            && branches[0].kind == If && Proper(branches[0].blocks) && ProperBranches(branches[1..])
            && PrintBranches(branches) == PrintBranches(w.done) + [w.kind] + Print(blocks)
            && EraseBranches(branches) == open.done + [Alternative(Erase(blocks))]
            && (HasElse(branches) <==> open.default)
  {
    var branch := Branch(w.kind, blocks);
    OneBranch(branch);
    PrintBranchesConcat(w.done, [branch]);
    EraseBranchesConcat(w.done, [branch]);
    HasElseJoins(w.done, branch);
    if w.done != [] {
      assert WithBranch(w, blocks)[1..] == w.done[1..] + [branch];
      assert [branch][1..] == [] && ProperBranches([branch]);
      ProperBranchesConcat(w.done[1..], [branch]);
    }
  }

  lemma {:induction false} HasElseJoins(done: seq<Branch>, branch: Branch)
    ensures HasElse(done + [branch]) <==> HasElse(done) || branch.kind == Else
  {
    var all := done + [branch];
    forall k | 0 <= k < |done| && done[k].kind == Else ensures HasElse(all) {
      assert all[k].kind == Else;
    }
    if branch.kind == Else { assert all[|done|].kind == Else; }
  }

  lemma {:induction false} PrintNextBranch(init: seq<Written>, o: Open, w: Written, blocks: seq<Block>, kind: Token)
    requires Matches(o, w) && ProperOpen(w) && Proper(blocks) && (kind == Elif || kind == Else)
    ensures var w' := Written(w.outer, WithBranch(w, blocks), kind);
            && PrintOpen(init + [w']) + Print([]) == PrintOpen(init + [w]) + Print(blocks) + [kind]
            && ProperOpen(w') && Matches(Open(o.outer, o.done + [Alternative(Erase(blocks))], o.default
                || kind == Else), w')
  {
    BranchJoins(o, w, blocks);
    var w' := Written(w.outer, WithBranch(w, blocks), kind);
    assert (init + [w'])[..|init|] == init == (init + [w])[..|init|];
    var before := PrintOpen(init) + Print(w.outer);
    assert before + (PrintBranches(w.done) + [w.kind] + Print(blocks))
        == before + PrintBranches(w.done) + [w.kind] + Print(blocks);
    assert PrintOpen(init + [w']) == before + PrintBranches(w'.done) + [kind];
  }

  lemma {:induction false} ReadBranch(tokens: seq<Token>, n: nat, open: seq<Open>, items: seq<Item>,
                                      written: seq<Written>, blocks: seq<Block>)
    requires n < |tokens| && (tokens[n] == Elif || tokens[n] == Else)
        && Reading(tokens, n, open, items, written, blocks) && open != []
    ensures var o, w := open[|open| - 1], written[|written| - 1];
            Reading(tokens, n + 1,
                    open[..|open| - 1] + [Open(o.outer, o.done + [Alternative(items)], o.default
                        || tokens[n] == Else)], [],
                    written[..|written| - 1] + [Written(w.outer, WithBranch(w, blocks), tokens[n])], [])
  {
    var o, w := open[|open| - 1], written[|written| - 1];
    var init := written[..|written| - 1];
    PrintNextBranch(init, o, w, blocks, tokens[n]);
    assert init + [w] == written;
    assert Erase([]) == [] && Proper([]);
    var o' := Open(o.outer, o.done + [Alternative(items)], o.default || tokens[n] == Else);
    var w' := Written(w.outer, WithBranch(w, blocks), tokens[n]);
    ReadOn(tokens, n, open, items, written, blocks, open[..|open| - 1] + [o'], [], init + [w'], []);
  }

  /** What one more token has to keep. */
  lemma {:induction false} ReadOn(tokens: seq<Token>, n: nat, open: seq<Open>, items: seq<Item>, written: seq<Written>,
                                  blocks: seq<Block>, open': seq<Open>, items': seq<Item>, written': seq<Written>,
                                  blocks': seq<Block>)
    requires n < |tokens| && Reading(tokens, n, open, items, written, blocks) && !Stray(tokens, n)
    requires |open'| == |written'| == Depth(tokens, n + 1) && items' == Erase(blocks') && Proper(blocks')
    requires forall i :: 0 <= i < |open'| ==> Matches(open'[i], written'[i]) && ProperOpen(written'[i])
    requires PrintOpen(written') + Print(blocks') == PrintOpen(written) + Print(blocks) + [tokens[n]]
    ensures Reading(tokens, n + 1, open', items', written', blocks')
  {
    assert tokens[..n + 1] == tokens[..n] + [tokens[n]];
    hide PrintOpen, Print, Erase, Proper, WithBranch, Matches, ProperOpen, Depth;
    forall i | 0 <= i < n + 1 ensures !Stray(tokens, i) {
    }
  }

  lemma {:induction false} PrintEndif(init: seq<Written>, o: Open, w: Written, blocks: seq<Block>)
    requires Matches(o, w) && ProperOpen(w) && Proper(blocks)
    ensures var outer := w.outer + [Conditional(WithBranch(w, blocks))];
            var alternatives := o.done + [Alternative(Erase(blocks))] + if o.default then [] else [Alternative([])];
            && PrintOpen(init) + Print(outer) == PrintOpen(init + [w]) + Print(blocks) + [Endif]
            && Proper(outer) && Erase(outer) == o.outer + [Group(alternatives)]
  {
    hide Print, PrintBranches, Erase, EraseBranches, Proper, ProperBranches, HasElse;
    BranchJoins(o, w, blocks);
    var block := Conditional(WithBranch(w, blocks));
    OneBlock(block);
    PrintConcat(w.outer, [block]);
    EraseConcat(w.outer, [block]);
    assert (init + [w])[..|init|] == init;
    EndifRegrouped(PrintOpen(init), Print(w.outer), PrintBranches(w.done), [w.kind], Print(blocks));
  }

  lemma {:induction false} EndifRegrouped(a: seq<Token>, b: seq<Token>, c: seq<Token>, d: seq<Token>, e: seq<Token>)
    ensures a + (b + ((c + d + e) + [Endif])) == (a + b + c + d) + e + [Endif]
  {
    var s := c + d + e;
    assert b + (s + [Endif]) == (b + s) + [Endif];
    assert a + ((b + s) + [Endif]) == (a + (b + s)) + [Endif];
    assert a + (b + s) == (a + b + c + d) + e;
  }

  lemma {:induction false} ReadEndif(tokens: seq<Token>, n: nat, open: seq<Open>, items: seq<Item>,
                                     written: seq<Written>, blocks: seq<Block>)
    requires n < |tokens| && tokens[n] == Endif && Reading(tokens, n, open, items, written, blocks) && open != []
    ensures var o, w := open[|open| - 1], written[|written| - 1];
            var alternatives := o.done + [Alternative(items)] + if o.default then [] else [Alternative([])];
            Reading(tokens, n + 1, open[..|open| - 1], o.outer + [Group(alternatives)],
                    written[..|written| - 1], w.outer + [Conditional(WithBranch(w, blocks))])
  {
    var o, w := open[|open| - 1], written[|written| - 1];
    var init := written[..|written| - 1];
    PrintEndif(init, o, w, blocks);
    assert init + [w] == written;
    var alternatives := o.done + [Alternative(items)] + if o.default then [] else [Alternative([])];
    ReadOn(tokens, n, open, items, written, blocks, open[..|open| - 1], o.outer + [Group(alternatives)],
           init, w.outer + [Conditional(WithBranch(w, blocks))]);
  }

  datatype Parse = Tree(items: seq<Item>) | NoIf(position: nat) | NoEndif

  /**
    Reads the directives into a tree. It fails exactly at the first directive without an #if, or at the end
    when a group is still open; otherwise the tree is that of the body as it was written.
   */
  method ReadTree(tokens: seq<Token>) returns (r: Parse, ghost blocks: seq<Block>)
    ensures r.NoIf? <==> exists i :: 0 <= i < |tokens| && Stray(tokens, i)
    ensures r.NoIf? ==>
        r.position < |tokens| && Stray(tokens, r.position) && forall i :: 0 <= i < r.position ==> !Stray(tokens, i)
    ensures r.NoEndif? ==> Depth(tokens, |tokens|) > 0
    ensures r.Tree? ==>
        Depth(tokens, |tokens|) == 0 && Proper(blocks) && Print(blocks) == tokens && r.items == Erase(blocks)
  {
    blocks := [];
    var items: seq<Item>, open: seq<Open> := [], [];
    ghost var written: seq<Written> := [];
    for n := 0 to |tokens|
      invariant Reading(tokens, n, open, items, written, blocks)
    {
      if tokens[n].Words? {
        ReadWords(tokens, n, open, items, written, blocks);
        items, blocks := items + [Text(tokens[n].text)], blocks + [Plain(tokens[n].text)];
      } else if tokens[n] == If {
        ReadIf(tokens, n, open, items, written, blocks);
        open, written := open + [Open(items, [], false)], written + [Written(blocks, [], If)];
        items, blocks := [], [];
      } else {
        if open == [] {
          assert Stray(tokens, n);
          return NoIf(n), blocks;
        }
        var o := open[|open| - 1];
        ghost var w := written[|written| - 1];
        if tokens[n] == Endif {
          ReadEndif(tokens, n, open, items, written, blocks);
          var alternatives := o.done + [Alternative(items)] + if o.default then [] else [Alternative([])];
          items, blocks := o.outer + [Group(alternatives)], w.outer + [Conditional(WithBranch(w, blocks))];
          open, written := open[..|open| - 1], written[..|written| - 1];
        } else {
          ReadBranch(tokens, n, open, items, written, blocks);
          open := open[..|open| - 1] + [Open(o.outer, o.done + [Alternative(items)], o.default || tokens[n] == Else)];
          written := written[..|written| - 1] + [Written(w.outer, WithBranch(w, blocks), tokens[n])];
          items, blocks := [], [];
        }
      }
    }
    if open != [] {
      return NoEndif, blocks;
    }
    assert tokens[..|tokens|] == tokens;
    r := Tree(items);
  }

  // ----- the variants of a body

  lemma {:induction false} ProperHasAlternatives(blocks: seq<Block>)
    requires Proper(blocks)
    ensures HasAlternatives(Erase(blocks))
    decreases blocks, 1
  {
    if blocks != [] {
      ProperGroupHas(blocks[0]);
      ProperHasAlternatives(blocks[1..]);
      forall i | 0 <= i < |Erase(blocks)| ensures GroupHas(Erase(blocks)[i]) {
        if i > 0 { assert Erase(blocks)[i] == Erase(blocks[1..])[i - 1]; }
      }
    }
  }

  lemma {:induction false} ProperGroupHas(block: Block)
    requires ProperBlock(block)
    ensures GroupHas(EraseBlock(block))
    decreases block, 0
  {
    if block.Conditional? {
      ProperHasAlternatives(block.branches[0].blocks);
      ProperBranchesHave(block.branches[1..]);
      var all := EraseBranches(block.branches);
      assert all == [Alternative(Erase(block.branches[0].blocks))] + EraseBranches(block.branches[1..]);
    }
  }

  lemma {:induction false} ProperBranchesHave(branches: seq<Branch>)
    requires ProperBranches(branches)
    ensures forall k :: 0 <= k < |EraseBranches(branches)| ==> HasAlternatives(EraseBranches(branches)[k].items)
    decreases branches, 2
  {
    if branches != [] {
      ProperHasAlternatives(branches[0].blocks);
      ProperBranchesHave(branches[1..]);
    }
  }

  /** The texts, or the error; too many are found out when the first of them, up to the limit, have been given. */
  datatype Enumeration =
    | Texts(texts: seq<string>) | Stopped(position: nat) | Unfinished | TooMany(given: seq<string>)

  /** All texts a body can have. There are too many exactly when the product of the sums is over the limit. */
  method Enumerate(tokens: seq<Token>) returns (r: Enumeration, ghost blocks: seq<Block>)
    ensures r.Stopped? <==> exists i :: 0 <= i < |tokens| && Stray(tokens, i)
    ensures r.Unfinished? ==> Depth(tokens, |tokens|) > 0
    ensures r.Texts? || r.TooMany? ==> Depth(tokens, |tokens|) == 0 && Proper(blocks) && Print(blocks) == tokens
    ensures r.Texts? || r.TooMany? ==> (r.TooMany? <==> Count(Erase(blocks)) > 256)
    ensures r.Texts? ==> r.texts == Variants(Erase(blocks))
    ensures r.TooMany? ==> |r.given| == 256 && r.given <= Variants(Erase(blocks))
  {
    var tree;
    tree, blocks := ReadTree(tokens);
    match tree
    case NoIf(position) => return Stopped(position), blocks;
    case NoEndif => return Unfinished, blocks;
    case Tree(items) =>
      ProperHasAlternatives(blocks);
      var texts := Expand(items);
      VariantsCount(items);
      r := if |texts| > BRANCH_VARIANT_LIMIT then TooMany(texts[..BRANCH_VARIANT_LIMIT]) else Texts(texts);
  }
}
