/**
  Bodies with branches after an #else. Conditional inclusion never keeps such a branch, so what it can keep of a
  body is exactly what is enumerated of the body without them.
 */
module TrimmedInclusion {
  import opened BranchVariants
  import opened ConditionalInclusion

  /** The body without the branches that follow an #else of their group. */
  function Trim(blocks: seq<Block>): (r: seq<Block>)
    ensures |r| == |blocks|
    decreases blocks, 1
  {
    if blocks == [] then [] else [TrimBlock(blocks[0])] + Trim(blocks[1..])
  }

  function TrimBlock(block: Block): Block
    decreases block, 0
  {
    match block
    case Plain(_) => block
    case Conditional(branches) => Conditional(TrimBranches(branches))
  }

  function TrimBranches(branches: seq<Branch>): (r: seq<Branch>)
    ensures r == [] <==> branches == []
    decreases branches, 2
  {
    if branches == [] then []
    else [TrimBranch(branches[0])] + if branches[0].kind == Else then [] else TrimBranches(branches[1..])
  }

  function TrimBranch(branch: Branch): Branch
    decreases branch, 2
  {
    Branch(branch.kind, Trim(branch.blocks))
  }

  // ----- the trimmed body is a body, with every #else last

  lemma {:induction false} TrimIsProper(blocks: seq<Block>)
    requires Proper(blocks)
    ensures Proper(Trim(blocks)) && ElseLast(Trim(blocks))
    decreases blocks, 1
  {
    if blocks != [] {
      TrimBlockIsProper(blocks[0]);
      TrimIsProper(blocks[1..]);
      assert Trim(blocks)[1..] == Trim(blocks[1..]);
    }
  }

  lemma {:induction false} TrimBlockIsProper(block: Block)
    requires ProperBlock(block)
    ensures ProperBlock(TrimBlock(block)) && ElseLastBlock(TrimBlock(block))
    decreases block, 0
  {
    if block.Conditional? {
      var first, rest := block.branches[0], block.branches[1..];
      TrimIsProper(first.blocks);
      TrimBranchesAreProper(rest);
      assert TrimBranches(block.branches)[1..] == TrimBranches(rest) && TrimBranches(block.branches)[0]
          == TrimBranch(first);
    }
  }

  lemma {:induction false} TrimBranchesAreProper(branches: seq<Branch>)
    requires ProperBranches(branches)
    ensures ProperBranches(TrimBranches(branches)) && ElseLastBranches(TrimBranches(branches))
    decreases branches, 2
  {
    if branches != [] {
      TrimIsProper(branches[0].blocks);
      TrimBranchesAreProper(branches[1..]);
      var trimmed := TrimBranches(branches);
      assert trimmed[0] == TrimBranch(branches[0]);
      assert trimmed[1..] == if branches[0].kind == Else then [] else TrimBranches(branches[1..]);
    }
  }

  // ----- both keep the same

  /** Under these truth values two lists of tokens keep the same text and lead to the same levels. */
  ghost predicate SameRun(a: seq<Token>, h: seq<bool>, b: seq<Token>, k: seq<bool>, levels: seq<Level>) {
    && |h| == |a| && |k| == |b| && Kept(a, h, levels) == Kept(b, k, levels)
        && After(a, h, levels) == After(b, k, levels)
  }

  lemma {:induction false} SameConcat(a: seq<Token>, h: seq<bool>, b: seq<Token>, k: seq<bool>,
                                      a': seq<Token>, h': seq<bool>, b': seq<Token>, k': seq<bool>, levels: seq<Level>)
    requires SameRun(a, h, b, k, levels) && SameRun(a', h', b', k', After(a, h, levels))
    ensures SameRun(a + a', h + h', b + b', k + k', levels)
  {
    hide Kept, After;
    KeptConcat(a, a', h + h', levels);
    KeptConcat(b, b', k + k', levels);
    assert (h + h')[..|a|] == h && (h + h')[|a|..] == h' && (k + k')[..|b|] == k && (k + k')[|b|..] == k';
  }

  lemma {:induction false} BlockParts(blocks: seq<Block>)
    ensures blocks == [] ==> Print(blocks) == [] == Print(Trim(blocks))
    ensures blocks != [] ==>
              && Print(blocks) == PrintBlock(blocks[0]) + Print(blocks[1..])
              && Print(Trim(blocks)) == PrintBlock(TrimBlock(blocks[0])) + Print(Trim(blocks[1..]))
  {
    if blocks != [] { assert Trim(blocks)[1..] == Trim(blocks[1..]); }
  }

  /** Truth values for the whole body (`whole`) or for the trimmed one can be matched by some for the other. */
  lemma {:induction false} BlocksMatch(blocks: seq<Block>, given: seq<bool>, whole: bool, levels: seq<Level>)
    returns (h: seq<bool>, k: seq<bool>)
    requires Proper(blocks) && |given| == |Print(if whole then blocks else Trim(blocks))|
    ensures SameRun(Print(blocks), h, Print(Trim(blocks)), k, levels) && given == if whole then h else k
    decreases blocks, 3
  {
    hide Kept, After, Print, Trim, TrimBlock, ProperBlock;
    BlockParts(blocks);
    if blocks == [] {
      h, k := [], [];
    } else {
      var first, rest := blocks[0], blocks[1..];
      var n := |PrintBlock(if whole then first else TrimBlock(first))|;
      var h1, k1 := BlockMatches(first, given[..n], whole, levels);
      var h2, k2 := BlocksMatch(rest, given[n..], whole, After(PrintBlock(first), h1, levels));
      h, k := h1 + h2, k1 + k2;
      SameConcat(PrintBlock(first), h1, PrintBlock(TrimBlock(first)), k1, Print(rest), h2, Print(Trim(rest)), k2,
          levels);
      assert given == given[..n] + given[n..];
    }
  }

  lemma {:induction false} BlockMatches(block: Block, given: seq<bool>, whole: bool, levels: seq<Level>)
    returns (h: seq<bool>, k: seq<bool>)
    requires ProperBlock(block) && |given| == |PrintBlock(if whole then block else TrimBlock(block))|
    ensures SameRun(PrintBlock(block), h, PrintBlock(TrimBlock(block)), k, levels) && given == if whole then h else k
    decreases block, 2
  {
    hide Kept, After;
    match block
    case Plain(_) =>
      h, k := given, given;
    case Conditional(branches) =>
      var trimmed := TrimBranches(branches);
      TrimBlockIsProper(block);
      var init, last := given[..|given| - 1], given[|given| - 1..];
      var h1, k1 := BranchesMatch(branches, init, whole, levels, levels, false);
      h, k := h1 + last, k1 + last;
      GroupCloses(branches, h1, last, levels);
      GroupCloses(trimmed, k1, last, levels);
  }

  lemma {:induction false} GroupCloses(branches: seq<Branch>, h: seq<bool>, last: seq<bool>, levels: seq<Level>)
    requires ProperBlock(Conditional(branches)) && |h| == |PrintBranches(branches)| && |last| == 1
    ensures var tokens := PrintBranches(branches) + [Endif];
            && After(tokens, h + last, levels) == levels
            && Kept(tokens, h + last, levels) == Kept(PrintBranches(branches), h, levels)
  {
    hide Kept, After;
    var inner := PrintBranches(branches);
    ConditionalKeeps(branches, h + last, levels);
    KeptConcat(inner, [Endif], h + last, levels);
    assert (h + last)[..|inner|] == h && (h + last)[|inner|..] == last;
    BranchesKeep(branches, h, levels, levels, false);
    EndifCloses(After(inner, h, levels), last);
    assert Kept(inner, h, levels) + "" == Kept(inner, h, levels);
  }

  lemma {:induction false} BranchMatches(branch: Branch, given: seq<bool>, whole: bool, levels: seq<Level>)
    returns (h: seq<bool>, k: seq<bool>)
    requires Proper(branch.blocks) && |given| == |PrintBranch(if whole then branch else TrimBranch(branch))|
    ensures SameRun(PrintBranch(branch), h, PrintBranch(TrimBranch(branch)), k, levels) && given == if whole then
        h else k
    decreases branch, 4
  {
    hide Kept, After, Step, KeptOf, Print, Trim;
    assert given == [given[0]] + given[1..];
    var next := Step(levels, branch.kind, given[0]);
    var h1, k1 := BlocksMatch(branch.blocks, given[1..], whole, next);
    h, k := [given[0]] + h1, [given[0]] + k1;
    HeaderRuns(branch.kind, Print(branch.blocks), h1, given[0], levels);
    HeaderRuns(branch.kind, Print(Trim(branch.blocks)), k1, given[0], levels);
  }

  lemma {:induction false} HeaderRuns(kind: Token, tokens: seq<Token>, holds: seq<bool>, first: bool,
                                      levels: seq<Level>)
    requires |holds| == |tokens|
    ensures var next := Step(levels, kind, first);
            && Kept([kind] + tokens, [first] + holds, levels) == KeptOf(levels, kind) + Kept(tokens, holds, next)
            && After([kind] + tokens, [first] + holds, levels) == After(tokens, holds, next)
  {
    FirstToken([kind] + tokens, [first] + holds, levels);
    assert ([kind] + tokens)[1..] == tokens && ([first] + holds)[1..] == holds;
  }

  /** A group and the trimmed group keep the same; a branch after an #else keeps nothing. */
  lemma {:induction false} BranchesMatch(branches: seq<Branch>, given: seq<bool>, whole: bool, levels: seq<Level>,
                                         outer: seq<Level>, taken: bool)
    returns (h: seq<bool>, k: seq<bool>)
    requires branches != [] && Enters(levels, outer, taken, branches[0].kind)
    requires Proper(branches[0].blocks) && ProperBranches(branches[1..])
    requires |given| == |PrintBranches(if whole then branches else TrimBranches(branches))|
    ensures |h| == |PrintBranches(branches)| && |k| == |PrintBranches(TrimBranches(branches))|
    ensures Kept(PrintBranches(branches), h, levels) == Kept(PrintBranches(TrimBranches(branches)), k, levels)
    ensures given == if whole then h else k
    decreases branches, 5
  {
    hide Kept, After, Enter, TrimBranch, Proper, ProperBranches, PrintBranch;
    var first, rest := branches[0], branches[1..];
    GroupParts(branches);
    var n := |PrintBranch(if whole then first else TrimBranch(first))|;
    assert given == given[..n] + given[n..];
    var h1, k1 := BranchMatches(first, given[..n], whole, levels);
    BranchKeeps(first, h1, levels, outer, taken);
    var top := Enter(first.kind, taken, h1[0]);
    if first.kind == Else || rest == [] {
      h := h1 + if whole then given[n..] else Falses(|PrintBranches(rest)|);
      k := k1;
      RestKeepsNothing(first, rest, h1, h, levels, outer, taken);
      assert PrintBranch(TrimBranch(first)) + [] == PrintBranch(TrimBranch(first));
    } else {
      EntersNext(first.kind, taken, h1[0], outer, rest[0].kind);
      var h2, k2 := BranchesMatch(rest, given[n..], whole, outer + [top], outer, top.taken);
      h, k := h1 + h2, k1 + k2;
      KeptTwo(PrintBranch(first), h1, PrintBranches(rest), h2, levels);
      KeptTwo(PrintBranch(TrimBranch(first)), k1, PrintBranches(TrimBranches(rest)), k2, levels);
    }
  }

  lemma {:induction false} KeptTwo(a: seq<Token>, h: seq<bool>, b: seq<Token>, k: seq<bool>, levels: seq<Level>)
    requires |h| == |a| && |k| == |b|
    ensures Kept(a + b, h + k, levels) == Kept(a, h, levels) + Kept(b, k, After(a, h, levels))
  {
    KeptConcat(a, b, h + k, levels);
    assert (h + k)[..|a|] == h && (h + k)[|a|..] == k;
  }

  lemma {:induction false} GroupParts(branches: seq<Branch>)
    requires branches != [] && Proper(branches[0].blocks) && ProperBranches(branches[1..])
    ensures PrintBranches(branches) == PrintBranch(branches[0]) + PrintBranches(branches[1..])
    ensures PrintBranches(TrimBranches(branches))
            == PrintBranch(TrimBranch(branches[0]))
               + if branches[0].kind == Else || branches[1..] == [] then
                   [] else PrintBranches(TrimBranches(branches[1..]))
    ensures branches[1..] != [] ==>
              (branches[1].kind == Elif || branches[1].kind == Else) && Proper(branches[1].blocks)
                  && ProperBranches(branches[1..][1..])
    ensures |PrintBranch(branches[0])| > 0 && |PrintBranch(TrimBranch(branches[0]))| > 0
  {
    var trimmed := TrimBranches(branches);
    assert trimmed[1..] == if branches[0].kind == Else then [] else TrimBranches(branches[1..]);
  }

  lemma {:induction false} EntersNext(kind: Token, taken: bool, holds: bool, outer: seq<Level>, next: Token)
    requires kind == If || kind == Elif || kind == Else
    requires next == Elif || next == Else
    ensures var top := Enter(kind, taken, holds); Enters(outer + [top], outer, top.taken, next)
  {
  }

  lemma {:induction false} RestKeepsNothing(first: Branch, rest: seq<Branch>, h1: seq<bool>, h: seq<bool>,
                                            levels: seq<Level>, outer: seq<Level>, taken: bool)
    requires Proper(first.blocks) && ProperBranches(rest) && (first.kind == Else || rest == [])
        && Enters(levels, outer, taken, first.kind)
    requires |h| == |PrintBranch(first)| + |PrintBranches(rest)| && |h1| == |PrintBranch(first)| && h[..|h1|] == h1
    ensures Kept(PrintBranch(first) + PrintBranches(rest), h, levels) == Kept(PrintBranch(first), h1, levels)
  {
    KeptConcat(PrintBranch(first), PrintBranches(rest), h, levels);
    BranchKeeps(first, h1, levels, outer, taken);
    var top := Enter(first.kind, taken, h1[0]);
    if rest != [] {
      RestSkipped(rest, h[|h1|..], outer + [top], outer);
    }
    hide Kept, After;
    var kept := Kept(PrintBranch(first), h1, levels);
    assert kept + "" == kept;
  }

  /**
    Whatever branches follow an #else: conditional inclusion keeps a text of a body under some truth values
    exactly when the text is enumerated of the trimmed body.
   */
  lemma {:induction false} KeptIffEnumeratedTrimmed(blocks: seq<Block>, v: string)
    requires Proper(blocks)
    ensures v in Variants(Erase(Trim(blocks))) <==>
        exists holds :: |holds| == |Print(blocks)| && Kept(Print(blocks), holds, []) == v
  {
    hide Kept, Variants, Trim, Print;
    TrimIsProper(blocks);
    VariantsAreKept(Trim(blocks), v);
    if v in Variants(Erase(Trim(blocks))) {
      var holds :| |holds| == |Print(Trim(blocks))| && Kept(Print(Trim(blocks)), holds, []) == v;
      var h, k := BlocksMatch(blocks, holds, false, []);
    }
    forall holds | |holds| == |Print(blocks)| && Kept(Print(blocks), holds, []) == v
        ensures v in Variants(Erase(Trim(blocks))) {
      var h, k := BlocksMatch(blocks, holds, true, []);
    }
  }
}
