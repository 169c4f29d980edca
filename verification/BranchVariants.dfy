/**
  The texts a function body can have once its conditional groups are resolved: a tree of groups, and the
  enumeration of the combinations of their alternatives.
 */
module BranchVariants {

  /** A stretch of text, or a group with one list of items per alternative. */
  datatype Item = Text(text: string) | Group(alternatives: seq<Alternative>)
  datatype Alternative = Alternative(items: seq<Item>)

  // ----- all combinations, in lexicographic order

  function Prefixed(prefix: string, texts: seq<string>): (r: seq<string>)
    ensures |r| == |texts| && forall i :: 0 <= i < |r| ==> r[i] == prefix + texts[i]
  {
    seq(|texts|, i requires 0 <= i < |texts| => prefix + texts[i])
  }

  /** Every choice from the first list before every combination of the others, the first list's order first. */
  function Product(lists: seq<seq<string>>): seq<string>
    decreases |lists|, 0, 0
  {
    if lists == [] then [""] else Spread(lists[0], lists[1..])
  }

  function Spread(choices: seq<string>, others: seq<seq<string>>): seq<string>
    decreases |others|, 1, |choices|
  {
    if choices == [] then [] else Prefixed(choices[0], Product(others)) + Spread(choices[1..], others)
  }

  /** What one item can become. */
  function Choices(item: Item): seq<string>
    decreases item, 0
  {
    match item
    case Text(text) => [text]
    case Group(alternatives) => VariantsOfAll(alternatives)
  }

  function VariantsOfAll(alternatives: seq<Alternative>): seq<string>
    decreases alternatives, 1
  {
    if alternatives == [] then [] else Variants(alternatives[0].items) + VariantsOfAll(alternatives[1..])
  }

  function ChoiceLists(items: seq<Item>): (r: seq<seq<string>>)
    ensures |r| == |items|
    decreases items, 1
  {
    if items == [] then [] else [Choices(items[0])] + ChoiceLists(items[1..])
  }

  /** What a list of items can become. */
  function Variants(items: seq<Item>): seq<string>
    decreases items, 2
  {
    Product(ChoiceLists(items))
  }

  // ----- how many there are

  /** The product over the items of the sum over their alternatives. */
  function Count(items: seq<Item>): nat
    decreases items, 1
  {
    if items == [] then 1 else CountChoices(items[0]) * Count(items[1..])
  }

  function CountChoices(item: Item): nat
    decreases item, 0
  {
    match item
    case Text(_) => 1
    case Group(alternatives) => CountAll(alternatives)
  }

  function CountAll(alternatives: seq<Alternative>): nat
    decreases alternatives, 2
  {
    if alternatives == [] then 0 else Count(alternatives[0].items) + CountAll(alternatives[1..])
  }

  lemma {:induction false} SpreadCount(choices: seq<string>, others: seq<seq<string>>)
    ensures |Spread(choices, others)| == |choices| * |Product(others)|
    decreases choices
  {
    hide Product;
    if choices != [] {
      SpreadCount(choices[1..], others);
      var n := |Product(others)|;
      assert |choices| * n == n + (|choices| - 1) * n;
    }
  }

  /** The number of variants is the product over the groups of the sum over their alternatives. */
  lemma {:induction false} VariantsCount(items: seq<Item>)
    ensures |Variants(items)| == Count(items)
    decreases items, 1
  {
    if items != [] {
      ChoicesCount(items[0]);
      VariantsCount(items[1..]);
      assert ChoiceLists(items)[1..] == ChoiceLists(items[1..]);
      SpreadCount(Choices(items[0]), ChoiceLists(items[1..]));
    }
  }

  lemma {:induction false} ChoicesCount(item: Item)
    ensures |Choices(item)| == CountChoices(item)
    decreases item, 0
  {
    if item.Group? { VariantsOfAllCount(item.alternatives); }
  }

  lemma {:induction false} VariantsOfAllCount(alternatives: seq<Alternative>)
    ensures |VariantsOfAll(alternatives)| == CountAll(alternatives)
    decreases alternatives, 2
  {
    if alternatives != [] {
      VariantsCount(alternatives[0].items);
      VariantsOfAllCount(alternatives[1..]);
    }
  }

  // ----- the odometer

  function Join(texts: seq<string>): string {
    if texts == [] then "" else texts[0] + Join(texts[1..])
  }

  ghost predicate Points(lists: seq<seq<string>>, at: seq<nat>) {
    |at| == |lists| && forall i :: 0 <= i < |at| ==> at[i] < |lists[i]|
  }

  /** What the odometer shows. */
  function Shown(lists: seq<seq<string>>, at: seq<nat>): string
    requires Points(lists, at)
  {
    if lists == [] then "" else lists[0][at[0]] + Shown(lists[1..], at[1..])
  }

  /** The combinations that come after the one shown. */
  ghost function Coming(lists: seq<seq<string>>, at: seq<nat>): seq<string>
    requires Points(lists, at)
  {
    if lists == [] then []
    else Prefixed(lists[0][at[0]], Coming(lists[1..], at[1..])) + Spread(lists[0][at[0] + 1..], lists[1..])
  }

  function Zeros(n: nat): (r: seq<nat>)
    ensures |r| == n && forall i :: 0 <= i < n ==> r[i] == 0
  {
    seq(n, _ => 0)
  }

  ghost predicate NoneEmpty(lists: seq<seq<string>>) {
    forall i :: 0 <= i < |lists| ==> lists[i] != []
  }

  lemma {:induction false} PrefixedConcat(prefix: string, a: seq<string>, b: seq<string>)
    ensures Prefixed(prefix, a + b) == Prefixed(prefix, a) + Prefixed(prefix, b)
  {
  }

  lemma {:induction false} PrefixedStarts(prefix: string, first: string, rest: seq<string>, others: seq<string>)
    ensures Prefixed(prefix, [first] + rest) + others == [prefix + first] + (Prefixed(prefix, rest) + others)
  {
  }

  /** Everything comes from the first combination on. */
  lemma {:induction false} AllComing(lists: seq<seq<string>>)
    requires NoneEmpty(lists)
    ensures Points(lists, Zeros(|lists|))
    ensures Product(lists) == [Shown(lists, Zeros(|lists|))] + Coming(lists, Zeros(|lists|))
  {
    if lists != [] {
      var at := Zeros(|lists|);
      AllComing(lists[1..]);
      assert at[1..] == Zeros(|lists[1..]|);
      var head := lists[0][0];
      PrefixedConcat(head, [Shown(lists[1..], at[1..])], Coming(lists[1..], at[1..]));
    }
  }

  /** Every wheel from i on shows its last choice. */
  ghost predicate SpentFrom(lists: seq<seq<string>>, at: seq<nat>, i: nat)
    requires Points(lists, at) && i <= |at|
  {
    forall k :: i <= k < |at| ==> at[k] == |lists[k]| - 1
  }

  lemma {:induction false} NothingComing(lists: seq<seq<string>>, at: seq<nat>)
    requires Points(lists, at) && SpentFrom(lists, at, 0)
    ensures Coming(lists, at) == []
  {
    if lists != [] { NothingComing(lists[1..], at[1..]); }
  }

  /** The wheels before i stay, wheel i moves on, and those after it start again. */
  function Turned(at: seq<nat>, i: nat): (r: seq<nat>)
    requires i < |at|
    ensures |r| == |at|
  {
    at[..i] + [at[i] + 1] + Zeros(|at| - i - 1)
  }

  /** Turning shows the next combination. */
  lemma {:induction false} TurningShowsNext(lists: seq<seq<string>>, at: seq<nat>, i: nat)
    requires NoneEmpty(lists) && Points(lists, at) && i < |at| && SpentFrom(lists, at, i + 1) && at[i] + 1 < |lists[i]|
    ensures Points(lists, Turned(at, i))
    ensures Coming(lists, at) == [Shown(lists, Turned(at, i))] + Coming(lists, Turned(at, i))
  {
    var at' := Turned(at, i);
    if i == 0 {
      NothingComing(lists[1..], at[1..]);
      TurningFirst(lists, at);
    } else {
      var head, tails, turned := lists[0][at[0]], lists[1..], at'[1..];
      TurningShowsNext(tails, at[1..], i - 1);
      assert turned == Turned(at[1..], i - 1);
      var others := Spread(lists[0][at[0] + 1..], tails);
      assert Coming(lists, at) == Prefixed(head, Coming(tails, at[1..])) + others;
      assert Coming(lists, at') == Prefixed(head, Coming(tails, turned)) + others;
      assert Shown(lists, at') == head + Shown(tails, turned);
      hide *;
      PrefixedStarts(head, Shown(tails, turned), Coming(tails, turned), others);
    }
  }

  /** The next choice of the first wheel, and the first combination of the others. */
  lemma {:induction false} TurnedFirst(lists: seq<seq<string>>, at: seq<nat>)
    requires NoneEmpty(lists) && Points(lists, at) && at != [] && at[0] + 1 < |lists[0]|
    ensures Points(lists, Turned(at, 0)) && Points(lists[1..], Zeros(|lists[1..]|))
    ensures var rest, tails, zeros := lists[0][at[0] + 1..], lists[1..], Zeros(|lists[1..]|);
            && Spread(rest, tails) == Prefixed(rest[0], Product(tails)) + Spread(rest[1..], tails)
            && Shown(lists, Turned(at, 0)) == rest[0] + Shown(tails, zeros)
            && Coming(lists, Turned(at, 0)) == Prefixed(rest[0], Coming(tails, zeros)) + Spread(rest[1..], tails)
  {
  }

  lemma {:induction false} TurningFirst(lists: seq<seq<string>>, at: seq<nat>)
    requires NoneEmpty(lists) && Points(lists, at) && at != [] && at[0] + 1 < |lists[0]|
    ensures Points(lists, Turned(at, 0))
    ensures Spread(lists[0][at[0] + 1..], lists[1..]) == [Shown(lists, Turned(at, 0))] + Coming(lists, Turned(at, 0))
  {
    hide *;
    TurnedFirst(lists, at);
    var rest, tails, zeros := lists[0][at[0] + 1..], lists[1..], Zeros(|lists[1..]|);
    AllComing(tails);
    PrefixedStarts(rest[0], Shown(tails, zeros), Coming(tails, zeros), Spread(rest[1..], tails));
  }

  /** Goes through all combinations, the last wheel fastest. */
  method Odometer(lists: seq<seq<string>>) returns (out: seq<string>)
    requires NoneEmpty(lists)
    ensures out == Product(lists)
  {
    hide Product, Coming, Shown, Points;
    var at := new nat[|lists|](_ => 0);
    assert at[..] == Zeros(|lists|);
    AllComing(lists);
    out := [];
    var more := true;
    while more
      invariant Points(lists, at[..])
      invariant more ==> out + [Shown(lists, at[..])] + Coming(lists, at[..]) == Product(lists)
      invariant !more ==> out == Product(lists)
      decreases if more then 1 + |Product(lists)| - |out| else 0
    {
      out := out + [Shown(lists, at[..])];
      more := Turn(lists, at);
    }
  }

  /** Turns to the next combination; false when there is none. */
  method Turn(lists: seq<seq<string>>, at: array<nat>) returns (more: bool)
    requires NoneEmpty(lists) && Points(lists, at[..])
    modifies at
    ensures Points(lists, at[..])
    ensures more ==> Coming(lists, old(at[..])) == [Shown(lists, at[..])] + Coming(lists, at[..])
    ensures !more ==> Coming(lists, old(at[..])) == []
  {
    ghost var was := at[..];
    var index := at.Length - 1;
    while index >= 0
      invariant -1 <= index < at.Length && SpentFrom(lists, was, index + 1)
      invariant forall k :: 0 <= k < at.Length ==> at[k] == if k <= index then was[k] else 0
    {
      if at[index] + 1 < |lists[index]| {
        at[index] := at[index] + 1;
        assert at[..] == Turned(was, index);
        TurningShowsNext(lists, was, index);
        return true;
      }
      at[index] := 0;
      index := index - 1;
    }
    NothingComing(lists, was);
    more := false;
  }

  // ----- expanding the tree

  /** Every group has an alternative, all the way down. */
  predicate HasAlternatives(items: seq<Item>)
    decreases items, 1
  {
    forall i :: 0 <= i < |items| ==> GroupHas(items[i])
  }

  predicate GroupHas(item: Item)
    decreases item, 0
  {
    item.Group? ==>
        item.alternatives != [] && forall k ::
            0 <= k < |item.alternatives| ==> HasAlternatives(item.alternatives[k].items)
  }

  lemma {:induction false} ProductNotEmpty(lists: seq<seq<string>>)
    requires NoneEmpty(lists)
    ensures Product(lists) != []
  {
    if lists != [] {
      ProductNotEmpty(lists[1..]);
      assert Spread(lists[0], lists[1..]) == Prefixed(lists[0][0], Product(lists[1..]))
          + Spread(lists[0][1..], lists[1..]);
    }
  }

  /** The generator of a list of items: an odometer with one wheel per item. */
  method Expand(items: seq<Item>) returns (out: seq<string>)
    requires HasAlternatives(items)
    ensures out == Variants(items) && out != []
    decreases items, 1
  {
    var lists := [];
    for i := 0 to |items|
      invariant lists == ChoiceLists(items[..i]) && NoneEmpty(lists)
    {
      assert GroupHas(items[i]);
      var choices := ExpandItem(items[i]);
      ChoiceListsNext(items, i);
      lists := lists + [choices];
    }
    assert items[..|items|] == items;
    ProductNotEmpty(lists);
    out := Odometer(lists);
  }

  lemma {:induction false} ChoiceListsNext(items: seq<Item>, i: nat)
    requires i < |items|
    ensures ChoiceLists(items[..i + 1]) == ChoiceLists(items[..i]) + [Choices(items[i])]
  {
    if i > 0 {
      ChoiceListsNext(items[1..], i - 1);
      assert items[..i + 1][1..] == items[1..][..i] && items[..i][1..] == items[1..][..i - 1];
    }
  }

  method ExpandItem(item: Item) returns (out: seq<string>)
    requires GroupHas(item)
    ensures out == Choices(item) && out != []
    decreases item, 0
  {
    if item.Text? {
      return [item.text];
    }
    var alternatives := item.alternatives;
    out := [];
    for k := 0 to |alternatives|
      invariant out + VariantsOfAll(alternatives[k..]) == VariantsOfAll(alternatives) && (k > 0 ==> out != [])
    {
      assert HasAlternatives(alternatives[k].items);
      var more := Expand(alternatives[k].items);
      assert alternatives[k..][1..] == alternatives[k + 1..];
      out := out + more;
    }
  }
}
