/**
  The treemap of a progress report: values laid out as rectangles in rows, each row along the shorter side
  of what is left of the box, and the cells inside a rectangle. Numbers are exact reals.
 */
module Squarify {

  datatype Box = Box(x: real, y: real, w: real, h: real)

  /** The points of a box: its left and upper edges belong to it, the others do not. */
  predicate In(b: Box, px: real, py: real) {
    b.x <= px < b.x + b.w && b.y <= py < b.y + b.h
  }

  ghost predicate Inside(a: Box, b: Box) {
    forall px: real, py: real :: In(a, px, py) ==> In(b, px, py)
  }

  ghost predicate Apart(a: Box, b: Box) {
    forall px: real, py: real :: In(a, px, py) ==> !In(b, px, py)
  }

  ghost predicate Covered(rects: seq<Box>, px: real, py: real) {
    exists i :: 0 <= i < |rects| && In(rects[i], px, py)
  }

  /** The rectangles and the rest fill the box, and no point is filled twice. */
  ghost predicate Fills(rects: seq<Box>, rest: Box, box: Box) {
    && Inside(rest, box)
    && (forall i :: 0 <= i < |rects| ==> Inside(rects[i], box) && Apart(rects[i], rest))
    && (forall i, j :: 0 <= i < j < |rects| ==> Apart(rects[i], rects[j]))
    && (forall px: real, py: real :: In(box, px, py) ==> In(rest, px, py) || Covered(rects, px, py))
  }

  /** Every point of the box is in exactly one of the rectangles, and they have no other points. */
  ghost predicate Tiles(rects: seq<Box>, box: Box) {
    && (forall i :: 0 <= i < |rects| ==> Inside(rects[i], box))
    && (forall i, j :: 0 <= i < j < |rects| ==> Apart(rects[i], rects[j]))
    && (forall px: real, py: real :: In(box, px, py) ==> Covered(rects, px, py))
  }

  // ----- arithmetic

  function Sum(s: seq<real>, n: nat): real
    requires n <= |s|
  {
    if n == 0 then 0.0 else Sum(s, n - 1) + s[n - 1]
  }

  ghost predicate Positive(s: seq<real>) {
    forall i :: 0 <= i < |s| ==> s[i] > 0.0
  }

  lemma {:induction false} SumPositive(s: seq<real>, n: nat)
    requires Positive(s) && n <= |s|
    ensures Sum(s, n) >= 0.0 && (n > 0 ==> Sum(s, n) > 0.0)
  {
    if n > 0 { SumPositive(s, n - 1); }
  }

  lemma {:induction false} SumGrows(s: seq<real>, m: nat, n: nat)
    requires Positive(s) && m <= n <= |s|
    ensures Sum(s, m) <= Sum(s, n)
  {
    if m < n { SumGrows(s, m, n - 1); }
  }

  lemma {:induction false} SumAgrees(a: seq<real>, b: seq<real>, n: nat)
    requires n <= |a| && n <= |b| && a[..n] == b[..n]
    ensures Sum(a, n) == Sum(b, n)
  {
    if n > 0 {
      assert a[..n - 1] == a[..n][..n - 1] == b[..n - 1];
      assert a[n - 1] == a[..n][n - 1] == b[n - 1];
      SumAgrees(a, b, n - 1);
    }
  }

  lemma {:induction false} SumConcat(a: seq<real>, b: seq<real>)
    ensures Sum(a + b, |a| + |b|) == Sum(a, |a|) + Sum(b, |b|)
  {
    if b == [] {
      assert a + b == a;
    } else {
      var c := b[..|b| - 1];
      SumConcat(a, c);
      SumAgrees(a + b, a + c, |a| + |c|);
      SumAgrees(b, c, |c|);
    }
  }

  lemma {:induction false} Quotient(a: real, t: real)
    requires t > 0.0
    ensures (a / t) * t == a
    ensures a > 0.0 ==> a / t > 0.0
    ensures a >= 0.0 ==> a / t >= 0.0
  {
  }

  lemma {:induction false} Cancel(a: real, b: real, t: real)
    requires t > 0.0 && a * t == b * t
    ensures a == b
  {
    assert (a - b) * t == 0.0;
  }

  lemma {:induction false} CancelAtMost(a: real, b: real, t: real)
    requires t > 0.0 && a * t <= b * t
    ensures a <= b
  {
    var d := (b - a) * t;
    Quotient(d, t);
    Cancel(d / t, b - a, t);
  }

  lemma {:induction false} QuotientsAdd(a: real, b: real, t: real)
    requires t > 0.0
    ensures a / t + b / t == (a + b) / t
  {
    Quotient(a, t);
    Quotient(b, t);
    Quotient(a + b, t);
    assert (a / t + b / t) * t == ((a + b) / t) * t;
    Cancel(a / t + b / t, (a + b) / t, t);
  }

  // ----- one row

  function Area(b: Box): real { b.w * b.h }

  function Side(b: Box): real { if b.h < b.w then b.h else b.w }

  function Long(b: Box): real { if b.w >= b.h then b.w else b.h }

  lemma {:induction false} SideTimesLong(b: Box)
    ensures Long(b) * Side(b) == Area(b)
  {
  }

  function Thickness(row: seq<real>, b: Box): real
    requires Side(b) > 0.0
  {
    Sum(row, |row|) / Side(b)
  }

  /** The rectangle of one area of a row: as thick as the row, and as long as its area needs. */
  function Piece(row: seq<real>, b: Box, i: nat): Box
    requires Side(b) > 0.0 && Thickness(row, b) > 0.0 && i < |row|
  {
    var t := Thickness(row, b);
    if b.w >= b.h then
        Box(b.x, b.y + Sum(row, i) / t, t, row[i] / t) else Box(b.x + Sum(row, i) / t, b.y, row[i] / t, t)
  }

  function Strip(row: seq<real>, b: Box): (r: seq<Box>)
    requires Side(b) > 0.0 && Thickness(row, b) > 0.0
    ensures |r| == |row| && forall i :: 0 <= i < |r| ==> r[i] == Piece(row, b, i)
  {
    seq(|row|, i requires 0 <= i < |row| => Piece(row, b, i))
  }

  /** What a row leaves of a box. */
  function Rest(row: seq<real>, b: Box): Box
    requires Side(b) > 0.0
  {
    var t := Thickness(row, b);
    if b.w >= b.h then Box(b.x + t, b.y, b.w - t, b.h) else Box(b.x, b.y + t, b.w, b.h - t)
  }

  /** A row that can be placed: it is not empty, its areas are positive, and they fit the box. */
  ghost predicate Fits(row: seq<real>, b: Box) {
    row != [] && Positive(row) && b.w > 0.0 && b.h > 0.0 && Sum(row, |row|) <= Area(b)
  }

  lemma {:induction false} ThicknessFits(row: seq<real>, b: Box)
    requires Fits(row, b)
    ensures Side(b) > 0.0 && Thickness(row, b) > 0.0 && Thickness(row, b) * Side(b) == Sum(row, |row|)
    ensures Thickness(row, b) <= Long(b)
    ensures Rest(row, b).w >= 0.0 && Rest(row, b).h >= 0.0
    ensures Area(Rest(row, b)) == Area(b) - Sum(row, |row|)
  {
    SumPositive(row, |row|);
    var t, side, long := Thickness(row, b), Side(b), Long(b);
    Quotient(Sum(row, |row|), side);
    SideTimesLong(b);
    assert t * side == Sum(row, |row|);
    CancelAtMost(t, long, side);
    assert (long - t) * side == long * side - t * side;
  }

  method Place(row: seq<real>, b: Box, rects: seq<Box>) returns (rest: Box, rects': seq<Box>)
    requires Fits(row, b)
    ensures Side(b) > 0.0 && Thickness(row, b) > 0.0
    ensures rest == Rest(row, b) && rects' == rects + Strip(row, b)
  {
    ThicknessFits(row, b);
    var thickness := Thickness(row, b);
    var offset := 0.0;
    rects' := rects;
    assert Sum(row, 0) / thickness == 0.0;
    for i := 0 to |row|
      invariant offset == Sum(row, i) / thickness
      invariant rects' == rects + Strip(row, b)[..i]
    {
      QuotientsAdd(Sum(row, i), row[i], thickness);
      var length := row[i] / thickness;
      if b.w >= b.h {
        rects' := rects' + [Box(b.x, b.y + offset, thickness, length)];
      } else {
        rects' := rects' + [Box(b.x + offset, b.y, length, thickness)];
      }
      assert Strip(row, b)[..i + 1] == Strip(row, b)[..i] + [Piece(row, b, i)];
      offset := offset + length;
    }
    assert Strip(row, b)[..|row|] == Strip(row, b);
    rest := if b.w >= b.h then
        Box(b.x + thickness, b.y, b.w - thickness, b.h) else Box(b.x, b.y + thickness, b.w, b.h - thickness);
  }

  predicate HasArea(b: Box, area: real) {
    b.w > 0.0 && b.h > 0.0 && Area(b) == area
  }

  /** The pieces of a row have the areas of the row. */
  lemma {:induction false} PieceArea(row: seq<real>, b: Box, i: nat)
    requires Fits(row, b) && i < |row|
    ensures Side(b) > 0.0 && Thickness(row, b) > 0.0
    ensures HasArea(Piece(row, b, i), row[i])
  {
    ThicknessFits(row, b);
    Quotient(row[i], Thickness(row, b));
  }

  /** The distance of a point from the start of a row, along the row. */
  function Along(b: Box, px: real, py: real): real { if b.w >= b.h then py - b.y else px - b.x }

  function Across(b: Box, px: real, py: real): real { if b.w >= b.h then px - b.x else py - b.y }

  /** Where the i-th piece of a row begins. */
  function Mark(row: seq<real>, b: Box, i: nat): real
    requires Side(b) > 0.0 && Thickness(row, b) > 0.0 && i <= |row|
  {
    Sum(row, i) / Thickness(row, b)
  }

  /** A piece is the points of the row between its mark and the next. */
  lemma {:induction false} PieceIs(row: seq<real>, b: Box, i: nat, px: real, py: real)
    requires Fits(row, b) && i < |row|
    ensures Side(b) > 0.0 && Thickness(row, b) > 0.0
    ensures In(Piece(row, b, i), px, py) <==>
              0.0 <= Across(b, px, py) < Thickness(row, b) && Mark(row, b, i) <= Along(b, px, py) < Mark(row, b, i + 1)
  {
    ThicknessFits(row, b);
    QuotientsAdd(Sum(row, i), row[i], Thickness(row, b));
  }

  lemma {:induction false} MarkRises(row: seq<real>, b: Box, i: nat, j: nat)
    requires Fits(row, b) && i <= j <= |row|
    ensures Side(b) > 0.0 && Thickness(row, b) > 0.0 && Mark(row, b, i) <= Mark(row, b, j)
  {
    ThicknessFits(row, b);
    var t := Thickness(row, b);
    SumGrows(row, i, j);
    QuotientsAdd(Sum(row, i), Sum(row, j) - Sum(row, i), t);
    Quotient(Sum(row, j) - Sum(row, i), t);
  }

  lemma {:induction false} MarkEnds(row: seq<real>, b: Box)
    requires Fits(row, b)
    ensures Side(b) > 0.0 && Thickness(row, b) > 0.0
    ensures Mark(row, b, 0) == 0.0 && Mark(row, b, |row|) == Side(b)
  {
    ThicknessFits(row, b);
    var t := Thickness(row, b);
    Quotient(Sum(row, 0), t);
    Cancel(Mark(row, b, 0), 0.0, t);
    Quotient(Sum(row, |row|), t);
    Cancel(Mark(row, b, |row|), Side(b), t);
  }

  lemma {:induction false} MarksRise(row: seq<real>, b: Box, i: nat, j: nat)
    requires Fits(row, b) && i <= j <= |row|
    ensures Side(b) > 0.0 && Thickness(row, b) > 0.0
    ensures 0.0 <= Mark(row, b, i) <= Mark(row, b, j) <= Side(b)
    ensures Mark(row, b, 0) == 0.0 && Mark(row, b, |row|) == Side(b)
  {
    MarkEnds(row, b);
    MarkRises(row, b, 0, i);
    MarkRises(row, b, i, j);
    MarkRises(row, b, j, |row|);
    hide Mark;
  }

  lemma {:induction false} MarkBefore(row: seq<real>, b: Box, d: real, n: nat) returns (i: nat)
    requires Fits(row, b) && 0 < n <= |row| && 0.0 <= d
    requires Side(b) > 0.0 && Thickness(row, b) > 0.0 && d < Mark(row, b, n)
    ensures i < n && Mark(row, b, i) <= d < Mark(row, b, i + 1)
  {
    MarksRise(row, b, 0, 0);
    if Mark(row, b, n - 1) <= d {
      i := n - 1;
    } else {
      i := MarkBefore(row, b, d, n - 1);
    }
  }

  /** A row and what it leaves fill the box, and nothing twice. */
  lemma {:induction false} RowFills(row: seq<real>, b: Box)
    requires Fits(row, b)
    ensures Side(b) > 0.0 && Thickness(row, b) > 0.0
    ensures Fills(Strip(row, b), Rest(row, b), b)
  {
    ThicknessFits(row, b);
    var strip, rest := Strip(row, b), Rest(row, b);
    forall i | 0 <= i < |strip| ensures Inside(strip[i], b) && Apart(strip[i], rest) {
      forall px: real, py: real | In(strip[i], px, py) ensures In(b, px, py) && !In(rest, px, py) {
        PieceIs(row, b, i, px, py);
        MarksRise(row, b, i, i + 1);
      }
    }
    forall i, j | 0 <= i < j < |strip| ensures Apart(strip[i], strip[j]) {
      PiecesApart(row, b, i, j);
    }
    forall px: real, py: real | In(b, px, py) && !In(rest, px, py) ensures Covered(strip, px, py) {
      MarksRise(row, b, 0, 0);
      var i := MarkBefore(row, b, Along(b, px, py), |row|);
      PieceIs(row, b, i, px, py);
      assert In(strip[i], px, py);
    }
  }

  lemma {:induction false} PiecesApart(row: seq<real>, b: Box, i: nat, j: nat)
    requires Fits(row, b) && i < j < |row|
    ensures Side(b) > 0.0 && Thickness(row, b) > 0.0
    ensures Apart(Piece(row, b, i), Piece(row, b, j))
  {
    ThicknessFits(row, b);
    MarksRise(row, b, i + 1, j);
    forall px: real, py: real ensures In(Piece(row, b, i), px, py) ==> !In(Piece(row, b, j), px, py) {
      PieceIs(row, b, i, px, py);
      PieceIs(row, b, j, px, py);
    }
  }

  // ----- row after row

  /** What the rows leave of a box. */
  function BoxAfter(rows: seq<seq<real>>, box: Box): Box {
    if rows == [] then box
    else
      var before := BoxAfter(rows[..|rows| - 1], box);
      if Side(before) > 0.0 then Rest(rows[|rows| - 1], before) else before
  }

  function Flat(rows: seq<seq<real>>): seq<real> {
    if rows == [] then [] else Flat(rows[..|rows| - 1]) + rows[|rows| - 1]
  }

  /** Rows that can be placed one after the other. */
  ghost predicate Placeable(rows: seq<seq<real>>, box: Box) {
    rows == [] || (Placeable(rows[..|rows| - 1], box) && Fits(rows[|rows| - 1], BoxAfter(rows[..|rows| - 1], box)))
  }

  ghost function Layout(rows: seq<seq<real>>, box: Box): seq<Box>
    requires Placeable(rows, box)
  {
    if rows == [] then []
    else
      var init, last := rows[..|rows| - 1], rows[|rows| - 1];
      ThicknessFits(last, BoxAfter(init, box));
      Layout(init, box) + Strip(last, BoxAfter(init, box))
  }

  lemma {:induction false} FillsNothing(box: Box)
    ensures Fills([], box, box)
  {
  }

  /** Filling the rest goes on filling the box. */
  lemma {:induction false} FillsOn(a: seq<Box>, b: seq<Box>, rest: Box, rest': Box, box: Box)
    requires Fills(a, rest, box) && Fills(b, rest', rest)
    ensures Fills(a + b, rest', box)
  {
    var c := a + b;
    forall i | 0 <= i < |c| ensures Inside(c[i], box) && Apart(c[i], rest') {
      if i < |a| { assert c[i] == a[i]; } else { assert c[i] == b[i - |a|]; }
    }
    forall i, j | 0 <= i < j < |c| ensures Apart(c[i], c[j]) {
      if i < |a| && j >= |a| {
        assert Apart(a[i], rest) && Inside(b[j - |a|], rest);
      }
    }
    forall px: real, py: real | In(box, px, py) && !In(rest', px, py) ensures Covered(c, px, py) {
      if In(rest, px, py) {
        var i :| 0 <= i < |b| && In(b[i], px, py);
        assert In(c[|a| + i], px, py);
      } else {
        var i :| 0 <= i < |a| && In(a[i], px, py);
        assert In(c[i], px, py);
      }
    }
  }

  /** However an input is cut into rows, they fill the box up to what they leave of it. */
  lemma {:induction false} LayoutFills(rows: seq<seq<real>>, box: Box)
    requires Placeable(rows, box)
    ensures Fills(Layout(rows, box), BoxAfter(rows, box), box)
  {
    if rows == [] {
      FillsNothing(box);
    } else {
      var init, last := rows[..|rows| - 1], rows[|rows| - 1];
      LayoutFills(init, box);
      RowFills(last, BoxAfter(init, box));
      FillsOn(Layout(init, box), Strip(last, BoxAfter(init, box)), BoxAfter(init, box), BoxAfter(rows, box), box);
    }
  }

  /** The rectangles have the areas, in order. */
  ghost predicate HaveAreas(rects: seq<Box>, areas: seq<real>) {
    |rects| == |areas| && forall i :: 0 <= i < |rects| ==> HasArea(rects[i], areas[i])
  }

  lemma {:induction false} StripHasAreas(row: seq<real>, b: Box)
    requires Fits(row, b)
    ensures Side(b) > 0.0 && Thickness(row, b) > 0.0 && HaveAreas(Strip(row, b), row)
  {
    ThicknessFits(row, b);
    hide Piece, Thickness, Fits, HasArea, Area;
    forall i | 0 <= i < |row| ensures HasArea(Piece(row, b, i), row[i]) {
      PieceArea(row, b, i);
    }
  }

  lemma {:induction false} AreasConcat(a: seq<Box>, b: seq<Box>, x: seq<real>, y: seq<real>)
    requires HaveAreas(a, x) && HaveAreas(b, y)
    ensures HaveAreas(a + b, x + y)
  {
    forall i | 0 <= i < |a + b| ensures HasArea((a + b)[i], (x + y)[i]) {
      if i < |a| { assert (a + b)[i] == a[i]; } else { assert (a + b)[i] == b[i - |a|]; }
    }
  }

  lemma {:induction false} LayoutHasAreas(rows: seq<seq<real>>, box: Box)
    requires Placeable(rows, box)
    ensures HaveAreas(Layout(rows, box), Flat(rows))
  {
    if rows != [] {
      var init, last := rows[..|rows| - 1], rows[|rows| - 1];
      LayoutHasAreas(init, box);
      StripHasAreas(last, BoxAfter(init, box));
      AreasConcat(Layout(init, box), Strip(last, BoxAfter(init, box)), Flat(init), last);
    }
  }

  // ----- choosing the rows

  function Max(a: real, b: real): real { if b > a then b else a }

  /** How far one rectangle of a row is from a square. */
  function Ratio(side: real, r: real, area: real): real
    requires side > 0.0 && r > 0.0 && area > 0.0
  {
    SquaresPositive(side, r, area);
    Max(side * side * r / (area * area), area * area / (side * side * r))
  }

  lemma {:induction false} SquaresPositive(side: real, r: real, area: real)
    requires side > 0.0 && r > 0.0 && area > 0.0
    ensures side * side * r > 0.0 && area * area > 0.0
  {
    assert side * side > 0.0;
  }

  function WorstUpTo(row: seq<real>, side: real, area: real, n: nat): real
    requires 0 < n <= |row| && Positive(row) && side > 0.0 && area > 0.0
  {
    var last := Ratio(side, row[n - 1], area);
    if n == 1 then last else Max(WorstUpTo(row, side, area, n - 1), last)
  }

  /** The worst ratio of a row; nothing it divides by is zero. */
  function WorstRatio(row: seq<real>, side: real): real
    requires row != [] && Positive(row) && side > 0.0
  {
    SumPositive(row, |row|);
    WorstUpTo(row, side, Sum(row, |row|), |row|)
  }

  /** The row takes the next area in, because it is still empty or does not get worse. */
  predicate Takes(row: seq<real>, next: real, side: real)
    requires Positive(row) && next > 0.0 && side > 0.0
  {
    row == [] || WorstRatio(row + [next], side) <= WorstRatio(row, side)
  }

  ghost predicate Growing(row: seq<real>, side: real)
    requires Positive(row) && side > 0.0
  {
    forall k :: 0 < k < |row| ==> Takes(row[..k], row[k], side)
  }

  /** The row went on as long as it did not get worse, and no longer. */
  ghost predicate Greedy(row: seq<real>, next: seq<real>, b: Box)
    requires Positive(row) && Positive(next) && Side(b) > 0.0
  {
    Growing(row, Side(b)) && (next != [] ==> !Takes(row, next[0], Side(b)))
  }

  ghost predicate AllGreedy(rows: seq<seq<real>>, next: seq<real>, box: Box)
    requires Placeable(rows, box) && Positive(next)
  {
    rows == [] ||
    var init, last := rows[..|rows| - 1], rows[|rows| - 1];
    AllGreedy(init, last, box) && Greedy(last, next, BoxAfter(init, box))
  }

  lemma {:induction false} GrowingMore(row: seq<real>, x: real, side: real)
    requires Positive(row) && x > 0.0 && side > 0.0 && Growing(row, side) && Takes(row, x, side)
    ensures Positive(row + [x]) && Growing(row + [x], side)
  {
    forall k | 0 < k < |row| + 1 ensures Takes((row + [x])[..k], (row + [x])[k], side) {
      assert (row + [x])[..k] == row[..k];
      assert k == |row| ==> row[..k] == row;
    }
  }

  /** Only the first of the areas to come decides where the last row ends. */
  lemma {:induction false} OnlyNextDecides(rows: seq<seq<real>>, next: seq<real>, next': seq<real>, box: Box)
    requires Placeable(rows, box) && Positive(next) && Positive(next') && AllGreedy(rows, next, box)
    requires next != [] && next' != [] && next[0] == next'[0]
    ensures AllGreedy(rows, next', box)
  {
  }

  lemma {:induction false} GreedyRowMore(rows: seq<seq<real>>, row: seq<real>, todo: seq<real>, box: Box)
    requires Placeable(rows, box) && Fits(row, BoxAfter(rows, box)) && Positive(todo) && Side(BoxAfter(rows, box)) > 0.0
    requires Positive(row + todo) && AllGreedy(rows, row + todo, box)
    requires Growing(row, Side(BoxAfter(rows, box))) && (todo != [] ==> !Takes(row, todo[0], Side(BoxAfter(rows, box))))
    ensures Placeable(rows + [row], box) && AllGreedy(rows + [row], todo, box)
  {
    assert (rows + [row])[..|rows|] == rows;
    OnlyNextDecides(rows, row + todo, row, box);
  }

  // ----- the rows, by the sides of their rectangles

  /** x is the worst ratio of the sides of some rectangles: none has a worse one, and one has it. */
  ghost predicate IsWorst(rects: seq<Box>, x: real) {
    && (forall i :: 0 <= i < |rects| ==> rects[i].w > 0.0 && rects[i].h > 0.0)
    && (forall i :: 0 <= i < |rects| ==> rects[i].w / rects[i].h <= x && rects[i].h / rects[i].w <= x)
    && exists i :: 0 <= i < |rects| && (rects[i].w / rects[i].h == x || rects[i].h / rects[i].w == x)
  }

  /** A rectangle r / t long and t thick, in a row of this area along this side. */
  lemma {:induction false} LengthOverThickness(r: real, t: real, side: real, area: real)
    requires r > 0.0 && t > 0.0 && side > 0.0 && area > 0.0 && t * side == area && area * area > 0.0
    ensures r / t / t == side * side * r / (area * area)
  {
    var x, y, squares := r / t / t, side * side * r / (area * area), side * side;
    Quotient(r, t);
    Quotient(r / t, t);
    Quotient(squares * r, area * area);
    SquaresOf(t, side, area);
    TimesSquare(x, t, r);
    TimesSquares(y, area * area, squares, t * t, r);
    Cancel(x, y, t * t);
  }

  lemma {:induction false} ThicknessOverLength(r: real, t: real, side: real, area: real)
    requires r > 0.0 && t > 0.0 && side > 0.0 && area > 0.0 && t * side == area && side * side * r > 0.0
    requires r / t > 0.0
    ensures t / (r / t) == area * area / (side * side * r)
  {
    var x, y, squares := t / (r / t), area * area / (side * side * r), side * side;
    Quotient(r, t);
    Quotient(t, r / t);
    Quotient(area * area, squares * r);
    SquaresOf(t, side, area);
    calc {
      x * r;
      x * (r / t * t);
      x * (r / t) * t;
      t * t;
    }
    assert (y * r) * squares == y * (squares * r) == (t * t) * squares;
    Cancel(y * r, t * t, squares);
    Cancel(x, y, r);
  }

  lemma {:induction false} SquaresOf(t: real, side: real, area: real)
    requires t > 0.0 && side > 0.0 && t * side == area
    ensures area * area == (side * side) * (t * t) && side * side > 0.0 && t * t > 0.0
  {
  }

  lemma {:induction false} TimesSquare(x: real, t: real, r: real)
    requires t > 0.0 && x * t == r / t && r / t * t == r
    ensures x * (t * t) == r
  {
    assert x * (t * t) == x * t * t;
  }

  lemma {:induction false} TimesSquares(y: real, areas: real, squares: real, ts: real, r: real)
    requires areas == squares * ts && y * areas == squares * r && squares > 0.0
    ensures y * ts == r
  {
    assert (y * ts) * squares == y * areas == r * squares;
    Cancel(y * ts, r, squares);
  }

  /** The ratio of a rectangle is the greater of the two quotients of its sides. */
  lemma {:induction false} PieceRatio(row: seq<real>, b: Box, i: nat)
    requires Fits(row, b) && i < |row|
    ensures Side(b) > 0.0 && Thickness(row, b) > 0.0 && Sum(row, |row|) > 0.0
    ensures var p, ratio := Piece(row, b, i), Ratio(Side(b), row[i], Sum(row, |row|));
            && p.w > 0.0 && p.h > 0.0 && p.w / p.h <= ratio && p.h / p.w <= ratio
            && (p.w / p.h == ratio || p.h / p.w == ratio)
  {
    hide Ratio, Thickness, Side, Sum, Area, Fits;
    FitsIsSome(row, b);
    ThicknessFits(row, b);
    SumPositive(row, |row|);
    Quotient(row[i], Thickness(row, b));
    RatioOfSides(row[i], Thickness(row, b), Side(b), Sum(row, |row|));
  }

  lemma {:induction false} RatioOfSides(r: real, t: real, side: real, area: real)
    requires r > 0.0 && t > 0.0 && side > 0.0 && area > 0.0 && t * side == area && r / t > 0.0
    ensures var ratio := Ratio(side, r, area);
            r / t / t <= ratio && t / (r / t) <= ratio && (r / t / t == ratio || t / (r / t) == ratio)
  {
    hide Ratio;
    SquaresPositive(side, r, area);
    LengthOverThickness(r, t, side, area);
    ThicknessOverLength(r, t, side, area);
    RatioIs(side, r, area);
  }

  lemma {:induction false} RatioIs(side: real, r: real, area: real)
    requires side > 0.0 && r > 0.0 && area > 0.0 && side * side * r > 0.0 && area * area > 0.0
    ensures var ratio, u, v := Ratio(side, r, area), side * side * r / (area * area), area * area / (side * side * r);
            u <= ratio && v <= ratio && (u == ratio || v == ratio)
  {
  }

  lemma {:induction false} WorstUpToIs(row: seq<real>, b: Box, n: nat)
    requires Fits(row, b) && 0 < n <= |row|
    ensures Side(b) > 0.0 && Thickness(row, b) > 0.0 && Sum(row, |row|) > 0.0
    ensures IsWorst(Strip(row, b)[..n], WorstUpTo(row, Side(b), Sum(row, |row|), n))
  {
    hide Ratio, Piece, Thickness, Fits;
    FitsIsSome(row, b);
    PieceRatio(row, b, n - 1);
    var strip := Strip(row, b);
    if n > 1 {
      WorstUpToIs(row, b, n - 1);
      WorstMore(strip[..n - 1], strip[n - 1], WorstUpTo(row, Side(b), Sum(row, |row|), n - 1),
          Ratio(Side(b), row[n - 1], Sum(row, |row|)));
    }
    assert strip[..n] == strip[..n - 1] + [strip[n - 1]];
  }

  lemma {:induction false} WorstMore(rects: seq<Box>, last: Box, x: real, y: real)
    requires IsWorst(rects, x) && last.w > 0.0 && last.h > 0.0 && last.w / last.h <= y && last.h / last.w <= y
    requires last.w / last.h == y || last.h / last.w == y
    ensures IsWorst(rects + [last], Max(x, y))
  {
    var all := rects + [last];
    if y > x {
      assert all[|rects|] == last;
    } else {
      var i :| 0 <= i < |rects| && (rects[i].w / rects[i].h == x || rects[i].h / rects[i].w == x);
      assert all[i] == rects[i];
    }
  }

  /** The worst ratio of a row is that of its rectangles, once it is placed. */
  lemma {:induction false} WorstRatioIsWorst(row: seq<real>, b: Box)
    requires Fits(row, b)
    ensures Side(b) > 0.0 && Thickness(row, b) > 0.0 && IsWorst(Strip(row, b), WorstRatio(row, Side(b)))
  {
    WorstUpToIs(row, b, |row|);
    assert Strip(row, b)[..|row|] == Strip(row, b);
  }

  /**
    A placed row lies along the shorter side of the box: equally thick rectangles, each with its area, from one end of
    that side to the other. The rest of the box is what lies beyond them.
   */
  ghost predicate LiesIn(strip: seq<Box>, row: seq<real>, b: Box, rest: Box) {
    && HaveAreas(strip, row) && strip != []
    && if b.h <= b.w then
         && (forall i :: 0 <= i < |strip| ==> strip[i].x == b.x && strip[i].w == strip[0].w)
         && strip[0].y == b.y && strip[|strip| - 1].y + strip[|strip| - 1].h == b.y + b.h
         && (forall i :: 0 <= i < |strip| - 1 ==> strip[i + 1].y == strip[i].y + strip[i].h)
         && rest == Box(b.x + strip[0].w, b.y, b.w - strip[0].w, b.h)
       else
         && (forall i :: 0 <= i < |strip| ==> strip[i].y == b.y && strip[i].h == strip[0].h)
         && strip[0].x == b.x && strip[|strip| - 1].x + strip[|strip| - 1].w == b.x + b.w
         && (forall i :: 0 <= i < |strip| - 1 ==> strip[i + 1].x == strip[i].x + strip[i].w)
         && rest == Box(b.x, b.y + strip[0].h, b.w, b.h - strip[0].h)
  }

  lemma {:induction false} StripLiesIn(row: seq<real>, b: Box)
    requires Fits(row, b)
    ensures Side(b) > 0.0 && Thickness(row, b) > 0.0 && LiesIn(Strip(row, b), row, b, Rest(row, b))
  {
    hide Fits, HaveAreas, Thickness, Area, Mark, Side;
    FitsIsSome(row, b);
    ThicknessFits(row, b);
    StripHasAreas(row, b);
    MarkEnds(row, b);
    forall i | 0 <= i < |row| ensures PieceAt(row, b, i, Piece(row, b, i)) {
      PieceIsAt(row, b, i);
    }
    assert PieceAt(row, b, 0, Piece(row, b, 0)) && PieceAt(row, b, |row| - 1, Piece(row, b, |row| - 1));
    SideIs(b);
  }

  lemma {:induction false} SideIs(b: Box)
    ensures Side(b) == if b.h <= b.w then b.h else b.w
  {
  }

  /** A rectangle reaches from its mark to the next, as thick as the row. */
  ghost predicate PieceAt(row: seq<real>, b: Box, i: nat, p: Box)
    requires Side(b) > 0.0 && Thickness(row, b) > 0.0 && i < |row|
  {
    if b.h <= b.w then
      p.x == b.x && p.w == Thickness(row, b) && p.y == b.y + Mark(row, b, i) && p.y + p.h == b.y + Mark(row, b, i + 1)
    else
      p.y == b.y && p.h == Thickness(row, b) && p.x == b.x + Mark(row, b, i) && p.x + p.w == b.x + Mark(row, b, i + 1)
  }

  lemma {:induction false} PieceIsAt(row: seq<real>, b: Box, i: nat)
    requires Side(b) > 0.0 && Thickness(row, b) > 0.0 && i < |row|
    ensures PieceAt(row, b, i, Piece(row, b, i))
  {
    hide Thickness, Side;
    QuotientsAdd(Sum(row, i), row[i], Thickness(row, b));
  }

  ghost predicate RowLies(row: seq<real>, b: Box, rest: Box) {
    Fits(row, b) && (ThicknessFits(row, b); LiesIn(Strip(row, b), row, b, rest))
  }

  /** Every row lies along the shorter side of what the rows before it leave. */
  ghost predicate RowsLie(rows: seq<seq<real>>, box: Box) {
    forall k :: 0 <= k < |rows| ==> RowLies(rows[k], BoxAfter(rows[..k], box), BoxAfter(rows[..k + 1], box))
  }

  lemma {:induction false} PlaceableLies(rows: seq<seq<real>>, box: Box, k: nat)
    requires Placeable(rows, box) && k < |rows|
    ensures RowLies(rows[k], BoxAfter(rows[..k], box), BoxAfter(rows[..k + 1], box))
  {
    hide Fits, LiesIn, Strip, Thickness, Rest;
    var init, last := rows[..|rows| - 1], rows[|rows| - 1];
    if k == |rows| - 1 {
      StripLiesIn(last, BoxAfter(init, box));
      assert rows[..k + 1] == rows;
    } else {
      PlaceableLies(init, box, k);
      assert init[..k] == rows[..k] && init[..k + 1] == rows[..k + 1];
    }
  }

  /** With one more area the worst ratio of the rectangles is no greater. */
  ghost predicate GoesOn(row: seq<real>, next: real, b: Box) {
    && Fits(row, b) && Fits(row + [next], b)
    && (ThicknessFits(row, b);
        ThicknessFits(row + [next], b);
        exists u, v :: IsWorst(Strip(row, b), u) && IsWorst(Strip(row + [next], b), v) && v <= u)
  }

  ghost predicate EndsBefore(row: seq<real>, next: real, b: Box) {
    && Fits(row, b) && Fits(row + [next], b)
    && (ThicknessFits(row, b);
        ThicknessFits(row + [next], b);
        exists u, v :: IsWorst(Strip(row, b), u) && IsWorst(Strip(row + [next], b), v) && v > u)
  }

  /** Each row went on as long as its rectangles became no worse, and ended where they would have. */
  ghost predicate RowIsGreedy(row: seq<real>, next: seq<real>, b: Box) {
    && (forall j :: 0 < j < |row| ==> GoesOn(row[..j], row[j], b))
    && (next != [] ==> EndsBefore(row, next[0], b))
  }

  ghost predicate GreedyBySides(rows: seq<seq<real>>, box: Box) {
    forall k :: 0 <= k < |rows| ==>
      RowIsGreedy(rows[k], if k + 1 < |rows| then rows[k + 1] else [], BoxAfter(rows[..k], box))
  }

  lemma {:induction false} PrefixFits(row: seq<real>, b: Box, j: nat)
    requires Fits(row, b) && 0 < j <= |row|
    ensures Fits(row[..j], b)
  {
    SumAgrees(row[..j], row, j);
    SumGrows(row, j, |row|);
  }

  lemma {:induction false} NextFits(row: seq<real>, next: seq<real>, b: Box)
    requires Fits(row, b) && Side(b) > 0.0 && Fits(next, Rest(row, b))
    ensures Fits(row + [next[0]], b)
  {
    ThicknessFits(row, b);
    SumGrows(next, 1, |next|);
    assert Sum(next, 1) == Sum(next, 0) + next[0] == next[0];
    assert Sum([next[0]], 1) == Sum([next[0]], 0) + next[0] == next[0];
    SumConcat(row, [next[0]]);
  }

  lemma {:induction false} GreedyIsBySides(row: seq<real>, next: seq<real>, b: Box)
    requires Fits(row, b) && Positive(next) && Side(b) > 0.0 && Greedy(row, next, b)
    requires next != [] ==> Fits(next, Rest(row, b))
    ensures RowIsGreedy(row, next, b)
  {
    hide Fits, WorstRatio, IsWorst, Strip, Thickness, Rest;
    FitsIsSome(row, b);
    forall j | 0 < j < |row| ensures GoesOn(row[..j], row[j], b) {
      PrefixFits(row, b, j);
      FitsIsSome(row[..j], b);
      PrefixFits(row, b, j + 1);
      assert row[..j] + [row[j]] == row[..j + 1];
      WorstRatioIsWorst(row[..j], b);
      WorstRatioIsWorst(row[..j + 1], b);
      assert Takes(row[..j], row[j], Side(b));
    }
    if next != [] {
      NextFits(row, next, b);
      WorstRatioIsWorst(row, b);
      WorstRatioIsWorst(row + [next[0]], b);
    }
  }

  lemma {:induction false} FitsIsSome(row: seq<real>, b: Box)
    requires Fits(row, b)
    ensures row != [] && Positive(row)
  {
  }

  lemma {:induction false} AllAreBySides(rows: seq<seq<real>>, next: seq<real>, box: Box, k: nat)
    requires Placeable(rows, box) && Positive(next) && AllGreedy(rows, next, box) && k < |rows|
    requires next != [] ==> Side(BoxAfter(rows, box)) > 0.0 && Fits(next, BoxAfter(rows, box))
    ensures RowIsGreedy(rows[k], if k + 1 < |rows| then rows[k + 1] else next, BoxAfter(rows[..k], box))
  {
    hide RowIsGreedy, Fits, Greedy, Rest;
    var init, last := rows[..|rows| - 1], rows[|rows| - 1];
    FitsIsSome(last, BoxAfter(init, box));
    ThicknessFits(last, BoxAfter(init, box));
    if k == |rows| - 1 {
      GreedyIsBySides(last, next, BoxAfter(init, box));
    } else {
      AllAreBySides(init, last, box, k);
      assert init[..k] == rows[..k];
    }
  }

  lemma {:induction false} LayoutIsBySides(rows: seq<seq<real>>, box: Box)
    requires Placeable(rows, box) && AllGreedy(rows, [], box)
    ensures RowsLie(rows, box) && GreedyBySides(rows, box)
  {
    hide RowIsGreedy, RowLies, Placeable, AllGreedy;
    forall k | 0 <= k < |rows| ensures RowLies(rows[k], BoxAfter(rows[..k], box), BoxAfter(rows[..k + 1], box)) {
      PlaceableLies(rows, box, k);
    }
    forall k | 0 <= k < |rows|
      ensures RowIsGreedy(rows[k], if k + 1 < |rows| then rows[k + 1] else [], BoxAfter(rows[..k], box))
    {
      AllAreBySides(rows, [], box, k);
    }
  }

  // ----- the loop

  /** The areas of values that share a box. */
  function Areas(values: seq<real>, box: Box, total: real): (r: seq<real>)
    requires total > 0.0
    ensures |r| == |values| && forall i :: 0 <= i < |r| ==> r[i] == values[i] * box.w * box.h / total
  {
    seq(|values|, i requires 0 <= i < |values| => values[i] * box.w * box.h / total)
  }

  lemma {:induction false} AreasAddUp(values: seq<real>, box: Box, total: real, n: nat)
    requires total > 0.0 && n <= |values|
    ensures Sum(Areas(values, box, total), n) * total == Sum(values, n) * (box.w * box.h)
  {
    hide Areas;
    if n > 0 {
      AreasAddUp(values, box, total, n - 1);
      var areas := Areas(values, box, total);
      ShareAdds(Sum(areas, n - 1), areas[n - 1], Sum(values, n - 1), values[n - 1], box.w, box.h, total);
    }
  }

  lemma {:induction false} ShareAdds(area: real, more: real, sum: real, value: real, w: real, h: real, total: real)
    requires total > 0.0 && area * total == sum * (w * h) && more == value * w * h / total
    ensures (area + more) * total == (sum + value) * (w * h)
  {
    Quotient(value * w * h, total);
    Associates(value, w, h);
    Distributes(area, more, total);
    Distributes(sum, value, w * h);
  }

  lemma {:induction false} Associates(a: real, b: real, c: real)
    ensures a * b * c == a * (b * c)
  {
  }

  lemma {:induction false} Distributes(a: real, b: real, t: real)
    ensures (a + b) * t == a * t + b * t
  {
  }

  lemma {:induction false} AreasFillBox(values: seq<real>, box: Box)
    requires values != [] && Positive(values) && box.w > 0.0 && box.h > 0.0
    ensures Sum(values, |values|) > 0.0
    ensures var areas := Areas(values, box, Sum(values, |values|)); Positive(areas) && Sum(areas, |areas|) == Area(box)
  {
    SumPositive(values, |values|);
    var total := Sum(values, |values|);
    var areas := Areas(values, box, total);
    AreasAddUp(values, box, total, |values|);
    Cancel(Sum(areas, |areas|), box.w * box.h, total);
    forall i | 0 <= i < |areas| ensures areas[i] > 0.0 {
      assert values[i] * box.w > 0.0;
      assert values[i] * box.w * box.h > 0.0;
      Quotient(values[i] * box.w * box.h, total);
    }
  }

  /** Rows done, the row in hand and the areas to come: together the input, and just as large as the box. */
  ghost predicate Laying(areas: seq<real>, box: Box, rows: seq<seq<real>>, row: seq<real>, todo: seq<real>, left: Box) {
    && Positive(areas) && Positive(row) && Positive(todo) && areas == Flat(rows) + row + todo
    && Placeable(rows, box) && left == BoxAfter(rows, box) && left.w >= 0.0 && left.h >= 0.0
    && Sum(row, |row|) + Sum(todo, |todo|) == Area(left)
    && (row + todo != [] ==> left.w > 0.0 && left.h > 0.0)
  }

  lemma {:induction false} PositiveSides(b: Box)
    requires b.w >= 0.0 && b.h >= 0.0 && Area(b) > 0.0
    ensures b.w > 0.0 && b.h > 0.0
  {
  }

  lemma {:induction false} NoArea(b: Box)
    requires b.w >= 0.0 && b.h >= 0.0 && Area(b) == 0.0
    ensures b.w == 0.0 || b.h == 0.0
  {
    if b.w > 0.0 { Cancel(b.h, 0.0, b.w); }
  }

  lemma {:induction false} RowFits(areas: seq<real>, box: Box, rows: seq<seq<real>>, row: seq<real>, todo: seq<real>,
                                   left: Box)
    requires Laying(areas, box, rows, row, todo, left) && row != []
    ensures Fits(row, left) && Side(left) > 0.0
  {
    SumPositive(todo, |todo|);
  }

  lemma {:induction false} OneRowMore(rows: seq<seq<real>>, row: seq<real>, box: Box)
    requires Placeable(rows, box) && Fits(row, BoxAfter(rows, box))
    ensures Side(BoxAfter(rows, box)) > 0.0 && Thickness(row, BoxAfter(rows, box)) > 0.0
    ensures Placeable(rows + [row], box) && BoxAfter(rows + [row], box) == Rest(row, BoxAfter(rows, box))
    ensures Layout(rows + [row], box) == Layout(rows, box) + Strip(row, BoxAfter(rows, box))
    ensures Flat(rows + [row]) == Flat(rows) + row
  {
    ThicknessFits(row, BoxAfter(rows, box));
    assert (rows + [row])[..|rows|] == rows;
  }

  lemma {:induction false} PlacedRow(areas: seq<real>, box: Box, rows: seq<seq<real>>, row: seq<real>, todo: seq<real>,
                                     left: Box)
    requires Laying(areas, box, rows, row, todo, left) && row != []
    ensures Fits(row, left) && Side(left) > 0.0
    ensures Laying(areas, box, rows + [row], [], todo, Rest(row, left))
  {
    RowFits(areas, box, rows, row, todo, left);
    ThicknessFits(row, left);
    SumPositive(todo, |todo|);
    OneRowMore(rows, row, box);
    hide Placeable, BoxAfter, Flat, Fits, Rest, Thickness, Area, Side;
    var rest := Rest(row, left);
    if todo != [] { PositiveSides(rest); }
    assert areas == Flat(rows + [row]) + [] + todo;
  }

  lemma {:induction false} LongerRow(areas: seq<real>, box: Box, rows: seq<seq<real>>, row: seq<real>, todo: seq<real>,
                                     left: Box)
    requires Laying(areas, box, rows, row, todo, left) && todo != []
    ensures Laying(areas, box, rows, row + [todo[0]], todo[1..], left)
  {
    assert todo == [todo[0]] + todo[1..];
    assert row + todo == (row + [todo[0]]) + todo[1..];
    SumConcat(row, todo);
    SumConcat(row + [todo[0]], todo[1..]);
  }

  /** What the loop keeps: the rectangles are those of the rows done, and no row was ended too early or too late. */
  ghost predicate Choosing(areas: seq<real>, box: Box, rows: seq<seq<real>>, row: seq<real>, todo: seq<real>,
                           left: Box, rects: seq<Box>) {
    && Laying(areas, box, rows, row, todo, left) && rects == Layout(rows, box)
    && Positive(row + todo) && AllGreedy(rows, row + todo, box)
    && (row + todo != [] ==> Side(left) > 0.0 && Growing(row, Side(left)))
  }

  lemma {:induction false} ChoosingStarts(areas: seq<real>, box: Box)
    requires areas != [] && Positive(areas) && box.w > 0.0 && box.h > 0.0 && Sum(areas, |areas|) == Area(box)
    ensures Choosing(areas, box, [], [], areas, box, [])
  {
    assert [] + areas == areas == Flat([]) + [] + areas;
  }

  lemma {:induction false} ChoosingSides(areas: seq<real>, box: Box, rows: seq<seq<real>>, row: seq<real>,
                                         todo: seq<real>, left: Box, rects: seq<Box>)
    requires Choosing(areas, box, rows, row, todo, left, rects)
    ensures Positive(row) && Positive(todo) && (row != [] || todo != [] ==> Side(left) > 0.0)
  {
  }

  lemma {:induction false} ChoosingTakes(areas: seq<real>, box: Box, rows: seq<seq<real>>, row: seq<real>,
                                         todo: seq<real>, left: Box, rects: seq<Box>)
    requires Choosing(areas, box, rows, row, todo, left, rects) && todo != []
    requires Positive(row) && todo[0] > 0.0 && Side(left) > 0.0 && Takes(row, todo[0], Side(left))
    ensures Choosing(areas, box, rows, row + [todo[0]], todo[1..], left, rects)
  {
    LongerRow(areas, box, rows, row, todo, left);
    GrowingMore(row, todo[0], Side(left));
    hide Laying, Growing, Takes, AllGreedy, Layout;
    assert row + todo == (row + [todo[0]]) + todo[1..];
  }

  /** Cuts the areas into rows and lays them out. The measure falls with every area taken and every row placed. */
  method LayOutRows(areas: seq<real>, box: Box) returns (rects: seq<Box>, ghost rows: seq<seq<real>>)
    requires areas != [] && Positive(areas) && box.w > 0.0 && box.h > 0.0 && Sum(areas, |areas|) == Area(box)
    ensures Choosing(areas, box, rows, [], [], BoxAfter(rows, box), rects)
  {
    rects, rows := [], [];
    var row: seq<real>, todo, left := [], areas, box;
    ChoosingStarts(areas, box);
    hide Choosing, Takes, Sum, Area, BoxAfter;
    while todo != []
      invariant Choosing(areas, box, rows, row, todo, left, rects) && (row != [] || todo != [])
      decreases 2 * |todo| + if row == [] then 0 else 1
    {
      ChoosingSides(areas, box, rows, row, todo, left, rects);
      if Takes(row, todo[0], Side(left)) {
        ChoosingTakes(areas, box, rows, row, todo, left, rects);
        row, todo := row + [todo[0]], todo[1..];
      } else {
        EmptyRowTakes(row, todo[0], Side(left));
        rects, rows, left := PlaceRow(areas, box, rows, row, todo, left, rects);
        row := [];
      }
    }
    ChoosingSides(areas, box, rows, row, todo, left, rects);
    rects, rows, left := PlaceRow(areas, box, rows, row, [], left, rects);
  }

  lemma {:induction false} EmptyRowTakes(row: seq<real>, next: real, side: real)
    requires Positive(row) && next > 0.0 && side > 0.0 && !Takes(row, next, side)
    ensures row != []
  {
  }

  /** Places the row in hand. */
  method PlaceRow(ghost areas: seq<real>, ghost box: Box, ghost rows: seq<seq<real>>, row: seq<real>,
                  ghost todo: seq<real>, left: Box, rects: seq<Box>)
    returns (rects': seq<Box>, ghost rows': seq<seq<real>>, left': Box)
    requires Choosing(areas, box, rows, row, todo, left, rects) && row != [] && Positive(row) && Positive(todo)
        && Side(left) > 0.0
    requires todo != [] ==> !Takes(row, todo[0], Side(left))
    ensures Choosing(areas, box, rows', [], todo, left', rects') && left' == BoxAfter(rows', box)
  {
    RowFits(areas, box, rows, row, todo, left);
    rows' := rows + [row];
    RowPlaced(areas, box, rows, row, todo, left, rects);
    left', rects' := Place(row, left, rects);
  }

  lemma {:induction false} RowPlaced(areas: seq<real>, box: Box, rows: seq<seq<real>>, row: seq<real>, todo: seq<real>,
                                     left: Box, rects: seq<Box>)
    requires Choosing(areas, box, rows, row, todo, left, rects) && row != [] && Positive(row) && Positive(todo)
    requires Fits(row, left) && Side(left) > 0.0 && (todo != [] ==> !Takes(row, todo[0], Side(left)))
    ensures Thickness(row, left) > 0.0 && Rest(row, left) == BoxAfter(rows + [row], box)
    ensures Choosing(areas, box, rows + [row], [], todo, Rest(row, left), rects + Strip(row, left))
  {
    ThicknessFits(row, left);
    PlacedRow(areas, box, rows, row, todo, left);
    OneRowMore(rows, row, box);
    GreedyRowMore(rows, row, todo, box);
    assert [] + todo == todo;
    hide Laying, AllGreedy, Layout, Strip, Rest, Takes, Fits, BoxAfter;
    NoRowYet(areas, box, rows + [row], todo, Rest(row, left));
  }

  lemma {:induction false} NoRowYet(areas: seq<real>, box: Box, rows: seq<seq<real>>, todo: seq<real>, left: Box)
    requires Laying(areas, box, rows, [], todo, left)
    ensures Placeable(rows, box) && (todo != [] ==> Side(left) > 0.0 && Growing([], Side(left)))
  {
  }

  /**
    Lays the values out. Whatever the ratios decide, the loop ends and every row can be placed; the rows it
    does choose are the greedy ones, and their layout is the result.
   */
  method Squarify(values: seq<real>, box: Box) returns (rects: seq<Box>, ghost rows: seq<seq<real>>)
    requires Positive(values) && box.w > 0.0 && box.h > 0.0
    ensures values == [] ==> rects == []
    ensures values != [] ==>
              && Sum(values, |values|) > 0.0
              && HaveAreas(rects, Areas(values, box, Sum(values, |values|)))
              && Tiles(rects, box)
    ensures Placeable(rows, box) && rects == Layout(rows, box) && AllGreedy(rows, [], box)
    ensures values != [] ==> Flat(rows) == Areas(values, box, Sum(values, |values|))
    ensures RowsLie(rows, box) && GreedyBySides(rows, box)
  {
    hide RowsLie, GreedyBySides;
    rects, rows := [], [];
    if values == [] {
      LayoutIsBySides(rows, box);
      return;
    }
    AreasFillBox(values, box);
    var total := Sum(values, |values|);
    var areas := Areas(values, box, total);
    rects, rows := LayOutRows(areas, box);
    LayoutTiles(rows, areas, box);
    NoneTwice();
    LayoutIsBySides(rows, box);
  }

  lemma {:induction false} NoneTwice()
    ensures var none: seq<real> := []; none + none == none
  {
  }

  lemma {:induction false} LayoutTiles(rows: seq<seq<real>>, areas: seq<real>, box: Box)
    requires Laying(areas, box, rows, [], [], BoxAfter(rows, box))
    ensures Tiles(Layout(rows, box), box) && HaveAreas(Layout(rows, box), areas) && Flat(rows) == areas
  {
    LayoutFills(rows, box);
    LayoutHasAreas(rows, box);
    var left := BoxAfter(rows, box);
    assert areas == Flat(rows);
    NoArea(left);
  }
}
