/** The grid of equal cells inside a rectangle of the treemap: so many rows, and cells shared out among them. */
module TreemapCells {
  import opened Squarify

  // ----- cutting a box

  lemma {:induction false} CutColumn(b: Box, w: real)
    requires 0.0 <= w <= b.w
    ensures Fills([Box(b.x, b.y, w, b.h)], Box(b.x + w, b.y, b.w - w, b.h), b)
  {
    var cut, rest := Box(b.x, b.y, w, b.h), Box(b.x + w, b.y, b.w - w, b.h);
    forall px: real, py: real | In(b, px, py) && !In(rest, px, py) ensures Covered([cut], px, py) {
      assert In([cut][0], px, py);
    }
  }

  lemma {:induction false} CutRow(b: Box, h: real)
    requires 0.0 <= h <= b.h
    ensures Fills([Box(b.x, b.y, b.w, h)], Box(b.x, b.y + h, b.w, b.h - h), b)
  {
    var cut, rest := Box(b.x, b.y, b.w, h), Box(b.x, b.y + h, b.w, b.h - h);
    forall px: real, py: real | In(b, px, py) && !In(rest, px, py) ensures Covered([cut], px, py) {
      assert In([cut][0], px, py);
    }
  }

  /** What tiles the piece cut off goes with the rest in its place. */
  lemma {:induction false} TilesCut(rects: seq<Box>, cut: Box, rest: Box, b: Box)
    requires Tiles(rects, cut) && Fills([cut], rest, b)
    ensures Fills(rects, rest, b)
  {
    assert Inside([cut][0], b) && Apart([cut][0], rest);
    forall px: real, py: real | In(b, px, py) && !In(rest, px, py) ensures Covered(rects, px, py) {
      var i :| 0 <= i < 1 && In([cut][i], px, py);
    }
  }

  lemma {:induction false} FillsAll(rects: seq<Box>, rest: Box, b: Box)
    requires Fills(rects, rest, b) && (rest.w == 0.0 || rest.h == 0.0)
    ensures Tiles(rects, b)
  {
  }

  // ----- sharing out

  /** The cells of row r when the count is shared out among the rows. */
  function InRow(count: nat, rows: nat, r: nat): nat
    requires rows > 0
  {
    count / rows + if r < count % rows then 1 else 0
  }

  function InRows(count: nat, rows: nat, n: nat): nat
    requires rows > 0
  {
    if n == 0 then 0 else InRows(count, rows, n - 1) + InRow(count, rows, n - 1)
  }

  lemma {:induction false} InRowsIs(count: nat, rows: nat, n: nat)
    requires rows > 0
    ensures InRows(count, rows, n) == n * (count / rows) + if n < count % rows then n else count % rows
  {
    if n > 0 {
      InRowsIs(count, rows, n - 1);
      assert n * (count / rows) == (n - 1) * (count / rows) + count / rows;
    }
  }

  /** All the cells are shared out, and no row is empty while there are as many cells as rows. */
  lemma {:induction false} SharedOut(count: nat, rows: nat, r: nat)
    requires 0 < rows <= count
    ensures InRows(count, rows, rows) == count && InRow(count, rows, r) > 0
  {
    InRowsIs(count, rows, rows);
    assert count == rows * (count / rows) + count % rows;
  }

  // ----- the grid

  /** k of n equal shares of a length. */
  function Share(length: real, k: nat, n: nat): real
    requires n > 0
  {
    k as real * length / n as real
  }

  lemma {:induction false} ShareGrows(length: real, k: nat, n: nat)
    requires n > 0 && length > 0.0 && k < n
    ensures Share(length, 0, n) == 0.0 && Share(length, n, n) == length
    ensures Share(length, k + 1, n) == Share(length, k, n) + length / n as real
    ensures 0.0 <= length / n as real <= length - Share(length, k, n)
  {
    var m := n as real;
    Quotient(length, m);
    Quotient(n as real * length, m);
    Cancel(Share(length, n, n), length, m);
    Quotient(0.0 * length, m);
    Cancel(Share(length, 0, n), 0.0, m);
    QuotientsAdd(k as real * length, length, m);
    assert (k + 1) as real * length == k as real * length + length;
    ShareFits(length, k + 1, n);
  }

  lemma {:induction false} ShareFits(length: real, k: nat, n: nat)
    requires n > 0 && length > 0.0 && k <= n
    ensures Share(length, k, n) <= length
  {
    Quotient(k as real * length, n as real);
    assert k as real * length <= n as real * length;
    CancelAtMost(Share(length, k, n), length, n as real);
  }

  /** What is left of a row after its first k cells of n. */
  function RowRest(b: Box, k: nat, n: nat): Box
    requires n > 0
  {
    Box(b.x + Share(b.w, k, n), b.y, b.w - Share(b.w, k, n), b.h)
  }

  /** What is left of the grid after its first r rows of n. */
  function GridRest(b: Box, r: nat, n: nat): Box
    requires n > 0
  {
    Box(b.x, b.y + Share(b.h, r, n), b.w, b.h - Share(b.h, r, n))
  }

  lemma {:induction false} CellNext(b: Box, k: nat, n: nat, cells: seq<Box>)
    requires n > 0 && k < n && b.w > 0.0 && Fills(cells, RowRest(b, k, n), b)
    ensures Fills(cells + [Box(b.x + Share(b.w, k, n), b.y, b.w / n as real, b.h)], RowRest(b, k + 1, n), b)
  {
    ShareGrows(b.w, k, n);
    var rest := RowRest(b, k, n);
    CutColumn(rest, b.w / n as real);
    FillsOn(cells, [Box(rest.x, b.y, b.w / n as real, b.h)], rest, RowRest(b, k + 1, n), b);
  }

  lemma {:induction false} RowNext(b: Box, r: nat, n: nat, cells: seq<Box>, row: seq<Box>)
    requires n > 0 && r < n && b.h > 0.0 && Fills(cells, GridRest(b, r, n), b)
    requires Tiles(row, Box(b.x, b.y + Share(b.h, r, n), b.w, b.h / n as real))
    ensures Fills(cells + row, GridRest(b, r + 1, n), b)
  {
    ShareGrows(b.h, r, n);
    var rest := GridRest(b, r, n);
    CutRow(rest, b.h / n as real);
    TilesCut(row, Box(b.x, rest.y, b.w, b.h / n as real), GridRest(b, r + 1, n), rest);
    FillsOn(cells, row, rest, GridRest(b, r + 1, n), b);
  }

  /** The k-th of n cells of the same size in a row. */
  function CellOf(b: Box, k: nat, n: nat): Box
    requires n > 0
  {
    Box(b.x + Share(b.w, k, n), b.y, b.w / n as real, b.h)
  }

  /** Row r of n rows of the same height. */
  function RowOf(b: Box, r: nat, n: nat): Box
    requires n > 0
  {
    Box(b.x, b.y + Share(b.h, r, n), b.w, b.h / n as real)
  }

  method RowCells(b: Box, n: nat) returns (cells: seq<Box>)
    requires n > 0 && b.w > 0.0
    ensures |cells| == n && Tiles(cells, b)
    ensures forall i :: 0 <= i < n ==> cells[i] == CellOf(b, i, n)
  {
    cells := [];
    FillsNothing(b);
    ShareGrows(b.w, 0, n);
    for c := 0 to n
      invariant |cells| == c && Fills(cells, RowRest(b, c, n), b)
      invariant forall i :: 0 <= i < c ==> cells[i] == CellOf(b, i, n)
    {
      CellNext(b, c, n, cells);
      cells := cells + [CellOf(b, c, n)];
    }
    FillsAll(cells, RowRest(b, n, n), b);
  }

  /** As many rows as were guessed, but at least one and no more than there are cells. */
  function RowsFor(count: nat, guess: int): (r: nat)
    requires count > 0
    ensures 0 < r <= count
  {
    var fewer := if guess < count then guess else count;
    if fewer > 1 then fewer else 1
  }

  /** The cells of the first n rows: each row has its share of them, equally wide, row after row. */
  ghost predicate Grid(cells: seq<Box>, b: Box, count: nat, rows: nat, n: nat)
    requires rows > 0
  {
    forall r: nat :: r < n ==> GridRow(cells, b, count, rows, r)
  }

  ghost predicate GridRow(cells: seq<Box>, b: Box, count: nat, rows: nat, r: nat)
    requires rows > 0
  {
    var before, here := InRows(count, rows, r), InRow(count, rows, r);
    && before + here <= |cells|
    && forall k :: 0 <= k < here ==> cells[before + k] == CellOf(RowOf(b, r, rows), k, here)
  }

  lemma {:induction false} GridNext(cells: seq<Box>, row: seq<Box>, b: Box, count: nat, rows: nat, r: nat)
    requires rows > 0 && |cells| == InRows(count, rows, r) && Grid(cells, b, count, rows, r)
    requires |row| == InRow(count, rows, r)
    requires forall k :: 0 <= k < |row| ==> row[k] == CellOf(RowOf(b, r, rows), k, |row|)
    ensures Grid(cells + row, b, count, rows, r + 1)
  {
    hide InRow, RowOf, CellOf;
    forall q: nat | q < r + 1 ensures GridRow(cells + row, b, count, rows, q) {
      if q < r { assert GridRow(cells, b, count, rows, q); }
    }
  }

  /**
    Exactly as many cells as asked for, tiling the box, whatever number of rows was guessed; none in a box
    without an inside. Rows are equally high, and the cells of a row equally wide.
   */
  method Cells(count: nat, b: Box, guess: int) returns (cells: seq<Box>)
    ensures count == 0 || b.w <= 0.0 || b.h <= 0.0 ==> cells == []
    ensures count > 0 && b.w > 0.0 && b.h > 0.0 ==>
        |cells| == count && Tiles(cells, b) && Grid(cells, b, count, RowsFor(count, guess), RowsFor(count, guess))
  {
    cells := [];
    if count == 0 || b.w <= 0.0 || b.h <= 0.0 {
      return;
    }
    var rows := RowsFor(count, guess);
    FillsNothing(b);
    ShareGrows(b.h, 0, rows);
    for r := 0 to rows
      invariant |cells| == InRows(count, rows, r) && Fills(cells, GridRest(b, r, rows), b)
      invariant Grid(cells, b, count, rows, r)
    {
      SharedOut(count, rows, r);
      var row := RowCells(RowOf(b, r, rows), InRow(count, rows, r));
      RowNext(b, r, rows, cells, row);
      GridNext(cells, row, b, count, rows, r);
      cells := cells + row;
    }
    SharedOut(count, rows, 0);
    FillsAll(cells, GridRest(b, rows, rows), b);
  }
}
