/**
 The optional text dump at the end of `main`: which cell of the read-back
 grid appears at which position of the output. Number formatting is not
 modelled; a line is the sequence of cells printed on it.

 The print loop passes its counters to `getIndex` swapped, `getIndex(j, i,
 width)` with `i` counting lines up to `width` and `j` counting values up to
 `height`, so line `i` shows column `i` of the row-major grid: the printed
 grid is the transpose of the layout `gridInit` writes.
 */
module Printing {
  import opened GridModel

  /** `Transpose(m, cols)[c][r] == m[r][c]` for a matrix whose rows all have
      `cols` entries. */
  function Transpose<T>(m: seq<seq<T>>, cols: nat): (t: seq<seq<T>>)
    requires forall r :: 0 <= r < |m| ==> |m[r]| == cols
    ensures |t| == cols
    ensures forall c :: 0 <= c < cols ==> |t[c]| == |m|
  {
    seq(cols, c requires 0 <= c < cols => seq(|m|, r requires 0 <= r < |m| => m[r][c]))
  }

  /** The print loop: `width` lines of `height` offsets each, line `i`
      holding `getIndex(j, i, width)` for `j` from 0 up to `height`. */
  method PrintOrder(width: nat, height: nat) returns (lines: seq<seq<nat>>)
    ensures lines == Transpose(RowMajor(width, height), width)
    ensures |lines| == width
    ensures forall i, j :: 0 <= i < width && 0 <= j < height ==> lines[i][j] == Index(j, i, width)
  {
    lines := [];
    var i := 0;
    while i < width
      invariant i <= width
      invariant |lines| == i
      invariant forall ii :: 0 <= ii < i ==> |lines[ii]| == height
      invariant forall ii, j :: 0 <= ii < i && 0 <= j < height ==> lines[ii][j] == Index(j, ii, width)
    {
      var line := [];
      var j := 0;
      while j < height
        invariant j <= height
        invariant |line| == j
        invariant forall jj :: 0 <= jj < j ==> line[jj] == Index(jj, i, width)
      {
        line := line + [Index(j, i, width)];
        j := j + 1;
      }
      lines := lines + [line];
      i := i + 1;
    }
    var t := Transpose(RowMajor(width, height), width);
    forall i | 0 <= i < width
      ensures lines[i] == t[i]
    {
      forall j | 0 <= j < height
        ensures lines[i][j] == t[i][j]
      {
        RowMajorAt(width, height, j, i);
      }
    }
  }

  /** Every entry of a matrix of offsets is below `size`. */
  predicate OffsetsBelow(order: seq<seq<nat>>, size: nat) {
    forall i, j :: 0 <= i < |order| && 0 <= j < |order[i]| ==> order[i][j] < size
  }

  /** The values shown for a matrix of offsets into `grid`. */
  function Render(grid: Grid, order: seq<seq<nat>>): (shown: seq<seq<real>>)
    requires OffsetsBelow(order, |grid|)
    ensures |shown| == |order|
    ensures forall i :: 0 <= i < |order| ==> |shown[i]| == |order[i]|
  {
    seq(|order|, i requires 0 <= i < |order| =>
      seq(|order[i]|, j requires 0 <= j < |order[i]| => grid[order[i][j]]))
  }

  /** Every offset the print loop reads lies inside the grid. */
  lemma PrintOrderInBounds(width: nat, height: nat)
    ensures OffsetsBelow(Transpose(RowMajor(width, height), width), width * height)
  {
    var order := Transpose(RowMajor(width, height), width);
    forall i, j | 0 <= i < |order| && 0 <= j < |order[i]|
      ensures order[i][j] < width * height
    {
      RowMajorAt(width, height, j, i);
      IndexInBounds(j, i, width, height);
    }
    assert OffsetsBelow(order, width * height);
  }

  /** Every offset of the row-major layout lies inside the grid. */
  lemma RowMajorInBounds(width: nat, height: nat)
    ensures OffsetsBelow(RowMajor(width, height), width * height)
  {
    RowMajorIsBijection(width, height);
    assert OffsetsBelow(RowMajor(width, height), width * height);
  }

  /** The dump of a `height` by `width` grid. */
  function Dump(grid: Grid, width: nat, height: nat): (shown: seq<seq<real>>)
    requires |grid| == width * height
    ensures |shown| == width
    ensures forall i :: 0 <= i < width ==> |shown[i]| == height
  {
    PrintOrderInBounds(width, height);
    Render(grid, Transpose(RowMajor(width, height), width))
  }

  /** Every cell of the grid is printed exactly once: offset `k` appears on
      line `k % width` at position `k / width`, and nowhere else. */
  lemma EveryCellPrintedOnce(width: nat, height: nat, k: nat)
    requires k < width * height
    ensures var lines := Transpose(RowMajor(width, height), width);
      && width > 0 && k % width < width && k / width < height
      && lines[k % width][k / width] == k
      && forall i, j :: 0 <= i < width && 0 <= j < height && lines[i][j] == k ==> i == k % width && j == k / width
  {
    RowMajorIsBijection(width, height);
  }

  /** Position `j` of line `i` of the dump shows row `j`, column `i` of
      the grid. */
  lemma DumpAt(grid: Grid, width: nat, height: nat, i: nat, j: nat)
    requires |grid| == width * height
    requires i < width && j < height
    ensures Index(j, i, width) < |grid|
    ensures Dump(grid, width, height)[i][j] == grid[Index(j, i, width)]
  {
    IndexInBounds(j, i, width, height);
    RowMajorAt(width, height, j, i);
    assert Transpose(RowMajor(width, height), width)[i][j] == Index(j, i, width);
  }

  /** The grid as rows, in the layout `gridInit` writes. */
  function Rows(grid: Grid, width: nat, height: nat): (rows: seq<seq<real>>)
    requires |grid| == width * height
    ensures |rows| == height
  {
    RowMajorInBounds(width, height);
    Render(grid, RowMajor(width, height))
  }

  /** Line `i` of the dump is column `i` of the grid, so transposing the
      dump gives back the grid's rows. */
  lemma DumpIsTranspose(grid: Grid, width: nat, height: nat)
    requires |grid| == width * height
    ensures forall i, j :: 0 <= i < width && 0 <= j < height ==>
      Index(j, i, width) < |grid| && Dump(grid, width, height)[i][j] == grid[Index(j, i, width)]
    ensures Transpose(Dump(grid, width, height), height) == Rows(grid, width, height)
  {
    var dump := Dump(grid, width, height);
    forall i, j | 0 <= i < width && 0 <= j < height
      ensures Index(j, i, width) < |grid| && dump[i][j] == grid[Index(j, i, width)]
    {
      DumpAt(grid, width, height, i, j);
    }
    var back := Transpose(dump, height);
    var rows := Rows(grid, width, height);
    forall r | 0 <= r < height
      ensures back[r] == rows[r]
    {
      forall c | 0 <= c < width
        ensures back[r][c] == rows[r][c]
      {
        DumpAt(grid, width, height, c, r);
        RowMajorAt(width, height, r, c);
      }
    }
  }

  /** The dump of the initial grid shows the heat source as its first
      column, not its first line: every line starts with 100, and the other
      values of a line come from rows below the heat row. */
  lemma HeatRowPrintsAsFirstColumn(prior: Grid, width: nat, height: nat, i: nat, j: nat)
    requires |prior| == width * height && height >= 1
    requires i < width && j < height
    ensures j == 0 ==> Dump(InitialGrid(prior, width, height), width, height)[i][j] == Heat
    ensures j > 0 ==>
      && Index(j, i, width) < |prior|
      && Dump(InitialGrid(prior, width, height), width, height)[i][j] == prior[Index(j, i, width)]
  {
    var g := InitialGrid(prior, width, height);
    var k := Index(j, i, width);
    DumpAt(g, width, height, i, j);
    InitialGridCells(prior, width, height, j, i);
    assert Dump(g, width, height)[i][j] == g[k];
  }
}
