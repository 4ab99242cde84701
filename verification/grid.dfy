/**
 The grid: a dense row-major array of cells, the `getIndex` map from a
 (row, column) pair to a flat offset, and `gridInit`, which writes the heat
 source into row 0.

 Cells are `real`; the source stores single-precision floats, but the only
 values this part of the program ever writes are 100 and whatever the
 allocator left in memory.
 */
module GridModel {

  type Grid = seq<real>

  /** The heat value `gridInit` writes into row 0. */
  const Heat: real := 100.0

  /** `getIndex(i, j, width)`: row `i`, column `j` of a row-major grid whose
      rows are `width` cells long. Row 0 starts at offset 0, and a column
      inside the row lands at that distance past the row's start, before
      the next row begins. */
  function Index(i: nat, j: nat, width: nat): (k: nat)
    ensures Index(0, j, width) == j
    ensures j < width ==> k - j == i * width && k < (i + 1) * width
  {
    i * width + j
  }

  /** For a column inside the row, row and column can be read back from the
      offset. */
  lemma IndexRoundTrip(i: nat, j: nat, width: nat)
    requires j < width
    ensures Index(i, j, width) / width == i && Index(i, j, width) % width == j
  {
    DivModOfIndex(i, j, width);
  }

  /** Multiplying by a width of at least one row keeps the order of rows. */
  lemma MulMonotone(a: nat, b: nat, width: nat)
    requires a <= b
    ensures a * width <= b * width
  {
    assert b * width == a * width + (b - a) * width;
  }

  lemma DivModOfIndex(i: nat, j: nat, width: nat)
    requires j < width
    ensures (i * width + j) / width == i && (i * width + j) % width == j
  {
    var k := i * width + j;
    var q, r := k / width, k % width;
    assert k == q * width + r;
    if q < i {
      MulMonotone(q + 1, i, width);
    } else if q > i {
      MulMonotone(i + 1, q, width);
    }
  }

  /** Inside an `height` by `width` grid, `getIndex` stays within the array. */
  lemma IndexInBounds(i: nat, j: nat, width: nat, height: nat)
    requires i < height && j < width
    ensures Index(i, j, width) < width * height
  {
    MulMonotone(i + 1, height, width);
  }

  /** Distinct cells never share an offset. */
  lemma IndexInjective(i1: nat, j1: nat, i2: nat, j2: nat, width: nat)
    requires j1 < width && j2 < width
    requires Index(i1, j1, width) == Index(i2, j2, width)
    ensures i1 == i2 && j1 == j2
  {
    IndexRoundTrip(i1, j1, width);
    IndexRoundTrip(i2, j2, width);
  }

  /** Every offset of an `height` by `width` grid is the index of the cell at
      row `k / width`, column `k % width`. */
  lemma IndexSurjective(k: nat, width: nat, height: nat)
    requires k < width * height
    ensures width > 0
    ensures k / width < height && k % width < width
    ensures Index(k / width, k % width, width) == k
  {
    if k / width >= height {
      MulMonotone(height, k / width, width);
      assert false;
    }
  }

  /** The offsets of a `height` by `width` grid, row by row: the layout
      `gridInit` and the kernel read and write. */
  function RowMajor(width: nat, height: nat): (m: seq<seq<nat>>)
    ensures |m| == height
    ensures forall r :: 0 <= r < height ==> |m[r]| == width
  {
    seq(height, r requires 0 <= r < height =>
      seq(width, c requires 0 <= c < width => Index(r, c, width)))
  }

  lemma RowMajorAt(width: nat, height: nat, r: nat, c: nat)
    requires r < height && c < width
    ensures RowMajor(width, height)[r][c] == Index(r, c, width)
  {
  }

  /** Every offset of the row-major layout lies inside the grid, and each
      offset of the grid occurs in it exactly once. */
  lemma RowMajorIsBijection(width: nat, height: nat)
    ensures forall r, c :: 0 <= r < height && 0 <= c < width ==> RowMajor(width, height)[r][c] < width * height
    ensures forall k :: 0 <= k < width * height ==>
      width > 0 && k / width < height && k % width < width && RowMajor(width, height)[k / width][k % width] == k
    ensures forall r1, c1, r2, c2 ::
      (0 <= r1 < height && 0 <= c1 < width && 0 <= r2 < height && 0 <= c2 < width &&
       RowMajor(width, height)[r1][c1] == RowMajor(width, height)[r2][c2]) ==> r1 == r2 && c1 == c2
  {
    var m := RowMajor(width, height);
    forall r, c | 0 <= r < height && 0 <= c < width
      ensures m[r][c] < width * height
    {
      IndexInBounds(r, c, width, height);
    }
    forall k | 0 <= k < width * height
      ensures width > 0 && k / width < height && k % width < width && m[k / width][k % width] == k
    {
      IndexSurjective(k, width, height);
    }
    forall r1, c1, r2, c2 |
      0 <= r1 < height && 0 <= c1 < width && 0 <= r2 < height && 0 <= c2 < width && m[r1][c1] == m[r2][c2]
      ensures r1 == r2 && c1 == c2
    {
      IndexInjective(r1, c1, r2, c2, width);
    }
  }

  /** What `gridInit(grid, length, width)` leaves in the grid: cells
      `getIndex(0, j, width)`, that is `j`, for `j < length` hold the heat
      value; the rest is what was there before. The `width` argument only
      ever multiplies row 0, so it does not influence the result. */
  function WithHeatRow(grid: Grid, length: nat): (r: Grid)
    requires length <= |grid|
    ensures |r| == |grid|
    ensures forall j :: 0 <= j < length ==> r[j] == Heat
    ensures forall k :: length <= k < |grid| ==> r[k] == grid[k]
  {
    seq(length, _ => Heat) + grid[length..]
  }

  /** `gridInit`, loop for loop. */
  method GridInit(grid: Grid, length: nat, width: nat) returns (r: Grid)
    requires length <= |grid|
    ensures r == WithHeatRow(grid, length)
    ensures forall j :: 0 <= j < length ==> r[Index(0, j, width)] == Heat
  {
    r := grid;
    var j := 0;
    while j < length
      invariant j <= length
      invariant |r| == |grid|
      invariant forall jj :: 0 <= jj < j ==> r[jj] == Heat
      invariant r[j..] == grid[j..]
    {
      r := r[Index(0, j, width) := Heat];
      j := j + 1;
    }
  }

  /** The initial condition of a run: a `height` by `width` grid whose
      previous contents are `prior` gets the heat row written by
      `gridInit(grid, width, height)`, as `main` calls it. */
  function InitialGrid(prior: Grid, width: nat, height: nat): (g: Grid)
    requires |prior| == width * height && height >= 1
    ensures |g| == |prior|
    ensures forall j :: 0 <= j < width ==> g[Index(0, j, height)] == Heat
    ensures forall k :: width <= k < |prior| ==> g[k] == prior[k]
  {
    assert width <= width * height;
    WithHeatRow(prior, width)
  }

  /** On memory that was zero, the initial grid is 100 in row 0 and 0
      everywhere else; in any case, rows other than 0 keep their old values. */
  lemma InitialGridCells(prior: Grid, width: nat, height: nat, i: nat, j: nat)
    requires |prior| == width * height && height >= 1
    requires i < height && j < width
    ensures Index(i, j, width) < |prior|
    ensures i == 0 ==> InitialGrid(prior, width, height)[Index(i, j, width)] == Heat
    ensures i > 0 ==> InitialGrid(prior, width, height)[Index(i, j, width)] == prior[Index(i, j, width)]
  {
    IndexInBounds(i, j, width, height);
    if i > 0 {
      assert i * width >= width;
    }
  }
}
