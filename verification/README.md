# OpenCLDiffusion driver, modelled in Dafny

OpenCLDiffusion runs an explicit heat-diffusion simulation on a square grid
and leaves the per-cell update to an OpenCL kernel. The kernel is compiled at
run time from `kernel.cl`. The program itself owns four pieces of sequential
logic, and this project models each one:

- **Run-parameter resolution** (`Arguments`). `main` reads the width, the
  work-group size, the iteration count and the print flag from its command
  line. A zero value falls back to the default (1024, 16, 100); `atoi` also
  returns zero for text that is not a number. Height is always set equal to
  width.
- **Grid layout and initialisation** (`GridModel`). This covers the
  `getIndex` row-major map and `gridInit`, which writes the heat value 100
  into the first cells of the grid, i.e. row 0.
- **The ping-pong loop** (`PingPong`). Buffer A starts as a copy of the host
  grid and buffer B starts with no contents. Each iteration dispatches the
  kernel from A into B and then copies B over A. After the loop, B is read
  back.
- **The text dump** (`Printing`). This models which cell is printed at
  which position of the output. The print loop swaps the arguments of
  `getIndex`, so output line `i` is column `i` of the grid: the dump is the
  transpose of the layout `gridInit` writes.

`Driver.Simulate` puts the four pieces together in the order `main` runs
them.

The diffusion kernel is a parameter of type `(Grid, nat) -> Grid`. `main`
binds three kernel arguments: buffer A, buffer B and the width
(main.c:158-160). The model gives the kernel A and the width and takes its
result as the whole new contents of B. Whether the device accepts the
dispatch is a parameter of the run. An OpenCL 1.x device rejects it unless
the width and height are multiples of the work-group size
(`Driver.TilesEvenly`). A rejected dispatch leaves B as it was, and the
copy that follows still runs. What `malloc` leaves in host memory, and what
an unwritten device buffer holds, are parameters too (`nat -> real`).
Cells are `real`.

Three places where the code behaves differently from what its comments or
the usual description of the program suggest. The model follows the code:

- Only zero falls back to a default. A negative argument is converted to
  `unsigned int` and wraps around, so width `-1` becomes 4294967295
  (`Arguments.NegativeWidthWraps`).
- "Zero iterations leave the grid unchanged" does not hold. A zero
  iteration count is replaced by 100. Even without that replacement, a run
  of zero iterations would read back buffer B, which nothing has written
  (`PingPong.ReadBackAfterLoop`).
- The comment in `gridInit` says the rest of the grid "is automatically set
  to 0". Memory from `malloc` is not zeroed, so the model keeps the earlier
  contents of every other cell. `GridModel.InitialGridCells` states both
  cases.

## Model

| member | source | states |
|---|---|---|
| Arguments.ToUnsigned | OpenCLDiffusion/main.c:70-79 | storing an `atoi` result in an `unsigned int` keeps non-negative values, adds 2^32 to negative ones, and gives zero exactly for zero |
| Arguments.Resolve | OpenCLDiffusion/main.c:63-98 | the resolved parameters always have height equal to width, and width, work-group size and iterations all at least 1; each value is the unsigned form of its argument when that argument is present and non-zero, and otherwise 1024, 16 or 100; printing is on exactly when four arguments are given and the fourth is 1 |
| Arguments.ResolveToArgs | OpenCLDiffusion/main.c:57-98 | every valid parameter record comes from a command line: the four-argument line built from it, with values of 2^31 and above written in their negative form, resolves back to it |
| Arguments.ZeroWidthDefaults | OpenCLDiffusion/main.c:70-73 | a missing, zero or unparsable width gives a 1024 by 1024 grid |
| Arguments.NegativeWidthWraps | OpenCLDiffusion/main.c:64-90 | a negative width is not replaced by the default; it wraps to a value of at least 2^31 |
| Arguments.NoRunWithoutIterations | OpenCLDiffusion/main.c:77-98 | every run has at least one iteration, and the count is 100 exactly when the third argument is missing, zero or 100 |
| GridModel.IndexRoundTrip | OpenCLDiffusion/main.c:7 | for a column inside the row, dividing the offset by the width gives back the row, and the remainder gives back the column |
| GridModel.IndexInBounds | OpenCLDiffusion/main.c:7 | a cell inside a `height` by `width` grid has an offset below `width * height` |
| GridModel.IndexInjective | OpenCLDiffusion/main.c:7 | two cells whose columns lie inside the row share an offset only if they are the same cell |
| GridModel.IndexSurjective | OpenCLDiffusion/main.c:7 | every offset below `width * height` is the offset of the cell at row `k / width`, column `k % width` inside the grid |
| GridModel.RowMajorIsBijection | OpenCLDiffusion/main.c:7 | the row-major layout maps the cells of the grid one to one onto the offsets `0 .. width*height - 1` |
| GridModel.WithHeatRow | OpenCLDiffusion/main.c:49-55 | after the heat row is written, the first `length` cells hold 100 and every later cell keeps its previous value; the length does not change |
| GridModel.GridInit | OpenCLDiffusion/main.c:49-55 | the loop gives the same grid as `WithHeatRow`, and cell `getIndex(0, j, width)` holds 100 for every `j < length`, whatever `width` is |
| GridModel.InitialGridCells | OpenCLDiffusion/main.c:100-108 | in the grid `main` initialises, every cell of row 0 holds 100 and every cell of a later row keeps what memory held there |
| GridModel.Index | OpenCLDiffusion/main.c:7 | row 0 starts at offset 0, and `getIndex(0, j, width)` is `j`; a column inside the row lands `j` cells past the start of row `i`, before row `i + 1` begins |
| GridModel.InitialGrid | OpenCLDiffusion/main.c:107-108 | the grid after `gridInit(grid, width, height)` has the same length; cells `getIndex(0, j, height)` for `j < width` hold 100, and every cell from offset `width` on keeps its previous value |
| PingPong.Iterate | OpenCLDiffusion/main.c:156-168 | the kernel applied `n` times; a kernel that keeps the grid's length keeps it over any number of applications, so the read-back fills the host grid exactly |
| PingPong.Create | OpenCLDiffusion/main.c:138-139 | buffer A starts as a copy of the host grid, buffer B starts unwritten, and no dispatch has been issued |
| PingPong.Dispatch | OpenCLDiffusion/main.c:158-164 | a dispatch is always counted and never changes A; when accepted, B receives the kernel applied to A (undefined if A is undefined); when rejected, B is unchanged |
| PingPong.CopyBack | OpenCLDiffusion/main.c:166-167 | after the copy, A equals B, B is unchanged and no dispatch is added |
| PingPong.Step | OpenCLDiffusion/main.c:158-167 | one iteration adds one dispatch and leaves buffers A and B equal; when accepted, B holds the kernel applied to the previous A; when rejected, B keeps its old contents |
| PingPong.Loop | OpenCLDiffusion/main.c:156-168 | `n` iterations add exactly `n` dispatches, and after at least one of them A and B agree |
| PingPong.LoopState | OpenCLDiffusion/main.c:138-168 | after `n` accepted iterations from a fresh start there have been exactly `n` dispatches; A holds the kernel applied `n` times; B holds the same value if `n >= 1` and is still unwritten if `n = 0` |
| PingPong.RejectedLoopState | OpenCLDiffusion/main.c:139-168 | when every dispatch is rejected, B is never written, and after the first copy A is unwritten too |
| PingPong.ReadBackAfterLoop | OpenCLDiffusion/main.c:167-170 | with accepted dispatches, the buffer read back holds the kernel applied `n` times whenever `n >= 1`; it is unwritten exactly when `n = 0` or the dispatches are rejected |
| PingPong.RunIterations | OpenCLDiffusion/main.c:156-168 | the loop leaves the state of `Loop` after `iterations` steps: exactly `iterations` dispatches; with accepted dispatches A equals the kernel applied `iterations` times; with rejected ones B stays unwritten; B equals A once at least one iteration has run |
| Printing.PrintOrder | OpenCLDiffusion/main.c:172-179 | the print loop emits `width` lines; position `j` of line `i` is offset `getIndex(j, i, width)`, and the whole order is the transpose of the row-major layout |
| Printing.Dump | OpenCLDiffusion/main.c:172-179 | the dump of a `width * height` grid has `width` lines of `height` values each |
| Printing.PrintOrderInBounds | OpenCLDiffusion/main.c:173-175 | every offset the print loop reads lies inside the `width * height` grid |
| Printing.EveryCellPrintedOnce | OpenCLDiffusion/main.c:173-178 | each offset of the grid is printed exactly once: on line `k % width`, at position `k / width` |
| Printing.DumpAt | OpenCLDiffusion/main.c:175 | position `j` of dump line `i` shows the cell at row `j`, column `i` |
| Printing.DumpIsTranspose | OpenCLDiffusion/main.c:173-178 | dump line `i` is grid column `i`, so transposing the dump gives back the grid's rows |
| Printing.HeatRowPrintsAsFirstColumn | OpenCLDiffusion/main.c:53 | in the dump of the initial grid every line starts with 100; the other values on a line come from rows below the heat row |
| Driver.Allocate | OpenCLDiffusion/main.c:104-105 | a fresh block of `n` cells holds, at each offset, whatever memory held there |
| Driver.WidthAloneMayNotTile | OpenCLDiffusion/main.c:66-75 | the command line `100` gives width 100 with the default tile of 16, which does not tile evenly, so an OpenCL 1.x device rejects its dispatches |
| Driver.ReadBackIsDefined | OpenCLDiffusion/main.c:96-98 | for any command line whose dispatches are accepted, the buffer read back at the end holds the kernel applied `iterations` times; when they are rejected, it is the unwritten buffer B |
| Driver.HostGrid | OpenCLDiffusion/main.c:100-108 | allocating `width * height` cells and running `gridInit(grid, width, height)` gives the start grid |
| Driver.PrintGrid | OpenCLDiffusion/main.c:172-179 | rendering the grid in the print loop's order gives the dump |
| Driver.Simulate | OpenCLDiffusion/main.c:63-182 | a run resolves its parameters from the arguments and returns a `width * height` grid: with accepted dispatches, the kernel applied exactly `iterations` times to the initial grid, independent of what the second host grid held; with rejected ones, whatever device memory held under buffer B; it outputs the dump when printing is on and nothing otherwise |

## Left out

- OpenCL is left out: context and device discovery, the command queue,
  buffer creation, program build, kernel-argument binding, enqueue and
  read-back (main.c:110-170). These are foreign calls. They appear only as
  the abstract buffer operations `Create`, `Dispatch`, `CopyBack` and the
  final read of buffer B, applied in order because the queue is in order.
- Failed device calls other than a rejected dispatch are not modelled.
  Whether the device accepts the dispatches is one flag for the whole run.
  A device that accepts some dispatches and rejects others is left out.
  `checkError` (main.c:42-46) only logs and never changes control flow.
- The work-group size enters the model only through `Driver.TilesEvenly`.
  Which devices apply that rule is not modelled, so acceptance stays a
  parameter.
- PingPong.Dispatch: assumes the kernel writes every cell of B from A and
  the width, although `main` also binds B itself (main.c:159). A kernel
  that leaves some cells of B unwritten would keep their earlier,
  possibly undefined contents; the model does not cover that.
- The third kernel argument is bound with `sizeof(cl_mem)` bytes from an
  `unsigned int`. The model hands the kernel the width.
- `readFile` (main.c:14-40) is left out because it is file I/O. So is the
  null program source that a missing `kernel.cl` produces.
- The diffusion formula lives in `kernel.cl`, which is not part of this
  model. The kernel is an arbitrary function parameter.
- `atoi` is left out. Arguments arrive already parsed as C `int` values,
  with 0 standing for unparsable text.
- The `%8.3f,` number formatting and the line breaks are left out. Only
  which cell appears at which position of the dump is modelled.
- Single-precision float arithmetic is left out. Cells are `real`.
- Driver.HostGrid: does not model the overflow of `width * height` into
  the `int gridLength` (main.c:100) or of `gridLength * sizeof(float)`
  (main.c:101). Grid sizes are unbounded naturals, so for widths above
  46340 the model allocates the full `width * height` cells where the
  source allocates a wrapped size. Width `-1` gets a 4-byte block in the
  source but (2^32 - 1)^2 cells here. `Driver.StartGrid` and
  `Driver.Simulate` inherit this.
- Printing.PrintOrder: does not model the `int` loop counters compared
  with `unsigned` bounds (main.c:173-174). For widths of 2^31 or more
  those counters would overflow.
