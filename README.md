# Game of Life engine

A Dafny model of the `GameOfLife` class in `main.cpp`. The class runs
Conway's Game of Life on a `width` x `height` board. The board wraps round
at its edges (a torus) and is stored row-major in one flat vector of
booleans (`true` is a live cell). The model covers the constructor, the
index arithmetic `GetIndex`, the neighbour scan `CountNeighbors`, the
generation step `Update`, the mouse toggle `ToggleCell` with its pixel to
cell conversion by `CELL_SIZE` (10), and `Clear`.

The project has four modules:

- `CppInt` (`cpp_int.dfy`): C++ `int` division and remainder. C++ truncates
  toward zero while Dafny's `/` and `%` are Euclidean, so the C++ operators
  are written out as `Div` and `Rem`. For the positive divisors the engine
  uses, they take the divisor away from the dividend toward zero until less
  than one divisor is left. Lemmas tie them to the C++ identity
  `(a / b) * b + a % b == a` and to Dafny's operators.
- `Life` (`life.dfy`): the specification as pure functions on the flat cell
  sequence.
  - `GetIndex` is the engine's index expression, with C++ `%`.
  - `NeighborCount` is the sum over the eight wrapped neighbours.
  - `Rule` is B3/S23.
  - `Step` is the next generation, computed from the current grid only.
  - `Toggled` is the grid after a click.
- `Engine` (`engine.dfy`): the class `GameOfLife`. Its `grid` is an
  `array<bool>`, and its methods are proved against the `Life` functions.
  `Update` fills a fresh buffer in the source's nested `y`/`x` loops and only
  then replaces `grid`. Its postcondition `grid[..] == Step(old(grid[..]))`
  therefore captures the double-buffer discipline: every count is taken on
  the old grid.
- `Patterns` (`patterns.dfy`): two classic patterns on a 4 x 4 torus,
  worked out cell by cell. The block is a still life and the blinker an
  oscillator of period 2. Each cell is checked with `EdgeCount`, a count that
  wraps a coordinate one step past an edge by one period. `EdgeCountAgrees`
  proves it equal to `NeighborCount`, and `RulesUpToIsStep` turns a board
  whose every cell follows the rule into `Step` of the old board.

All arithmetic stays within a 32-bit `int` by precondition (`FitsInInt`):
`width * height`, `2 * width` and `2 * height` are at most `INT_MAX`. The
engine code does not check its dimensions. The model requires them to be
positive.

Two consequences of the code worth spelling out:

- The shifted truncating `%` of `GetIndex` (main.cpp:30) wraps correctly only
  from one period below zero onwards (`x >= -width`, `y >= -height`).
  - `Life.GetIndexPeriodic` proves periodicity within that range.
  - `Life.GetIndexFarNegative` shows an index off the grid just below it.
  - The engine itself only ever asks for offsets of one, so it never leaves
    the range.
- On a 3 x 3 torus `(0, 0)` is a diagonal neighbour of the centre `(1, 1)`.
  With only `(0, 0)` alive, the centre's count is therefore 1
  (`Life.CornerWrap`).

## Model

| member | source | states |
|---|---|---|
| `CppInt.Div` | main.cpp:78-79 | Truncating division by a positive divisor: for a non-negative dividend the remainder `a - q*b` is in `[0, b)`, for a negative one in `(-b, 0]` |
| `CppInt.Rem` | main.cpp:30 | Truncating remainder: it has the sign of the dividend and magnitude below `b` (in `[0, b)` for `a >= 0`, in `(-b, 0]` for `a < 0`) |
| `CppInt.DivRem` | main.cpp:30 | Quotient and remainder rebuild the dividend: `Div(a, b) * b + Rem(a, b) == a` |
| `CppInt.NonNegativeAgrees` | main.cpp:30 | For a non-negative dividend the C++ operators coincide with Dafny's Euclidean ones |
| `CppInt.NegativeDiffers` | main.cpp:78 | They differ on negative dividends: C++ `-5 / 10` is 0 (Dafny: -1), C++ `-1 % 2` is -1 (Dafny: 1) |
| `Life.GetIndex` | main.cpp:29-31 | The index `(y+h)%h*w + (x+w)%w` with C++ `%` lies in `[0, w*h)` whenever `x >= -w` and `y >= -h` |
| `Life.GetIndexWraps` | main.cpp:30 | In that range the index equals the row-major index of the toroidal position `(x mod w, y mod h)`, with mathematical `mod` |
| `Life.GetIndexOnBoard` | main.cpp:30 | For an on-board position the index is plain row-major `y*w + x` |
| `Life.GetIndexInjective` | main.cpp:30 | Distinct on-board positions get distinct indices |
| `Life.GetIndexWrapsX` | main.cpp:30 | Column -1 is column `w-1` and column `w` is column 0 |
| `Life.GetIndexWrapsY` | main.cpp:30 | Row -1 is row `h-1` and row `h` is row 0 |
| `Life.GetIndexPeriodic` | main.cpp:30 | Shifting by whole periods `k*w`, `m*h` gives the same index, for both points in the wrapping range |
| `Life.GetIndexFarNegative` | main.cpp:30 | Below the range the formula leaves the grid: on a 2 x 1 board column -3 gives index -1, though column -1 gives 1 |
| `Life.NeighborCount` | main.cpp:33-44 | The count over the eight wrapped neighbours is a natural number of at most 8 |
| `Life.NeighborIndices` | main.cpp:35-40 | The eight neighbour indices all lie on the grid |
| `Life.NeighborCountLocal` | main.cpp:35-40 | The count reads only the eight neighbours: two grids that agree on them give the same count |
| `Life.OffsetIsSelf` | main.cpp:37-40 | The neighbour at offset `(dx, dy)` is the cell itself exactly when each non-zero offset wraps round a board one cell long |
| `Life.SelfNeighborIff` | main.cpp:37 | A cell is among its own eight neighbours if and only if the board is one cell wide or one cell high |
| `Life.NeighborCountIgnoresSelf` | main.cpp:37 | On boards at least 2 x 2 the count does not depend on the cell's own state |
| `Life.CornerWrap` | main.cpp:35-43 | With only `(0, 0)` alive on a 3 x 3 board, both `(2, 2)` (by wrapping) and `(1, 1)` count one live neighbour |
| `Life.ScanCountComplete` | main.cpp:34-43 | The row-by-row scan of the offset square, skipping `(0, 0)`, adds up exactly the eight neighbours |
| `Life.Step` | main.cpp:46-62 | The next generation is a grid of the same dimensions |
| `Life.StepAt` | main.cpp:50-59 | Cell `(x, y)` of the next generation is alive exactly when it was alive with 2 or 3 live neighbours or dead with exactly 3, counted in the old grid |
| `Life.StepUnique` | main.cpp:47-62 | Conversely, any grid of the right size whose every cell follows that rule on the old grid is `Step` of it |
| `Life.NextGeneration` | main.cpp:47-62 | A grid following the rule at every position exists |
| `Life.AllDeadNoNeighbors` | main.cpp:40 | In an all-dead grid every neighbour count is 0 |
| `Life.StepAllDead` | main.cpp:53-59 | An all-dead grid stays all-dead |
| `Life.StepIsolatedDeadStaysDead` | main.cpp:55-59 | A dead cell whose eight neighbours are dead stays dead |
| `Life.Toggled` | main.cpp:77-83 | After a click the grid has the same size, and a cell differs from before if and only if the clicked cell `(px/10, py/10)` with C++ division is on the board and the cell is that one |
| `Life.ToggledTwice` | main.cpp:77-83 | Clicking the same pixel twice restores the grid |
| `Life.ToggledOnBoard` | main.cpp:78-81 | For non-negative pixels on the board, the cell at row-major index `(py/10)*w + px/10` is flipped |
| `Life.ToggledLeftOfWindow` | main.cpp:78-79 | Because C++ division truncates, a pixel between -9 and -1 acts on the same column as pixel 0 |
| `Engine.GameOfLife.constructor` | main.cpp:26-27 | A new engine has the given dimensions and a fresh buffer of `width*height` cells, all dead |
| `Engine.GameOfLife.CountNeighbors` | main.cpp:33-44 | The double loop over `dy`, `dx` skipping `(0, 0)` returns `NeighborCount` of the current grid, a value in `[0, 8]` |
| `Engine.GameOfLife.Update` | main.cpp:46-62 | The new grid is a fresh buffer equal to `Step` of the old grid, of the same size |
| `Engine.GameOfLife.ToggleCell` | main.cpp:77-83 | The grid becomes `Toggled` of the old grid at that pixel |
| `Engine.GameOfLife.Clear` | main.cpp:85-87 | Every cell is dead and the buffer keeps its size |
| `Patterns.WrapOneStep` | main.cpp:30 | One step past an edge, adding or subtracting one period is the mathematical modulus |
| `Patterns.NearCellIsCell` | main.cpp:30 | Reading a cell one step past an edge by moving it back one period gives the engine's wrapped cell |
| `Patterns.EdgeCountAgrees` | main.cpp:33-44 | The count with one-step wrapping equals the engine's neighbour count at every board position |
| `Patterns.RulesUpToAt` | main.cpp:47-59 | If the first `n` cells of a board follow B3/S23 on `c`, each of them is that cell's next state |
| `Patterns.RulesUpToIsStep` | main.cpp:46-62 | A board whose every cell follows B3/S23 on `c` is the next generation of `c` |
| `Patterns.BlockStill` | main.cpp:46-62 | The 2 x 2 block on a 4 x 4 torus is unchanged by a generation |
| `Patterns.BlinkerRowStep` | main.cpp:46-62 | A horizontal row of three on a 4 x 4 torus becomes the vertical column of three through its middle cell |
| `Patterns.BlinkerColumnStep` | main.cpp:46-62 | The column becomes the row again |
| `Patterns.BlinkerOscillates` | main.cpp:46-62 | The blinker changes in one generation and is back after two: period 2 |

## Left out

- `Draw` (main.cpp:65-75): SDL rendering through an external renderer.
- `main` (main.cpp:89-155): argument parsing with `atoi`, the SDL window and
  event loop, the `paused`/`running` flags and `sleep_for` frame pacing.
  These are I/O and library glue. The host loop's `1000 / fps` would also
  divide by zero for `fps == 0`.
- Overflow of 32-bit `int`: excluded by the precondition `FitsInInt` rather
  than modelled as wrap-around.
- Non-positive width or height: excluded by precondition. The engine does
  not validate its dimensions.
- `std::vector<bool>` is modelled as `array<bool>`. `Update`'s move
  assignment of the fresh vector becomes a reassignment of the `grid` field
  to the fresh array.
- `Engine.GameOfLife.Update`: the postcondition does not repeat "an all-dead
  grid stays all-dead". That fact follows from the postcondition together
  with `Life.StepAllDead`.
- `Life.GetIndex`: the range and wrapping facts are stated only for
  `x >= -width` and `y >= -height`. Below that the code's index is not a
  wrap (see `Life.GetIndexFarNegative`).
