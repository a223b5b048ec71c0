/** The `GameOfLife` grid engine: a `width` x `height` torus of cells kept
    row-major in one flat buffer, stepped one generation at a time, with a
    mouse click toggling a cell and a key press clearing the board. */
module Engine {
  import opened CppInt
  import opened Life

  /** Dimensions the engine can use without overflowing a C++ `int`: the
      cell count `width * height` and the shifted coordinates `x + width`,
      `y + height` of the index arithmetic all stay below `IntMax`. */
  predicate FitsInInt(width: int, height: int) {
    width >= 1 && height >= 1
    && width * height <= IntMax && 2 * width <= IntMax && 2 * height <= IntMax
  }

  class GameOfLife {
    const width: int
    const height: int
    var grid: array<bool>

    /** The buffer holds exactly one cell per board position. */
    ghost predicate Valid()
      reads this
    {
      FitsInInt(width, height) && grid.Length == width * height
    }

    /** A board of the given size with every cell dead. */
    constructor (width: int, height: int)
      requires FitsInInt(width, height)
      ensures Valid() && fresh(grid)
      ensures this.width == width && this.height == height
      ensures AllDead(grid[..])
    {
      this.width := width;
      this.height := height;
      grid := new bool[width * height](_ => false);
    }

    /** The live cells among the eight wrapped neighbours of `(x, y)`, read
        from the current grid in row order, skipping the cell itself. */
    method CountNeighbors(x: int, y: int) returns (count: int)
      requires Valid() && x >= 1 - width && y >= 1 - height
      ensures count == NeighborCount(grid[..], width, height, x, y)
      ensures 0 <= count <= 8
    {
      ghost var c := grid[..];
      count := 0;
      for dy := -1 to 2
        invariant count == ScanCount(c, width, height, x, y, dy, -1)
      {
        for dx := -1 to 2
          invariant count == ScanCount(c, width, height, x, y, dy, dx)
        {
          if dx == 0 && dy == 0 {
            continue;
          }
          var nx := x + dx;
          var ny := y + dy;
          count := count + if grid[GetIndex(width, height, nx, ny)] then 1 else 0;
        }
      }
      ScanCountComplete(c, width, height, x, y);
    }

    /** Advances one generation. Every cell of the new buffer is computed
        from the old grid, which is replaced only once the scan is done. */
    method Update()
      requires Valid()
      modifies this
      ensures Valid() && fresh(grid)
      ensures grid[..] == Step(old(grid[..]), width, height)
    {
      ghost var c, g := grid[..], grid;
      ghost var next := NextGeneration(c, width, height);
      var newGrid := new bool[width * height](_ => false);
      for y := 0 to height
        invariant grid == g && y * width <= width * height
        invariant forall i :: 0 <= i < y * width ==> newGrid[i] == next[i]
      {
        RowMajorBounds(width, height, width - 1, y);
        for x := 0 to width
          invariant grid == g && grid[..] == c
          invariant forall i :: 0 <= i < y * width + x ==> newGrid[i] == next[i]
        {
          var idx := GetIndex(width, height, x, y);
          var neighbors := CountNeighbors(x, y);
          var alive := grid[idx];
          GetIndexOnBoard(width, height, x, y);
          if alive && (neighbors == 2 || neighbors == 3) {
            newGrid[idx] := true;
          } else if !alive && neighbors == 3 {
            newGrid[idx] := true;
          } else {
            newGrid[idx] := false;
          }
        }
        assert y * width + width == (y + 1) * width;
      }
      assert height * width == width * height;
      assert newGrid[..] == next;
      StepUnique(c, width, height, next);
      grid := newGrid;
    }

    /** A click at pixel `(px, py)`: the cell under it is flipped when it
        lies on the board, and off the board nothing happens. */
    method ToggleCell(px: int, py: int)
      requires Valid()
      modifies grid
      ensures Valid()
      ensures grid[..] == Toggled(old(grid[..]), width, height, px, py)
    {
      var x := PixelToCell(px);
      var y := PixelToCell(py);
      if x >= 0 && x < width && y >= 0 && y < height {
        grid[GetIndex(width, height, x, y)] := !grid[GetIndex(width, height, x, y)];
      }
    }

    /** Every cell dead, the size unchanged. */
    method Clear()
      requires Valid()
      modifies grid
      ensures Valid()
      ensures AllDead(grid[..])
    {
      for i := 0 to grid.Length
        invariant forall k :: 0 <= k < i ==> !grid[k]
      {
        grid[i] := false;
      }
    }
  }
}
