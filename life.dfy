/** Conway's Life on a `w` x `h` torus, as pure functions on the flat,
    row-major cell sequence the engine stores (`true` is a live cell).

    These are the specification of the engine's methods: `GetIndex` is the
    engine's own index arithmetic, `NeighborCount` what its neighbour scan
    adds up, `Step` the generation its update builds and `Toggled` the grid a
    click leaves behind. */
module Life {
  import opened CppInt

  /** Side of a cell on screen, in pixels. */
  const CellSize: int := 10

  /** A grid of the given dimensions: one cell per board position. */
  predicate IsGrid(c: seq<bool>, w: int, h: int) {
    w > 0 && h > 0 && |c| == w * h
  }

  /** Every cell is dead. */
  predicate AllDead(c: seq<bool>) {
    forall i :: 0 <= i < |c| ==> !c[i]
  }

  /** `(x, y)` names a board position without any wrapping. */
  predicate OnBoard(w: int, h: int, x: int, y: int) {
    0 <= x < w && 0 <= y < h
  }

  // ---------------------------------------------------------------------
  // Row-major layout

  lemma RowMajorBounds(w: int, h: int, x: int, y: int)
    requires OnBoard(w, h, x, y)
    ensures 0 <= y * w + x < w * h
  {
    assert y * w <= (h - 1) * w by {
      assert (h - 1) * w - y * w == (h - 1 - y) * w;
    }
  }

  /** The row-major index determines the position: column and row come
      back out by division. */
  lemma {:induction false} RowMajorSplit(w: int, x: int, y: int)
    requires w > 0 && 0 <= x < w
    ensures (y * w + x) % w == x && (y * w + x) / w == y
  {
    EuclidUnique(y * w + x, w, y, x);
  }

  /** Every index of a grid is the row-major index of a board position. */
  lemma RowMajorCoords(w: int, h: int, i: int)
    requires w > 0 && h > 0 && 0 <= i < w * h
    ensures OnBoard(w, h, i % w, i / w) && i == (i / w) * w + i % w
  {
    var x, y := i % w, i / w;
    assert i == y * w + x;
    if y < 0 {
      MulAtLeast(-y, w);
    }
  }

  /** Wrapping a coordinate that is at most one period below zero: the C++
      remainder of the shifted value is the mathematical modulus. */
  lemma ShiftedRem(a: int, n: int)
    requires n > 0 && a >= -n
    ensures Rem(a + n, n) == a % n
  {
    NonNegativeAgrees(a + n, n);
    EuclidUnique(a + n, n, a / n + 1, a % n);
  }

  // ---------------------------------------------------------------------
  // GetIndex

  /** The engine's wrap-around index, `(y + h) % h * w + (x + w) % w`, with
      C++'s truncating `%`. From one period below zero onwards it always lies
      on the grid. */
  function GetIndex(w: int, h: int, x: int, y: int): (r: int)
    requires w > 0 && h > 0
    ensures x >= -w && y >= -h ==> 0 <= r < w * h
  {
    var col, row := Rem(x + w, w), Rem(y + h, h);
    assert x >= -w && y >= -h ==> 0 <= row * w + col < w * h by {
      if x >= -w && y >= -h {
        RowMajorBounds(w, h, col, row);
      }
    }
    row * w + col
  }

  /** From one period below zero onwards the index is the row-major index
      of the toroidally equivalent board position: column `x mod w`, row
      `y mod h`, in the mathematical sense of `mod`. */
  lemma GetIndexWraps(w: int, h: int, x: int, y: int)
    requires w > 0 && h > 0 && x >= -w && y >= -h
    ensures GetIndex(w, h, x, y) == (y % h) * w + x % w
  {
    ShiftedRem(x, w);
    ShiftedRem(y, h);
  }

  /** On the board the index is plain row-major order. */
  lemma GetIndexOnBoard(w: int, h: int, x: int, y: int)
    requires OnBoard(w, h, x, y)
    ensures GetIndex(w, h, x, y) == y * w + x
  {
    GetIndexWraps(w, h, x, y);
    EuclidUnique(x, w, 0, x);
    EuclidUnique(y, h, 0, y);
  }

  /** Distinct board positions have distinct indices. */
  lemma GetIndexInjective(w: int, h: int, x: int, y: int, x': int, y': int)
    requires OnBoard(w, h, x, y) && OnBoard(w, h, x', y')
    requires GetIndex(w, h, x, y) == GetIndex(w, h, x', y')
    ensures x == x' && y == y'
  {
    GetIndexOnBoard(w, h, x, y);
    GetIndexOnBoard(w, h, x', y');
    RowMajorSplit(w, x, y);
    RowMajorSplit(w, x', y');
  }

  /** The column one to the left of the left edge is the right edge and the
      column past the right edge is the left edge. */
  lemma GetIndexWrapsX(w: int, h: int, y: int)
    requires w > 0 && h > 0 && y >= -h
    ensures GetIndex(w, h, -1, y) == GetIndex(w, h, w - 1, y)
    ensures GetIndex(w, h, w, y) == GetIndex(w, h, 0, y)
  {
    GetIndexWraps(w, h, -1, y);
    GetIndexWraps(w, h, w - 1, y);
    GetIndexWraps(w, h, w, y);
    GetIndexWraps(w, h, 0, y);
    EuclidUnique(-1, w, -1, w - 1);
    EuclidUnique(w - 1, w, 0, w - 1);
    EuclidUnique(w, w, 1, 0);
  }

  /** The row above the top edge is the bottom edge and the row below the
      bottom edge is the top edge. */
  lemma GetIndexWrapsY(w: int, h: int, x: int)
    requires w > 0 && h > 0 && x >= -w
    ensures GetIndex(w, h, x, -1) == GetIndex(w, h, x, h - 1)
    ensures GetIndex(w, h, x, h) == GetIndex(w, h, x, 0)
  {
    GetIndexWraps(w, h, x, -1);
    GetIndexWraps(w, h, x, h - 1);
    GetIndexWraps(w, h, x, h);
    GetIndexWraps(w, h, x, 0);
    EuclidUnique(-1, h, -1, h - 1);
    EuclidUnique(h - 1, h, 0, h - 1);
    EuclidUnique(h, h, 1, 0);
  }

  /** Shifting by whole periods lands on the same cell, as long as both
      points stay in the range where the index arithmetic wraps. */
  lemma GetIndexPeriodic(w: int, h: int, x: int, y: int, k: int, m: int)
    requires w > 0 && h > 0
    requires x >= -w && y >= -h && x + k * w >= -w && y + m * h >= -h
    ensures GetIndex(w, h, x + k * w, y + m * h) == GetIndex(w, h, x, y)
  {
    GetIndexWraps(w, h, x, y);
    GetIndexWraps(w, h, x + k * w, y + m * h);
    ModPeriodic(x, w, k);
    ModPeriodic(y, h, m);
  }

  /** The mathematical modulus ignores whole periods. */
  lemma ModPeriodic(a: int, n: int, k: int)
    requires n > 0
    ensures (a + k * n) % n == a % n
  {
    EuclidUnique(a + k * n, n, a / n + k, a % n);
  }

  /** Below one period the truncating `%` no longer wraps: on a 2 x 1 board
      the column -3 (which is column 1 on the torus) gives index -1, off the
      grid. The engine never asks for such a column. */
  lemma GetIndexFarNegative()
    ensures GetIndex(2, 1, -3, 0) == -1
    ensures GetIndex(2, 1, -3 + 2, 0) == 1
  {
  }

  // ---------------------------------------------------------------------
  // Neighbour counting

  /** 1 when the (wrapped) cell at `(x, y)` is alive, else 0. */
  function Cell(c: seq<bool>, w: int, h: int, x: int, y: int): nat
    requires IsGrid(c, w, h) && x >= -w && y >= -h
  {
    if c[GetIndex(w, h, x, y)] then 1 else 0
  }

  /** The number of live cells among the eight wrapped neighbours of
      `(x, y)`; the cell itself is not one of the eight offsets. */
  function NeighborCount(c: seq<bool>, w: int, h: int, x: int, y: int): (n: nat)
    requires IsGrid(c, w, h) && x >= 1 - w && y >= 1 - h
    ensures n <= 8
  {
    Cell(c, w, h, x - 1, y - 1) + Cell(c, w, h, x, y - 1) + Cell(c, w, h, x + 1, y - 1)
    + Cell(c, w, h, x - 1, y) + Cell(c, w, h, x + 1, y)
    + Cell(c, w, h, x - 1, y + 1) + Cell(c, w, h, x, y + 1) + Cell(c, w, h, x + 1, y + 1)
  }

  /** The indices of the eight neighbours of `(x, y)`. */
  function NeighborIndices(w: int, h: int, x: int, y: int): (s: set<int>)
    requires w > 0 && h > 0 && x >= 1 - w && y >= 1 - h
    ensures forall i :: i in s ==> 0 <= i < w * h
  {
    {GetIndex(w, h, x - 1, y - 1), GetIndex(w, h, x, y - 1), GetIndex(w, h, x + 1, y - 1),
     GetIndex(w, h, x - 1, y), GetIndex(w, h, x + 1, y),
     GetIndex(w, h, x - 1, y + 1), GetIndex(w, h, x, y + 1), GetIndex(w, h, x + 1, y + 1)}
  }

  /** The count reads nothing but the eight neighbours: two grids that agree
      on them give the same count. */
  lemma NeighborCountLocal(c: seq<bool>, c': seq<bool>, w: int, h: int, x: int, y: int)
    requires IsGrid(c, w, h) && IsGrid(c', w, h) && x >= 1 - w && y >= 1 - h
    requires forall i :: i in NeighborIndices(w, h, x, y) ==> c[i] == c'[i]
    ensures NeighborCount(c, w, h, x, y) == NeighborCount(c', w, h, x, y)
  {
    var s := NeighborIndices(w, h, x, y);
    assert Cell(c, w, h, x - 1, y - 1) == Cell(c', w, h, x - 1, y - 1) by {
      assert GetIndex(w, h, x - 1, y - 1) in s;
    }
    assert Cell(c, w, h, x, y - 1) == Cell(c', w, h, x, y - 1) by {
      assert GetIndex(w, h, x, y - 1) in s;
    }
    assert Cell(c, w, h, x + 1, y - 1) == Cell(c', w, h, x + 1, y - 1) by {
      assert GetIndex(w, h, x + 1, y - 1) in s;
    }
    assert Cell(c, w, h, x - 1, y) == Cell(c', w, h, x - 1, y) by {
      assert GetIndex(w, h, x - 1, y) in s;
    }
    assert Cell(c, w, h, x + 1, y) == Cell(c', w, h, x + 1, y) by {
      assert GetIndex(w, h, x + 1, y) in s;
    }
    assert Cell(c, w, h, x - 1, y + 1) == Cell(c', w, h, x - 1, y + 1) by {
      assert GetIndex(w, h, x - 1, y + 1) in s;
    }
    assert Cell(c, w, h, x, y + 1) == Cell(c', w, h, x, y + 1) by {
      assert GetIndex(w, h, x, y + 1) in s;
    }
    assert Cell(c, w, h, x + 1, y + 1) == Cell(c', w, h, x + 1, y + 1) by {
      assert GetIndex(w, h, x + 1, y + 1) in s;
    }
  }

  /** For a column `x` on the board and an offset of one, the wrapped column
      is `x` again exactly when the board is one column wide. */
  lemma OffsetAliases(n: int, x: int, d: int)
    requires n > 0 && 0 <= x < n && (d == -1 || d == 1)
    ensures (x + d) % n == x <==> n == 1
  {
    if x + d == n {
      EuclidUnique(x + d, n, 1, 0);
    } else if x + d == -1 {
      EuclidUnique(x + d, n, -1, n - 1);
    } else {
      EuclidUnique(x + d, n, 0, x + d);
    }
    if n == 1 {
      EuclidUnique(x + d, n, x + d, 0);
    }
  }

  /** The neighbour at offset `(dx, dy)` is the cell itself exactly when
      each non-zero offset wraps round a board one cell long. */
  lemma OffsetIsSelf(w: int, h: int, x: int, y: int, dx: int, dy: int)
    requires OnBoard(w, h, x, y) && -1 <= dx <= 1 && -1 <= dy <= 1
    ensures GetIndex(w, h, x + dx, y + dy) == GetIndex(w, h, x, y)
            <==> (dx == 0 || w == 1) && (dy == 0 || h == 1)
  {
    GetIndexOnBoard(w, h, x, y);
    GetIndexWraps(w, h, x + dx, y + dy);
    RowMajorSplit(w, x, y);
    RowMajorSplit(w, (x + dx) % w, (y + dy) % h);
    if dx == 0 {
      EuclidUnique(x, w, 0, x);
    } else {
      OffsetAliases(w, x, dx);
    }
    if dy == 0 {
      EuclidUnique(y, h, 0, y);
    } else {
      OffsetAliases(h, y, dy);
    }
  }

  /** A cell is one of its own neighbours exactly when the board is a single
      row or a single column, where an offset wraps all the way round. */
  lemma SelfNeighborIff(w: int, h: int, x: int, y: int)
    requires OnBoard(w, h, x, y)
    ensures GetIndex(w, h, x, y) in NeighborIndices(w, h, x, y) <==> w == 1 || h == 1
  {
    OffsetIsSelf(w, h, x, y, -1, -1);
    OffsetIsSelf(w, h, x, y, 0, -1);
    OffsetIsSelf(w, h, x, y, 1, -1);
    OffsetIsSelf(w, h, x, y, -1, 0);
    OffsetIsSelf(w, h, x, y, 1, 0);
    OffsetIsSelf(w, h, x, y, -1, 1);
    OffsetIsSelf(w, h, x, y, 0, 1);
    OffsetIsSelf(w, h, x, y, 1, 1);
  }

  /** On a board at least two cells wide and high the count does not depend
      on the cell itself. */
  lemma NeighborCountIgnoresSelf(c: seq<bool>, w: int, h: int, x: int, y: int, v: bool)
    requires IsGrid(c, w, h) && OnBoard(w, h, x, y) && w >= 2 && h >= 2
    ensures NeighborCount(c[GetIndex(w, h, x, y) := v], w, h, x, y)
            == NeighborCount(c, w, h, x, y)
  {
    SelfNeighborIff(w, h, x, y);
    NeighborCountLocal(c[GetIndex(w, h, x, y) := v], c, w, h, x, y);
  }

  /** A 3 x 3 board on which only the corner `(0, 0)` is alive. */
  function CornerOnly(): (c: seq<bool>)
    ensures IsGrid(c, 3, 3)
  {
    [true, false, false, false, false, false, false, false, false]
  }

  /** On a 3 x 3 board every other cell is a neighbour: both the centre
      `(1, 1)` and the opposite corner `(2, 2)`, the latter only by wrapping,
      see the live corner. */
  lemma CornerWrap()
    ensures NeighborCount(CornerOnly(), 3, 3, 2, 2) == 1
    ensures NeighborCount(CornerOnly(), 3, 3, 1, 1) == 1
  {
    GetIndexWraps(3, 3, 1, 1);
    GetIndexWraps(3, 3, 2, 1);
    GetIndexWraps(3, 3, 3, 1);
    GetIndexWraps(3, 3, 1, 2);
    GetIndexWraps(3, 3, 3, 2);
    GetIndexWraps(3, 3, 1, 3);
    GetIndexWraps(3, 3, 2, 3);
    GetIndexWraps(3, 3, 3, 3);
    GetIndexWraps(3, 3, 0, 0);
    GetIndexWraps(3, 3, 1, 0);
    GetIndexWraps(3, 3, 2, 0);
    GetIndexWraps(3, 3, 0, 1);
    GetIndexWraps(3, 3, 0, 2);
    GetIndexWraps(3, 3, 2, 2);
  }

  /** Scanning the offsets row by row (`dy` outer, `dx` inner, both from -1
      to 1, skipping `(0, 0)`): the live cells seen before offset
      `(dy, dx)` is reached. */
  function ScanCount(c: seq<bool>, w: int, h: int, x: int, y: int, dy: int, dx: int): nat
    requires IsGrid(c, w, h) && x >= 1 - w && y >= 1 - h
    requires -1 <= dy <= 2 && -1 <= dx <= 2 && (dy == 2 ==> dx == -1)
    decreases dy + 1, dx + 1
  {
    if dx > -1 then
      ScanCount(c, w, h, x, y, dy, dx - 1)
      + (if dx - 1 == 0 && dy == 0 then 0 else Cell(c, w, h, x + dx - 1, y + dy))
    else if dy > -1 then
      ScanCount(c, w, h, x, y, dy - 1, 2)
    else
      0
  }

  /** A complete scan counts exactly the eight neighbours. */
  lemma ScanCountComplete(c: seq<bool>, w: int, h: int, x: int, y: int)
    requires IsGrid(c, w, h) && x >= 1 - w && y >= 1 - h
    ensures ScanCount(c, w, h, x, y, 2, -1) == NeighborCount(c, w, h, x, y)
  {
    var top := Cell(c, w, h, x - 1, y - 1) + Cell(c, w, h, x, y - 1) + Cell(c, w, h, x + 1, y - 1);
    var mid := Cell(c, w, h, x - 1, y) + Cell(c, w, h, x + 1, y);
    var bottom := Cell(c, w, h, x - 1, y + 1) + Cell(c, w, h, x, y + 1) + Cell(c, w, h, x + 1, y + 1);
    assert ScanCount(c, w, h, x, y, -1, 2) == top by {
      assert ScanCount(c, w, h, x, y, -1, 0) == Cell(c, w, h, x - 1, y - 1);
    }
    assert ScanCount(c, w, h, x, y, 0, 2) == top + mid by {
      assert ScanCount(c, w, h, x, y, 0, 0) == top + Cell(c, w, h, x - 1, y);
    }
    assert ScanCount(c, w, h, x, y, 1, 2) == top + mid + bottom by {
      assert ScanCount(c, w, h, x, y, 1, 0) == top + mid + Cell(c, w, h, x - 1, y + 1);
    }
  }

  // ---------------------------------------------------------------------
  // The generation step

  /** B3/S23: a live cell survives with two or three live neighbours, a dead
      cell is born with exactly three. */
  predicate Rule(alive: bool, n: nat) {
    if alive then n == 2 || n == 3 else n == 3
  }

  /** The next state of the cell at index `i`, from the current grid only. */
  function NextCell(c: seq<bool>, w: int, h: int, i: int): bool
    requires IsGrid(c, w, h) && 0 <= i < w * h
  {
    RowMajorCoords(w, h, i);
    Rule(c[i], NeighborCount(c, w, h, i % w, i / w))
  }

  /** The first `n` cells, in row-major order, of the next generation. */
  function Generation(c: seq<bool>, w: int, h: int, n: nat): (r: seq<bool>)
    requires IsGrid(c, w, h) && n <= w * h
    ensures |r| == n
  {
    if n == 0 then [] else Generation(c, w, h, n - 1) + [NextCell(c, w, h, n - 1)]
  }

  /** Every cell of a generation prefix is the next state of that cell. */
  lemma {:induction false} GenerationAt(c: seq<bool>, w: int, h: int, n: nat, i: int)
    requires IsGrid(c, w, h) && n <= w * h && 0 <= i < n
    ensures Generation(c, w, h, n)[i] == NextCell(c, w, h, i)
  {
    if i < n - 1 {
      GenerationAt(c, w, h, n - 1, i);
    }
  }

  /** The next generation: every cell's new state computed from the current
      grid only. */
  function Step(c: seq<bool>, w: int, h: int): (r: seq<bool>)
    requires IsGrid(c, w, h)
    ensures IsGrid(r, w, h)
  {
    Generation(c, w, h, w * h)
  }

  /** Cell `(x, y)` of the next generation is alive exactly when it was
      alive with two or three live neighbours, or dead with exactly three,
      both counted in the current grid. */
  lemma StepAt(c: seq<bool>, w: int, h: int, x: int, y: int)
    requires IsGrid(c, w, h) && OnBoard(w, h, x, y)
    ensures
      var i, n := GetIndex(w, h, x, y), NeighborCount(c, w, h, x, y);
      Step(c, w, h)[i] <==> (c[i] && (n == 2 || n == 3)) || (!c[i] && n == 3)
  {
    GetIndexOnBoard(w, h, x, y);
    RowMajorBounds(w, h, x, y);
    RowMajorSplit(w, x, y);
    GenerationAt(c, w, h, w * h, y * w + x);
  }

  /** Conversely the rule pins the next generation down: a grid of the same
      size whose every cell follows B3/S23, counted on `c`, is `Step(c)`. */
  lemma StepUnique(c: seq<bool>, w: int, h: int, s: seq<bool>)
    requires IsGrid(c, w, h) && |s| == w * h
    requires forall x, y {:trigger NeighborCount(c, w, h, x, y)} :: OnBoard(w, h, x, y) ==>
      s[GetIndex(w, h, x, y)] == Rule(c[GetIndex(w, h, x, y)], NeighborCount(c, w, h, x, y))
    ensures s == Step(c, w, h)
  {
    forall i | 0 <= i < w * h
      ensures s[i] == Step(c, w, h)[i]
    {
      RowMajorCoords(w, h, i);
      var x, y := i % w, i / w;
      GetIndexOnBoard(w, h, x, y);
      assert s[GetIndex(w, h, x, y)] == Rule(c[i], NeighborCount(c, w, h, x, y));
      GenerationAt(c, w, h, w * h, i);
    }
  }

  /** The next generation as a grid known only by the rule it follows at
      every position (the engine's update builds it cell by cell and then
      recognises it with `StepUnique`). */
  lemma NextGeneration(c: seq<bool>, w: int, h: int) returns (next: seq<bool>)
    requires IsGrid(c, w, h)
    ensures |next| == w * h
    ensures forall x, y {:trigger NeighborCount(c, w, h, x, y)} :: OnBoard(w, h, x, y) ==>
      next[GetIndex(w, h, x, y)] == Rule(c[GetIndex(w, h, x, y)], NeighborCount(c, w, h, x, y))
  {
    next := Step(c, w, h);
    forall x, y | OnBoard(w, h, x, y)
      ensures next[GetIndex(w, h, x, y)] == Rule(c[GetIndex(w, h, x, y)], NeighborCount(c, w, h, x, y))
    {
      StepAt(c, w, h, x, y);
    }
  }

  /** In an all-dead grid every count is zero. */
  lemma AllDeadNoNeighbors(c: seq<bool>, w: int, h: int, x: int, y: int)
    requires IsGrid(c, w, h) && AllDead(c) && x >= 1 - w && y >= 1 - h
    ensures NeighborCount(c, w, h, x, y) == 0
  {
    assert Cell(c, w, h, x - 1, y - 1) == 0 && Cell(c, w, h, x, y - 1) == 0;
    assert Cell(c, w, h, x + 1, y - 1) == 0 && Cell(c, w, h, x - 1, y) == 0;
    assert Cell(c, w, h, x + 1, y) == 0 && Cell(c, w, h, x - 1, y + 1) == 0;
    assert Cell(c, w, h, x, y + 1) == 0 && Cell(c, w, h, x + 1, y + 1) == 0;
  }

  /** An all-dead grid stays all-dead. */
  lemma StepAllDead(c: seq<bool>, w: int, h: int)
    requires IsGrid(c, w, h) && AllDead(c)
    ensures AllDead(Step(c, w, h))
  {
    var r := Step(c, w, h);
    forall i | 0 <= i < |r|
      ensures !r[i]
    {
      RowMajorCoords(w, h, i);
      AllDeadNoNeighbors(c, w, h, i % w, i / w);
      GenerationAt(c, w, h, w * h, i);
    }
  }

  /** A dead cell whose eight neighbours are all dead stays dead. */
  lemma StepIsolatedDeadStaysDead(c: seq<bool>, w: int, h: int, x: int, y: int)
    requires IsGrid(c, w, h) && OnBoard(w, h, x, y)
    requires !c[GetIndex(w, h, x, y)]
    requires forall i :: i in NeighborIndices(w, h, x, y) ==> !c[i]
    ensures !Step(c, w, h)[GetIndex(w, h, x, y)]
  {
    NeighborCountLocal(c, seq(w * h, _ => false), w, h, x, y);
    StepAt(c, w, h, x, y);
  }

  // ---------------------------------------------------------------------
  // Toggling a cell with the mouse

  /** The board coordinate under a pixel coordinate: C++ division by the
      cell size, truncating toward zero. */
  function PixelToCell(p: int): int {
    Div(p, CellSize)
  }

  /** The grid after a click at pixel `(px, py)`: the cell under the
      pixel is flipped when it lies on the board; off the board nothing
      changes (no wrapping). */
  function Toggled(c: seq<bool>, w: int, h: int, px: int, py: int): (r: seq<bool>)
    requires IsGrid(c, w, h)
    ensures IsGrid(r, w, h)
    ensures forall i :: 0 <= i < |c| ==>
      (r[i] != c[i] <==>
        OnBoard(w, h, PixelToCell(px), PixelToCell(py))
        && i == PixelToCell(py) * w + PixelToCell(px))
  {
    var x, y := PixelToCell(px), PixelToCell(py);
    if OnBoard(w, h, x, y) then
      GetIndexOnBoard(w, h, x, y);
      c[GetIndex(w, h, x, y) := !c[GetIndex(w, h, x, y)]]
    else
      c
  }

  /** Clicking the same pixel twice gives back the original grid. */
  lemma ToggledTwice(c: seq<bool>, w: int, h: int, px: int, py: int)
    requires IsGrid(c, w, h)
    ensures Toggled(Toggled(c, w, h, px, py), w, h, px, py) == c
  {
    var r := Toggled(Toggled(c, w, h, px, py), w, h, px, py);
    assert forall i :: 0 <= i < |c| ==> r[i] == c[i];
  }

  /** Row-major order places the cell under a pixel in the expected slot:
      with non-negative pixel coordinates its column is `px / 10` and its
      row `py / 10`. */
  lemma ToggledOnBoard(c: seq<bool>, w: int, h: int, px: int, py: int)
    requires IsGrid(c, w, h) && px >= 0 && py >= 0
    requires OnBoard(w, h, px / CellSize, py / CellSize)
    ensures var i := (py / CellSize) * w + px / CellSize;
      Toggled(c, w, h, px, py)[i] == !c[i]
  {
    NonNegativeAgrees(px, CellSize);
    NonNegativeAgrees(py, CellSize);
    RowMajorBounds(w, h, px / CellSize, py / CellSize);
  }

  /** Because C++ division truncates toward zero, a pixel up to nine to the
      left of the window still lands on column 0. */
  lemma ToggledLeftOfWindow(c: seq<bool>, w: int, h: int, px: int, py: int)
    requires IsGrid(c, w, h) && -CellSize < px < 0
    ensures Toggled(c, w, h, px, py) == Toggled(c, w, h, 0, py)
  {
    assert PixelToCell(px) == 0 == PixelToCell(0);
  }
}
