/** Two classic patterns on a 4 x 4 torus, worked out cell by cell: the
    block is a still life and the blinker an oscillator of period 2.

    Every cell of a concrete board is checked against B3/S23 with the
    neighbour count `EdgeCount`, which wraps a coordinate one step past an
    edge by adding or subtracting one period. It agrees with the engine's
    `NeighborCount` (`EdgeCountAgrees`), and `RulesUpToIsStep` turns a board
    on which every cell follows the rule into `Step` of the old one. */
module Patterns {
  import opened CppInt
  import opened Life

  /** 1 when the cell at `(x, y)` is alive, where a coordinate one step past
      an edge is moved back onto the board by one period. */
  function NearCell(c: seq<bool>, w: int, h: int, x: int, y: int): nat
    requires IsGrid(c, w, h) && -1 <= x <= w && -1 <= y <= h
  {
    var x', y' := if x < 0 then x + w else if x >= w then x - w else x,
                  if y < 0 then y + h else if y >= h then y - h else y;
    RowMajorBounds(w, h, x', y');
    if c[y' * w + x'] then 1 else 0
  }

  /** The live cells among the eight neighbours of a board position, each
      wrapped by at most one period. */
  function EdgeCount(c: seq<bool>, w: int, h: int, x: int, y: int): nat
    requires IsGrid(c, w, h) && OnBoard(w, h, x, y)
  {
    NearCell(c, w, h, x - 1, y - 1) + NearCell(c, w, h, x, y - 1) + NearCell(c, w, h, x + 1, y - 1)
    + NearCell(c, w, h, x - 1, y) + NearCell(c, w, h, x + 1, y)
    + NearCell(c, w, h, x - 1, y + 1) + NearCell(c, w, h, x, y + 1) + NearCell(c, w, h, x + 1, y + 1)
  }

  /** One step past an edge, adding or subtracting one period is the
      mathematical modulus. */
  lemma WrapOneStep(a: int, n: int)
    requires n > 0 && -1 <= a <= n
    ensures (if a < 0 then a + n else if a >= n then a - n else a) == a % n
  {
    if a < 0 {
      EuclidUnique(a, n, -1, a + n);
    } else if a >= n {
      EuclidUnique(a, n, 1, a - n);
    } else {
      EuclidUnique(a, n, 0, a);
    }
  }

  lemma NearCellIsCell(c: seq<bool>, w: int, h: int, x: int, y: int)
    requires IsGrid(c, w, h) && -1 <= x <= w && -1 <= y <= h
    ensures NearCell(c, w, h, x, y) == Cell(c, w, h, x, y)
  {
    GetIndexWraps(w, h, x, y);
    WrapOneStep(x, w);
    WrapOneStep(y, h);
  }

  /** The count with one-step wrapping is the engine's count. */
  lemma EdgeCountAgrees(c: seq<bool>, w: int, h: int, x: int, y: int)
    requires IsGrid(c, w, h) && OnBoard(w, h, x, y)
    ensures EdgeCount(c, w, h, x, y) == NeighborCount(c, w, h, x, y)
  {
    NearCellIsCell(c, w, h, x - 1, y - 1);
    NearCellIsCell(c, w, h, x, y - 1);
    NearCellIsCell(c, w, h, x + 1, y - 1);
    NearCellIsCell(c, w, h, x - 1, y);
    NearCellIsCell(c, w, h, x + 1, y);
    NearCellIsCell(c, w, h, x - 1, y + 1);
    NearCellIsCell(c, w, h, x, y + 1);
    NearCellIsCell(c, w, h, x + 1, y + 1);
  }

  /** Cell `i`, at position `(x, y)`, of `s` is what B3/S23 makes of that
      cell of `c`. */
  predicate RuleHoldsAt(c: seq<bool>, w: int, h: int, s: seq<bool>, x: int, y: int, i: int)
    requires IsGrid(c, w, h) && |s| == w * h && OnBoard(w, h, x, y) && i == y * w + x
  {
    RowMajorBounds(w, h, x, y);
    s[i] == Rule(c[i], EdgeCount(c, w, h, x, y))
  }

  /** The first `n` cells of `s`, in row-major order, follow the rule. */
  predicate RulesUpTo(c: seq<bool>, w: int, h: int, s: seq<bool>, n: nat)
    requires IsGrid(c, w, h) && |s| == w * h && n <= w * h
  {
    n == 0
    || (RulesUpTo(c, w, h, s, n - 1)
        && (RowMajorCoords(w, h, n - 1);
            RuleHoldsAt(c, w, h, s, (n - 1) % w, (n - 1) / w, n - 1)))
  }

  lemma RulesExtend(c: seq<bool>, w: int, h: int, s: seq<bool>, n: nat)
    requires IsGrid(c, w, h) && |s| == w * h && n < w * h && RulesUpTo(c, w, h, s, n)
    requires OnBoard(w, h, n % w, n / w) && n == (n / w) * w + n % w
    requires RuleHoldsAt(c, w, h, s, n % w, n / w, n)
    ensures RulesUpTo(c, w, h, s, n + 1)
  {
  }

  /** Each cell the rule covers is that cell's next state. */
  lemma {:induction false} RulesUpToAt(c: seq<bool>, w: int, h: int, s: seq<bool>, n: nat, i: int)
    requires IsGrid(c, w, h) && |s| == w * h && n <= w * h
    requires RulesUpTo(c, w, h, s, n) && 0 <= i < n
    ensures s[i] == NextCell(c, w, h, i)
  {
    if i < n - 1 {
      RulesUpToAt(c, w, h, s, n - 1, i);
    } else {
      RowMajorCoords(w, h, i);
      EdgeCountAgrees(c, w, h, i % w, i / w);
    }
  }

  /** A board on which every cell follows the rule, counted on `c`, is the
      next generation of `c`. */
  lemma RulesUpToIsStep(c: seq<bool>, w: int, h: int, s: seq<bool>)
    requires IsGrid(c, w, h) && |s| == w * h && RulesUpTo(c, w, h, s, w * h)
    ensures s == Step(c, w, h)
  {
    forall i | 0 <= i < w * h
      ensures s[i] == Step(c, w, h)[i]
    {
      RulesUpToAt(c, w, h, s, w * h, i);
      GenerationAt(c, w, h, w * h, i);
    }
  }

  // ---------------------------------------------------------------------
  // The block

  /** The 2 x 2 block at `(1, 1)`, `(2, 1)`, `(1, 2)`, `(2, 2)`. */
  function Block(): (c: seq<bool>)
    ensures IsGrid(c, 4, 4)
  {
    seq(16, i => i == 5 || i == 6 || i == 9 || i == 10)
  }

  /** Cell `(x, y)` of the block keeps its state: a live cell has three
      live neighbours, a dead one at most two. */
  lemma BlockKeeps00()
    ensures RuleHoldsAt(Block(), 4, 4, Block(), 0, 0, 0)
  {
    assert NearCell(Block(), 4, 4, -1, -1) == 0;
    assert NearCell(Block(), 4, 4, 0, -1) == 0;
    assert NearCell(Block(), 4, 4, 1, -1) == 0;
    assert NearCell(Block(), 4, 4, -1, 0) == 0;
    assert NearCell(Block(), 4, 4, 1, 0) == 0;
    assert NearCell(Block(), 4, 4, -1, 1) == 0;
    assert NearCell(Block(), 4, 4, 0, 1) == 0;
    assert NearCell(Block(), 4, 4, 1, 1) == 1;
  }

  lemma BlockKeeps10()
    ensures RuleHoldsAt(Block(), 4, 4, Block(), 1, 0, 1)
  {
    assert NearCell(Block(), 4, 4, 0, -1) == 0;
    assert NearCell(Block(), 4, 4, 1, -1) == 0;
    assert NearCell(Block(), 4, 4, 2, -1) == 0;
    assert NearCell(Block(), 4, 4, 0, 0) == 0;
    assert NearCell(Block(), 4, 4, 2, 0) == 0;
    assert NearCell(Block(), 4, 4, 0, 1) == 0;
    assert NearCell(Block(), 4, 4, 1, 1) == 1;
    assert NearCell(Block(), 4, 4, 2, 1) == 1;
  }

  lemma BlockKeeps20()
    ensures RuleHoldsAt(Block(), 4, 4, Block(), 2, 0, 2)
  {
    assert NearCell(Block(), 4, 4, 1, -1) == 0;
    assert NearCell(Block(), 4, 4, 2, -1) == 0;
    assert NearCell(Block(), 4, 4, 3, -1) == 0;
    assert NearCell(Block(), 4, 4, 1, 0) == 0;
    assert NearCell(Block(), 4, 4, 3, 0) == 0;
    assert NearCell(Block(), 4, 4, 1, 1) == 1;
    assert NearCell(Block(), 4, 4, 2, 1) == 1;
    assert NearCell(Block(), 4, 4, 3, 1) == 0;
  }

  lemma BlockKeeps30()
    ensures RuleHoldsAt(Block(), 4, 4, Block(), 3, 0, 3)
  {
    assert NearCell(Block(), 4, 4, 2, -1) == 0;
    assert NearCell(Block(), 4, 4, 3, -1) == 0;
    assert NearCell(Block(), 4, 4, 4, -1) == 0;
    assert NearCell(Block(), 4, 4, 2, 0) == 0;
    assert NearCell(Block(), 4, 4, 4, 0) == 0;
    assert NearCell(Block(), 4, 4, 2, 1) == 1;
    assert NearCell(Block(), 4, 4, 3, 1) == 0;
    assert NearCell(Block(), 4, 4, 4, 1) == 0;
  }

  lemma BlockKeeps01()
    ensures RuleHoldsAt(Block(), 4, 4, Block(), 0, 1, 4)
  {
    assert NearCell(Block(), 4, 4, -1, 0) == 0;
    assert NearCell(Block(), 4, 4, 0, 0) == 0;
    assert NearCell(Block(), 4, 4, 1, 0) == 0;
    assert NearCell(Block(), 4, 4, -1, 1) == 0;
    assert NearCell(Block(), 4, 4, 1, 1) == 1;
    assert NearCell(Block(), 4, 4, -1, 2) == 0;
    assert NearCell(Block(), 4, 4, 0, 2) == 0;
    assert NearCell(Block(), 4, 4, 1, 2) == 1;
  }

  lemma BlockKeeps11()
    ensures RuleHoldsAt(Block(), 4, 4, Block(), 1, 1, 5)
  {
    assert NearCell(Block(), 4, 4, 0, 0) == 0;
    assert NearCell(Block(), 4, 4, 1, 0) == 0;
    assert NearCell(Block(), 4, 4, 2, 0) == 0;
    assert NearCell(Block(), 4, 4, 0, 1) == 0;
    assert NearCell(Block(), 4, 4, 2, 1) == 1;
    assert NearCell(Block(), 4, 4, 0, 2) == 0;
    assert NearCell(Block(), 4, 4, 1, 2) == 1;
    assert NearCell(Block(), 4, 4, 2, 2) == 1;
  }

  lemma BlockKeeps21()
    ensures RuleHoldsAt(Block(), 4, 4, Block(), 2, 1, 6)
  {
    assert NearCell(Block(), 4, 4, 1, 0) == 0;
    assert NearCell(Block(), 4, 4, 2, 0) == 0;
    assert NearCell(Block(), 4, 4, 3, 0) == 0;
    assert NearCell(Block(), 4, 4, 1, 1) == 1;
    assert NearCell(Block(), 4, 4, 3, 1) == 0;
    assert NearCell(Block(), 4, 4, 1, 2) == 1;
    assert NearCell(Block(), 4, 4, 2, 2) == 1;
    assert NearCell(Block(), 4, 4, 3, 2) == 0;
  }

  lemma BlockKeeps31()
    ensures RuleHoldsAt(Block(), 4, 4, Block(), 3, 1, 7)
  {
    assert NearCell(Block(), 4, 4, 2, 0) == 0;
    assert NearCell(Block(), 4, 4, 3, 0) == 0;
    assert NearCell(Block(), 4, 4, 4, 0) == 0;
    assert NearCell(Block(), 4, 4, 2, 1) == 1;
    assert NearCell(Block(), 4, 4, 4, 1) == 0;
    assert NearCell(Block(), 4, 4, 2, 2) == 1;
    assert NearCell(Block(), 4, 4, 3, 2) == 0;
    assert NearCell(Block(), 4, 4, 4, 2) == 0;
  }

  lemma BlockKeeps02()
    ensures RuleHoldsAt(Block(), 4, 4, Block(), 0, 2, 8)
  {
    assert NearCell(Block(), 4, 4, -1, 1) == 0;
    assert NearCell(Block(), 4, 4, 0, 1) == 0;
    assert NearCell(Block(), 4, 4, 1, 1) == 1;
    assert NearCell(Block(), 4, 4, -1, 2) == 0;
    assert NearCell(Block(), 4, 4, 1, 2) == 1;
    assert NearCell(Block(), 4, 4, -1, 3) == 0;
    assert NearCell(Block(), 4, 4, 0, 3) == 0;
    assert NearCell(Block(), 4, 4, 1, 3) == 0;
  }

  lemma BlockKeeps12()
    ensures RuleHoldsAt(Block(), 4, 4, Block(), 1, 2, 9)
  {
    assert NearCell(Block(), 4, 4, 0, 1) == 0;
    assert NearCell(Block(), 4, 4, 1, 1) == 1;
    assert NearCell(Block(), 4, 4, 2, 1) == 1;
    assert NearCell(Block(), 4, 4, 0, 2) == 0;
    assert NearCell(Block(), 4, 4, 2, 2) == 1;
    assert NearCell(Block(), 4, 4, 0, 3) == 0;
    assert NearCell(Block(), 4, 4, 1, 3) == 0;
    assert NearCell(Block(), 4, 4, 2, 3) == 0;
  }

  lemma BlockKeeps22()
    ensures RuleHoldsAt(Block(), 4, 4, Block(), 2, 2, 10)
  {
    assert NearCell(Block(), 4, 4, 1, 1) == 1;
    assert NearCell(Block(), 4, 4, 2, 1) == 1;
    assert NearCell(Block(), 4, 4, 3, 1) == 0;
    assert NearCell(Block(), 4, 4, 1, 2) == 1;
    assert NearCell(Block(), 4, 4, 3, 2) == 0;
    assert NearCell(Block(), 4, 4, 1, 3) == 0;
    assert NearCell(Block(), 4, 4, 2, 3) == 0;
    assert NearCell(Block(), 4, 4, 3, 3) == 0;
  }

  lemma BlockKeeps32()
    ensures RuleHoldsAt(Block(), 4, 4, Block(), 3, 2, 11)
  {
    assert NearCell(Block(), 4, 4, 2, 1) == 1;
    assert NearCell(Block(), 4, 4, 3, 1) == 0;
    assert NearCell(Block(), 4, 4, 4, 1) == 0;
    assert NearCell(Block(), 4, 4, 2, 2) == 1;
    assert NearCell(Block(), 4, 4, 4, 2) == 0;
    assert NearCell(Block(), 4, 4, 2, 3) == 0;
    assert NearCell(Block(), 4, 4, 3, 3) == 0;
    assert NearCell(Block(), 4, 4, 4, 3) == 0;
  }

  lemma BlockKeeps03()
    ensures RuleHoldsAt(Block(), 4, 4, Block(), 0, 3, 12)
  {
    assert NearCell(Block(), 4, 4, -1, 2) == 0;
    assert NearCell(Block(), 4, 4, 0, 2) == 0;
    assert NearCell(Block(), 4, 4, 1, 2) == 1;
    assert NearCell(Block(), 4, 4, -1, 3) == 0;
    assert NearCell(Block(), 4, 4, 1, 3) == 0;
    assert NearCell(Block(), 4, 4, -1, 4) == 0;
    assert NearCell(Block(), 4, 4, 0, 4) == 0;
    assert NearCell(Block(), 4, 4, 1, 4) == 0;
  }

  lemma BlockKeeps13()
    ensures RuleHoldsAt(Block(), 4, 4, Block(), 1, 3, 13)
  {
    assert NearCell(Block(), 4, 4, 0, 2) == 0;
    assert NearCell(Block(), 4, 4, 1, 2) == 1;
    assert NearCell(Block(), 4, 4, 2, 2) == 1;
    assert NearCell(Block(), 4, 4, 0, 3) == 0;
    assert NearCell(Block(), 4, 4, 2, 3) == 0;
    assert NearCell(Block(), 4, 4, 0, 4) == 0;
    assert NearCell(Block(), 4, 4, 1, 4) == 0;
    assert NearCell(Block(), 4, 4, 2, 4) == 0;
  }

  lemma BlockKeeps23()
    ensures RuleHoldsAt(Block(), 4, 4, Block(), 2, 3, 14)
  {
    assert NearCell(Block(), 4, 4, 1, 2) == 1;
    assert NearCell(Block(), 4, 4, 2, 2) == 1;
    assert NearCell(Block(), 4, 4, 3, 2) == 0;
    assert NearCell(Block(), 4, 4, 1, 3) == 0;
    assert NearCell(Block(), 4, 4, 3, 3) == 0;
    assert NearCell(Block(), 4, 4, 1, 4) == 0;
    assert NearCell(Block(), 4, 4, 2, 4) == 0;
    assert NearCell(Block(), 4, 4, 3, 4) == 0;
  }

  lemma BlockKeeps33()
    ensures RuleHoldsAt(Block(), 4, 4, Block(), 3, 3, 15)
  {
    assert NearCell(Block(), 4, 4, 2, 2) == 1;
    assert NearCell(Block(), 4, 4, 3, 2) == 0;
    assert NearCell(Block(), 4, 4, 4, 2) == 0;
    assert NearCell(Block(), 4, 4, 2, 3) == 0;
    assert NearCell(Block(), 4, 4, 4, 3) == 0;
    assert NearCell(Block(), 4, 4, 2, 4) == 0;
    assert NearCell(Block(), 4, 4, 3, 4) == 0;
    assert NearCell(Block(), 4, 4, 4, 4) == 0;
  }

  /** Rows 0 to `y` of the block keep their state. */
  lemma BlockKeepsThroughRow0()
    ensures RulesUpTo(Block(), 4, 4, Block(), 4)
  {
    BlockKeeps00();
    RulesExtend(Block(), 4, 4, Block(), 0);
    BlockKeeps10();
    RulesExtend(Block(), 4, 4, Block(), 1);
    BlockKeeps20();
    RulesExtend(Block(), 4, 4, Block(), 2);
    BlockKeeps30();
    RulesExtend(Block(), 4, 4, Block(), 3);
  }

  lemma BlockKeepsThroughRow1()
    ensures RulesUpTo(Block(), 4, 4, Block(), 8)
  {
    BlockKeepsThroughRow0();
    BlockKeeps01();
    RulesExtend(Block(), 4, 4, Block(), 4);
    BlockKeeps11();
    RulesExtend(Block(), 4, 4, Block(), 5);
    BlockKeeps21();
    RulesExtend(Block(), 4, 4, Block(), 6);
    BlockKeeps31();
    RulesExtend(Block(), 4, 4, Block(), 7);
  }

  lemma BlockKeepsThroughRow2()
    ensures RulesUpTo(Block(), 4, 4, Block(), 12)
  {
    BlockKeepsThroughRow1();
    BlockKeeps02();
    RulesExtend(Block(), 4, 4, Block(), 8);
    BlockKeeps12();
    RulesExtend(Block(), 4, 4, Block(), 9);
    BlockKeeps22();
    RulesExtend(Block(), 4, 4, Block(), 10);
    BlockKeeps32();
    RulesExtend(Block(), 4, 4, Block(), 11);
  }

  lemma BlockKeepsThroughRow3()
    ensures RulesUpTo(Block(), 4, 4, Block(), 16)
  {
    BlockKeepsThroughRow2();
    BlockKeeps03();
    RulesExtend(Block(), 4, 4, Block(), 12);
    BlockKeeps13();
    RulesExtend(Block(), 4, 4, Block(), 13);
    BlockKeeps23();
    RulesExtend(Block(), 4, 4, Block(), 14);
    BlockKeeps33();
    RulesExtend(Block(), 4, 4, Block(), 15);
  }

  /** The block is a still life. */
  lemma BlockStill()
    ensures Step(Block(), 4, 4) == Block()
  {
    BlockKeepsThroughRow3();
    RulesUpToIsStep(Block(), 4, 4, Block());
  }

  // ---------------------------------------------------------------------
  // The blinker

  /** Three live cells in a row, `(0, 1)`, `(1, 1)`, `(2, 1)`. */
  function BlinkerRow(): (c: seq<bool>)
    ensures IsGrid(c, 4, 4)
  {
    seq(16, i => i == 4 || i == 5 || i == 6)
  }

  /** The same three cells turned upright round the middle one: `(1, 0)`,
      `(1, 1)`, `(1, 2)`. */
  function BlinkerColumn(): (c: seq<bool>)
    ensures IsGrid(c, 4, 4)
  {
    seq(16, i => i == 1 || i == 5 || i == 9)
  }

  /** From the row, cell `(x, y)` takes its state in the column: the middle
      cell survives with two neighbours, the ends die with one, the cells
      above and below the middle are born with three, and the cell at
      `(3, 1)`, which sees both ends across the edge, stays dead with two. */
  lemma RowToColumn00()
    ensures RuleHoldsAt(BlinkerRow(), 4, 4, BlinkerColumn(), 0, 0, 0)
  {
    assert NearCell(BlinkerRow(), 4, 4, -1, -1) == 0;
    assert NearCell(BlinkerRow(), 4, 4, 0, -1) == 0;
    assert NearCell(BlinkerRow(), 4, 4, 1, -1) == 0;
    assert NearCell(BlinkerRow(), 4, 4, -1, 0) == 0;
    assert NearCell(BlinkerRow(), 4, 4, 1, 0) == 0;
    assert NearCell(BlinkerRow(), 4, 4, -1, 1) == 0;
    assert NearCell(BlinkerRow(), 4, 4, 0, 1) == 1;
    assert NearCell(BlinkerRow(), 4, 4, 1, 1) == 1;
  }

  lemma RowToColumn10()
    ensures RuleHoldsAt(BlinkerRow(), 4, 4, BlinkerColumn(), 1, 0, 1)
  {
    assert NearCell(BlinkerRow(), 4, 4, 0, -1) == 0;
    assert NearCell(BlinkerRow(), 4, 4, 1, -1) == 0;
    assert NearCell(BlinkerRow(), 4, 4, 2, -1) == 0;
    assert NearCell(BlinkerRow(), 4, 4, 0, 0) == 0;
    assert NearCell(BlinkerRow(), 4, 4, 2, 0) == 0;
    assert NearCell(BlinkerRow(), 4, 4, 0, 1) == 1;
    assert NearCell(BlinkerRow(), 4, 4, 1, 1) == 1;
    assert NearCell(BlinkerRow(), 4, 4, 2, 1) == 1;
  }

  lemma RowToColumn20()
    ensures RuleHoldsAt(BlinkerRow(), 4, 4, BlinkerColumn(), 2, 0, 2)
  {
    assert NearCell(BlinkerRow(), 4, 4, 1, -1) == 0;
    assert NearCell(BlinkerRow(), 4, 4, 2, -1) == 0;
    assert NearCell(BlinkerRow(), 4, 4, 3, -1) == 0;
    assert NearCell(BlinkerRow(), 4, 4, 1, 0) == 0;
    assert NearCell(BlinkerRow(), 4, 4, 3, 0) == 0;
    assert NearCell(BlinkerRow(), 4, 4, 1, 1) == 1;
    assert NearCell(BlinkerRow(), 4, 4, 2, 1) == 1;
    assert NearCell(BlinkerRow(), 4, 4, 3, 1) == 0;
  }

  lemma RowToColumn30()
    ensures RuleHoldsAt(BlinkerRow(), 4, 4, BlinkerColumn(), 3, 0, 3)
  {
    assert NearCell(BlinkerRow(), 4, 4, 2, -1) == 0;
    assert NearCell(BlinkerRow(), 4, 4, 3, -1) == 0;
    assert NearCell(BlinkerRow(), 4, 4, 4, -1) == 0;
    assert NearCell(BlinkerRow(), 4, 4, 2, 0) == 0;
    assert NearCell(BlinkerRow(), 4, 4, 4, 0) == 0;
    assert NearCell(BlinkerRow(), 4, 4, 2, 1) == 1;
    assert NearCell(BlinkerRow(), 4, 4, 3, 1) == 0;
    assert NearCell(BlinkerRow(), 4, 4, 4, 1) == 1;
  }

  lemma RowToColumn01()
    ensures RuleHoldsAt(BlinkerRow(), 4, 4, BlinkerColumn(), 0, 1, 4)
  {
    assert NearCell(BlinkerRow(), 4, 4, -1, 0) == 0;
    assert NearCell(BlinkerRow(), 4, 4, 0, 0) == 0;
    assert NearCell(BlinkerRow(), 4, 4, 1, 0) == 0;
    assert NearCell(BlinkerRow(), 4, 4, -1, 1) == 0;
    assert NearCell(BlinkerRow(), 4, 4, 1, 1) == 1;
    assert NearCell(BlinkerRow(), 4, 4, -1, 2) == 0;
    assert NearCell(BlinkerRow(), 4, 4, 0, 2) == 0;
    assert NearCell(BlinkerRow(), 4, 4, 1, 2) == 0;
  }

  lemma RowToColumn11()
    ensures RuleHoldsAt(BlinkerRow(), 4, 4, BlinkerColumn(), 1, 1, 5)
  {
    assert NearCell(BlinkerRow(), 4, 4, 0, 0) == 0;
    assert NearCell(BlinkerRow(), 4, 4, 1, 0) == 0;
    assert NearCell(BlinkerRow(), 4, 4, 2, 0) == 0;
    assert NearCell(BlinkerRow(), 4, 4, 0, 1) == 1;
    assert NearCell(BlinkerRow(), 4, 4, 2, 1) == 1;
    assert NearCell(BlinkerRow(), 4, 4, 0, 2) == 0;
    assert NearCell(BlinkerRow(), 4, 4, 1, 2) == 0;
    assert NearCell(BlinkerRow(), 4, 4, 2, 2) == 0;
  }

  lemma RowToColumn21()
    ensures RuleHoldsAt(BlinkerRow(), 4, 4, BlinkerColumn(), 2, 1, 6)
  {
    assert NearCell(BlinkerRow(), 4, 4, 1, 0) == 0;
    assert NearCell(BlinkerRow(), 4, 4, 2, 0) == 0;
    assert NearCell(BlinkerRow(), 4, 4, 3, 0) == 0;
    assert NearCell(BlinkerRow(), 4, 4, 1, 1) == 1;
    assert NearCell(BlinkerRow(), 4, 4, 3, 1) == 0;
    assert NearCell(BlinkerRow(), 4, 4, 1, 2) == 0;
    assert NearCell(BlinkerRow(), 4, 4, 2, 2) == 0;
    assert NearCell(BlinkerRow(), 4, 4, 3, 2) == 0;
  }

  lemma RowToColumn31()
    ensures RuleHoldsAt(BlinkerRow(), 4, 4, BlinkerColumn(), 3, 1, 7)
  {
    assert NearCell(BlinkerRow(), 4, 4, 2, 0) == 0;
    assert NearCell(BlinkerRow(), 4, 4, 3, 0) == 0;
    assert NearCell(BlinkerRow(), 4, 4, 4, 0) == 0;
    assert NearCell(BlinkerRow(), 4, 4, 2, 1) == 1;
    assert NearCell(BlinkerRow(), 4, 4, 4, 1) == 1;
    assert NearCell(BlinkerRow(), 4, 4, 2, 2) == 0;
    assert NearCell(BlinkerRow(), 4, 4, 3, 2) == 0;
    assert NearCell(BlinkerRow(), 4, 4, 4, 2) == 0;
  }

  lemma RowToColumn02()
    ensures RuleHoldsAt(BlinkerRow(), 4, 4, BlinkerColumn(), 0, 2, 8)
  {
    assert NearCell(BlinkerRow(), 4, 4, -1, 1) == 0;
    assert NearCell(BlinkerRow(), 4, 4, 0, 1) == 1;
    assert NearCell(BlinkerRow(), 4, 4, 1, 1) == 1;
    assert NearCell(BlinkerRow(), 4, 4, -1, 2) == 0;
    assert NearCell(BlinkerRow(), 4, 4, 1, 2) == 0;
    assert NearCell(BlinkerRow(), 4, 4, -1, 3) == 0;
    assert NearCell(BlinkerRow(), 4, 4, 0, 3) == 0;
    assert NearCell(BlinkerRow(), 4, 4, 1, 3) == 0;
  }

  lemma RowToColumn12()
    ensures RuleHoldsAt(BlinkerRow(), 4, 4, BlinkerColumn(), 1, 2, 9)
  {
    assert NearCell(BlinkerRow(), 4, 4, 0, 1) == 1;
    assert NearCell(BlinkerRow(), 4, 4, 1, 1) == 1;
    assert NearCell(BlinkerRow(), 4, 4, 2, 1) == 1;
    assert NearCell(BlinkerRow(), 4, 4, 0, 2) == 0;
    assert NearCell(BlinkerRow(), 4, 4, 2, 2) == 0;
    assert NearCell(BlinkerRow(), 4, 4, 0, 3) == 0;
    assert NearCell(BlinkerRow(), 4, 4, 1, 3) == 0;
    assert NearCell(BlinkerRow(), 4, 4, 2, 3) == 0;
  }

  lemma RowToColumn22()
    ensures RuleHoldsAt(BlinkerRow(), 4, 4, BlinkerColumn(), 2, 2, 10)
  {
    assert NearCell(BlinkerRow(), 4, 4, 1, 1) == 1;
    assert NearCell(BlinkerRow(), 4, 4, 2, 1) == 1;
    assert NearCell(BlinkerRow(), 4, 4, 3, 1) == 0;
    assert NearCell(BlinkerRow(), 4, 4, 1, 2) == 0;
    assert NearCell(BlinkerRow(), 4, 4, 3, 2) == 0;
    assert NearCell(BlinkerRow(), 4, 4, 1, 3) == 0;
    assert NearCell(BlinkerRow(), 4, 4, 2, 3) == 0;
    assert NearCell(BlinkerRow(), 4, 4, 3, 3) == 0;
  }

  lemma RowToColumn32()
    ensures RuleHoldsAt(BlinkerRow(), 4, 4, BlinkerColumn(), 3, 2, 11)
  {
    assert NearCell(BlinkerRow(), 4, 4, 2, 1) == 1;
    assert NearCell(BlinkerRow(), 4, 4, 3, 1) == 0;
    assert NearCell(BlinkerRow(), 4, 4, 4, 1) == 1;
    assert NearCell(BlinkerRow(), 4, 4, 2, 2) == 0;
    assert NearCell(BlinkerRow(), 4, 4, 4, 2) == 0;
    assert NearCell(BlinkerRow(), 4, 4, 2, 3) == 0;
    assert NearCell(BlinkerRow(), 4, 4, 3, 3) == 0;
    assert NearCell(BlinkerRow(), 4, 4, 4, 3) == 0;
  }

  lemma RowToColumn03()
    ensures RuleHoldsAt(BlinkerRow(), 4, 4, BlinkerColumn(), 0, 3, 12)
  {
    assert NearCell(BlinkerRow(), 4, 4, -1, 2) == 0;
    assert NearCell(BlinkerRow(), 4, 4, 0, 2) == 0;
    assert NearCell(BlinkerRow(), 4, 4, 1, 2) == 0;
    assert NearCell(BlinkerRow(), 4, 4, -1, 3) == 0;
    assert NearCell(BlinkerRow(), 4, 4, 1, 3) == 0;
    assert NearCell(BlinkerRow(), 4, 4, -1, 4) == 0;
    assert NearCell(BlinkerRow(), 4, 4, 0, 4) == 0;
    assert NearCell(BlinkerRow(), 4, 4, 1, 4) == 0;
  }

  lemma RowToColumn13()
    ensures RuleHoldsAt(BlinkerRow(), 4, 4, BlinkerColumn(), 1, 3, 13)
  {
    assert NearCell(BlinkerRow(), 4, 4, 0, 2) == 0;
    assert NearCell(BlinkerRow(), 4, 4, 1, 2) == 0;
    assert NearCell(BlinkerRow(), 4, 4, 2, 2) == 0;
    assert NearCell(BlinkerRow(), 4, 4, 0, 3) == 0;
    assert NearCell(BlinkerRow(), 4, 4, 2, 3) == 0;
    assert NearCell(BlinkerRow(), 4, 4, 0, 4) == 0;
    assert NearCell(BlinkerRow(), 4, 4, 1, 4) == 0;
    assert NearCell(BlinkerRow(), 4, 4, 2, 4) == 0;
  }

  lemma RowToColumn23()
    ensures RuleHoldsAt(BlinkerRow(), 4, 4, BlinkerColumn(), 2, 3, 14)
  {
    assert NearCell(BlinkerRow(), 4, 4, 1, 2) == 0;
    assert NearCell(BlinkerRow(), 4, 4, 2, 2) == 0;
    assert NearCell(BlinkerRow(), 4, 4, 3, 2) == 0;
    assert NearCell(BlinkerRow(), 4, 4, 1, 3) == 0;
    assert NearCell(BlinkerRow(), 4, 4, 3, 3) == 0;
    assert NearCell(BlinkerRow(), 4, 4, 1, 4) == 0;
    assert NearCell(BlinkerRow(), 4, 4, 2, 4) == 0;
    assert NearCell(BlinkerRow(), 4, 4, 3, 4) == 0;
  }

  lemma RowToColumn33()
    ensures RuleHoldsAt(BlinkerRow(), 4, 4, BlinkerColumn(), 3, 3, 15)
  {
    assert NearCell(BlinkerRow(), 4, 4, 2, 2) == 0;
    assert NearCell(BlinkerRow(), 4, 4, 3, 2) == 0;
    assert NearCell(BlinkerRow(), 4, 4, 4, 2) == 0;
    assert NearCell(BlinkerRow(), 4, 4, 2, 3) == 0;
    assert NearCell(BlinkerRow(), 4, 4, 4, 3) == 0;
    assert NearCell(BlinkerRow(), 4, 4, 2, 4) == 0;
    assert NearCell(BlinkerRow(), 4, 4, 3, 4) == 0;
    assert NearCell(BlinkerRow(), 4, 4, 4, 4) == 0;
  }

  /** Rows 0 to `y` of the column follow from the row. */
  lemma RowToColumnThroughRow0()
    ensures RulesUpTo(BlinkerRow(), 4, 4, BlinkerColumn(), 4)
  {
    RowToColumn00();
    RulesExtend(BlinkerRow(), 4, 4, BlinkerColumn(), 0);
    RowToColumn10();
    RulesExtend(BlinkerRow(), 4, 4, BlinkerColumn(), 1);
    RowToColumn20();
    RulesExtend(BlinkerRow(), 4, 4, BlinkerColumn(), 2);
    RowToColumn30();
    RulesExtend(BlinkerRow(), 4, 4, BlinkerColumn(), 3);
  }

  lemma RowToColumnThroughRow1()
    ensures RulesUpTo(BlinkerRow(), 4, 4, BlinkerColumn(), 8)
  {
    RowToColumnThroughRow0();
    RowToColumn01();
    RulesExtend(BlinkerRow(), 4, 4, BlinkerColumn(), 4);
    RowToColumn11();
    RulesExtend(BlinkerRow(), 4, 4, BlinkerColumn(), 5);
    RowToColumn21();
    RulesExtend(BlinkerRow(), 4, 4, BlinkerColumn(), 6);
    RowToColumn31();
    RulesExtend(BlinkerRow(), 4, 4, BlinkerColumn(), 7);
  }

  lemma RowToColumnThroughRow2()
    ensures RulesUpTo(BlinkerRow(), 4, 4, BlinkerColumn(), 12)
  {
    RowToColumnThroughRow1();
    RowToColumn02();
    RulesExtend(BlinkerRow(), 4, 4, BlinkerColumn(), 8);
    RowToColumn12();
    RulesExtend(BlinkerRow(), 4, 4, BlinkerColumn(), 9);
    RowToColumn22();
    RulesExtend(BlinkerRow(), 4, 4, BlinkerColumn(), 10);
    RowToColumn32();
    RulesExtend(BlinkerRow(), 4, 4, BlinkerColumn(), 11);
  }

  lemma RowToColumnThroughRow3()
    ensures RulesUpTo(BlinkerRow(), 4, 4, BlinkerColumn(), 16)
  {
    RowToColumnThroughRow2();
    RowToColumn03();
    RulesExtend(BlinkerRow(), 4, 4, BlinkerColumn(), 12);
    RowToColumn13();
    RulesExtend(BlinkerRow(), 4, 4, BlinkerColumn(), 13);
    RowToColumn23();
    RulesExtend(BlinkerRow(), 4, 4, BlinkerColumn(), 14);
    RowToColumn33();
    RulesExtend(BlinkerRow(), 4, 4, BlinkerColumn(), 15);
  }

  /** The row becomes the column. */
  lemma BlinkerRowStep()
    ensures Step(BlinkerRow(), 4, 4) == BlinkerColumn()
  {
    RowToColumnThroughRow3();
    RulesUpToIsStep(BlinkerRow(), 4, 4, BlinkerColumn());
  }

  /** From the column, cell `(x, y)` takes its state in the row, by the same
      counts turned a quarter round. */
  lemma ColumnToRow00()
    ensures RuleHoldsAt(BlinkerColumn(), 4, 4, BlinkerRow(), 0, 0, 0)
  {
    assert NearCell(BlinkerColumn(), 4, 4, -1, -1) == 0;
    assert NearCell(BlinkerColumn(), 4, 4, 0, -1) == 0;
    assert NearCell(BlinkerColumn(), 4, 4, 1, -1) == 0;
    assert NearCell(BlinkerColumn(), 4, 4, -1, 0) == 0;
    assert NearCell(BlinkerColumn(), 4, 4, 1, 0) == 1;
    assert NearCell(BlinkerColumn(), 4, 4, -1, 1) == 0;
    assert NearCell(BlinkerColumn(), 4, 4, 0, 1) == 0;
    assert NearCell(BlinkerColumn(), 4, 4, 1, 1) == 1;
  }

  lemma ColumnToRow10()
    ensures RuleHoldsAt(BlinkerColumn(), 4, 4, BlinkerRow(), 1, 0, 1)
  {
    assert NearCell(BlinkerColumn(), 4, 4, 0, -1) == 0;
    assert NearCell(BlinkerColumn(), 4, 4, 1, -1) == 0;
    assert NearCell(BlinkerColumn(), 4, 4, 2, -1) == 0;
    assert NearCell(BlinkerColumn(), 4, 4, 0, 0) == 0;
    assert NearCell(BlinkerColumn(), 4, 4, 2, 0) == 0;
    assert NearCell(BlinkerColumn(), 4, 4, 0, 1) == 0;
    assert NearCell(BlinkerColumn(), 4, 4, 1, 1) == 1;
    assert NearCell(BlinkerColumn(), 4, 4, 2, 1) == 0;
  }

  lemma ColumnToRow20()
    ensures RuleHoldsAt(BlinkerColumn(), 4, 4, BlinkerRow(), 2, 0, 2)
  {
    assert NearCell(BlinkerColumn(), 4, 4, 1, -1) == 0;
    assert NearCell(BlinkerColumn(), 4, 4, 2, -1) == 0;
    assert NearCell(BlinkerColumn(), 4, 4, 3, -1) == 0;
    assert NearCell(BlinkerColumn(), 4, 4, 1, 0) == 1;
    assert NearCell(BlinkerColumn(), 4, 4, 3, 0) == 0;
    assert NearCell(BlinkerColumn(), 4, 4, 1, 1) == 1;
    assert NearCell(BlinkerColumn(), 4, 4, 2, 1) == 0;
    assert NearCell(BlinkerColumn(), 4, 4, 3, 1) == 0;
  }

  lemma ColumnToRow30()
    ensures RuleHoldsAt(BlinkerColumn(), 4, 4, BlinkerRow(), 3, 0, 3)
  {
    assert NearCell(BlinkerColumn(), 4, 4, 2, -1) == 0;
    assert NearCell(BlinkerColumn(), 4, 4, 3, -1) == 0;
    assert NearCell(BlinkerColumn(), 4, 4, 4, -1) == 0;
    assert NearCell(BlinkerColumn(), 4, 4, 2, 0) == 0;
    assert NearCell(BlinkerColumn(), 4, 4, 4, 0) == 0;
    assert NearCell(BlinkerColumn(), 4, 4, 2, 1) == 0;
    assert NearCell(BlinkerColumn(), 4, 4, 3, 1) == 0;
    assert NearCell(BlinkerColumn(), 4, 4, 4, 1) == 0;
  }

  lemma ColumnToRow01()
    ensures RuleHoldsAt(BlinkerColumn(), 4, 4, BlinkerRow(), 0, 1, 4)
  {
    assert NearCell(BlinkerColumn(), 4, 4, -1, 0) == 0;
    assert NearCell(BlinkerColumn(), 4, 4, 0, 0) == 0;
    assert NearCell(BlinkerColumn(), 4, 4, 1, 0) == 1;
    assert NearCell(BlinkerColumn(), 4, 4, -1, 1) == 0;
    assert NearCell(BlinkerColumn(), 4, 4, 1, 1) == 1;
    assert NearCell(BlinkerColumn(), 4, 4, -1, 2) == 0;
    assert NearCell(BlinkerColumn(), 4, 4, 0, 2) == 0;
    assert NearCell(BlinkerColumn(), 4, 4, 1, 2) == 1;
  }

  lemma ColumnToRow11()
    ensures RuleHoldsAt(BlinkerColumn(), 4, 4, BlinkerRow(), 1, 1, 5)
  {
    assert NearCell(BlinkerColumn(), 4, 4, 0, 0) == 0;
    assert NearCell(BlinkerColumn(), 4, 4, 1, 0) == 1;
    assert NearCell(BlinkerColumn(), 4, 4, 2, 0) == 0;
    assert NearCell(BlinkerColumn(), 4, 4, 0, 1) == 0;
    assert NearCell(BlinkerColumn(), 4, 4, 2, 1) == 0;
    assert NearCell(BlinkerColumn(), 4, 4, 0, 2) == 0;
    assert NearCell(BlinkerColumn(), 4, 4, 1, 2) == 1;
    assert NearCell(BlinkerColumn(), 4, 4, 2, 2) == 0;
  }

  lemma ColumnToRow21()
    ensures RuleHoldsAt(BlinkerColumn(), 4, 4, BlinkerRow(), 2, 1, 6)
  {
    assert NearCell(BlinkerColumn(), 4, 4, 1, 0) == 1;
    assert NearCell(BlinkerColumn(), 4, 4, 2, 0) == 0;
    assert NearCell(BlinkerColumn(), 4, 4, 3, 0) == 0;
    assert NearCell(BlinkerColumn(), 4, 4, 1, 1) == 1;
    assert NearCell(BlinkerColumn(), 4, 4, 3, 1) == 0;
    assert NearCell(BlinkerColumn(), 4, 4, 1, 2) == 1;
    assert NearCell(BlinkerColumn(), 4, 4, 2, 2) == 0;
    assert NearCell(BlinkerColumn(), 4, 4, 3, 2) == 0;
  }

  lemma ColumnToRow31()
    ensures RuleHoldsAt(BlinkerColumn(), 4, 4, BlinkerRow(), 3, 1, 7)
  {
    assert NearCell(BlinkerColumn(), 4, 4, 2, 0) == 0;
    assert NearCell(BlinkerColumn(), 4, 4, 3, 0) == 0;
    assert NearCell(BlinkerColumn(), 4, 4, 4, 0) == 0;
    assert NearCell(BlinkerColumn(), 4, 4, 2, 1) == 0;
    assert NearCell(BlinkerColumn(), 4, 4, 4, 1) == 0;
    assert NearCell(BlinkerColumn(), 4, 4, 2, 2) == 0;
    assert NearCell(BlinkerColumn(), 4, 4, 3, 2) == 0;
    assert NearCell(BlinkerColumn(), 4, 4, 4, 2) == 0;
  }

  lemma ColumnToRow02()
    ensures RuleHoldsAt(BlinkerColumn(), 4, 4, BlinkerRow(), 0, 2, 8)
  {
    assert NearCell(BlinkerColumn(), 4, 4, -1, 1) == 0;
    assert NearCell(BlinkerColumn(), 4, 4, 0, 1) == 0;
    assert NearCell(BlinkerColumn(), 4, 4, 1, 1) == 1;
    assert NearCell(BlinkerColumn(), 4, 4, -1, 2) == 0;
    assert NearCell(BlinkerColumn(), 4, 4, 1, 2) == 1;
    assert NearCell(BlinkerColumn(), 4, 4, -1, 3) == 0;
    assert NearCell(BlinkerColumn(), 4, 4, 0, 3) == 0;
    assert NearCell(BlinkerColumn(), 4, 4, 1, 3) == 0;
  }

  lemma ColumnToRow12()
    ensures RuleHoldsAt(BlinkerColumn(), 4, 4, BlinkerRow(), 1, 2, 9)
  {
    assert NearCell(BlinkerColumn(), 4, 4, 0, 1) == 0;
    assert NearCell(BlinkerColumn(), 4, 4, 1, 1) == 1;
    assert NearCell(BlinkerColumn(), 4, 4, 2, 1) == 0;
    assert NearCell(BlinkerColumn(), 4, 4, 0, 2) == 0;
    assert NearCell(BlinkerColumn(), 4, 4, 2, 2) == 0;
    assert NearCell(BlinkerColumn(), 4, 4, 0, 3) == 0;
    assert NearCell(BlinkerColumn(), 4, 4, 1, 3) == 0;
    assert NearCell(BlinkerColumn(), 4, 4, 2, 3) == 0;
  }

  lemma ColumnToRow22()
    ensures RuleHoldsAt(BlinkerColumn(), 4, 4, BlinkerRow(), 2, 2, 10)
  {
    assert NearCell(BlinkerColumn(), 4, 4, 1, 1) == 1;
    assert NearCell(BlinkerColumn(), 4, 4, 2, 1) == 0;
    assert NearCell(BlinkerColumn(), 4, 4, 3, 1) == 0;
    assert NearCell(BlinkerColumn(), 4, 4, 1, 2) == 1;
    assert NearCell(BlinkerColumn(), 4, 4, 3, 2) == 0;
    assert NearCell(BlinkerColumn(), 4, 4, 1, 3) == 0;
    assert NearCell(BlinkerColumn(), 4, 4, 2, 3) == 0;
    assert NearCell(BlinkerColumn(), 4, 4, 3, 3) == 0;
  }

  lemma ColumnToRow32()
    ensures RuleHoldsAt(BlinkerColumn(), 4, 4, BlinkerRow(), 3, 2, 11)
  {
    assert NearCell(BlinkerColumn(), 4, 4, 2, 1) == 0;
    assert NearCell(BlinkerColumn(), 4, 4, 3, 1) == 0;
    assert NearCell(BlinkerColumn(), 4, 4, 4, 1) == 0;
    assert NearCell(BlinkerColumn(), 4, 4, 2, 2) == 0;
    assert NearCell(BlinkerColumn(), 4, 4, 4, 2) == 0;
    assert NearCell(BlinkerColumn(), 4, 4, 2, 3) == 0;
    assert NearCell(BlinkerColumn(), 4, 4, 3, 3) == 0;
    assert NearCell(BlinkerColumn(), 4, 4, 4, 3) == 0;
  }

  lemma ColumnToRow03()
    ensures RuleHoldsAt(BlinkerColumn(), 4, 4, BlinkerRow(), 0, 3, 12)
  {
    assert NearCell(BlinkerColumn(), 4, 4, -1, 2) == 0;
    assert NearCell(BlinkerColumn(), 4, 4, 0, 2) == 0;
    assert NearCell(BlinkerColumn(), 4, 4, 1, 2) == 1;
    assert NearCell(BlinkerColumn(), 4, 4, -1, 3) == 0;
    assert NearCell(BlinkerColumn(), 4, 4, 1, 3) == 0;
    assert NearCell(BlinkerColumn(), 4, 4, -1, 4) == 0;
    assert NearCell(BlinkerColumn(), 4, 4, 0, 4) == 0;
    assert NearCell(BlinkerColumn(), 4, 4, 1, 4) == 1;
  }

  lemma ColumnToRow13()
    ensures RuleHoldsAt(BlinkerColumn(), 4, 4, BlinkerRow(), 1, 3, 13)
  {
    assert NearCell(BlinkerColumn(), 4, 4, 0, 2) == 0;
    assert NearCell(BlinkerColumn(), 4, 4, 1, 2) == 1;
    assert NearCell(BlinkerColumn(), 4, 4, 2, 2) == 0;
    assert NearCell(BlinkerColumn(), 4, 4, 0, 3) == 0;
    assert NearCell(BlinkerColumn(), 4, 4, 2, 3) == 0;
    assert NearCell(BlinkerColumn(), 4, 4, 0, 4) == 0;
    assert NearCell(BlinkerColumn(), 4, 4, 1, 4) == 1;
    assert NearCell(BlinkerColumn(), 4, 4, 2, 4) == 0;
  }

  lemma ColumnToRow23()
    ensures RuleHoldsAt(BlinkerColumn(), 4, 4, BlinkerRow(), 2, 3, 14)
  {
    assert NearCell(BlinkerColumn(), 4, 4, 1, 2) == 1;
    assert NearCell(BlinkerColumn(), 4, 4, 2, 2) == 0;
    assert NearCell(BlinkerColumn(), 4, 4, 3, 2) == 0;
    assert NearCell(BlinkerColumn(), 4, 4, 1, 3) == 0;
    assert NearCell(BlinkerColumn(), 4, 4, 3, 3) == 0;
    assert NearCell(BlinkerColumn(), 4, 4, 1, 4) == 1;
    assert NearCell(BlinkerColumn(), 4, 4, 2, 4) == 0;
    assert NearCell(BlinkerColumn(), 4, 4, 3, 4) == 0;
  }

  lemma ColumnToRow33()
    ensures RuleHoldsAt(BlinkerColumn(), 4, 4, BlinkerRow(), 3, 3, 15)
  {
    assert NearCell(BlinkerColumn(), 4, 4, 2, 2) == 0;
    assert NearCell(BlinkerColumn(), 4, 4, 3, 2) == 0;
    assert NearCell(BlinkerColumn(), 4, 4, 4, 2) == 0;
    assert NearCell(BlinkerColumn(), 4, 4, 2, 3) == 0;
    assert NearCell(BlinkerColumn(), 4, 4, 4, 3) == 0;
    assert NearCell(BlinkerColumn(), 4, 4, 2, 4) == 0;
    assert NearCell(BlinkerColumn(), 4, 4, 3, 4) == 0;
    assert NearCell(BlinkerColumn(), 4, 4, 4, 4) == 0;
  }

  /** Rows 0 to `y` of the row follow from the column. */
  lemma ColumnToRowThroughRow0()
    ensures RulesUpTo(BlinkerColumn(), 4, 4, BlinkerRow(), 4)
  {
    ColumnToRow00();
    RulesExtend(BlinkerColumn(), 4, 4, BlinkerRow(), 0);
    ColumnToRow10();
    RulesExtend(BlinkerColumn(), 4, 4, BlinkerRow(), 1);
    ColumnToRow20();
    RulesExtend(BlinkerColumn(), 4, 4, BlinkerRow(), 2);
    ColumnToRow30();
    RulesExtend(BlinkerColumn(), 4, 4, BlinkerRow(), 3);
  }

  lemma ColumnToRowThroughRow1()
    ensures RulesUpTo(BlinkerColumn(), 4, 4, BlinkerRow(), 8)
  {
    ColumnToRowThroughRow0();
    ColumnToRow01();
    RulesExtend(BlinkerColumn(), 4, 4, BlinkerRow(), 4);
    ColumnToRow11();
    RulesExtend(BlinkerColumn(), 4, 4, BlinkerRow(), 5);
    ColumnToRow21();
    RulesExtend(BlinkerColumn(), 4, 4, BlinkerRow(), 6);
    ColumnToRow31();
    RulesExtend(BlinkerColumn(), 4, 4, BlinkerRow(), 7);
  }

  lemma ColumnToRowThroughRow2()
    ensures RulesUpTo(BlinkerColumn(), 4, 4, BlinkerRow(), 12)
  {
    ColumnToRowThroughRow1();
    ColumnToRow02();
    RulesExtend(BlinkerColumn(), 4, 4, BlinkerRow(), 8);
    ColumnToRow12();
    RulesExtend(BlinkerColumn(), 4, 4, BlinkerRow(), 9);
    ColumnToRow22();
    RulesExtend(BlinkerColumn(), 4, 4, BlinkerRow(), 10);
    ColumnToRow32();
    RulesExtend(BlinkerColumn(), 4, 4, BlinkerRow(), 11);
  }

  lemma ColumnToRowThroughRow3()
    ensures RulesUpTo(BlinkerColumn(), 4, 4, BlinkerRow(), 16)
  {
    ColumnToRowThroughRow2();
    ColumnToRow03();
    RulesExtend(BlinkerColumn(), 4, 4, BlinkerRow(), 12);
    ColumnToRow13();
    RulesExtend(BlinkerColumn(), 4, 4, BlinkerRow(), 13);
    ColumnToRow23();
    RulesExtend(BlinkerColumn(), 4, 4, BlinkerRow(), 14);
    ColumnToRow33();
    RulesExtend(BlinkerColumn(), 4, 4, BlinkerRow(), 15);
  }

  /** The column becomes the row again. */
  lemma BlinkerColumnStep()
    ensures Step(BlinkerColumn(), 4, 4) == BlinkerRow()
  {
    ColumnToRowThroughRow3();
    RulesUpToIsStep(BlinkerColumn(), 4, 4, BlinkerRow());
  }

  /** The blinker changes in one step and is back after two: period 2. */
  lemma BlinkerOscillates()
    ensures Step(BlinkerRow(), 4, 4) != BlinkerRow()
    ensures Step(Step(BlinkerRow(), 4, 4), 4, 4) == BlinkerRow()
  {
    BlinkerRowStep();
    assert Step(BlinkerRow(), 4, 4) != BlinkerRow() by {
      assert BlinkerColumn()[1] != BlinkerRow()[1];
    }
    BlinkerColumnStep();
  }
}
