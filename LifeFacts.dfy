/**
 * Consequences of the Life rule on concrete patterns: a lone live cell dies
 * out on a torus of any size, and the 2×2 block is a still life.
 */
module LifeFacts {
  import opened Grid
  import opened Life

  /** The n×n grid with every cell OFF. */
  function Empty(n: nat): (g: seq<seq<int>>)
    ensures IsLifeGrid(g, n)
    ensures forall i, j :: 0 <= i < n && 0 <= j < n ==> g[i][j] == OFF
  {
    seq(n, i => seq(n, j => OFF))
  }

  /** The n×n grid whose only live cell is (a, b). */
  function Lone(n: nat, a: int, b: int): (g: seq<seq<int>>)
    ensures IsLifeGrid(g, n)
    ensures forall i, j :: 0 <= i < n && 0 <= j < n ==> (g[i][j] == ON <==> i == a && j == b)
  {
    seq(n, i => seq(n, j => if i == a && j == b then ON else OFF))
  }

  /** Two n×n grids that agree on every cell are equal. */
  lemma GridsEqual(g: seq<seq<int>>, h: seq<seq<int>>, n: int)
    requires IsGrid(g, n) && IsGrid(h, n)
    requires forall i, j :: 0 <= i < n && 0 <= j < n ==> g[i][j] == h[i][j]
    ensures g == h
  {
    forall i | 0 <= i < n ensures g[i] == h[i] {
      assert |g[i]| == |h[i]|;
    }
  }

  /**
   * Around a lone live cell the neighbour count is never 3, and the cell
   * itself has fewer than 2 or more than 3 live neighbours. On a 1×1 torus
   * all eight reads hit the cell itself (count 8); on a 2×2 torus reads pair
   * up (counts 0, 2 or 4); from 3×3 on each cell is read at most once.
   */
  lemma LoneNeighbours(n: int, a: int, b: int, i: int, j: int)
    requires n >= 1 && 0 <= a < n && 0 <= b < n && 0 <= i < n && 0 <= j < n
    ensures LiveNeighbours(Lone(n, a, b), n, i, j) != 3
    ensures i == a && j == b ==> LiveNeighbours(Lone(n, a, b), n, i, j) !in {2, 3}
  {
  }

  /** A single live cell leaves an empty grid after one generation, whatever the size of the torus. */
  lemma {:induction false} LoneCellDies(n: int, a: int, b: int)
    requires n >= 1 && 0 <= a < n && 0 <= b < n
    ensures Step(Lone(n, a, b), n) == Empty(n)
  {
    var g, r := Lone(n, a, b), Step(Lone(n, a, b), n);
    forall i, j | 0 <= i < n && 0 <= j < n ensures r[i][j] == OFF {
      LoneNeighbours(n, a, b, i, j);
    }
    GridsEqual(r, Empty(n), n);
  }

  /** Row (or column) x is one of the two rows a and (a + 1) mod n of a block anchored at a. */
  predicate InBlock(n: int, a: int, x: int)
    requires n >= 1 && 0 <= a < n
  {
    x == a || x == Wrap(a + 1, n)
  }

  /** The n×n grid whose live cells are the 2×2 block with top-left cell (a, b), wrapping at the edges. */
  function BlockGrid(n: nat, a: int, b: int): (g: seq<seq<int>>)
    requires 0 <= a < n && 0 <= b < n
    ensures IsLifeGrid(g, n)
    ensures forall i, j :: 0 <= i < n && 0 <= j < n ==> (g[i][j] == ON <==> InBlock(n, a, i) && InBlock(n, b, j))
  {
    seq(n, i => seq(n, j => if InBlock(n, a, i) && InBlock(n, b, j) then ON else OFF))
  }

  /**
   * How many of the rows (i - 1) mod n, i, (i + 1) mod n belong to the
   * block's rows a and (a + 1) mod n: at most 2, and 2 exactly when i is
   * one of them (n >= 4 keeps the rows i - 1 and i + 1 from both hitting
   * the block).
   */
  function Hits(n: int, a: int, i: int): (h: nat)
    requires n >= 4 && 0 <= a < n && 0 <= i < n
    ensures h <= 2
    ensures h == 2 <==> InBlock(n, a, i)
  {
    (if InBlock(n, a, Wrap(i - 1, n)) then 1 else 0) + (if InBlock(n, a, i) then 1 else 0)
    + (if InBlock(n, a, Wrap(i + 1, n)) then 1 else 0)
  }

  /** 1 for true, 0 for false. */
  function Ind(p: bool): (k: nat)
    ensures k <= 1
    ensures k == 1 <==> p
  {
    if p then 1 else 0
  }

  /** A cell of the block grid is live exactly when both its row and its column belong to the block. */
  lemma BlockCell(n: int, a: int, b: int, x: int, y: int)
    requires n >= 1 && 0 <= a < n && 0 <= b < n && 0 <= x < n && 0 <= y < n
    ensures Live(BlockGrid(n, a, b)[x][y]) == Ind(InBlock(n, a, x)) * Ind(InBlock(n, b, y))
  {
  }

  /** The eight neighbours of a 3×3 window of 0/1 row and column indicators: the full product less the centre. */
  lemma WindowSum(ru: nat, ri: nat, rd: nat, cl: nat, cj: nat, cr: nat)
    requires ru <= 1 && ri <= 1 && rd <= 1 && cl <= 1 && cj <= 1 && cr <= 1
    ensures ri * cl + ri * cr + ru * cj + rd * cj + ru * cl + ru * cr + rd * cl + rd * cr
      == (ru + ri + rd) * (cl + cj + cr) - ri * cj
  {
  }

  /**
   * The live-neighbour count of (i, j) around the block: the 3×3 window's
   * hits minus the cell itself. It is 3 on the block's four cells and never
   * 3 elsewhere.
   */
  lemma BlockNeighbours(n: int, a: int, b: int, i: int, j: int)
    requires n >= 4 && 0 <= a < n && 0 <= b < n && 0 <= i < n && 0 <= j < n
    ensures LiveNeighbours(BlockGrid(n, a, b), n, i, j)
      == Hits(n, a, i) * Hits(n, b, j) - (if InBlock(n, a, i) && InBlock(n, b, j) then 1 else 0)
    ensures LiveNeighbours(BlockGrid(n, a, b), n, i, j) == 3 <==> InBlock(n, a, i) && InBlock(n, b, j)
  {
    var up, down, left, right := Wrap(i - 1, n), Wrap(i + 1, n), Wrap(j - 1, n), Wrap(j + 1, n);
    BlockCell(n, a, b, i, left);
    BlockCell(n, a, b, i, right);
    BlockCell(n, a, b, up, j);
    BlockCell(n, a, b, down, j);
    BlockCell(n, a, b, up, left);
    BlockCell(n, a, b, up, right);
    BlockCell(n, a, b, down, left);
    BlockCell(n, a, b, down, right);
    var ru, ri, rd := Ind(InBlock(n, a, up)), Ind(InBlock(n, a, i)), Ind(InBlock(n, a, down));
    var cl, cj, cr := Ind(InBlock(n, b, left)), Ind(InBlock(n, b, j)), Ind(InBlock(n, b, right));
    WindowSum(ru, ri, rd, cl, cj, cr);
    var hi, hj := Hits(n, a, i), Hits(n, b, j);
    assert hi == ru + ri + rd && hj == cl + cj + cr;
    assert ri * cj == (if InBlock(n, a, i) && InBlock(n, b, j) then 1 else 0);
    assert hi * hj == 4 <==> hi == 2 && hj == 2;
    assert hi * hj != 3;
  }

  /** A 2×2 block anywhere on a torus of side at least 4 is a still life. */
  lemma {:induction false} BlockIsStill(n: int, a: int, b: int)
    requires n >= 4 && 0 <= a < n && 0 <= b < n
    ensures Step(BlockGrid(n, a, b), n) == BlockGrid(n, a, b)
  {
    var g, r := BlockGrid(n, a, b), Step(BlockGrid(n, a, b), n);
    forall i, j | 0 <= i < n && 0 <= j < n ensures r[i][j] == g[i][j] {
      BlockNeighbours(n, a, b, i, j);
    }
    GridsEqual(r, g, n);
  }
}
