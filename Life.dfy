/**
 * One generation of the Game of Life on the N×N torus (`update` in
 * conway.py): the neighbour count, the birth/survival/death rule, the pure
 * next-generation function and the double-buffered method that computes it.
 */
module Life {
  import opened Grid

  /** 1 for a live cell, 0 for any other value. */
  function Live(v: int): (k: nat)
    ensures k <= 1
    ensures k == 1 <==> v == ON
    ensures v == ON || v == OFF ==> v == ON * k
  {
    if v == ON then 1 else 0
  }

  /**
   * The number of ON values among the eight toroidal neighbour reads of
   * (i, j). Positions that coincide on a grid narrower than 3 are counted
   * once per read, as the sum in `update` of conway.py does.
   */
  function LiveNeighbours(g: seq<seq<int>>, n: int, i: int, j: int): (k: nat)
    requires n >= 1 && IsGrid(g, n) && 0 <= i < n && 0 <= j < n
    ensures k <= 8
  {
    var up, down, left, right := Wrap(i - 1, n), Wrap(i + 1, n), Wrap(j - 1, n), Wrap(j + 1, n);
    Live(g[i][left]) + Live(g[i][right]) + Live(g[up][j]) + Live(g[down][j])
    + Live(g[up][left]) + Live(g[up][right]) + Live(g[down][left]) + Live(g[down][right])
  }

  /**
   * The next value of cell (i, j), read from the old grid only. A live cell
   * dies of under- or overpopulation, a dead cell with exactly three live
   * neighbours is born, and every other cell keeps its value (the new
   * buffer starts as a copy of the old grid).
   */
  function NextCell(g: seq<seq<int>>, n: int, i: int, j: int): (v: int)
    requires n >= 1 && IsGrid(g, n) && 0 <= i < n && 0 <= j < n
    ensures v == ON <==>
      (g[i][j] == ON && 2 <= LiveNeighbours(g, n, i, j) <= 3) ||
      (g[i][j] != ON && LiveNeighbours(g, n, i, j) == 3)
    ensures v != g[i][j] ==>
      (g[i][j] == ON && v == OFF && (LiveNeighbours(g, n, i, j) < 2 || LiveNeighbours(g, n, i, j) > 3)) ||
      (g[i][j] != ON && v == ON && LiveNeighbours(g, n, i, j) == 3)
    ensures g[i][j] == ON || g[i][j] == OFF ==> v == ON || v == OFF
  {
    var cell, total := g[i][j], LiveNeighbours(g, n, i, j);
    if cell == ON then
      if total < 2 || total > 3 then OFF else cell
    else
      if total == 3 then ON else cell
  }

  /** The next generation: every cell is computed from the old grid only. */
  function Step(g: seq<seq<int>>, n: int): (r: seq<seq<int>>)
    requires n >= 1 && IsGrid(g, n)
    ensures IsGrid(r, n)
    ensures forall i, j :: 0 <= i < n && 0 <= j < n ==> r[i][j] == NextCell(g, n, i, j)
    ensures IsLifeGrid(g, n) ==> IsLifeGrid(r, n)
  {
    seq(n, i requires 0 <= i < n => seq(n, j requires 0 <= j < n => NextCell(g, n, i, j)))
  }

  /**
   * The neighbour total of `update`: the eight toroidal reads around (i, j)
   * added up and divided by 255.
   */
  method CountNeighbours(grid: array2<int>, n: int, i: int, j: int) returns (total: int)
    requires n >= 1 && grid.Length0 == n && grid.Length1 == n && 0 <= i < n && 0 <= j < n
    requires IsLifeGrid(Cells(grid), n)
    ensures total == LiveNeighbours(Cells(grid), n, i, j)
  {
    var up, down, left, right := Wrap(i - 1, n), Wrap(i + 1, n), Wrap(j - 1, n), Wrap(j + 1, n);
    ghost var g := Cells(grid);
    assert g[i][left] == ON * Live(g[i][left]) && g[i][right] == ON * Live(g[i][right]);
    assert g[up][j] == ON * Live(g[up][j]) && g[down][j] == ON * Live(g[down][j]);
    assert g[up][left] == ON * Live(g[up][left]) && g[up][right] == ON * Live(g[up][right]);
    assert g[down][left] == ON * Live(g[down][left]) && g[down][right] == ON * Live(g[down][right]);
    total := (grid[i, left] + grid[i, right] + grid[up, j] + grid[down, j]
              + grid[up, left] + grid[up, right] + grid[down, left] + grid[down, right]) / ON;
  }

  /**
   * One step of the double loop of `update`: count the live neighbours of
   * (i, j) in the old grid, then kill or give birth to the cell in the new
   * buffer, which still holds the old value of (i, j).
   */
  method ApplyRule(grid: array2<int>, newGrid: array2<int>, n: int, i: int, j: int)
    requires n >= 1 && grid.Length0 == n && grid.Length1 == n && 0 <= i < n && 0 <= j < n
    requires newGrid != grid && newGrid.Length0 == n && newGrid.Length1 == n
    requires IsLifeGrid(Cells(grid), n)
    requires newGrid[i, j] == grid[i, j]
    modifies newGrid
    ensures newGrid[i, j] == NextCell(Cells(grid), n, i, j)
    ensures forall r, c :: 0 <= r < n && 0 <= c < n && (r != i || c != j) ==> newGrid[r, c] == old(newGrid[r, c])
  {
    var total := CountNeighbours(grid, n, i, j);
    if grid[i, j] == ON {
      if total < 2 || total > 3 {
        newGrid[i, j] := OFF;
      }
    } else {
      if total == 3 {
        newGrid[i, j] := ON;
      }
    }
  }

  /**
   * The body of `update` up to the copy-back: copy the grid into a fresh
   * buffer, then overwrite the cells that die or are born, reading only the
   * old grid.
   */
  method NextGeneration(grid: array2<int>, n: int) returns (newGrid: array2<int>)
    requires n >= 1 && grid.Length0 == n && grid.Length1 == n
    requires IsLifeGrid(Cells(grid), n)
    ensures newGrid != grid
    ensures newGrid.Length0 == n && newGrid.Length1 == n
    ensures Cells(newGrid) == Step(Cells(grid), n)
  {
    ghost var g := Cells(grid);
    newGrid := new int[n, n]((r, c) requires 0 <= r < n && 0 <= c < n reads grid => grid[r, c]);
    var i := 0;
    while i < n
      invariant 0 <= i <= n
      invariant forall r, c {:trigger newGrid[r, c]} :: 0 <= r < n && 0 <= c < n ==>
        newGrid[r, c] == if r < i then NextCell(g, n, r, c) else g[r][c]
    {
      var j := 0;
      while j < n
        invariant 0 <= j <= n
        invariant forall r, c {:trigger newGrid[r, c]} :: 0 <= r < n && 0 <= c < n ==>
          newGrid[r, c] == if r < i || (r == i && c < j) then NextCell(g, n, r, c) else g[r][c]
      {
        ApplyRule(grid, newGrid, n, i, j);
        j := j + 1;
      }
      i := i + 1;
    }
    CellsAre(newGrid, Step(g, n), n);
  }

  /**
   * `update`: compute the next generation into a separate buffer, then copy
   * it back over the caller's grid (`grid[:] = newGrid[:]`).
   */
  method Update(grid: array2<int>, n: int)
    requires n >= 1 && grid.Length0 == n && grid.Length1 == n
    requires IsLifeGrid(Cells(grid), n)
    modifies grid
    ensures Cells(grid) == Step(old(Cells(grid)), n)
    ensures IsLifeGrid(Cells(grid), n)
  {
    var newGrid := NextGeneration(grid, n);
    forall r, c | 0 <= r < n && 0 <= c < n {
      grid[r, c] := newGrid[r, c];
    }
    CellsAre(grid, Cells(newGrid), n);
  }
}
