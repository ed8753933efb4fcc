/**
 * The cell grid of conway.py: cell values, the N×N shape and the toroidal
 * index arithmetic shared by the stepper and the pattern stamps.
 */
module Grid {
  /** A live cell (the grid doubles as a grey-scale image). */
  const ON: int := 255
  /** A dead cell. */
  const OFF: int := 0

  /** `g` is an n×n grid: n rows of n cells each. */
  predicate IsGrid(g: seq<seq<int>>, n: int) {
    |g| == n && forall i :: 0 <= i < n ==> |g[i]| == n
  }

  /** `g` is an n×n grid whose every cell is ON or OFF. */
  predicate IsLifeGrid(g: seq<seq<int>>, n: int) {
    IsGrid(g, n) && forall i, j :: 0 <= i < n && 0 <= j < n ==> g[i][j] == ON || g[i][j] == OFF
  }

  /**
   * Python's `k % n` for a positive modulus: the result is never negative,
   * which is what Dafny's Euclidean `%` gives as well.
   */
  function Wrap(k: int, n: int): (r: int)
    requires n > 0
    ensures 0 <= r < n
    ensures 0 <= k < n ==> r == k
    ensures k == -1 ==> r == n - 1
    ensures k == n ==> r == 0
  {
    k % n
  }

  /** The contents of a two-dimensional array, row by row. */
  ghost function Cells(a: array2<int>): (g: seq<seq<int>>)
    reads a
    ensures |g| == a.Length0
    ensures forall i :: 0 <= i < a.Length0 ==> |g[i]| == a.Length1
    ensures forall i, j :: 0 <= i < a.Length0 && 0 <= j < a.Length1 ==> g[i][j] == a[i, j]
  {
    seq(a.Length0, i requires 0 <= i < a.Length0 reads a =>
      seq(a.Length1, j requires 0 <= j < a.Length1 reads a => a[i, j]))
  }

  /** An array whose every cell matches the n×n grid `g` has `g` as its contents. */
  lemma CellsAre(a: array2<int>, g: seq<seq<int>>, n: int)
    requires a.Length0 == n && a.Length1 == n && IsGrid(g, n)
    requires forall i, j :: 0 <= i < n && 0 <= j < n ==> a[i, j] == g[i][j]
    ensures Cells(a) == g
  {
    var ga := Cells(a);
    forall i | 0 <= i < n ensures ga[i] == g[i] {
      assert |ga[i]| == |g[i]|;
      forall j | 0 <= j < n ensures ga[i][j] == g[i][j] { }
    }
  }
}
