/**
 * The pattern stamps of conway.py: the glider and the Gosper glider gun as
 * fixed blocks, and the slice assignment that writes a block into the grid
 * at an anchor.
 */
module Patterns {
  import opened Grid

  /** `b` is an h×w block: h rows of w cells each. */
  predicate IsBlock(b: seq<seq<int>>, h: int, w: int) {
    |b| == h && forall r :: 0 <= r < h ==> |b[r]| == w
  }

  /** The offsets of the ON cells of an h×w block. */
  function LiveCells(b: seq<seq<int>>, h: int, w: int): set<(int, int)>
    requires IsBlock(b, h, w)
  {
    set r, c | 0 <= r < h && 0 <= c < w && b[r][c] == ON :: (r, c)
  }

  /** The distinct elements of a sequence. */
  function Elems<T>(s: seq<T>): set<T> {
    set x | x in s
  }

  /** No element of `s` occurs twice. */
  predicate Distinct<T(==)>(s: seq<T>) {
    forall a, b :: 0 <= a < b < |s| ==> s[a] != s[b]
  }

  /** A sequence without repetitions has as many distinct elements as it is long. */
  lemma {:induction false} DistinctCount<T>(s: seq<T>)
    requires Distinct(s)
    ensures |Elems(s)| == |s|
  {
    if s != [] {
      assert Distinct(s[1..]) by {
        forall a, b | 0 <= a < b < |s| - 1 ensures s[1..][a] != s[1..][b] {
          assert s[1..][a] == s[a + 1] && s[1..][b] == s[b + 1];
        }
      }
      DistinctCount(s[1..]);
      assert Elems(s) == {s[0]} + Elems(s[1..]);
      assert s[0] !in Elems(s[1..]);
    }
  }

  /** Row-major order on offsets. */
  predicate Before(p: (int, int), q: (int, int)) {
    p.0 < q.0 || (p.0 == q.0 && p.1 < q.1)
  }

  /** Each offset comes strictly before the next one in row-major order. */
  predicate Ascending(s: seq<(int, int)>) {
    |s| < 2 || (Before(s[0], s[1]) && Ascending(s[1..]))
  }

  /** In an ascending sequence every earlier offset comes before every later one. */
  lemma {:induction false} AscendingBefore(s: seq<(int, int)>, a: int, b: int)
    requires Ascending(s) && 0 <= a < b < |s|
    ensures Before(s[a], s[b])
  {
    if a > 0 {
      AscendingBefore(s[1..], a - 1, b - 1);
    } else if b > 1 {
      AscendingBefore(s[1..], 0, b - 1);
    }
  }

  /** An ascending sequence of offsets has no repetitions. */
  lemma AscendingDistinct(s: seq<(int, int)>)
    requires Ascending(s)
    ensures Distinct(s)
  {
    forall a, b | 0 <= a < b < |s| ensures s[a] != s[b] {
      AscendingBefore(s, a, b);
    }
  }

  /**
   * An h×w block that is OFF except at the listed offsets, which are ON: a
   * zero-filled array with one assignment of 255 per listed cell.
   */
  function BlockOf(h: nat, w: nat, live: seq<(int, int)>): (b: seq<seq<int>>)
    ensures IsBlock(b, h, w)
  {
    seq(h, r => seq(w, c => if (r, c) in live then ON else OFF))
  }

  /** A cell of `BlockOf` is ON exactly when its offset is listed. */
  lemma BlockOfCells(h: nat, w: nat, live: seq<(int, int)>)
    ensures forall r, c :: 0 <= r < h && 0 <= c < w ==> (BlockOf(h, w, live)[r][c] == ON <==> (r, c) in live)
  {
  }

  /** Every offset of `live` lies inside an h×w block. */
  predicate InBox(live: seq<(int, int)>, h: int, w: int) {
    forall k :: 0 <= k < |live| ==> 0 <= live[k].0 < h && 0 <= live[k].1 < w
  }

  /** Every cell of `BlockOf` is ON or OFF. */
  lemma BlockOfValues(h: nat, w: nat, live: seq<(int, int)>)
    ensures forall r, c :: 0 <= r < h && 0 <= c < w ==> BlockOf(h, w, live)[r][c] in {ON, OFF}
  {
  }

  /** The live cells of `BlockOf` are exactly the listed offsets when they all lie in the block. */
  lemma BlockOfLiveCells(h: nat, w: nat, live: seq<(int, int)>)
    requires InBox(live, h, w)
    ensures LiveCells(BlockOf(h, w, live), h, w) == Elems(live)
  {
  }

  /** A block built from ascending in-block offsets has one live cell per offset. */
  lemma BlockOfCount(h: nat, w: nat, live: seq<(int, int)>)
    requires Ascending(live) && InBox(live, h, w)
    ensures LiveCells(BlockOf(h, w, live), h, w) == Elems(live)
    ensures |LiveCells(BlockOf(h, w, live), h, w)| == |live|
  {
    BlockOfLiveCells(h, w, live);
    AscendingDistinct(live);
    DistinctCount(live);
  }

  /** The offsets of the glider's live cells. */
  const GliderOffsets: seq<(int, int)> := [(0, 2), (1, 0), (1, 2), (2, 1), (2, 2)]

  /** The 3×3 glider as written out in `addGlider`, row by row. */
  function Glider(): seq<seq<int>> {
    [[OFF, OFF, ON],
     [ON, OFF, ON],
     [OFF, ON, ON]]
  }

  /** The glider is OFF except at its five listed offsets, which are ON. */
  lemma GliderShape()
    ensures IsBlock(Glider(), 3, 3)
    ensures forall r, c :: 0 <= r < 3 && 0 <= c < 3 ==>
      (Glider()[r][c] == ON <==> (r, c) in GliderOffsets) && (Glider()[r][c] == ON || Glider()[r][c] == OFF)
    ensures LiveCells(Glider(), 3, 3) == Elems(GliderOffsets)
    ensures |LiveCells(Glider(), 3, 3)| == 5
  {
    var g := Glider();
    forall p | p in LiveCells(g, 3, 3) ensures p in Elems(GliderOffsets) {
      assert g[p.0][p.1] == ON;
    }
    forall p | p in Elems(GliderOffsets) ensures p in LiveCells(g, 3, 3) {
      assert g[p.0][p.1] == ON;
    }
    AscendingDistinct(GliderOffsets);
    DistinctCount(GliderOffsets);
  }

  /** The live cells of the Gosper glider gun, one constant per row (rows 0 and 10 are empty). */
  const GunRow1: seq<(int, int)> := [(1, 25)]
  const GunRow2: seq<(int, int)> := [(2, 23), (2, 25)]
  const GunRow3: seq<(int, int)> := [(3, 13), (3, 14), (3, 21), (3, 22), (3, 35), (3, 36)]
  const GunRow4: seq<(int, int)> := [(4, 12), (4, 16), (4, 21), (4, 22), (4, 35), (4, 36)]
  const GunRow5: seq<(int, int)> := [(5, 1), (5, 2), (5, 11), (5, 17), (5, 21), (5, 22)]
  const GunRow6: seq<(int, int)> := [(6, 1), (6, 2), (6, 11), (6, 15), (6, 17), (6, 18), (6, 23), (6, 25)]
  const GunRow7: seq<(int, int)> := [(7, 11), (7, 17), (7, 25)]
  const GunRow8: seq<(int, int)> := [(8, 12), (8, 16)]
  const GunRow9: seq<(int, int)> := [(9, 13), (9, 14)]

  /** The offsets of the Gosper glider gun's 36 live cells, in row-major order. */
  const GunOffsets: seq<(int, int)> :=
    GunRow1 + GunRow2 + GunRow3 + GunRow4 + GunRow5 + GunRow6 + GunRow7 + GunRow8 + GunRow9

  /** The 11×38 Gosper glider gun block of `addGosperGliderGun`. */
  function GosperGun(): seq<seq<int>> {
    BlockOf(11, 38, GunOffsets)
  }

  /**
   * Joining two ascending in-block runs, the second starting on a later row
   * than the first ends on, gives an ascending in-block run.
   */
  lemma {:induction false} AscendingJoin(a: seq<(int, int)>, b: seq<(int, int)>, h: int, w: int)
    requires Ascending(a) && Ascending(b) && InBox(a, h, w) && InBox(b, h, w)
    requires a != [] && b != [] && a[|a| - 1].0 < b[0].0
    ensures Ascending(a + b) && InBox(a + b, h, w)
    ensures (a + b)[|a + b| - 1] == b[|b| - 1]
  {
    assert (a + b)[1..] == a[1..] + b;
    if |a| > 1 {
      AscendingJoin(a[1..], b, h, w);
    }
  }

  /** Rows 1 to 4 of the gun list their cells left to right, inside the 11×38 block. */
  lemma GunUpperRows()
    ensures Ascending(GunRow1) && Ascending(GunRow2) && Ascending(GunRow3) && Ascending(GunRow4)
    ensures InBox(GunRow1, 11, 38) && InBox(GunRow2, 11, 38) && InBox(GunRow3, 11, 38) && InBox(GunRow4, 11, 38)
  {
  }

  /** Row 5 of the gun lists its cells left to right, inside the 11×38 block. */
  lemma GunRowFive()
    ensures Ascending(GunRow5) && InBox(GunRow5, 11, 38)
  {
  }

  /** Row 6 of the gun lists its cells left to right, inside the 11×38 block. */
  lemma GunRowSix()
    ensures Ascending(GunRow6) && InBox(GunRow6, 11, 38)
  {
  }

  /** Rows 7 to 9 of the gun list their cells left to right, inside the 11×38 block. */
  lemma GunLowerRows()
    ensures Ascending(GunRow7) && Ascending(GunRow8) && Ascending(GunRow9)
    ensures InBox(GunRow7, 11, 38) && InBox(GunRow8, 11, 38) && InBox(GunRow9, 11, 38)
  {
  }

  /** The listed gun offsets are in row-major order and lie inside the 11×38 block. */
  lemma GunOffsetsAscending()
    ensures Ascending(GunOffsets) && InBox(GunOffsets, 11, 38)
  {
    GunUpperRows();
    GunRowFive();
    GunRowSix();
    GunLowerRows();
    AscendingJoin(GunRow1, GunRow2, 11, 38);
    AscendingJoin(GunRow1 + GunRow2, GunRow3, 11, 38);
    AscendingJoin(GunRow1 + GunRow2 + GunRow3, GunRow4, 11, 38);
    AscendingJoin(GunRow1 + GunRow2 + GunRow3 + GunRow4, GunRow5, 11, 38);
    AscendingJoin(GunRow1 + GunRow2 + GunRow3 + GunRow4 + GunRow5, GunRow6, 11, 38);
    AscendingJoin(GunRow1 + GunRow2 + GunRow3 + GunRow4 + GunRow5 + GunRow6, GunRow7, 11, 38);
    AscendingJoin(GunRow1 + GunRow2 + GunRow3 + GunRow4 + GunRow5 + GunRow6 + GunRow7, GunRow8, 11, 38);
    AscendingJoin(GunRow1 + GunRow2 + GunRow3 + GunRow4 + GunRow5 + GunRow6 + GunRow7 + GunRow8, GunRow9, 11, 38);
  }

  /** The gun block has exactly 36 live cells: its listed offsets, all inside the block and all different. */
  lemma GunShape()
    ensures IsBlock(GosperGun(), 11, 38)
    ensures forall r, c :: 0 <= r < 11 && 0 <= c < 38 ==>
      (GosperGun()[r][c] == ON <==> (r, c) in GunOffsets) && (GosperGun()[r][c] in {ON, OFF})
    ensures LiveCells(GosperGun(), 11, 38) == Elems(GunOffsets)
    ensures |LiveCells(GosperGun(), 11, 38)| == 36
  {
    BlockOfCells(11, 38, GunOffsets);
    BlockOfValues(11, 38, GunOffsets);
    GunOffsetsAscending();
    BlockOfCount(11, 38, GunOffsets);
  }

  /**
   * Slice assignment `grid[i:i + h, j:j + w] = block`: the h×w rectangle
   * anchored at (i, j) takes the block's values and every other cell keeps
   * its own. The rectangle must lie inside the grid.
   */
  method Stamp(grid: array2<int>, i: int, j: int, block: seq<seq<int>>, h: nat, w: nat)
    requires IsBlock(block, h, w)
    requires 0 <= i && i + h <= grid.Length0 && 0 <= j && j + w <= grid.Length1
    modifies grid
    ensures forall r, c :: 0 <= r < grid.Length0 && 0 <= c < grid.Length1 ==>
      grid[r, c] == if i <= r < i + h && j <= c < j + w then block[r - i][c - j] else old(grid[r, c])
  {
    forall r, c | i <= r < i + h && j <= c < j + w {
      grid[r, c] := block[r - i][c - j];
    }
  }

  /**
   * `addGlider`: writes the glider with its top-left cell at (i, j). Inside
   * the 3×3 rectangle exactly the five glider offsets are ON and the rest is
   * OFF; outside it nothing changes.
   */
  method AddGlider(i: int, j: int, grid: array2<int>)
    requires 0 <= i && i + 3 <= grid.Length0 && 0 <= j && j + 3 <= grid.Length1
    modifies grid
    ensures forall r, c :: i <= r < i + 3 && j <= c < j + 3 ==>
      (grid[r, c] == ON <==> (r - i, c - j) in GliderOffsets) && (grid[r, c] == ON || grid[r, c] == OFF)
    ensures forall r, c :: 0 <= r < grid.Length0 && 0 <= c < grid.Length1 && !(i <= r < i + 3 && j <= c < j + 3) ==>
      grid[r, c] == old(grid[r, c])
  {
    GliderShape();
    Stamp(grid, i, j, Glider(), 3, 3);
  }

  /**
   * `addGosperGliderGun`: writes the gun with its top-left cell at (i, j).
   * The 11×38 rectangle takes the gun block (whose contents `GunShape`
   * describes: ON at the 36 gun offsets, OFF elsewhere); outside it nothing
   * changes.
   */
  method AddGosperGliderGun(i: int, j: int, grid: array2<int>)
    requires 0 <= i && i + 11 <= grid.Length0 && 0 <= j && j + 38 <= grid.Length1
    modifies grid
    ensures forall r, c :: i <= r < i + 11 && j <= c < j + 38 ==> grid[r, c] == GosperGun()[r - i][c - j]
    ensures forall r, c :: 0 <= r < grid.Length0 && 0 <= c < grid.Length1 && !(i <= r < i + 11 && j <= c < j + 38) ==>
      grid[r, c] == old(grid[r, c])
  {
    Stamp(grid, i, j, GosperGun(), 11, 38);
  }
}
