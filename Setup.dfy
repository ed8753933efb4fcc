/**
 * The start-up policy of `main` in conway.py: the grid size it settles on
 * and the initial grid it builds from the seeding flags.
 */
module Setup {
  import opened Wrappers
  import opened Grid
  import opened Patterns

  /** The grid side used when no usable size is requested. */
  const DefaultSize: int := 100

  /**
   * The grid side `main` settles on. `requested` is the parsed
   * `--grid-size` value, `None` when the flag is absent or empty. A request
   * of more than 8 is taken as it is; anything else falls back to 100.
   */
  function GridSize(requested: Option<int>): (n: int)
    ensures n > 8
    ensures requested.Some? && requested.value > 8 ==> n == requested.value
    ensures n != DefaultSize ==> requested == Some(n)
  {
    if requested.Some? && requested.value > 8 then requested.value else DefaultSize
  }

  /** Why no initial grid could be built. */
  datatype SeedError =
    /** The 11×38 gun anchored at (10, 10) overruns the grid (numpy refuses the slice assignment). */
    | GunDoesNotFit

  /** A zero n×n grid with a glider stamped at (1, 1) (`--glider`). */
  method GliderSeed(n: int) returns (grid: array2<int>)
    requires n > 8
    ensures fresh(grid) && grid.Length0 == n && grid.Length1 == n
    ensures forall r, c :: 0 <= r < n && 0 <= c < n ==>
      (grid[r, c] == ON <==> (r - 1, c - 1) in GliderOffsets) && (grid[r, c] == ON || grid[r, c] == OFF)
  {
    grid := new int[n, n]((r, c) => OFF);
    AddGlider(1, 1, grid);
  }

  /**
   * A zero n×n grid with the glider gun stamped at (10, 10) (`--gosper`),
   * or `GunDoesNotFit` when the 11×38 block overruns the grid.
   */
  method GunSeed(n: int) returns (res: Result<array2<int>, SeedError>)
    requires n > 8
    ensures res.Ok? <==> n >= 48
    ensures res.Ok? ==> fresh(res.value) && res.value.Length0 == n && res.value.Length1 == n
    ensures res.Ok? ==> forall r, c :: 0 <= r < n && 0 <= c < n ==>
      res.value[r, c] == if 10 <= r < 21 && 10 <= c < 48 then GosperGun()[r - 10][c - 10] else OFF
    ensures res.Ok? ==> IsLifeGrid(Cells(res.value), n)
  {
    var grid := new int[n, n]((r, c) => OFF);
    if 10 + 11 <= n && 10 + 38 <= n {
      AddGosperGliderGun(10, 10, grid);
      BlockOfValues(11, 38, GunOffsets);
      forall r, c | 0 <= r < n && 0 <= c < n
        ensures grid[r, c] == ON || grid[r, c] == OFF
      {
        if 10 <= r < 21 && 10 <= c < 48 {
          assert grid[r, c] == GosperGun()[r - 10][c - 10];
        }
      }
      res := Ok(grid);
    } else {
      res := Err(GunDoesNotFit);
    }
  }

  /** The grid holding the random fill `noise` (neither flag). */
  method NoiseSeed(n: int, noise: seq<seq<int>>) returns (grid: array2<int>)
    requires n > 8
    requires IsLifeGrid(noise, n)
    ensures fresh(grid) && grid.Length0 == n && grid.Length1 == n
    ensures Cells(grid) == noise
  {
    grid := new int[n, n]((r, c) requires 0 <= r < n && 0 <= c < n => noise[r][c]);
    CellsAre(grid, noise, n);
  }

  /**
   * The initial grid of `main`. With `--glider` (which wins over
   * `--gosper`) a zero grid with a glider at (1, 1); with `--gosper` a zero
   * grid with the glider gun at (10, 10), which needs n >= 48; with neither,
   * the random fill `noise` that `randomGrid` drew.
   */
  method Seed(n: int, glider: bool, gosper: bool, noise: seq<seq<int>>) returns (res: Result<array2<int>, SeedError>)
    requires n > 8
    requires IsLifeGrid(noise, n)
    ensures res.Ok? ==> fresh(res.value) && res.value.Length0 == n && res.value.Length1 == n
    ensures res.Ok? ==> IsLifeGrid(Cells(res.value), n)
    ensures glider ==> res.Ok? && forall r, c :: 0 <= r < n && 0 <= c < n ==>
      (res.value[r, c] == ON <==> (r - 1, c - 1) in GliderOffsets)
    ensures !glider && gosper ==> (res.Ok? <==> n >= 48)
    ensures !glider && gosper && res.Ok? ==> forall r, c :: 0 <= r < n && 0 <= c < n ==>
      res.value[r, c] == if 10 <= r < 21 && 10 <= c < 48 then GosperGun()[r - 10][c - 10] else OFF
    ensures !glider && !gosper ==> res.Ok? && Cells(res.value) == noise
  {
    if glider {
      var grid := GliderSeed(n);
      CellsAre(grid, Cells(grid), n);
      res := Ok(grid);
    } else if gosper {
      res := GunSeed(n);
    } else {
      var grid := NoiseSeed(n, noise);
      res := Ok(grid);
    }
  }
}
