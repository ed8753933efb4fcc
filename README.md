# Conway's Game of Life on a torus — a Dafny model

`conway.py` runs Conway's Game of Life on an N×N grid whose rows and columns
wrap around, so the grid is a torus. Each cell holds `ON = 255` or `OFF = 0`.
This project models the core of that program:

- **`update`**, one generation. It copies the grid into a second buffer. It
  then visits every cell in row-major order and adds up the eight
  neighbour reads, taking both indices mod N. It divides the sum by 255,
  applies the survival/death/birth rule reading only the old grid, and
  finally copies the buffer back over the caller's grid.
- **The two pattern stamps.** `addGlider` writes a 3×3 glider and
  `addGosperGliderGun` an 11×38 Gosper glider gun with 36 live cells. Each
  overwrites the rectangle anchored at `(i, j)` and nothing else.
- **Start-up in `main`.** The grid side is the requested size when it
  exceeds 8 and 100 otherwise. The initial grid is a glider at (1, 1), the
  gun at (10, 10), or a random fill.

Modules:

- `Grid`: the cell values, the grid predicates, toroidal index wrapping,
  and the view `Cells` of an `array2<int>` as rows of values.
- `Life`: the specification of one generation (`LiveNeighbours`,
  `NextCell`, `Step`) and the imperative `update` proved against it
  (`CountNeighbours`, `ApplyRule`, `NextGeneration`, `Update`).
- `LifeFacts`: consequences of the rule on concrete patterns. A lone cell
  dies on every torus, and the 2×2 block is a still life.
- `Patterns`: the glider and gun tables, their shape lemmas, and the stamp
  methods.
- `Setup`: the grid-size rule and the seeding policy of `main`.
- `Wrappers`: `Option` and `Result`.

The model keeps the counting with repetition of `update`'s sum in
conway.py. On a torus smaller than 3×3, several of the eight reads hit the
same cell, and each read counts. On a 1×1 torus a live cell therefore sees
8 live neighbours.

A stamp that does not fit makes numpy's slice assignment raise an error,
because the 11×38 block cannot be broadcast into the clipped slice. So
`Setup.GunSeed` returns `Err(GunDoesNotFit)` for every side below 48, and
the stamp methods require the block to fit.

## Model

| member | source | states |
|---|---|---|
| Grid.Wrap | conway.py:68-71 | `k % N` for a positive N lies in 0..N-1, leaves in-range indices alone, maps -1 to N-1 and N to 0 (Python's `%` with a positive modulus) |
| Life.Live | conway.py:68-71 | a read contributes 1 exactly when it is ON, and for an ON/OFF value the value is 255 times that contribution |
| Life.LiveNeighbours | conway.py:68-71 | the number of ON reads among the eight toroidal neighbour positions, counted per read, is at most 8 |
| Life.NextCell | conway.py:62-78 | the new cell is ON iff (old ON and 2 <= count <= 3) or (old not ON and count == 3); a changed cell died (ON, count < 2 or > 3, now OFF) or was born (not ON, count 3, now ON); ON/OFF stays ON/OFF |
| Life.Step | conway.py:62-78 | the next generation has the same N×N shape, each cell is `NextCell` of the old grid alone, and an ON/OFF grid stays ON/OFF |
| Life.CountNeighbours | conway.py:68-71 | the sum of the eight wrapped reads divided by 255 equals the live-neighbour count |
| Life.ApplyRule | conway.py:68-78 | after the rule for (i, j), the buffer cell is `NextCell` of the old grid and every other buffer cell is unchanged |
| Life.NextGeneration | conway.py:62-78 | the filled buffer is a separate N×N array equal to `Step` of the old grid, so no cell reads a value written in the same pass |
| Life.Update | conway.py:59-81 | after the copy-back the caller's grid equals `Step` of its old contents and is still an N×N ON/OFF grid |
| LifeFacts.LoneNeighbours | conway.py:68-71 | around a lone live cell no cell has exactly 3 live neighbours, and the lone cell has fewer than 2 or more than 3, for every N >= 1 |
| LifeFacts.LoneCellDies | conway.py:62-78 | one generation turns a grid with a single live cell into the empty grid on every torus |
| LifeFacts.BlockNeighbours | conway.py:68-71 | around a 2×2 block anchored anywhere (wrapping at the edges) the count is the product of the row and column window hits less the cell itself, and it is 3 exactly on the block |
| LifeFacts.BlockIsStill | conway.py:62-78 | a 2×2 block at any anchor (a, b), wrapping at the edges, is unchanged by one generation on every torus of side at least 4 |
| Patterns.BlockOfCount | conway.py:32-54 | for an ascending in-block list of offsets, the block's live cells are exactly those offsets and there are as many as listed |
| Patterns.GliderShape | conway.py:24-26 | the glider is 3×3, ON exactly at (0,2), (1,0), (1,2), (2,1), (2,2) and OFF elsewhere, with 5 live cells |
| Patterns.GunShape | conway.py:32-54 | the gun, built as `addGosperGliderGun` builds it (a zero 11×38 block with the listed cells set to 255), is 11×38, ON exactly at the 36 listed offsets and OFF elsewhere, with 36 distinct live cells |
| Patterns.Stamp | conway.py:27 | slice assignment: the rectangle at (i, j) holds the block and every cell outside it keeps its old value |
| Patterns.AddGlider | conway.py:22-27 | with the 3×3 block inside the grid, the cells at (i, j) are ON exactly at the glider offsets and OFF elsewhere in the block; the rest of the grid is unchanged |
| Patterns.AddGosperGliderGun | conway.py:30-56 | with the 11×38 block inside the grid, the block holds the gun and the rest of the grid is unchanged |
| Setup.GridSize | conway.py:100-102 | the side is the request when it exceeds 8, is 100 otherwise, and is always at least 9 |
| Setup.GliderSeed | conway.py:112-114 | a fresh N×N grid that is ON exactly at the glider offsets shifted by (1, 1) and OFF elsewhere |
| Setup.GunSeed | conway.py:115-117 | succeeds iff N >= 48; the fresh N×N grid holds the gun at (10, 10) and OFF elsewhere |
| Setup.NoiseSeed | conway.py:118-120 | the fresh N×N grid holds exactly the given random fill |
| Setup.Seed | conway.py:110-120 | `--glider` wins over `--gosper`; each mode yields the grid of its helper, and every grid that is built is N×N and ON/OFF |

## Left out

- `randomGrid` (conway.py:17-19) draws from numpy's random generator with weights 0.2/0.8. The model takes its result as the `noise` parameter of `Setup.Seed`, which must be an N×N ON/OFF grid.
- Rendering and animation are not modelled, because they are callbacks into matplotlib. This covers `img.set_data`, the returned `img` tuple, `plt.subplots`, `imshow`, `FuncAnimation` and `plt.show`.
- Video export with `ani.save` and ffmpeg is file I/O through an external encoder.
- Argument parsing and the `int(...)` conversions are not modelled. `Setup.GridSize` takes the parsed request as an `Option<int>`, `None` when the flag is absent or empty. A string that does not parse is not modelled, and neither is `--interval`.
- Floating point is not modelled. In glider and gun mode numpy holds the grid as floats and `update` divides by 255 in floating point before `int()`. The model uses the integers 0 and 255; for sums of those values the quotient is exact.
- The unused `frameNum` parameter and the `frames` and `save_count` animation settings are driver concerns.
- Life.CountNeighbours: the count is proved only for grids whose every cell is ON or OFF, which every grid the program builds is; other values are not modelled.
- Patterns.Stamp: a negative anchor is excluded by `requires`. numpy would read it as counted from the end of the axis, and the program only anchors at (1, 1) and (10, 10).
- Patterns.AddGosperGliderGun: its contract states the block as `GosperGun()`. The 36 offsets and the OFF cells around them are stated by `Patterns.GunShape`, not repeated in the method's own contract.
- No glider translation or gun emission over several generations is proved; the model proves one generation against `Life.Step` and checks the rule on the lone-cell and block patterns.
