# Soma-style cube packer in Dafny

A model of `blocks.py`, a small backtracking solver. It packs polycube
pieces into a 3×3×3 box. Each piece is a list of integer cell offsets. It is
turned by two 90-degree rotation matrices (`Rx` about X, `Rz` about Z), and a
generator walks it through the 24 orientations of a cube. The box is a 0/1
grid with a two-stage placement check: bounds first, then overlap. `solve`
pops the last remaining piece and tries it at every empty anchor cell in
raster order (i, then j, then k), in every orientation. It recurses on a
copy of the state and returns the first solved state it finds. If none is
found, it returns its input with that piece gone.

Modules, one per part of the program:

- `Geometry` (geometry.dfy): cell vectors and the rotation matrices. Every
  matrix the program builds is a product of `Rx` and `Rz`, so it is a signed
  permutation matrix. It is stored row by row as the column of the row's
  single ±1 entry and its sign. `Entry`, `ApplyByEntries`, `DetByEntries`
  and `OrthogonalByEntries` tie this form to the integer matrices and to
  numpy's products.
- `Blocks` (blocks.dfy): the piece, `roll`, `turn`, and the `rotations`
  generator. The generator is a fixed program of roll, turn and emit steps.
  `Run` interprets it on offsets or on matrices. Run on the identity matrix,
  it passes through the 24 matrices of `OrientationTable`, which are exactly
  the 24 proper rotations. A complete pass returns the piece to where it
  started.
- `Boxes` (boxes.dfy): the 27-cell grid, `validate_placement` (the first bad
  offset decides the error) and `place`.
- `Search` (search.dfy): the game state and `solve`. The nested loops are the
  mutually recursive functions `TryAnchors` (anchor loop), `TryOrientations`
  (orientation loop) and `Attempt` (one trial).

## Model

| member | source | states |
|---|---|---|
| Geometry.ApplyByEntries | blocks.py:37 | the signed-permutation product equals the integer product `m @ v` entry by entry |
| Geometry.PrimitivesAreProper | blocks.py:7-17 | `Rx` and `Rz` (and the identity) are proper rotations; `Rx` and `Rz` have order exactly four |
| Geometry.DetByEntries | blocks.py:7-17 | the determinant of the stored form equals the cofactor expansion of its integer entries |
| Geometry.OrthogonalByEntries | blocks.py:7-17 | a stored matrix has rows in three distinct columns exactly when `m @ m.T` is the identity on its integer entries |
| Geometry.ApplyCompose | blocks.py:36-42 | multiplying by a product is multiplying by each factor in turn, so repeated `Rx @`/`Rz @` updates equal one product matrix |
| Blocks.TransformCompose | blocks.py:36-42 | multiplying every offset by `a @ m` is multiplying by `m` and then by `a` |
| Blocks.TransformIdentity | blocks.py:36-42 | multiplying every offset by the identity leaves the offsets as they are |
| Blocks.Roll | blocks.py:36-38 | each offset (x, y, z) becomes (x, -z, y); name, anchor and size are unchanged |
| Blocks.Turn | blocks.py:40-42 | each offset (x, y, z) becomes (-y, x, z); name, anchor and size are unchanged |
| Blocks.QuarterTurns | blocks.py:36-42 | four rolls, or four turns, give back the original piece |
| Blocks.Rotations | blocks.py:44-55 | the generator yields exactly 24 shapes, each with the piece's number of cells |
| Blocks.RunAppend | blocks.py:44-55 | running two step programs in sequence concatenates their outputs and threads the state |
| Blocks.RunStep | blocks.py:47-52 | one pass of the inner loop yields the shape after one roll and then after each of three turns |
| Blocks.RunRealign | blocks.py:53-55 | the roll, turn, roll between cycles yields nothing and applies the three moves |
| Blocks.RunCycle | blocks.py:46-55 | one outer cycle yields the three inner passes' shapes in order and ends after the realignment |
| Blocks.TableStep | blocks.py:47-52 | the four matrices of inner pass `k` are one roll and then three successive turns of the matrix the pass starts from |
| Blocks.StepTrace | blocks.py:47-52 | inner pass `k` yields its four matrices and ends at the last of them |
| Blocks.FirstCycle | blocks.py:46-55 | the first outer cycle from the identity yields passes 0 to 2 and ends at the realigned matrix |
| Blocks.SecondCycle | blocks.py:46-55 | the second outer cycle yields passes 3 to 5 and ends back at the identity |
| Blocks.OrientationsTrace | blocks.py:44-55 | the generator run on matrices from the identity passes through the 24 table matrices and ends at the identity |
| Blocks.RunTransform | blocks.py:36-42 | running the steps on offsets equals running them on matrices and multiplying the offsets by each matrix |
| Blocks.RunRotations | blocks.py:44-55 | the generator yields the piece times each table matrix in order and leaves the offsets unchanged |
| Blocks.RotationsByTable | blocks.py:44-55 | yielded shape `i` is table matrix `i` times the piece; an exhausted generator leaves the piece as it was |
| Blocks.OrientationTableIsRotationGroup | blocks.py:45 | the 24 matrices are proper, pairwise distinct, and include every proper rotation: the 24 unique 3D rotations |
| Blocks.RotationsAreRigid | blocks.py:44-55 | every yielded shape keeps all pairwise squared distances and the reference cell; the piece's own shape is yielded |
| Blocks.SingleCubeRepeats | blocks.py:44-55 | the generator's uniqueness is about matrices: a one-cube piece yields the same shape 24 times |
| Boxes.Empty | blocks.py:58-59 | a new box is a 0/1 grid with no filled cell: `num_filled` is 0 and `is_filled` is false |
| Boxes.IndexCellAt | blocks.py:109-111 | raster position n and cell (n/9, n/3 mod 3, n mod 3) are inverse, so the loops visit each cell once |
| Boxes.AllCellsInBounds | blocks.py:109-111 | the cells the anchor loops visit are exactly the in-bounds cells |
| Boxes.FilledSetMember | blocks.py:69-70 | a cell is in the filled set exactly when it is in bounds and `coord_is_filled` is non-zero |
| Boxes.SumZeroOne | blocks.py:65-67 | a 0/1 sequence sums to between 0 and its length, and to its length exactly when all entries are 1 |
| Boxes.FilledIffCount | blocks.py:61-67 | on a 0/1 grid, `is_filled` holds iff `num_filled` is 27 iff every cell is filled |
| Boxes.Absolute | blocks.py:73-74 | each absolute cell minus the anchor gives back its offset, in order |
| Boxes.ValidatePlacement | blocks.py:72-78 | passes iff every absolute cell is in bounds and empty; otherwise the first bad offset gives the error: out of bounds iff it lies outside the box, else already filled |
| Boxes.Commit | blocks.py:82-84 | writing 1 to each cell in turn sets exactly the listed cells and keeps every other cell |
| Boxes.Place | blocks.py:80-84 | succeeds iff validation passes; a refusal carries the validation error and writes nothing; a success sets exactly the piece's cells to 1 |
| Boxes.PlaceFills | blocks.py:80-84 | an accepted placement's cells lie in the box and were empty; the filled set grows by exactly them; a 0/1 grid stays 0/1 |
| Search.DecimalValue | blocks.py:88 | the digits in a piece's name `B<i>` read back as the number `i` |
| Search.NewGame | blocks.py:87-90 | piece i is a new block with the i-th offsets, named `B` plus i; a new game already satisfies the invariant and is unsolved |
| Search.StartConsistent | blocks.py:87-90 | a state with an empty box and nothing placed, as a new game starts, is unsolved and satisfies the invariant |
| Search.Solve | blocks.py:106-127 | returns a solved or piece-less input as is; otherwise returns a solved state or the input with its last piece popped; keeps the invariant; the result descends from the input; a solved result has one placed piece per piece taken |
| Search.TryAnchors | blocks.py:109-126 | returns its input or a solved descendant of the state before the pop; keeps the invariant |
| Search.TryOrientations | blocks.py:116-126 | a reported state is solved, descends from the state before the pop and keeps the invariant |
| Search.FirstSomeOrder | blocks.py:116-126 | a first-present search over orientations is absent exactly when every entry is, and is otherwise the entry after only absent ones |
| Search.TryOrientationsIsFirst | blocks.py:116-126 | the orientation loop returns the first present trial of its row |
| Search.TryOrientationsOrder | blocks.py:116-126 | returns nothing iff every remaining orientation fails; otherwise the result of the first orientation that succeeds |
| Search.Attempt | blocks.py:117-124 | a refused placement reports nothing; a reported state is solved, descends from the state before the pop, keeps the invariant, and records the piece in orientation `o` at anchor `n` as the next placed piece |
| Search.TryAnchorsOrder | blocks.py:109-126 | the anchor loop returns the result of the first successful (anchor, orientation) trial in loop order, or its input when none succeeds |
| Search.SkippedAnchorHasNoSuccess | blocks.py:112-126 | at a filled anchor, or one where the orientation loop finds nothing, no trial succeeds and the anchor loop moves on |
| Search.FirstWinsAfterSkip | blocks.py:112-113 | a filled anchor, or one where every orientation fails, passes the search on to the next anchor |
| Search.FirstWinsAtTakenAnchor | blocks.py:116-124 | an empty anchor where some orientation succeeds ends the search with that anchor's first success |
| Search.SolveOrder | blocks.py:106-127 | `solve` returns the popped input when no trial of the popped piece succeeds; otherwise the result of its first success (anchor `m`, orientation `o`) in loop order, whose next placed piece is that piece in orientation `o` at anchor `m` |
| Search.FilledAnchorFails | blocks.py:112-113 | for a piece that contains its reference cell, no orientation fits at a filled anchor, so the skip loses nothing |
| Search.DescendsPop | blocks.py:108 | popping the last candidate is a descent that places nothing |
| Search.SolveStep | blocks.py:107-127 | the anchor loop's result, seen from before the pop, is solved or the popped input, and descends from the input |
| Search.TrialConsistent | blocks.py:119-121 | placing an accepted piece and recording it keeps the invariant: placed pieces in the box, disjoint, covering exactly the filled cells |
| Search.TrialDescends | blocks.py:119-122 | recording a placement of the popped piece before recursing extends the descent from the state before the pop |
| Search.SolvedIsTiling | blocks.py:92-94 | for a consistent state, `is_solved` holds iff the placed pieces cover all 27 cells, iff 27 cells are filled |
| Search.SolvedFromStart | blocks.py:106-127 | a solved descendant of a start state places the candidates from last to first, each in a generated orientation at an in-box anchor, and they tile the box |
| Search.SolveFromStart | blocks.py:106-127 | from an empty box with nothing placed, a solved result places pieces from the end of the list, one each, in generated orientations at in-box anchors, tiling the box; an unsolved result has an empty box and nothing placed |
| Search.SolveNewGame | blocks.py:180-183 | in a solution reported from a new game, the placed pieces are the pieces taken from the end of the list, one each, each in a generated orientation at an in-box anchor, and they tile the box without overlap; placed plus remaining pieces equals the list's length; with no solution the box is empty and nothing is placed |

## Left out

- `plot_solution`, `GameState.print`, `main`'s output and the `__main__` guard: they only do output (matplotlib, stdout).
- `Ry` and `Block.direction`: both are computed or updated, but no result ever reads them.
- `Block.__getitem__` and `Block.set_origin`: the offsets are a sequence indexed directly, and the anchor is set as part of each trial.
- The concrete pieces B1 to B6 and `block_list`: whether they admit a solution needs the exhaustive search run, not a proof. `FilledAnchorFails` uses only the fact that each piece lists offset (0, 0, 0).
- `deepcopy` and the in-place updates: the model uses values, so a trial state is a new value and the failed trial is simply dropped.
- The `rotations` generator's in-place mutation of the shared piece: `Solve` uses `Rotations` of the piece's original offsets at every anchor. `RotationsByTable` proves an exhausted generator leaves the piece unchanged. The only early exit is `return`, and that abandons the piece.
- Exceptions: each `IndexError` from `place` becomes a `Result` error. Nothing else in `solve` can raise one.
- Rotation matrices are not stored as integer arrays. They use the signed-permutation form; the `...ByEntries` lemmas relate it to the integer entries.
- A piece with no offsets: numpy would reject `Rx @` on an empty array. The model treats it as a piece with no cells.
- Blocks.Rotations: its contract states only the count and the sizes of the shapes. What each shape is comes in `Blocks.RotationsByTable`.
- Search.TryAnchors: its contract states soundness only. The first-success order is stated by `Search.TryAnchorsOrder`.
- Search.TryOrientations: its contract states soundness only. The first-success order is stated by `Search.TryOrientationsOrder`.
- Search.Solve: the search is not shown complete. Anchors outside the box are never tried, and neither are filled ones, so a piece without offset (0, 0, 0) could miss placements.
