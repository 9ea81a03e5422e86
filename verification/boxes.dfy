/** The 3x3x3 occupancy grid (blocks.py `Box`): 27 integer cells, 0 for
    empty and 1 for filled, stored in numpy's row-major order. */
module Boxes {
  import opened Geometry

  /** The cells of a 3x3x3 array, cell (i, j, k) at position 9i + 3j + k. */
  type Grid = s: seq<int> | |s| == 27 witness seq(27, n => 0)

  datatype Box = Box(cells: Grid)

  /** Why a placement is refused (the two `IndexError`s of
      blocks.py `Box.validate_placement`). */
  datatype PlacementError = OutOfBounds | AlreadyFilled

  datatype Outcome = Pass | Fail(error: PlacementError)

  datatype Result<T> = Ok(value: T) | Err(error: PlacementError)

  /** A new, empty box (blocks.py `Box.__init__`). */
  function Empty(): (b: Box)
    ensures forall n :: 0 <= n < 27 ==> b.cells[n] == 0
    ensures ZeroOne(b) && FilledSet(b) == {} && NumFilled(b) == 0 && !IsFilled(b)
  {
    var b := Box(seq(27, n => 0));
    SumZeros(b.cells);
    assert b.cells[0] != 1;
    b
  }

  /** Every coordinate lies in 0..2. */
  predicate InBounds(v: Vec) {
    0 <= v.x <= 2 && 0 <= v.y <= 2 && 0 <= v.z <= 2
  }

  /** The position of an in-bounds cell in the grid. */
  function Index(v: Vec): (n: nat)
    requires InBounds(v)
    ensures n < 27
  {
    9 * v.x + 3 * v.y + v.z
  }

  /** The cell at grid position `n`; positions run in raster order (i, j, k). */
  function CellAt(n: nat): (v: Vec)
    requires n < 27
    ensures InBounds(v)
  {
    Vec(n / 9, (n / 3) % 3, n % 3)
  }

  /** `Index` and `CellAt` are inverse to each other. */
  lemma IndexCellAt(n: nat, v: Vec)
    ensures n < 27 ==> Index(CellAt(n)) == n
    ensures InBounds(v) ==> CellAt(Index(v)) == v
  {
    if n < 27 {
      IndexOfCell(n);
    }
    if InBounds(v) {
      CellOfIndex(v);
    }
  }

  lemma IndexOfCell(n: nat)
    requires n < 27
    ensures Index(CellAt(n)) == n
  {
    var q, r := n / 9, n % 9;
    assert n == 9 * q + r;
    assert r == 3 * (r / 3) + r % 3;
    assert (n / 3) % 3 == r / 3 && n % 3 == r % 3;
  }

  lemma CellOfIndex(v: Vec)
    requires InBounds(v)
    ensures CellAt(Index(v)) == v
  {
    var r := 3 * v.y + v.z;
    assert 0 <= r < 9;
    assert Index(v) / 9 == v.x;
    assert Index(v) / 3 == 3 * v.x + v.y;
    assert Index(v) % 3 == v.z;
  }

  /** All 27 cells of the box. */
  function AllCells(): set<Vec> {
    set n | 0 <= n < 27 :: CellAt(n)
  }

  lemma AllCellsInBounds(v: Vec)
    ensures v in AllCells() <==> InBounds(v)
  {
    if InBounds(v) {
      IndexCellAt(Index(v), v);
    }
  }

  /** Cells hold only 0 or 1. */
  predicate ZeroOne(b: Box) {
    forall n :: 0 <= n < 27 ==> b.cells[n] == 0 || b.cells[n] == 1
  }

  /** blocks.py `Box.coord_is_filled`, read as a truth value. */
  function CoordIsFilled(b: Box, v: Vec): bool
    requires InBounds(v)
  {
    b.cells[Index(v)] != 0
  }

  /** The cells that are filled. */
  function FilledSet(b: Box): set<Vec> {
    set n | 0 <= n < 27 && b.cells[n] != 0 :: CellAt(n)
  }

  lemma FilledSetMember(b: Box, v: Vec)
    ensures v in FilledSet(b) <==> InBounds(v) && CoordIsFilled(b, v)
  {
    if InBounds(v) && CoordIsFilled(b, v) {
      IndexCellAt(Index(v), v);
    }
    if v in FilledSet(b) {
      var n :| 0 <= n < 27 && b.cells[n] != 0 && CellAt(n) == v;
      IndexCellAt(n, v);
    }
  }

  /** blocks.py `Box.is_filled`: every cell equals 1. */
  predicate IsFilled(b: Box) {
    forall n :: 0 <= n < 27 ==> b.cells[n] == 1
  }

  function Sum(s: seq<int>): int {
    if |s| == 0 then 0 else Sum(s[..|s| - 1]) + s[|s| - 1]
  }

  /** blocks.py `Box.num_filled`: the sum of all cells. */
  function NumFilled(b: Box): int {
    Sum(b.cells)
  }

  lemma {:induction false} SumZeros(s: seq<int>)
    requires forall n :: 0 <= n < |s| ==> s[n] == 0
    ensures Sum(s) == 0
  {
    if |s| > 0 {
      SumZeros(s[..|s| - 1]);
    }
  }

  /** A sequence of zeros and ones sums to its length exactly when it is all ones. */
  lemma {:induction false} SumZeroOne(s: seq<int>)
    requires forall n :: 0 <= n < |s| ==> s[n] == 0 || s[n] == 1
    ensures 0 <= Sum(s) <= |s|
    ensures Sum(s) == |s| <==> forall n :: 0 <= n < |s| ==> s[n] == 1
  {
    if |s| > 0 {
      SumZeroOne(s[..|s| - 1]);
      if Sum(s) == |s| {
        forall n | 0 <= n < |s|
          ensures s[n] == 1
        {
          if n < |s| - 1 {
            assert s[n] == s[..|s| - 1][n];
          }
        }
      }
    }
  }

  /** For a 0/1 grid: full, 27 filled cells, and every cell filled are the same. */
  lemma FilledIffCount(b: Box)
    requires ZeroOne(b)
    ensures IsFilled(b) <==> NumFilled(b) == 27
    ensures IsFilled(b) <==> FilledSet(b) == AllCells()
    ensures 0 <= NumFilled(b) <= 27
  {
    SumZeroOne(b.cells);
    if FilledSet(b) == AllCells() {
      forall n | 0 <= n < 27
        ensures b.cells[n] == 1
      {
        var v := CellAt(n);
        assert v in AllCells();
        FilledSetMember(b, v);
        IndexCellAt(n, v);
      }
    }
  }

  /** The absolute cells of a piece: anchor plus each offset, in order. */
  function Absolute(offsets: seq<Vec>, origin: Vec): (cs: seq<Vec>)
    ensures |cs| == |offsets|
    ensures forall k :: 0 <= k < |offsets| ==> cs[k] == Add(origin, offsets[k])
    ensures forall k :: 0 <= k < |offsets| ==> Sub(cs[k], origin) == offsets[k]
  {
    seq(|offsets|, k requires 0 <= k < |offsets| => Add(origin, offsets[k]))
  }

  /** A cell a piece may take: in bounds and empty. */
  predicate Free(b: Box, v: Vec) {
    InBounds(v) && !CoordIsFilled(b, v)
  }

  /** blocks.py `Box.validate_placement`: the offsets are checked in order,
      bounds first, and the first bad one decides the error. The box is only
      read. */
  function ValidatePlacement(b: Box, offsets: seq<Vec>, origin: Vec): (r: Outcome)
    ensures r == Pass <==> forall k :: 0 <= k < |offsets| ==> Free(b, Add(origin, offsets[k]))
    ensures r.Fail? ==>
      exists k :: 0 <= k < |offsets|
        && !Free(b, Add(origin, offsets[k]))
        && (forall j :: 0 <= j < k ==> Free(b, Add(origin, offsets[j])))
        && (r.error == OutOfBounds <==> !InBounds(Add(origin, offsets[k])))
    decreases |offsets|
  {
    if |offsets| == 0 then Pass
    else
      var c := Add(origin, offsets[0]);
      if !InBounds(c) then Fail(OutOfBounds)
      else if CoordIsFilled(b, c) then Fail(AlreadyFilled)
      else
        var r := ValidatePlacement(b, offsets[1..], origin);
        ValidateShift(b, offsets, origin, r);
        r
  }

  /** The checks of the later offsets decide once the first offset is free. */
  lemma ValidateShift(b: Box, offsets: seq<Vec>, origin: Vec, r: Outcome)
    requires |offsets| > 0 && Free(b, Add(origin, offsets[0]))
    requires r == Pass <==> forall k :: 0 <= k < |offsets[1..]| ==> Free(b, Add(origin, offsets[1..][k]))
    requires r.Fail? ==>
      exists k :: 0 <= k < |offsets[1..]|
        && !Free(b, Add(origin, offsets[1..][k]))
        && (forall j :: 0 <= j < k ==> Free(b, Add(origin, offsets[1..][j])))
        && (r.error == OutOfBounds <==> !InBounds(Add(origin, offsets[1..][k])))
    ensures r == Pass <==> forall k :: 0 <= k < |offsets| ==> Free(b, Add(origin, offsets[k]))
    ensures r.Fail? ==>
      exists k :: 0 <= k < |offsets|
        && !Free(b, Add(origin, offsets[k]))
        && (forall j :: 0 <= j < k ==> Free(b, Add(origin, offsets[j])))
        && (r.error == OutOfBounds <==> !InBounds(Add(origin, offsets[k])))
  {
    var tail := offsets[1..];
    assert forall k :: 1 <= k < |offsets| ==> offsets[k] == tail[k - 1];
    if r.Fail? {
      var k :| 0 <= k < |tail|
        && !Free(b, Add(origin, tail[k]))
        && (forall j :: 0 <= j < k ==> Free(b, Add(origin, tail[j])))
        && (r.error == OutOfBounds <==> !InBounds(Add(origin, tail[k])));
      assert offsets[k + 1] == tail[k];
      forall j | 0 <= j < k + 1
        ensures Free(b, Add(origin, offsets[j]))
      {
        if j > 0 {
          assert offsets[j] == tail[j - 1];
        }
      }
    }
  }

  /** Sets each listed cell to 1, in order (the loop of blocks.py `Box.place`). */
  function Commit(b: Box, cs: seq<Vec>): (r: Box)
    requires forall k :: 0 <= k < |cs| ==> InBounds(cs[k])
    ensures forall n :: 0 <= n < 27 ==> r.cells[n] == (if CellAt(n) in cs then 1 else b.cells[n])
    decreases |cs|
  {
    if |cs| == 0 then b
    else
      var b1 := Box(b.cells[Index(cs[0]) := 1]);
      var r := Commit(b1, cs[1..]);
      CommitStep(b, cs, r);
      r
  }

  lemma CommitStep(b: Box, cs: seq<Vec>, r: Box)
    requires |cs| > 0 && InBounds(cs[0])
    requires forall n :: 0 <= n < 27 ==>
      r.cells[n] == (if CellAt(n) in cs[1..] then 1 else b.cells[Index(cs[0]) := 1][n])
    ensures forall n :: 0 <= n < 27 ==> r.cells[n] == (if CellAt(n) in cs then 1 else b.cells[n])
  {
    forall n | 0 <= n < 27
      ensures r.cells[n] == (if CellAt(n) in cs then 1 else b.cells[n])
    {
      IndexCellAt(n, cs[0]);
      IndexCellAt(Index(cs[0]), cs[0]);
      assert CellAt(n) in cs <==> CellAt(n) == cs[0] || CellAt(n) in cs[1..];
    }
  }

  /** blocks.py `Box.place`: validation runs before any write, so a refused
      placement reports the validation error and writes nothing; an accepted
      one sets exactly the piece's cells to 1 and keeps every other cell. */
  function Place(b: Box, offsets: seq<Vec>, origin: Vec): (r: Result<Box>)
    ensures r.Ok? <==> forall k :: 0 <= k < |offsets| ==> Free(b, Add(origin, offsets[k]))
    ensures r.Err? ==> r.error == ValidatePlacement(b, offsets, origin).error
    ensures r.Ok? ==> forall n :: 0 <= n < 27 ==>
      r.value.cells[n] == (if CellAt(n) in Absolute(offsets, origin) then 1 else b.cells[n])
  {
    match ValidatePlacement(b, offsets, origin)
    case Fail(e) => Err(e)
    case Pass => Ok(Commit(b, Absolute(offsets, origin)))
  }

  /** An accepted placement adds exactly the piece's cells, all in bounds and
      none filled before, and keeps the grid 0/1. */
  lemma PlaceFills(b: Box, offsets: seq<Vec>, origin: Vec)
    requires Place(b, offsets, origin).Ok?
    ensures var cs := set k | 0 <= k < |offsets| :: Add(origin, offsets[k]);
            var b' := Place(b, offsets, origin).value;
            && cs <= AllCells()
            && cs !! FilledSet(b)
            && FilledSet(b') == FilledSet(b) + cs
            && (ZeroOne(b) ==> ZeroOne(b'))
  {
    var cs := set k | 0 <= k < |offsets| :: Add(origin, offsets[k]);
    var abs := Absolute(offsets, origin);
    var b' := Place(b, offsets, origin).value;
    assert forall v :: v in cs <==> v in abs;
    forall v | v in cs
      ensures v in AllCells() && v !in FilledSet(b)
    {
      AllCellsInBounds(v);
      FilledSetMember(b, v);
    }
    forall v
      ensures v in FilledSet(b') <==> v in FilledSet(b) || v in cs
    {
      FilledSetMember(b, v);
      FilledSetMember(b', v);
      if InBounds(v) {
        IndexCellAt(Index(v), v);
      }
      AllCellsInBounds(v);
    }
  }
}
