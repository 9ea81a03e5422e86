/** Integer 3-vectors and the rotation matrices the packer multiplies them by.

    Every matrix the packer builds is a product of `Rx` and `Rz`, and both are
    signed permutation matrices: each row holds a single entry +1 or -1 and
    zeros elsewhere. A matrix is therefore stored row by row as the column of
    that entry and its sign, and the matrix product and the matrix-vector
    product are computed from that form without integer multiplication. */
module Geometry {

  /** A cell offset or an absolute cell coordinate. */
  datatype Vec = Vec(x: int, y: int, z: int)

  const Zero: Vec := Vec(0, 0, 0)

  function Add(a: Vec, b: Vec): Vec {
    Vec(a.x + b.x, a.y + b.y, a.z + b.z)
  }

  function Sub(a: Vec, b: Vec): Vec {
    Vec(a.x - b.x, a.y - b.y, a.z - b.z)
  }

  /** Squared Euclidean distance between two cells. */
  function Dist2(a: Vec, b: Vec): int {
    var d := Sub(a, b);
    d.x * d.x + d.y * d.y + d.z * d.z
  }

  datatype Axis = X | Y | Z

  function Component(v: Vec, a: Axis): int {
    match a
    case X => v.x
    case Y => v.y
    case Z => v.z
  }

  /** One matrix row: +1 (or -1 when `neg`) in column `col`, zeros elsewhere. */
  datatype Row = Row(col: Axis, neg: bool)

  /** A signed permutation matrix, given by its three rows. */
  datatype Rot = Rot(r0: Row, r1: Row, r2: Row)

  function RowOf(m: Rot, a: Axis): Row {
    match a
    case X => m.r0
    case Y => m.r1
    case Z => m.r2
  }

  /** The integer entry of `m` in row `i`, column `j`. */
  function Entry(m: Rot, i: Axis, j: Axis): int {
    var r := RowOf(m, i);
    if r.col != j then 0 else if r.neg then -1 else 1
  }

  const Identity: Rot := Rot(Row(X, false), Row(Y, false), Row(Z, false))

  /** 90 degrees about the X axis: rows [1,0,0], [0,0,-1], [0,1,0]. */
  const Rx: Rot := Rot(Row(X, false), Row(Z, true), Row(Y, false))

  /** 90 degrees about the Z axis: rows [0,-1,0], [1,0,0], [0,0,1]. */
  const Rz: Rot := Rot(Row(Y, true), Row(X, false), Row(Z, false))

  /** One row times a column vector. */
  function RowDot(r: Row, v: Vec): int {
    if r.neg then -Component(v, r.col) else Component(v, r.col)
  }

  /** The product `m @ v`. */
  function Apply(m: Rot, v: Vec): (w: Vec)
    ensures forall i :: Component(w, i) == RowDot(RowOf(m, i), v)
  {
    Vec(RowDot(m.r0, v), RowDot(m.r1, v), RowDot(m.r2, v))
  }

  /** One row of `a` times the matrix `b`. */
  function RowTimes(r: Row, b: Rot): Row {
    var s := RowOf(b, r.col);
    Row(s.col, r.neg != s.neg)
  }

  /** The product `a @ b`. */
  function Compose(a: Rot, b: Rot): Rot {
    Rot(RowTimes(a.r0, b), RowTimes(a.r1, b), RowTimes(a.r2, b))
  }

  /** The rows use three different columns, i.e. `m @ m.T == I`. */
  predicate Orthogonal(m: Rot) {
    m.r0.col != m.r1.col && m.r0.col != m.r2.col && m.r1.col != m.r2.col
  }

  /** Whether the column order of the rows is an even permutation of X, Y, Z. */
  predicate EvenColumns(m: Rot) {
    (m.r0.col, m.r1.col, m.r2.col) in {(X, Y, Z), (Y, Z, X), (Z, X, Y)}
  }

  /** The determinant. For a signed permutation matrix only one term of the
      Leibniz expansion is non-zero: the sign of the column permutation times
      the signs of the three entries. */
  function Det(m: Rot): int {
    if !Orthogonal(m) then 0
    else if EvenColumns(m) == ((m.r0.neg != m.r1.neg) == m.r2.neg) then 1
    else -1
  }

  /** A proper rotation: orthogonal with determinant +1. */
  predicate Proper(m: Rot) {
    Orthogonal(m) && Det(m) == 1
  }

  /** The matrix-vector product agrees with the integer entries. */
  lemma ApplyByEntries(m: Rot, v: Vec, i: Axis)
    ensures Component(Apply(m, v), i)
         == Entry(m, i, X) * v.x + Entry(m, i, Y) * v.y + Entry(m, i, Z) * v.z
  {
  }

  /** Both primitive rotations are proper rotations of order four. */
  lemma PrimitivesAreProper()
    ensures Proper(Rx) && Proper(Rz) && Proper(Identity)
    ensures Rx != Identity && Compose(Rx, Rx) != Identity && Compose(Rx, Compose(Rx, Rx)) != Identity
    ensures Compose(Rx, Compose(Rx, Compose(Rx, Rx))) == Identity
    ensures Rz != Identity && Compose(Rz, Rz) != Identity && Compose(Rz, Compose(Rz, Rz)) != Identity
    ensures Compose(Rz, Compose(Rz, Compose(Rz, Rz))) == Identity
  {
  }

  /** Multiplying by a product is multiplying by each factor in turn. */
  lemma ApplyCompose(a: Rot, b: Rot, v: Vec)
    ensures Apply(Compose(a, b), v) == Apply(a, Apply(b, v))
  {
  }

  /** `Det` is the cofactor expansion of the integer entries along row X. */
  lemma DetByEntries(m: Rot)
    ensures Det(m)
         == Entry(m, X, X) * (Entry(m, Y, Y) * Entry(m, Z, Z) - Entry(m, Y, Z) * Entry(m, Z, Y))
          - Entry(m, X, Y) * (Entry(m, Y, X) * Entry(m, Z, Z) - Entry(m, Y, Z) * Entry(m, Z, X))
          + Entry(m, X, Z) * (Entry(m, Y, X) * Entry(m, Z, Y) - Entry(m, Y, Y) * Entry(m, Z, X))
  {
  }

  /** Row `i` of `m` times row `k`, on the integer entries: entry `(i, k)`
      of `m @ m.T`. */
  function RowProduct(m: Rot, i: Axis, k: Axis): int {
    Entry(m, i, X) * Entry(m, k, X) + Entry(m, i, Y) * Entry(m, k, Y) + Entry(m, i, Z) * Entry(m, k, Z)
  }

  /** `m @ m.T == I` on the integer entries. */
  predicate OrthonormalRows(m: Rot) {
    forall i, k :: RowProduct(m, i, k) == (if i == k then 1 else 0)
  }

  /** `Orthogonal` is exactly `m @ m.T == I` on the integer entries. */
  lemma OrthogonalByEntries(m: Rot)
    ensures Orthogonal(m) <==> OrthonormalRows(m)
  {
    if !Orthogonal(m) {
      if m.r0.col == m.r1.col {
        assert RowProduct(m, X, Y) != 0;
      } else if m.r0.col == m.r2.col {
        assert RowProduct(m, X, Z) != 0;
      } else {
        assert RowProduct(m, Y, Z) != 0;
      }
    }
  }
}
