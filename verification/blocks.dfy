/** A puzzle piece and the generator of its 24 orientations (blocks.py
    `Block`). The generator is a fixed program of roll, turn and emit steps;
    running it on the piece's coordinates gives the shapes it yields, and
    running it on the identity matrix gives the matrix behind each shape. */
module Blocks {
  import opened Geometry

  /** A piece: its name, its cell offsets (one column of `coords` per cell)
      and the anchor it was last placed at. */
  datatype Block = Block(name: string, coords: seq<Vec>, origin: Vec)

  /** A new piece sits at the origin (blocks.py `Block.__init__`). */
  function NewBlock(coords: seq<Vec>, name: string): (b: Block)
    ensures b.name == name && b.coords == coords && Len(b) == |coords| && b.origin == Zero
  {
    Block(name, coords, Zero)
  }

  /** The number of cells (blocks.py `Block.__len__`). */
  function Len(b: Block): nat {
    |b.coords|
  }

  /** Multiplies every offset by `m` (numpy `m @ coords`). */
  function Transform(m: Rot, cs: seq<Vec>): (r: seq<Vec>)
    ensures |r| == |cs|
    ensures forall k :: 0 <= k < |cs| ==> r[k] == Apply(m, cs[k])
  {
    seq(|cs|, k requires 0 <= k < |cs| => Apply(m, cs[k]))
  }

  /** The steps of the generator: a quarter turn about X, a quarter turn
      about Z, or handing out the current shape. */
  datatype Op = DoRoll | DoTurn | Emit

  /** The effect of one step on the offsets. */
  function CoordsAct(op: Op, cs: seq<Vec>): seq<Vec> {
    match op
    case DoRoll => Transform(Rx, cs)
    case DoTurn => Transform(Rz, cs)
    case Emit => cs
  }

  /** The effect of one step on the accumulated rotation matrix. */
  function RotAct(op: Op, m: Rot): Rot {
    match op
    case DoRoll => Compose(Rx, m)
    case DoTurn => Compose(Rz, m)
    case Emit => m
  }

  /** blocks.py `Block.roll`. */
  function Roll(b: Block): (r: Block)
    ensures r.name == b.name && r.origin == b.origin && Len(r) == Len(b)
    ensures forall k :: 0 <= k < Len(b) ==> r.coords[k] == Vec(b.coords[k].x, -b.coords[k].z, b.coords[k].y)
  {
    b.(coords := CoordsAct(DoRoll, b.coords))
  }

  /** blocks.py `Block.turn`. */
  function Turn(b: Block): (r: Block)
    ensures r.name == b.name && r.origin == b.origin && Len(r) == Len(b)
    ensures forall k :: 0 <= k < Len(b) ==> r.coords[k] == Vec(-b.coords[k].y, b.coords[k].x, b.coords[k].z)
  {
    b.(coords := CoordsAct(DoTurn, b.coords))
  }

  /** What a run of the generator hands out, and the state it leaves. */
  datatype Trace<S> = Trace(emitted: seq<S>, after: S)

  /** Runs a program of steps from state `s`. */
  function Run<S>(prog: seq<Op>, s: S, act: (Op, S) -> S): Trace<S>
    decreases |prog|
  {
    if |prog| == 0 then Trace([], s)
    else if prog[0] == Emit then
      var t := Run(prog[1..], s, act);
      Trace([s] + t.emitted, t.after)
    else Run(prog[1..], act(prog[0], s), act)
  }

  /** One pass of the inner loop of blocks.py `Block.rotations`: a roll, then
      three turns, handing out the shape after each. */
  const StepProgram: seq<Op> := [DoRoll, Emit] + [DoTurn, Emit] + [DoTurn, Emit] + [DoTurn, Emit]

  /** The moves between the two cycles: roll, turn, roll. */
  const Realign: seq<Op> := [DoRoll, DoTurn, DoRoll]

  /** One pass of the outer loop: three steps and the realignment. */
  const CycleProgram: seq<Op> := StepProgram + StepProgram + StepProgram + Realign

  /** The whole generator: two cycles. */
  const RotationsProgram: seq<Op> := CycleProgram + CycleProgram

  /** The shapes blocks.py `Block.rotations` yields for `b`, in order. */
  function Rotations(b: Block): (shapes: seq<seq<Vec>>)
    ensures |shapes| == 24
    ensures forall i :: 0 <= i < 24 ==> |shapes[i]| == Len(b)
  {
    RunRotations(b.coords);
    Run(RotationsProgram, b.coords, CoordsAct).emitted
  }

  /** The piece as the exhausted generator leaves it. */
  function AfterRotations(b: Block): Block {
    b.(coords := Run(RotationsProgram, b.coords, CoordsAct).after)
  }

  /** The four matrices pass `k` of the inner loop goes through, in order
      (passes 0 to 2 form the first cycle, 3 to 5 the second). */
  function Pass(k: nat): (p: seq<Rot>)
    requires k < 6
    ensures |p| == 4
  {
    match k
    case 0 =>
      [Rot(Row(X, false), Row(Z, true), Row(Y, false)),
       Rot(Row(Z, false), Row(X, false), Row(Y, false)),
       Rot(Row(X, true), Row(Z, false), Row(Y, false)),
       Rot(Row(Z, true), Row(X, true), Row(Y, false))]
    case 1 =>
      [Rot(Row(Z, true), Row(Y, true), Row(X, true)),
       Rot(Row(Y, false), Row(Z, true), Row(X, true)),
       Rot(Row(Z, false), Row(Y, false), Row(X, true)),
       Rot(Row(Y, true), Row(Z, false), Row(X, true))]
    case 2 =>
      [Rot(Row(Y, true), Row(X, false), Row(Z, false)),
       Rot(Row(X, true), Row(Y, true), Row(Z, false)),
       Rot(Row(Y, false), Row(X, true), Row(Z, false)),
       Rot(Row(X, false), Row(Y, false), Row(Z, false))]
    case 3 =>
      [Rot(Row(Z, false), Row(X, true), Row(Y, true)),
       Rot(Row(X, false), Row(Z, false), Row(Y, true)),
       Rot(Row(Z, true), Row(X, false), Row(Y, true)),
       Rot(Row(X, true), Row(Z, true), Row(Y, true))]
    case 4 =>
      [Rot(Row(X, true), Row(Y, false), Row(Z, true)),
       Rot(Row(Y, true), Row(X, true), Row(Z, true)),
       Rot(Row(X, false), Row(Y, true), Row(Z, true)),
       Rot(Row(Y, false), Row(X, false), Row(Z, true))]
    case _ =>
      [Rot(Row(Y, false), Row(Z, false), Row(X, false)),
       Rot(Row(Z, true), Row(Y, false), Row(X, false)),
       Rot(Row(Y, true), Row(Z, true), Row(X, false)),
       Rot(Row(Z, false), Row(Y, true), Row(X, false))]
  }

  /** The 24 matrices the generator passes through, in order. */
  const OrientationTable: seq<Rot> := Pass(0) + Pass(1) + Pass(2) + Pass(3) + Pass(4) + Pass(5)

  /** Running `p + q` is running `p`, then `q` from where `p` stopped. */
  lemma {:induction false} RunAppend<S>(p: seq<Op>, q: seq<Op>, s: S, act: (Op, S) -> S)
    ensures Run(p + q, s, act)
         == Trace(Run(p, s, act).emitted + Run(q, Run(p, s, act).after, act).emitted,
                  Run(q, Run(p, s, act).after, act).after)
    decreases |p|
  {
    if |p| == 0 {
      assert p + q == q;
    } else {
      assert (p + q)[1..] == p[1..] + q;
      if p[0] == Emit {
        RunAppend(p[1..], q, s, act);
      } else {
        RunAppend(p[1..], q, act(p[0], s), act);
      }
    }
  }

  /** A move followed by an emit hands out the moved state. */
  lemma RunMoveEmit<S>(op: Op, s: S, act: (Op, S) -> S)
    requires op != Emit
    ensures Run([op, Emit], s, act) == Trace([act(op, s)], act(op, s))
  {
    assert [op, Emit][1..] == [Emit];
    assert [Emit][1..] == [];
  }

  /** The inner loop hands out roll, then three turns. */
  lemma RunStep<S>(s: S, act: (Op, S) -> S)
    ensures var a := act(DoRoll, s);
            var b := act(DoTurn, a);
            var c := act(DoTurn, b);
            var d := act(DoTurn, c);
            Run(StepProgram, s, act) == Trace([a, b, c, d], d)
  {
    var a := act(DoRoll, s);
    var b := act(DoTurn, a);
    var c := act(DoTurn, b);
    var d := act(DoTurn, c);
    RunMoveEmit(DoRoll, s, act);
    RunMoveEmit(DoTurn, a, act);
    RunMoveEmit(DoTurn, b, act);
    RunMoveEmit(DoTurn, c, act);
    RunAppend([DoRoll, Emit], [DoTurn, Emit], s, act);
    RunAppend([DoRoll, Emit] + [DoTurn, Emit], [DoTurn, Emit], s, act);
    RunAppend([DoRoll, Emit] + [DoTurn, Emit] + [DoTurn, Emit], [DoTurn, Emit], s, act);
  }

  /** The realignment hands out nothing. */
  lemma RunRealign<S>(s: S, act: (Op, S) -> S)
    ensures Run(Realign, s, act) == Trace([], act(DoRoll, act(DoTurn, act(DoRoll, s))))
  {
  }

  /** One cycle: three steps then the realignment. */
  lemma RunCycle<S>(s: S, act: (Op, S) -> S)
    ensures var t1 := Run(StepProgram, s, act);
            var t2 := Run(StepProgram, t1.after, act);
            var t3 := Run(StepProgram, t2.after, act);
            var t4 := Run(Realign, t3.after, act);
            Run(CycleProgram, s, act) == Trace(t1.emitted + t2.emitted + t3.emitted, t4.after)
  {
    var t1 := Run(StepProgram, s, act);
    var t2 := Run(StepProgram, t1.after, act);
    var t3 := Run(StepProgram, t2.after, act);
    RunAppend(StepProgram, StepProgram, s, act);
    RunAppend(StepProgram + StepProgram, StepProgram, s, act);
    RunAppend(StepProgram + StepProgram + StepProgram, Realign, s, act);
    RunRealign(t3.after, act);
  }

  /** The matrix the realignment after the first cycle leaves. */
  const Realigned: Rot := Rot(Row(Z, false), Row(Y, true), Row(X, false))

  /** The matrix each pass of the inner loop starts from. */
  function StepStart(k: nat): Rot
    requires k < 6
  {
    if k == 0 then Identity else if k == 3 then Realigned else Pass(k - 1)[3]
  }

  /** One pass of the inner loop on matrices, with its four products named. */
  lemma StepFrom(m: Rot, a: Rot, b: Rot, c: Rot, d: Rot)
    requires a == Compose(Rx, m) && b == Compose(Rz, a)
    requires c == Compose(Rz, b) && d == Compose(Rz, c)
    ensures Run(StepProgram, m, RotAct) == Trace([a, b, c, d], d)
  {
    RunStep(m, RotAct);
  }

  /** The matrices of pass `k` are one roll and then three turns of the
      matrix the pass starts from. */
  lemma TableStep(k: nat)
    requires k < 6
    ensures var p := Pass(k);
            && p[0] == Compose(Rx, StepStart(k))
            && p[1] == Compose(Rz, p[0])
            && p[2] == Compose(Rz, p[1])
            && p[3] == Compose(Rz, p[2])
  {
  }

  /** Pass `k` of the inner loop hands out the four matrices of `Pass(k)`. */
  lemma StepTrace(k: nat)
    requires k < 6
    ensures Run(StepProgram, StepStart(k), RotAct) == Trace(Pass(k), Pass(k)[3])
  {
    var p := Pass(k);
    assert p == [p[0], p[1], p[2], p[3]];
    TableStep(k);
    StepFrom(StepStart(k), p[0], p[1], p[2], p[3]);
  }

  /** One cycle on matrices, from the traces of its three steps. */
  lemma CycleFrom(m: Rot, e0: seq<Rot>, e1: seq<Rot>, e2: seq<Rot>, p: Rot, q: Rot, r: Rot, last: Rot)
    requires Run(StepProgram, m, RotAct) == Trace(e0, p)
    requires Run(StepProgram, p, RotAct) == Trace(e1, q)
    requires Run(StepProgram, q, RotAct) == Trace(e2, r)
    requires last == Compose(Rx, Compose(Rz, Compose(Rx, r)))
    ensures Run(CycleProgram, m, RotAct) == Trace(e0 + e1 + e2, last)
  {
    RunCycle(m, RotAct);
    RunRealign(r, RotAct);
  }

  /** The first cycle hands out passes 0 to 2 and leaves `Realigned`. */
  lemma FirstCycle()
    ensures Run(CycleProgram, Identity, RotAct) == Trace(Pass(0) + Pass(1) + Pass(2), Realigned)
  {
    StepTrace(0);
    StepTrace(1);
    StepTrace(2);
    CycleFrom(Identity, Pass(0), Pass(1), Pass(2), Pass(0)[3], Pass(1)[3], Pass(2)[3], Realigned);
  }

  /** The second cycle hands out passes 3 to 5 and leaves the identity. */
  lemma SecondCycle()
    ensures Run(CycleProgram, Realigned, RotAct) == Trace(Pass(3) + Pass(4) + Pass(5), Identity)
  {
    StepTrace(3);
    StepTrace(4);
    StepTrace(5);
    CycleFrom(Realigned, Pass(3), Pass(4), Pass(5), Pass(3)[3], Pass(4)[3], Pass(5)[3], Identity);
  }

  /** The generator run on the identity matrix passes through the 24 matrices
      of the table and ends where it started. */
  lemma OrientationsTrace()
    ensures Run(RotationsProgram, Identity, RotAct) == Trace(OrientationTable, Identity)
  {
    FirstCycle();
    SecondCycle();
    RunAppend(CycleProgram, CycleProgram, Identity, RotAct);
    assert OrientationTable == (Pass(0) + Pass(1) + Pass(2)) + (Pass(3) + Pass(4) + Pass(5));
  }

  /** The shapes `cs` takes under each matrix of `ms`. */
  function Shapes(ms: seq<Rot>, cs: seq<Vec>): (r: seq<seq<Vec>>)
    ensures |r| == |ms|
  {
    seq(|ms|, i requires 0 <= i < |ms| => Transform(ms[i], cs))
  }

  lemma TransformCompose(a: Rot, m: Rot, cs: seq<Vec>)
    ensures Transform(Compose(a, m), cs) == Transform(a, Transform(m, cs))
  {
    forall k | 0 <= k < |cs|
      ensures Apply(Compose(a, m), cs[k]) == Apply(a, Apply(m, cs[k]))
    {
      ApplyCompose(a, m, cs[k]);
    }
  }

  lemma TransformIdentity(cs: seq<Vec>)
    ensures Transform(Identity, cs) == cs
  {
  }

  /** Stepping the offsets is stepping the matrix and multiplying: the
      generator run on `m @ coords` hands out `M @ coords` for each matrix `M`
      the same program hands out from `m`. */
  lemma {:induction false} RunTransform(prog: seq<Op>, m: Rot, cs: seq<Vec>)
    ensures var t := Run(prog, m, RotAct);
            Run(prog, Transform(m, cs), CoordsAct) == Trace(Shapes(t.emitted, cs), Transform(t.after, cs))
    decreases |prog|
  {
    if |prog| > 0 {
      if prog[0] == Emit {
        RunTransform(prog[1..], m, cs);
        var t := Run(prog[1..], m, RotAct);
        assert Shapes([m] + t.emitted, cs) == [Transform(m, cs)] + Shapes(t.emitted, cs);
      } else {
        RunTransform(prog[1..], RotAct(prog[0], m), cs);
        TransformCompose(if prog[0] == DoRoll then Rx else Rz, m, cs);
      }
    }
  }

  /** The generator run on any offsets hands out those offsets multiplied by
      each table matrix in turn, and leaves them as they were. */
  lemma RunRotations(cs: seq<Vec>)
    ensures Run(RotationsProgram, cs, CoordsAct) == Trace(Shapes(OrientationTable, cs), cs)
  {
    OrientationsTrace();
    TransformIdentity(cs);
    RunTransform(RotationsProgram, Identity, cs);
  }

  /** Each yielded shape is the piece multiplied by a product of `Rx` and
      `Rz`, the one in the table; and a complete pass of the generator
      multiplies out to the identity, so the piece ends where it started. */
  lemma RotationsByTable(b: Block)
    ensures forall i :: 0 <= i < 24 ==> Rotations(b)[i] == Transform(OrientationTable[i], b.coords)
    ensures AfterRotations(b) == b
  {
    RunRotations(b.coords);
  }

  /** The table holds each of the 24 proper rotations exactly once: they are
      pairwise distinct and every proper signed permutation occurs. */
  lemma OrientationTableIsRotationGroup()
    ensures |OrientationTable| == 24
    ensures forall i :: 0 <= i < 24 ==> Proper(OrientationTable[i])
    ensures forall i, j :: 0 <= i < j < 24 ==> OrientationTable[i] != OrientationTable[j]
    ensures forall m :: Proper(m) ==> m in OrientationTable
  {
    TableProper();
    TableDistinct();
    TableComplete();
  }

  lemma TableProper()
    ensures |OrientationTable| == 24
    ensures forall i :: 0 <= i < 24 ==> Proper(OrientationTable[i])
  {
  }

  lemma TableDistinct()
    ensures |OrientationTable| == 24
    ensures forall i, j :: 0 <= i < j < 24 ==> OrientationTable[i] != OrientationTable[j]
  {
  }

  lemma TableComplete()
    ensures forall m :: Proper(m) ==> m in OrientationTable
  {
  }

  function Square(v: Vec, c: Axis): int {
    Component(v, c) * Component(v, c)
  }

  lemma RowSquare(r: Row, v: Vec)
    ensures RowDot(r, v) * RowDot(r, v) == Square(v, r.col)
  {
  }

  lemma SubApply(m: Rot, a: Vec, b: Vec)
    ensures Sub(Apply(m, a), Apply(m, b)) == Apply(m, Sub(a, b))
  {
  }

  lemma SquaresPermuted(m: Rot, v: Vec)
    requires Orthogonal(m)
    ensures Square(v, m.r0.col) + Square(v, m.r1.col) + Square(v, m.r2.col)
         == Square(v, X) + Square(v, Y) + Square(v, Z)
  {
  }

  /** An orthogonal matrix keeps squared distances and fixes only the origin. */
  lemma OrthogonalIsRigid(m: Rot, a: Vec, b: Vec)
    requires Orthogonal(m)
    ensures Dist2(Apply(m, a), Apply(m, b)) == Dist2(a, b)
    ensures Apply(m, a) == Zero <==> a == Zero
  {
    var d := Sub(a, b);
    SubApply(m, a, b);
    var e := Apply(m, d);
    RowSquare(m.r0, d);
    RowSquare(m.r1, d);
    RowSquare(m.r2, d);
    SquaresPermuted(m, d);
    assert Dist2(Apply(m, a), Apply(m, b)) == e.x * e.x + e.y * e.y + e.z * e.z;
  }

  /** The generator yields 24 shapes of the piece's size; each keeps every
      pairwise squared distance and the reference cell, and the piece's own
      shape is among them. */
  lemma RotationsAreRigid(b: Block)
    ensures |Rotations(b)| == 24
    ensures forall i :: 0 <= i < 24 ==> |Rotations(b)[i]| == Len(b)
    ensures forall i, k, l :: 0 <= i < 24 && 0 <= k < Len(b) && 0 <= l < Len(b) ==>
              Dist2(Rotations(b)[i][k], Rotations(b)[i][l]) == Dist2(b.coords[k], b.coords[l])
    ensures forall i, k :: 0 <= i < 24 && 0 <= k < Len(b) ==>
              (Rotations(b)[i][k] == Zero <==> b.coords[k] == Zero)
    ensures b.coords in Rotations(b)
  {
    RotationsByTable(b);
    OrientationTableIsRotationGroup();
    var r := Rotations(b);
    forall i, k, l | 0 <= i < 24 && 0 <= k < Len(b) && 0 <= l < Len(b)
      ensures Dist2(r[i][k], r[i][l]) == Dist2(b.coords[k], b.coords[l])
      ensures r[i][k] == Zero <==> b.coords[k] == Zero
    {
      OrthogonalIsRigid(OrientationTable[i], b.coords[k], b.coords[l]);
    }
    assert OrientationTable[11] == Identity;
    TransformIdentity(b.coords);
    assert r[11] == b.coords;
  }

  /** Four rolls, or four turns, bring a piece back to where it started. */
  lemma QuarterTurns(b: Block)
    ensures Roll(Roll(Roll(Roll(b)))) == b
    ensures Turn(Turn(Turn(Turn(b)))) == b
  {
    var r := Roll(Roll(Roll(Roll(b))));
    var t := Turn(Turn(Turn(Turn(b))));
    assert r.coords == b.coords;
    assert t.coords == b.coords;
  }

  /** The 24 rotations are distinct as matrices, not as shapes: a single
      cube yields the same shape 24 times. */
  lemma SingleCubeRepeats(name: string)
    ensures forall i :: 0 <= i < 24 ==> Rotations(NewBlock([Zero], name))[i] == [Zero]
  {
    RotationsByTable(NewBlock([Zero], name));
  }
}
