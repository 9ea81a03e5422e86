/** The search state and the backtracking search (blocks.py `GameState`
    and `solve`). Copies are values, so forking a trial state and dropping
    it are plain expressions. */
module Search {
  import opened Geometry
  import opened Blocks
  import opened Boxes

  datatype Option<T> = None | Some(value: T)

  /** Pieces still to place (the last is tried next), pieces placed so far
      (with the shape and anchor they were placed with), and the box. */
  datatype GameState = GameState(candidates: seq<Block>, placed: seq<Block>, box: Box)

  function Digit(d: nat): char
    requires d < 10
  {
    "0123456789"[d]
  }

  /** The decimal spelling of `n`. */
  function Decimal(n: nat): (s: string)
    ensures |s| > 0 && forall i :: 0 <= i < |s| ==> '0' <= s[i] <= '9'
  {
    if n < 10 then [Digit(n)] else Decimal(n / 10) + [Digit(n % 10)]
  }

  /** The number a string of decimal digits spells, most significant first. */
  function DigitsValue(s: string): int {
    if |s| == 0 then 0 else DigitsValue(s[..|s| - 1]) * 10 + (s[|s| - 1] as int - '0' as int)
  }

  /** `Decimal(n)` spells `n`, as Python's `f'{i}'` does for a list index. */
  lemma {:induction false} DecimalValue(n: nat)
    ensures DigitsValue(Decimal(n)) == n
    decreases n
  {
    if n >= 10 {
      DecimalValue(n / 10);
      var s := Decimal(n);
      assert s[..|s| - 1] == Decimal(n / 10);
    }
  }

  /** blocks.py `GameState.__init__`: piece `i` is named `B<i>`, nothing is
      placed and the box is empty. */
  function NewGame(blockList: seq<seq<Vec>>): (g: GameState)
    ensures |g.candidates| == |blockList| && g.placed == [] && g.box == Empty()
    ensures forall i :: 0 <= i < |blockList| ==>
      g.candidates[i] == NewBlock(blockList[i], "B" + Decimal(i))
    ensures Consistent(g) && !IsSolved(g)
  {
    var g := GameState(seq(|blockList|, i requires 0 <= i < |blockList| => NewBlock(blockList[i], "B" + Decimal(i))), [], Empty());
    StartConsistent(g);
    g
  }

  /** blocks.py `GameState.is_solved`. */
  predicate IsSolved(g: GameState) {
    IsFilled(g.box)
  }

  /** The piece `solve` takes: the last candidate. */
  function Last(g: GameState): Block
    requires |g.candidates| > 0
  {
    g.candidates[|g.candidates| - 1]
  }

  /** The state after `block_candidates.pop()`. */
  function Pop(g: GameState): GameState
    requires |g.candidates| > 0
  {
    g.(candidates := g.candidates[..|g.candidates| - 1])
  }

  /** The absolute cells a placed piece covers. */
  function Cells(p: Block): set<Vec> {
    set k | 0 <= k < |p.coords| :: Add(p.origin, p.coords[k])
  }

  /** The cells covered by all placed pieces. */
  function Covered(ps: seq<Block>): set<Vec> {
    if |ps| == 0 then {} else Covered(ps[..|ps| - 1]) + Cells(ps[|ps| - 1])
  }

  /** The soundness invariant: the filled cells are exactly the cells of the
      placed pieces, which lie in the box and do not overlap. */
  predicate Consistent(g: GameState) {
    && ZeroOne(g.box)
    && FilledSet(g.box) == Covered(g.placed)
    && (forall i :: 0 <= i < |g.placed| ==> Cells(g.placed[i]) <= AllCells())
    && (forall i, j :: 0 <= i < j < |g.placed| ==> Cells(g.placed[i]) !! Cells(g.placed[j]))
  }

  /** `p` is candidate `c` placed in one of its generated orientations at an
      anchor inside the box. */
  predicate PlacementOf(p: Block, c: Block) {
    p.name == c.name && p.coords in Rotations(c) && InBounds(p.origin)
  }

  /** How the search moves from `g` to `r`: candidates are only taken from
      the end, and each newly placed piece is the next candidate taken. */
  predicate Descends(g: GameState, r: GameState) {
    && |r.candidates| <= |g.candidates|
    && r.candidates == g.candidates[..|r.candidates|]
    && |g.placed| <= |r.placed| <= |g.placed| + |g.candidates| - |r.candidates|
    && r.placed[..|g.placed|] == g.placed
    && forall i :: |g.placed| <= i < |r.placed| ==>
         PlacementOf(r.placed[i], g.candidates[|g.candidates| - 1 - (i - |g.placed|)])
  }

  /** The state `g` was before `piece` was popped from it. */
  function Unpop(g: GameState, piece: Block): GameState {
    g.(candidates := g.candidates + [piece])
  }

  /** blocks.py `solve`. A solved state or one with no candidates is returned
      as it is. Otherwise the last candidate is popped and tried at every
      empty anchor in raster order, in every orientation in generator order;
      the first solved result is returned, and if there is none the input is
      returned with its last candidate gone and its box untouched. */
  function Solve(g: GameState): (r: GameState)
    ensures IsSolved(g) || |g.candidates| == 0 ==> r == g
    ensures !IsSolved(g) && |g.candidates| > 0 ==> IsSolved(r) || r == Pop(g)
    ensures Consistent(g) ==> Consistent(r)
    ensures Descends(g, r)
    ensures IsSolved(r) ==> |r.placed| - |g.placed| == |g.candidates| - |r.candidates|
    decreases |g.candidates|, 0, 0
  {
    if IsSolved(g) || |g.candidates| == 0 then g
    else
      var r := TryAnchors(Pop(g), Last(g), 0);
      SolveStep(g, r);
      r
  }

  /** The anchor loop of `solve` from raster position `n` on: filled anchors
      are skipped, and the first anchor with a solved trial wins. */
  function TryAnchors(g: GameState, piece: Block, n: nat): (r: GameState)
    requires n <= 27
    ensures r == g || (IsSolved(r) && Descends(Unpop(g, piece), r)
                       && |r.placed| - |g.placed| == |g.candidates| + 1 - |r.candidates|)
    ensures Consistent(g) ==> Consistent(r)
    decreases |g.candidates|, 3, 27 - n
  {
    if n == 27 then g
    else if CoordIsFilled(g.box, CellAt(n)) then TryAnchors(g, piece, n + 1)
    else
      match TryOrientations(g, piece, n, 0)
      case Some(s) => s
      case None => TryAnchors(g, piece, n + 1)
  }

  /** The orientation loop of `solve` at anchor `n` from orientation `o` on:
      the first orientation whose trial is solved wins. */
  function TryOrientations(g: GameState, piece: Block, n: nat, o: nat): (r: Option<GameState>)
    requires n < 27 && o <= 24
    ensures r.Some? ==> IsSolved(r.value) && Descends(Unpop(g, piece), r.value)
                        && |r.value.placed| - |g.placed| == |g.candidates| + 1 - |r.value.candidates|
    ensures r.Some? && Consistent(g) ==> Consistent(r.value)
    decreases |g.candidates|, 2, 24 - o
  {
    if o == 24 then None
    else
      var a := Attempt(g, piece, n, o);
      if a.Some? then a
      else TryOrientations(g, piece, n, o + 1)
  }

  /** One trial of `solve`: a copy of the state gets the piece in orientation
      `o` at anchor `n`; if the box accepts it, the placed piece is recorded
      and the search recurses. Only a solved result counts. */
  function Attempt(g: GameState, piece: Block, n: nat, o: nat): (r: Option<GameState>)
    requires n < 27 && o < 24
    ensures r.Some? ==> IsSolved(r.value) && Descends(Unpop(g, piece), r.value)
                        && |r.value.placed| - |g.placed| == |g.candidates| + 1 - |r.value.candidates|
    ensures r.Some? && Consistent(g) ==> Consistent(r.value)
    ensures r.Some? ==> |r.value.placed| > |g.placed|
                        && r.value.placed[|g.placed|] == piece.(coords := Rotations(piece)[o], origin := CellAt(n))
    ensures Place(g.box, Rotations(piece)[o], CellAt(n)).Err? ==> r.None?
    decreases |g.candidates|, 1, 0
  {
    var shape := Rotations(piece)[o];
    var anchor := CellAt(n);
    match Place(g.box, shape, anchor)
    case Err(_) => None
    case Ok(box) =>
      var p := piece.(coords := shape, origin := anchor);
      var trial := GameState(g.candidates, g.placed + [p], box);
      var res := Solve(trial);
      TrialSound(g, piece, n, o, box, res);
      if IsSolved(res) then Some(res) else None
  }

  /** The trials at anchor `n`, as a row indexed by orientation. */
  function AttemptsAt(g: GameState, piece: Block, n: nat): nat -> Option<GameState> {
    (o: nat) => if n < 27 && o < 24 then Attempt(g, piece, n, o) else None
  }

  /** The first present entry of `f` from `o` on, below 24. */
  function FirstSome<T>(f: nat -> Option<T>, o: nat): Option<T>
    decreases 24 - o
  {
    if o >= 24 then None else if f(o).Some? then f(o) else FirstSome(f, o + 1)
  }

  /** `FirstSome` is absent exactly when every entry is, and otherwise is the
      entry after only absent ones. */
  lemma {:induction false} FirstSomeOrder<T>(f: nat -> Option<T>, o: nat)
    requires o <= 24
    ensures FirstSome(f, o).None? <==> forall o': nat :: o <= o' < 24 ==> f(o').None?
    ensures var r := FirstSome(f, o);
            r.Some? ==> exists o': nat :: o <= o' < 24 && r == f(o')
                                          && (forall o'': nat :: o <= o'' < o' ==> f(o'').None?)
    decreases 24 - o
  {
    if o < 24 {
      FirstSomeOrder(f, o + 1);
      var r := FirstSome(f, o);
      if f(o).None? && r.Some? {
        var o': nat :| o + 1 <= o' < 24 && r == f(o')
                       && (forall o'': nat :: o + 1 <= o'' < o' ==> f(o'').None?);
        assert forall o'': nat :: o <= o'' < o' ==> f(o'').None?;
      }
    }
  }

  /** The orientation loop is the first present entry of the row of trials. */
  lemma {:induction false} TryOrientationsIsFirst(g: GameState, piece: Block, n: nat, o: nat)
    requires n < 27 && o <= 24
    ensures TryOrientations(g, piece, n, o) == FirstSome(AttemptsAt(g, piece, n), o)
    decreases 24 - o
  {
    if o < 24 {
      TryOrientationsIsFirst(g, piece, n, o + 1);
      assert AttemptsAt(g, piece, n)(o) == Attempt(g, piece, n, o);
    }
  }

  /** The orientation loop at anchor `n` returns nothing exactly when every
      remaining orientation's trial fails, and otherwise the result of the
      first orientation whose trial succeeds. */
  lemma TryOrientationsOrder(g: GameState, piece: Block, n: nat, o: nat)
    requires n < 27 && o <= 24
    ensures TryOrientations(g, piece, n, o).None?
            <==> forall o': nat :: o <= o' < 24 ==> AttemptsAt(g, piece, n)(o').None?
    ensures var r := TryOrientations(g, piece, n, o);
            r.Some? ==> exists o': nat :: o <= o' < 24 && r == AttemptsAt(g, piece, n)(o')
                          && (forall o'': nat :: o <= o'' < o' ==> AttemptsAt(g, piece, n)(o'').None?)
  {
    TryOrientationsIsFirst(g, piece, n, o);
    FirstSomeOrder(AttemptsAt(g, piece, n), o);
  }

  /** Which trials succeed, as a table indexed by anchor and orientation. */
  function Trials(g: GameState, piece: Block): (nat, nat) -> bool {
    (m: nat, o: nat) => m < 27 && o < 24 && !CoordIsFilled(g.box, CellAt(m)) && AttemptsAt(g, piece, m)(o).Some?
  }

  /** No entry of the table at anchors `n`..26 holds. */
  ghost predicate NoneFrom(ok: (nat, nat) -> bool, n: nat) {
    forall m: nat, o: nat :: n <= m < 27 && o < 24 ==> !ok(m, o)
  }

  /** `(m, o)` is the first entry that holds from anchor `n` on, in the order
      the loops of `solve` visit them: anchor first, then orientation. */
  ghost predicate FirstFrom(ok: (nat, nat) -> bool, n: nat, m: nat, o: nat) {
    && n <= m < 27 && o < 24 && ok(m, o)
    && (forall o': nat :: o' < o ==> !ok(m, o'))
    && (forall m': nat, o': nat :: n <= m' < m && o' < 24 ==> !ok(m', o'))
  }

  /** The anchor loop from `n` returns the state of the first successful
      trial, or its input unchanged when no trial succeeds. */
  ghost predicate FirstWins(g: GameState, piece: Block, n: nat)
    requires n <= 27
  {
    && (NoneFrom(Trials(g, piece), n) ==> TryAnchors(g, piece, n) == g)
    && (forall m: nat, o: nat :: FirstFrom(Trials(g, piece), n, m, o) ==>
          m < 27 && o < 24 && TryAnchors(g, piece, n) == AttemptsAt(g, piece, m)(o).value)
  }

  /** The anchor loop returns the state of the first successful trial, or
      its input unchanged when no trial succeeds. */
  lemma {:induction false} TryAnchorsOrder(g: GameState, piece: Block, n: nat)
    requires n <= 27
    ensures FirstWins(g, piece, n)
    decreases 27 - n
  {
    if n < 27 {
      TryAnchorsOrder(g, piece, n + 1);
      if CoordIsFilled(g.box, CellAt(n)) || TryOrientations(g, piece, n, 0).None? {
        SkippedAnchorHasNoSuccess(g, piece, n);
        FirstWinsAfterSkip(g, piece, n);
      } else {
        FirstWinsAtTakenAnchor(g, piece, n);
      }
    }
  }

  /** A filled anchor, or one where no orientation gives a solved trial, has
      no successful trial and hands the search on to the next anchor. */
  lemma SkippedAnchorHasNoSuccess(g: GameState, piece: Block, n: nat)
    requires n < 27
    requires CoordIsFilled(g.box, CellAt(n)) || TryOrientations(g, piece, n, 0).None?
    ensures forall o: nat :: o < 24 ==> !Trials(g, piece)(n, o)
    ensures TryAnchors(g, piece, n) == TryAnchors(g, piece, n + 1)
  {
    if !CoordIsFilled(g.box, CellAt(n)) {
      TryOrientationsOrder(g, piece, n, 0);
      forall o: nat | o < 24
        ensures !Trials(g, piece)(n, o)
      {
        assert AttemptsAt(g, piece, n)(o).None?;
      }
    }
  }

  /** Induction step: an anchor without a successful trial. */
  lemma FirstWinsAfterSkip(g: GameState, piece: Block, n: nat)
    requires n < 27 && FirstWins(g, piece, n + 1)
    requires forall o: nat :: o < 24 ==> !Trials(g, piece)(n, o)
    requires TryAnchors(g, piece, n) == TryAnchors(g, piece, n + 1)
    ensures FirstWins(g, piece, n)
  {
    FirstFromSkipsEmptyAnchor(Trials(g, piece), n);
  }

  /** Induction step: an orientation succeeds at the empty anchor `n`. */
  lemma FirstWinsAtTakenAnchor(g: GameState, piece: Block, n: nat)
    requires n < 27 && !CoordIsFilled(g.box, CellAt(n))
    requires TryOrientations(g, piece, n, 0).Some?
    ensures FirstWins(g, piece, n)
  {
    var t := TryOrientations(g, piece, n, 0);
    TryOrientationsOrder(g, piece, n, 0);
    var o: nat :| o < 24 && t == AttemptsAt(g, piece, n)(o)
                  && (forall o'': nat :: o'' < o ==> AttemptsAt(g, piece, n)(o'').None?);
    TakenOrientationIsFirst(g, piece, n, o);
    FirstWinsFromFirstSuccess(g, piece, n, o);
  }

  /** The orientation the loop stops at is the first successful trial at
      anchor `n`, and the anchor loop returns its state. */
  lemma TakenOrientationIsFirst(g: GameState, piece: Block, n: nat, o: nat)
    requires n < 27 && o < 24 && !CoordIsFilled(g.box, CellAt(n))
    requires TryOrientations(g, piece, n, 0) == AttemptsAt(g, piece, n)(o)
    requires TryOrientations(g, piece, n, 0).Some?
    requires forall o'': nat :: o'' < o ==> AttemptsAt(g, piece, n)(o'').None?
    ensures Trials(g, piece)(n, o)
    ensures forall o': nat :: o' < o ==> !Trials(g, piece)(n, o')
    ensures TryAnchors(g, piece, n) == AttemptsAt(g, piece, n)(o).value
  {
  }

  /** A first success at anchor `n` that the loop returns settles the order. */
  lemma FirstWinsFromFirstSuccess(g: GameState, piece: Block, n: nat, o: nat)
    requires n < 27 && o < 24
    requires Trials(g, piece)(n, o)
    requires forall o': nat :: o' < o ==> !Trials(g, piece)(n, o')
    requires TryAnchors(g, piece, n) == AttemptsAt(g, piece, n)(o).value
    ensures FirstWins(g, piece, n)
  {
    FirstFromAtAnchor(Trials(g, piece), n, o);
  }

  /** An anchor where nothing holds does not change what comes first. */
  lemma FirstFromSkipsEmptyAnchor(ok: (nat, nat) -> bool, n: nat)
    requires n < 27
    requires forall o: nat :: o < 24 ==> !ok(n, o)
    ensures NoneFrom(ok, n) <==> NoneFrom(ok, n + 1)
    ensures forall m: nat, o: nat :: FirstFrom(ok, n, m, o) <==> FirstFrom(ok, n + 1, m, o)
  {
  }

  /** An entry at anchor `n` after only failures there is the first one. */
  lemma FirstFromAtAnchor(ok: (nat, nat) -> bool, n: nat, o: nat)
    requires n < 27 && o < 24 && ok(n, o)
    requires forall o': nat :: o' < o ==> !ok(n, o')
    ensures !NoneFrom(ok, n)
    ensures forall m: nat, o1: nat :: FirstFrom(ok, n, m, o1) ==> m == n && o1 == o
  {
  }

  /** For a piece whose offsets include its reference cell (every piece of
      the puzzle does), no orientation fits at a filled anchor, so skipping
      filled anchors loses no placement. */
  lemma FilledAnchorFails(b: Box, piece: Block, n: nat, o: nat)
    requires n < 27 && o < 24
    requires Zero in piece.coords && CoordIsFilled(b, CellAt(n))
    ensures Place(b, Rotations(piece)[o], CellAt(n)).Err?
  {
    RotationsAreRigid(piece);
    var k :| 0 <= k < |piece.coords| && piece.coords[k] == Zero;
    assert Rotations(piece)[o][k] == Zero;
    assert Add(CellAt(n), Zero) == CellAt(n);
  }

  /** Popping a candidate is a descent that places nothing. */
  lemma DescendsPop(g: GameState)
    requires |g.candidates| > 0
    ensures Unpop(Pop(g), Last(g)) == g
    ensures Descends(g, Pop(g))
  {
    assert g.candidates[..|g.candidates| - 1] + [Last(g)] == g.candidates;
  }

  /** What `solve` concludes from the anchor loop's result. */
  lemma SolveStep(g: GameState, r: GameState)
    requires |g.candidates| > 0 && !IsSolved(g)
    requires r == Pop(g) || (IsSolved(r) && Descends(Unpop(Pop(g), Last(g)), r)
                             && |r.placed| - |g.placed| == |g.candidates| - |r.candidates|)
    requires Consistent(Pop(g)) ==> Consistent(r)
    ensures IsSolved(r) || r == Pop(g)
    ensures Consistent(g) ==> Consistent(r)
    ensures Descends(g, r)
    ensures IsSolved(r) ==> |r.placed| - |g.placed| == |g.candidates| - |r.candidates|
  {
    DescendsPop(g);
  }

  /** What a trial's recursive search result says about the state before
      the pop. */
  lemma TrialSound(g: GameState, piece: Block, n: nat, o: nat, box: Box, res: GameState)
    requires n < 27 && o < 24
    requires Place(g.box, Rotations(piece)[o], CellAt(n)) == Ok(box)
    requires var trial := GameState(g.candidates, g.placed + [piece.(coords := Rotations(piece)[o], origin := CellAt(n))], box);
             && (Consistent(trial) ==> Consistent(res))
             && Descends(trial, res)
             && (IsSolved(res) ==> |res.placed| - |trial.placed| == |trial.candidates| - |res.candidates|)
    ensures IsSolved(res) ==> Descends(Unpop(g, piece), res)
                              && |res.placed| - |g.placed| == |g.candidates| + 1 - |res.candidates|
    ensures Consistent(g) ==> Consistent(res)
    ensures |res.placed| > |g.placed|
            && res.placed[|g.placed|] == piece.(coords := Rotations(piece)[o], origin := CellAt(n))
  {
    var p := piece.(coords := Rotations(piece)[o], origin := CellAt(n));
    assert res.placed[..|g.placed| + 1] == g.placed + [p];
    assert res.placed[|g.placed|] == res.placed[..|g.placed| + 1][|g.placed|];
    TrialConsistent(g, p, box);
    TrialDescends(g, piece, p, res);
  }

  lemma TrialConsistent(g: GameState, p: Block, box: Box)
    requires Place(g.box, p.coords, p.origin) == Ok(box)
    ensures Consistent(g) ==> Consistent(GameState(g.candidates, g.placed + [p], box))
  {
    if Consistent(g) {
      var ps := g.placed + [p];
      PlaceFills(g.box, p.coords, p.origin);
      assert ps[..|ps| - 1] == g.placed;
      forall i | 0 <= i < |g.placed|
        ensures Cells(g.placed[i]) !! Cells(p)
      {
        CoveredContains(g.placed, i);
      }
    }
  }

  lemma {:induction false} CoveredContains(ps: seq<Block>, i: nat)
    requires i < |ps|
    ensures Cells(ps[i]) <= Covered(ps)
    decreases |ps|
  {
    if i < |ps| - 1 {
      CoveredContains(ps[..|ps| - 1], i);
    }
  }

  lemma TrialDescends(g: GameState, piece: Block, p: Block, res: GameState)
    requires PlacementOf(p, piece)
    requires Descends(GameState(g.candidates, g.placed + [p], res.box), res)
    ensures Descends(Unpop(g, piece), res)
  {
  }

  /** `solve` on an unsolved state with candidates: it returns the result of
      the first successful trial of the last candidate, or the popped input
      when no trial succeeds. */
  lemma SolveOrder(g: GameState)
    requires !IsSolved(g) && |g.candidates| > 0
    ensures NoneFrom(Trials(Pop(g), Last(g)), 0) ==> Solve(g) == Pop(g)
    ensures forall m: nat, o: nat :: FirstFrom(Trials(Pop(g), Last(g)), 0, m, o) ==>
              && m < 27 && o < 24 && Attempt(Pop(g), Last(g), m, o).Some?
              && Solve(g) == Attempt(Pop(g), Last(g), m, o).value
              && |Solve(g).placed| > |g.placed|
              && Solve(g).placed[|g.placed|] == Last(g).(coords := Rotations(Last(g))[o], origin := CellAt(m))
  {
    TryAnchorsOrder(Pop(g), Last(g), 0);
    assert Solve(g) == TryAnchors(Pop(g), Last(g), 0);
    forall m: nat, o: nat | FirstFrom(Trials(Pop(g), Last(g)), 0, m, o)
      ensures m < 27 && o < 24 && Attempt(Pop(g), Last(g), m, o).Some?
              && Solve(g) == Attempt(Pop(g), Last(g), m, o).value
    {
      assert AttemptsAt(Pop(g), Last(g), m)(o) == Attempt(Pop(g), Last(g), m, o);
    }
  }

  /** A consistent solved state is a tiling of the box: the placed pieces
      lie in the box, do not overlap, and cover all 27 cells. */
  lemma SolvedIsTiling(g: GameState)
    requires Consistent(g)
    ensures IsSolved(g) <==> Covered(g.placed) == AllCells()
    ensures IsSolved(g) <==> NumFilled(g.box) == 27
  {
    FilledIffCount(g.box);
  }

  /** A state with an empty box and nothing placed, as a new game starts,
      is consistent. */
  lemma StartConsistent(g: GameState)
    requires g.placed == [] && g.box == Empty()
    ensures Consistent(g)
    ensures !IsSolved(g)
  {
    assert forall k :: 0 <= k < 27 ==> g.box.cells[k] == 0;
    assert g.box.cells[0] != 1;
  }

  /** A solved descendant of a consistent state with nothing placed: the
      `i`th placed piece is the `i`th candidate counted from the end, and the
      placed pieces tile the box. */
  lemma SolvedFromStart(g: GameState, r: GameState)
    requires g.placed == [] && Consistent(g) && Consistent(r) && Descends(g, r)
    requires IsSolved(r) ==> |r.placed| - |g.placed| == |g.candidates| - |r.candidates|
    ensures IsSolved(r) ==> |r.placed| + |r.candidates| == |g.candidates|
    ensures forall i :: 0 <= i < |r.placed| ==>
              PlacementOf(r.placed[i], g.candidates[|g.candidates| - 1 - i])
    ensures IsSolved(r) ==> Covered(r.placed) == AllCells()
    ensures forall i, j :: 0 <= i < j < |r.placed| ==> Cells(r.placed[i]) !! Cells(r.placed[j])
  {
    SolvedIsTiling(r);
  }

  /** `solve` from an empty box with nothing placed: a solved result places
      pieces taken from the end of the candidate list, one each, each in a
      generated orientation at an anchor in the box, and together they tile
      the box. An unsolved result still has an empty box. */
  lemma SolveFromStart(g: GameState)
    requires g.placed == [] && g.box == Empty()
    ensures var r := Solve(g);
            IsSolved(r) ==>
              && |r.placed| + |r.candidates| == |g.candidates|
              && (forall i :: 0 <= i < |r.placed| ==>
                    PlacementOf(r.placed[i], g.candidates[|g.candidates| - 1 - i]))
              && Covered(r.placed) == AllCells()
              && (forall i, j :: 0 <= i < j < |r.placed| ==> Cells(r.placed[i]) !! Cells(r.placed[j]))
    ensures var r := Solve(g);
            !IsSolved(r) ==> r.box == Empty() && r.placed == []
  {
    var r := Solve(g);
    StartConsistent(g);
    SolvedFromStart(g, r);
  }

  /** What the program's entry point gets back from `solve` on a new game:
      a reported solution places pieces taken from the end of the list, one
      each, each in a generated orientation at an anchor in the box, and
      together they tile the box. Otherwise the box is still empty. */
  lemma SolveNewGame(blockList: seq<seq<Vec>>)
    ensures |NewGame(blockList).candidates| == |blockList|
    ensures var g := NewGame(blockList);
            var r := Solve(g);
            IsSolved(r) ==>
              && |r.placed| + |r.candidates| == |g.candidates|
              && (forall i :: 0 <= i < |r.placed| ==>
                    PlacementOf(r.placed[i], g.candidates[|g.candidates| - 1 - i]))
              && Covered(r.placed) == AllCells()
              && (forall i, j :: 0 <= i < j < |r.placed| ==> Cells(r.placed[i]) !! Cells(r.placed[j]))
    ensures var r := Solve(NewGame(blockList));
            !IsSolved(r) ==> r.box == Empty() && r.placed == []
  {
    SolveFromStart(NewGame(blockList));
  }
}
