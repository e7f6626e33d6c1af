/** The backtracking search: a state machine over a stack of placements that
    always fills the first free cell of the board, tries pieces in id order
    and rotations in index order, records every full board as a solution and
    resumes after the last choice when it backs up. */
module Search {
  import opened Types
  import opened Rotations
  import opened Pieces
  import opened Store
  import opened Boards
  import opened Covers
  import opened Ranks

  datatype SolverState = Placing | Backtracking | Done

  function Max(a: int, b: int): int
  {
    if a < b then b else a
  }

  /** (id, r) comes at or after the resume point (sid, sr) in search order. */
  predicate From(id: int, r: int, sid: int, sr: int)
  {
    id > sid || (id == sid && r >= sr)
  }

  /** (id, r) is tried strictly before (id', r'). */
  predicate Precedes(id: int, r: int, id': int, r': int)
  {
    id < id' || (id == id' && r < r')
  }

  /** Where a rotation goes so that its leftmost top-row pip lands on target. */
  function Origin(target: Point, rot: PieceRotation): Point
  {
    Point(target.x - rot.topPipX, target.y)
  }

  /** The first free cell of the grid the stack leaves. */
  function TargetOf(pb: Problem, s: seq<PlacedPiece>): Option<Point>
  {
    Target(pb.size, Grid(pb, s))
  }

  /** The rotation does not reach left of the board when its leftmost
      top-row pip sits on target, and it fits grid g at its origin there. */
  predicate Fitting(g: seq<bool>, size: Size, rot: PieceRotation, target: Point)
  {
    rot.topPipX <= target.x && Fits(g, size, rot, Origin(target, rot))
  }

  /** With stack s and its grid g, rotation r of piece id can cover target: a
      copy of the piece is still available, the rotation exists, and it fits. */
  ghost predicate Admissible(pb: Problem, s: seq<PlacedPiece>, g: seq<bool>, target: Point, id: int, r: int)
  {
    && 0 <= id < |pb.pieces| && id < |pb.counts| && pb.counts[id] - Uses(s, id) > 0
    && 0 <= r < |pb.pieces[id].rotations|
    && Fitting(g, pb.size, pb.pieces[id].rotations[r], target)
  }

  /** c is the first admissible choice for the next free cell at or after (sid, sr). */
  ghost predicate Chosen(pb: Problem, s: seq<PlacedPiece>, sid: int, sr: int, c: PlacedPiece)
  {
    && TargetOf(pb, s).Some?
    && var target, g := TargetOf(pb, s).value, Grid(pb, s);
       && From(c.id, c.rotation, sid, sr)
       && Admissible(pb, s, g, target, c.id, c.rotation)
       && c.position == Origin(target, pb.pieces[c.id].rotations[c.rotation])
       && forall id, r :: From(id, r, sid, sr) && Precedes(id, r, c.id, c.rotation) ==> !Admissible(pb, s, g, target, id, r)
  }

  /** There is a free cell, and nothing at or after (sid, sr) can cover it. */
  ghost predicate NoChoice(pb: Problem, s: seq<PlacedPiece>, sid: int, sr: int)
  {
    && TargetOf(pb, s).Some?
    && forall id, r :: From(id, r, sid, sr) ==> !Admissible(pb, s, Grid(pb, s), TargetOf(pb, s).value, id, r)
  }

  /** One placement attempt from stack s resuming at (sid, sr): a full board
      records s as a solution and stops once the cap is reached, otherwise
      the first admissible choice is pushed, otherwise the search backs up. */
  ghost predicate Step(pb: Problem, max: int, s: seq<PlacedPiece>, all: seq<seq<PlacedPiece>>, sid: int, sr: int,
                       s': seq<PlacedPiece>, all': seq<seq<PlacedPiece>>, st': SolverState)
  {
    if TargetOf(pb, s).None? then
      s' == s && all' == all + [s] && st' == (if |all'| >= max then Done else Backtracking)
    else
      && all' == all
      && ((st' == Placing && |s'| == |s| + 1 && s'[..|s|] == s && Chosen(pb, s, sid, sr, s'[|s|]))
          || (st' == Backtracking && s' == s && NoChoice(pb, s, sid, sr)))
  }

  ghost predicate ValidPieces(pb: Problem)
  {
    forall id :: 0 <= id < |pb.pieces| ==> ValidPiece(pb.pieces[id])
  }

  /** A chosen placement can be pushed, and it covers the cell it was chosen
      for: its origin has x >= 0 and its leftmost top-row pip lands on the
      first free cell. */
  lemma ChosenCoversTarget(pb: Problem, s: seq<PlacedPiece>, sid: int, sr: int, c: PlacedPiece)
    requires ValidPieces(pb) && Chosen(pb, s, sid, sr, c)
    ensures Placeable(pb, s, c)
    ensures Index(pb.size, TargetOf(pb, s).value) in Footprint(pb, c)
  {
    var target := TargetOf(pb, s).value;
    var rot := pb.pieces[c.id].rotations[c.rotation];
    assert WellFormed(rot);
    assert Offset(c.position, Point(rot.topPipX, 0)) == target;
  }

  /** The position of a choice in search order. */
  function Choice(c: PlacedPiece): int
  {
    c.id * 4 + c.rotation
  }

  /** The digit vector of a search state over a catalogue of a / 4 pieces:
      one digit per stacked choice, larger for earlier choices, then a + 1
      when the next cell is still to be tried from the first choice, then
      zeros up to length len. */
  function Frontier(s: seq<PlacedPiece>, placing: bool, a: int, len: nat): seq<int>
  {
    seq(len, i requires 0 <= i < len => if i < |s| then a - Choice(s[i]) else if i == |s| && placing then a + 1 else 0)
  }

  function StateRank(st: SolverState): nat
  {
    match st
    case Done => 0
    case Backtracking => 1
    case Placing => 2
  }

  /** The termination measure of the search loop: the frontier read as a
      number in base 4 * |pieces| + 2. */
  function Measure(pb: Problem, s: seq<PlacedPiece>, st: SolverState): int
  {
    Rank(Frontier(s, st == Placing, 4 * |pb.pieces|, CellCount(pb.size) + 1), 4 * |pb.pieces| + 2)
  }

  /** What the measure needs of a stack: it is no deeper than the board has
      cells, and every choice names a piece and one of at most four rotations. */
  predicate Bounded(pb: Problem, s: seq<PlacedPiece>)
  {
    && |s| <= CellCount(pb.size)
    && forall i :: 0 <= i < |s| ==> 0 <= s[i].id < |pb.pieces| && 0 <= s[i].rotation < 4
  }

  lemma StackedBounded(pb: Problem, s: seq<PlacedPiece>)
    requires ValidPieces(pb) && Stacked(pb, s)
    ensures Bounded(pb, s)
  {
    StackBound(pb, s);
    StackedOnBoard(pb, s);
    forall i | 0 <= i < |s| ensures 0 <= s[i].id < |pb.pieces| && 0 <= s[i].rotation < 4 {
      assert ValidPiece(pb.pieces[s[i].id]);
    }
  }

  /** Bounded choices are digits: each lies below 4 * |pieces|. */
  lemma ChoiceBound(n: int, c: PlacedPiece)
    requires 0 <= c.id < n && 0 <= c.rotation < 4
    ensures 0 <= Choice(c) < 4 * n
  {
  }

  /** The frontier of (s, st) is a vector of digits of the measure's base. */
  predicate MeasureDigits(pb: Problem, s: seq<PlacedPiece>, st: SolverState)
  {
    Digits(Frontier(s, st == Placing, 4 * |pb.pieces|, CellCount(pb.size) + 1), 4 * |pb.pieces| + 2)
  }

  lemma FrontierDigits(pb: Problem, s: seq<PlacedPiece>, st: SolverState)
    requires Bounded(pb, s)
    ensures MeasureDigits(pb, s, st) && 0 <= Measure(pb, s, st)
  {
    var a, len := 4 * |pb.pieces|, CellCount(pb.size) + 1;
    var f := Frontier(s, st == Placing, a, len);
    forall i | 0 <= i < len ensures 0 <= f[i] < a + 2 {
      if i < |s| {
        ChoiceBound(|pb.pieces|, s[i]);
      }
    }
    RankBound(f, a + 2);
  }

  lemma FrontierAgree(s1: seq<PlacedPiece>, p1: bool, s2: seq<PlacedPiece>, p2: bool, a: int, len: nat, j: nat)
    requires j <= |s1| && j <= |s2| && j <= len && s1[..j] == s2[..j]
    ensures Frontier(s1, p1, a, len)[..j] == Frontier(s2, p2, a, len)[..j]
  {
    forall i | 0 <= i < j ensures Frontier(s1, p1, a, len)[i] == Frontier(s2, p2, a, len)[i] {
      assert s1[i] == s1[..j][i] == s2[..j][i] == s2[i];
    }
  }

  /** Pushing a choice lowers the measure. */
  lemma PushMeasure(pb: Problem, s: seq<PlacedPiece>, c: PlacedPiece)
    requires |s| < CellCount(pb.size) + 1 && 0 <= Choice(c)
    requires MeasureDigits(pb, s + [c], Placing) && MeasureDigits(pb, s, Placing)
    ensures Measure(pb, s + [c], Placing) < Measure(pb, s, Placing)
  {
    var a, len := 4 * |pb.pieces|, CellCount(pb.size) + 1;
    assert (s + [c])[..|s|] == s;
    FrontierAgree(s + [c], true, s, true, a, len, |s|);
    LexRank(Frontier(s + [c], true, a, len), Frontier(s, true, a, len), a + 2, |s|);
  }

  /** Leaving the Placing state with the stack kept lowers the measure. */
  lemma PauseMeasure(pb: Problem, s: seq<PlacedPiece>, st: SolverState)
    requires |s| < CellCount(pb.size) + 1 && st != Placing
    requires MeasureDigits(pb, s, st) && MeasureDigits(pb, s, Placing)
    ensures Measure(pb, s, st) < Measure(pb, s, Placing)
  {
    var a, len := 4 * |pb.pieces|, CellCount(pb.size) + 1;
    FrontierAgree(s, false, s, true, a, len, |s|);
    LexRank(Frontier(s, false, a, len), Frontier(s, true, a, len), a + 2, |s|);
  }

  /** Replacing the top choice by a later one lowers the measure. */
  lemma ResumeMeasure(pb: Problem, t: seq<PlacedPiece>, c: PlacedPiece, c': PlacedPiece)
    requires |t| < CellCount(pb.size) + 1 && Choice(c) < Choice(c')
    requires MeasureDigits(pb, t + [c'], Placing) && MeasureDigits(pb, t + [c], Backtracking)
    ensures Measure(pb, t + [c'], Placing) < Measure(pb, t + [c], Backtracking)
  {
    var a, len := 4 * |pb.pieces|, CellCount(pb.size) + 1;
    assert (t + [c])[..|t|] == t == (t + [c'])[..|t|];
    FrontierAgree(t + [c'], true, t + [c], false, a, len, |t|);
    LexRank(Frontier(t + [c'], true, a, len), Frontier(t + [c], false, a, len), a + 2, |t|);
  }

  /** Dropping the top choice lowers the measure. */
  lemma PopMeasure(pb: Problem, t: seq<PlacedPiece>, c: PlacedPiece, st: SolverState)
    requires |t| < CellCount(pb.size) + 1 && Choice(c) < 4 * |pb.pieces| && st != Placing
    requires MeasureDigits(pb, t, st) && MeasureDigits(pb, t + [c], Backtracking)
    ensures Measure(pb, t, st) < Measure(pb, t + [c], Backtracking)
  {
    var a, len := 4 * |pb.pieces|, CellCount(pb.size) + 1;
    assert (t + [c])[..|t|] == t;
    FrontierAgree(t, false, t + [c], false, a, len, |t|);
    LexRank(Frontier(t, false, a, len), Frontier(t + [c], false, a, len), a + 2, |t|);
  }

  /** What a placement attempt does to the stack: it pushes one choice at or
      after the resume point, or leaves the stack as it was. */
  lemma StepShape(pb: Problem, max: int, s: seq<PlacedPiece>, all: seq<seq<PlacedPiece>>, sid: int, sr: int,
                  s': seq<PlacedPiece>, all': seq<seq<PlacedPiece>>, st': SolverState)
    requires Step(pb, max, s, all, sid, sr, s', all', st')
    ensures st' == Placing ==> |s'| == |s| + 1 && s'[..|s|] == s && From(s'[|s|].id, s'[|s|].rotation, sid, sr)
    ensures st' != Placing ==> s' == s
    ensures all' == all || all' == all + [s]
  {
  }

  /** A placement pushed from the Placing state lowers the measure. */
  lemma PushDecreases(pb: Problem, s: seq<PlacedPiece>, c: PlacedPiece)
    requires Bounded(pb, s + [c])
    ensures 0 <= Measure(pb, s + [c], Placing) < Measure(pb, s, Placing)
  {
    assert (s + [c])[|s|] == c;
    assert Bounded(pb, s) by {
      forall i | 0 <= i < |s| ensures s[i] == (s + [c])[i] { }
    }
    FrontierDigits(pb, s, Placing);
    FrontierDigits(pb, s + [c], Placing);
    PushMeasure(pb, s, c);
  }

  /** Leaving the Placing state with the stack unchanged lowers the measure. */
  lemma PauseDecreases(pb: Problem, s: seq<PlacedPiece>, st: SolverState)
    requires Bounded(pb, s) && st != Placing
    ensures 0 <= Measure(pb, s, st) < Measure(pb, s, Placing)
  {
    FrontierDigits(pb, s, Placing);
    FrontierDigits(pb, s, st);
    PauseMeasure(pb, s, st);
  }

  /** Every placement attempt from the Placing state lowers the measure. */
  lemma PlacingStepDecreases(pb: Problem, s: seq<PlacedPiece>, s': seq<PlacedPiece>, st': SolverState)
    requires Bounded(pb, s')
    requires st' == Placing ==> |s'| == |s| + 1 && s'[..|s|] == s
    requires st' != Placing ==> s' == s
    ensures 0 <= Measure(pb, s', st') < Measure(pb, s, Placing)
  {
    if st' == Placing {
      var c := s'[|s|];
      assert s' == s + [c];
      PushDecreases(pb, s, c);
    } else {
      PauseDecreases(pb, s, st');
    }
  }

  /** Resuming after the top choice with a later one lowers the measure. */
  lemma ResumeDecreases(pb: Problem, t: seq<PlacedPiece>, c: PlacedPiece, c': PlacedPiece)
    requires Bounded(pb, t + [c]) && Bounded(pb, t + [c'])
    requires From(c'.id, c'.rotation, c.id, c.rotation + 1)
    ensures 0 <= Measure(pb, t + [c'], Placing) < Measure(pb, t + [c], Backtracking)
  {
    assert (t + [c])[|t|] == c && (t + [c'])[|t|] == c';
    if c'.id > c.id {
      assert c'.id * 4 >= c.id * 4 + 4;
    }
    FrontierDigits(pb, t + [c], Backtracking);
    FrontierDigits(pb, t + [c'], Placing);
    ResumeMeasure(pb, t, c, c');
  }

  /** Dropping the top choice for good lowers the measure. */
  lemma PopDecreases(pb: Problem, t: seq<PlacedPiece>, c: PlacedPiece, st: SolverState)
    requires Bounded(pb, t + [c]) && st != Placing
    ensures 0 <= Measure(pb, t, st) < Measure(pb, t + [c], Backtracking)
  {
    assert (t + [c])[|t|] == c;
    assert Bounded(pb, t) by {
      forall i | 0 <= i < |t| ensures t[i] == (t + [c])[i] { }
    }
    ChoiceBound(|pb.pieces|, c);
    FrontierDigits(pb, t + [c], Backtracking);
    FrontierDigits(pb, t, st);
    PopMeasure(pb, t, c, st);
  }

  /** Backing up from a non-empty stack and resuming after its top choice
      lowers the measure. */
  lemma BacktrackStepDecreases(pb: Problem, s: seq<PlacedPiece>, s': seq<PlacedPiece>, st': SolverState)
    requires Bounded(pb, s) && Bounded(pb, s') && s != []
    requires var t, c := s[..|s| - 1], s[|s| - 1];
      && (st' == Placing ==> |s'| == |t| + 1 && s'[..|t|] == t && From(s'[|t|].id, s'[|t|].rotation, c.id, c.rotation + 1))
      && (st' != Placing ==> s' == t)
    ensures 0 <= Measure(pb, s', st') < Measure(pb, s, Backtracking)
  {
    var t, c := s[..|s| - 1], s[|s| - 1];
    assert s == t + [c];
    if st' == Placing {
      var c' := s'[|t|];
      assert s' == t + [c'];
      ResumeDecreases(pb, t, c, c');
    } else {
      PopDecreases(pb, t, c, st');
    }
  }

  /** A grid of a board with columns that has no first free cell is full. */
  lemma TargetNoneFull(size: Size, cells: seq<bool>)
    requires size.width > 0 && Target(size, cells).None?
    ensures forall i :: 0 <= i < |cells| ==> cells[i]
  {
  }

  /** A step records a solution exactly when the board is full, and what it
      records is an exact cover; otherwise the solutions stay as they were. */
  lemma StepRecords(pb: Problem, max: int, s: seq<PlacedPiece>, all: seq<seq<PlacedPiece>>, sid: int, sr: int,
                    s': seq<PlacedPiece>, all': seq<seq<PlacedPiece>>, st': SolverState)
    requires Step(pb, max, s, all, sid, sr, s', all', st') && Stacked(pb, s') && pb.size.width > 0
    ensures TargetOf(pb, s).None? ==>
      all' == all + [s] && ExactCover(pb, s) && st' == (if |all'| >= max then Done else Backtracking)
    ensures TargetOf(pb, s).Some? ==> all' == all
    ensures st' == Done ==> |all'| >= max && TargetOf(pb, s).None?
  {
    if TargetOf(pb, s).None? {
      assert s' == s;
      TargetNoneFull(pb.size, Grid(pb, s));
      FullStackIsExactCover(pb, s);
    }
  }

  /** The inventory mirrors the stack: every current count is the registered
      count less the stack's uses of that id, less one more for held while it
      is checked out (held = -1 when no piece is). */
  predicate Ledger(pb: Problem, current: seq<int>, s: seq<PlacedPiece>, held: int)
  {
    && |current| == |pb.counts|
    && forall id :: 0 <= id < |current| ==> current[id] == pb.counts[id] - Uses(s, id) - (if id == held then 1 else 0)
  }

  /** Checking a piece out holds one copy of it. */
  lemma LedgerCheckOut(pb: Problem, current: seq<int>, s: seq<PlacedPiece>, id: int)
    requires Ledger(pb, current, s, -1) && 0 <= id < |current|
    ensures Ledger(pb, current[id := current[id] - 1], s, id)
  {
  }

  /** Checking the held piece back in restores the ledger of the stack. */
  lemma LedgerCheckIn(pb: Problem, current: seq<int>, s: seq<PlacedPiece>, id: int)
    requires Ledger(pb, current, s, id) && 0 <= id < |current|
    ensures Ledger(pb, current[id := current[id] + 1], s, -1)
  {
  }

  /** Pushing a placement of the held piece accounts for the held copy. */
  lemma LedgerPush(pb: Problem, current: seq<int>, s: seq<PlacedPiece>, c: PlacedPiece)
    requires Ledger(pb, current, s, c.id)
    ensures Ledger(pb, current, s + [c], -1)
  {
    Push(pb, s, c);
  }

  /** Popping a placement leaves its piece held. */
  lemma LedgerPop(pb: Problem, current: seq<int>, s: seq<PlacedPiece>)
    requires s != [] && Ledger(pb, current, s, -1)
    ensures Ledger(pb, current, s[..|s| - 1], s[|s| - 1].id)
  {
  }

  /** Every candidate from the resume point (sid, sr) with an id below k is
      ruled out. */
  ghost predicate Ruled(pb: Problem, s: seq<PlacedPiece>, g: seq<bool>, target: Point, sid: int, sr: int, k: int)
  {
    forall id, r :: From(id, r, sid, sr) && id < k ==> !Admissible(pb, s, g, target, id, r)
  }

  /** Ruling out every candidate of piece k extends the ruled range past k. */
  lemma RuledNext(pb: Problem, s: seq<PlacedPiece>, g: seq<bool>, target: Point, sid: int, sr: int, k: int)
    requires Ruled(pb, s, g, target, sid, sr, k)
    requires forall r :: From(k, r, sid, sr) ==> !Admissible(pb, s, g, target, k, r)
    ensures Ruled(pb, s, g, target, sid, sr, k + 1)
  {
  }

  /** A piece out of stock admits no rotation. */
  lemma OutOfStock(pb: Problem, s: seq<PlacedPiece>, g: seq<bool>, target: Point, current: seq<int>, id: int)
    requires Ledger(pb, current, s, -1) && 0 <= id < |current| && current[id] <= 0
    ensures forall r :: !Admissible(pb, s, g, target, id, r)
  {
  }

  /** When no rotation from the first one tried is admissible, nothing at or
      after the resume point admits piece id: the first one tried is the
      resume rotation for the resumed piece and rotation 0 for later pieces. */
  lemma PieceRuledOut(pb: Problem, s: seq<PlacedPiece>, g: seq<bool>, target: Point, id: int, sid: int, sr: int)
    requires 0 <= sr
    requires forall r :: (if id == sid then sr else 0) <= r ==> !Admissible(pb, s, g, target, id, r)
    ensures forall r :: From(id, r, sid, sr) ==> !Admissible(pb, s, g, target, id, r)
  {
  }

  /** A fitting rotation of a piece in stock, with every earlier candidate
      from the resume point ruled out, is the choice of the step. */
  lemma FirstAdmissible(pb: Problem, s: seq<PlacedPiece>, sid: int, sr: int, c: PlacedPiece)
    requires TargetOf(pb, s).Some? && 0 <= sr
    requires var target, g := TargetOf(pb, s).value, Grid(pb, s);
      && From(c.id, c.rotation, sid, sr)
      && Admissible(pb, s, g, target, c.id, c.rotation)
      && c.position == Origin(target, pb.pieces[c.id].rotations[c.rotation])
      && Ruled(pb, s, g, target, sid, sr, c.id)
      && forall r :: (if c.id == sid then sr else 0) <= r < c.rotation ==> !Fitting(g, pb.size, pb.pieces[c.id].rotations[r], target)
    ensures Chosen(pb, s, sid, sr, c)
  {
  }

  /** Popping a stacked placement: the rest is stacked, the placement is
      valid and on the board, and clearing its cells gives the rest's grid. */
  lemma PopFacts(pb: Problem, s: seq<PlacedPiece>)
    requires s != [] && Stacked(pb, s)
    ensures var t, c := s[..|s| - 1], s[|s| - 1];
      && Stacked(pb, t) && PlacementValid(pb.pieces, c) && c.position.x >= 0 && c.position.y >= 0
      && (forall p :: p in RotationOf(pb.pieces, c).pips ==> InBounds(pb.size, Offset(c.position, p)))
      && Marked(Grid(pb, s), Footprint(pb, c), false) == Grid(pb, t)
  {
    var t, c := s[..|s| - 1], s[|s| - 1];
    PlaceableCells(pb, t, c);
    AddRemoveRoundTrip(Grid(pb, t), pb.size, RotationOf(pb.pieces, c), c.position);
  }

  /** Pushing the chosen placement keeps the stack stacked and fills its cells. */
  lemma PushFacts(pb: Problem, s: seq<PlacedPiece>, sid: int, sr: int, c: PlacedPiece)
    requires Stacked(pb, s) && Chosen(pb, s, sid, sr, c) && ValidPieces(pb)
    ensures Stacked(pb, s + [c]) && Grid(pb, s + [c]) == Marked(Grid(pb, s), Footprint(pb, c), true)
    ensures (s + [c])[..|s|] == s && (s + [c])[|s|] == c && |s + [c]| == |s| + 1
  {
    ChosenCoversTarget(pb, s, sid, sr, c);
    Push(pb, s, c);
    PushPrefix(s, c);
  }

  /** Pushing the first admissible candidate is a placing step: the stack
      stays stacked and the grid gains exactly the candidate's cells. */
  lemma PlaceStep(pb: Problem, max: int, s: seq<PlacedPiece>, all: seq<seq<PlacedPiece>>, sid: int, sr: int, c: PlacedPiece)
    requires Stacked(pb, s) && ValidPieces(pb) && TargetOf(pb, s).Some? && 0 <= sr
    requires var target, g := TargetOf(pb, s).value, Grid(pb, s);
      && From(c.id, c.rotation, sid, sr)
      && Admissible(pb, s, g, target, c.id, c.rotation)
      && c.position == Origin(target, pb.pieces[c.id].rotations[c.rotation])
      && Ruled(pb, s, g, target, sid, sr, c.id)
      && forall r :: (if c.id == sid then sr else 0) <= r < c.rotation ==> !Fitting(g, pb.size, pb.pieces[c.id].rotations[r], target)
    ensures Stacked(pb, s + [c]) && Grid(pb, s + [c]) == Marked(Grid(pb, s), Footprint(pb, c), true)
    ensures Step(pb, max, s, all, sid, sr, s + [c], all, Placing)
  {
    FirstAdmissible(pb, s, sid, sr, c);
    PushFacts(pb, s, sid, sr, c);
  }

  /** With every candidate of every piece ruled out the step backs up. */
  lemma NoFitStep(pb: Problem, max: int, s: seq<PlacedPiece>, all: seq<seq<PlacedPiece>>, sid: int, sr: int)
    requires TargetOf(pb, s).Some?
    requires Ruled(pb, s, Grid(pb, s), TargetOf(pb, s).value, sid, sr, |pb.pieces|)
    ensures Step(pb, max, s, all, sid, sr, s, all, Backtracking)
  {
  }

  /** A full grid is a recording step. */
  lemma FullStep(pb: Problem, max: int, s: seq<PlacedPiece>, all: seq<seq<PlacedPiece>>, sid: int, sr: int)
    requires TargetOf(pb, s).None?
    ensures Step(pb, max, s, all, sid, sr, s, all + [s], if |all| + 1 >= max then Done else Backtracking)
  {
  }

  /** Popping the top placement c of a stacked, accounted stack s: c is a
      valid placement lying on the board, clearing its cells gives the grid
      of the rest, the rest is stacked, and checking c's piece back in
      restores the ledger of the rest. */
  lemma PopStep(pb: Problem, s: seq<PlacedPiece>, current: seq<int>)
    requires s != [] && Stacked(pb, s) && Ledger(pb, current, s, -1) && |pb.counts| == |pb.pieces|
    ensures var t, c := s[..|s| - 1], s[|s| - 1];
      && Stacked(pb, t) && PlacementValid(pb.pieces, c) && c.position.x >= 0 && c.position.y >= 0
      && (forall p :: p in RotationOf(pb.pieces, c).pips ==> InBounds(pb.size, Offset(c.position, p)))
      && Marked(Grid(pb, s), Footprint(pb, c), false) == Grid(pb, t)
      && c.id < |current| && current[c.id] + 1 <= pb.counts[c.id]
      && Ledger(pb, current[c.id := current[c.id] + 1], t, -1)
  {
    var t, c := s[..|s| - 1], s[|s| - 1];
    PopFacts(pb, s);
    LedgerPop(pb, current, s);
    LedgerCheckIn(pb, current, t, c.id);
  }

  /** What a run has done to the solution list that was there when it began
      (all0): kept it as a prefix, appended only exact covers, and stayed
      within the cap; until the run is done, it has either recorded nothing
      or fewer than max solutions in total. */
  ghost predicate Progress(pb: Problem, max: int, all0: seq<seq<PlacedPiece>>, all: seq<seq<PlacedPiece>>, st: SolverState)
  {
    && |all0| <= |all| && all[..|all0|] == all0
    && (forall k :: |all0| <= k < |all| ==> ExactCover(pb, all[k]))
    && |all| <= Max(|all0| + 1, max)
    && (st != Done ==> |all| == |all0| || |all| < max)
  }

  /** A step that records nothing, or records an exact cover and stops
      exactly when the cap is reached, keeps the run's progress. */
  lemma Record(pb: Problem, max: int, all0: seq<seq<PlacedPiece>>, all: seq<seq<PlacedPiece>>, st: SolverState,
               s: seq<PlacedPiece>, all': seq<seq<PlacedPiece>>, st': SolverState)
    requires Progress(pb, max, all0, all, st) && st != Done
    requires all' == all || (all' == all + [s] && ExactCover(pb, s) && st' == (if |all'| >= max then Done else Backtracking))
    ensures Progress(pb, max, all0, all', st')
  {
    if all' != all {
      assert all'[..|all0|] == all[..|all0|];
      assert forall k :: |all0| <= k < |all| ==> all'[k] == all[k];
    }
  }

  /** A round in the Placing state keeps the run's progress and lowers the
      measure. */
  lemma PlacingRound(pb: Problem, max: int, all0: seq<seq<PlacedPiece>>, s: seq<PlacedPiece>, all: seq<seq<PlacedPiece>>,
                     s': seq<PlacedPiece>, all': seq<seq<PlacedPiece>>, st': SolverState)
    requires ValidPieces(pb) && pb.size.width > 0 && Stacked(pb, s) && Stacked(pb, s')
    requires Step(pb, max, s, all, 0, 0, s', all', st') && Progress(pb, max, all0, all, Placing)
    ensures Progress(pb, max, all0, all', st')
    ensures 0 <= Measure(pb, s', st') < Measure(pb, s, Placing)
  {
    StepShape(pb, max, s, all, 0, 0, s', all', st');
    StepRecords(pb, max, s, all, 0, 0, s', all', st');
    Record(pb, max, all0, all, Placing, s, all', st');
    StackedBounded(pb, s');
    PlacingStepDecreases(pb, s, s', st');
  }

  /** What one backtrack does: from an empty stack the search is done with
      nothing changed; otherwise the search resumes with one placement attempt
      on the rest of the stack, just after the top placement's rotation. */
  ghost predicate BacktrackStep(pb: Problem, max: int, s: seq<PlacedPiece>, all: seq<seq<PlacedPiece>>,
                                s': seq<PlacedPiece>, all': seq<seq<PlacedPiece>>, st': SolverState)
  {
    if s == [] then st' == Done && s' == [] && all' == all
    else Step(pb, max, s[..|s| - 1], all, s[|s| - 1].id, s[|s| - 1].rotation + 1, s', all', st')
  }

  /** A round in the Backtracking state keeps the run's progress; it lowers
      the measure, or keeps it and moves to Done. */
  lemma BacktrackRound(pb: Problem, max: int, all0: seq<seq<PlacedPiece>>, s: seq<PlacedPiece>, all: seq<seq<PlacedPiece>>,
                       s': seq<PlacedPiece>, all': seq<seq<PlacedPiece>>, st': SolverState)
    requires ValidPieces(pb) && pb.size.width > 0 && Stacked(pb, s) && Stacked(pb, s')
    requires BacktrackStep(pb, max, s, all, s', all', st')
    requires Progress(pb, max, all0, all, Backtracking)
    ensures Progress(pb, max, all0, all', st')
    ensures 0 <= Measure(pb, s', st')
    ensures Measure(pb, s', st') < Measure(pb, s, Backtracking)
         || (Measure(pb, s', st') == Measure(pb, s, Backtracking) && StateRank(st') < StateRank(Backtracking))
  {
    StackedBounded(pb, s');
    if s == [] {
      Record(pb, max, all0, all, Backtracking, s, all', st');
      FrontierDigits(pb, s', st');
    } else {
      var t, c := s[..|s| - 1], s[|s| - 1];
      ResumeProgress(pb, max, all0, t, all, c.id, c.rotation + 1, s', all', st');
      StackedBounded(pb, s);
      ResumeDecrease(pb, max, s, all, s', all', st');
    }
  }

  /** The non-empty case of a backtracking round: the placement attempt that
      resumes after the top placement lowers the measure. */
  lemma ResumeDecrease(pb: Problem, max: int, s: seq<PlacedPiece>, all: seq<seq<PlacedPiece>>,
                       s': seq<PlacedPiece>, all': seq<seq<PlacedPiece>>, st': SolverState)
    requires Bounded(pb, s) && Bounded(pb, s') && s != []
    requires Step(pb, max, s[..|s| - 1], all, s[|s| - 1].id, s[|s| - 1].rotation + 1, s', all', st')
    ensures 0 <= Measure(pb, s', st') < Measure(pb, s, Backtracking)
  {
    var t, c := s[..|s| - 1], s[|s| - 1];
    StepShape(pb, max, t, all, c.id, c.rotation + 1, s', all', st');
    BacktrackStepDecreases(pb, s, s', st');
  }

  /** A step from a backtracking state keeps the search's progress. */
  lemma ResumeProgress(pb: Problem, max: int, all0: seq<seq<PlacedPiece>>, t: seq<PlacedPiece>, all: seq<seq<PlacedPiece>>,
                       sid: int, sr: int, s': seq<PlacedPiece>, all': seq<seq<PlacedPiece>>, st': SolverState)
    requires pb.size.width > 0 && Stacked(pb, s') && Step(pb, max, t, all, sid, sr, s', all', st')
    requires Progress(pb, max, all0, all, Backtracking)
    ensures Progress(pb, max, all0, all', st')
  {
    StepRecords(pb, max, t, all, sid, sr, s', all', st');
    Record(pb, max, all0, all, Backtracking, t, all', st');
  }

  /** The search engine: a board, the store it draws pieces from, the stack of
      placements, the state of the state machine and the solutions so far. */
  class Solver {
    const board: PieceBoard
    const store: PieceStore
    var placedPieces: seq<PlacedPiece>
    var state: SolverState
    var maxSolutions: int
    var allSolutions: seq<seq<PlacedPiece>>

    /** The problem the solver works on: its board size and the store's
        catalogue and registered counts. */
    ghost function Instance(): Problem
      reads store
    {
      Problem(board.size, store.pieces, store.initialCounts)
    }

    /** Between steps the board holds exactly the cells of the stacked
        placements, each stacked placement fitted when it was pushed, and the
        current counts are the registered counts less the stack's uses. */
    ghost predicate Consistent()
      reads this`placedPieces, board, board.filled, store
    {
      && board.Valid() && store.Valid()
      && board.filled[..] == Grid(Instance(), placedPieces)
      && Stacked(Instance(), placedPieces)
      && Ledger(Instance(), store.currentCounts, placedPieces, -1)
    }

    /** A solver on a fresh empty board of the given size, sharing the store;
        the board traps unless both sides are positive. */
    constructor(dimensions: Size, store: PieceStore)
      requires dimensions.width > 0 && dimensions.height > 0
      ensures this.store == store && board.size == dimensions && board.Valid() && fresh(board) && fresh(board.filled)
      ensures placedPieces == [] && state == Placing && maxSolutions == IntMax && allSolutions == []
    {
      board := new PieceBoard(dimensions);
      this.store := store;
      placedPieces := [];
      state := Placing;
      maxSolutions := IntMax;
      allSolutions := [];
    }

    /** A fresh run: the board is cleared, every checked-out piece returned,
        the stack emptied and the state set to Placing; the solutions of
        earlier runs are kept. Unless the registered pieces have exactly as
        many pips as the board has cells, and at least one, nothing is
        searched and the result is empty; otherwise the search runs to Done
        and the result is the solution list. */
    method Run(maxSolutions: int) returns (result: seq<seq<PlacedPiece>>)
      requires board.Valid() && store.Valid()
      modifies this`placedPieces, this`allSolutions, this`state, this`maxSolutions, board.filled, store`currentCounts
      ensures board.Valid() && store.Valid() && this.maxSolutions == maxSolutions
      ensures var total := PipTotal(store.pieces, store.initialCounts);
        !(total > 0 && total == board.size.width * board.size.height) ==>
          && result == [] && allSolutions == old(allSolutions) && placedPieces == [] && state == Placing
          && store.currentCounts == store.initialCounts && (forall i :: 0 <= i < board.filled.Length ==> !board.filled[i])
      ensures var total := PipTotal(store.pieces, store.initialCounts);
        total > 0 && total == board.size.width * board.size.height ==>
          && result == allSolutions && state == Done && Consistent()
          && Progress(Instance(), maxSolutions, old(allSolutions), allSolutions, Done)
    {
      board.Clear();
      store.ClearCheckouts();
      placedPieces := [];
      state := Placing;
      this.maxSolutions := maxSolutions;
      var totalPips := store.TotalPips();
      if !(totalPips > 0 && totalPips == board.size.width * board.size.height) {
        return [];
      }
      EmptyStack(Instance());
      assert board.filled[..] == Blank(CellCount(board.size));
      RunInternal();
      return allSolutions;
    }

    /** Drives the state machine until it is Done. Every round lowers the
        measure of the search position, or keeps it and moves to Done, so the
        loop ends; the run's progress on the solution list holds throughout. */
    method RunInternal()
      requires Consistent()
      modifies this`placedPieces, this`allSolutions, this`state, board.filled, store`currentCounts
      ensures Consistent() && state == Done && Instance() == old(Instance())
      ensures Progress(Instance(), maxSolutions, old(allSolutions), allSolutions, Done)
    {
      ghost var pb, all0 := Instance(), allSolutions;
      assert all0[..|all0|] == all0;
      while state != Done
        invariant Consistent() && Instance() == pb
        invariant Progress(pb, maxSolutions, all0, allSolutions, state)
        decreases Measure(pb, placedPieces, state), StateRank(state)
      {
        ghost var s, all := placedPieces, allSolutions;
        match state {
          case Placing =>
            PlaceNextPiece(0, 0);
            assert Step(Instance(), maxSolutions, s, all, 0, 0, placedPieces, allSolutions, state);
            assert Instance() == pb;
            PlacingRound(pb, maxSolutions, all0, s, all, placedPieces, allSolutions, state);
          case Backtracking =>
            Backtrack();
            assert BacktrackStep(Instance(), maxSolutions, s, all, placedPieces, allSolutions, state);
            assert Instance() == pb;
            BacktrackRound(pb, maxSolutions, all0, s, all, placedPieces, allSolutions, state);
        }
      }
    }

    /** One placement attempt resuming at (startingID, startingRotation). The
        source traps on a resume point past the catalogue, and on a rotation
        past the end of the resumed piece's list when that piece is in stock. */
    method PlaceNextPiece(startingID: int, startingRotation: int)
      requires Consistent() && state == Placing
      requires 0 <= startingID <= store.numIDs && 0 <= startingRotation
      requires startingID < store.numIDs && store.currentCounts[startingID] > 0 ==>
                 startingRotation <= |store.pieces[startingID].rotations|
      modifies this`placedPieces, this`allSolutions, this`state, board.filled, store`currentCounts
      ensures Consistent()
      ensures Step(Instance(), maxSolutions, old(placedPieces), old(allSolutions), startingID, startingRotation,
                   placedPieces, allSolutions, state)
    {
      ghost var pb, s := Instance(), placedPieces;
      var nextPoint := board.NextAvailable();
      if nextPoint.None? {
        FullStep(pb, maxSolutions, s, allSolutions, startingID, startingRotation);
        allSolutions := allSolutions + [placedPieces];
        if |allSolutions| >= maxSolutions {
          state := Done;
        } else {
          state := Backtracking;
        }
        return;
      }
      var target := nextPoint.value;
      ghost var g := board.filled[..];
      assert TargetOf(pb, s) == Some(target);
      var placed;
      ghost var c;
      placed, c := TryPieces(startingID, startingRotation, target, pb, s, g);
      assert Instance() == pb;
      if placed {
        PlaceStep(pb, maxSolutions, s, allSolutions, startingID, startingRotation, c);
        LedgerPush(pb, store.currentCounts, s, c);
        assert board.filled[..] == Grid(pb, placedPieces);
        return;
      }
      NoFitStep(pb, maxSolutions, s, allSolutions, startingID, startingRotation);
      state := Backtracking;
    }

    /** The piece loop of a placement attempt: tries every piece from
        startingID on, the resumed piece from startingRotation and later ones
        from rotation 0, and pushes the first candidate that fits target;
        when none does, every candidate is ruled out and nothing changes. */
    method TryPieces(startingID: int, startingRotation: int, target: Point, ghost pb: Problem, ghost s: seq<PlacedPiece>, ghost g: seq<bool>)
      returns (placed: bool, ghost c: PlacedPiece)
      requires board.Valid() && store.Valid() && Instance() == pb && placedPieces == s && board.filled[..] == g
      requires Ledger(pb, store.currentCounts, s, -1) && InBounds(board.size, target)
      requires 0 <= startingID <= store.numIDs && 0 <= startingRotation
      requires startingID < store.numIDs && store.currentCounts[startingID] > 0 ==>
                 startingRotation <= |store.pieces[startingID].rotations|
      modifies this`placedPieces, board.filled, store`currentCounts
      ensures board.Valid() && store.Valid()
      ensures !placed ==> && placedPieces == s && board.filled[..] == g && Ledger(pb, store.currentCounts, s, -1)
                          && Ruled(pb, s, g, target, startingID, startingRotation, |pb.pieces|)
      ensures placed ==> && placedPieces == s + [c] && board.filled[..] == Marked(g, Footprint(pb, c), true)
                         && Ledger(pb, store.currentCounts, s, c.id)
                         && From(c.id, c.rotation, startingID, startingRotation)
                         && Admissible(pb, s, g, target, c.id, c.rotation)
                         && c.position == Origin(target, pb.pieces[c.id].rotations[c.rotation])
                         && Ruled(pb, s, g, target, startingID, startingRotation, c.id)
                         && forall r :: (if c.id == startingID then startingRotation else 0) <= r < c.rotation ==>
                                          !Fitting(g, pb.size, pb.pieces[c.id].rotations[r], target)
    {
      c := PlacedPiece(0, 0, target);
      var pieceID := startingID;
      while pieceID < store.numIDs
        invariant startingID <= pieceID <= store.numIDs
        invariant board.Valid() && store.Valid() && board.filled[..] == g
        invariant Instance() == pb && placedPieces == s
        invariant Ledger(pb, store.currentCounts, s, -1)
        invariant pieceID == startingID ==> store.currentCounts == old(store.currentCounts)
        invariant Ruled(pb, s, g, target, startingID, startingRotation, pieceID)
      {
        var initialRotation := if pieceID == startingID then startingRotation else 0;
        placed, c := TryPiece(pieceID, initialRotation, target, pb, s, g);
        if placed {
          return;
        }
        PieceRuledOut(pb, s, g, target, pieceID, startingID, startingRotation);
        RuledNext(pb, s, g, target, startingID, startingRotation, pieceID);
        pieceID := pieceID + 1;
      }
      placed := false;
    }

    /** The body of the piece loop of a placement attempt: checks one copy of
        the piece out, skipping it when none is in stock, tries its rotations
        from initialRotation on, and pushes the first that fits; when none
        fits the copy is checked back in and everything is as before. */
    method TryPiece(pieceID: int, initialRotation: int, target: Point, ghost pb: Problem, ghost s: seq<PlacedPiece>, ghost g: seq<bool>)
      returns (placed: bool, ghost c: PlacedPiece)
      requires board.Valid() && store.Valid() && Instance() == pb && placedPieces == s && board.filled[..] == g
      requires Ledger(pb, store.currentCounts, s, -1)
      requires 0 <= pieceID < store.numIDs && 0 <= initialRotation && InBounds(board.size, target)
      requires store.currentCounts[pieceID] > 0 ==> initialRotation <= |store.pieces[pieceID].rotations|
      modifies this`placedPieces, board.filled, store`currentCounts
      ensures board.Valid() && store.Valid()
      ensures !placed ==> placedPieces == s && board.filled[..] == g && Ledger(pb, store.currentCounts, s, -1)
      ensures !placed ==> forall r :: initialRotation <= r ==> !Admissible(pb, s, g, target, pieceID, r)
      ensures placed ==> && placedPieces == s + [c] && c.id == pieceID && initialRotation <= c.rotation
                         && Admissible(pb, s, g, target, pieceID, c.rotation)
                         && c.position == Origin(target, pb.pieces[pieceID].rotations[c.rotation])
                         && (forall r :: initialRotation <= r < c.rotation ==> !Fitting(g, pb.size, pb.pieces[pieceID].rotations[r], target))
                         && board.filled[..] == Marked(g, Footprint(pb, c), true)
                         && Ledger(pb, store.currentCounts, s, pieceID)
    {
      c := PlacedPiece(pieceID, 0, target);
      ghost var before := store.currentCounts;
      var ok := store.CheckOutPiece(pieceID);
      if !ok {
        OutOfStock(pb, s, g, target, before, pieceID);
        return false, c;
      }
      LedgerCheckOut(pb, before, s, pieceID);
      var piece := store.GetPiece(pieceID);
      var rotationID, placementPoint;
      placed, rotationID, placementPoint := TryRotations(piece, initialRotation, target);
      if placed {
        var placement := PlacedPiece(pieceID, rotationID, placementPoint);
        placedPieces := placedPieces + [placement];
        c := placement;
        assert RotationOf(pb.pieces, c) == piece.rotations[rotationID];
        return;
      }
      store.CheckInPiece(pieceID);
      LedgerCheckIn(pb, before[pieceID := before[pieceID] - 1], s, pieceID);
    }

    /** The rotation loop of a placement attempt: tries the piece's rotations
        from initialRotation on and places the first that fits at target,
        filling exactly its cells; with none fitting the board is unchanged. */
    method TryRotations(piece: Piece, initialRotation: int, target: Point) returns (placed: bool, rotationID: int, placementPoint: Point)
      requires board.Valid() && ValidPiece(piece) && 0 <= initialRotation <= |piece.rotations|
      requires InBounds(board.size, target)
      modifies board.filled
      ensures placed ==> initialRotation <= rotationID < |piece.rotations|
      ensures placed ==> var rot := piece.rotations[rotationID];
        && Fitting(old(board.filled[..]), board.size, rot, target)
        && placementPoint == Origin(target, rot)
        && board.filled[..] == Marked(old(board.filled[..]), Cells(board.size, rot, placementPoint), true)
      ensures forall r :: initialRotation <= r < (if placed then rotationID else |piece.rotations|) ==>
        !Fitting(old(board.filled[..]), board.size, piece.rotations[r], target)
      ensures !placed ==> board.filled[..] == old(board.filled[..])
    {
      ghost var g := board.filled[..];
      rotationID := initialRotation;
      placementPoint := target;
      while rotationID < |piece.rotations|
        invariant initialRotation <= rotationID <= |piece.rotations|
        invariant board.filled[..] == g
        invariant forall r :: initialRotation <= r < rotationID ==>
          !Fitting(g, board.size, piece.rotations[r], target)
      {
        var rotation := piece.rotations[rotationID];
        if rotation.topPipX > target.x {
          rotationID := rotationID + 1;
          continue;
        }
        placementPoint := Point(target.x - rotation.topPipX, target.y);
        assert placementPoint == Origin(target, rotation);
        assert forall p :: p in rotation.pips ==> p.x >= 0 && p.y >= 0 by {
          assert WellFormed(rotation);
        }
        var added := board.AddPiece(rotation, placementPoint);
        if added {
          return true, rotationID, placementPoint;
        }
        rotationID := rotationID + 1;
      }
      return false, rotationID, placementPoint;
    }
  
    /** Backs up one placement: from an empty stack the search is done;
        otherwise the top placement is undone and a placement attempt resumes
        just after it. */
    method Backtrack()
      requires Consistent() && state == Backtracking
      modifies this`placedPieces, this`allSolutions, this`state, board.filled, store`currentCounts
      ensures Consistent()
      ensures BacktrackStep(Instance(), maxSolutions, old(placedPieces), old(allSolutions), placedPieces, allSolutions, state)
    {
      if placedPieces == [] {
        state := Done;
        return;
      }
      var lastPlacement := UndoLast();
      state := Placing;
      ghost var t, all := placedPieces, allSolutions;
      PlaceNextPiece(lastPlacement.id, lastPlacement.rotation + 1);
      assert Step(Instance(), maxSolutions, t, all, lastPlacement.id, lastPlacement.rotation + 1, placedPieces, allSolutions, state);
    }

    /** Undoes the top placement of a non-empty stack: afterwards the board
        and the inventory mirror the rest of the stack. */
    method UndoLast() returns (last: PlacedPiece)
      requires Consistent() && placedPieces != []
      modifies this`placedPieces, board.filled, store`currentCounts
      ensures Consistent() && Instance() == old(Instance())
      ensures last == old(placedPieces)[|old(placedPieces)| - 1] && placedPieces == old(placedPieces)[..|old(placedPieces)| - 1]
      ensures PlacementValid(Instance().pieces, last)
    {
      ghost var pb := Instance();
      PopStep(pb, placedPieces, store.currentCounts);
      last := RemoveLast(pb);
    }

    /** Pops the top placement of the stack, clears its cells and checks its
        piece back in. The source trusts the stack: the placement names an
        existing rotation lying on the board and a piece with a copy out. */
    method RemoveLast(ghost pb: Problem) returns (last: PlacedPiece)
      requires board.Valid() && store.Valid() && Instance() == pb && placedPieces != []
      requires var c := placedPieces[|placedPieces| - 1];
        && PlacementValid(pb.pieces, c) && c.position.x >= 0 && c.position.y >= 0
        && (forall p :: p in RotationOf(pb.pieces, c).pips ==> InBounds(pb.size, Offset(c.position, p)))
        && store.currentCounts[c.id] + 1 <= store.initialCounts[c.id]
      modifies this`placedPieces, board.filled, store`currentCounts
      ensures board.Valid() && store.Valid() && Instance() == pb
      ensures last == old(placedPieces)[|old(placedPieces)| - 1] && placedPieces == old(placedPieces)[..|old(placedPieces)| - 1]
      ensures board.filled[..] == Marked(old(board.filled[..]), Footprint(pb, last), false)
      ensures store.currentCounts == old(store.currentCounts)[last.id := old(store.currentCounts)[last.id] + 1]
    {
      last := placedPieces[|placedPieces| - 1];
      placedPieces := placedPieces[..|placedPieces| - 1];
      var piece := store.GetPiece(last.id);
      var pieceRotation := piece.rotations[last.rotation];
      assert Footprint(pb, last) == Cells(pb.size, pieceRotation, last.position);
      board.RemovePiece(pieceRotation, last.position);
      store.CheckInPiece(last.id);
    }
  }
}
