/** The meaning of a stack of placements: the grid it leaves, the cells it
    covers, how many of each piece it uses, and when it is an exact cover of
    the board. */
module Covers {
  import opened Types
  import opened Rotations
  import opened Pieces
  import opened Boards

  /** What one search works on: the board size, the catalogue, and the
      registered count of every id. */
  datatype Problem = Problem(size: Size, pieces: seq<Piece>, counts: seq<int>)

  /** Number of cells of the board. */
  function CellCount(size: Size): nat
  {
    if size.width > 0 && size.height > 0 then size.width * size.height else 0
  }

  /** A placement names a catalogue id and one of that piece's rotations. */
  predicate PlacementValid(pieces: seq<Piece>, c: PlacedPiece)
  {
    0 <= c.id < |pieces| && 0 <= c.rotation < |pieces[c.id].rotations|
  }

  /** The rotation a placement uses (an empty one when it names none). */
  function RotationOf(pieces: seq<Piece>, c: PlacedPiece): PieceRotation
  {
    if PlacementValid(pieces, c) then pieces[c.id].rotations[c.rotation]
    else PieceRotation({}, Size(0, 0), 0)
  }

  /** The cell indices a placement fills. */
  function Footprint(pb: Problem, c: PlacedPiece): set<int>
  {
    Cells(pb.size, RotationOf(pb.pieces, c), c.position)
  }

  /** The board points a placement covers. */
  function PointsOf(pb: Problem, c: PlacedPiece): set<Point>
  {
    set p | p in RotationOf(pb.pieces, c).pips :: Offset(c.position, p)
  }

  /** The grid left by filling, in order, the cells of every placement on an
      empty board. */
  function Grid(pb: Problem, s: seq<PlacedPiece>): seq<bool>
  {
    if s == [] then Blank(CellCount(pb.size))
    else Marked(Grid(pb, s[..|s| - 1]), Footprint(pb, s[|s| - 1]), true)
  }

  /** The search may push c onto s: a valid placement at a non-negative origin
      that fits the grid s leaves. */
  ghost predicate Placeable(pb: Problem, s: seq<PlacedPiece>, c: PlacedPiece)
  {
    && PlacementValid(pb.pieces, c)
    && c.position.x >= 0 && c.position.y >= 0
    && Fits(Grid(pb, s), pb.size, RotationOf(pb.pieces, c), c.position)
  }

  /** Every placement of the stack was placeable when it was pushed. */
  ghost predicate Stacked(pb: Problem, s: seq<PlacedPiece>)
  {
    s == [] || (Stacked(pb, s[..|s| - 1]) && Placeable(pb, s[..|s| - 1], s[|s| - 1]))
  }

  /** How many placements of the stack use piece id. */
  function Uses(s: seq<PlacedPiece>, id: int): nat
  {
    if s == [] then 0 else Uses(s[..|s| - 1], id) + (if s[|s| - 1].id == id then 1 else 0)
  }

  /** The union of the footprints of the stack. */
  function Covered(pb: Problem, s: seq<PlacedPiece>): set<int>
  {
    if s == [] then {} else Covered(pb, s[..|s| - 1]) + Footprint(pb, s[|s| - 1])
  }

  /** A solution in the sense of the puzzle: every placement names a rotation
      lying wholly on the board, no two placements share a point, and every
      point of the board is covered. */
  ghost predicate ExactCover(pb: Problem, sol: seq<PlacedPiece>)
  {
    && (forall k :: 0 <= k < |sol| ==> PlacementValid(pb.pieces, sol[k]))
    && (forall k, q :: 0 <= k < |sol| && q in PointsOf(pb, sol[k]) ==> InBounds(pb.size, q))
    && (forall j, k :: 0 <= j < k < |sol| ==> PointsOf(pb, sol[j]) !! PointsOf(pb, sol[k]))
    && (forall q :: InBounds(pb.size, q) ==> exists k :: 0 <= k < |sol| && q in PointsOf(pb, sol[k]))
  }

  lemma PushPrefix(s: seq<PlacedPiece>, c: PlacedPiece)
    ensures (s + [c])[..|s|] == s && (s + [c])[|s|] == c
  {
  }

  /** Pushing a placement: how the grid, the stack predicate, the use counts
      and the covered cells of s + [c] follow from those of s. */
  lemma Push(pb: Problem, s: seq<PlacedPiece>, c: PlacedPiece)
    ensures Grid(pb, s + [c]) == Marked(Grid(pb, s), Footprint(pb, c), true)
    ensures Stacked(pb, s + [c]) <==> Stacked(pb, s) && Placeable(pb, s, c)
    ensures forall id :: Uses(s + [c], id) == Uses(s, id) + (if c.id == id then 1 else 0)
    ensures Covered(pb, s + [c]) == Covered(pb, s) + Footprint(pb, c)
  {
    PushPrefix(s, c);
  }

  /** Popping the top placement of a non-empty stack. */
  lemma Pop(pb: Problem, s: seq<PlacedPiece>)
    requires s != []
    ensures var t, c := s[..|s| - 1], s[|s| - 1];
      s == t + [c] && Grid(pb, s) == Marked(Grid(pb, t), Footprint(pb, c), true)
  {
  }

  /** The empty stack leaves an empty grid and uses nothing. */
  lemma EmptyStack(pb: Problem)
    ensures Stacked(pb, []) && Grid(pb, []) == Blank(CellCount(pb.size))
    ensures forall id :: Uses([], id) == 0
    ensures Covered(pb, []) == {}
  {
  }

  /** A placement that fits lies wholly on the board and nothing of it was covered. */
  lemma PlaceableCells(pb: Problem, s: seq<PlacedPiece>, c: PlacedPiece)
    requires Placeable(pb, s, c)
    ensures forall p :: p in RotationOf(pb.pieces, c).pips ==> InBounds(pb.size, Offset(c.position, p))
    ensures forall i :: i in Footprint(pb, c) ==> 0 <= i < |Grid(pb, s)| && !Grid(pb, s)[i]
  {
    FitsCells(Grid(pb, s), pb.size, RotationOf(pb.pieces, c), c.position);
  }

  /** A stack's grid has one flag per board cell; a cell is filled exactly
      when some placement covers it, the covered cells are all on the board,
      and every footprint is inside the covered set. */
  lemma {:induction false} GridIsCovered(pb: Problem, s: seq<PlacedPiece>)
    requires Stacked(pb, s)
    ensures |Grid(pb, s)| == CellCount(pb.size)
    ensures forall i :: i in Covered(pb, s) ==> 0 <= i < CellCount(pb.size)
    ensures forall i :: 0 <= i < CellCount(pb.size) ==> (Grid(pb, s)[i] <==> i in Covered(pb, s))
    ensures forall k :: 0 <= k < |s| ==> Footprint(pb, s[k]) <= Covered(pb, s)
  {
    if s != [] {
      var t, c := s[..|s| - 1], s[|s| - 1];
      GridIsCovered(pb, t);
      PlaceableCells(pb, t, c);
      forall k | 0 <= k < |s| ensures Footprint(pb, s[k]) <= Covered(pb, s) {
        if k < |t| {
          assert s[k] == t[k];
        }
      }
    }
  }

  /** Footprints of distinct placements of a stack share no cell. */
  lemma {:induction false} StackedDisjoint(pb: Problem, s: seq<PlacedPiece>)
    requires Stacked(pb, s)
    ensures forall j, k :: 0 <= j < k < |s| ==> Footprint(pb, s[j]) !! Footprint(pb, s[k])
  {
    if s != [] {
      var t, c := s[..|s| - 1], s[|s| - 1];
      StackedDisjoint(pb, t);
      GridIsCovered(pb, t);
      PlaceableCells(pb, t, c);
      forall j, k | 0 <= j < k < |s| ensures Footprint(pb, s[j]) !! Footprint(pb, s[k]) {
        assert s[j] == t[j];
        if k < |t| {
          assert s[k] == t[k];
        }
      }
    }
  }

  /** Every placement of a stack is valid and lies wholly on the board. */
  lemma {:induction false} StackedOnBoard(pb: Problem, s: seq<PlacedPiece>)
    requires Stacked(pb, s)
    ensures forall k :: 0 <= k < |s| ==> PlacementValid(pb.pieces, s[k]) && s[k].position.x >= 0 && s[k].position.y >= 0
    ensures forall k, q :: 0 <= k < |s| && q in PointsOf(pb, s[k]) ==> InBounds(pb.size, q)
  {
    if s != [] {
      var t, c := s[..|s| - 1], s[|s| - 1];
      StackedOnBoard(pb, t);
      PlaceableCells(pb, t, c);
      forall k | 0 <= k < |s|
        ensures PlacementValid(pb.pieces, s[k]) && s[k].position.x >= 0 && s[k].position.y >= 0
        ensures forall q :: q in PointsOf(pb, s[k]) ==> InBounds(pb.size, q)
      {
        if k < |t| {
          assert s[k] == t[k];
        }
      }
    }
  }

  /** Some placement of the stack covers every covered cell. */
  lemma {:induction false} CoveredWitness(pb: Problem, s: seq<PlacedPiece>, i: int)
    requires i in Covered(pb, s)
    ensures exists k :: 0 <= k < |s| && i in Footprint(pb, s[k])
  {
    var t := s[..|s| - 1];
    if i in Covered(pb, t) {
      CoveredWitness(pb, t, i);
      var k :| 0 <= k < |t| && i in Footprint(pb, t[k]);
      assert s[k] == t[k];
    } else {
      assert i in Footprint(pb, s[|s| - 1]);
    }
  }

  /** Placements with disjoint footprints cover disjoint point sets. */
  lemma PointsDisjoint(pb: Problem, a: PlacedPiece, b: PlacedPiece)
    requires Footprint(pb, a) !! Footprint(pb, b)
    ensures PointsOf(pb, a) !! PointsOf(pb, b)
  {
    forall q | q in PointsOf(pb, a) ensures q !in PointsOf(pb, b) {
      var p :| p in RotationOf(pb.pieces, a).pips && q == Offset(a.position, p);
      assert Index(pb.size, q) in Footprint(pb, a);
    }
  }

  /** A stack that leaves no free cell is a solution: the recorded placements
      cover every point of the board exactly once. */
  lemma FullStackIsExactCover(pb: Problem, s: seq<PlacedPiece>)
    requires Stacked(pb, s) && pb.size.width > 0
    requires forall i :: 0 <= i < |Grid(pb, s)| ==> Grid(pb, s)[i]
    ensures ExactCover(pb, s)
  {
    GridIsCovered(pb, s);
    StackedDisjoint(pb, s);
    StackedOnBoard(pb, s);
    forall j, k | 0 <= j < k < |s| ensures PointsOf(pb, s[j]) !! PointsOf(pb, s[k]) {
      PointsDisjoint(pb, s[j], s[k]);
    }
    forall q | InBounds(pb.size, q) ensures exists k :: 0 <= k < |s| && q in PointsOf(pb, s[k]) {
      var i := Index(pb.size, q);
      CoveredWitness(pb, s, i);
      var k :| 0 <= k < |s| && i in Footprint(pb, s[k]);
      var p :| p in RotationOf(pb.pieces, s[k]).pips && i == Index(pb.size, Offset(s[k].position, p));
      assert Offset(s[k].position, p) in PointsOf(pb, s[k]);
      IndexInjective(pb.size, q, Offset(s[k].position, p));
    }
  }

  /** The cells 0 .. n - 1. */
  function Range(n: nat): set<int>
  {
    if n == 0 then {} else Range(n - 1) + {n - 1}
  }

  lemma {:induction false} RangeSize(n: nat)
    ensures |Range(n)| == n
    ensures forall i :: i in Range(n) <==> 0 <= i < n
  {
    if n > 0 {
      RangeSize(n - 1);
    }
  }

  lemma {:induction false} SubsetSize<T>(a: set<T>, b: set<T>)
    requires a <= b
    ensures |a| <= |b|
    decreases |b|
  {
    if a != {} {
      var x :| x in a;
      SubsetSize(a - {x}, b - {x});
    }
  }

  /** The covered cells are board cells, so there are at most as many as the board has. */
  lemma CoveredSize(pb: Problem, s: seq<PlacedPiece>)
    requires Stacked(pb, s)
    ensures |Covered(pb, s)| <= CellCount(pb.size)
  {
    var n := CellCount(pb.size);
    var cov := Covered(pb, s);
    GridIsCovered(pb, s);
    RangeSize(n);
    assert cov <= Range(n) by {
      forall i | i in cov ensures i in Range(n) {
        assert 0 <= i < n;
      }
    }
    SubsetSize(cov, Range(n));
  }

  /** Every placement covers at least one new cell, so a stack never holds
      more placements than the board has cells. */
  lemma {:induction false} StackBound(pb: Problem, s: seq<PlacedPiece>)
    requires Stacked(pb, s)
    requires forall id :: 0 <= id < |pb.pieces| ==> ValidPiece(pb.pieces[id])
    ensures |s| <= |Covered(pb, s)| <= CellCount(pb.size)
  {
    CoveredSize(pb, s);
    if s != [] {
      var t, c := s[..|s| - 1], s[|s| - 1];
      assert Stacked(pb, t) && Placeable(pb, t, c);
      StackBound(pb, t);
      var i := NewCell(pb, t, c);
      assert Covered(pb, s) == Covered(pb, t) + Footprint(pb, c);
      assert |Covered(pb, t) + {i}| == |Covered(pb, t)| + 1;
      SubsetSize(Covered(pb, t) + {i}, Covered(pb, s));
    }
  }

  /** A placeable rotation of a valid piece covers some cell not yet covered. */
  lemma NewCell(pb: Problem, t: seq<PlacedPiece>, c: PlacedPiece) returns (i: int)
    requires Stacked(pb, t) && Placeable(pb, t, c)
    requires forall id :: 0 <= id < |pb.pieces| ==> ValidPiece(pb.pieces[id])
    ensures i in Footprint(pb, c) && i !in Covered(pb, t)
  {
    GridIsCovered(pb, t);
    PlaceableCells(pb, t, c);
    var r := RotationOf(pb.pieces, c);
    assert WellFormed(r);
    var p :| p in r.pips;
    i := Index(pb.size, Offset(c.position, p));
  }
}
