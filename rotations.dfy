/** One canonical orientation of a piece: its pip offsets, bounding size and
    the x of its leftmost pip on the top row. */
module Rotations {
  import opened Types

  datatype PieceRotation = PieceRotation(pips: set<Point>, size: Size, topPipX: int)
  {
    /** Membership of a point in the pip set. */
    predicate Contains(pt: Point)
    {
      pt in pips
    }
  }

  predicate NonNegative(points: seq<Point>)
  {
    forall i :: 0 <= i < |points| ==> points[i].x >= 0 && points[i].y >= 0
  }

  /** What construction demands of its input: no negative coordinate, some point
      on the left edge (x = 0) and some on the top edge (y = 0). The source also
      checks that the top-row minimum is at most the largest x, which follows. */
  predicate ValidShape(points: seq<Point>)
  {
    && NonNegative(points)
    && (exists i :: 0 <= i < |points| && points[i].x == 0)
    && (exists i :: 0 <= i < |points| && points[i].y == 0)
  }

  /** Largest x, starting from 0 as the construction loop does. */
  function MaxX(points: seq<Point>): int
  {
    if points == [] then 0
    else
      var m := MaxX(points[..|points| - 1]);
      var p := points[|points| - 1];
      if p.x > m then p.x else m
  }

  /** Largest y, starting from 0 as the construction loop does. */
  function MaxY(points: seq<Point>): int
  {
    if points == [] then 0
    else
      var m := MaxY(points[..|points| - 1]);
      var p := points[|points| - 1];
      if p.y > m then p.y else m
  }

  /** Least x among the points with y = 0; None plays the role of the Int.max sentinel. */
  function TopRowMin(points: seq<Point>): Option<int>
  {
    if points == [] then None
    else
      var m := TopRowMin(points[..|points| - 1]);
      var p := points[|points| - 1];
      if p.y == 0 && (m.None? || p.x < m.value) then Some(p.x) else m
  }

  /** MaxX is the largest x (or 0 when every x is below it). */
  lemma {:induction false} MaxXSpec(points: seq<Point>)
    ensures var m := MaxX(points);
      && m >= 0
      && (forall i :: 0 <= i < |points| ==> points[i].x <= m)
      && (m == 0 || exists i :: 0 <= i < |points| && points[i].x == m)
  {
    if points != [] {
      MaxXSpec(points[..|points| - 1]);
    }
  }

  /** MaxY is the largest y (or 0 when every y is below it). */
  lemma {:induction false} MaxYSpec(points: seq<Point>)
    ensures var m := MaxY(points);
      && m >= 0
      && (forall i :: 0 <= i < |points| ==> points[i].y <= m)
      && (m == 0 || exists i :: 0 <= i < |points| && points[i].y == m)
  {
    if points != [] {
      MaxYSpec(points[..|points| - 1]);
    }
  }

  /** TopRowMin is the least x on the top row, and absent exactly when no point has y = 0. */
  lemma {:induction false} TopRowMinSpec(points: seq<Point>)
    ensures var r := TopRowMin(points);
      && (r.None? <==> forall i :: 0 <= i < |points| ==> points[i].y != 0)
      && (r.Some? ==> exists i :: 0 <= i < |points| && points[i].y == 0 && points[i].x == r.value)
      && (r.Some? ==> forall i :: 0 <= i < |points| && points[i].y == 0 ==> r.value <= points[i].x)
  {
    if points != [] {
      TopRowMinSpec(points[..|points| - 1]);
    }
  }

  function PipSet(points: seq<Point>): set<Point>
  {
    set p | p in points
  }

  /** The rotation that construction yields. It is only meaningful for inputs
      that satisfy ValidShape, the only ones construction accepts; elsewhere
      the missing top-row minimum reads as 0. */
  function FromPoints(points: seq<Point>): PieceRotation
  {
    var top := match TopRowMin(points) case Some(v) => v case None => 0;
    PieceRotation(PipSet(points), Size(MaxX(points) + 1, MaxY(points) + 1), top)
  }

  /** The invariant of every constructed rotation: a non-empty pip set that
      touches both the left and the top edge, a size that is exactly the
      bounding box, and topPipX the leftmost pip of the top row. */
  ghost predicate WellFormed(r: PieceRotation)
  {
    && r.pips != {}
    && (forall p :: p in r.pips ==> 0 <= p.x < r.size.width && 0 <= p.y < r.size.height)
    && (exists p :: p in r.pips && p.x == 0)
    && (exists p :: p in r.pips && p.y == 0)
    && (exists p :: p in r.pips && p.x == r.size.width - 1)
    && (exists p :: p in r.pips && p.y == r.size.height - 1)
    && Point(r.topPipX, 0) in r.pips
    && (forall p :: p in r.pips && p.y == 0 ==> r.topPipX <= p.x)
  }

  lemma FromPointsWellFormed(points: seq<Point>)
    requires ValidShape(points)
    ensures WellFormed(FromPoints(points))
    ensures FromPoints(points).pips == PipSet(points)
    ensures FromPoints(points).topPipX <= MaxX(points)
  {
    MaxXSpec(points);
    MaxYSpec(points);
    TopRowMinSpec(points);
    var r := FromPoints(points);
    var i :| 0 <= i < |points| && points[i].x == 0;
    var j :| 0 <= j < |points| && points[j].y == 0;
    assert points[i] in r.pips && points[j] in r.pips;
    var t :| 0 <= t < |points| && points[t].y == 0 && points[t].x == r.topPipX;
    assert points[t] == Point(r.topPipX, 0);
    if MaxX(points) != 0 {
      var k :| 0 <= k < |points| && points[k].x == MaxX(points);
      assert points[k] in r.pips;
    }
    if MaxY(points) != 0 {
      var k :| 0 <= k < |points| && points[k].y == MaxY(points);
      assert points[k] in r.pips;
    }
  }

  /** The two alignment bits: 1 when some point has x = 0, 2 when some has y = 0. */
  function Alignment(points: seq<Point>): bv2
  {
    (if exists j :: 0 <= j < |points| && points[j].x == 0 then 1 else 0)
    | (if exists j :: 0 <= j < |points| && points[j].y == 0 then 2 else 0)
  }

  lemma PrefixStep(points: seq<Point>, i: int)
    requires 0 <= i < |points|
    ensures var p, q := points[i], points[..i];
      && MaxX(points[..i + 1]) == (if p.x > MaxX(q) then p.x else MaxX(q))
      && MaxY(points[..i + 1]) == (if p.y > MaxY(q) then p.y else MaxY(q))
      && TopRowMin(points[..i + 1]) == (if p.y == 0 && (TopRowMin(q).None? || p.x < TopRowMin(q).value) then Some(p.x) else TopRowMin(q))
      && PipSet(points[..i + 1]) == PipSet(q) + {p}
      && Alignment(points[..i + 1]) == Alignment(q) | (if p.x == 0 then 1 else 0) | (if p.y == 0 then 2 else 0)
  {
    assert points[..i + 1][..i] == points[..i];
    assert points[..i + 1] == points[..i] + [points[i]];
  }

  /** Construction, as the source's initialiser loop computes it. */
  method Build(points: seq<Point>) returns (r: PieceRotation)
    requires ValidShape(points)
    ensures r == FromPoints(points)
    ensures WellFormed(r) && r.pips == PipSet(points)
    ensures r.size == Size(MaxX(points) + 1, MaxY(points) + 1)
  {
    var maxX, maxY := 0, 0;
    var minTopRowX: Option<int> := None;
    var pts: set<Point> := {};
    var isAligned: bv2 := 0;
    for i := 0 to |points|
      invariant maxX == MaxX(points[..i]) && maxY == MaxY(points[..i])
      invariant minTopRowX == TopRowMin(points[..i])
      invariant pts == PipSet(points[..i])
      invariant isAligned == Alignment(points[..i])
    {
      var p := points[i];
      PrefixStep(points, i);
      assert p.x >= 0 && p.y >= 0;
      if p.x > maxX {
        maxX := p.x;
      }
      if p.y > maxY {
        maxY := p.y;
      }
      if p.y == 0 && (minTopRowX.None? || p.x < minTopRowX.value) {
        minTopRowX := Some(p.x);
      }
      if p.x == 0 {
        isAligned := isAligned | 1;
      }
      if p.y == 0 {
        isAligned := isAligned | 2;
      }
      pts := pts + {p};
    }
    assert points[..|points|] == points;
    FromPointsWellFormed(points);
    TopRowMinSpec(points);
    assert minTopRowX.Some? && minTopRowX.value <= maxX;
    assert isAligned == 3;
    r := PieceRotation(pts, Size(maxX + 1, maxY + 1), minTopRowX.value);
  }

  /** Swift's `==` on rotations: only the pip sets are compared. */
  function Equal(a: PieceRotation, b: PieceRotation): (r: bool)
    ensures r <==> forall p :: p in a.pips <==> p in b.pips
  {
    a.pips == b.pips
  }

  /** For constructed rotations, comparing pips is full equality: the size and
      topPipX are determined by the pip set. */
  lemma EqualIsIdentity(a: PieceRotation, b: PieceRotation)
    requires WellFormed(a) && WellFormed(b)
    ensures Equal(a, b) <==> a == b
  {
    if a.pips == b.pips {
      var pa :| pa in a.pips && pa.x == a.size.width - 1;
      var pb :| pb in b.pips && pb.x == b.size.width - 1;
      var qa :| qa in a.pips && qa.y == a.size.height - 1;
      var qb :| qb in b.pips && qb.y == b.size.height - 1;
      assert a.size == b.size;
      assert Point(a.topPipX, 0) in b.pips && Point(b.topPipX, 0) in a.pips;
    }
  }
}
