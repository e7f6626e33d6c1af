/** A named piece and the generation of its distinct quarter-turn rotations. */
module Pieces {
  import opened Types
  import opened Rotations

  datatype Piece = Piece(name: string, rotations: seq<PieceRotation>, pipCount: int)

  /** The invariant every generated piece keeps: between one and four rotations,
      each of them well formed. */
  ghost predicate ValidPiece(p: Piece)
  {
    && 1 <= |p.rotations| <= 4
    && (forall i :: 0 <= i < |p.rotations| ==> WellFormed(p.rotations[i]))
    && p.pipCount >= 1
  }

  /** Least y after the map (x, y) -> (y, -x), that is the least -x; None (the
      Int.max sentinel of the source) when there are no points. */
  function MinTurnedY(points: seq<Point>): Option<int>
  {
    if points == [] then None
    else
      var m := MinTurnedY(points[..|points| - 1]);
      var y := -points[|points| - 1].x;
      if m.None? || y < m.value then Some(y) else m
  }

  lemma {:induction false} MinTurnedYSpec(points: seq<Point>)
    ensures var r := MinTurnedY(points);
      && (r.None? <==> points == [])
      && (r.Some? ==> forall i :: 0 <= i < |points| ==> r.value <= -points[i].x)
      && (r.Some? ==> exists i :: 0 <= i < |points| && -points[i].x == r.value)
  {
    if points != [] {
      MinTurnedYSpec(points[..|points| - 1]);
    }
  }

  /** A quarter turn: each (x, y) becomes (y, -x), then every point is shifted
      down so that the least y is 0. */
  function Turned(points: seq<Point>): (r: seq<Point>)
    ensures |r| == |points|
  {
    if points == [] then []
    else
      MinTurnedYSpec(points);
      var m := MinTurnedY(points).value;
      seq(|points|, i requires 0 <= i < |points| => Point(points[i].y, -points[i].x - m))
  }

  /** A quarter turn of a valid shape is again a valid shape: the new x is the
      old y, and the shift makes the least new y zero. */
  lemma TurnedValid(points: seq<Point>)
    requires ValidShape(points)
    ensures ValidShape(Turned(points))
  {
    MinTurnedYSpec(points);
    var r := Turned(points);
    var m := MinTurnedY(points).value;
    var i :| 0 <= i < |points| && points[i].y == 0;
    var j :| 0 <= j < |points| && -points[j].x == m;
    assert r[i].x == 0 && r[j].y == 0;
  }

  /** What a quarter turn does to the points: x takes the old y, the y offsets
      between any two points are the negated old x offsets, and the least y is 0. */
  lemma TurnedGeometry(points: seq<Point>)
    ensures var r := Turned(points);
      && |r| == |points|
      && (forall i :: 0 <= i < |points| ==> r[i].x == points[i].y)
      && (forall i, j :: 0 <= i < |points| && 0 <= j < |points| ==> r[i].y - r[j].y == points[j].x - points[i].x)
      && (forall i :: 0 <= i < |points| ==> r[i].y >= 0)
      && (points != [] ==> exists i :: 0 <= i < |points| && r[i].y == 0)
  {
    if points != [] {
      MinTurnedYSpec(points);
      var m := MinTurnedY(points).value;
      var j :| 0 <= j < |points| && -points[j].x == m;
      assert Turned(points)[j].y == 0;
    }
  }

  /** k quarter turns. */
  function Turn(points: seq<Point>, k: nat): seq<Point>
  {
    if k == 0 then points else Turned(Turn(points, k - 1))
  }

  lemma {:induction false} TurnValid(points: seq<Point>, k: nat)
    requires ValidShape(points)
    ensures ValidShape(Turn(points, k))
  {
    if k > 0 {
      TurnValid(points, k - 1);
      TurnedValid(Turn(points, k - 1));
    }
  }

  /** The rotation reached after k quarter turns of the base shape. */
  function Orientation(points: seq<Point>, k: nat): PieceRotation
  {
    FromPoints(Turn(points, k))
  }

  /** Swift's `contains` on the rotation list, which uses the pip-set `==`. */
  predicate HasPips(kept: seq<PieceRotation>, r: PieceRotation)
  {
    exists i :: 0 <= i < |kept| && Equal(kept[i], r)
  }

  /** The rest of the generation loop: try up to `budget` more rotations,
      stopping as soon as one repeats a kept pip set. */
  function Extend(kept: seq<PieceRotation>, current: seq<Point>, budget: nat): (r: seq<PieceRotation>)
    ensures |kept| <= |r| <= |kept| + budget && r[..|kept|] == kept
    decreases budget
  {
    if budget == 0 then kept
    else
      var next := FromPoints(current);
      if HasPips(kept, next) then kept
      else Extend(kept + [next], Turned(current), budget - 1)
  }

  /** The rotation list of a piece built from `points`. */
  function RotationList(points: seq<Point>): seq<PieceRotation>
  {
    Extend([FromPoints(points)], Turned(points), 3)
  }

  lemma ExtendStep(kept: seq<PieceRotation>, current: seq<Point>, budget: nat)
    requires budget > 0
    ensures var next := FromPoints(current);
      Extend(kept, current, budget) == if HasPips(kept, next) then kept else Extend(kept + [next], Turned(current), budget - 1)
  {
  }

  /** A turn that brings a point missing from each kept pip set is kept, and
      the list is as long as generation from its own turn makes it. */
  lemma ExtendGrows(kept: seq<PieceRotation>, current: seq<Point>, budget: nat, witnesses: seq<Point>, n: nat)
    requires budget > 0 && |witnesses| == |kept|
    requires forall i :: 0 <= i < |kept| ==> witnesses[i] in current && witnesses[i] !in kept[i].pips
    requires |Extend(kept + [FromPoints(current)], Turned(current), budget - 1)| == n
    ensures |Extend(kept, current, budget)| == n
  {
    forall i | 0 <= i < |kept| ensures !Equal(kept[i], FromPoints(current)) {
      assert witnesses[i] in FromPoints(current).pips;
    }
  }

  /** A turn whose pip set is already kept ends generation. */
  lemma ExtendStops(kept: seq<PieceRotation>, current: seq<Point>, budget: nat, i: nat)
    requires budget > 0 && i < |kept| && kept[i].pips == PipSet(current)
    ensures Extend(kept, current, budget) == kept
  {
    assert Equal(kept[i], FromPoints(current));
  }

  function Min(a: int, b: int): int
  {
    if a < b then a else b
  }

  /** The quarter turn of a four-point shape, written out. */
  lemma Turned4(a: Point, b: Point, c: Point, d: Point)
    ensures var m := Min(Min(Min(-a.x, -b.x), -c.x), -d.x);
      Turned([a, b, c, d]) == [Point(a.y, -a.x - m), Point(b.y, -b.x - m), Point(c.y, -c.x - m), Point(d.y, -d.x - m)]
  {
    var s := [a, b, c, d];
    assert s[..3] == [a, b, c] && [a, b, c][..2] == [a, b] && [a, b][..1] == [a] && [a][..0] == [];
    assert MinTurnedY([a]) == Some(-a.x);
    assert MinTurnedY([a, b]) == Some(Min(-a.x, -b.x));
    assert MinTurnedY([a, b, c]) == Some(Min(Min(-a.x, -b.x), -c.x));
  }

  ghost predicate DistinctPips(rs: seq<PieceRotation>)
  {
    forall i, j :: 0 <= i < j < |rs| ==> rs[i].pips != rs[j].pips
  }

  /** A rotation whose pip set no kept rotation has keeps the list distinct. */
  lemma DistinctPush(kept: seq<PieceRotation>, next: PieceRotation)
    requires DistinctPips(kept) && !HasPips(kept, next)
    ensures DistinctPips(kept + [next])
  {
    var kept' := kept + [next];
    forall i, j | 0 <= i < j < |kept'| ensures kept'[i].pips != kept'[j].pips {
      if j < |kept| {
        assert kept'[i] == kept[i] && kept'[j] == kept[j];
      } else {
        assert !Equal(kept[i], next);
      }
    }
  }

  lemma {:induction false} ExtendSpec(base: seq<Point>, kept: seq<PieceRotation>)
    requires 1 <= |kept| <= 4
    requires forall i :: 0 <= i < |kept| ==> kept[i] == Orientation(base, i)
    requires DistinctPips(kept)
    ensures var r := Extend(kept, Turn(base, |kept|), 4 - |kept|);
      && |kept| <= |r| <= 4
      && (forall i :: 0 <= i < |r| ==> r[i] == Orientation(base, i))
      && DistinctPips(r)
      && (|r| < 4 ==> HasPips(r, Orientation(base, |r|)))
    decreases 4 - |kept|
  {
    var k := |kept|;
    if k < 4 {
      var cur := Turn(base, k);
      var next := FromPoints(cur);
      assert next == Orientation(base, k);
      ExtendStep(kept, cur, 4 - k);
      if HasPips(kept, next) {
        assert Extend(kept, cur, 4 - k) == kept;
      } else {
        var kept' := kept + [next];
        DistinctPush(kept, next);
        assert forall i :: 0 <= i < |kept'| ==> kept'[i] == Orientation(base, i);
        assert Turned(cur) == Turn(base, k + 1);
        assert Extend(kept, cur, 4 - k) == Extend(kept', Turn(base, |kept'|), 4 - |kept'|);
        ExtendSpec(base, kept');
      }
    }
  }

  /** Every orientation of a valid shape is a well-formed rotation. */
  lemma OrientationWellFormed(points: seq<Point>, k: nat)
    requires ValidShape(points)
    ensures WellFormed(Orientation(points, k))
  {
    TurnValid(points, k);
    FromPointsWellFormed(Turn(points, k));
  }

  /** The generated list: between one and four rotations, rotation 0 is the
      input shape, rotation i is the i-th quarter turn, no two share a pip set,
      and a short list ends exactly where the next turn repeats a kept one. */
  lemma RotationListSpec(points: seq<Point>)
    requires ValidShape(points)
    ensures var rs := RotationList(points);
      && 1 <= |rs| <= 4
      && rs[0] == FromPoints(points)
      && (forall i :: 0 <= i < |rs| ==> rs[i] == Orientation(points, i) && WellFormed(rs[i]))
      && DistinctPips(rs)
      && (|rs| < 4 ==> HasPips(rs, Orientation(points, |rs|)))
  {
    var kept := [FromPoints(points)];
    assert kept[0] == Orientation(points, 0);
    assert Turn(points, 1) == Turned(points);
    ExtendSpec(points, kept);
    var rs := RotationList(points);
    assert rs == Extend(kept, Turn(points, |kept|), 4 - |kept|);
    forall i | 0 <= i < |rs| ensures WellFormed(rs[i]) {
      OrientationWellFormed(points, i);
    }
  }

  /** One quarter turn, as the source computes it: a first pass that turns
      each point and tracks the least y, then an in-place shift pass. */
  method RotatePoints(points: seq<Point>) returns (rotated: seq<Point>)
    ensures rotated == Turned(points)
  {
    rotated := [];
    var minY: Option<int> := None;
    for i := 0 to |points|
      invariant |rotated| == i
      invariant forall j :: 0 <= j < i ==> rotated[j] == Point(points[j].y, -points[j].x)
      invariant minY == MinTurnedY(points[..i])
    {
      assert points[..i + 1][..i] == points[..i];
      var pt := points[i];
      var rotatedPoint := Point(pt.y, -pt.x);
      if minY.None? || rotatedPoint.y < minY.value {
        minY := Some(rotatedPoint.y);
      }
      rotated := rotated + [rotatedPoint];
    }
    assert points[..|points|] == points;
    if points == [] {
      return;
    }
    var shift := minY.value;
    for i := 0 to |rotated|
      invariant |rotated| == |points|
      invariant forall j :: 0 <= j < i ==> rotated[j] == Point(points[j].y, -points[j].x - shift)
      invariant forall j :: i <= j < |points| ==> rotated[j] == Point(points[j].y, -points[j].x)
    {
      var currentPoint := rotated[i];
      var shiftedPoint := Point(currentPoint.x, currentPoint.y - shift);
      rotated := rotated[i := shiftedPoint];
    }
  }

  /** The generation loop: rotation 0 from the input, then up to three more
      quarter turns, stopping at the first that repeats a kept pip set. */
  method GenerateRotations(points: seq<Point>) returns (rotations: seq<PieceRotation>)
    requires ValidShape(points)
    ensures rotations == RotationList(points)
  {
    ghost var spec := RotationList(points);
    var baseRotation := Build(points);
    rotations := [baseRotation];
    var currentPoints := RotatePoints(points);
    TurnedValid(points);
    for k := 0 to 3
      invariant ValidShape(currentPoints)
      invariant Extend(rotations, currentPoints, 3 - k) == spec
    {
      var nextRotation := Build(currentPoints);
      ExtendStep(rotations, currentPoints, 3 - k);
      if HasPips(rotations, nextRotation) {
        break;
      }
      rotations := rotations + [nextRotation];
      TurnedValid(currentPoints);
      currentPoints := RotatePoints(currentPoints);
    }
  }

  /** Piece construction: the pip count is the number of input points and the
      rotations are generated from them. */
  method NewPiece(name: string, points: seq<Point>) returns (p: Piece)
    requires ValidShape(points)
    ensures p.name == name && p.pipCount == |points|
    ensures p.rotations == RotationList(points)
  {
    var rotations := GenerateRotations(points);
    RotationListSpec(points);
    p := Piece(name, rotations, |points|);
  }
}
