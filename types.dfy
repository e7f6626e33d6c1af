/** Geometry value types shared by every other module: points with their
    neighbour queries, sizes, and the record of one committed placement. */
module Types {

  datatype Option<T> = None | Some(value: T)

  /** Swift's Int.max on a 64-bit platform. */
  const IntMax: int := 0x7fff_ffff_ffff_ffff

  /** An integer board or piece coordinate; x grows to the right, y grows downwards. */
  datatype Point = Point(x: int, y: int)
  {
    function PointAbove(): Point { Point(x, y - 1) }
    function PointBelow(): Point { Point(x, y + 1) }
    function PointRight(): Point { Point(x + 1, y) }
    function PointLeft(): Point { Point(x - 1, y) }
    function PointUpLeft(): Point { Point(x - 1, y - 1) }
    function PointUpRight(): Point { Point(x + 1, y - 1) }
    function PointDownLeft(): Point { Point(x - 1, y + 1) }
    function PointDownRight(): Point { Point(x + 1, y + 1) }
  }

  datatype Size = Size(width: int, height: int)

  /** One decision of the search: which piece, which of its rotations, and where. */
  datatype PlacedPiece = PlacedPiece(id: int, rotation: int, position: Point)

  /** Translation of a pip offset by a placement origin. */
  function Offset(origin: Point, pip: Point): Point
  {
    Point(origin.x + pip.x, origin.y + pip.y)
  }

  lemma VerticalNeighbours(p: Point)
    ensures p.PointAbove().x == p.x && p.PointAbove().y == p.y - 1
    ensures p.PointBelow().x == p.x && p.PointBelow().y == p.y + 1
    ensures p.PointAbove().PointBelow() == p && p.PointBelow().PointAbove() == p
  {
  }

  lemma HorizontalNeighbours(p: Point)
    ensures p.PointLeft().y == p.y && p.PointLeft().x == p.x - 1
    ensures p.PointRight().y == p.y && p.PointRight().x == p.x + 1
    ensures p.PointLeft().PointRight() == p && p.PointRight().PointLeft() == p
  {
  }

  lemma DiagonalNeighbours(p: Point)
    ensures p.PointUpLeft() == p.PointAbove().PointLeft()
    ensures p.PointUpRight() == p.PointAbove().PointRight()
    ensures p.PointDownLeft() == p.PointBelow().PointLeft()
    ensures p.PointDownRight() == p.PointBelow().PointRight()
  {
  }

  /** Equality of points is by value (Swift's synthesised Hashable). */
  lemma PointEquality(p: Point, q: Point)
    ensures p == q <==> (p.x == q.x && p.y == q.y)
  {
  }
}
