/** The occupancy grid: one flag per cell of a width x height board, stored
    row by row, with the all-or-nothing placement of a rotation at an origin. */
module Boards {
  import opened Types
  import opened Rotations

  /** Row-major index of a board point; in-bounds points index the cells
      0 .. width * height - 1. */
  function Index(size: Size, p: Point): (i: int)
    ensures InBounds(size, p) ==> 0 <= i < size.width * size.height
  {
    if InBounds(size, p) then
      RowsApart(size.width, p.y, size.height);
      p.y * size.width + p.x
    else
      p.y * size.width + p.x
  }

  /** Row y ends before row y' begins. */
  lemma RowsApart(w: int, y: int, y': int)
    requires w > 0 && y < y'
    ensures y * w + w <= y' * w
  {
    var d := y' - y - 1;
    assert d * w >= 0;
    assert y' * w == (y + 1 + d) * w == y * w + w + d * w;
  }

  predicate InBounds(size: Size, p: Point)
  {
    0 <= p.x < size.width && 0 <= p.y < size.height
  }

  /** The point whose row-major index is i: (i mod width, i div width). */
  function PointAt(size: Size, i: int): Point
    requires size.width > 0
  {
    Point(i % size.width, i / size.width)
  }

  /** Every cell index decodes to an in-bounds point that indexes it again. */
  lemma PointAtIndex(size: Size, i: int)
    requires size.width > 0 && 0 <= i < size.width * size.height
    ensures InBounds(size, PointAt(size, i)) && Index(size, PointAt(size, i)) == i
  {
    var w := size.width;
    assert (i / w) * w + i % w == i;
    if i / w >= size.height {
      RowsApart(w, size.height - 1, i / w);
    }
  }

  /** Distinct in-bounds points have distinct indices. */
  lemma IndexInjective(size: Size, p: Point, q: Point)
    requires InBounds(size, p) && InBounds(size, q) && Index(size, p) == Index(size, q)
    ensures p == q
  {
    if p.y < q.y {
      RowsApart(size.width, p.y, q.y);
    } else if q.y < p.y {
      RowsApart(size.width, q.y, p.y);
    }
  }

  /** The cell indices of a set of pips shifted by an origin. */
  function CellsOf(size: Size, pips: set<Point>, origin: Point): set<int>
  {
    set p | p in pips :: Index(size, Offset(origin, p))
  }

  /** The cells a rotation covers when its pip (0, 0) sits at origin. */
  function Cells(size: Size, r: PieceRotation, origin: Point): set<int>
  {
    CellsOf(size, r.pips, origin)
  }

  lemma CellsOfAdd(size: Size, pips: set<Point>, p: Point, origin: Point)
    ensures CellsOf(size, pips + {p}, origin) == CellsOf(size, pips, origin) + {Index(size, Offset(origin, p))}
  {
  }

  /** What the source's fill check accepts: an in-bounds cell not yet filled. */
  predicate Free(cells: seq<bool>, size: Size, pt: Point)
  {
    InBounds(size, pt) && 0 <= Index(size, pt) < |cells| && !cells[Index(size, pt)]
  }

  /** Every shifted pip of the rotation lands on a free cell. */
  predicate Fits(cells: seq<bool>, size: Size, r: PieceRotation, origin: Point)
  {
    forall p :: p in r.pips ==> Free(cells, size, Offset(origin, p))
  }

  /** The grid with every cell of idx set to v and every other cell kept. */
  function Marked(cells: seq<bool>, idx: set<int>, v: bool): (r: seq<bool>)
    ensures |r| == |cells|
    ensures forall i :: 0 <= i < |cells| ==> r[i] == if i in idx then v else cells[i]
  {
    seq(|cells|, i requires 0 <= i < |cells| => if i in idx then v else cells[i])
  }

  /** A grid of n unfilled cells. */
  function Blank(n: nat): (r: seq<bool>)
    ensures |r| == n && forall i :: 0 <= i < n ==> !r[i]
  {
    seq(n, _ => false)
  }

  lemma MarkedEmpty(cells: seq<bool>, v: bool)
    ensures Marked(cells, {}, v) == cells
  {
  }

  lemma MarkedStep(cells: seq<bool>, idx: set<int>, i: int, v: bool)
    requires 0 <= i < |cells|
    ensures Marked(cells, idx + {i}, v) == Marked(cells, idx, v)[i := v]
  {
  }

  /** A rotation that fits covers in-range cells that were all free. */
  lemma FitsCells(cells: seq<bool>, size: Size, r: PieceRotation, origin: Point)
    requires Fits(cells, size, r, origin)
    ensures forall i :: i in Cells(size, r, origin) ==> 0 <= i < |cells| && !cells[i]
  {
    forall i | i in Cells(size, r, origin) ensures 0 <= i < |cells| && !cells[i] {
      var p :| p in r.pips && i == Index(size, Offset(origin, p));
      assert Free(cells, size, Offset(origin, p));
    }
  }

  /** Filling the cells of a fitting placement and then clearing them gives
      back the grid exactly. */
  lemma AddRemoveRoundTrip(cells: seq<bool>, size: Size, r: PieceRotation, origin: Point)
    requires Fits(cells, size, r, origin)
    ensures Marked(Marked(cells, Cells(size, r, origin), true), Cells(size, r, origin), false) == cells
  {
    FitsCells(cells, size, r, origin);
  }

  /** Index of the first unfilled cell, or the length when there is none. */
  function FirstFree(cells: seq<bool>): (i: nat)
    ensures i <= |cells|
    ensures forall j :: 0 <= j < i ==> cells[j]
    ensures i < |cells| ==> !cells[i]
  {
    if cells == [] then 0
    else if !cells[0] then 0
    else 1 + FirstFree(cells[1..])
  }

  /** The cell the search fills next, as a point; None when the grid is full. */
  function Target(size: Size, cells: seq<bool>): Option<Point>
  {
    if FirstFree(cells) < |cells| && size.width > 0 then Some(PointAt(size, FirstFree(cells))) else None
  }

  /** The occupancy grid of the source: a fixed size and one flag per cell. */
  class PieceBoard {
    const size: Size
    const filled: array<bool>

    ghost predicate Valid()
      reads this
    {
      size.width > 0 && size.height > 0 && filled.Length == size.width * size.height
    }

    /** An empty board; the source traps unless both sides are positive. */
    constructor(size: Size)
      requires size.width > 0 && size.height > 0
      ensures Valid() && this.size == size && fresh(filled)
      ensures forall i :: 0 <= i < filled.Length ==> !filled[i]
    {
      this.size := size;
      filled := new bool[size.width * size.height](_ => false);
    }

    /** The first unfilled cell in row-major order, as a point; None exactly
        when every cell is filled. */
    method NextAvailable() returns (r: Option<Point>)
      requires Valid()
      ensures r.None? <==> forall i :: 0 <= i < filled.Length ==> filled[i]
      ensures r.Some? ==> InBounds(size, r.value) && !filled[Index(size, r.value)]
      ensures r.Some? ==> forall i :: 0 <= i < Index(size, r.value) ==> filled[i]
      ensures r.Some? ==> r.value == PointAt(size, Index(size, r.value))
      ensures r == Target(size, filled[..])
    {
      var idx := 0;
      while idx < filled.Length && filled[idx]
        invariant 0 <= idx <= filled.Length
        invariant forall j :: 0 <= j < idx ==> filled[j]
      {
        idx := idx + 1;
      }
      if idx == filled.Length {
        return None;
      }
      PointAtIndex(size, idx);
      var x := idx % size.width;
      var y := idx / size.width;
      return Some(Point(x, y));
    }

    /** Makes every cell unfilled. */
    method Clear()
      requires Valid()
      modifies filled
      ensures forall i :: 0 <= i < filled.Length ==> !filled[i]
    {
      for i := 0 to filled.Length
        invariant forall j :: 0 <= j < i ==> !filled[j]
      {
        filled[i] := false;
      }
    }

    /** The source's fill check; it is only ever asked about points with
        non-negative coordinates. */
    method CanFill(pt: Point) returns (ok: bool)
      requires Valid() && pt.x >= 0 && pt.y >= 0
      ensures ok <==> Free(filled[..], size, pt)
    {
      if !(pt.x < size.width && pt.y < size.height) {
        return false;
      }
      var idx := Index(size, pt);
      return !filled[idx];
    }

    /** Marks one in-bounds cell filled; the source traps on any other. */
    method Fill(pt: Point)
      requires Valid() && InBounds(size, pt)
      modifies filled
      ensures filled[..] == old(filled[..])[Index(size, pt) := true]
    {
      var idx := Index(size, pt);
      filled[idx] := true;
    }

    /** Marks one in-bounds cell unfilled; the source traps on any other. */
    method Unfill(pt: Point)
      requires Valid() && InBounds(size, pt)
      modifies filled
      ensures filled[..] == old(filled[..])[Index(size, pt) := false]
    {
      var idx := Index(size, pt);
      filled[idx] := false;
    }

    /** Places the rotation at point if every cell it needs is in bounds and
        free, filling exactly those cells; otherwise changes nothing. The
        source asserts a non-negative origin, and constructed rotations have
        non-negative pips. */
    method AddPiece(piece: PieceRotation, point: Point) returns (ok: bool)
      requires Valid() && point.x >= 0 && point.y >= 0
      requires forall p :: p in piece.pips ==> p.x >= 0 && p.y >= 0
      modifies filled
      ensures ok <==> Fits(old(filled[..]), size, piece, point)
      ensures filled[..] == if ok then Marked(old(filled[..]), Cells(size, piece, point), true) else old(filled[..])
    {
      var rest := piece.pips;
      while rest != {}
        invariant rest <= piece.pips && filled[..] == old(filled[..])
        invariant forall p :: p in piece.pips - rest ==> Free(filled[..], size, Offset(point, p))
        decreases |rest|
      {
        var p :| p in rest;
        var fillable := CanFill(Offset(point, p));
        if !fillable {
          return false;
        }
        rest := rest - {p};
      }
      ghost var before := filled[..];
      assert Fits(before, size, piece, point);
      MarkedEmpty(before, true);
      rest := piece.pips;
      while rest != {}
        invariant rest <= piece.pips
        invariant filled[..] == Marked(before, CellsOf(size, piece.pips - rest, point), true)
        decreases |rest|
      {
        var p :| p in rest;
        assert Free(before, size, Offset(point, p));
        ghost var done := piece.pips - rest;
        Fill(Offset(point, p));
        CellsOfAdd(size, done, p, point);
        MarkedStep(before, CellsOf(size, done, point), Index(size, Offset(point, p)), true);
        assert piece.pips - (rest - {p}) == done + {p};
        rest := rest - {p};
      }
      return true;
    }

    /** Clears every cell the rotation covers at point. The source trusts its
        caller: it asserts a non-negative origin and traps on a cell out of
        bounds. */
    method RemovePiece(piece: PieceRotation, point: Point)
      requires Valid() && point.x >= 0 && point.y >= 0
      requires forall p :: p in piece.pips ==> InBounds(size, Offset(point, p))
      modifies filled
      ensures filled[..] == Marked(old(filled[..]), Cells(size, piece, point), false)
    {
      ghost var before := filled[..];
      MarkedEmpty(before, false);
      var rest := piece.pips;
      while rest != {}
        invariant rest <= piece.pips
        invariant filled[..] == Marked(before, CellsOf(size, piece.pips - rest, point), false)
        decreases |rest|
      {
        var p :| p in rest;
        ghost var done := piece.pips - rest;
        Unfill(Offset(point, p));
        CellsOfAdd(size, done, p, point);
        MarkedStep(before, CellsOf(size, done, point), Index(size, Offset(point, p)), false);
        assert piece.pips - (rest - {p}) == done + {p};
        rest := rest - {p};
      }
    }
  }
}
