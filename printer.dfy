/** Text rendering: every board cell becomes a block of 3 x 2 characters in a
    buffer 3w characters wide and 2h high, drawn with box-drawing glyphs
    chosen from the neighbouring pips, and the buffer is emitted row by row. */
module Printer {
  import opened Types
  import opened Rotations
  import opened Pieces
  import opened Store
  import opened Boards
  import opened Covers
  import opened Ranks

  const Space: char := ' '
  const UpperLeftCorner: char := '\U{250C}'
  const UpperRightCorner: char := '\U{2510}'
  const LowerLeftCorner: char := '\U{2514}'
  const LowerRightCorner: char := '\U{2518}'
  const Horizontal: char := '\U{2500}'
  const Vertical: char := '\U{2502}'

  /** n blanks: the initial buffer. */
  function Spaces(n: nat): (r: seq<char>)
    ensures |r| == n && forall i :: 0 <= i < n ==> r[i] == Space
  {
    seq(n, _ => Space)
  }

  // ---------------------------------------------------------------------
  // characters(at:)

  /** A corner glyph from the pips on its vertical side (above or below), on
      its horizontal side (left or right) and on its diagonal; open is the
      corner of a pip alone at that corner, inner the corner of the notch
      where the diagonal is missing. */
  function Corner(vertical: bool, horizontal: bool, diagonal: bool, open: char, inner: char): char
  {
    if vertical && horizontal then (if diagonal then Space else inner)
    else if vertical then Vertical
    else if horizontal then Horizontal
    else open
  }

  /** The six glyphs of point pt of a rotation: top-left, top, top-right,
      bottom-left, bottom, bottom-right; six blanks off the piece. */
  function Glyphs(r: PieceRotation, pt: Point): (g: seq<char>)
    ensures |g| == 6
  {
    if !r.Contains(pt) then Spaces(6)
    else
      var above, below := r.Contains(pt.PointAbove()), r.Contains(pt.PointBelow());
      var right, left := r.Contains(pt.PointRight()), r.Contains(pt.PointLeft());
      [ Corner(above, left, r.Contains(pt.PointUpLeft()), UpperLeftCorner, LowerRightCorner),
        if above then Space else Horizontal,
        Corner(above, right, r.Contains(pt.PointUpRight()), UpperRightCorner, LowerLeftCorner),
        Corner(below, left, r.Contains(pt.PointDownLeft()), LowerLeftCorner, UpperRightCorner),
        if below then Space else Horizontal,
        Corner(below, right, r.Contains(pt.PointDownRight()), LowerRightCorner, UpperLeftCorner) ]
  }

  /** A point that is not a pip is drawn as six blanks. */
  lemma GlyphsOffPiece(r: PieceRotation, pt: Point)
    requires !r.Contains(pt)
    ensures forall k :: 0 <= k < 6 ==> Glyphs(r, pt)[k] == Space
  {
  }

  /** The middle glyphs of a pip are open towards a pip above or below and a
      horizontal line otherwise. */
  lemma MiddleGlyphs(r: PieceRotation, pt: Point)
    requires r.Contains(pt)
    ensures Glyphs(r, pt)[1] == Space <==> r.Contains(pt.PointAbove())
    ensures Glyphs(r, pt)[1] == Horizontal <==> !r.Contains(pt.PointAbove())
    ensures Glyphs(r, pt)[4] == Space <==> r.Contains(pt.PointBelow())
    ensures Glyphs(r, pt)[4] == Horizontal <==> !r.Contains(pt.PointBelow())
  {
  }

  /** A pip with no neighbour is drawn as a closed box. */
  lemma IsolatedPip(r: PieceRotation, pt: Point)
    requires r.Contains(pt)
    requires !r.Contains(pt.PointAbove()) && !r.Contains(pt.PointBelow())
    requires !r.Contains(pt.PointLeft()) && !r.Contains(pt.PointRight())
    ensures Glyphs(r, pt) == [UpperLeftCorner, Horizontal, UpperRightCorner, LowerLeftCorner, Horizontal, LowerRightCorner]
  {
  }

  /** A pip surrounded by pips on all eight sides is drawn as six blanks. */
  lemma InteriorPip(r: PieceRotation, pt: Point)
    requires r.Contains(pt)
    requires r.Contains(pt.PointAbove()) && r.Contains(pt.PointBelow())
    requires r.Contains(pt.PointLeft()) && r.Contains(pt.PointRight())
    requires r.Contains(pt.PointUpLeft()) && r.Contains(pt.PointUpRight())
    requires r.Contains(pt.PointDownLeft()) && r.Contains(pt.PointDownRight())
    ensures Glyphs(r, pt) == Spaces(6)
  {
  }

  /** Two pips stacked vertically leave no line between them: the upper one's
      bottom and the lower one's top are both blank. */
  lemma VerticalSeam(r: PieceRotation, pt: Point)
    requires r.Contains(pt) && r.Contains(pt.PointBelow())
    ensures Glyphs(r, pt)[4] == Space && Glyphs(r, pt.PointBelow())[1] == Space
  {
    VerticalNeighbours(pt);
  }

  /** Where two orthogonal neighbours of a corner are pips and the diagonal one
      is not, the corner shows the notch: the corner glyph that turns into the
      missing diagonal cell. */
  lemma NotchCorners(r: PieceRotation, pt: Point)
    requires r.Contains(pt)
    ensures r.Contains(pt.PointAbove()) && r.Contains(pt.PointLeft()) && !r.Contains(pt.PointUpLeft())
      ==> Glyphs(r, pt)[0] == LowerRightCorner
    ensures r.Contains(pt.PointAbove()) && r.Contains(pt.PointRight()) && !r.Contains(pt.PointUpRight())
      ==> Glyphs(r, pt)[2] == LowerLeftCorner
    ensures r.Contains(pt.PointBelow()) && r.Contains(pt.PointLeft()) && !r.Contains(pt.PointDownLeft())
      ==> Glyphs(r, pt)[3] == UpperRightCorner
    ensures r.Contains(pt.PointBelow()) && r.Contains(pt.PointRight()) && !r.Contains(pt.PointDownRight())
      ==> Glyphs(r, pt)[5] == UpperLeftCorner
  {
  }

  /** A corner with exactly one orthogonal neighbour pip continues that
      neighbour's side: a vertical line towards a pip above or below, a
      horizontal line towards a pip left or right. */
  lemma EdgeCorners(r: PieceRotation, pt: Point)
    requires r.Contains(pt)
    ensures var above, below := r.Contains(pt.PointAbove()), r.Contains(pt.PointBelow());
      var left, right := r.Contains(pt.PointLeft()), r.Contains(pt.PointRight());
      && (above && !left ==> Glyphs(r, pt)[0] == Vertical) && (!above && left ==> Glyphs(r, pt)[0] == Horizontal)
      && (above && !right ==> Glyphs(r, pt)[2] == Vertical) && (!above && right ==> Glyphs(r, pt)[2] == Horizontal)
      && (below && !left ==> Glyphs(r, pt)[3] == Vertical) && (!below && left ==> Glyphs(r, pt)[3] == Horizontal)
      && (below && !right ==> Glyphs(r, pt)[5] == Vertical) && (!below && right ==> Glyphs(r, pt)[5] == Horizontal)
  {
  }

  /** Two pips side by side leave no vertical line between them, and where
      neither has a pip above (below) the top (bottom) edge runs on across
      the seam. */
  lemma HorizontalSeam(r: PieceRotation, pt: Point)
    requires r.Contains(pt) && r.Contains(pt.PointRight())
    ensures var g, h := Glyphs(r, pt), Glyphs(r, pt.PointRight());
      && g[2] != Vertical && g[5] != Vertical && h[0] != Vertical && h[3] != Vertical
      && (!r.Contains(pt.PointAbove()) && !r.Contains(pt.PointRight().PointAbove()) ==> g[2] == Horizontal && h[0] == Horizontal)
      && (!r.Contains(pt.PointBelow()) && !r.Contains(pt.PointRight().PointBelow()) ==> g[5] == Horizontal && h[3] == Horizontal)
  {
    HorizontalNeighbours(pt);
  }

  // ---------------------------------------------------------------------
  // Buffer layout

  /** Buffer index where the top row of cell p's block starts, in a buffer
      W characters wide: row 2y, column 3x. */
  function FirstRowStart(W: int, p: Point): int
  {
    (p.y * 2) * W + p.x * 3
  }

  /** Buffer index of slot k of cell p's block: slots 0 to 2 on the top row,
      3 to 5 on the row below. */
  function SlotIndex(W: int, p: Point, k: int): int
  {
    if k < 3 then FirstRowStart(W, p) + k else FirstRowStart(W, p) + W + (k - 3)
  }

  /** The cell whose block holds buffer index i (W = 3 * board width). */
  function CellOf(W: int, i: int): Point
    requires W > 0
  {
    Point((i % W) / 3, (i / W) / 2)
  }

  /** The slot of index i within its cell's block. */
  function SlotOf(W: int, i: int): (k: int)
    requires W > 0
    ensures 0 <= k < 6
  {
    ((i / W) % 2) * 3 + (i % W) % 3
  }

  /** Division by a positive W is determined by any quotient and remainder. */
  lemma DivMod(n: int, W: int, q: int, m: int)
    requires W > 0 && 0 <= m < W && n == q * W + m
    ensures n / W == q && n % W == m
  {
    var q', m' := n / W, n % W;
    var d := q' - q;
    assert d * W == m - m' by {
      assert q' * W + m' == q * W + m;
      assert d * W == q' * W - q * W;
    }
    if d >= 1 {
      MulLeft(1, d, W);
    } else if d <= -1 {
      MulLeft(d, -1, W);
    }
  }

  /** The six slots of an in-board cell lie in the buffer and map back to
      that cell and slot. */
  lemma SlotCell(w: int, h: int, p: Point, k: int)
    requires w > 0 && h > 0 && 0 <= p.x < w && 0 <= p.y < h && 0 <= k < 6
    ensures 0 <= SlotIndex(3 * w, p, k) < (3 * w) * (2 * h)
    ensures CellOf(3 * w, SlotIndex(3 * w, p, k)) == p && SlotOf(3 * w, SlotIndex(3 * w, p, k)) == k
  {
    var W := 3 * w;
    var row, col := 2 * p.y + k / 3, 3 * p.x + k % 3;
    assert (2 * p.y + 1) * W == (p.y * 2) * W + W;
    assert SlotIndex(W, p, k) == row * W + col;
    DivMod(SlotIndex(W, p, k), W, row, col);
    RowsApart(W, row, 2 * h);
  }

  /** Every buffer index is a slot of an in-board cell. */
  lemma CellSlot(w: int, h: int, i: int)
    requires w > 0 && h > 0 && 0 <= i < (3 * w) * (2 * h)
    ensures 0 <= CellOf(3 * w, i).x < w && 0 <= CellOf(3 * w, i).y < h
    ensures SlotIndex(3 * w, CellOf(3 * w, i), SlotOf(3 * w, i)) == i
  {
    var W := 3 * w;
    var row, col := i / W, i % W;
    assert i == row * W + col;
    assert 0 <= row by {
      if row < 0 {
        MulLeft(row, -1, W);
      }
    }
    assert row < 2 * h by {
      if row >= 2 * h {
        MulLeft(2 * h, row, W);
      }
    }
    assert col / 3 < w by {
      assert col == 3 * (col / 3) + col % 3;
    }
    var p := CellOf(W, i);
    assert p == Point(col / 3, row / 2);
    assert FirstRowStart(W, p) == (row / 2 * 2) * W + col / 3 * 3;
    if row % 2 == 0 {
      assert row / 2 * 2 == row;
    } else {
      assert (row / 2 * 2) * W + W == row * W by {
        assert row / 2 * 2 + 1 == row;
      }
    }
  }

  /** Slots of two different in-board cells are different indices. */
  lemma SlotsDisjoint(w: int, h: int, p: Point, k: int, q: Point, j: int)
    requires w > 0 && h > 0 && 0 <= p.x < w && 0 <= p.y < h && 0 <= k < 6
    requires 0 <= q.x < w && 0 <= q.y < h && 0 <= j < 6
    requires p != q || k != j
    ensures SlotIndex(3 * w, p, k) != SlotIndex(3 * w, q, j)
  {
    SlotCell(w, h, p, k);
    SlotCell(w, h, q, j);
  }

  /** The buffer after addCharacters: its six writes, in order. */
  function Writes(buf: seq<char>, W: int, p: Point, g: seq<char>): seq<char>
    requires |g| >= 6 && 0 <= SlotIndex(W, p, 0) && SlotIndex(W, p, 5) < |buf| && W >= 3
  {
    buf[SlotIndex(W, p, 0) := g[0]][SlotIndex(W, p, 1) := g[1]][SlotIndex(W, p, 2) := g[2]]
       [SlotIndex(W, p, 3) := g[3]][SlotIndex(W, p, 4) := g[4]][SlotIndex(W, p, 5) := g[5]]
  }

  /** The buffer with cell p's block replaced by g and every other cell kept. */
  function Blit(buf: seq<char>, W: int, p: Point, g: seq<char>): (r: seq<char>)
    requires W > 0 && |g| >= 6
    ensures |r| == |buf|
  {
    seq(|buf|, i requires 0 <= i < |buf| => if CellOf(W, i) == p then g[SlotOf(W, i)] else buf[i])
  }

  /** For an in-board cell, the six writes of addCharacters replace exactly
      that cell's block. */
  lemma WritesBlit(w: int, h: int, buf: seq<char>, p: Point, g: seq<char>)
    requires w > 0 && h > 0 && 0 <= p.x < w && 0 <= p.y < h && |g| >= 6
    requires |buf| == (3 * w) * (2 * h)
    ensures 0 <= SlotIndex(3 * w, p, 0) && SlotIndex(3 * w, p, 5) < |buf|
    ensures Writes(buf, 3 * w, p, g) == Blit(buf, 3 * w, p, g)
  {
    var W := 3 * w;
    SlotCell(w, h, p, 0);
    SlotCell(w, h, p, 5);
    var a, b := Writes(buf, W, p, g), Blit(buf, W, p, g);
    forall i | 0 <= i < |buf| ensures a[i] == b[i] {
      CellSlot(w, h, i);
      if CellOf(W, i) != p {
        forall k | 0 <= k < 6 ensures SlotIndex(W, p, k) != i {
          SlotsDisjoint(w, h, p, k, CellOf(W, i), SlotOf(W, i));
        }
      }
    }
  }

  // ---------------------------------------------------------------------
  // generateString

  /** The first rows of a buffer W characters wide, each followed by a newline. */
  function Render(buf: seq<char>, W: int, rows: nat): string
    requires W > 0 && rows * W <= |buf|
  {
    if rows == 0 then []
    else
      RowsApart(W, rows - 1, rows);
      Render(buf, W, rows - 1) + buf[(rows - 1) * W..(rows - 1) * W + W] + "\n"
  }

  lemma {:induction false} RenderLength(buf: seq<char>, W: int, rows: nat)
    requires W > 0 && rows * W <= |buf|
    ensures |Render(buf, W, rows)| == rows * (W + 1)
  {
    if rows > 0 {
      RowsApart(W, rows - 1, rows);
      RenderLength(buf, W, rows - 1);
      assert rows * (W + 1) == (rows - 1) * (W + 1) + W + 1;
    }
  }

  /** Rendering fewer rows gives a prefix of the text. */
  lemma {:induction false} RenderRows(buf: seq<char>, W: int, m: nat, rows: nat)
    requires W > 0 && m <= rows && rows * W <= |buf|
    ensures m * W <= |buf| && Render(buf, W, m) <= Render(buf, W, rows)
    decreases rows
  {
    MulLeft(m, rows, W);
    if m < rows {
      RowsApart(W, rows - 1, rows);
      RenderRows(buf, W, m, rows - 1);
    }
  }

  /** Row y of the text is row y of the buffer, W characters starting at
      y * (W + 1), followed by a newline. */
  lemma RenderRow(buf: seq<char>, W: int, rows: nat, y: nat)
    requires W > 0 && rows * W <= |buf| && y < rows
    ensures y * W + W <= |buf| && y * (W + 1) + W < |Render(buf, W, rows)|
    ensures Render(buf, W, rows)[y * (W + 1)..y * (W + 1) + W] == buf[y * W..y * W + W]
    ensures Render(buf, W, rows)[y * (W + 1) + W] == '\n'
  {
    RenderRows(buf, W, y + 1, rows);
    RowsApart(W, y, y + 1);
    RenderLength(buf, W, y);
    RenderLength(buf, W, y + 1);
    var a := y * (W + 1);
    assert (y + 1) * (W + 1) == a + W + 1;
    var p, q := Render(buf, W, y), buf[y * W..y * W + W] + "\n";
    assert Render(buf, W, y + 1) == p + q && |p| == a;
    assert Render(buf, W, rows)[a..a + W] == (p + q)[a..a + W] == q[..W];
  }

  // ---------------------------------------------------------------------
  // What the two static renderers draw

  /** The picture of a single rotation: every buffer index shows its cell's
      glyph for its slot. */
  function Picture(r: PieceRotation): (buf: seq<char>)
    requires r.size.width > 0 && r.size.height > 0
    ensures |buf| == (3 * r.size.width) * (2 * r.size.height)
  {
    var W := 3 * r.size.width;
    seq(W * (2 * r.size.height), i requires 0 <= i < W * (2 * r.size.height) => Glyphs(r, CellOf(W, i))[SlotOf(W, i)])
  }

  /** The rotation picture after the cells before row-major index n are drawn
      on a blank buffer. */
  ghost function PaintedCells(r: PieceRotation, n: int): (buf: seq<char>)
    requires r.size.width > 0 && r.size.height > 0
    ensures |buf| == (3 * r.size.width) * (2 * r.size.height)
  {
    var W := 3 * r.size.width;
    seq(W * (2 * r.size.height), i requires 0 <= i < W * (2 * r.size.height) =>
      if Index(r.size, CellOf(W, i)) < n then Glyphs(r, CellOf(W, i))[SlotOf(W, i)] else Space)
  }

  /** Drawing cell p, the n-th in row-major order, extends the picture by
      one cell. */
  lemma PaintCellStep(r: PieceRotation, p: Point)
    requires r.size.width > 0 && r.size.height > 0 && InBounds(r.size, p)
    ensures Blit(PaintedCells(r, Index(r.size, p)), 3 * r.size.width, p, Glyphs(r, p)) == PaintedCells(r, Index(r.size, p) + 1)
  {
    var w, h, W := r.size.width, r.size.height, 3 * r.size.width;
    var n := Index(r.size, p);
    var a, b := Blit(PaintedCells(r, n), W, p, Glyphs(r, p)), PaintedCells(r, n + 1);
    forall i | 0 <= i < |a| ensures a[i] == b[i] {
      CellSlot(w, h, i);
      if Index(r.size, CellOf(W, i)) == n {
        IndexInjective(r.size, CellOf(W, i), p);
      }
    }
  }

  /** The six writes of cell p, the n-th in row-major order, turn the
      picture with n cells drawn into the one with n + 1. */
  lemma DrawCellStep(r: PieceRotation, p: Point)
    requires r.size.width > 0 && r.size.height > 0 && InBounds(r.size, p)
    ensures 0 <= SlotIndex(3 * r.size.width, p, 0) && SlotIndex(3 * r.size.width, p, 5) < (3 * r.size.width) * (2 * r.size.height)
    ensures Writes(PaintedCells(r, Index(r.size, p)), 3 * r.size.width, p, Glyphs(r, p)) == PaintedCells(r, Index(r.size, p) + 1)
  {
    WritesBlit(r.size.width, r.size.height, PaintedCells(r, Index(r.size, p)), p, Glyphs(r, p));
    PaintCellStep(r, p);
  }

  /** Before any cell is drawn the buffer is blank. */
  lemma PaintedNone(r: PieceRotation)
    requires r.size.width > 0 && r.size.height > 0
    ensures PaintedCells(r, 0) == Spaces((3 * r.size.width) * (2 * r.size.height))
  {
    var W := 3 * r.size.width;
    var a, b := PaintedCells(r, 0), Spaces((3 * r.size.width) * (2 * r.size.height));
    forall i | 0 <= i < |a| ensures a[i] == b[i] {
      var p := CellOf(W, i);
      CellSlot(r.size.width, r.size.height, i);
      MulLeft(0, p.y, r.size.width);
      assert Index(r.size, p) >= 0;
    }
  }

  /** Once every cell is drawn the buffer is the picture. */
  lemma PaintedAll(r: PieceRotation)
    requires r.size.width > 0 && r.size.height > 0
    ensures PaintedCells(r, r.size.width * r.size.height) == Picture(r)
  {
    var W := 3 * r.size.width;
    forall i | 0 <= i < |Picture(r)| ensures Index(r.size, CellOf(W, i)) < r.size.width * r.size.height {
      CellSlot(r.size.width, r.size.height, i);
    }
  }

  /** The rotation a placement refers to exists. */
  predicate Drawable(pieces: seq<Piece>, ps: seq<PlacedPiece>)
  {
    forall j :: 0 <= j < |ps| ==> PlacementValid(pieces, ps[j])
  }

  /** The point of rotation r that a board cell shows when r sits at origin. */
  function Local(cell: Point, origin: Point): Point
  {
    Point(cell.x - origin.x, cell.y - origin.y)
  }

  /** The buffer with the pips of done (pips of r) drawn at origin. */
  function PaintPips(buf: seq<char>, W: int, r: PieceRotation, origin: Point, done: set<Point>): (out: seq<char>)
    requires W > 0
    ensures |out| == |buf|
  {
    seq(|buf|, i requires 0 <= i < |buf| =>
      if Local(CellOf(W, i), origin) in done then Glyphs(r, Local(CellOf(W, i), origin))[SlotOf(W, i)] else buf[i])
  }

  /** Drawing placement after placement, each over what came before. */
  function PaintAll(buf: seq<char>, W: int, pieces: seq<Piece>, ps: seq<PlacedPiece>): (out: seq<char>)
    requires W > 0 && Drawable(pieces, ps)
    ensures |out| == |buf|
  {
    if ps == [] then buf
    else
      var c := ps[|ps| - 1];
      PaintPips(PaintAll(buf, W, pieces, ps[..|ps| - 1]), W, RotationOf(pieces, c), c.position, RotationOf(pieces, c).pips)
  }

  /** The index of the last placement whose pips cover the board cell. */
  function LastCover(pieces: seq<Piece>, ps: seq<PlacedPiece>, cell: Point): (j: Option<int>)
    requires Drawable(pieces, ps)
    ensures j.Some? ==> 0 <= j.value < |ps| && Local(cell, ps[j.value].position) in RotationOf(pieces, ps[j.value]).pips
  {
    if ps == [] then None
    else
      var c := ps[|ps| - 1];
      if Local(cell, c.position) in RotationOf(pieces, c).pips then Some(|ps| - 1)
      else LastCover(pieces, ps[..|ps| - 1], cell)
  }

  /** On the board picture each character comes from the last placement that
      covers its cell, and is a blank where no placement does: later
      placements overwrite earlier ones. */
  lemma {:induction false} PaintAllLast(buf: seq<char>, W: int, pieces: seq<Piece>, ps: seq<PlacedPiece>, i: int)
    requires W > 0 && Drawable(pieces, ps) && 0 <= i < |buf|
    ensures LastCover(pieces, ps, CellOf(W, i)).None? ==> PaintAll(buf, W, pieces, ps)[i] == buf[i]
    ensures LastCover(pieces, ps, CellOf(W, i)).Some? ==>
      var c := ps[LastCover(pieces, ps, CellOf(W, i)).value];
      PaintAll(buf, W, pieces, ps)[i] == Glyphs(RotationOf(pieces, c), Local(CellOf(W, i), c.position))[SlotOf(W, i)]
    decreases |ps|
  {
    if ps != [] {
      var t := ps[..|ps| - 1];
      assert Drawable(pieces, t) by {
        assert forall j :: 0 <= j < |t| ==> t[j] == ps[j];
      }
      PaintAllLast(buf, W, pieces, t, i);
      var c := ps[|ps| - 1];
      if Local(CellOf(W, i), c.position) !in RotationOf(pieces, c).pips {
        var j := LastCover(pieces, t, CellOf(W, i));
        assert j.Some? ==> ps[j.value] == t[j.value];
      }
    }
  }

  /** Every pip of every placement lands inside the board. */
  predicate OnBoard(size: Size, pieces: seq<Piece>, ps: seq<PlacedPiece>)
    requires Drawable(pieces, ps)
  {
    forall j, p :: 0 <= j < |ps| && p in RotationOf(pieces, ps[j]).pips ==> InBounds(size, Offset(ps[j].position, p))
  }

  /** Drawing placements 0 to j is drawing 0 to j - 1 and then the pips of
      placement j, each on the board. */
  lemma PaintAllStep(size: Size, buf: seq<char>, W: int, pieces: seq<Piece>, ps: seq<PlacedPiece>, j: int)
    requires W > 0 && Drawable(pieces, ps) && OnBoard(size, pieces, ps) && 0 <= j < |ps|
    ensures Drawable(pieces, ps[..j]) && Drawable(pieces, ps[..j + 1])
    ensures forall p :: p in RotationOf(pieces, ps[j]).pips ==> InBounds(size, Offset(ps[j].position, p))
    ensures PaintAll(buf, W, pieces, ps[..j + 1])
         == PaintPips(PaintAll(buf, W, pieces, ps[..j]), W, RotationOf(pieces, ps[j]), ps[j].position, RotationOf(pieces, ps[j]).pips)
  {
    assert ps[..j + 1][..j] == ps[..j];
  }

  /** Drawing one more pip at its board cell extends the drawn set by it. */
  lemma PaintPipStep(w: int, h: int, buf: seq<char>, r: PieceRotation, origin: Point, done: set<Point>, p: Point)
    requires w > 0 && h > 0 && |buf| == (3 * w) * (2 * h)
    requires 0 <= Offset(origin, p).x < w && 0 <= Offset(origin, p).y < h
    ensures Blit(PaintPips(buf, 3 * w, r, origin, done), 3 * w, Offset(origin, p), Glyphs(r, p))
         == PaintPips(buf, 3 * w, r, origin, done + {p})
  {
  }

  // ---------------------------------------------------------------------
  // The printer

  /** The 3w x 2h character buffer of a board of w x h cells. */
  class PiecePrinter {
    const size: Size
    const charSize: Size
    const characters: array<char>

    ghost predicate Valid()
      reads this
    {
      && size.width > 0 && size.height > 0
      && charSize == Size(3 * size.width, 2 * size.height)
      && characters.Length == charSize.width * charSize.height
    }

    /** A buffer of blanks; the source traps unless both sides are positive. */
    constructor(size: Size)
      requires size.width > 0 && size.height > 0
      ensures Valid() && this.size == size && fresh(characters)
      ensures characters[..] == Spaces(characters.Length)
    {
      this.size := size;
      var charactersWide := size.width * 3;
      var charactersHigh := size.height * 2;
      characters := new char[charactersWide * charactersHigh](_ => Space);
      charSize := Size(charactersWide, charactersHigh);
    }

    /** Writes the six glyphs into the block of piecePoint; the source traps
        when one of the six indices falls outside the buffer. */
    method AddCharacters(inChars: seq<char>, piecePoint: Point)
      requires Valid() && |inChars| >= 6
      requires 0 <= SlotIndex(charSize.width, piecePoint, 0) && SlotIndex(charSize.width, piecePoint, 5) < characters.Length
      modifies characters
      ensures characters[..] == Writes(old(characters[..]), charSize.width, piecePoint, inChars)
    {
      var firstRowStart := ((piecePoint.y * 2) * charSize.width) + (piecePoint.x * 3);
      var secondRowStart := firstRowStart + charSize.width;
      ghost var W, b := charSize.width, characters[..];
      ghost var written := Writes(b, W, piecePoint, inChars);
      assert firstRowStart == SlotIndex(W, piecePoint, 0) && firstRowStart + 1 == SlotIndex(W, piecePoint, 1);
      assert firstRowStart + 2 == SlotIndex(W, piecePoint, 2) && secondRowStart == SlotIndex(W, piecePoint, 3);
      assert secondRowStart + 1 == SlotIndex(W, piecePoint, 4) && secondRowStart + 2 == SlotIndex(W, piecePoint, 5);
      characters[firstRowStart] := inChars[0];
      b := b[firstRowStart := inChars[0]];
      assert characters[..] == b;
      characters[firstRowStart + 1] := inChars[1];
      b := b[firstRowStart + 1 := inChars[1]];
      assert characters[..] == b;
      characters[firstRowStart + 2] := inChars[2];
      b := b[firstRowStart + 2 := inChars[2]];
      assert characters[..] == b;
      characters[secondRowStart] := inChars[3];
      b := b[secondRowStart := inChars[3]];
      assert characters[..] == b;
      characters[secondRowStart + 1] := inChars[4];
      b := b[secondRowStart + 1 := inChars[4]];
      assert characters[..] == b;
      characters[secondRowStart + 2] := inChars[5];
      b := b[secondRowStart + 2 := inChars[5]];
      assert characters[..] == b;
      assert b == written;
    }

    /** The buffer as text, row by row, each row followed by a newline. */
    method GenerateString() returns (s: string)
      requires Valid()
      ensures s == Render(characters[..], charSize.width, charSize.height)
    {
      var W, H := charSize.width, charSize.height;
      ghost var buf := characters[..];
      assert |buf| == H * W;
      s := [];
      for y := 0 to H
        invariant s == Render(buf, W, y)
      {
        RowsApart(W, y, H);
        ghost var row, start := s, y * W;
        assert start == W * y && (y + 1) * W == start + W && start + W <= |buf|;
        for x := 0 to W
          invariant s == row + buf[start..start + x]
        {
          var idx := (W * y) + x;
          s := s + [characters[idx]];
          assert buf[start..start + x + 1] == buf[start..start + x] + [buf[idx]];
        }
        s := s + "\n";
        assert Render(buf, W, y + 1) == row + buf[start..start + W] + "\n";
      }
    }

    /** The picture of one rotation: every cell of its bounding box is
        drawn, pip or not. */
    static method RotationString(piece: PieceRotation) returns (s: string)
      requires piece.size.width > 0 && piece.size.height > 0
      ensures s == Render(Picture(piece), 3 * piece.size.width, 2 * piece.size.height)
    {
      var printer := new PiecePrinter(piece.size);
      var w, h := piece.size.width, piece.size.height;
      PaintedNone(piece);
      assert printer.characters[..] == PaintedCells(piece, 0);
      for y := 0 to h
        invariant printer.Valid() && printer.size == piece.size
        invariant printer.characters[..] == PaintedCells(piece, y * w)
      {
        printer.DrawRow(piece, y);
        assert y * w + w == (y + 1) * w;
      }
      assert h * w == w * h;
      PaintedAll(piece);
      s := printer.GenerateString();
    }

    /** The inner loop of the rotation picture: draws every cell of row y,
        the cells of the earlier rows being drawn already. */
    method DrawRow(piece: PieceRotation, y: int)
      requires Valid() && size == piece.size && 0 <= y < size.height
      requires characters[..] == PaintedCells(piece, y * size.width)
      modifies characters
      ensures characters[..] == PaintedCells(piece, y * size.width + size.width)
    {
      ghost var n := y * size.width;
      for x := 0 to size.width
        invariant characters[..] == PaintedCells(piece, n + x)
      {
        var pt := Point(x, y);
        var inChars := Glyphs(piece, pt);
        assert Index(piece.size, pt) == n + x;
        DrawCellStep(piece, pt);
        AddCharacters(inChars, pt);
      }
    }

    /** The inner loop of the board picture: draws every pip of one
        placement at its board cell, over what is there. */
    method DrawPips(rotation: PieceRotation, position: Point)
      requires Valid() && forall p :: p in rotation.pips ==> InBounds(size, Offset(position, p))
      modifies characters
      ensures characters[..] == PaintPips(old(characters[..]), 3 * size.width, rotation, position, rotation.pips)
    {
      ghost var before := characters[..];
      var rest := rotation.pips;
      while rest != {}
        invariant rest <= rotation.pips
        invariant characters[..] == PaintPips(before, 3 * size.width, rotation, position, rotation.pips - rest)
        decreases |rest|
      {
        var point :| point in rest;
        var inChars := Glyphs(rotation, point);
        var boardPoint := Point(point.x + position.x, point.y + position.y);
        assert InBounds(size, Offset(position, point));
        WritesBlit(size.width, size.height, characters[..], boardPoint, inChars);
        PaintPipStep(size.width, size.height, before, rotation, position, rotation.pips - rest, point);
        AddCharacters(inChars, boardPoint);
        assert rotation.pips - (rest - {point}) == (rotation.pips - rest) + {point};
        rest := rest - {point};
      }
    }

    /** The picture of a board: each placement's pips drawn at their board
        cells, in placement order, later ones over earlier ones. The source
        traps on an id or rotation out of range and on a pip off the buffer;
        here every pip must land on the board. */
    static method BoardString(dimensions: Size, placements: seq<PlacedPiece>, store: PieceStore) returns (s: string)
      requires dimensions.width > 0 && dimensions.height > 0 && store.Valid()
      requires Drawable(store.pieces, placements) && OnBoard(dimensions, store.pieces, placements)
      ensures s == Render(PaintAll(Spaces((3 * dimensions.width) * (2 * dimensions.height)), 3 * dimensions.width, store.pieces, placements),
                          3 * dimensions.width, 2 * dimensions.height)
    {
      var printer := new PiecePrinter(dimensions);
      var w, h := dimensions.width, dimensions.height;
      ghost var blank := printer.characters[..];
      for j := 0 to |placements|
        invariant printer.Valid() && printer.size == dimensions
        invariant Drawable(store.pieces, placements[..j])
        invariant printer.characters[..] == PaintAll(blank, 3 * w, store.pieces, placements[..j])
      {
        var placement := placements[j];
        PaintAllStep(dimensions, blank, 3 * w, store.pieces, placements, j);
        var piece := store.GetPiece(placement.id);
        var rotation := piece.rotations[placement.rotation];
        printer.DrawPips(rotation, placement.position);
      }
      assert placements[..|placements|] == placements;
      s := printer.GenerateString();
    }
  }
}
