# tetrominos in Dafny

A model of a command-line polyomino tiling solver. The user gives a board size
("WxH") and a list of pieces ("3t1o2i": three T, one O, two I). The solver
fills the board exactly with those pieces, or reports that it cannot, and
prints the first solution as box-drawing text.

The model follows the program's own structure, one module per source file:

- `Types` (types.dfy): points and what their eight neighbours are, sizes,
  placements.
- `Rotations` (rotations.dfy): one fixed orientation of a piece. It keeps its
  pip set, its bounding size, and the x of its leftmost top-row pip.
- `Pieces` (pieces.dfy): a named piece and its list of distinct quarter turns.
- `Store` (store.dfy): the `PieceStore` class. It holds the catalogue, the
  name index (names folded to lower case), the registered counts and the
  counts still available.
- `Boards` (board.dfy): the `PieceBoard` class. It is the occupancy grid, a
  row-major array of flags, and places rotations all-or-nothing.
- `Covers` (cover.dfy): what a stack of placements means. This covers the
  grid it leaves, the cells it covers, the pieces it uses, and when it is an
  exact cover of the board.
- `Ranks` (rank.dfy): digit vectors read as numbers. They give the
  termination measure of the search.
- `Search` (solver.dfy): the `Solver` class with its Placing / Backtracking /
  Done state machine. One step is specified by pure predicates (`Step`,
  `BacktrackStep`), and a run by `Progress`.
- `Input` (input.dfy): the parsers of the dimension line and the piece line,
  and the registration of parsed pieces with the store.
- `Printer` (printer.dfy): the `PiecePrinter` class, a character buffer of
  3 x 2 characters per cell. It renders one rotation or a board of
  placements.

Classes appear where the source updates fields in place: the store, the
board, the solver and the printer. A board and a print buffer are `array`s.
The store's count arrays are `seq` fields that its methods reassign, since
Swift arrays are values. Loops of the source are `while`/`for` loops proved
against specification functions.

The solver's main loop is `while true` with a return on `Done` in the source.
Here it is `while state != Done`, and it is proved to terminate. Its measure
reads the stack of choices as a number in base 4 * |catalogue| + 2, with one
digit per board cell. Every round lowers the measure, or moves to Done.

## Model

| member | source | states |
|---|---|---|
| Types.Point.PointAbove | Sources/tetrominos/Types.swift:12-14 | the point one row up: same x, y - 1 |
| Types.Point.PointBelow | Sources/tetrominos/Types.swift:16-18 | the point one row down: same x, y + 1 |
| Types.Point.PointRight | Sources/tetrominos/Types.swift:20-22 | the point one column right: x + 1, same y |
| Types.Point.PointLeft | Sources/tetrominos/Types.swift:24-26 | the point one column left: x - 1, same y |
| Types.Point.PointUpLeft | Sources/tetrominos/Types.swift:28-30 | the diagonal neighbour up and left: x - 1, y - 1 |
| Types.Point.PointUpRight | Sources/tetrominos/Types.swift:32-34 | the diagonal neighbour up and right: x + 1, y - 1 |
| Types.Point.PointDownLeft | Sources/tetrominos/Types.swift:36-38 | the diagonal neighbour down and left: x - 1, y + 1 |
| Types.Point.PointDownRight | Sources/tetrominos/Types.swift:40-42 | the diagonal neighbour down and right: x + 1, y + 1 |
| Types.VerticalNeighbours | Sources/tetrominos/Types.swift:12-18 | the point above / below differs by one in y only, and the two are inverse |
| Types.HorizontalNeighbours | Sources/tetrominos/Types.swift:20-26 | the point left / right differs by one in x only, and the two are inverse |
| Types.DiagonalNeighbours | Sources/tetrominos/Types.swift:28-42 | each diagonal neighbour is a vertical step followed by a horizontal one |
| Types.PointEquality | Sources/tetrominos/Types.swift:8-10 | points are equal exactly when both coordinates are |
| Rotations.PieceRotation.Contains | Sources/tetrominos/PieceRotation.swift:46-48 | membership of a point in the rotation's pip set |
| Rotations.FromPoints | Sources/tetrominos/PieceRotation.swift:13-44 | the rotation construction yields: the point set as pips, size (maxX + 1, maxY + 1), and the least top-row x |
| Rotations.MaxXSpec | Sources/tetrominos/PieceRotation.swift:21-23 | the computed width bound is at least every x, is attained (or 0), and is non-negative |
| Rotations.MaxYSpec | Sources/tetrominos/PieceRotation.swift:24-26 | the computed height bound is at least every y, is attained (or 0), and is non-negative |
| Rotations.TopRowMinSpec | Sources/tetrominos/PieceRotation.swift:27-29 | the top-row minimum is absent exactly when no point has y = 0, otherwise it is the least such x |
| Rotations.FromPointsWellFormed | Sources/tetrominos/PieceRotation.swift:13-44 | a valid point list gives a well-formed rotation: its pips are the points, its size bounds them and it touches both axes |
| Rotations.Build | Sources/tetrominos/PieceRotation.swift:13-44 | the initializer's loops compute the rotation of the point list, of size (maxX + 1, maxY + 1) |
| Rotations.Equal | Sources/tetrominos/PieceRotation.swift:50-52 | two rotations are equal exactly when they have the same pips |
| Rotations.EqualIsIdentity | Sources/tetrominos/PieceRotation.swift:46-52 | on well-formed rotations, pip equality is identity of the whole value |
| Pieces.Turned | Sources/tetrominos/Piece.swift:38-55 | one quarter turn, (x, y) to (y, -x - m) with m the least -x; it keeps the number of points |
| Pieces.TurnedValid | Sources/tetrominos/Piece.swift:38-55 | a quarter turn of a valid shape is a valid shape again |
| Pieces.TurnedGeometry | Sources/tetrominos/Piece.swift:38-55 | a quarter turn maps x to the old y, negates the x offsets into y offsets, and shifts so that the least y is 0 |
| Pieces.TurnValid | Sources/tetrominos/Piece.swift:25-33 | any number of quarter turns keeps the shape valid |
| Pieces.ExtendSpec | Sources/tetrominos/Piece.swift:25-33 | the turning loop keeps the kept list a prefix of the orientations with distinct pip sets, and it stops at most at four or at the first repeat |
| Pieces.RotationList | Sources/tetrominos/Piece.swift:19-36 | the rotation list: the input rotation, then up to three more quarter turns, stopping at the first whose pip set repeats a kept one |
| Pieces.RotationListSpec | Sources/tetrominos/Piece.swift:19-36 | one to four rotations: rotation 0 is the input, rotation i is the i-th turn, all are distinct and well formed, and a short list ends where the next turn repeats |
| Pieces.RotatePoints | Sources/tetrominos/Piece.swift:38-55 | the two passes of the source compute the quarter turn |
| Pieces.GenerateRotations | Sources/tetrominos/Piece.swift:19-36 | the loop with its contains break computes the rotation list |
| Pieces.NewPiece | Sources/tetrominos/Piece.swift:13-17 | a piece keeps its name, has one pip per point and carries the rotation list |
| Store.Lookup | Sources/tetrominos/PieceStore.swift:29-32 | the id registered under the folded name, or none |
| Store.PipTotal | Sources/tetrominos/PieceStore.swift:20-27 | the sum over ids of pip count times count |
| Store.LowerSpec | Sources/tetrominos/PieceStore.swift:29-32 | the folded name has no upper-case letter, keeps every other character, and folding is idempotent |
| Store.TShapeRotations | Sources/tetrominos/PieceStore.swift:84 | the T shape has four distinct rotations |
| Store.LShapeRotations | Sources/tetrominos/PieceStore.swift:86 | the L shape has four distinct rotations |
| Store.JShapeRotations | Sources/tetrominos/PieceStore.swift:88 | the J shape has four distinct rotations |
| Store.IShapeRotations | Sources/tetrominos/PieceStore.swift:90 | the I shape has two rotations |
| Store.SShapeRotations | Sources/tetrominos/PieceStore.swift:92 | the S shape has two rotations |
| Store.ZShapeRotations | Sources/tetrominos/PieceStore.swift:94 | the Z shape has two rotations |
| Store.OShapeRotations | Sources/tetrominos/PieceStore.swift:96 | the O shape has one rotation |
| Store.DefaultShapesValid | Sources/tetrominos/PieceStore.swift:83-102 | every default shape is a valid tetromino of four points |
| Store.DefaultRotationCount | Sources/tetrominos/PieceStore.swift:83-102 | ids 0-2 have four rotations, ids 3-5 two, id 6 one |
| Store.DefaultLookup | Sources/tetrominos/PieceStore.swift:29-32 | after the defaults are registered, a name finds id k exactly when its lower-case form is the k-th default name |
| Store.DefaultNamesDistinct | Sources/tetrominos/PieceStore.swift:83-102 | the seven default names are pairwise distinct |
| Store.DefaultIndexCoherent | Sources/tetrominos/PieceStore.swift:104-108 | every indexed name points at the piece whose folded name it is |
| Store.PipTotalUpdate | Sources/tetrominos/PieceStore.swift:20-27 | raising one count by c raises the pip total by c times that piece's pips |
| Store.PipTotalZero | Sources/tetrominos/PieceStore.swift:48-53 | with every count zero the pip total is zero |
| Store.PieceStore.constructor | Sources/tetrominos/PieceStore.swift:16-18 | the store starts with T, L, J, I, S, Z, O as ids 0 to 6 and every count zero |
| Store.PieceStore.RegisterPiece | Sources/tetrominos/PieceStore.swift:104-108 | the piece is appended and its folded name maps to its new id |
| Store.PieceStore.RegisterDefaultPieces | Sources/tetrominos/PieceStore.swift:83-102 | the seven defaults are registered in order, and both count arrays are sized to them and zero |
| Store.PieceStore.TotalPips | Sources/tetrominos/PieceStore.swift:20-27 | the sum of pip count times registered count |
| Store.PieceStore.GetID | Sources/tetrominos/PieceStore.swift:29-32 | a found id names a piece with the same folded name; none means the folded name is not indexed |
| Store.PieceStore.GetPiece | Sources/tetrominos/PieceStore.swift:34-36 | the piece at the id, valid and with one to four rotations |
| Store.PieceStore.RegisterInitialCount | Sources/tetrominos/PieceStore.swift:38-46 | succeeds exactly for a known id and a positive count, then adds the count to both arrays; otherwise nothing changes |
| Store.PieceStore.ClearRegistrations | Sources/tetrominos/PieceStore.swift:48-53 | every count becomes zero; the catalogue stays |
| Store.PieceStore.ClearCheckouts | Sources/tetrominos/PieceStore.swift:55-57 | the available counts become the registered ones |
| Store.PieceStore.CheckOutPiece | Sources/tetrominos/PieceStore.swift:59-71 | succeeds exactly for a known id in stock, then lowers its count by one; otherwise nothing changes |
| Store.PieceStore.CheckInPiece | Sources/tetrominos/PieceStore.swift:73-81 | raises the id's available count by one |
| Store.PieceStore.CheckOutThenIn | Sources/tetrominos/PieceStore.swift:59-81 | checking a piece out and, when that succeeds, back in leaves the inventory unchanged; it succeeds exactly for a known id in stock |
| Boards.Index | Sources/tetrominos/PieceBoard.swift:57-69 | an in-bounds point has a row-major index inside the grid |
| Boards.PointAtIndex | Sources/tetrominos/PieceBoard.swift:18-26 | every cell index decodes to an in-bounds point (x = i mod w, y = i div w) that indexes it again |
| Boards.IndexInjective | Sources/tetrominos/PieceBoard.swift:57-69 | distinct in-bounds points have distinct cells |
| Boards.FitsCells | Sources/tetrominos/PieceBoard.swift:34-47 | a fitting rotation covers only in-range cells that were free |
| Boards.AddRemoveRoundTrip | Sources/tetrominos/PieceBoard.swift:34-55 | adding a fitting piece and removing it again gives back the grid |
| Boards.FirstFree | Sources/tetrominos/PieceBoard.swift:18-26 | the first unfilled index: every earlier cell is filled, and it is the length when none is free |
| Boards.PieceBoard.constructor | Sources/tetrominos/PieceBoard.swift:12-16 | a board of the given size with every cell unfilled |
| Boards.PieceBoard.NextAvailable | Sources/tetrominos/PieceBoard.swift:18-26 | none exactly when the board is full; otherwise the first unfilled cell in row-major order, as a point |
| Boards.PieceBoard.Clear | Sources/tetrominos/PieceBoard.swift:28-32 | every cell becomes unfilled |
| Boards.PieceBoard.CanFill | Sources/tetrominos/PieceBoard.swift:57-63 | true exactly for an in-bounds unfilled cell |
| Boards.PieceBoard.Fill | Sources/tetrominos/PieceBoard.swift:65-69 | sets exactly the point's cell |
| Boards.PieceBoard.Unfill | Sources/tetrominos/PieceBoard.swift:71-75 | clears exactly the point's cell |
| Boards.PieceBoard.AddPiece | Sources/tetrominos/PieceBoard.swift:34-47 | succeeds exactly when every shifted pip is in bounds and free, then fills exactly those cells; otherwise the board is unchanged |
| Boards.PieceBoard.RemovePiece | Sources/tetrominos/PieceBoard.swift:49-55 | clears exactly the cells of the shifted pips and keeps every other |
| Covers.Push | Sources/tetrominos/Solver.swift:82-96 | pushing a placement marks its cells, stays stacked exactly when it is placeable, uses one more of its piece, and adds its cells to the covered set |
| Covers.Pop | Sources/tetrominos/Solver.swift:105-122 | popping undoes a push |
| Covers.EmptyStack | Sources/tetrominos/Solver.swift:28-45 | the empty stack leaves a blank grid, uses nothing and covers nothing |
| Covers.PlaceableCells | Sources/tetrominos/PieceBoard.swift:34-47 | a placeable placement has every pip on the board and every cell free |
| Covers.GridIsCovered | Sources/tetrominos/Solver.swift:60-103 | the board filled by a stack holds exactly the cells its placements cover |
| Covers.StackedDisjoint | Sources/tetrominos/Solver.swift:60-103 | the placements of a stack cover pairwise disjoint cells |
| Covers.StackedOnBoard | Sources/tetrominos/Solver.swift:60-103 | every stacked placement is valid, at a non-negative origin, and lies on the board |
| Covers.CoveredWitness | Sources/tetrominos/Solver.swift:60-103 | a covered cell is covered by some placement of the stack |
| Covers.PointsDisjoint | Sources/tetrominos/Solver.swift:60-103 | disjoint cells mean disjoint board points |
| Covers.FullStackIsExactCover | Sources/tetrominos/Solver.swift:61-72 | a stack that fills the board is an exact cover: placements on the board, pairwise disjoint, covering every cell |
| Covers.CoveredSize | Sources/tetrominos/Solver.swift:60-103 | a stack covers at most the board's cells |
| Covers.StackBound | Sources/tetrominos/Solver.swift:60-103 | a stack is no deeper than the number of cells it covers, which is at most the board's cells |
| Covers.NewCell | Sources/tetrominos/Solver.swift:82-96 | a placeable piece with pips covers a cell the stack did not |
| Ranks.RankBound | Sources/tetrominos/Solver.swift:47-58 | a digit vector reads as a number below base to the power of its length |
| Ranks.LexRank | Sources/tetrominos/Solver.swift:47-58 | lexicographic order of digit vectors is numeric order of their ranks |
| Search.Step | Sources/tetrominos/Solver.swift:60-103 | one placement attempt from (sid, sr): a full board appends the stack and stops at the cap, else pushes the first admissible (id, rotation) at or after (sid, sr) in search order, else backs up with nothing changed |
| Search.BacktrackStep | Sources/tetrominos/Solver.swift:105-122 | one backtrack: an empty stack is Done with nothing changed; otherwise a Step from the stack without its top, resuming at (id, rotation + 1) of the top |
| Search.ChosenCoversTarget | Sources/tetrominos/Solver.swift:82-96 | the chosen placement is placeable and covers the first free cell: its leftmost top-row pip lands there |
| Search.StackedBounded | Sources/tetrominos/Solver.swift:60-103 | every stack the search builds is shallow enough and its choices are digits of the measure |
| Search.FrontierDigits | Sources/tetrominos/Solver.swift:47-58 | the measure of a bounded search state is a non-negative rank of digits |
| Search.StepShape | Sources/tetrominos/Solver.swift:60-103 | a placement attempt pushes one choice at or after the resume point, or keeps the stack, and records at most the stack |
| Search.PushDecreases | Sources/tetrominos/Solver.swift:82-99 | pushing a placement lowers the measure |
| Search.PauseDecreases | Sources/tetrominos/Solver.swift:61-72 | leaving Placing with the stack kept lowers the measure |
| Search.PlacingStepDecreases | Sources/tetrominos/Solver.swift:60-103 | every placement attempt from Placing lowers the measure |
| Search.ResumeDecreases | Sources/tetrominos/Solver.swift:105-122 | resuming with a later choice in place of the top one lowers the measure |
| Search.PopDecreases | Sources/tetrominos/Solver.swift:105-122 | dropping the top choice for good lowers the measure |
| Search.BacktrackStepDecreases | Sources/tetrominos/Solver.swift:105-122 | a backtrack from a non-empty stack lowers the measure |
| Search.TargetNoneFull | Sources/tetrominos/PieceBoard.swift:18-26 | no free cell means every cell is filled |
| Search.StepRecords | Sources/tetrominos/Solver.swift:61-72 | a step records a solution exactly when the board is full, what it records is an exact cover, and it stops only at the cap |
| Search.LedgerCheckOut | Sources/tetrominos/Solver.swift:75-77 | checking a piece out holds one copy and keeps the inventory consistent with the stack |
| Search.LedgerCheckIn | Sources/tetrominos/Solver.swift:98 | checking the held piece back in restores the inventory of the stack |
| Search.LedgerPush | Sources/tetrominos/Solver.swift:82-96 | pushing a placement of the held piece accounts for the held copy |
| Search.LedgerPop | Sources/tetrominos/Solver.swift:105-122 | popping leaves the popped piece held |
| Search.RuledNext | Sources/tetrominos/Solver.swift:74-99 | ruling out every rotation of piece k extends the ruled-out range past k |
| Search.OutOfStock | Sources/tetrominos/Solver.swift:75-77 | a piece with no copy left admits no rotation |
| Search.PieceRuledOut | Sources/tetrominos/Solver.swift:82-96 | no admissible rotation from the first one tried rules the whole piece out from the resume point |
| Search.FirstAdmissible | Sources/tetrominos/Solver.swift:74-99 | a fitting rotation with every earlier candidate ruled out is the search's choice |
| Search.PopFacts | Sources/tetrominos/Solver.swift:105-122 | popping a stacked placement leaves a stacked rest, and the placement was placeable on it |
| Search.PushFacts | Sources/tetrominos/Solver.swift:82-96 | pushing the chosen placement keeps the stack stacked and fills its cells |
| Search.PlaceStep | Sources/tetrominos/Solver.swift:82-96 | pushing the first admissible candidate is a placing step |
| Search.NoFitStep | Sources/tetrominos/Solver.swift:102 | with every candidate ruled out the step moves to Backtracking with nothing changed |
| Search.FullStep | Sources/tetrominos/Solver.swift:61-72 | a full board records a solution, and the state is Done once the cap is reached, otherwise Backtracking |
| Search.PopStep | Sources/tetrominos/Solver.swift:105-122 | popping the top placement leaves a stacked, accounted stack with the piece held |
| Search.Record | Sources/tetrominos/Solver.swift:61-72 | recording nothing, or an exact cover that stops exactly at the cap, keeps the run's progress |
| Search.PlacingRound | Sources/tetrominos/Solver.swift:47-58 | a Placing round keeps the run's progress and lowers the measure |
| Search.BacktrackRound | Sources/tetrominos/Solver.swift:47-58 | a Backtracking round keeps the run's progress and lowers the measure |
| Search.ResumeDecrease | Sources/tetrominos/Solver.swift:105-122 | the attempt resumed after the top placement lowers the measure |
| Search.ResumeProgress | Sources/tetrominos/Solver.swift:105-122 | the attempt resumed after the top placement keeps the run's progress |
| Search.Solver.constructor | Sources/tetrominos/Solver.swift:23-26 | an empty board of the given size on the shared store, no placements, state Placing, no solutions, cap Int.max |
| Search.Solver.Run | Sources/tetrominos/Solver.swift:28-45 | the board is cleared, stock is restored and the stack emptied; unless the registered pips equal the board's cells and are at least one, the result is empty; otherwise the search runs to Done and returns the solutions, earlier solutions kept as a prefix, new ones exact covers within the cap |
| Search.Solver.RunInternal | Sources/tetrominos/Solver.swift:47-58 | the state machine ends in Done, with the board consistent with the stack and the run's progress on the solution list |
| Search.Solver.PlaceNextPiece | Sources/tetrominos/Solver.swift:60-103 | one placement attempt is a Step: record on a full board, push the first admissible candidate from the resume point, or back up when there is none |
| Search.Solver.Backtrack | Sources/tetrominos/Solver.swift:105-122 | from an empty stack the state is Done; otherwise the top placement is undone and a placement attempt resumes just after its rotation |
| Input.ParseInt | Sources/tetrominos/main.swift:35-40 | Int(_:) on a string: an optional sign and at least one ASCII digit, within the 64-bit range; otherwise none |
| Input.Split | Sources/tetrominos/main.swift:30 | split(separator:): the maximal non-empty runs free of the separator, in order |
| Input.ParseDecimal | Sources/tetrominos/main.swift:35-40 | a number up to Int.max, written in decimal, reads back as itself |
| Input.ParseIntRejects | Sources/tetrominos/main.swift:35-40 | a bare sign, an empty string or a stray blank is not a number; a signed one is |
| Input.SplitJoin | Sources/tetrominos/main.swift:30 | splitting undoes joining non-empty parts free of the separator |
| Input.ReadDimensions | Sources/tetrominos/main.swift:30-45 | a read size has both sides positive and within Int |
| Input.ReadDimensionsRoundTrip | Sources/tetrominos/main.swift:30-45 | every size with positive sides is read back from its "WxH" form |
| Input.ReadDimensionsLenient | Sources/tetrominos/main.swift:30 | empty runs between separators are dropped, so "x3xx4x" reads as 3 x 4 |
| Input.ReadDimensionsThreeParts | Sources/tetrominos/main.swift:31-33 | a line with three parts is refused |
| Input.ReadDimensionsZeroSide | Sources/tetrominos/main.swift:41-43 | a side of zero is refused |
| Input.Close | Sources/tetrominos/main.swift:74-90 | the nested addPiece: nothing to close at Start, an error for a count without a name or a name with count 0, otherwise the entry appended and the variables reset |
| Input.Feed | Sources/tetrominos/main.swift:92-118 | one loop iteration: whitespace closes, non-ASCII is nil, a digit closes a pending name and accumulates, any other character extends the name |
| Input.ParsePieces | Sources/tetrominos/main.swift:70-124 | the character loop over the line and then the final addPiece |
| Input.ReadPieces | Sources/tetrominos/main.swift:70-124 | the character loop with its nested addPiece computes the parse of the line |
| Input.ScanStuck | Sources/tetrominos/main.swift:94-100 | once the loop has returned nil the rest of the line does not matter |
| Input.ScanCoherent | Sources/tetrominos/main.swift:92-118 | the parser's variables stay coherent through the loop |
| Input.ParsedWellFormed | Sources/tetrominos/main.swift:70-124 | every parsed entry has a non-empty name of ASCII non-digit non-blank characters and a positive count |
| Input.BlankParsesEmpty | Sources/tetrominos/main.swift:75-77 | an empty or all-blank line parses to no entries |
| Input.NonAsciiRejected | Sources/tetrominos/main.swift:99-101 | a character that is neither blank nor ASCII makes the parse nil |
| Input.CountWithoutName | Sources/tetrominos/main.swift:78-80 | a count followed by a blank or by the end of the line makes the parse nil |
| Input.ZeroCountStuck | Sources/tetrominos/main.swift:81-83 | a name being read with count 0 stays so for the rest of the line |
| Input.ZeroCountRejected | Sources/tetrominos/main.swift:81-83 | a name reached with count 0 makes the parse nil |
| Input.NameFirstRejected | Sources/tetrominos/main.swift:102-117 | a name at the start of a line or after a blank makes the parse nil, since it has no count |
| Input.ParseFormat | Sources/tetrominos/main.swift:70-124 | the parser reads back exactly the entries of any well-formed list written in canonical form |
| Input.ParseExample | Sources/tetrominos/main.swift:148 | "3t1o2i" reads as three t, one o and two i |
| Input.ParseRejectExamples | Sources/tetrominos/main.swift:70-124 | "0t", "t" and "3t 2" are refused |
| Input.TallyTotal | Sources/tetrominos/main.swift:130-146 | registering the entries raises the pip total by exactly the pips they ask for |
| Input.AddPieces | Sources/tetrominos/main.swift:130-146 | succeeds exactly when every entry names a known piece with a positive count, and then adds every count; otherwise every count is cleared |
| Printer.Glyphs | Sources/tetrominos/PiecePrinter.swift:85-165 | six characters for every point |
| Printer.GlyphsOffPiece | Sources/tetrominos/PiecePrinter.swift:86-89 | a point that is not a pip is six blanks |
| Printer.MiddleGlyphs | Sources/tetrominos/PiecePrinter.swift:117-122 | the top (bottom) middle of a pip is blank exactly when there is a pip above (below), and a horizontal line otherwise |
| Printer.IsolatedPip | Sources/tetrominos/PiecePrinter.swift:106-162 | a pip with no neighbour is a closed box |
| Printer.InteriorPip | Sources/tetrominos/PiecePrinter.swift:106-162 | a pip with all eight neighbours is six blanks |
| Printer.VerticalSeam | Sources/tetrominos/PiecePrinter.swift:117-151 | two pips stacked vertically draw no line between them |
| Printer.NotchCorners | Sources/tetrominos/PiecePrinter.swift:106-162 | where both orthogonal neighbours of a corner are pips and the diagonal one is not, the corner shows the notch glyph (lines 108, 126, 137, 155) |
| Printer.EdgeCorners | Sources/tetrominos/PiecePrinter.swift:106-162 | a corner with exactly one orthogonal neighbour pip draws a vertical line towards a pip above or below, a horizontal one towards a pip left or right |
| Printer.HorizontalSeam | Sources/tetrominos/PiecePrinter.swift:124-162 | two pips side by side draw no vertical line between them, and a top or bottom edge that neither closes runs on across the seam |
| Printer.SlotCell | Sources/tetrominos/PiecePrinter.swift:56-67 | the six slots of an in-board cell lie in the buffer and belong to that cell |
| Printer.CellSlot | Sources/tetrominos/PiecePrinter.swift:56-67 | every buffer index is a slot of exactly one in-board cell |
| Printer.SlotsDisjoint | Sources/tetrominos/PiecePrinter.swift:56-67 | slots of different cells are different indices |
| Printer.WritesBlit | Sources/tetrominos/PiecePrinter.swift:56-67 | the six writes for an in-board cell replace exactly that cell's block |
| Printer.Render | Sources/tetrominos/PiecePrinter.swift:69-80 | the first rows of a buffer W wide, each row of W characters followed by a newline |
| Printer.RenderLength | Sources/tetrominos/PiecePrinter.swift:69-80 | the text has W + 1 characters per row |
| Printer.RenderRows | Sources/tetrominos/PiecePrinter.swift:69-80 | rendering fewer rows gives a prefix of the text |
| Printer.RenderRow | Sources/tetrominos/PiecePrinter.swift:69-80 | row y of the text is row y of the buffer followed by a newline |
| Printer.Picture | Sources/tetrominos/PiecePrinter.swift:10-23 | the rotation picture has 3w x 2h characters |
| Printer.PaintCellStep | Sources/tetrominos/PiecePrinter.swift:13-19 | drawing the n-th cell in row-major order extends the picture of the first n cells by one |
| Printer.DrawCellStep | Sources/tetrominos/PiecePrinter.swift:13-19 | the six writes of the n-th cell turn the picture of n cells into that of n + 1 |
| Printer.PaintedNone | Sources/tetrominos/PiecePrinter.swift:52 | before any cell is drawn the buffer is blank |
| Printer.PaintedAll | Sources/tetrominos/PiecePrinter.swift:13-19 | once every cell is drawn the buffer is the picture |
| Printer.PaintAll | Sources/tetrominos/PiecePrinter.swift:28-36 | the buffer after drawing each placement's pips in order, later over earlier; its length is kept |
| Printer.LastCover | Sources/tetrominos/PiecePrinter.swift:28-36 | the index of the last placement covering a cell, which does cover it |
| Printer.PaintAllLast | Sources/tetrominos/PiecePrinter.swift:28-36 | each character of the board picture comes from the last placement covering its cell, or is the initial character |
| Printer.PaintAllStep | Sources/tetrominos/PiecePrinter.swift:28-36 | drawing placements 0 to j is drawing 0 to j - 1 and then the pips of placement j |
| Printer.PaintPipStep | Sources/tetrominos/PiecePrinter.swift:31-35 | drawing one more pip at its board cell extends the drawn set by it |
| Printer.PiecePrinter.constructor | Sources/tetrominos/PiecePrinter.swift:46-54 | a buffer of 3w x 2h blanks |
| Printer.PiecePrinter.AddCharacters | Sources/tetrominos/PiecePrinter.swift:56-67 | the six glyphs are written into the cell's block, in the source's order |
| Printer.PiecePrinter.GenerateString | Sources/tetrominos/PiecePrinter.swift:69-80 | the text is the buffer row by row, each row followed by a newline |
| Printer.PiecePrinter.RotationString | Sources/tetrominos/PiecePrinter.swift:10-23 | the text of a rotation is its picture: every cell shows its six glyphs |
| Printer.PiecePrinter.BoardString | Sources/tetrominos/PiecePrinter.swift:25-40 | the text of a board is the blank buffer with each placement's pips drawn over the earlier ones |

## Left out

- Reading from standard input, `exit(0)` at end of input, and all printing are not modelled. `ReadDimensions` and `ReadPieces` take the line as a parameter.
- The re-prompt loops `getDimensions` (main.swift:48-56) and the `while true` of `addPieces` are left out. They repeat a modelled body on a fresh line until it succeeds. `Input.AddPieces` models one pass of that body (main.swift:130-146).
- The top-level script (main.swift:4-22) is left out. It only wires the modelled operations together and prints their results.
- Input.ParsePieces: the count `currentCount * 10 + numberVal` is unbounded here, while Swift traps on overflow. So a count beyond Int.max is accepted by the model.
- Store.Lower folds ASCII letters only, where Swift's `lowercased()` is full Unicode. This is exact for names reached through `ReadPieces`, which refuses non-ASCII characters.
- Input.IsWhitespace covers the Unicode White_Space characters as single scalars. Swift `Character`s are grapheme clusters; here a `char` stands for one.
- The order in which Swift iterates a `Set` of pips is not modelled. The loops over pips take an arbitrary remaining pip, so every order is covered.
- The `Int.max` sentinels of the source (the minimum search in `_rotatedPoints`, the no-top-row case in `PieceRotation.init`) are `Option` values here.
- The solver's `while true` with a return on Done is `while state != Done` in `Search.Solver.RunInternal`. They are the same loop.
- Search.Solver.Run: the registered pip total `totalPips` is compared with the cell count as unbounded integers. Overflow is not modelled.
- Search.Solver.PlaceNextPiece requires a resume point inside the catalogue. Its rotation also must not pass the end of that piece's rotation list when the piece is in stock. The source's indexing traps otherwise, and the source's only callers meet both conditions.
- `Search.Solver.TryPieces`, `TryPiece`, `TryRotations`, `UndoLast` and `RemoveLast` are the loops and branches of `_placeNextPiece` and `_backtrack`, split into methods. `Printer.PiecePrinter.DrawRow` and `DrawPips` are the inner loops of the two `GenerateString` functions.
- The two `GenerateString(...)` overloads are `Printer.PiecePrinter.RotationString` and `Printer.PiecePrinter.BoardString`.
- Printer.PiecePrinter.BoardString requires every pip of every placement to lie on the board. The source only traps when an index leaves the buffer, and a pip past the right edge would wrap into the next row there. The solver only produces placements on the board.
- Completeness of the search is not proved: the model does not prove that every exact cover is found. What is proved is that the search ends, that the solutions it records are exact covers, and that it stays within the cap. No run-level contract states the order of the solutions. It follows from the round contracts: every round of `Search.Solver.RunInternal` is a `Step` or a `BacktrackStep`, and each fixes the next choice as the first admissible one in the source's search order.
- Package.swift and the package's `TetrominoCore` import are not part of this model.
