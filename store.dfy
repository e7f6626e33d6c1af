/** The piece catalogue and the per-piece inventory ledger. */
module Store {
  import opened Types
  import opened Rotations
  import opened Pieces

  // The seven default tetromino shapes, in registration order.
  const TShape: seq<Point> := [Point(1, 0), Point(0, 1), Point(1, 1), Point(2, 1)]
  const LShape: seq<Point> := [Point(0, 0), Point(0, 1), Point(0, 2), Point(1, 2)]
  const JShape: seq<Point> := [Point(1, 0), Point(1, 1), Point(1, 2), Point(0, 2)]
  const IShape: seq<Point> := [Point(0, 0), Point(0, 1), Point(0, 2), Point(0, 3)]
  const SShape: seq<Point> := [Point(1, 0), Point(2, 0), Point(0, 1), Point(1, 1)]
  const ZShape: seq<Point> := [Point(0, 0), Point(1, 0), Point(1, 1), Point(2, 1)]
  const OShape: seq<Point> := [Point(0, 0), Point(1, 0), Point(0, 1), Point(1, 1)]

  /** ASCII case folding of one character. */
  function LowerChar(c: char): char
  {
    if 'A' <= c <= 'Z' then (c as int + 32) as char else c
  }

  /** Name normalisation used for every catalogue lookup (ASCII only). */
  function Lower(s: string): (r: string)
    ensures |r| == |s|
  {
    if s == [] then [] else [LowerChar(s[0])] + Lower(s[1..])
  }

  /** Folding leaves no upper-case letter, changes nothing else, and is idempotent. */
  lemma {:induction false} LowerSpec(s: string)
    ensures forall i :: 0 <= i < |s| ==> !('A' <= Lower(s)[i] <= 'Z')
    ensures forall i :: 0 <= i < |s| && !('A' <= s[i] <= 'Z') ==> Lower(s)[i] == s[i]
    ensures Lower(Lower(s)) == Lower(s)
  {
    if s != [] {
      var t := Lower(s);
      LowerSpec(s[1..]);
      assert t[0] == LowerChar(s[0]) && t[1..] == Lower(s[1..]);
      assert forall i :: 1 <= i < |s| ==> t[i] == Lower(s[1..])[i - 1];
      assert Lower(t) == [LowerChar(t[0])] + Lower(t[1..]);
    }
  }

  /** The quarter turns of the default T shape, written out. */
  lemma TShapeTurns()
    ensures Turned(TShape) == [Point(0, 1), Point(1, 2), Point(1, 1), Point(1, 0)]
    ensures Turned([Point(0, 1), Point(1, 2), Point(1, 1), Point(1, 0)]) == [Point(1, 1), Point(2, 0), Point(1, 0), Point(0, 0)]
    ensures Turned([Point(1, 1), Point(2, 0), Point(1, 0), Point(0, 0)]) == [Point(1, 1), Point(0, 0), Point(0, 1), Point(0, 2)]
  {
    Turned4(Point(1, 0), Point(0, 1), Point(1, 1), Point(2, 1));
    Turned4(Point(0, 1), Point(1, 2), Point(1, 1), Point(1, 0));
    Turned4(Point(1, 1), Point(2, 0), Point(1, 0), Point(0, 0));
  }

  /** Which turns of the T shape bring a new pip set and which repeat one. */
  lemma TShapeWitnesses()
    ensures Point(1, 2) !in PipSet(TShape)
    ensures Point(2, 0) !in PipSet(TShape)
    ensures Point(2, 0) !in PipSet([Point(0, 1), Point(1, 2), Point(1, 1), Point(1, 0)])
    ensures Point(0, 0) !in PipSet(TShape)
    ensures Point(0, 0) !in PipSet([Point(0, 1), Point(1, 2), Point(1, 1), Point(1, 0)])
    ensures Point(0, 1) !in PipSet([Point(1, 1), Point(2, 0), Point(1, 0), Point(0, 0)])
  {
  }

  /** The default T piece has 4 distinct rotations. */
  lemma TShapeRotations()
    ensures |RotationList(TShape)| == 4
  {
    TShapeTurns();
    TShapeWitnesses();
    var t1 := [Point(0, 1), Point(1, 2), Point(1, 1), Point(1, 0)];
    var t2 := [Point(1, 1), Point(2, 0), Point(1, 0), Point(0, 0)];
    var t3 := [Point(1, 1), Point(0, 0), Point(0, 1), Point(0, 2)];
    var r0, r1, r2, r3 := FromPoints(TShape), FromPoints(t1), FromPoints(t2), FromPoints(t3);
    var k4 := [r0, r1, r2, r3];
    assert |Extend(k4, Turned(t3), 0)| == 4;
    var k3 := [r0, r1, r2];
    assert k3 + [r3] == k4;
    ExtendGrows(k3, t3, 1, [Point(0, 0), Point(0, 0), Point(0, 1)], 4);
    var k2 := [r0, r1];
    assert k2 + [r2] == k3;
    ExtendGrows(k2, t2, 2, [Point(2, 0), Point(2, 0)], 4);
    var k1 := [r0];
    assert k1 + [r1] == k2;
    ExtendGrows(k1, t1, 3, [Point(1, 2)], 4);
  }

  /** The quarter turns of the default L shape, written out. */
  lemma LShapeTurns()
    ensures Turned(LShape) == [Point(0, 1), Point(1, 1), Point(2, 1), Point(2, 0)]
    ensures Turned([Point(0, 1), Point(1, 1), Point(2, 1), Point(2, 0)]) == [Point(1, 2), Point(1, 1), Point(1, 0), Point(0, 0)]
    ensures Turned([Point(1, 2), Point(1, 1), Point(1, 0), Point(0, 0)]) == [Point(2, 0), Point(1, 0), Point(0, 0), Point(0, 1)]
  {
    Turned4(Point(0, 0), Point(0, 1), Point(0, 2), Point(1, 2));
    Turned4(Point(0, 1), Point(1, 1), Point(2, 1), Point(2, 0));
    Turned4(Point(1, 2), Point(1, 1), Point(1, 0), Point(0, 0));
  }

  /** Which turns of the L shape bring a new pip set and which repeat one. */
  lemma LShapeWitnesses()
    ensures Point(1, 1) !in PipSet(LShape)
    ensures Point(1, 1) !in PipSet(LShape)
    ensures Point(1, 2) !in PipSet([Point(0, 1), Point(1, 1), Point(2, 1), Point(2, 0)])
    ensures Point(2, 0) !in PipSet(LShape)
    ensures Point(1, 0) !in PipSet([Point(0, 1), Point(1, 1), Point(2, 1), Point(2, 0)])
    ensures Point(2, 0) !in PipSet([Point(1, 2), Point(1, 1), Point(1, 0), Point(0, 0)])
  {
  }

  /** The default L piece has 4 distinct rotations. */
  lemma LShapeRotations()
    ensures |RotationList(LShape)| == 4
  {
    LShapeTurns();
    LShapeWitnesses();
    var t1 := [Point(0, 1), Point(1, 1), Point(2, 1), Point(2, 0)];
    var t2 := [Point(1, 2), Point(1, 1), Point(1, 0), Point(0, 0)];
    var t3 := [Point(2, 0), Point(1, 0), Point(0, 0), Point(0, 1)];
    var r0, r1, r2, r3 := FromPoints(LShape), FromPoints(t1), FromPoints(t2), FromPoints(t3);
    var k4 := [r0, r1, r2, r3];
    assert |Extend(k4, Turned(t3), 0)| == 4;
    var k3 := [r0, r1, r2];
    assert k3 + [r3] == k4;
    ExtendGrows(k3, t3, 1, [Point(2, 0), Point(1, 0), Point(2, 0)], 4);
    var k2 := [r0, r1];
    assert k2 + [r2] == k3;
    ExtendGrows(k2, t2, 2, [Point(1, 1), Point(1, 2)], 4);
    var k1 := [r0];
    assert k1 + [r1] == k2;
    ExtendGrows(k1, t1, 3, [Point(1, 1)], 4);
  }

  /** The quarter turns of the default J shape, written out. */
  lemma JShapeTurns()
    ensures Turned(JShape) == [Point(0, 0), Point(1, 0), Point(2, 0), Point(2, 1)]
    ensures Turned([Point(0, 0), Point(1, 0), Point(2, 0), Point(2, 1)]) == [Point(0, 2), Point(0, 1), Point(0, 0), Point(1, 0)]
    ensures Turned([Point(0, 2), Point(0, 1), Point(0, 0), Point(1, 0)]) == [Point(2, 1), Point(1, 1), Point(0, 1), Point(0, 0)]
  {
    Turned4(Point(1, 0), Point(1, 1), Point(1, 2), Point(0, 2));
    Turned4(Point(0, 0), Point(1, 0), Point(2, 0), Point(2, 1));
    Turned4(Point(0, 2), Point(0, 1), Point(0, 0), Point(1, 0));
  }

  /** Which turns of the J shape bring a new pip set and which repeat one. */
  lemma JShapeWitnesses()
    ensures Point(0, 0) !in PipSet(JShape)
    ensures Point(0, 1) !in PipSet(JShape)
    ensures Point(0, 2) !in PipSet([Point(0, 0), Point(1, 0), Point(2, 0), Point(2, 1)])
    ensures Point(2, 1) !in PipSet(JShape)
    ensures Point(1, 1) !in PipSet([Point(0, 0), Point(1, 0), Point(2, 0), Point(2, 1)])
    ensures Point(2, 1) !in PipSet([Point(0, 2), Point(0, 1), Point(0, 0), Point(1, 0)])
  {
  }

  /** The default J piece has 4 distinct rotations. */
  lemma JShapeRotations()
    ensures |RotationList(JShape)| == 4
  {
    JShapeTurns();
    JShapeWitnesses();
    var t1 := [Point(0, 0), Point(1, 0), Point(2, 0), Point(2, 1)];
    var t2 := [Point(0, 2), Point(0, 1), Point(0, 0), Point(1, 0)];
    var t3 := [Point(2, 1), Point(1, 1), Point(0, 1), Point(0, 0)];
    var r0, r1, r2, r3 := FromPoints(JShape), FromPoints(t1), FromPoints(t2), FromPoints(t3);
    var k4 := [r0, r1, r2, r3];
    assert |Extend(k4, Turned(t3), 0)| == 4;
    var k3 := [r0, r1, r2];
    assert k3 + [r3] == k4;
    ExtendGrows(k3, t3, 1, [Point(2, 1), Point(1, 1), Point(2, 1)], 4);
    var k2 := [r0, r1];
    assert k2 + [r2] == k3;
    ExtendGrows(k2, t2, 2, [Point(0, 1), Point(0, 2)], 4);
    var k1 := [r0];
    assert k1 + [r1] == k2;
    ExtendGrows(k1, t1, 3, [Point(0, 0)], 4);
  }

  /** The quarter turns of the default I shape, written out. */
  lemma IShapeTurns()
    ensures Turned(IShape) == [Point(0, 0), Point(1, 0), Point(2, 0), Point(3, 0)]
    ensures Turned([Point(0, 0), Point(1, 0), Point(2, 0), Point(3, 0)]) == [Point(0, 3), Point(0, 2), Point(0, 1), Point(0, 0)]
  {
    Turned4(Point(0, 0), Point(0, 1), Point(0, 2), Point(0, 3));
    Turned4(Point(0, 0), Point(1, 0), Point(2, 0), Point(3, 0));
  }

  /** Which turns of the I shape bring a new pip set and which repeat one. */
  lemma IShapeWitnesses()
    ensures Point(1, 0) !in PipSet(IShape)
    ensures PipSet(IShape) == PipSet([Point(0, 3), Point(0, 2), Point(0, 1), Point(0, 0)])
  {
  }

  /** The default I piece has 2 distinct rotations. */
  lemma IShapeRotations()
    ensures |RotationList(IShape)| == 2
  {
    IShapeTurns();
    IShapeWitnesses();
    var t1 := [Point(0, 0), Point(1, 0), Point(2, 0), Point(3, 0)];
    var t2 := [Point(0, 3), Point(0, 2), Point(0, 1), Point(0, 0)];
    var r0, r1, r2 := FromPoints(IShape), FromPoints(t1), FromPoints(t2);
    var k2 := [r0, r1];
    ExtendStops(k2, t2, 2, 0);
    var k1 := [r0];
    assert k1 + [r1] == k2;
    ExtendGrows(k1, t1, 3, [Point(1, 0)], 2);
  }

  /** The quarter turns of the default S shape, written out. */
  lemma SShapeTurns()
    ensures Turned(SShape) == [Point(0, 1), Point(0, 0), Point(1, 2), Point(1, 1)]
    ensures Turned([Point(0, 1), Point(0, 0), Point(1, 2), Point(1, 1)]) == [Point(1, 1), Point(0, 1), Point(2, 0), Point(1, 0)]
  {
    Turned4(Point(1, 0), Point(2, 0), Point(0, 1), Point(1, 1));
    Turned4(Point(0, 1), Point(0, 0), Point(1, 2), Point(1, 1));
  }

  /** Which turns of the S shape bring a new pip set and which repeat one. */
  lemma SShapeWitnesses()
    ensures Point(0, 0) !in PipSet(SShape)
    ensures PipSet(SShape) == PipSet([Point(1, 1), Point(0, 1), Point(2, 0), Point(1, 0)])
  {
  }

  /** The default S piece has 2 distinct rotations. */
  lemma SShapeRotations()
    ensures |RotationList(SShape)| == 2
  {
    SShapeTurns();
    SShapeWitnesses();
    var t1 := [Point(0, 1), Point(0, 0), Point(1, 2), Point(1, 1)];
    var t2 := [Point(1, 1), Point(0, 1), Point(2, 0), Point(1, 0)];
    var r0, r1, r2 := FromPoints(SShape), FromPoints(t1), FromPoints(t2);
    var k2 := [r0, r1];
    ExtendStops(k2, t2, 2, 0);
    var k1 := [r0];
    assert k1 + [r1] == k2;
    ExtendGrows(k1, t1, 3, [Point(0, 0)], 2);
  }

  /** The quarter turns of the default Z shape, written out. */
  lemma ZShapeTurns()
    ensures Turned(ZShape) == [Point(0, 2), Point(0, 1), Point(1, 1), Point(1, 0)]
    ensures Turned([Point(0, 2), Point(0, 1), Point(1, 1), Point(1, 0)]) == [Point(2, 1), Point(1, 1), Point(1, 0), Point(0, 0)]
  {
    Turned4(Point(0, 0), Point(1, 0), Point(1, 1), Point(2, 1));
    Turned4(Point(0, 2), Point(0, 1), Point(1, 1), Point(1, 0));
  }

  /** Which turns of the Z shape bring a new pip set and which repeat one. */
  lemma ZShapeWitnesses()
    ensures Point(0, 2) !in PipSet(ZShape)
    ensures PipSet(ZShape) == PipSet([Point(2, 1), Point(1, 1), Point(1, 0), Point(0, 0)])
  {
  }

  /** The default Z piece has 2 distinct rotations. */
  lemma ZShapeRotations()
    ensures |RotationList(ZShape)| == 2
  {
    ZShapeTurns();
    ZShapeWitnesses();
    var t1 := [Point(0, 2), Point(0, 1), Point(1, 1), Point(1, 0)];
    var t2 := [Point(2, 1), Point(1, 1), Point(1, 0), Point(0, 0)];
    var r0, r1, r2 := FromPoints(ZShape), FromPoints(t1), FromPoints(t2);
    var k2 := [r0, r1];
    ExtendStops(k2, t2, 2, 0);
    var k1 := [r0];
    assert k1 + [r1] == k2;
    ExtendGrows(k1, t1, 3, [Point(0, 2)], 2);
  }

  /** The quarter turns of the default O shape, written out. */
  lemma OShapeTurns()
    ensures Turned(OShape) == [Point(0, 1), Point(0, 0), Point(1, 1), Point(1, 0)]
  {
    Turned4(Point(0, 0), Point(1, 0), Point(0, 1), Point(1, 1));
  }

  /** Which turns of the O shape bring a new pip set and which repeat one. */
  lemma OShapeWitnesses()
    ensures PipSet(OShape) == PipSet([Point(0, 1), Point(0, 0), Point(1, 1), Point(1, 0)])
  {
  }

  /** The default O piece has 1 distinct rotation. */
  lemma OShapeRotations()
    ensures |RotationList(OShape)| == 1
  {
    OShapeTurns();
    OShapeWitnesses();
    var t1 := [Point(0, 1), Point(0, 0), Point(1, 1), Point(1, 0)];
    var r0, r1 := FromPoints(OShape), FromPoints(t1);
    var k1 := [r0];
    ExtendStops(k1, t1, 3, 0);
  }

  /** The names and shapes of the default pieces, in registration order. */
  const PieceNames: seq<string> := ["T", "L", "J", "I", "S", "Z", "O"]
  const DefaultShapes: seq<seq<Point>> := [TShape, LShape, JShape, IShape, SShape, ZShape, OShape]

  /** p is the piece the default registration builds as id: its name, four
      pips, and the rotations generated from its shape. */
  ghost predicate DefaultPiece(p: Piece, id: int)
  {
    0 <= id < 7 && p.name == PieceNames[id] && p.pipCount == 4 && p.rotations == RotationList(DefaultShapes[id])
  }

  /** The name index after the first k default registrations. */
  function DefaultIds(k: nat): map<string, int>
  {
    if k == 0 then map[] else DefaultIds(k - 1)[DefaultNames[(k - 1) % 7] := k - 1]
  }

  /** The store contents after the first k default registrations. */
  ghost predicate DefaultsRegistered(pieces: seq<Piece>, ids: map<string, int>, k: nat)
  {
    && k <= 7 && |pieces| == k
    && (forall id :: 0 <= id < k ==> DefaultPiece(pieces[id], id))
    && ids == DefaultIds(k)
  }

  lemma DefaultPiecesStep(pieces: seq<Piece>, k: nat, p: Piece)
    requires |pieces| == k && DefaultPiece(p, k)
    requires forall id :: 0 <= id < k ==> DefaultPiece(pieces[id], id)
    ensures forall id :: 0 <= id < k + 1 ==> DefaultPiece((pieces + [p])[id], id)
  {
    var ps := pieces + [p];
    forall id | 0 <= id < k + 1 ensures DefaultPiece(ps[id], id) {
      if id < k {
        assert ps[id] == pieces[id];
      }
    }
  }

  /** Folding a catalogue name gives its lower-case spelling. */
  lemma DefaultNameFolds(k: int)
    requires 0 <= k < 7
    ensures Lower(PieceNames[k]) == DefaultNames[k]
  {
    if k == 0 {
      assert Lower("T") == "t";
    } else if k == 1 {
      assert Lower("L") == "l";
    } else if k == 2 {
      assert Lower("J") == "j";
    } else if k == 3 {
      assert Lower("I") == "i";
    } else if k == 4 {
      assert Lower("S") == "s";
    } else if k == 5 {
      assert Lower("Z") == "z";
    } else {
      assert Lower("O") == "o";
    }
  }

  lemma DefaultIdsStep(ids: map<string, int>, k: nat, name: string)
    requires ids == DefaultIds(k) && k < 7 && name == PieceNames[k]
    ensures ids[Lower(name) := k] == DefaultIds(k + 1)
  {
    DefaultNameFolds(k);
    assert (k + 1 - 1) % 7 == k;
  }

  /** One line of the default registration keeps the store a prefix of the catalogue. */
  lemma RegisterDefaultStep(pieces: seq<Piece>, ids: map<string, int>, k: nat, p: Piece)
    requires DefaultsRegistered(pieces, ids, k) && k < 7 && DefaultPiece(p, k)
    ensures DefaultsRegistered(pieces + [p], ids[Lower(p.name) := k], k + 1)
  {
    DefaultPiecesStep(pieces, k, p);
    DefaultIdsStep(ids, k, p.name);
  }

  const DefaultNames: seq<string> := ["t", "l", "j", "i", "s", "z", "o"]

  /** Dictionary lookup of a name after folding it. */
  function Lookup(ids: map<string, int>, name: string): Option<int>
  {
    var key := Lower(name);
    if key in ids then Some(ids[key]) else None
  }

  lemma DefaultNamesDistinct(i: int, j: int)
    requires 0 <= i < 7 && 0 <= j < 7
    ensures DefaultNames[i] == DefaultNames[j] <==> i == j
  {
    if i != j {
      assert DefaultNames[i][0] != DefaultNames[j][0];
    }
  }

  /** After k registrations the index holds exactly the first k folded names,
      each mapped to its own id. */
  lemma {:induction false} DefaultIdsContents(k: nat)
    requires k <= 7
    ensures forall n :: n in DefaultIds(k) <==> exists id :: 0 <= id < k && DefaultNames[id] == n
    ensures forall id :: 0 <= id < k ==> DefaultNames[id] in DefaultIds(k) && DefaultIds(k)[DefaultNames[id]] == id
  {
    if k > 0 {
      DefaultIdsContents(k - 1);
      assert (k - 1) % 7 == k - 1;
      forall id | 0 <= id < k - 1 ensures DefaultNames[id] != DefaultNames[k - 1] {
        DefaultNamesDistinct(id, k - 1);
      }
    }
  }

  /** The default catalogue answers exactly the seven names, in either case, with their ids. */
  lemma DefaultLookup(name: string, id: int)
    ensures Lookup(DefaultIds(7), name) == Some(id) <==> 0 <= id < 7 && Lower(name) == DefaultNames[id]
  {
    DefaultIdsContents(7);
    var key := Lower(name);
    if key in DefaultIds(7) {
      var j :| 0 <= j < 7 && DefaultNames[j] == key;
      if 0 <= id < 7 {
        DefaultNamesDistinct(id, j);
      }
    }
  }

  /** The rotation counts of the default pieces: T, L and J have four, I, S and
      Z have two, O has one. */
  lemma DefaultRotationCount(p: Piece, id: int)
    requires DefaultPiece(p, id)
    ensures |p.rotations| == if id < 3 then 4 else if id < 6 then 2 else 1
  {
    if id == 0 {
      TShapeRotations();
    } else if id == 1 {
      LShapeRotations();
    } else if id == 2 {
      JShapeRotations();
    } else if id == 3 {
      IShapeRotations();
    } else if id == 4 {
      SShapeRotations();
    } else if id == 5 {
      ZShapeRotations();
    } else {
      OShapeRotations();
    }
  }

  /** Every default shape is a valid construction input. */
  lemma DefaultShapesValid(id: int)
    requires 0 <= id < 7
    ensures ValidShape(DefaultShapes[id]) && |DefaultShapes[id]| == 4
  {
    var s := DefaultShapes[id];
    if id < 4 || id == 5 || id == 6 {
      assert s[0].y == 0;
    } else {
      assert s[1].y == 0;
    }
    if id == 1 || id == 3 || id == 5 || id == 6 {
      assert s[0].x == 0;
    } else if id == 0 {
      assert s[1].x == 0;
    } else if id == 2 {
      assert s[3].x == 0;
    } else {
      assert s[2].x == 0;
    }
  }

  /** Every default piece keeps the piece invariant. */
  lemma DefaultPieceValid(p: Piece, id: int)
    requires DefaultPiece(p, id)
    ensures ValidPiece(p)
  {
    DefaultShapesValid(id);
    RotationListSpec(DefaultShapes[id]);
  }

  /** The default name index points every key at the piece whose folded name it is. */
  lemma DefaultIndexCoherent(pieces: seq<Piece>, ids: map<string, int>)
    requires DefaultsRegistered(pieces, ids, 7)
    ensures forall n :: n in ids ==> 0 <= ids[n] < 7 && Lower(pieces[ids[n]].name) == n
  {
    DefaultIdsContents(7);
    forall n | n in ids ensures 0 <= ids[n] < 7 && Lower(pieces[ids[n]].name) == n {
      var j :| 0 <= j < 7 && DefaultNames[j] == n;
      DefaultNameFolds(j);
    }
  }

  /** Piece pips times registered count, summed over ids. */
  function PipTotal(pieces: seq<Piece>, counts: seq<int>): int
  {
    if counts == [] then 0
    else
      var n := |counts| - 1;
      PipTotal(pieces, counts[..n]) + (if n < |pieces| then pieces[n].pipCount * counts[n] else 0)
  }

  /** Registering c more of piece id raises the total by c times its pip count. */
  lemma {:induction false} PipTotalUpdate(pieces: seq<Piece>, counts: seq<int>, id: int, c: int)
    requires 0 <= id < |counts|
    ensures PipTotal(pieces, counts[id := counts[id] + c])
         == PipTotal(pieces, counts) + (if id < |pieces| then pieces[id].pipCount * c else 0)
    decreases |counts|
  {
    var n := |counts| - 1;
    var counts' := counts[id := counts[id] + c];
    assert counts'[..n] == if id < n then counts[..n][id := counts[id] + c] else counts[..n];
    if id < n {
      PipTotalUpdate(pieces, counts[..n], id, c);
    }
  }

  /** With every count zero the total is zero. */
  lemma {:induction false} PipTotalZero(pieces: seq<Piece>, counts: seq<int>)
    requires forall i :: 0 <= i < |counts| ==> counts[i] == 0
    ensures PipTotal(pieces, counts) == 0
    decreases |counts|
  {
    if counts != [] {
      PipTotalZero(pieces, counts[..|counts| - 1]);
    }
  }

  /** The inventory: the registered pieces, the name index, and for every id
      the registered (initial) and still available (current) count. */
  class PieceStore {
    var pieces: seq<Piece>
    var idByName: map<string, int>
    var initialCounts: seq<int>
    var currentCounts: seq<int>
    var numIDs: int

    /** The ledger invariant: one count pair per piece, 0 <= current <= initial,
        every piece valid, and every indexed name folding the name of its piece. */
    ghost predicate Valid()
      reads this
    {
      && numIDs == |pieces| && |initialCounts| == |pieces| && |currentCounts| == |pieces|
      && (forall id :: 0 <= id < |pieces| ==> ValidPiece(pieces[id]))
      && (forall id :: 0 <= id < |pieces| ==> 0 <= currentCounts[id] <= initialCounts[id])
      && (forall n :: n in idByName ==> 0 <= idByName[n] < |pieces| && Lower(pieces[idByName[n]].name) == n)
    }

    /** A store holding the default catalogue with nothing registered. */
    constructor()
      ensures Valid()
      ensures DefaultsRegistered(pieces, idByName, 7) && numIDs == 7
      ensures forall id :: 0 <= id < 7 ==> initialCounts[id] == 0 && currentCounts[id] == 0
    {
      pieces := [];
      idByName := map[];
      initialCounts := [];
      currentCounts := [];
      numIDs := 0;
      new;
      RegisterDefaultPieces();
      forall id | 0 <= id < 7 ensures ValidPiece(pieces[id]) {
        DefaultPieceValid(pieces[id], id);
      }
      DefaultIndexCoherent(pieces, idByName);
    }

    /** Appends a piece under the next id and indexes its folded name. */
    method RegisterPiece(piece: Piece)
      modifies this
      ensures pieces == old(pieces) + [piece]
      ensures idByName == old(idByName)[Lower(piece.name) := |old(pieces)|]
      ensures initialCounts == old(initialCounts) && currentCounts == old(currentCounts) && numIDs == old(numIDs)
    {
      var id := |pieces|;
      pieces := pieces + [piece];
      idByName := idByName[Lower(piece.name) := id];
    }

    /** Builds and registers T, L, J, I, S, Z, O as ids 0 to 6, then sizes both
        count arrays to the catalogue with every count zero. */
    method RegisterDefaultPieces()
      requires pieces == [] && idByName == map[]
      modifies this
      ensures DefaultsRegistered(pieces, idByName, 7) && numIDs == 7
      ensures |initialCounts| == 7 && |currentCounts| == 7
      ensures forall id :: 0 <= id < 7 ==> initialCounts[id] == 0 && currentCounts[id] == 0
    {
      RegisterCatalogue();
      ghost var ps, ids := pieces, idByName;
      initialCounts := seq(|pieces|, _ => 0);
      currentCounts := seq(|pieces|, _ => 0);
      numIDs := |pieces|;
      assert pieces == ps && idByName == ids;
    }

    /** The seven registrations of the default catalogue, in order. */
    method RegisterCatalogue()
      requires pieces == [] && idByName == map[]
      modifies this
      ensures DefaultsRegistered(pieces, idByName, 7)
    {
      assert DefaultsRegistered(pieces, idByName, 0);
      DefaultShapesValid(0);
      var tPiece := NewPiece(PieceNames[0], DefaultShapes[0]);
      RegisterDefaultStep(pieces, idByName, 0, tPiece);
      RegisterPiece(tPiece);
      DefaultShapesValid(1);
      var lPiece := NewPiece(PieceNames[1], DefaultShapes[1]);
      RegisterDefaultStep(pieces, idByName, 1, lPiece);
      RegisterPiece(lPiece);
      DefaultShapesValid(2);
      var jPiece := NewPiece(PieceNames[2], DefaultShapes[2]);
      RegisterDefaultStep(pieces, idByName, 2, jPiece);
      RegisterPiece(jPiece);
      DefaultShapesValid(3);
      var iPiece := NewPiece(PieceNames[3], DefaultShapes[3]);
      RegisterDefaultStep(pieces, idByName, 3, iPiece);
      RegisterPiece(iPiece);
      DefaultShapesValid(4);
      var sPiece := NewPiece(PieceNames[4], DefaultShapes[4]);
      RegisterDefaultStep(pieces, idByName, 4, sPiece);
      RegisterPiece(sPiece);
      DefaultShapesValid(5);
      var zPiece := NewPiece(PieceNames[5], DefaultShapes[5]);
      RegisterDefaultStep(pieces, idByName, 5, zPiece);
      RegisterPiece(zPiece);
      DefaultShapesValid(6);
      var oPiece := NewPiece(PieceNames[6], DefaultShapes[6]);
      RegisterDefaultStep(pieces, idByName, 6, oPiece);
      RegisterPiece(oPiece);
    }

    /** Sum of pip count times registered count; check-outs do not enter it. */
    method TotalPips() returns (sum: int)
      requires Valid()
      ensures sum == PipTotal(pieces, initialCounts)
    {
      sum := 0;
      for id := 0 to |initialCounts|
        invariant sum == PipTotal(pieces, initialCounts[..id])
      {
        assert initialCounts[..id + 1][..id] == initialCounts[..id];
        var piece := pieces[id];
        sum := sum + piece.pipCount * initialCounts[id];
      }
      assert initialCounts[..|initialCounts|] == initialCounts;
    }

    /** The id registered under the folded name, if any. */
    function GetID(name: string): (r: Option<int>)
      reads this
      ensures Valid() && r.Some? ==> 0 <= r.value < |pieces| && Lower(pieces[r.value].name) == Lower(name)
      ensures r.None? ==> Lower(name) !in idByName
    {
      Lookup(idByName, name)
    }

    /** The piece with a given id; the source traps on an id out of range. */
    function GetPiece(id: int): (p: Piece)
      reads this
      requires 0 <= id < |pieces|
      ensures Valid() ==> ValidPiece(p) && 1 <= |p.rotations| <= 4
    {
      pieces[id]
    }

    /** Adds count to both the initial and the current count of id; refuses an
        unknown id or a count that is not positive, changing nothing. */
    method RegisterInitialCount(id: int, count: int) returns (ok: bool)
      requires Valid() && 0 <= id
      modifies this
      ensures Valid() && pieces == old(pieces) && idByName == old(idByName)
      ensures ok <==> id < |pieces| && count > 0
      ensures ok ==> && initialCounts == old(initialCounts)[id := old(initialCounts)[id] + count]
                     && currentCounts == old(currentCounts)[id := old(currentCounts)[id] + count]
      ensures !ok ==> initialCounts == old(initialCounts) && currentCounts == old(currentCounts)
    {
      if !(id < |pieces| && count > 0) {
        return false;
      }
      initialCounts := initialCounts[id := initialCounts[id] + count];
      currentCounts := currentCounts[id := currentCounts[id] + count];
      return true;
    }

    /** Zeroes every initial and current count. */
    method ClearRegistrations()
      requires Valid()
      modifies this
      ensures Valid() && pieces == old(pieces) && idByName == old(idByName)
      ensures forall id :: 0 <= id < |pieces| ==> initialCounts[id] == 0 && currentCounts[id] == 0
    {
      for i := 0 to |pieces|
        invariant Valid() && pieces == old(pieces) && idByName == old(idByName)
        invariant forall j :: 0 <= j < i ==> initialCounts[j] == 0 && currentCounts[j] == 0
      {
        initialCounts := initialCounts[i := 0];
        currentCounts := currentCounts[i := 0];
      }
    }

    /** Makes every registered piece available again. */
    method ClearCheckouts()
      requires Valid()
      modifies this`currentCounts
      ensures Valid() && currentCounts == initialCounts
    {
      currentCounts := initialCounts;
    }

    /** Takes one piece of id out of the inventory; refuses an unknown id or an
        exhausted one, changing nothing. */
    method CheckOutPiece(id: int) returns (ok: bool)
      requires Valid() && 0 <= id
      modifies this`currentCounts
      ensures Valid()
      ensures ok <==> id < |pieces| && old(currentCounts)[id] > 0
      ensures ok ==> currentCounts == old(currentCounts)[id := old(currentCounts)[id] - 1]
      ensures !ok ==> currentCounts == old(currentCounts)
    {
      if !(id < |pieces|) {
        return false;
      }
      var currentCount := currentCounts[id];
      if currentCount > 0 {
        currentCounts := currentCounts[id := currentCount - 1];
        return true;
      } else {
        return false;
      }
    }

    /** Returns one piece of id; the source traps unless the id is known and the
        piece is checked out. */
    method CheckInPiece(id: int)
      requires Valid() && 0 <= id < |pieces| && currentCounts[id] + 1 <= initialCounts[id]
      modifies this`currentCounts
      ensures Valid()
      ensures currentCounts == old(currentCounts)[id := old(currentCounts)[id] + 1]
    {
      var newCount := currentCounts[id] + 1;
      currentCounts := currentCounts[id := newCount];
    }

    /** A check-out of id followed, when it succeeds, by a check-in of the same
        id leaves the inventory as it was; it succeeds exactly for a known id
        in stock. */
    method CheckOutThenIn(id: int) returns (ok: bool)
      requires Valid() && 0 <= id
      modifies this`currentCounts
      ensures Valid() && currentCounts == old(currentCounts)
      ensures ok <==> id < |pieces| && old(currentCounts)[id] > 0
    {
      ok := CheckOutPiece(id);
      if ok {
        CheckInPiece(id);
      }
    }
  }
}
