/** Two boards on which the reported checkmate is wrong: one is reported as mate though the
    attacker can be taken, one is not though nothing ends the check. */
module MateBoards {
  import opened Wrappers
  import opened HexGrid
  import opened Offsets
  import opened ChessBoard
  import opened MoveGen
  import opened MoveGeometry
  import opened GameStates
  import opened KingSafety
  import opened Play
  import opened Positions
  import opened Checkmates

  lemma OnlyKing(b: Board, white: bool, king: Hex)
    requires InBounds(king) && InArray(king) && Get(b, king) == King(white)
    requires forall h: Hex :: InArray(h) && h != king ==> Get(b, h) != King(white)
    ensures FindKing(b, white) == Some(king)
  {
    hide FindKingFrom, HexAt;
    FindKingIsKing(b, white, 0);
    assert HexAt(IndexOf(king)) == king;
  }

  lemma NoKing(b: Board, white: bool)
    requires forall h: Hex :: InArray(h) ==> Get(b, h) != King(white)
    ensures FindKing(b, white).None?
  {
    hide FindKingFrom, HexAt;
    FindKingIsKing(b, white, 0);
  }

  /** A board with the white king among pawns of its own, one piece, and nothing else. */
  lemma Surrounded(king: Hex, attacker: Hex, p: Piece, guards: set<Hex>) returns (b: Board)
    requires InBounds(king) && InBounds(attacker) && IsKnown(p) && forall h :: h in guards ==> InBounds(h)
    ensures b.isWhiteTurn && WellFormed(b)
    ensures forall h: Hex :: InArray(h) ==>
              Get(b, h) == if h == attacker then p else if h == king then WHITE_KING else if h in guards then WHITE_PAWN else EMPTY
  {
    hide InBounds, InArray;
    var pawns: map<Hex, Piece> := map h | h in guards :: WHITE_PAWN;
    var places: map<Hex, Piece> := pawns[king := WHITE_KING][attacker := p];
    PlacedCells(true, places);
    b := Placed(true, places);
  }

  /** A side with no pieces attacks nothing. */
  lemma NobodyAttacks(b: Board, white: bool)
    requires forall h: Hex :: InArray(h) ==> !IsColored(Get(b, h), !white)
    ensures EnemyTable(b, white) == {}
  {
    hide Tables, FindKing, PieceAttacks;
    NoKing(b, !white);
    TablesAreAttacks(b);
    forall h
      ensures h !in EnemyTable(b, white)
    {
      if IsAttacked(b, !white, h) {
        var from :| PieceAttacks(b, !white, from, h);
        AttackerIsThere(b, !white, from, h);
        assert false;
      }
    }
  }

  // ----- a mate that is none -----

  /** The white king in a corner behind five of its pawns, a black knight giving check, and
      nothing else. */
  ghost predicate IsCornered(b: Board, king: Hex, knight: Hex, guards: set<Hex>) {
    && b.isWhiteTurn && king == Hex(0, 0) && knight == Hex(2, 3)
    && guards == {Hex(0, 1), Hex(1, 1), Hex(1, 0), Hex(1, 2), Hex(2, 1)}
    && forall h: Hex :: InArray(h) ==>
         Get(b, h) == if h == king then WHITE_KING else if h == knight then BLACK_KNIGHT
                      else if h in guards then WHITE_PAWN else EMPTY
  }

  lemma KnightChecks(b: Board, king: Hex, knight: Hex, guards: set<Hex>)
    requires IsCornered(b, king, knight, guards)
    ensures PieceAttacks(b, false, knight, king)
  {
    AttacksAreStrikes(b, false, knight, king);
    assert StepsOnto(b, BLACK_KNIGHT, knight, KnightVector(6), {}, king);
  }

  /** The five hexes around the corner are all a king there can step to. */
  lemma CornerNeighbours(corner: Hex, i: nat, t: Hex)
    requires corner == Hex(0, 0) && i < 12 && InBounds(t) && ToAxial(t) == Plus(ToAxial(corner), KingVector(i))
    ensures t == Hex(0, 1) || t == Hex(1, 1) || t == Hex(1, 0) || t == Hex(1, 2) || t == Hex(2, 1)
  {
    hide InBounds;
    SteppedHex(corner, KingVector(i), t);
  }

  /** Near the first file the axial coordinates are file and rank less file. */
  lemma SteppedHex(from: Hex, v: Axial, t: Hex)
    requires from.file == 0 && v.q <= 2 && ToAxial(t) == Plus(ToAxial(from), v)
    ensures t.file == v.q && t.rank == from.rank + v.r + v.q
  {
  }

  lemma CorneredKingIsStuck(b: Board, king: Hex, knight: Hex, guards: set<Hex>, t: Hex)
    requires IsCornered(b, king, knight, guards)
    ensures t !in Steps(b, king, KingOffsets(), {})
  {
    hide Steps, KnightVector, KingVector, Plus, ToAxial;
    StepMovesExact(b, king, {});
    if i :| 0 <= i < 12 && StepsOnto(b, WHITE_KING, king, KingVector(i), {}, t) {
      CornerNeighbours(king, i, t);
      assert false;
    }
  }

  lemma TakeIsOffered(b: Board, from: Hex, to: Hex)
    requires InBounds(from) && InArray(from) && InBounds(to) && InArray(to)
    requires Get(b, from) == (if b.isWhiteTurn then WHITE_PAWN else BLACK_PAWN)
    requires to == Step(from, TakeRight(b.isWhiteTurn)) && IsColored(Get(b, to), !b.isWhiteTurn)
    ensures Offered(b, from, to)
  {
    hide Step, InBounds, PawnAdvances;
  }

  /** A pawn takes the knight: that would end the check. */
  lemma TakingEndsCheck(b: Board, king: Hex, knight: Hex, guards: set<Hex>, mv: Move)
    requires IsCornered(b, king, knight, guards) && FindKing(b, true) == Some(king)
    requires mv == Move(Hex(1, 2), knight, NO_PROMOTION)
    ensures IsPieceReply(b, mv) && EndsCheck(b, mv)
  {
    hide Tables, FindKing, MovedBoard, Offered, EnemyTable;
    TakeIsOffered(b, mv.from, mv.to);
    var c := MovedBoard(b, mv);
    forall h: Hex | InArray(h)
      ensures !IsColored(Get(c, h), false)
    {
      MovedCells(b, mv, h);
    }
    NobodyAttacks(c, true);
  }

  /** Checkmate is reported of a king whose attacker a pawn could take, and the taking refused. */
  lemma SomeReportedMateIsNone() returns (b: Board, mv: Move)
    ensures WellFormed(b) && IsCheckmate(Start(b)) && !IsMate(b)
    ensures IsPieceReply(b, mv) && FindKing(b, b.isWhiteTurn).Some? && EndsCheck(b, mv)
    ensures Violation(Start(b), mv).Some?
  {
    hide Tables, FindKing, Offered, EnemyTable, MovedBoard, PieceAttacks, IsPromotion, IsCheckmate, Violation;
    var king, knight, guards := Hex(0, 0), Hex(2, 3), {Hex(0, 1), Hex(1, 1), Hex(1, 0), Hex(1, 2), Hex(2, 1)};
    b := Cornered(king, knight, guards);
    mv := Move(Hex(1, 2), knight, NO_PROMOTION);
    CorneredFacts(b, king, knight, guards);
    TakingEndsCheck(b, king, knight, guards, mv);
    FalseMateIff(b);
    ReplyToPieceIsRefused(b, mv);
  }

  lemma Cornered(king: Hex, knight: Hex, guards: set<Hex>) returns (b: Board)
    requires king == Hex(0, 0) && knight == Hex(2, 3)
    requires guards == {Hex(0, 1), Hex(1, 1), Hex(1, 0), Hex(1, 2), Hex(2, 1)}
    ensures IsCornered(b, king, knight, guards) && WellFormed(b)
  {
    b := Surrounded(king, knight, BLACK_KNIGHT, guards);
  }

  lemma CorneredFacts(b: Board, king: Hex, knight: Hex, guards: set<Hex>)
    requires IsCornered(b, king, knight, guards)
    ensures FindKing(b, true) == Some(king) && AttackedByPiece(b) && StuckKing(b)
  {
    hide Tables, FindKing, PieceAttacks, MoverList, Attacks, Steps;
    OnlyKing(b, true, king);
    KnightChecks(b, king, knight, guards);
    MoverKing(b);
    var listed := Last(MoverList(b)).moves;
    if listed != [] {
      KingListed(b, king, Attacks(b, false), listed[0]);
      CorneredKingIsStuck(b, king, knight, guards, listed[0]);
      assert false;
    }
  }

  // ----- a mate that is missed -----

  /** The white king on its file with a black rook above it, walled in by five of its pawns but
      for the hexes on that file, and nothing else. */
  ghost predicate IsWalledIn(b: Board, king: Hex, rook: Hex, guards: set<Hex>) {
    && b.isWhiteTurn && king == Hex(0, 1) && rook == Hex(0, 5)
    && guards == {Hex(1, 0), Hex(1, 1), Hex(1, 2), Hex(1, 3), Hex(2, 2)}
    && forall h: Hex :: InArray(h) ==>
         Get(b, h) == if h == king then WHITE_KING else if h == rook then BLACK_ROOK
                      else if h in guards then WHITE_PAWN else EMPTY
  }

  /** A rook attacks down its file, over empty hexes. */
  lemma RookDownFile(b: Board, rook: Hex, h: Hex)
    requires InBounds(rook) && InArray(rook) && Get(b, rook) == BLACK_ROOK
    requires h.file == rook.file && h.rank < rook.rank && InArray(h) && !IsColored(Get(b, h), false)
    requires forall r: Uint32 :: h.rank < r < rook.rank ==> Get(b, Hex(h.file, r)) == EMPTY
    ensures PieceAttacks(b, false, rook, h)
  {
    hide PieceAttacks, OnLine, Reaches, KnightVector;
    AttacksAreStrikes(b, false, rook, h);
    var down := 1;
    DownTheFile(b, rook, h, down);
    assert Follows(BLACK_ROOK, down) && OnLine(b, BLACK_ROOK, rook, KingVector(down), h);
  }

  lemma DownTheFile(b: Board, rook: Hex, h: Hex, down: nat)
    requires InBounds(rook) && InArray(rook) && Get(b, rook) == BLACK_ROOK && down == 1
    requires h.file == rook.file && h.rank < rook.rank && InArray(h) && !IsColored(Get(b, h), false)
    requires forall r: Uint32 :: h.rank < r < rook.rank ==> Get(b, Hex(h.file, r)) == EMPTY
    ensures OnLine(b, BLACK_ROOK, rook, KingVector(down), h)
  {
    var k := rook.rank - h.rank;
    var v := KingVector(down);
    RanksClosedForm(rook.file);
    forall j | 1 <= j < k
      ensures EmptyAt(b, Along(ToAxial(rook), v, j))
    {
      assert Get(b, Hex(h.file, rook.rank - j)) == EMPTY;
    }
    assert Reaches(b, BLACK_ROOK, rook, v, k, h);
  }

  lemma WallNeighbours(king: Hex, i: nat, t: Hex)
    requires king == Hex(0, 1) && i < 12 && InBounds(t) && ToAxial(t) == Plus(ToAxial(king), KingVector(i))
    ensures t in {Hex(1, 0), Hex(1, 1), Hex(1, 2), Hex(1, 3), Hex(2, 2)} || t == Hex(0, 0) || t == Hex(0, 2)
  {
    hide InBounds;
    SteppedHex(king, KingVector(i), t);
  }

  lemma WalledKingSteps(b: Board, king: Hex, rook: Hex, guards: set<Hex>, t: Hex)
    requires IsWalledIn(b, king, rook, guards)
    ensures t in Steps(b, king, KingOffsets(), {}) ==> t == Hex(0, 0) || t == Hex(0, 2)
  {
    hide Steps, KnightVector, KingVector, Plus, ToAxial;
    StepMovesExact(b, king, {});
    if i :| 0 <= i < 12 && StepsOnto(b, WHITE_KING, king, KingVector(i), {}, t) {
      WallNeighbours(king, i, t);
    }
  }

  lemma OneDown(king: Hex, back: Hex, down: nat)
    requires king == Hex(0, 1) && back == Hex(0, 0) && down == 1
    ensures InBounds(back) && InArray(back) && ToAxial(back) == Plus(ToAxial(king), KingVector(down))
  {
  }

  /** The step back, away from the rook. */
  lemma StepBack(b: Board, king: Hex, rook: Hex, guards: set<Hex>, back: Hex, down: nat)
    requires IsWalledIn(b, king, rook, guards) && back == Hex(0, 0) && down == 1
    ensures back in Steps(b, king, KingOffsets(), {})
  {
    hide Steps, KnightVector, KingVector, Plus, ToAxial;
    StepMovesExact(b, king, {});
    OneDown(king, back, down);
    assert StepsOnto(b, WHITE_KING, king, KingVector(down), {}, back);
  }

  lemma RookVectors(i: nat)
    requires i < 6
    ensures KingVector(i).r >= -1
  {
  }

  lemma LineDown(rook: Hex, back: Hex, v: Axial, k: int)
    requires rook == Hex(0, 5) && back == Hex(0, 0) && v.r >= -1 && k >= 1
    requires Along(ToAxial(rook), v, k) == ToAxial(back)
    ensures v == Axial(0, -1) && k == 5
  {
    assert k * v.q == 0 && 5 + k * v.r == 0;
  }

  /** The rook's lines end at the king. */
  lemma RookStopsAtKing(b: Board, king: Hex, rook: Hex, back: Hex, i: nat, k: int)
    requires king == Hex(0, 1) && rook == Hex(0, 5) && back == Hex(0, 0) && InArray(king) && Get(b, king) == WHITE_KING
    requires i < 6
    ensures !Reaches(b, BLACK_ROOK, rook, KingVector(i), k, back)
  {
    hide KingVector, Along, ToAxial;
    var v := KingVector(i);
    if k >= 1 && ToAxial(back) == Along(ToAxial(rook), v, k) {
      RookVectors(i);
      LineDown(rook, back, v, k);
      KingOnTheWay(king, rook, v, k - 1);
      AxialInverse(king);
      assert !EmptyAt(b, Along(ToAxial(rook), v, k - 1));
    }
  }

  lemma KingOnTheWay(king: Hex, rook: Hex, v: Axial, k: int)
    requires king.file == rook.file && king.rank + k == rook.rank && v.q == 0 && v.r == -1
    ensures Along(ToAxial(rook), v, k) == ToAxial(king)
  {
    assert k * v.q == 0 && k * v.r == -k;
  }

  lemma BackIsNotAttacked(b: Board, king: Hex, rook: Hex, guards: set<Hex>, back: Hex)
    requires IsWalledIn(b, king, rook, guards) && back == Hex(0, 0)
    ensures back !in Attacks(b, false)
  {
    hide Attacks, PieceAttacks, KingVector, KnightVector, Reaches;
    AttacksAre(b, false, back);
    if from :| PieceAttacks(b, false, from, back) {
      AttackerIsThere(b, false, from, back);
      assert from == rook;
      AttacksAreStrikes(b, false, rook, back);
      var i :| Follows(BLACK_ROOK, i) && 0 <= i < 12 && OnLine(b, BLACK_ROOK, rook, KingVector(i), back);
      var k :| Reaches(b, BLACK_ROOK, rook, KingVector(i), k, back);
      RookStopsAtKing(b, king, rook, back, i, k);
      assert false;
    }
  }

  /** Where an offered pawn goes: up its file, or onto a piece of the other colour beside it. */
  lemma PawnGoes(b: Board, from: Hex, to: Hex)
    requires b.isWhiteTurn && InArray(from) && Get(b, from) == WHITE_PAWN && Offered(b, from, to)
    ensures to.file == from.file
         || ((to == Step(from, UpLeft) || to == Step(from, UpRight)) && InArray(to) && IsColored(Get(b, to), false))
  {
    hide InBounds;
    OfferedIsTarget(b, from, to);
  }

  /** After a step of the king it is on the rook's line still. */
  lemma StepKeepsCheck(b: Board, king: Hex, rook: Hex, guards: set<Hex>, mv: Move)
    requires IsWalledIn(b, king, rook, guards) && FindKing(b, true) == Some(king) && IsKingStep(b, mv)
    ensures InArray(mv.from) && !EndsCheck(b, mv)
  {
    hide Tables, FindKing, MovedBoard, EnemyTable, Steps, Attacks, PieceAttacks;
    WalledKingSteps(b, king, rook, guards, mv.to);
    var c := MovedBoard(b, mv);
    forall h: Hex | InArray(h)
      ensures Get(c, h) == if h == mv.to then WHITE_KING else if h == mv.from then EMPTY else Get(b, h)
    {
      MovedCells(b, mv, h);
    }
    RookDownFile(c, rook, mv.to);
    AttacksAre(c, false, mv.to);
    EnemyTableHolds(c, true, mv.to);
  }

  /** No pawn gets between or takes the rook. */
  lemma ReplyKeepsCheck(b: Board, king: Hex, rook: Hex, guards: set<Hex>, mv: Move)
    requires IsWalledIn(b, king, rook, guards) && FindKing(b, true) == Some(king) && IsPieceReply(b, mv)
    ensures !EndsCheck(b, mv)
  {
    hide Tables, FindKing, MovedBoard, EnemyTable, Attacks, PieceAttacks, Offered, IsPromotion, Landing;
    KingsAreNotOffered(b, mv.from, mv.to);
    OfferedIsTarget(b, mv.from, mv.to);
    PawnGoes(b, mv.from, mv.to);
    var c := MovedBoard(b, mv);
    forall h: Hex | InArray(h) && h.file == 0
      ensures Get(c, h) == Get(b, h)
    {
      MovedCells(b, mv, h);
    }
    RookDownFile(c, rook, king);
    AttacksAre(c, false, king);
    EnemyTableHolds(c, true, king);
  }

  lemma WalledIn(king: Hex, rook: Hex, guards: set<Hex>) returns (b: Board)
    requires king == Hex(0, 1) && rook == Hex(0, 5)
    requires guards == {Hex(1, 0), Hex(1, 1), Hex(1, 2), Hex(1, 3), Hex(2, 2)}
    ensures IsWalledIn(b, king, rook, guards) && WellFormed(b)
  {
    b := Surrounded(king, rook, BLACK_ROOK, guards);
  }

  lemma WalledFacts(b: Board, king: Hex, rook: Hex, guards: set<Hex>)
    requires IsWalledIn(b, king, rook, guards)
    ensures FindKing(b, true) == Some(king) && AttackedByPiece(b) && !StuckKing(b)
  {
    hide Tables, FindKing, PieceAttacks, MoverList, Attacks, Steps;
    OnlyKing(b, true, king);
    RookDownFile(b, rook, king);
    MoverKing(b);
    var back, down := Hex(0, 0), 1;
    StepBack(b, king, rook, guards, back, down);
    BackIsNotAttacked(b, king, rook, guards, back);
    KingListed(b, king, Attacks(b, false), back);
  }

  /** A mate goes unreported: the king is listed a step back along the line it is attacked on. */
  lemma SomeMateIsMissed() returns (b: Board)
    ensures WellFormed(b) && IsMate(b) && !IsCheckmate(Start(b))
  {
    hide Tables, FindKing, IsKingStep, IsPieceReply, IsCheckmate, InCheck, MoverList, AttackedByPiece, StuckKing;
    var king, rook, guards := Hex(0, 1), Hex(0, 5), {Hex(1, 0), Hex(1, 1), Hex(1, 2), Hex(1, 3), Hex(2, 2)};
    b := WalledIn(king, rook, guards);
    WalledFacts(b, king, rook, guards);
    forall mv | IsKingStep(b, mv)
      ensures InArray(mv.from) && InArray(mv.to) && !EndsCheck(b, mv)
    {
      StepOfKing(b, mv);
      StepKeepsCheck(b, king, rook, guards, mv);
    }
    NoPieceEndsCheck(b, king, rook, guards);
    CheckByPiece(b);
    MissedMateIff(b);
    UnstuckHasMoves(b);
  }

  lemma NoPieceEndsCheck(b: Board, king: Hex, rook: Hex, guards: set<Hex>)
    requires IsWalledIn(b, king, rook, guards) && FindKing(b, true) == Some(king)
    ensures !PieceEndsCheck(b)
  {
    hide Tables, FindKing, IsWalledIn, EndsCheck, Offered;
    WhiteTurn(b, king, rook, guards);
    forall mv | IsPieceReply(b, mv)
      ensures !EndsCheck(b, mv)
    {
      ReplyKeepsCheck(b, king, rook, guards, mv);
    }
  }

  lemma WhiteTurn(b: Board, king: Hex, rook: Hex, guards: set<Hex>)
    requires IsWalledIn(b, king, rook, guards)
    ensures b.isWhiteTurn
  {
  }
}
