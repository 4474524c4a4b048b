/** What a mate is: the king is attacked, and no move by the rules of movement ends that. When
    the reported checkmate agrees with it, and two boards on which it does not. */
module Checkmates {
  import opened Wrappers
  import opened HexGrid
  import opened Offsets
  import opened ChessBoard
  import opened MoveGen
  import opened MoveGeometry
  import opened GameStates
  import opened KingSafety
  import opened Play
  import opened Positions

  // ----- attacks in geometric terms -----

  predicate IsSlider(p: Piece) {
    p in {WHITE_ROOK, BLACK_ROOK, WHITE_BISHOP, BLACK_BISHOP, WHITE_QUEEN, BLACK_QUEEN}
  }

  predicate IsKnight(p: Piece) { p == WHITE_KNIGHT || p == BLACK_KNIGHT }

  /** The hex is on a line of the sliding piece, one vector from the knight, or one the pawn
      can take on. */
  ghost predicate Strikes(b: Board, from: Hex, h: Hex)
    requires InBounds(from) && InArray(from)
  {
    var p := Get(b, from);
    if IsSlider(p) then exists i :: Follows(p, i) && 0 <= i < 12 && OnLine(b, p, from, KingVector(i), h)
    else if IsKnight(p) then exists i :: 0 <= i < 12 && StepsOnto(b, p, from, KnightVector(i), {}, h)
    else IsPawn(p) && Captures(b, from, IsWhite(p), h)
  }

  lemma AttacksAreStrikes(b: Board, white: bool, from: Hex, h: Hex)
    ensures PieceAttacks(b, white, from, h)
       <==> InBounds(from) && InArray(from) && IsColored(Get(b, from), white) && Strikes(b, from, h)
  {
    hide OnLine, KingVector, KnightVector, Travel, Steps, PawnTakes, PawnAdvances, Follows, StepsOnto, AreMoveSteps, Slides, Captures;
    if InBounds(from) && InArray(from) {
      var p := Get(b, from);
      if IsSlider(p) {
        SlidesAreMoveSteps(p);
        SlidingMovesExact(b, from, p);
      } else if IsKnight(p) {
        StepMovesExact(b, from, {});
      } else {
        PawnTakesExact(b, from, IsWhite(p), h);
      }
    }
  }

  /** Where a piece other than the king goes: where it strikes, or, a pawn, ahead as well. */
  ghost predicate Goes(b: Board, from: Hex, t: Hex)
    requires InBounds(from) && InArray(from)
  {
    !IsKing(Get(b, from)) && (Strikes(b, from, t) || (IsPawn(Get(b, from)) && Advances(b, from, IsWhite(Get(b, from)), t)))
  }

  /** The generated moves of the side to move are exactly those. */
  lemma OfferedIsGoes(b: Board, from: Hex, t: Hex)
    ensures Offered(b, from, t)
       <==> InBounds(from) && InArray(from) && IsColored(Get(b, from), b.isWhiteTurn) && Goes(b, from, t)
  {
    hide OnLine, KingVector, KnightVector, Travel, Steps, PawnTakes, PawnAdvances, Follows, StepsOnto, AreMoveSteps, Slides;
    hide Captures, Advances;
    if InBounds(from) && InArray(from) {
      var p := Get(b, from);
      if IsSlider(p) {
        SlidesAreMoveSteps(p);
        SlidingMovesExact(b, from, p);
      } else if IsKnight(p) {
        StepMovesExact(b, from, {});
      } else if IsPawn(p) {
        PawnTakesExact(b, from, IsWhite(p), t);
        PawnAdvancesExact(b, from, IsWhite(p), t);
      }
    }
  }

  /** No piece attacks a hex with one of its own colour. */
  lemma AttackedIsNotOwn(b: Board, white: bool, from: Hex, h: Hex)
    requires PieceAttacks(b, white, from, h)
    ensures InBounds(h) && InArray(h) && !IsColored(Get(b, h), white)
  {
    hide Travel, Steps, PawnAdvances, Generate;
    GenerateSoundness(b, from, white);
    if IsPawn(Get(b, from)) { InBoundsIfTaken(b, from, white, h); }
  }

  lemma InBoundsIfTaken(b: Board, from: Hex, white: bool, h: Hex)
    requires InBounds(from) && InArray(from) && IsColored(Get(b, from), white) && h in PawnTakes(b, from, white)
    ensures InBounds(h) && InArray(h) && !IsColored(Get(b, h), white)
  {
    hide Step, InBounds;
    InBoundsInArray(h);
  }

  /** A line to an empty hex still leads there when a piece has come to stand on it and none
      has come to stand before it. */
  lemma LineStays(b: Board, c: Board, p: Piece, from: Hex, v: Axial, t: Hex)
    requires OnLine(b, p, from, v, t) && InArray(t) && v != Axial(0, 0)
    requires OppositeColor(Get(c, t), p)
    requires forall h: Hex :: InArray(h) && h != t && Get(b, h) == EMPTY ==> Get(c, h) == EMPTY
    ensures OnLine(c, p, from, v, t)
  {
    hide Along, ToAxial;
    var k :| Reaches(b, p, from, v, k, t);
    forall j | 1 <= j < k
      ensures EmptyAt(c, Along(ToAxial(from), v, j))
    {
      var a := Along(ToAxial(from), v, j);
      assert EmptyAt(b, a);
      if FromAxial(a) == t {
        AxialOfHex(a);
        AlongInjective(ToAxial(from), v, j, k);
      }
    }
    assert Reaches(c, p, from, v, k, t);
  }

  lemma AxialOfHex(a: Axial)
    requires OnBoard(a)
    ensures ToAxial(FromAxial(a)) == a
  {
    RanksClosedForm(a.q);
  }

  lemma VectorsMove(i: nat)
    requires i < 12
    ensures KingVector(i) != Axial(0, 0)
  {
  }

  lemma AttackStays(b: Board, c: Board, white: bool, from: Hex, t: Hex)
    requires PieceAttacks(b, white, from, t) && InArray(t) && Get(b, t) == EMPTY
    requires IsColored(Get(c, t), !white) && Get(c, from) == Get(b, from)
    requires forall h: Hex :: InArray(h) && h != t && Get(b, h) == EMPTY ==> Get(c, h) == EMPTY
    ensures PieceAttacks(c, white, from, t)
  {
    hide PieceAttacks, OnLine, KingVector, KnightVector, PawnTakes, Follows;
    AttacksAreStrikes(b, white, from, t);
    AttacksAreStrikes(c, white, from, t);
    var p := Get(b, from);
    if IsSlider(p) {
      var i :| Follows(p, i) && 0 <= i < 12 && OnLine(b, p, from, KingVector(i), t);
      VectorsMove(i);
      LineStays(b, c, p, from, KingVector(i), t);
    } else if IsKnight(p) {
      var i :| 0 <= i < 12 && StepsOnto(b, p, from, KnightVector(i), {}, t);
      assert StepsOnto(c, p, from, KnightVector(i), {}, t);
    }
  }

  // ----- mates -----

  /** The hexes marked in the table of the other side. */
  function EnemyTable(b: Board, white: bool): set<Hex> {
    if white then Tables(b).blackAttacks else Tables(b).whiteAttacks
  }

  /** Where the mover's king stands after the move. */
  function KingAfter(b: Board, mv: Move): Hex
    requires FindKing(b, b.isWhiteTurn).Some?
  {
    var king := FindKing(b, b.isWhiteTurn).value;
    if mv.from == king then mv.to else king
  }

  /** After the move the mover's king is on no hex the other side attacks then. */
  predicate EndsCheck(b: Board, mv: Move)
    requires FindKing(b, b.isWhiteTurn).Some? && InArray(mv.from) && InArray(mv.to)
  {
    KingAfter(b, mv) !in EnemyTable(MovedBoard(b, mv), b.isWhiteTurn)
  }

  /** A move of another piece than the king, as the piece moves. */
  ghost predicate IsPieceReply(b: Board, mv: Move) {
    InArray(mv.from) && InArray(mv.to) && Offered(b, mv.from, mv.to) && (IsPromotion(b, mv) ==> NamesPromotion(mv.promotion))
  }

  /** A step of the king to any hex it may enter, attacked or not. */
  ghost predicate IsKingStep(b: Board, mv: Move)
    requires FindKing(b, b.isWhiteTurn).Some?
  {
    KingsFound(b);
    var king := FindKing(b, b.isWhiteTurn).value;
    InArray(mv.to) && mv.from == king && mv.to in Steps(b, king, KingOffsets(), {})
  }

  /** Some other piece has a move that ends the check. */
  ghost predicate PieceEndsCheck(b: Board) {
    FindKing(b, b.isWhiteTurn).Some? && exists mv :: IsPieceReply(b, mv) && EndsCheck(b, mv)
  }

  /** The king is attacked, and neither a move of another piece nor any step of its own ends that. */
  ghost predicate IsMate(b: Board) {
    && InCheck(b)
    && !PieceEndsCheck(b)
    && (KingsFound(b); forall mv :: IsKingStep(b, mv) ==> !EndsCheck(b, mv))
  }

  /** Some piece of the colour, its king apart, attacks the hex. */
  ghost predicate IsAttacked(b: Board, white: bool, h: Hex) { exists from :: PieceAttacks(b, white, from, h) }

  /** A piece of the other side, its king apart, attacks the king of the side to move. */
  ghost predicate AttackedByPiece(b: Board) {
    FindKing(b, b.isWhiteTurn).Some? && IsAttacked(b, !b.isWhiteTurn, FindKing(b, b.isWhiteTurn).value)
  }

  function MoverList(b: Board): seq<PieceMoves> { if b.isWhiteTurn then Tables(b).white else Tables(b).black }

  /** The king of the side to move is listed no destination. */
  predicate StuckKing(b: Board) { MoverList(b) != [] && Last(MoverList(b)).moves == [] }

  /** Check is exactly this: a piece of the other side attacks the king, or the other king is
      listed a step onto it. */
  lemma CheckIff(b: Board)
    ensures FindKing(b, false).Some? ==> Tables(b).black != []
    ensures FindKing(b, true).Some? ==> Tables(b).white != []
    ensures InCheck(b) <==>
              && FindKing(b, b.isWhiteTurn).Some?
              && (AttackedByPiece(b)
                  || (b.isWhiteTurn && FindKing(b, false).Some? && FindKing(b, true).value in Last(Tables(b).black).moves)
                  || (!b.isWhiteTurn && FindKing(b, true).Some? && FindKing(b, false).value in Last(Tables(b).white).moves))
  {
    hide Tables, FindKing, PieceAttacks;
    TablesAreAttacks(b);
  }

  // ----- the king's own steps -----

  lemma {:induction false} SameKingsFrom(b: Board, c: Board, white: bool, i: nat)
    requires i <= HEXES
    requires forall h: Hex :: InArray(h) ==> (Get(b, h) == King(white) <==> Get(c, h) == King(white))
    ensures FindKingFrom(b, white, i) == FindKingFrom(c, white, i)
    decreases HEXES - i
  {
    hide HexAt;
    if i < HEXES {
      InBoundsInArray(HexAt(i));
      SameKingsFrom(b, c, white, i + 1);
    }
  }

  /** The king's entry lists exactly those of its steps that are not barred. */
  lemma KingListed(b: Board, king: Hex, barred: set<Hex>, t: Hex)
    requires InBounds(king)
    ensures t in KingEntry(b, king, barred).moves <==> t in Steps(b, king, KingOffsets(), {}) && t !in barred
  {
    hide KingVector, KnightVector, Steps, Plus, ToAxial;
    InBoundsInArray(king);
    StepMovesExact(b, king, barred);
    StepMovesExact(b, king, {});
    if i :| 0 <= i < 12 && StepsOnto(b, Get(b, king), king, KingVector(i), {}, t) && t !in barred {
      assert StepsOnto(b, Get(b, king), king, KingVector(i), barred, t);
    }
    if i :| 0 <= i < 12 && StepsOnto(b, Get(b, king), king, KingVector(i), barred, t) {
      assert StepsOnto(b, Get(b, king), king, KingVector(i), {}, t);
    }
  }

  lemma KingStepIsEnterable(b: Board, king: Hex, t: Hex)
    requires InBounds(king) && InArray(king) && t in Steps(b, king, KingOffsets(), {})
    ensures InBounds(t) && Enterable(b, Get(b, king), t)
  {
    hide KingVector, KnightVector, Steps, Plus, ToAxial;
    StepMovesExact(b, king, {});
  }

  /** A hex the other side's pieces attack is attacked still when the king has stepped there. */
  lemma AttackedStepStays(b: Board, mv: Move)
    requires FindKing(b, b.isWhiteTurn).Some? && IsKingStep(b, mv)
    requires mv.to in Attacks(b, !b.isWhiteTurn)
    ensures InArray(mv.from) && mv.to in Attacks(MovedBoard(b, mv), !b.isWhiteTurn)
  {
    hide PieceAttacks, Attacks, FindKing, Steps, MovedBoard;
    KingsFound(b);
    var white := b.isWhiteTurn;
    KingStepIsEnterable(b, mv.from, mv.to);
    AttacksAre(b, !white, mv.to);
    var from :| PieceAttacks(b, !white, from, mv.to);
    AttackedIsNotOwn(b, !white, from, mv.to);
    AttackerIsThere(b, !white, from, mv.to);
    var c := MovedBoard(b, mv);
    forall h: Hex | InArray(h)
      ensures Get(c, h) == if h == mv.to then King(white) else if h == mv.from then EMPTY else Get(b, h)
    {
      MovedCells(b, mv, h);
    }
    AttackStays(b, c, !white, from, mv.to);
    AttacksAre(c, !white, mv.to);
  }

  lemma AttackerIsThere(b: Board, white: bool, from: Hex, h: Hex)
    requires PieceAttacks(b, white, from, h)
    ensures InArray(from) && IsColored(Get(b, from), white)
  {
  }

  /** A hex the white king may step to is one it may still step to, and takes on, when the black
      king has stepped there. */
  lemma StepBesideWhiteKingStays(b: Board, mv: Move, wk: Hex)
    requires FindKing(b, b.isWhiteTurn).Some? && IsKingStep(b, mv) && !b.isWhiteTurn
    requires FindKing(b, true) == Some(wk) && InBounds(wk) && mv.to in KingEntry(b, wk, Attacks(b, false)).moves
    ensures InArray(mv.from) && FindKing(MovedBoard(b, mv), true) == Some(wk)
    ensures mv.to in KingEntry(MovedBoard(b, mv), wk, Attacks(MovedBoard(b, mv), false)).moves
  {
    hide PieceAttacks, Attacks, Steps, MovedBoard, FindKing, KingEntry;
    KingsFound(b);
    KingStepIsEnterable(b, mv.from, mv.to);
    KingListed(b, wk, Attacks(b, false), mv.to);
    InBoundsInArray(wk);
    KingStepIsEnterable(b, wk, mv.to);
    var c := MovedBoard(b, mv);
    forall h: Hex | InArray(h)
      ensures Get(c, h) == if h == mv.to then BLACK_KING else if h == mv.from then EMPTY else Get(b, h)
    {
      MovedCells(b, mv, h);
    }
    SameKings(b, c, true);
    KingStepStays(b, c, wk, mv.to);
    if mv.to in Attacks(c, false) {
      AttacksAre(c, false, mv.to);
      var from :| PieceAttacks(c, false, from, mv.to);
      AttackedIsNotOwn(c, false, from, mv.to);
      assert false;
    }
    KingListed(c, wk, Attacks(c, false), mv.to);
  }

  lemma SameKings(b: Board, c: Board, white: bool)
    requires forall h: Hex :: InArray(h) ==> (Get(b, h) == King(white) <==> Get(c, h) == King(white))
    ensures FindKing(b, white) == FindKing(c, white)
  {
    SameKingsFrom(b, c, white, 0);
  }

  lemma KingStepStays(b: Board, c: Board, king: Hex, t: Hex)
    requires InBounds(king) && InArray(king) && t in Steps(b, king, KingOffsets(), {})
    requires Get(c, king) == Get(b, king) && InArray(t) && OppositeColor(Get(c, t), Get(c, king))
    ensures t in Steps(c, king, KingOffsets(), {})
  {
    hide KingVector, KnightVector, Steps, Plus, ToAxial;
    StepMovesExact(b, king, {});
    StepMovesExact(c, king, {});
    var i :| 0 <= i < 12 && StepsOnto(b, Get(b, king), king, KingVector(i), {}, t);
    assert StepsOnto(c, Get(c, king), king, KingVector(i), {}, t);
  }

  /** What the king of the side to move is listed, and what is barred to it. */
  lemma MoverKing(b: Board)
    requires FindKing(b, b.isWhiteTurn).Some?
    ensures InBounds(FindKing(b, b.isWhiteTurn).value) && InArray(FindKing(b, b.isWhiteTurn).value)
    ensures Get(b, FindKing(b, b.isWhiteTurn).value) == King(b.isWhiteTurn)
    ensures FindKing(b, true).Some? ==> InBounds(FindKing(b, true).value)
    ensures var king, wk := FindKing(b, b.isWhiteTurn).value, FindKing(b, true);
            var barred := if b.isWhiteTurn then Attacks(b, false) else WithKingAttacks(b, Attacks(b, true), wk, Attacks(b, false));
            MoverList(b) != [] && Last(MoverList(b)) == KingEntry(b, king, barred)
  {
    hide Pieces, Attacks, TestedKingAttacked, FindKing, KingEntry;
    KingsFound(b);
  }

  lemma EnemyTableHolds(c: Board, white: bool, h: Hex)
    ensures FindKing(c, true).Some? ==> InBounds(FindKing(c, true).value)
    ensures h in Attacks(c, !white) ==> h in EnemyTable(c, white)
    ensures !white && FindKing(c, true).Some? && h in KingEntry(c, FindKing(c, true).value, Attacks(c, false)).moves ==>
              h in EnemyTable(c, white)
  {
    hide Pieces, Attacks, TestedKingAttacked, FindKing, KingEntry;
    KingsFound(c);
  }

  /** A step the king is not listed would leave it attacked: what bars a hex bars it still when
      the king is there. */
  lemma UnlistedStepKeepsCheck(b: Board, mv: Move)
    requires FindKing(b, b.isWhiteTurn).Some? && IsKingStep(b, mv)
    requires MoverList(b) != [] && mv.to !in Last(MoverList(b)).moves
    ensures InArray(mv.from) && !EndsCheck(b, mv)
  {
    hide Attacks, FindKing, Steps, MovedBoard, KingEntry, MoverList, EnemyTable;
    MoverKing(b);
    var white, king, wk := b.isWhiteTurn, FindKing(b, b.isWhiteTurn).value, FindKing(b, true);
    EnemyTableHolds(MovedBoard(b, mv), white, mv.to);
    if mv.to in Attacks(b, !white) {
      AttackedStepStays(b, mv);
    } else if !white && wk.Some? && mv.to in KingEntry(b, wk.value, Attacks(b, false)).moves {
      StepBesideWhiteKingStays(b, mv, wk.value);
    } else {
      KingListed(b, king, if white then Attacks(b, false) else WithKingAttacks(b, Attacks(b, true), wk, Attacks(b, false)), mv.to);
      assert false;
    }
  }

  // ----- the report -----

  /** Not attacked by a piece, the side has the entries of all its pieces. */
  lemma OfferedIsListed(b: Board, mv: Move) returns (j: nat)
    requires FindKing(b, b.isWhiteTurn).Some? && !AttackedByPiece(b) && Offered(b, mv.from, mv.to)
    ensures j < |MoverList(b)| && mv.to in MoverList(b)[j].moves
  {
    hide Generate, HexAt, PiecesTo, FindKing, PieceAttacks, Tables;
    var white, king := b.isWhiteTurn, FindKing(b, b.isWhiteTurn).value;
    AttacksAre(b, !white, king);
    UncheckedList(b);
    j := GeneratedHasEntry(b, white, HEXES, IndexOf(mv.from));
    assert MoverList(b)[j] == Pieces(b, white)[j];
  }

  lemma UncheckedList(b: Board)
    requires FindKing(b, b.isWhiteTurn).Some? && FindKing(b, b.isWhiteTurn).value !in Attacks(b, !b.isWhiteTurn)
    ensures var pieces := Pieces(b, b.isWhiteTurn);
            |pieces| <= |MoverList(b)| && MoverList(b)[..|pieces|] == pieces
  {
    hide Pieces, Attacks, FindKing, KingEntry, WithKingAttacks;
    KingsFound(b);
  }

  lemma ReportedMate(b: Board)
    ensures IsCheckmate(Start(b)) <==> InCheck(b) && NoMoves(MoverList(b))
  {
    hide Tables;
  }

  /** A reported checkmate is none exactly if a piece attacks the king, the king has no listed
      step, and a move of another piece ends the check. */
  lemma FalseMateIff(b: Board)
    ensures IsCheckmate(Start(b)) && !IsMate(b) <==> AttackedByPiece(b) && StuckKing(b) && PieceEndsCheck(b)
  {
    hide Tables, FindKing, Offered, IsKingStep, EndsCheck, InCheck, AttackedByPiece;
    ReportedMate(b);
    if IsCheckmate(Start(b)) && !IsMate(b) {
      InCheckHasKing(b);
      MoverKing(b);
      forall mv | IsKingStep(b, mv)
        ensures InArray(mv.from) && InArray(mv.to) && !EndsCheck(b, mv)
      {
        StepOfKing(b, mv);
        UnlistedStepKeepsCheck(b, mv);
      }
      var mv :| IsPieceReply(b, mv) && EndsCheck(b, mv);
      if !AttackedByPiece(b) {
        var j := OfferedIsListed(b, mv);
        assert false;
      }
    }
    if AttackedByPiece(b) && StuckKing(b) { StuckIsReported(b); }
  }

  lemma InCheckHasKing(b: Board)
    requires InCheck(b)
    ensures FindKing(b, b.isWhiteTurn).Some?
  {
  }

  lemma StepOfKing(b: Board, mv: Move)
    requires FindKing(b, b.isWhiteTurn).Some? && IsKingStep(b, mv)
    ensures mv.from == FindKing(b, b.isWhiteTurn).value && InArray(mv.to)
  {
  }

  lemma StuckIsReported(b: Board)
    requires AttackedByPiece(b) && StuckKing(b)
    ensures IsCheckmate(Start(b))
  {
    hide Tables, FindKing, PieceAttacks;
    var attacker :| PieceAttacks(b, !b.isWhiteTurn, attacker, FindKing(b, b.isWhiteTurn).value);
    MateIsStuckKing(Fresh(b), attacker);
  }

  /** Every move of another piece is refused then, whether it ends the check or not. */
  lemma ReplyToPieceIsRefused(b: Board, mv: Move)
    requires AttackedByPiece(b) && Offered(b, mv.from, mv.to)
    ensures Violation(Start(b), mv).Some?
  {
    hide Tables, FindKing, PieceAttacks, Generate, IsPromotion;
    var king := FindKing(b, b.isWhiteTurn).value;
    var attacker :| PieceAttacks(b, !b.isWhiteTurn, attacker, king);
    CheckedSideHasKingOnly(b, attacker);
    MoverKing(b);
    KingsAreNotOffered(b, mv.from, mv.to);
    StartBoard(b);
  }

  lemma KingsAreNotOffered(b: Board, from: Hex, to: Hex)
    requires Offered(b, from, to)
    ensures InArray(from) && !IsKing(Get(b, from))
  {
    hide Travel, Steps, PawnAdvances, PawnTakes;
    InBoundsInArray(from);
  }

  /** A mate goes unreported exactly if the king is attacked, the side has listed moves, all the
      king's listed steps lead onto attacked hexes, and no move of another piece ends the check. */
  lemma MissedMateIff(b: Board)
    ensures InCheck(b) ==> FindKing(b, b.isWhiteTurn).Some? && MoverList(b) != []
    ensures !IsCheckmate(Start(b)) && IsMate(b) <==>
              && InCheck(b) && !NoMoves(MoverList(b)) && !PieceEndsCheck(b)
              && (KingsFound(b); forall mv :: IsKingStep(b, mv) && mv.to in Last(MoverList(b)).moves ==> !EndsCheck(b, mv))
  {
    hide Tables, FindKing, InCheck, IsKingStep, EndsCheck, PieceEndsCheck, MoverList, IsCheckmate;
    ReportedMate(b);
    if InCheck(b) {
      InCheckHasKing(b);
      MoverKing(b);
      forall mv | IsKingStep(b, mv) && mv.to !in Last(MoverList(b)).moves
        ensures InArray(mv.from) && InArray(mv.to) && !EndsCheck(b, mv)
      {
        StepOfKing(b, mv);
        UnlistedStepKeepsCheck(b, mv);
      }
    }
  }

  lemma UnstuckHasMoves(b: Board)
    requires MoverList(b) != [] && !StuckKing(b)
    ensures !NoMoves(MoverList(b))
  {
    hide Tables;
    assert Last(MoverList(b)).moves != [];
  }

  lemma CheckByPiece(b: Board)
    requires AttackedByPiece(b)
    ensures InCheck(b)
  {
    hide Tables, FindKing, PieceAttacks;
    TablesAreAttacks(b);
  }
}
