/** Which moves are accepted, of kings and in check too. */
module Legality {
  import opened Wrappers
  import opened HexGrid
  import opened Offsets
  import opened ChessBoard
  import opened MoveGen
  import opened GameStates
  import opened KingSafety
  import opened Play
  import opened Positions
  import opened Checkmates

  /** The hexes barred to the mover's king when its steps are generated. */
  function Barred(b: Board): set<Hex> {
    KingsFound(b);
    if b.isWhiteTurn then Attacks(b, false) else WithKingAttacks(b, Attacks(b, true), FindKing(b, true), Attacks(b, false))
  }

  /** The entries of the mover's pieces: none in check. */
  function PieceEntries(b: Board): seq<PieceMoves> {
    if TestedKingAttacked(b) then [] else Pieces(b, b.isWhiteTurn)
  }

  lemma MoverListIs(b: Board)
    ensures forall white: bool :: FindKing(b, white).Some? ==> InBounds(FindKing(b, white).value)
    ensures var king := FindKing(b, b.isWhiteTurn);
            MoverList(b) == PieceEntries(b) + (if king.None? then [] else [KingEntry(b, king.value, Barred(b))])
  {
    hide Pieces, Attacks, TestedKingAttacked, FindKing, KingEntry;
    KingsFound(b);
  }

  /** The test for check looks at the mover's king: without one there is no check. */
  lemma TestIsOfMover(b: Board)
    ensures TestedKingAttacked(b) <==> AttackedByPiece(b)
  {
    hide Attacks, FindKing, PieceAttacks;
    KingsFound(b);
    var king := FindKing(b, b.isWhiteTurn);
    if king.Some? { AttacksAre(b, !b.isWhiteTurn, king.value); }
    var bk := FindKing(b, false);
    if b.isWhiteTurn && king.None? && bk.Some? && bk.value in Attacks(b, false) {
      AttacksAre(b, false, bk.value);
      var from :| PieceAttacks(b, false, from, bk.value);
      AttackedIsNotOwn(b, false, from, bk.value);
      assert false;
    }
  }

  lemma PieceEntryIsGenerated(b: Board, j: nat)
    requires j < |PieceEntries(b)|
    ensures var e := PieceEntries(b)[j];
            && InBounds(e.from) && InArray(e.from) && !IsKing(Get(b, e.from))
            && forall to :: Offered(b, e.from, to) <==> to in e.moves
  {
    hide PiecesTo, Generate, TestedKingAttacked;
    EntriesAreGenerated(b, b.isWhiteTurn, HEXES, j);
    GeneratedIsNoKing(b, PieceEntries(b)[j].from);
  }

  lemma GeneratedIsNoKing(b: Board, from: Hex)
    requires InBounds(from) && Generate(b, from, b.isWhiteTurn).Generated?
    ensures InArray(from) && !IsKing(Get(b, from))
  {
    hide Travel, Steps, PawnAdvances, PawnTakes;
    InBoundsInArray(from);
  }

  lemma OfferedHasEntry(b: Board, from: Hex, to: Hex) returns (j: nat)
    requires Offered(b, from, to) && !TestedKingAttacked(b)
    ensures j < |PieceEntries(b)| && PieceEntries(b)[j].from == from
  {
    hide PiecesTo, Generate, TestedKingAttacked, HexAt;
    j := GeneratedHasEntry(b, b.isWhiteTurn, HEXES, IndexOf(from));
    GeneratedFrom(b, from, b.isWhiteTurn);
  }

  /** What the search for the mover's entry finds. */
  lemma DestinationIff(b: Board, from: Hex, to: Hex)
    ensures FindKing(b, b.isWhiteTurn).Some? ==> InBounds(FindKing(b, b.isWhiteTurn).value)
    ensures var list, king := MoverList(b), FindKing(b, b.isWhiteTurn);
            var k := EntryFrom(list, from, 0);
            k.Some? && to in list[k.value].moves
            <==> (Offered(b, from, to) && !TestedKingAttacked(b))
                 || (king == Some(from) && to in KingEntry(b, from, Barred(b)).moves)
  {
    hide MoverList, PieceEntries, FindKing, KingEntry, Barred, EntryFrom, Offered, TestedKingAttacked;
    MoverListIs(b);
    KingsFound(b);
    var pieces, list, king := PieceEntries(b), MoverList(b), FindKing(b, b.isWhiteTurn);
    var k := EntryFrom(list, from, 0);
    KingEntryFrom(b);
    if k.Some? && k.value < |pieces| { PieceEntryIsGenerated(b, k.value); }
    if TestedKingAttacked(b) { NoEntries(b); }
    if Offered(b, from, to) && !TestedKingAttacked(b) {
      var j := OfferedHasEntry(b, from, to);
      FirstEntry(list, from, 0, j);
      assert list[k.value] == pieces[k.value];
    }
    if king == Some(from) { FirstEntry(list, from, 0, |pieces|); }
  }

  lemma KingEntryFrom(b: Board)
    ensures forall at, barred :: InBounds(at) ==> KingEntry(b, at, barred).from == at
  {
  }

  lemma NoEntries(b: Board)
    requires TestedKingAttacked(b)
    ensures PieceEntries(b) == []
  {
  }

  /** What bars a hex to the mover's king is the other side's final table. */
  lemma BarredIsEnemyTable(b: Board, king: Hex, t: Hex)
    requires FindKing(b, b.isWhiteTurn) == Some(king) && InBounds(king) && t in Steps(b, king, KingOffsets(), {})
    ensures t in Barred(b) <==> t in EnemyTable(b, b.isWhiteTurn)
  {
    hide Pieces, Attacks, FindKing, TestedKingAttacked, Steps, KingEntry;
    KingsFound(b);
    var bk := FindKing(b, false);
    KingListed(b, king, Attacks(b, false), t);
    if b.isWhiteTurn && bk.Some? {
      KingListed(b, bk.value, WithKingAttacks(b, Attacks(b, true), Some(king), Attacks(b, false)), t);
    }
  }

  /** Exactly the accepted moves: unless a piece attacks the mover's king, a move of another
      piece as the piece goes; and always a step of the king onto a hex it may enter that the
      other side's table does not mark. A promotion has to be named. */
  lemma AcceptedExactly(g: GameState, mv: Move)
    requires Regenerated(g)
    ensures FindKing(g.board, g.board.isWhiteTurn).Some? ==> InBounds(FindKing(g.board, g.board.isWhiteTurn).value)
    ensures var b := g.board;
            Violation(g, mv).None? <==>
              && InBounds(mv.from) && InArray(mv.from)
              && (IsPromotion(b, mv) ==> NamesPromotion(mv.promotion))
              && ((!AttackedByPiece(b) && IsColored(Get(b, mv.from), b.isWhiteTurn) && Goes(b, mv.from, mv.to))
                  || (FindKing(b, b.isWhiteTurn) == Some(mv.from)
                      && mv.to in Steps(b, mv.from, KingOffsets(), {}) && mv.to !in EnemyTable(b, b.isWhiteTurn)))
  {
    hide Tables, FindKing, Goes, Steps, AttackedByPiece, TestedKingAttacked, Barred, EnemyTable, KingEntry, EntryFrom, MoverList;
    hide Offered, IsPromotion;
    var b := g.board;
    KingsFound(b);
    DestinationIff(b, mv.from, mv.to);
    TestIsOfMover(b);
    OfferedIsGoes(b, mv.from, mv.to);
    CurrIsMoverList(g);
    if FindKing(b, b.isWhiteTurn) == Some(mv.from) {
      KingListed(b, mv.from, Barred(b), mv.to);
      if mv.to in Steps(b, mv.from, KingOffsets(), {}) {
        BarredIsEnemyTable(b, mv.from, mv.to);
        KingStepIsEnterable(b, mv.from, mv.to);
        NotOntoItself(b, mv.from, mv.to);
      }
    }
    if Offered(b, mv.from, mv.to) { OfferedIsTarget(b, mv.from, mv.to); }
  }

  lemma NotOntoItself(b: Board, king: Hex, to: Hex)
    requires InArray(king) && IsKing(Get(b, king)) && InArray(to) && (Get(b, to) == EMPTY || OppositeColor(Get(b, to), Get(b, king)))
    ensures king != to
  {
  }

  lemma CurrIsMoverList(g: GameState)
    requires Regenerated(g)
    ensures g.CurrMoves() == MoverList(g.board)
  {
    hide Tables;
  }

  /** A refused move is refused for the first of these reasons: it goes nowhere; it leaves the
      board; a promotion is not named; nothing of the mover's stands there that is listed; or
      what stands there does not go there. */
  lemma RefusedBecause(g: GameState, mv: Move)
    requires Regenerated(g)
    ensures var b, v := g.board, Violation(g, mv);
            var lists := InBounds(mv.from) && InArray(mv.from)
              && ((!AttackedByPiece(b) && IsColored(Get(b, mv.from), b.isWhiteTurn) && IsKnown(Get(b, mv.from)) && !IsKing(Get(b, mv.from)))
                  || FindKing(b, b.isWhiteTurn) == Some(mv.from));
            && (v == Some(Noop) <==> mv.from == mv.to)
            && (v == Some(OutOfBounds) <==> mv.from != mv.to && !(InBounds(mv.from) && InBounds(mv.to)))
            && (v == Some(InvalidPromotion) ==> InArray(mv.from) && IsPromotion(b, mv) && !NamesPromotion(mv.promotion))
            && (v == Some(IllegalTarget) ==> !lists)
            && (v == Some(IllegalDestination) ==> lists)
  {
    hide Tables, FindKing, AttackedByPiece, TestedKingAttacked, Barred, KingEntry, MoverList, Offered, IsPromotion, PieceEntries;
    var b := g.board;
    CurrIsMoverList(g);
    if InBounds(mv.from) { EntryExistsIff(b, mv.from); }
  }

  /** A hex has an entry if one of the mover's pieces stands on it, its king apart unless a piece
      gives check to it. */
  lemma EntryExistsIff(b: Board, from: Hex)
    requires InBounds(from)
    ensures InArray(from)
    ensures EntryFrom(MoverList(b), from, 0).Some? <==>
              (!AttackedByPiece(b) && IsColored(Get(b, from), b.isWhiteTurn) && IsKnown(Get(b, from)) && !IsKing(Get(b, from)))
              || FindKing(b, b.isWhiteTurn) == Some(from)
  {
    hide MoverList, PieceEntries, FindKing, KingEntry, Barred, TestedKingAttacked, AttackedByPiece;
    InBoundsInArray(from);
    MoverListIs(b);
    KingsFound(b);
    TestIsOfMover(b);
    KingEntryFrom(b);
    var pieces, list, king := PieceEntries(b), MoverList(b), FindKing(b, b.isWhiteTurn);
    var k := EntryFrom(list, from, 0);
    if k.Some? && k.value < |pieces| { EntryIsOfPiece(b, k.value); }
    if TestedKingAttacked(b) { NoEntries(b); }
    if !TestedKingAttacked(b) && IsColored(Get(b, from), b.isWhiteTurn) && IsKnown(Get(b, from)) && !IsKing(Get(b, from)) {
      var j := PieceHasEntry(b, from);
      FirstEntry(list, from, 0, j);
    }
    if king == Some(from) { FirstEntry(list, from, 0, |pieces|); }
  }

  lemma EntryIsOfPiece(b: Board, j: nat)
    requires j < |PieceEntries(b)|
    ensures var from := PieceEntries(b)[j].from;
            && InBounds(from) && InArray(from)
            && IsColored(Get(b, from), b.isWhiteTurn) && IsKnown(Get(b, from)) && !IsKing(Get(b, from))
  {
    hide PiecesTo, Generate, TestedKingAttacked;
    EntriesAreGenerated(b, b.isWhiteTurn, HEXES, j);
    GeneratedIff(b, PieceEntries(b)[j].from);
  }

  lemma PieceHasEntry(b: Board, from: Hex) returns (j: nat)
    requires !TestedKingAttacked(b) && InBounds(from) && InArray(from)
    requires IsColored(Get(b, from), b.isWhiteTurn) && IsKnown(Get(b, from)) && !IsKing(Get(b, from))
    ensures j < |PieceEntries(b)| && PieceEntries(b)[j].from == from
  {
    hide PiecesTo, Generate, TestedKingAttacked, HexAt;
    GeneratedIff(b, from);
    j := GeneratedHasEntry(b, b.isWhiteTurn, HEXES, IndexOf(from));
    GeneratedFrom(b, from, b.isWhiteTurn);
  }

  lemma GeneratedIff(b: Board, from: Hex)
    requires InBounds(from)
    ensures InArray(from)
    ensures Generate(b, from, b.isWhiteTurn).Generated? <==>
              IsColored(Get(b, from), b.isWhiteTurn) && IsKnown(Get(b, from)) && !IsKing(Get(b, from))
  {
    hide Travel, Steps, PawnAdvances, PawnTakes;
    InBoundsInArray(from);
  }

  // ----- promotions -----

  /** The hex ends its file for the colour. */
  predicate IsLastRank(h: Hex, white: bool) {
    if white then h.rank == 10 - (if h.file < 5 then 5 - h.file else h.file - 5) else h.rank == 0
  }

  /** After an accepted move its hex is left empty and the piece stands on the other one: itself,
      or, a pawn on its last rank, the piece of its colour that the promotion names. */
  lemma PieceLands(g: GameState, mv: Move)
    requires Regenerated(g) && Violation(g, mv).None?
    ensures InArray(mv.from) && InArray(mv.to)
    ensures var b, after, white := g.board, Played(g, mv).board, g.board.isWhiteTurn;
            var p, q := Get(b, mv.from), Get(after, mv.to);
            && Get(after, mv.from) == EMPTY && after.isWhiteTurn == !white
            && (!IsPawn(p) || !IsLastRank(mv.to, white) ==> q == p)
            && (IsPawn(p) && IsLastRank(mv.to, white) ==>
                  || (mv.promotion == QUEEN_PROMOTION && q == (if white then WHITE_QUEEN else BLACK_QUEEN))
                  || (mv.promotion == ROOK_PROMOTION && q == (if white then WHITE_ROOK else BLACK_ROOK))
                  || (mv.promotion == BISHOP_PROMOTION && q == (if white then WHITE_BISHOP else BLACK_BISHOP))
                  || (mv.promotion == KNIGHT_PROMOTION && q == (if white then WHITE_KNIGHT else BLACK_KNIGHT)))
  {
    hide Tables, Violation, MovedBoard;
    AcceptedMove(g, mv);
    InBoundsInArray(mv.from);
    RanksClosedForm(mv.to.file);
    BoardAfter(g, mv);
    MovedCells(g.board, mv, mv.to);
    MovedCells(g.board, mv, mv.from);
  }

  lemma BoardAfter(g: GameState, mv: Move)
    requires Violation(g, mv).None?
    ensures InArray(mv.from) && InArray(mv.to) && Played(g, mv).board == MovedBoard(g.board, mv)
  {
    hide Tables, Violation, MovedBoard, HistOf;
    AcceptedBounds(g, mv);
  }

  lemma AcceptedBounds(g: GameState, mv: Move)
    requires Violation(g, mv).None?
    ensures InBounds(mv.from) && InBounds(mv.to) && InArray(mv.from) && InArray(mv.to)
  {
    InBoundsInArray(mv.from);
    InBoundsInArray(mv.to);
  }

  /** A capture is added at the end of the list of the other colour's taken pieces, and the move
      at the end of the history: the piece as it stood, the two hexes, and the promotion if the
      piece was promoted. */
  lemma MoveIsRecorded(g: GameState, mv: Move)
    requires Regenerated(g) && Violation(g, mv).None?
    ensures InArray(mv.from) && InArray(mv.to)
    ensures var b, after := g.board, Played(g, mv);
            var captured, white := Get(b, mv.to), g.board.isWhiteTurn;
            var promotes := IsPawn(Get(b, mv.from)) && IsLastRank(mv.to, white);
            && after.moves == g.moves + [HistMove(Get(b, mv.from), mv.from, mv.to, if promotes then mv.promotion else NO_PROMOTION)]
            && after.takenWhite == (if captured != EMPTY && !white then g.takenWhite + [captured] else g.takenWhite)
            && after.takenBlack == (if captured != EMPTY && white then g.takenBlack + [captured] else g.takenBlack)
  {
    hide Tables, Violation, MovedBoard;
    AcceptedMove(g, mv);
    AcceptedBounds(g, mv);
    RanksClosedForm(mv.to.file);
  }
}
