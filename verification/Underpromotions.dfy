/** A game in which a pawn is promoted to a knight: stored promotions do get lost. */
module Underpromotions {
  import opened Wrappers
  import opened HexGrid
  import opened ChessBoard
  import opened MoveGen
  import opened GameStates
  import opened Play
  import opened Positions
  import opened Replay
  import opened Serde

  /** A white pawn below its last rank, a black pawn in the middle, and nothing else. */
  ghost predicate IsTwoPawns(b: Board) {
    && b.isWhiteTurn
    && forall h: Hex :: InArray(h) ==>
         Get(b, h) == if h == Hex(0, 4) then WHITE_PAWN else if h == Hex(5, 5) then BLACK_PAWN else EMPTY
  }

  lemma TwoPawns() returns (b: Board)
    ensures IsTwoPawns(b)
  {
    var places := map[Hex(0, 4) := WHITE_PAWN, Hex(5, 5) := BLACK_PAWN];
    PlacedCells(true, places);
    b := Placed(true, places);
  }

  lemma PawnIsOffered(b: Board, from: Hex, to: Hex)
    requires InBounds(from) && InArray(from) && InBounds(to) && InArray(to)
    requires Get(b, from) == (if b.isWhiteTurn then WHITE_PAWN else BLACK_PAWN)
    requires to == Step(from, Ahead(b.isWhiteTurn)) && Get(b, to) == EMPTY
    ensures Offered(b, from, to)
  {
    hide Step, InBounds, HasPawnMoved, PawnTakes;
  }

  /** The board after the promotion: a knight on the last rank, black to move. */
  lemma AfterPromotion(b: Board, first: Move, reply: Move)
    requires IsTwoPawns(b) && first == Move(Hex(0, 4), Hex(0, 5), KNIGHT_PROMOTION)
    requires reply == Move(Hex(5, 5), Hex(5, 4), NO_PROMOTION)
    ensures IsPromotion(b, first)
    ensures var after := MovedBoard(b, first);
            && !after.isWhiteTurn && Get(after, reply.from) == BLACK_PAWN && Get(after, reply.to) == EMPTY
            && !IsPromotion(after, reply)
            && forall h: Hex :: InArray(h) ==> Get(after, h) != WHITE_KING && Get(after, h) != BLACK_KING
  {
    hide MovedBoard;
    var after := MovedBoard(b, first);
    MovedCells(b, first, reply.from);
    MovedCells(b, first, reply.to);
    forall h: Hex | InArray(h)
      ensures Get(after, h) != WHITE_KING && Get(after, h) != BLACK_KING
    {
      MovedCells(b, first, h);
    }
  }

  lemma FirstIsAccepted(b: Board, first: Move)
    requires IsTwoPawns(b) && first == Move(Hex(0, 4), Hex(0, 5), KNIGHT_PROMOTION)
    ensures Violation(Start(b), first).None? && WellFormed(b) && NoStrandedPawns(b)
  {
    hide Offered, TestedKingAttacked, Violation, Start;
    NoKingsNoCheck(b);
    PawnIsOffered(b, first.from, first.to);
    OfferedIsAccepted(b, first);
  }

  /** A refusal depends on the board and the mover's list alone. */
  lemma SameViolation(g: GameState, h: GameState, mv: Move)
    requires g.board == h.board && g.CurrMoves() == h.CurrMoves()
    ensures Violation(g, mv) == Violation(h, mv)
  {
  }

  lemma ReplyFromAfter(after: Board, reply: Move)
    requires reply == Move(Hex(5, 5), Hex(5, 4), NO_PROMOTION)
    requires !after.isWhiteTurn && Get(after, reply.from) == BLACK_PAWN && Get(after, reply.to) == EMPTY
    requires !IsPromotion(after, reply)
    requires forall h: Hex :: InArray(h) ==> Get(after, h) != WHITE_KING && Get(after, h) != BLACK_KING
    ensures Violation(Start(after), reply).None?
  {
    hide Offered, TestedKingAttacked, Violation, IsPromotion, Start;
    NoKingsNoCheck(after);
    PawnIsOffered(after, reply.from, reply.to);
    OfferedIsAccepted(after, reply);
  }

  lemma ReplyIsAccepted(b: Board, first: Move, reply: Move)
    requires IsTwoPawns(b) && first == Move(Hex(0, 4), Hex(0, 5), KNIGHT_PROMOTION)
    requires reply == Move(Hex(5, 5), Hex(5, 4), NO_PROMOTION)
    requires Violation(Start(b), first).None?
    ensures Violation(Played(Start(b), first), reply).None?
  {
    hide IsTwoPawns, Violation, MovedBoard, IsPromotion, Played, Start;
    var after := MovedBoard(b, first);
    AfterPromotion(b, first, reply);
    ReplyFromAfter(after, reply);
    PlayedLists(b, first);
    StartBoard(after);
    SameViolation(Played(Start(b), first), Start(after), reply);
  }

  lemma PlayedLists(b: Board, mv: Move)
    requires Violation(Start(b), mv).None?
    ensures InArray(mv.from) && InArray(mv.to)
    ensures Played(Start(b), mv).board == MovedBoard(b, mv)
    ensures Played(Start(b), mv).CurrMoves() == Start(MovedBoard(b, mv)).CurrMoves()
  {
    hide Tables, Violation, MovedBoard, HistOf;
    AcceptedIsInBounds(Start(b), mv);
  }

  /** There are games with an underpromotion, and with an accepted move after it. */
  lemma UnderpromotionIsPlayed() returns (b: Board, mvs: seq<Move>, reply: Move)
    ensures WellFormed(b) && NoStrandedPawns(b)
    ensures |mvs| == 1 && PlayedAll(Start(b), mvs).Some? && !OnlyQueens(PlayedAll(Start(b), mvs).value.moves)
    ensures Violation(PlayedAll(Start(b), mvs).value, reply).None?
  {
    hide IsTwoPawns, Violation, Tables, WellFormed, NoStrandedPawns;
    b := TwoPawns();
    var first := Move(Hex(0, 4), Hex(0, 5), KNIGHT_PROMOTION);
    reply := Move(Hex(5, 5), Hex(5, 4), NO_PROMOTION);
    FirstIsAccepted(b, first);
    ReplyIsAccepted(b, first, reply);
    mvs := [first];
    FirstPlayed(Start(b), mvs);
    AfterPromotion(b, first, reply);
    PlayedMoves(Start(b), first);
    assert Start(b).moves == [] && Start(b).board == b;
    assert IsUnderpromotion(PlayedAll(Start(b), mvs).value.moves[0]);
  }

  lemma FirstPlayed(g: GameState, mvs: seq<Move>)
    requires |mvs| == 1 && Violation(g, mvs[0]).None?
    ensures PlayedAll(g, mvs) == Some(Played(g, mvs[0]))
  {
    hide Violation, Played;
    assert mvs[..0] == [];
    NothingPlayed(g, mvs[..0]);
  }

  lemma NothingPlayed(g: GameState, mvs: seq<Move>)
    requires mvs == []
    ensures PlayedAll(g, mvs) == Some(g)
  {
  }

  /** So jumping in a stored game can miss the position the live game had. */
  lemma StoredJumpCanFail() returns (b: Board, mvs: seq<Move>)
    ensures PlayedAll(Start(b), mvs).Some? && InArrays(AllDropped(PlayedAll(Start(b), mvs).value.moves))
    ensures var g := PlayedAll(Start(b), mvs).value;
            var jumped := Jumped(b, AllDropped(g.moves), |mvs| - 1);
            jumped.Success? && !SamePosition(jumped.value, g)
  {
    hide Jumped, SamePosition, OnlyQueens, Start, PlayedAll, Violation, WellFormed, NoStrandedPawns;
    var reply;
    b, mvs, reply := UnderpromotionIsPlayed();
    JumpAfterSerdeIsLiveIffQueens(b, mvs, |mvs|);
    LiveIsReplayed(b, mvs);
    var g := PlayedAll(Start(b), mvs).value;
    assert mvs[..|mvs|] == mvs && g.moves[..|mvs|] == g.moves;
  }

  /** And so can undoing. */
  lemma StoredUndoCanFail() returns (b: Board, mvs: seq<Move>, mv: Move)
    ensures PlayedAll(Start(b), mvs).Some? && Violation(PlayedAll(Start(b), mvs).value, mv).None?
    ensures var g := PlayedAll(Start(b), mvs).value;
            var stored := GameOf(GameMessage(Played(g, mv)));
            && InArrays(stored.moves) && Undone(b, stored).Success?
            && !SamePosition(Undone(b, stored).value, DeepCopied(g))
  {
    hide Undone, SamePosition, OnlyQueens, Start, PlayedAll, Violation, WellFormed, NoStrandedPawns, GameOf, GameMessage, Played;
    b, mvs, mv := UnderpromotionIsPlayed();
    UndoOfStoredGame(b, mvs, mv);
  }
}
