/** Which calls go through, and what they change: in terms of the seats, the turn, the end and
    the pending request. */
module Calls {
  import opened Wrappers
  import opened ChessBoard
  import opened MoveGen
  import opened GameStates
  import opened Replay
  import opened ChessStates
  import opened Protocol
  import opened EndedGames

  /** The player has the seat of the colour. */
  predicate HasSeat(s: ChessState, player: PlayerState, white: bool) {
    if white then s.whitePlayer.present && s.whitePlayer.id == player.id
    else s.blackPlayer.present && s.blackPlayer.id == player.id
  }

  /** A move goes through exactly if both seats are taken, the game goes on, the caller has the
      seat of the colour to move, and the move is allowed. It clears any request to undo, and
      ends the game exactly if it mates. */
  lemma MoveGoesThroughIff(s: ChessState, player: PlayerState, mv: Move, attempt: nat)
    ensures var r := Updated(MakeGameMove(player, mv), s, attempt);
            && (r.Success? <==>
                  && s.whitePlayer.present && s.blackPlayer.present && s.endState == NotEnded
                  && HasSeat(s, player, s.game.board.isWhiteTurn)
                  && Violation(Ensured(s.game), mv).None?)
            && (r.Success? ==>
                  && r.value.game == Played(Ensured(s.game), mv) && r.value.undoId == EMPTY_UNDO_ID
                  && r.value.endState == (if IsCheckmate(r.value.game) then Finished else NotEnded)
                  && r.value.whitePlayer == s.whitePlayer && r.value.blackPlayer == s.blackPlayer
                  && r.value.firstColor == s.firstColor && r.value.initialBoard == s.initialBoard)
            && (r == Failure(NotStarted) <==> !s.whitePlayer.present || !s.blackPlayer.present)
            && (r == Failure(AlreadyEnded) <==> s.whitePlayer.present && s.blackPlayer.present && s.endState != NotEnded)
            && (r == Failure(NotYourTurn) <==>
                  && s.whitePlayer.present && s.blackPlayer.present && s.endState == NotEnded
                  && !HasSeat(s, player, s.game.board.isWhiteTurn))
  {
    hide Violation, Played, IsCheckmate;
    EnsuredKeeps(s.game);
  }

  /** Ending goes through exactly for a seated player while the game goes on: the game is
      finished if both seats are taken and aborted otherwise, and nothing else changes. */
  lemma EndGoesThroughIff(s: ChessState, player: PlayerState, attempt: nat)
    ensures var r := Updated(EndGame(player), s, attempt);
            && (r.Success? <==> s.endState == NotEnded && player.present && (HasSeat(s, player, true) || HasSeat(s, player, false)))
            && (r.Success? ==>
                  r.value == s.(endState := if s.whitePlayer.present && s.blackPlayer.present then Finished else Aborted))
            && (r == Failure(AlreadyEnded) <==> s.endState != NotEnded)
            && (r.Failure? && s.endState == NotEnded ==> r.error == NotAPlayer)
  {
  }

  /** The colour that the first player gets: the one asked for when the game was created, or
      white for an even draw. */
  predicate GetsWhite(s: ChessState, draw: nat) {
    match s.firstColor case White => true case Black => false case Random => draw % 2 == 0
  }

  /** Joining always goes through. The first player gets the colour chosen, alone; another
      player gets the seat left; nobody else changes anything. */
  lemma JoinSeats(s: ChessState, player: PlayerState, draws: seq<nat>, attempt: nat)
    requires attempt < |draws|
    ensures var r := Updated(JoinGame(player, draws), s, attempt);
            var one := s.whitePlayer.present != s.blackPlayer.present;
            var none := !s.whitePlayer.present && !s.blackPlayer.present;
            var seated := HasSeat(s, player, true) || HasSeat(s, player, false);
            && r.Success?
            && r.value == s.(whitePlayer := r.value.whitePlayer, blackPlayer := r.value.blackPlayer)
            && (player.present && none ==>
                  && (r.value.whitePlayer == if GetsWhite(s, draws[attempt]) then player else s.whitePlayer)
                  && (r.value.blackPlayer == if GetsWhite(s, draws[attempt]) then s.blackPlayer else player))
            && (player.present && one && !seated ==>
                  && r.value.whitePlayer == (if s.whitePlayer.present then s.whitePlayer else player)
                  && r.value.blackPlayer == (if s.blackPlayer.present then s.blackPlayer else player))
            && (!player.present || seated || (s.whitePlayer.present && s.blackPlayer.present) ==> r.value == s)
  {
  }

  /** Anyone but the player to move may ask for an undo, seated or not; the request is theirs.
      Rejecting goes through exactly while a request is pending, and clears it. Neither touches
      the game. Accepting goes through exactly for another player's request with a move to take
      back, and clears it too. */
  lemma UndoGoesThroughIff(s: ChessState, player: PlayerState, kind: UndoKind, attempt: nat)
    requires InArrays(s.game.moves)
    ensures var r := Updated(AttemptGameUndo(player, kind), s, attempt);
            && (kind == UndoCreate ==>
                  && (r.Success? <==> !(player.present && HasSeat(s, player, s.game.board.isWhiteTurn)))
                  && (r.Success? ==> r.value == s.(undoId := player.id))
                  && (r.Failure? ==> r.error == UndoByCurrPlayer))
            && (kind == UndoReject ==>
                  && (r.Success? <==> s.undoId != EMPTY_UNDO_ID)
                  && (r.Success? ==> r.value == s.(undoId := EMPTY_UNDO_ID)))
            && (kind == UndoAccept ==>
                  && (r.Success? <==> s.undoId != EMPTY_UNDO_ID && s.undoId != player.id && s.game.moves != [])
                  && (r.Success? ==> r.value == s.(undoId := EMPTY_UNDO_ID, game := r.value.game)
                                     && r.value.game.moves == s.game.moves[..|s.game.moves| - 1])
                  && (r == Failure(UndoByCreator) <==> s.undoId != EMPTY_UNDO_ID && s.undoId == player.id))
            && (r == Failure(NoUndo) <==> kind != UndoCreate && s.undoId == EMPTY_UNDO_ID)
  {
    hide Undone;
    UndoneDropsLast(s.initialBoard, s.game);
  }
}
