/** The chess state as the object the update closures work on: its fields are assigned in
    place, its game object is moved on, or replaced when a move is undone. */
module Gameplay {
  import opened Wrappers
  import opened ChessBoard
  import opened MoveGen
  import opened GameStates
  import opened Replay
  import opened ChessGame
  import opened ChessStates
  import opened Protocol

  /** Whatever events led to the first state safely, they lead to the second one safely together
      with those the call commits. */
  ghost predicate StaysSafe(call: Call, s: ChessState, t: ChessState) {
    forall events :: Safe(s, events) ==> Safe(t, events + EventsOf(call, t))
  }

  lemma UpdateStaysSafe(call: Call, s: ChessState, attempt: nat)
    ensures Updated(call, s, attempt).Success? ==> StaysSafe(call, s, Updated(call, s, attempt).value)
  {
    hide Safe, Updated, EventsOf;
    if Updated(call, s, attempt).Success? {
      forall events | Safe(s, events)
        ensures Safe(Updated(call, s, attempt).value, events + EventsOf(call, Updated(call, s, attempt).value))
      {
        UpdateKeepsSafe(call, s, attempt, events);
      }
    }
  }

  class LiveState {
    var undoId: int
    var whitePlayer: PlayerState
    var blackPlayer: PlayerState
    var firstColor: GameColor
    var endState: EndKind
    var initialBoard: Board
    var game: Game

    ghost function State(): ChessState
      reads this, game
    {
      ChessState(undoId, whitePlayer, blackPlayer, firstColor, endState, initialBoard, game.State())
    }

    ghost predicate Valid()
      reads this
    {
      game.Valid()
    }

    constructor (s: ChessState)
      ensures Valid() && State() == s
      ensures fresh(game) && fresh(game.whiteAttackTable) && fresh(game.blackAttackTable)
    {
      undoId, whitePlayer, blackPlayer := s.undoId, s.whitePlayer, s.blackPlayer;
      firstColor, endState, initialBoard := s.firstColor, s.endState, s.initialBoard;
      var g := new Game(s.game.board);
      g.whiteMoves, g.blackMoves := s.game.whiteMoves, s.game.blackMoves;
      g.takenWhitePieces, g.takenBlackPieces, g.moves := s.game.takenWhite, s.game.takenBlack, s.game.moves;
      game := g;
    }

    /** Joining: which seat the player takes, if any. */
    method Join(player: PlayerState, draw: nat)
      requires Valid()
      modifies this
      ensures Valid() && game == old(game)
      ensures State() == Joined(old(State()), player, draw)
      ensures StaysSafe(JoinGame(player, [draw]), old(State()), State())
    {
      hide StaysSafe;
      UpdateStaysSafe(JoinGame(player, [draw]), State(), 0);
      if !player.present {
        return;
      }
      if !whitePlayer.present && !blackPlayer.present {
        var pickWhite := (firstColor == Random && draw % 2 == 0) || firstColor == White;
        if pickWhite {
          whitePlayer := player;
        } else {
          blackPlayer := player;
        }
      } else if blackPlayer.present && !whitePlayer.present {
        if blackPlayer.id != player.id {
          whitePlayer := player;
        }
      } else if whitePlayer.present && !blackPlayer.present {
        if whitePlayer.id != player.id {
          blackPlayer := player;
        }
      }
    }

    /** Moving: refused without both players, after the end, out of turn, or by the rules. */
    method Move(player: PlayerState, mv: Move) returns (error: Option<PlayError>)
      requires Valid()
      modifies this, game, game.whiteAttackTable, game.blackAttackTable
      ensures Valid()
      ensures match MoveMade(old(State()), player, mv)
              case Failure(e) => error == Some(e)
              case Success(s) => error == None && State() == s && StaysSafe(MakeGameMove(player, mv), old(State()), s)
    {
      hide Played, IsCheckmate, Ensured, Marked, StaysSafe;
      UpdateStaysSafe(MakeGameMove(player, mv), State(), 0);
      if !whitePlayer.present || !blackPlayer.present {
        return Some(NotStarted);
      }
      if endState != NotEnded {
        return Some(AlreadyEnded);
      }
      var currPlayer := if game.board.isWhiteTurn then whitePlayer else blackPlayer;
      if !currPlayer.present || currPlayer.id != player.id {
        return Some(NotYourTurn);
      }
      var violation, mate := PlayMove(mv);
      if violation.Some? {
        return Some(InvalidMove(violation.value));
      }
      if mate {
        endState := Finished;
      }
      undoId := EMPTY_UNDO_ID;
      game.ClearTables();
      error := None;
    }

    /** The game's part in a move: its lists made sure of, the move made, and the mate test. */
    method PlayMove(mv: Move) returns (violation: Option<MoveError>, mate: bool)
      requires Valid()
      modifies game, game.whiteAttackTable, game.blackAttackTable
      ensures violation == Violation(Ensured(old(game.State())), mv)
      ensures violation.None? ==> game.State() == Played(Ensured(old(game.State())), mv) && mate == IsCheckmate(game.State())
    {
      hide Tables, Violation, Played, IsCheckmate, Initialized, Marked;
      mate := false;
      game.EnsurePieceMoves();
      var hm := game.NewValidMove(mv);
      if hm.Failure? {
        return Some(hm.error), false;
      }
      violation := None;
      mate := game.Checkmate();
    }

    /** Undo: jumps to before the last move and replaces the game by a copy of that. */
    method UndoMove() returns (error: Option<UndoError>)
      requires Valid() && InArrays(game.moves)
      modifies this
      ensures Valid()
      ensures match Undone(old(State()).initialBoard, old(State()).game)
              case Failure(e) => error == Some(e) && State() == old(State())
              case Success(g) => error == None && State() == old(State()).(game := g)
    {
      hide Tables, Replayed, DeepCopied, Marked;
      if |game.moves| == 0 {
        return Some(NoMoveUndo);
      }
      var index := |game.moves| - 2;
      var jumped := JumpMoveIndex(initialBoard, game.moves, index);
      game := jumped.value.DeepCopy();
      error := None;
    }

    /** Asking for, accepting or rejecting an undo. */
    method Undo(player: PlayerState, kind: UndoKind) returns (error: Option<PlayError>)
      requires Valid() && InArrays(game.moves)
      modifies this
      ensures Valid()
      ensures match UndoAttempted(old(State()), player, kind)
              case Failure(e) => error == Some(e) && State() == old(State())
              case Success(s) => error == None && State() == s && StaysSafe(AttemptGameUndo(player, kind), old(State()), s)
    {
      hide Undone, Marked, StaysSafe;
      UpdateStaysSafe(AttemptGameUndo(player, kind), State(), 0);
      match kind {
        case UndoCreate =>
          var currPlayer := if game.board.isWhiteTurn then whitePlayer else blackPlayer;
          if IsSame(player, currPlayer) {
            return Some(UndoByCurrPlayer);
          }
          undoId := player.id;
        case UndoAccept =>
          if undoId == EMPTY_UNDO_ID {
            return Some(NoUndo);
          }
          if undoId == player.id {
            return Some(UndoByCreator);
          }
          var failed := UndoMove();
          if failed.Some? {
            return Some(UndoFailed(failed.value));
          }
          undoId := EMPTY_UNDO_ID;
        case UndoReject =>
          if undoId == EMPTY_UNDO_ID {
            return Some(NoUndo);
          }
          undoId := EMPTY_UNDO_ID;
      }
      error := None;
    }

    /** Ending: a forfeit between two players, an abort with only one. */
    method End(player: PlayerState) returns (error: Option<PlayError>)
      requires Valid()
      modifies this
      ensures Valid() && game == old(game)
      ensures match EndMade(old(State()), player)
              case Failure(e) => error == Some(e) && State() == old(State())
              case Success(s) => error == None && State() == s && StaysSafe(EndGame(player), old(State()), s)
    {
      hide StaysSafe;
      UpdateStaysSafe(EndGame(player), State(), 0);
      if endState != NotEnded {
        return Some(AlreadyEnded);
      }
      if !IsSame(whitePlayer, player) && !IsSame(blackPlayer, player) {
        return Some(NotAPlayer);
      }
      var isForfeit := whitePlayer.present && blackPlayer.present;
      endState := if isForfeit then Finished else Aborted;
      error := None;
    }
  }
}
