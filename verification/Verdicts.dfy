/** Whole runs of a game, by who called: who makes each move, and who wins when it ends. */
module Verdicts {
  import opened Wrappers
  import opened ChessBoard
  import opened MoveGen
  import opened GameStates
  import opened Play
  import opened Replay
  import opened Serde
  import opened Results
  import opened ChessStates
  import opened Txn
  import opened Protocol
  import opened EndedGames
  import opened UndoRuns
  import opened Checkmates
  import opened Legality
  import opened Calls

  function LastMove(g: GameState): HistMove
    requires g.moves != []
  {
    g.moves[|g.moves| - 1]
  }

  // ----- moves -----

  /** The call makes a move with a piece of its own colour: the seat of that colour is the
      caller's, and it is that colour's turn. */
  predicate MovedByTurn(call: Call, before: ChessState, after: ChessState) {
    && call.MakeGameMove? && after.game.moves != []
    && var white := IsWhite(LastMove(after.game).piece);
       HasSeat(before, call.player, white) && HasSeat(after, call.player, white)
       && before.game.board.isWhiteTurn == white && after.game.board.isWhiteTurn == !white
  }

  lemma PlayedByTurn(g: GameState, mv: Move)
    requires Regenerated(g) && Violation(g, mv).None?
    ensures Played(g, mv).moves != [] && |Played(g, mv).moves| == |g.moves| + 1
    ensures LastMove(Played(g, mv)).from == mv.from && LastMove(Played(g, mv)).to == mv.to
    ensures IsWhite(LastMove(Played(g, mv)).piece) == g.board.isWhiteTurn
    ensures Played(g, mv).board.isWhiteTurn == !g.board.isWhiteTurn
  {
    hide Tables, Violation, MovedBoard;
    AcceptedMove(g, mv);
    PlayedMoves(g, mv);
    TurnPasses(g, mv);
  }

  lemma LoadedSeats(s: ChessState, events: seq<Event>, player: PlayerState, white: bool)
    requires Safe(s, events)
    ensures Loaded(s).Success? && (HasSeat(Loaded(s).value, player, white) <==> HasSeat(s, player, white))
    ensures Loaded(s).value.whitePlayer.present == s.whitePlayer.present
    ensures Loaded(s).value.blackPlayer.present == s.blackPlayer.present
    ensures Loaded(s).value.endState == s.endState
    ensures Loaded(s).value.game.board == s.game.board
  {
    hide Safe;
    LoadedIsSafe(s, events);
    LoadedTurn(s, events);
    SeatsRead(s);
  }

  lemma SeatsRead(s: ChessState)
    requires Loaded(s).Success?
    ensures Loaded(s).value.whitePlayer == LoadedPlayer(s.whitePlayer) && Loaded(s).value.blackPlayer == LoadedPlayer(s.blackPlayer)
    ensures Loaded(s).value.endState == s.endState
  {
  }

  /** What a move that is committed says of its caller and its piece. */
  lemma MoveRequest(call: Call, s: ChessState, attempt: nat, events: seq<Event>)
    requires Safe(s, events) && call.MakeGameMove? && Prepared(RequestOf(call), s, attempt).Success?
    ensures var t := Prepared(RequestOf(call), s, attempt).value.0;
            && s.endState == NotEnded && s.HasBothPlayers() && t.HasBothPlayers()
            && |t.game.moves| == |s.game.moves| + 1 && MovedByTurn(call, s, t)
            && t.endState == (if IsCheckmate(t.game) then Finished else NotEnded)
            && Regenerated(t.game)
  {
    hide Safe, Violation, Played, Loaded, IsCheckmate, Ensured, EventsOf, Updated, DeepCopied, AllDropped, Regenerated;
    LoadedIsSafe(s, events);
    var loaded := Loaded(s).value;
    ReadBack(s, loaded, events);
    MoveGoesThroughIff(loaded, call.player, call.move, attempt);
    var read := Ensured(loaded.game);
    PlayedByTurn(read, call.move);
    PlayedIsRegenerated(read, call.move);
    LoadedSeats(s, events, call.player, true);
    LoadedSeats(s, events, call.player, false);
  }

  /** In every run, whoever adds a move to the game holds the seat of the colour of the piece
      that moves, and it is that colour's turn. */
  lemma EveryMoveIsByTurn(calls: map<nat, Call>, s: ChessState, log: seq<Entry<ChessState, Event>>, i: nat)
    requires IsFreshState(s) && WellFormed(s.initialBoard)
    requires IsFold(RequestsOf(calls), Some(s), log) && i < |log|
    ensures log[i].client in calls
    ensures |StateAt(s, log, i + 1).game.moves| > |StateAt(s, log, i).game.moves| <==> calls[log[i].client].MakeGameMove?
    ensures calls[log[i].client].MakeGameMove? ==>
              MovedByTurn(calls[log[i].client], StateAt(s, log, i), StateAt(s, log, i + 1))
  {
    hide Safe, IsFreshState, WellFormed, IsFold, Prepared, RequestOf, SameGame, MovedByTurn, Loaded, Undone;
    StateIsSafe(calls, s, log, i);
    CommitIsRequest(calls, s, log, i);
    var call, before, events := calls[log[i].client], StateAt(s, log, i), AllEvents(log[..i]);
    if call.MakeGameMove? {
      MoveRequest(call, before, log[i].attempt, events);
    } else {
      OtherRequest(call, before, log[i].attempt, events);
    }
  }

  lemma OtherRequest(call: Call, s: ChessState, attempt: nat, events: seq<Event>)
    requires Safe(s, events) && !call.MakeGameMove? && Prepared(RequestOf(call), s, attempt).Success?
    ensures |Prepared(RequestOf(call), s, attempt).value.0.game.moves| <= |s.game.moves|
  {
    hide Safe, Prepared, RequestOf, SameGame, Loaded;
    RequestEffect(call, s, attempt, events);
    var t := Prepared(RequestOf(call), s, attempt).value.0;
    LoadedKeeps(s, events);
    UndoneDropsLast(s.initialBoard, Loaded(s).value.game);
    SameGameSameLength(s.game, t.game);
  }

  // ----- the end -----

  /** The event names the two seats and the moves; a forfeit is won by the seat that did not
      call, a checkmate by the colour that made the last move, the other one being in check
      without a move. */
  predicate IsVerdict(call: Call, after: ChessState, e: Event) {
    && e.FinishGame? && after.HasBothPlayers()
    && e.whiteId == after.whitePlayer.id && e.blackId == after.blackPlayer.id && e.moves == after.game.moves
    && match e.cause
       case Forfeit =>
         && call.EndGame? && call.player.id in {e.whiteId, e.blackId} && e.whiteId != e.blackId
         && e.result == (if call.player.id == e.whiteId then BlackWin else WhiteWin)
       case Checkmate =>
         && call.MakeGameMove? && after.game.moves != []
         && e.result == (if IsWhite(LastMove(after.game).piece) then WhiteWin else BlackWin)
         && after.game.board.isWhiteTurn == !IsWhite(LastMove(after.game).piece)
         && InCheck(after.game.board) && NoMoves(MoverList(after.game.board))
  }

  /** What one commit emits: the verdict if it finishes the game, the seats if it is a join, and
      otherwise nothing. */
  predicate EmitsVerdict(call: Call, before: ChessState, after: ChessState, events: seq<Event>) {
    if before.endState != Finished && after.endState == Finished then |events| == 1 && IsVerdict(call, after, events[0])
    else events == if call.JoinGame? then [UpdateMetadata(after.whitePlayer, after.blackPlayer)] else []
  }

  lemma EndRequest(call: Call, s: ChessState, attempt: nat, events: seq<Event>)
    requires Safe(s, events) && call.EndGame? && Prepared(RequestOf(call), s, attempt).Success?
    ensures var w := Prepared(RequestOf(call), s, attempt).value; EmitsVerdict(call, s, w.0, w.1)
  {
    hide WellFormed, GameSafe, Violation, Played, IsCheckmate, FinishCount, Acceptable, BoardOf, GameOf, BoardMessage, GameMessage;
    LoadedIsSafe(s, events);
    var loaded := Loaded(s).value;
    EndGoesThroughIff(loaded, call.player, attempt);
    LoadedSeats(s, events, call.player, true);
    LoadedSeats(s, events, call.player, false);
  }

  lemma MateRequest(call: Call, s: ChessState, attempt: nat, events: seq<Event>)
    requires Safe(s, events) && call.MakeGameMove? && Prepared(RequestOf(call), s, attempt).Success?
    ensures var w := Prepared(RequestOf(call), s, attempt).value; EmitsVerdict(call, s, w.0, w.1)
  {
    hide Safe, Violation, Played, Loaded, InCheck, NoMoves, Updated, Regenerated, MoverList;
    MoveRequest(call, s, attempt, events);
    var w := Prepared(RequestOf(call), s, attempt).value;
    CurrIsMoverList(w.0.game);
  }

  lemma QuietRequest(call: Call, s: ChessState, attempt: nat, events: seq<Event>)
    requires Safe(s, events) && (call.JoinGame? || call.AttemptGameUndo?) && Prepared(RequestOf(call), s, attempt).Success?
    ensures var w := Prepared(RequestOf(call), s, attempt).value; EmitsVerdict(call, s, w.0, w.1)
  {
    hide Safe, Violation, Played, IsVerdict, Undone;
    LoadedSeats(s, events, call.player, true);
    NeverCorrupt(call, s, attempt, events);
    LoadedIsSafe(s, events);
    NeverCorrupt(call, Loaded(s).value, attempt, events);
  }

  lemma CommitEmits(calls: map<nat, Call>, s: ChessState, log: seq<Entry<ChessState, Event>>, i: nat)
    requires IsFreshState(s) && WellFormed(s.initialBoard)
    requires IsFold(RequestsOf(calls), Some(s), log) && i < |log|
    ensures log[i].client in calls
    ensures EmitsVerdict(calls[log[i].client], StateAt(s, log, i), StateAt(s, log, i + 1), log[i].events)
  {
    hide Safe, IsFreshState, WellFormed, IsFold, Prepared, RequestOf, EmitsVerdict;
    StateIsSafe(calls, s, log, i);
    CommitIsRequest(calls, s, log, i);
    var call, before, events := calls[log[i].client], StateAt(s, log, i), AllEvents(log[..i]);
    match call
    case EndGame(_) => EndRequest(call, before, log[i].attempt, events);
    case MakeGameMove(_, _) => MateRequest(call, before, log[i].attempt, events);
    case _ => QuietRequest(call, before, log[i].attempt, events);
  }

  /** In every run that finishes a game there is one finish event, emitted by the commit that
      finished it. It names the two seats of the finished game and its moves; it was won by the
      seat that did not give up, or by the colour that mated the other. */
  lemma FinishHasOneVerdict(calls: map<nat, Call>, s: ChessState, log: seq<Entry<ChessState, Event>>) returns (i: nat)
    requires IsFreshState(s) && WellFormed(s.initialBoard)
    requires IsFold(RequestsOf(calls), Some(s), log) && StateAt(s, log, |log|).endState == Finished
    ensures i < |log| && log[i].client in calls
    ensures StateAt(s, log, i).endState == NotEnded && StateAt(s, log, i + 1).endState == Finished
    ensures |log[i].events| == 1 && IsVerdict(calls[log[i].client], StateAt(s, log, i + 1), log[i].events[0])
    ensures StateAt(s, log, i + 1).whitePlayer == StateAt(s, log, |log|).whitePlayer
    ensures StateAt(s, log, i + 1).blackPlayer == StateAt(s, log, |log|).blackPlayer
    ensures forall j, k :: 0 <= j < |log| && 0 <= k < |log[j].events| && log[j].events[k].FinishGame? ==> j == i
  {
    hide IsFreshState, WellFormed, IsFold, IsVerdict;
    NotEndedAtFirst(s);
    i := FirstFinished(calls, s, log, |log|);
    CommitEmits(calls, s, log, i);
    LaterStatesFollow(calls, s, log, i, i + 1);
    LaterStatesFollow(calls, s, log, i + 1, |log|);
    SeatsTaken(calls, log[i].client, StateAt(s, log, i + 1), log[i].events[0]);
    forall j, k | 0 <= j < |log| && 0 <= k < |log[j].events| && log[j].events[k].FinishGame?
      ensures j == i
    {
      CommitEmits(calls, s, log, j);
      if j < i { LaterStatesFollow(calls, s, log, j + 1, i); }
      if j > i { LaterStatesFollow(calls, s, log, i + 1, j); }
    }
  }

  lemma SeatsTaken(calls: map<nat, Call>, c: nat, after: ChessState, e: Event)
    requires c in calls && IsVerdict(calls[c], after, e)
    ensures after.whitePlayer.present && after.blackPlayer.present
  {
  }

  lemma NotEndedAtFirst(s: ChessState)
    requires IsFreshState(s)
    ensures s.endState == NotEnded
  {
  }

  /** The commit that finished the game. */
  lemma {:induction false} FirstFinished(calls: map<nat, Call>, s: ChessState, log: seq<Entry<ChessState, Event>>, n: nat) returns (i: nat)
    requires s.endState == NotEnded && n <= |log| && StateAt(s, log, n).endState == Finished
    ensures i < n && StateAt(s, log, i).endState != Finished && StateAt(s, log, i + 1).endState == Finished
    decreases n
  {
    hide IsFold;
    if n > 0 && StateAt(s, log, n - 1).endState == Finished {
      i := FirstFinished(calls, s, log, n - 1);
    } else {
      i := n - 1;
    }
  }
}
