/** What becomes of a game after its end: it is kept, but for undo requests that are accepted. */
module EndedGames {
  import opened Wrappers
  import opened HexGrid
  import opened ChessBoard
  import opened MoveGen
  import opened GameStates
  import opened Play
  import opened Positions
  import opened Replay
  import opened Serde
  import opened ChessStates
  import opened Txn
  import opened Protocol
  import opened Underpromotions

  /** The call accepts the pending request of another player, and there is a move to take back. */
  predicate TakesBack(call: Call, s: ChessState) {
    && call.AttemptGameUndo? && call.kind == UndoAccept
    && s.undoId != EMPTY_UNDO_ID && s.undoId != call.player.id && s.game.moves != []
  }

  lemma UndoneDropsLast(initial: Board, g: GameState)
    requires InArrays(g.moves)
    ensures Undone(initial, g).Success? <==> g.moves != []
    ensures g.moves != [] ==> Undone(initial, g).value.moves == g.moves[..|g.moves| - 1]
  {
    hide Tables, Replayed;
    if g.moves != [] {
      ReplayedKeepsMoves(initial, g.moves);
      ReplayedMoves(initial, g.moves[..|g.moves| - 1]);
    }
  }

  /** A call that goes through on an ended game changes its moves exactly if it takes one back;
      every other such call leaves the whole game as it is. */
  lemma EndedGameChangesIff(call: Call, s: ChessState, attempt: nat)
    requires s.IsEnded() && InArrays(s.game.moves) && Updated(call, s, attempt).Success?
    ensures var t := Updated(call, s, attempt).value;
            && t.endState == s.endState
            && (t.game.moves != s.game.moves <==> TakesBack(call, s))
            && (!TakesBack(call, s) ==> t.game == s.game)
            && (TakesBack(call, s) ==> t.game.moves == s.game.moves[..|s.game.moves| - 1])
  {
    hide Violation, Played, Undone, IsCheckmate;
    UndoneDropsLast(s.initialBoard, s.game);
  }

  // ----- over runs -----

  /** One commit on an ended game: the end stays; the game stays, up to what storing it drops,
      exactly if the commit is not one that takes a move back. */
  lemma EndedCommit(calls: map<nat, Call>, s: ChessState, log: seq<Entry<ChessState, Event>>, i: nat)
    requires IsFreshState(s) && WellFormed(s.initialBoard)
    requires IsFold(RequestsOf(calls), Some(s), log) && i < |log| && StateAt(s, log, i).IsEnded()
    ensures log[i].client in calls
    ensures var before, after := StateAt(s, log, i), StateAt(s, log, i + 1);
            var back := TakesBack(calls[log[i].client], before);
            && after.endState == before.endState
            && |after.game.moves| == |before.game.moves| - One(back)
            && (!back ==> SameGame(before.game, after.game))
  {
    hide Safe, IsFreshState, WellFormed, IsFold, Updated, Loaded, SameGame, EventsOf;
    StateIsSafe(calls, s, log, i);
    CommitIsRequest(calls, s, log, i);
    EndedRequest(calls[log[i].client], StateAt(s, log, i), log[i].attempt, AllEvents(log[..i]));
  }

  lemma EndedRequest(call: Call, s: ChessState, attempt: nat, events: seq<Event>)
    requires Safe(s, events) && s.IsEnded() && Prepared(RequestOf(call), s, attempt).Success?
    ensures var t := Prepared(RequestOf(call), s, attempt).value.0;
            && t.endState == s.endState
            && |t.game.moves| == |s.game.moves| - One(TakesBack(call, s))
            && (!TakesBack(call, s) ==> SameGame(s.game, t.game))
  {
    hide Safe, Updated, EventsOf, Acceptable, BoardOf, GameOf;
    LoadedIsSafe(s, events);
    var loaded := Loaded(s).value;
    NeverCorrupt(call, loaded, attempt, events);
    EndedGameChangesIff(call, loaded, attempt);
    LoadedKeeps(s, events);
    assert AllDropped(loaded.game.moves) == AllDropped(s.game.moves);
  }

  /** What reading a state back leaves as it was. */
  lemma LoadedKeeps(s: ChessState, events: seq<Event>)
    requires Safe(s, events)
    ensures Loaded(s).Success?
    ensures var t := Loaded(s).value;
            && t.undoId == s.undoId && t.endState == s.endState
            && t.HasBothPlayers() == s.HasBothPlayers()
            && (s.whitePlayer.present ==> t.whitePlayer == s.whitePlayer)
            && (s.blackPlayer.present ==> t.blackPlayer == s.blackPlayer)
            && SameGame(s.game, t.game) && |t.game.moves| == |s.game.moves|
  {
    hide Safe, Acceptable, BoardOf, GameOf, BoardMessage, GameMessage;
    LoadedIsSafe(s, events);
    assert AllDropped(Loaded(s).value.game.moves) == AllDropped(s.game.moves);
  }

  /** How many of the commits from the i-th up to the j-th take a move back. */
  function TakeBacks(calls: map<nat, Call>, s: ChessState, log: seq<Entry<ChessState, Event>>, i: nat, j: nat): nat
    requires i <= j <= |log|
    decreases j
  {
    if i == j then 0
    else TakeBacks(calls, s, log, i, j - 1)
         + One(log[j - 1].client in calls && TakesBack(calls[log[j - 1].client], StateAt(s, log, j - 1)))
  }

  /** From the end of a game on, in every run, its game is kept as long as no commit takes a move
      back, and never after one has: each takes back one move, and none is made. */
  lemma {:induction false} EndedGameKeptIff(calls: map<nat, Call>, s: ChessState, log: seq<Entry<ChessState, Event>>, i: nat, j: nat)
    requires IsFreshState(s) && WellFormed(s.initialBoard)
    requires IsFold(RequestsOf(calls), Some(s), log) && i <= j <= |log| && StateAt(s, log, i).IsEnded()
    ensures StateAt(s, log, j).endState == StateAt(s, log, i).endState
    ensures |StateAt(s, log, j).game.moves| + TakeBacks(calls, s, log, i, j) == |StateAt(s, log, i).game.moves|
    ensures SameGame(StateAt(s, log, i).game, StateAt(s, log, j).game) <==> TakeBacks(calls, s, log, i, j) == 0
    decreases j
  {
    hide IsFreshState, WellFormed, IsFold, TakesBack;
    if i < j {
      EndedGameKeptIff(calls, s, log, i, j - 1);
      EndedCommit(calls, s, log, j - 1);
    }
    SameGameSameLength(StateAt(s, log, i).game, StateAt(s, log, j).game);
  }

  lemma SameGameSameLength(a: GameState, b: GameState)
    ensures SameGame(a, b) ==> |a.moves| == |b.moves|
  {
    assert |AllDropped(a.moves)| == |a.moves| && |AllDropped(b.moves)| == |b.moves|;
  }

  // ----- a run that gets there -----

  /** The lists of the start position are still current when it has been stored and read back. */
  lemma StartReadBack(b: Board)
    ensures Ensured(DeepCopied(Start(b)).(moves := AllDropped(Start(b).moves))) == Start(b)
  {
    hide Tables;
    assert AllDropped(Start(b).moves) == Start(b).moves;
  }

  /** A move that is accepted of the game as read back and does not mate goes through, and does
      not end the game. */
  lemma MoveCommits(s: ChessState, player: PlayerState, mv: Move) returns (t: ChessState)
    requires Safe(s, []) && s.HasBothPlayers() && s.endState == NotEnded && player == s.CurrPlayer()
    requires Loaded(s).Success?
    requires Violation(Ensured(Loaded(s).value.game), mv).None? && !IsCheckmate(Played(Ensured(Loaded(s).value.game), mv))
    ensures Prepared(RequestOf(MakeGameMove(player, mv)), s, 0) == Success((t, []))
    ensures Safe(t, []) && t.endState == NotEnded && t.undoId == EMPTY_UNDO_ID
    ensures t.game == Played(Ensured(Loaded(s).value.game), mv) && |t.game.moves| == |s.game.moves| + 1
    ensures t.whitePlayer == s.whitePlayer && t.blackPlayer == s.blackPlayer
    ensures !IsSame(player, t.CurrPlayer())
  {
    hide Tables, Violation, IsCheckmate, WellFormed, Acceptable, BoardOf, GameOf, BoardMessage, GameMessage, HistOf, Played;
    var call := MakeGameMove(player, mv);
    LoadedKeeps(s, []);
    LoadedTurn(s, []);
    var loaded := Loaded(s).value;
    var read := Ensured(loaded.game);
    EnsuredKeeps(loaded.game);
    PlayedMoves(read, mv);
    t := Updated(call, loaded, 0).value;
    TurnPasses(read, mv);
    assert EventsOf(call, t) == [];
    RequestKeepsSafe(call, s, 0, []);
  }

  lemma EnsuredKeeps(g: GameState)
    ensures Ensured(g).board == g.board && Ensured(g).moves == g.moves
  {
    hide Tables;
  }

  /** The first move of a fresh game. */
  lemma FirstMoveCommits(s: ChessState, player: PlayerState, mv: Move) returns (t: ChessState)
    requires IsFreshState(s) && WellFormed(s.initialBoard) && s.HasBothPlayers() && player == s.CurrPlayer()
    requires Violation(s.game, mv).None? && !IsCheckmate(Played(s.game, mv))
    ensures Prepared(RequestOf(MakeGameMove(player, mv)), s, 0) == Success((t, []))
    ensures Safe(t, []) && t.endState == NotEnded && t.undoId == EMPTY_UNDO_ID
    ensures t.game == Played(s.game, mv) && |t.game.moves| == 1
    ensures t.whitePlayer == s.whitePlayer && t.blackPlayer == s.blackPlayer
    ensures !IsSame(player, t.CurrPlayer())
  {
    hide Tables, Violation, IsCheckmate, Played, WellFormed, Acceptable, BoardOf, GameOf, BoardMessage, GameMessage, Ensured, Safe;
    FreshIsSafe(s);
    LoadedIsSafe(s, []);
    StartReadBack(s.initialBoard);
    assert s.game == Start(s.initialBoard);
    assert Ensured(Loaded(s).value.game) == s.game;
    t := MoveCommits(s, player, mv);
  }

  lemma TurnPasses(g: GameState, mv: Move)
    requires Violation(g, mv).None?
    ensures Played(g, mv).board.isWhiteTurn != g.board.isWhiteTurn
  {
    hide Tables, Violation;
    AcceptedIsInBounds(g, mv);
    MovedCells(g.board, mv, mv.to);
  }

  /** Its player asks to take it back. */
  lemma RequestCommits(s: ChessState, player: PlayerState) returns (t: ChessState)
    requires Safe(s, []) && s.HasBothPlayers() && s.endState == NotEnded
    requires s.IsEitherPlayer(player) && player.present && player.id != EMPTY_UNDO_ID && !IsSame(player, s.CurrPlayer())
    ensures Prepared(RequestOf(AttemptGameUndo(player, UndoCreate)), s, 0) == Success((t, []))
    ensures Safe(t, []) && t.endState == NotEnded && t.undoId == player.id && |t.game.moves| == |s.game.moves|
    ensures t.whitePlayer == s.whitePlayer && t.blackPlayer == s.blackPlayer
  {
    hide Safe, Acceptable, BoardOf, GameOf, BoardMessage, GameMessage, SameGame;
    var call := AttemptGameUndo(player, UndoCreate);
    LoadedKeeps(s, []);
    LoadedIsSafe(s, []);
    NeverCorrupt(call, Loaded(s).value, 0, []);
    LoadedTurn(s, []);
    t := Loaded(s).value.(undoId := player.id);
    RequestKeepsSafe(call, s, 0, []);
    assert [] + EventsOf(call, t) == [];
  }

  lemma LoadedTurn(s: ChessState, events: seq<Event>)
    requires Safe(s, events)
    ensures Loaded(s).Success? && Loaded(s).value.game.board == s.game.board
  {
    hide Safe, Acceptable, BoardOf, GameOf, BoardMessage, GameMessage;
    LoadedIsSafe(s, events);
  }

  /** The player resigns: the game is finished, the request still pending. */
  lemma EndCommits(s: ChessState, player: PlayerState) returns (t: ChessState, events: seq<Event>)
    requires Safe(s, []) && s.HasBothPlayers() && s.endState == NotEnded && s.IsEitherPlayer(player) && player.present
    ensures Prepared(RequestOf(EndGame(player)), s, 0) == Success((t, events))
    ensures Safe(t, events) && t.endState == Finished && t.undoId == s.undoId && |t.game.moves| == |s.game.moves|
    ensures t.whitePlayer == s.whitePlayer && t.blackPlayer == s.blackPlayer
  {
    hide Safe, Acceptable, BoardOf, GameOf, BoardMessage, GameMessage, SameGame;
    var call := EndGame(player);
    LoadedKeeps(s, []);
    t := Updated(call, Loaded(s).value, 0).value;
    events := EventsOf(call, t);
    RequestKeepsSafe(call, s, 0, []);
    assert [] + events == events;
  }

  /** The other player accepts the request, whether the game has ended or not. */
  lemma AcceptCommits(s: ChessState, player: PlayerState, events: seq<Event>) returns (t: ChessState)
    requires Safe(s, events)
    requires s.undoId != EMPTY_UNDO_ID && s.undoId != player.id && s.game.moves != []
    ensures Prepared(RequestOf(AttemptGameUndo(player, UndoAccept)), s, 0) == Success((t, []))
    ensures t.endState == s.endState && |t.game.moves| == |s.game.moves| - 1
  {
    hide Safe, Acceptable, BoardOf, GameOf, BoardMessage, GameMessage, SameGame, Undone;
    var call := AttemptGameUndo(player, UndoAccept);
    LoadedKeeps(s, events);
    LoadedIsSafe(s, events);
    var loaded := Loaded(s).value;
    NeverCorrupt(call, loaded, 0, events);
    UndoneDropsLast(loaded.initialBoard, loaded.game);
    t := Updated(call, loaded, 0).value;
  }

  /** The calls of the run: a move, the request to take it back, the end, and the acceptance. */
  function LateUndo(mover: PlayerState, other: PlayerState, mv: Move): map<nat, Call> {
    map[0 := MakeGameMove(mover, mv), 1 := AttemptGameUndo(mover, UndoCreate),
        2 := EndGame(mover), 3 := AttemptGameUndo(other, UndoAccept)]
  }

  /** From every fresh game with two players and every first move that does not mate there is a
      run that finishes the game and then takes its move back. */
  lemma FinishedGameIsTakenBack(s: ChessState, mover: PlayerState, other: PlayerState, mv: Move) returns (schedule: seq<nat>)
    requires IsFreshState(s) && WellFormed(s.initialBoard) && s.HasBothPlayers()
    requires mover == s.CurrPlayer() && other == (if s.game.board.isWhiteTurn then s.blackPlayer else s.whitePlayer)
    requires mover.id != EMPTY_UNDO_ID
    requires Violation(s.game, mv).None? && !IsCheckmate(Played(s.game, mv))
    ensures var reqs := RequestsOf(LateUndo(mover, other, mv));
            var a := Run(reqs, Starting(reqs, Some(s)), schedule);
            && IsFold(reqs, Some(s), a.log) && |a.log| == 4
            && StateAt(s, a.log, 3).endState == Finished && |StateAt(s, a.log, 3).game.moves| == 1
            && StateAt(s, a.log, 4).endState == Finished && StateAt(s, a.log, 4).game.moves == []
  {
    hide IsFreshState, WellFormed, Violation, IsCheckmate, Played, Safe, Prepared, RequestOf, Run, InTurn, IsFold;
    var reqs := RequestsOf(LateUndo(mover, other, mv));
    var t1 := FirstMoveCommits(s, mover, mv);
    var t2 := RequestCommits(t1, mover);
    var t3, events := EndCommits(t2, mover);
    var t4 := AcceptCommits(t3, other, events);
    var n := 4;
    InTurnAllCommit(reqs, s, [t1, t2, t3, t4], [[], [], events, []], n);
    schedule := InTurn(n);
    EveryRunIsConsistent(reqs, Some(s), schedule);
  }

  /** There is such a game. */
  lemma SomeFinishedGameIsTakenBack() returns (s: ChessState, calls: map<nat, Call>, schedule: seq<nat>)
    ensures IsFreshState(s) && WellFormed(s.initialBoard)
    ensures var a := Run(RequestsOf(calls), Starting(RequestsOf(calls), Some(s)), schedule);
            && IsFold(RequestsOf(calls), Some(s), a.log) && |a.log| == 4
            && StateAt(s, a.log, 3).endState == Finished && StateAt(s, a.log, 4).endState == Finished
            && !SameGame(StateAt(s, a.log, 3).game, StateAt(s, a.log, 4).game)
  {
    hide Violation, IsCheckmate, Tables, Run, IsFold, WellFormed, NoStrandedPawns, IsTwoPawns, SameGame;
    var b := TwoPawns();
    var mv := Move(Hex(0, 4), Hex(0, 5), KNIGHT_PROMOTION);
    var mover, other := PlayerState(1, true), PlayerState(2, true);
    FirstIsAccepted(b, mv);
    NoMate(b, mv);
    s := ChessState(EMPTY_UNDO_ID, mover, other, White, NotEnded, b, Start(b));
    calls := LateUndo(mover, other, mv);
    WhiteToMove(b);
    schedule := FinishedGameIsTakenBack(s, mover, other, mv);
    var a := Run(RequestsOf(calls), Starting(RequestsOf(calls), Some(s)), schedule);
    SameGameSameLength(StateAt(s, a.log, 3).game, StateAt(s, a.log, 4).game);
  }

  lemma WhiteToMove(b: Board)
    requires IsTwoPawns(b)
    ensures b.isWhiteTurn
  {
  }

  lemma NoMate(b: Board, mv: Move)
    requires IsTwoPawns(b) && mv == Move(Hex(0, 4), Hex(0, 5), KNIGHT_PROMOTION) && Violation(Start(b), mv).None?
    ensures !IsCheckmate(Played(Start(b), mv))
  {
    hide Tables, Violation, MovedBoard, InCheck;
    AfterPromotion(b, mv, Move(Hex(5, 5), Hex(5, 4), NO_PROMOTION));
    NoKingsNoCheck(MovedBoard(b, mv));
    PlayedLists(b, mv);
  }
}
