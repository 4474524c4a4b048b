/** Games played by many clients at once: every call runs its update under the optimistic
    lock, on the state read back from its serialized form. What holds in every run. */
module Protocol {
  import opened Wrappers
  import opened HexGrid
  import opened ChessBoard
  import opened MoveGen
  import opened GameStates
  import opened Play
  import opened Replay
  import opened Serde
  import opened ChessStates
  import opened Txn

  /** A call: joining brings the random numbers its attempts draw. */
  datatype Call =
    | JoinGame(player: PlayerState, draws: seq<nat>)
    | MakeGameMove(player: PlayerState, move: Move)
    | AttemptGameUndo(player: PlayerState, kind: UndoKind)
    | EndGame(player: PlayerState)

  /** The fields of an absent player do not survive serialization. */
  function LoadedPlayer(p: PlayerState): PlayerState { if p.present then p else PlayerState(0, false) }

  /** The state as it is read back from what was stored. */
  function Loaded(s: ChessState): Result<ChessState, PlayError> {
    if Acceptable(BoardMessage(s.game.board)) && Acceptable(BoardMessage(s.initialBoard)) then
      Success(s.(whitePlayer := LoadedPlayer(s.whitePlayer), blackPlayer := LoadedPlayer(s.blackPlayer),
                 initialBoard := BoardOf(BoardMessage(s.initialBoard)), game := GameOf(GameMessage(s.game))))
    else Failure(Corrupt)
  }

  function Updated(call: Call, s: ChessState, attempt: nat): Result<ChessState, PlayError> {
    match call
    case JoinGame(player, draws) => Success(Joined(s, player, if attempt < |draws| then draws[attempt] else 0))
    case MakeGameMove(player, mv) => MoveMade(s, player, mv)
    case AttemptGameUndo(player, kind) =>
      if InArrays(s.game.moves) then UndoAttempted(s, player, kind) else Failure(Corrupt)
    case EndGame(player) => EndMade(s, player)
  }

  function EventsOf(call: Call, s: ChessState): seq<Event> {
    match call
    case JoinGame(_, _) => JoinEvents(s)
    case MakeGameMove(_, _) => MoveEvents(s)
    case AttemptGameUndo(_, _) => []
    case EndGame(player) => EndEvents(s, player)
  }

  function RequestOf(call: Call): Request<ChessState, Event, PlayError> {
    Request(
      (s: ChessState, attempt: nat) =>
        (match Loaded(s) case Failure(e) => Failure(e) case Success(t) => Updated(call, t, attempt)),
      (s: ChessState) => Success(EventsOf(call, s)))
  }

  function RequestsOf(calls: map<nat, Call>): Requests<ChessState, Event, PlayError> {
    map c | c in calls :: RequestOf(calls[c])
  }

  // ----- safety -----

  function FinishCount(events: seq<Event>): nat {
    if events == [] then 0
    else FinishCount(events[..|events| - 1]) + (if events[|events| - 1].FinishGame? then 1 else 0)
  }

  predicate MovesInBounds(moves: seq<HistMove>) {
    forall i :: 0 <= i < |moves| ==> InBounds(moves[i].from) && InBounds(moves[i].to)
  }

  /** Each list is nil or what its side's regeneration gives. */
  ghost predicate ListsCurrent(g: GameState) {
    && (g.whiteMoves.Some? ==> g.whiteMoves.value == Tables(g.board).white)
    && (g.blackMoves.Some? ==> g.blackMoves.value == Tables(g.board).black)
  }

  ghost predicate GameSafe(g: GameState) {
    WellFormed(g.board) && MovesInBounds(g.moves) && ListsCurrent(g)
  }

  /** The state is readable and playable, the seats are not shared, and exactly one finish
      event has been emitted if the game is finished, none otherwise. */
  ghost predicate Safe(s: ChessState, events: seq<Event>) {
    && WellFormed(s.initialBoard) && GameSafe(s.game)
    && (s.HasBothPlayers() ==> s.whitePlayer.id != s.blackPlayer.id)
    && (s.endState == Finished ==> s.HasBothPlayers())
    && FinishCount(events) == (if s.endState == Finished then 1 else 0)
  }

  lemma InBoundsInArrays(moves: seq<HistMove>)
    requires MovesInBounds(moves)
    ensures InArrays(moves)
  {
    forall i | 0 <= i < |moves|
      ensures InArray(moves[i].from) && InArray(moves[i].to)
    {
      InBoundsInArray(moves[i].from);
      InBoundsInArray(moves[i].to);
    }
  }

  /** The moves of a safe state lie on the board: no update finds its state corrupt. */
  lemma NeverCorrupt(call: Call, s: ChessState, attempt: nat, events: seq<Event>)
    requires Safe(s, events)
    ensures InArrays(s.game.moves) && Updated(call, s, attempt) != Failure(Corrupt)
    ensures Prepared(RequestOf(call), s, attempt) != Failure(Corrupt)
  {
    hide WellFormed, Tables, Violation, Played, Undone, IsCheckmate, FinishCount, AllDropped, DeepCopied;
    InBoundsInArrays(s.game.moves);
    LoadedIsSafe(s, events);
    InBoundsInArrays(Loaded(s).value.game.moves);
  }

  /** A safe state is read back, and is safe still. */
  lemma LoadedIsSafe(s: ChessState, events: seq<Event>)
    requires Safe(s, events)
    ensures Loaded(s).Success? && Safe(Loaded(s).value, events)
    ensures Loaded(s).value.initialBoard == s.initialBoard
    ensures Loaded(s).value.game == DeepCopied(s.game).(moves := AllDropped(s.game.moves))
  {
    hide WellFormed, Acceptable, BoardMessage, BoardOf, GameMessage, GameOf, Tables;
    BoardMessageRoundTrip(s.initialBoard);
    BoardMessageRoundTrip(s.game.board);
    GameRoundTrip(s.game);
    assert GameMessage(s.game).board == BoardMessage(s.game.board) by { MessageBoard(s.game); }
  }

  lemma MessageBoard(g: GameState)
    ensures GameMessage(g).board == BoardMessage(g.board)
  {
  }

  lemma MovedKeepsWellFormed(b: Board, mv: Move)
    requires WellFormed(b) && InBounds(mv.from) && InBounds(mv.to) && InArray(mv.from) && InArray(mv.to)
    ensures WellFormed(MovedBoard(b, mv))
  {
    hide Set;
  }

  lemma {:induction false} ReplayKeepsWellFormed(b: Board, moves: seq<HistMove>)
    requires WellFormed(b) && MovesInBounds(moves) && InArrays(moves)
    ensures WellFormed(Replayed(b, moves).board) && Replayed(b, moves).moves == moves
    decreases |moves|
  {
    hide WellFormed, MovedBoard;
    if moves != [] {
      ReplayKeepsWellFormed(b, moves[..|moves| - 1]);
      MovedKeepsWellFormed(Replayed(b, moves[..|moves| - 1]).board, AsMove(moves[|moves| - 1]));
    }
  }

  lemma PlayedIsSafe(g: GameState, mv: Move)
    requires GameSafe(g) && Violation(Ensured(g), mv).None?
    ensures GameSafe(Played(Ensured(g), mv))
  {
    hide WellFormed, MovedBoard, Tables, Violation;
    var e := Ensured(g);
    assert Regenerated(e);
    AcceptedMove(e, mv);
    MovedKeepsWellFormed(g.board, mv);
  }

  lemma UndoneIsSafe(initial: Board, g: GameState)
    requires WellFormed(initial) && GameSafe(g) && InArrays(g.moves) && g.moves != []
    ensures GameSafe(Undone(initial, g).value)
  {
    hide WellFormed, Tables;
    var kept := g.moves[..|g.moves| - 1];
    ReplayKeepsWellFormed(initial, kept);
    ReplayedKeepsMoves(initial, g.moves);
  }

  lemma ReplayedKeepsMoves(initial: Board, moves: seq<HistMove>)
    requires InArrays(moves) && moves != []
    ensures InArrays(moves[..|moves| - 1])
    ensures Jumped(initial, moves, |moves| - 2) == Success(Initialized(Replayed(initial, moves[..|moves| - 1])))
  {
    hide Tables, Replayed;
  }

  lemma FinishCountAdds(a: seq<Event>, b: seq<Event>)
    ensures b == [] ==> FinishCount(a + b) == FinishCount(a)
    ensures |b| == 1 ==> FinishCount(a + b) == FinishCount(a) + (if b[0].FinishGame? then 1 else 0)
  {
    if b == [] { assert a + b == a; }
    if |b| == 1 { assert (a + b)[..|a + b| - 1] == a; }
  }

  /** Every update that goes through keeps a state safe, with the events it commits. */
  lemma UpdateKeepsSafe(call: Call, s: ChessState, attempt: nat, events: seq<Event>)
    requires Safe(s, events) && Updated(call, s, attempt).Success?
    ensures var t := Updated(call, s, attempt).value;
            Safe(t, events + EventsOf(call, t))
  {
    hide WellFormed, Tables, Violation, Played, Undone, FinishCount, GameSafe, IsCheckmate;
    var t := Updated(call, s, attempt).value;
    FinishCountAdds(events, EventsOf(call, t));
    match call
    case JoinGame(_, _) =>
    case MakeGameMove(player, mv) => PlayedIsSafe(s.game, mv);
    case AttemptGameUndo(player, kind) =>
      if kind == UndoAccept {
        UndoneOnlyIfMoves(s.initialBoard, s.game);
        UndoneIsSafe(s.initialBoard, s.game);
      }
    case EndGame(_) =>
  }

  lemma UndoneOnlyIfMoves(initial: Board, g: GameState)
    requires InArrays(g.moves) && Undone(initial, g).Success?
    ensures g.moves != []
  {
  }

  lemma RequestKeepsSafe(call: Call, s: ChessState, attempt: nat, events: seq<Event>)
    requires Safe(s, events) && Prepared(RequestOf(call), s, attempt).Success?
    ensures var w := Prepared(RequestOf(call), s, attempt).value;
            Safe(w.0, events + w.1)
  {
    hide Safe, Loaded, Updated, EventsOf;
    LoadedIsSafe(s, events);
    UpdateKeepsSafe(call, Loaded(s).value, attempt, events);
  }

  lemma FreshIsSafe(s: ChessState)
    requires IsFreshState(s) && WellFormed(s.initialBoard)
    ensures Safe(s, [])
  {
    hide Tables;
  }

  /** Safety over whole runs: however the joins, moves, undos and ends of any number of clients
      interleave on a newly created game, the stored state is safe. */
  lemma EveryRunIsSafe(calls: map<nat, Call>, s: ChessState, schedule: seq<nat>)
    requires IsFreshState(s) && WellFormed(s.initialBoard)
    ensures var a := Run(RequestsOf(calls), Starting(RequestsOf(calls), Some(s)), schedule);
            a.value.Some? && Safe(a.value.value, a.events)
  {
    hide Safe, IsFreshState, Prepared, Run, RequestOf;
    FreshIsSafe(s);
    var reqs := RequestsOf(calls);
    var holds := (t: ChessState, events: seq<Event>) => Safe(t, events);
    forall c, t: ChessState, i: nat, events: seq<Event> |
        c in reqs && holds(t, events) && Prepared(reqs[c], t, i).Success?
      ensures holds(Prepared(reqs[c], t, i).value.0, events + Prepared(reqs[c], t, i).value.1)
    {
      RequestKeepsSafe(calls[c], t, i, events);
    }
    SequentialPropertyLifts(reqs, s, schedule, holds);
  }

  // ----- what one state of a run says about the later ones -----

  /** An end is never taken back, and a taken seat keeps its player. */
  predicate Follows(a: ChessState, b: ChessState) {
    && (a.endState != NotEnded ==> b.endState == a.endState)
    && (a.whitePlayer.present ==> b.whitePlayer == a.whitePlayer)
    && (a.blackPlayer.present ==> b.blackPlayer == a.blackPlayer)
    && b.initialBoard == a.initialBoard
  }

  /** The same moves up to the promotions that storing drops, and the same position. */
  ghost predicate SameGame(a: GameState, b: GameState) {
    && a.board == b.board && a.takenWhite == b.takenWhite && a.takenBlack == b.takenBlack
    && AllDropped(a.moves) == AllDropped(b.moves)
  }

  lemma RequestFollows(call: Call, s: ChessState, attempt: nat, events: seq<Event>)
    requires Safe(s, events) && Prepared(RequestOf(call), s, attempt).Success?
    ensures var t := Prepared(RequestOf(call), s, attempt).value.0;
            && Follows(s, t)
            && (t.undoId != EMPTY_UNDO_ID ==> SameGame(s.game, t.game))
  {
    hide Safe, Tables, Violation, Played, Undone, IsCheckmate, EventsOf;
    LoadedIsSafe(s, events);
    var loaded := Loaded(s).value;
    assert AllDropped(loaded.game.moves) == AllDropped(s.game.moves);
  }

  /** The states of a run: the initial one, then one per commit. */
  function StateAt(s: ChessState, log: seq<Entry<ChessState, Event>>, i: nat): ChessState
    requires i <= |log|
  {
    if i == 0 then s else log[i - 1].state
  }

  lemma LastStateIsStateAt(s: ChessState, log: seq<Entry<ChessState, Event>>, i: nat)
    requires i <= |log|
    ensures LastState(Some(s), log[..i]) == Some(StateAt(s, log, i))
  {
  }

  lemma {:induction false} PrefixIsFold(reqs: Requests<ChessState, Event, PlayError>, s: ChessState, log: seq<Entry<ChessState, Event>>, i: nat)
    requires IsFold(reqs, Some(s), log) && i <= |log|
    ensures IsFold(reqs, Some(s), log[..i])
    decreases |log|
  {
    hide Prepared;
    if i == |log| {
      assert log[..i] == log;
    } else {
      PrefixIsFold(reqs, s, log[..|log| - 1], i);
      assert log[..|log| - 1][..i] == log[..i];
    }
  }

  /** Every state of a run is safe, with the events committed up to it. */
  lemma StateIsSafe(calls: map<nat, Call>, s: ChessState, log: seq<Entry<ChessState, Event>>, i: nat)
    requires IsFreshState(s) && WellFormed(s.initialBoard)
    requires IsFold(RequestsOf(calls), Some(s), log) && i <= |log|
    ensures Safe(StateAt(s, log, i), AllEvents(log[..i]))
  {
    hide Safe, IsFreshState, WellFormed, Prepared, RequestOf, IsFold;
    var reqs := RequestsOf(calls);
    LastStateIsStateAt(s, log, i);
    PrefixIsFold(reqs, s, log, i);
    FreshIsSafe(s);
    var holds := (t: ChessState, events: seq<Event>) => Safe(t, events);
    forall c, t: ChessState, k: nat, events: seq<Event> |
        c in reqs && holds(t, events) && Prepared(reqs[c], t, k).Success?
      ensures holds(Prepared(reqs[c], t, k).value.0, events + Prepared(reqs[c], t, k).value.1)
    {
      RequestKeepsSafe(calls[c], t, k, events);
    }
    FoldKeeps(reqs, s, log[..i], holds);
  }

  /** A commit of a run is its call's request, made of the state before it. */
  lemma CommitIsRequest(calls: map<nat, Call>, s: ChessState, log: seq<Entry<ChessState, Event>>, i: nat)
    requires IsFold(RequestsOf(calls), Some(s), log) && i < |log|
    ensures log[i].client in calls
    ensures Prepared(RequestOf(calls[log[i].client]), StateAt(s, log, i), log[i].attempt)
         == Success((StateAt(s, log, i + 1), log[i].events))
  {
    hide Prepared, RequestOf, IsFold;
    FoldEntry(RequestsOf(calls), Some(s), log, i);
    LastStateIsStateAt(s, log, i);
  }

  /** One commit of a run, from the state before it. */
  lemma CommitFollows(calls: map<nat, Call>, s: ChessState, log: seq<Entry<ChessState, Event>>, i: nat)
    requires IsFreshState(s) && WellFormed(s.initialBoard)
    requires IsFold(RequestsOf(calls), Some(s), log) && i < |log|
    ensures Follows(StateAt(s, log, i), StateAt(s, log, i + 1))
    ensures StateAt(s, log, i + 1).undoId != EMPTY_UNDO_ID ==>
              SameGame(StateAt(s, log, i).game, StateAt(s, log, i + 1).game)
  {
    hide Safe, IsFreshState, WellFormed, Prepared, RequestOf, Follows, SameGame, IsFold;
    StateIsSafe(calls, s, log, i);
    CommitIsRequest(calls, s, log, i);
    RequestFollows(calls[log[i].client], StateAt(s, log, i), log[i].attempt, AllEvents(log[..i]));
  }

  /** In every run: between any two commits no end is taken back and no seat changes hands. */
  lemma {:induction false} LaterStatesFollow(calls: map<nat, Call>, s: ChessState, log: seq<Entry<ChessState, Event>>, i: nat, j: nat)
    requires IsFreshState(s) && WellFormed(s.initialBoard)
    requires IsFold(RequestsOf(calls), Some(s), log) && i <= j <= |log|
    ensures Follows(StateAt(s, log, i), StateAt(s, log, j))
    decreases j
  {
    hide IsFreshState, WellFormed, IsFold;
    if i < j {
      LaterStatesFollow(calls, s, log, i, j - 1);
      CommitFollows(calls, s, log, j - 1);
    }
  }

  /** A pending undo request always refers to an unchanged game: from any state on, for as long
      as the commits after it leave a request pending, moves and position are those it had. */
  lemma {:induction false} PendingUndoKeepsGame(calls: map<nat, Call>, s: ChessState, log: seq<Entry<ChessState, Event>>, i: nat, j: nat)
    requires IsFreshState(s) && WellFormed(s.initialBoard)
    requires IsFold(RequestsOf(calls), Some(s), log) && i <= j <= |log|
    requires forall k :: i < k <= j ==> StateAt(s, log, k).undoId != EMPTY_UNDO_ID
    ensures SameGame(StateAt(s, log, i).game, StateAt(s, log, j).game)
    decreases j
  {
    hide IsFreshState, WellFormed, IsFold;
    if i < j {
      PendingUndoKeepsGame(calls, s, log, i, j - 1);
      CommitFollows(calls, s, log, j - 1);
    }
  }

  lemma ReplayedMoves(initial: Board, moves: seq<HistMove>)
    requires InArrays(moves)
    ensures Replayed(initial, moves).moves == moves
  {
    hide Moved;
  }
}
