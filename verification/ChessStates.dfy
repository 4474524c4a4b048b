/** The state of a game between two seats, and the four updates clients make of it: joining,
    moving, undoing and ending, each with the events it commits. */
module ChessStates {
  import opened Wrappers
  import opened ChessBoard
  import opened GameStates
  import opened Replay
  import opened Results

  const EMPTY_UNDO_ID := 0

  datatype PlayerState = PlayerState(id: int, present: bool)

  datatype EndKind = NotEnded | Aborted | Finished

  datatype GameColor = Random | White | Black

  datatype ChessState = ChessState(
    undoId: int,
    whitePlayer: PlayerState,
    blackPlayer: PlayerState,
    firstColor: GameColor,
    endState: EndKind,
    initialBoard: Board,
    game: GameState)
  {
    predicate HasBothPlayers() { whitePlayer.present && blackPlayer.present }

    predicate IsEitherPlayer(p: PlayerState) { IsSame(whitePlayer, p) || IsSame(blackPlayer, p) }

    function CurrPlayer(): PlayerState { if game.board.isWhiteTurn then whitePlayer else blackPlayer }

    predicate IsEnded() { endState != NotEnded }
  }

  predicate IsSame(p: PlayerState, q: PlayerState) { p.present && q.present && p.id == q.id }

  datatype Event =
    | UpdateMetadata(white: PlayerState, black: PlayerState)
    | FinishGame(whiteId: int, blackId: int, result: ReplayResult, cause: ReplayCause, moves: seq<HistMove>)

  datatype UndoKind = UndoCreate | UndoAccept | UndoReject

  datatype PlayError =
    | NotStarted | AlreadyEnded | NotYourTurn | InvalidMove(violation: MoveError)
    | UndoByCurrPlayer | NoUndo | UndoByCreator | UndoFailed(error: UndoError)
    | NotAPlayer | Corrupt

  // ----- the updates -----

  /** A first player takes the preferred colour (or the drawn one), a second player the other
      seat; a player already seated, or one too many, changes nothing. */
  function Joined(s: ChessState, player: PlayerState, draw: nat): ChessState {
    if !player.present then s
    else if !s.whitePlayer.present && !s.blackPlayer.present then
      if (s.firstColor == Random && draw % 2 == 0) || s.firstColor == White then s.(whitePlayer := player)
      else s.(blackPlayer := player)
    else if s.blackPlayer.present && !s.whitePlayer.present then
      if s.blackPlayer.id == player.id then s else s.(whitePlayer := player)
    else if s.whitePlayer.present && !s.blackPlayer.present then
      if s.whitePlayer.id == player.id then s else s.(blackPlayer := player)
    else s
  }

  function JoinEvents(s: ChessState): seq<Event> { [UpdateMetadata(s.whitePlayer, s.blackPlayer)] }

  /** The game with its lists generated if either is nil. */
  function Ensured(g: GameState): GameState {
    if g.whiteMoves.None? || g.blackMoves.None? then Initialized(g) else g
  }

  function MoveMade(s: ChessState, player: PlayerState, mv: Move): Result<ChessState, PlayError> {
    if !s.HasBothPlayers() then Failure(NotStarted)
    else if s.IsEnded() then Failure(AlreadyEnded)
    else if !s.CurrPlayer().present || s.CurrPlayer().id != player.id then Failure(NotYourTurn)
    else
      var g := Ensured(s.game);
      var violation := Violation(g, mv);
      if violation.Some? then Failure(InvalidMove(violation.value))
      else
        var played := Played(g, mv);
        Success(s.(game := played, undoId := EMPTY_UNDO_ID,
                   endState := if IsCheckmate(played) then Finished else s.endState))
  }

  function MoveEvents(s: ChessState): seq<Event> {
    if !s.IsEnded() || !s.HasBothPlayers() then []
    else [FinishGame(s.whitePlayer.id, s.blackPlayer.id,
                     if s.game.board.isWhiteTurn then BlackWin else WhiteWin, Checkmate, s.game.moves)]
  }

  function UndoAttempted(s: ChessState, player: PlayerState, kind: UndoKind): Result<ChessState, PlayError>
    requires InArrays(s.game.moves)
  {
    match kind
    case UndoCreate =>
      if IsSame(player, s.CurrPlayer()) then Failure(UndoByCurrPlayer)
      else Success(s.(undoId := player.id))
    case UndoAccept =>
      if s.undoId == EMPTY_UNDO_ID then Failure(NoUndo)
      else if s.undoId != player.id then
        match Undone(s.initialBoard, s.game)
        case Failure(e) => Failure(UndoFailed(e))
        case Success(g) => Success(s.(game := g, undoId := EMPTY_UNDO_ID))
      else Failure(UndoByCreator)
    case UndoReject =>
      if s.undoId == EMPTY_UNDO_ID then Failure(NoUndo)
      else Success(s.(undoId := EMPTY_UNDO_ID))
  }

  function EndMade(s: ChessState, player: PlayerState): Result<ChessState, PlayError> {
    if s.IsEnded() then Failure(AlreadyEnded)
    else if !s.IsEitherPlayer(player) then Failure(NotAPlayer)
    else Success(s.(endState := if s.HasBothPlayers() then Finished else Aborted))
  }

  function EndEvents(s: ChessState, player: PlayerState): seq<Event> {
    if !s.IsEnded() || !s.HasBothPlayers() then []
    else [FinishGame(s.whitePlayer.id, s.blackPlayer.id,
                     if s.blackPlayer.id == player.id then WhiteWin else BlackWin, Forfeit, s.game.moves)]
  }

  /** A newly created game: seats as given, nothing played, nothing pending. */
  predicate IsFreshState(s: ChessState) {
    && s.undoId == EMPTY_UNDO_ID && s.endState == NotEnded
    && s.game == Initialized(Fresh(s.initialBoard))
    && (s.HasBothPlayers() ==> s.whitePlayer.id != s.blackPlayer.id)
  }
}
