/** A game as a value: what the `Game` object holds between two calls, and what each of
    its operations makes of it. */
module GameStates {
  import opened Wrappers
  import opened HexGrid
  import opened ChessBoard
  import opened MoveGen

  const NO_PROMOTION := 0
  const QUEEN_PROMOTION := 1
  const ROOK_PROMOTION := 2
  const BISHOP_PROMOTION := 3
  const KNIGHT_PROMOTION := 4

  datatype Move = Move(from: Hex, to: Hex, promotion: int)

  datatype HistMove = HistMove(piece: Piece, from: Hex, to: Hex, promotion: int)

  datatype MoveError = Noop | OutOfBounds | InvalidPromotion | IllegalTarget | IllegalDestination

  /** `None` stands for the nil slice a move list is before it is generated. */
  type MoveList = Option<seq<PieceMoves>>

  function Listed(list: MoveList): seq<PieceMoves> { if list.Some? then list.value else [] }

  datatype GameState = GameState(
    board: Board,
    whiteMoves: MoveList,
    blackMoves: MoveList,
    takenWhite: seq<Piece>,
    takenBlack: seq<Piece>,
    moves: seq<HistMove>)
  {
    function TurnMoves(white: bool): seq<PieceMoves> {
      if white then Listed(whiteMoves) else Listed(blackMoves)
    }

    function CurrMoves(): seq<PieceMoves> { TurnMoves(board.isWhiteTurn) }
  }

  function GetPromoPiece(promotion: int, white: bool): Piece {
    if white then
      if promotion == ROOK_PROMOTION then WHITE_ROOK
      else if promotion == BISHOP_PROMOTION then WHITE_BISHOP
      else if promotion == KNIGHT_PROMOTION then WHITE_KNIGHT
      else WHITE_QUEEN
    else
      if promotion == ROOK_PROMOTION then BLACK_ROOK
      else if promotion == BISHOP_PROMOTION then BLACK_BISHOP
      else if promotion == KNIGHT_PROMOTION then BLACK_KNIGHT
      else BLACK_QUEEN
  }

  /** Does the move take a pawn of the board to the last rank of the side to move? */
  predicate IsPromotion(b: Board, mv: Move)
    requires InArray(mv.from)
  {
    && IsPawn(Get(b, mv.from))
    && (if b.isWhiteTurn then mv.to.file < FILES && mv.to.rank == RanksPerFile(mv.to.file) - 1
        else mv.to.rank == 0)
  }

  /** The promotion that is carried out and recorded: a queen when none is named. */
  function Promoted(b: Board, mv: Move): int
    requires InArray(mv.from)
  {
    if !IsPromotion(b, mv) then NO_PROMOTION
    else if mv.promotion == NO_PROMOTION then QUEEN_PROMOTION
    else mv.promotion
  }

  function Landing(b: Board, mv: Move): Piece
    requires InArray(mv.from)
  {
    if IsPromotion(b, mv) then GetPromoPiece(Promoted(b, mv), b.isWhiteTurn) else Get(b, mv.from)
  }

  function MovedBoard(b: Board, mv: Move): Board
    requires InArray(mv.from) && InArray(mv.to)
  {
    Set(Set(b, mv.from, EMPTY), mv.to, Landing(b, mv)).(isWhiteTurn := !b.isWhiteTurn)
  }

  function HistOf(b: Board, mv: Move): HistMove
    requires InArray(mv.from)
  {
    HistMove(Get(b, mv.from), mv.from, mv.to, Promoted(b, mv))
  }

  /** The game after a move is made, before its move lists are generated again. */
  function Moved(g: GameState, mv: Move): GameState
    requires InArray(mv.from) && InArray(mv.to)
  {
    var taken := Get(g.board, mv.to);
    GameState(
      MovedBoard(g.board, mv), None, None,
      if taken != EMPTY && !g.board.isWhiteTurn then g.takenWhite + [taken] else g.takenWhite,
      if taken != EMPTY && g.board.isWhiteTurn then g.takenBlack + [taken] else g.takenBlack,
      g.moves)
  }

  /** The game with both lists generated from its board. */
  function Initialized(g: GameState): GameState {
    var t := Tables(g.board);
    g.(whiteMoves := Some(t.white), blackMoves := Some(t.black))
  }

  predicate NamesPromotion(promotion: int) { QUEEN_PROMOTION <= promotion <= KNIGHT_PROMOTION }

  /** The first entry that starts from the given hex, counting from i. */
  function EntryFrom(list: seq<PieceMoves>, from: Hex, i: nat): (r: Option<nat>)
    requires i <= |list|
    ensures r.Some? ==> i <= r.value < |list| && list[r.value].from == from
    ensures r.Some? ==> forall j :: i <= j < r.value ==> list[j].from != from
    ensures r.None? ==> forall j :: i <= j < |list| ==> list[j].from != from
    decreases |list| - i, from.file
  {
    if i == |list| then None
    else if list[i].from == from then Some(i)
    else EntryFrom(list, from, i + 1)
  }

  /** Why a move is refused, if it is: the checks in the order they are made. */
  function Violation(g: GameState, mv: Move): Option<MoveError> {
    if mv.from == mv.to then Some(Noop)
    else if !InBounds(mv.from) || !InBounds(mv.to) then Some(OutOfBounds)
    else
      InBoundsInArray(mv.from);
      if IsPromotion(g.board, mv) && !NamesPromotion(mv.promotion) then Some(InvalidPromotion)
      else
        var entry := EntryFrom(g.CurrMoves(), mv.from, 0);
        if entry.None? then Some(IllegalTarget)
        else if mv.to !in g.CurrMoves()[entry.value].moves
          then Some(IllegalDestination)
        else None
  }

  /** The game after an accepted move: made, recorded, and both lists generated again. */
  function Played(g: GameState, mv: Move): GameState
    requires Violation(g, mv).None?
  {
    InBoundsInArray(mv.from);
    InBoundsInArray(mv.to);
    Initialized(Moved(g, mv).(moves := g.moves + [HistOf(g.board, mv)]))
  }

  function Fresh(b: Board): GameState { GameState(b, None, None, [], [], []) }

  /** Is the side to move's king on an attacked hex? */
  predicate InCheck(b: Board) {
    var king := FindKing(b, b.isWhiteTurn);
    var t := Tables(b);
    king.Some? && king.value in (if b.isWhiteTurn then t.blackAttacks else t.whiteAttacks)
  }

  predicate NoMoves(list: seq<PieceMoves>) { forall i :: 0 <= i < |list| ==> list[i].moves == [] }

  predicate IsCheckmate(g: GameState) { InCheck(g.board) && NoMoves(g.CurrMoves()) }

  // ----- copies, replay and undo -----

  /** Copying a list element by element turns an empty list into a nil one. */
  function CopiedList(list: MoveList): MoveList { if Listed(list) == [] then None else list }

  function DeepCopied(g: GameState): GameState {
    g.(whiteMoves := CopiedList(g.whiteMoves), blackMoves := CopiedList(g.blackMoves))
  }

  function AsMove(hm: HistMove): Move { Move(hm.from, hm.to, hm.promotion) }

  predicate InArrays(moves: seq<HistMove>) {
    forall i :: 0 <= i < |moves| ==> InArray(moves[i].from) && InArray(moves[i].to)
  }

  /** The moves made again from an initial board, without validation. */
  function Replayed(initial: Board, moves: seq<HistMove>): GameState
    requires InArrays(moves)
    decreases |moves|, initial.isWhiteTurn
  {
    if moves == [] then Fresh(initial)
    else
      var g := Replayed(initial, moves[..|moves| - 1]);
      Moved(g, AsMove(moves[|moves| - 1])).(moves := moves)
  }

  lemma ReplayedStep(initial: Board, moves: seq<HistMove>, i: nat)
    requires InArrays(moves) && i < |moves|
    ensures InArrays(moves[..i]) && InArrays(moves[..i + 1])
    ensures Replayed(initial, moves[..i + 1])
         == Moved(Replayed(initial, moves[..i]), AsMove(moves[i])).(moves := moves[..i + 1])
    ensures Replayed(initial, moves[..i]).moves == moves[..i]
    ensures moves[..i + 1] == moves[..i] + [moves[i]]
  {
    hide Moved;
    assert moves[..i + 1][..i] == moves[..i];
  }

  datatype JumpError = JumpError(count: int, len: nat)

  /** The game as it stood after the move of the given index (-1: before the first). */
  function Jumped(initial: Board, moves: seq<HistMove>, index: int): Result<GameState, JumpError>
    requires InArrays(moves)
  {
    var count := index + 1;
    if count < 0 || count > |moves| then Failure(JumpError(count, |moves|))
    else Success(Initialized(Replayed(initial, moves[..count])))
  }
}
