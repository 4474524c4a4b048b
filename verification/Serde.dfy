/** The mapping between a game and its wire messages: the board cell by cell, recorded moves
    without their promotion, and lists that come back nil when they were empty. */
module Serde {
  import opened Wrappers
  import opened HexGrid
  import opened ChessBoard
  import opened MoveGen
  import opened GameStates
  import opened Play
  import opened Replay
  import opened Codec

  // ----- the board -----

  function FileMessage(b: Board, f: nat): BoardFile
    requires f < FILES
  {
    RanksClosedForm(f);
    BoardFile(seq(RanksPerFile(f), r requires 0 <= r < RanksPerFile(f) => Get(b, Hex(f, r))))
  }

  function BoardMessage(b: Board): PbBoard {
    PbBoard(b.isWhiteTurn, seq(FILES, f requires 0 <= f < FILES => FileMessage(b, f)))
  }

  method SerializeBoard(b: Board) returns (m: PbBoard)
    ensures m == BoardMessage(b)
  {
    var files: seq<BoardFile> := [];
    for f := 0 to FILES
      invariant |files| == f && forall g :: 0 <= g < f ==> files[g] == FileMessage(b, g)
    {
      RanksClosedForm(f);
      var pieces: seq<Uint32> := [];
      for r := 0 to RanksPerFile(f)
        invariant |pieces| == r && forall q :: 0 <= q < r ==> pieces[q] == Get(b, Hex(f, q))
      {
        pieces := pieces + [Get(b, Hex(f, r))];
      }
      assert pieces == FileMessage(b, f).pieces;
      files := files + [BoardFile(pieces)];
    }
    assert files == BoardMessage(b).file;
    m := PbBoard(b.isWhiteTurn, files);
  }

  datatype SerdeError = OutOfRange(file: nat, rank: nat) | UnknownPiece(code: Uint32)

  /** Why a cell of the message cannot be set on a board, if it cannot. */
  function CellError(f: nat, r: nat, code: Uint32): Option<SerdeError> {
    if f >= FILES || r >= RanksPerFile(f) then Some(OutOfRange(f, r))
    else if !IsKnown(code % 256) then Some(UnknownPiece(code))
    else None
  }

  predicate Acceptable(m: PbBoard) {
    forall f, r :: 0 <= f < |m.file| && 0 <= r < |m.file[f].pieces| ==>
      CellError(f, r, m.file[f].pieces[r]).None?
  }

  /** What a message says stands on a cell: codes are cut to a byte, missing ones are empty. */
  function CellOf(m: PbBoard, f: nat, r: nat): Piece {
    if f < |m.file| && r < |m.file[f].pieces| then m.file[f].pieces[r] % 256 else EMPTY
  }

  function BoardOf(m: PbBoard): Board {
    Board(m.isWhiteTurn,
          seq(FILES, f requires 0 <= f < FILES =>
            seq(MAX_RANKS, r requires 0 <= r < MAX_RANKS => CellOf(m, f, r))))
  }

  /** The cell is the first, file by file and rank by rank, that cannot be set, and e is why. */
  ghost predicate IsRefusal(m: PbBoard, f: nat, rank: nat, e: SerdeError) {
    && f < |m.file| && rank < |m.file[f].pieces|
    && e == (if f >= FILES || rank >= RanksPerFile(f) then OutOfRange(file := f, rank := rank) else UnknownPiece(m.file[f].pieces[rank]))
    && (f < FILES && rank < RanksPerFile(f) ==> m.file[f].pieces[rank] % 256 > BLACK_KING)
    && (forall g, q :: 0 <= g < f && 0 <= q < |m.file[g].pieces| ==> CellError(g, q, m.file[g].pieces[q]).None?)
    && (forall q :: 0 <= q < rank ==> CellError(f, q, m.file[f].pieces[q]).None?)
  }

  /** Reads a board message by setting its cells one after the other on an empty board. */
  method DeserializeBoard(m: PbBoard) returns (r: Result<Board, SerdeError>)
    ensures r.Success? <==> Acceptable(m)
    ensures r.Success? ==> r.value == BoardOf(m)
    ensures r.Failure? ==> exists f, rank :: IsRefusal(m, f, rank, r.error)
  {
    var board: Board := Board(m.isWhiteTurn, EmptyPieces());
    for f := 0 to |m.file|
      invariant board.isWhiteTurn == m.isWhiteTurn
      invariant forall g, q :: 0 <= g < f && 0 <= q < |m.file[g].pieces| ==> CellError(g, q, m.file[g].pieces[q]).None?
      invariant forall h: Hex :: InArray(h) ==> Get(board, h) == if h.file < f then CellOf(m, h.file, h.rank) else EMPTY
    {
      for rank := 0 to |m.file[f].pieces|
        invariant board.isWhiteTurn == m.isWhiteTurn
        invariant forall q :: 0 <= q < rank ==> CellError(f, q, m.file[f].pieces[q]).None?
        invariant forall h: Hex :: InArray(h) ==>
                    Get(board, h) == if h.file < f || (h.file == f && h.rank < rank) then CellOf(m, h.file, h.rank) else EMPTY
      {
        var error := CellError(f, rank, m.file[f].pieces[rank]);
        if error.Some? {
          assert IsRefusal(m, f, rank, error.value);
          return Failure(error.value);
        }
        RanksClosedForm(f);
        board := Set(board, Hex(f, rank), m.file[f].pieces[rank] % 256);
      }
    }
    forall h: Hex | InArray(h)
      ensures Get(board, h) == Get(BoardOf(m), h)
    {
    }
    SameCells(board, BoardOf(m));
    r := Success(board);
  }

  /** A board comes back from its message, and as itself, exactly if it is well formed: codes
      known on every hex, and nothing on the padding. */
  lemma BoardMessageRoundTrip(b: Board)
    ensures Acceptable(BoardMessage(b)) && BoardOf(BoardMessage(b)) == b <==> WellFormed(b)
  {
    hide RanksPerFile;
    var m := BoardMessage(b);
    forall h: Hex | InArray(h)
      ensures Get(BoardOf(m), h) == if InBounds(h) then Get(b, h) else EMPTY
    {
    }
    if WellFormed(b) {
      forall f, r | 0 <= f < |m.file| && 0 <= r < |m.file[f].pieces|
        ensures CellError(f, r, m.file[f].pieces[r]).None?
      {
        RanksClosedForm(f);
        assert IsKnown(Get(b, Hex(f, r)));
      }
      SameCells(BoardOf(m), b);
    }
    if Acceptable(m) && BoardOf(m) == b {
      forall h: Hex | InArray(h)
        ensures IsKnown(Get(b, h)) && (!InBounds(h) ==> Get(b, h) == EMPTY)
      {
        if InBounds(h) { assert CellError(h.file, h.rank, m.file[h.file].pieces[h.rank]).None?; }
      }
    }
  }

  // ----- recorded moves -----

  /** The notation and the timers are not part of the modelled move. */
  function HistMoveMessage(hm: HistMove): PbHistMove {
    PbHistMove(hm.piece, hm.from.file, hm.from.rank, hm.to.file, hm.to.rank, [], 0, 0)
  }

  function HistMoveOf(m: PbHistMove): HistMove {
    HistMove(m.piece % 256, Hex(m.fromFile, m.fromRank), Hex(m.toFile, m.toRank), NO_PROMOTION)
  }

  method SerializeMoveList(moves: seq<HistMove>) returns (ms: seq<PbHistMove>)
    ensures |ms| == |moves| && forall i :: 0 <= i < |moves| ==> ms[i] == HistMoveMessage(moves[i])
  {
    ms := [];
    for i := 0 to |moves|
      invariant |ms| == i && forall j :: 0 <= j < i ==> ms[j] == HistMoveMessage(moves[j])
    {
      ms := ms + [HistMoveMessage(moves[i])];
    }
  }

  method DeserializeMoveList(ms: seq<PbHistMove>) returns (moves: seq<HistMove>)
    ensures |moves| == |ms| && forall i :: 0 <= i < |ms| ==> moves[i] == HistMoveOf(ms[i])
  {
    moves := [];
    for i := 0 to |ms|
      invariant |moves| == i && forall j :: 0 <= j < i ==> moves[j] == HistMoveOf(ms[j])
    {
      moves := moves + [HistMoveOf(ms[i])];
    }
  }

  // ----- a game -----

  datatype PbPieceMoves = PbPieceMoves(piece: Uint32, from: Hex, moves: seq<Hex>)

  datatype PbGame = PbGame(board: PbBoard, whiteMoves: seq<PbPieceMoves>, blackMoves: seq<PbPieceMoves>,
                           takenWhite: seq<Uint32>, takenBlack: seq<Uint32>, moves: seq<PbHistMove>)

  function PiecesMessage(pieces: seq<Piece>): seq<Uint32> {
    seq(|pieces|, i requires 0 <= i < |pieces| => pieces[i])
  }

  function PiecesOf(codes: seq<Uint32>): seq<Piece> {
    seq(|codes|, i requires 0 <= i < |codes| => codes[i] % 256)
  }

  function ListMessage(list: MoveList): seq<PbPieceMoves> {
    var from := Listed(list);
    seq(|from|, i requires 0 <= i < |from| => PbPieceMoves(from[i].piece, from[i].from, from[i].moves))
  }

  function ListOf(ms: seq<PbPieceMoves>): MoveList {
    if |ms| == 0 then None
    else Some(seq(|ms|, i requires 0 <= i < |ms| => PieceMoves(ms[i].piece % 256, ms[i].from, ms[i].moves)))
  }

  method SerializeGame(g: GameState) returns (m: PbGame)
    ensures m == GameMessage(g)
  {
    var board := SerializeBoard(g.board);
    var moves := SerializeMoveList(g.moves);
    assert moves == GameMessage(g).moves;
    m := PbGame(board, ListMessage(g.whiteMoves), ListMessage(g.blackMoves),
                PiecesMessage(g.takenWhite), PiecesMessage(g.takenBlack), moves);
  }

  function GameMessage(g: GameState): PbGame {
    PbGame(BoardMessage(g.board), ListMessage(g.whiteMoves), ListMessage(g.blackMoves),
           PiecesMessage(g.takenWhite), PiecesMessage(g.takenBlack),
           seq(|g.moves|, i requires 0 <= i < |g.moves| => HistMoveMessage(g.moves[i])))
  }

  function GameOf(m: PbGame): GameState {
    GameState(BoardOf(m.board), ListOf(m.whiteMoves), ListOf(m.blackMoves),
              PiecesOf(m.takenWhite), PiecesOf(m.takenBlack),
              seq(|m.moves|, i requires 0 <= i < |m.moves| => HistMoveOf(m.moves[i])))
  }

  /** What the message of a game holds where: the cells by file and rank, each side's list and
      taken pieces under its own colour, and the moves in order. */
  lemma GameMessageHolds(g: GameState)
    ensures var m := GameMessage(g);
            && m.board.isWhiteTurn == g.board.isWhiteTurn && |m.board.file| == 11
            && (forall f :: 0 <= f < 11 ==> |m.board.file[f].pieces| == RanksPerFile(f))
            && (forall h: Hex :: InBounds(h) && InArray(h) ==> m.board.file[h.file].pieces[h.rank] == Get(g.board, h))
            && |m.whiteMoves| == |g.TurnMoves(true)| && |m.blackMoves| == |g.TurnMoves(false)|
            && (forall i :: 0 <= i < |m.whiteMoves| ==>
                  var e := g.TurnMoves(true)[i]; m.whiteMoves[i] == PbPieceMoves(e.piece, e.from, e.moves))
            && (forall i :: 0 <= i < |m.blackMoves| ==>
                  var e := g.TurnMoves(false)[i]; m.blackMoves[i] == PbPieceMoves(e.piece, e.from, e.moves))
            && m.takenWhite == PiecesMessage(g.takenWhite) && m.takenBlack == PiecesMessage(g.takenBlack)
            && |m.moves| == |g.moves|
  {
    forall f | 0 <= f < 11
      ensures |GameMessage(g).board.file[f].pieces| == RanksPerFile(f)
    {
      RanksClosedForm(f);
    }
  }

  method DeserializeGame(m: PbGame) returns (r: Result<GameState, SerdeError>)
    ensures r.Success? <==> Acceptable(m.board)
    ensures r.Success? ==> r.value == GameOf(m)
    ensures r.Failure? ==> exists f, rank :: IsRefusal(m.board, f, rank, r.error)
  {
    var board := DeserializeBoard(m.board);
    if board.Failure? {
      return Failure(board.error);
    }
    var moves := DeserializeMoveList(m.moves);
    assert moves == GameOf(m).moves;
    r := Success(GameState(board.value, ListOf(m.whiteMoves), ListOf(m.blackMoves),
                           PiecesOf(m.takenWhite), PiecesOf(m.takenBlack), moves));
  }

  lemma ListRoundTrip(list: MoveList)
    ensures ListOf(ListMessage(list)) == CopiedList(list)
  {
    if Listed(list) != [] { assert ListOf(ListMessage(list)).value == Listed(list); }
  }

  /** A game with a well-formed board comes back as its copy, its recorded moves without their
      promotions. */
  lemma GameRoundTrip(g: GameState)
    requires WellFormed(g.board)
    ensures Acceptable(GameMessage(g).board)
    ensures GameOf(GameMessage(g)) == DeepCopied(g).(moves := AllDropped(g.moves))
  {
    hide WellFormed, BoardMessage, BoardOf, Acceptable;
    BoardMessageRoundTrip(g.board);
    ListRoundTrip(g.whiteMoves);
    ListRoundTrip(g.blackMoves);
    assert PiecesOf(PiecesMessage(g.takenWhite)) == g.takenWhite;
    assert PiecesOf(PiecesMessage(g.takenBlack)) == g.takenBlack;
    assert GameOf(GameMessage(g)).moves == AllDropped(g.moves);
  }

  /** The position a game jumps back to is the one before its last move if and only if no move
      before that one promoted to anything but a queen. */
  lemma JumpBackFrom(b: Board, all: seq<Move>, n: nat)
    requires |all| == n + 1 && PlayedAll(Start(b), all).Some?
    ensures PlayedAll(Start(b), all[..n]).Some?
    ensures var g, moves := PlayedAll(Start(b), all[..n]).value, AllDropped(PlayedAll(Start(b), all).value.moves);
            && |moves| == n + 1 && InArrays(moves)
            && Jumped(b, moves, n - 1).Success?
            && (SamePosition(Jumped(b, moves, n - 1).value, g) <==> OnlyQueens(g.moves))
  {
    hide Tables, Violation, PlayedAll, Jumped, OnlyQueens, SamePosition, Start, Replayed;
    LiveIsReplayed(b, all);
    MovesArePrefixes(b, all, n);
    JumpAfterSerdeIsLiveIffQueens(b, all, n);
  }

  lemma JumpBackOne(b: Board, mvs: seq<Move>, mv: Move)
    requires PlayedAll(Start(b), mvs).Some?
    requires Violation(PlayedAll(Start(b), mvs).value, mv).None?
    ensures var g := PlayedAll(Start(b), mvs).value;
            var moves := AllDropped(Played(g, mv).moves);
            && |moves| == |mvs| + 1 && InArrays(moves)
            && Jumped(b, moves, |mvs| - 1).Success?
            && (SamePosition(Jumped(b, moves, |mvs| - 1).value, g) <==> OnlyQueens(g.moves))
  {
    hide Tables, Violation, Played, PlayedAll, Jumped, OnlyQueens, SamePosition, Start, Replayed, AllDropped;
    var all := mvs + [mv];
    assert all[..|mvs|] == mvs && all[..|all| - 1] == mvs;
    OneMorePlayed(Start(b), all, mv);
    JumpBackFrom(b, all, |mvs|);
  }

  lemma OneMorePlayed(g: GameState, all: seq<Move>, mv: Move)
    requires all != [] && all[|all| - 1] == mv && PlayedAll(g, all[..|all| - 1]).Some?
    requires Violation(PlayedAll(g, all[..|all| - 1]).value, mv).None?
    ensures PlayedAll(g, all) == Some(Played(PlayedAll(g, all[..|all| - 1]).value, mv))
  {
    hide Violation, Played;
  }

  /** Copying leaves generated lists the same, but for empty ones. */
  lemma CopiesAlike(b: Board, moves: seq<HistMove>, index: int, g: GameState)
    requires InArrays(moves) && -1 <= index < |moves| && g == Initialized(g)
    ensures Jumped(b, moves, index).Success?
    ensures SamePosition(DeepCopied(Jumped(b, moves, index).value), DeepCopied(g))
        <==> SamePosition(Jumped(b, moves, index).value, g)
  {
    hide Tables, Replayed, Jumped;
    JumpedIsInitialized(b, moves, index);
  }

  /** Undo on a game that has been stored and read back: it gives the position before the last
      move if and only if no move before it promoted to anything but a queen. */
  lemma UndoOfStoredGame(b: Board, mvs: seq<Move>, mv: Move)
    requires WellFormed(b) && NoStrandedPawns(b)
    requires PlayedAll(Start(b), mvs).Some?
    requires Violation(PlayedAll(Start(b), mvs).value, mv).None?
    ensures var g := PlayedAll(Start(b), mvs).value;
            var stored := GameOf(GameMessage(Played(g, mv)));
            && InArrays(stored.moves)
            && Undone(b, stored).Success?
            && (SamePosition(Undone(b, stored).value, DeepCopied(g)) <==> OnlyQueens(g.moves))
  {
    hide Tables, Violation, Played, PlayedAll, Jumped, Replayed, WellFormed, NoStrandedPawns, OnlyQueens, GameMessage, GameOf;
    hide DeepCopied, SamePosition, Start;
    var g := PlayedAll(Start(b), mvs).value;
    PlayedIsWellFormed(b, mvs, mv);
    GameRoundTrip(Played(g, mv));
    JumpBackOne(b, mvs, mv);
    LiveIsReplayed(b, mvs);
    CopiesAlike(b, AllDropped(Played(g, mv).moves), |mvs| - 1, g);
    CopyKeepsMoves(Played(g, mv), AllDropped(Played(g, mv).moves));
  }

  lemma PlayedIsWellFormed(b: Board, mvs: seq<Move>, mv: Move)
    requires WellFormed(b) && NoStrandedPawns(b)
    requires PlayedAll(Start(b), mvs).Some?
    requires Violation(PlayedAll(Start(b), mvs).value, mv).None?
    ensures WellFormed(Played(PlayedAll(Start(b), mvs).value, mv).board)
  {
    hide Violation, Played, PlayedAll, WellFormed, NoStrandedPawns;
    var all := mvs + [mv];
    assert all[..|all| - 1] == mvs;
    OneMorePlayed(Start(b), all, mv);
    RunKeepsSane(b, all, true);
  }

  lemma CopyKeepsMoves(g: GameState, moves: seq<HistMove>)
    ensures DeepCopied(g).(moves := moves).moves == moves
  {
  }

  lemma JumpedIsInitialized(b: Board, moves: seq<HistMove>, index: int)
    requires InArrays(moves) && -1 <= index < |moves|
    ensures Jumped(b, moves, index).Success?
    ensures var g := Jumped(b, moves, index).value;
            g.whiteMoves == Some(Tables(g.board).white) && g.blackMoves == Some(Tables(g.board).black)
  {
    hide Tables, Replayed;
  }
}
