/** Replaying recorded moves: jumping to any point of a game and undoing the last move give
    back the game as it was live; over the serialized form, which drops promotions, exactly
    when every promotion so far was to a queen. */
module Replay {
  import opened Wrappers
  import opened HexGrid
  import opened ChessBoard
  import opened MoveGen
  import opened GameStates
  import opened Play

  /** A recorded move, made again, does to the board what the move did. */
  lemma RecordedMoveIsTheMove(b: Board, mv: Move)
    requires InArray(mv.from) && InArray(mv.to)
    ensures MovedBoard(b, AsMove(HistOf(b, mv))) == MovedBoard(b, mv)
  {
    hide Set;
  }

  lemma PlayedAllPrefix(g: GameState, mvs: seq<Move>, k: nat)
    requires k <= |mvs| && PlayedAll(g, mvs).Some?
    ensures PlayedAll(g, mvs[..k]).Some?
    decreases |mvs|
  {
    hide Violation, Tables, Played, PlayedAll;
    if k == |mvs| {
      assert mvs[..k] == mvs;
    } else {
      PlayedAllStep(g, mvs);
      PlayedAllPrefix(g, mvs[..|mvs| - 1], k);
      assert mvs[..|mvs| - 1][..k] == mvs[..k];
    }
  }

  /** The live game is its recorded moves replayed, with the move lists generated. */
  lemma {:induction false} LiveIsReplayed(b: Board, mvs: seq<Move>)
    requires PlayedAll(Start(b), mvs).Some?
    ensures var g := PlayedAll(Start(b), mvs).value;
            && InArrays(g.moves) && |g.moves| == |mvs|
            && g == Initialized(Replayed(b, g.moves))
    decreases |mvs|
  {
    hide Tables, Violation, MovedBoard, Promoted, PlayedAll, Replayed;
    if mvs == [] {
      LiveAtStart(b, mvs);
    } else {
      PlayedAllStep(Start(b), mvs);
      var g, n := PlayedAll(Start(b), mvs).value, |mvs| - 1;
      var before, mv := PlayedAll(Start(b), mvs[..n]).value, mvs[n];
      LiveIsReplayed(b, mvs[..n]);
      PlayedMoves(before, mv);
      AcceptedIsInBounds(before, mv);
      RecordedMoveIsTheMove(before.board, mv);
      assert g.moves[..n] == before.moves && g.moves[..n + 1] == g.moves;
      ReplayedStep(b, g.moves, n);
    }
  }

  lemma LiveAtStart(b: Board, mvs: seq<Move>)
    requires mvs == []
    ensures PlayedAll(Start(b), mvs) == Some(Start(b))
    ensures Start(b).moves == [] && Start(b) == Initialized(Replayed(b, Start(b).moves))
  {
    hide Tables;
  }

  lemma AcceptedIsInBounds(g: GameState, mv: Move)
    requires Violation(g, mv).None?
    ensures InBounds(mv.from) && InBounds(mv.to) && InArray(mv.from) && InArray(mv.to)
  {
    InBoundsInArray(mv.from);
    InBoundsInArray(mv.to);
  }

  lemma {:induction false} MovesArePrefixes(b: Board, mvs: seq<Move>, k: nat)
    requires k <= |mvs| && PlayedAll(Start(b), mvs).Some?
    ensures PlayedAll(Start(b), mvs[..k]).Some?
    ensures k <= |PlayedAll(Start(b), mvs).value.moves|
    ensures PlayedAll(Start(b), mvs).value.moves[..k] == PlayedAll(Start(b), mvs[..k]).value.moves
    decreases |mvs|
  {
    hide Violation, Played, PlayedAll, Replayed, Start;
    PlayedAllPrefix(Start(b), mvs, k);
    LiveIsReplayed(b, mvs);
    if k == |mvs| {
      assert mvs[..k] == mvs;
    } else {
      var init, mv := mvs[..|mvs| - 1], mvs[|mvs| - 1];
      PlayedAllStep(Start(b), mvs);
      PlayedMoves(PlayedAll(Start(b), init).value, mv);
      MovesArePrefixes(b, init, k);
      LiveIsReplayed(b, init);
      assert init[..k] == mvs[..k];
    }
  }

  lemma PlayedMoves(g: GameState, mv: Move)
    requires Violation(g, mv).None?
    ensures InArray(mv.from) && Played(g, mv).moves == g.moves + [HistOf(g.board, mv)]
  {
    hide Tables, Violation, HistOf;
    AcceptedIsInBounds(g, mv);
  }

  /** Jumping to just after the k-th move gives the whole game as it was live then. */
  lemma JumpIsLive(b: Board, mvs: seq<Move>, k: nat)
    requires k <= |mvs| && PlayedAll(Start(b), mvs).Some?
    ensures InArrays(PlayedAll(Start(b), mvs).value.moves)
    ensures PlayedAll(Start(b), mvs[..k]).Some?
    ensures Jumped(b, PlayedAll(Start(b), mvs).value.moves, k - 1)
         == Success(PlayedAll(Start(b), mvs[..k]).value)
  {
    hide Tables, Violation, Set, Replayed, Initialized;
    LiveIsReplayed(b, mvs);
    MovesArePrefixes(b, mvs, k);
    LiveIsReplayed(b, mvs[..k]);
  }

  datatype UndoError = NoMoveUndo

  /** Undo: the game jumped to before its last recorded move, copied. That index is always in
      range, so the jump itself cannot fail. */
  function Undone(initial: Board, g: GameState): Result<GameState, UndoError>
    requires InArrays(g.moves)
  {
    if |g.moves| == 0 then Failure(NoMoveUndo)
    else Success(DeepCopied(Jumped(initial, g.moves, |g.moves| - 2).value))
  }

  /** Undo inverts the last accepted move. */
  lemma UndoInvertsMove(b: Board, mvs: seq<Move>, mv: Move)
    requires PlayedAll(Start(b), mvs).Some?
    requires Violation(PlayedAll(Start(b), mvs).value, mv).None?
    ensures var g := PlayedAll(Start(b), mvs).value;
            && InArrays(Played(g, mv).moves)
            && Undone(b, Played(g, mv)) == Success(DeepCopied(g))
  {
    hide Tables, Violation, Set, Replayed, Initialized, Jumped;
    var all := mvs + [mv];
    assert all[..|all| - 1] == mvs;
    assert PlayedAll(Start(b), all) == Some(Played(PlayedAll(Start(b), mvs).value, mv));
    LiveIsReplayed(b, all);
    JumpIsLive(b, all, |mvs|);
  }

  // ----- after a round trip through the serialized form -----

  /** What is left of a recorded move when it has been serialized and read back. */
  function Dropped(hm: HistMove): HistMove { hm.(promotion := NO_PROMOTION) }

  function AllDropped(moves: seq<HistMove>): seq<HistMove> {
    seq(|moves|, i requires 0 <= i < |moves| => Dropped(moves[i]))
  }

  /** Is the recorded move a promotion to something other than a queen? */
  predicate IsUnderpromotion(hm: HistMove) { hm.promotion != NO_PROMOTION && hm.promotion != QUEEN_PROMOTION }

  predicate OnlyQueens(moves: seq<HistMove>) {
    forall i :: 0 <= i < |moves| ==> !IsUnderpromotion(moves[i])
  }

  predicate IsQueen(p: Piece) { p == WHITE_QUEEN || p == BLACK_QUEEN }

  /** The same piece, or a queen where the live game has another promotion of that colour. */
  predicate Similar(live: Piece, replay: Piece) {
    live == replay || (IsQueen(replay) && !IsPawn(live) && live != EMPTY && IsWhite(live) == IsWhite(replay))
  }

  ghost predicate SimilarBoards(live: Board, replay: Board) {
    live.isWhiteTurn == replay.isWhiteTurn
    && forall h: Hex :: InArray(h) ==> Similar(Get(live, h), Get(replay, h))
  }

  lemma DroppedMoveKeepsSimilar(live: Board, replay: Board, mv: Move)
    requires SimilarBoards(live, replay) && InBounds(mv.from) && InBounds(mv.to)
    requires InArray(mv.from) && InArray(mv.to)
    requires Get(live, mv.from) != EMPTY ==> IsWhite(Get(live, mv.from)) == live.isWhiteTurn
    ensures var again := AsMove(Dropped(HistOf(live, mv)));
            && SimilarBoards(MovedBoard(live, mv), MovedBoard(replay, again))
            && IsPromotion(live, mv) == IsPromotion(replay, again)
            && (IsPromotion(live, mv) ==> IsQueen(Landing(replay, again)))
  {
    hide Set;
  }

  function Queens(g: GameState): int { Material(g, WHITE_QUEEN) + Material(g, BLACK_QUEEN) }

  /** How many of the moves promote to something other than a queen. */
  function NonQueens(moves: seq<HistMove>): nat {
    if moves == [] then 0
    else NonQueens(moves[..|moves| - 1]) + One(IsUnderpromotion(moves[|moves| - 1]))
  }

  lemma {:induction false} NoNonQueens(moves: seq<HistMove>)
    ensures NonQueens(moves) == 0 <==> OnlyQueens(moves)
  {
    if moves != [] { NoNonQueens(moves[..|moves| - 1]); }
  }

  lemma QueensOfMove(g: GameState, mv: Move)
    requires InBounds(mv.from) && InBounds(mv.to) && mv.from != mv.to && InArray(mv.from) && InArray(mv.to)
    ensures Queens(Moved(g, mv)) == Queens(g) + One(IsPromotion(g.board, mv) && IsQueen(Landing(g.board, mv)))
  {
    hide Material;
    CensusOfMove(g, mv, WHITE_QUEEN);
    CensusOfMove(g, mv, BLACK_QUEEN);
  }

  lemma QueensIgnoreLists(g: GameState, h: GameState)
    requires g.board == h.board && g.takenWhite == h.takenWhite && g.takenBlack == h.takenBlack
    ensures Queens(g) == Queens(h)
  {
  }

  lemma AllDroppedPrefix(moves: seq<HistMove>, k: nat)
    requires k <= |moves|
    ensures AllDropped(moves)[..k] == AllDropped(moves[..k])
  {
  }

  /** One accepted move, made live and made again as it is stored: the boards stay similar, and
      the second gains a queen if the move promotes to another piece. */
  lemma StoredMoveGainsQueen(g: GameState, replay: GameState, mv: Move)
    requires Regenerated(g) && Violation(g, mv).None? && SimilarBoards(g.board, replay.board)
    ensures InArray(mv.from) && InArray(mv.to)
    ensures var again := AsMove(Dropped(HistOf(g.board, mv)));
            && SimilarBoards(Moved(g, mv).board, Moved(replay, again).board)
            && Queens(Moved(replay, again)) - Queens(Moved(g, mv))
               == Queens(replay) - Queens(g) + One(IsUnderpromotion(HistOf(g.board, mv)))
  {
    hide Tables, Violation, Set, Queens, Landing, IsPromotion, GetPromoPiece, MovedBoard, SimilarBoards, Regenerated;
    AcceptedMove(g, mv);
    AcceptedIsInBounds(g, mv);
    var again := AsMove(Dropped(HistOf(g.board, mv)));
    DroppedMoveKeepsSimilar(g.board, replay.board, mv);
    QueensOfMove(g, mv);
    QueensOfMove(replay, again);
    LandingIsRecorded(g.board, mv);
  }

  /** Replaying the serialized moves keeps the board similar to the live one and gains a queen
      for every other promotion. */
  lemma {:induction false} DroppedReplayGainsQueens(b: Board, mvs: seq<Move>)
    requires PlayedAll(Start(b), mvs).Some?
    ensures var g := PlayedAll(Start(b), mvs).value;
            && InArrays(g.moves) && InArrays(AllDropped(g.moves))
            && SimilarBoards(g.board, Replayed(b, AllDropped(g.moves)).board)
            && Queens(Replayed(b, AllDropped(g.moves))) == Queens(g) + NonQueens(g.moves)
    decreases |mvs|
  {
    hide Tables, Violation, Queens, Moved, HistOf, Replayed, SimilarBoards, PlayedAll;
    LiveIsReplayed(b, mvs);
    var g := PlayedAll(Start(b), mvs).value;
    if mvs == [] {
      NothingReplayed(b, mvs);
    } else {
      var n := |mvs| - 1;
      PlayedAllStep(Start(b), mvs);
      var before, mv := PlayedAll(Start(b), mvs[..n]).value, mvs[n];
      PlayedMoves(before, mv);
      DroppedReplayGainsQueens(b, mvs[..n]);
      LiveIsReplayed(b, mvs[..n]);
      assert g.moves[..n] == before.moves;
      AllDroppedPrefix(g.moves, n);
      ReplayedStep(b, AllDropped(g.moves), n);
      assert AllDropped(g.moves)[..n + 1] == AllDropped(g.moves);
      var replay := Replayed(b, AllDropped(before.moves));
      StoredMoveGainsQueen(before, replay, mv);
      QueensIgnoreLists(g, Moved(before, mv));
      QueensIgnoreLists(Replayed(b, AllDropped(g.moves)), Moved(replay, AsMove(Dropped(g.moves[n]))));
    }
  }

  /** Before any move the replay is the start. */
  lemma NothingReplayed(b: Board, mvs: seq<Move>)
    requires mvs == []
    ensures var g := Start(b);
            && PlayedAll(g, mvs) == Some(g) && g.board == b && NonQueens(g.moves) == 0
            && InArrays(g.moves) && InArrays(AllDropped(g.moves))
            && SimilarBoards(b, Replayed(b, AllDropped(g.moves)).board)
            && Queens(Replayed(b, AllDropped(g.moves))) == Queens(g)
  {
    hide Tables, Queens;
    SameIsSimilar(b);
    QueensIgnoreLists(Start(b), Replayed(b, AllDropped(Start(b).moves)));
  }

  lemma SameIsSimilar(b: Board)
    ensures SimilarBoards(b, b)
  {
  }

  lemma LandingIsRecorded(b: Board, mv: Move)
    requires InArray(mv.from) && (IsPromotion(b, mv) ==> NamesPromotion(mv.promotion))
    ensures IsUnderpromotion(HistOf(b, mv)) <==> IsPromotion(b, mv) && !IsQueen(Landing(b, mv))
  {
  }

  ghost predicate SamePosition(g: GameState, h: GameState) {
    && g.board == h.board
    && g.whiteMoves == h.whiteMoves && g.blackMoves == h.blackMoves
    && g.takenWhite == h.takenWhite && g.takenBlack == h.takenBlack
  }

  lemma DroppedQueenIsTheMove(g: GameState, hm: HistMove)
    requires InArray(hm.from) && InArray(hm.to)
    requires hm.promotion == NO_PROMOTION || hm.promotion == QUEEN_PROMOTION
    ensures Moved(g, AsMove(Dropped(hm))) == Moved(g, AsMove(hm))
  {
    hide Set;
  }

  lemma {:induction false} QueensReplayAlike(b: Board, moves: seq<HistMove>)
    requires InArrays(moves) && OnlyQueens(moves)
    ensures InArrays(AllDropped(moves))
    ensures Replayed(b, AllDropped(moves)) == Replayed(b, moves).(moves := AllDropped(moves))
    decreases |moves|
  {
    hide Moved;
    if moves != [] {
      var n := |moves| - 1;
      QueensReplayAlike(b, moves[..n]);
      AllDroppedPrefix(moves, n);
      DroppedQueenIsTheMove(Replayed(b, moves[..n]), moves[n]);
      MovedIgnoresMoves(Replayed(b, moves[..n]), AllDropped(moves[..n]), AsMove(Dropped(moves[n])));
    }
  }

  lemma MovedIgnoresMoves(g: GameState, moves: seq<HistMove>, mv: Move)
    requires InArray(mv.from) && InArray(mv.to)
    ensures Moved(g.(moves := moves), mv) == Moved(g, mv).(moves := moves)
  {
  }

  /** After the state has been serialized and read back, jumping to just after the k-th move
      gives the position the live game had then if and only if each of those k moves that
      promoted, promoted to a queen. */
  lemma JumpAfterSerdeIsLiveIffQueens(b: Board, mvs: seq<Move>, k: nat)
    requires k <= |mvs| && PlayedAll(Start(b), mvs).Some?
    ensures InArrays(AllDropped(PlayedAll(Start(b), mvs).value.moves))
    ensures PlayedAll(Start(b), mvs[..k]).Some?
    ensures k <= |PlayedAll(Start(b), mvs).value.moves|
    ensures var g := PlayedAll(Start(b), mvs).value;
            var jumped := Jumped(b, AllDropped(g.moves), k - 1);
            && jumped.Success?
            && (SamePosition(jumped.value, PlayedAll(Start(b), mvs[..k]).value) <==> OnlyQueens(g.moves[..k]))
  {
    hide Tables, Violation, Set, Replayed, Queens, OnlyQueens;
    DroppedReplayGainsQueens(b, mvs);
    MovesArePrefixes(b, mvs, k);
    DroppedReplayGainsQueens(b, mvs[..k]);
    LiveIsReplayed(b, mvs);
    LiveIsReplayed(b, mvs[..k]);
    var g, live := PlayedAll(Start(b), mvs).value, PlayedAll(Start(b), mvs[..k]).value;
    AllDroppedPrefix(g.moves, k);
    NoNonQueens(live.moves);
    var replay := Replayed(b, AllDropped(live.moves));
    if OnlyQueens(live.moves) { QueensReplayAlike(b, live.moves); }
    if SamePosition(Initialized(replay), live) { QueensIgnoreLists(replay, live); }
  }
}
