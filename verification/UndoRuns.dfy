/** Undo over whole runs, in which every commit stores the state and reads it back: when an
    accepted request gives back the position before the last move. */
module UndoRuns {
  import opened Wrappers
  import opened HexGrid
  import opened ChessBoard
  import opened MoveGen
  import opened GameStates
  import opened Play
  import opened Positions
  import opened Replay
  import opened Serde
  import opened ChessStates
  import opened Txn
  import opened Protocol
  import opened EndedGames
  import opened Underpromotions

  /** The same pieces on the board and the same ones taken. */
  predicate SamePlace(a: GameState, b: GameState) {
    a.board == b.board && a.takenWhite == b.takenWhite && a.takenBlack == b.takenBlack
  }

  /** What the stored moves replay to, against the game as it stands: similar boards, and a
      queen more for each of n promotions that were to something else. */
  ghost predicate ReplayGains(initial: Board, g: GameState, n: nat) {
    && InArrays(AllDropped(g.moves))
    && var replay := Replayed(initial, AllDropped(g.moves));
       && SimilarBoards(g.board, replay.board)
       && Queens(replay) == Queens(g) + n
       && (n == 0 ==> SamePlace(g, replay))
  }

  /** The replay is the game exactly if nothing was gained. */
  lemma SamePlaceIff(initial: Board, g: GameState, n: nat)
    requires ReplayGains(initial, g, n)
    ensures InArrays(AllDropped(g.moves))
    ensures SamePlace(g, Replayed(initial, AllDropped(g.moves))) <==> n == 0
  {
    hide Queens, Replayed, SimilarBoards;
    var replay := Replayed(initial, AllDropped(g.moves));
    if SamePlace(g, replay) { QueensIgnoreLists(g, replay); }
  }

  lemma SameGameGains(initial: Board, a: GameState, b: GameState, n: nat)
    requires ReplayGains(initial, a, n) && SameGame(a, b)
    ensures ReplayGains(initial, b, n)
  {
    hide Queens, Replayed, SimilarBoards;
    QueensIgnoreLists(a, b);
  }

  // ----- one commit -----

  /** What a call that goes through does to the game: a move is made, a move is taken back, or
      the game stays. */
  lemma RequestEffect(call: Call, s: ChessState, attempt: nat, events: seq<Event>)
    requires Safe(s, events) && Prepared(RequestOf(call), s, attempt).Success?
    ensures Loaded(s).Success? && InArrays(Loaded(s).value.game.moves)
    ensures var t, loaded := Prepared(RequestOf(call), s, attempt).value.0, Loaded(s).value;
            && t.initialBoard == s.initialBoard
            && (call.MakeGameMove? ==>
                  Violation(Ensured(loaded.game), call.move).None? && t.game == Played(Ensured(loaded.game), call.move))
            && (TakesBack(call, s) ==>
                  Undone(s.initialBoard, loaded.game).Success? && t.game == Undone(s.initialBoard, loaded.game).value)
            && (!call.MakeGameMove? && !TakesBack(call, s) ==> SameGame(s.game, t.game))
  {
    hide Safe, EventsOf, Acceptable, BoardOf, GameOf, BoardMessage, GameMessage, Violation, Played, Undone, IsCheckmate;
    LoadedIsSafe(s, events);
    LoadedKeeps(s, events);
    var loaded := Loaded(s).value;
    NeverCorrupt(call, loaded, attempt, events);
    UndoneDropsLast(loaded.initialBoard, loaded.game);
  }

  lemma DroppedTwice(moves: seq<HistMove>, hm: HistMove)
    ensures AllDropped(AllDropped(moves)) == AllDropped(moves)
    ensures var all := AllDropped(moves) + [hm];
            && AllDropped(all)[..|moves|] == AllDropped(moves)
            && AllDropped(all)[|moves|] == Dropped(hm) && |AllDropped(all)| == |moves| + 1
  {
  }

  /** A move is played on the game as read back. */
  lemma MoveGains(initial: Board, g: GameState, read: GameState, mv: Move, n: nat)
    requires ReplayGains(initial, g, n)
    requires Regenerated(read) && SamePlace(read, g) && read.moves == AllDropped(g.moves)
    requires Violation(read, mv).None?
    ensures InArray(mv.from)
    ensures ReplayGains(initial, Played(read, mv), n + One(IsUnderpromotion(HistOf(read.board, mv))))
  {
    hide Tables, Violation, Queens, Replayed, SimilarBoards, Moved, HistOf, Regenerated, IsUnderpromotion, AllDropped, Played;
    AcceptedIsInBounds(read, mv);
    PlayedMoves(read, mv);
    var hm, played := HistOf(read.board, mv), Played(read, mv);
    var replay, all := Replayed(initial, AllDropped(g.moves)), AllDropped(played.moves);
    DroppedTwice(g.moves, hm);
    AcceptedToArrays(read, mv);
    LongerInArrays(g.moves, all);
    ReplayedStep(initial, all, |g.moves|);
    assert all[..|g.moves| + 1] == all;
    StoredMoveGainsQueen(read, replay, mv);
    QueensIgnoreLists(read, g);
    PlayedPlace(read, mv);
    var again := Moved(replay, AsMove(Dropped(hm)));
    assert SamePlace(Replayed(initial, all), again);
    QueensIgnoreLists(played, Moved(read, mv));
    QueensIgnoreLists(Replayed(initial, all), again);
    if !IsUnderpromotion(hm) && SamePlace(g, replay) { QueenReplayedAlike(read, replay, mv); }
  }

  lemma AcceptedToArrays(g: GameState, mv: Move)
    requires Violation(g, mv).None?
    ensures InArray(mv.from) && InArray(mv.to) && Dropped(HistOf(g.board, mv)).from == mv.from && Dropped(HistOf(g.board, mv)).to == mv.to
  {
    hide Violation;
    AcceptedIsInBounds(g, mv);
  }

  lemma LongerInArrays(moves: seq<HistMove>, all: seq<HistMove>)
    requires InArrays(AllDropped(moves)) && |all| == |moves| + 1 && all[..|moves|] == AllDropped(moves)
    requires InArray(all[|moves|].from) && InArray(all[|moves|].to)
    ensures InArrays(all)
  {
    hide InArray, AllDropped;
    forall i | 0 <= i < |all|
      ensures InArray(all[i].from) && InArray(all[i].to)
    {
      if i < |moves| { assert all[i] == all[..|moves|][i]; }
    }
  }

  lemma PlayedPlace(g: GameState, mv: Move)
    requires Violation(g, mv).None?
    ensures InArray(mv.from) && InArray(mv.to) && SamePlace(Played(g, mv), Moved(g, mv))
  {
    hide Tables, Violation, MovedBoard;
    AcceptedIsInBounds(g, mv);
  }

  /** From the same place a move and its stored form lead to the same place, but for another
      promotion than to a queen. */
  lemma QueenReplayedAlike(g: GameState, replay: GameState, mv: Move)
    requires InArray(mv.from) && InArray(mv.to) && SamePlace(g, replay) && !IsUnderpromotion(HistOf(g.board, mv))
    ensures SamePlace(Moved(g, mv), Moved(replay, AsMove(Dropped(HistOf(g.board, mv)))))
  {
    hide MovedBoard;
    DroppedQueenIsTheMove(replay, HistOf(g.board, mv));
    RecordedMoveIsTheMove(g.board, mv);
  }

  /** Taking a move back leaves a game that is its own replay. */
  lemma UndoneGains(initial: Board, read: GameState, moves: seq<HistMove>)
    requires read.moves == AllDropped(moves) && InArrays(read.moves) && read.moves != []
    ensures Undone(initial, read).Success?
    ensures var g := Undone(initial, read).value;
            && AllDropped(g.moves) == AllDropped(moves)[..|moves| - 1]
            && ReplayGains(initial, g, 0)
  {
    hide Tables, Queens, Replayed;
    UndoneDropsLast(initial, read);
    ReplayedKeepsMoves(initial, read.moves);
    var g, kept := Undone(initial, read).value, read.moves[..|read.moves| - 1];
    AllDroppedPrefix(moves, |moves| - 1);
    DroppedTwice(moves[..|moves| - 1], moves[|moves| - 1]);
    assert AllDropped(g.moves) == kept;
    SameIsSimilar(g.board);
    QueensIgnoreLists(g, Replayed(initial, kept));
  }

  // ----- over runs -----

  /** The promotions to something else than a queen among the first i commits, counted anew
      after each move taken back. */
  function Lost(calls: map<nat, Call>, s: ChessState, log: seq<Entry<ChessState, Event>>, i: nat): nat
    requires i <= |log|
  {
    if i == 0 || log[i - 1].client !in calls then 0
    else
      var call, moves := calls[log[i - 1].client], StateAt(s, log, i).game.moves;
      if TakesBack(call, StateAt(s, log, i - 1)) then 0
      else Lost(calls, s, log, i - 1) + One(call.MakeGameMove? && moves != [] && IsUnderpromotion(moves[|moves| - 1]))
  }

  lemma FreshGains(s: ChessState)
    requires IsFreshState(s)
    ensures ReplayGains(s.initialBoard, s.game, 0)
  {
    hide Tables, Queens;
    SameIsSimilar(s.initialBoard);
    assert AllDropped(s.game.moves) == [];
    QueensIgnoreLists(s.game, Replayed(s.initialBoard, AllDropped(s.game.moves)));
  }

  lemma RequestGains(call: Call, s: ChessState, attempt: nat, events: seq<Event>, n: nat)
    requires Safe(s, events) && Prepared(RequestOf(call), s, attempt).Success?
    requires ReplayGains(s.initialBoard, s.game, n)
    ensures var t := Prepared(RequestOf(call), s, attempt).value.0;
            && t.initialBoard == s.initialBoard
            && ReplayGains(s.initialBoard, t.game,
                 if TakesBack(call, s) then 0
                 else n + One(call.MakeGameMove? && t.game.moves != [] && IsUnderpromotion(t.game.moves[|t.game.moves| - 1])))
            && (TakesBack(call, s) ==> AllDropped(t.game.moves) == AllDropped(s.game.moves)[..|s.game.moves| - 1])
            && (call.MakeGameMove? ==>
                  && |t.game.moves| == |s.game.moves| + 1
                  && AllDropped(t.game.moves)[..|s.game.moves|] == AllDropped(s.game.moves))
  {
    hide Safe, Prepared, RequestOf, ReplayGains, Violation, Played, Undone, Loaded, Ensured, HistOf, IsUnderpromotion, AllDropped, SameGame, DeepCopied;
    RequestEffect(call, s, attempt, events);
    LoadedIsSafe(s, events);
    var t, loaded := Prepared(RequestOf(call), s, attempt).value.0, Loaded(s).value;
    ReadBack(s, loaded, events);
    if call.MakeGameMove? {
      var read, mv := Ensured(loaded.game), call.move;
      MoveGains(s.initialBoard, s.game, read, mv, n);
      PlayedMoves(read, mv);
      DroppedTwice(s.game.moves, HistOf(read.board, mv));
    } else if TakesBack(call, s) {
      UndoneGains(s.initialBoard, loaded.game, s.game.moves);
    } else {
      SameGameGains(s.initialBoard, s.game, t.game, n);
    }
  }

  /** The game read back, its lists generated if they were empty. */
  lemma ReadBack(s: ChessState, loaded: ChessState, events: seq<Event>)
    requires Safe(s, events) && loaded.game == DeepCopied(s.game).(moves := AllDropped(s.game.moves))
    ensures loaded.game.moves == AllDropped(s.game.moves) && |loaded.game.moves| == |s.game.moves|
    ensures var read := Ensured(loaded.game);
            Regenerated(read) && SamePlace(read, s.game) && read.moves == AllDropped(s.game.moves)
  {
    hide WellFormed, Tables, FinishCount;
  }

  lemma CommitGains(calls: map<nat, Call>, s: ChessState, log: seq<Entry<ChessState, Event>>, i: nat)
    requires IsFreshState(s) && WellFormed(s.initialBoard)
    requires IsFold(RequestsOf(calls), Some(s), log) && i < |log|
    requires StateAt(s, log, i).initialBoard == s.initialBoard
    requires ReplayGains(s.initialBoard, StateAt(s, log, i).game, Lost(calls, s, log, i))
    ensures StateAt(s, log, i + 1).initialBoard == s.initialBoard
    ensures ReplayGains(s.initialBoard, StateAt(s, log, i + 1).game, Lost(calls, s, log, i + 1))
    ensures log[i].client in calls
    ensures var call, before, after := calls[log[i].client], StateAt(s, log, i), StateAt(s, log, i + 1);
            && (TakesBack(call, before) ==>
                  AllDropped(after.game.moves) == AllDropped(before.game.moves)[..|before.game.moves| - 1])
            && (call.MakeGameMove? ==>
                  && |after.game.moves| == |before.game.moves| + 1
                  && AllDropped(after.game.moves)[..|before.game.moves|] == AllDropped(before.game.moves))
  {
    hide Safe, IsFreshState, WellFormed, Prepared, RequestOf, IsFold, ReplayGains, AllDropped, IsUnderpromotion;
    StateIsSafe(calls, s, log, i);
    CommitIsRequest(calls, s, log, i);
    RequestGains(calls[log[i].client], StateAt(s, log, i), log[i].attempt, AllEvents(log[..i]), Lost(calls, s, log, i));
  }

  /** In every run, at every commit: the stored moves replay to the game as it stands, but for a
      queen more for each promotion lost since a move was last taken back. */
  lemma {:induction false} EveryStateGains(calls: map<nat, Call>, s: ChessState, log: seq<Entry<ChessState, Event>>, i: nat)
    requires IsFreshState(s) && WellFormed(s.initialBoard)
    requires IsFold(RequestsOf(calls), Some(s), log) && i <= |log|
    ensures StateAt(s, log, i).initialBoard == s.initialBoard
    ensures ReplayGains(s.initialBoard, StateAt(s, log, i).game, Lost(calls, s, log, i))
    decreases i
  {
    hide IsFreshState, WellFormed, IsFold, ReplayGains, Lost, TakesBack, AllDropped;
    if i == 0 {
      FreshGains(s);
      NothingLost(calls, s, log, i);
    } else {
      EveryStateGains(calls, s, log, i - 1);
      CommitGains(calls, s, log, i - 1);
    }
  }

  lemma NothingLost(calls: map<nat, Call>, s: ChessState, log: seq<Entry<ChessState, Event>>, i: nat)
    requires i == 0
    ensures Lost(calls, s, log, i) == 0 && StateAt(s, log, i) == s
  {
  }

  /** Undo in every run: when a later commit takes back the move that commit k made, it gives
      the position from before that move if and only if no promotion had been lost by then. */
  lemma UndoGivesPositionIffNoneLost(calls: map<nat, Call>, s: ChessState, log: seq<Entry<ChessState, Event>>, k: nat, j: nat)
    requires IsFreshState(s) && WellFormed(s.initialBoard)
    requires IsFold(RequestsOf(calls), Some(s), log) && k < j < |log|
    requires log[k].client in calls && calls[log[k].client].MakeGameMove?
    requires log[j].client in calls && TakesBack(calls[log[j].client], StateAt(s, log, j))
    requires AllDropped(StateAt(s, log, j).game.moves) == AllDropped(StateAt(s, log, k + 1).game.moves)
    ensures AllDropped(StateAt(s, log, j + 1).game.moves) == AllDropped(StateAt(s, log, k).game.moves)
    ensures SamePlace(StateAt(s, log, k).game, StateAt(s, log, j + 1).game) <==> Lost(calls, s, log, k) == 0
  {
    hide IsFreshState, WellFormed, IsFold, ReplayGains, TakesBack, SamePlace, Replayed, StateAt;
    EveryStateGains(calls, s, log, k);
    EveryStateGains(calls, s, log, j);
    EveryStateGains(calls, s, log, j + 1);
    CommitGains(calls, s, log, k);
    CommitGains(calls, s, log, j);
    LostAfterUndo(calls, s, log, j);
    var before, after := StateAt(s, log, k).game, StateAt(s, log, j + 1).game;
    assert |StateAt(s, log, j).game.moves| == |AllDropped(StateAt(s, log, j).game.moves)| == |before.moves| + 1;
    SamePlaceIff(s.initialBoard, before, Lost(calls, s, log, k));
    SamePlaceIff(s.initialBoard, after, 0);
    SamePlaceAcross(before, after, Replayed(s.initialBoard, AllDropped(after.moves)));
  }

  lemma SamePlaceAcross(a: GameState, b: GameState, c: GameState)
    requires SamePlace(b, c)
    ensures SamePlace(a, b) <==> SamePlace(a, c)
  {
  }

  lemma LostAfterUndo(calls: map<nat, Call>, s: ChessState, log: seq<Entry<ChessState, Event>>, j: nat)
    requires j < |log| && log[j].client in calls && TakesBack(calls[log[j].client], StateAt(s, log, j))
    ensures Lost(calls, s, log, j + 1) == 0
  {
  }

  // ----- a run that undoes to another position -----

  /** The calls of the run: a promotion to a knight, a reply, and the reply taken back. */
  function LostPromotion(white: PlayerState, black: PlayerState, first: Move, reply: Move): map<nat, Call> {
    map[0 := MakeGameMove(white, first), 1 := MakeGameMove(black, reply),
        2 := AttemptGameUndo(black, UndoCreate), 3 := AttemptGameUndo(white, UndoAccept)]
  }

  /** The reply is accepted of the game as it is read back, and does not mate. */
  lemma ReplyToStored(b: Board, first: Move, reply: Move, t: ChessState)
    requires IsTwoPawns(b) && first == Move(Hex(0, 4), Hex(0, 5), KNIGHT_PROMOTION)
    requires reply == Move(Hex(5, 5), Hex(5, 4), NO_PROMOTION)
    requires Violation(Start(b), first).None? && Safe(t, []) && t.game == Played(Start(b), first)
    ensures Loaded(t).Success?
    ensures Violation(Ensured(Loaded(t).value.game), reply).None?
    ensures !IsCheckmate(Played(Ensured(Loaded(t).value.game), reply))
  {
    hide IsTwoPawns, Tables, Violation, InCheck, MovedBoard, Safe, Ensured, Regenerated;
    hide Acceptable, BoardOf, GameOf, BoardMessage, GameMessage, HistOf, IsPromotion, NoMoves;
    LoadedIsSafe(t, []);
    var loaded := Loaded(t).value;
    ReadBack(t, loaded, []);
    var read := Ensured(loaded.game);
    ReplyIsAccepted(b, first, reply);
    PlayedLists(b, first);
    PlayedIsRegenerated(Start(b), first);
    SameLists(read, Played(Start(b), first));
    SameViolation(Played(Start(b), first), read, reply);
    AfterPromotion(b, first, reply);
    NoKingsAfter(MovedBoard(b, first), reply);
    BoardOfPlayed(read, reply);
  }

  lemma PlayedIsRegenerated(g: GameState, mv: Move)
    requires Violation(g, mv).None?
    ensures Regenerated(Played(g, mv))
  {
    hide Tables, Violation, MovedBoard, HistOf;
  }

  lemma SameLists(g: GameState, h: GameState)
    requires Regenerated(g) && Regenerated(h) && g.board == h.board
    ensures g.CurrMoves() == h.CurrMoves()
  {
    hide Tables;
  }

  lemma BoardOfPlayed(g: GameState, mv: Move)
    requires Violation(g, mv).None?
    ensures InArray(mv.from) && InArray(mv.to) && Played(g, mv).board == MovedBoard(g.board, mv)
  {
    hide Tables, Violation, MovedBoard, HistOf;
    AcceptedIsInBounds(g, mv);
  }

  lemma NoKingsAfter(b: Board, mv: Move)
    requires InArray(mv.from) && InArray(mv.to) && Get(b, mv.from) == BLACK_PAWN && !IsPromotion(b, mv)
    requires forall h: Hex :: InArray(h) ==> Get(b, h) != WHITE_KING && Get(b, h) != BLACK_KING
    ensures !InCheck(MovedBoard(b, mv))
  {
    hide MovedBoard, InCheck, IsPromotion;
    forall h: Hex | InArray(h)
      ensures Get(MovedBoard(b, mv), h) != WHITE_KING && Get(MovedBoard(b, mv), h) != BLACK_KING
    {
      MovedCells(b, mv, h);
    }
    NoKingsNoCheck(MovedBoard(b, mv));
  }

  lemma LostAfterFirst(calls: map<nat, Call>, s: ChessState, log: seq<Entry<ChessState, Event>>, k: nat)
    requires k == 1 && k <= |log| && log[0].client in calls && calls[log[0].client].MakeGameMove?
    requires log[0].state.game.moves != [] && IsUnderpromotion(log[0].state.game.moves[|log[0].state.game.moves| - 1])
    ensures Lost(calls, s, log, k) == 1
  {
    var none := k - 1;
    NothingLost(calls, s, log, none);
  }

  /** There are runs in which undo gives another position than the one before the move. */
  lemma SomeUndoGivesAnotherPosition() returns (s: ChessState, calls: map<nat, Call>, schedule: seq<nat>)
    ensures IsFreshState(s) && WellFormed(s.initialBoard)
    ensures var a := Run(RequestsOf(calls), Starting(RequestsOf(calls), Some(s)), schedule);
            && IsFold(RequestsOf(calls), Some(s), a.log) && |a.log| == 4
            && AllDropped(StateAt(s, a.log, 4).game.moves) == AllDropped(StateAt(s, a.log, 1).game.moves)
            && !SamePlace(StateAt(s, a.log, 1).game, StateAt(s, a.log, 4).game)
  {
    hide Violation, IsCheckmate, Tables, Run, IsFold, WellFormed, NoStrandedPawns, IsTwoPawns, SameGame, SamePlace, Played;
    hide Prepared, RequestOf, Safe, AllDropped, Ensured, Loaded, IsUnderpromotion;
    var b := TwoPawns();
    var first, reply := Move(Hex(0, 4), Hex(0, 5), KNIGHT_PROMOTION), Move(Hex(5, 5), Hex(5, 4), NO_PROMOTION);
    var white, black := PlayerState(1, true), PlayerState(2, true);
    FirstIsAccepted(b, first);
    NoMate(b, first);
    WhiteToMove(b);
    s := ChessState(EMPTY_UNDO_ID, white, black, White, NotEnded, b, Start(b));
    calls := LostPromotion(white, black, first, reply);
    var t1 := FirstMoveCommits(s, white, first);
    ReplyToStored(b, first, reply, t1);
    var t2 := MoveCommits(t1, black, reply);
    var t3 := RequestCommits(t2, black);
    var t4 := AcceptCommits(t3, white, []);
    FirstIsLost(b, first, reply, t1);
    schedule := LostInTurn(s, calls, [t1, t2, t3, t4]);
  }

  lemma LostInTurn(s: ChessState, calls: map<nat, Call>, states: seq<ChessState>) returns (schedule: seq<nat>)
    requires IsFreshState(s) && WellFormed(s.initialBoard) && |states| == 4
    requires forall i: nat :: i < 4 ==>
               i in calls && Prepared(RequestOf(calls[i]), StateBefore(s, states, i), 0) == Success((states[i], []))
    requires calls[0].MakeGameMove? && calls[1].MakeGameMove? && states[2].undoId != EMPTY_UNDO_ID
    requires TakesBack(calls[3], states[2])
    requires states[0].game.moves != [] && IsUnderpromotion(states[0].game.moves[|states[0].game.moves| - 1])
    ensures var a := Run(RequestsOf(calls), Starting(RequestsOf(calls), Some(s)), schedule);
            && IsFold(RequestsOf(calls), Some(s), a.log) && |a.log| == 4
            && AllDropped(StateAt(s, a.log, 4).game.moves) == AllDropped(StateAt(s, a.log, 1).game.moves)
            && !SamePlace(StateAt(s, a.log, 1).game, StateAt(s, a.log, 4).game)
  {
    hide IsFreshState, WellFormed, TakesBack, SamePlace, Run, InTurn, IsFold, Prepared, RequestOf, AllDropped, IsUnderpromotion;
    var n := 4;
    EachInTurn(s, calls, states);
    schedule := InTurn(n);
    EveryRunIsConsistent(RequestsOf(calls), Some(s), schedule);
    OnceLost(calls, s, Run(RequestsOf(calls), Starting(RequestsOf(calls), Some(s)), schedule).log);
  }

  /** Calls that go through without events, one after the other. */
  lemma EachInTurn(s: ChessState, calls: map<nat, Call>, states: seq<ChessState>)
    requires forall i: nat :: i < |states| ==>
               i in calls && Prepared(RequestOf(calls[i]), StateBefore(s, states, i), 0) == Success((states[i], []))
    ensures var reqs := RequestsOf(calls);
            var a := Run(reqs, Starting(reqs, Some(s)), InTurn(|states|));
            |a.log| == |states| && forall i :: 0 <= i < |states| ==> a.log[i] == Entry(i, 0, states[i], [])
  {
    hide Run, InTurn, Prepared, RequestOf, StateBefore;
    var reqs := RequestsOf(calls);
    var events: seq<seq<Event>> := seq(|states|, _ => []);
    forall i: nat | i < |states|
      ensures i in reqs && Prepared(reqs[i], StateBefore(s, states, i), 0) == Success((states[i], events[i]))
    {
      assert reqs[i] == RequestOf(calls[i]) && events[i] == [];
    }
    InTurnAllCommit(reqs, s, states, events, |states|);
  }

  lemma FirstIsLost(b: Board, first: Move, reply: Move, t: ChessState)
    requires IsTwoPawns(b) && first == Move(Hex(0, 4), Hex(0, 5), KNIGHT_PROMOTION)
    requires reply == Move(Hex(5, 5), Hex(5, 4), NO_PROMOTION)
    requires Violation(Start(b), first).None? && t.game == Played(Start(b), first)
    ensures |t.game.moves| == 1 && IsUnderpromotion(t.game.moves[0])
  {
    hide IsTwoPawns, Violation, Tables, IsPromotion, Played;
    AfterPromotion(b, first, reply);
    PlayedMoves(Start(b), first);
    assert Start(b).moves == [] && Start(b).board == b;
  }

  lemma OnceLost(calls: map<nat, Call>, s: ChessState, log: seq<Entry<ChessState, Event>>)
    requires IsFreshState(s) && WellFormed(s.initialBoard)
    requires IsFold(RequestsOf(calls), Some(s), log) && |log| == 4
    requires forall i :: 0 <= i < 4 ==> log[i].client == i && i in calls
    requires calls[0].MakeGameMove? && calls[1].MakeGameMove? && StateAt(s, log, 3).undoId != EMPTY_UNDO_ID
    requires TakesBack(calls[3], StateAt(s, log, 3))
    requires log[0].state.game.moves != [] && IsUnderpromotion(log[0].state.game.moves[|log[0].state.game.moves| - 1])
    ensures AllDropped(StateAt(s, log, 4).game.moves) == AllDropped(StateAt(s, log, 1).game.moves)
    ensures !SamePlace(StateAt(s, log, 1).game, StateAt(s, log, 4).game)
  {
    hide IsFreshState, WellFormed, IsFold, TakesBack, SamePlace, Lost, AllDropped, IsUnderpromotion;
    var k, j := 1, 3;
    PendingUndoKeepsGame(calls, s, log, k + 1, j);
    LostAfterFirst(calls, s, log, k);
    UndoGivesPositionIffNoneLost(calls, s, log, k, j);
  }
}
