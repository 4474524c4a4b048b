# Hexagonal chess backend: a verified model

A Dafny model of the backend of a hexagonal chess service, with proofs of what its parts
promise. Each part is a module of its own:

- **Rules engine.** `HexGrid` (hexes in 32-bit coordinates and in axial ones), `Offsets` (the
  tables of directions), `ChessBoard`, `MoveGen` (what moves there are, as functions),
  `GameStates` (a game as a value), `ChessGame` (the game object with its move lists and
  attack tables, updated in place); and about them `MoveGeometry`, `KingSafety`, `Play`,
  `Positions`, `Legality` (exactly the accepted moves), `Checkmates` and `MateBoards` (when the
  reported checkmate is one), `Replay` and `Underpromotions`.
- **Text and wire forms.** `Fen`, `FenRoundTrip` and `InitialPosition`; `Varint`, `Codec`,
  `Marshal` and `WireSchema` (Protocol Buffers Encoding specification, sections "Base 128
  Varints", "Message Structure", "Length-Delimited Records" and "Packed Repeated Fields");
  `Serde` (board and game to messages and back).
- **Game protocol.** `Txn` (optimistic locking with retries, many clients interleaved),
  `Retries` (what one of the clients sees of it), `ChessStates` and `Gameplay` (joining, moving,
  undoing, ending), `Calls` (which calls go through), `Protocol` (all of it together), `Verdicts`
  (who moves and who wins, over whole runs), `EndedGames` and `UndoRuns` (what undo does there).
- **Tournaments.** `Pairing`, `Ranking`, `Scoring`, `Winners`, `Matcher` (the matchmaking),
  `Champions`, `Rounds`, `RoundRobins`, `Knockouts` (whole tournaments), `Tournaments`, `TournamentDb`,
  `TournamentRuns` (the tables and every run of the transactions on them).
- **Matchmaking pool.** `MatchPool` and `Matchmaker`.
- **Result accounting.** `Ratings`, `GameOver` and `EloHistory`.

`Wrappers`, `Results`, `Sets` and `Division` are shared by several parts.

Where the program changes things in place the model does: the game object, byte buffers, the
store behind the retry loop, the live game, the tournament tables, the matchmaker node, the
ratings and the buckets are classes or arrays, and each method is proved equal to a function
on values. The properties are then lemmas about those functions. A run is a sequence of
steps, each by one client or one transaction: a Redis write is one step that fails if the
watched value was written since, a Postgres transaction is one step.

## What came out differently from what one would expect

- **Storing a game drops promotions.** A recorded move is stored without its promotion
  (backend/model/serde.go:165-176). Replaying a stored game, and so undoing in it, promotes to
  queens. `Replay.JumpAfterSerdeIsLiveIffQueens`, `Serde.UndoOfStoredGame` and, for whole runs,
  `UndoRuns.UndoGivesPositionIffNoneLost` say exactly when that goes well;
  `Underpromotions.StoredJumpCanFail` and `UndoRuns.SomeUndoGivesAnotherPosition` that it can go
  wrong.
- **A finished game can be undone.** Accepting an undo request does not look at the end of the
  game (backend/service/gameplay.go:169-206). An ended game stays as it ended until, and only
  until, a request is accepted: `EndedGames.EndedGameChangesIff`, `EndedGames.EndedGameKeptIff`.
  It does happen: `EndedGames.FinishedGameIsTakenBack`.
- **Checkmate looks at the king alone.** In check a side keeps only its king's moves, so a
  check that a block or a capture would end counts as mate; and a king may step along the line
  it is attacked on, so some mates go unreported. `Checkmates.FalseMateIff` and
  `Checkmates.MissedMateIff` say exactly when, `MateBoards` has a board for each.
- **A knockout never finishes.** The parity guard counts all matches, and after the last round
  there are 2^n - 1 (backend/service/tournamentmatcher.go:239-241):
  `Knockouts.ClosingStepRefused`, `TournamentRuns.KnockoutIsNeverFinished`.
- **Round-robin is not all against all** for more than four players:
  `RoundRobins.EveryoneMeetsIffAtMostFour`. Its last step panics when every match was drawn:
  `Winners.FindRoundRobinWinner`. A comment there says that only an empty list of matches
  could cause it (backend/service/tournamentmatcher.go:373-376); the code disagrees. Games end
  with a winner only, by checkmate, forfeit or time, so no draw reaches it today.
- **Finished round-robin and Swiss tournaments hold one round too many**: the step that
  finishes them still inserts the next matches (`TournamentRuns.EveryRunKeepsInv`).
- **A tick of the matchmaking pool proposes nothing.** The scan starts at the waiting user
  itself, so users are paired with themselves, and the list of pairs is never stored; a tick
  just drops them (`MatchPool.EveryRunIsSound`, `MatchPool.TickEmptiesPool`). The running node
  has the tick commented out.
- **A walk that turns back can wrap around** the edge of the 32-bit coordinates
  (`HexGrid.TurningBackWraps`); none of the tables does (`Offsets.TablesAreMoveSteps`). Going one
  way is sufficient for a walk to translate, not necessary: from file 10, up-right and then
  up-left comes back over the other edge without harm.

## Model

| member | source | states |
|---|---|---|
| `HexGrid.Walk` | backend/chess/board.go:203-235 | the walk loop over 32-bit coordinates computes the walk step by step |
| `HexGrid.WalkTranslates` | backend/chess/board.go:203-235 | a walk that does not turn back sideways is a translation in axial coordinates: it ends on the board if and only if the translated point is on the board, and then there; wrap-around never re-enters the board |
| `HexGrid.TurningBackWraps` | backend/chess/board.go:203-235 | a walk that turns back need not translate: up-left then up-right from file a wraps around and comes back to the same hex |
| `HexGrid.RanksClosedForm` | backend/chess/board.go:38 | the table of ranks per file is 11 minus the distance from the middle file |
| `Offsets.TablesAreMoveSteps` | backend/chess/board.go:64-94 | no direction sequence of the king and knight tables turns back or stands still, so all of them translate |
| `Offsets.KingRaysDisjoint` | backend/chess/board.go:64-80 | rays of the twelve king directions from one hex never meet |
| `ChessBoard.Set` | backend/chess/board.go:437-439 | a written cell holds the piece and every other cell keeps its own |
| `MoveGen.GetOrdHexagons` | backend/chess/board.go:41-49 | lists the 91 hexes file by file, rank by rank, each at its index |
| `MoveGen.HexAtInjective` | backend/chess/board.go:41-49 | different indices of the ordered list are different hexes |
| `ChessGame.SearchKing` | backend/chess/board.go:478-486 | finds the first king of the colour in the order of the hexes, or none |
| `MoveGeometry.RaySound` | backend/chess/game.go:463-504 | the i-th hex of a ray lies i + 1 steps along its axial line, every hex before it is empty, and it is empty or holds an opposing piece |
| `MoveGeometry.RayComplete` | backend/chess/game.go:463-504 | every hex reached over empty hexes along the line is listed at its distance |
| `MoveGeometry.SlidingMovesExact` | backend/chess/game.go:463-504 | rook, bishop and queen moves are exactly the hexes on their axial lines through empty hexes up to and including the first opposing piece, without duplicates |
| `MoveGeometry.StepMovesExact` | backend/chess/game.go:510-538 | knight and king moves are exactly the enterable hexes one table step away that are not barred, without duplicates |
| `MoveGeometry.PawnTakesExact` | backend/chess/game.go:418-470 | a pawn is listed a capture exactly on the hexes with an opposing piece one of its two vectors away: (-1,1) and (1,0) for white, (-1,0) and (1,-1) for black |
| `MoveGeometry.PawnAdvancesExact` | backend/chess/game.go:418-470 | a pawn is listed an advance exactly on the free hex one ahead, and on the free hex two ahead if it has not moved |
| `MoveGeometry.MovedExactly` | backend/chess/board.go:237-258 | a white pawn has not moved if and only if its rank is at most 4 minus its distance from the middle file, a black one if and only if it is on the eighth rank or above |
| `MoveGeometry.PawnMovesDiffer` | backend/chess/game.go:418-470 | no hex is listed twice for a pawn |
| `ChessGame.Game.TravelRay` | backend/chess/game.go:463-504 | the inner loop lists the ray and marks just its hexes in the mover's attack table |
| `ChessGame.Game.FindMovesByTraveling` | backend/chess/game.go:463-504 | the loop over directions lists all rays in order and marks just their hexes |
| `ChessGame.Game.FindOffsetMovesFiltered` | backend/chess/game.go:510-538 | the loop over offsets lists the steps that are not barred, and marks them |
| `ChessGame.Game.FindPawnAdvances` | backend/chess/game.go:420-461 | a pawn advances one free hex, and two if it has not moved and the second is free, whatever stands on the first |
| `ChessGame.Game.FindPawnMoves` | backend/chess/game.go:420-461 | a pawn's entry is its advances and captures, and only hexes it can capture on are marked as attacked |
| `ChessGame.Game.SetAttackTable` | backend/chess/game.go:403-409 | marks the hex in the table of the piece's colour and in no other |
| `ChessGame.Game.ClearTables` | backend/chess/game.go:63-67 | both attack tables are empty afterwards |
| `ChessGame.Game.FindPieceMoves` | backend/chess/game.go:327-353 | one entry per piece of the colour in the order of the hexes, kings left out, and the attack table is the union of what the pieces attack |
| `ChessGame.Game.FindKingMovesFiltered` | backend/chess/game.go:387-393 | a king's entry avoids what the other side attacks at that moment |
| `ChessGame.Game.InitPieceMoves` | backend/chess/game.go:256-285 | both lists and both attack tables are regenerated from the board alone, whatever they held before |
| `ChessGame.Game.EnsurePieceMoves` | backend/chess/game.go:249-254 | regenerates lists and attack tables only if a list is missing, and changes nothing otherwise |
| `KingSafety.KingsAvoidAttacks` | backend/chess/game.go:256-304 | after regeneration neither king's destinations meet the other side's final attack table, and the two kings share no destination |
| `KingSafety.TablesAreAttacks` | backend/chess/game.go:256-304 | each attack table is exactly what the colour's pieces attack as generated (pawns only where they capture) and its king's destinations |
| `KingSafety.CheckedSideHasKingOnly` | backend/chess/game.go:256-304 | when a piece other than the king attacks the moving side's king, that side's list is the king's entry alone |
| `KingSafety.MateIsStuckKing` | backend/chess/game.go:306-325 | under such an attack checkmate is reported if and only if the king itself cannot move: blocks and captures by other pieces do not count |
| `Checkmates.AttacksAreStrikes` | backend/chess/game.go:327-353 | a piece attacks exactly the hexes on its lines, one table vector away, or, for a pawn, those with an opposing piece along its capture vectors |
| `Checkmates.OfferedIsGoes` | backend/chess/game.go:327-353 | and it is generated exactly those as moves, a pawn its advances too |
| `Checkmates.CheckIff` | backend/chess/game.go:306-313 | check is exactly an attack on the mover's king by a piece of the other side, or a step of the other king onto it |
| `Checkmates.UnlistedStepKeepsCheck` | backend/chess/game.go:387-393 | a step that the king is not listed would leave it attacked: the filter drops no step that ends a check |
| `Checkmates.FalseMateIff` | backend/chess/game.go:306-325 | a reported checkmate is none if and only if a piece attacks the king, the king has no listed step and a move of another piece ends the check |
| `Checkmates.MissedMateIff` | backend/chess/game.go:306-325 | a mate goes unreported if and only if the king is attacked, the side has listed moves, every listed step of the king is onto a hex attacked afterwards, and no move of another piece ends the check |
| `Checkmates.ReplyToPieceIsRefused` | backend/chess/game.go:166-189 | while a piece gives check every move of another piece than the king is refused |
| `MateBoards.SomeReportedMateIsNone` | backend/chess/game.go:306-325 | a board on which checkmate is reported though a pawn could take the attacker, and that move is refused |
| `MateBoards.SomeMateIsMissed` | backend/chess/game.go:306-325 | a board on which nothing ends the check and no checkmate is reported: the king may step back along the line of the rook |
| `ChessGame.Game.Check` | backend/chess/game.go:306-313 | true if and only if the moving side has a king and it is marked in the opposing table |
| `ChessGame.Game.Stalemate` | backend/chess/game.go:315-321 | true if and only if no entry of the moving side has a destination |
| `ChessGame.Game.Checkmate` | backend/chess/game.go:323-325 | true if and only if the side is in check and has no destination, by the tables as they stand; after a regeneration, by the board |
| `ChessGame.Game.NewMove` | backend/chess/game.go:121-164 | moves the piece (or the promoted one), records a capture in the right list and the move in the history, turns the side and drops the lists |
| `ChessGame.Game.ValidateMove` | backend/chess/game.go:166-189 | returns the first violated rule in the order of the checks, or none |
| `ChessGame.Game.NewValidMove` | backend/chess/game.go:191-199 | an invalid move changes nothing, attack tables included; a valid one is made and both lists are regenerated |
| `Play.AcceptedMove` | backend/chess/game.go:166-189 | an accepted move starts on an on-board piece of the moving side, ends on another hex it may enter, and names a promotion if it is one |
| `Legality.AcceptedExactly` | backend/chess/game.go:166-189 | exactly the accepted moves: unless a piece attacks the king, a move of another piece as it goes; always a step of the king onto an enterable hex that the other side's table does not mark; a promotion has to be named |
| `Legality.RefusedBecause` | backend/chess/game.go:166-189 | a refusal names the first reason that applies: no move, off the board, a promotion not named, nothing listed on the hex, not a destination |
| `Legality.PieceLands` | backend/chess/game.go:121-164 | the hex left is empty, and on the other stands the piece, or for a pawn on its last rank the piece of its colour that the promotion names |
| `Legality.MoveIsRecorded` | backend/chess/game.go:121-164 | a capture is added at the end of the list of the taken colour, the move at the end of the history with its piece, hexes and promotion |
| `Positions.OfferedIsAccepted` | backend/chess/game.go:166-189 | while no king is attacked, every generated move is accepted, given a promotion where it is one |
| `Play.CensusOfMove` | backend/chess/game.go:121-164 | on-board and taken pieces of every kind together stay the same, but for a pawn turned into the piece it is promoted to |
| `Play.AcceptedMoveKeepsSane` | backend/chess/game.go:191-199 | every accepted move keeps: lists equal to regeneration, a well-formed board with empty padding, taken lists of one colour, no pawn on its last rank |
| `Play.AcceptedMoveKeepsColors` | backend/chess/game.go:121-164 | on-board and taken pieces of each colour together stay constant over an accepted move |
| `Play.RunKeepsSane` | backend/chess/game.go:109-199 | all of that holds after any sequence of accepted moves, and the number of pieces of each colour is that of the start |
| `ChessGame.Game.DeepCopy` | backend/chess/game.go:46-61 | a new object with the same board, history and taken lists; empty move lists come out nil, attack tables cleared |
| `ChessGame.CopyList` | backend/chess/game.go:46-54 | copying appends entry by entry, so an empty list is copied to nil |
| `ChessGame.JumpMoveIndex` | backend/chess/game.go:591-609 | an index out of range is an error; otherwise a new game that has made the first index + 1 recorded moves, its lists and attack tables regenerated |
| `Replay.JumpIsLive` | backend/chess/game.go:591-609 | for a game of any accepted moves, jumping to any point gives the live game at that point: board, taken lists, history and legal moves |
| `Replay.UndoInvertsMove` | backend/model/chess.go:121-131 | undoing after an accepted move gives back the game before it |
| `Replay.DroppedReplayGainsQueens` | backend/model/serde.go:140-176 | replaying a history whose promotions were dropped gives the same squares but for queens: one more for each promotion to another piece |
| `Replay.JumpAfterSerdeIsLiveIffQueens` | backend/model/serde.go:140-176 | after storing and loading, jumping gives the live position if and only if every promotion so far was to a queen |
| `Serde.UndoOfStoredGame` | backend/model/serde.go:191-223 | undoing in a stored and loaded game gives the position before the move if and only if all earlier promotions were to queens |
| `Underpromotions.StoredJumpCanFail` | backend/model/serde.go:140-176 | there is a game of accepted moves in which jumping, after storing and loading, misses the live position |
| `Underpromotions.StoredUndoCanFail` | backend/model/serde.go:191-223 | there is a game of accepted moves in which undoing, after storing and loading, misses the position before the move |
| `Gameplay.LiveState.UndoMove` | backend/model/chess.go:121-131 | without moves an error and no change; otherwise the game is replaced by the replay of all but the last move |
| `Serde.SerializeBoard` | backend/model/serde.go:118-136 | the loops build the message file by file, with as many cells as the file has ranks |
| `Serde.DeserializeBoard` | backend/model/serde.go:102-116 | reads every cell, or fails with the error of the first cell, file by file and rank by rank, whose place or piece does not exist |
| `Serde.BoardMessageRoundTrip` | backend/model/serde.go:102-138 | a board comes back from its message if and only if it is well formed |
| `Serde.SerializeMoveList` | backend/model/serde.go:178-187 | the list of messages of the moves, in order |
| `Serde.DeserializeMoveList` | backend/model/serde.go:154-163 | the list of moves of the messages, in order, without promotions |
| `Serde.SerializeGame` | backend/model/serde.go:209-221 | the message holds board, lists, history and taken pieces |
| `Serde.DeserializeGame` | backend/model/serde.go:191-207 | fails if and only if the board does not come back, with the error of its first refused cell |
| `Serde.GameMessageHolds` | backend/model/serde.go:209-221 | the message holds each cell at its file and rank, and each side's list and taken pieces under its colour |
| `Serde.ListRoundTrip` | backend/model/serde.go:54-100 | a list of piece moves comes back, nil for empty |
| `Serde.GameRoundTrip` | backend/model/serde.go:191-223 | a game on a well-formed board comes back as its copy with the promotions of its history dropped |
| `Varint.EncodeVarint` | backend/pb/messages_vtproto.pb.go:334-342 | writes just the base-128 groups of the number, ending before the given offset, and touches nothing else |
| `Varint.ScanVarint` | backend/pb/messages_vtproto.pb.go:3472-3492 | the forward loop reads the varint or reports overflow or a truncated buffer |
| `Varint.ReadsVarint` | backend/pb/messages_vtproto.pb.go:3472-3492 | a number is read back from its encoding wherever it stands in the data, reduced to the width of the field |
| `WireSchema.EncodeIsGroups` | backend/pb/messages_vtproto.pb.go:334-342 | a number is sent as its groups of seven bits, lowest first, with the highest bit set on every byte but the last |
| `WireSchema.ReadIsExact` | backend/pb/messages_vtproto.pb.go:3472-3492 | reading gives the value of the groups within the width of the field for at most ten bytes, an overflow if ten bytes all ask for another, and the end of the data if it comes first |
| `Marshal.SizeFile` | backend/pb/messages_vtproto.pb.go:2120-2135 | the size computed for a board file is the length of its encoding |
| `Marshal.SizeBoard` | backend/pb/messages_vtproto.pb.go:2137-2154 | the size computed for a board is the length of its encoding |
| `Marshal.SizeHistMove` | backend/pb/messages_vtproto.pb.go:2156-2189 | the size computed for a recorded move is the length of its encoding |
| `Marshal.MarshalFile` | backend/pb/messages_vtproto.pb.go:315-348 | writes exactly the encoding at the end of the buffer, backwards, without the index going below zero |
| `Marshal.MarshalBoard` | backend/pb/messages_vtproto.pb.go:368-403 | writes exactly the encoding of the board, last file first, without the index going below zero |
| `Marshal.MarshalHistMove` | backend/pb/messages_vtproto.pb.go:423-478 | writes exactly the encoding of the recorded move, last field first, without the index going below zero |
| `Marshal.BoardBytes` | backend/pb/messages_vtproto.pb.go:350-361 | a buffer of the computed size is filled with exactly the encoding |
| `Marshal.HistMoveBytes` | backend/pb/messages_vtproto.pb.go:405-416 | a buffer of the computed size is filled with exactly the encoding |
| `Marshal.ScanTag` | backend/pb/messages_vtproto.pb.go:3469-3500 | reads a tag as field number and wire type, refusing end groups and field numbers that are not positive |
| `Marshal.ScanSpan` | backend/pb/messages_vtproto.pb.go:3520-3546 | reads a length and refuses a negative one, an overflow and one past the end of the data |
| `Marshal.UnmarshalFile` | backend/pb/messages_vtproto.pb.go:3466-3591 | the parse loop accepts and refuses the same data as the parser it is specified by, with packed and single elements |
| `Marshal.UnmarshalBoard` | backend/pb/messages_vtproto.pb.go:3593-3696 | likewise for the board with its nested records |
| `Marshal.UnmarshalHistMove` | backend/pb/messages_vtproto.pb.go:3698-3913 | likewise for the recorded move |
| `Codec.FileRoundTrip` | backend/pb/messages_vtproto.pb.go:316-348 | parsing the encoding of a board file gives the same message |
| `Codec.BoardRoundTrip` | backend/pb/messages_vtproto.pb.go:369-403 | parsing the encoding of a board gives the same message |
| `Codec.HistMoveRoundTrip` | backend/pb/messages_vtproto.pb.go:424-478 | parsing the encoding of a recorded move gives the same message |
| `WireSchema.FileOnWire` | contracts/messages.proto:44-46 | a file of the board is its pieces, packed in field 1 |
| `WireSchema.BoardOnWire` | contracts/messages.proto:48-51 | a board is the side to move in field 1 and the files in field 2, in order |
| `WireSchema.HistMoveOnWire` | contracts/messages.proto:53-62 | a recorded move is its fields 1 to 8 in order, each with the tag of its number and wire type, left out when empty |
| `WireSchema.StoredMoveOnWire` | backend/model/serde.go:165-176 | which fields a recorded move is sent in: piece, from and to, and no promotion |
| `Marshal.EchoBoard` | backend/pb/messages_vtproto.pb.go:350-361 | sizing, writing and parsing a board, as methods on a buffer, give the same message |
| `Marshal.EchoHistMove` | backend/pb/messages_vtproto.pb.go:405-416 | sizing, writing and parsing a recorded move give the same message |
| `Fen.PrintFen` | backend/chess/board.go:583-619 | the printing loops produce the text of the board |
| `Fen.RuneInverse` | backend/chess/board.go:280-346 | a rune names a piece if and only if it is the rune of that piece |
| `Fen.RuneCase` | backend/chess/board.go:280-311 | white pieces are the capitals P, N, B, R, Q and K, black ones the same letters small |
| `Fen.CharacterClasses` | backend/chess/board.go:512-516 | the characters of the text by their codes: six spaces, ten digits, and the letters |
| `Fen.ScanFiles` | backend/chess/board.go:499-560 | the scanning loop comes to the same place and board, or the same error, as the scan from the start |
| `Fen.ParseFen` | backend/chess/board.go:499-581 | the parser accepts and refuses the same text, with the same errors, as its specification |
| `Fen.AdvanceFailsBecause` | backend/chess/board.go:499-560 | what each error of the scan says of the place it stopped at |
| `Fen.AcceptedIsWellFormed` | backend/chess/board.go:499-581 | every accepted text gives a well-formed board: known pieces, empty padding |
| `FenRoundTrip.FenComesBackIffWellFormed` | backend/chess/board.go:499-619 | the parser gives a board back from its printed text if and only if the board is well formed |
| `FenRoundTrip.ParsePrintParse` | backend/chess/board.go:499-619 | printing what was parsed and parsing again gives the same board |
| `InitialPosition.InitialPieces` | backend/chess/board.go:362-415 | the placements are a wedge of nine white pawns, nine black pawns on the seventh rank, three bishops a side on the middle file and the other pieces at the ends of theirs |
| `InitialPosition.InitialText` | backend/chess/board_test.go:12-24 | the initial position prints as the text of the eleven files with white to move, and that text is read as the initial position |
| `Txn.Store.UpdateTxn` | backend/service/chessrepo.go:125-170 | the retry loop on a store that others write to meanwhile comes to the outcome of at most five attempts |
| `Txn.CallEffect` | backend/service/chessrepo.go:125-170 | a call that fails, finds no state or uses up its attempts leaves no effect of its own; a committed one writes once, from the state just before, state and events together |
| `Txn.EveryRunIsConsistent` | backend/service/chessrepo.go:118-170 | in every interleaving of any number of clients the stored state is the sequential fold of the commits in order, the events are theirs in order, and each client has one commit if it was told so and none otherwise |
| `Retries.ClientRunsItsLoop` | backend/service/chessrepo.go:125-170 | in every interleaving, a call that has ended is its own retry loop, overtaken by the commits between its reads: it has the outcome of the loop, a commit leaves the store as the loop does, and it gives up after exactly five reads |
| `Txn.FoldEntry` | backend/service/chessrepo.go:118-170 | each commit is its client's update of the state the commit before it left |
| `Txn.SequentialPropertyLifts` | backend/service/chessrepo.go:118-170 | whatever every sequential update keeps holds after every interleaving |
| `Gameplay.LiveState.Join` | backend/service/gameplay.go:34-89 | a seat is given in the order of the rules; a taken seat is not given again; a safe state stays safe |
| `Gameplay.LiveState.Move` | backend/service/gameplay.go:91-167 | the refusals in order, or the move made with the end of the game and the undo request cleared; a safe state stays safe |
| `Gameplay.LiveState.Undo` | backend/service/gameplay.go:169-206 | the refusals in order, or the request created, accepted (the last move taken back) or rejected; a safe state stays safe |
| `Gameplay.LiveState.End` | backend/service/gameplay.go:208-265 | aborted without both players or moves, finished otherwise, refused to others and after the end; a safe state stays safe |
| `Calls.MoveGoesThroughIff` | backend/service/gameplay.go:91-167 | a move goes through if and only if both seats are taken, the game goes on, the caller has the seat of the colour to move and the move is allowed; it ends the game exactly if it mates; which refusal applies otherwise |
| `Calls.EndGoesThroughIff` | backend/service/gameplay.go:208-265 | ending goes through exactly for a seated player of a game that goes on, and finishes it if both seats are taken, else aborts it |
| `Calls.JoinSeats` | backend/service/gameplay.go:34-89 | the first player gets the colour chosen or drawn, another one the seat left, and nobody else changes anything |
| `Calls.UndoGoesThroughIff` | backend/service/gameplay.go:169-206 | anyone but the player to move may ask for an undo; a rejection clears the pending request; accepting goes through exactly for the request of another with a move to take back |
| `Verdicts.EveryMoveIsByTurn` | backend/service/gameplay.go:91-167 | in every run, whoever adds a move holds the seat of the colour of the piece that moves, and it is that colour's turn |
| `Verdicts.CommitEmits` | backend/service/gameplay.go:34-265 | in every run, a commit emits the verdict if it finishes the game, the seats if it is a join, and nothing otherwise |
| `Verdicts.FinishHasOneVerdict` | backend/service/gameplay.go:126-149 | in every run that finishes a game there is one finish event: it names the two seats and the moves, and was won by the seat that did not give up, or by the colour that made the last move and mated the other |
| `Protocol.LoadedIsSafe` | backend/model/serde.go:317-380 | a safe state is read back from what was stored, and is safe still |
| `Protocol.EveryRunIsSafe` | backend/service/gameplay.go:34-265 | in every interleaving of calls on a fresh game: one finish event if it is finished and none otherwise, no two seated players with one ID, lists that match the board, a readable state |
| `Protocol.LaterStatesFollow` | backend/service/gameplay.go:34-265 | an end is never taken back and a taken seat keeps its player |
| `Protocol.PendingUndoKeepsGame` | backend/service/gameplay.go:169-206 | while an undo request is pending the position and the moves stay as they were |
| `Protocol.NeverCorrupt` | backend/service/gameplay.go:34-265 | no update of a safe state fails because recorded moves lie off the board: the guard of the model is never taken |
| `EndedGames.EndedGameChangesIff` | backend/service/gameplay.go:169-206 | a call that goes through on an ended game changes its moves if and only if it accepts the pending request of another player and there is a move; it then drops the last one, and every other call keeps the game |
| `EndedGames.EndedGameKeptIff` | backend/service/gameplay.go:34-265 | in every run, from the end of a game on: it is the same game for as long as no commit takes a move back and never after one has; the moves left and the moves taken back add up |
| `EndedGames.FinishedGameIsTakenBack` | backend/service/gameplay.go:169-206 | from every fresh game of two players and every first move that does not mate there is a run that finishes the game and then takes the move back |
| `EndedGames.SomeFinishedGameIsTakenBack` | backend/service/gameplay.go:169-206 | there is such a game: a run in which a finished game does not stay as it ended |
| `UndoRuns.EveryStateGains` | backend/model/serde.go:140-176 | in every run, at every commit, the stored moves replay to a board like the one stored, with one queen more for each promotion to another piece since a move was last taken back |
| `UndoRuns.UndoGivesPositionIffNoneLost` | backend/model/chess.go:121-131 | in every run, taking back a move gives the position from before it if and only if every promotion committed by then, since a move was last taken back, was to a queen |
| `UndoRuns.SomeUndoGivesAnotherPosition` | backend/model/chess.go:121-131 | there is a run in which it does not: a promotion to a knight, a reply, and the reply taken back |
| `Matcher.MakeMatchesLinearly` | backend/service/tournamentmatcher.go:116-132 | panics for an odd number; otherwise neighbours in the given order, every participant once |
| `Matcher.MakeMatchesCrissCrossElos` | backend/service/tournamentmatcher.go:134-163 | panics for an odd number; otherwise every participant once, and no other perfect matching has a greater total Elo gap |
| `Pairing.CrissCrossGreatestGap` | backend/service/tournamentmatcher.go:134-163 | pairing the ends of a ranking inwards has the greatest total gap of all perfect matchings |
| `Pairing.CrissCrossPerfect` | backend/service/tournamentmatcher.go:134-163 | it pairs everyone once |
| `Pairing.NeighboursLeastGap` | backend/service/tournamentmatcher.go:328-355 | pairing the neighbours of a ranking has the least total gap of all perfect matchings |
| `Pairing.NeighboursPerfect` | backend/service/tournamentmatcher.go:328-355 | it pairs everyone once |
| `Ranking.RankedUnique` | backend/service/tournamentmatcher.go:328-355 | two rankings of the same players are the same list |
| `Ranking.RankIgnoresOrder` | backend/service/tournamentmatcher.go:328-355 | the ranking does not depend on the order the players come in |
| `Champions.FirstSwissRound` | backend/service/tournamentmatcher.go:134-163 | in the first Swiss round the i-th best has white against the i-th worst |
| `Champions.NextSwissRound` | backend/service/tournamentmatcher.go:328-355 | in the later ones neighbours in the ranking by points meet, the better one with white, smaller IDs first among equals |
| `Champions.FirstListedRound` | backend/service/tournamentmatcher.go:116-132 | in the other tournaments neighbours in the list of participants meet first, the earlier one with white |
| `Matcher.ListKeys` | backend/service/tournamentmatcher.go:333-336 | collecting the keys of the score map in any order lists each once |
| `Matcher.DoSwissMatchmaking` | backend/service/tournamentmatcher.go:328-355 | the same pairs for every iteration order of the score map; for an even number every player once, and no perfect matching has a smaller total score gap |
| `Matcher.EloOfParticipant` | backend/service/tournamentmatcher.go:134-141 | each participant is ranked by their own Elo, 1000 if they have none |
| `Matcher.FloorLog2` | backend/service/tournamentmatcher.go:77-79 | the greatest number of doublings that stays within the participants |
| `Matcher.NewFirstMatches` | backend/service/tournamentmatcher.go:165-204 | refused for a wrong or odd number of participants and for no other reason; otherwise round one is a perfect matching by the ruleset, with its number of rounds |
| `Matcher.StartsIff` | backend/service/tournamentmatcher.go:165-204 | a knockout of n rounds starts with exactly 2^n participants, the others with any even number; a refusal says how many were wanted and how many there were |
| `Matcher.GetPrevRoundMatches` | backend/service/tournamentmatcher.go:213-222 | exactly the matches with the round of the last one, in order |
| `Matcher.DoKnockoutMatchmaking` | backend/service/tournamentmatcher.go:273-294 | the winners of the previous round, neighbours paired; the length check never panics |
| `Matcher.DoRoundRobinMatchmaking` | backend/service/tournamentmatcher.go:296-326 | the previous round rotated by one seat around the first white player |
| `Matcher.DoMatchmaking` | backend/service/tournamentmatcher.go:226-271 | refused if and only if there are no matches, or an odd number in a knockout; otherwise the next round, and after the last round the finished status with a winner; for Elos that are not negative it panics exactly for a finished round-robin without a decisive match |
| `Rounds.PrevRoundIsLast` | backend/service/tournamentmatcher.go:213-222 | in a list of rounds numbered from 1 the previous round is the last one |
| `Rounds.RunStep` | backend/service/tournamentmatcher.go:226-326 | in a run each round follows from the round just before it alone |
| `RoundRobins.ScheduleClosedForm` | backend/service/tournamentmatcher.go:296-326 | closed form of the k-th round: the first white player stays and every other player sits k seats further along one cycle of 2n - 1 seats |
| `RoundRobins.SchedulePeriod` | backend/service/tournamentmatcher.go:296-326 | the schedule repeats after 2n - 1 rounds |
| `RoundRobins.EveryRoundIsPerfect` | backend/service/tournamentmatcher.go:296-326 | every round matches the same players, each once |
| `RoundRobins.RunFollowsSchedule` | backend/service/tournamentmatcher.go:226-326 | every run of the matchmaking follows the schedule, whatever the results |
| `RoundRobins.AnchorMeetsEachEqually` | backend/service/tournamentmatcher.go:73-75 | over the n(2n - 1) rounds the first white player meets every other player exactly n times |
| `RoundRobins.OthersMeetIffAdjacent` | backend/service/tournamentmatcher.go:296-326 | two other players ever meet if and only if they started on neighbouring seats |
| `RoundRobins.EveryoneMeetsIffAtMostFour` | backend/service/tournamentmatcher.go:296-326 | everyone meets everyone in the tournament if and only if there are at most four players |
| `Knockouts.FieldHalves` | backend/service/tournamentmatcher.go:83-87 | the field of round k is the winners of the round before, distinct, 2^(n-k) of them, and gives 2^(n-k-1) matches |
| `Knockouts.MatchesPlayed` | backend/service/tournamentmatcher.go:83-87 | after r of n rounds there are 2^n - 2^(n-r) matches |
| `Knockouts.NextKnockoutRound` | backend/service/tournamentmatcher.go:226-294 | while rounds remain nothing is refused, and the next round is between exactly the winners of the last, each once |
| `Knockouts.ClosingStepRefused` | backend/service/tournamentmatcher.go:239-241 | the step after the last round is always refused, because 2^n - 1 matches are odd |
| `Knockouts.ChampionWonEveryRound` | backend/service/tournamentmatcher.go:382-386 | the winner of the last match is the one player who won in every round |
| `Winners.KnockoutWinnerGoesOn` | backend/service/tournamentmatcher.go:51-67 | the winner of a knockout match is the one who won by its result, or in a draw the higher Elo, white if they are equal |
| `Knockouts.RoundSeatsWinners` | backend/service/tournamentmatcher.go:273-294 | in every run round k + 1 seats exactly the players who won a match of round k by its result |
| `Knockouts.BeatenNeverReturns` | backend/service/tournamentmatcher.go:273-294 | in every run nobody who was beaten plays again |
| `Knockouts.ChampionGoesOnAlways` | backend/service/tournamentmatcher.go:382-386 | the champion is the one player who won a match in every round by its result |
| `Scoring.MakeWinCountTable` | backend/service/tournamentmatcher.go:422-434 | the players with wins, and the number of them |
| `Scoring.MakeSonnebornTable` | backend/service/tournamentmatcher.go:436-450 | what the matches credit each player: the Elo of the beaten, half the Elo of the drawn opponent |
| `Scoring.MakeSwissTable` | backend/service/tournamentmatcher.go:452-472 | all seated players and their points, zero included |
| `Scoring.SwissScoresSumToMatches` | backend/service/tournamentmatcher.go:452-472 | the Swiss scores of all players together are the number of matches |
| `Scoring.SwissIsPoints` | backend/service/tournamentmatcher.go:452-472 | a Swiss score is one point for a win and half a point for a draw, added up over both seats |
| `Scoring.SonnebornIsWeighted` | backend/service/tournamentmatcher.go:436-450 | a Sonneborn-Berger score is those points weighted by the Elos of the opponents |
| `Scoring.WinCountIsWins` | backend/service/tournamentmatcher.go:422-434 | a win count is the number of matches won by their results, and exactly the players with a win have one |
| `Winners.FindScoringTableWinners` | backend/service/tournamentmatcher.go:357-380 | in any iteration order the result is exactly the set of top scorers among those not skipped, each once; it panics if and only if every counted score is negative |
| `Winners.FindTableWinner` | backend/service/tournamentmatcher.go:387-416 | the top scorer, or among several the one with the best tie-break score |
| `Winners.FindRoundRobinWinner` | backend/service/tournamentmatcher.go:387-401 | for Elos that are not negative it panics if and only if no match was decisive |
| `Winners.FindSwissWinner` | backend/service/tournamentmatcher.go:402-416 | for Elos that are not negative it never panics once there is a match |
| `Winners.FindTournamentWinner` | backend/service/tournamentmatcher.go:382-420 | the winner by ruleset, a top scorer with maximal tie-break score, and exactly when it panics |
| `Champions.RoundRobinChampion` | backend/service/tournamentmatcher.go:387-401 | the winner of a round-robin tournament has won the most matches; among as many, none made more weighted points |
| `Champions.SwissChampion` | backend/service/tournamentmatcher.go:402-416 | the winner of a Swiss tournament has made the most points; among as many, none made more weighted points |
| `TournamentDb.CreateTournament` | backend/service/tournamentupdater.go:56-91 | a knockout of fewer than 1 or more than 5 rounds is refused; otherwise the new tournament is in the lobby, empty, with rounds only for a knockout |
| `TournamentDb.Tables.JoinTournament` | backend/service/tournamentupdater.go:150-189 | joins in the lobby below the capacity of a knockout, once per user; every refusal in order, without a change; the tables stay consistent and nothing recorded is lost |
| `TournamentDb.Tables.LeaveTournament` | backend/service/tournamentupdater.go:93-104 | removes the user in the lobby only, and says whether it did; the tables stay consistent and nothing recorded is lost |
| `TournamentDb.Tables.BeginTournamentCountdown` | backend/service/tournamentupdater.go:214-257 | only the creator schedules, only from the lobby; the tables stay consistent and nothing recorded is lost |
| `TournamentDb.Tables.AdvanceTournament` | backend/service/tournamentadvancer.go:108-151 | a consumed event returns its matches; otherwise matchmaking by status, or a refusal without a change; the tables stay consistent and nothing recorded is lost |
| `TournamentDb.Tables.InsertTournamentMatches` | backend/service/tournamentadvancer.go:234-305 | stores matches, event, status, rounds and a winner if there is one |
| `TournamentDb.Tables.RecordGame` | backend/database/sql/query/tournament.sql:130-147 | a match without a result gets that of its game, once, and nothing else changes |
| `TournamentDb.ReadCompleted` | backend/service/tournamentadvancer.go:203-222 | gives all rows as completed matches if and only if every row has a result |
| `Tournaments.RemovedKeepsDistinct` | backend/database/sql/mutate/tournament.sql:45-56 | deleting a participant removes that one and keeps the others, still distinct |
| `Tournaments.JoinGoesThroughIff` | backend/service/tournamentupdater.go:150-189 | joining goes through exactly in the lobby, for a user who has not joined, while a knockout of n rounds has fewer than 2^n participants |
| `Tournaments.RecordedResult` | backend/database/sql/query/tournament.sql:130-147 | a match gets its own result, once, and nothing else changes |
| `Tournaments.CompletedReads` | backend/database/sql/query/tournament.sql:130-147 | each seat of a completed match comes with the Elo read for its own player, 1000 without one |
| `Tournaments.EntrantReads` | backend/service/tournamentadvancer.go:153-193 | each participant of a first round is ranked by the Elo read for them, 1000 without one |
| `TournamentRuns.MatchesReadBack` | backend/database/sql/query/tournament.sql:130-147 | reading the matches by round and insertion gives them in the order they were inserted |
| `TournamentRuns.PrevRoundIsLastEvent` | backend/service/tournamentadvancer.go:195-232 | the previous round the matchmaking looks up is what the last event created |
| `TournamentRuns.NextRoundOk` | backend/service/tournamentadvancer.go:195-232 | a next round matches every participant once, or in a knockout half as many as before and nobody twice |
| `TournamentRuns.StepKeepsInv` | backend/service/tournamentadvancer.go:108-305 | every transaction and every game result keeps the tables consistent |
| `TournamentRuns.EveryRunKeepsInv` | backend/service/tournamentadvancer.go:108-305 | in every run: rounds numbered from 1 without gaps, one consumed event per round whose stored matches are that round's rows, no later round before all results of the earlier ones, knockout capacity kept, a winner only when finished and then a participant |
| `TournamentRuns.LaterStatesFollow` | backend/service/tournamentadvancer.go:108-305 | status only moves forward; matches, results, consumed events and, once started, participants and rounds are never lost or changed |
| `TournamentRuns.OnlyCreatorLeavesLobby` | backend/service/tournamentupdater.go:214-257 | in every run that has left the lobby it was the creator who began the countdown |
| `TournamentRuns.WinnerIsChampion` | backend/service/tournamentmatcher.go:226-270 | the winner stored in any state of any run is the champion, by the rules of the ruleset, of the completed rounds with the Elos read at the one advance that finished the tournament |
| `TournamentRuns.RedeliveryChangesNothing` | backend/service/tournamentadvancer.go:108-117 | an event delivered again at any later time returns the matches it created and changes no table |
| `TournamentRuns.KnockoutIsNeverFinished` | backend/service/tournamentmatcher.go:239-241 | in every run a knockout stays unfinished and without a winner |
| `TournamentRuns.KnockoutAdvanceRefused` | backend/service/tournamentmatcher.go:239-241 | with all results in, a knockout's advance is refused exactly after its last round |
| `Matchmaker.Node.constructor` | backend/service/matchmaker.go:63-89 | a new node has an empty pool |
| `Matchmaker.Node.HandleBeginRequest` | backend/service/matchmaker.go:284-294 | the user waits from now on, unless already waiting, and is told so |
| `Matchmaker.Node.HandleConfirmRequest` | backend/service/matchmaker.go:296-326 | the acceptance is recorded; both are told and the proposal goes when the other player has accepted too, and only then; otherwise nothing is sent |
| `Matchmaker.Node.HandleCancelRequest` | backend/service/matchmaker.go:328-353 | the user leaves the pool and the proposal, whose other player waits again and alone is told |
| `Matchmaker.Node.Search` | backend/service/matchmaker.go:367-369 | binary search finds the first position whose Elo is not below the new one |
| `Matchmaker.Node.InsertPendingUser` | backend/service/matchmaker.go:355-377 | the user is in the map and in the index at the right place |
| `Matchmaker.Node.DeletePendingUsers` | backend/service/matchmaker.go:393-414 | the users are gone from map and index, all others stay |
| `Matchmaker.Node.GetMatchProposal` | backend/service/matchmaker.go:379-387 | the first proposal the user is in, or none |
| `Matchmaker.Node.ScanForPartner` | backend/service/matchmaker.go:219-247 | started anywhere from the user on, the scan finds the first free user in mutual range whenever there is one, in spite of its early stop |
| `Matchmaker.Node.ScanFindsSelf` | backend/service/matchmaker.go:217-247 | started at the user, as the node does, it finds the user itself or nobody |
| `Matchmaker.Node.FindPotentialProposals` | backend/service/matchmaker.go:196-250 | the stored list of pairs stays empty, and the paired users are exactly those in their own range |
| `Matchmaker.Node.AppendProposals` | backend/service/matchmaker.go:176-184 | one proposal for each collected pair |
| `Matchmaker.Node.Tick` | backend/service/matchmaker.go:168-194 | a tick drops the users in their own range, proposes nothing and ages the rest |
| `MatchPool.InsertKeepsSound` | backend/service/matchmaker.go:355-377 | inserting keeps the index sorted and in agreement with the map |
| `MatchPool.RemovalKeepsSound` | backend/service/matchmaker.go:393-414 | deleting keeps the index sorted and in agreement with the map |
| `MatchPool.MutualMeansClose` | backend/service/matchmaker.go:252-275 | two users are in each other's range if and only if their Elos are no further apart than either has waited for |
| `MatchPool.BegunWaits` | backend/service/matchmaker.go:284-294 | a user who does not wait yet waits with their Elo and no ticks; nobody else changes |
| `MatchPool.ConfirmedProposals` | backend/service/matchmaker.go:296-326 | the user's own acceptance is marked, and the proposal goes once both have accepted |
| `MatchPool.CancelledPool` | backend/service/matchmaker.go:328-353 | the user is out of the pool and the proposal gone, whose other player waits again |
| `MatchPool.TickedPool` | backend/service/matchmaker.go:168-194 | a tick keeps just the users whose range is negative, each with one tick more |
| `MatchPool.EveryRunIsSound` | backend/service/matchmaker.go:168-422 | after any requests and ticks the index is sorted by Elo and has exactly one record, of equal Elo, per waiting user; and no match has ever been proposed |
| `MatchPool.TickEmptiesPool` | backend/service/matchmaker.go:168-250 | a tick with a factor that is not negative empties the pool |
| `GameOver.Store.SelectReplayId` | backend/service/gameover.go:229-236 | finds the replay of the game if there is one |
| `GameOver.Store.InsertGameResult` | backend/service/gameover.go:225-274 | a game already recorded changes nothing and returns a change set without changes; a new one updates two ratings and adds its replay |
| `GameOver.Store.UpdateLeaderboard` | backend/service/gameover.go:159-176 | adds the two changes, passing over guests and zeros |
| `Ratings.NewRatingsOk` | backend/service/gameover.go:225-369 | after recording, every rating is what the replays add up to |
| `Ratings.ResultKeepsDatabase` | backend/service/gameover.go:225-274 | recording keeps the tables in order; recording again changes nothing |
| `Ratings.RatingsAreConserved` | backend/service/gameover.go:309-369 | within a mode the Elos over and under 1000 cancel, and wins equal losses |
| `Ratings.WinnerGains` | backend/service/gameover.go:340-362 | a winner gains strictly between 0 and 30 points and the loser loses as many |
| `Ratings.RowBySeats` | backend/service/gameover.go:309-369 | by the result and seat by seat: a win adds 30 times what was not expected, a loss takes 30 times what was, a draw changes nothing |
| `Ratings.ChangeSetHoldsRatings` | backend/service/gameover.go:225-274 | the change set and the replay hold the two players' ratings after the transaction, each under their own seat |
| `Ratings.RatingCountsGames` | backend/service/gameover.go:309-369 | a rating counts the games its player won and lost, by their results |
| `Ratings.NewcomersHave1000` | backend/service/gameover.go:309-369 | without a decisive game of the mode between players with accounts an Elo is 1000 |
| `Ratings.GuestsChangeNothing` | backend/service/gameover.go:309-369 | a game with a guest is recorded without Elos and changes no rating |
| `GameOver.ResultChanges` | backend/service/gameover.go:309-369 | the change set returned is what the transaction changes of the Elos |
| `GameOver.StepKeepsInv` | backend/service/gameover.go:58-95 | every step of a delivery, every crash and every new delivery keeps the tables and the leaderboard in step |
| `GameOver.EveryRunConservesElo` | backend/service/gameover.go:58-95 | in every run of redeliveries and crashes each game is recorded once, ratings are the sums over the recorded games, Elo is conserved and gains are bounded |
| `GameOver.EveryRunRecordsElos` | backend/service/gameover.go:58-95 | in every run each replay between rated players carries their Elos from then on, which follow from those before by the result |
| `GameOver.EveryRunPaysAtMostOnce` | backend/service/gameover.go:58-95 | each game changes the leaderboard at most once, and when no recording delivery is stuck the leaderboard is the Elos over 1000 |
| `GameOver.EveryRunStoresHistories` | backend/service/gameover.go:58-95 | in every run a delivery past the transaction holds the ID of its own game's replay, that replay's history is stored before the later steps, and no other one is |
| `EloHistory.Bucket.Add` | backend/service/replay.go:205-222 | a game is added to the bucket or closes it and starts the next |
| `EloHistory.Bucket.Append` | backend/service/replay.go:167-176 | closes a bucket with its average under the truncated time of its first game; an empty one adds nothing |
| `EloHistory.Get` | backend/service/replay.go:157-164 | the bucket of the mode, made when first asked for |
| `EloHistory.AggregateEloHistoryBuckets` | backend/service/replay.go:178-242 | weekly buckets for a history longer than a year, daily otherwise; exactly the known modes with games, each with the elements of its own games |
| `EloHistory.GroupsHoldEachOnce` | backend/service/replay.go:193-222 | every game is in exactly one bucket, in order |
| `EloHistory.GroupsAreApart` | backend/service/replay.go:204-222 | the games of a bucket are within one duration of its first, and each later bucket starts more than a duration after |
| `EloHistory.WeightedIsSum` | backend/service/replay.go:167-176 | averages times sizes add up to the Elos of all games |
| `EloHistory.PointsAreOwnElos` | backend/service/replay.go:193-203 | each point is one of the player's games of the mode, in order, with the Elo of the player's own seat |
| `EloHistory.DurationsInHours` | backend/service/replay.go:178-192 | histories of more than 365 days are cut into weeks, others into days |
| `EloHistory.TruncatedDown` | backend/service/replay.go:167-176 | a timestamp is the time of the first game rounded down to a multiple of the duration |
| `EloHistory.BucketsAreFaithful` | backend/service/replay.go:178-242 | for games in time order the elements are the averages of those groups, which hold each game once, keep the sum and lie within one duration |
| `EloHistory.TimestampsIncrease` | backend/service/replay.go:167-242 | the truncated timestamps of a mode strictly increase |

## Left out

- Text that is not ASCII in the position notation; printing boards, matrices and JSON.
- The notation and check marks of recorded moves, and their clock times, beyond their place in the wire form; game clocks and the timer set that is written with a game.
- Unknown fields and the skipping of groups in wire data: the model's parsers report such a field as an error, where the program skips it. Marshalling of the other messages, which repeats the same patterns.
- HexGrid.WalkTranslates: speaks of walks without a sideways turn back, which all tables are; which other walks translate depends on the hex they start from, and nothing walks them.
- ChessGame.Game.NewMove: without the notation of the recorded move.
- Serde.SerializeMoveList: without notation and clock times, which stay empty in the message.
- Serde.DeserializeMoveList: the same.
- Serde.SerializeGame: the same.
- Serde.GameRoundTrip: the same.
- Marshal.UnmarshalFile: an unknown field is an error, where the program skips and keeps it.
- Marshal.UnmarshalBoard: the same.
- Marshal.UnmarshalHistMove: the same.
- Codec.FileRoundTrip: asks that the encoding be shorter than 2^63 bytes, as every buffer is.
- Codec.BoardRoundTrip: the same.
- Codec.HistMoveRoundTrip: the same.
- The names and countries of players, game modes of chess states, game IDs and their random generation; the random first colour is a parameter of the join.
- The metadata row and the broadcast that go with a join or a move: the events committed are modelled, not what receives them.
- Redis and Postgres failures other than a lost race: an error in a step is a call that ends without effect. Retries of serializable transactions are not modelled; each transaction is one step.
- Floating point: Elos, scores and averages are real numbers. The expectation that one player beats another is any function strictly between 0 and 1 whose two sides add up to 1, which the logistic formula (backend/service/utils.go:64-66) is.
- Ratings.ResultKeepsDatabase: asks that the two players of a game differ, as the game protocol guarantees (`Protocol.EveryRunIsSafe`); the highest Elo a player has had is not modelled.
- Ratings.NewRatingsOk: the same.
- GameOver.ResultChanges: the same.
- Matcher.NewFirstMatches: asks for distinct participants, as their primary key guarantees; the 32-bit number that the logarithm of zero participants becomes is left open.
- Matcher.MakeMatchesCrissCrossElos: the same.
- TournamentDb.Tables.AdvanceTournament: participants come in the order they joined, which stands for the order of their joining times; the Elos it reads are a parameter of each call. The event table holds this tournament's events only.
- Filling in the result of a timed-out game from its state, storing the move history blob and publishing the tournament event: they are steps at which a delivery can crash, without an effect on ratings or leaderboard.
- Personal results, replay search, leaderboard pages, challenges, sessions, passwords, profile pictures and persona data; HTTP, websocket, server-sent events, gRPC, queues, cloud storage, search index and configuration.
- Response channels of the matchmaking pool: what is sent is returned by the request's method instead.
- EloHistory.BucketsAreFaithful: asks for games later than the zero time; the formatting of timestamps is left out.
- EloHistory.TimestampsIncrease: the same.
- Cancelled tournaments: the status exists in the database, but no modelled step sets it.
