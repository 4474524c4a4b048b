/** The game object: its methods update the board, the lists of legal moves, the taken
    pieces and the attack tables in place. */
module ChessGame {
  import opened Wrappers
  import opened HexGrid
  import opened Offsets
  import opened ChessBoard
  import opened MoveGen
  import opened GameStates

  type AttackTable = array2<bool>

  ghost predicate IsTable(t: AttackTable) { t.Length0 == FILES && t.Length1 == MAX_RANKS }

  /** The hexes a table marks. */
  ghost function Marked(t: AttackTable): set<Hex>
    requires IsTable(t)
    reads t
  {
    set f: nat, r: nat | f < FILES && r < MAX_RANKS && t[f, r] :: Hex(f, r)
  }

  /** The table marks what it marked before, and also the given hexes if they are its side's. */
  ghost predicate MarkedAlso(t: AttackTable, before: set<Hex>, hexes: seq<Hex>, mine: bool)
    requires IsTable(t)
    reads t
  {
    Marked(t) == before + (if mine then Elements(hexes) else {})
  }

  lemma NoElements(s: seq<Hex>)
    ensures s == [] ==> Elements(s) == {}
  {
  }

  lemma MoreElements(s: seq<Hex>, t: seq<Hex>)
    ensures Elements(s + t) == Elements(s) + Elements(t)
  {
  }

  lemma MarkedNothing(t: AttackTable)
    requires IsTable(t)
    ensures forall mine :: MarkedAlso(t, Marked(t), [], mine)
  {
    hide Marked;
  }

  /** The search for a king: the first hex in scan order that holds it. */
  method SearchKing(b: Board, isWhite: bool) returns (king: Option<Hex>)
    ensures king == FindKing(b, isWhite)
  {
    for i := 0 to HEXES
      invariant FindKing(b, isWhite) == FindKingFrom(b, isWhite, i)
    {
      var hex := HexAt(i);
      InBoundsInArray(hex);
      var piece := Get(b, hex);
      if (piece == WHITE_KING && isWhite) || (piece == BLACK_KING && !isWhite) {
        return Some(hex);
      }
    }
    king := None;
  }

  class Game {
    var board: Board
    var whiteMoves: MoveList
    var blackMoves: MoveList
    var takenWhitePieces: seq<Piece>
    var takenBlackPieces: seq<Piece>
    var moves: seq<HistMove>
    const whiteAttackTable: AttackTable
    const blackAttackTable: AttackTable

    ghost predicate Valid() {
      IsTable(whiteAttackTable) && IsTable(blackAttackTable) && whiteAttackTable != blackAttackTable
    }

    ghost function State(): GameState
      reads this
    {
      GameState(board, whiteMoves, blackMoves, takenWhitePieces, takenBlackPieces, moves)
    }

    constructor (b: Board)
      ensures Valid() && fresh(whiteAttackTable) && fresh(blackAttackTable)
      ensures State() == Fresh(b)
      ensures Marked(whiteAttackTable) == {} && Marked(blackAttackTable) == {}
    {
      board := b;
      whiteMoves, blackMoves := None, None;
      takenWhitePieces, takenBlackPieces, moves := [], [], [];
      whiteAttackTable := new bool[FILES, MAX_RANKS]((i, j) => false);
      blackAttackTable := new bool[FILES, MAX_RANKS]((i, j) => false);
    }

    method ClearTables()
      requires Valid()
      modifies whiteAttackTable, blackAttackTable
      ensures Marked(whiteAttackTable) == {} && Marked(blackAttackTable) == {}
    {
      forall f, r | 0 <= f < FILES && 0 <= r < MAX_RANKS { whiteAttackTable[f, r] := false; }
      forall f, r | 0 <= f < FILES && 0 <= r < MAX_RANKS { blackAttackTable[f, r] := false; }
    }

    /** Marks a hex in the table of the piece's colour. */
    method SetAttackTable(piece: Piece, hex: Hex)
      requires Valid() && InArray(hex)
      modifies whiteAttackTable, blackAttackTable
      ensures Marked(whiteAttackTable) == old(Marked(whiteAttackTable)) + (if IsWhite(piece) then {hex} else {})
      ensures Marked(blackAttackTable) == old(Marked(blackAttackTable)) + (if IsWhite(piece) then {} else {hex})
    {
      if IsWhite(piece) {
        whiteAttackTable[hex.file, hex.rank] := true;
      } else {
        blackAttackTable[hex.file, hex.rank] := true;
      }
    }

    /** Marks one more hex found for a piece. */
    method MarkFound(piece: Piece, hex: Hex, ghost found: seq<Hex>, ghost white: set<Hex>, ghost black: set<Hex>)
      requires Valid() && InArray(hex)
      requires MarkedAlso(whiteAttackTable, white, found, IsWhite(piece))
      requires MarkedAlso(blackAttackTable, black, found, !IsWhite(piece))
      modifies whiteAttackTable, blackAttackTable
      ensures MarkedAlso(whiteAttackTable, white, found + [hex], IsWhite(piece))
      ensures MarkedAlso(blackAttackTable, black, found + [hex], !IsWhite(piece))
      ensures Barred(piece) == old(Barred(piece))
    {
      hide Marked;
      SetAttackTable(piece, hex);
    }

    /** One direction of a sliding piece: on until the board or a piece ends the ray. */
    method TravelRay(basePiece: Piece, from: Hex, dirSeq: Offset) returns (found: seq<Hex>)
      requires Valid() && InBounds(from) && IsMoveStep(dirSeq)
      modifies whiteAttackTable, blackAttackTable
      ensures found == Ray(board, basePiece, from, dirSeq)
      ensures MarkedAlso(whiteAttackTable, old(Marked(whiteAttackTable)), found, IsWhite(basePiece))
      ensures MarkedAlso(blackAttackTable, old(Marked(blackAttackTable)), found, !IsWhite(basePiece))
    {
      hide Ray, IsMoveStep, VectorOf, Room, Marked, MarkedAlso, InBounds, IsWhite, OppositeColor;
      found := [];
      MarkedNothing(whiteAttackTable);
      MarkedNothing(blackAttackTable);
      var hex := from;
      ghost var whole := Ray(board, basePiece, from, dirSeq);
      while true
        invariant InBounds(hex)
        invariant found + Ray(board, basePiece, hex, dirSeq) == whole
        invariant MarkedAlso(whiteAttackTable, old(Marked(whiteAttackTable)), found, IsWhite(basePiece))
        invariant MarkedAlso(blackAttackTable, old(Marked(blackAttackTable)), found, !IsWhite(basePiece))
        decreases Room(hex, VectorOf(dirSeq))
      {
        RayStep(board, basePiece, hex, dirSeq);
        ghost var ray := Ray(board, basePiece, hex, dirSeq);
        hex := Walk(hex, dirSeq);
        if !InBounds(hex) {
          break;
        }
        var piece := Get(board, hex);
        if piece == EMPTY {
          assert found + ray == (found + [hex]) + ray[1..];
          MarkFound(basePiece, hex, found, old(Marked(whiteAttackTable)), old(Marked(blackAttackTable)));
          found := found + [hex];
        } else {
          if OppositeColor(piece, basePiece) {
            MarkFound(basePiece, hex, found, old(Marked(whiteAttackTable)), old(Marked(blackAttackTable)));
            found := found + [hex];
          }
          break;
        }
      }
    }

    /** Sliding moves: the rays of all the given directions. */
    method FindMovesByTraveling(from: Hex, directions: seq<Offset>) returns (found: seq<Hex>)
      requires Valid() && InBounds(from) && AreMoveSteps(directions) && InArray(from)
      modifies whiteAttackTable, blackAttackTable
      ensures found == Travel(board, from, directions)
      ensures MarkedAlso(whiteAttackTable, old(Marked(whiteAttackTable)), found, IsWhite(Get(board, from)))
      ensures MarkedAlso(blackAttackTable, old(Marked(blackAttackTable)), found, !IsWhite(Get(board, from)))
    {
      hide Marked, Elements, IsMoveStep, Ray, InBounds;
      var basePiece := Get(board, from);
      found := [];
      NoElements([]);
      for i := 0 to |directions|
        invariant found == TravelTo(board, from, directions, i)
        invariant MarkedAlso(whiteAttackTable, old(Marked(whiteAttackTable)), found, IsWhite(basePiece))
        invariant MarkedAlso(blackAttackTable, old(Marked(blackAttackTable)), found, !IsWhite(basePiece))
      {
        var ray := TravelRay(basePiece, from, directions[i]);
        MoreElements(found, ray);
        found := found + ray;
      }
    }

    /** The hexes the table of the other side bars to a king; none to any other piece. */
    ghost function Barred(piece: Piece): set<Hex>
      requires Valid()
      reads whiteAttackTable, blackAttackTable
    {
      if piece == WHITE_KING then Marked(blackAttackTable)
      else if piece == BLACK_KING then Marked(whiteAttackTable)
      else {}
    }

    /** Single steps: to empty hexes and onto the other colour, and for a king only where the
        other side's table is clear. */
    method FindOffsetMovesFiltered(from: Hex, directions: seq<Offset>) returns (found: seq<Hex>)
      requires Valid() && InBounds(from) && InArray(from)
      modifies whiteAttackTable, blackAttackTable
      ensures found == Steps(board, from, directions, old(Barred(Get(board, from))))
      ensures MarkedAlso(whiteAttackTable, old(Marked(whiteAttackTable)), found, IsWhite(Get(board, from)))
      ensures MarkedAlso(blackAttackTable, old(Marked(blackAttackTable)), found, !IsWhite(Get(board, from)))
    {
      hide Marked, MarkedAlso, InBounds, IsWhite, OppositeColor;
      var basePiece := Get(board, from);
      found := [];
      MarkedNothing(whiteAttackTable);
      MarkedNothing(blackAttackTable);
      for i := 0 to |directions|
        invariant found == StepsTo(board, from, directions, old(Barred(basePiece)), i)
        invariant Barred(basePiece) == old(Barred(basePiece))
        invariant MarkedAlso(whiteAttackTable, old(Marked(whiteAttackTable)), found, IsWhite(basePiece))
        invariant MarkedAlso(blackAttackTable, old(Marked(blackAttackTable)), found, !IsWhite(basePiece))
      {
        var to := Walk(from, directions[i]);
        if !InBounds(to) {
          continue;
        }
        InBoundsInArray(to);
        var piece := Get(board, to);
        var canMove := piece == EMPTY || OppositeColor(basePiece, piece);
        var isAttacked := IsBarred(basePiece, to);
        if canMove && !isAttacked {
          MarkFound(basePiece, to, found, old(Marked(whiteAttackTable)), old(Marked(blackAttackTable)));
          found := found + [to];
        }
      }
    }

    /** Looks a destination up in the table that bars it to a king. */
    method IsBarred(piece: Piece, to: Hex) returns (barred: bool)
      requires Valid() && InArray(to)
      ensures barred <==> to in Barred(piece)
    {
      if piece == WHITE_KING {
        barred := blackAttackTable[to.file, to.rank];
      } else if piece == BLACK_KING {
        barred := whiteAttackTable[to.file, to.rank];
      } else {
        barred := false;
      }
    }

    /** One capture of a pawn. */
    method FindPawnTake(basePiece: Piece, to: Hex) returns (found: seq<Hex>)
      requires Valid()
      modifies whiteAttackTable, blackAttackTable
      ensures found == if CanTake(board, basePiece, to) then [to] else []
      ensures MarkedAlso(whiteAttackTable, old(Marked(whiteAttackTable)), found, IsWhite(basePiece))
      ensures MarkedAlso(blackAttackTable, old(Marked(blackAttackTable)), found, !IsWhite(basePiece))
    {
      hide Marked, MarkedAlso;
      found := [];
      MarkedNothing(whiteAttackTable);
      MarkedNothing(blackAttackTable);
      if InBounds(to) {
        InBoundsInArray(to);
        var piece := Get(board, to);
        if piece != EMPTY && OppositeColor(basePiece, piece) {
          MarkFound(basePiece, to, found, old(Marked(whiteAttackTable)), old(Marked(blackAttackTable)));
          assert found + [to] == [to];
          found := [to];
        }
      }
    }

    /** The advances of a pawn: the second one does not look at the first hex. */
    method FindPawnAdvances(from: Hex, isWhiteTurn: bool) returns (found: seq<Hex>)
      requires InBounds(from) && InArray(from)
      ensures found == PawnAdvances(board, from, isWhiteTurn)
    {
      found := [];
      var move1 := Step(from, Ahead(isWhiteTurn));
      if IsFree(board, move1) {
        found := found + [move1];
      }
      var move2 := Step(move1, Ahead(isWhiteTurn));
      if InBounds(move2) && !HasPawnMoved(from, IsWhite(Get(board, from))) {
        if IsFree(board, move2) {
          found := found + [move2];
        }
      }
    }

    /** Pawn moves: one or two hexes ahead, and the two captures, which alone are attacks. */
    method FindPawnMoves(from: Hex, isWhiteTurn: bool) returns (entry: PieceMoves)
      requires Valid() && InBounds(from) && InArray(from)
      modifies whiteAttackTable, blackAttackTable
      ensures entry == PieceMoves(Get(board, from), from,
                                  PawnAdvances(board, from, isWhiteTurn) + PawnTakes(board, from, isWhiteTurn))
      ensures MarkedAlso(whiteAttackTable, old(Marked(whiteAttackTable)),
                         PawnTakes(board, from, isWhiteTurn), IsWhite(Get(board, from)))
      ensures MarkedAlso(blackAttackTable, old(Marked(blackAttackTable)),
                         PawnTakes(board, from, isWhiteTurn), !IsWhite(Get(board, from)))
    {
      hide Marked, PawnAdvances, CanTake;
      var basePiece := Get(board, from);
      var advances := FindPawnAdvances(from, isWhiteTurn);
      var left := FindPawnTake(basePiece, Step(from, TakeLeft(isWhiteTurn)));
      var right := FindPawnTake(basePiece, Step(from, TakeRight(isWhiteTurn)));
      assert left + right == PawnTakes(board, from, isWhiteTurn);
      entry := PieceMoves(basePiece, from, advances + (left + right));
    }

    /** The entry the scan makes for one hex, if it makes one. */
    method FindMovesAt(hex: Hex, isWhiteTurn: bool) returns (found: seq<PieceMoves>)
      requires Valid() && InBounds(hex)
      modifies whiteAttackTable, blackAttackTable
      ensures found == match Generate(board, hex, isWhiteTurn) case Nothing => [] case Generated(e, _) => [e]
      ensures Marked(whiteAttackTable) == old(Marked(whiteAttackTable))
                + (if isWhiteTurn then NewAttacks(board, hex, isWhiteTurn) else {})
      ensures Marked(blackAttackTable) == old(Marked(blackAttackTable))
                + (if isWhiteTurn then {} else NewAttacks(board, hex, isWhiteTurn))
    {
      hide Marked, Travel, Steps, PawnAdvances, PawnTakes, AreMoveSteps, InBounds, RookOffsets, BishopOffsets, KingOffsets, KnightOffsets;
      OffsetTablesStep();
      InBoundsInArray(hex);
      found := [];
      var piece := Get(board, hex);
      if piece == EMPTY || !IsPieceTurn(piece, isWhiteTurn) {
        return;
      }
      if piece == WHITE_ROOK || piece == BLACK_ROOK {
        var hexes := FindMovesByTraveling(hex, RookOffsets());
        found := [PieceMoves(piece, hex, hexes)];
      } else if piece == WHITE_BISHOP || piece == BLACK_BISHOP {
        var hexes := FindMovesByTraveling(hex, BishopOffsets());
        found := [PieceMoves(piece, hex, hexes)];
      } else if piece == WHITE_QUEEN || piece == BLACK_QUEEN {
        var hexes := FindMovesByTraveling(hex, KingOffsets());
        found := [PieceMoves(piece, hex, hexes)];
      } else if piece == WHITE_KNIGHT || piece == BLACK_KNIGHT {
        var hexes := FindOffsetMovesFiltered(hex, KnightOffsets());
        found := [PieceMoves(piece, hex, hexes)];
      } else if piece == WHITE_PAWN || piece == BLACK_PAWN {
        var entry := FindPawnMoves(hex, isWhiteTurn);
        found := [entry];
      }
    }

    /** All the moves of one side but its king's, in scan order. */
    method FindPieceMoves(isWhiteTurn: bool) returns (found: seq<PieceMoves>)
      requires Valid()
      modifies whiteAttackTable, blackAttackTable
      ensures found == Pieces(board, isWhiteTurn)
      ensures Marked(whiteAttackTable) == old(Marked(whiteAttackTable))
                + (if isWhiteTurn then Attacks(board, isWhiteTurn) else {})
      ensures Marked(blackAttackTable) == old(Marked(blackAttackTable))
                + (if isWhiteTurn then {} else Attacks(board, isWhiteTurn))
    {
      hide Marked, Generate, HexAt, NewAttacks;
      found := [];
      for i := 0 to HEXES
        invariant found == PiecesTo(board, isWhiteTurn, i)
        invariant Marked(whiteAttackTable) == old(Marked(whiteAttackTable))
                    + (if isWhiteTurn then AttacksTo(board, isWhiteTurn, i) else {})
        invariant Marked(blackAttackTable) == old(Marked(blackAttackTable))
                    + (if isWhiteTurn then {} else AttacksTo(board, isWhiteTurn, i))
      {
        var entries := FindMovesAt(HexAt(i), isWhiteTurn);
        found := found + entries;
      }
    }

    /** A king's entry: its steps off the other side's attack table. */
    method FindKingMovesFiltered(king: Hex) returns (entry: PieceMoves)
      requires Valid() && InBounds(king) && InArray(king) && IsKing(Get(board, king))
      modifies whiteAttackTable, blackAttackTable
      ensures entry == KingEntry(board, king, old(Barred(Get(board, king))))
      ensures MarkedAlso(whiteAttackTable, old(Marked(whiteAttackTable)), entry.moves, IsWhite(Get(board, king)))
      ensures MarkedAlso(blackAttackTable, old(Marked(blackAttackTable)), entry.moves, !IsWhite(Get(board, king)))
    {
      var hexes := FindOffsetMovesFiltered(king, KingOffsets());
      entry := PieceMoves(Get(board, king), king, hexes);
    }

    /** Clears the mover's list if the given king stands on a hex the other side attacks. */
    method HandleCheck(king: Hex)
      requires Valid() && InArray(king)
      modifies this
      ensures board == old(board) && takenWhitePieces == old(takenWhitePieces)
           && takenBlackPieces == old(takenBlackPieces) && moves == old(moves)
      ensures var check := king in (if board.isWhiteTurn then Marked(blackAttackTable) else Marked(whiteAttackTable));
              && whiteMoves == (if check && board.isWhiteTurn then Some([]) else old(whiteMoves))
              && blackMoves == (if check && !board.isWhiteTurn then Some([]) else old(blackMoves))
    {
      var isCheck := if board.isWhiteTurn then blackAttackTable[king.file, king.rank]
                     else whiteAttackTable[king.file, king.rank];
      if isCheck {
        if board.isWhiteTurn {
          whiteMoves := Some([]);
        } else {
          blackMoves := Some([]);
        }
      }
    }

    /** Appends the kings' entries: white's off black's table, then black's off white's. */
    method AppendKingMoves(whiteKing: Option<Hex>, blackKing: Option<Hex>)
      requires Valid()
      requires whiteKing.Some? ==> InBounds(whiteKing.value) && InArray(whiteKing.value) && Get(board, whiteKing.value) == WHITE_KING
      requires blackKing.Some? ==> InBounds(blackKing.value) && InArray(blackKing.value) && Get(board, blackKing.value) == BLACK_KING
      requires whiteMoves.Some? && blackMoves.Some?
      modifies this, whiteAttackTable, blackAttackTable
      ensures board == old(board) && takenWhitePieces == old(takenWhitePieces)
           && takenBlackPieces == old(takenBlackPieces) && moves == old(moves)
      ensures Marked(whiteAttackTable)
           == WithKingAttacks(board, old(Marked(whiteAttackTable)), whiteKing, old(Marked(blackAttackTable)))
      ensures Marked(blackAttackTable)
           == WithKingAttacks(board, old(Marked(blackAttackTable)), blackKing, Marked(whiteAttackTable))
      ensures whiteMoves == Some(WithKing(board, old(whiteMoves.value), whiteKing, old(Marked(blackAttackTable))))
      ensures blackMoves == Some(WithKing(board, old(blackMoves.value), blackKing, Marked(whiteAttackTable)))
    {
      if whiteKing.Some? {
        var entry := FindKingMovesFiltered(whiteKing.value);
        whiteMoves := Some(whiteMoves.value + [entry]);
      }
      if blackKing.Some? {
        var entry := FindKingMovesFiltered(blackKing.value);
        blackMoves := Some(blackMoves.value + [entry]);
      }
    }

    /** Clears the mover's list if the king the check test looks at is attacked. */
    method ClearIfChecked(whiteKing: Option<Hex>, blackKing: Option<Hex>)
      requires Valid()
      requires whiteKing == FindKing(board, true) && blackKing == FindKing(board, false)
      requires whiteKing.Some? ==> InArray(whiteKing.value)
      requires blackKing.Some? ==> InArray(blackKing.value)
      requires Marked(whiteAttackTable) == Attacks(board, true)
      requires Marked(blackAttackTable) == Attacks(board, false)
      modifies this
      ensures board == old(board) && takenWhitePieces == old(takenWhitePieces)
           && takenBlackPieces == old(takenBlackPieces) && moves == old(moves)
      ensures whiteMoves == if TestedKingAttacked(board) && board.isWhiteTurn then Some([]) else old(whiteMoves)
      ensures blackMoves == if TestedKingAttacked(board) && !board.isWhiteTurn then Some([]) else old(blackMoves)
    {
      if board.isWhiteTurn && whiteKing.Some? {
        HandleCheck(whiteKing.value);
      } else if blackKing.Some? {
        HandleCheck(blackKing.value);
      }
    }

    /** Regenerates both move lists and both attack tables from the board. */
    method InitPieceMoves()
      requires Valid()
      modifies this, whiteAttackTable, blackAttackTable
      ensures State() == Initialized(old(State()))
      ensures Marked(whiteAttackTable) == Tables(board).whiteAttacks
      ensures Marked(blackAttackTable) == Tables(board).blackAttacks
    {
      hide Pieces, Attacks, FindKing, WithKing, WithKingAttacks, TestedKingAttacked;
      ClearTables();
      var white := FindPieceMoves(true);
      whiteMoves := Some(white);
      var black := FindPieceMoves(false);
      blackMoves := Some(black);
      var whiteKing := SearchKing(board, true);
      var blackKing := SearchKing(board, false);
      KingsFound(board);
      ClearIfChecked(whiteKing, blackKing);
      AppendKingMoves(whiteKing, blackKing);
    }

    /** Both attack tables mark what they marked before. */
    twostate predicate TablesUnchanged()
      requires Valid()
      reads whiteAttackTable, blackAttackTable
    {
      && Marked(whiteAttackTable) == old(Marked(whiteAttackTable))
      && Marked(blackAttackTable) == old(Marked(blackAttackTable))
    }

    method EnsurePieceMoves()
      requires Valid()
      modifies this, whiteAttackTable, blackAttackTable
      ensures State() == if old(whiteMoves).None? || old(blackMoves).None? then Initialized(old(State())) else old(State())
      ensures old(whiteMoves).None? || old(blackMoves).None? ==>
                Marked(whiteAttackTable) == Tables(board).whiteAttacks && Marked(blackAttackTable) == Tables(board).blackAttacks
      ensures !(old(whiteMoves).None? || old(blackMoves).None?) ==> TablesUnchanged()
    {
      if whiteMoves.None? || blackMoves.None? {
        InitPieceMoves();
      }
    }

    method GetTurnMoves(isWhiteTurn: bool) returns (list: seq<PieceMoves>)
      ensures list == State().TurnMoves(isWhiteTurn)
    {
      list := if isWhiteTurn then Listed(whiteMoves) else Listed(blackMoves);
    }

    /** Makes a move that is known to be on the board. */
    method NewMove(move: Move) returns (hm: HistMove)
      requires InArray(move.from) && InArray(move.to)
      modifies this
      ensures State() == Moved(old(State()), move)
      ensures hm == HistOf(old(board), move)
    {
      var pieceFrom := Get(board, move.from);
      var pieceTo := Get(board, move.to);
      var isPromotion := IsPromotion(board, move);
      var promotion := move.promotion;
      board := Set(board, move.from, EMPTY);
      if isPromotion {
        if promotion == NO_PROMOTION {
          promotion := QUEEN_PROMOTION;
        }
        board := Set(board, move.to, GetPromoPiece(promotion, board.isWhiteTurn));
      } else {
        board := Set(board, move.to, pieceFrom);
      }
      hm := HistMove(pieceFrom, move.from, move.to, if isPromotion then promotion else NO_PROMOTION);
      board := board.(isWhiteTurn := !board.isWhiteTurn);
      if pieceTo != EMPTY {
        if board.isWhiteTurn {
          takenWhitePieces := takenWhitePieces + [pieceTo];
        } else {
          takenBlackPieces := takenBlackPieces + [pieceTo];
        }
      }
      whiteMoves := None;
      blackMoves := None;
    }

    /** Checks a move against the board and the mover's list. */
    method ValidateMove(move: Move) returns (violation: Option<MoveError>)
      ensures violation == Violation(State(), move)
    {
      if move.from.file == move.to.file && move.from.rank == move.to.rank {
        return Some(Noop);
      }
      if !InBounds(move.from) || !InBounds(move.to) {
        return Some(OutOfBounds);
      }
      InBoundsInArray(move.from);
      if IsPromotion(board, move) {
        if !NamesPromotion(move.promotion) {
          return Some(InvalidPromotion);
        }
      }
      var legalMoves := GetTurnMoves(board.isWhiteTurn);
      var index := EntryFrom(legalMoves, move.from, 0);
      if index.None? {
        return Some(IllegalTarget);
      }
      if move.to !in legalMoves[index.value].moves {
        return Some(IllegalDestination);
      }
      return None;
    }

    method NewValidMove(move: Move) returns (r: Result<HistMove, MoveError>)
      requires Valid()
      modifies this, whiteAttackTable, blackAttackTable
      ensures match Violation(old(State()), move)
              case Some(e) => r == Failure(e) && State() == old(State()) && TablesUnchanged()
              case None =>
                && InArray(move.from) && r == Success(HistOf(old(board), move))
                && State() == Played(old(State()), move)
                && Marked(whiteAttackTable) == Tables(board).whiteAttacks
                && Marked(blackAttackTable) == Tables(board).blackAttacks
    {
      var violation := ValidateMove(move);
      if violation.Some? {
        return Failure(violation.value);
      }
      InBoundsInArray(move.from);
      InBoundsInArray(move.to);
      var hm := NewMove(move);
      moves := moves + [hm];
      InitPieceMoves();
      r := Success(hm);
    }

    /** Is the mover's king marked in the other side's table? */
    ghost predicate KingMarked()
      reads this, whiteAttackTable, blackAttackTable
      requires Valid()
    {
      && FindKing(board, board.isWhiteTurn).Some?
      && FindKing(board, board.isWhiteTurn).value in
         (if board.isWhiteTurn then Marked(blackAttackTable) else Marked(whiteAttackTable))
    }

    method Check() returns (check: bool)
      requires Valid()
      ensures check == KingMarked()
    {
      var king := SearchKing(board, board.isWhiteTurn);
      FindKingIsKing(board, board.isWhiteTurn, 0);
      if king.None? {
        return false;
      }
      check := if board.isWhiteTurn then blackAttackTable[king.value.file, king.value.rank]
               else whiteAttackTable[king.value.file, king.value.rank];
    }

    /** Does the mover's list hold no move at all? */
    method Stalemate() returns (stuck: bool)
      ensures stuck == NoMoves(State().CurrMoves())
    {
      var list := GetTurnMoves(board.isWhiteTurn);
      var count := 0;
      for i := 0 to |list|
        invariant count >= 0
        invariant count == 0 <==> forall j :: 0 <= j < i ==> list[j].moves == []
      {
        count := count + |list[i].moves|;
      }
      stuck := count == 0;
    }

    /** Checkmate by the tables and lists as they are; with the tables of the board, by the board. */
    method Checkmate() returns (mate: bool)
      requires Valid()
      ensures mate == (KingMarked() && NoMoves(State().CurrMoves()))
      ensures Marked(whiteAttackTable) == Tables(board).whiteAttacks && Marked(blackAttackTable) == Tables(board).blackAttacks ==>
                mate == IsCheckmate(State())
    {
      mate := Check();
      if mate {
        mate := Stalemate();
      }
    }

    method DeepCopy() returns (copy: Game)
      ensures fresh(copy) && fresh(copy.whiteAttackTable) && fresh(copy.blackAttackTable) && copy.Valid()
      ensures copy.State() == DeepCopied(State())
      ensures Marked(copy.whiteAttackTable) == {} && Marked(copy.blackAttackTable) == {}
    {
      copy := new Game(board);
      copy.whiteMoves := CopyList(whiteMoves);
      copy.blackMoves := CopyList(blackMoves);
      copy.moves := moves;
      copy.takenWhitePieces := takenWhitePieces;
      copy.takenBlackPieces := takenBlackPieces;
    }
  }

  /** The element-by-element copy of a move list. */
  method CopyList(list: MoveList) returns (copy: MoveList)
    ensures copy == CopiedList(list)
  {
    copy := None;
    var from := Listed(list);
    for i := 0 to |from|
      invariant Listed(copy) == from[..i] && (i == 0 ==> copy == None)
    {
      copy := Some(Listed(copy) + [PieceMoves(from[i].piece, from[i].from, from[i].moves)]);
    }
    assert from[..|from|] == from;
  }

  /** The game after the first index + 1 recorded moves, by making them again. */
  method JumpMoveIndex(initial: Board, moves: seq<HistMove>, index: int) returns (r: Result<Game, JumpError>)
    requires InArrays(moves)
    ensures r.Success? ==> r.value.Valid() && fresh(r.value)
    ensures r.Success? ==> fresh(r.value.whiteAttackTable) && fresh(r.value.blackAttackTable)
    ensures match Jumped(initial, moves, index)
            case Failure(e) => r == Failure(e)
            case Success(g) =>
              && r.Success? && r.value.State() == g
              && Marked(r.value.whiteAttackTable) == Tables(g.board).whiteAttacks
              && Marked(r.value.blackAttackTable) == Tables(g.board).blackAttacks
  {
    var count := index + 1;
    if count < 0 || count > |moves| {
      return Failure(JumpError(count, |moves|));
    }
    var undoGame := new Game(initial);
    for i := 0 to count
      invariant undoGame.State() == Replayed(initial, moves[..i])
      invariant undoGame.Valid() && fresh(undoGame.whiteAttackTable) && fresh(undoGame.blackAttackTable)
    {
      ReplayedStep(initial, moves, i);
      var _ := undoGame.NewMove(AsMove(moves[i]));
      undoGame.moves := undoGame.moves + [moves[i]];
    }
    undoGame.InitPieceMoves();
    r := Success(undoGame);
  }
}
