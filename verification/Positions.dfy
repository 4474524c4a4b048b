/** Boards with a few pieces on them, and what a side is offered on any board. */
module Positions {
  import opened HexGrid
  import opened ChessBoard
  import opened MoveGen
  import opened GameStates
  import opened Play

  /** An empty board with the given pieces placed on it. */
  function Placed(isWhiteTurn: bool, places: map<Hex, Piece>): Board {
    Board(isWhiteTurn,
          seq(FILES, f requires 0 <= f < FILES =>
            seq(MAX_RANKS, r requires 0 <= r < MAX_RANKS => if Hex(f, r) in places then places[Hex(f, r)] else EMPTY)))
  }

  lemma PlacedCells(isWhiteTurn: bool, places: map<Hex, Piece>)
    ensures Placed(isWhiteTurn, places).isWhiteTurn == isWhiteTurn
    ensures forall h: Hex :: InArray(h) ==>
              Get(Placed(isWhiteTurn, places), h) == if h in places then places[h] else EMPTY
  {
  }

  /** The cells of the board after a move. */
  lemma MovedCells(b: Board, mv: Move, h: Hex)
    requires InArray(mv.from) && InArray(mv.to) && InArray(h)
    ensures MovedBoard(b, mv).isWhiteTurn != b.isWhiteTurn
    ensures Get(MovedBoard(b, mv), h) == if h == mv.to then Landing(b, mv) else if h == mv.from then EMPTY else Get(b, h)
  {
    hide Set, Landing;
    var lifted := Set(b, mv.from, EMPTY);
    var landed := Set(lifted, mv.to, Landing(b, mv));
    assert Get(MovedBoard(b, mv), h) == Get(landed, h);
  }

  /** The piece on a hex, its king apart, is offered the destination when the moves of the side
      to move are generated, before a check clears them. */
  ghost predicate Offered(b: Board, from: Hex, to: Hex) {
    InBounds(from) && match Generate(b, from, b.isWhiteTurn) case Nothing => false case Generated(e, _) => to in e.moves
  }

  lemma GeneratedFrom(b: Board, h: Hex, white: bool)
    requires InBounds(h)
    ensures Generate(b, h, white).Generated? ==> Generate(b, h, white).entry.from == h
  {
    hide Travel, Steps, PawnAdvances, PawnTakes, AreMoveSteps, Slides;
    InBoundsInArray(h);
  }

  /** The entries of a side's pieces are those generated from their hexes. */
  lemma {:induction false} EntriesAreGenerated(b: Board, white: bool, n: nat, j: nat)
    requires n <= HEXES && j < |PiecesTo(b, white, n)|
    ensures var e := PiecesTo(b, white, n)[j];
            InBounds(e.from) && Generate(b, e.from, white).Generated? && Generate(b, e.from, white).entry == e
    decreases n
  {
    hide Generate, HexAt;
    GeneratedFrom(b, HexAt(n - 1), white);
    if j < |PiecesTo(b, white, n - 1)| { EntriesAreGenerated(b, white, n - 1, j); }
  }

  /** What is generated from a hex has an entry. */
  lemma {:induction false} GeneratedHasEntry(b: Board, white: bool, n: nat, i: nat) returns (j: nat)
    requires i < n <= HEXES && Generate(b, HexAt(i), white).Generated?
    ensures j < |PiecesTo(b, white, n)| && PiecesTo(b, white, n)[j] == Generate(b, HexAt(i), white).entry
    decreases n
  {
    hide Generate, HexAt;
    if i == n - 1 {
      j := |PiecesTo(b, white, n - 1)|;
    } else {
      j := GeneratedHasEntry(b, white, n - 1, i);
    }
  }

  lemma FirstEntry(list: seq<PieceMoves>, from: Hex, i: nat, j: nat)
    requires i <= j < |list| && list[j].from == from
    ensures EntryFrom(list, from, i).Some? && EntryFrom(list, from, i).value <= j
  {
  }

  lemma UncheckedMoves(b: Board)
    requires !TestedKingAttacked(b)
    ensures var list, pieces := Start(b).CurrMoves(), Pieces(b, b.isWhiteTurn);
            |pieces| <= |list| && list[..|pieces|] == pieces
  {
    hide Pieces, Attacks, TestedKingAttacked, FindKing, KingEntry, WithKingAttacks;
  }

  lemma OfferedIsTarget(b: Board, from: Hex, to: Hex)
    requires Offered(b, from, to)
    ensures from != to && InArray(from) && Target(b, b.isWhiteTurn, to)
    ensures IsColored(Get(b, from), b.isWhiteTurn)
  {
    hide Generate, Target;
    GenerateSoundness(b, from, b.isWhiteTurn);
    GeneratedFrom(b, from, b.isWhiteTurn);
    TargetIsNotOwn(b, from, to);
  }

  lemma TargetIsNotOwn(b: Board, from: Hex, to: Hex)
    requires InArray(from) && IsColored(Get(b, from), b.isWhiteTurn) && Target(b, b.isWhiteTurn, to)
    ensures from != to
  {
  }

  /** Off check, an offered move is accepted, its promotion named if it is one. */
  lemma OfferedIsAccepted(b: Board, mv: Move)
    requires !TestedKingAttacked(b) && Offered(b, mv.from, mv.to)
    requires InArray(mv.from) && (IsPromotion(b, mv) ==> NamesPromotion(mv.promotion))
    ensures Violation(Start(b), mv).None?
  {
    hide Generate, HexAt, IsPromotion, TestedKingAttacked, Tables, PiecesTo, EntryFrom, Start;
    var white, list := b.isWhiteTurn, Start(b).CurrMoves();
    OfferedIsTarget(b, mv.from, mv.to);
    UncheckedMoves(b);
    assert HexAt(IndexOf(mv.from)) == mv.from;
    GeneratedFrom(b, mv.from, white);
    var j := GeneratedHasEntry(b, white, HEXES, IndexOf(mv.from));
    assert list[j] == Pieces(b, white)[j];
    FirstEntry(list, mv.from, 0, j);
    var k := EntryFrom(list, mv.from, 0).value;
    assert list[k] == Pieces(b, white)[k];
    EntriesAreGenerated(b, white, HEXES, k);
    StartBoard(b);
  }

  lemma StartBoard(b: Board)
    ensures Start(b).board == b
  {
    hide Tables;
  }

  /** Without kings nobody is in check. */
  lemma NoKingsNoCheck(b: Board)
    requires forall h: Hex :: InArray(h) ==> Get(b, h) != WHITE_KING && Get(b, h) != BLACK_KING
    ensures FindKing(b, true).None? && FindKing(b, false).None?
    ensures !TestedKingAttacked(b) && !InCheck(b)
  {
    hide Attacks, FindKing, Tables;
    KingsFound(b);
  }
}
