/** Pieces as the byte codes of the board package, and the board itself: eleven files of
    eleven cells (files shorter than eleven ranks are padded) and the side to move. */
module ChessBoard {
  import opened HexGrid

  type Piece = p: int | 0 <= p < 256

  const EMPTY: Piece := 0
  const WHITE_PAWN: Piece := 1
  const BLACK_PAWN: Piece := 2
  const WHITE_KNIGHT: Piece := 3
  const BLACK_KNIGHT: Piece := 4
  const WHITE_BISHOP: Piece := 5
  const BLACK_BISHOP: Piece := 6
  const WHITE_ROOK: Piece := 7
  const BLACK_ROOK: Piece := 8
  const WHITE_QUEEN: Piece := 9
  const BLACK_QUEEN: Piece := 10
  const WHITE_KING: Piece := 11
  const BLACK_KING: Piece := 12

  predicate IsPieceTurn(p: Piece, isWhiteTurn: bool) {
    (p % 2 == 0 && !isWhiteTurn) || (p % 2 == 1 && isWhiteTurn)
  }

  predicate IsWhite(p: Piece) { p % 2 == 1 }

  predicate OppositeColor(p: Piece, q: Piece) { p % 2 != q % 2 }

  predicate IsPawn(p: Piece) { p == WHITE_PAWN || p == BLACK_PAWN }

  predicate IsKing(p: Piece) { p == WHITE_KING || p == BLACK_KING }

  /** The codes 0 to 12 that stand for something. */
  predicate IsKnown(p: Piece) { p <= BLACK_KING }

  /** A piece, and one of the given colour. */
  predicate IsColored(p: Piece, white: bool) { p != EMPTY && IsWhite(p) == white }

  datatype BoardValue = Board(isWhiteTurn: bool, pieces: seq<seq<Piece>>)

  predicate IsMatrix(pieces: seq<seq<Piece>>) {
    |pieces| == FILES && forall f :: 0 <= f < FILES ==> |pieces[f]| == MAX_RANKS
  }

  function EmptyPieces(): seq<seq<Piece>> { seq(FILES, _ => seq(MAX_RANKS, _ => EMPTY)) }

  type Board = b: BoardValue | IsMatrix(b.pieces) witness Board(false, EmptyPieces())

  /** A cell of the array behind the board, padding included. */
  predicate InArray(h: Hex) { h.file < FILES && h.rank < MAX_RANKS }

  lemma InBoundsInArray(h: Hex)
    requires InBounds(h)
    ensures InArray(h)
  {
    RanksClosedForm(h.file);
  }

  function Get(b: Board, h: Hex): Piece
    requires InArray(h)
  {
    b.pieces[h.file][h.rank]
  }

  function Set(b: Board, h: Hex, p: Piece): (r: Board)
    requires InArray(h)
    ensures r.isWhiteTurn == b.isWhiteTurn
    ensures Get(r, h) == p
    ensures forall g: Hex :: InArray(g) && g != h ==> Get(r, g) == Get(b, g)
  {
    var file: seq<Piece> := b.pieces[h.file][h.rank := p];
    b.(pieces := b.pieces[h.file := file])
  }

  /** Two boards are equal if they agree on the turn and on every cell. */
  lemma SameCells(a: Board, b: Board)
    requires a.isWhiteTurn == b.isWhiteTurn
    requires forall h: Hex :: InArray(h) ==> Get(a, h) == Get(b, h)
    ensures a == b
  {
    forall f | 0 <= f < FILES
      ensures a.pieces[f] == b.pieces[f]
    {
      forall r | 0 <= r < MAX_RANKS
        ensures a.pieces[f][r] == b.pieces[f][r]
      {
        assert Get(a, Hex(f, r)) == Get(b, Hex(f, r));
      }
    }
  }

  /** Padding cells are empty and every code is a known one. */
  ghost predicate WellFormed(b: Board) {
    forall h: Hex :: InArray(h) ==>
      IsKnown(Get(b, h)) && (!InBounds(h) ==> Get(b, h) == EMPTY)
  }
}
