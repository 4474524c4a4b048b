/** The position a game starts from, and its text. */
module InitialPosition {
  import opened Wrappers
  import opened HexGrid
  import opened ChessBoard
  import opened Positions
  import opened Fen
  import opened FenRoundTrip

  function Placements(): map<Hex, Piece> {
    map[Hex(1, 0) := WHITE_PAWN, Hex(2, 1) := WHITE_PAWN, Hex(3, 2) := WHITE_PAWN,
        Hex(4, 3) := WHITE_PAWN, Hex(5, 4) := WHITE_PAWN, Hex(6, 3) := WHITE_PAWN,
        Hex(7, 2) := WHITE_PAWN, Hex(8, 1) := WHITE_PAWN, Hex(9, 0) := WHITE_PAWN,
        Hex(2, 0) := WHITE_ROOK, Hex(3, 0) := WHITE_KNIGHT, Hex(4, 0) := WHITE_QUEEN,
        Hex(5, 0) := WHITE_BISHOP, Hex(5, 1) := WHITE_BISHOP, Hex(5, 2) := WHITE_BISHOP,
        Hex(6, 0) := WHITE_KING, Hex(7, 0) := WHITE_KNIGHT, Hex(8, 0) := WHITE_ROOK,
        Hex(1, 6) := BLACK_PAWN, Hex(2, 6) := BLACK_PAWN, Hex(3, 6) := BLACK_PAWN,
        Hex(4, 6) := BLACK_PAWN, Hex(5, 6) := BLACK_PAWN, Hex(6, 6) := BLACK_PAWN,
        Hex(7, 6) := BLACK_PAWN, Hex(8, 6) := BLACK_PAWN, Hex(9, 6) := BLACK_PAWN,
        Hex(2, 7) := BLACK_ROOK, Hex(3, 8) := BLACK_KNIGHT, Hex(4, 9) := BLACK_QUEEN,
        Hex(5, 10) := BLACK_BISHOP, Hex(5, 9) := BLACK_BISHOP, Hex(5, 8) := BLACK_BISHOP,
        Hex(6, 9) := BLACK_KING, Hex(7, 8) := BLACK_KNIGHT, Hex(8, 7) := BLACK_ROOK]
  }

  function InitialBoard(): Board { Placed(true, Placements()) }

  /** The distance of a file from the middle one. */
  function FromMiddle(file: int): int { if file < 5 then 5 - file else file - 5 }

  /** The piece on the back rank of a file other than the middle one. */
  function BackPiece(file: int, white: bool): Piece {
    if file == 2 || file == 8 then if white then WHITE_ROOK else BLACK_ROOK
    else if file == 3 || file == 7 then if white then WHITE_KNIGHT else BLACK_KNIGHT
    else if file == 4 then if white then WHITE_QUEEN else BLACK_QUEEN
    else if file == 6 then if white then WHITE_KING else BLACK_KING
    else EMPTY
  }

  /** The position by rules: nine pawns a side, white's in a wedge and black's on the seventh
      rank; three bishops one behind the other; the other pieces at the ends of their files. */
  function PieceAt(h: Hex): Piece {
    var d := FromMiddle(h.file);
    if d >= 5 then EMPTY
    else if h.rank == 4 - d then WHITE_PAWN
    else if h.rank == 6 then BLACK_PAWN
    else if d == 0 then if h.rank < 3 then WHITE_BISHOP else if 8 <= h.rank <= 10 then BLACK_BISHOP else EMPTY
    else if h.rank == 0 then BackPiece(h.file, true)
    else if h.rank == 10 - d then BackPiece(h.file, false)
    else EMPTY
  }

  lemma PlacementsOf(h: Hex)
    requires InArray(h)
    ensures (if h in Placements() then Placements()[h] else EMPTY) == PieceAt(h)
  {
  }

  lemma InitialPieces(h: Hex)
    requires InArray(h)
    ensures Get(InitialBoard(), h) == PieceAt(h)
  {
    hide Placements, PieceAt;
    PlacementsOf(h);
    PlacedCells(true, Placements());
  }

  // ----- its text -----

  /** k empty hexes on are counted. */
  lemma {:induction false} EmptyRun(b: Board, f: nat, r: nat, k: nat, n: nat)
    requires f < FILES && r + k <= RanksPerFile(f)
    requires forall h: Hex :: InArray(h) && h.file == f && r <= h.rank < r + k ==> Get(b, h) == EMPTY
    ensures RanksText(b, f, r, n) == RanksText(b, f, r + k, n + k)
    decreases k
  {
    hide RanksText, Rune;
    RanksClosedForm(f);
    if k > 0 {
      RanksTextStep(b, f, r, n);
      assert Get(b, Hex(f, r)) == EMPTY;
      EmptyRun(b, f, r + 1, k - 1, n + 1);
    }
  }

  /** A piece writes the count before it and its letter. */
  lemma OnePiece(b: Board, f: nat, r: nat, n: nat, p: Piece)
    requires f < FILES && r < RanksPerFile(f) && InArray(Hex(f, r)) && Get(b, Hex(f, r)) == p != EMPTY
    ensures RanksText(b, f, r, n) == RunText(n) + [Rune(p)] + RanksText(b, f, r + 1, 0)
  {
    hide RanksText, Rune;
    RanksClosedForm(f);
    RanksTextStep(b, f, r, n);
  }

  /** The given piece stands on a hex of the file after k empty ones. */
  ghost predicate RunsTo(b: Board, f: nat, r: nat, k: nat, p: Piece) {
    && f < FILES && r + k < RanksPerFile(f) && InArray(Hex(f, r + k)) && Get(b, Hex(f, r + k)) == p != EMPTY
    && forall h: Hex :: InArray(h) && h.file == f && r <= h.rank < r + k ==> Get(b, h) == EMPTY
  }

  /** k empty hexes and then a piece. */
  lemma RunAndPiece(b: Board, f: nat, r: nat, k: nat, p: Piece)
    requires RunsTo(b, f, r, k, p)
    ensures RanksText(b, f, r, 0) == RunText(k) + [Rune(p)] + RanksText(b, f, r + k + 1, 0)
  {
    hide RanksText, Rune;
    EmptyRun(b, f, r, k, 0);
    OnePiece(b, f, r + k, k, p);
  }

  lemma FileEnds(b: Board, f: nat, r: nat)
    requires f < FILES && r == RanksPerFile(f)
    ensures RanksText(b, f, r, 0) == []
  {
  }

  ghost predicate IsInitial(b: Board) {
    b.isWhiteTurn && forall h: Hex :: InArray(h) ==> Get(b, h) == PieceAt(h)
  }

  lemma InitialIsInitial()
    ensures IsInitial(InitialBoard())
  {
    hide PieceAt, Placements;
    forall h: Hex | InArray(h)
      ensures Get(InitialBoard(), h) == PieceAt(h)
    {
      InitialPieces(h);
    }
  }

  lemma WingPieces(b: Board, f: nat, d: int)
    requires IsInitial(b) && f < FILES && d == FromMiddle(f) && 1 <= d <= 3
    ensures RanksPerFile(f) == 11 - d
    ensures RunsTo(b, f, 0, 0, BackPiece(f, true)) && RunsTo(b, f, 1, 3 - d, WHITE_PAWN)
    ensures RunsTo(b, f, 5 - d, d + 1, BLACK_PAWN) && RunsTo(b, f, 7, 3 - d, BackPiece(f, false))
  {
    RanksClosedForm(f);
  }

  lemma WingText(b: Board, f: nat, d: int)
    requires IsInitial(b) && f < FILES && d == FromMiddle(f) && 1 <= d <= 3
    ensures RanksText(b, f, 0, 0)
         == [Rune(BackPiece(f, true))] + (RunText(3 - d) + [Rune(WHITE_PAWN)]) + (RunText(d + 1) + [Rune(BLACK_PAWN)])
            + (RunText(3 - d) + [Rune(BackPiece(f, false))])
  {
    hide RanksText, Rune, RunText, IsInitial, BackPiece, FromMiddle, RanksPerFile;
    WingPieces(b, f, d);
    NoRun(0);
    RunAndPiece(b, f, 0, 0, BackPiece(f, true));
    RunAndPiece(b, f, 1, 3 - d, WHITE_PAWN);
    RunAndPiece(b, f, 5 - d, d + 1, BLACK_PAWN);
    RunAndPiece(b, f, 7, 3 - d, BackPiece(f, false));
    FileEnds(b, f, 11 - d);
  }

  lemma NoRun(n: nat)
    ensures n == 0 ==> RunText(n) == []
    ensures 0 < n < 10 ==> RunText(n) == [Digit(n)]
  {
  }

  lemma Digits()
    ensures Digit(1) == '1' && Digit(2) == '2' && Digit(3) == '3' && Digit(4) == '4' && Digit(5) == '5' && Digit(6) == '6'
  {
  }

  lemma EdgeText(b: Board, f: nat)
    requires IsInitial(b) && (f == 0 || f == 10)
    ensures RanksText(b, f, 0, 0) == "6"
  {
    hide RanksText, RunText;
    var n := RanksPerFile(f);
    EmptyRun(b, f, 0, n, 0);
    RanksTextEnd(b, f, n);
    NoRun(n);
    Digits();
  }

  lemma OuterText(b: Board, f: nat)
    requires IsInitial(b) && (f == 1 || f == 9)
    ensures RanksText(b, f, 0, 0) == "P5p"
  {
    hide RanksText, RunText;
    RanksClosedForm(f);
    assert RunsTo(b, f, 0, 0, WHITE_PAWN) && RunsTo(b, f, 1, 5, BLACK_PAWN);
    RunAndPiece(b, f, 0, 0, WHITE_PAWN);
    RunAndPiece(b, f, 1, 5, BLACK_PAWN);
    FileEnds(b, f, 7);
    NoRun(0);
    NoRun(5);
    Digits();
  }

  lemma RookText(b: Board, f: nat)
    requires IsInitial(b) && (f == 2 || f == 8)
    ensures RanksText(b, f, 0, 0) == "RP4pr"
  {
    hide RanksText, RunText, IsInitial;
    WingText(b, f, 3);
    NoRun(0);
    NoRun(4);
    Digits();
  }

  lemma KnightText(b: Board, f: nat)
    requires IsInitial(b) && (f == 3 || f == 7)
    ensures RanksText(b, f, 0, 0) == "N1P3p1n"
  {
    hide RanksText, RunText, IsInitial;
    WingText(b, f, 2);
    NoRun(1);
    NoRun(3);
    Digits();
  }

  lemma RoyalText(b: Board, f: nat)
    requires IsInitial(b) && (f == 4 || f == 6)
    ensures RanksText(b, f, 0, 0) == if f == 4 then "Q2P2p2q" else "K2P2p2k"
  {
    hide RanksText, RunText, IsInitial;
    WingText(b, f, 1);
    NoRun(2);
    Digits();
  }

  lemma MiddlePieces(b: Board, f: nat)
    requires IsInitial(b) && f == 5
    ensures RanksPerFile(f) == 11
    ensures RunsTo(b, f, 0, 0, WHITE_BISHOP) && RunsTo(b, f, 1, 0, WHITE_BISHOP) && RunsTo(b, f, 2, 0, WHITE_BISHOP)
    ensures RunsTo(b, f, 3, 1, WHITE_PAWN) && RunsTo(b, f, 5, 1, BLACK_PAWN)
    ensures RunsTo(b, f, 7, 1, BLACK_BISHOP) && RunsTo(b, f, 9, 0, BLACK_BISHOP) && RunsTo(b, f, 10, 0, BLACK_BISHOP)
  {
  }

  lemma MiddleText(b: Board, f: nat)
    requires IsInitial(b) && f == 5
    ensures RanksText(b, f, 0, 0) == "BBB1P1p1bbb"
  {
    hide RanksText, RunText, IsInitial, RanksPerFile;
    MiddlePieces(b, f);
    NoRun(0);
    NoRun(1);
    Digits();
    RunAndPiece(b, f, 0, 0, WHITE_BISHOP);
    RunAndPiece(b, f, 1, 0, WHITE_BISHOP);
    RunAndPiece(b, f, 2, 0, WHITE_BISHOP);
    RunAndPiece(b, f, 3, 1, WHITE_PAWN);
    RunAndPiece(b, f, 5, 1, BLACK_PAWN);
    RunAndPiece(b, f, 7, 1, BLACK_BISHOP);
    RunAndPiece(b, f, 9, 0, BLACK_BISHOP);
    RunAndPiece(b, f, 10, 0, BLACK_BISHOP);
    FileEnds(b, f, 11);
  }

  /** The files' texts with slashes between them. */
  function Joined(parts: seq<string>): string
    requires parts != []
    decreases |parts|
  {
    if |parts| == 1 then parts[0] else parts[0] + (['/'] + Joined(parts[1..]))
  }

  /** A board's text is its files' texts, joined, and the side to move. */
  lemma {:induction false} FilesJoined(b: Board, f: nat, parts: seq<string>)
    requires f < FILES && |parts| == FILES - f
    requires forall i :: 0 <= i < |parts| ==> RanksText(b, f + i, 0, 0) == parts[i]
    ensures FilesText(b, f) == Joined(parts) + [' ', if b.isWhiteTurn then 'w' else 'b']
    decreases |parts|
  {
    hide RanksText;
    if f < FILES - 1 {
      FilesJoined(b, f + 1, parts[1..]);
      var turn := [' ', if b.isWhiteTurn then 'w' else 'b'];
      assert parts[0] + (['/'] + (Joined(parts[1..]) + turn)) == parts[0] + (['/'] + Joined(parts[1..])) + turn;
    }
  }

  function InitialFiles(): (files: seq<string>)
    ensures |files| == FILES
  {
    ["6", "P5p", "RP4pr", "N1P3p1n", "Q2P2p2q", "BBB1P1p1bbb", "K2P2p2k", "N1P3p1n", "RP4pr", "P5p", "6"]
  }

  lemma InitialFile(b: Board, f: nat)
    requires IsInitial(b) && f < FILES
    ensures RanksText(b, f, 0, 0) == InitialFiles()[f]
  {
    hide RanksText, IsInitial;
    if f == 0 || f == 10 { EdgeText(b, f); }
    else if f == 1 || f == 9 { OuterText(b, f); }
    else if f == 2 || f == 8 { RookText(b, f); }
    else if f == 3 || f == 7 { KnightText(b, f); }
    else if f == 5 { MiddleText(b, f); }
    else { RoyalText(b, f); }
  }

  /** The text of the initial position, white to move; and that text is read as the position. */
  lemma InitialText()
    ensures FenText(InitialBoard()) == Joined(InitialFiles()) + " w"
    ensures ParsedFen(Joined(InitialFiles()) + " w") == Success(InitialBoard())
  {
    hide RanksText, FilesText, IsInitial, InitialBoard, ParsedFen, PieceAt, Joined, InitialFiles;
    var b := InitialBoard();
    InitialIsInitial();
    InitialTurn(b);
    forall i | 0 <= i < FILES
      ensures RanksText(b, i, 0, 0) == InitialFiles()[i]
    {
      InitialFile(b, i);
    }
    FilesJoined(b, 0, InitialFiles());
    InitialWellFormed(b);
    FenComesBackIffWellFormed(b);
  }

  lemma InitialWellFormed(b: Board)
    requires b == InitialBoard()
    ensures WellFormed(b)
  {
    hide InitialBoard, PieceAt;
    forall h: Hex | InArray(h)
      ensures IsKnown(Get(b, h)) && (!InBounds(h) ==> Get(b, h) == EMPTY)
    {
      InitialPieces(h);
      PieceFits(h);
    }
  }

  lemma PieceFits(h: Hex)
    requires InArray(h)
    ensures IsKnown(PieceAt(h)) && (!InBounds(h) ==> PieceAt(h) == EMPTY)
  {
    RanksClosedForm(h.file);
  }

  lemma InitialTurn(b: Board)
    requires IsInitial(b)
    ensures b.isWhiteTurn
  {
  }
}
