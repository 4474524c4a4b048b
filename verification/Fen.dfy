/** The one-line text form of a board: what is printed, what the scanner accepts, and that
    the two are inverse. Text is ASCII, one character per byte. */
module Fen {
  import opened Wrappers
  import opened HexGrid
  import opened ChessBoard

  function Rune(p: Piece): char {
    if p == EMPTY then '.'
    else if p == WHITE_PAWN then 'P' else if p == BLACK_PAWN then 'p'
    else if p == WHITE_KNIGHT then 'N' else if p == BLACK_KNIGHT then 'n'
    else if p == WHITE_BISHOP then 'B' else if p == BLACK_BISHOP then 'b'
    else if p == WHITE_ROOK then 'R' else if p == BLACK_ROOK then 'r'
    else if p == WHITE_QUEEN then 'Q' else if p == BLACK_QUEEN then 'q'
    else if p == WHITE_KING then 'K' else if p == BLACK_KING then 'k'
    else '?'
  }

  function PieceFromRune(c: char): Option<Piece> {
    if c == '.' then Some(EMPTY)
    else if c == 'P' then Some(WHITE_PAWN) else if c == 'p' then Some(BLACK_PAWN)
    else if c == 'N' then Some(WHITE_KNIGHT) else if c == 'n' then Some(BLACK_KNIGHT)
    else if c == 'B' then Some(WHITE_BISHOP) else if c == 'b' then Some(BLACK_BISHOP)
    else if c == 'R' then Some(WHITE_ROOK) else if c == 'r' then Some(BLACK_ROOK)
    else if c == 'Q' then Some(WHITE_QUEEN) else if c == 'q' then Some(BLACK_QUEEN)
    else if c == 'K' then Some(WHITE_KING) else if c == 'k' then Some(BLACK_KING)
    else None
  }

  /** Runes and codes are inverse on the known pieces, and no other rune names one. */
  lemma RuneInverse(p: Piece, c: char)
    ensures PieceFromRune(Rune(p)) == if IsKnown(p) then Some(p) else None
    ensures PieceFromRune(c).Some? ==> IsKnown(PieceFromRune(c).value) && Rune(PieceFromRune(c).value) == c
  {
  }

  /** A capital letter for a white piece and the same letter small for a black one. */
  lemma RuneCase(p: Piece)
    requires IsKnown(p) && p != EMPTY
    ensures IsWhite(p) <==> 'A' <= Rune(p) <= 'Z'
    ensures !IsWhite(p) <==> 'a' <= Rune(p) <= 'z'
    ensures IsWhite(p) ==> Rune(p + 1) == Rune(p) + 32 as char
    ensures Rune(p) == (if IsWhite(p) then "PNBRQK"[(p - 1) / 2] else "pnbrqk"[(p - 2) / 2])
  {
  }

  predicate IsSpace(c: char) { c == ' ' || '\t' <= c <= '\r' }

  predicate IsDigit(c: char) { '0' <= c <= '9' }

  predicate IsLetter(c: char) { 'a' <= c <= 'z' || 'A' <= c <= 'Z' }

  /** The characters by their codes: six spaces, ten digits, and the letters of both cases. */
  lemma CharacterClasses(c: char)
    ensures IsSpace(c) <==> c as int in {9, 10, 11, 12, 13, 32}
    ensures IsDigit(c) <==> 48 <= c as int <= 57
    ensures IsLetter(c) <==> 65 <= c as int <= 90 || 97 <= c as int <= 122
  {
  }

  // ----- printing -----

  function Digit(n: nat): char
    requires n < 10
  {
    '0' + n as char
  }

  function Itoa(n: nat): string {
    if n < 10 then [Digit(n)] else Itoa(n / 10) + [Digit(n % 10)]
  }

  /** A run of empty hexes: its length, or nothing if it is empty. */
  function RunText(empties: nat): string { if empties > 0 then Itoa(empties) else [] }

  /** A file from rank r on, after a run of empty hexes. */
  function RanksText(b: Board, f: nat, r: nat, empties: nat): string
    requires f < FILES && r <= RanksPerFile(f)
    decreases RanksPerFile(f) - r, b.isWhiteTurn
  {
    RanksClosedForm(f);
    if r == RanksPerFile(f) then RunText(empties)
    else
      var p := Get(b, Hex(f, r));
      if p == EMPTY then RanksText(b, f, r + 1, empties + 1)
      else RunText(empties) + [Rune(p)] + RanksText(b, f, r + 1, 0)
  }

  /** The files from f on, separated by slashes, and the side to move. */
  function FilesText(b: Board, f: nat): string
    requires f < FILES
    decreases FILES - f, b.isWhiteTurn
  {
    RanksText(b, f, 0, 0)
    + (if f == FILES - 1 then [' '] + TurnText(b) else ['/'] + FilesText(b, f + 1))
  }

  function TurnText(b: Board): string { if b.isWhiteTurn then "w" else "b" }

  function FenText(b: Board): string { FilesText(b, 0) }

  lemma RanksTextStep(b: Board, f: nat, r: nat, empties: nat)
    requires f < FILES && r < RanksPerFile(f) && r < MAX_RANKS
    ensures var p := Get(b, Hex(f, r));
            RanksText(b, f, r, empties)
            == if p == EMPTY then RanksText(b, f, r + 1, empties + 1)
               else RunText(empties) + [Rune(p)] + RanksText(b, f, r + 1, 0)
  {
  }

  lemma RanksTextEnd(b: Board, f: nat, empties: nat)
    requires f < FILES
    ensures RanksText(b, f, RanksPerFile(f), empties) == RunText(empties)
  {
  }

  lemma PieceJoins(text: string, run: string, rune: char, rest: string)
    ensures text + run + [rune] + rest == text + (run + [rune] + rest)
  {
  }

  /** Writes a pending count, if there is one. */
  method PrintCount(text: string, emptyCount: nat) returns (r: string)
    ensures r == text + RunText(emptyCount)
  {
    hide Itoa;
    r := text;
    if emptyCount > 0 {
      r := r + Itoa(emptyCount);
    }
  }

  /** The printing loop over one file's ranks. */
  method PrintRanks(b: Board, f: nat) returns (text: string)
    requires f < FILES
    ensures text == RanksText(b, f, 0, 0)
  {
    hide RanksText, RunText, Rune;
    RanksClosedForm(f);
    text := [];
    var emptyCount := 0;
    for r := 0 to RanksPerFile(f)
      invariant emptyCount >= 0
      invariant text + RanksText(b, f, r, emptyCount) == RanksText(b, f, 0, 0)
    {
      RanksTextStep(b, f, r, emptyCount);
      var piece := Get(b, Hex(f, r));
      if piece == EMPTY {
        emptyCount := emptyCount + 1;
        continue;
      }
      PieceJoins(text, RunText(emptyCount), Rune(piece), RanksText(b, f, r + 1, 0));
      text := PrintCount(text, emptyCount);
      emptyCount := 0;
      text := text + [Rune(piece)];
    }
    RanksTextEnd(b, f, emptyCount);
    text := PrintCount(text, emptyCount);
  }

  /** The printing loop over the files. */
  method PrintFen(b: Board) returns (text: string)
    ensures text == FenText(b)
  {
    hide RanksText;
    text := [];
    for f := 0 to FILES
      invariant if f < FILES then text + FilesText(b, f) == FenText(b)
                else text + ([' '] + TurnText(b)) == FenText(b)
    {
      var ranks := PrintRanks(b, f);
      ghost var rest := if f == FILES - 1 then [' '] + TurnText(b) else ['/'] + FilesText(b, f + 1);
      assert text + (ranks + rest) == text + ranks + rest;
      text := text + ranks;
      if f != FILES - 1 {
        assert text + (['/'] + FilesText(b, f + 1)) == text + ['/'] + FilesText(b, f + 1);
        text := text + ['/'];
      }
    }
    text := text + ([' '] + TurnText(b));
  }

  // ----- scanning -----

  datatype FenError =
    | BadCount | OffBoard(file: nat, rank: nat) | BadCharacter(c: char)
    | ShortFile(file: nat) | InvalidFiles | MissingTurn | InvalidTurn(c: char)

  const MAX_INT64: int := 0x7FFF_FFFF_FFFF_FFFF

  function DigitValue(c: char): nat
    requires IsDigit(c)
  {
    c as int - '0' as int
  }

  /** The value of a string of digits. */
  function Atoi(s: string): nat
    requires forall i :: 0 <= i < |s| ==> IsDigit(s[i])
  {
    if s == [] then 0 else 10 * Atoi(s[..|s| - 1]) + DigitValue(s[|s| - 1])
  }

  /** The scanner's variables; `start` is where a pending count begins. */
  datatype Scan = Scan(board: Board, file: Uint32, rank: Uint32, index: nat, start: Option<nat>)

  /** The pending count is a run of digits that ends here. */
  ghost predicate Counting(fen: string, s: Scan) {
    s.index <= |fen|
    && (s.start.Some? ==> s.start.value < s.index && forall i :: s.start.value <= i < s.index ==> IsDigit(fen[i]))
  }

  /** The rank after the pending count, if any, has been added in 32-bit arithmetic. */
  function Flushed(fen: string, s: Scan): Result<Uint32, FenError>
    requires Counting(fen, s)
  {
    if s.start.None? then Success(s.rank)
    else
      var count := Atoi(fen[s.start.value..s.index]);
      if count > MAX_INT64 then Failure(BadCount)
      else Success((s.rank + count) % (UINT32_MAX + 1))
  }

  /** What the loop does with the character at the index: stop, go on, or fail. */
  datatype Turn = Stop(at: Scan) | Go(next: Scan) | Fail(error: FenError)

  function Advance(fen: string, s: Scan): (t: Turn)
    requires Counting(fen, s)
    ensures t.Go? ==> t.next.index == s.index + 1 && Counting(fen, t.next)
    ensures t.Stop? ==> t.at.index == s.index
  {
    if s.index == |fen| || s.file >= FILES then Stop(s)
    else
      var c := fen[s.index];
      if IsSpace(c) || IsLetter(c) || c == '/' then
        match Flushed(fen, s)
        case Failure(e) => Fail(e)
        case Success(rank) =>
          if IsSpace(c) then Stop(s.(rank := rank, start := None))
          else if IsLetter(c) then
            if rank >= RanksPerFile(s.file) then Fail(OffBoard(s.file, rank))
            else
              match PieceFromRune(c)
              case None => Fail(BadCharacter(c))
              case Some(p) =>
                RanksClosedForm(s.file);
                Go(Scan(Set(s.board, Hex(s.file, rank), p), s.file, rank + 1, s.index + 1, None))
          else if rank != RanksPerFile(s.file) then Fail(ShortFile(s.file))
          else Go(Scan(s.board, s.file + 1, 0, s.index + 1, None))
      else if IsDigit(c) then
        Go(s.(index := s.index + 1, start := if s.start.None? then Some(s.index) else s.start))
      else Fail(BadCharacter(c))
  }

  /** Why the scan stops with an error: a count too large, a piece beyond the ranks of its file, a
      character that is none, or a file that ends early or late. */
  lemma AdvanceFailsBecause(fen: string, s: Scan)
    requires Counting(fen, s) && Advance(fen, s).Fail?
    ensures s.index < |fen| && s.file < FILES
    ensures var c := fen[s.index];
            match Advance(fen, s).error
            case BadCount => s.start.Some? && Flushed(fen, s).Failure?
            case OffBoard(file, rank) => IsLetter(c) && file == s.file && rank >= RanksPerFile(s.file) && Flushed(fen, s) == Success(rank)
            case ShortFile(file) => c == '/' && file == s.file && Flushed(fen, s).Success? && Flushed(fen, s).value != RanksPerFile(s.file)
            case BadCharacter(d) => d == c && (IsLetter(c) ==> PieceFromRune(c).None?)
            case _ => false
  {
    hide Set, Atoi, PieceFromRune;
  }

  function ScanFrom(fen: string, s: Scan): Result<Scan, FenError>
    requires Counting(fen, s)
    decreases |fen| - s.index
  {
    match Advance(fen, s)
    case Fail(e) => Failure(e)
    case Stop(at) => Success(at)
    case Go(next) => ScanFrom(fen, next)
  }

  /** The first index from i on that is not a space. */
  function SkipSpaces(fen: string, i: nat): nat
    decreases |fen| - i
  {
    if i < |fen| && IsSpace(fen[i]) then SkipSpaces(fen, i + 1) else i
  }

  function Finish(fen: string, s: Scan): Result<Board, FenError> {
    if s.file != FILES - 1 then Failure(InvalidFiles)
    else
      var i := SkipSpaces(fen, s.index);
      if i >= |fen| then Failure(MissingTurn)
      else if fen[i] == 'w' then Success(s.board.(isWhiteTurn := true))
      else if fen[i] == 'b' then Success(s.board.(isWhiteTurn := false))
      else Failure(InvalidTurn(fen[i]))
  }

  const EMPTY_BOARD: Board := Board(false, EmptyPieces())

  function ParsedFen(fen: string): Result<Board, FenError> {
    match ScanFrom(fen, Scan(EMPTY_BOARD, 0, 0, 0, None))
    case Failure(e) => Failure(e)
    case Success(s) => Finish(fen, s)
  }

  /** The scanning loop over the characters. */
  method ScanFiles(fen: string) returns (r: Result<Scan, FenError>)
    ensures r == ScanFrom(fen, Scan(EMPTY_BOARD, 0, 0, 0, None))
  {
    hide Set, Atoi, IsSpace, IsDigit, IsLetter, PieceFromRune, RanksPerFile;
    var board: Board := EMPTY_BOARD;
    var file: Uint32 := 0;
    var rank: Uint32 := 0;
    var index: nat := 0;
    var start: Option<nat> := None;
    ghost var whole := ScanFrom(fen, Scan(EMPTY_BOARD, 0, 0, 0, None));
    while index < |fen|
      invariant Counting(fen, Scan(board, file, rank, index, start))
      invariant ScanFrom(fen, Scan(board, file, rank, index, start)) == whole
      decreases |fen| - index
    {
      ghost var s := Scan(board, file, rank, index, start);
      if file >= FILES {
        return Success(Scan(board, file, rank, index, start));
      }
      var ch := fen[index];
      var isSpace, isLetter := IsSpace(ch), IsLetter(ch);
      if isSpace || isLetter || ch == '/' {
        if start.Some? {
          var count := Atoi(fen[start.value..index]);
          if count > MAX_INT64 {
            return Failure(BadCount);
          }
          rank := (rank + count) % (UINT32_MAX + 1);
        }
        start := None;
        if isSpace {
          return Success(Scan(board, file, rank, index, start));
        }
        if isLetter {
          if rank >= RanksPerFile(file) {
            return Failure(OffBoard(file, rank));
          }
          var piece := PieceFromRune(ch);
          if piece.None? {
            return Failure(BadCharacter(ch));
          }
          RanksBounded(file);
          board := Set(board, Hex(file, rank), piece.value);
          rank := rank + 1;
        } else {
          if rank != RanksPerFile(file) {
            return Failure(ShortFile(file));
          }
          file := file + 1;
          rank := 0;
        }
      } else if IsDigit(ch) {
        if start.None? {
          start := Some(index);
        }
      } else {
        return Failure(BadCharacter(ch));
      }
      index := index + 1;
      assert Advance(fen, s) == Go(Scan(board, file, rank, index, start));
    }
    r := Success(Scan(board, file, rank, index, start));
  }

  lemma RanksBounded(file: nat)
    requires file < FILES
    ensures RanksPerFile(file) <= MAX_RANKS
  {
    RanksClosedForm(file);
  }

  /** The board, then the side to move after any spaces. */
  method ParseFen(fen: string) returns (r: Result<Board, FenError>)
    ensures r == ParsedFen(fen)
  {
    hide ScanFrom;
    var scan := ScanFiles(fen);
    if scan.Failure? {
      return Failure(scan.error);
    }
    if scan.value.file != FILES - 1 {
      return Failure(InvalidFiles);
    }
    var index := scan.value.index;
    while index < |fen| && IsSpace(fen[index])
      invariant SkipSpaces(fen, index) == SkipSpaces(fen, scan.value.index)
    {
      index := index + 1;
    }
    if index >= |fen| {
      return Failure(MissingTurn);
    }
    var ch := fen[index];
    if ch == 'w' {
      r := Success(scan.value.board.(isWhiteTurn := true));
    } else if ch == 'b' {
      r := Success(scan.value.board.(isWhiteTurn := false));
    } else {
      r := Failure(InvalidTurn(ch));
    }
  }

  // ----- every accepted text gives a well-formed board -----

  lemma SetKeepsWellFormed(b: Board, h: Hex, p: Piece)
    requires WellFormed(b) && InBounds(h) && InArray(h) && IsKnown(p)
    ensures WellFormed(Set(b, h, p))
  {
    hide Set;
  }

  lemma AdvanceKeepsWellFormed(fen: string, s: Scan)
    requires Counting(fen, s) && WellFormed(s.board)
    ensures Advance(fen, s).Stop? ==> WellFormed(Advance(fen, s).at.board)
    ensures Advance(fen, s).Go? ==> WellFormed(Advance(fen, s).next.board)
  {
    hide WellFormed, Set, Atoi;
    var t := Advance(fen, s);
    if t.Go? && IsLetter(fen[s.index]) {
      var rank := Flushed(fen, s).value;
      RanksClosedForm(s.file);
      RuneInverse(EMPTY, fen[s.index]);
      SetKeepsWellFormed(s.board, Hex(s.file, rank), PieceFromRune(fen[s.index]).value);
    }
  }

  lemma {:induction false} ScanKeepsWellFormed(fen: string, s: Scan)
    requires Counting(fen, s) && WellFormed(s.board)
    ensures ScanFrom(fen, s).Success? ==> WellFormed(ScanFrom(fen, s).value.board)
    decreases |fen| - s.index
  {
    hide WellFormed, Advance;
    AdvanceKeepsWellFormed(fen, s);
    if Advance(fen, s).Go? { ScanKeepsWellFormed(fen, Advance(fen, s).next); }
  }

  /** Whatever text is accepted, the board read has known codes only and clear padding. */
  lemma AcceptedIsWellFormed(fen: string)
    requires ParsedFen(fen).Success?
    ensures WellFormed(ParsedFen(fen).value)
  {
    hide ScanFrom;
    ScanKeepsWellFormed(fen, Scan(EMPTY_BOARD, 0, 0, 0, None));
  }
}
