/** Reading back what is printed: the scanner, run over the text of a board, sets its hexes
    one by one; so a board comes back from its text exactly if it is well formed. */
module FenRoundTrip {
  import opened Wrappers
  import opened HexGrid
  import opened ChessBoard
  import opened Fen

  /** The text `part` stands in `fen` from index i on. */
  predicate Stands(fen: string, i: nat, part: string) {
    i + |part| <= |fen| && fen[i..i + |part|] == part
  }

  lemma StandsSplit(fen: string, i: nat, a: string, b: string)
    requires Stands(fen, i, a + b)
    ensures Stands(fen, i, a) && Stands(fen, i + |a|, b)
  {
    var s := fen[i..i + |a + b|];
    assert s[..|a|] == a && s[|a|..] == b;
    assert fen[i..i + |a|] == s[..|a|];
    assert fen[i + |a|..i + |a| + |b|] == s[|a|..];
  }

  predicate AllDigits(s: string) { forall i :: 0 <= i < |s| ==> IsDigit(s[i]) }

  lemma {:induction false} ItoaDigits(n: nat)
    ensures AllDigits(Itoa(n)) && Atoi(Itoa(n)) == n && |Itoa(n)| >= 1
  {
    var last := Digit(n % 10);
    assert DigitValue(last) == n % 10;
    if n < 10 {
      assert Itoa(n)[..0] == [];
    } else {
      ItoaDigits(n / 10);
      assert Itoa(n)[..|Itoa(n)| - 1] == Itoa(n / 10);
    }
  }

  /** The scanner runs over digits, remembering where they began. */
  lemma {:induction false} ScanDigits(fen: string, s: Scan, n: nat)
    requires Counting(fen, s) && s.file < FILES && s.start.Some?
    requires s.index + n <= |fen| && forall i :: s.index <= i < s.index + n ==> IsDigit(fen[i])
    ensures Counting(fen, s.(index := s.index + n))
    ensures ScanFrom(fen, s) == ScanFrom(fen, s.(index := s.index + n))
    decreases n
  {
    hide Flushed;
    if n > 0 { ScanDigits(fen, s.(index := s.index + 1), n - 1); }
  }

  lemma FirstDigit(fen: string, s: Scan)
    requires Counting(fen, s) && s.file < FILES && s.start.None? && s.index < |fen| && IsDigit(fen[s.index])
    ensures var next := s.(index := s.index + 1, start := Some(s.index));
            Counting(fen, next) && ScanFrom(fen, s) == ScanFrom(fen, next)
  {
    hide Flushed;
  }

  lemma RunFlushed(fen: string, t: Scan, n: nat)
    requires Counting(fen, t) && t.start.Some? && fen[t.start.value..t.index] == Itoa(n) && t.rank + n <= 11
    ensures Flushed(fen, t) == Success(t.rank + n)
  {
    hide Itoa, Atoi;
    ItoaDigits(n);
  }

  /** Over the text of a run of empty hexes: the pending count is the run's length. */
  lemma ScanRun(fen: string, s: Scan, empties: nat) returns (t: Scan)
    requires Counting(fen, s) && s.file < FILES && s.start.None?
    requires Stands(fen, s.index, RunText(empties)) && s.rank + empties <= 11
    ensures Counting(fen, t) && ScanFrom(fen, s) == ScanFrom(fen, t)
    ensures t.board == s.board && t.file == s.file && t.index == s.index + |RunText(empties)|
    ensures Flushed(fen, t) == Success(s.rank + empties)
  {
    hide Itoa, Atoi, ScanFrom, IsDigit;
    if empties == 0 {
      t := s;
    } else {
      hide Flushed;
      var d := Itoa(empties);
      ItoaDigits(empties);
      forall i | s.index <= i < s.index + |d|
        ensures IsDigit(fen[i])
      {
        assert fen[i] == fen[s.index..s.index + |d|][i - s.index] == d[i - s.index];
      }
      FirstDigit(fen, s);
      var next := s.(index := s.index + 1, start := Some(s.index));
      ScanDigits(fen, next, |d| - 1);
      t := next.(index := s.index + |d|);
      RunFlushed(fen, t, empties);
    }
  }

  /** p has the pieces of b up to rank r of file f, and nothing else. */
  ghost predicate SetUpTo(b: Board, p: Board, f: nat, r: nat) {
    && !p.isWhiteTurn
    && forall h: Hex :: InArray(h) ==>
         Get(p, h) == if InBounds(h) && (h.file < f || (h.file == f && h.rank < r)) then Get(b, h) else EMPTY
  }

  ghost predicate KnownOnHexes(b: Board) {
    forall h: Hex :: InBounds(h) && InArray(h) ==> IsKnown(Get(b, h))
  }

  lemma RuneIsLetter(p: Piece)
    requires IsKnown(p) && p != EMPTY
    ensures IsLetter(Rune(p)) && !IsSpace(Rune(p)) && PieceFromRune(Rune(p)) == Some(p)
  {
  }

  lemma SetExtends(b: Board, p: Board, f: nat, r: nat)
    requires f < FILES && r < RanksPerFile(f) && r < MAX_RANKS && SetUpTo(b, p, f, r)
    ensures SetUpTo(b, Set(p, Hex(f, r), Get(b, Hex(f, r))), f, r + 1)
    ensures Get(b, Hex(f, r)) == EMPTY ==> SetUpTo(b, p, f, r + 1)
  {
    hide Set;
  }

  /** Over one file from rank r on, after a run of empty hexes not yet printed. */
  lemma {:induction false} ScanRanks(fen: string, b: Board, s: Scan, f: nat, r: nat, empties: nat) returns (t: Scan)
    requires KnownOnHexes(b) && f < FILES && empties <= r <= RanksPerFile(f)
    requires Counting(fen, s) && s.start.None? && s.file == f && s.rank == r - empties
    requires SetUpTo(b, s.board, f, r) && Stands(fen, s.index, RanksText(b, f, r, empties))
    ensures Counting(fen, t) && ScanFrom(fen, s) == ScanFrom(fen, t)
    ensures SetUpTo(b, t.board, f, RanksPerFile(f)) && t.file == f
    ensures t.index == s.index + |RanksText(b, f, r, empties)|
    ensures Flushed(fen, t) == Success(RanksPerFile(f))
    decreases RanksPerFile(f) - r
  {
    hide RanksText, SetUpTo, Flushed, Rune, RunText, Set, KnownOnHexes, RanksPerFile, ScanFrom, Counting;
    RanksClosedForm(f);
    if r == RanksPerFile(f) {
      RanksTextEnd(b, f, empties);
      t := ScanRun(fen, s, empties);
    } else {
      RanksTextStep(b, f, r, empties);
      var p := Get(b, Hex(f, r));
      SetExtends(b, s.board, f, r);
      if p == EMPTY {
        t := ScanRanks(fen, b, s, f, r + 1, empties + 1);
      } else {
        var rest := RanksText(b, f, r + 1, 0);
        assert RanksText(b, f, r, empties) == RunText(empties) + ([Rune(p)] + rest);
        StandsSplit(fen, s.index, RunText(empties), [Rune(p)] + rest);
        var u := ScanRun(fen, s, empties);
        StandsSplit(fen, u.index, [Rune(p)], rest);
        assert fen[u.index] == fen[u.index..u.index + 1][0] == Rune(p);
        KnownAt(b, f, r);
        var next := ScanPiece(fen, u, f, r, p);
        t := ScanRanks(fen, b, next, f, r + 1, 0);
      }
    }
  }

  /** Over the rune of a piece: the pending count is added and the piece set. */
  lemma ScanPiece(fen: string, u: Scan, f: nat, r: nat, p: Piece) returns (t: Scan)
    requires Counting(fen, u) && f < FILES && r < RanksPerFile(f) && r < MAX_RANKS && u.file == f
    requires u.index < |fen| && fen[u.index] == Rune(p) && IsKnown(p) && p != EMPTY
    requires Flushed(fen, u) == Success(r)
    ensures t == Scan(Set(u.board, Hex(f, r), p), f, r + 1, u.index + 1, None)
    ensures Counting(fen, t) && ScanFrom(fen, u) == ScanFrom(fen, t)
  {
    hide Flushed, Rune, PieceFromRune, IsLetter, IsSpace, Set, RanksPerFile;
    RuneIsLetter(p);
    t := Scan(Set(u.board, Hex(f, r), p), f, r + 1, u.index + 1, None);
  }

  lemma KnownAt(b: Board, f: nat, r: nat)
    requires KnownOnHexes(b) && f < FILES && r < RanksPerFile(f) && r < MAX_RANKS
    ensures IsKnown(Get(b, Hex(f, r)))
  {
    assert InBounds(Hex(f, r)) && InArray(Hex(f, r));
  }

  lemma NextFile(b: Board, p: Board, f: nat)
    requires f < FILES && SetUpTo(b, p, f, RanksPerFile(f))
    ensures SetUpTo(b, p, f + 1, 0)
  {
  }

  lemma StandsToEnd(fen: string, i: nat, part: string)
    requires Stands(fen, i, part) && i + |part| == |fen|
    ensures fen[i..] == part
  {
  }

  /** At the blank after the last file the scan stops, with the pending count added. */
  lemma StopsAtBlank(fen: string, u: Scan) returns (t: Scan)
    requires Counting(fen, u) && u.file < FILES && u.index < |fen| && fen[u.index] == ' ' && Flushed(fen, u).Success?
    ensures ScanFrom(fen, u) == Success(t) && t.board == u.board && t.file == u.file && t.index == u.index
  {
    hide Flushed;
    t := u.(rank := Flushed(fen, u).value, start := None);
  }

  /** At a slash after a whole file the scan goes on to the next file. */
  lemma GoesOnAtSlash(fen: string, u: Scan) returns (t: Scan)
    requires Counting(fen, u) && u.file < FILES - 1 && u.index < |fen| && fen[u.index] == '/'
    requires Flushed(fen, u) == Success(RanksPerFile(u.file))
    ensures t == Scan(u.board, u.file + 1, 0, u.index + 1, None)
    ensures Counting(fen, t) && ScanFrom(fen, u) == ScanFrom(fen, t)
  {
    hide Flushed, RanksPerFile;
    t := Scan(u.board, u.file + 1, 0, u.index + 1, None);
  }

  /** What follows the ranks of a file in the text. */
  function AfterFile(b: Board, f: nat): string
    requires f < FILES
  {
    if f == FILES - 1 then [' '] + TurnText(b) else ['/'] + FilesText(b, f + 1)
  }

  lemma FilesTextIs(b: Board, f: nat)
    requires f < FILES
    ensures FilesText(b, f) == RanksText(b, f, 0, 0) + AfterFile(b, f) && AfterFile(b, f) != []
  {
    hide RanksText, TurnText;
  }

  /** Over one file to the character behind it. */
  lemma ScanFile(fen: string, b: Board, s: Scan, f: nat) returns (u: Scan)
    requires KnownOnHexes(b) && f < FILES
    requires Counting(fen, s) && s.start.None? && s.file == f && s.rank == 0 && SetUpTo(b, s.board, f, 0)
    requires Stands(fen, s.index, FilesText(b, f))
    ensures Counting(fen, u) && ScanFrom(fen, s) == ScanFrom(fen, u) && u.file == f
    ensures SetUpTo(b, u.board, f + 1, 0) && Flushed(fen, u) == Success(RanksPerFile(f))
    ensures u.index + |AfterFile(b, f)| == s.index + |FilesText(b, f)|
    ensures Stands(fen, u.index, AfterFile(b, f)) && fen[u.index] == AfterFile(b, f)[0]
  {
    hide KnownOnHexes, RanksText, FilesText, AfterFile, SetUpTo, Flushed, ScanFrom, RanksPerFile;
    FilesTextIs(b, f);
    StandsSplit(fen, s.index, RanksText(b, f, 0, 0), AfterFile(b, f));
    u := ScanRanks(fen, b, s, f, 0, 0);
    NextFile(b, u.board, f);
    assert fen[u.index] == fen[u.index..u.index + |AfterFile(b, f)|][0];
  }

  /** Over the files from f on: the scan stops at the blank before the side to move. */
  lemma {:induction false} ScanFiles(fen: string, b: Board, s: Scan, f: nat) returns (t: Scan)
    requires KnownOnHexes(b) && f < FILES
    requires Counting(fen, s) && s.start.None? && s.file == f && s.rank == 0 && SetUpTo(b, s.board, f, 0)
    requires Stands(fen, s.index, FilesText(b, f)) && s.index + |FilesText(b, f)| == |fen|
    ensures ScanFrom(fen, s) == Success(t)
    ensures SetUpTo(b, t.board, FILES, 0) && t.file == FILES - 1
    ensures t.index + 2 == |fen| && fen[t.index..] == [' '] + TurnText(b)
    decreases FILES - f
  {
    hide KnownOnHexes, FilesText, SetUpTo, Flushed, ScanFrom, TurnText, RanksPerFile, Counting, Stands;
    TurnTextIsOne(b);
    var u := ScanFile(fen, b, s, f);
    if f == FILES - 1 {
      StandsToEnd(fen, u.index, AfterFile(b, f));
      t := StopsAtBlank(fen, u);
    } else {
      var next := GoesOnAtSlash(fen, u);
      StandsSplit(fen, u.index, ['/'], FilesText(b, f + 1));
      t := ScanFiles(fen, b, next, f + 1);
    }
  }

  lemma TurnTextIsOne(b: Board)
    ensures |TurnText(b)| == 1 && TurnText(b)[0] == if b.isWhiteTurn then 'w' else 'b'
  {
  }

  lemma EmptyBoardIsUnset(b: Board)
    ensures SetUpTo(b, EMPTY_BOARD, 0, 0)
  {
  }

  lemma AllSet(b: Board, p: Board)
    requires WellFormed(b) && SetUpTo(b, p, FILES, 0)
    ensures p.(isWhiteTurn := b.isWhiteTurn) == b
  {
    var q: Board := p.(isWhiteTurn := b.isWhiteTurn);
    forall h: Hex | InArray(h)
      ensures Get(q, h) == Get(b, h)
    {
    }
    SameCells(q, b);
  }

  lemma WellFormedIsKnown(b: Board)
    requires WellFormed(b)
    ensures KnownOnHexes(b)
  {
  }

  lemma SkipOne(fen: string, i: nat)
    requires i + 2 == |fen| && IsSpace(fen[i]) && !IsSpace(fen[i + 1])
    ensures SkipSpaces(fen, i) == i + 1
  {
    assert SkipSpaces(fen, i) == SkipSpaces(fen, i + 1);
  }

  lemma WellFormedComesBack(b: Board)
    requires WellFormed(b)
    ensures ParsedFen(FenText(b)) == Success(b)
  {
    hide FilesText, ScanFrom, SetUpTo, TurnText, WellFormed, KnownOnHexes, SkipSpaces;
    var fen := FenText(b);
    var first := Scan(EMPTY_BOARD, 0, 0, 0, None);
    WellFormedIsKnown(b);
    EmptyBoardIsUnset(b);
    assert fen[0..0 + |fen|] == fen;
    var s := ScanFiles(fen, b, first, 0);
    TurnTextIsOne(b);
    assert fen[s.index] == fen[s.index..][0] == ' ';
    assert fen[s.index + 1] == fen[s.index..][1] == TurnText(b)[0];
    SkipOne(fen, s.index);
    AllSet(b, s.board);
  }

  /** A board comes back from its own text if and only if it is well formed. */
  lemma FenComesBackIffWellFormed(b: Board)
    ensures ParsedFen(FenText(b)) == Success(b) <==> WellFormed(b)
  {
    hide WellFormed, ParsedFen;
    if WellFormed(b) { WellFormedComesBack(b); }
    if ParsedFen(FenText(b)) == Success(b) { AcceptedIsWellFormed(FenText(b)); }
  }

  /** Printing and reading again what was read from any accepted text changes nothing. */
  lemma ParsePrintParse(fen: string)
    requires ParsedFen(fen).Success?
    ensures ParsedFen(FenText(ParsedFen(fen).value)) == ParsedFen(fen)
  {
    hide ParsedFen, WellFormed;
    AcceptedIsWellFormed(fen);
    WellFormedComesBack(ParsedFen(fen).value);
  }
}
