/** What the move generators compute, as functions of the board: the squares each piece
    may go to, in generation order, and the attack tables that fall out on the way. */
module MoveGen {
  import opened Wrappers
  import opened HexGrid
  import opened Offsets
  import opened ChessBoard

  datatype PieceMoves = PieceMoves(piece: Piece, from: Hex, moves: seq<Hex>)

  // ----- the order in which the board is scanned -----

  const HEXES: nat := 91

  /** The number of hexes on the files before the given one. */
  function FileStart(file: nat): nat
    requires file <= FILES
  {
    match file
    case 0 => 0 case 1 => 6 case 2 => 13 case 3 => 21 case 4 => 30 case 5 => 40
    case 6 => 51 case 7 => 61 case 8 => 70 case 9 => 78 case 10 => 85 case 11 => 91
  }

  function FileOf(i: nat): nat
    requires i < HEXES
  {
    if i < 6 then 0 else if i < 13 then 1 else if i < 21 then 2 else if i < 30 then 3
    else if i < 40 then 4 else if i < 51 then 5 else if i < 61 then 6 else if i < 70 then 7
    else if i < 78 then 8 else if i < 85 then 9 else 10
  }

  /** The i-th hex in file-major order. */
  function HexAt(i: nat): (h: Hex)
    requires i < HEXES
    ensures InBounds(h)
  {
    Hex(FileOf(i), i - FileStart(FileOf(i)))
  }

  function IndexOf(h: Hex): (i: nat)
    requires InBounds(h)
    ensures i < HEXES && HexAt(i) == h
  {
    FileStart(h.file) + h.rank
  }

  lemma HexAtInjective(i: nat, j: nat)
    requires i < HEXES && j < HEXES && HexAt(i) == HexAt(j)
    ensures i == j
  {
  }

  /** The scan order as the nested loop over files and ranks builds it. */
  method GetOrdHexagons() returns (hexagons: seq<Hex>)
    ensures |hexagons| == HEXES
    ensures forall i :: 0 <= i < HEXES ==> hexagons[i] == HexAt(i)
  {
    hexagons := [];
    for file := 0 to FILES
      invariant |hexagons| == FileStart(file)
      invariant forall i :: 0 <= i < |hexagons| ==> hexagons[i] == HexAt(i)
    {
      for rank := 0 to RanksPerFile(file)
        invariant |hexagons| == FileStart(file) + rank
        invariant forall i :: 0 <= i < |hexagons| ==> hexagons[i] == HexAt(i)
      {
        assert IndexOf(Hex(file, rank)) == |hexagons|;
        hexagons := hexagons + [Hex(file, rank)];
      }
    }
  }

  // ----- sliding pieces -----

  /** How many more hexes a ray of direction v can have beyond h before it leaves the board. */
  function Room(h: Hex, v: Axial): (n: int)
    requires InBounds(h)
    ensures 0 <= n <= 12
  {
    RanksClosedForm(h.file);
    if v.q > 0 then 11 - h.file
    else if v.q < 0 then h.file + 1
    else if v.r > 0 then 11 - h.rank else h.rank + 1
  }

  lemma RoomShrinks(at: Hex, dirs: Offset)
    requires InBounds(at) && IsMoveStep(dirs) && InBounds(Walked(at, dirs))
    ensures Room(Walked(at, dirs), VectorOf(dirs)) < Room(at, VectorOf(dirs))
  {
    WalkTranslates(at, dirs);
    RanksClosedForm(at.file);
    RanksClosedForm(Walked(at, dirs).file);
  }

  /** The hexes a sliding piece of code `base` reaches from `at` in one direction: on through
      empty hexes, and the first occupied one if it holds a piece of the other colour. */
  function Ray(b: Board, base: Piece, at: Hex, dirs: Offset): seq<Hex>
    requires InBounds(at) && IsMoveStep(dirs)
    decreases Room(at, VectorOf(dirs))
  {
    var next := Walked(at, dirs);
    if !InBounds(next) then []
    else
      InBoundsInArray(next);
      RoomShrinks(at, dirs);
      if Get(b, next) == EMPTY then [next] + Ray(b, base, next, dirs)
      else if OppositeColor(Get(b, next), base) then [next]
      else []
  }

  lemma RayStep(b: Board, base: Piece, at: Hex, dirs: Offset)
    requires InBounds(at) && IsMoveStep(dirs)
    ensures var next := Walked(at, dirs);
            var ray := Ray(b, base, at, dirs);
            if !InBounds(next) then ray == []
            else
              && InArray(next)
              && Room(next, VectorOf(dirs)) < Room(at, VectorOf(dirs))
              && (if Get(b, next) == EMPTY then ray != [] && ray[0] == next && ray[1..] == Ray(b, base, next, dirs)
                  else ray == if OppositeColor(Get(b, next), base) then [next] else [])
  {
    var next := Walked(at, dirs);
    if InBounds(next) {
      InBoundsInArray(next);
      RoomShrinks(at, dirs);
    }
  }

  predicate AreMoveSteps(offsets: seq<Offset>) {
    forall i :: 0 <= i < |offsets| ==> IsMoveStep(offsets[i])
  }

  /** The rays of the first n directions, one after the other. The board takes part in the
      termination measure only to keep the verifier from unrolling a literal n. */
  function TravelTo(b: Board, from: Hex, offsets: seq<Offset>, n: nat): seq<Hex>
    requires InBounds(from) && AreMoveSteps(offsets) && n <= |offsets|
    decreases n, b.isWhiteTurn, |offsets|
  {
    InBoundsInArray(from);
    if n == 0 then []
    else TravelTo(b, from, offsets, n - 1) + Ray(b, Get(b, from), from, offsets[n - 1])
  }

  function Travel(b: Board, from: Hex, offsets: seq<Offset>): seq<Hex>
    requires InBounds(from) && AreMoveSteps(offsets)
  {
    TravelTo(b, from, offsets, |offsets|)
  }

  // ----- knights and kings -----

  /** May the piece `base` go to `to`, given the hexes barred to it? */
  predicate CanStep(b: Board, base: Piece, to: Hex, barred: set<Hex>) {
    InBounds(to) && (InBoundsInArray(to); Get(b, to) == EMPTY || OppositeColor(base, Get(b, to)))
    && to !in barred
  }

  function StepsTo(b: Board, from: Hex, offsets: seq<Offset>, barred: set<Hex>, n: nat): seq<Hex>
    requires InBounds(from) && n <= |offsets|
    decreases n, b.isWhiteTurn, |offsets|
  {
    InBoundsInArray(from);
    if n == 0 then []
    else
      var to := Walked(from, offsets[n - 1]);
      StepsTo(b, from, offsets, barred, n - 1) + (if CanStep(b, Get(b, from), to, barred) then [to] else [])
  }

  function Steps(b: Board, from: Hex, offsets: seq<Offset>, barred: set<Hex>): seq<Hex>
    requires InBounds(from)
  {
    StepsTo(b, from, offsets, barred, |offsets|)
  }

  // ----- pawns -----

  function HasPawnMoved(pawn: Hex, isWhite: bool): bool {
    if isWhite then
      var minRank: int :=
        match pawn.file
        case 1 => 0 case 9 => 0 case 2 => 1 case 8 => 1 case 3 => 2 case 7 => 2
        case 4 => 3 case 6 => 3 case 5 => 4 case _ => -1;
      pawn.rank > minRank
    else pawn.rank < 7
  }

  function Ahead(white: bool): Direction { if white then Up else Down }

  function TakeLeft(white: bool): Direction { if white then UpLeft else DownLeft }

  function TakeRight(white: bool): Direction { if white then UpRight else DownRight }

  predicate IsFree(b: Board, h: Hex) { InBounds(h) && (InBoundsInArray(h); Get(b, h) == EMPTY) }

  predicate CanTake(b: Board, base: Piece, h: Hex) {
    InBounds(h) && (InBoundsInArray(h); Get(b, h) != EMPTY && OppositeColor(base, Get(b, h)))
  }

  /** The hexes a pawn attacks: occupied by the other colour, diagonally ahead. */
  function PawnTakes(b: Board, from: Hex, white: bool): seq<Hex>
    requires InBounds(from)
  {
    InBoundsInArray(from);
    var base := Get(b, from);
    var left, right := Step(from, TakeLeft(white)), Step(from, TakeRight(white));
    (if CanTake(b, base, left) then [left] else []) + (if CanTake(b, base, right) then [right] else [])
  }

  /** One hex ahead if free; two ahead if that one is free and the pawn has not moved. */
  function PawnAdvances(b: Board, from: Hex, white: bool): seq<Hex>
    requires InBounds(from)
  {
    InBoundsInArray(from);
    var one := Step(from, Ahead(white));
    var two := Step(one, Ahead(white));
    (if IsFree(b, one) then [one] else [])
    + (if IsFree(b, two) && !HasPawnMoved(from, IsWhite(Get(b, from))) then [two] else [])
  }

  // ----- one side's pieces -----

  /** A generated entry with the hexes it marks in its side's attack table. */
  datatype Generated = Nothing | Generated(entry: PieceMoves, attacks: set<Hex>)

  function Elements(s: seq<Hex>): set<Hex> { set h | h in s }

  lemma OffsetTableEntries(i: nat)
    requires i < 12
    ensures |RookOffsets()| == |BishopOffsets()| == 6 && |KingOffsets()| == |KnightOffsets()| == 12
    ensures i < 6 ==> RookOffsets()[i] == KingOffset(i) && BishopOffsets()[i] == KingOffset(i + 6)
    ensures KingOffsets()[i] == KingOffset(i) && KnightOffsets()[i] == KnightOffset(i)
  {
  }

  lemma OffsetTablesStep()
    ensures |RookOffsets()| == |BishopOffsets()| == 6 && |KingOffsets()| == |KnightOffsets()| == 12
    ensures AreMoveSteps(RookOffsets()) && AreMoveSteps(BishopOffsets())
    ensures AreMoveSteps(KingOffsets()) && AreMoveSteps(KnightOffsets())
  {
    forall i: int | 0 <= i < 12
      ensures IsMoveStep(KingOffsets()[i]) && IsMoveStep(KnightOffsets()[i])
      ensures i < 6 ==> IsMoveStep(RookOffsets()[i]) && IsMoveStep(BishopOffsets()[i])
    {
      OffsetTableEntries(i);
      TablesAreMoveSteps(i);
      if i < 6 { TablesAreMoveSteps(i + 6); }
    }
  }

  function Slides(p: Piece): seq<Offset>
    requires p in {WHITE_ROOK, BLACK_ROOK, WHITE_BISHOP, BLACK_BISHOP, WHITE_QUEEN, BLACK_QUEEN}
  {
    if p == WHITE_ROOK || p == BLACK_ROOK then RookOffsets()
    else if p == WHITE_BISHOP || p == BLACK_BISHOP then BishopOffsets()
    else KingOffsets()
  }

  /** What the scan generates for one hex: nothing for an empty hex, the other side's
      piece, a king (handled later) or an unknown code. */
  function Generate(b: Board, h: Hex, white: bool): Generated
    requires InBounds(h)
  {
    InBoundsInArray(h);
    OffsetTablesStep();
    var p := Get(b, h);
    if p == EMPTY || !IsPieceTurn(p, white) then Nothing
    else if p == WHITE_ROOK || p == BLACK_ROOK || p == WHITE_BISHOP || p == BLACK_BISHOP
         || p == WHITE_QUEEN || p == BLACK_QUEEN then
      var moves := Travel(b, h, Slides(p));
      Generated(PieceMoves(p, h, moves), Elements(moves))
    else if p == WHITE_KNIGHT || p == BLACK_KNIGHT then
      var moves := Steps(b, h, KnightOffsets(), {});
      Generated(PieceMoves(p, h, moves), Elements(moves))
    else if IsPawn(p) then
      Generated(PieceMoves(p, h, PawnAdvances(b, h, white) + PawnTakes(b, h, white)),
                Elements(PawnTakes(b, h, white)))
    else Nothing
  }

  /** The entries of one side's pieces other than the king, over the first n hexes. */
  function PiecesTo(b: Board, white: bool, n: nat): seq<PieceMoves>
    requires n <= HEXES
    decreases n, b.isWhiteTurn, white
  {
    if n == 0 then []
    else PiecesTo(b, white, n - 1) + (match Generate(b, HexAt(n - 1), white)
                                      case Nothing => []
                                      case Generated(e, _) => [e])
  }

  /** What the scan adds to the side's attack table at one hex. */
  function NewAttacks(b: Board, h: Hex, white: bool): set<Hex>
    requires InBounds(h)
  {
    match Generate(b, h, white) case Nothing => {} case Generated(_, a) => a
  }

  function AttacksTo(b: Board, white: bool, n: nat): set<Hex>
    requires n <= HEXES
    decreases n, b.isWhiteTurn, white
  {
    if n == 0 then {}
    else AttacksTo(b, white, n - 1) + NewAttacks(b, HexAt(n - 1), white)
  }

  function Pieces(b: Board, white: bool): seq<PieceMoves> { PiecesTo(b, white, HEXES) }

  function Attacks(b: Board, white: bool): set<Hex> { AttacksTo(b, white, HEXES) }

  // ----- kings, and the whole regeneration -----

  function King(white: bool): Piece { if white then WHITE_KING else BLACK_KING }

  function FindKingFrom(b: Board, white: bool, i: nat): Option<Hex>
    requires i <= HEXES
    decreases HEXES - i, b.isWhiteTurn, white
  {
    if i == HEXES then None
    else
      InBoundsInArray(HexAt(i));
      if Get(b, HexAt(i)) == King(white) then Some(HexAt(i)) else FindKingFrom(b, white, i + 1)
  }

  function FindKing(b: Board, white: bool): Option<Hex> { FindKingFrom(b, white, 0) }

  function KingEntry(b: Board, at: Hex, barred: set<Hex>): PieceMoves
    requires InBounds(at)
  {
    InBoundsInArray(at);
    PieceMoves(Get(b, at), at, Steps(b, at, KingOffsets(), barred))
  }

  /** The two move lists and the two attack tables of a position. */
  datatype MoveTables = MoveTables(white: seq<PieceMoves>, black: seq<PieceMoves>,
                                   whiteAttacks: set<Hex>, blackAttacks: set<Hex>)

  lemma FindKingIsKing(b: Board, white: bool, i: nat)
    requires i <= HEXES
    ensures var k := FindKingFrom(b, white, i);
            k.Some? ==> InBounds(k.value) && InArray(k.value) && Get(b, k.value) == King(white)
    ensures FindKingFrom(b, white, i).None? ==>
              forall j :: i <= j < HEXES ==> InArray(HexAt(j)) && Get(b, HexAt(j)) != King(white)
    decreases HEXES - i
  {
    if i < HEXES {
      InBoundsInArray(HexAt(i));
      FindKingIsKing(b, white, i + 1);
    }
  }

  lemma KingsFound(b: Board)
    ensures forall white: bool :: FindKing(b, white).Some? ==>
              InBounds(FindKing(b, white).value) && InArray(FindKing(b, white).value)
              && Get(b, FindKing(b, white).value) == King(white)
  {
    FindKingIsKing(b, true, 0);
    FindKingIsKing(b, false, 0);
  }

  /** Is the king that the check test looks at attacked by the other side's pieces? The test
      looks at the mover's king, but at the black one when white is to move and has none. */
  predicate TestedKingAttacked(b: Board) {
    var wk, bk := FindKing(b, true), FindKing(b, false);
    var attacks := Attacks(b, !b.isWhiteTurn);
    if b.isWhiteTurn && wk.Some? then wk.value in attacks
    else bk.Some? && bk.value in attacks
  }

  function WithKing(b: Board, moves: seq<PieceMoves>, king: Option<Hex>, barred: set<Hex>): seq<PieceMoves>
    requires king.Some? ==> InBounds(king.value)
  {
    if king.None? then moves else moves + [KingEntry(b, king.value, barred)]
  }

  function WithKingAttacks(b: Board, attacks: set<Hex>, king: Option<Hex>, barred: set<Hex>): set<Hex>
    requires king.Some? ==> InBounds(king.value)
  {
    if king.None? then attacks else attacks + Elements(KingEntry(b, king.value, barred).moves)
  }

  /** Regeneration of a position's moves: both sides' pieces; the mover's list cleared if the
      tested king is attacked; then the white king's steps off black's attacks, and the black
      king's steps off white's attacks including the white king's. */
  function Tables(b: Board): MoveTables {
    var wk, bk := FindKing(b, true), FindKing(b, false);
    KingsFound(b);
    var check := TestedKingAttacked(b);
    var w := if check && b.isWhiteTurn then [] else Pieces(b, true);
    var k := if check && !b.isWhiteTurn then [] else Pieces(b, false);
    var blackBase := Attacks(b, false);
    var whiteAttacks := WithKingAttacks(b, Attacks(b, true), wk, blackBase);
    MoveTables(WithKing(b, w, wk, blackBase),
               WithKing(b, k, bk, whiteAttacks),
               whiteAttacks,
               WithKingAttacks(b, blackBase, bk, whiteAttacks))
  }
}
