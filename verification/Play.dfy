/** Whole games: sequences of accepted moves, what every one of them keeps, and the replay
    that jumping and undoing are built on. */
module Play {
  import opened Wrappers
  import opened HexGrid
  import opened Offsets
  import opened ChessBoard
  import opened MoveGen
  import opened GameStates

  function Start(b: Board): GameState { Initialized(Fresh(b)) }

  /** The game after the moves, if every one of them was accepted. */
  function PlayedAll(g: GameState, mvs: seq<Move>): Option<GameState>
    decreases |mvs|, g.board.isWhiteTurn
  {
    if mvs == [] then Some(g)
    else
      var before := PlayedAll(g, mvs[..|mvs| - 1]);
      if before.None? || Violation(before.value, mvs[|mvs| - 1]).Some? then None
      else Some(Played(before.value, mvs[|mvs| - 1]))
  }

  /** The last move of a game played: what the moves before it left, with it accepted. */
  lemma PlayedAllStep(g: GameState, mvs: seq<Move>)
    requires mvs != [] && PlayedAll(g, mvs).Some?
    ensures var before := PlayedAll(g, mvs[..|mvs| - 1]);
            && before.Some? && Violation(before.value, mvs[|mvs| - 1]).None?
            && PlayedAll(g, mvs).value == Played(before.value, mvs[|mvs| - 1])
  {
    hide Violation, Played;
  }

  // ----- what an accepted move is -----

  /** A listed destination: on the board, empty or held by the other side. */
  predicate Target(b: Board, white: bool, to: Hex) {
    InBounds(to) && InArray(to) && (Get(b, to) == EMPTY || IsColored(Get(b, to), !white))
  }

  /** An entry of one side: from a hex with one of its pieces, to targets only. */
  predicate Sound(b: Board, white: bool, e: PieceMoves) {
    && InBounds(e.from) && InArray(e.from) && IsColored(Get(b, e.from), white) && e.piece == Get(b, e.from)
    && forall to :: to in e.moves ==> Target(b, white, to)
  }

  lemma {:induction false} RaySoundness(b: Board, base: Piece, at: Hex, dirs: Offset)
    requires InBounds(at) && IsMoveStep(dirs)
    ensures forall to :: to in Ray(b, base, at, dirs) ==> Target(b, IsWhite(base), to)
    decreases Room(at, VectorOf(dirs))
  {
    hide IsMoveStep, Room, Walked, VectorOf;
    RayStep(b, base, at, dirs);
    var next := Walked(at, dirs);
    if InBounds(next) {
      InBoundsInArray(next);
      if Get(b, next) == EMPTY {
        RaySoundness(b, base, next, dirs);
        assert Ray(b, base, at, dirs) == [next] + Ray(b, base, at, dirs)[1..];
      }
    }
  }

  lemma {:induction false} TravelSoundness(b: Board, from: Hex, offsets: seq<Offset>, n: nat)
    requires InBounds(from) && InArray(from) && AreMoveSteps(offsets) && n <= |offsets|
    ensures forall to :: to in TravelTo(b, from, offsets, n) ==> Target(b, IsWhite(Get(b, from)), to)
  {
    hide IsMoveStep, Ray;
    if n > 0 {
      TravelSoundness(b, from, offsets, n - 1);
      RaySoundness(b, Get(b, from), from, offsets[n - 1]);
    }
  }

  lemma {:induction false} StepsSoundness(b: Board, from: Hex, offsets: seq<Offset>, barred: set<Hex>, n: nat)
    requires InBounds(from) && InArray(from) && n <= |offsets|
    ensures forall to :: to in StepsTo(b, from, offsets, barred, n) ==> Target(b, IsWhite(Get(b, from)), to)
  {
    hide Walked;
    if n > 0 {
      StepsSoundness(b, from, offsets, barred, n - 1);
      if InBounds(Walked(from, offsets[n - 1])) { InBoundsInArray(Walked(from, offsets[n - 1])); }
    }
  }

  lemma PawnSoundness(b: Board, from: Hex, white: bool)
    requires InBounds(from) && InArray(from) && IsColored(Get(b, from), white)
    ensures forall to :: to in PawnAdvances(b, from, white) + PawnTakes(b, from, white) ==> Target(b, white, to)
  {
    hide Step;
    forall to | to in PawnAdvances(b, from, white) + PawnTakes(b, from, white)
      ensures Target(b, white, to)
    {
      InBoundsInArray(to);
    }
  }

  lemma GenerateSoundness(b: Board, h: Hex, white: bool)
    requires InBounds(h)
    ensures Generate(b, h, white).Generated? ==> Sound(b, white, Generate(b, h, white).entry)
  {
    hide TravelTo, StepsTo, PawnAdvances, PawnTakes, AreMoveSteps, Slides;
    InBoundsInArray(h);
    OffsetTablesStep();
    var p := Get(b, h);
    if p != EMPTY && IsPieceTurn(p, white) {
      if p == WHITE_KNIGHT || p == BLACK_KNIGHT {
        StepsSoundness(b, h, KnightOffsets(), {}, |KnightOffsets()|);
      } else if IsPawn(p) {
        PawnSoundness(b, h, white);
      } else if p in {WHITE_ROOK, BLACK_ROOK, WHITE_BISHOP, BLACK_BISHOP, WHITE_QUEEN, BLACK_QUEEN} {
        SlidesAreMoveSteps(p);
        TravelSoundness(b, h, Slides(p), |Slides(p)|);
      }
    }
  }

  lemma SlidesAreMoveSteps(p: Piece)
    requires p in {WHITE_ROOK, BLACK_ROOK, WHITE_BISHOP, BLACK_BISHOP, WHITE_QUEEN, BLACK_QUEEN}
    ensures AreMoveSteps(Slides(p))
  {
    OffsetTablesStep();
  }

  lemma {:induction false} PiecesSoundness(b: Board, white: bool, n: nat)
    requires n <= HEXES
    ensures forall e :: e in PiecesTo(b, white, n) ==> Sound(b, white, e)
  {
    hide Generate, Sound, HexAt;
    if n > 0 {
      PiecesSoundness(b, white, n - 1);
      GenerateSoundness(b, HexAt(n - 1), white);
    }
  }

  /** Every entry of both regenerated lists is sound. */
  lemma TablesSound(b: Board)
    ensures forall e :: e in Tables(b).white ==> Sound(b, true, e)
    ensures forall e :: e in Tables(b).black ==> Sound(b, false, e)
  {
    hide PiecesTo, Attacks, TestedKingAttacked, FindKing, StepsTo;
    KingsFound(b);
    PiecesSoundness(b, true, HEXES);
    PiecesSoundness(b, false, HEXES);
    forall white: bool, barred: set<Hex> | FindKing(b, white).Some?
      ensures Sound(b, white, KingEntry(b, FindKing(b, white).value, barred))
    {
      var k := FindKing(b, white).value;
      StepsSoundness(b, k, KingOffsets(), barred, |KingOffsets()|);
    }
  }

  ghost predicate Regenerated(g: GameState) {
    g.whiteMoves == Some(Tables(g.board).white) && g.blackMoves == Some(Tables(g.board).black)
  }

  /** An accepted move takes one of the mover's pieces to an empty hex or onto the other side. */
  lemma AcceptedMove(g: GameState, mv: Move)
    requires Regenerated(g) && Violation(g, mv).None?
    ensures InBounds(mv.from) && InArray(mv.from) && mv.from != mv.to
    ensures IsColored(Get(g.board, mv.from), g.board.isWhiteTurn)
    ensures Target(g.board, g.board.isWhiteTurn, mv.to)
    ensures IsPromotion(g.board, mv) ==> NamesPromotion(mv.promotion)
  {
    hide Tables;
    InBoundsInArray(mv.from);
    TablesSound(g.board);
    var list := g.CurrMoves();
    var i := EntryFrom(list, mv.from, 0);
    assert list[i.value] in list;
  }

  // ----- material -----

  /** The pieces on the hexes of the board, in scan order. */
  function Cells(b: Board): seq<Piece> {
    seq(HEXES, i requires 0 <= i < HEXES => (InBoundsInArray(HexAt(i)); Get(b, HexAt(i))))
  }

  function CountIn(s: seq<Piece>, k: Piece): int { multiset(s)[k] }

  /** How many pieces of kind k a game has, on the board and taken. */
  function Material(g: GameState, k: Piece): int {
    CountIn(Cells(g.board), k) + CountIn(g.takenWhite, k) + CountIn(g.takenBlack, k)
  }

  function One(c: bool): int { if c then 1 else 0 }

  lemma CountAfterSet(b: Board, h: Hex, p: Piece, k: Piece)
    requires InBounds(h) && InArray(h)
    ensures CountIn(Cells(Set(b, h, p)), k) == CountIn(Cells(b), k) - One(k == Get(b, h)) + One(k == p)
  {
    hide Set, HexAt, IndexOf;
    forall i | 0 <= i < HEXES
      ensures Cells(Set(b, h, p))[i] == Cells(b)[IndexOf(h) := p][i]
    {
      InBoundsInArray(HexAt(i));
      if HexAt(i) == h { HexAtInjective(i, IndexOf(h)); }
    }
    assert Cells(Set(b, h, p)) == Cells(b)[IndexOf(h) := p];
    assert Cells(b)[IndexOf(h)] == Get(b, h);
  }

  lemma CellsIgnoreTurn(b: Board, turn: bool)
    ensures Cells(b.(isWhiteTurn := turn)) == Cells(b)
  {
  }

  lemma CountSnoc(s: seq<Piece>, p: Piece, k: Piece)
    ensures CountIn(s + [p], k) == CountIn(s, k) + One(k == p)
  {
  }

  /** The census law of a move, whether validated or not: of every kind of piece as many are
      on the board or taken as before, but that a promotion turns a pawn into its choice. */
  lemma CensusOfMove(g: GameState, mv: Move, k: Piece)
    requires InBounds(mv.from) && InBounds(mv.to) && mv.from != mv.to && InArray(mv.from) && InArray(mv.to)
    requires k != EMPTY
    ensures Material(Moved(g, mv), k) == Material(g, k)
              + One(IsPromotion(g.board, mv) && k == Landing(g.board, mv))
              - One(IsPromotion(g.board, mv) && k == Get(g.board, mv.from))
  {
    hide Cells, CountIn, Landing, IsPromotion;
    var b := g.board;
    var lifted := Set(b, mv.from, EMPTY);
    var landed := Set(lifted, mv.to, Landing(b, mv));
    CountAfterSet(b, mv.from, EMPTY, k);
    CountAfterSet(lifted, mv.to, Landing(b, mv), k);
    CellsIgnoreTurn(landed, !b.isWhiteTurn);
    CountSnoc(g.takenWhite, Get(b, mv.to), k);
    CountSnoc(g.takenBlack, Get(b, mv.to), k);
    if !IsPromotion(b, mv) { LandsItself(b, mv); }
  }

  lemma LandsItself(b: Board, mv: Move)
    requires InArray(mv.from) && !IsPromotion(b, mv)
    ensures Landing(b, mv) == Get(b, mv.from)
  {
  }

  // ----- what every accepted move keeps -----

  predicate AllColored(taken: seq<Piece>, white: bool) {
    forall i :: 0 <= i < |taken| ==> IsColored(taken[i], white)
  }

  /** No pawn stands where it would have been promoted. */
  ghost predicate NoStrandedPawns(b: Board) {
    forall h: Hex :: InBounds(h) && InArray(h) ==>
      && (Get(b, h) == WHITE_PAWN ==> h.rank < RanksPerFile(h.file) - 1)
      && (Get(b, h) == BLACK_PAWN ==> h.rank > 0)
  }

  /** What a game in play always satisfies. */
  ghost predicate Sane(g: GameState) {
    && Regenerated(g)
    && WellFormed(g.board)
    && AllColored(g.takenWhite, true) && AllColored(g.takenBlack, false)
    && NoStrandedPawns(g.board)
  }

  lemma AcceptedMoveKeepsSane(g: GameState, mv: Move)
    requires Sane(g) && Violation(g, mv).None?
    ensures Sane(Played(g, mv))
  {
    hide Tables, Violation;
    AcceptedMove(g, mv);
    MovedKeepsBoard(g.board, mv);
  }

  lemma MovedKeepsBoard(b: Board, mv: Move)
    requires WellFormed(b) && NoStrandedPawns(b)
    requires InBounds(mv.from) && InArray(mv.from) && mv.from != mv.to
    requires IsColored(Get(b, mv.from), b.isWhiteTurn) && InBounds(mv.to) && InArray(mv.to)
    ensures WellFormed(MovedBoard(b, mv)) && NoStrandedPawns(MovedBoard(b, mv))
  {
    hide Set;
    RanksClosedForm(mv.to.file);
  }

  /** Pieces of one colour on the board and taken: the six kinds of that colour. */
  function ColorMaterial(g: GameState, white: bool): int {
    if white then
      Material(g, WHITE_PAWN) + Material(g, WHITE_KNIGHT) + Material(g, WHITE_BISHOP)
      + Material(g, WHITE_ROOK) + Material(g, WHITE_QUEEN) + Material(g, WHITE_KING)
    else
      Material(g, BLACK_PAWN) + Material(g, BLACK_KNIGHT) + Material(g, BLACK_BISHOP)
      + Material(g, BLACK_ROOK) + Material(g, BLACK_QUEEN) + Material(g, BLACK_KING)
  }

  lemma AcceptedMoveKeepsColors(g: GameState, mv: Move, white: bool)
    requires Sane(g) && Violation(g, mv).None?
    ensures ColorMaterial(Played(g, mv), white) == ColorMaterial(g, white)
  {
    hide Tables, Violation, Material, Sane;
    assert Regenerated(g) by { assert Sane(g); SaneRegenerated(g); }
    AcceptedMove(g, mv);
    forall k: Piece | k != EMPTY
      ensures Material(Played(g, mv), k) == Material(g, k)
                + One(IsPromotion(g.board, mv) && k == Landing(g.board, mv))
                - One(IsPromotion(g.board, mv) && k == Get(g.board, mv.from))
    {
      CensusOfMove(g, mv, k);
      MaterialOfPlayed(g, mv, k);
    }
  }

  lemma SaneRegenerated(g: GameState)
    requires Sane(g)
    ensures Regenerated(g)
  {
  }

  lemma MaterialOfPlayed(g: GameState, mv: Move, k: Piece)
    requires Violation(g, mv).None? && InArray(mv.from) && InArray(mv.to)
    ensures Material(Played(g, mv), k) == Material(Moved(g, mv), k)
  {
  }

  /** Over any sequence of accepted moves from a well-formed position without stranded pawns,
      the game stays sane and the material of each colour is constant. */
  lemma {:induction false} RunKeepsSane(b: Board, mvs: seq<Move>, white: bool)
    requires WellFormed(b) && NoStrandedPawns(b)
    requires PlayedAll(Start(b), mvs).Some?
    ensures Sane(PlayedAll(Start(b), mvs).value)
    ensures ColorMaterial(PlayedAll(Start(b), mvs).value, white) == ColorMaterial(Start(b), white)
  {
    hide Tables, Violation, ColorMaterial, Sane;
    if mvs == [] {
      StartIsSane(b);
    } else {
      var g, mv := PlayedAll(Start(b), mvs[..|mvs| - 1]).value, mvs[|mvs| - 1];
      RunKeepsSane(b, mvs[..|mvs| - 1], white);
      AcceptedMoveKeepsSane(g, mv);
      AcceptedMoveKeepsColors(g, mv, white);
    }
  }

  lemma StartIsSane(b: Board)
    requires WellFormed(b) && NoStrandedPawns(b)
    ensures Sane(Start(b))
  {
  }
}
