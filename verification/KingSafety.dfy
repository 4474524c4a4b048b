/** What regeneration guarantees: which hexes the attack tables mark, that neither king is
    offered a hex the other side attacks, and what is left to a side in check. */
module KingSafety {
  import opened HexGrid
  import opened Offsets
  import opened ChessBoard
  import opened MoveGen
  import opened GameStates

  lemma {:induction false} StepsAvoidBarred(b: Board, from: Hex, offsets: seq<Offset>, barred: set<Hex>, n: nat)
    requires InBounds(from) && n <= |offsets|
    ensures forall h :: h in StepsTo(b, from, offsets, barred, n) ==> h !in barred
  {
    if n > 0 { StepsAvoidBarred(b, from, offsets, barred, n - 1); }
  }

  lemma KingEntryAvoidsBarred(b: Board, at: Hex, barred: set<Hex>)
    requires InBounds(at)
    ensures forall h :: h in KingEntry(b, at, barred).moves ==> h !in barred
  {
    StepsAvoidBarred(b, at, KingOffsets(), barred, |KingOffsets()|);
  }

  function Last(list: seq<PieceMoves>): PieceMoves
    requires list != []
  {
    list[|list| - 1]
  }

  /** The list ends with the entry of the king on the given hex. */
  predicate EndsWithKing(list: seq<PieceMoves>, king: Hex, white: bool) {
    list != [] && Last(list).from == king && Last(list).piece == King(white)
  }

  /** After regeneration each king present is the last entry of its list, no hex listed for it
      is marked in the other side's final table, and the two kings share no destination. */
  lemma KingsAvoidAttacks(b: Board)
    ensures var t, wk, bk := Tables(b), FindKing(b, true), FindKing(b, false);
            && (wk.Some? ==> EndsWithKing(t.white, wk.value, true))
            && (bk.Some? ==> EndsWithKing(t.black, bk.value, false))
            && (wk.Some? ==> forall h :: h in Last(t.white).moves ==> h !in t.blackAttacks)
            && (bk.Some? ==> forall h :: h in Last(t.black).moves ==> h !in t.whiteAttacks)
            && (wk.Some? && bk.Some? ==>
                  forall h :: !(h in Last(t.white).moves && h in Last(t.black).moves))
  {
    hide Pieces, Attacks, TestedKingAttacked, FindKing;
    KingsFound(b);
    var wk, bk := FindKing(b, true), FindKing(b, false);
    var blackBase := Attacks(b, false);
    if wk.Some? { KingEntryAvoidsBarred(b, wk.value, blackBase); }
    if bk.Some? {
      KingEntryAvoidsBarred(b, bk.value, WithKingAttacks(b, Attacks(b, true), wk, blackBase));
    }
  }

  /** What one of a side's pieces other than its king attacks: a pawn the hexes it can take
      on, any other piece every hex it is listed. */
  ghost predicate PieceAttacks(b: Board, white: bool, from: Hex, h: Hex) {
    && InBounds(from) && InArray(from) && IsColored(Get(b, from), white)
    && (if IsPawn(Get(b, from)) then h in PawnTakes(b, from, white)
        else match Generate(b, from, white) case Nothing => false case Generated(e, _) => h in e.moves)
  }

  lemma NewAttacksAre(b: Board, white: bool, from: Hex, h: Hex)
    requires InBounds(from)
    ensures h in NewAttacks(b, from, white) <==> PieceAttacks(b, white, from, h)
  {
    hide Travel, Steps, PawnTakes, PawnAdvances;
    InBoundsInArray(from);
  }

  lemma {:induction false} AttacksToAre(b: Board, white: bool, n: nat, h: Hex)
    requires n <= HEXES
    ensures h in AttacksTo(b, white, n) <==> exists i :: 0 <= i < n && PieceAttacks(b, white, HexAt(i), h)
  {
    hide PieceAttacks, NewAttacks, HexAt;
    if n > 0 {
      AttacksToAre(b, white, n - 1, h);
      NewAttacksAre(b, white, HexAt(n - 1), h);
    }
  }

  lemma AttacksAre(b: Board, white: bool, h: Hex)
    ensures h in Attacks(b, white) <==> exists from :: PieceAttacks(b, white, from, h)
  {
    AttacksToAre(b, white, HEXES, h);
    if from :| PieceAttacks(b, white, from, h) {
      assert HexAt(IndexOf(from)) == from;
    }
  }

  /** Each final table marks exactly what that side's pieces attack and where its king may go. */
  lemma TablesAreAttacks(b: Board)
    ensures var t, wk, bk := Tables(b), FindKing(b, true), FindKing(b, false);
            && (wk.Some? ==> t.white != []) && (bk.Some? ==> t.black != [])
            && (forall h :: h in t.whiteAttacks <==>
                  (exists from :: PieceAttacks(b, true, from, h)) || (wk.Some? && h in Last(t.white).moves))
            && (forall h :: h in t.blackAttacks <==>
                  (exists from :: PieceAttacks(b, false, from, h)) || (bk.Some? && h in Last(t.black).moves))
  {
    hide Pieces, Attacks, TestedKingAttacked, FindKing, PieceAttacks;
    KingsFound(b);
    forall h
      ensures h in Attacks(b, true) <==> exists from :: PieceAttacks(b, true, from, h)
      ensures h in Attacks(b, false) <==> exists from :: PieceAttacks(b, false, from, h)
    {
      AttacksAre(b, true, h);
      AttacksAre(b, false, h);
    }
  }

  /** A side whose king is attacked by a piece other than the king has that king's entry only. */
  lemma CheckedSideHasKingOnly(b: Board, attacker: Hex)
    requires FindKing(b, b.isWhiteTurn).Some?
    requires PieceAttacks(b, !b.isWhiteTurn, attacker, FindKing(b, b.isWhiteTurn).value)
    ensures var own := if b.isWhiteTurn then Tables(b).white else Tables(b).black;
            |own| == 1 && EndsWithKing(own, FindKing(b, b.isWhiteTurn).value, b.isWhiteTurn)
  {
    hide Pieces, Attacks, FindKing, PieceAttacks;
    KingsFound(b);
    AttacksAre(b, !b.isWhiteTurn, FindKing(b, b.isWhiteTurn).value);
  }

  /** Hence checkmate is declared of a side so attacked exactly if its king itself has no step:
      no other piece's reply counts. */
  lemma MateIsStuckKing(g: GameState, attacker: Hex)
    requires FindKing(g.board, g.board.isWhiteTurn).Some?
    requires PieceAttacks(g.board, !g.board.isWhiteTurn, attacker, FindKing(g.board, g.board.isWhiteTurn).value)
    ensures var list := Initialized(g).CurrMoves();
            list != [] && (IsCheckmate(Initialized(g)) <==> Last(list).moves == [])
  {
    hide Pieces, Attacks, FindKing, PieceAttacks, TestedKingAttacked;
    CheckedSideHasKingOnly(g.board, attacker);
    TablesAreAttacks(g.board);
  }
}
