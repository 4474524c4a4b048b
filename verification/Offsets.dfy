/** The offset tables: the direction sequences each kind of piece walks, and the
    translation each of them is. */
module Offsets {
  import opened HexGrid

  /** The six directions of the rook. */
  function RookOffset(i: nat): Offset
    requires i < 6
  {
    match i
    case 0 => [Up]
    case 1 => [Down]
    case 2 => [DownLeft]
    case 3 => [DownRight]
    case 4 => [UpLeft]
    case 5 => [UpRight]
  }

  /** The six two-step directions of the bishop. */
  function BishopOffset(i: nat): Offset
    requires i < 6
  {
    match i
    case 0 => [UpRight, DownRight]
    case 1 => [UpLeft, DownLeft]
    case 2 => [Up, UpRight]
    case 3 => [Up, UpLeft]
    case 4 => [Down, DownRight]
    case 5 => [Down, DownLeft]
  }

  /** The rook's directions followed by the bishop's. */
  function KingOffset(i: nat): Offset
    requires i < 12
  {
    if i < 6 then RookOffset(i) else BishopOffset(i - 6)
  }

  function KnightOffset(i: nat): Offset
    requires i < 12
  {
    match i
    case 0 => [UpRight, UpRight, Up]
    case 1 => [UpRight, Up, Up]
    case 2 => [DownRight, DownRight, Down]
    case 3 => [DownRight, Down, Down]
    case 4 => [UpLeft, UpLeft, Up]
    case 5 => [UpLeft, Up, Up]
    case 6 => [DownLeft, DownLeft, Down]
    case 7 => [DownLeft, Down, Down]
    case 8 => [UpLeft, UpLeft, DownLeft]
    case 9 => [DownLeft, DownLeft, UpLeft]
    case 10 => [UpRight, UpRight, DownRight]
    case 11 => [DownRight, DownRight, UpRight]
  }

  function RookOffsets(): seq<Offset> { seq(6, i requires 0 <= i < 6 => RookOffset(i)) }

  function BishopOffsets(): seq<Offset> { seq(6, i requires 0 <= i < 6 => BishopOffset(i)) }

  function KingOffsets(): seq<Offset> { RookOffsets() + BishopOffsets() }

  function KnightOffsets(): seq<Offset> { seq(12, i requires 0 <= i < 12 => KnightOffset(i)) }

  function KingVector(i: nat): Axial
    requires i < 12
  {
    match i
    case 0 => Axial(0, 1)   case 1 => Axial(0, -1)  case 2 => Axial(-1, 0)
    case 3 => Axial(1, -1)  case 4 => Axial(-1, 1)  case 5 => Axial(1, 0)
    case 6 => Axial(2, -1)  case 7 => Axial(-2, 1)  case 8 => Axial(1, 1)
    case 9 => Axial(-1, 2)  case 10 => Axial(1, -2) case 11 => Axial(-1, -1)
  }

  function KnightVector(i: nat): Axial
    requires i < 12
  {
    match i
    case 0 => Axial(2, 1)   case 1 => Axial(1, 2)   case 2 => Axial(2, -3)
    case 3 => Axial(1, -3)  case 4 => Axial(-2, 3)  case 5 => Axial(-1, 3)
    case 6 => Axial(-2, -1) case 7 => Axial(-1, -2) case 8 => Axial(-3, 2)
    case 9 => Axial(-3, 1)  case 10 => Axial(3, -1) case 11 => Axial(3, -2)
  }

  /** What the move generators need of a direction sequence they walk. */
  predicate IsMoveStep(dirs: Offset) {
    && OneSided(dirs) && |dirs| <= 3
    && VectorOf(dirs) != Axial(0, 0)
    && -3 <= VectorOf(dirs).q <= 3 && -3 <= VectorOf(dirs).r <= 3
  }

  /** The translation of a short direction sequence, step by step. */
  lemma VectorOfShort(dirs: Offset)
    requires 1 <= |dirs| <= 3
    ensures |dirs| == 1 ==> VectorOf(dirs) == Vector(dirs[0])
    ensures |dirs| == 2 ==> VectorOf(dirs) == Axial(Vector(dirs[0]).q + Vector(dirs[1]).q, Vector(dirs[0]).r + Vector(dirs[1]).r)
    ensures |dirs| == 3 ==> VectorOf(dirs) == Axial(Vector(dirs[0]).q + Vector(dirs[1]).q + Vector(dirs[2]).q,
                                                    Vector(dirs[0]).r + Vector(dirs[1]).r + Vector(dirs[2]).r)
  {
    hide VectorOf, Vector;
    var last := dirs[|dirs| - 1..];
    VectorOfStep(dirs);
    if |dirs| > 1 { VectorOfStep(dirs[1..]); }
    if |dirs| > 2 { VectorOfStep(dirs[2..]); }
    assert last[1..] == [] && dirs[|dirs|..] == [];
    StandsStill(Vector(dirs[|dirs| - 1]), dirs[|dirs|..]);
  }

  lemma KingTable(i: nat)
    requires i < 12
    ensures VectorOf(KingOffset(i)) == KingVector(i)
  {
    hide VectorOf;
    VectorOfShort(KingOffset(i));
  }

  lemma KnightTable(i: nat)
    requires i < 12
    ensures VectorOf(KnightOffset(i)) == KnightVector(i)
  {
    hide VectorOf;
    VectorOfShort(KnightOffset(i));
  }

  lemma TablesOneSided(i: nat)
    requires i < 12
    ensures OneSided(KingOffset(i)) && OneSided(KnightOffset(i))
  {
  }

  lemma IsMoveStepFor(dirs: Offset, v: Axial)
    requires OneSided(dirs) && |dirs| <= 3 && VectorOf(dirs) == v
    requires v != Axial(0, 0) && -3 <= v.q <= 3 && -3 <= v.r <= 3
    ensures IsMoveStep(dirs)
  {
  }

  /** No direction sequence of the offset tables turns back or stands still. */
  lemma TablesAreMoveSteps(i: nat)
    requires i < 12
    ensures IsMoveStep(KingOffset(i)) && IsMoveStep(KnightOffset(i))
  {
    hide VectorOf, OneSided, IsMoveStep;
    TablesOneSided(i);
    KingTable(i);
    KnightTable(i);
    IsMoveStepFor(KingOffset(i), KingVector(i));
    IsMoveStepFor(KnightOffset(i), KnightVector(i));
  }

  /** Rays of the twelve king directions from one origin never meet. */
  lemma KingRaysDisjoint(a: Axial, i: nat, j: nat, k: nat, m: nat)
    requires i < 12 && j < 12 && k >= 1 && m >= 1
    requires Along(a, KingVector(i), k) == Along(a, KingVector(j), m)
    ensures i == j && k == m
  {
  }
}
