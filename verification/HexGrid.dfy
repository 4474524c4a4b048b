/** The hexagonal board: file/rank coordinates held in 32-bit unsigned integers, the
    six walking directions, the offset tables of the pieces, and the axial
    coordinates in which every direction is one fixed translation. */
module HexGrid {
  const FILES: nat := 11
  const MAX_RANKS: nat := 11
  const MIDPOINT: nat := 5

  /** The number of ranks of each file. */
  function RanksPerFile(file: nat): nat
    requires file < FILES
  {
    match file
    case 0 => 6 case 1 => 7 case 2 => 8 case 3 => 9 case 4 => 10 case 5 => 11
    case 6 => 10 case 7 => 9 case 8 => 8 case 9 => 7 case 10 => 6
  }

  const UINT32_MAX: int := 0xFFFF_FFFF
  type Uint32 = x: int | 0 <= x <= UINT32_MAX

  function Inc(x: Uint32): Uint32 { if x == UINT32_MAX then 0 else x + 1 }

  function Dec(x: Uint32): Uint32 { if x == 0 then UINT32_MAX else x - 1 }

  datatype Direction = Up | Down | DownLeft | DownRight | UpLeft | UpRight

  type Offset = seq<Direction>

  datatype Hex = Hex(file: Uint32, rank: Uint32)

  predicate InBounds(h: Hex) {
    h.file < FILES && h.rank < RanksPerFile(h.file)
  }

  /** One step of the walk, in wrapping unsigned arithmetic. */
  function Step(h: Hex, d: Direction): Hex {
    match d
    case Up => Hex(h.file, Inc(h.rank))
    case Down => Hex(h.file, Dec(h.rank))
    case UpLeft => Hex(Dec(h.file), if h.file > MIDPOINT then Inc(h.rank) else h.rank)
    case DownLeft => Hex(Dec(h.file), if h.file <= MIDPOINT then Dec(h.rank) else h.rank)
    case UpRight => Hex(Inc(h.file), if h.file < MIDPOINT then Inc(h.rank) else h.rank)
    case DownRight => Hex(Inc(h.file), if h.file >= MIDPOINT then Dec(h.rank) else h.rank)
  }

  /** Where a walk ends: the fold of `Step` over its directions. */
  function Walked(h: Hex, dirs: Offset): Hex
    decreases |dirs|
  {
    if dirs == [] then h else Walked(Step(h, dirs[0]), dirs[1..])
  }

  /** The walk as the loop over local file and rank that the board package runs. */
  method Walk(h: Hex, dirs: Offset) returns (r: Hex)
    ensures r == Walked(h, dirs)
  {
    var file, rank := h.file, h.rank;
    for i := 0 to |dirs|
      invariant Walked(Hex(file, rank), dirs[i..]) == Walked(h, dirs)
    {
      assert dirs[i..][1..] == dirs[i + 1..];
      match dirs[i] {
        case Up => rank := Inc(rank);
        case Down => rank := Dec(rank);
        case UpLeft =>
          if file > MIDPOINT { rank := Inc(rank); }
          file := Dec(file);
        case DownLeft =>
          if file <= MIDPOINT { rank := Dec(rank); }
          file := Dec(file);
        case UpRight =>
          if file < MIDPOINT { rank := Inc(rank); }
          file := Inc(file);
        case DownRight =>
          if file >= MIDPOINT { rank := Dec(rank); }
          file := Inc(file);
      }
    }
    r := Hex(file, rank);
  }

  // ----- axial coordinates -----

  datatype Axial = Axial(q: int, r: int)

  function Min(a: int, b: int): int { if a < b then a else b }

  function ToAxial(h: Hex): Axial { Axial(h.file, h.rank - Min(h.file, MIDPOINT)) }

  predicate OnBoard(a: Axial) {
    && 0 <= a.q < FILES
    && 0 <= a.r + Min(a.q, MIDPOINT) < RanksPerFile(a.q)
  }

  function FromAxial(a: Axial): Hex
    requires OnBoard(a)
  {
    RanksClosedForm(a.q);
    Hex(a.q, a.r + Min(a.q, MIDPOINT))
  }

  function Plus(a: Axial, b: Axial): Axial { Axial(a.q + b.q, a.r + b.r) }

  /** The point k steps of vector v away from a. */
  function Along(a: Axial, v: Axial, k: int): Axial { Axial(a.q + k * v.q, a.r + k * v.r) }

  /** The translation a direction stands for. */
  function Vector(d: Direction): Axial {
    match d
    case Up => Axial(0, 1)
    case Down => Axial(0, -1)
    case DownLeft => Axial(-1, 0)
    case DownRight => Axial(1, -1)
    case UpLeft => Axial(-1, 1)
    case UpRight => Axial(1, 0)
  }

  function Count(dirs: Offset, d: Direction): int { multiset(dirs)[d] }

  /** The translation a direction sequence stands for: its steps counted by kind. */
  function VectorOf(dirs: Offset): Axial {
    Axial(Count(dirs, UpRight) + Count(dirs, DownRight) - Count(dirs, UpLeft) - Count(dirs, DownLeft),
          Count(dirs, Up) + Count(dirs, UpLeft) - Count(dirs, Down) - Count(dirs, DownRight))
  }

  lemma CountStep(dirs: Offset, d: Direction)
    requires dirs != []
    ensures Count(dirs, d) == Count(dirs[1..], d) + (if dirs[0] == d then 1 else 0)
  {
    assert dirs == [dirs[0]] + dirs[1..];
  }

  lemma VectorOfStep(dirs: Offset)
    requires dirs != []
    ensures VectorOf(dirs) == Plus(Vector(dirs[0]), VectorOf(dirs[1..]))
  {
    hide Count;
    forall d: Direction
      ensures Count(dirs, d) == Count(dirs[1..], d) + (if dirs[0] == d then 1 else 0)
    {
      CountStep(dirs, d);
    }
  }

  lemma RanksClosedForm(file: int)
    requires 0 <= file < FILES
    ensures RanksPerFile(file) == 11 - (if file < 5 then 5 - file else file - 5)
  {
  }

  predicate GoesLeft(d: Direction) { d.UpLeft? || d.DownLeft? }

  predicate GoesRight(d: Direction) { d.UpRight? || d.DownRight? }

  predicate NeverLeft(dirs: Offset) { forall i :: 0 <= i < |dirs| ==> !GoesLeft(dirs[i]) }

  predicate NeverRight(dirs: Offset) { forall i :: 0 <= i < |dirs| ==> !GoesRight(dirs[i]) }

  /** A walk that never turns back: it has no step to the left or none to the right. */
  predicate OneSided(dirs: Offset) {
    NeverLeft(dirs) || NeverRight(dirs)
  }

  /** The intermediate coordinates of a walk: `n` steps after leaving an on-board hex,
      the rank is the axial one modulo 2^32 while the file is a file of the board, and
      a file that has wrapped or run off stays off for the rest of a one-sided walk. */
  ghost predicate Tracks(h: Hex, a: Axial, n: nat) {
    && 0 - n <= a.q <= 10 + n
    && (0 <= a.q <= 10 ==>
          && h.file == a.q
          && -2 * n - 20 <= a.r <= 20 + 2 * n
          && (h.rank == a.r + Min(a.q, 5) || h.rank == a.r + Min(a.q, 5) + UINT32_MAX + 1))
    && (a.q < 0 ==> h.file == a.q + UINT32_MAX + 1)
    && (a.q > 10 ==> h.file == a.q)
  }

  lemma StepTracks(h: Hex, a: Axial, n: nat, d: Direction)
    requires Tracks(h, a, n) && n <= 0x3FFF_FFFF
    requires a.q < 0 ==> !GoesRight(d)
    requires a.q > 10 ==> !GoesLeft(d)
    ensures Tracks(Step(h, d), Plus(a, Vector(d)), n + 1)
  {
  }

  lemma StandsStill(a: Axial, dirs: Offset)
    requires dirs == []
    ensures Plus(a, VectorOf(dirs)) == a
  {
  }

  lemma {:induction false} WalkTracks(h: Hex, a: Axial, n: nat, dirs: Offset)
    requires n + |dirs| <= 0x3FFF_FFFF && Tracks(h, a, n)
    requires (NeverLeft(dirs) && a.q >= 0) || (NeverRight(dirs) && a.q <= 10)
    ensures Tracks(Walked(h, dirs), Plus(a, VectorOf(dirs)), n + |dirs|)
    decreases |dirs|
  {
    hide VectorOf, InBounds, OnBoard;
    if dirs == [] {
      StandsStill(a, dirs);
    } else {
      VectorOfStep(dirs);
      StepTracks(h, a, n, dirs[0]);
      WalkTracks(Step(h, dirs[0]), Plus(a, Vector(dirs[0])), n + 1, dirs[1..]);
    }
  }

  lemma TrackedIsOnBoard(h: Hex, a: Axial, n: nat)
    requires Tracks(h, a, n) && n <= 0x3FFF_FFFF
    ensures InBounds(h) <==> OnBoard(a)
    ensures InBounds(h) ==> ToAxial(h) == a
  {
    if h.file < FILES { RanksClosedForm(h.file); }
  }

  /** In axial coordinates a one-sided walk from a board hex is its translation: it ends on
      the board exactly if the translated point is on the board, and then at that point.
      Wrap-around of the 32-bit coordinates never brings it back onto the board. */
  lemma WalkTranslates(h: Hex, dirs: Offset)
    requires InBounds(h) && OneSided(dirs) && |dirs| <= 0x3FFF_FFFF
    ensures InBounds(Walked(h, dirs)) <==> OnBoard(Plus(ToAxial(h), VectorOf(dirs)))
    ensures InBounds(Walked(h, dirs)) ==> ToAxial(Walked(h, dirs)) == Plus(ToAxial(h), VectorOf(dirs))
  {
    RanksClosedForm(h.file);
    WalkTracks(h, ToAxial(h), 0, dirs);
    TrackedIsOnBoard(Walked(h, dirs), Plus(ToAxial(h), VectorOf(dirs)), |dirs|);
  }

  /** A walk that turns back over the edge is not its translation: from any hex of file a,
      up-left and then up-right returns to that hex by wrap-around, while the translation
      goes one rank up. */
  lemma TurningBackWraps(h: Hex, dirs: Offset)
    requires h.file == 0 && dirs == [UpLeft, UpRight]
    ensures Walked(h, dirs) == h
    ensures Plus(ToAxial(h), VectorOf(dirs)) == Plus(ToAxial(h), Axial(0, 1))
  {
    var back := dirs[1..];
    assert back == [UpRight] && back[1..] == [];
    var over := Step(h, UpLeft);
    assert Walked(over, back) == Step(over, UpRight) == h;
  }
}
