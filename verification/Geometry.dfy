/** The generated moves in geometric terms: a sliding piece goes along lines of the axial
    plane, through empty hexes, up to and including the first piece of the other colour;
    a knight or king goes to the ends of its twelve vectors; a pawn ahead onto free hexes, and
    onto opposing pieces along its two capture vectors. Nothing is listed twice. */
module MoveGeometry {
  import opened HexGrid
  import opened Offsets
  import opened ChessBoard
  import opened MoveGen

  ghost predicate EmptyAt(b: Board, a: Axial) {
    OnBoard(a) && InArray(FromAxial(a)) && Get(b, FromAxial(a)) == EMPTY
  }

  /** A piece of code `base` may end on t, as far as what stands there is concerned. */
  predicate Enterable(b: Board, base: Piece, t: Hex) {
    InArray(t) && (Get(b, t) == EMPTY || OppositeColor(Get(b, t), base))
  }

  /** t is the k-th hex from `from` along v, every hex before it on the line is an empty hex
      of the board, and t is empty or holds a piece of the other colour. */
  ghost predicate Reaches(b: Board, base: Piece, from: Hex, v: Axial, k: int, t: Hex) {
    && k >= 1
    && InBounds(t) && ToAxial(t) == Along(ToAxial(from), v, k)
    && (forall j :: 1 <= j < k ==> EmptyAt(b, Along(ToAxial(from), v, j)))
    && Enterable(b, base, t)
  }

  ghost predicate OnLine(b: Board, base: Piece, from: Hex, v: Axial, t: Hex) {
    exists k :: Reaches(b, base, from, v, k, t)
  }

  lemma AxialInverse(h: Hex)
    requires InBounds(h)
    ensures OnBoard(ToAxial(h)) && FromAxial(ToAxial(h)) == h && InArray(h)
  {
    RanksClosedForm(h.file);
  }

  lemma AlongShift(a: Axial, v: Axial, j: int)
    ensures Along(Plus(a, v), v, j) == Along(a, v, j + 1)
    ensures Along(a, v, 1) == Plus(a, v)
  {
    assert j * v.q + v.q == (j + 1) * v.q;
    assert j * v.r + v.r == (j + 1) * v.r;
  }

  /** The i-th hex of a ray is i + 1 steps away, with a clear way to it. */
  lemma {:induction false} RaySound(b: Board, base: Piece, at: Hex, dirs: Offset, i: nat)
    requires InBounds(at) && IsMoveStep(dirs) && i < |Ray(b, base, at, dirs)|
    ensures Reaches(b, base, at, VectorOf(dirs), i + 1, Ray(b, base, at, dirs)[i])
    decreases i
  {
    hide IsMoveStep, VectorOf, Walked, Ray, Room, Along, Plus, ToAxial, FromAxial;
    var v, next, ray := VectorOf(dirs), Walked(at, dirs), Ray(b, base, at, dirs);
    RayStep(b, base, at, dirs);
    StepIsTranslation(at, dirs);
    AlongShift(ToAxial(at), v, 0);
    if i > 0 {
      assert ray[i] == ray[1..][i - 1];
      RaySound(b, base, next, dirs, i - 1);
      AlongShift(ToAxial(at), v, i);
      forall j | 1 <= j < i + 1
        ensures EmptyAt(b, Along(ToAxial(at), v, j))
      {
        AxialInverse(next);
        if j > 1 {
          AlongShift(ToAxial(at), v, j - 1);
          assert EmptyAt(b, Along(ToAxial(next), v, j - 1));
        }
      }
    }
  }

  /** A hex k steps away with a clear way to it is listed, at index k - 1. */
  lemma {:induction false} RayComplete(b: Board, base: Piece, at: Hex, dirs: Offset, k: int, t: Hex)
    requires InBounds(at) && IsMoveStep(dirs) && Reaches(b, base, at, VectorOf(dirs), k, t)
    ensures k <= |Ray(b, base, at, dirs)| && Ray(b, base, at, dirs)[k - 1] == t
    decreases k
  {
    hide IsMoveStep, VectorOf, Walked, Ray, Room, Along, Plus, ToAxial, FromAxial;
    var v, next := VectorOf(dirs), Walked(at, dirs);
    RayStep(b, base, at, dirs);
    StepIsTranslation(at, dirs);
    AlongShift(ToAxial(at), v, 0);
    AxialInverse(t);
    if k > 1 {
      assert EmptyAt(b, Along(ToAxial(at), v, 1));
      AxialInverse(next);
      AlongShift(ToAxial(at), v, k - 1);
      forall j | 1 <= j < k - 1
        ensures EmptyAt(b, Along(ToAxial(next), v, j))
      {
        AlongShift(ToAxial(at), v, j);
      }
      RayComplete(b, base, next, dirs, k - 1, t);
    } else if InBounds(next) {
      AxialInverse(next);
    }
  }

  lemma StepIsTranslation(at: Hex, dirs: Offset)
    requires InBounds(at) && IsMoveStep(dirs)
    ensures InBounds(Walked(at, dirs)) <==> OnBoard(Plus(ToAxial(at), VectorOf(dirs)))
    ensures InBounds(Walked(at, dirs)) ==> ToAxial(Walked(at, dirs)) == Plus(ToAxial(at), VectorOf(dirs))
  {
    WalkTranslates(at, dirs);
  }

  // ----- whole offset tables -----

  predicate NoDuplicates(s: seq<Hex>) { forall i, j :: 0 <= i < j < |s| ==> s[i] != s[j] }

  lemma NoDuplicatesAppend(s: seq<Hex>, t: seq<Hex>)
    requires NoDuplicates(s) && NoDuplicates(t) && forall h :: h in t ==> h !in s
    ensures NoDuplicates(s + t)
  {
    var u := s + t;
    forall i, j | 0 <= i < j < |u|
      ensures u[i] != u[j]
    {
      if i < |s| && |s| <= j { assert u[j] == t[j - |s|] && u[i] in s; }
    }
  }

  /** The vectors of the offsets are the king's vectors from index `lo` on. */
  ghost predicate KingSlice(offsets: seq<Offset>, lo: nat) {
    && lo + |offsets| <= 12 && AreMoveSteps(offsets)
    && forall i :: 0 <= i < |offsets| ==> VectorOf(offsets[i]) == KingVector(lo + i)
  }

  /** Membership and order of the first n rays: the m-th hex listed is on one of the lines. */
  lemma {:induction false} TravelMembers(b: Board, from: Hex, offsets: seq<Offset>, n: nat, t: Hex)
    requires InBounds(from) && InArray(from) && AreMoveSteps(offsets) && n <= |offsets|
    ensures t in TravelTo(b, from, offsets, n) <==>
              exists i :: 0 <= i < n && OnLine(b, Get(b, from), from, VectorOf(offsets[i]), t)
  {
    hide IsMoveStep, VectorOf, Ray, Reaches;
    if n > 0 {
      TravelMembers(b, from, offsets, n - 1, t);
      var base := Get(b, from);
      var v := VectorOf(offsets[n - 1]);
      var ray := Ray(b, base, from, offsets[n - 1]);
      if t in ray {
        var i :| 0 <= i < |ray| && ray[i] == t;
        RaySound(b, base, from, offsets[n - 1], i);
        assert OnLine(b, base, from, v, t);
      }
      if OnLine(b, base, from, v, t) {
        var k :| Reaches(b, base, from, v, k, t);
        assert k >= 1 by { assert Reaches(b, base, from, v, k, t); ReachesFar(b, base, from, v, k, t); }
        RayComplete(b, base, from, offsets[n - 1], k, t);
      }
    }
  }

  lemma ReachesFar(b: Board, base: Piece, from: Hex, v: Axial, k: int, t: Hex)
    requires Reaches(b, base, from, v, k, t)
    ensures k >= 1
  {
  }

  lemma AlongInjective(a: Axial, v: Axial, j: int, k: int)
    requires v != Axial(0, 0) && Along(a, v, j) == Along(a, v, k)
    ensures j == k
  {
    if v.q != 0 { assert (j - k) * v.q == 0; } else { assert (j - k) * v.r == 0; }
  }

  lemma LinesMeetOnce(b: Board, base: Piece, from: Hex, i: nat, j: nat, k: int, m: int, t: Hex)
    requires i < 12 && j < 12
    requires Reaches(b, base, from, KingVector(i), k, t) && Reaches(b, base, from, KingVector(j), m, t)
    ensures i == j && k == m
  {
    KingRaysDisjoint(ToAxial(from), i, j, k, m);
  }

  lemma RayHasNoDuplicates(b: Board, base: Piece, from: Hex, dirs: Offset)
    requires InBounds(from) && IsMoveStep(dirs)
    ensures NoDuplicates(Ray(b, base, from, dirs))
  {
    hide Ray, VectorOf, OneSided;
    var ray, v := Ray(b, base, from, dirs), VectorOf(dirs);
    forall i, j | 0 <= i < j < |ray|
      ensures ray[i] != ray[j]
    {
      RaySound(b, base, from, dirs, i);
      RaySound(b, base, from, dirs, j);
      if ray[i] == ray[j] { AlongInjective(ToAxial(from), v, i + 1, j + 1); }
    }
  }

  lemma {:induction false} TravelNoDuplicates(b: Board, from: Hex, offsets: seq<Offset>, lo: nat, n: nat)
    requires InBounds(from) && InArray(from) && KingSlice(offsets, lo) && n <= |offsets|
    ensures NoDuplicates(TravelTo(b, from, offsets, n))
  {
    hide IsMoveStep, VectorOf, Ray, Reaches, KingVector;
    if n > 0 {
      TravelNoDuplicates(b, from, offsets, lo, n - 1);
      var base := Get(b, from);
      var ray := Ray(b, base, from, offsets[n - 1]);
      RayHasNoDuplicates(b, base, from, offsets[n - 1]);
      forall t | t in ray
        ensures t !in TravelTo(b, from, offsets, n - 1)
      {
        TravelMembers(b, from, offsets, n - 1, t);
        var x :| 0 <= x < |ray| && ray[x] == t;
        RaySound(b, base, from, offsets[n - 1], x);
        if i :| 0 <= i < n - 1 && OnLine(b, base, from, VectorOf(offsets[i]), t) {
          var k :| Reaches(b, base, from, VectorOf(offsets[i]), k, t);
          LinesMeetOnce(b, base, from, lo + n - 1, lo + i, x + 1, k, t);
        }
      }
      NoDuplicatesAppend(TravelTo(b, from, offsets, n - 1), ray);
    }
  }

  lemma TablesAreSlices()
    ensures KingSlice(RookOffsets(), 0) && KingSlice(BishopOffsets(), 6) && KingSlice(KingOffsets(), 0)
    ensures |RookOffsets()| == |BishopOffsets()| == 6 && |KingOffsets()| == 12
  {
    hide IsMoveStep, VectorOf;
    OffsetTablesStep();
    forall i | 0 <= i < 12
      ensures VectorOf(KingOffsets()[i]) == KingVector(i)
      ensures i < 6 ==> VectorOf(RookOffsets()[i]) == KingVector(i) && VectorOf(BishopOffsets()[i]) == KingVector(6 + i)
    {
      OffsetTableEntries(i);
      KingTable(i);
      if i < 6 { KingTable(i + 6); }
    }
  }

  /** Which of the twelve lines a sliding piece follows: rooks the first six, bishops the
      last six, queens all. */
  predicate Follows(p: Piece, i: int) {
    if p == WHITE_ROOK || p == BLACK_ROOK then 0 <= i < 6
    else if p == WHITE_BISHOP || p == BLACK_BISHOP then 6 <= i < 12
    else 0 <= i < 12
  }

  /** A rook, bishop or queen is listed exactly the hexes it reaches along its lines, each once. */
  lemma SlidingMovesExact(b: Board, from: Hex, p: Piece)
    requires p in {WHITE_ROOK, BLACK_ROOK, WHITE_BISHOP, BLACK_BISHOP, WHITE_QUEEN, BLACK_QUEEN}
    requires InBounds(from) && InArray(from) && AreMoveSteps(Slides(p))
    ensures NoDuplicates(Travel(b, from, Slides(p)))
    ensures forall t :: t in Travel(b, from, Slides(p)) <==>
              exists i :: Follows(p, i) && 0 <= i < 12 && OnLine(b, Get(b, from), from, KingVector(i), t)
  {
    hide VectorOf, IsMoveStep, OnLine, KingVector, TravelTo, RookOffsets, BishopOffsets, KingOffsets;
    TablesAreSlices();
    var lo := if p == WHITE_BISHOP || p == BLACK_BISHOP then 6 else 0;
    var offsets := Slides(p);
    TravelNoDuplicates(b, from, offsets, lo, |offsets|);
    forall t
      ensures t in Travel(b, from, Slides(p)) <==>
                exists i :: Follows(p, i) && 0 <= i < 12 && OnLine(b, Get(b, from), from, KingVector(i), t)
    {
      TravelMembers(b, from, offsets, |offsets|, t);
      if i :| Follows(p, i) && 0 <= i < 12 && OnLine(b, Get(b, from), from, KingVector(i), t) {
        assert 0 <= i - lo < |offsets| && VectorOf(offsets[i - lo]) == KingVector(i);
      }
    }
  }

  // ----- knights and kings -----

  /** t is the hex one vector away, may be entered, and is not barred. */
  ghost predicate StepsOnto(b: Board, base: Piece, from: Hex, v: Axial, barred: set<Hex>, t: Hex) {
    InBounds(t) && ToAxial(t) == Plus(ToAxial(from), v) && Enterable(b, base, t) && t !in barred
  }

  lemma StepOntoExact(b: Board, from: Hex, dirs: Offset, barred: set<Hex>, t: Hex)
    requires InBounds(from) && InArray(from) && IsMoveStep(dirs)
    ensures StepsOnto(b, Get(b, from), from, VectorOf(dirs), barred, t)
            <==> t == Walked(from, dirs) && CanStep(b, Get(b, from), t, barred)
  {
    hide IsMoveStep, VectorOf, Walked, Plus, ToAxial, FromAxial;
    StepIsTranslation(from, dirs);
    if InBounds(t) { AxialInverse(t); }
    if InBounds(Walked(from, dirs)) { AxialInverse(Walked(from, dirs)); }
  }

  lemma {:induction false} StepsMembers(b: Board, from: Hex, offsets: seq<Offset>, barred: set<Hex>, n: nat, t: Hex)
    requires InBounds(from) && InArray(from) && AreMoveSteps(offsets) && n <= |offsets|
    ensures t in StepsTo(b, from, offsets, barred, n) <==>
              exists i :: 0 <= i < n && StepsOnto(b, Get(b, from), from, VectorOf(offsets[i]), barred, t)
  {
    hide IsMoveStep, VectorOf, Walked, CanStep, StepsOnto;
    if n > 0 {
      StepsMembers(b, from, offsets, barred, n - 1, t);
      StepOntoExact(b, from, offsets[n - 1], barred, t);
    }
  }

  ghost predicate DistinctVectors(offsets: seq<Offset>) {
    forall i, j :: 0 <= i < j < |offsets| ==> VectorOf(offsets[i]) != VectorOf(offsets[j])
  }

  lemma DifferentEnds(b: Board, base: Piece, from: Hex, v: Axial, w: Axial, barred: set<Hex>, t: Hex)
    requires StepsOnto(b, base, from, v, barred, t) && StepsOnto(b, base, from, w, barred, t)
    ensures v == w
  {
  }

  lemma {:induction false} StepsNoDuplicates(b: Board, from: Hex, offsets: seq<Offset>, barred: set<Hex>, n: nat)
    requires InBounds(from) && InArray(from) && AreMoveSteps(offsets) && DistinctVectors(offsets) && n <= |offsets|
    ensures NoDuplicates(StepsTo(b, from, offsets, barred, n))
  {
    hide IsMoveStep, VectorOf, Walked, CanStep, StepsOnto;
    if n > 0 {
      StepsNoDuplicates(b, from, offsets, barred, n - 1);
      var t := Walked(from, offsets[n - 1]);
      if CanStep(b, Get(b, from), t, barred) {
        StepsMembers(b, from, offsets, barred, n - 1, t);
        StepOntoExact(b, from, offsets[n - 1], barred, t);
        if i :| 0 <= i < n - 1 && StepsOnto(b, Get(b, from), from, VectorOf(offsets[i]), barred, t) {
          DifferentEnds(b, Get(b, from), from, VectorOf(offsets[i]), VectorOf(offsets[n - 1]), barred, t);
          assert false;
        }
      }
    }
  }

  lemma VectorsDiffer(i: nat, j: nat)
    requires i < j < 12
    ensures KingVector(i) != KingVector(j) && KnightVector(i) != KnightVector(j)
  {
  }

  /** A knight is listed exactly the enterable ends of its twelve vectors; a king those of its
      own that are not barred; each once. */
  lemma StepMovesExact(b: Board, from: Hex, barred: set<Hex>)
    requires InBounds(from) && InArray(from)
    ensures NoDuplicates(Steps(b, from, KnightOffsets(), barred)) && NoDuplicates(Steps(b, from, KingOffsets(), barred))
    ensures forall t :: t in Steps(b, from, KnightOffsets(), barred) <==>
              exists i :: 0 <= i < 12 && StepsOnto(b, Get(b, from), from, KnightVector(i), barred, t)
    ensures forall t :: t in Steps(b, from, KingOffsets(), barred) <==>
              exists i :: 0 <= i < 12 && StepsOnto(b, Get(b, from), from, KingVector(i), barred, t)
  {
    hide VectorOf, IsMoveStep, StepsOnto, KingVector, KnightVector, StepsTo, KingOffsets, KnightOffsets;
    OffsetTablesStep();
    forall i | 0 <= i < 12
      ensures VectorOf(KingOffsets()[i]) == KingVector(i) && VectorOf(KnightOffsets()[i]) == KnightVector(i)
    {
      OffsetTableEntries(i);
      KingTable(i);
      KnightTable(i);
    }
    StepsAreDistinct(b, from, barred);
    var base := Get(b, from);
    forall t
      ensures t in Steps(b, from, KnightOffsets(), barred) <==>
                exists i :: 0 <= i < 12 && StepsOnto(b, base, from, KnightVector(i), barred, t)
      ensures t in Steps(b, from, KingOffsets(), barred) <==>
                exists i :: 0 <= i < 12 && StepsOnto(b, base, from, KingVector(i), barred, t)
    {
      StepsMembers(b, from, KnightOffsets(), barred, 12, t);
      StepsMembers(b, from, KingOffsets(), barred, 12, t);
    }
  }

  lemma StepsAreDistinct(b: Board, from: Hex, barred: set<Hex>)
    requires InBounds(from) && InArray(from)
    ensures NoDuplicates(Steps(b, from, KnightOffsets(), barred)) && NoDuplicates(Steps(b, from, KingOffsets(), barred))
  {
    hide VectorOf, IsMoveStep, KingVector, KnightVector, StepsTo, KingOffsets, KnightOffsets, NoDuplicates;
    OffsetTablesStep();
    forall i, j | 0 <= i < j < 12
      ensures VectorOf(KingOffsets()[i]) != VectorOf(KingOffsets()[j])
      ensures VectorOf(KnightOffsets()[i]) != VectorOf(KnightOffsets()[j])
    {
      OffsetVectors(i);
      OffsetVectors(j);
      VectorsDiffer(i, j);
    }
    StepsNoDuplicates(b, from, KnightOffsets(), barred, |KnightOffsets()|);
    StepsNoDuplicates(b, from, KingOffsets(), barred, |KingOffsets()|);
  }

  lemma OffsetVectors(i: nat)
    requires i < 12
    ensures |KingOffsets()| == |KnightOffsets()| == 12
    ensures VectorOf(KingOffsets()[i]) == KingVector(i) && VectorOf(KnightOffsets()[i]) == KnightVector(i)
  {
    hide VectorOf;
    OffsetTableEntries(i);
    KingTable(i);
    KnightTable(i);
  }

  // ----- pawns -----

  /** The hex of the board v away from h, if t is that. */
  predicate IsAt(from: Hex, v: Axial, t: Hex) { InBounds(t) && InArray(t) && ToAxial(t) == Plus(ToAxial(from), v) }

  /** The two vectors along which a pawn of the colour takes. */
  predicate IsCaptureVector(white: bool, v: Axial) {
    if white then v == Axial(-1, 1) || v == Axial(1, 0) else v == Axial(-1, 0) || v == Axial(1, -1)
  }

  /** A piece of the other colour stands on t, along a capture vector of the pawn's colour. */
  ghost predicate Captures(b: Board, from: Hex, white: bool, t: Hex)
    requires InArray(from)
  {
    exists v :: IsCaptureVector(white, v) && IsAt(from, v, t) && Get(b, t) != EMPTY && OppositeColor(Get(b, t), Get(b, from))
  }

  function AheadVector(white: bool, steps: int): Axial { if white then Axial(0, steps) else Axial(0, -steps) }

  function Distance(file: int): int { if file < 5 then 5 - file else file - 5 }

  /** A white pawn stands where it may start from up to the rank that falls off towards the
      edges, a black one from the eighth rank up. */
  predicate IsUnmoved(h: Hex, white: bool) { if white then h.rank <= 4 - Distance(h.file) else h.rank >= 7 }

  /** t is the free hex one ahead, or the free hex two ahead of an unmoved pawn. */
  ghost predicate Advances(b: Board, from: Hex, white: bool, t: Hex)
    requires InArray(from)
  {
    && InArray(t) && Get(b, t) == EMPTY
    && (IsAt(from, AheadVector(white, 1), t)
        || (IsAt(from, AheadVector(white, 2), t) && IsUnmoved(from, IsWhite(Get(b, from)))))
  }

  lemma WalkedOnce(h: Hex, dirs: Offset)
    requires |dirs| == 1
    ensures Walked(h, dirs) == Step(h, dirs[0])
  {
    hide Step;
    var rest := dirs[1..];
    assert rest == [] && Walked(Step(h, dirs[0]), rest) == Step(h, dirs[0]);
  }

  lemma WalkedTwice(h: Hex, dirs: Offset)
    requires |dirs| == 2
    ensures Walked(h, dirs) == Step(Step(h, dirs[0]), dirs[1])
  {
    hide Step;
    WalkedOnce(Step(h, dirs[0]), dirs[1..]);
  }

  /** The hex one step on is the one the direction's vector away. */
  lemma StepIsAt(h: Hex, d: Direction, dirs: Offset, v: Axial, t: Hex)
    requires InBounds(h) && dirs == [d] && v == Vector(d)
    ensures InBounds(t) && t == Step(h, d) <==> IsAt(h, v, t)
  {
    hide VectorOf, Step, Plus, ToAxial, FromAxial, Walked;
    WalkedOnce(h, dirs);
    VectorOfShort(dirs);
    WalkTranslates(h, dirs);
    if InBounds(t) { AxialInverse(t); }
    if InBounds(Step(h, d)) { AxialInverse(Step(h, d)); }
  }

  lemma TwoStepsAreAt(h: Hex, d: Direction, dirs: Offset, v: Axial, t: Hex)
    requires InBounds(h) && (d == Up || d == Down) && dirs == [d, d] && v == Axial(2 * Vector(d).q, 2 * Vector(d).r)
    ensures InBounds(t) && t == Step(Step(h, d), d) <==> IsAt(h, v, t)
  {
    hide VectorOf, Step, Plus, ToAxial, FromAxial, Walked;
    WalkedTwice(h, dirs);
    VectorOfShort(dirs);
    WalkTranslates(h, dirs);
    if InBounds(t) { AxialInverse(t); }
    var end := Step(Step(h, d), d);
    if InBounds(end) { AxialInverse(end); }
  }

  /** A pawn of either colour takes exactly along its two capture vectors. */
  lemma PawnTakesExact(b: Board, from: Hex, white: bool, t: Hex)
    requires InBounds(from) && InArray(from)
    ensures t in PawnTakes(b, from, white) <==> Captures(b, from, white, t)
  {
    hide Step, Plus, ToAxial, InBounds, InArray;
    var left, right := TakeLeft(white), TakeRight(white);
    var v, w := Vector(left), Vector(right);
    StepIsAt(from, left, [left], v, t);
    StepIsAt(from, right, [right], w, t);
    CaptureVectors(white);
    if InBounds(t) { InBoundsInArray(t); }
    assert t in PawnTakes(b, from, white) <==> (IsAt(from, v, t) || IsAt(from, w, t)) && CanTake(b, Get(b, from), t);
  }

  lemma CaptureVectors(white: bool)
    ensures forall v :: IsCaptureVector(white, v) <==> v == Vector(TakeLeft(white)) || v == Vector(TakeRight(white))
  {
  }

  /** And it advances exactly onto the free hexes ahead. */
  lemma PawnAdvancesExact(b: Board, from: Hex, white: bool, t: Hex)
    requires InBounds(from) && InArray(from)
    ensures t in PawnAdvances(b, from, white) <==> Advances(b, from, white, t)
  {
    hide Step, Plus, ToAxial, InBounds, InArray, HasPawnMoved, IsUnmoved;
    var d := Ahead(white);
    StepIsAt(from, d, [d], AheadVector(white, 1), t);
    TwoStepsAreAt(from, d, [d, d], AheadVector(white, 2), t);
    MovedExactly(from, IsWhite(Get(b, from)));
    if InBounds(t) { InBoundsInArray(t); }
  }

  /** The table of starting ranks in closed form. */
  lemma MovedExactly(h: Hex, white: bool)
    requires InBounds(h)
    ensures HasPawnMoved(h, white) <==> !IsUnmoved(h, white)
  {
  }

  /** No hex is listed twice for a pawn. */
  lemma PawnMovesDiffer(b: Board, from: Hex, white: bool)
    requires InBounds(from) && InArray(from)
    ensures NoDuplicates(PawnAdvances(b, from, white) + PawnTakes(b, from, white))
  {
    hide Plus, ToAxial, InBounds, InArray, HasPawnMoved;
    var one, left, right := Step(from, Ahead(white)), Step(from, TakeLeft(white)), Step(from, TakeRight(white));
    assert one != Step(one, Ahead(white));
    assert left != right;
  }
}
