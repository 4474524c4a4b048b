/** The wire form of three messages: a file of the board (packed varints), the board (nested
    length-delimited records) and a recorded move (eight optional fields). Written backwards
    into a sized buffer, read forwards (Protocol Buffers Encoding specification, sections
    "Length-Delimited Records" and "Packed Repeated Fields"). */
module Codec {
  import opened Wrappers
  import opened HexGrid
  import opened Varint

  type Int64 = x: int | -TWO_63 <= x < TWO_63

  datatype BoardFile = BoardFile(pieces: seq<Uint32>)

  datatype PbBoard = PbBoard(isWhiteTurn: bool, file: seq<BoardFile>)

  datatype PbHistMove = PbHistMove(
    piece: Uint32, fromFile: Uint32, fromRank: Uint32, toFile: Uint32, toRank: Uint32,
    notation: seq<Byte>, whiteTimerMs: Int64, blackTimerMs: Int64)

  function ToUint64(x: Int64): nat { if x < 0 then x + TWO_64 else x }

  function ToInt64(n: nat): Int64
    requires n < TWO_64
  {
    if n >= TWO_63 then n - TWO_64 else n
  }

  // ----- what is written -----

  function EncodeAll(ns: seq<Uint32>): seq<Byte> {
    if ns == [] then [] else Encode(ns[0]) + EncodeAll(ns[1..])
  }

  /** A length-delimited record: tag, length, contents. */
  function Record(tag: Byte, contents: seq<Byte>): seq<Byte> { [tag] + (Encode(|contents|) + contents) }

  function EncodeFile(m: BoardFile): seq<Byte> {
    if m.pieces == [] then [] else Record(0x0a, EncodeAll(m.pieces))
  }

  function EncodeFiles(files: seq<BoardFile>): seq<Byte> {
    if files == [] then [] else Record(0x12, EncodeFile(files[0])) + EncodeFiles(files[1..])
  }

  function EncodeBoard(m: PbBoard): seq<Byte> {
    (if m.isWhiteTurn then [0x08, 1] else []) + EncodeFiles(m.file)
  }

  /** An optional varint field: absent when zero. */
  function VarintField(tag: Byte, n: nat): seq<Byte> { if n == 0 then [] else [tag] + Encode(n) }

  function EncodeHistMove(m: PbHistMove): seq<Byte> {
    VarintField(0x08, m.piece) + (VarintField(0x10, m.fromFile) + (VarintField(0x18, m.fromRank)
    + (VarintField(0x20, m.toFile) + (VarintField(0x28, m.toRank)
    + ((if m.notation == [] then [] else Record(0x32, m.notation))
    + (VarintField(0x38, ToUint64(m.whiteTimerMs)) + VarintField(0x40, ToUint64(m.blackTimerMs))))))))
  }

  // ----- what is read -----

  datatype Tag = Tag(field: int, wire: nat, next: nat)

  function ReadTag(data: seq<Byte>, i: nat): (r: Result<Tag, WireError>)
    ensures r.Success? ==> i < r.value.next <= |data|
  {
    var w :- ReadVarint(data, i, TWO_64);
    var number := w.value / 8 % TWO_32;
    var field := if number >= TWO_32 / 2 then number - TWO_32 else number;
    if w.value % 8 == 4 then Failure(EndGroup)
    else if field <= 0 then Failure(IllegalTag)
    else Success(Tag(field, w.value % 8, w.next))
  }

  datatype Span = Span(start: nat, end: nat)

  /** A length and the stretch of the data it delimits, checked in 64-bit signed arithmetic. */
  function ReadSpan(data: seq<Byte>, i: nat): (r: Result<Span, WireError>)
    ensures r.Success? ==> i < r.value.start <= r.value.end <= |data|
  {
    var n :- ReadVarint(data, i, TWO_64);
    var len := ToInt64(n.value);
    if len < 0 then Failure(InvalidLength)
    else
      var post := ToInt64((n.next + len) % TWO_64);
      if post < 0 then Failure(InvalidLength)
      else if n.next + len > |data| then Failure(UnexpectedEOF)
      else Success(Span(n.next, n.next + len))
  }

  /** The packed elements from i to the end of their stretch. */
  function ParsePacked(data: seq<Byte>, i: nat, end: nat, read: seq<Uint32>): (r: Result<(seq<Uint32>, nat), WireError>)
    ensures r.Success? ==> r.value.1 >= i
    decreases if end > i then end - i else 0
  {
    if i >= end then Success((read, i))
    else
      var v :- ReadVarint(data, i, TWO_32);
      ParsePacked(data, v.next, end, read + [v.value])
  }

  function ParseFile(data: seq<Byte>, i: nat, m: BoardFile): Result<BoardFile, WireError>
    decreases |data| - i
  {
    if i >= |data| then Success(m)
    else
      var tag :- ReadTag(data, i);
      if tag.field != 1 then Failure(UnknownField)
      else if tag.wire == 0 then
        var v :- ReadVarint(data, tag.next, TWO_32);
        ParseFile(data, v.next, BoardFile(m.pieces + [v.value]))
      else if tag.wire == 2 then
        var span :- ReadSpan(data, tag.next);
        var packed :- ParsePacked(data, span.start, span.end, m.pieces);
        ParseFile(data, packed.1, BoardFile(packed.0))
      else Failure(WrongWireType)
  }

  function ParseBoard(data: seq<Byte>, i: nat, m: PbBoard): Result<PbBoard, WireError>
    decreases |data| - i
  {
    if i >= |data| then Success(m)
    else
      var tag :- ReadTag(data, i);
      if tag.field == 1 then
        if tag.wire != 0 then Failure(WrongWireType)
        else
          var v :- ReadVarint(data, tag.next, TWO_64);
          ParseBoard(data, v.next, m.(isWhiteTurn := v.value != 0))
      else if tag.field == 2 then
        if tag.wire != 2 then Failure(WrongWireType)
        else
          var span :- ReadSpan(data, tag.next);
          var file :- ParseFile(data[span.start..span.end], 0, BoardFile([]));
          ParseBoard(data, span.end, m.(file := m.file + [file]))
      else Failure(UnknownField)
  }

  /** The numbered varint fields of a recorded move. */
  predicate IsVarintField(field: int) { 1 <= field <= 5 || field == 7 || field == 8 }

  function Width(field: int): nat { if field <= 5 then TWO_32 else TWO_64 }

  function SetVarint(m: PbHistMove, field: int, v: nat): PbHistMove
    requires IsVarintField(field) && v < Width(field)
  {
    match field
    case 1 => m.(piece := v)
    case 2 => m.(fromFile := v)
    case 3 => m.(fromRank := v)
    case 4 => m.(toFile := v)
    case 5 => m.(toRank := v)
    case 7 => m.(whiteTimerMs := ToInt64(v))
    case 8 => m.(blackTimerMs := ToInt64(v))
  }

  function ParseHistMove(data: seq<Byte>, i: nat, m: PbHistMove): Result<PbHistMove, WireError>
    decreases |data| - i
  {
    if i >= |data| then Success(m)
    else
      var tag :- ReadTag(data, i);
      if IsVarintField(tag.field) then
        if tag.wire != 0 then Failure(WrongWireType)
        else
          var v :- ReadVarint(data, tag.next, Width(tag.field));
          ParseHistMove(data, v.next, SetVarint(m, tag.field, v.value))
      else if tag.field == 6 then
        if tag.wire != 2 then Failure(WrongWireType)
        else
          var span :- ReadSpan(data, tag.next);
          ParseHistMove(data, span.end, m.(notation := data[span.start..span.end]))
      else Failure(UnknownField)
  }

  // ----- what is written is read back -----

  lemma AtSplit(data: seq<Byte>, i: nat, a: seq<Byte>, b: seq<Byte>)
    requires At(data, i, a + b)
    ensures At(data, i, a) && At(data, i + |a|, b)
  {
    var s := data[i..i + |a + b|];
    assert s[..|a|] == a && s[|a|..] == b;
    assert data[i..i + |a|] == s[..|a|];
    assert data[i + |a|..i + |a| + |b|] == s[|a|..];
  }

  /** A one-byte tag. */
  lemma ReadsTag(data: seq<Byte>, i: nat, tag: Byte)
    requires At(data, i, [tag]) && 8 <= tag < 128 && tag % 8 != 4
    ensures ReadTag(data, i) == Success(Tag(tag / 8, tag % 8, i + 1))
  {
    hide Encode, ReadVarint, At;
    EncodeStep(tag);
    ReadsVarint(data, i, TWO_64, tag);
  }

  lemma ReadsSpan(data: seq<Byte>, i: nat, len: nat)
    requires At(data, i, Encode(len)) && i + |Encode(len)| + len <= |data| < TWO_63
    ensures ReadSpan(data, i) == Success(Span(i + |Encode(len)|, i + |Encode(len)| + len))
  {
    hide Encode, ReadVarint;
    ReadsVarint(data, i, TWO_64, len);
  }

  lemma ReadsRecord(data: seq<Byte>, i: nat, tag: Byte, contents: seq<Byte>)
    requires 8 <= tag < 128 && tag % 8 == 2 && At(data, i, Record(tag, contents)) && |data| < TWO_63
    ensures var start := i + 1 + |Encode(|contents|)|;
            && ReadTag(data, i) == Success(Tag(tag / 8, 2, i + 1))
            && ReadSpan(data, i + 1) == Success(Span(start, start + |contents|))
            && At(data, start, contents) && i + |Record(tag, contents)| == start + |contents|
  {
    hide ReadVarint, Encode, ReadTag, ReadSpan;
    AtSplit(data, i, [tag], Encode(|contents|) + contents);
    AtSplit(data, i + 1, Encode(|contents|), contents);
    ReadsTag(data, i, tag);
    ReadsSpan(data, i + 1, |contents|);
  }

  lemma {:induction false} ReadsPacked(data: seq<Byte>, i: nat, ns: seq<Uint32>, read: seq<Uint32>)
    requires At(data, i, EncodeAll(ns))
    ensures ParsePacked(data, i, i + |EncodeAll(ns)|, read) == Success((read + ns, i + |EncodeAll(ns)|))
    decreases |ns|
  {
    hide ReadVarint, Encode;
    if ns == [] {
      assert read + ns == read;
    } else {
      AtSplit(data, i, Encode(ns[0]), EncodeAll(ns[1..]));
      ReadsVarint(data, i, TWO_32, ns[0]);
      ReadsPacked(data, i + |Encode(ns[0])|, ns[1..], read + [ns[0]]);
      assert read + [ns[0]] + ns[1..] == read + ns;
    }
  }

  /** A board file is read back from its bytes. */
  lemma FileRoundTrip(m: BoardFile)
    requires |EncodeFile(m)| < TWO_63
    ensures ParseFile(EncodeFile(m), 0, BoardFile([])) == Success(m)
  {
    hide ReadVarint, Encode, ReadTag, ReadSpan, ParsePacked;
    var data := EncodeFile(m);
    if m.pieces != [] {
      var packed := EncodeAll(m.pieces);
      assert data[0..0 + |data|] == data;
      ReadsRecord(data, 0, 0x0a, packed);
      var start := 1 + |Encode(|packed|)|;
      ReadsPacked(data, start, m.pieces, []);
      assert [] + m.pieces == m.pieces;
    }
  }

  lemma {:induction false} ReadsFiles(data: seq<Byte>, i: nat, files: seq<BoardFile>, m: PbBoard)
    requires At(data, i, EncodeFiles(files)) && i + |EncodeFiles(files)| == |data| < TWO_63
    ensures ParseBoard(data, i, m) == Success(m.(file := m.file + files))
    decreases |files|
  {
    hide ReadVarint, Encode, ReadTag, ReadSpan, ParseFile, Record, EncodeFile;
    if files == [] {
      assert m.file + files == m.file;
    } else {
      var contents := EncodeFile(files[0]);
      var record := Record(0x12, contents);
      AtSplit(data, i, record, EncodeFiles(files[1..]));
      ReadsRecord(data, i, 0x12, contents);
      FileRoundTrip(files[0]);
      ReadsFiles(data, i + |record|, files[1..], m.(file := m.file + [files[0]]));
      assert m.file + [files[0]] + files[1..] == m.file + files;
    }
  }

  /** The board message is read back from its bytes. */
  lemma BoardRoundTrip(m: PbBoard)
    requires |EncodeBoard(m)| < TWO_63
    ensures ParseBoard(EncodeBoard(m), 0, PbBoard(false, [])) == Success(m)
  {
    hide ReadVarint, ReadTag, EncodeFiles;
    var data := EncodeBoard(m);
    var empty := PbBoard(false, []);
    assert data[0..0 + |data|] == data;
    assert [] + m.file == m.file;
    if m.isWhiteTurn {
      AtSplit(data, 0, [0x08, 1], EncodeFiles(m.file));
      assert [0x08, 1] == [0x08] + [1];
      AtSplit(data, 0, [0x08], [1]);
      ReadsTag(data, 0, 0x08);
      assert Encode(1) == [1];
      ReadsVarint(data, 1, TWO_64, 1);
      ReadsFiles(data, 2, m.file, empty.(isWhiteTurn := true));
    } else {
      assert data == EncodeFiles(m.file);
      ReadsFiles(data, 0, m.file, empty);
    }
  }

  lemma ReadsVarintField(data: seq<Byte>, i: nat, tag: Byte, n: nat, m: PbHistMove)
    requires 8 <= tag < 128 && tag % 8 == 0 && IsVarintField(tag / 8) && n < Width(tag / 8)
    requires At(data, i, VarintField(tag, n))
    ensures ParseHistMove(data, i, m)
         == ParseHistMove(data, i + |VarintField(tag, n)|, if n == 0 then m else SetVarint(m, tag / 8, n))
  {
    hide ReadVarint, Encode, ReadTag, SetVarint;
    if n != 0 {
      AtSplit(data, i, [tag], Encode(n));
      ReadsTag(data, i, tag);
      ReadsVarint(data, i + 1, Width(tag / 8), n);
    }
  }

  lemma ReadsNotation(data: seq<Byte>, i: nat, notation: seq<Byte>, m: PbHistMove)
    requires |data| < TWO_63 && m.notation == []
    requires At(data, i, if notation == [] then [] else Record(0x32, notation))
    ensures ParseHistMove(data, i, m)
         == ParseHistMove(data, i + |if notation == [] then [] else Record(0x32, notation)|, m.(notation := notation))
  {
    hide ReadVarint, Encode, ReadTag, ReadSpan, Record;
    if notation != [] {
      ReadsRecord(data, i, 0x32, notation);
      assert data[i + 1 + |Encode(|notation|)|..i + 1 + |Encode(|notation|)| + |notation|] == notation;
    }
  }

  const EMPTY_HIST_MOVE: PbHistMove := PbHistMove(0, 0, 0, 0, 0, [], 0, 0)

  function NotationField(m: PbHistMove): seq<Byte> {
    if m.notation == [] then [] else Record(0x32, m.notation)
  }

  predicate Ends(data: seq<Byte>, rest: seq<Byte>) { |rest| <= |data| && data[|data| - |rest|..] == rest }

  /** What is parsed from where the given rest of the data begins. */
  function ParseRest(data: seq<Byte>, rest: seq<Byte>, m: PbHistMove): Result<PbHistMove, WireError>
    requires |rest| <= |data|
  {
    ParseHistMove(data, |data| - |rest|, m)
  }

  lemma FieldStep(data: seq<Byte>, tag: Byte, n: nat, rest: seq<Byte>, m: PbHistMove, next: PbHistMove)
    requires 8 <= tag < 128 && tag % 8 == 0 && IsVarintField(tag / 8) && n < Width(tag / 8)
    requires Ends(data, VarintField(tag, n) + rest)
    requires next == if n == 0 then m else SetVarint(m, tag / 8, n)
    ensures Ends(data, rest)
    ensures ParseRest(data, VarintField(tag, n) + rest, m) == ParseRest(data, rest, next)
  {
    hide VarintField, ParseHistMove, SetVarint;
    var i := |data| - |VarintField(tag, n) + rest|;
    assert data[i..i + |VarintField(tag, n) + rest|] == data[i..];
    AtSplit(data, i, VarintField(tag, n), rest);
    ReadsVarintField(data, i, tag, n, m);
    assert data[|data| - |rest|..|data| - |rest| + |rest|] == data[|data| - |rest|..];
  }

  lemma NotationStep(data: seq<Byte>, rest: seq<Byte>, m: PbHistMove, next: PbHistMove)
    requires |data| < TWO_63 && m.notation == [] && next == m.(notation := next.notation)
    requires Ends(data, NotationField(next) + rest)
    ensures Ends(data, rest)
    ensures ParseRest(data, NotationField(next) + rest, m) == ParseRest(data, rest, next)
  {
    hide ParseHistMove, Record;
    var i := |data| - |NotationField(next) + rest|;
    assert data[i..i + |NotationField(next) + rest|] == data[i..];
    AtSplit(data, i, NotationField(next), rest);
    ReadsNotation(data, i, next.notation, m);
    assert data[|data| - |rest|..|data| - |rest| + |rest|] == data[|data| - |rest|..];
  }

  /** A recorded move is read back from its bytes. */
  lemma HistMoveRoundTrip(m: PbHistMove)
    requires |EncodeHistMove(m)| < TWO_63
    ensures ParseHistMove(EncodeHistMove(m), 0, EMPTY_HIST_MOVE) == Success(m)
  {
    hide VarintField, ParseHistMove, NotationField, Ends;
    var data := EncodeHistMove(m);
    var white, black := ToUint64(m.whiteTimerMs), ToUint64(m.blackTimerMs);
    var s8 := VarintField(0x40, black) + [];
    var s7 := VarintField(0x38, white) + s8;
    var s6 := NotationField(m) + s7;
    var s5 := VarintField(0x28, m.toRank) + s6;
    var s4 := VarintField(0x20, m.toFile) + s5;
    var s3 := VarintField(0x18, m.fromRank) + s4;
    var s2 := VarintField(0x10, m.fromFile) + s3;
    var s1 := VarintField(0x08, m.piece) + s2;
    assert data == s1 by { assert s8 == VarintField(0x40, black); NotationIs(m); }
    var m0 := EMPTY_HIST_MOVE;
    var m1 := m0.(piece := m.piece);
    var m2 := m1.(fromFile := m.fromFile);
    var m3 := m2.(fromRank := m.fromRank);
    var m4 := m3.(toFile := m.toFile);
    var m5 := m4.(toRank := m.toRank);
    var m6 := m5.(notation := m.notation);
    var m7 := m6.(whiteTimerMs := m.whiteTimerMs);
    assert Ends(data, s1) by { EndsWithItself(data); }
    NotationOf(m, m6);
    FieldStep(data, 0x08, m.piece, s2, m0, m1);
    FieldStep(data, 0x10, m.fromFile, s3, m1, m2);
    FieldStep(data, 0x18, m.fromRank, s4, m2, m3);
    FieldStep(data, 0x20, m.toFile, s5, m3, m4);
    FieldStep(data, 0x28, m.toRank, s6, m4, m5);
    NotationStep(data, s7, m5, m6);
    FieldStep(data, 0x38, white, s8, m6, m7);
    FieldStep(data, 0x40, black, [], m7, m);
    AtEnd(data, m);
  }

  lemma NotationIs(m: PbHistMove)
    ensures NotationField(m) == if m.notation == [] then [] else Record(0x32, m.notation)
  {
  }

  lemma NotationOf(m: PbHistMove, n: PbHistMove)
    requires m.notation == n.notation
    ensures NotationField(m) == NotationField(n)
  {
  }

  lemma EndsWithItself(data: seq<Byte>)
    ensures Ends(data, data)
  {
  }

  lemma AtEnd(data: seq<Byte>, m: PbHistMove)
    ensures ParseHistMove(data, |data|, m) == Success(m)
  {
  }
}
