/** The codec as it runs: sizes summed up field by field, bytes written backwards into a
    buffer of that size, and the parse loops that assign the fields of a message. */
module Marshal {
  import opened Wrappers
  import opened HexGrid
  import opened Varint
  import opened Codec

  // ----- sizes -----

  lemma EncodeAllSnoc(ns: seq<Uint32>, i: nat)
    requires i < |ns|
    ensures EncodeAll(ns[..i + 1]) == EncodeAll(ns[..i]) + Encode(ns[i])
    decreases i
  {
    if i == 0 {
      assert ns[..1][1..] == [] && ns[..0] == [];
    } else {
      EncodeAllSnoc(ns[1..], i - 1);
      assert ns[..i + 1][1..] == ns[1..][..i] && ns[..i][1..] == ns[1..][..i - 1];
    }
  }

  method PackedSize(pieces: seq<Uint32>) returns (l: nat)
    ensures l == |EncodeAll(pieces)|
  {
    l := 0;
    for i := 0 to |pieces|
      invariant l == |EncodeAll(pieces[..i])|
    {
      EncodeAllSnoc(pieces, i);
      l := l + SizeOfVarint(pieces[i]);
    }
    assert pieces[..|pieces|] == pieces;
  }

  method SizeFile(m: BoardFile) returns (n: nat)
    ensures n == |EncodeFile(m)|
  {
    n := 0;
    if |m.pieces| > 0 {
      var l := PackedSize(m.pieces);
      n := n + 1 + SizeOfVarint(l) + l;
    }
  }

  lemma EncodeFilesSnoc(files: seq<BoardFile>, i: nat)
    requires i < |files|
    ensures EncodeFiles(files[..i + 1]) == EncodeFiles(files[..i]) + Record(0x12, EncodeFile(files[i]))
    decreases i
  {
    hide Record, EncodeFile;
    if i == 0 {
      assert files[..1][1..] == [] && files[..0] == [];
    } else {
      EncodeFilesSnoc(files[1..], i - 1);
      assert files[..i + 1][1..] == files[1..][..i] && files[..i][1..] == files[1..][..i - 1];
    }
  }

  method SizeBoard(m: PbBoard) returns (n: nat)
    ensures n == |EncodeBoard(m)|
  {
    n := 0;
    if m.isWhiteTurn {
      n := n + 2;
    }
    for i := 0 to |m.file|
      invariant n == (if m.isWhiteTurn then 2 else 0) + |EncodeFiles(m.file[..i])|
    {
      EncodeFilesSnoc(m.file, i);
      var l := SizeFile(m.file[i]);
      n := n + 1 + l + SizeOfVarint(l);
    }
    assert m.file[..|m.file|] == m.file;
  }

  /** The size of an optional varint field. */
  function SizeOfField(n: nat): nat { if n == 0 then 0 else 1 + SizeOfVarint(n) }

  lemma FieldSize(tag: Byte, n: nat)
    ensures |VarintField(tag, n)| == SizeOfField(n)
  {
    hide Encode;
  }

  lemma FieldSizes(m: PbHistMove)
    ensures |VarintField(0x08, m.piece)| == SizeOfField(m.piece)
    ensures |VarintField(0x10, m.fromFile)| == SizeOfField(m.fromFile)
    ensures |VarintField(0x18, m.fromRank)| == SizeOfField(m.fromRank)
    ensures |VarintField(0x20, m.toFile)| == SizeOfField(m.toFile)
    ensures |VarintField(0x28, m.toRank)| == SizeOfField(m.toRank)
    ensures |VarintField(0x38, ToUint64(m.whiteTimerMs))| == SizeOfField(ToUint64(m.whiteTimerMs))
    ensures |VarintField(0x40, ToUint64(m.blackTimerMs))| == SizeOfField(ToUint64(m.blackTimerMs))
    ensures |Record(0x32, m.notation)| == 1 + |m.notation| + SizeOfVarint(|m.notation|)
  {
    hide Encode, VarintField, SizeOfField, ToUint64;
    FieldSize(0x08, m.piece);
    FieldSize(0x10, m.fromFile);
    FieldSize(0x18, m.fromRank);
    FieldSize(0x20, m.toFile);
    FieldSize(0x28, m.toRank);
    FieldSize(0x38, ToUint64(m.whiteTimerMs));
    FieldSize(0x40, ToUint64(m.blackTimerMs));
  }

  method SizeHistMove(m: PbHistMove) returns (n: nat)
    ensures n == |EncodeHistMove(m)|
  {
    hide Encode, VarintField, SizeOfField, SizeOfVarint, ToUint64;
    FieldSizes(m);
    n := SizeOfField(m.piece) + SizeOfField(m.fromFile) + SizeOfField(m.fromRank)
         + SizeOfField(m.toFile) + SizeOfField(m.toRank);
    var l := |m.notation|;
    if l > 0 {
      n := n + 1 + l + SizeOfVarint(l);
    }
    n := n + SizeOfField(ToUint64(m.whiteTimerMs)) + SizeOfField(ToUint64(m.blackTimerMs));
  }

  // ----- writing backwards -----

  /** Writes one byte just before i. */
  method PutTag(buffer: array<Byte>, i: nat, b: Byte) returns (base: nat)
    requires 0 < i <= buffer.Length
    modifies buffer
    ensures base == i - 1 && Wrote(old(buffer[..]), buffer[..], i, [b])
  {
    base := i - 1;
    buffer[base] := b;
  }

  /** Writes a number and its tag just before `end`. */
  method PutTagged(buffer: array<Byte>, end: nat, n: nat, tag: Byte) returns (base: nat)
    requires 1 + SizeOfVarint(n) <= end <= buffer.Length
    modifies buffer
    ensures base == end - 1 - SizeOfVarint(n) && Wrote(old(buffer[..]), buffer[..], end, [tag] + Encode(n))
  {
    hide Encode, Wrote;
    base := EncodeVarint(buffer, end, n);
    ghost var s1 := buffer[..];
    base := PutTag(buffer, base, tag);
    WroteJoins(old(buffer[..]), s1, buffer[..], end, Encode(n), [tag]);
  }

  lemma EncodeAllSplit(ns: seq<Uint32>, i: nat)
    requires i <= |ns|
    ensures |EncodeAll(ns[..i])| <= |EncodeAll(ns)|
    decreases |ns| - i
  {
    if i == |ns| {
      assert ns[..i] == ns;
    } else {
      EncodeAllSnoc(ns, i);
      EncodeAllSplit(ns, i + 1);
    }
  }

  /** The packed elements, written forwards into the room kept for them. */
  method PutPacked(buffer: array<Byte>, start: nat, pieces: seq<Uint32>)
    requires start + |EncodeAll(pieces)| <= buffer.Length
    modifies buffer
    ensures Wrote(old(buffer[..]), buffer[..], start + |EncodeAll(pieces)|, EncodeAll(pieces))
  {
    hide Encode, EncodeAll, Wrote;
    var j := start;
    NothingEncoded(pieces[..0]);
    WroteNothing(buffer[..], start);
    for k := 0 to |pieces|
      invariant j == start + |EncodeAll(pieces[..k])|
      invariant Wrote(old(buffer[..]), buffer[..], j, EncodeAll(pieces[..k]))
    {
      EncodeAllSnoc(pieces, k);
      EncodeAllSplit(pieces, k + 1);
      ghost var s1 := buffer[..];
      var end := PutVarint(buffer, j, pieces[k]);
      WroteExtends(old(buffer[..]), s1, buffer[..], j, EncodeAll(pieces[..k]), Encode(pieces[k]));
      j := end;
    }
    assert pieces[..|pieces|] == pieces;
  }

  lemma NothingEncoded(ns: seq<Uint32>)
    requires ns == []
    ensures EncodeAll(ns) == []
  {
  }

  /** A record in front of what follows it, and how long it is. */
  lemma RecordIs(tag: Byte, contents: seq<Byte>, tail: seq<Byte>)
    ensures [tag] + Encode(|contents|) + (contents + tail) == Record(tag, contents) + tail
    ensures |Record(tag, contents)| == 1 + SizeOfVarint(|contents|) + |contents|
  {
    hide Encode;
  }

  lemma FileIsRecord(m: BoardFile)
    ensures m.pieces != [] ==> EncodeFile(m) == Record(0x0a, EncodeAll(m.pieces))
    ensures m.pieces == [] ==> EncodeFile(m) == []
  {
  }

  /** Writes a board file backwards from `end`. */
  method MarshalFile(m: BoardFile, buffer: array<Byte>, end: nat) returns (size: nat)
    requires |EncodeFile(m)| <= end <= buffer.Length
    modifies buffer
    ensures size == |EncodeFile(m)| && Wrote(old(buffer[..]), buffer[..], end, EncodeFile(m))
  {
    hide Encode, EncodeAll, EncodeFile, Record, Wrote;
    var i := end;
    FileIsRecord(m);
    if |m.pieces| > 0 {
      RecordIs(0x0a, EncodeAll(m.pieces), []);
      assert EncodeAll(m.pieces) + [] == EncodeAll(m.pieces);
      assert Record(0x0a, EncodeAll(m.pieces)) + [] == Record(0x0a, EncodeAll(m.pieces));
      var pksize := PackedSize(m.pieces);
      i := i - pksize;
      PutPacked(buffer, i, m.pieces);
      ghost var s1 := buffer[..];
      i := PutTagged(buffer, i, pksize, 0x0a);
      WroteJoins(old(buffer[..]), s1, buffer[..], end, EncodeAll(m.pieces), [0x0a] + Encode(pksize));
    } else {
      WroteNothing(buffer[..], end);
    }
    size := end - i;
  }

  lemma EncodeFilesSplit(files: seq<BoardFile>, i: nat)
    requires i < |files|
    ensures EncodeFiles(files[i..]) == Record(0x12, EncodeFile(files[i])) + EncodeFiles(files[i + 1..])
  {
    assert files[i..][1..] == files[i + 1..];
  }

  lemma EncodeFilesSuffix(files: seq<BoardFile>, i: nat)
    requires i <= |files|
    ensures |EncodeFiles(files[i..])| <= |EncodeFiles(files)|
  {
    hide Record, EncodeFile;
    if i == 0 {
      assert files[0..] == files;
    } else {
      EncodeFilesSplit(files, i - 1);
      EncodeFilesSuffix(files, i - 1);
    }
  }

  /** Writes one board file, its length and its tag. */
  method PutFile(buffer: array<Byte>, end: nat, m: BoardFile,
                 ghost before: seq<Byte>, ghost last: nat, ghost tail: seq<Byte>) returns (base: nat)
    requires end <= buffer.Length && last == end + |tail| && Wrote(before, buffer[..], last, tail)
    requires |Record(0x12, EncodeFile(m))| <= end
    modifies buffer
    ensures base == end - |Record(0x12, EncodeFile(m))|
    ensures Wrote(before, buffer[..], last, Record(0x12, EncodeFile(m)) + tail)
  {
    hide Encode, EncodeFile, Record, Wrote;
    ghost var s1 := buffer[..];
    ghost var contents := EncodeFile(m);
    RecordIs(0x12, contents, tail);
    var n := MarshalFile(m, buffer, end);
    WroteJoins(before, s1, buffer[..], last, tail, contents);
    ghost var s2 := buffer[..];
    base := PutTagged(buffer, end - n, n, 0x12);
    WroteJoins(before, s2, buffer[..], last, contents + tail, [0x12] + Encode(n));
  }

  /** Writes the turn, which is left out when it is black's. */
  method PutTurn(buffer: array<Byte>, end: nat, isWhiteTurn: bool,
                 ghost before: seq<Byte>, ghost last: nat, ghost tail: seq<Byte>) returns (base: nat)
    requires end <= buffer.Length && last == end + |tail| && Wrote(before, buffer[..], last, tail)
    requires |TurnField(isWhiteTurn)| <= end
    modifies buffer
    ensures base == end - |TurnField(isWhiteTurn)|
    ensures Wrote(before, buffer[..], last, TurnField(isWhiteTurn) + tail)
  {
    hide Wrote, TurnField;
    base := end;
    TurnFieldIs(tail);
    if isWhiteTurn {
      ghost var s1 := buffer[..];
      base := PutTag(buffer, base, 1);
      WroteJoins(before, s1, buffer[..], last, tail, [1]);
      ghost var s2 := buffer[..];
      base := PutTag(buffer, base, 0x08);
      WroteJoins(before, s2, buffer[..], last, [1] + tail, [0x08]);
    }
  }

  lemma TurnFieldIs(tail: seq<Byte>)
    ensures TurnField(true) + tail == [0x08] + ([1] + tail) && |TurnField(true)| == 2
    ensures TurnField(false) + tail == tail && |TurnField(false)| == 0
  {
  }

  function TurnField(isWhiteTurn: bool): seq<Byte> { if isWhiteTurn then [0x08, 1] else [] }

  /** Writes the board message backwards from `end`: last file first, the turn last. */
  method MarshalBoard(m: PbBoard, buffer: array<Byte>, end: nat) returns (size: nat)
    requires |EncodeBoard(m)| <= end <= buffer.Length
    modifies buffer
    ensures size == |EncodeBoard(m)| && Wrote(old(buffer[..]), buffer[..], end, EncodeBoard(m))
  {
    hide Record, Wrote, EncodeFiles;
    ghost var s0 := buffer[..];
    var i := end;
    var index := |m.file|;
    NoFiles(m.file[index..]);
    WroteNothing(buffer[..], end);
    while index > 0
      invariant 0 <= index <= |m.file|
      invariant i == end - |EncodeFiles(m.file[index..])|
      invariant Wrote(s0, buffer[..], end, EncodeFiles(m.file[index..]))
    {
      index := index - 1;
      EncodeFilesSplit(m.file, index);
      EncodeFilesSuffix(m.file, index);
      i := PutFile(buffer, i, m.file[index], s0, end, EncodeFiles(m.file[index + 1..]));
    }
    assert m.file[0..] == m.file;
    i := PutTurn(buffer, i, m.isWhiteTurn, s0, end, EncodeFiles(m.file));
    size := end - i;
  }

  lemma NoFiles(files: seq<BoardFile>)
    requires files == []
    ensures EncodeFiles(files) == []
  {
  }

  /** Writes an optional varint field backwards. */
  method PutField(buffer: array<Byte>, end: nat, n: nat, tag: Byte,
                  ghost before: seq<Byte>, ghost last: nat, ghost tail: seq<Byte>) returns (base: nat)
    requires end <= buffer.Length && last == end + |tail| && Wrote(before, buffer[..], last, tail)
    requires |VarintField(tag, n)| <= end
    modifies buffer
    ensures base == end - |VarintField(tag, n)|
    ensures Wrote(before, buffer[..], last, VarintField(tag, n) + tail)
  {
    hide Encode, Wrote;
    base := end;
    if n != 0 {
      ghost var s1 := buffer[..];
      base := PutTagged(buffer, end, n, tag);
      WroteJoins(before, s1, buffer[..], last, tail, [tag] + Encode(n));
    } else {
      assert [] + tail == tail;
    }
  }

  /** Writes a recorded move backwards from `end`: the last field first. */
  method MarshalHistMove(m: PbHistMove, buffer: array<Byte>, end: nat) returns (size: nat)
    requires |EncodeHistMove(m)| <= end <= buffer.Length
    modifies buffer
    ensures size == |EncodeHistMove(m)| && Wrote(old(buffer[..]), buffer[..], end, EncodeHistMove(m))
  {
    hide Encode, Wrote, VarintField, Record;
    ghost var s0 := buffer[..];
    WroteNothing(s0, end);
    var i := PutField(buffer, end, ToUint64(m.blackTimerMs), 0x40, s0, end, []);
    ghost var tail := VarintField(0x40, ToUint64(m.blackTimerMs));
    assert tail + [] == tail;
    i := PutField(buffer, i, ToUint64(m.whiteTimerMs), 0x38, s0, end, tail);
    tail := VarintField(0x38, ToUint64(m.whiteTimerMs)) + tail;
    if |m.notation| > 0 {
      i := PutNotation(buffer, i, m.notation, s0, end, tail);
      tail := Record(0x32, m.notation) + tail;
    }
    ghost var upToNotation := tail;
    assert upToNotation == (if m.notation == [] then [] else Record(0x32, m.notation))
                           + (VarintField(0x38, ToUint64(m.whiteTimerMs)) + VarintField(0x40, ToUint64(m.blackTimerMs)));
    i := PutField(buffer, i, m.toRank, 0x28, s0, end, tail);
    tail := VarintField(0x28, m.toRank) + tail;
    i := PutField(buffer, i, m.toFile, 0x20, s0, end, tail);
    tail := VarintField(0x20, m.toFile) + tail;
    i := PutField(buffer, i, m.fromRank, 0x18, s0, end, tail);
    tail := VarintField(0x18, m.fromRank) + tail;
    i := PutField(buffer, i, m.fromFile, 0x10, s0, end, tail);
    tail := VarintField(0x10, m.fromFile) + tail;
    i := PutField(buffer, i, m.piece, 0x08, s0, end, tail);
    size := end - i;
  }

  /** Copies the notation and writes its length and tag before it. */
  method PutNotation(buffer: array<Byte>, end: nat, notation: seq<Byte>,
                     ghost before: seq<Byte>, ghost last: nat, ghost tail: seq<Byte>) returns (base: nat)
    requires end <= buffer.Length && last == end + |tail| && Wrote(before, buffer[..], last, tail)
    requires |Record(0x32, notation)| <= end
    modifies buffer
    ensures base == end - |Record(0x32, notation)|
    ensures Wrote(before, buffer[..], last, Record(0x32, notation) + tail)
  {
    hide Encode, Record, Wrote;
    RecordIs(0x32, notation, tail);
    ghost var s1 := buffer[..];
    base := CopyBytes(buffer, end, notation);
    WroteJoins(before, s1, buffer[..], last, tail, notation);
    ghost var s2 := buffer[..];
    base := PutTagged(buffer, base, |notation|, 0x32);
    WroteJoins(before, s2, buffer[..], last, notation + tail, [0x32] + Encode(|notation|));
  }

  /** Copies bytes so that they end just before `end`. */
  method CopyBytes(buffer: array<Byte>, end: nat, part: seq<Byte>) returns (base: nat)
    requires |part| <= end <= buffer.Length
    modifies buffer
    ensures base == end - |part| && Wrote(old(buffer[..]), buffer[..], end, part)
  {
    base := end - |part|;
    forall k | 0 <= k < |part| {
      buffer[base + k] := part[k];
    }
    assert buffer[..base] == old(buffer[..])[..base] && buffer[end..] == old(buffer[..])[end..];
    assert buffer[base..end] == part;
  }

  // ----- a buffer of exactly the right size -----

  lemma WroteAll(before: seq<Byte>, after: seq<Byte>, part: seq<Byte>)
    requires Wrote(before, after, |before|, part) && |part| == |before|
    ensures after == part
  {
  }

  /** MarshalVT of a board: size, allocate, write, return the written bytes. */
  method BoardBytes(m: PbBoard) returns (data: array<Byte>)
    ensures fresh(data) && data[..] == EncodeBoard(m)
  {
    var size := SizeBoard(m);
    data := new Byte[size](_ => 0);
    ghost var s0 := data[..];
    var n := MarshalBoard(m, data, size);
    WroteAll(s0, data[..], EncodeBoard(m));
  }

  method HistMoveBytes(m: PbHistMove) returns (data: array<Byte>)
    ensures fresh(data) && data[..] == EncodeHistMove(m)
  {
    var size := SizeHistMove(m);
    data := new Byte[size](_ => 0);
    ghost var s0 := data[..];
    var n := MarshalHistMove(m, data, size);
    WroteAll(s0, data[..], EncodeHistMove(m));
  }

  // ----- the parse loops -----

  method ScanTag(data: seq<Byte>, i: nat) returns (r: Result<Tag, WireError>)
    ensures r == ReadTag(data, i)
  {
    var w := ScanVarint(data, i, TWO_64);
    if w.Failure? {
      return Failure(w.error);
    }
    var number := w.value.value / 8 % TWO_32;
    var field := if number >= TWO_32 / 2 then number - TWO_32 else number;
    if w.value.value % 8 == 4 {
      return Failure(EndGroup);
    }
    if field <= 0 {
      return Failure(IllegalTag);
    }
    r := Success(Tag(field, w.value.value % 8, w.value.next));
  }

  method ScanSpan(data: seq<Byte>, i: nat) returns (r: Result<Span, WireError>)
    ensures r == ReadSpan(data, i)
  {
    var n := ScanVarint(data, i, TWO_64);
    if n.Failure? {
      return Failure(n.error);
    }
    var len := ToInt64(n.value.value);
    if len < 0 {
      return Failure(InvalidLength);
    }
    var postIndex := ToInt64((n.value.next + len) % TWO_64);
    if postIndex < 0 {
      return Failure(InvalidLength);
    }
    if n.value.next + len > |data| {
      return Failure(UnexpectedEOF);
    }
    r := Success(Span(n.value.next, n.value.next + len));
  }

  /** Reads a board file: one element per unpacked field, all of them per packed one. */
  method UnmarshalFile(data: seq<Byte>) returns (r: Result<BoardFile, WireError>)
    ensures r == ParseFile(data, 0, BoardFile([]))
  {
    hide ReadTag, ReadSpan, ReadVarint;
    var m := BoardFile([]);
    var index := 0;
    while index < |data|
      invariant ParseFile(data, index, m) == ParseFile(data, 0, BoardFile([]))
      decreases |data| - index
    {
      var tag := ScanTag(data, index);
      if tag.Failure? {
        return Failure(tag.error);
      }
      if tag.value.field != 1 {
        return Failure(UnknownField);
      }
      if tag.value.wire == 0 {
        var v := ScanVarint(data, tag.value.next, TWO_32);
        if v.Failure? {
          return Failure(v.error);
        }
        m := BoardFile(m.pieces + [v.value.value]);
        index := v.value.next;
      } else if tag.value.wire == 2 {
        var span := ScanSpan(data, tag.value.next);
        if span.Failure? {
          return Failure(span.error);
        }
        ghost var packed := ParsePacked(data, span.value.start, span.value.end, m.pieces);
        var i := span.value.start;
        while i < span.value.end
          invariant i >= span.value.start
          invariant ParsePacked(data, i, span.value.end, m.pieces) == packed
          decreases span.value.end - i
        {
          var v := ScanVarint(data, i, TWO_32);
          if v.Failure? {
            return Failure(v.error);
          }
          m := BoardFile(m.pieces + [v.value.value]);
          i := v.value.next;
        }
        index := i;
      } else {
        return Failure(WrongWireType);
      }
    }
    r := Success(m);
  }

  /** Reads the board message: the turn, and one nested board file per record. */
  method UnmarshalBoard(data: seq<Byte>) returns (r: Result<PbBoard, WireError>)
    ensures r == ParseBoard(data, 0, PbBoard(false, []))
  {
    hide ReadTag, ReadSpan, ReadVarint, ParseFile;
    var m := PbBoard(false, []);
    var index := 0;
    while index < |data|
      invariant ParseBoard(data, index, m) == ParseBoard(data, 0, PbBoard(false, []))
      decreases |data| - index
    {
      var tag := ScanTag(data, index);
      if tag.Failure? {
        return Failure(tag.error);
      }
      if tag.value.field == 1 {
        if tag.value.wire != 0 {
          return Failure(WrongWireType);
        }
        var v := ScanVarint(data, tag.value.next, TWO_64);
        if v.Failure? {
          return Failure(v.error);
        }
        m := m.(isWhiteTurn := v.value.value != 0);
        index := v.value.next;
      } else if tag.value.field == 2 {
        if tag.value.wire != 2 {
          return Failure(WrongWireType);
        }
        var span := ScanSpan(data, tag.value.next);
        if span.Failure? {
          return Failure(span.error);
        }
        var file := UnmarshalFile(data[span.value.start..span.value.end]);
        if file.Failure? {
          return Failure(file.error);
        }
        m := m.(file := m.file + [file.value]);
        index := span.value.end;
      } else {
        return Failure(UnknownField);
      }
    }
    r := Success(m);
  }

  /** Reads a recorded move: eight fields in any order, the last of each kind counting. */
  method UnmarshalHistMove(data: seq<Byte>) returns (r: Result<PbHistMove, WireError>)
    ensures r == ParseHistMove(data, 0, EMPTY_HIST_MOVE)
  {
    hide ReadTag, ReadSpan, ReadVarint;
    var m := EMPTY_HIST_MOVE;
    var index := 0;
    while index < |data|
      invariant ParseHistMove(data, index, m) == ParseHistMove(data, 0, EMPTY_HIST_MOVE)
      decreases |data| - index
    {
      var tag := ScanTag(data, index);
      if tag.Failure? {
        return Failure(tag.error);
      }
      if IsVarintField(tag.value.field) {
        if tag.value.wire != 0 {
          return Failure(WrongWireType);
        }
        var v := ScanVarint(data, tag.value.next, Width(tag.value.field));
        if v.Failure? {
          return Failure(v.error);
        }
        m := SetVarint(m, tag.value.field, v.value.value);
        index := v.value.next;
      } else if tag.value.field == 6 {
        if tag.value.wire != 2 {
          return Failure(WrongWireType);
        }
        var span := ScanSpan(data, tag.value.next);
        if span.Failure? {
          return Failure(span.error);
        }
        m := m.(notation := data[span.value.start..span.value.end]);
        index := span.value.end;
      } else {
        return Failure(UnknownField);
      }
    }
    r := Success(m);
  }

  /** Writing a board and reading it back gives the board. */
  method EchoBoard(m: PbBoard) returns (r: Result<PbBoard, WireError>)
    requires |EncodeBoard(m)| < TWO_63
    ensures r == Success(m)
  {
    var data := BoardBytes(m);
    r := UnmarshalBoard(data[..]);
    BoardRoundTrip(m);
  }

  method EchoHistMove(m: PbHistMove) returns (r: Result<PbHistMove, WireError>)
    requires |EncodeHistMove(m)| < TWO_63
    ensures r == Success(m)
  {
    var data := HistMoveBytes(m);
    r := UnmarshalHistMove(data[..]);
    HistMoveRoundTrip(m);
  }
}
