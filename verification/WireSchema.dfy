/** The three messages by their schema: fields by number, in order, a tag of eight times the
    number plus the wire type before each (Protocol Buffers Encoding specification, section
    "Message Structure"). */
module WireSchema {
  import opened Varint
  import opened Wrappers
  import opened Codec
  import opened Division
  import opened GameStates
  import opened ChessBoard
  import opened HexGrid
  import opened Serde

  /** A field of a message: a number or some bytes, which are left out when zero or empty, or a
      record of a repeated field, which never is. */
  datatype Field =
    | Number(number: nat, value: nat)
    | Bytes(number: nat, contents: seq<Byte>)
    | Element(number: nat, contents: seq<Byte>)

  function FieldBytes(f: Field): seq<Byte> {
    match f
    case Number(k, v) => if v == 0 then [] else Encode(8 * k) + Encode(v)
    case Bytes(k, c) => if c == [] then [] else Encode(8 * k + 2) + (Encode(|c|) + c)
    case Element(k, c) => Encode(8 * k + 2) + (Encode(|c|) + c)
  }

  function OnWire(fields: seq<Field>): seq<Byte>
    decreases |fields|
  {
    if fields == [] then [] else FieldBytes(fields[0]) + OnWire(fields[1..])
  }

  /** A 64-bit signed value is sent as the unsigned one with the same bits. */
  function Unsigned(x: Int64): nat { if x < 0 then x + 0x1_0000_0000_0000_0000 else x }

  function FileFields(m: BoardFile): seq<Field> { [Bytes(1, EncodeAll(m.pieces))] }

  function FileElements(files: seq<BoardFile>): (fields: seq<Field>)
    ensures |fields| == |files|
  {
    seq(|files|, i requires 0 <= i < |files| => Element(2, EncodeFile(files[i])))
  }

  function BoardFields(m: PbBoard): seq<Field> {
    [Number(1, if m.isWhiteTurn then 1 else 0)] + FileElements(m.file)
  }

  function HistMoveFields(m: PbHistMove): seq<Field> {
    [Number(1, m.piece), Number(2, m.fromFile), Number(3, m.fromRank), Number(4, m.toFile), Number(5, m.toRank),
     Bytes(6, m.notation), Number(7, Unsigned(m.whiteTimerMs)), Number(8, Unsigned(m.blackTimerMs))]
  }

  /** The number that a varint stands for: groups of seven bits, the lowest first. */
  function GroupsValue(s: seq<Byte>): nat
    decreases |s|
  {
    if s == [] then 0 else s[0] % 128 + 128 * GroupsValue(s[1..])
  }

  predicate AreGroups(s: seq<Byte>, n: nat) {
    && s != [] && GroupsValue(s) == n
    && (forall i :: 0 <= i < |s| - 1 ==> s[i] >= 128) && s[|s| - 1] < 128
  }

  lemma FirstGroup(s: seq<Byte>, low: Byte, rest: seq<Byte>, n: nat)
    requires AreGroups(rest, n) && low >= 128 && s == [low] + rest
    ensures AreGroups(s, low - 128 + 128 * n)
  {
    assert s[1..] == rest;
  }

  lemma LastGroup(s: seq<Byte>, n: nat)
    requires n < 128 && s == [n]
    ensures AreGroups(s, n)
  {
    assert s[1..] == [];
  }

  /** A number is sent as its groups of seven bits, lowest first; every byte but the last has
      its highest bit set. */
  lemma {:induction false} EncodeIsGroups(n: nat)
    ensures AreGroups(Encode(n), n)
  {
    hide AreGroups;
    if n >= 128 {
      EncodeIsGroups(n / 128);
      FirstGroup(Encode(n), n % 128 + 128, Encode(n / 128), n / 128);
    } else {
      LastGroup(Encode(n), n);
    }
  }

  /** The varint that begins at i has its last byte at e: the first without the highest bit. */
  predicate EndsAt(data: seq<Byte>, i: nat, e: int) {
    i <= e < |data| && data[e] < 128 && forall j :: i <= j < e ==> data[j] >= 128
  }

  /** The next n bytes from i on, as far as there are any, all ask for another one. */
  predicate GoesOn(data: seq<Byte>, i: nat, n: nat) { forall j :: i <= j < i + n && j < |data| ==> data[j] >= 128 }

  lemma GroupsStep(data: seq<Byte>, i: nat, next: nat)
    requires i < next <= |data|
    ensures GroupsValue(data[i..next]) == data[i] % 128 + 128 * GroupsValue(data[i + 1..next])
  {
    assert data[i..next][1..] == data[i + 1..next];
  }

  lemma SumsJoin(v: nat, b: nat, rest: nat, scale: nat, modulus: nat)
    requires modulus > 0
    ensures ((v + b * scale) % modulus + rest * (128 * scale)) % modulus == (v + (b + 128 * rest) * scale) % modulus
  {
    AddMod(v + b * scale, rest * (128 * scale), modulus);
    assert (b + 128 * rest) * scale == b * scale + rest * (128 * scale);
  }

  /** What reading from the k-th group on comes to. */
  ghost predicate ReadsFrom(data: seq<Byte>, i: nat, k: nat, v: nat, modulus: nat, r: Result<Read, WireError>)
    requires modulus > 0 && k <= 10
  {
    match r
    case Success(read) =>
      && i < read.next <= i + (10 - k) && EndsAt(data, i, read.next - 1)
      && read.value == (v + GroupsValue(data[i..read.next]) * Pow128(k)) % modulus
    case Failure(e) =>
      && GoesOn(data, i, 10 - k)
      && e == if i + (10 - k) <= |data| || k == 10 then IntOverflow else UnexpectedEOF
  }

  lemma {:induction false} ReadsFromGroup(data: seq<Byte>, i: nat, k: nat, v: nat, modulus: nat)
    requires modulus > 0 && k <= 10
    ensures ReadsFrom(data, i, k, v, modulus, ReadFrom(data, i, k, v, modulus))
    decreases 10 - k
  {
    hide GroupsValue;
    if k < 10 && i < |data| {
      var b, r := data[i], ReadFrom(data, i, k, v, modulus);
      if b < 128 {
        GroupsStep(data, i, i + 1);
        NoGroups(data[i + 1..i + 1]);
      } else {
        ReadsFromGroup(data, i + 1, k + 1, (v + (b % 128) * Pow128(k)) % modulus, modulus);
        if r.Success? {
          GroupsStep(data, i, r.value.next);
          SumsJoin(v, b % 128, GroupsValue(data[i + 1..r.value.next]), Pow128(k), modulus);
        }
      }
    }
  }

  lemma NoGroups(s: seq<Byte>)
    requires s == []
    ensures GroupsValue(s) == 0
  {
  }

  /** Reading a varint comes exactly to this: the value of its groups within the width, if it has
      at most ten bytes; an overflow if ten bytes all ask for another one; the end of the data
      if it comes first. */
  lemma ReadIsExact(data: seq<Byte>, i: nat, modulus: nat)
    requires modulus > 0
    ensures match ReadVarint(data, i, modulus)
            case Success(read) =>
              && i < read.next <= i + 10 && EndsAt(data, i, read.next - 1)
              && read.value == GroupsValue(data[i..read.next]) % modulus
            case Failure(e) => GoesOn(data, i, 10) && e == if i + 10 <= |data| then IntOverflow else UnexpectedEOF
  {
    ReadsFromGroup(data, i, 0, 0, modulus);
  }

  lemma OneByte(n: nat)
    requires n < 128
    ensures Encode(n) == [n]
  {
  }

  lemma FieldFirst(f: Field, rest: seq<Field>)
    ensures OnWire([f] + rest) == FieldBytes(f) + OnWire(rest)
  {
    hide FieldBytes;
    assert ([f] + rest)[1..] == rest;
  }

  lemma NumberBytes(k: nat, v: nat)
    requires 8 * k < 128
    ensures FieldBytes(Number(k, v)) == VarintField(8 * k, v)
  {
    hide Encode;
    OneByte(8 * k);
  }

  lemma ElementBytes(k: nat, c: seq<Byte>)
    requires 8 * k + 2 < 128
    ensures FieldBytes(Element(k, c)) == Record(8 * k + 2, c)
    ensures FieldBytes(Bytes(k, c)) == if c == [] then [] else Record(8 * k + 2, c)
  {
    hide Encode;
    OneByte(8 * k + 2);
  }

  lemma NoFields(fields: seq<Field>)
    requires fields == []
    ensures OnWire(fields) == []
  {
  }

  lemma NothingEncoded(ns: seq<int>)
    requires forall i :: 0 <= i < |ns| ==> 0 <= ns[i] < TWO_32
    ensures EncodeAll(ns) == [] <==> ns == []
  {
    if ns != [] { assert |Encode(ns[0])| >= 1; }
  }

  /** A file of the board: its pieces packed in field 1. */
  lemma FileOnWire(m: BoardFile)
    ensures EncodeFile(m) == OnWire(FileFields(m))
  {
    hide OnWire, FieldBytes, Encode, EncodeAll, Record;
    NothingEncoded(m.pieces);
    ElementBytes(1, EncodeAll(m.pieces));
    FieldFirst(Bytes(1, EncodeAll(m.pieces)), []);
    NoFields([]);
    assert FileFields(m) == [Bytes(1, EncodeAll(m.pieces))] + [];
  }

  lemma {:induction false} FilesOnWire(files: seq<BoardFile>)
    ensures EncodeFiles(files) == OnWire(FileElements(files))
    decreases |files|
  {
    hide OnWire, FieldBytes, Encode, EncodeFile, Record;
    if files == [] {
      NoFields(FileElements(files));
    } else {
      FilesOnWire(files[1..]);
      assert FileElements(files) == [Element(2, EncodeFile(files[0]))] + FileElements(files[1..]);
      FieldFirst(Element(2, EncodeFile(files[0])), FileElements(files[1..]));
      ElementBytes(2, EncodeFile(files[0]));
    }
  }

  lemma TurnField(turn: nat)
    requires turn <= 1
    ensures VarintField(0x08, turn) == if turn == 1 then [0x08, 1] else []
  {
    hide Encode;
    if turn == 1 {
      OneByte(turn);
      assert [0x08] + [turn] == [0x08, 1];
    }
  }

  /** The board: the side to move in field 1, the files one after the other in field 2. */
  lemma BoardOnWire(m: PbBoard)
    ensures EncodeBoard(m) == OnWire(BoardFields(m))
  {
    hide OnWire, FieldBytes, Encode, EncodeFiles, Record, VarintField, FileElements;
    var turn := if m.isWhiteTurn then 1 else 0;
    FilesOnWire(m.file);
    NumberBytes(1, turn);
    OneByte(1);
    FieldFirst(Number(1, turn), FileElements(m.file));
    TurnField(turn);
  }

  lemma NextField(fields: seq<Field>, i: nat)
    requires i < |fields|
    ensures OnWire(fields[i..]) == FieldBytes(fields[i]) + OnWire(fields[i + 1..])
  {
    hide FieldBytes;
    assert fields[i..][1..] == fields[i + 1..];
  }

  /** A recorded move: piece, hexes, notation and clocks in fields 1 to 8. */
  lemma HistMoveOnWire(m: PbHistMove)
    ensures EncodeHistMove(m) == OnWire(HistMoveFields(m))
  {
    hide OnWire, FieldBytes, Encode, Record, VarintField;
    var fs := HistMoveFields(m);
    NextField(fs, 0);
    NextField(fs, 1);
    NextField(fs, 2);
    NextField(fs, 3);
    NextField(fs, 4);
    NextField(fs, 5);
    NextField(fs, 6);
    NextField(fs, 7);
    NoFields(fs[8..]);
    NumberBytes(1, m.piece);
    NumberBytes(2, m.fromFile);
    NumberBytes(3, m.fromRank);
    NumberBytes(4, m.toFile);
    NumberBytes(5, m.toRank);
    ElementBytes(6, m.notation);
    NumberBytes(7, Unsigned(m.whiteTimerMs));
    NumberBytes(8, Unsigned(m.blackTimerMs));
    assert fs[0..] == fs;
  }

  /** A recorded move on the wire: its piece, where it went from and to, and nothing else. */
  lemma StoredMoveOnWire(hm: HistMove)
    ensures EncodeHistMove(HistMoveMessage(hm))
         == OnWire([Number(1, hm.piece), Number(2, hm.from.file), Number(3, hm.from.rank),
                    Number(4, hm.to.file), Number(5, hm.to.rank), Bytes(6, []), Number(7, 0), Number(8, 0)])
  {
    hide OnWire, EncodeHistMove;
    HistMoveOnWire(HistMoveMessage(hm));
  }
}
