/** Base 128 varints (Protocol Buffers Encoding specification, section "Base 128 Varints"):
    the encoding, the writer that fills a buffer just before an offset, and the reader. */
module Varint {
  import opened Division
  import opened Wrappers

  type Byte = x: int | 0 <= x < 256

  const TWO_32: int := 0x1_0000_0000
  const TWO_63: int := 0x8000_0000_0000_0000
  const TWO_64: int := 0x1_0000_0000_0000_0000

  datatype WireError =
    | IntOverflow | UnexpectedEOF | InvalidLength
    | EndGroup | IllegalTag | WrongWireType | UnknownField

  function Encode(n: nat): (s: seq<Byte>)
    ensures |s| >= 1
  {
    if n < 128 then [n] else [n % 128 + 128] + Encode(n / 128)
  }

  function SizeOfVarint(n: nat): nat { |Encode(n)| }

  /** `after` is `before` with `part` written so that it ends at `end`. */
  predicate Wrote(before: seq<Byte>, after: seq<Byte>, end: nat, part: seq<Byte>) {
    |part| <= end <= |before| && after == before[..end - |part|] + part + before[end..]
  }

  lemma WroteNothing(s: seq<Byte>, end: nat)
    requires end <= |s|
    ensures Wrote(s, s, end, [])
  {
  }

  /** What is written just before what was written joins it. */
  lemma WroteJoins(s0: seq<Byte>, s1: seq<Byte>, s2: seq<Byte>, end: nat, part: seq<Byte>, before: seq<Byte>)
    requires Wrote(s0, s1, end, part) && Wrote(s1, s2, end - |part|, before)
    ensures Wrote(s0, s2, end, before + part)
  {
    var mid := end - |part|;
    assert s1[mid..] == part + s0[end..];
    assert s1[..mid - |before|] == s0[..mid - |before|];
  }

  /** What is written just after what was written joins it. */
  lemma WroteExtends(s0: seq<Byte>, s1: seq<Byte>, s2: seq<Byte>, end: nat, part: seq<Byte>, after: seq<Byte>)
    requires Wrote(s0, s1, end, part) && Wrote(s1, s2, end + |after|, after)
    ensures Wrote(s0, s2, end + |after|, part + after)
  {
    var last := end + |after|;
    assert s1[..end] == s0[..end - |part|] + part;
    assert s1[last..] == s0[last..];
  }

  /** Writes a varint so that it ends just before `offset`; returns where it starts. */
  method EncodeVarint(buffer: array<Byte>, offset: nat, v: nat) returns (base: nat)
    requires SizeOfVarint(v) <= offset <= buffer.Length
    modifies buffer
    ensures base == offset - SizeOfVarint(v)
    ensures Wrote(old(buffer[..]), buffer[..], offset, Encode(v))
  {
    base := offset - SizeOfVarint(v);
    var end := PutVarint(buffer, base, v);
  }

  /** The seven-bit groups of a number written from `start` on. */
  method PutVarint(buffer: array<Byte>, start: nat, v: nat) returns (end: nat)
    requires start + SizeOfVarint(v) <= buffer.Length
    modifies buffer
    ensures end == start + SizeOfVarint(v)
    ensures Wrote(old(buffer[..]), buffer[..], end, Encode(v))
  {
    hide Wrote, Encode;
    var n := v;
    end := start;
    ghost var done: seq<Byte> := [];
    WroteNothing(buffer[..], start);
    while n >= 128
      invariant end == start + |done| && done + Encode(n) == Encode(v)
      invariant Wrote(old(buffer[..]), buffer[..], end, done)
      decreases n
    {
      EncodeStep(n);
      end := PutByte(buffer, end, n % 128 + 128, old(buffer[..]), done);
      done := done + [n % 128 + 128];
      n := n / 128;
    }
    EncodeStep(n);
    end := PutByte(buffer, end, n, old(buffer[..]), done);
  }

  lemma EncodeStep(n: nat)
    ensures n >= 128 ==> Encode(n) == [n % 128 + 128] + Encode(n / 128)
    ensures n < 128 ==> Encode(n) == [n]
  {
  }

  lemma WroteBound(before: seq<Byte>, after: seq<Byte>, end: nat, part: seq<Byte>)
    requires Wrote(before, after, end, part)
    ensures |part| <= end <= |before| && |after| == |before|
  {
  }

  lemma OneByteWrote(before: seq<Byte>, i: nat, b: Byte)
    requires i < |before|
    ensures Wrote(before, before[i := b], i + 1, [b])
  {
  }

  /** One byte more, just after what has been written. */
  method PutByte(buffer: array<Byte>, i: nat, b: Byte, ghost before: seq<Byte>, ghost done: seq<Byte>) returns (next: nat)
    requires i < buffer.Length && Wrote(before, buffer[..], i, done)
    modifies buffer
    ensures next == i + 1 && Wrote(before, buffer[..], i + 1, done + [b])
  {
    hide Wrote;
    ghost var s1 := buffer[..];
    buffer[i] := b;
    assert buffer[..] == s1[i := b];
    OneByteWrote(s1, i, b);
    WroteBound(before, s1, i, done);
    WroteExtends(before, s1, buffer[..], i, done, [b]);
    next := i + 1;
  }

  function Pow128(k: nat): (p: nat)
    ensures p >= 1
  {
    if k == 0 then 1 else 128 * Pow128(k - 1)
  }

  datatype Read = Read(value: nat, next: nat)

  /** The reader from its k-th group on: `v` is what the groups before it add up to, modulo
      the width the result is kept in. */
  function ReadFrom(data: seq<Byte>, i: nat, k: nat, v: nat, modulus: nat): (r: Result<Read, WireError>)
    requires modulus > 0
    ensures r.Success? ==> i < r.value.next <= |data| && r.value.value < modulus
    decreases |data| - i
  {
    if 7 * k >= 64 then Failure(IntOverflow)
    else if i >= |data| then Failure(UnexpectedEOF)
    else
      var b := data[i];
      var sum := (v + (b % 128) * Pow128(k)) % modulus;
      if b < 128 then Success(Read(sum, i + 1))
      else ReadFrom(data, i + 1, k + 1, sum, modulus)
  }

  function ReadVarint(data: seq<Byte>, i: nat, modulus: nat): (r: Result<Read, WireError>)
    requires modulus > 0
    ensures r.Success? ==> i < r.value.next <= |data| && r.value.value < modulus
  {
    ReadFrom(data, i, 0, 0, modulus)
  }

  /** The reading loop: one seven-bit group per turn, refused from bit 64 on. */
  method ScanVarint(data: seq<Byte>, start: nat, modulus: nat) returns (r: Result<Read, WireError>)
    requires modulus > 0
    ensures r == ReadVarint(data, start, modulus)
  {
    var i: nat, k: nat, v: nat, scale: nat := start, 0, 0, 1;
    while true
      invariant scale == Pow128(k)
      invariant ReadFrom(data, i, k, v, modulus) == ReadVarint(data, start, modulus)
      decreases |data| - i
    {
      if 7 * k >= 64 {
        return Failure(IntOverflow);
      }
      if i >= |data| {
        return Failure(UnexpectedEOF);
      }
      var b := data[i];
      i := i + 1;
      v := (v + (b % 128) * scale) % modulus;
      if b < 128 {
        return Success(Read(v, i));
      }
      k, scale := k + 1, 128 * scale;
    }
  }

  /** The bytes of `part` stand in `data` from index i on. */
  predicate At(data: seq<Byte>, i: nat, part: seq<Byte>) {
    i + |part| <= |data| && data[i..i + |part|] == part
  }

  lemma Pow128Nine(k: nat)
    requires Pow128(k) < TWO_64
    ensures k <= 9
  {
    if k > 9 {
      Pow128Grows(10, k);
      Pow128Values();
    }
  }

  lemma {:induction false} Pow128Grows(j: nat, k: nat)
    requires j <= k
    ensures Pow128(j) <= Pow128(k)
  {
    if j < k { Pow128Grows(j, k - 1); }
  }

  lemma Pow128Values()
    ensures Pow128(10) >= TWO_64
  {
    assert Pow128(2) == 0x4000;
    assert Pow128(4) == 0x4000 * 0x4000;
    assert Pow128(6) == 0x4000 * 0x4000 * 0x4000;
    assert Pow128(8) == 0x4000 * 0x4000 * 0x4000 * 0x4000;
  }

  /** A number below 2^64 is read back from its encoding, whatever stands around it, reduced
      to the width of the field. */
  lemma {:induction false} ReadsEncoded(data: seq<Byte>, i: nat, k: nat, v: nat, modulus: nat, n: nat)
    requires modulus > 0 && At(data, i, Encode(n))
    requires n * Pow128(k) < TWO_64 && (k == 0 || n > 0)
    ensures ReadFrom(data, i, k, v % modulus, modulus)
         == Success(Read((v + n * Pow128(k)) % modulus, i + |Encode(n)|))
    decreases n
  {
    hide Pow128, Encode, At, ReadFrom;
    GroupsInRange(n, k);
    EncodeStep(n);
    if n < 128 {
      assert [n] + [] == [n];
      AtHead(data, i, n, []);
      LowBits(n, n);
      ReadsGroup(data, i, k, v, modulus, n);
    } else {
      var rest, low := n / 128, n % 128;
      SplitGroup(n, k);
      AtHead(data, i, low + 128, Encode(rest));
      LowBits(low + 128, low);
      ReadsGroup(data, i, k, v, modulus, low);
      ReadsEncoded(data, i + 1, k + 1, v + low * Pow128(k), modulus, rest);
    }
  }

  lemma AtHead(data: seq<Byte>, i: nat, b: Byte, rest: seq<Byte>)
    requires At(data, i, [b] + rest)
    ensures i < |data| && data[i] == b && At(data, i + 1, rest)
  {
    var part := [b] + rest;
    assert data[i] == data[i..i + |part|][0];
    assert data[i + 1..i + 1 + |rest|] == data[i..i + |part|][1..];
  }

  lemma LowBits(b: Byte, low: nat)
    requires low < 128 && (b == low || b == low + 128)
    ensures b % 128 == low
  {
  }

  /** One group: the value so far, taken modulo the width, goes on as the sum with the group. */
  lemma ReadsGroup(data: seq<Byte>, i: nat, k: nat, v: nat, modulus: nat, low: nat)
    requires modulus > 0 && i < |data| && 7 * k < 64 && data[i] % 128 == low
    ensures var group := low * Pow128(k);
            ReadFrom(data, i, k, v % modulus, modulus)
            == if data[i] < 128 then Success(Read((v + group) % modulus, i + 1))
               else ReadFrom(data, i + 1, k + 1, (v + group) % modulus, modulus)
  {
    hide Pow128;
    AddMod(v, low * Pow128(k), modulus);
  }

  lemma GroupsInRange(n: nat, k: nat)
    requires n * Pow128(k) < TWO_64 && (k == 0 || n > 0)
    ensures k <= 9
  {
    if k > 0 {
      MulGrows(n, Pow128(k));
      Pow128Nine(k);
    }
  }

  lemma SplitGroup(n: nat, k: nat)
    requires n >= 128
    ensures n * Pow128(k) == n % 128 * Pow128(k) + n / 128 * Pow128(k + 1)
    ensures n / 128 > 0 && n / 128 * Pow128(k + 1) <= n * Pow128(k)
  {
    var p, rest, low := Pow128(k), n / 128, n % 128;
    assert n == low + 128 * rest;
    assert n * p == (low + 128 * rest) * p == low * p + rest * (128 * p);
    assert low * p >= 0;
  }

  lemma ReadsVarint(data: seq<Byte>, i: nat, modulus: nat, n: nat)
    requires 0 < modulus && n < TWO_64 && At(data, i, Encode(n))
    ensures ReadVarint(data, i, modulus) == Success(Read(n % modulus, i + |Encode(n)|))
  {
    ReadsEncoded(data, i, 0, 0, modulus, n);
  }
}
