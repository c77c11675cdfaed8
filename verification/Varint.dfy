// Base 128 varints as pkg/apiclient/rollout/rollout.pb.go writes and reads them.
module Varint {
  import opened Wrappers

  const TWO63: int := 0x8000_0000_0000_0000
  const TWO64: int := 0x1_0000_0000_0000_0000
  const TWO31: int := 0x8000_0000
  const TWO32: int := 0x1_0000_0000

  type Byte = x: int | 0 <= x < 256

  type Uint64 = x: int | 0 <= x < TWO64

  datatype Error =
    | IntOverflow
    | UnexpectedEOF
    | InvalidLength
    | UnexpectedEndOfGroup
    | IllegalWireType
    | WrongWireType
    | EndGroupForNonGroup
    | IllegalTag

  /******* Writing *******/

  // Seven bits a byte, least significant first; every byte but the last has its top bit set.
  function Encoded(v: nat): (b: seq<Byte>)
    ensures |b| >= 1
  {
    if v < 128 then [v] else [v % 128 + 128] + Encoded(v / 128)
  }

  // bits.Len64
  function BitLen(v: nat): nat { if v == 0 then 0 else 1 + BitLen(v / 2) }

  // sovRollout: (bits.Len64(x|1) + 6) / 7
  function Sov(v: nat): nat { (BitLen(if v % 2 == 0 then v + 1 else v) + 6) / 7 }

  lemma {:induction false} BitLenOfShift(v: nat)
    requires v >= 128
    ensures BitLen(v) == 7 + BitLen(v / 128)
  {
    var v1 := v / 2; var v2 := v1 / 2; var v3 := v2 / 2; var v4 := v3 / 2;
    var v5 := v4 / 2; var v6 := v5 / 2; var v7 := v6 / 2;
    assert BitLen(v1) == 1 + BitLen(v2) && BitLen(v2) == 1 + BitLen(v3);
    assert BitLen(v3) == 1 + BitLen(v4) && BitLen(v4) == 1 + BitLen(v5);
    assert BitLen(v5) == 1 + BitLen(v6) && BitLen(v6) == 1 + BitLen(v7);
    assert v7 == v / 128;
  }

  lemma {:induction false} SmallBitLen(v: nat)
    requires v < 128
    ensures BitLen(v) <= 7 && (v > 0 ==> BitLen(v) >= 1)
  {
    BitLenBound(v, 7, 128);
  }

  lemma {:induction false} BitLenBound(v: nat, n: nat, pow: nat)
    requires v < pow && pow <= 128
    requires (n == 7 && pow == 128) || (n == 6 && pow == 64) || (n == 5 && pow == 32) || (n == 4 && pow == 16)
          || (n == 3 && pow == 8) || (n == 2 && pow == 4) || (n == 1 && pow == 2) || (n == 0 && pow == 1)
    ensures BitLen(v) <= n
  {
    if n > 0 && v > 0 {
      BitLenBound(v / 2, n - 1, pow / 2);
    }
  }

  // The size that sovRollout computes is the number of bytes that encodeVarintRollout writes.
  lemma {:induction false} SovIsLength(v: nat)
    ensures Sov(v) == |Encoded(v)|
  {
    var odd := if v % 2 == 0 then v + 1 else v;
    if v < 128 {
      SmallBitLen(odd);
    } else {
      SovIsLength(v / 128);
      var w := v / 128;
      var oddw := if w % 2 == 0 then w + 1 else w;
      BitLenOfShift(odd);
      assert odd / 128 == w;
      OddKeepsBitLen(w);
    }
  }

  // Setting the lowest bit of a positive number does not make it longer.
  lemma {:induction false} OddKeepsBitLen(w: nat)
    requires w >= 1
    ensures BitLen(if w % 2 == 0 then w + 1 else w) == BitLen(w)
  {
    if w % 2 == 0 {
      assert (w + 1) / 2 == w / 2;
    }
  }

  // The buffer holds `bytes` in front of `hi` and is otherwise what it was.
  ghost predicate Written(before: seq<Byte>, after: seq<Byte>, lo: nat, hi: nat, bytes: seq<Byte>) {
    lo + |bytes| == hi <= |before| && after == before[..lo] + bytes + before[hi..]
  }

  // Writing backwards: x in front of y.
  lemma {:induction false} WrittenInFront(b0: seq<Byte>, b1: seq<Byte>, b2: seq<Byte>, lo: nat, mid: nat, hi: nat,
                                          x: seq<Byte>, y: seq<Byte>)
    requires Written(b0, b1, mid, hi, y) && Written(b1, b2, lo, mid, x)
    ensures Written(b0, b2, lo, hi, x + y)
  {
    assert b1[..lo] == b0[..lo];
    assert b1[mid..] == y + b0[hi..];
  }

  lemma {:induction false} NothingWritten(before: seq<Byte>, lo: nat)
    requires lo <= |before|
    ensures Written(before, before, lo, lo, [])
  {
    assert before == before[..lo] + [] + before[lo..];
  }

  // The next byte of what is written from lo on.
  lemma {:induction false} WriteNext(before: seq<Byte>, after: seq<Byte>, lo: nat, at: nat, bytes: seq<Byte>, b: Byte)
    requires at < |before| && Written(before, after, lo, at, bytes)
    ensures |after| == |before| && Written(before, after[at := b], lo, at + 1, bytes + [b])
  {
    assert after[at := b] == before[..lo] + (bytes + [b]) + before[at + 1..];
  }

  // The first byte of what is still to be written, behind what is written already.
  lemma {:induction false} NextByte(written: seq<Byte>, v: nat)
    ensures if v < 128 then Encoded(v) == [v]
            else |Encoded(v)| == 1 + |Encoded(v / 128)| && written + Encoded(v) == written + [v % 128 + 128] + Encoded(v / 128)
  {
  }

  method WriteByte(dAtA: array<Byte>, at: nat, b: Byte, ghost before: seq<Byte>, ghost lo: nat, ghost bytes: seq<Byte>)
    requires at < dAtA.Length == |before| && Written(before, dAtA[..], lo, at, bytes)
    modifies dAtA
    ensures Written(before, dAtA[..], lo, at + 1, bytes + [b])
  {
    hide Written;
    WriteNext(before, dAtA[..], lo, at, bytes, b);
    dAtA[at] := b;
    assert dAtA[..] == old(dAtA[..])[at := b];
  }

  // encodeVarintRollout: reserve the bytes in front of `offset`, then fill them from left to right.
  method EncodeVarint(dAtA: array<Byte>, offset: nat, v0: nat) returns (base: nat)
    requires |Encoded(v0)| <= offset <= dAtA.Length
    modifies dAtA
    ensures base == offset - |Encoded(v0)|
    ensures Written(old(dAtA[..]), dAtA[..], base, offset, Encoded(v0))
  {
    hide Written, Sov, Encoded;
    SovIsLength(v0);
    base := offset - Sov(v0);
    var at, v := base, v0;
    ghost var before, written: seq<Byte> := dAtA[..], [];
    NothingWritten(before, base);
    NextByte(written, v);
    while v >= 128
      invariant base <= at < offset && at + |Encoded(v)| == offset
      invariant Encoded(v0) == written + Encoded(v)
      invariant Written(before, dAtA[..], base, at, written)
    {
      NextByte(written, v);
      NextByte(written, v / 128);
      WriteByte(dAtA, at, v % 128 + 128, before, base, written);
      written := written + [v % 128 + 128];
      v := v / 128;
      at := at + 1;
    }
    NextByte(written, v);
    WriteByte(dAtA, at, v, before, base, written);
  }

  /******* Reading *******/

  function Pow128(n: nat): nat { if n == 0 then 1 else 128 * Pow128(n - 1) }

  // v shifted left by n groups of seven bits.
  function Shifted(v: nat, n: nat): nat { v * Pow128(n) }

  // wire |= uint64(b&0x7F) << (7n); what does not fit into 64 bits is dropped. The bits of different
  // bytes do not overlap, so the `|` is a sum.
  function AddByte(acc: Uint64, b: Byte, n: nat): Uint64 { (acc + Shifted(b % 128, n)) % TWO64 }

  // The value read and the index behind it.
  datatype Read = Read(value: Uint64, next: nat)

  // The loops `for shift := uint(0); ; shift += 7`: the n-th byte is shifted by 7n, a tenth byte is
  // still read, an eleventh is an overflow.
  function ReadVarint(b: seq<Byte>, i: nat, n: nat, acc: Uint64): Result<Read, Error>
    decreases 10 - n
  {
    if n >= 10 then Err(IntOverflow)
    else if i >= |b| then Err(UnexpectedEOF)
    else
      var acc' := AddByte(acc, b[i], n);
      if b[i] < 128 then Ok(Read(acc', i + 1)) else ReadVarint(b, i + 1, n + 1, acc')
  }

  lemma {:induction false} ReadBounds(b: seq<Byte>, i: nat, n: nat, acc: Uint64)
    ensures ReadVarint(b, i, n, acc).Ok? ==> i < ReadVarint(b, i, n, acc).value.next <= |b|
    decreases 10 - n
  {
    if n < 10 && i < |b| && b[i] >= 128 {
      ReadBounds(b, i + 1, n + 1, AddByte(acc, b[i], n));
    }
  }

  lemma {:induction false} Pow128Grows(n: nat)
    ensures Pow128(n) >= 1
    ensures n >= 10 ==> Pow128(n) >= TWO64
  {
    if n == 10 {
      assert Pow128(10) == 128 * (128 * (128 * (128 * (128 * (128 * (128 * (128 * (128 * Pow128(1)))))))));
    } else if n > 0 {
      Pow128Grows(n - 1);
    }
  }

  // A number is its low seven bits and the rest shifted by one group more; neither part is lost.
  lemma {:induction false} ShiftedParts(v: Uint64, n: nat)
    requires n < 10
    ensures v < 128 ==> Shifted(v % 128, n) == Shifted(v, n)
    ensures v >= 128 ==> Shifted(v, n) == Shifted(v % 128, n) + Shifted(v / 128, n + 1)
    ensures v >= 128 && Shifted(v, n) < TWO64 ==> n + 1 < 10
  {
    if v >= 128 {
      var low, high, p := v % 128, v / 128, Pow128(n);
      Product(v, low, high, p);
      Pow128Grows(n + 1);
      assert Pow128(n + 1) == 128 * p;
    }
  }

  lemma {:induction false} Product(v: nat, low: nat, high: nat, p: nat)
    requires v == 128 * high + low
    ensures v * p == low * p + high * (128 * p)
    ensures high >= 1 ==> high * (128 * p) >= 128 * p
  {
    assert v * p == (128 * high) * p + low * p;
    assert (128 * high) * p == high * (128 * p);
  }

  lemma {:induction false} AddByteFits(acc: Uint64, b: Byte, n: nat)
    requires acc + Shifted(b % 128, n) < TWO64
    ensures AddByte(acc, b, n) == acc + Shifted(b % 128, n)
  {
  }

  // Reading back what was written, wherever it stands and whatever follows it.
  lemma {:induction false} ReadEncoded(b: seq<Byte>, i: nat, n: nat, acc: Uint64, v: Uint64)
    requires n < 10
    requires i + |Encoded(v)| <= |b| && b[i..i + |Encoded(v)|] == Encoded(v)
    requires acc + Shifted(v, n) < TWO64
    ensures ReadVarint(b, i, n, acc) == Ok(Read(acc + Shifted(v, n), i + |Encoded(v)|))
    decreases v
  {
    hide Shifted, AddByte;
    assert b[i] == b[i..i + |Encoded(v)|][0];
    ShiftedParts(v, n);
    AddByteFits(acc, b[i], n);
    if v >= 128 {
      assert b[i] % 128 == v % 128;
      assert b[i + 1..i + |Encoded(v)|] == b[i..i + |Encoded(v)|][1..] == Encoded(v / 128);
      ReadEncoded(b, i + 1, n + 1, acc + Shifted(v % 128, n), v / 128);
    }
  }

  // A varint read from its first byte on is the number that was written.
  lemma {:induction false} ReadBack(b: seq<Byte>, i: nat, v: Uint64)
    requires i + |Encoded(v)| <= |b| && b[i..i + |Encoded(v)|] == Encoded(v)
    ensures ReadVarint(b, i, 0, 0) == Ok(Read(v, i + |Encoded(v)|))
  {
    assert Shifted(v, 0) == v;
    ReadEncoded(b, i, 0, 0, v);
  }

  // The loop as it stands in the parsers.
  method DecodeVarint(dAtA: seq<Byte>, iNdEx: nat) returns (r: Result<Read, Error>)
    ensures r == ReadVarint(dAtA, iNdEx, 0, 0)
  {
    var i: nat, n: nat, wire: Uint64 := iNdEx, 0, 0;
    while true
      invariant n <= 10 && ReadVarint(dAtA, iNdEx, 0, 0) == ReadVarint(dAtA, i, n, wire)
      decreases 10 - n
    {
      if n >= 10 { return Err(IntOverflow); }
      if i >= |dAtA| { return Err(UnexpectedEOF); }
      var b := dAtA[i];
      i := i + 1;
      wire := AddByte(wire, b, n);
      if b < 128 { return Ok(Read(wire, i)); }
      n := n + 1;
    }
  }

  /******* Integers *******/

  // int64(x), int(x)
  function ToInt64(u: Uint64): int { if u < TWO63 then u else u - TWO64 }

  // uint64(x) of a signed number: negative ones are sign-extended.
  function FromInt64(x: int): Uint64 { x % TWO64 }

  // int32(x): the low 32 bits.
  function ToInt32(u: int): int {
    var low := u % TWO32;
    if low < TWO31 then low else low - TWO32
  }

  lemma {:induction false} SignedRoundTrip(x: int)
    requires -TWO63 <= x < TWO63
    ensures ToInt64(FromInt64(x)) == x
    ensures -TWO31 <= x < TWO31 ==> ToInt32(FromInt64(x)) == x
  {
  }
}
