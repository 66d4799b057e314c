/** Bytes, fixed-width integers and their little-endian layout. */
module Bytes {
  import opened Outcomes

  type byte = b: int | 0 <= b < 0x100
  type u16 = n: int | 0 <= n < 0x1_0000
  type u32 = n: int | 0 <= n < 0x1_0000_0000
  type u64 = n: int | 0 <= n < 0x1_0000_0000_0000_0000
  type i32 = n: int | -0x8000_0000 <= n < 0x8000_0000

  const U32_LIMIT := 0x1_0000_0000

  function U16(bs: seq<byte>): u16
    requires |bs| == 2
  {
    var lo: int, hi: int := bs[0], bs[1];
    lo + 0x100 * hi
  }

  function U32(bs: seq<byte>): u32
    requires |bs| == 4
  {
    var b0: int, b1: int, b2: int, b3: int := bs[0], bs[1], bs[2], bs[3];
    b0 + 0x100 * b1 + 0x1_0000 * b2 + 0x100_0000 * b3
  }

  function U64(bs: seq<byte>): u64
    requires |bs| == 8
  {
    var b0: int, b1: int, b2: int, b3: int := bs[0], bs[1], bs[2], bs[3];
    var b4: int, b5: int, b6: int, b7: int := bs[4], bs[5], bs[6], bs[7];
    b0 + 0x100 * b1 + 0x1_0000 * b2 + 0x100_0000 * b3
    + 0x1_0000_0000 * (b4 + 0x100 * b5 + 0x1_0000 * b6 + 0x100_0000 * b7)
  }

  /** A number read in two's complement. */
  function Signed(n: nat, modulus: nat): int {
    if 2 * n < modulus then n else n - modulus
  }

  /** The number any bytes are, least significant byte first. */
  function Number(bs: seq<byte>): nat {
    if bs == [] then 0 else bs[0] as nat + 0x100 * Number(bs[1..])
  }

  /** How many numbers that many bytes can hold. */
  function Limit(width: nat): nat {
    if width == 0 then 1 else 0x100 * Limit(width - 1)
  }

  /** Bytes in two's complement: the top bit counts negatively. */
  function TwosComplement(bs: seq<byte>): int {
    if bs != [] && 0x80 <= bs[|bs| - 1] then Number(bs) - Limit(|bs|) else Number(bs)
  }

  /** The fixed widths are cases of this. */
  lemma FixedWidths(bs: seq<byte>)
    ensures |bs| == 1 ==> bs[0] as nat == Number(bs) && Signed(bs[0], 0x100) == TwosComplement(bs)
    ensures |bs| == 2 ==> U16(bs) == Number(bs) && Signed(U16(bs), 0x1_0000) == TwosComplement(bs)
    ensures |bs| == 4 ==> U32(bs) == Number(bs) && Signed(U32(bs), 0x1_0000_0000) == TwosComplement(bs)
    ensures |bs| == 8 ==> U64(bs) == Number(bs) && Signed(U64(bs), 0x1_0000_0000_0000_0000) == TwosComplement(bs)
  {
    assert Limit(1) == 0x100 && Limit(2) == 0x1_0000 && Limit(3) == 0x100_0000 && Limit(4) == 0x1_0000_0000;
    assert Limit(5) == 0x100_0000_0000 && Limit(6) == 0x1_0000_0000_0000 && Limit(7) == 0x100_0000_0000_0000;
    assert Limit(8) == 0x1_0000_0000_0000_0000;
    if |bs| == 8 {
      EightBytes(bs);
    } else if |bs| == 4 {
      FourBytes(bs);
    } else if |bs| == 2 {
      assert Number(bs) == bs[0] as nat + 0x100 * Number(bs[1..]);
    }
  }

  lemma FourBytes(bs: seq<byte>)
    requires 4 <= |bs|
    ensures Number(bs) == bs[0] as nat + 0x100 * bs[1] as nat + 0x1_0000 * bs[2] as nat + 0x100_0000 * bs[3] as nat
                          + 0x1_0000_0000 * Number(bs[4..])
  {
    assert bs[1..][1..] == bs[2..] && bs[2..][1..] == bs[3..] && bs[3..][1..] == bs[4..];
    assert Number(bs[1..]) == bs[1] as nat + 0x100 * Number(bs[2..]);
    assert Number(bs[2..]) == bs[2] as nat + 0x100 * Number(bs[3..]);
  }

  lemma EightBytes(bs: seq<byte>)
    requires |bs| == 8
    ensures Number(bs) == U64(bs)
  {
    FourBytes(bs);
    FourBytes(bs[4..]);
    assert bs[4..][4..] == [];
  }

  function PutU16(n: u16): (bs: seq<byte>)
    ensures |bs| == 2 && U16(bs) == n
  {
    [n % 0x100, n / 0x100]
  }

  function PutU32(n: u32): (bs: seq<byte>)
    ensures |bs| == 4 && U32(bs) == n
  {
    PutU16(n % 0x1_0000) + PutU16(n / 0x1_0000)
  }

  function PutU64(n: u64): (bs: seq<byte>)
    ensures |bs| == 8 && U64(bs) == n
  {
    PutU32(n % U32_LIMIT) + PutU32(n / U32_LIMIT)
  }

  // The layout loses nothing: reading bytes and writing the number gives the bytes back.

  lemma PutU16OfU16(bs: seq<byte>)
    requires |bs| == 2
    ensures PutU16(U16(bs)) == bs
  {
  }

  lemma PutU32OfU32(bs: seq<byte>)
    requires |bs| == 4
    ensures PutU32(U32(bs)) == bs
  {
    var lo: int, hi: int := U16(bs[..2]), U16(bs[2..]);
    assert U32(bs) == lo + 0x1_0000 * hi;
    assert U32(bs) % 0x1_0000 == lo && U32(bs) / 0x1_0000 == hi;
    PutU16OfU16(bs[..2]);
    PutU16OfU16(bs[2..]);
  }

  lemma PutU64OfU64(bs: seq<byte>)
    requires |bs| == 8
    ensures PutU64(U64(bs)) == bs
  {
    var lo: int, hi: int := U32(bs[..4]), U32(bs[4..]);
    assert U64(bs) == lo + U32_LIMIT * hi;
    assert U64(bs) % U32_LIMIT == lo && U64(bs) / U32_LIMIT == hi;
    PutU32OfU32(bs[..4]);
    PutU32OfU32(bs[4..]);
  }

  // Reads from the front of a byte slice; `Fail(Io)` when it is too short.

  function Take(n: nat, bs: seq<byte>): Outcome<(seq<byte>, seq<byte>)> {
    if n <= |bs| then Ok((bs[..n], bs[n..])) else Fail(Io)
  }

  function ReadU8(bs: seq<byte>): Outcome<(byte, seq<byte>)> {
    if 1 <= |bs| then Ok((bs[0], bs[1..])) else Fail(Io)
  }

  function ReadU16(bs: seq<byte>): Outcome<(u16, seq<byte>)> {
    if 2 <= |bs| then Ok((U16(bs[..2]), bs[2..])) else Fail(Io)
  }

  function ReadU32(bs: seq<byte>): Outcome<(u32, seq<byte>)> {
    if 4 <= |bs| then Ok((U32(bs[..4]), bs[4..])) else Fail(Io)
  }

  function ReadU64(bs: seq<byte>): Outcome<(u64, seq<byte>)> {
    if 8 <= |bs| then Ok((U64(bs[..8]), bs[8..])) else Fail(Io)
  }

  function ReadI32(bs: seq<byte>): Outcome<(i32, seq<byte>)> {
    var (n, rest) :- ReadU32(bs);
    Ok((Signed(n, U32_LIMIT), rest))
  }

  function PutI32(n: i32): (bs: seq<byte>)
    ensures |bs| == 4 && Signed(U32(bs), U32_LIMIT) == n
  {
    PutU32(n % U32_LIMIT)
  }

  // Pieces of pieces, by their place in the whole.

  lemma Window(bs: seq<byte>, k: nat, n: nat)
    requires k + n <= |bs|
    ensures bs[k..][..n] == bs[k..k + n] && bs[k..][n..] == bs[k + n..]
  {
  }

  lemma Windows(bs: seq<byte>, k: nat, i: nat, j: nat)
    requires i <= j && k + j <= |bs|
    ensures bs[k..][i..j] == bs[k + i..k + j]
  {
  }

  // Writing then reading, and reading then writing, in front of any further bytes.

  lemma ReadPutU16(n: u16, rest: seq<byte>)
    ensures ReadU16(PutU16(n) + rest) == Ok((n, rest))
  {
    var bs := PutU16(n) + rest;
    assert bs[..2] == PutU16(n) && bs[2..] == rest;
  }

  lemma ReadPutU32(n: u32, rest: seq<byte>)
    ensures ReadU32(PutU32(n) + rest) == Ok((n, rest))
  {
    var bs := PutU32(n) + rest;
    assert bs[..4] == PutU32(n) && bs[4..] == rest;
  }

  lemma ReadPutU64(n: u64, rest: seq<byte>)
    ensures ReadU64(PutU64(n) + rest) == Ok((n, rest))
  {
    var bs := PutU64(n) + rest;
    assert bs[..8] == PutU64(n) && bs[8..] == rest;
  }

  lemma ReadPutI32(n: i32, rest: seq<byte>)
    ensures ReadI32(PutI32(n) + rest) == Ok((n, rest))
  {
    hide U32, PutU32;
    ReadPutU32(n % U32_LIMIT, rest);
  }

  lemma TakeAppend(bs: seq<byte>, rest: seq<byte>)
    ensures Take(|bs|, bs + rest) == Ok((bs, rest))
  {
    assert (bs + rest)[..|bs|] == bs && (bs + rest)[|bs|..] == rest;
  }

  lemma PutTake(n: nat, bs: seq<byte>)
    requires Take(n, bs).Ok?
    ensures |Take(n, bs).value.0| == n && Take(n, bs).value.0 + Take(n, bs).value.1 == bs
  {
    assert bs[..n] + bs[n..] == bs;
  }

  lemma PutReadU16(bs: seq<byte>)
    requires ReadU16(bs).Ok?
    ensures PutU16(ReadU16(bs).value.0) + ReadU16(bs).value.1 == bs
  {
    PutU16OfU16(bs[..2]);
    assert bs[..2] + bs[2..] == bs;
  }

  lemma PutReadU32(bs: seq<byte>)
    requires ReadU32(bs).Ok?
    ensures PutU32(ReadU32(bs).value.0) + ReadU32(bs).value.1 == bs
  {
    PutU32OfU32(bs[..4]);
    assert bs[..4] + bs[4..] == bs;
  }

  lemma PutReadU64(bs: seq<byte>)
    requires ReadU64(bs).Ok?
    ensures PutU64(ReadU64(bs).value.0) + ReadU64(bs).value.1 == bs
  {
    PutU64OfU64(bs[..8]);
    assert bs[..8] + bs[8..] == bs;
  }

  lemma PutReadI32(bs: seq<byte>)
    requires ReadI32(bs).Ok?
    ensures PutI32(ReadI32(bs).value.0) + ReadI32(bs).value.1 == bs
  {
    hide U32, PutU32;
    PutReadU32(bs);
    var n: int := ReadU32(bs).value.0;
    assert Signed(n, U32_LIMIT) % U32_LIMIT == n;
  }

  /** A byte slice consumed from the front. */
  class Cursor {
    var data: seq<byte>

    constructor (data: seq<byte>)
      ensures this.data == data
    {
      this.data := data;
    }

    /** `n` bytes; when they are not there, the cursor's position no longer matters. */
    method TakeBytes(n: nat) returns (r: Outcome<seq<byte>>)
      modifies this
      ensures r.Ok? <==> n <= |old(data)|
      ensures r.Ok? ==> r.value == old(data)[..n] && data == old(data)[n..]
      ensures !r.Ok? ==> r == Fail(Io)
    {
      if n <= |data| {
        r := Ok(data[..n]);
        data := data[n..];
      } else {
        r := Fail(Io);
      }
    }

    method TakeU8() returns (r: Outcome<byte>)
      modifies this
      ensures r.Ok? <==> ReadU8(old(data)).Ok?
      ensures r.Ok? ==> ReadU8(old(data)) == Ok((r.value, data))
      ensures !r.Ok? ==> r == Fail(Io) && ReadU8(old(data)) == Fail(Io)
    {
      var bytes :- TakeBytes(1);
      r := Ok(bytes[0]);
    }

    method TakeU16() returns (r: Outcome<u16>)
      modifies this
      ensures r.Ok? <==> ReadU16(old(data)).Ok?
      ensures r.Ok? ==> ReadU16(old(data)) == Ok((r.value, data))
      ensures !r.Ok? ==> r == Fail(Io) && ReadU16(old(data)) == Fail(Io)
    {
      var bytes :- TakeBytes(2);
      r := Ok(U16(bytes));
    }

    method TakeU32() returns (r: Outcome<u32>)
      modifies this
      ensures r.Ok? <==> ReadU32(old(data)).Ok?
      ensures r.Ok? ==> ReadU32(old(data)) == Ok((r.value, data))
      ensures r.Ok? ==> |data| < |old(data)|
      ensures !r.Ok? ==> r == Fail(Io) && ReadU32(old(data)) == Fail(Io)
    {
      var bytes :- TakeBytes(4);
      r := Ok(U32(bytes));
    }

    method TakeI32() returns (r: Outcome<i32>)
      modifies this
      ensures r.Ok? <==> ReadI32(old(data)).Ok?
      ensures r.Ok? ==> ReadI32(old(data)) == Ok((r.value, data))
      ensures !r.Ok? ==> r == Fail(Io) && ReadI32(old(data)) == Fail(Io)
    {
      var n :- TakeU32();
      r := Ok(Signed(n, U32_LIMIT));
    }

    method TakeU64() returns (r: Outcome<u64>)
      modifies this
      ensures r.Ok? <==> ReadU64(old(data)).Ok?
      ensures r.Ok? ==> ReadU64(old(data)) == Ok((r.value, data))
      ensures !r.Ok? ==> r == Fail(Io) && ReadU64(old(data)) == Fail(Io)
    {
      var bytes :- TakeBytes(8);
      r := Ok(U64(bytes));
    }
  }
}
