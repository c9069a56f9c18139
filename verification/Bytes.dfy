/**
 Fixed-width integers and the network byte order shared by both wire formats.

 Integers are unbounded in Dafny, so every machine width the code relies on is a
 subset type: assigning to one is a proof that nothing overflowed.
 */
module Bytes {

  const TWO_8: int := 0x100
  const TWO_16: int := 0x1_0000
  const TWO_32: int := 0x1_0000_0000
  const TWO_63: int := 0x8000_0000_0000_0000
  const TWO_64: int := 0x1_0000_0000_0000_0000

  type byte = x: int | 0 <= x < 0x100
  type u16 = x: int | 0 <= x < 0x1_0000
  type u32 = x: int | 0 <= x < 0x1_0000_0000
  type u64 = x: int | 0 <= x < 0x1_0000_0000_0000_0000
  type i64 = x: int | -0x8000_0000_0000_0000 <= x < 0x8000_0000_0000_0000

  function Pow256(n: nat): (p: int)
    ensures p >= 1
  {
    if n == 0 then 1 else 256 * Pow256(n - 1)
  }

  lemma Pow256Widths()
    ensures Pow256(1) == TWO_8 && Pow256(2) == TWO_16
    ensures Pow256(4) == TWO_32 && Pow256(8) == TWO_64
  {
    assert Pow256(1) == 256 * Pow256(0);
    assert Pow256(2) == 256 * Pow256(1);
    assert Pow256(3) == 256 * Pow256(2);
    assert Pow256(4) == 256 * Pow256(3);
    assert Pow256(5) == 256 * Pow256(4);
    assert Pow256(6) == 256 * Pow256(5);
    assert Pow256(7) == 256 * Pow256(6);
    assert Pow256(8) == 256 * Pow256(7);
  }

  /** The `width` low-order bytes of `value`, most significant first. */
  function PutBE(value: nat, width: nat): (s: seq<byte>)
    ensures |s| == width
  {
    if width == 0 then [] else PutBE(value / 256, width - 1) + [value % 256]
  }

  /** The number a big-endian byte string denotes. */
  function GetBE(s: seq<byte>): (value: nat)
    ensures value < Pow256(|s|)
  {
    if |s| == 0 then 0 else GetBE(s[..|s| - 1]) * 256 + s[|s| - 1]
  }

  /** Reading back a number that fits returns it. */
  lemma {:induction false} GetPut(value: nat, width: nat)
    requires value < Pow256(width)
    ensures GetBE(PutBE(value, width)) == value
  {
    if width > 0 {
      var front, last := value / 256, value % 256;
      var s := PutBE(value, width);
      assert s[..width - 1] == PutBE(front, width - 1) && s[width - 1] == last;
      assert value == front * 256 + last && Pow256(width) == 256 * Pow256(width - 1);
      GetPut(front, width - 1);
    }
  }

  /** Writing back what was read reproduces the bytes: no two strings denote one number. */
  lemma {:induction false} PutGet(s: seq<byte>)
    ensures PutBE(GetBE(s), |s|) == s
  {
    if |s| > 0 {
      PutGet(s[..|s| - 1]);
      assert s == s[..|s| - 1] + [s[|s| - 1]];
    }
  }

  /** Byte `i` is the value shifted right by the bytes that follow it. */
  lemma {:induction false} PutIsShift(value: nat, width: nat, i: nat)
    requires i < width
    ensures PutBE(value, width)[i] == value / Pow256(width - 1 - i) % 256
  {
    if i < width - 1 {
      PutIsShift(value / 256, width - 1, i);
      DivDiv(value, Pow256(width - 2 - i));
    }
  }

  lemma DivDiv(value: nat, m: int)
    requires m >= 1
    ensures value / 256 / m == value / (256 * m)
  {
    var q := value / 256 / m;
    var r := value / 256 % m;
    var low := value % 256;
    assert value == 256 * (m * q + r) + low;
    assert value == (256 * m) * q + (256 * r + low);
    assert 0 <= 256 * r + low < 256 * m;
    QuotientIsUnique(value, 256 * m, q, 256 * r + low);
  }

  lemma QuotientIsUnique(value: nat, d: int, q: int, r: int)
    requires d >= 1 && 0 <= r < d && value == d * q + r
    ensures value / d == q
  {
    var k := value / d - q;
    assert value == d * (value / d) + value % d;
    assert d * k == r - value % d;
    assert k >= 1 ==> d * k >= d;
    assert k <= -1 ==> d * k <= -d;
  }

  function PutU16(value: u16): (s: seq<byte>) ensures |s| == 2 { PutBE(value, 2) }
  function PutU32(value: u32): (s: seq<byte>) ensures |s| == 4 { PutBE(value, 4) }
  function PutU64(value: u64): (s: seq<byte>) ensures |s| == 8 { PutBE(value, 8) }

  function GetU16(s: seq<byte>): (value: u16)
    requires |s| == 2
    ensures PutU16(value) == s
  {
    Pow256Widths();
    PutGet(s);
    GetBE(s)
  }

  function GetU32(s: seq<byte>): (value: u32)
    requires |s| == 4
    ensures PutU32(value) == s
  {
    Pow256Widths();
    PutGet(s);
    GetBE(s)
  }

  function GetU64(s: seq<byte>): (value: u64)
    requires |s| == 8
    ensures PutU64(value) == s
  {
    Pow256Widths();
    PutGet(s);
    GetBE(s)
  }

  lemma GetPutU16(value: u16)
    ensures GetU16(PutU16(value)) == value
  {
    Pow256Widths();
    GetPut(value, 2);
  }

  lemma GetPutU32(value: u32)
    ensures GetU32(PutU32(value)) == value
  {
    Pow256Widths();
    GetPut(value, 4);
  }

  lemma GetPutU64(value: u64)
    ensures GetU64(PutU64(value)) == value
  {
    Pow256Widths();
    GetPut(value, 8);
  }

  /**
   Writes an integer into a buffer one byte at a time, as the encoders do. Encoders fill
   from left to right, so the contract speaks of the part filled so far and of the rest.
   */
  method StoreBE(buffer: array<byte>, offset: nat, value: nat, width: nat)
    requires offset + width <= buffer.Length
    modifies buffer
    ensures buffer[..offset + width] == old(buffer[..offset]) + PutBE(value, width)
    ensures buffer[offset + width..] == old(buffer[offset + width..])
  {
    ghost var before := buffer[..];
    var rest := value;
    var i := width;
    while i > 0
      invariant 0 <= i <= width
      invariant PutBE(value, width) == PutBE(rest, i) + buffer[offset + i..offset + width]
      invariant buffer[..offset] == before[..offset] && buffer[offset + width..] == before[offset + width..]
    {
      ghost var written := buffer[offset + i..offset + width];
      i := i - 1;
      buffer[offset + i] := rest % 256;
      assert buffer[offset + i..offset + width] == [rest % 256] + written;
      rest := rest / 256;
    }
    assert buffer[..offset + width] == buffer[..offset] + buffer[offset..offset + width];
  }

  /** Copies a byte string into a buffer. */
  method StoreBytes(buffer: array<byte>, offset: nat, field: seq<byte>)
    requires offset + |field| <= buffer.Length
    modifies buffer
    ensures buffer[..offset + |field|] == old(buffer[..offset]) + field
    ensures buffer[offset + |field|..] == old(buffer[offset + |field|..])
  {
    var i := 0;
    while i < |field|
      invariant 0 <= i <= |field|
      invariant buffer[..offset + i] == old(buffer[..offset]) + field[..i]
      invariant buffer[offset + |field|..] == old(buffer[offset + |field|..])
    {
      buffer[offset + i] := field[i];
      assert buffer[..offset + i + 1] == buffer[..offset + i] + [field[i]];
      assert field[..i + 1] == field[..i] + [field[i]];
      i := i + 1;
    }
    assert field[..|field|] == field;
  }
}
