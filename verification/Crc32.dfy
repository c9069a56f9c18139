/**
 CRC-32 with the reflected IEEE polynomial (section 3.2.9 of IEEE 802.3; sample
 code in section 8 of RFC 1952), bit by bit as the alarm envelope computes it.

 A register is its 32 bits, least significant first, so that a right shift drops the
 first one and exclusive-or is pointwise. The main result is `BurstCaught`: two inputs
 of one length that differ only inside 32 consecutive bits, at any bit offset, never share
 a CRC. Bits are counted as they enter the register, the least significant of a byte first.
 */
module Crc32 {
  import opened Bytes

  const INITIAL: u32 := 0xffff_ffff
  const POLYNOMIAL: u32 := 0xedb8_8320

  // ----- numbers and their bits -----

  /** The `width` low-order bits of `n`, least significant first. */
  function Bits(n: nat, width: nat): (bits: seq<bool>)
    ensures |bits| == width
    decreases width
  {
    if width == 0 then [] else [n % 2 == 1] + Bits(n / 2, width - 1)
  }

  /** The number those bits denote. */
  function Number(bits: seq<bool>): (n: nat)
    ensures n < Pow2(|bits|)
  {
    if |bits| == 0 then 0 else (if bits[0] then 1 else 0) + 2 * Number(bits[1..])
  }

  function Pow2(n: nat): (p: int)
    ensures p >= 1
  {
    if n == 0 then 1 else 2 * Pow2(n - 1)
  }

  lemma Pow2Values()
    ensures Pow2(8) == 0x100 && Pow2(31) == 0x8000_0000 && Pow2(32) == 0x1_0000_0000
  {
    assert Pow2(8) == 16 * Pow2(4) && Pow2(12) == 16 * Pow2(8) && Pow2(16) == 16 * Pow2(12);
    assert Pow2(20) == 16 * Pow2(16) && Pow2(24) == 16 * Pow2(20) && Pow2(28) == 16 * Pow2(24);
  }

  lemma {:induction false} NumberOfBits(n: nat, width: nat)
    requires n < Pow2(width)
    ensures Number(Bits(n, width)) == n
    decreases width
  {
    if width > 0 {
      NumberOfBits(n / 2, width - 1);
      assert Bits(n, width)[1..] == Bits(n / 2, width - 1);
    }
  }

  lemma {:induction false} BitsOfNumber(bits: seq<bool>)
    ensures Bits(Number(bits), |bits|) == bits
  {
    if |bits| > 0 {
      BitsOfNumber(bits[1..]);
      assert bits == [bits[0]] + bits[1..];
    }
  }

  /** A number in the upper half of its range has its top bit set. */
  lemma {:induction false} TopBit(n: nat, width: nat)
    requires Pow2(width) <= n < 2 * Pow2(width)
    ensures Bits(n, width + 1)[width]
    decreases width
  {
    if width > 0 {
      TopBit(n / 2, width - 1);
    }
  }

  // ----- feeding a register of any kind -----

  function Fold<P, R, E>(add: (P, R, E) -> R, p: P, register: R, s: seq<E>): R {
    if |s| == 0 then register else add(p, Fold(add, p, register, s[..|s| - 1]), s[|s| - 1])
  }

  lemma {:induction false} FoldConcat<P, R, E>(add: (P, R, E) -> R, p: P, register: R, a: seq<E>, b: seq<E>)
    ensures Fold(add, p, register, a + b) == Fold(add, p, Fold(add, p, register, a), b)
  {
    if |b| == 0 {
      assert a + b == a;
    } else {
      var whole := a + b;
      assert whole[..|whole| - 1] == a + b[..|b| - 1];
      FoldConcat(add, p, register, a, b[..|b| - 1]);
    }
  }

  /**
   What a register of 32 bits needs so that as many inputs can be traced back: after an
   input, registers that agree from bit `m` agreed from bit `m + 1` before it, and a common
   start forces a common input.
   */
  ghost predicate Traceable<P, R(!new), E(!new)>(add: (P, R, E) -> R, agree: (R, R, nat) -> bool, p: P) {
    && (forall x: R :: agree(x, x, 0))
    && (forall x: R, y: R, e: E :: add(p, x, e) == add(p, y, e) ==> x == y)
    && (forall x: R, y: R, e: E, f: E, m: nat ::
          m < 32 && agree(add(p, x, e), add(p, y, f), m) ==> agree(x, y, m + 1) && (x == y ==> e == f))
  }

  lemma {:induction false} FoldInjective<P, R(!new), E(!new)>(add: (P, R, E) -> R, agree: (R, R, nat) -> bool, p: P,
                                                              x: R, y: R, s: seq<E>)
    requires Traceable(add, agree, p) && Fold(add, p, x, s) == Fold(add, p, y, s)
    ensures x == y
  {
    if |s| > 0 {
      FoldInjective(add, agree, p, x, y, s[..|s| - 1]);
    }
  }

  /** From one register, the windows that lead to registers agreeing high enough up are one window. */
  lemma {:induction false} WindowInjective<P, R(!new), E(!new)>(add: (P, R, E) -> R, agree: (R, R, nat) -> bool, p: P,
                                                                c: R, s: seq<E>, t: seq<E>, m: nat)
    requires Traceable(add, agree, p) && |s| == |t| && m + |s| <= 32
    requires agree(Fold(add, p, c, s), Fold(add, p, c, t), m)
    ensures s == t
  {
    if |s| > 0 {
      var n := |s| - 1;
      var x, y := Fold(add, p, c, s[..n]), Fold(add, p, c, t[..n]);
      assert agree(add(p, x, s[n]), add(p, y, t[n]), m);
      WindowInjective(add, agree, p, c, s[..n], t[..n], m + 1);
      assert s == s[..n] + [s[n]] && t == t[..n] + [t[n]];
    }
  }

  lemma SplitAtWindow<P, R, E>(add: (P, R, E) -> R, p: P, c: R, s: seq<E>, k: nat, w: nat)
    requires k + w <= |s|
    ensures Fold(add, p, c, s) == Fold(add, p, Fold(add, p, Fold(add, p, c, s[..k]), s[k..k + w]), s[k + w..])
  {
    assert s == s[..k + w] + s[k + w..];
    assert s[..k + w] == s[..k] + s[k..k + w];
    FoldConcat(add, p, c, s[..k + w], s[k + w..]);
    FoldConcat(add, p, c, s[..k], s[k..k + w]);
  }

  lemma BurstChangesRegister<P, R(!new), E(!new)>(add: (P, R, E) -> R, agree: (R, R, nat) -> bool, p: P,
                                                  c: R, s: seq<E>, t: seq<E>, k: nat, w: nat)
    requires Traceable(add, agree, p)
    requires |s| == |t| && k + w <= |s| && w <= 32
    requires s[..k] == t[..k] && s[k + w..] == t[k + w..]
    requires Fold(add, p, c, s) == Fold(add, p, c, t)
    ensures s == t
  {
    var start := Fold(add, p, c, s[..k]);
    SplitAtWindow(add, p, c, s, k, w);
    SplitAtWindow(add, p, c, t, k, w);
    var x, y := Fold(add, p, start, s[k..k + w]), Fold(add, p, start, t[k..k + w]);
    FoldInjective(add, agree, p, x, y, s[k + w..]);
    assert agree(x, y, 0);
    WindowInjective(add, agree, p, start, s[k..k + w], t[k..k + w], 0);
    assert s == s[..k] + s[k..k + w] + s[k + w..];
    assert t == t[..k] + t[k..k + w] + t[k + w..];
  }

  // ----- the register, for any generator polynomial -----

  type Register = bits: seq<bool> | |bits| == 32 witness Bits(0, 32)

  function Xor(x: Register, y: Register): (z: Register) {
    seq(32, i requires 0 <= i < 32 => x[i] != y[i])
  }

  /** One bit of the register shift. */
  function Step(poly: Register, crc: Register): (next: Register) {
    var shifted: Register := crc[1..] + [false];
    if crc[0] then Xor(shifted, poly) else shifted
  }

  /** The binary digit of weight 2^i. */
  function Digit(n: nat, i: nat): (d: nat) {
    if i == 0 then n % 2 else Digit(n / 2, i - 1)
  }

  lemma {:induction false} DigitOfNumber(bits: seq<bool>, i: nat)
    requires i < |bits|
    ensures Digit(Number(bits), i) == if bits[i] then 1 else 0
  {
    if i > 0 {
      DigitOfNumber(bits[1..], i - 1);
    }
  }

  /**
   The bit step on numbers, as the code writes it: shift right by one, and if a one was
   shifted out add the polynomial modulo two in every digit.
   */
  lemma StepIsShift(poly: Register, crc: Register, i: nat)
    requires i < 32
    ensures var n := Number(crc);
      Digit(Number(Step(poly, crc)), i) == (Digit(n / 2, i) + n % 2 * Digit(Number(poly), i)) % 2
  {
    var shifted: Register := crc[1..] + [false];
    NumberOfPadded(crc[1..]);
    DigitOfNumber(shifted, i);
    DigitOfNumber(poly, i);
    DigitOfNumber(Step(poly, crc), i);
  }

  lemma {:induction false} NumberOfPadded(bits: seq<bool>)
    ensures Number(bits + [false]) == Number(bits)
  {
    if |bits| > 0 {
      assert (bits + [false])[1..] == bits[1..] + [false];
      NumberOfPadded(bits[1..]);
    } else {
      assert Number([false]) == 0 + 2 * Number([]);
    }
  }

  function Steps(poly: Register, crc: Register, n: nat): (next: Register)
    decreases n
  {
    if n == 0 then crc else Steps(poly, Step(poly, crc), n - 1)
  }

  /** Input bits enter at the low end. */
  function Load(crc: Register, input: seq<bool>): (next: Register) {
    seq(32, i requires 0 <= i < 32 => if i < |input| then crc[i] != input[i] else crc[i])
  }

  function AddByte(poly: Register, crc: Register, b: byte): (next: Register) {
    var input := Bits(b, 8);
    Steps(poly, Load(crc, input), |input|)
  }

  /** The register after the bytes of `s`. */
  function Update(poly: Register, crc: Register, s: seq<byte>): (next: Register) {
    Fold(AddByte, poly, crc, s)
  }

  function Finish(poly: Register, initial: Register, s: seq<byte>): (crc: u32) {
    Pow2Values();
    Number(Xor(Update(poly, initial, s), initial))
  }

  /** The CRC of the alarm protocol. */
  function Checksum(s: seq<byte>): (crc: u32) {
    Finish(Bits(POLYNOMIAL, 32), Bits(INITIAL, 32), s)
  }

  /** The inner loop of `crc32_update`. */
  method ShiftBits(poly: Register, start: Register, bits: nat) returns (crc: Register)
    ensures crc == Steps(poly, start, bits)
  {
    crc := start;
    var bit := 0;
    while bit < bits
      invariant 0 <= bit <= bits
      invariant Steps(poly, crc, bits - bit) == Steps(poly, start, bits)
    {
      crc := Step(poly, crc);
      bit := bit + 1;
    }
  }

  /** The loops of `crc32_update`. */
  method ComputeUpdate(poly: Register, start: Register, data: seq<byte>) returns (crc: Register)
    ensures crc == Update(poly, start, data)
  {
    crc := start;
    var i := 0;
    while i < |data|
      invariant 0 <= i <= |data|
      invariant crc == Update(poly, start, data[..i])
    {
      var input := Bits(data[i], 8);
      crc := ShiftBits(poly, Load(crc, input), |input|);
      assert data[..i + 1][..i] == data[..i];
      i := i + 1;
    }
    assert data[..i] == data;
  }

  /** A CRC may be fed in parts: the parts' register equals that of the whole. */
  lemma UpdateConcat(poly: Register, crc: Register, a: seq<byte>, b: seq<byte>)
    ensures Update(poly, crc, a + b) == Update(poly, Update(poly, crc, a), b)
  {
    FoldConcat(AddByte, poly, crc, a, b);
  }

  // ----- agreement travels backwards through the register -----

  /** The registers have the same bits from position `m` up. */
  predicate AgreeFrom(x: Register, y: Register, m: nat) {
    forall i :: m <= i < 32 ==> x[i] == y[i]
  }

  /** The polynomial's top bit shows in the result which branch a step took. */
  lemma StepBack(poly: Register, x: Register, y: Register, m: nat)
    requires poly[31]
    requires m <= 31 && AgreeFrom(Step(poly, x), Step(poly, y), m)
    ensures x[0] == y[0] && AgreeFrom(x, y, m + 1)
  {
    assert Step(poly, x)[31] == x[0] && Step(poly, y)[31] == y[0];
    forall i | m + 1 <= i < 32
      ensures x[i] == y[i]
    {
      assert Step(poly, x)[i - 1] == Step(poly, y)[i - 1];
    }
  }

  lemma {:induction false} BitsInjective(a: nat, b: nat, width: nat)
    requires a < Pow2(width) && b < Pow2(width) && Bits(a, width) == Bits(b, width)
    ensures a == b
  {
    NumberOfBits(a, width);
    NumberOfBits(b, width);
  }

  // ----- one bit at a time -----

  /** One input bit enters at the low end, and the register is shifted. */
  function AddBit(poly: Register, crc: Register, bit: bool): (next: Register) {
    Step(poly, crc[0 := (crc[0] != bit)])
  }

  /** Loading bits and shifting one of them out is shifting one in and loading the others. */
  lemma LoadThenStep(poly: Register, crc: Register, bit: bool, rest: seq<bool>)
    requires |rest| < 32
    ensures Step(poly, Load(crc, [bit] + rest)) == Load(AddBit(poly, crc, bit), rest)
  {
    var input := [bit] + rest;
    var left, right := Step(poly, Load(crc, input)), Load(AddBit(poly, crc, bit), rest);
    forall i | 0 <= i < 32 ensures left[i] == right[i] {
      assert i < |rest| ==> input[i + 1] == rest[i];
    }
  }

  lemma LoadNothing(crc: Register)
    ensures Load(crc, []) == crc
  {
  }

  lemma {:induction false} StepsAreBits(poly: Register, crc: Register, input: seq<bool>)
    requires |input| <= 32
    ensures Steps(poly, Load(crc, input), |input|) == Fold(AddBit, poly, crc, input)
    decreases |input|
  {
    if |input| == 0 {
      LoadNothing(crc);
    } else {
      var bit, rest := input[0], input[1..];
      assert input == [bit] + rest;
      LoadThenStep(poly, crc, bit, rest);
      StepsAreBits(poly, AddBit(poly, crc, bit), rest);
      FoldConcat(AddBit, poly, crc, [bit], rest);
      assert Fold(AddBit, poly, crc, [bit]) == AddBit(poly, Fold(AddBit, poly, crc, [bit][..0]), bit);
    }
  }

  /** A byte string spread out, eight places a byte. */
  function Spread(places: byte -> seq<bool>, s: seq<byte>): (bits: seq<bool>)
    requires forall b: byte :: |places(b)| == 8
    ensures |bits| == 8 * |s|
  {
    if |s| == 0 then [] else Spread(places, s[..|s| - 1]) + places(s[|s| - 1])
  }

  lemma {:induction false} SpreadConcat(places: byte -> seq<bool>, a: seq<byte>, b: seq<byte>)
    requires forall b: byte :: |places(b)| == 8
    ensures Spread(places, a + b) == Spread(places, a) + Spread(places, b)
  {
    if |b| == 0 {
      assert a + b == a;
    } else {
      var whole := a + b;
      assert whole[..|whole| - 1] == a + b[..|b| - 1];
      SpreadConcat(places, a, b[..|b| - 1]);
    }
  }

  lemma {:induction false} SpreadInjective(places: byte -> seq<bool>, s: seq<byte>, t: seq<byte>)
    requires forall b: byte :: |places(b)| == 8
    requires forall b: byte, c: byte :: places(b) == places(c) ==> b == c
    requires |s| == |t| && Spread(places, s) == Spread(places, t)
    ensures s == t
  {
    if |s| > 0 {
      var n := |s| - 1;
      var u, v := Spread(places, s), Spread(places, t);
      assert u[..8 * n] == Spread(places, s[..n]) && v[..8 * n] == Spread(places, t[..n]);
      assert u[8 * n..] == places(s[n]) && v[8 * n..] == places(t[n]);
      SpreadInjective(places, s[..n], t[..n]);
      assert s == s[..n] + [s[n]] && t == t[..n] + [t[n]];
    }
  }

  function ByteBits(b: byte): (bits: seq<bool>)
    ensures |bits| == 8
  {
    Bits(b, 8)
  }

  /** The bits of a byte string, as they enter the register. */
  function BitsOf(s: seq<byte>): (bits: seq<bool>)
    ensures |bits| == 8 * |s|
  {
    Spread(ByteBits, s)
  }

  lemma BitsOfInjective(s: seq<byte>, t: seq<byte>)
    requires |s| == |t| && BitsOf(s) == BitsOf(t)
    ensures s == t
  {
    forall b: byte, c: byte | ByteBits(b) == ByteBits(c) ensures b == c {
      Pow2Values();
      BitsInjective(b, c, 8);
    }
    SpreadInjective(ByteBits, s, t);
  }

  /** The byte loop and its inner shifts are the bit-serial register. */
  lemma {:induction false} UpdateIsBitwise(poly: Register, crc: Register, s: seq<byte>)
    ensures Update(poly, crc, s) == Fold(AddBit, poly, crc, BitsOf(s))
  {
    if |s| > 0 {
      var front, last := s[..|s| - 1], s[|s| - 1];
      UpdateIsBitwise(poly, crc, front);
      StepsAreBits(poly, Update(poly, crc, front), Bits(last, 8));
      FoldConcat(AddBit, poly, crc, BitsOf(front), Bits(last, 8));
    }
  }

  lemma BitBack(poly: Register, x: Register, y: Register, a: bool, b: bool, m: nat)
    requires poly[31] && m < 32 && AgreeFrom(AddBit(poly, x, a), AddBit(poly, y, b), m)
    ensures AgreeFrom(x, y, m + 1) && (x == y ==> a == b) && (a == b && m == 0 ==> x == y)
  {
    var u, v: Register := x[0 := (x[0] != a)], y[0 := (y[0] != b)];
    StepBack(poly, u, v, m);
    forall i | m + 1 <= i < 32 ensures x[i] == y[i] {
      assert u[i] == v[i];
    }
    if a == b && m == 0 {
      assert x[0] == y[0];
    }
  }

  lemma RegisterTraceable(poly: Register)
    requires poly[31]
    ensures Traceable(AddBit, AgreeFrom, poly)
  {
    forall x: Register, y: Register, a: bool, b: bool, m: nat
      | m < 32 && AgreeFrom(AddBit(poly, x, a), AddBit(poly, y, b), m)
      ensures AgreeFrom(x, y, m + 1) && (x == y ==> a == b)
    {
      BitBack(poly, x, y, a, b, m);
    }
    forall x: Register, y: Register, a: bool | AddBit(poly, x, a) == AddBit(poly, y, a) ensures x == y {
      BitBack(poly, x, y, a, a, 0);
    }
  }

  lemma FinishInjective(poly: Register, initial: Register, s: seq<byte>, t: seq<byte>)
    requires Finish(poly, initial, s) == Finish(poly, initial, t)
    ensures Update(poly, initial, s) == Update(poly, initial, t)
  {
    var x, y := Update(poly, initial, s), Update(poly, initial, t);
    BitsOfNumber(Xor(x, initial));
    BitsOfNumber(Xor(y, initial));
    forall i | 0 <= i < 32
      ensures x[i] == y[i]
    {
      assert Xor(x, initial)[i] == Xor(y, initial)[i];
    }
  }

  /** Equal-length inputs that differ, but only in at most 32 bits from bit `k` on, have different CRCs. */
  lemma BurstCaught(s: seq<byte>, t: seq<byte>, k: nat, w: nat)
    requires |s| == |t| && k + w <= 8 * |s| && w <= 32
    requires BitsOf(s)[..k] == BitsOf(t)[..k] && BitsOf(s)[k + w..] == BitsOf(t)[k + w..]
    requires s != t
    ensures Checksum(s) != Checksum(t)
  {
    var poly: Register, initial: Register := Bits(POLYNOMIAL, 32), Bits(INITIAL, 32);
    if Finish(poly, initial, s) == Finish(poly, initial, t) {
      Pow2Values();
      TopBit(POLYNOMIAL, 31);
      FinishInjective(poly, initial, s, t);
      UpdateIsBitwise(poly, initial, s);
      UpdateIsBitwise(poly, initial, t);
      RegisterTraceable(poly);
      BurstChangesRegister(AddBit, AgreeFrom, poly, initial, BitsOf(s), BitsOf(t), k, w);
      BitsOfInjective(s, t);
    }
  }

  lemma SplitSpread(places: byte -> seq<bool>, s: seq<byte>, k: nat)
    requires (forall b: byte :: |places(b)| == 8) && k <= |s|
    ensures Spread(places, s)[..8 * k] == Spread(places, s[..k]) && Spread(places, s)[8 * k..] == Spread(places, s[k..])
  {
    SpreadConcat(places, s[..k], s[k..]);
    assert s == s[..k] + s[k..];
  }

  lemma AroundSpread(places: byte -> seq<bool>, s: seq<byte>, t: seq<byte>, k: nat)
    requires (forall b: byte :: |places(b)| == 8) && |s| == |t| && k < |s|
    requires s[..k] == t[..k] && s[k + 1..] == t[k + 1..]
    ensures Spread(places, s)[..8 * k] == Spread(places, t)[..8 * k]
    ensures Spread(places, s)[8 * k + 8..] == Spread(places, t)[8 * k + 8..]
  {
    SplitSpread(places, s, k);
    SplitSpread(places, t, k);
    SplitSpread(places, s, k + 1);
    SplitSpread(places, t, k + 1);
  }

  /** Changing one byte changes no bit before or behind it. */
  lemma AroundByte(s: seq<byte>, k: nat, b: byte)
    requires k < |s|
    ensures BitsOf(s)[..8 * k] == BitsOf(s[k := b])[..8 * k]
    ensures BitsOf(s)[8 * k + 8..] == BitsOf(s[k := b])[8 * k + 8..]
  {
    AroundSpread(ByteBits, s, s[k := b], k);
  }
}
