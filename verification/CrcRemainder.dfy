/**
 Which CRC it is. A polynomial over the field of two elements is the test of its exponents;
 addition is exclusive or, exponent by exponent. The main result, `ChecksumIsRemainder`, names
 no register and no constant of the code: the checksum is the complement of the one remainder
 that the message, with its first 32 bits complemented and 32 zeros behind it, leaves on
 division by

   x^32 + x^26 + x^23 + x^22 + x^16 + x^12 + x^11 + x^10 + x^8 + x^7 + x^5 + x^4 + x^2 + x + 1,

 bits taken least significant first out of each byte (section 3.2.9 of IEEE 802.3).
 */
module CrcRemainder {
  import opened Bytes
  import opened Crc32

  type Polynomial = nat -> bool

  predicate Generator(e: nat) {
    e in {32, 26, 23, 22, 16, 12, 11, 10, 8, 7, 5, 4, 2, 1, 0}
  }

  // ----- multiples -----

  /** The coefficient of x^e in the product of `g` with the terms of `f` below x^n. */
  function Coefficient(f: Polynomial, n: nat, g: Polynomial, e: nat): (c: bool) {
    if n == 0 then false
    else Coefficient(f, n - 1, g, e) != (f(n - 1) && e >= n - 1 && g(e - (n - 1)))
  }

  ghost predicate Divides(g: Polynomial, p: Polynomial, f: Polynomial, n: nat) {
    forall e: nat :: p(e) == Coefficient(f, n, g, e)
  }

  ghost predicate Multiple(p: Polynomial, g: Polynomial) {
    exists f: Polynomial, n: nat :: Divides(g, p, f, n)
  }

  function Raised(f: Polynomial, more: bool): (r: Polynomial) {
    (e: nat) => if e == 0 then more else f(e - 1)
  }

  lemma {:induction false} RaisedCoefficient(f: Polynomial, n: nat, g: Polynomial, more: bool, e: nat)
    ensures Coefficient(Raised(f, more), n + 1, g, e)
         == ((e >= 1 && Coefficient(f, n, g, e - 1)) != (more && g(e)))
  {
    var raised := Raised(f, more);
    if n == 0 {
      assert Coefficient(raised, 1, g, e) == (Coefficient(raised, 0, g, e) != (raised(0) && g(e)));
    } else {
      RaisedCoefficient(f, n - 1, g, more, e);
      assert raised(n) == f(n - 1);
    }
  }

  /** Times x, and perhaps `g` once more: a multiple stays one. */
  lemma NextMultiple(p: Polynomial, q: Polynomial, g: Polynomial, more: bool)
    requires Multiple(p, g) && forall e: nat :: q(e) == ((e >= 1 && p(e - 1)) != (more && g(e)))
    ensures Multiple(q, g)
  {
    var f: Polynomial, n: nat :| Divides(g, p, f, n);
    var raised := Raised(f, more);
    forall e: nat ensures q(e) == Coefficient(raised, n + 1, g, e) {
      RaisedCoefficient(f, n, g, more, e);
      assert e >= 1 ==> p(e - 1) == Coefficient(f, n, g, e - 1);
    }
    assert Divides(g, q, raised, n + 1);
  }

  // ----- one remainder -----

  ghost predicate Degree32(g: Polynomial) {
    g(32) && forall e: nat :: e > 32 ==> !g(e)
  }

  lemma {:induction false} Highest(f: Polynomial, n: nat, g: Polynomial, e: nat)
    requires Degree32(g) && e >= n + 32
    ensures !Coefficient(f, n, g, e)
  {
    if n > 0 {
      Highest(f, n - 1, g, e);
    }
  }

  /** A multiple that is not zero has degree 32 at least. */
  lemma {:induction false} HighTerm(f: Polynomial, n: nat, g: Polynomial, e: nat) returns (high: nat)
    requires Degree32(g) && Coefficient(f, n, g, e)
    ensures high >= 32 && Coefficient(f, n, g, high)
  {
    if f(n - 1) {
      high := n + 31;
      Highest(f, n - 1, g, high);
    } else {
      high := HighTerm(f, n - 1, g, e);
    }
  }

  function Below(f: Polynomial, n: nat): (r: Polynomial) {
    (e: nat) => e < n && f(e)
  }

  lemma {:induction false} SameTerms(f: Polynomial, h: Polynomial, n: nat, g: Polynomial, e: nat)
    requires forall i: nat :: i < n ==> f(i) == h(i)
    ensures Coefficient(f, n, g, e) == Coefficient(h, n, g, e)
  {
    if n > 0 {
      SameTerms(f, h, n - 1, g, e);
    }
  }

  lemma {:induction false} UpTo(f: Polynomial, n: nat, m: nat, g: Polynomial, e: nat)
    requires n <= m
    ensures Coefficient(Below(f, n), m, g, e) == Coefficient(f, n, g, e)
    decreases m
  {
    if m > n {
      UpTo(f, n, m - 1, g, e);
    } else {
      SameTerms(Below(f, n), f, n, g, e);
    }
  }

  function Plus(f: Polynomial, h: Polynomial): (r: Polynomial) {
    (e: nat) => f(e) != h(e)
  }

  lemma {:induction false} SumCoefficient(f: Polynomial, h: Polynomial, n: nat, g: Polynomial, e: nat)
    ensures Coefficient(Plus(f, h), n, g, e) == (Coefficient(f, n, g, e) != Coefficient(h, n, g, e))
  {
    if n > 0 {
      SumCoefficient(f, h, n - 1, g, e);
    }
  }

  lemma SumOfMultiples(p: Polynomial, q: Polynomial, g: Polynomial)
    requires Multiple(p, g) && Multiple(q, g)
    ensures Multiple(Plus(p, q), g)
  {
    var f: Polynomial, n: nat :| Divides(g, p, f, n);
    var h: Polynomial, m: nat :| Divides(g, q, h, m);
    var top := if n < m then m else n;
    var sum := Plus(Below(f, n), Below(h, m));
    forall e: nat ensures Plus(p, q)(e) == Coefficient(sum, top, g, e) {
      UpTo(f, n, top, g, e);
      UpTo(h, m, top, g, e);
      SumCoefficient(Below(f, n), Below(h, m), top, g, e);
    }
    assert Divides(g, Plus(p, q), sum, top);
  }

  /** Division leaves one remainder. */
  lemma OneRemainder(p: Polynomial, r: Polynomial, t: Polynomial, g: Polynomial, e: nat)
    requires Degree32(g) && Multiple(Plus(p, r), g) && Multiple(Plus(p, t), g)
    requires forall i: nat :: i >= 32 ==> !r(i) && !t(i)
    ensures r(e) == t(e)
  {
    SumOfMultiples(Plus(p, r), Plus(p, t), g);
    var sum := Plus(Plus(p, r), Plus(p, t));
    var f: Polynomial, n: nat :| Divides(g, sum, f, n);
    assert forall i: nat :: Coefficient(f, n, g, i) == sum(i) == (r(i) != t(i));
    if Coefficient(f, n, g, e) {
      var high := HighTerm(f, n, g, e);
      assert false;
    }
  }

  // ----- the register as a polynomial -----

  /** Bit 0 of the register is the coefficient of x^31. */
  function Residue(crc: Register): (p: Polynomial) {
    (e: nat) => if e < 32 then Place(crc, e) else false
  }

  predicate Place(crc: Register, e: nat)
    requires e < 32
  {
    crc[31 - e]
  }

  /** The register constant `poly` stands for the generator `g`, whose x^32 it leaves away. */
  ghost predicate StandsFor(poly: Register, g: Polynomial) {
    Degree32(g) && forall e: nat :: e < 32 ==> Place(poly, e) == g(e)
  }

  /** One more bit: times x, the bit added at x^32, and the generator taken off if x^32 comes up. */
  lemma BitStep(poly: Register, g: Polynomial, crc: Register, bit: bool, e: nat)
    requires StandsFor(poly, g) && e < 32
    ensures Place(AddBit(poly, crc, bit), e) == ((e >= 1 && Place(crc, e - 1)) != ((crc[0] != bit) && g(e)))
  {
    assert Place(poly, e) == g(e);
  }

  // ----- the message as a polynomial -----

  /** The bits, the first one highest, the 32 highest places complemented, times x^32. */
  function Dividend(bits: seq<bool>): (p: Polynomial) {
    (e: nat) => (if 32 <= e < 32 + |bits| then bits[|bits| + 31 - e] else false) != (|bits| <= e < |bits| + 32)
  }

  lemma NextDividend(bits: seq<bool>, bit: bool, e: nat)
    ensures Dividend(bits + [bit])(e) == ((e >= 1 && Dividend(bits)(e - 1)) != (bit && e == 32))
  {
    var longer := bits + [bit];
    assert 33 <= e < 33 + |bits| ==> longer[|bits| + 32 - e] == bits[|bits| + 32 - e];
  }

  /** The register is, at every bit, what the division of the bits so far leaves. */
  lemma {:induction false} RegisterIsRemainder(poly: Register, initial: Register, g: Polynomial, bits: seq<bool>)
    requires StandsFor(poly, g) && forall e: nat :: e < 32 ==> Place(initial, e)
    ensures Multiple(Plus(Dividend(bits), Residue(Fold(AddBit, poly, initial, bits))), g)
  {
    if |bits| == 0 {
      NothingLeft(initial, g);
      assert bits == [];
    } else {
      var n := |bits| - 1;
      RegisterIsRemainder(poly, initial, g, bits[..n]);
      NextRemainder(poly, g, bits[..n], bits[n], Fold(AddBit, poly, initial, bits[..n]));
      assert bits == bits[..n] + [bits[n]];
    }
  }

  lemma NothingLeft(initial: Register, g: Polynomial)
    requires forall e: nat :: e < 32 ==> Place(initial, e)
    ensures Multiple(Plus(Dividend([]), Residue(initial)), g)
  {
    var zero: Polynomial := (e: nat) => false;
    forall e: nat ensures Plus(Dividend([]), Residue(initial))(e) == Coefficient(zero, 0, g, e) {
    }
    assert Divides(g, Plus(Dividend([]), Residue(initial)), zero, 0);
  }

  lemma NextRemainder(poly: Register, g: Polynomial, front: seq<bool>, bit: bool, crc: Register)
    requires StandsFor(poly, g) && Multiple(Plus(Dividend(front), Residue(crc)), g)
    ensures Multiple(Plus(Dividend(front + [bit]), Residue(AddBit(poly, crc, bit))), g)
  {
    var p := Plus(Dividend(front), Residue(crc));
    var q := Plus(Dividend(front + [bit]), Residue(AddBit(poly, crc, bit)));
    forall e: nat ensures q(e) == ((e >= 1 && p(e - 1)) != ((crc[0] != bit) && g(e))) {
      NextDividend(front, bit, e);
      if e < 32 {
        BitStep(poly, g, crc, bit, e);
      } else if e == 32 {
        assert Residue(crc)(31) == crc[0];
      }
    }
    NextMultiple(p, q, g, crc[0] != bit);
  }

  // ----- the constants of the code -----

  lemma {:induction false} DigitOfBits(n: nat, width: nat, i: nat)
    requires i < width
    ensures Bits(n, width)[i] == (Digit(n, i) == 1)
  {
    if i > 0 {
      DigitOfBits(n / 2, width - 1, i - 1);
    }
  }

  /** The digits of a number, four at a time. */
  lemma FourDigits(n: nat, i: nat)
    ensures Digit(n, 0) == n % 2 && Digit(n, 1) == n / 2 % 2 && Digit(n, 2) == n / 4 % 2 && Digit(n, 3) == n / 8 % 2
    ensures i >= 4 ==> Digit(n, i) == Digit(n / 16, i - 4)
  {
    var half, quarter, eighth := n / 2, n / 4, n / 8;
    assert half / 2 == quarter && quarter / 2 == eighth && eighth / 2 == n / 16;
    assert Digit(n, 1) == Digit(half, 0) && Digit(n, 2) == Digit(half, 1) && Digit(half, 1) == Digit(quarter, 0);
    assert Digit(n, 3) == Digit(half, 2) && Digit(half, 2) == Digit(quarter, 1);
    assert Digit(quarter, 1) == Digit(eighth, 0);
    if i >= 4 {
      assert Digit(n, i) == Digit(half, i - 1) && Digit(half, i - 1) == Digit(quarter, i - 2);
      assert Digit(quarter, i - 2) == Digit(eighth, i - 3) && Digit(eighth, i - 3) == Digit(n / 16, i - 4);
    }
  }

  /** Eight digits of the code's constant at a time, next to the exponents they stand for. */
  lemma DigitsOf20And83(i: nat)
    requires i < 8
    ensures (Digit(0x20, i) == 1 <==> Generator(31 - i)) && (Digit(0x83, i) == 1 <==> Generator(23 - i))
  {
    FourDigits(0x20, i);
    FourDigits(0x2, 0);
    FourDigits(0x83, i);
    FourDigits(0x8, 0);
  }

  lemma DigitsOfB8AndED(i: nat)
    requires i < 8
    ensures (Digit(0xb8, i) == 1 <==> Generator(15 - i)) && (Digit(0xed, i) == 1 <==> Generator(7 - i))
  {
    FourDigits(0xb8, i);
    FourDigits(0xb, 0);
    FourDigits(0xed, i);
    FourDigits(0xe, 0);
  }

  lemma {:induction false} SplitDigits(high: nat, low: nat, width: nat, i: nat)
    requires low < Pow2(width)
    ensures Digit(high * Pow2(width) + low, i) == if i < width then Digit(low, i) else Digit(high, i - width)
    decreases width
  {
    if width > 0 {
      var n := high * Pow2(width) + low;
      assert n == 2 * (high * Pow2(width - 1)) + low;
      assert n / 2 == high * Pow2(width - 1) + low / 2 && n % 2 == low % 2;
      if i > 0 {
        SplitDigits(high, low / 2, width - 1, i - 1);
      }
    }
  }

  lemma UpperDigits(i: nat)
    requires i < 16
    ensures Digit(0xedb8, i) == 1 <==> Generator(15 - i)
  {
    Pow2Values();
    SplitDigits(0xed, 0xb8, 8, i);
    DigitsOfB8AndED(i % 8);
  }

  lemma MiddleDigits(i: nat)
    requires i < 24
    ensures Digit(0xed_b883, i) == 1 <==> Generator(23 - i)
  {
    Pow2Values();
    SplitDigits(0xedb8, 0x83, 8, i);
    if i < 8 {
      DigitsOf20And83(i);
    } else {
      UpperDigits(i - 8);
    }
  }

  lemma PolynomialDigits(i: nat)
    requires i < 32
    ensures Digit(POLYNOMIAL, i) == 1 <==> Generator(31 - i)
  {
    Pow2Values();
    SplitDigits(0xed_b883, 0x20, 8, i);
    if i < 8 {
      DigitsOf20And83(i);
    } else {
      MiddleDigits(i - 8);
    }
  }

  lemma PolynomialIsGenerator()
    ensures StandsFor(Bits(POLYNOMIAL, 32), Generator)
  {
    forall e: nat | e < 32 ensures Place(Bits(POLYNOMIAL, 32), e) == Generator(e) {
      DigitOfBits(POLYNOMIAL, 32, 31 - e);
      PolynomialDigits(31 - e);
    }
  }

  lemma {:induction false} AllOnes(width: nat, i: nat)
    requires i < width
    ensures Bits(Pow2(width) - 1, width)[i]
  {
    assert (Pow2(width) - 1) / 2 == Pow2(width - 1) - 1;
    if i > 0 {
      AllOnes(width - 1, i - 1);
    }
  }

  lemma InitialIsOnes(e: nat)
    requires e < 32
    ensures Place(Bits(INITIAL, 32), e)
  {
    AllOnes(32, 31 - e);
    Pow2Values();
  }

  // ----- the checksum -----

  /** Bit `j` of a byte string: the least significant bit of the first byte comes first. */
  predicate BitAt(s: seq<byte>, j: nat)
    requires j < 8 * |s|
  {
    Digit(s[j / 8], j % 8) == 1
  }

  lemma {:induction false} BitsOfAt(s: seq<byte>, j: nat)
    requires j < 8 * |s|
    ensures BitsOf(s)[j] == BitAt(s, j)
  {
    var n := |s| - 1;
    assert BitsOf(s) == BitsOf(s[..n]) + ByteBits(s[n]);
    if j < 8 * n {
      BitsOfAt(s[..n], j);
      assert s[..n][j / 8] == s[j / 8];
    } else {
      assert j / 8 == n && j % 8 == j - 8 * n;
      DigitOfBits(s[n], 8, j - 8 * n);
    }
  }

  /** The message as the standard reads it: its bits, complemented in the 32 highest places, times x^32. */
  function Transmitted(s: seq<byte>): (p: Polynomial) {
    (e: nat) => (if 32 <= e < 32 + 8 * |s| then BitAt(s, 8 * |s| + 31 - e) else false) != (8 * |s| <= e < 8 * |s| + 32)
  }

  /** A checksum is sent complemented, the coefficient of x^31 in its lowest bit. */
  function Complemented(crc: u32): (p: Polynomial) {
    (e: nat) => e < 32 && Digit(crc, 31 - e) == 0
  }

  lemma SentResidue(crc: Register, initial: Register, e: nat)
    requires forall e: nat :: e < 32 ==> Place(initial, e)
    ensures Number(Xor(crc, initial)) < 0x1_0000_0000
    ensures Complemented(Number(Xor(crc, initial)))(e) == Residue(crc)(e)
  {
    Pow2Values();
    if e < 32 {
      DigitOfNumber(Xor(crc, initial), 31 - e);
      assert Place(initial, e);
    }
  }

  lemma TransmittedIsDividend(s: seq<byte>, e: nat)
    ensures Transmitted(s)(e) == Dividend(BitsOf(s))(e)
  {
    if 32 <= e < 32 + 8 * |s| {
      BitsOfAt(s, 8 * |s| + 31 - e);
    }
  }

  lemma FinishDivides(poly: Register, initial: Register, g: Polynomial, s: seq<byte>)
    requires StandsFor(poly, g) && forall e: nat :: e < 32 ==> Place(initial, e)
    ensures Multiple(Plus(Transmitted(s), Complemented(Finish(poly, initial, s))), g)
  {
    RegisterIsRemainder(poly, initial, g, BitsOf(s));
    UpdateIsBitwise(poly, initial, s);
    var p := Plus(Dividend(BitsOf(s)), Residue(Update(poly, initial, s)));
    var q := Plus(Transmitted(s), Complemented(Finish(poly, initial, s)));
    var f: Polynomial, n: nat :| Divides(g, p, f, n);
    forall e: nat ensures q(e) == Coefficient(f, n, g, e) {
      SentResidue(Update(poly, initial, s), initial, e);
      TransmittedIsDividend(s, e);
      assert p(e) == Coefficient(f, n, g, e);
    }
    assert Divides(g, q, f, n);
  }

  lemma {:induction false} DigitIsBinary(n: nat, i: nat)
    ensures Digit(n, i) < 2
  {
    if i > 0 {
      DigitIsBinary(n / 2, i - 1);
    }
  }

  lemma ComplementedInjective(c: u32, d: u32)
    requires forall e: nat :: Complemented(c)(e) == Complemented(d)(e)
    ensures c == d
  {
    forall i | 0 <= i < 32 ensures Bits(c, 32)[i] == Bits(d, 32)[i] {
      DigitOfBits(c, 32, i);
      DigitOfBits(d, 32, i);
      DigitIsBinary(c, i);
      DigitIsBinary(d, i);
      assert Complemented(c)(31 - i) == Complemented(d)(31 - i);
    }
    Pow2Values();
    BitsInjective(c, d, 32);
  }

  /**
   The checksum is the one number that makes message and remainder together divisible by the
   generator of CRC-32.
   */
  lemma ChecksumIsRemainder(s: seq<byte>, crc: u32)
    ensures crc == Checksum(s) <==> Multiple(Plus(Transmitted(s), Complemented(crc)), Generator)
  {
    var initial: Register := Bits(INITIAL, 32);
    forall e: nat | e < 32 ensures Place(initial, e) {
      InitialIsOnes(e);
    }
    PolynomialIsGenerator();
    FinishDivides(Bits(POLYNOMIAL, 32), initial, Generator, s);
    if Multiple(Plus(Transmitted(s), Complemented(crc)), Generator) {
      forall e: nat ensures Complemented(crc)(e) == Complemented(Checksum(s))(e) {
        OneRemainder(Transmitted(s), Complemented(crc), Complemented(Checksum(s)), Generator, e);
      }
      ComplementedInjective(crc, Checksum(s));
    }
  }
}
