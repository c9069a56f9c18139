/**
 How identities become file names and numbers become text. The main results are the
 injectivity lemmas: two different alarms never share a file, and a decimal length
 prefix can be read back.
 */
module Names {
  import opened Bytes
  import Wire = AlarmProtocol

  /** What names an alarm: the sender and its message id. */
  datatype Identity = Identity(source: u64, messageId: Wire.MessageId)

  const HEX: string := "0123456789abcdef"
  const SUFFIX: string := ".alarm"

  function Pow16(n: nat): (p: nat)
    ensures p > 0
  {
    if n == 0 then 1 else 16 * Pow16(n - 1)
  }

  /** The last `n` hexadecimal digits of `value`, most significant first. */
  function Digits(value: nat, n: nat): (s: string)
    ensures |s| == n
  {
    if n == 0 then "" else Digits(value / 16, n - 1) + [HEX[value % 16]]
  }

  function HexBytes(s: seq<byte>): (t: string)
    ensures |t| == 2 * |s|
  {
    if |s| == 0 then "" else HexBytes(s[..|s| - 1]) + Digits(s[|s| - 1], 2)
  }

  function FileName(id: Identity): (name: string) {
    Digits(id.source, 16) + "-" + HexBytes(id.messageId) + SUFFIX
  }

  lemma {:induction false} DigitsInjective(v: nat, w: nat, n: nat)
    requires v < Pow16(n) && w < Pow16(n)
    requires Digits(v, n) == Digits(w, n)
    ensures v == w
  {
    if n > 0 {
      var s, t := Digits(v, n), Digits(w, n);
      assert s[..n - 1] == Digits(v / 16, n - 1) && t[..n - 1] == Digits(w / 16, n - 1);
      assert s[n - 1] == HEX[v % 16] && t[n - 1] == HEX[w % 16];
      DigitsInjective(v / 16, w / 16, n - 1);
    }
  }

  lemma {:induction false} HexBytesInjective(s: seq<byte>, t: seq<byte>)
    requires HexBytes(s) == HexBytes(t)
    ensures s == t
  {
    if |s| > 0 {
      var m := |s| - 1;
      var h, g := HexBytes(s), HexBytes(t);
      assert |t| == m + 1;
      assert h[..2 * m] == HexBytes(s[..m]) && g[..2 * m] == HexBytes(t[..m]);
      assert h[2 * m..] == Digits(s[m], 2) && g[2 * m..] == Digits(t[m], 2);
      HexBytesInjective(s[..m], t[..m]);
      assert Pow16(2) == 256;
      DigitsInjective(s[m], t[m], 2);
      assert s == s[..m] + [s[m]] && t == t[..m] + [t[m]];
    }
  }

  lemma Pow16OfU64()
    ensures Pow16(16) == TWO_64
  {
    assert Pow16(4) == 0x1_0000;
    assert Pow16(8) == 0x1_0000_0000;
    assert Pow16(12) == 0x1_0000_0000_0000;
  }

  /** Different alarms have different files. */
  lemma FileNameInjective(a: Identity, b: Identity)
    requires FileName(a) == FileName(b)
    ensures a == b
  {
    var s, t := FileName(a), FileName(b);
    assert s[..16] == Digits(a.source, 16) && t[..16] == Digits(b.source, 16);
    assert s[17..49] == HexBytes(a.messageId) && t[17..49] == HexBytes(b.messageId);
    Pow16OfU64();
    DigitsInjective(a.source, b.source, 16);
    HexBytesInjective(a.messageId, b.messageId);
  }

  /** Fills the text from the right, one nibble a round. */
  method HexU64(value: u64) returns (text: string)
    ensures text == Digits(value, 16)
  {
    var output := new char[16](_ => '0');
    var rest: nat := value;
    for i := 0 to 16
      invariant Digits(value, 16) == Digits(rest, 16 - i) + output[16 - i..]
    {
      var index := 15 - i;
      ghost var tail := output[index + 1..];
      output[index] := HEX[rest % 16];
      assert output[index..] == [HEX[rest % 16]] + tail;
      rest := rest / 16;
    }
    return output[..];
  }

  /** Two characters a byte, from the left. */
  method HexMessageId(id: Wire.MessageId) returns (text: string)
    ensures text == HexBytes(id)
  {
    var output := new char[32](_ => '0');
    for i := 0 to 16
      invariant output[..2 * i] == HexBytes(id[..i])
    {
      ghost var done := output[..2 * i];
      output[2 * i] := HEX[id[i] / 16];
      output[2 * i + 1] := HEX[id[i] % 16];
      assert output[..2 * i + 2] == done + [HEX[id[i] / 16], HEX[id[i] % 16]];
      TwoDigits(id[i]);
      assert id[..i + 1][..i] == id[..i];
    }
    assert id[..16] == id;
    return output[..];
  }

  lemma TwoDigits(b: byte)
    ensures Digits(b, 2) == [HEX[b / 16], HEX[b % 16]]
  {
    assert Digits(b / 16, 1) == [HEX[b / 16]];
  }

  // ----- decimal numbers -----

  const DECIMAL: string := "0123456789"

  function Decimal(n: nat): (s: string)
    ensures |s| > 0 && forall c <- s :: c in DECIMAL
  {
    if n < 10 then [DECIMAL[n]] else Decimal(n / 10) + [DECIMAL[n % 10]]
  }

  lemma {:induction false} DecimalInjective(m: nat, n: nat)
    requires Decimal(m) == Decimal(n)
    ensures m == n
  {
    var s, t := Decimal(m), Decimal(n);
    if m >= 10 && n >= 10 {
      assert s[..|s| - 1] == Decimal(m / 10) && t[..|t| - 1] == Decimal(n / 10);
      assert s[|s| - 1] == DECIMAL[m % 10] && t[|t| - 1] == DECIMAL[n % 10];
      DecimalInjective(m / 10, n / 10);
    }
  }

  // ----- the order of path names -----

  /** Byte-wise lexicographic order, as the standard string comparison. */
  predicate Below(a: string, b: string) {
    if |a| == 0 then true
    else if |b| == 0 then false
    else a[0] < b[0] || (a[0] == b[0] && Below(a[1..], b[1..]))
  }

  /** The texts are the same up to place `k`, where `a` has the lesser character. */
  predicate LessAt(a: string, b: string, k: nat) {
    k < |a| && k < |b| && a[..k] == b[..k] && a[k] < b[k]
  }

  /** Below is: a beginning of the other, or the lesser character at the first difference. */
  lemma {:induction false} BelowExactly(a: string, b: string)
    ensures Below(a, b) <==> a <= b || exists k: nat :: LessAt(a, b, k)
  {
    if |a| > 0 && |b| > 0 {
      BelowExactly(a[1..], b[1..]);
      assert a == [a[0]] + a[1..] && b == [b[0]] + b[1..];
      if a[0] != b[0] {
        assert a[0] < b[0] ==> LessAt(a, b, 0);
        assert forall k: nat :: LessAt(a, b, k) && k > 0 ==> a[..k][0] == b[..k][0];
      } else {
        if k: nat :| LessAt(a[1..], b[1..], k) {
          assert a[..k + 1] == [a[0]] + a[1..][..k] && b[..k + 1] == [b[0]] + b[1..][..k];
          assert LessAt(a, b, k + 1);
        }
        if k: nat :| LessAt(a, b, k) {
          assert a[1..][..k - 1] == a[..k][1..] && b[1..][..k - 1] == b[..k][1..];
          assert LessAt(a[1..], b[1..], k - 1);
        }
      }
    }
  }

  lemma {:induction false} BelowTotal(a: string, b: string)
    ensures Below(a, b) || Below(b, a)
  {
    if |a| > 0 && |b| > 0 {
      BelowTotal(a[1..], b[1..]);
    }
  }

  lemma {:induction false} BelowTransitive(a: string, b: string, c: string)
    requires Below(a, b) && Below(b, c)
    ensures Below(a, c)
  {
    if |a| > 0 && a[0] == b[0] == c[0] {
      BelowTransitive(a[1..], b[1..], c[1..]);
    }
  }

  lemma {:induction false} BelowAntisymmetric(a: string, b: string)
    requires Below(a, b) && Below(b, a)
    ensures a == b
  {
    if |a| > 0 {
      BelowAntisymmetric(a[1..], b[1..]);
      assert a == [a[0]] + a[1..] && b == [b[0]] + b[1..];
    }
  }
}
