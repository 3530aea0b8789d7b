/**
 The wire form of a Java long, as DataOutputStream.writeLong and DataInputStream.readLong
 define it: eight bytes, two's complement, most significant byte first.
 */
module BigEndian {
  import opened Ranking

  type Byte = x: int | 0 <= x < 256

  /** The n low-order base-256 digits of u, most significant first. */
  function Digits(u: nat, n: nat): (b: seq<Byte>)
    ensures |b| == n
  {
    if n == 0 then [] else Digits(u / 256, n - 1) + [u % 256]
  }

  function FromDigits(b: seq<Byte>): nat {
    if b == [] then 0 else FromDigits(b[..|b| - 1]) * 256 + b[|b| - 1]
  }

  function Power256(n: nat): nat {
    if n == 0 then 1 else 256 * Power256(n - 1)
  }

  lemma {:induction false} DigitsRoundTrip(u: nat, n: nat)
    requires u < Power256(n)
    ensures FromDigits(Digits(u, n)) == u
  {
    if n > 0 {
      DigitsRoundTrip(u / 256, n - 1);
      var b := Digits(u, n);
      assert b[..|b| - 1] == Digits(u / 256, n - 1);
    }
  }

  lemma {:induction false} FromDigitsRoundTrip(b: seq<Byte>)
    ensures FromDigits(b) < Power256(|b|)
    ensures Digits(FromDigits(b), |b|) == b
  {
    if b != [] {
      FromDigitsRoundTrip(b[..|b| - 1]);
      assert b == b[..|b| - 1] + [b[|b| - 1]];
    }
  }

  lemma PowerPositive(n: nat)
    ensures Power256(n) > 0
  {
  }

  lemma {:induction false} DivideTwice(u: nat, p: nat)
    requires p > 0
    ensures u / 256 / p == u / (256 * p)
  {
    var q, r := u / 256 / p, u / 256 % p;
    assert u == 256 * (q * p + r) + u % 256;
    assert u == q * (256 * p) + (256 * r + u % 256);
    assert 0 <= 256 * r + u % 256 < 256 * p;
    QuotientIs(u, 256 * p, q, 256 * r + u % 256);
  }

  lemma {:induction false} QuotientIs(u: nat, d: nat, q: nat, r: nat)
    requires d > 0 && r < d && u == q * d + r
    ensures u / d == q
  {
    var q' := u / d;
    assert (q' - q) * d == r - u % d;
    TimesAtLeast(q' - q, d);
  }

  lemma TimesAtLeast(k: int, d: nat)
    ensures k > 0 ==> k * d >= d
    ensures k < 0 ==> k * d + d <= 0
  {
  }

  /** Most significant digit first: the digit at i is worth 256 to the power n - 1 - i. */
  lemma {:induction false} DigitAt(u: nat, n: nat, i: nat)
    requires i < n
    ensures Power256(n - 1 - i) > 0
    ensures Digits(u, n)[i] == u / Power256(n - 1 - i) % 256
  {
    PowerPositive(n - 1 - i);
    if i < n - 1 {
      DigitAt(u / 256, n - 1, i);
      DivideTwice(u, Power256(n - 2 - i));
    }
  }

  const TWO_TO_64 := 0x1_0000_0000_0000_0000

  lemma EightDigits()
    ensures Power256(8) == TWO_TO_64
  {
  }

  function WriteLong(v: Long): (b: seq<Byte>)
    ensures |b| == 8
  {
    Digits(if v < 0 then v + TWO_TO_64 else v, 8)
  }

  function ReadLong(b: seq<Byte>): Long
    requires |b| == 8
  {
    FromDigitsRoundTrip(b);
    EightDigits();
    var u := FromDigits(b);
    if u > MAX_LONG then u - TWO_TO_64 else u
  }

  /** Byte i of the form of a long is the i-th from the top of its two's complement. */
  lemma ByteAt(v: Long, i: nat)
    requires i < 8
    ensures Power256(7 - i) > 0
    ensures WriteLong(v)[i] == (if v < 0 then v + TWO_TO_64 else v) / Power256(7 - i) % 256
  {
    DigitAt(if v < 0 then v + TWO_TO_64 else v, 8, i);
  }

  /** Every long survives the trip through bytes, and every eight bytes are the form of one long. */
  lemma LongRoundTrip(v: Long)
    ensures ReadLong(WriteLong(v)) == v
  {
    EightDigits();
    DigitsRoundTrip(if v < 0 then v + TWO_TO_64 else v, 8);
  }

  lemma BytesRoundTrip(b: seq<Byte>)
    requires |b| == 8
    ensures WriteLong(ReadLong(b)) == b
  {
    EightDigits();
    FromDigitsRoundTrip(b);
  }
}
