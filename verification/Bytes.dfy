/** Bytes, bitwise exclusive or, and the fixed-width little-endian numbers of the wire formats. */
module Bytes {

  type byte = x: nat | x < 256

  // ----- Exclusive or -----

  function Pow2(k: nat): (r: nat)
    ensures r > 0
  {
    if k == 0 then 1 else 2 * Pow2(k - 1)
  }

  /** Whether bit i of n is set. */
  predicate Bit(n: nat, i: nat) {
    if i == 0 then n % 2 == 1 else Bit(n / 2, i - 1)
  }

  function Xor(a: nat, b: nat): nat
    decreases a + b
  {
    if a + b == 0 then 0 else (if a % 2 == b % 2 then 0 else 1) + 2 * Xor(a / 2, b / 2)
  }

  lemma Digit(d: nat, h: nat)
    requires d < 2
    ensures (d + 2 * h) % 2 == d && (d + 2 * h) / 2 == h
  {
  }

  lemma {:induction false} XorStep(a: nat, b: nat)
    ensures Xor(a, b) % 2 == 0 <==> a % 2 == b % 2
    ensures Xor(a, b) / 2 == Xor(a / 2, b / 2)
  {
    if a + b != 0 {
      Digit(if a % 2 == b % 2 then 0 else 1, Xor(a / 2, b / 2));
    }
  }

  /** Xor is what its name says, bit by bit. */
  lemma {:induction false} XorBit(a: nat, b: nat, i: nat)
    ensures Bit(Xor(a, b), i) <==> Bit(a, i) != Bit(b, i)
  {
    XorStep(a, b);
    if i > 0 {
      XorBit(a / 2, b / 2, i - 1);
    }
  }

  /** Numbers with the same bits are equal. */
  lemma {:induction false} SameBits(a: nat, b: nat)
    requires forall i: nat :: Bit(a, i) == Bit(b, i)
    ensures a == b
    decreases a + b
  {
    assert Bit(a, 0) == Bit(b, 0);
    forall i: nat
      ensures Bit(a / 2, i) == Bit(b / 2, i)
    {
      assert Bit(a, i + 1) == Bit(b, i + 1);
    }
    if a + b > 0 {
      SameBits(a / 2, b / 2);
    }
  }

  lemma {:induction false} ZeroBits(i: nat)
    ensures !Bit(0, i)
  {
    if i > 0 {
      ZeroBits(i - 1);
    }
  }

  lemma XorZero(a: nat)
    ensures Xor(a, 0) == a
  {
    forall i: nat
      ensures Bit(Xor(a, 0), i) == Bit(a, i)
    {
      XorBit(a, 0, i);
      ZeroBits(i);
    }
    SameBits(Xor(a, 0), a);
  }

  lemma XorSelf(a: nat)
    ensures Xor(a, a) == 0
  {
    forall i: nat
      ensures Bit(Xor(a, a), i) == Bit(0, i)
    {
      XorBit(a, a, i);
      ZeroBits(i);
    }
    SameBits(Xor(a, a), 0);
  }

  lemma XorComm(a: nat, b: nat)
    ensures Xor(a, b) == Xor(b, a)
  {
    forall i: nat
      ensures Bit(Xor(a, b), i) == Bit(Xor(b, a), i)
    {
      XorBit(a, b, i);
      XorBit(b, a, i);
    }
    SameBits(Xor(a, b), Xor(b, a));
  }

  lemma XorAssoc(a: nat, b: nat, c: nat)
    ensures Xor(Xor(a, b), c) == Xor(a, Xor(b, c))
  {
    var l, r := Xor(Xor(a, b), c), Xor(a, Xor(b, c));
    forall i: nat
      ensures Bit(l, i) == Bit(r, i)
    {
      XorBit(a, b, i);
      XorBit(b, c, i);
      XorBit(Xor(a, b), c, i);
      XorBit(a, Xor(b, c), i);
    }
    SameBits(l, r);
  }

  lemma {:induction false} XorBound(a: nat, b: nat, k: nat)
    requires a < Pow2(k) && b < Pow2(k)
    ensures Xor(a, b) < Pow2(k)
    decreases k
  {
    XorStep(a, b);
    if k > 0 {
      XorBound(a / 2, b / 2, k - 1);
    }
  }

  /** XORing the same number on twice gives back the first. */
  lemma XorCancel(a: nat, b: nat)
    ensures Xor(Xor(a, b), b) == a && Xor(b, Xor(a, b)) == a
  {
    XorAssoc(a, b, b);
    XorSelf(b);
    XorZero(a);
    XorComm(b, Xor(a, b));
  }

  lemma Pow2Values()
    ensures Pow2(7) == 0x80 && Pow2(8) == 0x100 && Pow2(32) == 0x1_0000_0000
  {
    assert Pow2(4) == 0x10;
    assert Pow2(12) == 0x1000;
    assert Pow2(16) == 0x1_0000;
    assert Pow2(20) == 0x10_0000;
    assert Pow2(24) == 0x100_0000;
    assert Pow2(28) == 0x1000_0000;
  }

  function XorByte(a: byte, b: byte): (c: byte) {
    Pow2Values();
    XorBound(a, b, 8);
    Xor(a, b)
  }

  // ----- Little-endian numbers -----

  /** 256 to the power w: one more than the largest number that w bytes hold. */
  function Range(w: nat): (r: nat)
    ensures r > 0
  {
    if w == 0 then 1 else 256 * Range(w - 1)
  }

  /** The low w bytes of n, least significant first. */
  function Le(n: nat, w: nat): (b: seq<byte>)
    ensures |b| == w
    decreases w
  {
    if w == 0 then [] else [n % 256] + Le(n / 256, w - 1)
  }

  /** The number that the bytes b spell, least significant first. */
  function FromLe(b: seq<byte>): (n: nat)
    ensures n < Range(|b|)
  {
    if b == [] then 0 else b[0] + 256 * FromLe(b[1..])
  }

  lemma MulMonotone(m: nat, a: int, b: int)
    requires a <= b
    ensures m * a <= m * b
  {
  }

  lemma DivModUnique(n: nat, m: nat, q: nat, r: nat)
    requires m > 0 && r < m && n == m * q + r
    ensures n / m == q && n % m == r
  {
    var d := q - n / m;
    assert m * d == n % m - r by {
      assert n == m * (n / m) + n % m;
    }
    if d > 0 {
      MulMonotone(m, 1, d);
    } else if d < 0 {
      MulMonotone(m, d, -1);
    }
  }

  /** Adding to a number that has already wrapped. */
  lemma ModAdd(x: nat, y: nat, m: nat)
    requires m > 0
    ensures (x % m + y) % m == (x + y) % m
  {
    var q, r := (x % m + y) / m, (x % m + y) % m;
    assert x + y == m * (x / m + q) + r;
    DivModUnique(x + y, m, x / m + q, r);
  }

  lemma ModSplit(n: nat, m: nat, low: nat, high: nat)
    requires m > 0 && low == n % 256 && high == n / 256
    ensures n % (256 * m) == low + 256 * (high % m)
  {
    var q, r := high / m, high % m;
    assert n == (256 * m) * q + (256 * r + low);
    DivModUnique(n, 256 * m, q, 256 * r + low);
  }

  lemma FromLeCons(x: byte, rest: seq<byte>)
    ensures FromLe([x] + rest) == x + 256 * FromLe(rest)
  {
    assert ([x] + rest)[1..] == rest;
  }

  /** Writing a number and reading it back keeps its low w bytes, and nothing else. */
  lemma {:induction false} LeRoundTrip(n: nat, w: nat)
    ensures FromLe(Le(n, w)) == n % Range(w)
    decreases w
  {
    if w == 0 {
    } else {
      LeRoundTrip(n / 256, w - 1);
      FromLeCons(n % 256, Le(n / 256, w - 1));
      ModSplit(n, Range(w - 1), n % 256, n / 256);
    }
  }

  /** Reading bytes and writing them back is the identity. */
  lemma {:induction false} FromLeRoundTrip(b: seq<byte>)
    ensures Le(FromLe(b), |b|) == b
  {
    if b == [] {
    } else {
      FromLeRoundTrip(b[1..]);
      assert FromLe(b) % 256 == b[0] && FromLe(b) / 256 == FromLe(b[1..]);
      assert b == [b[0]] + b[1..];
    }
  }

  lemma Ranges()
    ensures Range(1) == 0x100 && Range(2) == 0x1_0000
    ensures Range(4) == 0x1_0000_0000 && Range(8) == 0x1_0000_0000_0000_0000
  {
    assert Range(3) == 256 * Range(2);
    assert Range(5) == 256 * Range(4);
    assert Range(6) == 256 * Range(5);
    assert Range(7) == 256 * Range(6);
  }

  lemma U16RoundTrip(n: nat)
    ensures FromLe(Le(n, 2)) == n % 0x1_0000
    ensures n < 0x1_0000 ==> FromLe(Le(n, 2)) == n
  {
    LeRoundTrip(n, 2);
    Ranges();
  }

  lemma U32RoundTrip(n: nat)
    ensures FromLe(Le(n, 4)) == n % 0x1_0000_0000
    ensures n < 0x1_0000_0000 ==> FromLe(Le(n, 4)) == n
  {
    LeRoundTrip(n, 4);
    Ranges();
  }
}
