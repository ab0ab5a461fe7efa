/**
 The checksum of match-server/crypto/crc7.go. The table that the Go code builds and folds over the packet is
 related to its meaning: the remainder of the message polynomial, times x^7, divided by x^7 + x^3 + 1 over GF(2).
 Polynomials are naturals, bit i being the coefficient of x^i, and their addition is Xor.
 */
module Crc7 {
  import opened Bytes

  const POLY := 0x09
  const DIVISOR := 0x89

  // ----- One bit at a time -----

  /** One turn of the innermost loop: the register c takes in the message bit. */
  function BitStep(c: nat, bit: bool): nat
    requires c < 128
  {
    var poly := if (c / 64 == 1) != bit then POLY else 0;
    Xor(2 * c, poly) % 128
  }

  function CrcBits(c: nat, bits: seq<bool>): (r: nat)
    requires c < 128
    ensures r < 128
    decreases |bits|
  {
    if bits == [] then c else CrcBits(BitStep(c, bits[0]), bits[1..])
  }

  /** The bits of a byte, most significant first. */
  function TopBits(d: byte): (bits: seq<bool>)
    ensures |bits| == 8
  {
    seq(8, i requires 0 <= i < 8 => Bit(d, 7 - i))
  }

  function BitsOf(buf: seq<byte>): (bits: seq<bool>)
    ensures |bits| == 8 * |buf|
  {
    if buf == [] then [] else TopBits(buf[0]) + BitsOf(buf[1..])
  }

  /** The checksum of buf, from a seed that is cut to seven bits. */
  function Crc(seed: byte, buf: seq<byte>): (r: nat)
    ensures r < 128
  {
    CrcBits(seed % 128, BitsOf(buf))
  }

  lemma {:induction false} CrcBitsConcat(c: nat, a: seq<bool>, b: seq<bool>)
    requires c < 128
    ensures CrcBits(c, a + b) == CrcBits(CrcBits(c, a), b)
    decreases |a|
  {
    if a == [] {
      assert a + b == b;
    } else {
      assert (a + b)[1..] == a[1..] + b;
      CrcBitsConcat(BitStep(c, a[0]), a[1..], b);
    }
  }

  lemma {:induction false} BitsOfConcat(a: seq<byte>, b: seq<byte>)
    ensures BitsOf(a + b) == BitsOf(a) + BitsOf(b)
  {
    if a == [] {
      assert a + b == b;
    } else {
      assert (a + b)[1..] == a[1..] + b;
      BitsOfConcat(a[1..], b);
    }
  }

  /** Folding a buffer piece by piece is folding it whole. */
  lemma CrcConcat(seed: byte, a: seq<byte>, b: seq<byte>)
    ensures Crc(seed, a + b) == Crc(Crc(seed, a), b)
  {
    BitsOfConcat(a, b);
    CrcBitsConcat(seed % 128, BitsOf(a), BitsOf(b));
  }

  // ----- The table-driven code -----

  /** The entry for register i and byte j. */
  function Entry(i: nat, j: byte): nat
    requires i < 128
  {
    CrcBits(i, TopBits(j))
  }

  /** The package's table, as its initialisation leaves it. */
  ghost predicate IsTable(table: array2<byte>)
    reads table
  {
    && table.Length0 == 128 && table.Length1 == 256
    && forall i, j :: 0 <= i < 128 && 0 <= j < 256 ==> table[i, j] == Entry(i, j)
  }

  method BuildTable() returns (table: array2<byte>)
    ensures IsTable(table)
  {
    table := new byte[128, 256]((i, j) => 0);
    for i := 0 to 128
      invariant forall k, j :: 0 <= k < i && 0 <= j < 256 ==> table[k, j] == Entry(k, j)
    {
      for j := 0 to 256
        invariant forall k, l :: 0 <= k < i && 0 <= l < 256 ==> table[k, l] == Entry(k, l)
        invariant forall l :: 0 <= l < j ==> table[i, l] == Entry(i, l)
      {
        var crc := FoldByte(i, j);
        table[i, j] := crc;
      }
    }
  }

  /** The innermost loop of the table construction. */
  method FoldByte(i: nat, j: byte) returns (crc: byte)
    requires i < 128
    ensures crc == Entry(i, j)
  {
    crc := i;
    var data := j;
    ghost var bits := TopBits(j);
    assert bits[0..] == bits;
    for bit := 0 to 8
      invariant crc < 128 && CrcBits(crc, bits[bit..]) == Entry(i, j)
      invariant forall k: nat :: k + bit < 8 ==> Bit(data, k + bit) == Bit(j, k)
    {
      assert bits[bit] == Bit(j, 7 - bit) == Bit(data, 7);
      assert bits[bit..][1..] == bits[bit + 1..];
      crc, data := TurnBit(crc, data);
    }
  }

  /** One turn of that loop: the top bit of the data goes into the register, the others move up. */
  method TurnBit(crc: byte, data: byte) returns (crc': byte, data': byte)
    requires crc < 128
    ensures crc' == BitStep(crc, Bit(data, 7))
    ensures forall k: nat :: k < 7 ==> Bit(data', k + 1) == Bit(data, k)
  {
    var poly := 0;
    if (crc / 64 == 1) != (data / 128 == 1) {
      poly := POLY;
    }
    Fits(crc);
    SeventhBit(data);
    crc' := XorByte((2 * crc) % 256, poly) % 128;
    ShiftUp(data);
    data' := (2 * data) % 256;
  }

  lemma SeventhBit(x: nat)
    requires x < 256
    ensures Bit(x, 7) <==> x >= 128
  {
    TopBitOf(x / 2);
  }

  lemma ShiftUp(d: byte)
    ensures forall k: nat :: k < 7 ==> Bit((2 * d) % 256, k + 1) == Bit(d, k)
  {
    forall k: nat | k < 7
      ensures Bit((2 * d) % 256, k + 1) == Bit(d, k)
    {
      ShiftUpBit(d, 2 * d, k);
    }
  }

  lemma ShiftUpBit(d: nat, twice: nat, k: nat)
    requires twice == 2 * d && k < 7
    ensures Bit(twice % 256, k + 1) == Bit(d, k)
  {
    BitMod(twice, 8, k + 1);
    assert Pow2(8) == 256 by {
      Pow2Values();
    }
    assert twice / 2 == d;
  }

  method CRC7(table: array2<byte>, seed: byte, buf: seq<byte>) returns (r: byte)
    requires IsTable(table)
    ensures r == Crc(seed, buf)
  {
    var c: byte := seed % 128;
    for n := 0 to |buf|
      invariant c < 128 && CrcBits(c, BitsOf(buf[n..])) == Crc(seed, buf)
    {
      CrcBitsConcat(c, TopBits(buf[n]), BitsOf(buf[n + 1..]));
      assert buf[n..][1..] == buf[n + 1..];
      c := table[c, buf[n]];
    }
    r := c % 128;
  }

  // ----- The register as a polynomial -----

  /** The number h with one more bit below it. */
  function Join(h: nat, d: bool): (n: nat)
    ensures n / 2 == h && (n % 2 == 1 <==> d)
  {
    2 * h + if d then 1 else 0
  }

  lemma {:induction false} XorJoin(a: nat, p: bool, b: nat, q: bool)
    ensures Xor(Join(a, p), Join(b, q)) == Join(Xor(a, b), p != q)
  {
    XorStep(Join(a, p), Join(b, q));
  }

  lemma ModDouble(a: nat, m: nat)
    requires m > 0
    ensures a % (2 * m) == a % 2 + 2 * ((a / 2) % m)
  {
    var q, r := (a / 2) / m, (a / 2) % m;
    assert a == (2 * m) * q + (2 * r + a % 2);
    DivModUnique(a, 2 * m, q, 2 * r + a % 2);
  }

  lemma {:induction false} BitMod(a: nat, k: nat, i: nat)
    ensures Bit(a % Pow2(k), i) <==> i < k && Bit(a, i)
    decreases k
  {
    if k == 0 {
      ZeroBits(i);
    } else {
      ModDouble(a, Pow2(k - 1));
      Digit(a % 2, (a / 2) % Pow2(k - 1));
      if i > 0 {
        BitMod(a / 2, k - 1, i - 1);
      }
    }
  }

  /** Xor works below any bit independently of what is above it. */
  lemma XorMod(a: nat, b: nat, k: nat)
    ensures Xor(a, b) % Pow2(k) == Xor(a % Pow2(k), b % Pow2(k))
  {
    var l, r := Xor(a, b) % Pow2(k), Xor(a % Pow2(k), b % Pow2(k));
    forall i: nat
      ensures Bit(l, i) == Bit(r, i)
    {
      BitMod(Xor(a, b), k, i);
      BitMod(a, k, i);
      BitMod(b, k, i);
      XorBit(a, b, i);
      XorBit(a % Pow2(k), b % Pow2(k), i);
    }
    SameBits(l, r);
  }

  lemma Fits(u: nat)
    requires u < 128
    ensures u % 128 == u && (2 * u) % 256 == 2 * u && (2 * u) % 128 == 2 * (u % 64)
    ensures u % 64 == if u >= 64 then u - 64 else u
  {
  }

  lemma XorMod128(a: nat, b: nat)
    ensures Xor(a, b) % 128 == Xor(a % 128, b % 128)
  {
    Pow2Values();
    XorMod(a, b, 7);
  }

  lemma XorBound128(a: nat, b: nat)
    requires a < 128 && b < 128
    ensures Xor(a, b) < 128
  {
    Pow2Values();
    XorBound(a, b, 7);
  }

  lemma XorSwap(a: nat, b: nat, c: nat, d: nat)
    ensures Xor(Xor(a, b), Xor(c, d)) == Xor(Xor(a, c), Xor(b, d))
  {
    XorAssoc(a, b, Xor(c, d));
    XorAssoc(b, c, d);
    XorComm(b, c);
    XorAssoc(c, b, d);
    XorAssoc(a, c, Xor(b, d));
  }

  lemma TopBitOf(c: nat)
    requires c < 128
    ensures Bit(c, 6) <==> c >= 64
  {
    var c1 := c / 2;
    var c2 := c1 / 2;
    var c3 := c2 / 2;
    var c4 := c3 / 2;
    var c5 := c4 / 2;
    assert Bit(c, 6) == Bit(c1, 5);
    assert Bit(c1, 5) == Bit(c2, 4);
    assert Bit(c2, 4) == Bit(c3, 3);
    assert Bit(c3, 3) == Bit(c4, 2);
    assert Bit(c4, 2) == Bit(c5, 1);
    assert Bit(c5, 1) == Bit(c5 / 2, 0);
  }

  function One(on: bool, v: nat): nat {
    if on then v else 0
  }

  /** Multiplication by x, modulo the divisor. */
  function TimesX(c: nat): (r: nat)
    requires c < 128
    ensures r < 128
  {
    XorBound128(2 * (c % 64), One(c >= 64, POLY));
    Xor(2 * (c % 64), One(c >= 64, POLY))
  }

  lemma OneXor(p: bool, q: bool, v: nat)
    ensures Xor(One(p, v), One(q, v)) == One(p != q, v)
  {
    XorZero(v);
    XorSelf(v);
    XorComm(0, v);
    XorZero(0);
  }

  /** The register is multiplied by x and the message bit comes in as x^7. */
  lemma BitStepIs(c: nat, bit: bool)
    requires c < 128
    ensures BitStep(c, bit) == Xor(TimesX(c), One(bit, POLY))
  {
    StepSplits(c, c >= 64, bit, POLY);
  }

  lemma StepSplits(c: nat, top: bool, bit: bool, v: nat)
    requires c < 128 && v < 128
    ensures Xor(2 * c, One(top != bit, v)) % 128 == Xor(Xor(2 * (c % 64), One(top, v)), One(bit, v))
  {
    OneXor(top, bit, v);
    Fits(c);
    XorCut(2 * c, 2 * (c % 64), One(top, v), One(bit, v));
  }

  lemma XorCut(x: nat, y: nat, t: nat, b: nat)
    requires x % 128 == y && Xor(t, b) < 128
    ensures Xor(x, Xor(t, b)) % 128 == Xor(Xor(y, t), b)
  {
    XorMod128(x, Xor(t, b));
    Fits(Xor(t, b));
    XorAssoc(y, t, b);
  }

  lemma TimesXLinear(a: nat, b: nat)
    requires a < 128 && b < 128
    ensures Xor(a, b) < 128 && TimesX(Xor(a, b)) == Xor(TimesX(a), TimesX(b))
  {
    var s := Xor(a, b);
    XorBound128(a, b);
    assert s % 64 == Xor(a % 64, b % 64) by {
      assert Pow2(6) == 64;
      XorMod(a, b, 6);
    }
    XorJoin(a % 64, false, b % 64, false);
    TopBitOf(a);
    TopBitOf(b);
    TopBitOf(s);
    XorBit(a, b, 6);
    OneXor(a >= 64, b >= 64, POLY);
    XorSwap(2 * (a % 64), One(a >= 64, POLY), 2 * (b % 64), One(b >= 64, POLY));
  }

  function XorBits(m: seq<bool>, n: seq<bool>): (r: seq<bool>)
    requires |m| == |n|
    ensures |r| == |m|
  {
    seq(|m|, i requires 0 <= i < |m| => m[i] != n[i])
  }

  lemma BitStepLinear(a: nat, b: nat, p: bool, q: bool)
    requires a < 128 && b < 128
    ensures Xor(a, b) < 128 && BitStep(Xor(a, b), p != q) == Xor(BitStep(a, p), BitStep(b, q))
  {
    TimesXLinear(a, b);
    BitStepIs(a, p);
    BitStepIs(b, q);
    BitStepIs(Xor(a, b), p != q);
    OneXor(p, q, POLY);
    XorSwap(TimesX(a), One(p, POLY), TimesX(b), One(q, POLY));
  }

  /** The checksum is linear over GF(2), in the seed and the message together. */
  lemma {:induction false} CrcBitsLinear(a: nat, b: nat, m: seq<bool>, n: seq<bool>)
    requires a < 128 && b < 128 && |m| == |n|
    ensures Xor(a, b) < 128 && CrcBits(Xor(a, b), XorBits(m, n)) == Xor(CrcBits(a, m), CrcBits(b, n))
    decreases |m|
  {
    XorBound128(a, b);
    if m != [] {
      BitStepLinear(a, b, m[0], n[0]);
      assert XorBits(m, n)[1..] == XorBits(m[1..], n[1..]);
      CrcBitsLinear(BitStep(a, m[0]), BitStep(b, n[0]), m[1..], n[1..]);
    }
  }

  // ----- Division -----

  /** Long division: bring down a bit, and subtract the divisor if it fits. */
  function DivStep(r: nat, bit: bool): nat {
    var s := Join(r, bit);
    if s >= 128 then Xor(s, DIVISOR) else s
  }

  function Remainder(r: nat, bits: seq<bool>): nat
    decreases |bits|
  {
    if bits == [] then r else Remainder(DivStep(r, bits[0]), bits[1..])
  }

  lemma DivStepIs(r: nat, bit: bool)
    requires r < 128
    ensures DivStep(r, bit) == Xor(TimesX(r), One(bit, 1)) < 128
  {
    XorBound128(TimesX(r), One(bit, 1));
    Fits(r);
    if r >= 64 {
      Subtract(r - 64, bit, POLY);
    } else {
      XorZero(2 * r);
      XorJoin(r, false, 0, bit);
      XorZero(r);
    }
  }

  lemma Subtract(x: nat, bit: bool, v: nat)
    requires x < 64 && v < 128
    ensures Xor(Join(x + 64, bit), 128 + v) == Xor(Xor(2 * x, v), One(bit, 1))
  {
    assert Join(x + 64, bit) == 128 + Join(x, bit);
    XorTop128(Join(x, bit), v);
    XorJoin(x, false, 0, bit);
    XorZero(x);
    XorExchange(2 * x, One(bit, 1), v);
  }

  lemma XorTop128(a: nat, b: nat)
    requires a < 128 && b < 128
    ensures Xor(128 + a, 128 + b) == Xor(a, b)
  {
    Pow2Values();
    XorTop(a, b, 7);
  }

  lemma XorExchange(a: nat, b: nat, c: nat)
    ensures Xor(Xor(a, b), c) == Xor(Xor(a, c), b)
  {
    XorAssoc(a, b, c);
    XorComm(b, c);
    XorAssoc(a, c, b);
  }

  /** A common bit above both numbers cancels. */
  lemma {:induction false} XorTop(a: nat, b: nat, k: nat)
    requires a < Pow2(k) && b < Pow2(k)
    ensures Xor(Pow2(k) + a, Pow2(k) + b) == Xor(a, b)
    decreases k
  {
    if k == 0 {
      XorSelf(1);
    } else {
      XorTop(a / 2, b / 2, k - 1);
      XorTopStep(a, b, Pow2(k - 1));
    }
  }

  lemma EvenPlus(p: nat, a: nat)
    ensures (2 * p + a) / 2 == p + a / 2 && (2 * p + a) % 2 == a % 2
  {
  }

  lemma XorTopStep(a: nat, b: nat, p: nat)
    requires Xor(p + a / 2, p + b / 2) == Xor(a / 2, b / 2)
    ensures Xor(2 * p + a, 2 * p + b) == Xor(a, b)
  {
    EvenPlus(p, a);
    EvenPlus(p, b);
    XorStep(2 * p + a, 2 * p + b);
    XorStep(a, b);
  }

  /** The product of two polynomials. */
  function Times(a: nat, b: nat): nat {
    if a == 0 then 0 else Xor(One(a % 2 == 1, b), Join(Times(a / 2, b), false))
  }

  /** The polynomial whose coefficients, highest first, are bits, below those of n. */
  function Poly(n: nat, bits: seq<bool>): nat
    decreases |bits|
  {
    if bits == [] then n else Poly(Join(n, bits[0]), bits[1..])
  }

  lemma TimesJoin(q: nat, b: nat, odd: bool)
    ensures Times(Join(q, odd), b) == Xor(One(odd, b), Join(Times(q, b), false))
  {
    XorZero(0);
  }

  lemma XorShed(d: nat, u: nat, s: nat)
    ensures Xor(Xor(d, u), Xor(s, d)) == Xor(u, s)
  {
    XorComm(d, u);
    XorSwap(u, d, s, d);
    XorSelf(d);
    XorZero(Xor(u, s));
  }

  /** One step of long division keeps dividend == quotient * divisor + remainder. */
  lemma DivStepKeeps(n: nat, q: nat, r: nat, bit: bool, fits: bool, d: nat)
    requires n == Xor(Times(q, d), r)
    ensures Join(n, bit) ==
            Xor(Times(Join(q, fits), d), if fits then Xor(Join(r, bit), d) else Join(r, bit))
  {
    var t := Times(q, d);
    TimesJoin(q, d, fits);
    XorJoin(t, false, r, bit);
    if fits {
      XorShed(d, Join(t, false), Join(r, bit));
    } else {
      XorComm(0, Join(t, false));
      XorZero(Join(t, false));
    }
  }

  lemma {:induction false} DivisionGoesOn(n: nat, q: nat, r: nat, bits: seq<bool>) returns (q': nat)
    requires r < 128 && n == Xor(Times(q, DIVISOR), r)
    ensures Remainder(r, bits) < 128
    ensures Poly(n, bits) == Xor(Times(q', DIVISOR), Remainder(r, bits))
    decreases |bits|
  {
    if bits == [] {
      q' := q;
    } else {
      var fits := Join(r, bits[0]) >= 128;
      DivStepKeeps(n, q, r, bits[0], fits, DIVISOR);
      DivStepIs(r, bits[0]);
      q' := DivisionGoesOn(Join(n, bits[0]), Join(q, fits), DivStep(r, bits[0]), bits[1..]);
    }
  }

  function Falses(n: nat): (z: seq<bool>)
    ensures |z| == n
  {
    seq(n, _ => false)
  }

  /** The register after the rest of the message is the remainder with seven more zeros brought down. */
  function Shift(r: nat, n: nat): (s: nat)
    requires r < 128
    ensures s < 128
    decreases n
  {
    if n == 0 then r else Shift(TimesX(r), n - 1)
  }

  lemma {:induction false} ShiftLinear(a: nat, b: nat, n: nat)
    requires a < 128 && b < 128
    ensures Xor(a, b) < 128 && Shift(Xor(a, b), n) == Xor(Shift(a, n), Shift(b, n))
    decreases n
  {
    TimesXLinear(a, b);
    if n > 0 {
      ShiftLinear(TimesX(a), TimesX(b), n - 1);
    }
  }

  lemma {:induction false} ShiftTimesX(r: nat, n: nat)
    requires r < 128
    ensures Shift(TimesX(r), n) == TimesX(Shift(r, n))
    decreases n
  {
    if n > 0 {
      ShiftTimesX(TimesX(r), n - 1);
    }
  }

  lemma TimesXSmall(c: nat)
    requires c < 64
    ensures TimesX(c) == 2 * c
  {
    Fits(c);
    XorZero(2 * c);
  }

  lemma ShiftSmall(c: nat, n: nat)
    requires c < 64
    ensures Shift(c, n + 1) == Shift(2 * c, n)
  {
    TimesXSmall(c);
  }

  /** x^7 is POLY, modulo the divisor. */
  lemma ShiftOne(on: bool)
    ensures Shift(One(on, 1), 7) == One(on, POLY)
  {
    if on {
      ShiftSmall(1, 6);
      ShiftSmall(2, 5);
      ShiftSmall(4, 4);
      ShiftSmall(8, 3);
      ShiftSmall(16, 2);
      ShiftSmall(32, 1);
      XorComm(0, POLY);
      XorZero(POLY);
    } else {
      ShiftZero(7);
    }
  }

  lemma {:induction false} RegisterIsRemainder(r: nat, bits: seq<bool>)
    requires r < 128
    ensures Remainder(r, bits) < 128
    ensures CrcBits(Shift(r, 7), bits) == Shift(Remainder(r, bits), 7)
    decreases |bits|
  {
    if bits != [] {
      var t, one := TimesX(r), One(bits[0], 1);
      DivStepIs(r, bits[0]);
      ShiftLinear(t, one, 7);
      ShiftOne(bits[0]);
      ShiftTimesX(r, 7);
      BitStepIs(Shift(r, 7), bits[0]);
      RegisterIsRemainder(DivStep(r, bits[0]), bits[1..]);
    }
  }

  lemma {:induction false} RemainderOfZeros(r: nat, n: nat)
    requires r < 128
    ensures Remainder(r, Falses(n)) == Shift(r, n)
    decreases n
  {
    if n > 0 {
      DivStepIs(r, false);
      XorZero(TimesX(r));
      assert Falses(n)[1..] == Falses(n - 1);
      RemainderOfZeros(TimesX(r), n - 1);
    }
  }

  lemma {:induction false} RemainderConcat(r: nat, a: seq<bool>, b: seq<bool>)
    ensures Remainder(r, a + b) == Remainder(Remainder(r, a), b)
    decreases |a|
  {
    if a == [] {
      assert a + b == b;
    } else {
      assert (a + b)[1..] == a[1..] + b;
      RemainderConcat(DivStep(r, a[0]), a[1..], b);
    }
  }

  lemma {:induction false} ShiftZero(n: nat)
    ensures Shift(0, n) == 0
  {
    XorZero(0);
    if n > 0 {
      ShiftZero(n - 1);
    }
  }

  lemma TimesStep(q: nat, b: nat)
    ensures Times(q, b) == Xor(One(q % 2 == 1, b), Join(Times(q / 2, b), false))
  {
    XorZero(0);
  }

  /** Multiplication distributes over addition. */
  lemma {:induction false} TimesLinear(p: nat, q: nat, b: nat)
    ensures Times(Xor(p, q), b) == Xor(Times(p, b), Times(q, b))
    decreases p + q
  {
    XorStep(p, q);
    if p == 0 && q == 0 {
      XorZero(0);
    } else {
      TimesLinear(p / 2, q / 2, b);
      TimesStep(p, b);
      TimesStep(q, b);
      TimesStep(Xor(p, q), b);
      OneXor(p % 2 == 1, q % 2 == 1, b);
      XorJoin(Times(p / 2, b), false, Times(q / 2, b), false);
      XorSwap(One(p % 2 == 1, b), Join(Times(p / 2, b), false), One(q % 2 == 1, b), Join(Times(q / 2, b), false));
    }
  }

  /** A message of zeros only shifts the seed. */
  lemma {:induction false} CrcOfZeros(c: nat, n: nat)
    requires c < 128
    ensures CrcBits(c, Falses(n)) == Shift(c, n)
    decreases n
  {
    if n > 0 {
      BitStepIs(c, false);
      XorZero(TimesX(c));
      assert Falses(n)[1..] == Falses(n - 1);
      CrcOfZeros(TimesX(c), n - 1);
    }
  }

  /** A seed adds what it leaves of a message of zeros. */
  lemma SeedAdds(c: nat, m: seq<bool>)
    requires c < 128
    ensures CrcBits(c, m) == Xor(Shift(c, |m|), CrcBits(0, m))
  {
    assert XorBits(Falses(|m|), m) == m;
    XorComm(c, 0);
    XorZero(c);
    CrcBitsLinear(c, 0, Falses(|m|), m);
    CrcOfZeros(c, |m|);
  }

  lemma UnseededIsRemainder(m: seq<bool>) returns (quotient: nat)
    ensures Poly(0, m + Falses(7)) == Xor(Times(quotient, DIVISOR), CrcBits(0, m))
  {
    ShiftZero(7);
    RegisterIsRemainder(0, m);
    RemainderConcat(0, m, Falses(7));
    RemainderOfZeros(Remainder(0, m), 7);
    XorZero(0);
    quotient := DivisionGoesOn(0, 0, 0, m + Falses(7));
  }

  lemma SeedIsRemainder(c: nat, n: nat) returns (quotient: nat)
    requires c < 128
    ensures Poly(c, Falses(n)) == Xor(Times(quotient, DIVISOR), Shift(c, n))
  {
    XorComm(0, c);
    XorZero(c);
    RemainderOfZeros(c, n);
    quotient := DivisionGoesOn(c, 0, c, Falses(n));
  }

  /**
   The checksum of a message of n bits, from any seed, is the remainder of its polynomial times x^7, plus that of the
   seed times x^n, on division by x^7 + x^3 + 1: there is a quotient with dividend == quotient * divisor + checksum.
   */
  lemma CrcIsRemainder(seed: byte, buf: seq<byte>) returns (quotient: nat)
    ensures Xor(Poly(seed % 128, Falses(8 * |buf|)), Poly(0, BitsOf(buf) + Falses(7))) ==
            Xor(Times(quotient, DIVISOR), Crc(seed, buf))
  {
    var c, m := seed % 128, BitsOf(buf);
    var p := SeedIsRemainder(c, |m|);
    var q := UnseededIsRemainder(m);
    SeedAdds(c, m);
    TimesLinear(p, q, DIVISOR);
    XorSwap(Times(p, DIVISOR), Shift(c, |m|), Times(q, DIVISOR), CrcBits(0, m));
    quotient := Xor(p, q);
  }

  // ----- What the checksum detects -----

  /** No nonzero remainder is shifted to zero: x does not divide the divisor. */
  lemma TimesXNonzero(c: nat)
    requires 0 < c < 128
    ensures TimesX(c) != 0
  {
    if c >= 64 {
      XorStep(2 * (c % 64), POLY);
    } else {
      XorZero(2 * c);
    }
  }

  lemma {:induction false} ShiftNonzero(r: nat, n: nat)
    requires 0 < r < 128
    ensures Shift(r, n) != 0
    decreases n
  {
    if n > 0 {
      TimesXNonzero(r);
      ShiftNonzero(TimesX(r), n - 1);
    }
  }

  /** At most seven bits are their own remainder. */
  lemma {:induction false} ShortRemainder(r: nat, w: seq<bool>, room: nat)
    requires |w| <= room <= 7 && r < Pow2(7 - room)
    ensures Remainder(r, w) < 128
    ensures r > 0 || true in w ==> Remainder(r, w) > 0
    decreases |w|
  {
    Pow2Values();
    if w == [] {
      Pow2Grows(7 - room, 7);
    } else {
      Pow2Grows(7 - room + 1, 7);
      var s := Join(r, w[0]);
      assert s < Pow2(7 - (room - 1));
      assert w == [w[0]] + w[1..];
      ShortRemainder(s, w[1..], room - 1);
    }
  }

  lemma {:induction false} Pow2Grows(a: nat, b: nat)
    requires a <= b
    ensures Pow2(a) <= Pow2(b)
    decreases b
  {
    if a < b {
      Pow2Grows(a, b - 1);
    }
  }

  /** An error pattern whose set bits all lie within seven consecutive positions. */
  ghost predicate IsBurst(e: seq<bool>) {
    exists i: nat, w: seq<bool>, k: nat :: |w| <= 7 && true in w && e == Falses(i) + w + Falses(k)
  }

  lemma BurstHasNonzeroCrc(e: seq<bool>)
    requires IsBurst(e)
    ensures CrcBits(0, e) != 0
  {
    var i: nat, w: seq<bool>, k: nat :| |w| <= 7 && true in w && e == Falses(i) + w + Falses(k);
    ShiftZero(7);
    RegisterIsRemainder(0, e);
    RemainderConcat(0, Falses(i) + w, Falses(k));
    RemainderConcat(0, Falses(i), w);
    RemainderOfZeros(0, i);
    ShiftZero(i);
    Pow2Values();
    ShortRemainder(0, w, 7);
    var r := Remainder(0, w);
    RemainderOfZeros(r, k);
    ShiftNonzero(r, k);
    ShiftNonzero(Shift(r, k), 7);
  }

  /** Two messages that differ by a burst of at most seven bits have different checksums. */
  lemma BurstChangesCrc(m: seq<byte>, n: seq<byte>)
    requires |m| == |n| && IsBurst(XorBits(BitsOf(m), BitsOf(n)))
    ensures Crc(0, m) != Crc(0, n)
  {
    XorZero(0);
    CrcBitsLinear(0, 0, BitsOf(m), BitsOf(n));
    BurstHasNonzeroCrc(XorBits(BitsOf(m), BitsOf(n)));
    XorSelf(Crc(0, m));
  }
}
