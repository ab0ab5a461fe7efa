/**
 The checksum of match-server/crypto/crc7.go by long division: a message is the number that its bytes make up, the first
 the highest, and its checksum is the one remainder below 128 that dividing by x^7 + x^3 + 1 leaves.
 */
module Remainders {
  import opened Bytes
  import opened Crc7

  /** The number with the bytes of buf behind those of n. */
  function Number(n: nat, buf: seq<byte>): nat
    decreases |buf|
  {
    if buf == [] then n else Number(256 * n + buf[0], buf[1..])
  }

  /** The low k bits of d, highest first. */
  function Down(d: nat, k: nat): (bits: seq<bool>)
    ensures |bits| == k
  {
    if k == 0 then [] else [Bit(d, k - 1)] + Down(d, k - 1)
  }

  lemma {:induction false} DownAt(d: nat, k: nat, i: nat)
    requires i < k
    ensures Down(d, k)[i] == Bit(d, k - 1 - i)
  {
    if i > 0 {
      DownAt(d, k - 1, i - 1);
    }
  }

  lemma DownIsTop(d: byte)
    ensures Down(d, 8) == TopBits(d)
  {
    forall i | 0 <= i < 8
      ensures Down(d, 8)[i] == TopBits(d)[i]
    {
      DownAt(d, 8, i);
    }
  }

  lemma {:induction false} HighBit(d: nat, k: nat)
    requires k > 0
    ensures d % Pow2(k) == One(Bit(d, k - 1), Pow2(k - 1)) + d % Pow2(k - 1)
  {
    if k > 1 {
      HighBit(d / 2, k - 1);
      ModDouble(d, Pow2(k - 1));
      ModDouble(d, Pow2(k - 2));
    }
  }

  lemma JoinUp(n: nat, bit: bool, p: nat)
    ensures Join(n, bit) * p == n * (2 * p) + One(bit, p)
  {
  }

  lemma {:induction false} PolyDown(n: nat, d: nat, k: nat, rest: seq<bool>)
    ensures Poly(n, Down(d, k) + rest) == Poly(n * Pow2(k) + d % Pow2(k), rest)
    decreases k
  {
    if k == 0 {
      assert [] + rest == rest;
    } else {
      var bits := Down(d, k) + rest;
      assert bits[1..] == Down(d, k - 1) + rest;
      PolyDown(Join(n, bits[0]), d, k - 1, rest);
      HighBit(d, k);
      JoinUp(n, bits[0], Pow2(k - 1));
    }
  }

  /** The polynomial of a message is the number of its bytes. */
  lemma {:induction false} PolyIsNumber(n: nat, buf: seq<byte>, rest: seq<bool>)
    ensures Poly(n, BitsOf(buf) + rest) == Poly(Number(n, buf), rest)
    decreases |buf|
  {
    if buf == [] {
      assert [] + rest == rest;
    } else {
      var d := buf[0];
      assert BitsOf(buf) + rest == TopBits(d) + (BitsOf(buf[1..]) + rest);
      DownIsTop(d);
      Pow2Values();
      PolyDown(n, d, 8, BitsOf(buf[1..]) + rest);
      PolyIsNumber(256 * n + d, buf[1..], rest);
    }
  }

  lemma {:induction false} PolyOfZeros(n: nat, k: nat)
    ensures Poly(n, Falses(k)) == n * Pow2(k)
    decreases k
  {
    if k > 0 {
      assert Falses(k)[1..] == Falses(k - 1);
      PolyOfZeros(2 * n, k - 1);
      assert 2 * n * Pow2(k - 1) == n * Pow2(k);
    }
  }

  // ----- Only one remainder -----

  /** Dividing n by x^7 + x^3 + 1 leaves r. */
  ghost predicate Leaves(n: nat, r: nat) {
    exists q: nat :: n == Xor(Times(q, 0x89), r)
  }

  lemma HighPart(a: nat, b: nat)
    requires a < 256 && b >= 256
    ensures Xor(a, b) >= 256
  {
    if Xor(a, b) < 256 {
      Pow2Values();
      XorBound(Xor(a, b), a, 8);
      XorComm(a, b);
      XorCancel(b, a);
    }
  }

  /** Every multiple of the divisor but zero has at least its degree. */
  lemma {:induction false} MultiplesAreBig(q: nat)
    requires q > 0
    ensures Times(q, 0x89) >= 128
  {
    if q == 1 {
      XorZero(0x89);
    } else {
      MultiplesAreBig(q / 2);
      HighPart(One(q % 2 == 1, 0x89), Join(Times(q / 2, 0x89), false));
    }
  }

  lemma OneRemainder(p: nat, r: nat, q: nat, s: nat)
    requires r < 128 && s < 128 && Xor(Times(p, 0x89), r) == Xor(Times(q, 0x89), s)
    ensures r == s
  {
    var n, a, b := Xor(Times(p, 0x89), r), Times(p, 0x89), Times(q, 0x89);
    XorSwap(a, r, b, s);
    XorSelf(n);
    TimesLinear(p, q, 0x89);
    var m := Times(Xor(p, q), 0x89);
    assert Xor(m, Xor(r, s)) == 0;
    XorCancel(m, Xor(r, s));
    XorComm(0, Xor(r, s));
    XorZero(Xor(r, s));
    Pow2Values();
    XorBound(r, s, 7);
    if Xor(p, q) > 0 {
      MultiplesAreBig(Xor(p, q));
    }
    XorCancel(r, s);
    XorComm(0, s);
    XorZero(s);
  }

  /** The message's number, seven bits up, and the seed, as many bits up as the message has. */
  function Dividend(seed: nat, buf: seq<byte>): nat {
    Xor(seed * Pow2(8 * |buf|), 128 * Number(0, buf))
  }

  lemma DividendIs(c: nat, buf: seq<byte>)
    ensures Dividend(c, buf) == Xor(Poly(c, Falses(8 * |buf|)), Poly(0, BitsOf(buf) + Falses(7)))
  {
    PolyIsNumber(0, buf, Falses(7));
    PolyOfZeros(Number(0, buf), 7);
    PolyOfZeros(c, 8 * |buf|);
    Pow2Values();
  }

  /**
   For every seed and message, the checksum is the one number below 128 that the division leaves of the two together.
   */
  lemma CrcIsTheRemainder(seed: byte, buf: seq<byte>, r: nat)
    requires r < 128
    ensures Leaves(Dividend(seed % 128, buf), r) <==> r == Crc(seed, buf)
  {
    var q := CrcIsRemainder(seed, buf);
    DividendIs(seed % 128, buf);
    if Leaves(Dividend(seed % 128, buf), r) {
      var p: nat :| Dividend(seed % 128, buf) == Xor(Times(p, 0x89), r);
      OneRemainder(p, r, q, Crc(seed, buf));
    }
  }
}
