/** Facts about 32-bit machine words, each by itself so that the solver can settle it bit by bit. */
module BitFacts {

  /** Four places of a word. */
  predicate Four(m: bv32) {
    m == 0xF || m == 0xF0 || m == 0xF00 || m == 0xF000 || m == 0xF_0000 || m == 0xF0_0000 || m == 0xF00_0000
    || m == 0xF000_0000
  }

  lemma FourCarries(x: bv32, y: bv32, c: bv32, s: bv32, r: bv32, m: bv32)
    requires s == x + y && c == x ^ y ^ s && r == ((x & y) | (x & c) | (y & c)) << 1 && Four(m)
    ensures c & m == r & m
  {
  }

  ghost predicate Agree(c: bv32, r: bv32) {
    forall m :: Four(m) ==> c & m == r & m
  }

  lemma AgreeAt(c: bv32, r: bv32, m: bv32)
    requires Agree(c, r) && Four(m)
    ensures (c ^ r) & m == 0
  {
  }

  lemma AgreeSame(c: bv32, r: bv32)
    requires Agree(c, r)
    ensures c == r
  {
    AgreeAt(c, r, 0xF);
    AgreeAt(c, r, 0xF0);
    AgreeAt(c, r, 0xF00);
    AgreeAt(c, r, 0xF000);
    AgreeAt(c, r, 0xF_0000);
    AgreeAt(c, r, 0xF0_0000);
    AgreeAt(c, r, 0xF00_0000);
    AgreeAt(c, r, 0xF000_0000);
  }

  lemma CarriesAgree(x: bv32, y: bv32, c: bv32, s: bv32, r: bv32)
    requires s == x + y && c == x ^ y ^ s && r == ((x & y) | (x & c) | (y & c)) << 1
    ensures Agree(c, r)
  {
    forall m | Four(m)
      ensures c & m == r & m
    {
      FourCarries(x, y, c, s, r, m);
    }
  }

  /** The carries of a sum: each comes from the place below. */
  lemma Carries(x: bv32, y: bv32, c: bv32, s: bv32, r: bv32)
    requires s == x + y && c == x ^ y ^ s && r == ((x & y) | (x & c) | (y & c)) << 1
    ensures c == r
  {
    CarriesAgree(x, y, c, s, r);
    AgreeSame(c, r);
  }

  lemma SumIs(x: bv32, y: bv32, c: bv32, s: bv32)
    requires c == x ^ y ^ s
    ensures s == x ^ y ^ c
  {
  }

  lemma LowCarries(x: bv32, y: bv32, c: bv32)
    requires c == ((x & y) | (x & c) | (y & c)) << 1
    ensures (c ^ ((((x & y) | (x & c) | (y & c)) << 1) | 0)) & 0xFFFF_FFFF == 0
  {
  }

  lemma HalfLow(x: bv32, y: bv32, m: bv32)
    requires m & 1 == 1 && (x ^ y) & m == 0
    ensures x & 1 == y & 1 && ((x >> 1) ^ (y >> 1)) & (m >> 1) == 0
  {
  }

  lemma XorHalf(x: bv32, y: bv32)
    ensures (x ^ y) >> 1 == (x >> 1) ^ (y >> 1)
    ensures (x ^ y) & 1 == 1 <==> (x & 1 == 1) != (y & 1 == 1)
  {
  }

  lemma FirstCarry(x: bv32, y: bv32, first: bv32, c: bv32, ones: bv32)
    requires first <= 1 && ones & 1 == 1
    requires (c ^ ((((x & y) | (x & c) | (y & c)) << 1) | first)) & ones == 0
    ensures c & 1 == first
  {
  }

  lemma NextCarries(x: bv32, y: bv32, first: bv32, c: bv32, ones: bv32, next: bv32, x2: bv32, y2: bv32, c2: bv32)
    requires first <= 1 && ones & 1 == 1
    requires (c ^ ((((x & y) | (x & c) | (y & c)) << 1) | first)) & ones == 0
    requires next == ((x & y) | (x & first) | (y & first)) & 1
    requires x2 == x >> 1 && y2 == y >> 1 && c2 == c >> 1
    ensures (c2 ^ ((((x2 & y2) | (x2 & c2) | (y2 & c2)) << 1) | next)) & (ones >> 1) == 0 && next <= 1
  {
  }

  lemma XorPlaces(x: bv32, y: bv32, c: bv32, s: bv32)
    requires s == x ^ y ^ c
    ensures s >> 1 == (x >> 1) ^ (y >> 1) ^ (c >> 1) && s & 1 == (x & 1) ^ (y & 1) ^ (c & 1)
  {
  }

  lemma DoubledWord(x: bv32, y: bv32)
    requires y == x << 1
    ensures y & 1 == 0 && (x ^ (y >> 1)) & 0x7FFF_FFFF == 0
  {
  }

  lemma TwoLefts(x: bv32, a: bv32, y: bv32)
    requires a == x << 1 && y == x << 2
    ensures y == a << 1
  {
  }

  lemma FourLefts(x: bv32, a: bv32, y: bv32)
    requires a == x << 2 && y == x << 4
    ensures y == a << 2
  {
  }

  lemma EightLefts(x: bv32, a: bv32, y: bv32)
    requires a == x << 4 && y == x << 8
    ensures y == a << 4
  {
  }

  lemma TwoRights(x: bv32, a: bv32, y: bv32)
    requires a == x >> 1 && y == x >> 2
    ensures y == a >> 1
  {
  }

  lemma FiveRights(x: bv32, a: bv32, b: bv32, y: bv32)
    requires a == x >> 2 && b == a >> 2 && y == x >> 5
    ensures y == b >> 1
  {
  }

  lemma FiveOff(x: bv32, y: bv32)
    requires y == x >> 5
    ensures y | 0x07FF_FFFF == 0x07FF_FFFF
  {
  }

  lemma LessAgain(m: bv32, more: bv32)
    requires m & 0x8000_0000 == 0 && more == (m << 1) | 1
    ensures more >> 1 == m && more & 1 == 1
  {
  }

  lemma FourMore(m: bv32, a: bv32, b: bv32, c: bv32, more: bv32)
    requires m & 0xF000_0000 == 0 && more == (m << 4) | 0xF
    requires a == (m << 1) | 1 && b == (a << 1) | 1 && c == (b << 1) | 1
    ensures more == (c << 1) | 1
    ensures a & 0x8000_0000 == 0 && b & 0x8000_0000 == 0 && c & 0x8000_0000 == 0 && m & 0x8000_0000 == 0
  {
  }

  // A word without a bit above those of m.

  lemma OrHalf(x: bv32, m: bv32)
    requires x | m == m
    ensures (x >> 1) | (m >> 1) == m >> 1
  {
  }

  lemma OrNothing(x: bv32, m: bv32)
    requires m == 0 && x | m == m
    ensures x == 0
  {
  }

  lemma OrAll(x: bv32)
    ensures x | 0xFFFF_FFFF == 0xFFFF_FFFF
  {
  }

  lemma HalvesMeet(x: bv32, y: bv32)
    requires x >> 1 == y >> 1 && (x & 1 == 1 <==> y & 1 == 1)
    ensures x == y
  {
  }

  /** Words without a common bit. */
  lemma ApartSum(x: bv32, y: bv32, z: bv32)
    requires x & y == 0 && z == x | y
    ensures z == x + y
  {
  }

  lemma ByteApart(x: bv32, y: bv32, up: bv32)
    requires x | 0xFF == 0xFF && up == y << 8
    ensures x & up == 0
  {
  }
}
