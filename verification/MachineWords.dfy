/** Machine words and numbers with the same bits: what shifts, sums and exclusive ors of the ones do to the others. */
module MachineWords {
  import opened BitFacts
  import opened Bytes

  /** The low k bits of x are those of n. */
  predicate Same(x: bv32, n: nat, k: nat) {
    k == 0 || ((x & 1 == 1 <==> n % 2 == 1) && Same(x >> 1, n / 2, k - 1))
  }

  /** m is k ones. */
  predicate IsOnes(m: bv32, k: nat) {
    if k == 0 then m == 0 else m & 1 == 1 && IsOnes(m >> 1, k - 1)
  }

  lemma OnesMore(m: bv32, more: bv32, k: nat)
    requires IsOnes(m, k) && m & 0x8000_0000 == 0 && more == (m << 1) | 1
    ensures IsOnes(more, k + 1)
  {
    LessAgain(m, more);
  }

  lemma OnesFour(m: bv32, more: bv32, k: nat)
    requires IsOnes(m, k) && m & 0xF000_0000 == 0 && more == (m << 4) | 0xF
    ensures IsOnes(more, k + 4)
  {
    var a := (m << 1) | 1;
    var b := (a << 1) | 1;
    var c := (b << 1) | 1;
    FourMore(m, a, b, c, more);
    OnesMore(m, a, k);
    OnesMore(a, b, k + 1);
    OnesMore(b, c, k + 2);
    OnesMore(c, more, k + 3);
  }

  lemma Ones()
    ensures IsOnes(0xFFFF_FFFF, 32) && IsOnes(0x7FFF_FFFF, 31) && IsOnes(0x07FF_FFFF, 27)
  {
    OnesMore(0, 1, 0);
    OnesMore(1, 3, 1);
    OnesMore(3, 7, 2);
    OnesFour(7, 0x7F, 3);
    OnesFour(0x7F, 0x7FF, 7);
    OnesFour(0x7FF, 0x7FFF, 11);
    OnesFour(0x7FFF, 0x7_FFFF, 15);
    OnesFour(0x7_FFFF, 0x7F_FFFF, 19);
    OnesFour(0x7F_FFFF, 0x7FF_FFFF, 23);
    OnesFour(0x7FF_FFFF, 0x7FFF_FFFF, 27);
    OnesMore(0x7FFF_FFFF, 0xFFFF_FFFF, 31);
  }

  /** No bit of x is above the ones. */
  predicate Within(x: bv32, m: bv32) {
    x | m == m
  }

  lemma WithinHalf(x: bv32, m: bv32)
    requires Within(x, m)
    ensures Within(x >> 1, m >> 1)
  {
    OrHalf(x, m);
  }

  lemma WithinNothing(x: bv32, m: bv32)
    requires Within(x, m) && IsOnes(m, 0)
    ensures x == 0
  {
    OrNothing(x, m);
  }

  lemma {:induction false} SameLow(x: bv32, y: bv32, n: nat, m: bv32, k: nat)
    requires IsOnes(m, k) && (x ^ y) & m == 0 && Same(x, n, k)
    ensures Same(y, n, k)
    decreases k
  {
    if k > 0 {
      HalfLow(x, y, m);
      SameLow(x >> 1, y >> 1, n / 2, m >> 1, k - 1);
    }
  }

  lemma {:induction false} XorSame(x: bv32, y: bv32, n: nat, m: nat, k: nat)
    requires Same(x, n, k) && Same(y, m, k)
    ensures Same(x ^ y, Xor(n, m), k)
    decreases k
  {
    if k > 0 {
      XorStep(n, m);
      XorHalf(x, y);
      XorSame(x >> 1, y >> 1, n / 2, m / 2, k - 1);
    }
  }

  // ----- Sums -----

  /** As far as the ones go, c holds the carries of a sum of x and y, the first of them given. */
  predicate Carried(x: bv32, y: bv32, first: bv32, c: bv32, ones: bv32) {
    (c ^ ((((x & y) | (x & c) | (y & c)) << 1) | first)) & ones == 0
  }

  /** So s is their sum with that first carry, f as a number. */
  predicate Summing(x: bv32, y: bv32, first: bv32, c: bv32, s: bv32, f: nat, ones: bv32) {
    s == x ^ y ^ c && first <= 1 && f <= 1 && (first == 1 <==> f == 1) && Carried(x, y, first, c, ones)
  }

  /** One place of the sum, in numbers and in bits. */
  lemma Place(x: bv32, y: bv32, first: bv32, n: nat, m: nat, f: nat)
    requires first <= 1 && f <= 1 && (first == 1 <==> f == 1)
    requires (x & 1 == 1 <==> n % 2 == 1) && (y & 1 == 1 <==> m % 2 == 1)
    ensures (x & 1) ^ (y & 1) ^ first == 1 <==> (n + m + f) % 2 == 1
    ensures ((x & y) | (x & first) | (y & first)) & 1 == 1 <==> (n + m + f) / 2 == n / 2 + m / 2 + 1
    ensures (n + m + f) / 2 <= n / 2 + m / 2 + 1
  {
  }

  lemma SumPlace(x: bv32, y: bv32, first: bv32, c: bv32, s: bv32, n: nat, m: nat, f: nat, ones: bv32)
    requires ones & 1 == 1 && Summing(x, y, first, c, s, f, ones)
    requires (x & 1 == 1 <==> n % 2 == 1) && (y & 1 == 1 <==> m % 2 == 1)
    ensures s & 1 == 1 <==> (n + m + f) % 2 == 1
  {
    FirstCarry(x, y, first, c, ones);
    XorPlaces(x, y, c, s);
    Place(x, y, first, n, m, f);
  }

  lemma NextCarry(x: bv32, y: bv32, first: bv32, c: bv32, n: nat, m: nat, f: nat, ones: bv32)
    returns (next: bv32, g: nat)
    requires ones & 1 == 1 && Carried(x, y, first, c, ones)
    requires first <= 1 && f <= 1 && (first == 1 <==> f == 1)
    requires (x & 1 == 1 <==> n % 2 == 1) && (y & 1 == 1 <==> m % 2 == 1)
    ensures next <= 1 && g <= 1 && (next == 1 <==> g == 1) && Carried(x >> 1, y >> 1, next, c >> 1, ones >> 1)
    ensures (n + m + f) / 2 == n / 2 + m / 2 + g
  {
    next := ((x & y) | (x & first) | (y & first)) & 1;
    NextCarries(x, y, first, c, ones, next, x >> 1, y >> 1, c >> 1);
    Place(x, y, first, n, m, f);
    g := (n + m + f) / 2 - n / 2 - m / 2;
  }

  lemma NextPlace(x: bv32, y: bv32, first: bv32, c: bv32, s: bv32, n: nat, m: nat, f: nat, ones: bv32)
    returns (next: bv32, g: nat)
    requires ones & 1 == 1 && Summing(x, y, first, c, s, f, ones)
    requires (x & 1 == 1 <==> n % 2 == 1) && (y & 1 == 1 <==> m % 2 == 1)
    ensures Summing(x >> 1, y >> 1, next, c >> 1, s >> 1, g, ones >> 1)
    ensures (n + m + f) / 2 == n / 2 + m / 2 + g
  {
    next, g := NextCarry(x, y, first, c, n, m, f, ones);
    XorPlaces(x, y, c, s);
  }

  lemma {:induction false} SummingSame(x: bv32, y: bv32, first: bv32, c: bv32, s: bv32, n: nat, m: nat, f: nat,
                                       ones: bv32, k: nat)
    requires IsOnes(ones, k) && Same(x, n, k) && Same(y, m, k) && Summing(x, y, first, c, s, f, ones)
    ensures Same(s, n + m + f, k)
    decreases k
  {
    if k > 0 {
      SumPlace(x, y, first, c, s, n, m, f, ones);
      var next, g := NextPlace(x, y, first, c, s, n, m, f, ones);
      SummingSame(x >> 1, y >> 1, next, c >> 1, s >> 1, n / 2, m / 2, g, ones >> 1, k - 1);
    }
  }

  lemma SumCarries(x: bv32, y: bv32, c: bv32, s: bv32)
    requires c == x ^ y ^ s && c == ((x & y) | (x & c) | (y & c)) << 1
    ensures Summing(x, y, 0, c, s, 0, 0xFFFF_FFFF)
  {
    SumIs(x, y, c, s);
    LowCarries(x, y, c);
  }

  lemma SumSame(x: bv32, y: bv32, s: bv32, n: nat, m: nat)
    requires Same(x, n, 32) && Same(y, m, 32) && s == x + y
    ensures Same(s, n + m, 32)
  {
    var c := x ^ y ^ s;
    Carries(x, y, c, s, ((x & y) | (x & c) | (y & c)) << 1);
    SumCarries(x, y, c, s);
    Ones();
    SummingSame(x, y, 0, c, s, n, m, 0, 0xFFFF_FFFF, 32);
  }

  lemma OrSame(x: bv32, y: bv32, z: bv32, n: nat, m: nat)
    requires Same(x, n, 32) && Same(y, m, 32) && x & y == 0 && z == x | y
    ensures Same(z, n + m, 32)
  {
    ApartSum(x, y, z);
    SumSame(x, y, z, n, m);
  }

  // ----- Shifts -----

  lemma HalfMod(n: nat, p: nat)
    requires p > 0
    ensures n % (2 * p) % 2 == n % 2 && n % (2 * p) / 2 == n / 2 % p
  {
    var q, r := n / 2 / p, n / 2 % p;
    assert n == (2 * p) * q + (2 * r + n % 2);
    DivModUnique(n, 2 * p, q, 2 * r + n % 2);
  }

  lemma {:induction false} ModSame(x: bv32, n: nat, k: nat)
    requires Same(x, n, k)
    ensures Same(x, n % Pow2(k), k)
    decreases k
  {
    if k > 0 {
      HalfMod(n, Pow2(k - 1));
      ModSame(x >> 1, n / 2, k - 1);
    }
  }

  lemma {:induction false} FewerSame(x: bv32, n: nat, k: nat)
    requires k > 0 && Same(x, n, k)
    ensures Same(x, n, k - 1)
    decreases k
  {
    if k > 1 {
      FewerSame(x >> 1, n / 2, k - 1);
    }
  }

  lemma DoubleSame(x: bv32, y: bv32, n: nat)
    requires Same(x, n, 32) && y == x << 1
    ensures Same(y, 2 * n, 32)
  {
    FewerSame(x, n, 32);
    DoubledWord(x, y);
    Ones();
    SameLow(x, y >> 1, n, 0x7FFF_FFFF, 31);
    assert 2 * n / 2 == n && 2 * n % 2 == 0;
  }

  lemma LeftTwo(x: bv32, y: bv32, n: nat)
    requires Same(x, n, 32) && y == x << 2
    ensures Same(y, 4 * n, 32)
  {
    var a := x << 1;
    TwoLefts(x, a, y);
    DoubleSame(x, a, n);
    DoubleSame(a, y, 2 * n);
  }

  lemma LeftFour(x: bv32, y: bv32, n: nat)
    requires Same(x, n, 32) && y == x << 4
    ensures Same(y, 16 * n, 32)
  {
    var a := x << 2;
    FourLefts(x, a, y);
    LeftTwo(x, a, n);
    LeftTwo(a, y, 4 * n);
  }

  lemma LeftEight(x: bv32, y: bv32, n: nat)
    requires Same(x, n, 32) && y == x << 8
    ensures Same(y, 256 * n, 32)
  {
    var a := x << 4;
    EightLefts(x, a, y);
    LeftFour(x, a, n);
    LeftFour(a, y, 16 * n);
  }

  lemma HalveSame(x: bv32, y: bv32, n: nat, k: nat)
    requires k > 0 && Same(x, n, k) && y == x >> 1
    ensures Same(y, n / 2, k - 1)
  {
  }

  lemma RightTwo(x: bv32, y: bv32, n: nat, k: nat)
    requires k > 1 && Same(x, n, k) && y == x >> 2
    ensures Same(y, n / 4, k - 2)
  {
    var a := x >> 1;
    TwoRights(x, a, y);
    HalveSame(x, a, n, k);
    HalveSame(a, y, n / 2, k - 1);
    assert n / 2 / 2 == n / 4;
  }

  lemma RightFive(x: bv32, y: bv32, n: nat)
    requires Same(x, n, 32) && y == x >> 5
    ensures Same(y, n / 32, 27)
  {
    var a := x >> 2;
    var b := a >> 2;
    FiveRights(x, a, b, y);
    RightTwo(x, a, n, 32);
    RightTwo(a, b, n / 4, 30);
    HalveSame(b, y, n / 4 / 4, 28);
    assert n / 4 / 4 / 2 == n / 32;
  }

  lemma {:induction false} NothingSame(k: nat)
    ensures Same(0, 0, k)
    decreases k
  {
    if k > 0 {
      NothingSame(k - 1);
    }
  }

  /** What is below 2^k on both sides has nothing but zeros beyond. */
  lemma {:induction false} WideSame(x: bv32, n: nat, m: bv32, k: nat, more: nat)
    requires IsOnes(m, k) && Within(x, m) && Same(x, n, k) && n < Pow2(k)
    ensures Same(x, n, k + more)
    decreases k
  {
    if k == 0 {
      WithinNothing(x, m);
      NothingSame(more);
    } else {
      WithinHalf(x, m);
      WideSame(x >> 1, n / 2, m >> 1, k - 1, more);
    }
  }

  lemma PowValues()
    ensures Pow2(27) == 0x800_0000
  {
    assert Pow2(3) == 8;
    assert Pow2(7) == 0x80;
    assert Pow2(11) == 0x800;
    assert Pow2(15) == 0x8000;
    assert Pow2(19) == 0x8_0000;
    assert Pow2(23) == 0x80_0000;
  }

  lemma RightSame(x: bv32, y: bv32, n: nat)
    requires n < 0x1_0000_0000 && Same(x, n, 32) && y == x >> 5
    ensures Same(y, n / 32, 32)
  {
    RightFive(x, y, n);
    FiveOff(x, y);
    Ones();
    PowValues();
    WideSame(y, n / 32, 0x07FF_FFFF, 27, 5);
  }

  // ----- One for the other -----

  lemma {:induction false} OnlyOne(x: bv32, y: bv32, n: nat, m: bv32, k: nat)
    requires IsOnes(m, k) && Within(x, m) && Within(y, m) && Same(x, n, k) && Same(y, n, k)
    ensures x == y
    decreases k
  {
    if k == 0 {
      WithinNothing(x, m);
      WithinNothing(y, m);
    } else {
      WithinHalf(x, m);
      WithinHalf(y, m);
      OnlyOne(x >> 1, y >> 1, n / 2, m >> 1, k - 1);
      HalvesMeet(x, y);
    }
  }

  /** No two words have the same bits as a number. */
  lemma OneWord(x: bv32, y: bv32, n: nat)
    requires Same(x, n, 32) && Same(y, n, 32)
    ensures x == y
  {
    Ones();
    OrAll(x);
    OrAll(y);
    OnlyOne(x, y, n, 0xFFFF_FFFF, 32);
  }

  lemma {:induction false} OneNumber(x: bv32, n: nat, m: nat, k: nat)
    requires Same(x, n, k) && Same(x, m, k) && n < Pow2(k) && m < Pow2(k)
    ensures n == m
    decreases k
  {
    if k > 0 {
      OneNumber(x >> 1, n / 2, m / 2, k - 1);
    }
  }

  // ----- Bytes -----

  lemma ByteHalf(n: byte)
    ensures (n as bv32) >> 1 == (n / 2) as bv32 && (n as bv32 & 1 == 1 <==> n % 2 == 1)
  {
  }

  lemma {:induction false} ByteSame(n: byte, k: nat)
    ensures Same(n as bv32, n, k)
    decreases k
  {
    if k > 0 {
      ByteHalf(n);
      ByteSame(n / 2, k - 1);
    }
  }

  lemma ByteFits(n: byte)
    ensures n as bv32 | 0xFF == 0xFF
  {
  }

  function Join(low: bv32, high: bv32): bv32 {
    low | (high << 8)
  }

  /** The word that up to four bytes spell, least significant first. */
  function Little(b: seq<byte>): bv32 {
    if b == [] then 0 else Join(b[0] as bv32, Little(b[1..]))
  }

  lemma OneByteMore(d: byte, y: bv32, n: nat)
    requires Same(y, n, 32)
    ensures Same(Join(d as bv32, y), d + 256 * n, 32)
  {
    ByteSame(d, 32);
    ByteFits(d);
    JoinSame(d as bv32, y, d, n);
  }

  lemma JoinSame(x: bv32, y: bv32, d: nat, n: nat)
    requires Same(x, d, 32) && Same(y, n, 32) && x | 0xFF == 0xFF
    ensures Same(Join(x, y), d + 256 * n, 32)
  {
    var up := y << 8;
    LeftEight(y, up, n);
    ByteApart(x, y, up);
    OrSame(x, up, x | up, d, 256 * n);
  }

  lemma {:induction false} LittleSame(b: seq<byte>)
    ensures Same(Little(b), FromLe(b), 32)
    decreases |b|
  {
    if b == [] {
      NothingSame(32);
    } else {
      LittleSame(b[1..]);
      OneByteMore(b[0], Little(b[1..]), FromLe(b[1..]));
    }
  }
}
