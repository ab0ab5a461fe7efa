/**
 The TEA cipher of match-server/crypto/tea.go: sixteen Feistel rounds on an eight-byte block, chained by
 XORing each block with the previous ciphertext before the cipher and with the previous cipher input after it.
 The functions say what a whole message enciphers to; the methods work block by block, in place, as the Go
 code does, and are proved equal to them.
 */
module Tea {
  import opened Bytes
  import opened Results

  /** A 32-bit word; Add and Sub wrap as Go's uint32 arithmetic does. */
  type word = x: nat | x < 0x1_0000_0000

  datatype Words = Words(v0: word, v1: word)

  /** The function of one half-block that a round adds to the other half. */
  type Mixer = (word, word, word, word) -> word

  /**
   A keyed Feistel cipher: the mixing function, the number of rounds, the constant decryption starts from,
   and the four key words. Everything up to KeyWords holds for every mixing function and round count.
   */
  datatype Key = Key(mix: Mixer, rounds: nat, sumInit: word, k0: word, k1: word, k2: word, k3: word)
  {
    ghost predicate Valid() {
      sumInit == Sum(rounds)
    }
  }

  datatype TeaError = BadInput | BadPadding

  type Block = b: seq<byte> | |b| == 8 witness [0, 0, 0, 0, 0, 0, 0, 0]

  const DELTA: word := 0x9E37_79B9
  const ROUNDS := 16
  const SUM_INIT: word := 0xE377_9B90
  const ZERO: Block := [0, 0, 0, 0, 0, 0, 0, 0]

  // ----- The block cipher -----

  function Add(a: word, b: word): word {
    if a + b < 0x1_0000_0000 then a + b else a + b - 0x1_0000_0000
  }

  function Sub(a: word, b: word): word {
    if a >= b then a - b else a - b + 0x1_0000_0000
  }

  /** That is arithmetic modulo 2^32. */
  lemma Wraps(a: word, b: word)
    ensures Add(a, b) == (a + b) % 0x1_0000_0000 && Sub(a, b) == (a - b) % 0x1_0000_0000
  {
  }

  lemma AddSub(a: word, b: word)
    ensures Sub(Add(a, b), b) == a && Add(Sub(a, b), b) == a
  {
  }

  function LoadWord(b: seq<byte>): (w: word)
    requires |b| == 4
  {
    Ranges();
    FromLe(b)
  }

  function StoreWord(w: word): (b: seq<byte>)
    ensures |b| == 4
  {
    Le(w, 4)
  }

  function Load(b: Block): Words {
    Words(LoadWord(b[..4]), LoadWord(b[4..]))
  }

  function Store(w: Words): Block {
    StoreWord(w.v0) + StoreWord(w.v1)
  }

  lemma LoadStoreWord(w: word)
    ensures LoadWord(StoreWord(w)) == w
  {
    Ranges();
    LeRoundTrip(w, 4);
  }

  lemma LoadStore(w: Words)
    ensures Load(Store(w)) == w
  {
    var b := Store(w);
    assert b[..4] == StoreWord(w.v0) && b[4..] == StoreWord(w.v1);
    LoadStoreWord(w.v0);
    LoadStoreWord(w.v1);
  }

  lemma StoreLoadWord(b: seq<byte>)
    requires |b| == 4
    ensures StoreWord(LoadWord(b)) == b
  {
    FromLeRoundTrip(b);
  }

  lemma StoreLoad(b: Block)
    ensures Store(Load(b)) == b
  {
    StoreLoadWord(b[..4]);
    StoreLoadWord(b[4..]);
    assert b == b[..4] + b[4..];
  }

  function Round(w: Words, k: Key, sum: word): Words {
    var v0 := Add(w.v0, k.mix(w.v1, sum, k.k0, k.k1));
    Words(v0, Add(w.v1, k.mix(v0, sum, k.k2, k.k3)))
  }

  function Unround(w: Words, k: Key, sum: word): Words {
    var v1 := Sub(w.v1, k.mix(w.v0, sum, k.k2, k.k3));
    Words(Sub(w.v0, k.mix(v1, sum, k.k0, k.k1)), v1)
  }

  lemma UnroundRound(w: Words, k: Key, sum: word)
    ensures Unround(Round(w, k, sum), k, sum) == w
  {
    var m0 := k.mix(w.v1, sum, k.k0, k.k1);
    AddSub(w.v0, m0);
    AddSub(w.v1, k.mix(Add(w.v0, m0), sum, k.k2, k.k3));
  }

  lemma RoundUnround(w: Words, k: Key, sum: word)
    ensures Round(Unround(w, k, sum), k, sum) == w
  {
    var m1 := k.mix(w.v0, sum, k.k2, k.k3);
    AddSub(w.v1, m1);
    AddSub(w.v0, k.mix(Sub(w.v1, m1), sum, k.k0, k.k1));
  }

  /** The round constant of round n. */
  function Sum(n: nat): word {
    if n == 0 then 0 else Add(Sum(n - 1), DELTA)
  }

  lemma SumStep(n: nat)
    requires n > 0
    ensures Add(Sum(n - 1), DELTA) == Sum(n) && Sub(Sum(n), DELTA) == Sum(n - 1)
  {
    AddSub(Sum(n - 1), DELTA);
  }

  /** It is n times delta, modulo 2^32. */
  lemma {:induction false} SumIs(n: nat)
    ensures Sum(n) == (n * DELTA) % 0x1_0000_0000
  {
    if n > 0 {
      SumIs(n - 1);
      AddWraps((n - 1) * DELTA, DELTA);
      assert (n - 1) * DELTA + DELTA == n * DELTA;
    }
  }

  lemma AddWraps(a: nat, b: word)
    ensures Add(a % 0x1_0000_0000, b) == (a + b) % 0x1_0000_0000
  {
  }

  function Forward(w: Words, k: Key, n: nat): Words {
    if n == 0 then w else Round(Forward(w, k, n - 1), k, Sum(n))
  }

  function Backward(w: Words, k: Key, n: nat): Words
    decreases n
  {
    if n == 0 then w else Backward(Unround(w, k, Sum(n)), k, n - 1)
  }

  lemma BackwardStep(w: Words, k: Key, n: nat)
    requires n > 0
    ensures Backward(w, k, n) == Backward(Unround(w, k, Sum(n)), k, n - 1) && Sub(Sum(n), DELTA) == Sum(n - 1)
  {
    SumStep(n);
  }

  lemma {:induction false} BackwardForward(w: Words, k: Key, n: nat)
    ensures Backward(Forward(w, k, n), k, n) == w
    decreases n
  {
    if n == 0 {
    } else {
      UnroundRound(Forward(w, k, n - 1), k, Sum(n));
      BackwardForward(w, k, n - 1);
    }
  }

  lemma {:induction false} ForwardBackward(w: Words, k: Key, n: nat)
    ensures Forward(Backward(w, k, n), k, n) == w
    decreases n
  {
    if n == 0 {
    } else {
      ForwardBackward(Unround(w, k, Sum(n)), k, n - 1);
      RoundUnround(w, k, Sum(n));
    }
  }

  function EncryptBlock(b: Block, k: Key): Block {
    Store(Forward(Load(b), k, k.rounds))
  }

  function DecryptBlock(b: Block, k: Key): Block {
    Store(Backward(Load(b), k, k.rounds))
  }

  /** Each key makes the block cipher a bijection, with DecryptBlock as its inverse on both sides. */
  lemma BlockCipherInverts(b: Block, k: Key)
    ensures DecryptBlock(EncryptBlock(b, k), k) == b
    ensures EncryptBlock(DecryptBlock(b, k), k) == b
  {
    LoadStore(Forward(Load(b), k, k.rounds));
    BackwardForward(Load(b), k, k.rounds);
    LoadStore(Backward(Load(b), k, k.rounds));
    ForwardBackward(Load(b), k, k.rounds);
    StoreLoad(b);
  }

  /** A key together with the two block functions it stands for, so that the chaining can be read without them. */
  datatype Cipher = Cipher(key: Key, enc: Block -> Block, dec: Block -> Block)
  {
    ghost predicate Valid() {
      && key.Valid()
      && (forall b: Block {:trigger EncryptBlock(b, key)} :: enc(b) == EncryptBlock(b, key))
      && (forall b: Block {:trigger DecryptBlock(b, key)} :: dec(b) == DecryptBlock(b, key))
    }
  }

  lemma CipherInverts(c: Cipher, b: Block)
    requires c.Valid()
    ensures c.dec(c.enc(b)) == b && c.enc(c.dec(b)) == b
  {
    BlockCipherInverts(b, c.key);
    var e, d := EncryptBlock(b, c.key), DecryptBlock(b, c.key);
    assert c.dec(e) == DecryptBlock(e, c.key) && c.enc(d) == EncryptBlock(d, c.key);
  }

  method EncryptECB(data: Block, c: Cipher) returns (out: Block)
    requires c.Valid()
    ensures out == c.enc(data)
  {
    var w := EncryptWords(Load(data), c.key);
    out := Store(w);
    assert c.enc(data) == EncryptBlock(data, c.key);
  }

  /** One turn of the encryption loop. */
  method RoundWords(w0: word, w1: word, k: Key, s: word) returns (v0: word, v1: word, sum: word)
    ensures sum == Add(s, DELTA) && Words(v0, v1) == Round(Words(w0, w1), k, sum)
  {
    v0, v1, sum := w0, w1, s;
    sum := Add(sum, DELTA);
    v0 := Add(v0, k.mix(v1, sum, k.k0, k.k1));
    v1 := Add(v1, k.mix(v0, sum, k.k2, k.k3));
  }

  method EncryptWords(start: Words, k: Key) returns (w: Words)
    ensures w == Forward(start, k, k.rounds)
  {
    var v0, v1 := start.v0, start.v1;
    var sum: word := 0;
    for i := 0 to k.rounds
      invariant Words(v0, v1) == Forward(start, k, i) && sum == Sum(i)
    {
      v0, v1, sum := RoundWords(v0, v1, k, sum);
    }
    w := Words(v0, v1);
  }

  method DecryptECB(data: Block, c: Cipher) returns (out: Block)
    requires c.Valid()
    ensures out == c.dec(data)
  {
    var w := DecryptWords(Load(data), c.key);
    out := Store(w);
    assert c.dec(data) == DecryptBlock(data, c.key);
  }

  /** One turn of the decryption loop. */
  method UnroundWords(w0: word, w1: word, k: Key, s: word) returns (v0: word, v1: word, sum: word)
    ensures Words(v0, v1) == Unround(Words(w0, w1), k, s) && sum == Sub(s, DELTA)
  {
    v0, v1, sum := w0, w1, s;
    v1 := Sub(v1, k.mix(v0, sum, k.k2, k.k3));
    v0 := Sub(v0, k.mix(v1, sum, k.k0, k.k1));
    sum := Sub(sum, DELTA);
  }

  method DecryptWords(start: Words, k: Key) returns (w: Words)
    requires k.Valid()
    ensures w == Backward(start, k, k.rounds)
  {
    var v0, v1 := start.v0, start.v1;
    var sum := k.sumInit;
    ghost var n := k.rounds;
    for i := 0 to k.rounds
      invariant n == k.rounds - i && sum == Sum(n)
      invariant Backward(Words(v0, v1), k, n) == Backward(start, k, k.rounds)
    {
      BackwardStep(Words(v0, v1), k, n);
      v0, v1, sum := UnroundWords(v0, v1, k, sum);
      n := n - 1;
    }
    w := Words(v0, v1);
  }

  // ----- The chaining mode -----

  function XorBlock(a: Block, b: Block): (c: Block) {
    seq(8, i requires 0 <= i < 8 => XorByte(a[i], b[i]))
  }

  lemma XorCancels(a: Block, b: Block)
    ensures XorBlock(XorBlock(a, b), b) == a && XorBlock(b, XorBlock(a, b)) == a && XorBlock(a, ZERO) == a
  {
    forall i | 0 <= i < 8
      ensures XorByte(XorByte(a[i], b[i]), b[i]) == a[i] && XorByte(b[i], XorByte(a[i], b[i])) == a[i]
      ensures XorByte(a[i], 0) == a[i]
    {
      XorCancel(a[i], b[i]);
      XorZero(a[i]);
    }
  }

  function BlockAt(b: seq<byte>, j: nat): Block
    requires 8 * j + 8 <= |b|
  {
    b[8 * j..8 * j + 8]
  }

  /** What goes into the block cipher for block j of the plaintext. */
  function ChainIn(c: Cipher, p: seq<byte>, j: nat): Block
    requires 8 * j + 8 <= |p|
    decreases j, 0
  {
    XorBlock(BlockAt(p, j), if j == 0 then ZERO else ChainOut(c, p, j - 1))
  }

  /** Block j of the ciphertext. */
  function ChainOut(c: Cipher, p: seq<byte>, j: nat): Block
    requires 8 * j + 8 <= |p|
    decreases j, 1
  {
    XorBlock(c.enc(ChainIn(c, p, j)), if j == 0 then ZERO else ChainIn(c, p, j - 1))
  }

  function Encipher(c: Cipher, p: seq<byte>): (e: seq<byte>)
    requires |p| % 8 == 0
    ensures |e| == |p|
  {
    seq(|p|, i requires 0 <= i < |p| => ChainOut(c, p, i / 8)[i % 8])
  }

  /** What comes out of the inverse cipher for block j of the ciphertext. */
  function Inner(c: Cipher, e: seq<byte>, j: nat): Block
    requires 8 * j + 8 <= |e|
  {
    c.dec(if j == 0 then BlockAt(e, 0) else XorBlock(Inner(c, e, j - 1), BlockAt(e, j)))
  }

  /** The block before block j, or zeros before the first. */
  function Previous(e: seq<byte>, j: nat): Block
    requires 8 * j <= |e|
  {
    if j == 0 then ZERO else BlockAt(e, j - 1)
  }

  /** Block j of the plaintext. */
  function PlainBlock(c: Cipher, e: seq<byte>, j: nat): Block
    requires 8 * j + 8 <= |e|
  {
    XorBlock(Inner(c, e, j), Previous(e, j))
  }

  function Decipher(c: Cipher, e: seq<byte>): (p: seq<byte>)
    requires |e| % 8 == 0
    ensures |p| == |e|
  {
    seq(|e|, i requires 0 <= i < |e| => PlainBlock(c, e, i / 8)[i % 8])
  }

  lemma BlockByte(b: seq<byte>, i: nat)
    requires |b| % 8 == 0 && i < |b|
    ensures 8 * (i / 8) + 8 <= |b| && b[i] == BlockAt(b, i / 8)[i % 8]
  {
  }

  lemma EncipherByte(c: Cipher, p: seq<byte>, k: nat)
    requires |p| % 8 == 0 && k < |p|
    ensures 8 * (k / 8) + 8 <= |p| && Encipher(c, p)[k] == ChainOut(c, p, k / 8)[k % 8]
  {
  }

  lemma EncipherBlock(c: Cipher, p: seq<byte>, j: nat)
    requires |p| % 8 == 0 && 8 * j + 8 <= |p|
    ensures BlockAt(Encipher(c, p), j) == ChainOut(c, p, j)
  {
    forall i | 0 <= i < 8
      ensures BlockAt(Encipher(c, p), j)[i] == ChainOut(c, p, j)[i]
    {
      var at := 8 * j + i;
      DivModUnique(at, 8, j, i);
      EncipherByte(c, p, at);
    }
  }

  lemma DecipherByte(c: Cipher, e: seq<byte>, k: nat)
    requires |e| % 8 == 0 && k < |e|
    ensures 8 * (k / 8) + 8 <= |e| && Decipher(c, e)[k] == PlainBlock(c, e, k / 8)[k % 8]
  {
  }

  lemma DecipherBlock(c: Cipher, e: seq<byte>, j: nat)
    requires |e| % 8 == 0 && 8 * j + 8 <= |e|
    ensures BlockAt(Decipher(c, e), j) == PlainBlock(c, e, j)
  {
    forall i | 0 <= i < 8
      ensures BlockAt(Decipher(c, e), j)[i] == PlainBlock(c, e, j)[i]
    {
      var at := 8 * j + i;
      DivModUnique(at, 8, j, i);
      DecipherByte(c, e, at);
    }
  }

  /** The sequence e holds the blocks that enciphering p gives. */
  ghost predicate Chained(c: Cipher, p: seq<byte>, e: seq<byte>) {
    |e| == |p| && forall j: nat :: 8 * j + 8 <= |p| ==> BlockAt(e, j) == ChainOut(c, p, j)
  }

  lemma EncipherChained(c: Cipher, p: seq<byte>)
    requires |p| % 8 == 0
    ensures Chained(c, p, Encipher(c, p))
  {
    forall j: nat | 8 * j + 8 <= |p|
      ensures BlockAt(Encipher(c, p), j) == ChainOut(c, p, j)
    {
      EncipherBlock(c, p, j);
    }
  }

  lemma Enciphered(c: Cipher, p: seq<byte>) returns (e: seq<byte>)
    requires |p| % 8 == 0
    ensures Chained(c, p, e)
  {
    e := Encipher(c, p);
    EncipherChained(c, p);
  }

  /** Nothing else holds those blocks. */
  lemma EncipherOnly(c: Cipher, p: seq<byte>, e: seq<byte>)
    requires |p| % 8 == 0 && Chained(c, p, e)
    ensures e == Encipher(c, p)
  {
    EncipherChained(c, p);
    forall i | 0 <= i < |e|
      ensures e[i] == Encipher(c, p)[i]
    {
      BlockByte(e, i);
      BlockByte(Encipher(c, p), i);
    }
  }

  /** The sequence d holds the blocks that deciphering e gives. */
  ghost predicate Unchained(c: Cipher, e: seq<byte>, d: seq<byte>) {
    |d| == |e| && forall j: nat :: 8 * j + 8 <= |e| ==> BlockAt(d, j) == PlainBlock(c, e, j)
  }

  lemma DecipherUnchained(c: Cipher, e: seq<byte>)
    requires |e| % 8 == 0
    ensures Unchained(c, e, Decipher(c, e))
  {
    forall j: nat | 8 * j + 8 <= |e|
      ensures BlockAt(Decipher(c, e), j) == PlainBlock(c, e, j)
    {
      DecipherBlock(c, e, j);
    }
  }

  /** Undoing block j of the ciphertext gives what went into the cipher for block j. */
  lemma {:induction false} InnerOfChained(c: Cipher, p: seq<byte>, e: seq<byte>, j: nat)
    requires c.Valid() && Chained(c, p, e) && 8 * j + 8 <= |p|
    ensures Inner(c, e, j) == ChainIn(c, p, j)
    decreases j
  {
    var x := ChainIn(c, p, j);
    CipherInverts(c, x);
    assert BlockAt(e, j) == ChainOut(c, p, j);
    if j == 0 {
      XorCancels(c.enc(x), ZERO);
    } else {
      InnerOfChained(c, p, e, j - 1);
      XorCancels(c.enc(x), ChainIn(c, p, j - 1));
    }
  }

  lemma PlainBlockOfChained(c: Cipher, p: seq<byte>, e: seq<byte>, j: nat)
    requires c.Valid() && Chained(c, p, e) && 8 * j + 8 <= |p|
    ensures PlainBlock(c, e, j) == BlockAt(p, j)
  {
    InnerOfChained(c, p, e, j);
    assert j > 0 ==> BlockAt(e, j - 1) == ChainOut(c, p, j - 1);
    XorCancels(BlockAt(p, j), Previous(e, j));
  }

  /** Deciphering undoes enciphering, byte for byte, for any whole number of blocks. */
  lemma DecipherEncipher(c: Cipher, p: seq<byte>)
    requires c.Valid() && |p| % 8 == 0
    ensures Decipher(c, Encipher(c, p)) == p
  {
    var e := Encipher(c, p);
    EncipherChained(c, p);
    forall i | 0 <= i < |p|
      ensures Decipher(c, e)[i] == p[i]
    {
      BlockByte(p, i);
      PlainBlockOfChained(c, p, e, i / 8);
    }
  }
}
