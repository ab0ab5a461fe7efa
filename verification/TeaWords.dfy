/**
 The block cipher of match-server/crypto/tea.go in machine words, with the shifts, sums and exclusive ors that the Go
 code writes, and the proof that the functions of Tea.dfy and TeaMessage.dfy on numbers compute it.
 */
module TeaWords {
  import opened BitFacts
  import opened Bytes
  import opened MachineWords
  import opened Tea
  import opened TeaMessage

  // ----- The cipher in machine words -----

  const STEP: bv32 := 0x9E37_79B9

  datatype Pair = Pair(v0: bv32, v1: bv32)

  datatype Keys = Keys(k0: bv32, k1: bv32, k2: bv32, k3: bv32)

  /** The four bytes from at on, least significant first. */
  function WordAt(b: seq<byte>, at: nat): bv32
    requires at + 4 <= |b|
  {
    Little(b[at..at + 4])
  }

  function PairOf(b: Block): Pair {
    Pair(WordAt(b, 0), WordAt(b, 4))
  }

  function KeysOf(key: seq<byte>): Keys
    requires |key| == 16
  {
    Keys(WordAt(key, 0), WordAt(key, 4), WordAt(key, 8), WordAt(key, 12))
  }

  function Plus(x: bv32, y: bv32): bv32 {
    x + y
  }

  function Up(x: bv32): bv32 {
    x << 4
  }

  function Down(x: bv32): bv32 {
    x >> 5
  }

  function Both(x: bv32, y: bv32): bv32 {
    x ^ y
  }

  function MixWords(v: bv32, sum: bv32, ka: bv32, kb: bv32): bv32 {
    Both(Both(Plus(Up(v), ka), Plus(v, sum)), Plus(Down(v), kb))
  }

  /** What one pass of a loop makes of the two words; the sum that it uses comes with them. */
  type Turn = (Pair, bv32) -> Pair

  function TurnOf(k: Keys): Turn {
    (p: Pair, sum: bv32) =>
      var v0 := Plus(p.v0, MixWords(p.v1, sum, k.k0, k.k1));
      Pair(v0, Plus(p.v1, MixWords(v0, sum, k.k2, k.k3)))
  }

  /** n passes of the encryption loop; sum is what it holds before them. */
  function Turns(turn: Turn, p: Pair, sum: bv32, n: nat): Pair
    decreases n
  {
    if n == 0 then p else Turns(turn, turn(p, Plus(sum, STEP)), Plus(sum, STEP), n - 1)
  }

  // ----- The functions on numbers compute it -----

  lemma WordAtSame(b: seq<byte>, at: nat)
    requires at + 4 <= |b|
    ensures Same(WordAt(b, at), LoadWord(b[at..at + 4]), 32)
  {
    LittleSame(b[at..at + 4]);
  }

  lemma AddSame(x: bv32, y: bv32, n: word, m: word)
    requires Same(x, n, 32) && Same(y, m, 32)
    ensures Same(Plus(x, y), Add(n, m), 32)
  {
    SumSame(x, y, Plus(x, y), n, m);
    ModSame(Plus(x, y), n + m, 32);
    Pow2Values();
    Wraps(n, m);
  }

  lemma BothSame(x: bv32, y: bv32, n: word, m: word)
    requires Same(x, n, 32) && Same(y, m, 32)
    ensures Same(Both(x, y), XorWord(n, m), 32)
  {
    XorSame(x, y, n, m, 32);
  }

  lemma UpSame(v: bv32, n: word)
    requires Same(v, n, 32)
    ensures Same(Up(v), (n * 16) % 0x1_0000_0000, 32)
  {
    LeftFour(v, Up(v), n);
    Pow2Values();
    ModSame(Up(v), 16 * n, 32);
  }

  lemma DownSame(v: bv32, n: word)
    requires Same(v, n, 32)
    ensures Same(Down(v), n / 32, 32)
  {
    RightSame(v, Down(v), n);
  }

  lemma MixSame(v: bv32, sum: bv32, ka: bv32, kb: bv32, n: word, s: word, a: word, b: word)
    requires Same(v, n, 32) && Same(sum, s, 32) && Same(ka, a, 32) && Same(kb, b, 32)
    ensures Same(MixWords(v, sum, ka, kb), Mix(n, s, a, b), 32)
  {
    UpSame(v, n);
    DownSame(v, n);
    AddSame(Up(v), ka, (n * 16) % 0x1_0000_0000, a);
    AddSame(v, sum, n, s);
    AddSame(Down(v), kb, n / 32, b);
    BothSame(Plus(Up(v), ka), Plus(v, sum), Add((n * 16) % 0x1_0000_0000, a), Add(n, s));
    BothSame(Both(Plus(Up(v), ka), Plus(v, sum)), Plus(Down(v), kb),
             XorWord(Add((n * 16) % 0x1_0000_0000, a), Add(n, s)), Add(n / 32, b));
  }

  ghost predicate PairSame(p: Pair, w: Words) {
    Same(p.v0, w.v0, 32) && Same(p.v1, w.v1, 32)
  }

  ghost predicate KeysSame(ks: Keys, k: Key) {
    k.mix == Mix && Same(ks.k0, k.k0, 32) && Same(ks.k1, k.k1, 32) && Same(ks.k2, k.k2, 32) && Same(ks.k3, k.k3, 32)
  }

  lemma TurnSame(p: Pair, ks: Keys, sum: bv32, w: Words, k: Key, s: word)
    requires PairSame(p, w) && KeysSame(ks, k) && Same(sum, s, 32)
    ensures PairSame(TurnOf(ks)(p, sum), Round(w, k, s))
  {
    var m0, m1 := MixWords(p.v1, sum, ks.k0, ks.k1), Mix(w.v1, s, k.k0, k.k1);
    MixSame(p.v1, sum, ks.k0, ks.k1, w.v1, s, k.k0, k.k1);
    AddSame(p.v0, m0, w.v0, m1);
    MixSame(Plus(p.v0, m0), sum, ks.k2, ks.k3, Add(w.v0, m1), s, k.k2, k.k3);
    AddSame(p.v1, MixWords(Plus(p.v0, m0), sum, ks.k2, ks.k3), w.v1, Mix(Add(w.v0, m1), s, k.k2, k.k3));
  }

  /** A pass of the loop does what a round does. */
  ghost predicate Tracks(turn: Turn, k: Key) {
    forall p: Pair, sum: bv32, w: Words, s: word {:trigger turn(p, sum), Round(w, k, s)} ::
      PairSame(p, w) && Same(sum, s, 32) ==> PairSame(turn(p, sum), Round(w, k, s))
  }

  lemma TurnTracks(ks: Keys, k: Key)
    requires KeysSame(ks, k)
    ensures Tracks(TurnOf(ks), k)
  {
    forall p: Pair, sum: bv32, w: Words, s: word | PairSame(p, w) && Same(sum, s, 32)
      ensures PairSame(TurnOf(ks)(p, sum), Round(w, k, s))
    {
      TurnSame(p, ks, sum, w, k, s);
    }
  }

  lemma DeltaSame()
    ensures Same(STEP, DELTA, 32)
  {
    ByteSame(0x9E, 32);
    OneByteMore(0x37, 0x9E, 0x9E);
    OneByteMore(0x79, 0x9E37, 0x9E37);
    OneByteMore(0xB9, 0x9E_3779, 0x9E_3779);
  }

  lemma {:induction false} TurnsSame(turn: Turn, p: Pair, sum: bv32, w: Words, k: Key, i: nat, n: nat)
    requires Tracks(turn, k) && PairSame(p, Forward(w, k, i)) && Same(sum, Sum(i), 32)
    ensures PairSame(Turns(turn, p, sum, n), Forward(w, k, i + n))
    decreases n
  {
    if n > 0 {
      DeltaSame();
      AddSame(sum, STEP, Sum(i), DELTA);
      assert Forward(w, k, i + 1) == Round(Forward(w, k, i), k, Sum(i + 1));
      TurnsSame(turn, turn(p, Plus(sum, STEP)), Plus(sum, STEP), w, k, i + 1, n - 1);
    }
  }

  lemma PairOfSame(b: Block)
    ensures PairSame(PairOf(b), Load(b))
  {
    WordAtSame(b, 0);
    WordAtSame(b, 4);
    assert b[0..4] == b[..4] && b[4..8] == b[4..];
  }

  lemma KeysOfSame(key: seq<byte>)
    requires |key| == 16
    ensures KeysSame(KeysOf(key), KeyWords(key))
  {
    WordSlices(key);
    KeyWordSame(key, 0, LoadWord(key[..4]));
    KeyWordSame(key, 4, LoadWord(key[4..8]));
    KeyWordSame(key, 8, LoadWord(key[8..12]));
    KeyWordSame(key, 12, LoadWord(key[12..]));
  }

  lemma WordSlices(key: seq<byte>)
    requires |key| == 16
    ensures key[0..4] == key[..4] && key[12..16] == key[12..]
  {
  }

  lemma KeyWordSame(key: seq<byte>, at: nat, n: word)
    requires at + 4 <= |key| && n == LoadWord(key[at..at + 4])
    ensures Same(WordAt(key, at), n, 32)
  {
    WordAtSame(key, at);
  }

  lemma OnePair(p: Pair, q: Pair, w: Words)
    requires PairSame(p, w) && PairSame(q, w)
    ensures p == q
  {
    OneWord(p.v0, q.v0, w.v0);
    OneWord(p.v1, q.v1, w.v1);
  }

  lemma EncryptPair(turn: Turn, p: Pair, q: Pair, b: Block, k: Key)
    requires Tracks(turn, k) && PairSame(p, Load(b)) && PairSame(q, Load(EncryptBlock(b, k)))
    ensures q == Turns(turn, p, 0, k.rounds)
  {
    NothingSame(32);
    TurnsSame(turn, p, 0, Load(b), k, 0, k.rounds);
    LoadStore(Forward(Load(b), k, k.rounds));
    OnePair(q, Turns(turn, p, 0, k.rounds), Forward(Load(b), k, k.rounds));
  }

  /** Enciphering a block is sixteen turns of the loop, from sum 0. */
  lemma EncryptBlockIs(b: Block, key: seq<byte>, turns: nat)
    requires |key| == 16 && turns == 16
    ensures PairOf(EncryptBlock(b, KeyWords(key))) == Turns(TurnOf(KeysOf(key)), PairOf(b), 0, turns)
  {
    PairOfSame(b);
    PairOfSame(EncryptBlock(b, KeyWords(key)));
    KeysOfSame(key);
    TurnTracks(KeysOf(key), KeyWords(key));
    EncryptPair(TurnOf(KeysOf(key)), PairOf(b), PairOf(EncryptBlock(b, KeyWords(key))), b, KeyWords(key));
  }

  /** Different blocks are different words. */
  lemma OneBlock(a: Block, b: Block)
    requires PairOf(a) == PairOf(b)
    ensures a == b
  {
    Pow2Values();
    PairOfSame(a);
    PairOfSame(b);
    OneNumber(PairOf(a).v0, Load(a).v0, Load(b).v0, 32);
    OneNumber(PairOf(a).v1, Load(a).v1, Load(b).v1, 32);
    StoreLoad(a);
    StoreLoad(b);
  }

  /** Deciphering a block finds the one block that the sixteen turns make it of. */
  lemma DecryptBlockIs(b: Block, x: Block, key: seq<byte>, turns: nat)
    requires |key| == 16 && turns == 16
    ensures Turns(TurnOf(KeysOf(key)), PairOf(x), 0, turns) == PairOf(b) <==> x == DecryptBlock(b, KeyWords(key))
  {
    var k := KeyWords(key);
    EncryptBlockIs(x, key, turns);
    BlockCipherInverts(b, k);
    BlockCipherInverts(x, k);
    if PairOf(EncryptBlock(x, k)) == PairOf(b) {
      OneBlock(EncryptBlock(x, k), b);
    }
  }

  // ----- Messages -----

  /** What goes into the cipher for block j: the plaintext block and the ciphertext block before it. */
  function BlockIn(p: seq<byte>, e: seq<byte>, j: nat): Block
    requires 8 * j + 8 <= |p| && |e| == |p|
  {
    XorBlock(BlockAt(p, j), Previous(e, j))
  }

  /** What is left of block j of the ciphertext without the input of the block before. */
  function BlockOut(p: seq<byte>, e: seq<byte>, j: nat): Block
    requires 8 * j + 8 <= |p| && |e| == |p|
  {
    XorBlock(BlockAt(e, j), if j == 0 then ZERO else BlockIn(p, e, j - 1))
  }

  lemma ChainInIs(c: Cipher, p: seq<byte>, e: seq<byte>, j: nat)
    requires Chained(c, p, e) && 8 * j + 8 <= |p|
    ensures ChainIn(c, p, j) == BlockIn(p, e, j)
  {
    if j > 0 {
      assert BlockAt(e, j - 1) == ChainOut(c, p, j - 1);
    }
  }

  lemma ChainOutIs(c: Cipher, p: seq<byte>, e: seq<byte>, j: nat)
    requires Chained(c, p, e) && 8 * j + 8 <= |p|
    ensures c.enc(BlockIn(p, e, j)) == BlockOut(p, e, j)
  {
    ChainInIs(c, p, e, j);
    if j > 0 {
      ChainInIs(c, p, e, j - 1);
    }
    assert BlockAt(e, j) == ChainOut(c, p, j);
    XorCancels(c.enc(ChainIn(c, p, j)), if j == 0 then ZERO else ChainIn(c, p, j - 1));
  }

  /** Block j of an enciphered message in machine words: sixteen turns take what goes in to what comes out. */
  lemma MessageBlockIs(plain: seq<byte>, key: seq<byte>, salt: Salt, j: nat, turns: nat)
    requires |key| == 16 && turns == 16 && 8 * j + 8 <= |Frame(plain, salt)|
    ensures var p, e := Frame(plain, salt), Encrypt(plain, key, salt).value;
            |e| == |p| &&
            PairOf(BlockOut(p, e, j)) == Turns(TurnOf(KeysOf(key)), PairOf(BlockIn(p, e, j)), 0, turns)
  {
    var c, p := CipherOf(key), Frame(plain, salt);
    var e := Encipher(c, p);
    CipherOfValid(key);
    EncipherChained(c, p);
    ChainOutIs(c, p, e, j);
    EncryptBlockIs(BlockIn(p, e, j), key, turns);
  }
}
