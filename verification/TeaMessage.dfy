/**
 TeaEncrypt and TeaDecrypt of match-server/crypto/tea.go: a message is framed as a padding count, that many
 zeros, two salt bytes, the data and seven zeros, then enciphered; decryption walks a cursor over the blocks and
 takes the data out on the way. The methods keep the Go code's buffers and cursor and are proved against
 functions that look at the whole deciphered message at once.
 */
module TeaMessage {
  import opened Bytes
  import opened Results
  import opened Tea

  type Salt = s: seq<byte> | |s| == 2 witness [0, 0]

  // ----- The key -----

  function XorWord(a: word, b: word): word {
    Pow2Values();
    XorBound(a, b, 32);
    Xor(a, b)
  }

  function Mix(v: word, sum: word, ka: word, kb: word): word {
    XorWord(XorWord(Add((v * 16) % 0x1_0000_0000, ka), Add(v, sum)), Add(v / 32, kb))
  }

  function KeyWords(key: seq<byte>): Key
    requires |key| == 16
  {
    Key(Mix, ROUNDS, SUM_INIT, LoadWord(key[..4]), LoadWord(key[4..8]), LoadWord(key[8..12]), LoadWord(key[12..]))
  }

  /** Decryption starts from the constant the last encryption round used: sixteen deltas, modulo 2^32. */
  lemma SumInit(rounds: nat)
    requires rounds == ROUNDS
    ensures Sum(rounds) == SUM_INIT
  {
    SumIs(rounds);
    DivModUnique(rounds * DELTA, 0x1_0000_0000, 9, SUM_INIT);
  }

  function CipherOf(key: seq<byte>): Cipher
    requires |key| == 16
  {
    var k := KeyWords(key);
    Cipher(k, (b: Block) => EncryptBlock(b, k), (b: Block) => DecryptBlock(b, k))
  }

  lemma CipherOfValid(key: seq<byte>)
    requires |key| == 16
    ensures CipherOf(key).Valid()
  {
    SumInit(KeyWords(key).rounds);
  }

  // ----- Whole messages -----

  function Zeros(n: nat): (z: seq<byte>)
    ensures |z| == n
  {
    seq(n, _ => 0)
  }

  function Padding(plainLen: nat): (p: nat)
    ensures p < 8 && (plainLen + 10 + p) % 8 == 0
  {
    var over := (plainLen + 2 + 7 + 1) % 8;
    if over == 0 then 0 else 8 - over
  }

  function Frame(plain: seq<byte>, salt: Salt): (f: seq<byte>)
    ensures |f| % 8 == 0
  {
    var p := Padding(|plain|);
    [p] + Zeros(p) + salt + plain + Zeros(7)
  }

  /** Where everything is in it: the count, that many zeros, the salt, the data, and seven zeros. */
  lemma FrameBytes(plain: seq<byte>, salt: Salt)
    ensures var f, p, n := Frame(plain, salt), Padding(|plain|), |plain|;
            && |f| == n + p + 10 && f[0] == p && f[1 + p] == salt[0] && f[2 + p] == salt[1]
            && f[3 + p..3 + p + n] == plain
            && (forall i :: 1 <= i < 1 + p || 3 + p + n <= i < |f| ==> f[i] == 0)
  {
  }

  function Encrypt(plain: seq<byte>, key: seq<byte>, salt: Salt): Result<seq<byte>, TeaError> {
    if |key| != 16 then Err(BadInput) else Ok(Encipher(CipherOf(key), Frame(plain, salt)))
  }

  /** Takes the data out of a deciphered message, if its last seven bytes are zero. */
  function Unframe(d: seq<byte>): Result<seq<byte>, TeaError>
    requires |d| >= 16
  {
    var padding := d[0] % 8;
    if |d| < 10 + padding then Err(BadInput)
    else if d[|d| - 7..] != Zeros(7) then Err(BadPadding)
    else Ok(d[3 + padding..|d| - 7])
  }

  function Decrypt(cipher: seq<byte>, key: seq<byte>): Result<seq<byte>, TeaError> {
    if |key| != 16 || |cipher| < 16 || |cipher| % 8 != 0 then Err(BadInput)
    else Unframe(Decipher(CipherOf(key), cipher))
  }

  lemma UnframeFrame(plain: seq<byte>, salt: Salt)
    ensures |Frame(plain, salt)| >= 16
    ensures Unframe(Frame(plain, salt)) == Ok(plain)
  {
    var p := Padding(|plain|);
    var head := [p] + Zeros(p) + salt;
    var f := Frame(plain, salt);
    assert f == head + plain + Zeros(7) && |head| == 3 + p;
    assert f[0] == p && p % 8 == p;
    assert f[|f| - 7..] == Zeros(7);
    assert f[3 + p..|f| - 7] == plain;
  }

  /** Every message comes back from its ciphertext: any length, any 16-byte key, any salt. */
  lemma DecryptEncrypt(plain: seq<byte>, key: seq<byte>, salt: Salt)
    requires |key| == 16
    ensures Encrypt(plain, key, salt).Ok?
    ensures Decrypt(Encrypt(plain, key, salt).value, key) == Ok(plain)
    ensures |Encrypt(plain, key, salt).value| == |plain| + 10 + Padding(|plain|)
  {
    UnframeFrame(plain, salt);
    CipherOfValid(key);
    DecipherEncipher(CipherOf(key), Frame(plain, salt));
  }

  // ----- The Go code's loops -----

  /** The plaintext buffer, filled in place: padding count, zeros, salt, data and seven more zeros. */
  method FillFrame(plain: seq<byte>, salt: Salt) returns (buf: array<byte>)
    ensures fresh(buf) && buf[..] == Frame(plain, salt)
  {
    var padding := (|plain| + 2 + 7 + 1) % 8;
    if padding != 0 {
      padding := 8 - padding;
    }
    assert padding == Padding(|plain|);
    var encLen := ((1 + padding + 2 + |plain| + 7) + 7) / 8 * 8;
    assert encLen == 10 + padding + |plain|;
    buf := new byte[encLen](_ => 0);
    buf[0] := padding;
    var pos := 1 + padding;
    buf[pos] := salt[0];
    buf[pos + 1] := salt[1];
    pos := pos + 2;
    forall i | 0 <= i < |plain| {
      buf[pos + i] := plain[i];
    }
  }

  method TeaEncrypt(plain: seq<byte>, key: seq<byte>, salt: Salt) returns (r: Result<seq<byte>, TeaError>)
    ensures r == Encrypt(plain, key, salt)
  {
    if |key| != 16 {
      return Err(BadInput);
    }
    var buf := FillFrame(plain, salt);
    CipherOfValid(key);
    var out := EncipherBuffer(CipherOf(key), buf[..]);
    EncipherOnly(CipherOf(key), buf[..], out);
    r := Ok(out);
  }

  /** The chaining of one block. */
  method ChainBlock(c: Cipher, data: Block, ivPlain: Block, ivCrypt: Block) returns (blockXored: Block, enc: Block)
    requires c.Valid()
    ensures blockXored == XorBlock(data, ivCrypt) && enc == XorBlock(c.enc(blockXored), ivPlain)
  {
    blockXored := XorBlock(data, ivCrypt);
    enc := EncryptECB(blockXored, c);
    enc := XorBlock(enc, ivPlain);
  }

  /** The chaining vectors with which block j is enciphered. */
  predicate Vectors(c: Cipher, buf: seq<byte>, j: nat, ivPlain: Block, ivCrypt: Block)
    requires 8 * j <= |buf|
  {
    && ivPlain == (if j == 0 then ZERO else ChainIn(c, buf, j - 1))
    && ivCrypt == if j == 0 then ZERO else ChainOut(c, buf, j - 1)
  }

  /** What comes in as the vectors of block j, and goes out as those of the next. */
  lemma ChainNext(c: Cipher, buf: seq<byte>, e: seq<byte>, j: nat, ivPlain: Block, ivCrypt: Block, blockXored: Block,
                  enc: Block)
    requires Chained(c, buf, e) && 8 * j + 8 <= |buf| && Vectors(c, buf, j, ivPlain, ivCrypt)
    requires blockXored == XorBlock(BlockAt(buf, j), ivCrypt) && enc == XorBlock(c.enc(blockXored), ivPlain)
    ensures Vectors(c, buf, j + 1, blockXored, enc) && enc == BlockAt(e, j)
  {
  }

  /** Writes one block at an offset, leaving everything before it alone. */
  method PutBlock(out: array<byte>, at: nat, b: Block)
    requires at + 8 <= out.Length
    modifies out
    ensures out[..at + 8] == old(out[..at]) + b
  {
    for i := 0 to 8
      invariant out[..at] == old(out[..at]) && out[at..at + i] == b[..i]
    {
      out[at + i] := b[i];
    }
  }

  /** The next block of what is to come out. */
  method PutNext(out: array<byte>, at: nat, enc: Block, ghost e: seq<byte>)
    requires at % 8 == 0 && at + 8 <= out.Length == |e| && out[..at] == e[..at] && enc == BlockAt(e, at / 8)
    modifies out
    ensures out[..at + 8] == e[..at + 8]
  {
    PutBlock(out, at, enc);
    assert e[..at + 8] == e[..at] + BlockAt(e, at / 8);
  }

  /** One turn of the block loop. */
  method ChainTurn(c: Cipher, buf: seq<byte>, out: array<byte>, blk: nat, ivPlain: Block, ivCrypt: Block,
                   ghost e: seq<byte>)
    returns (blockXored: Block, enc: Block)
    requires c.Valid() && blk % 8 == 0 && blk + 8 <= |buf| == out.Length && Chained(c, buf, e)
    requires out[..blk] == e[..blk] && Vectors(c, buf, blk / 8, ivPlain, ivCrypt)
    modifies out
    ensures out[..blk + 8] == e[..blk + 8]
    ensures var vectors := Vectors(c, buf, blk / 8 + 1, blockXored, enc); vectors
  {
    blockXored, enc := ChainBlock(c, buf[blk..blk + 8], ivPlain, ivCrypt);
    ChainNext(c, buf, e, blk / 8, ivPlain, ivCrypt, blockXored, enc);
    PutNext(out, blk, enc, e);
  }

  method EncipherBuffer(c: Cipher, buf: seq<byte>) returns (r: seq<byte>)
    requires c.Valid() && |buf| % 8 == 0
    ensures var chained := Chained(c, buf, r); chained
  {
    ghost var e := Enciphered(c, buf);
    var out := new byte[|buf|](_ => 0);
    var ivPlain, ivCrypt := ZERO, ZERO;
    var blk := 0;
    while blk < |buf|
      invariant blk % 8 == 0 && blk <= |buf| && out[..blk] == e[..blk]
      invariant var vectors := Vectors(c, buf, blk / 8, ivPlain, ivCrypt); vectors
    {
      ivPlain, ivCrypt := ChainTurn(c, buf, out, blk, ivPlain, ivCrypt, e);
      blk := blk + 8;
    }
    r := out[..];
    assert r == out[..blk] && e[..blk] == e;
  }

  /** The cursor's fields, when it is in the given block of the message d. */
  ghost predicate Stands(c: Cipher, cipher: seq<byte>, d: seq<byte>, block: nat, cipherPos: nat, pos: nat,
                         decDest: Block, ivPre: Block, ivCur: Block) {
    && c.Valid() && |cipher| % 8 == 0 && Unchained(c, cipher, d)
    && cipherPos == 8 * block + 8 <= |cipher| && pos <= 8
    && decDest == Inner(c, cipher, block)
    && ivPre == Previous(cipher, block)
    && ivCur == BlockAt(cipher, block)
  }

  lemma StandsNext(c: Cipher, cipher: seq<byte>, d: seq<byte>, block: nat, cipherPos: nat, pos: nat, decDest: Block,
                   ivPre: Block, ivCur: Block, cur: Block)
    requires Stands(c, cipher, d, block, cipherPos, pos, decDest, ivPre, ivCur)
    requires cipherPos + 8 <= |cipher| && cur == cipher[cipherPos..cipherPos + 8]
    ensures Stands(c, cipher, d, block + 1, cipherPos + 8, 0, c.dec(XorBlock(decDest, cur)), ivCur, cur)
  {
  }

  /** The state that the closure `advance` works on; d is the whole deciphered message. */
  class Cursor {
    const c: Cipher
    const cipher: seq<byte>
    var decDest: Block
    var ivPre: Block
    var ivCur: Block
    var cipherPos: nat
    var pos: nat
    ghost var block: nat
    ghost const d: seq<byte>

    ghost predicate Valid()
      reads this
    {
      Stands(c, cipher, d, block, cipherPos, pos, decDest, ivPre, ivCur)
    }

    /** How many bytes of the deciphered message lie before the cursor. */
    ghost function Offset(): int
      reads this
    {
      8 * block + pos
    }

    constructor (c: Cipher, cipher: seq<byte>, ghost d: seq<byte>)
      requires c.Valid() && |cipher| % 8 == 0 && |cipher| >= 8 && Unchained(c, cipher, d)
      ensures Valid()
      ensures this.c == c && this.cipher == cipher && this.d == d && pos == 0 && Offset() == 0
      ensures decDest[0] == d[0]
    {
      this.c, this.cipher, this.d := c, cipher, d;
      ivPre, ivCur := ZERO, cipher[0..8];
      cipherPos, pos, block := 8, 0, 0;
      new;
      decDest := DecryptECB(cipher[0..8], c);
      assert BlockAt(d, 0) == PlainBlock(c, cipher, 0);
      XorCancels(Inner(c, cipher, 0), ZERO);
      assert d[0] == BlockAt(d, 0)[0];
    }

    /** What `advance` assigns. */
    method Take(cur: Block)
      requires c.Valid()
      modifies this
      ensures decDest == c.dec(XorBlock(old(decDest), cur)) && ivPre == old(ivCur) && ivCur == cur
      ensures cipherPos == old(cipherPos) + 8 && pos == 0 && block == old(block) + 1
    {
      ivPre := ivCur;
      ivCur := cur;
      decDest := DecryptECB(XorBlock(decDest, cur), c);
      cipherPos, pos, block := cipherPos + 8, 0, block + 1;
    }

    method Advance() returns (ok: bool)
      requires Valid() && pos == 8
      modifies this
      ensures ok <==> Offset() < |cipher|
      ensures var valid := Valid(); valid && Offset() == old(Offset())
      ensures if ok then pos == 0 else pos == 8
    {
      if cipherPos + 8 > |cipher| {
        return false;
      }
      var cur: Block := cipher[cipherPos..cipherPos + 8];
      StandsNext(c, cipher, d, block, cipherPos, pos, decDest, ivPre, ivCur, cur);
      Take(cur);
      return true;
    }

    /** The byte under the cursor is the next one of the deciphered message. */
    method Peek() returns (b: byte)
      requires Valid() && pos < 8
      ensures 0 <= Offset() < |d| && b == d[Offset()]
    {
      b := XorByte(decDest[pos], ivPre[pos]);
      assert BlockAt(d, block) == PlainBlock(c, cipher, block);
      assert d[8 * block + pos] == BlockAt(d, block)[pos];
    }

    /** The loop over the salt. */
    method SkipSalt() returns (ok: bool)
      requires Valid() && Offset() + 2 <= |cipher|
      modifies this
      ensures ok && Valid() && Offset() == old(Offset()) + 2
    {
      var saltCount := 1;
      while saltCount <= 2
        invariant Valid() && 1 <= saltCount <= 3 && Offset() == old(Offset()) + saltCount - 1
        decreases 2 - saltCount, pos
      {
        if pos == 8 {
          ok := Advance();
          if !ok {
            return;
          }
        } else {
          pos := pos + 1;
          saltCount := saltCount + 1;
        }
      }
      ok := true;
    }

    /** One turn of it: the byte under the cursor is taken. */
    method TakeByte(out: array<byte>, at: nat)
      requires Valid() && pos < 8 && at < out.Length
      modifies `pos, out
      ensures var valid := Valid(); valid && pos == old(pos) + 1
      ensures Offset() <= |d| && out[..at + 1] == old(out[..at]) + d[old(Offset())..Offset()]
    {
      var b := Peek();
      out[at] := b;
      pos := pos + 1;
    }

    /** The loop that takes the data out. */
    method Extract(out: array<byte>) returns (ok: bool)
      requires Valid() && Offset() + out.Length <= |cipher|
      modifies this, out
      ensures ok && Valid() && Offset() == old(Offset()) + out.Length
      ensures out[..] == d[old(Offset())..Offset()]
    {
      ghost var start := Offset();
      var dataCount := 0;
      while dataCount < out.Length
        invariant var valid := Valid(); valid && 0 <= dataCount <= out.Length && Offset() == start + dataCount
        invariant Offset() <= |d| && out[..dataCount] == d[start..Offset()]
        decreases out.Length - dataCount, pos
      {
        if pos <= 7 {
          TakeByte(out, dataCount);
          dataCount := dataCount + 1;
        } else {
          ok := Advance();
          if !ok {
            return;
          }
        }
      }
      ok := true;
      assert out[..] == out[..dataCount];
    }

    /** The loop that checks the seven trailing zeros. */
    method CheckZeros() returns (ok: bool, zeros: bool)
      requires Valid() && Offset() + 7 == |cipher|
      modifies this
      ensures ok && Valid()
      ensures zeros <==> forall i :: |d| - 7 <= i < |d| ==> d[i] == 0
      ensures zeros ==> Offset() == |cipher|
    {
      var zeroCount := 1;
      while zeroCount <= 7
        invariant Valid() && 1 <= zeroCount <= 8 && Offset() == |cipher| - 8 + zeroCount
        invariant forall i :: |d| - 7 <= i < Offset() ==> d[i] == 0
        decreases 7 - zeroCount, pos
      {
        if pos <= 7 {
          var b := Peek();
          if b != 0 {
            return true, false;
          }
          pos := pos + 1;
          zeroCount := zeroCount + 1;
        } else {
          ok := Advance();
          if !ok {
            return false, false;
          }
        }
      }
      return true, true;
    }
  }

  lemma TailZeros(d: seq<byte>)
    requires |d| >= 7
    ensures d[|d| - 7..] == Zeros(7) <==> forall i :: |d| - 7 <= i < |d| ==> d[i] == 0
  {
    var t := d[|d| - 7..];
    if t == Zeros(7) {
      forall i | |d| - 7 <= i < |d|
        ensures d[i] == 0
      {
        assert d[i] == t[i - (|d| - 7)];
      }
    }
  }

  method TeaDecrypt(cipher: seq<byte>, key: seq<byte>) returns (r: Result<seq<byte>, TeaError>)
    ensures r == Decrypt(cipher, key)
  {
    if |key| != 16 {
      return Err(BadInput);
    }
    if |cipher| < 16 || |cipher| % 8 != 0 {
      return Err(BadInput);
    }
    CipherOfValid(key);
    r := DecryptBlocks(CipherOf(key), cipher);
  }

  /** What is behind the padding: two bytes of salt, the data and seven zeros. */
  method ReadMessage(cur: Cursor, plainLen: nat) returns (r: Result<seq<byte>, TeaError>)
    requires cur.Valid() && cur.Offset() + 2 + plainLen + 7 == |cur.cipher|
    modifies cur
    ensures r == if cur.d[plainLen + old(cur.Offset()) + 2..] == Zeros(7)
                 then Ok(cur.d[old(cur.Offset()) + 2..plainLen + old(cur.Offset()) + 2]) else Err(BadPadding)
  {
    var out := new byte[plainLen](_ => 0);
    var ok := cur.SkipSalt();
    if !ok {
      return Err(BadInput);
    }
    ok := cur.Extract(out);
    if !ok {
      return Err(BadInput);
    }
    var zeros;
    ok, zeros := cur.CheckZeros();
    if !ok {
      return Err(BadInput);
    }
    TailZeros(cur.d);
    if !zeros {
      return Err(BadPadding);
    }
    r := Ok(out[..]);
  }

  /**
   TeaDecrypt once the lengths are checked. Wherever the plaintext length is not negative no call of Advance
   fails, and a message that passes the check has the cursor at the very end of the ciphertext.
   */
  method DecryptBlocks(c: Cipher, cipher: seq<byte>) returns (r: Result<seq<byte>, TeaError>)
    requires c.Valid() && |cipher| >= 16 && |cipher| % 8 == 0
    ensures r == Unframe(Decipher(c, cipher))
  {
    ghost var d := Decipher(c, cipher);
    DecipherUnchained(c, cipher);
    var cur := new Cursor(c, cipher, d);
    var padding := cur.decDest[0] % 8;
    assert padding == d[0] % 8 && |d| == |cipher|;
    var plainLen := |cipher| - 1 - padding - 2 - 7;
    if plainLen < 0 {
      return Err(BadInput);
    }
    cur.pos := 1 + padding;
    r := ReadMessage(cur, plainLen);
  }
}
