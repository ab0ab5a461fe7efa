/** The framed datagrams of match-server/packet/packet.go: header, checksum and optional TEA payload. */
module Packets {
  import opened Bytes
  import opened Results
  import opened Crc7
  import Tea
  import TeaMessage

  type u16 = x: nat | x < 0x1_0000

  const MSG_KEY: byte := 0x6C
  const SEND_RELIABLE: byte := 2

  datatype DecodeError = Short | BadMsgKey | BadCrc | Gzip | Cipher(cause: Tea.TeaError)

  datatype Packet = Packet(sendOption: byte, cmd: u16, seqID: u16, orderID: u16, flags: byte, payload: seq<byte>)
  {
    /** Flag bit 0. */
    predicate Encrypted() {
      flags % 2 == 1
    }

    /** Flag bit 1. */
    predicate Gzipped() {
      flags / 2 % 2 == 1
    }

    /** The ids travel only in reliable packets. */
    function Sent(): Packet {
      if IsReliable(cmd, sendOption) then this else this.(seqID := 0, orderID := 0)
    }
  }

  predicate IsReliable(cmd: u16, sendOption: byte) {
    cmd != 2 && (sendOption == 1 || sendOption == 2 || sendOption == 5)
  }

  // ----- The layout -----

  /** How many bytes come before the payload. */
  function HeaderLen(reliable: bool): nat {
    if reliable then 12 else 8
  }

  function Ids(p: Packet): (b: seq<byte>)
    ensures |b| == if IsReliable(p.cmd, p.sendOption) then 4 else 0
  {
    if IsReliable(p.cmd, p.sendOption) then Le(p.seqID, 2) + Le(p.orderID, 2) else []
  }

  /** The header from the send option on; the length field keeps 16 bits of the payload's length. */
  function Header(p: Packet, length: nat): (b: seq<byte>)
    ensures |b| == HeaderLen(IsReliable(p.cmd, p.sendOption)) - 2
  {
    [p.sendOption] + Le(p.cmd, 2) + Ids(p) + [p.flags] + Le(length, 2)
  }

  function Body(p: Packet, wire: seq<byte>): (b: seq<byte>)
    ensures |b| == HeaderLen(IsReliable(p.cmd, p.sendOption)) - 2 + |wire|
  {
    Header(p, |wire|) + wire
  }

  function Datagram(body: seq<byte>): (b: seq<byte>)
    ensures |b| == |body| + 2
  {
    [MSG_KEY, Crc(0, body)] + body
  }

  /** The payload as it goes on the wire. */
  function Wire(p: Packet, key: seq<byte>, salt: TeaMessage.Salt): Result<seq<byte>, Tea.TeaError> {
    if p.Encrypted() then TeaMessage.Encrypt(p.payload, key, salt) else Ok(p.payload)
  }

  function Encode(p: Packet, key: seq<byte>, salt: TeaMessage.Salt): Result<seq<byte>, Tea.TeaError> {
    match Wire(p, key, salt)
    case Err(e) => Err(e)
    case Ok(wire) => Ok(Datagram(Body(p, wire)))
  }

  function U16At(b: seq<byte>, off: nat): (n: u16)
    requires off + 2 <= |b|
  {
    Ranges();
    FromLe(b[off..off + 2])
  }

  function Decode(buf: seq<byte>, key: seq<byte>): Result<Packet, DecodeError> {
    if |buf| < 8 then Err(Short)
    else if buf[0] != MSG_KEY then Err(BadMsgKey)
    else if Crc(0, buf[2..]) != buf[1] then Err(BadCrc)
    else
      var reliable := IsReliable(U16At(buf, 3), buf[2]);
      var h := HeaderLen(reliable);
      if |buf| < h then Err(Short) else
      var length := U16At(buf, h - 2);
      if h + length > |buf| then Err(Short) else
      var p := Packet(buf[2], U16At(buf, 3), if reliable then U16At(buf, 5) else 0,
                      if reliable then U16At(buf, 7) else 0, buf[h - 3], buf[h..h + length]);
      if p.Gzipped() then Err(Gzip)
      else if p.Encrypted() then
        match TeaMessage.Decrypt(p.payload, key)
        case Err(e) => Err(Cipher(e))
        case Ok(plain) => Ok(p.(payload := plain))
      else Ok(p)
  }

  // ----- The Go code -----

  method EncodePacket(table: array2<byte>, p: Packet, key: seq<byte>, salt: TeaMessage.Salt)
    returns (r: Result<seq<byte>, Tea.TeaError>)
    requires IsTable(table)
    ensures r == Encode(p, key, salt)
  {
    var payload := p.payload;
    if p.Encrypted() {
      var enc := TeaMessage.TeaEncrypt(payload, key, salt);
      if enc.Err? {
        return enc;
      }
      payload := enc.value;
    }
    var body := [p.sendOption];
    body := body + Le(p.cmd, 2);
    if IsReliable(p.cmd, p.sendOption) {
      body := body + Le(p.seqID, 2);
      body := body + Le(p.orderID, 2);
    }
    body := body + [p.flags];
    body := body + Le(|payload|, 2);
    body := body + payload;
    assert body == Header(p, |payload|) + payload;
    var crc := CRC7(table, 0, body);
    r := Ok([MSG_KEY, crc] + body);
  }

  method DecodeDatagram(table: array2<byte>, buf: seq<byte>, key: seq<byte>)
    returns (r: Result<Packet, DecodeError>)
    requires IsTable(table)
    ensures r == Decode(buf, key)
  {
    if |buf| < 8 {
      return Err(Short);
    }
    if buf[0] != MSG_KEY {
      return Err(BadMsgKey);
    }
    var crc := CRC7(table, 0, buf[2..]);
    if crc != buf[1] {
      return Err(BadCrc);
    }
    var off := 2;
    var sendOption := buf[off];
    off := off + 1;
    var cmd := U16At(buf, off);
    off := off + 2;
    var seqID, orderID := 0, 0;
    if IsReliable(cmd, sendOption) {
      if |buf| < 12 {
        return Err(Short);
      }
      seqID := U16At(buf, off);
      off := off + 2;
      orderID := U16At(buf, off);
      off := off + 2;
    }
    var flags := buf[off];
    off := off + 1;
    var length := U16At(buf, off);
    off := off + 2;
    if off + length > |buf| {
      return Err(Short);
    }
    var p := Packet(sendOption, cmd, seqID, orderID, flags, buf[off..off + length]);
    if p.Gzipped() {
      return Err(Gzip);
    }
    if p.Encrypted() {
      var dec := TeaMessage.TeaDecrypt(p.payload, key);
      if dec.Err? {
        return Err(Cipher(dec.error));
      }
      p := p.(payload := dec.value);
    }
    r := Ok(p);
  }

  // ----- Decoding undoes encoding -----

  /** The header's fields, where they stand in it. */
  lemma HeaderFields(p: Packet, length: nat)
    ensures var d, rel := Header(p, length), IsReliable(p.cmd, p.sendOption);
            var h := HeaderLen(rel) - 2;
            && d[0] == p.sendOption && d[1..3] == Le(p.cmd, 2) && d[h - 3] == p.flags && d[h - 2..h] == Le(length, 2)
            && (rel ==> d[3..5] == Le(p.seqID, 2) && d[5..7] == Le(p.orderID, 2))
  {
  }

  /** Where Encode puts each field is where Decode looks for it. */
  lemma Fields(p: Packet, wire: seq<byte>)
    ensures var b := Datagram(Body(p, wire));
            var h := HeaderLen(IsReliable(p.cmd, p.sendOption));
            && |b| == h + |wire| && b[0] == MSG_KEY && b[1] == Crc(0, b[2..])
            && b[2] == p.sendOption && U16At(b, 3) == p.cmd && b[h - 3] == p.flags
            && U16At(b, h - 2) == |wire| % 0x1_0000 && b[h..] == wire
  {
    var d := Header(p, |wire|);
    HeaderFields(p, |wire|);
    var b := Datagram(d + wire);
    Parts(b[0], b[1], d, wire);
    FieldAt(b, d, 1, p.cmd);
    FieldAt(b, d, |d| - 2, |wire|);
  }

  lemma IdFields(p: Packet, wire: seq<byte>)
    requires IsReliable(p.cmd, p.sendOption)
    ensures var b := Datagram(Body(p, wire)); U16At(b, 5) == p.seqID && U16At(b, 7) == p.orderID
  {
    var d := Header(p, |wire|);
    HeaderFields(p, |wire|);
    var b := Datagram(d + wire);
    Parts(b[0], b[1], d, wire);
    FieldAt(b, d, 3, p.seqID);
    FieldAt(b, d, 5, p.orderID);
  }

  lemma Parts(x: byte, y: byte, d: seq<byte>, w: seq<byte>)
    ensures var b := [x, y] + (d + w);
            && b[2..] == d + w && b[|d| + 2..] == w
            && forall i :: 0 <= i < |d| ==> b[i + 2] == d[i]
  {
    var b := [x, y] + (d + w);
    assert b == [x, y] + d + w;
  }

  /** A header field in the datagram is the one in the header, two bytes on. */
  lemma FieldAt(b: seq<byte>, d: seq<byte>, off: nat, n: nat)
    requires off + 2 <= |d| && |d| + 2 <= |b| && forall i :: 0 <= i < |d| ==> b[i + 2] == d[i]
    requires d[off..off + 2] == Le(n, 2)
    ensures U16At(b, off + 2) == n % 0x1_0000
  {
    assert b[off + 2] == d[off] && b[off + 3] == b[off + 1 + 2] == d[off + 1];
    assert b[off + 2..off + 4] == [d[off], d[off + 1]] == d[off..off + 2];
    U16RoundTrip(n);
  }

  lemma TwoBytes(b: seq<byte>, off: nat)
    requires off + 2 <= |b|
    ensures U16At(b, off) == (b[off] as int) + 256 * (b[off + 1] as int)
  {
    var s := b[off..off + 2];
    assert FromLe(s[1..]) == (s[1] as int) + 256 * FromLe(s[1..][1..]) && s[1..][1..] == [];
  }

  /** How long the header is, counting the message key and the checksum. */
  function Before(p: Packet): nat {
    if p.cmd != 2 && (p.sendOption == 1 || p.sendOption == 2 || p.sendOption == 5) then 12 else 8
  }

  lemma FieldBytes(p: Packet, wire: seq<byte>)
    ensures var b, h := Datagram(Body(p, wire)), Before(p);
            && |b| == h + |wire| && b[0] == 0x6C && b[1] == Crc(0, b[2..]) && b[2] == p.sendOption
            && b[h - 3] == p.flags && b[h..] == wire
            && (b[3] as int) + 256 * (b[4] as int) == p.cmd
            && (b[h - 2] as int) + 256 * (b[h - 1] as int) == |wire| % 0x1_0000
  {
    var b := Datagram(Body(p, wire));
    Fields(p, wire);
    TwoBytes(b, 3);
    TwoBytes(b, Before(p) - 2);
  }

  lemma IdBytes(p: Packet, wire: seq<byte>)
    requires Before(p) == 12
    ensures var b := Datagram(Body(p, wire));
            && (b[5] as int) + 256 * (b[6] as int) == p.seqID && (b[7] as int) + 256 * (b[8] as int) == p.orderID
  {
    var b := Datagram(Body(p, wire));
    IdFields(p, wire);
    TwoBytes(b, 5);
    TwoBytes(b, 7);
  }

  /**
   The datagram byte by byte. Hello, ordered and the other reliable packets, but for acknowledgements, have 12 bytes of
   header with two ids in them, all others 8; the payload follows, enciphered exactly if the lowest flag is set.
   */
  lemma Layout(p: Packet, key: seq<byte>, salt: TeaMessage.Salt)
    requires Encode(p, key, salt).Ok?
    ensures var e, h := Encode(p, key, salt).value, Before(p);
            && |e| >= h && e[0] == 0x6C && e[1] == Crc(0, e[2..]) && e[2] == p.sendOption
            && (e[3] as int) + 256 * (e[4] as int) == p.cmd
            && (h == 12 ==> (e[5] as int) + 256 * (e[6] as int) == p.seqID
                            && (e[7] as int) + 256 * (e[8] as int) == p.orderID)
            && e[h - 3] == p.flags && (e[h - 2] as int) + 256 * (e[h - 1] as int) == (|e| - h) % 0x1_0000
            && if p.flags % 2 == 0 then e[h..] == p.payload
               else TeaMessage.Encrypt(p.payload, key, salt) == Ok(e[h..])
  {
    var wire := Wire(p, key, salt).value;
    FieldBytes(p, wire);
    if Before(p) == 12 {
      IdBytes(p, wire);
    }
  }

  lemma DecodeFields(p: Packet, wire: seq<byte>, key: seq<byte>)
    ensures var cut := wire[..|wire| % 0x1_0000];
            Decode(Datagram(Body(p, wire)), key) ==
              if p.Gzipped() then Err(Gzip)
              else if !p.Encrypted() then Ok(p.Sent().(payload := cut))
              else match TeaMessage.Decrypt(cut, key)
                   case Err(e) => Err(Cipher(e))
                   case Ok(plain) => Ok(p.Sent().(payload := plain))
  {
    Fields(p, wire);
    if IsReliable(p.cmd, p.sendOption) {
      IdFields(p, wire);
    }
    var b := Datagram(Body(p, wire));
    var h := HeaderLen(IsReliable(p.cmd, p.sendOption));
    assert b[h..h + |wire| % 0x1_0000] == wire[..|wire| % 0x1_0000];
  }

  /** Which error is reported: of length, message key and checksum the first that is wrong, in this order. */
  lemma FirstError(buf: seq<byte>, key: seq<byte>)
    ensures |buf| < 8 ==> Decode(buf, key) == Err(Short)
    ensures Decode(buf, key) == Err(BadMsgKey) <==> |buf| >= 8 && buf[0] != 0x6C
    ensures Decode(buf, key) == Err(BadCrc) <==> |buf| >= 8 && buf[0] == 0x6C && Crc(0, buf[2..]) != buf[1]
  {
  }

  lemma DecryptShorter(c: seq<byte>, key: seq<byte>, plain: seq<byte>)
    requires |plain| > |c| - 10
    ensures TeaMessage.Decrypt(c, key) != Ok(plain)
  {
  }

  lemma ModDrops(n: nat)
    requires n >= 0x1_0000
    ensures n % 0x1_0000 <= n - 0x1_0000
  {
  }

  /**
   A datagram that Encode produced decodes to the packet it came from exactly when the packet is not marked as
   gzip and its payload, as sent, fits the 16-bit length field.
   */
  lemma DecodeEncode(p: Packet, key: seq<byte>, salt: TeaMessage.Salt)
    requires Encode(p, key, salt).Ok?
    ensures Decode(Encode(p, key, salt).value, key) == Ok(p.Sent()) <==>
            !p.Gzipped() && |Wire(p, key, salt).value| < 0x1_0000
  {
    var wire := Wire(p, key, salt).value;
    DecodeFields(p, wire, key);
    if |wire| < 0x1_0000 {
      assert wire[..|wire| % 0x1_0000] == wire;
      if p.Encrypted() {
        TeaMessage.DecryptEncrypt(p.payload, key, salt);
      }
    } else {
      CutShort(p, key, salt);
    }
  }

  /** A payload cut to its length modulo 2^16 is not the whole payload. */
  lemma CutShort(p: Packet, key: seq<byte>, salt: TeaMessage.Salt)
    requires Encode(p, key, salt).Ok? && |Wire(p, key, salt).value| >= 0x1_0000
    ensures var wire := Wire(p, key, salt).value;
            var cut := wire[..|wire| % 0x1_0000];
            if p.Encrypted() then TeaMessage.Decrypt(cut, key) != Ok(p.payload) else cut != p.payload
  {
    var wire := Wire(p, key, salt).value;
    ModDrops(|wire|);
    if p.Encrypted() {
      TeaMessage.DecryptEncrypt(p.payload, key, salt);
      DecryptShorter(wire[..|wire| % 0x1_0000], key, p.payload);
    }
  }

  /** How long a payload may be before its length field overflows. */
  lemma WireLength(p: Packet, key: seq<byte>, salt: TeaMessage.Salt)
    requires |key| == 16
    ensures Encode(p, key, salt).Ok?
    ensures |Wire(p, key, salt).value| ==
            |p.payload| + if p.Encrypted() then 10 + TeaMessage.Padding(|p.payload|) else 0
  {
    if p.Encrypted() {
      TeaMessage.DecryptEncrypt(p.payload, key, salt);
    }
  }

  // ----- Encoding undoes decoding -----

  lemma U16Bytes(b: seq<byte>, off: nat)
    requires off + 2 <= |b|
    ensures Le(U16At(b, off), 2) == b[off..off + 2]
  {
    FromLeRoundTrip(b[off..off + 2]);
  }

  /** Where an accepted plaintext datagram holds what. */
  ghost predicate Laid(buf: seq<byte>, p: Packet) {
    var h := HeaderLen(IsReliable(p.cmd, p.sendOption));
    && h + |p.payload| <= |buf| && buf[0] == MSG_KEY && buf[1] == Crc(0, buf[2..])
    && p.sendOption == buf[2] && p.cmd == U16At(buf, 3) && p.flags == buf[h - 3]
    && |p.payload| == U16At(buf, h - 2) && p.payload == buf[h..h + |p.payload|]
    && (h == 12 ==> p.seqID == U16At(buf, 5) && p.orderID == U16At(buf, 7))
  }

  lemma DecodedLaid(buf: seq<byte>, key: seq<byte>)
    requires Decode(buf, key).Ok? && !Decode(buf, key).value.Encrypted()
    ensures Laid(buf, Decode(buf, key).value)
  {
  }

  lemma PlainEncoded(p: Packet, key: seq<byte>, salt: TeaMessage.Salt)
    requires !p.Encrypted()
    ensures Encode(p, key, salt) == Ok(Datagram(Header(p, |p.payload|) + p.payload))
    ensures |Encode(p, key, salt).value| == HeaderLen(IsReliable(p.cmd, p.sendOption)) + |p.payload|
  {
  }

  lemma Rejoin(buf: seq<byte>, h: nat)
    requires 2 <= h <= |buf|
    ensures buf[2..] == buf[2..h] + buf[h..] && buf == [buf[0], buf[1]] + buf[2..]
  {
  }

  lemma LaidIs(buf: seq<byte>, p: Packet)
    requires Laid(buf, p) && |buf| == HeaderLen(IsReliable(p.cmd, p.sendOption)) + |p.payload|
    ensures buf == Datagram(Header(p, |p.payload|) + p.payload)
  {
    var h := HeaderLen(IsReliable(p.cmd, p.sendOption));
    HeaderOf(buf, p);
    assert buf[h..] == p.payload;
    Rejoin(buf, h);
  }

  /** A plaintext datagram that is accepted is re-encoded to itself exactly when nothing follows its payload. */
  lemma EncodeDecode(buf: seq<byte>, key: seq<byte>, salt: TeaMessage.Salt)
    requires Decode(buf, key).Ok? && !Decode(buf, key).value.Encrypted()
    ensures var p := Decode(buf, key).value;
            Encode(p, key, salt) == Ok(buf) <==>
            |buf| == HeaderLen(IsReliable(p.cmd, p.sendOption)) + |p.payload|
  {
    DecodedLaid(buf, key);
    ReEncoded(buf, Decode(buf, key).value, key, salt);
  }

  lemma ReEncoded(buf: seq<byte>, p: Packet, key: seq<byte>, salt: TeaMessage.Salt)
    requires Laid(buf, p) && !p.Encrypted()
    ensures Encode(p, key, salt) == Ok(buf) <==>
            |buf| == HeaderLen(IsReliable(p.cmd, p.sendOption)) + |p.payload|
  {
    PlainEncoded(p, key, salt);
    if |buf| == HeaderLen(IsReliable(p.cmd, p.sendOption)) + |p.payload| {
      LaidIs(buf, p);
    }
  }

  lemma HeaderOf(buf: seq<byte>, p: Packet)
    requires Laid(buf, p)
    ensures Header(p, |p.payload|) == buf[2..HeaderLen(IsReliable(p.cmd, p.sendOption))]
  {
    var h := HeaderLen(IsReliable(p.cmd, p.sendOption));
    U16Bytes(buf, 3);
    U16Bytes(buf, h - 2);
    if h == 12 {
      U16Bytes(buf, 5);
      U16Bytes(buf, 7);
      assert Ids(p) == buf[5..9];
    } else {
      assert Ids(p) == buf[5..5];
    }
    assert buf[2..h] == [buf[2]] + buf[3..5] + buf[5..h - 3] + [buf[h - 3]] + buf[h - 2..h];
  }

  // ----- Transmission errors -----

  /** Whatever follows, a datagram whose body was hit by a burst of at most seven bits fails the checksum. */
  lemma BurstRejected(p: Packet, key: seq<byte>, salt: TeaMessage.Salt, hit: seq<byte>)
    requires Encode(p, key, salt).Ok?
    requires |hit| == |Encode(p, key, salt).value| && hit[..2] == Encode(p, key, salt).value[..2]
    requires IsBurst(XorBits(BitsOf(Encode(p, key, salt).value[2..]), BitsOf(hit[2..])))
    ensures Decode(hit, key) == Err(BadCrc)
  {
    var sent := Encode(p, key, salt).value;
    Fields(p, Wire(p, key, salt).value);
    assert hit[0] == hit[..2][0] == sent[0] && hit[1] == hit[..2][1] == sent[1];
    BurstChangesCrc(sent[2..], hit[2..]);
  }

  /** The bit b of byte i turned over. */
  function Flip(buf: seq<byte>, i: nat, b: nat): (r: seq<byte>)
    requires i < |buf| && b < 8
    ensures |r| == |buf|
  {
    Pow2Grows(b, 7);
    Pow2Values();
    buf[i := XorByte(buf[i], Pow2(b))]
  }

  lemma {:induction false} Pow2Bit(b: nat, i: nat)
    ensures Bit(Pow2(b), i) <==> i == b
    decreases b
  {
    if b == 0 {
      if i > 0 {
        ZeroBits(i - 1);
      }
    } else if i > 0 {
      Pow2Bit(b - 1, i - 1);
    }
  }

  lemma {:induction false} BitsOfAt(buf: seq<byte>, k: nat)
    requires k < 8 * |buf|
    ensures BitsOf(buf)[k] == Bit(buf[k / 8], 7 - k % 8)
    decreases |buf|
  {
    if k >= 8 {
      BitsOfAt(buf[1..], k - 8);
    }
  }

  lemma FlipByte(x: byte, b: nat, j: nat)
    ensures Bit(Xor(x, Pow2(b)), j) != Bit(x, j) <==> j == b
  {
    XorBit(x, Pow2(b), j);
    Pow2Bit(b, j);
  }

  lemma FlipBit(buf: seq<byte>, i: nat, b: nat, k: nat)
    requires i < |buf| && b < 8 && k < 8 * |buf|
    ensures BitsOf(buf)[k] != BitsOf(Flip(buf, i, b))[k] <==> k == 8 * i + (7 - b)
  {
    var hit := Flip(buf, i, b);
    var q, j := k / 8, 7 - k % 8;
    assert k == 8 * q + 7 - j && 0 <= j < 8;
    BitsOfAt(buf, k);
    BitsOfAt(hit, k);
    FlipByte(buf[i], b, j);
    assert hit[q] == if q == i then Xor(buf[i], Pow2(b)) else buf[q];
  }

  lemma FlipIsBurst(buf: seq<byte>, i: nat, b: nat)
    requires i < |buf| && b < 8
    ensures IsBurst(XorBits(BitsOf(buf), BitsOf(Flip(buf, i, b))))
  {
    var e := XorBits(BitsOf(buf), BitsOf(Flip(buf, i, b)));
    var at := 8 * i + (7 - b);
    forall k | 0 <= k < |e|
      ensures e[k] == (k == at)
    {
      FlipBit(buf, i, b, k);
    }
    OneErrorIsBurst(e, at);
  }

  lemma OneErrorIsBurst(e: seq<bool>, at: nat)
    requires at < |e| && forall k :: 0 <= k < |e| ==> e[k] == (k == at)
    ensures IsBurst(e)
  {
    assert e == Falses(at) + [true] + Falses(|e| - at - 1);
  }

  /** No datagram survives a single flipped bit, wherever it is. */
  lemma BitFlipRejected(p: Packet, key: seq<byte>, salt: TeaMessage.Salt, i: nat, b: nat)
    requires Encode(p, key, salt).Ok? && i < |Encode(p, key, salt).value| && b < 8
    ensures var hit := Flip(Encode(p, key, salt).value, i, b);
            Decode(hit, key) == Err(if i == 0 then BadMsgKey else BadCrc)
  {
    var sent := Encode(p, key, salt).value;
    var hit := Flip(sent, i, b);
    Fields(p, Wire(p, key, salt).value);
    if i < 2 {
      assert hit[i] != sent[i] by {
        XorBit(sent[i], Pow2(b), b);
        Pow2Bit(b, b);
      }
      assert hit[2..] == sent[2..];
    } else {
      assert hit[2..] == Flip(sent[2..], i - 2, b);
      assert hit[..2] == sent[..2];
      FlipIsBurst(sent[2..], i - 2, b);
      BurstRejected(p, key, salt, hit);
    }
  }
}
