/**
 The tokens that the signer emits: three segments of base64url (section 3.1 of RFC 7515), whose digits are those of
 section 5 of RFC 4648. They are just what the scans of match-server/message/joinreq.go look for.
 */
module Tokens {
  import opened Bytes
  import opened JoinToken

  /** The value of a base64url digit. */
  type digit = v: nat | v < 64

  const CAPITAL_A := 65
  const SMALL_A := 97
  const ZERO := 48
  const MINUS := 45
  const UNDERLINE := 95
  const FULL_STOP := 46

  /** Capital letters first, then small letters, decimal digits, minus and underline. */
  function CharOf(v: digit): byte {
    if v < 26 then CAPITAL_A + v
    else if v < 52 then SMALL_A + (v - 26)
    else if v < 62 then ZERO + (v - 52)
    else if v == 62 then MINUS
    else UNDERLINE
  }

  /** The token characters are the full stop and the sixty-four digits, and no others. */
  lemma TokenChars(c: byte)
    ensures IsJWTChar(c) <==> c == FULL_STOP || exists v: digit :: CharOf(v) == c
  {
    if CAPITAL_A <= c < CAPITAL_A + 26 {
      assert CharOf(c - CAPITAL_A) == c;
    } else if SMALL_A <= c < SMALL_A + 26 {
      assert CharOf(c - SMALL_A + 26) == c;
    } else if ZERO <= c < ZERO + 10 {
      assert CharOf(c - ZERO + 52) == c;
    } else if c == MINUS {
      assert CharOf(62) == c;
    } else if c == UNDERLINE {
      assert CharOf(63) == c;
    }
  }

  // ----- Base64url -----

  /** Three bytes in four digits. */
  function Quad(a: byte, b: byte, c: byte): seq<digit> {
    [a / 4, a % 4 * 16 + b / 16, b % 16 * 4 + c / 64, c % 64]
  }

  /** Without padding, one byte left over takes two digits and two take three. */
  function Digits(b: seq<byte>): seq<digit> {
    if b == [] then []
    else if |b| == 1 then Quad(b[0], 0, 0)[..2]
    else if |b| == 2 then Quad(b[0], b[1], 0)[..3]
    else Quad(b[0], b[1], b[2]) + Digits(b[3..])
  }

  function Text(digits: seq<digit>): (t: seq<byte>)
    ensures |t| == |digits|
  {
    seq(|digits|, i requires 0 <= i < |digits| => CharOf(digits[i]))
  }

  function Base64(b: seq<byte>): seq<byte> {
    Text(Digits(b))
  }

  lemma {:induction false} DigitCount(b: seq<byte>)
    ensures |Digits(b)| == (|b| * 8 + 5) / 6
    decreases |b|
  {
    if |b| >= 3 {
      DigitCount(b[3..]);
    }
  }

  // ----- Tokens -----

  // The header of every token, {"alg":"HS256","typ":"JWT"}, and its text, in three parts.

  const HEAD_0: seq<byte> := [123, 34, 97] + [108, 103, 34] + [58, 34, 72]
  const HEAD_1: seq<byte> := [83, 50, 53] + [54, 34, 44] + [34, 116, 121]
  const HEAD_2: seq<byte> := [112, 34, 58] + [34, 74, 87] + [84, 34, 125]
  const MARK_0: seq<byte> := [101, 121, 74, 104, 98, 71, 99, 105, 79, 105, 74, 73]
  const MARK_1: seq<byte> := [85, 122, 73, 49, 78, 105, 73, 115, 73, 110, 82, 53]
  const MARK_2: seq<byte> := [99, 67, 73, 54, 73, 107, 112, 88, 86, 67, 74, 57]

  const HEADER := HEAD_0 + (HEAD_1 + HEAD_2)

  lemma TextConcat(a: seq<digit>, b: seq<digit>)
    ensures Text(a + b) == Text(a) + Text(b)
  {
  }

  /** t is the text of three bytes. */
  predicate Spells(b: seq<byte>, t: seq<byte>) {
    && |b| == 3 && |t| == 4
    && CharOf(b[0] / 4) == t[0] && CharOf(b[0] % 4 * 16 + b[1] / 16) == t[1]
    && CharOf(b[1] % 16 * 4 + b[2] / 64) == t[2] && CharOf(b[2] % 64) == t[3]
  }

  lemma Three(b: seq<byte>, t: seq<byte>, rest: seq<byte>, text: seq<byte>)
    requires Spells(b, t) && Base64(rest) == text
    ensures Base64(b + rest) == t + text
  {
    assert (b + rest)[3..] == rest;
    TextConcat(Quad(b[0], b[1], b[2]), Digits(rest));
    assert Text(Quad(b[0], b[1], b[2])) == t;
  }

  lemma Nine(a: seq<byte>, b: seq<byte>, c: seq<byte>, x: seq<byte>, y: seq<byte>, z: seq<byte>, rest: seq<byte>,
             text: seq<byte>)
    requires Spells(a, x) && Spells(b, y) && Spells(c, z) && Base64(rest) == text
    ensures Base64(a + b + c + rest) == x + y + z + text
  {
    Three(c, z, rest, text);
    Three(b, y, c + rest, z + text);
    Three(a, x, b + (c + rest), y + (z + text));
    assert a + b + c + rest == a + (b + (c + rest)) && x + y + z + text == x + (y + (z + text));
  }

  lemma FirstPart(rest: seq<byte>, text: seq<byte>)
    requires Base64(rest) == text
    ensures Base64(HEAD_0 + rest) == MARK_0 + text
  {
    var x, y, z := [101, 121, 74, 104], [98, 71, 99, 105], [79, 105, 74, 73];
    Nine([123, 34, 97], [108, 103, 34], [58, 34, 72], x, y, z, rest, text);
    assert MARK_0 == x + y + z;
  }

  lemma SecondPart(rest: seq<byte>, text: seq<byte>)
    requires Base64(rest) == text
    ensures Base64(HEAD_1 + rest) == MARK_1 + text
  {
    var x, y, z := [85, 122, 73, 49], [78, 105, 73, 115], [73, 110, 82, 53];
    Nine([83, 50, 53], [54, 34, 44], [34, 116, 121], x, y, z, rest, text);
    assert MARK_1 == x + y + z;
  }

  lemma ThirdPart(rest: seq<byte>, text: seq<byte>)
    requires Base64(rest) == text
    ensures Base64(HEAD_2 + rest) == MARK_2 + text
  {
    var x, y, z := [99, 67, 73, 54], [73, 107, 112, 88], [86, 67, 74, 57];
    Nine([112, 34, 58], [34, 74, 87], [84, 34, 125], x, y, z, rest, text);
    assert MARK_2 == x + y + z;
  }

  lemma AsciiConcat(s: string, t: string)
    ensures Ascii(s + t) == Ascii(s) + Ascii(t)
  {
  }

  lemma FirstMark()
    ensures Ascii("eyJhbGciOiJI") == MARK_0
  {
  }

  lemma SecondMark()
    ensures Ascii("UzI1NiIsInR5") == MARK_1
  {
  }

  lemma ThirdMark()
    ensures Ascii("cCI6IkpXVCJ9") == MARK_2
  {
  }

  lemma MarkerParts()
    ensures MARKER == Ascii("eyJhbGciOiJI") + (Ascii("UzI1NiIsInR5") + Ascii("cCI6IkpXVCJ9"))
  {
    AsciiConcat("UzI1NiIsInR5", "cCI6IkpXVCJ9");
    AsciiConcat("eyJhbGciOiJI", "UzI1NiIsInR5" + "cCI6IkpXVCJ9");
    assert "eyJhbGciOiJI" + ("UzI1NiIsInR5" + "cCI6IkpXVCJ9") == "eyJhbGciOiJIUzI1NiIsInR5cCI6IkpXVCJ9";
  }

  /** The header's text is what the scan looks for. */
  lemma HeaderIsMarker()
    ensures Base64(HEADER) == MARKER
  {
    ThirdPart([], []);
    assert HEAD_2 + [] == HEAD_2 && MARK_2 + [] == MARK_2;
    SecondPart(HEAD_2, MARK_2);
    FirstPart(HEAD_1 + HEAD_2, MARK_1 + MARK_2);
    FirstMark();
    SecondMark();
    ThirdMark();
    MarkerParts();
  }

  // ----- Tokens -----

  /** Segments joined by full stops. */
  function Joined(h: seq<byte>, p: seq<byte>, c: seq<byte>): seq<byte> {
    h + [FULL_STOP] + p + [FULL_STOP] + c
  }

  /** The token of a payload with its authentication code. */
  function Signed(payload: seq<byte>, code: seq<byte>): seq<byte> {
    Joined(Base64(HEADER), Base64(payload), Base64(code))
  }

  lemma Base64Chars(b: seq<byte>)
    ensures forall i :: 0 <= i < |Base64(b)| ==> IsJWTChar(Base64(b)[i]) && Base64(b)[i] != FULL_STOP
    ensures |Base64(b)| == (|b| * 8 + 5) / 6
  {
    DigitCount(b);
    forall i | 0 <= i < |Base64(b)|
      ensures IsJWTChar(Base64(b)[i]) && Base64(b)[i] != FULL_STOP
    {
      TokenChars(CharOf(Digits(b)[i]));
    }
  }

  lemma NoStop(b: seq<byte>)
    ensures Count(Base64(b), FULL_STOP) == 0 && AllJWT(Base64(b)) && |Base64(b)| == (|b| * 8 + 5) / 6
  {
    Base64Chars(b);
    CountZero(Base64(b), FULL_STOP);
  }

  lemma LastStop(a: seq<byte>, b: seq<byte>)
    requires Count(b, FULL_STOP) == 0
    ensures LastIndex(a + [FULL_STOP] + b, FULL_STOP) == |a|
  {
    CountZero(b, FULL_STOP);
    var t := a + [FULL_STOP] + b;
    var r := LastIndex(t, FULL_STOP);
    assert t[|a|] == FULL_STOP;
  }

  lemma AllConcat(a: seq<byte>, b: seq<byte>)
    requires AllJWT(a) && AllJWT(b)
    ensures AllJWT(a + b)
  {
  }

  predicate Segments(h: seq<byte>, p: seq<byte>, c: seq<byte>) {
    && AllJWT(h) && AllJWT(p) && AllJWT(c) && MARKER <= h
    && Count(h, FULL_STOP) == Count(p, FULL_STOP) == Count(c, FULL_STOP) == 0
  }

  lemma JoinedShape(h: seq<byte>, p: seq<byte>, c: seq<byte>)
    requires Segments(h, p, c)
    ensures var t := Joined(h, p, c);
            AllJWT(t) && MARKER <= t && Count(t, FULL_STOP) == 2 && LastIndex(t, FULL_STOP) == |t| - |c| - 1
  {
    var hs := h + [FULL_STOP];
    var hp := hs + p;
    var hps := hp + [FULL_STOP];
    assert Count([FULL_STOP], FULL_STOP) == 1;
    CountConcat(h, [FULL_STOP], FULL_STOP);
    CountConcat(hs, p, FULL_STOP);
    CountConcat(hp, [FULL_STOP], FULL_STOP);
    CountConcat(hps, c, FULL_STOP);
    AllConcat(h, [FULL_STOP]);
    AllConcat(hs, p);
    AllConcat(hp, [FULL_STOP]);
    AllConcat(hps, c);
    LastStop(hp, c);
    assert h <= hps + c;
  }

  /** Three segments make a token exactly if the last has 43 characters. */
  lemma SegmentsAreToken(h: seq<byte>, p: seq<byte>, c: seq<byte>)
    requires Segments(h, p, c)
    ensures IsToken(Joined(h, p, c)) <==> |c| == 43
  {
    JoinedShape(h, p, c);
  }

  lemma ExtractAll(t: seq<byte>)
    requires AllJWT(t) && MARKER <= t
    ensures Extract(t) == t
  {
    assert [] + t + [] == t;
    FirstMarker([], t, []);
    RunStops([], t, []);
  }

  lemma PreparedAll(t: seq<byte>, payload440: seq<byte>)
    requires Extract(t) == t != []
    ensures Prepared(t, payload440) == if IsComplete(t) then t else t + LastField(payload440)
  {
  }

  /** In cmd 439 they are taken for a whole token exactly if the last has 43 or more; else cmd 440 goes on with it. */
  lemma SegmentsIn439(h: seq<byte>, p: seq<byte>, c: seq<byte>, payload440: seq<byte>)
    requires Segments(h, p, c)
    ensures var t := Joined(h, p, c);
            Prepared(t, payload440) == if |c| >= 43 then t else t + LastField(payload440)
  {
    var t := Joined(h, p, c);
    JoinedShape(h, p, c);
    ExtractAll(t);
    PreparedAll(t, payload440);
    assert IsComplete(t) <==> |c| >= 43;
  }

  /** Every token that the signer emits is one that the results on putting tokens together are about. */
  lemma SignedIsToken(payload: seq<byte>, code: seq<byte>)
    requires |code| == 32
    ensures IsToken(Signed(payload, code))
  {
    HeaderIsMarker();
    NoStop(HEADER);
    NoStop(payload);
    NoStop(code);
    SegmentsAreToken(Base64(HEADER), Base64(payload), Base64(code));
  }

  /** A token of the fixed layout, whatever it is made of, is found there if the payload has no header anywhere. */
  lemma FixedLayout(head: seq<byte>, tok: seq<byte>, rest: seq<byte>)
    requires |head| == 22 && 1 <= |tok| <= 4096
    requires IndexFrom(head + Le(|tok|, 4) + tok + rest, MARKER, 0) == -1
    ensures Prepared([], head + Le(|tok|, 4) + tok + rest) == tok
  {
    var b := head + Le(|tok|, 4) + tok + rest;
    U32RoundTrip(|tok|);
    assert b[22..26] == Le(|tok|, 4) && b[26..26 + |tok|] == tok;
  }

  // ----- So those results are about all of them -----

  /** Split in two non-empty parts, it comes back exactly when neither length is too much for the scans. */
  lemma SignedReassembled(payload: seq<byte>, code: seq<byte>, a: seq<byte>, b: seq<byte>, declared: nat, x: seq<byte>,
                          old439: seq<byte>)
    requires |code| == 32 && a + b == Signed(payload, code) && a != [] && b != [] && declared < 0x1_0000_0000
    ensures Prepared(Buffered(old439, Le(declared, 4) + a), x + Le(|b|, 4) + b) == Signed(payload, code) <==>
            (declared == 0 || declared >= |a|) && |b| <= 4096
  {
    SignedIsToken(payload, code);
    SplitTokenReassembled(a, b, declared, x, old439);
  }

  /** Whole in cmd 439, or in cmd 440, it is found behind anything without a header, if no token character follows. */
  lemma SignedFound(payload: seq<byte>, code: seq<byte>, payload440: seq<byte>, old439: seq<byte>, x: seq<byte>,
                    y: seq<byte>)
    requires |code| == 32 && IndexFrom(x, MARKER, 0) == -1 && (y == [] || !IsJWTChar(y[0]))
    ensures var t := Signed(payload, code);
            && Prepared([], x + t + y) == t
            && (|x + t + y| < 0x1_0000_0000 ==>
                  Prepared(Buffered(old439, Le(|x + t + y|, 4) + (x + t + y)), payload440) == t)
  {
    var t := Signed(payload, code);
    SignedIsToken(payload, code);
    WholeTokenIn440(x, t, y);
    if |x + t + y| < 0x1_0000_0000 {
      WholeChunk(x + t + y, old439);
      FoundInside(x, t, y, payload440);
    }
  }

  lemma WholeChunk(chunk: seq<byte>, old439: seq<byte>)
    requires |chunk| < 0x1_0000_0000
    ensures Buffered(old439, Le(|chunk|, 4) + chunk) == chunk
  {
    var b := Le(|chunk|, 4) + chunk;
    U32RoundTrip(|chunk|);
    assert b[0..4] == Le(|chunk|, 4) && b[4..] == chunk;
  }

  lemma FoundInside(x: seq<byte>, t: seq<byte>, y: seq<byte>, payload440: seq<byte>)
    requires IsToken(t) && IndexFrom(x, MARKER, 0) == -1 && (y == [] || !IsJWTChar(y[0]))
    ensures Prepared(x + t + y, payload440) == t
  {
    FirstMarker(x, t, y);
    RunStops(x, t, y);
    assert (x + t + y)[|x|..|x| + |t|] == t;
  }

  // ----- More than one cmd 439 -----

  /** The buffer after some payloads of cmd 439. */
  function After(payloads: seq<seq<byte>>): seq<byte> {
    if payloads == [] then [] else Buffered(After(payloads[..|payloads| - 1]), payloads[|payloads| - 1])
  }

  /** The last one that is long enough for a length decides: its bytes behind the length, no more than that many. */
  lemma {:induction false} LastChunk(payloads: seq<seq<byte>>, j: nat)
    requires j < |payloads| && |payloads[j]| >= 4 && forall i :: j < i < |payloads| ==> |payloads[i]| < 4
    ensures var n, chunk := LengthAt(payloads[j], 0), payloads[j][4..];
            After(payloads) == if 0 < n < |chunk| then chunk[..n] else chunk
    decreases |payloads|
  {
    if j < |payloads| - 1 {
      LastChunk(payloads[..|payloads| - 1], j);
    }
  }
}
