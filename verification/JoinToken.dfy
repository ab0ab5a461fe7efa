/**
 Recovering the prepare_token from the join packets: match-server/message/joinreq.go scans payloads of unknown
 layout for it, and match-server/handlers.go puts it together when it was split over cmd 439 and cmd 440.
 */
module JoinToken {
  import opened Bytes
  import opened Results

  const MAX_TOKEN_LEN := 4096
  const SIG_LEN := 43
  const JOIN_REQ_HEADER_LEN := 22
  const DOT: byte := 46

  function Ascii(s: string): (b: seq<byte>)
    ensures |b| == |s|
  {
    seq(|s|, i requires 0 <= i < |s| => s[i] as int % 256)
  }

  const MARKER := Ascii("eyJhbGciOiJIUzI1NiIsInR5cCI6IkpXVCJ9")

  predicate IsJWTChar(c: byte) {
    65 <= c <= 90 || 97 <= c <= 122 || 48 <= c <= 57 || c == DOT || c == 45 || c == 95
  }

  predicate AllJWT(b: seq<byte>) {
    forall i :: 0 <= i < |b| ==> IsJWTChar(b[i])
  }

  // ----- ExtractJWT -----

  predicate OccursAt(b: seq<byte>, m: seq<byte>, i: nat) {
    i + |m| <= |b| && b[i..i + |m|] == m
  }

  /** The first place at or after i where m occurs in b, or -1. */
  function IndexFrom(b: seq<byte>, m: seq<byte>, i: nat): (r: int)
    ensures r == -1 || (i <= r && OccursAt(b, m, r))
    ensures forall j: nat :: i <= j && (r == -1 || j < r) ==> !OccursAt(b, m, j)
    decreases |b| - i
  {
    if i + |m| > |b| then -1
    else if OccursAt(b, m, i) then i
    else if i >= |b| then -1
    else IndexFrom(b, m, i + 1)
  }

  /** Where the run of token characters from i ends. */
  function RunEnd(b: seq<byte>, i: nat): (r: nat)
    requires i <= |b|
    ensures i <= r <= |b| && AllJWT(b[i..r]) && (r < |b| ==> !IsJWTChar(b[r]))
    decreases |b| - i
  {
    if i < |b| && IsJWTChar(b[i]) then
      var r := RunEnd(b, i + 1);
      assert b[i..r] == [b[i]] + b[i + 1..r];
      r
    else i
  }

  function Extract(b: seq<byte>): seq<byte> {
    var i := IndexFrom(b, MARKER, 0);
    if i < 0 then [] else b[i..RunEnd(b, i)]
  }

  method ExtractJWT(b: seq<byte>) returns (t: seq<byte>)
    ensures t == Extract(b)
  {
    var i := IndexFrom(b, MARKER, 0);
    if i < 0 {
      return [];
    }
    var j := i;
    while j < |b| && IsJWTChar(b[j])
      invariant i <= j <= |b| && RunEnd(b, j) == RunEnd(b, i)
    {
      j := j + 1;
    }
    t := b[i..j];
  }

  // ----- IsCompleteJWT -----

  function Count(t: seq<byte>, c: byte): nat {
    if t == [] then 0 else (if t[0] == c then 1 else 0) + Count(t[1..], c)
  }

  function LastIndex(t: seq<byte>, c: byte): (r: int)
    ensures -1 <= r < |t|
    ensures r >= 0 ==> t[r] == c
    ensures forall i :: r < i < |t| ==> t[i] != c
  {
    if t == [] then -1
    else if t[|t| - 1] == c then |t| - 1
    else LastIndex(t[..|t| - 1], c)
  }

  predicate IsComplete(t: seq<byte>) {
    Count(t, DOT) == 2 && |t| - LastIndex(t, DOT) - 1 >= SIG_LEN
  }

  // ----- LastJWTField -----

  datatype Best = Best(end: int, start: nat, len: nat)

  function LengthAt(b: seq<byte>, i: nat): nat
    requires i + 4 <= |b|
  {
    FromLe(b[i..i + 4])
  }

  /** A length-prefixed field of token characters has its prefix at i. */
  predicate FieldAt(b: seq<byte>, i: nat) {
    && i + 4 <= |b|
    && var n := LengthAt(b, i);
       1 <= n <= MAX_TOKEN_LEN && i + 4 + n <= |b| && AllJWT(b[i + 4..i + 4 + n])
  }

  function EndAt(b: seq<byte>, i: nat): nat
    requires FieldAt(b, i)
  {
    i + 4 + LengthAt(b, i)
  }

  /** The best field among the first n places. */
  function Scan(b: seq<byte>, n: nat): (best: Best)
    ensures best.end >= -1
    ensures best.end >= 0 ==> best.start + best.len == best.end <= |b| && best.len <= MAX_TOKEN_LEN
  {
    if n == 0 then Best(-1, 0, 0) else
    var best := Scan(b, n - 1);
    if FieldAt(b, n - 1) && EndAt(b, n - 1) > best.end then
      Best(EndAt(b, n - 1), n - 1 + 4, LengthAt(b, n - 1))
    else best
  }

  function LastField(b: seq<byte>): (t: seq<byte>)
    ensures |t| <= MAX_TOKEN_LEN
  {
    var best := Scan(b, |b|);
    if best.end < 0 then [] else b[best.start..best.start + best.len]
  }

  /** The scan finds the field that ends latest, and of those the one that starts first. */
  lemma {:induction false} ScanFindsLatest(b: seq<byte>, n: nat)
    ensures var best := Scan(b, n);
            && (forall i: nat :: i < n && FieldAt(b, i) ==> EndAt(b, i) <= best.end)
            && (best.end >= 0 ==>
                  && 4 <= best.start < n + 4 && FieldAt(b, best.start - 4)
                  && EndAt(b, best.start - 4) == best.end && LengthAt(b, best.start - 4) == best.len
                  && forall i: nat :: i < best.start - 4 && FieldAt(b, i) ==> EndAt(b, i) < best.end)
  {
    if n > 0 {
      ScanFindsLatest(b, n - 1);
    }
  }

  method LastJWTField(b: seq<byte>) returns (t: seq<byte>)
    ensures t == LastField(b)
  {
    var bestEnd, bestStart, bestLen := -1, 0, 0;
    var i := 0;
    while i + 4 <= |b|
      invariant 0 <= i <= |b| && Scan(b, i) == Best(bestEnd, bestStart, bestLen)
    {
      var n := LengthAt(b, i);
      if 1 <= n <= MAX_TOKEN_LEN && i + 4 + n <= |b| {
        var allJWT := true;
        var k := i + 4;
        while k < i + 4 + n && allJWT
          invariant i + 4 <= k <= i + 4 + n
          invariant allJWT ==> forall j :: i + 4 <= j < k ==> IsJWTChar(b[j])
          invariant !allJWT ==> !AllJWT(b[i + 4..i + 4 + n])
          decreases allJWT, i + 4 + n - k
        {
          if !IsJWTChar(b[k]) {
            assert b[i + 4..i + 4 + n][k - (i + 4)] == b[k];
            allJWT := false;
          } else {
            k := k + 1;
          }
        }
        assert allJWT <==> FieldAt(b, i);
        if allJWT && i + 4 + n > bestEnd {
          bestEnd, bestStart, bestLen := i + 4 + n, i + 4, n;
        }
      }
      i := i + 1;
    }
    NoFieldsLeft(b, i);
    if bestEnd < 0 {
      return [];
    }
    t := b[bestStart..bestStart + bestLen];
  }

  lemma {:induction false} NoFieldsLeft(b: seq<byte>, i: nat)
    requires i + 4 > |b| && i <= |b|
    ensures Scan(b, |b|) == Scan(b, i)
    decreases |b| - i
  {
    if i < |b| {
      NoFieldsLeft(b, i + 1);
    }
  }

  // ----- The tail field is found whatever comes before it -----

  lemma {:induction false} ScanBelow(b: seq<byte>, n: nat, bound: int)
    requires bound >= 0 && forall i: nat :: i < n && FieldAt(b, i) ==> EndAt(b, i) < bound
    ensures Scan(b, n).end < bound
  {
    if n > 0 {
      ScanBelow(b, n - 1, bound);
    }
  }

  lemma {:induction false} ScanStays(b: seq<byte>, m: nat, n: nat)
    requires m <= n && Scan(b, m).end == |b|
    ensures Scan(b, n) == Scan(b, m)
    decreases n
  {
    if m < n {
      ScanStays(b, m, n - 1);
    }
  }

  /** The bytes l are the length prefix of the tail, with a zero on top because the tail is short. */
  ghost predicate IsPrefix(l: seq<byte>, tail: seq<byte>) {
    |l| == 4 && FromLe(l) == |tail| <= MAX_TOKEN_LEN && l[3] == 0
  }

  lemma LeIsPrefix(tail: seq<byte>)
    requires |tail| <= MAX_TOKEN_LEN
    ensures IsPrefix(Le(|tail|, 4), tail)
  {
    U32RoundTrip(|tail|);
    TopByte(|tail|);
  }

  lemma TopByte(n: nat)
    requires n <= MAX_TOKEN_LEN
    ensures Le(n, 4)[3] == 0
  {
    var n1 := n / 256;
    var n2 := n1 / 256;
    assert Le(n, 4)[3] == Le(n1, 3)[2] == Le(n2, 2)[1];
  }

  lemma AllJWTAt(b: seq<byte>, lo: nat, hi: nat)
    requires lo <= hi <= |b| && AllJWT(b[lo..hi])
    ensures forall j :: lo <= j < hi ==> IsJWTChar(b[j])
  {
    forall j | lo <= j < hi
      ensures IsJWTChar(b[j])
    {
      assert b[j] == b[lo..hi][j - lo];
    }
  }

  /**
   A field that begins before the tail's length prefix cannot reach to the end of the payload: it would run over
   the top byte of that prefix, which is zero, and zero is no token character.
   */
  lemma EarlierFieldsEndEarlier(x: seq<byte>, l: seq<byte>, tail: seq<byte>, i: nat)
    requires IsPrefix(l, tail) && i < |x| && FieldAt(x + l + tail, i)
    ensures EndAt(x + l + tail, i) < |x| + 4 + |tail|
  {
    var b := x + l + tail;
    AllJWTAt(b, i + 4, EndAt(b, i));
    assert b[|x| + 3] == l[3];
  }

  lemma TailField(x: seq<byte>, l: seq<byte>, tail: seq<byte>)
    requires IsPrefix(l, tail) && tail != [] && AllJWT(tail)
    ensures FieldAt(x + l + tail, |x|) && LengthAt(x + l + tail, |x|) == |tail|
  {
    var b := x + l + tail;
    assert b[|x|..|x| + 4] == l;
    assert b[|x| + 4..|x| + 4 + |tail|] == tail;
  }

  lemma TailFound(x: seq<byte>, l: seq<byte>, tail: seq<byte>)
    requires IsPrefix(l, tail) && tail != [] && AllJWT(tail)
    ensures LastField(x + l + tail) == tail
  {
    var b := x + l + tail;
    TailField(x, l, tail);
    forall i: nat | i < |x| && FieldAt(b, i)
      ensures EndAt(b, i) < |b|
    {
      EarlierFieldsEndEarlier(x, l, tail, i);
    }
    ScanBelow(b, |x|, |b|);
    assert Scan(b, |x| + 1) == Best(|b|, |x| + 4, |tail|);
    ScanStays(b, |x| + 1, |b|);
    assert b[|x| + 4..|x| + 4 + |tail|] == tail;
  }

  /**
   The last field of a payload is its tail, for every prefix x, exactly when the tail is no longer than the longest
   token the scan takes.
   */
  lemma LastFieldIsTail(x: seq<byte>, tail: seq<byte>)
    requires tail != [] && AllJWT(tail)
    ensures LastField(x + Le(|tail|, 4) + tail) == tail <==> |tail| <= MAX_TOKEN_LEN
  {
    if |tail| <= MAX_TOKEN_LEN {
      LeIsPrefix(tail);
      TailFound(x, Le(|tail|, 4), tail);
    }
  }

  // ----- Putting a token together -----

  /** The Token field of the fixed cmd 440 layout, or nothing. */
  function ParsedToken(b: seq<byte>): seq<byte> {
    if |b| < JOIN_REQ_HEADER_LEN + 4 then [] else
    var n := LengthAt(b, JOIN_REQ_HEADER_LEN);
    var off := JOIN_REQ_HEADER_LEN + 4;
    if n <= 0 || n > MAX_TOKEN_LEN || off + n > |b| then [] else b[off..off + n]
  }

  /** What handleJoinMatchPrepare leaves in the buffer. */
  function Buffered(old439: seq<byte>, payload: seq<byte>): seq<byte> {
    if |payload| < 4 then old439 else
    var chunkLen, chunk := LengthAt(payload, 0), payload[4..];
    if 0 < chunkLen < |chunk| then chunk[..chunkLen] else chunk
  }

  function Prepared(prep439: seq<byte>, payload440: seq<byte>): seq<byte> {
    if prep439 != [] then
      var tok := if Extract(prep439) == [] then prep439 else Extract(prep439);
      if IsComplete(tok) then tok else tok + LastField(payload440)
    else if Extract(payload440) != [] then Extract(payload440)
    else ParsedToken(payload440)
  }

  class Session {
    var prep439: seq<byte>

    constructor ()
      ensures prep439 == []
    {
      prep439 := [];
    }

    method HandleJoinMatchPrepare(payload: seq<byte>)
      modifies this
      ensures prep439 == Buffered(old(prep439), payload)
    {
      if |payload| < 4 {
        return;
      }
      var chunkLen := LengthAt(payload, 0);
      var chunk := payload[4..];
      if chunkLen > 0 && chunkLen < |chunk| {
        chunk := chunk[..chunkLen];
      }
      prep439 := chunk;
    }

    method PrepareToken(payload440: seq<byte>) returns (tok: seq<byte>)
      ensures tok == Prepared(prep439, payload440)
    {
      if |prep439| > 0 {
        tok := ExtractJWT(prep439);
        if tok == [] {
          tok := prep439;
        }
        if !IsComplete(tok) {
          var tail := LastJWTField(payload440);
          tok := tok + tail;
        }
        return;
      }
      tok := ExtractJWT(payload440);
      if tok != [] {
        return;
      }
      tok := ParsedToken(payload440);
    }
  }

  /** A compact-serialised HS256 token of our signer: three segments, the last of them the 43-character signature. */
  predicate IsToken(t: seq<byte>) {
    AllJWT(t) && MARKER <= t && Count(t, DOT) == 2 && |t| - LastIndex(t, DOT) - 1 == SIG_LEN
  }

  lemma {:induction false} CountConcat(a: seq<byte>, b: seq<byte>, c: byte)
    ensures Count(a + b, c) == Count(a, c) + Count(b, c)
  {
    if a == [] {
      assert a + b == b;
    } else {
      assert (a + b)[1..] == a[1..] + b;
      CountConcat(a[1..], b, c);
    }
  }

  lemma {:induction false} CountZero(t: seq<byte>, c: byte)
    ensures Count(t, c) == 0 <==> c !in t
  {
    if t != [] {
      CountZero(t[1..], c);
      assert t == [t[0]] + t[1..];
    }
  }

  /** A proper beginning of a token is never taken for a whole one. */
  lemma BeginningIncomplete(a: seq<byte>, b: seq<byte>)
    requires IsToken(a + b) && b != []
    ensures !IsComplete(a)
  {
    var t := a + b;
    CountConcat(a, b, DOT);
    if Count(a, DOT) == 2 {
      CountZero(b, DOT);
      var last := LastIndex(a, DOT);
      CountZero(a, DOT);
      assert last >= 0;
      assert t[last] == DOT;
      assert forall i :: last < i < |t| ==> t[i] == if i < |a| then a[i] else b[i - |a|];
      assert LastIndex(t, DOT) == last;
    }
  }

  lemma RunToEnd(t: seq<byte>)
    requires AllJWT(t)
    ensures RunEnd(t, 0) == |t|
  {
  }

  lemma MarkerFacts()
    ensures |MARKER| == 36 && MARKER[0] == 101
    ensures forall i :: 0 < i < 36 ==> MARKER[i] != 101
  {
  }

  /** Extracting from a beginning of a token, however short, gives that beginning. */
  lemma ExtractBeginning(a: seq<byte>, t: seq<byte>)
    requires a != [] && AllJWT(a) && a <= t && MARKER <= t
    ensures (if Extract(a) == [] then a else Extract(a)) == a
  {
    MarkerFacts();
    if |a| >= |MARKER| {
      assert a[..|MARKER|] == t[..|MARKER|] == MARKER;
      assert OccursAt(a, MARKER, 0);
      RunToEnd(a);
    }
  }

  /** How much of the chunk the buffer keeps: never more than declared, all of it if nothing is declared. */
  function Kept(chunk: seq<byte>, declared: nat): seq<byte> {
    if 0 < declared < |chunk| then chunk[..declared] else chunk
  }

  /** The chunk is the declared length at least, or declares none. */
  predicate KeptWhole(chunk: seq<byte>, declared: nat) {
    declared == 0 || declared >= |chunk|
  }

  /** What the buffer keeps of a token's beginning is a beginning of the token. */
  lemma KeptBeginning(a: seq<byte>, b: seq<byte>, declared: nat) returns (rest: seq<byte>)
    requires a != []
    ensures Kept(a, declared) != [] && Kept(a, declared) + rest == a + b && |rest| >= |b|
    ensures KeptWhole(a, declared) <==> rest == b
  {
    if KeptWhole(a, declared) {
      rest := b;
    } else {
      rest := a[declared..] + b;
      assert |rest| > |b|;
      assert a[..declared] + (a[declared..] + b) == (a[..declared] + a[declared..]) + b;
      assert a[..declared] + a[declared..] == a;
    }
  }

  /**
   A token split over cmd 439 and cmd 440 in any two non-empty parts is put together again, whatever precedes the
   tail in cmd 440, exactly when the declared length does not cut its beginning and the tail is no longer than the
   longest token the scan takes.
   */
  lemma SplitTokenReassembled(a: seq<byte>, b: seq<byte>, declared: nat, x: seq<byte>, old439: seq<byte>)
    requires IsToken(a + b) && a != [] && b != [] && declared < 0x1_0000_0000
    ensures Prepared(Buffered(old439, Le(declared, 4) + a), x + Le(|b|, 4) + b) == a + b <==>
            KeptWhole(a, declared) && |b| <= MAX_TOKEN_LEN
  {
    var payload := x + Le(|b|, 4) + b;
    var rest := KeptBeginning(a, b, declared);
    BufferedChunk(a, declared, old439);
    PartsAreJWT(a, b);
    PreparedFromStart(Kept(a, declared), rest, payload);
    LastFieldIsTail(x, b);
    SameTail(Kept(a, declared), LastField(payload), rest);
  }

  lemma PartsAreJWT(a: seq<byte>, b: seq<byte>)
    requires AllJWT(a + b)
    ensures AllJWT(a) && AllJWT(b)
  {
    var t := a + b;
    assert forall i :: 0 <= i < |a| ==> a[i] == t[i];
    assert forall i :: 0 <= i < |b| ==> b[i] == t[|a| + i];
  }

  /** With the beginning of a token buffered, the answer is that and the last field of cmd 440. */
  lemma PreparedFromStart(a: seq<byte>, b: seq<byte>, payload440: seq<byte>)
    requires IsToken(a + b) && a != [] && b != []
    ensures Prepared(a, payload440) == a + LastField(payload440)
  {
    PartsAreJWT(a, b);
    ExtractBeginning(a, a + b);
    BeginningIncomplete(a, b);
    PreparedFromBoth(a, payload440);
  }

  lemma PreparedFromBoth(prep439: seq<byte>, payload440: seq<byte>)
    requires prep439 != [] && !IsComplete(prep439)
    requires (if Extract(prep439) == [] then prep439 else Extract(prep439)) == prep439
    ensures Prepared(prep439, payload440) == prep439 + LastField(payload440)
  {
  }

  lemma SameTail(a: seq<byte>, b: seq<byte>, c: seq<byte>)
    ensures a + b == a + c <==> b == c
  {
    assert (a + b)[|a|..] == b && (a + c)[|a|..] == c;
  }

  lemma BufferedChunk(a: seq<byte>, declared: nat, old439: seq<byte>)
    requires declared < 0x1_0000_0000
    ensures Buffered(old439, Le(declared, 4) + a) == Kept(a, declared)
  {
    var p := Le(declared, 4) + a;
    assert p[0..4] == Le(declared, 4) && p[4..] == a;
    U32RoundTrip(declared);
  }

  /**
   A token that arrives whole in cmd 439 is returned whatever cmd 440 holds, unless its declared length cuts it; then
   only if cmd 440 happens to end in just what was cut off.
   */
  lemma WholeTokenIn439(t: seq<byte>, declared: nat, payload440: seq<byte>, old439: seq<byte>)
    requires IsToken(t) && declared < 0x1_0000_0000
    ensures Prepared(Buffered(old439, Le(declared, 4) + t), payload440) == t <==>
            KeptWhole(t, declared) || LastField(payload440) == t[declared..]
  {
    BufferedChunk(t, declared, old439);
    MarkerFacts();
    if KeptWhole(t, declared) {
      ExtractBeginning(t, t);
    } else {
      var a, b := t[..declared], t[declared..];
      assert a + b == t;
      PreparedFromStart(a, b, payload440);
      SameTail(a, LastField(payload440), b);
    }
  }

  /** A token that arrives whole in cmd 440 is found there, if its header does not occur before it. */
  lemma WholeTokenIn440(x: seq<byte>, t: seq<byte>, y: seq<byte>)
    requires IsToken(t) && IndexFrom(x, MARKER, 0) == -1 && (y == [] || !IsJWTChar(y[0]))
    ensures Prepared([], x + t + y) == t
  {
    FirstMarker(x, t, y);
    RunStops(x, t, y);
    assert (x + t + y)[|x|..|x| + |t|] == t;
  }

  lemma FirstMarker(x: seq<byte>, t: seq<byte>, y: seq<byte>)
    requires MARKER <= t && IndexFrom(x, MARKER, 0) == -1
    ensures IndexFrom(x + t + y, MARKER, 0) == |x|
  {
    var b := x + t + y;
    forall i: nat | i < |x|
      ensures !OccursAt(b, MARKER, i)
    {
      if OccursAt(b, MARKER, i) {
        HeaderDoesNotOverlap(x, t, y, i);
      }
    }
    assert b[|x|..|x| + |MARKER|] == MARKER;
    assert OccursAt(b, MARKER, |x|);
  }

  lemma RunStops(x: seq<byte>, t: seq<byte>, y: seq<byte>)
    requires AllJWT(t) && (y == [] || !IsJWTChar(y[0]))
    ensures RunEnd(x + t + y, |x|) == |x| + |t|
  {
    var b := x + t + y;
    var e := RunEnd(b, |x|);
    assert forall i :: |x| <= i < |x| + |t| ==> b[i] == t[i - |x|];
    assert y != [] ==> b[|x| + |t|] == y[0];
    assert forall i :: |x| <= i < e ==> b[i] == b[|x|..e][i - |x|];
  }

  /** The header's first character occurs nowhere else in it, so two occurrences cannot overlap. */
  lemma HeaderDoesNotOverlap(x: seq<byte>, t: seq<byte>, y: seq<byte>, i: nat)
    requires MARKER <= t && i < |x| && OccursAt(x + t + y, MARKER, i)
    ensures OccursAt(x, MARKER, i)
  {
    var b := x + t + y;
    MarkerFacts();
    forall j | i <= j < i + 36
      ensures b[j] == MARKER[j - i]
    {
      assert b[j] == b[i..i + 36][j - i];
    }
    assert b[|x|] == t[0] == MARKER[0];
    assert b[i..i + 36] == x[i..i + 36];
  }
}
