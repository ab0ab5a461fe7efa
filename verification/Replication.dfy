/**
 The replication stream of match-server/message/replication.go, and the reader that its header comment documents. The
 byte buffer is the Writer of match-server/message/message.go.
 */
module Replication {
  import opened Bytes
  import opened Results

  type u64 = x: nat | x < 0x1_0000_0000_0000_0000
  type u32 = x: nat | x < 0x1_0000_0000

  const LENGTHS := 0x1_0000

  /** One replicated field. The kind says how wide its value is on the wire. */
  datatype Entry = Entry(kind: byte, field: byte, value: u64)

  datatype Entity = Entity(repID: u32, entries: seq<Entry>)

  /** Bytes of value for each kind: 8-bit and bool, 16-bit, 32-bit and float, 64-bit; kinds beyond 9 have none. */
  function Width(kind: byte): (w: nat)
    ensures w <= 8
  {
    if kind == 0 || kind == 1 || kind == 6 then 1
    else if kind == 2 || kind == 3 then 2
    else if kind == 4 || kind == 5 || kind == 7 then 4
    else if kind == 8 || kind == 9 then 8
    else 0
  }

  // ----- The writer -----

  function Tuple(e: Entry): (b: seq<byte>)
    ensures |b| == 2 + Width(e.kind)
  {
    [e.kind, e.field] + Le(e.value, Width(e.kind))
  }

  function Tuples(entries: seq<Entry>): seq<byte> {
    if entries == [] then [] else Tuple(entries[0]) + Tuples(entries[1..])
  }

  /** The length goes first, cut to 16 bits. */
  function Block(entries: seq<Entry>): seq<byte> {
    Le(|Tuples(entries)|, 2) + Tuples(entries)
  }

  function Stream(entities: seq<Entity>): seq<byte> {
    if entities == [] then []
    else Le(entities[0].repID, 4) + Block(entities[0].entries) + Stream(entities[1..])
  }

  // ----- The documented reader -----

  /** A complete tuple of a known kind comes next. */
  predicate HasTuple(b: seq<byte>) {
    |b| >= 2 && b[0] <= 9 && |b| >= 2 + Width(b[0])
  }

  function TupleLen(b: seq<byte>): (n: nat)
    requires HasTuple(b)
    ensures 2 <= n <= |b|
  {
    2 + Width(b[0])
  }

  function ReadValue(b: seq<byte>): Entry
    requires HasTuple(b)
  {
    Values(b[2..TupleLen(b)]);
    Entry(b[0], b[1], FromLe(b[2..TupleLen(b)]))
  }

  /** One tuple ahead of what is read next. */
  function Ahead(e: Entry, got: Option<(seq<Entry>, seq<byte>)>): Option<(seq<Entry>, seq<byte>)> {
    if got.None? then None else Some(([e] + got.value.0, got.value.1))
  }

  /** Reads tuples until limit bytes are used up; a tuple may run past the limit. Returns what was not read, too. */
  function ReadTuples(b: seq<byte>, limit: int): Option<(seq<Entry>, seq<byte>)>
    decreases |b|
  {
    if limit <= 0 then Some(([], b))
    else if !HasTuple(b) then None
    else Ahead(ReadValue(b), ReadTuples(b[TupleLen(b)..], limit - TupleLen(b)))
  }

  function ReadStream(b: seq<byte>): Option<seq<Entity>>
    decreases |b|
  {
    if b == [] then Some([])
    else if |b| < 6 then None
    else
      match ReadTuples(b[6..], FromLe(b[4..6]))
      case None => None
      case Some(got) =>
        ReadShrinks(b[6..], FromLe(b[4..6]));
        match ReadStream(got.1)
        case None => None
        case Some(more) => Some([Entity(ReadID(b[..4]), got.0)] + more)
  }

  function ReadID(b: seq<byte>): u32
    requires |b| == 4
  {
    Ranges();
    FromLe(b)
  }

  lemma Values(b: seq<byte>)
    requires |b| <= 8
    ensures FromLe(b) < 0x1_0000_0000_0000_0000
  {
    RangeGrows(|b|, 8);
    Ranges();
  }

  lemma {:induction false} RangeGrows(w: nat, v: nat)
    requires w <= v
    ensures Range(w) <= Range(v)
    decreases v
  {
    if w < v {
      RangeGrows(w, v - 1);
    }
  }

  lemma {:induction false} ReadShrinks(b: seq<byte>, limit: int)
    requires ReadTuples(b, limit).Some?
    ensures |ReadTuples(b, limit).value.1| <= |b|
    decreases |b|
  {
    if limit > 0 {
      ReadShrinks(b[TupleLen(b)..], limit - TupleLen(b));
    }
  }

  // ----- Reading what was written -----

  /** The value, cut to the width of its kind. */
  function Cut(e: Entry): Entry {
    Values(Le(e.value, Width(e.kind)));
    e.(value := FromLe(Le(e.value, Width(e.kind))))
  }

  lemma CutIsModulo(e: Entry)
    ensures Cut(e).kind == e.kind && Cut(e).field == e.field && Cut(e).value == e.value % Range(Width(e.kind))
  {
    LeRoundTrip(e.value, Width(e.kind));
  }

  /** What a value keeps: 8, 16, 32 or 64 bits, by its kind. */
  lemma Keeps(e: Entry)
    requires e.kind <= 9
    ensures Cut(e).value ==
            if e.kind in {0, 1, 6} then e.value % 0x100
            else if e.kind in {2, 3} then e.value % 0x1_0000
            else if e.kind in {4, 5, 7} then e.value % 0x1_0000_0000
            else e.value
  {
    CutIsModulo(e);
    Ranges();
  }

  lemma FourBytes(b: seq<byte>)
    requires |b| == 4
    ensures FromLe(b) == (b[0] as int) + 0x100 * (b[1] as int) + 0x1_0000 * (b[2] as int) + 0x100_0000 * (b[3] as int)
  {
    var c := b[1..];
    assert FromLe(c) == (c[0] as int) + 256 * FromLe(c[1..]) && c[1..] == b[2..];
    var d := b[2..];
    assert FromLe(d) == (d[0] as int) + 256 * FromLe(d[1..]) && d[1..] == b[3..];
    assert FromLe(b[3..]) == (b[3] as int) + 256 * FromLe(b[3..][1..]) && b[3..][1..] == [];
  }

  lemma TwoBytes(b: seq<byte>)
    requires |b| == 2
    ensures FromLe(b) == (b[0] as int) + 0x100 * (b[1] as int)
  {
    assert FromLe(b[1..]) == (b[1] as int) + 256 * FromLe(b[1..][1..]) && b[1..][1..] == [];
  }

  lemma Pieces(s: seq<byte>, id: seq<byte>, length: seq<byte>, tuples: seq<byte>, rest: seq<byte>)
    requires s == id + (length + tuples) + rest && |id| == 4 && |length| == 2
    ensures |s| >= 6 + |tuples| && s[..4] == id && s[4..6] == length
    ensures s[6..6 + |tuples|] == tuples && s[6 + |tuples|..] == rest
  {
  }

  lemma StreamPieces(e: Entity, others: seq<Entity>)
    ensures var s, tuples := Stream([e] + others), Tuples(e.entries);
            && |s| >= 6 + |tuples| && s[..4] == Le(e.repID, 4) && s[4..6] == Le(|tuples|, 2)
            && s[6..6 + |tuples|] == tuples && s[6 + |tuples|..] == Stream(others)
  {
    assert ([e] + others)[1..] == others;
    Pieces(Stream([e] + others), Le(e.repID, 4), Le(|Tuples(e.entries)|, 2), Tuples(e.entries), Stream(others));
  }

  /**
   The stream byte by byte: first the four of the entity's replication id, least significant first, then the two of the
   length of its tuples, cut to 16 bits, then these, then the other entities.
   */
  lemma StreamLayout(e: Entity, others: seq<Entity>)
    ensures var s, tuples := Stream([e] + others), Tuples(e.entries);
            && |s| >= 6 + |tuples|
            && (s[0] as int) + 0x100 * (s[1] as int) + 0x1_0000 * (s[2] as int) + 0x100_0000 * (s[3] as int) == e.repID
            && (s[4] as int) + 0x100 * (s[5] as int) == |tuples| % 0x1_0000
            && s[6..6 + |tuples|] == tuples && s[6 + |tuples|..] == Stream(others)
  {
    var s := Stream([e] + others);
    StreamPieces(e, others);
    U32RoundTrip(e.repID);
    U16RoundTrip(|Tuples(e.entries)|);
    FourBytes(s[..4]);
    TwoBytes(s[4..6]);
  }

  /** A tuple: its kind, its field, and one, two, four or eight bytes of its value, by the kind. */
  lemma TupleLayout(e: Entry, others: seq<Entry>)
    requires e.kind <= 9
    ensures var t := Tuples([e] + others);
            var n := if e.kind in {0, 1, 6} then 1 else if e.kind in {2, 3} then 2
                     else if e.kind in {4, 5, 7} then 4 else 8;
            && |t| >= 2 + n && t[0] == e.kind && t[1] == e.field && FromLe(t[2..2 + n]) == Cut(e).value
            && t[2 + n..] == Tuples(others)
  {
    var t := Tuples([e] + others);
    assert ([e] + others)[1..] == others;
    assert t == Tuple(e) + Tuples(others);
    assert t[2..2 + Width(e.kind)] == Le(e.value, Width(e.kind));
    CutIsModulo(e);
    LeRoundTrip(e.value, Width(e.kind));
  }

  function CutAll(entries: seq<Entry>): (r: seq<Entry>)
    ensures |r| == |entries|
  {
    if entries == [] then [] else [Cut(entries[0])] + CutAll(entries[1..])
  }

  function CutEntities(entities: seq<Entity>): (r: seq<Entity>)
    ensures |r| == |entities|
  {
    if entities == [] then []
    else [entities[0].(entries := CutAll(entities[0].entries))] + CutEntities(entities[1..])
  }

  predicate Readable(entries: seq<Entry>) {
    forall i :: 0 <= i < |entries| ==> entries[i].kind <= 9
  }

  predicate AllReadable(entities: seq<Entity>) {
    forall i :: 0 <= i < |entities| ==> Readable(entities[i].entries)
  }

  lemma TupleAhead(e: Entry, b: seq<byte>, tail: seq<byte>)
    requires e.kind <= 9 && b == Tuple(e) + tail
    ensures HasTuple(b) && TupleLen(b) == |Tuple(e)| && ReadValue(b) == Cut(e) && b[TupleLen(b)..] == tail
  {
    assert b[2..TupleLen(b)] == Le(e.value, Width(e.kind));
  }

  lemma TuplesCons(entries: seq<Entry>, rest: seq<byte>)
    requires entries != []
    ensures Tuples(entries) + rest == Tuple(entries[0]) + (Tuples(entries[1..]) + rest)
  {
  }

  lemma ReadFirst(entries: seq<Entry>, rest: seq<byte>, limit: int)
    requires entries != [] && entries[0].kind <= 9 && limit > 0
    ensures ReadTuples(Tuples(entries) + rest, limit) ==
            Ahead(Cut(entries[0]), ReadTuples(Tuples(entries[1..]) + rest, limit - |Tuple(entries[0])|))
  {
    TuplesCons(entries, rest);
    TupleAhead(entries[0], Tuples(entries) + rest, Tuples(entries[1..]) + rest);
  }

  lemma {:induction false} ReadAll(entries: seq<Entry>, rest: seq<byte>)
    requires Readable(entries)
    ensures ReadTuples(Tuples(entries) + rest, |Tuples(entries)|) == Some((CutAll(entries), rest))
    decreases |entries|
  {
    if entries == [] {
      assert [] + rest == rest;
    } else {
      ReadAll(entries[1..], rest);
      ReadFirst(entries, rest, |Tuples(entries)|);
    }
  }

  /** With a limit a tuple's length or more below the real one, the reader stops before the last entry. */
  lemma {:induction false} ReadTooFew(entries: seq<Entry>, rest: seq<byte>, limit: int)
    requires Readable(entries) && -9 <= limit <= |Tuples(entries)| - 10
    ensures var got := ReadTuples(Tuples(entries) + rest, limit); got.Some? && |got.value.0| < |entries|
    decreases |entries|
  {
    assert entries != [];
    if limit > 0 {
      ReadTooFew(entries[1..], rest, limit - |Tuple(entries[0])|);
      ReadFirst(entries, rest, limit);
    }
  }

  lemma Head(e: Entity, rest: seq<byte>)
    ensures var b := Le(e.repID, 4) + Block(e.entries) + rest;
            && |b| >= 6 && ReadID(b[..4]) == e.repID && FromLe(b[4..6]) == |Tuples(e.entries)| % LENGTHS
            && b[6..] == Tuples(e.entries) + rest
  {
    HeadParts(Le(e.repID, 4), Le(|Tuples(e.entries)|, 2), Tuples(e.entries), rest);
    U32RoundTrip(e.repID);
    U16RoundTrip(|Tuples(e.entries)|);
  }

  lemma HeadParts(id: seq<byte>, length: seq<byte>, tuples: seq<byte>, rest: seq<byte>)
    requires |id| == 4 && |length| == 2
    ensures var b := id + (length + tuples) + rest;
            |b| >= 6 && b[..4] == id && b[4..6] == length && b[6..] == tuples + rest
  {
  }

  predicate Fits(entities: seq<Entity>) {
    forall i :: 0 <= i < |entities| ==> |Tuples(entities[i].entries)| < LENGTHS
  }

  function Before(e: Entity, got: Option<seq<Entity>>): Option<seq<Entity>> {
    if got.None? then None else Some([e] + got.value)
  }

  /** A block within the length limit is read as it is, and reading goes on right behind it. */
  lemma ReadGood(e: Entity, rest: seq<byte>)
    requires Readable(e.entries) && |Tuples(e.entries)| < LENGTHS
    ensures ReadStream(Le(e.repID, 4) + Block(e.entries) + rest) ==
            Before(e.(entries := CutAll(e.entries)), ReadStream(rest))
  {
    Head(e, rest);
    Small(|Tuples(e.entries)|);
    ReadAll(e.entries, rest);
  }

  /** A longer block loses entries. */
  lemma ReadBad(e: Entity, rest: seq<byte>)
    requires Readable(e.entries) && |Tuples(e.entries)| >= LENGTHS
    ensures var got := ReadStream(Le(e.repID, 4) + Block(e.entries) + rest);
            got.Some? ==> got.value != [] && |got.value[0].entries| < |e.entries|
  {
    Head(e, rest);
    Wraps(|Tuples(e.entries)|);
    ReadTooFew(e.entries, rest, |Tuples(e.entries)| % LENGTHS);
  }

  lemma BeforeSame(e: Entity, got: Option<seq<Entity>>, more: seq<Entity>)
    ensures Before(e, got) == Some([e] + more) <==> got == Some(more)
  {
    if got.Some? && Before(e, got) == Some([e] + more) {
      assert ([e] + got.value)[1..] == got.value && ([e] + more)[1..] == more;
    }
  }

  /**
   The documented reader gives back the same entities, each value cut to its width, exactly when no block's tuples
   are 65536 bytes or longer: the 16-bit length then says too little and the reader loses entries.
   */
  lemma {:induction false} ReaderInvertsWriter(entities: seq<Entity>)
    requires AllReadable(entities)
    ensures ReadStream(Stream(entities)) == Some(CutEntities(entities)) <==> Fits(entities)
    decreases |entities|
  {
    if entities == [] {
    } else {
      var e, rest := entities[0], Stream(entities[1..]);
      if |Tuples(e.entries)| < LENGTHS {
        ReaderInvertsWriter(entities[1..]);
        ReadGood(e, rest);
        FitsTail(entities);
        BeforeSame(e.(entries := CutAll(e.entries)), ReadStream(rest), CutEntities(entities[1..]));
      } else {
        ReadBad(e, rest);
        assert |CutEntities(entities)[0].entries| == |e.entries|;
      }
    }
  }

  lemma Small(n: nat)
    requires n < LENGTHS
    ensures n % LENGTHS == n
  {
  }

  lemma Wraps(n: nat)
    requires n >= LENGTHS
    ensures n % LENGTHS + 10 <= n
  {
  }

  lemma FitsTail(entities: seq<Entity>)
    requires entities != [] && |Tuples(entities[0].entries)| < LENGTHS
    ensures Fits(entities) <==> Fits(entities[1..])
  {
    if Fits(entities[1..]) {
      forall i | 0 <= i < |entities|
        ensures |Tuples(entities[i].entries)| < LENGTHS
      {
        assert i > 0 ==> entities[i] == entities[1..][i - 1];
      }
    }
  }

  // ----- The Go code -----

  lemma {:induction false} TuplesSnoc(entries: seq<Entry>, e: Entry)
    ensures Tuples(entries + [e]) == Tuples(entries) + Tuple(e)
  {
    if entries == [] {
      assert [e][1..] == [];
    } else {
      assert (entries + [e])[1..] == entries[1..] + [e];
      TuplesSnoc(entries[1..], e);
    }
  }

  lemma {:induction false} StreamSnoc(entities: seq<Entity>, e: Entity)
    ensures Stream(entities + [e]) == Stream(entities) + (Le(e.repID, 4) + Block(e.entries))
  {
    if entities == [] {
      assert [e][1..] == [];
    } else {
      assert (entities + [e])[1..] == entities[1..] + [e];
      StreamSnoc(entities[1..], e);
    }
  }

  lemma TuplesNext(entries: seq<Entry>, i: nat)
    requires i < |entries|
    ensures Tuples(entries[..i + 1]) == Tuples(entries[..i]) + Tuple(entries[i])
  {
    assert entries[..i + 1] == entries[..i] + [entries[i]];
    TuplesSnoc(entries[..i], entries[i]);
  }

  lemma StreamNext(entities: seq<Entity>, i: nat)
    requires i < |entities|
    ensures Stream(entities[..i + 1]) == Stream(entities[..i]) + (Le(entities[i].repID, 4) + Block(entities[i].entries))
  {
    assert entities[..i + 1] == entities[..i] + [entities[i]];
    StreamSnoc(entities[..i], entities[i]);
  }

  /** The append-only byte buffer. */
  class Buffer {
    var b: seq<byte>

    constructor ()
      ensures b == []
    {
      b := [];
    }

    /** U8, U16, U32 and U64, by their width: the low bytes of the value, least significant first. */
    method Put(v: nat, w: nat)
      modifies this
      ensures b == old(b) + Le(v, w)
    {
      var i, x := 0, v;
      while i < w
        invariant 0 <= i <= w && old(b) + Le(v, w) == b + Le(x, w - i)
      {
        assert b + Le(x, w - i) == b + [x % 256] + Le(x / 256, w - i - 1);
        b := b + [x % 256];
        x := x / 256;
        i := i + 1;
      }
      assert b + [] == b;
    }

    method Append(bytes: seq<byte>)
      modifies this
      ensures b == old(b) + bytes
    {
      b := b + bytes;
    }
  }

  lemma Assoc(a: seq<byte>, b: seq<byte>, c: seq<byte>)
    ensures a + b + c == a + (b + c)
  {
  }

  method PutTuple(w: Buffer, e: Entry)
    modifies w
    ensures w.b == old(w.b) + Tuple(e)
  {
    w.Append([e.kind, e.field]);
    w.Put(e.value, Width(e.kind));
    Assoc(old(w.b), [e.kind, e.field], Le(e.value, Width(e.kind)));
  }

  method ReplicationBlock(entries: seq<Entry>) returns (b: seq<byte>)
    ensures b == Block(entries)
  {
    var body := new Buffer();
    for i := 0 to |entries|
      invariant body.b == Tuples(entries[..i])
    {
      TuplesNext(entries, i);
      PutTuple(body, entries[i]);
    }
    assert entries[..|entries|] == entries;
    b := Prefixed(body.b);
  }

  method Prefixed(body: seq<byte>) returns (b: seq<byte>)
    ensures b == Le(|body|, 2) + body
  {
    var w := new Buffer();
    w.Put(|body|, 2);
    w.Append(body);
    b := w.b;
  }

  method PutEntity(w: Buffer, e: Entity)
    modifies w
    ensures w.b == old(w.b) + (Le(e.repID, 4) + Block(e.entries))
  {
    var block := ReplicationBlock(e.entries);
    Assoc(w.b, Le(e.repID, 4), block);
    w.Put(e.repID, 4);
    w.Append(block);
  }

  method SyncPRI(entities: seq<Entity>) returns (b: seq<byte>)
    ensures b == Stream(entities)
  {
    var w := new Buffer();
    for i := 0 to |entities|
      invariant w.b == Stream(entities[..i])
    {
      StreamNext(entities, i);
      PutEntity(w, entities[i]);
    }
    assert entities[..|entities|] == entities;
    b := w.b;
  }
}
