/**
 The reliable sender of match-server/writer.go: the sequence and order counters, the buffer of unacknowledged packets
 and the retransmissions. Times are milliseconds.
 */
module Sender {
  import opened Bytes
  import opened Packets
  import opened Results
  import opened Sums
  import Tea
  import TeaMessage
  import opened Walks

  const RTO := 250
  const MAX_RETRIES := 8
  const IDS := 0x1_0000

  /** How a packet is framed for this remote, with the salt it happens to get. */
  type Frame = (Packet, TeaMessage.Salt) -> Result<seq<byte>, Tea.TeaError>

  /** Bytes that went on the wire at the time at. The time counted from is the ticker's, which is never later. */
  datatype Copy = Copy(time: int, at: int, wire: seq<byte>)

  /** One queued send: bytes to go out as they are, if any, or a packet to be framed. */
  datatype Outgoing = Verbatim(raw: Option<seq<byte>>) | Logical(packet: Packet)

  /** Everything that went on the wire for one reliable (send option 2) packet. */
  datatype Sending = Sending(packet: Packet, salt: TeaMessage.Salt, copies: seq<Copy>)

  /** A buffered packet. sending says which of the sendings it belongs to. */
  datatype Pending = Pending(sending: nat, wire: seq<byte>, deadline: int, retries: nat)

  /** The sender, with the record of what it sent and of the packets it stamped with a sequence id. */
  datatype State = State(seqID: u16, orderID: u16, pending: map<u16, Pending>, sent: seq<Sending>,
                         stamped: seq<Packet>)

  datatype Event =
    | Emit(packet: Packet, salt: TeaMessage.Salt, now: int)
    | Ack(seqID: u16)
    | Tick(order: seq<u16>, now: int, late: nat)

  const FRESH := State(0, 0, map[], [], [])

  function Next(id: u16): u16 {
    (id + 1) % IDS
  }

  /** The packet with the ids it gets: reliable packets share one sequence, ordered data has its own numbers. */
  function Stamp(s: State, p: Packet): Packet {
    if !IsReliable(p.cmd, p.sendOption) then p
    else if p.sendOption == SEND_RELIABLE then p.(seqID := s.seqID, orderID := s.orderID)
    else p.(seqID := s.seqID)
  }

  function Count(s: State, p: Packet): State {
    if !IsReliable(p.cmd, p.sendOption) then s
    else s.(seqID := Next(s.seqID), stamped := s.stamped + [Stamp(s, p)],
            orderID := if p.sendOption == SEND_RELIABLE then Next(s.orderID) else s.orderID)
  }

  /** The counters move on even if the packet cannot be framed; ordered data is kept until it is acknowledged. */
  function EmitStep(frame: Frame, s: State, p: Packet, salt: TeaMessage.Salt, now: int): State {
    var q, t := Stamp(s, p), Count(s, p);
    match frame(q, salt)
    case Err(_) => t
    case Ok(wire) =>
      if p.sendOption != SEND_RELIABLE then t else
      t.(pending := t.pending[q.seqID := Pending(|t.sent|, wire, now + RTO, 0)],
         sent := t.sent + [Sending(q, salt, [Copy(now, now, wire)])])
  }

  function AckStep(s: State, seqID: u16): State {
    s.(pending := s.pending - {seqID})
  }

  function Resend(sent: seq<Sending>, i: nat, copy: Copy): seq<Sending> {
    if i < |sent| then sent[i := sent[i].(copies := sent[i].copies + [copy])] else sent
  }

  /** One turn of the retransmit loop. */
  function ResendOne(s: State, k: u16, now: int, late: nat): State {
    if k !in s.pending || now < s.pending[k].deadline then s else
    var p := s.pending[k];
    if p.retries >= MAX_RETRIES then s.(pending := s.pending - {k})
    else s.(pending := s.pending[k := p.(retries := p.retries + 1, deadline := now + RTO)],
            sent := Resend(s.sent, p.sending, Copy(now, now + late, p.wire)))
  }

  /** The retransmit loop, in one order of the map. */
  function ResendAll(s: State, order: seq<u16>, now: int, late: nat): State {
    if order == [] then s else ResendOne(ResendAll(s, order[..|order| - 1], now, late), order[|order| - 1], now, late)
  }

  function Step(frame: Frame, s: State, ev: Event): State {
    match ev
    case Emit(p, salt, now) => EmitStep(frame, s, p, salt, now)
    case Ack(seqID) => AckStep(s, seqID)
    case Tick(order, now, late) => ResendAll(s, order, now, late)
  }

  function RunFrom(frame: Frame, s: State, evs: seq<Event>): State {
    if evs == [] then s else Step(frame, RunFrom(frame, s, evs[..|evs| - 1]), evs[|evs| - 1])
  }

  // ----- What is true of everything sent -----

  /** Copies of one packet: the same bytes each time, at least one RTO apart, never more than the first and 8 more. */
  ghost predicate Spaced(copies: seq<Copy>) {
    && 1 <= |copies| <= 1 + MAX_RETRIES
    && (forall i :: 0 <= i < |copies| ==> copies[i].wire == copies[0].wire)
    && (forall i :: 0 <= i < |copies| ==> copies[i].time <= copies[i].at)
    && (forall i :: 0 <= i < |copies| - 1 ==> copies[i].time + RTO <= copies[i + 1].time)
  }

  ghost predicate Faithful(frame: Frame, x: Sending) {
    Spaced(x.copies) && frame(x.packet, x.salt) == Ok(x.copies[0].wire)
  }

  /** A buffered packet knows how often it was sent, what was sent, and when it may be sent again. */
  ghost predicate Tracks(p: Pending, x: Sending) {
    && |x.copies| == p.retries + 1 && x.copies[0].wire == p.wire
    && x.copies[|x.copies| - 1].time + RTO == p.deadline
  }

  ghost predicate Sound(frame: Frame, s: State) {
    && (forall i :: 0 <= i < |s.sent| ==> Faithful(frame, s.sent[i]))
    && (forall k :: k in s.pending ==>
          && s.pending[k].sending < |s.sent|
          && Tracks(s.pending[k], s.sent[s.pending[k].sending]) && s.sent[s.pending[k].sending].packet.seqID == k)
    && (forall k, l :: k in s.pending && l in s.pending && k != l ==> s.pending[k].sending != s.pending[l].sending)
  }

  lemma EmitKeeps(frame: Frame, s: State, p: Packet, salt: TeaMessage.Salt, now: int)
    requires Sound(frame, s)
    ensures Sound(frame, EmitStep(frame, s, p, salt, now))
  {
  }

  lemma ResendOneKeeps(frame: Frame, s: State, k: u16, now: int, late: nat)
    requires Sound(frame, s)
    ensures Sound(frame, ResendOne(s, k, now, late))
  {
    if k in s.pending && now >= s.pending[k].deadline && s.pending[k].retries < MAX_RETRIES {
      var p := s.pending[k];
      CopyKeeps(frame, s.sent[p.sending], p, now, late);
    }
  }

  lemma CopyKeeps(frame: Frame, x: Sending, p: Pending, now: int, late: nat)
    requires Faithful(frame, x) && Tracks(p, x) && now >= p.deadline && p.retries < MAX_RETRIES
    ensures var y := x.(copies := x.copies + [Copy(now, now + late, p.wire)]);
            Faithful(frame, y) && Tracks(p.(retries := p.retries + 1, deadline := now + RTO), y)
  {
  }

  lemma {:induction false} ResendAllKeeps(frame: Frame, s: State, order: seq<u16>, now: int, late: nat)
    requires Sound(frame, s)
    ensures Sound(frame, ResendAll(s, order, now, late))
    decreases |order|
  {
    if order != [] {
      ResendAllKeeps(frame, s, order[..|order| - 1], now, late);
      ResendOneKeeps(frame, ResendAll(s, order[..|order| - 1], now, late), order[|order| - 1], now, late);
    }
  }

  lemma StepKeeps(frame: Frame, s: State, ev: Event)
    requires Sound(frame, s)
    ensures Sound(frame, Step(frame, s, ev))
  {
    match ev
    case Emit(p, salt, now) => EmitKeeps(frame, s, p, salt, now);
    case Ack(_) =>
    case Tick(order, now, late) => ResendAllKeeps(frame, s, order, now, late);
  }

  /**
   In every run of sends, acknowledgements and ticks, each reliable packet goes on the wire one to nine times, always
   as the same bytes, at least one RTO apart.
   */
  lemma {:induction false} RunSound(frame: Frame, evs: seq<Event>)
    ensures Sound(frame, RunFrom(frame, FRESH, evs))
    decreases |evs|
  {
    if evs != [] {
      RunSound(frame, evs[..|evs| - 1]);
      StepKeeps(frame, RunFrom(frame, FRESH, evs[..|evs| - 1]), evs[|evs| - 1]);
    }
  }

  // ----- Acknowledgements -----

  ghost predicate Held(s: State, i: nat) {
    exists k :: k in s.pending && s.pending[k].sending == i
  }

  lemma FrozenOne(s: State, k: u16, now: int, late: nat, i: nat)
    requires i < |s.sent| && !Held(s, i)
    ensures var t := ResendOne(s, k, now, late); i < |t.sent| && t.sent[i] == s.sent[i] && !Held(t, i)
  {
    var t := ResendOne(s, k, now, late);
    forall l | l in t.pending
      ensures t.pending[l].sending != i
    {
      assert t.pending[l].sending == s.pending[l].sending;
    }
  }

  lemma {:induction false} FrozenAll(s: State, order: seq<u16>, now: int, late: nat, i: nat)
    requires i < |s.sent| && !Held(s, i)
    ensures var t := ResendAll(s, order, now, late); i < |t.sent| && t.sent[i] == s.sent[i] && !Held(t, i)
    decreases |order|
  {
    if order != [] {
      FrozenAll(s, order[..|order| - 1], now, late, i);
      FrozenOne(ResendAll(s, order[..|order| - 1], now, late), order[|order| - 1], now, late, i);
    }
  }

  lemma FrozenStep(frame: Frame, s: State, ev: Event, i: nat)
    requires i < |s.sent| && !Held(s, i)
    ensures var t := Step(frame, s, ev); i < |t.sent| && t.sent[i] == s.sent[i] && !Held(t, i)
  {
    var t := Step(frame, s, ev);
    match ev
    case Tick(order, now, late) => FrozenAll(s, order, now, late, i);
    case Ack(_) =>
      forall l | l in t.pending
        ensures t.pending[l].sending != i
      {
        assert t.pending[l].sending == s.pending[l].sending;
      }
    case Emit(_, _, _) =>
      forall l | l in t.pending
        ensures t.pending[l].sending != i
      {
        assert t.pending[l].sending == |s.sent| || (l in s.pending && t.pending[l].sending == s.pending[l].sending);
      }
  }

  /** What is no longer buffered is never sent again. */
  lemma {:induction false} FrozenForever(frame: Frame, s: State, evs: seq<Event>, i: nat)
    requires i < |s.sent| && !Held(s, i)
    ensures var t := RunFrom(frame, s, evs); i < |t.sent| && t.sent[i] == s.sent[i] && !Held(t, i)
    decreases |evs|
  {
    if evs != [] {
      FrozenForever(frame, s, evs[..|evs| - 1], i);
      FrozenStep(frame, RunFrom(frame, s, evs[..|evs| - 1]), evs[|evs| - 1], i);
    }
  }

  /** Once the acknowledgement of its sequence id is processed, a packet is never put on the wire again. */
  lemma NoneAfterAck(frame: Frame, past: seq<Event>, k: u16, evs: seq<Event>)
    requires k in RunFrom(frame, FRESH, past).pending
    ensures var s := RunFrom(frame, FRESH, past);
            var i := s.pending[k].sending;
            var t := RunFrom(frame, AckStep(s, k), evs);
            i < |s.sent| && s.sent[i].packet.seqID == k && i < |t.sent| && t.sent[i] == s.sent[i]
  {
    var s := RunFrom(frame, FRESH, past);
    RunSound(frame, past);
    var i := s.pending[k].sending;
    var u := AckStep(s, k);
    forall l | l in u.pending
      ensures u.pending[l].sending != i
    {
      assert l in s.pending && l != k;
    }
    FrozenForever(frame, u, evs, i);
  }

  // ----- Numbering -----

  /** How many of the packets carry an order id. */
  function Ordered(stamped: seq<Packet>): nat {
    if stamped == [] then 0
    else Ordered(stamped[..|stamped| - 1]) + if stamped[|stamped| - 1].sendOption == SEND_RELIABLE then 1 else 0
  }

  ghost predicate NumberedAt(stamped: seq<Packet>, i: nat)
    requires i < |stamped|
  {
    && stamped[i].seqID == i % IDS
    && (stamped[i].sendOption == SEND_RELIABLE ==> stamped[i].orderID == Ordered(stamped[..i]) % IDS)
  }

  ghost predicate Numbered(s: State) {
    && s.seqID == |s.stamped| % IDS && s.orderID == Ordered(s.stamped) % IDS
    && forall i :: 0 <= i < |s.stamped| ==> NumberedAt(s.stamped, i)
  }

  lemma NextIsMod(n: nat)
    ensures Next(n % IDS) == (n + 1) % IDS
  {
    var r := n % IDS;
    assert n + 1 == IDS * (n / IDS) + (r + 1);
    if r + 1 < IDS {
      DivModUnique(n + 1, IDS, n / IDS, r + 1);
    } else {
      DivModUnique(n + 1, IDS, n / IDS + 1, 0);
    }
  }

  lemma CountKeeps(s: State, p: Packet)
    requires Numbered(s)
    ensures Numbered(Count(s, p))
  {
    if IsReliable(p.cmd, p.sendOption) {
      var more := s.stamped + [Stamp(s, p)];
      NextIsMod(|s.stamped|);
      NextIsMod(Ordered(s.stamped));
      assert more[..|s.stamped|] == s.stamped;
      forall i | 0 <= i < |more|
        ensures NumberedAt(more, i)
      {
        if i < |s.stamped| {
          assert NumberedAt(s.stamped, i) && more[..i] == s.stamped[..i];
        }
      }
    }
  }

  lemma {:induction false} TicksStampNothing(s: State, order: seq<u16>, now: int, late: nat)
    ensures var t := ResendAll(s, order, now, late);
            t.stamped == s.stamped && t.seqID == s.seqID && t.orderID == s.orderID
    decreases |order|
  {
    if order != [] {
      TicksStampNothing(s, order[..|order| - 1], now, late);
    }
  }

  /**
   In every run the reliable packets (hello and ordered data) have consecutive sequence ids, and the ordered ones
   among them consecutive order ids, both modulo 2^16.
   */
  lemma {:induction false} RunNumbered(frame: Frame, evs: seq<Event>)
    ensures Numbered(RunFrom(frame, FRESH, evs))
    decreases |evs|
  {
    if evs != [] {
      var s, ev := RunFrom(frame, FRESH, evs[..|evs| - 1]), evs[|evs| - 1];
      RunNumbered(frame, evs[..|evs| - 1]);
      match ev
      case Emit(p, _, _) => CountKeeps(s, p);
      case Ack(_) =>
      case Tick(order, now, late) => TicksStampNothing(s, order, now, late);
    }
  }

  // ----- On the wire -----

  /** Two copies are an RTO apart on the wire, less what the ticker's delivery of the earlier one was late. */
  lemma WireSpacing(frame: Frame, evs: seq<Event>, i: nat, j: nat)
    requires var s := RunFrom(frame, FRESH, evs); i < |s.sent| && j + 1 < |s.sent[i].copies|
    ensures var copies := RunFrom(frame, FRESH, evs).sent[i].copies;
            copies[j + 1].at - copies[j].at >= RTO - (copies[j].at - copies[j].time)
  {
    RunSound(frame, evs);
    var x := RunFrom(frame, FRESH, evs).sent[i];
    assert Faithful(frame, x);
    assert x.copies[j].time + RTO <= x.copies[j + 1].time && x.copies[j + 1].time <= x.copies[j + 1].at;
  }

  /** The packets of the sendings that are reliable at all: a send option 2 acknowledgement is sent without ids. */
  function Stampable(sent: seq<Sending>): seq<Packet> {
    if sent == [] then [] else
    var p := sent[|sent| - 1].packet;
    Stampable(sent[..|sent| - 1]) + if IsReliable(p.cmd, p.sendOption) then [p] else []
  }

  /** The packets that carry an order id. */
  function InOrder(stamped: seq<Packet>): seq<Packet> {
    if stamped == [] then [] else
    var p := stamped[|stamped| - 1];
    InOrder(stamped[..|stamped| - 1]) + if p.sendOption == SEND_RELIABLE then [p] else []
  }

  lemma StampableMore(sent: seq<Sending>, x: Sending)
    ensures Stampable(sent + [x]) ==
            Stampable(sent) + if IsReliable(x.packet.cmd, x.packet.sendOption) then [x.packet] else []
  {
    assert (sent + [x])[..|sent|] == sent;
  }

  lemma InOrderMore(stamped: seq<Packet>, p: Packet)
    ensures InOrder(stamped + [p]) == InOrder(stamped) + if p.sendOption == SEND_RELIABLE then [p] else []
  {
    assert (stamped + [p])[..|stamped|] == stamped;
  }

  /** The packets alone decide it. */
  lemma {:induction false} StampableIs(x: seq<Sending>, y: seq<Sending>)
    requires |x| == |y| && forall i :: 0 <= i < |x| ==> x[i].packet == y[i].packet
    ensures Stampable(x) == Stampable(y)
    decreases |x|
  {
    if x != [] {
      StampableIs(x[..|x| - 1], y[..|y| - 1]);
    }
  }

  lemma {:induction false} TicksSendNothingNew(s: State, order: seq<u16>, now: int, late: nat)
    ensures Stampable(ResendAll(s, order, now, late).sent) == Stampable(s.sent)
    decreases |order|
  {
    if order != [] {
      var t := ResendAll(s, order[..|order| - 1], now, late);
      TicksSendNothingNew(s, order[..|order| - 1], now, late);
      StampableIs(ResendOne(t, order[|order| - 1], now, late).sent, t.sent);
    }
  }

  ghost predicate Frames(frame: Frame) {
    forall p: Packet, salt: TeaMessage.Salt :: frame(p, salt).Ok?
  }

  /** The ordered packets that were stamped are just those that went out, in the same order. */
  ghost predicate Delivered(s: State) {
    Stampable(s.sent) == InOrder(s.stamped)
  }

  lemma EmitDelivers(frame: Frame, s: State, p: Packet, salt: TeaMessage.Salt, now: int)
    requires Frames(frame) && Delivered(s)
    ensures Delivered(EmitStep(frame, s, p, salt, now))
  {
    var q := Stamp(s, p);
    assert frame(q, salt).Ok?;
    InOrderMore(s.stamped, q);
    StampableMore(s.sent, Sending(q, salt, [Copy(now, now, frame(q, salt).value)]));
  }

  /** As long as every packet can be framed, no ordered packet gets ids without going on the wire, and none twice. */
  lemma {:induction false} RunDelivers(frame: Frame, evs: seq<Event>)
    requires Frames(frame)
    ensures Delivered(RunFrom(frame, FRESH, evs))
    decreases |evs|
  {
    if evs != [] {
      var s, ev := RunFrom(frame, FRESH, evs[..|evs| - 1]), evs[|evs| - 1];
      RunDelivers(frame, evs[..|evs| - 1]);
      match ev
      case Emit(p, salt, now) => EmitDelivers(frame, s, p, salt, now);
      case Ack(_) =>
      case Tick(order, now, late) =>
        TicksSendNothingNew(s, order, now, late);
        TicksStampNothing(s, order, now, late);
    }
  }

  // ----- Draining -----

  /** The sendings that a buffered packet still has to come, counting its first, and the turn in which it is dropped. */
  function Remaining(p: Pending): nat {
    if p.retries <= MAX_RETRIES then MAX_RETRIES + 1 - p.retries else 0
  }

  function Remainings(pending: map<u16, Pending>): map<nat, nat> {
    map k: u16 | k in pending :: k as nat := Remaining(pending[k])
  }

  /** What is left to do for the whole buffer. */
  ghost function Left(s: State): nat {
    Sum(Remainings(s.pending))
  }

  predicate Overdue(s: State, k: u16, now: int) {
    k in s.pending && now >= s.pending[k].deadline
  }

  lemma RemainingsPut(pending: map<u16, Pending>, k: u16, p: Pending)
    ensures Remainings(pending[k := p]) == Remainings(pending)[k as nat := Remaining(p)]
  {
  }

  lemma RemainingsWithout(pending: map<u16, Pending>, k: u16)
    ensures Remainings(pending - {k}) == Remainings(pending) - {k as nat}
    ensures if k in pending
            then k as nat in Remainings(pending) && Remainings(pending)[k as nat] == Remaining(pending[k])
            else k as nat !in Remainings(pending)
  {
  }

  /** Taking a packet out takes its share off; an acknowledgement does that. */
  lemma LeftWithout(s: State, k: u16)
    ensures Left(AckStep(s, k)) + (if k in s.pending then Remaining(s.pending[k]) else 0) == Left(s)
  {
    RemainingsWithout(s.pending, k);
    SumWithout(Remainings(s.pending), k as nat);
  }

  lemma LeftPut(s: State, k: u16, p: Pending)
    requires k in s.pending
    ensures Left(s.(pending := s.pending[k := p])) + Remaining(s.pending[k]) == Left(s) + Remaining(p)
  {
    RemainingsPut(s.pending, k, p);
    RemainingsWithout(s.pending, k);
    SumPut(Remainings(s.pending), k as nat, Remaining(p));
    SumWithout(Remainings(s.pending), k as nat);
  }

  lemma ResendLowers(s: State, k: u16, now: int, late: nat)
    requires k in s.pending ==> s.pending[k].retries <= MAX_RETRIES
    ensures Left(ResendOne(s, k, now, late)) + (if Overdue(s, k, now) then 1 else 0) == Left(s)
  {
    if Overdue(s, k, now) {
      var p := s.pending[k];
      LeftWithout(s, k);
      LeftPut(s, k, p.(retries := p.retries + 1, deadline := now + RTO));
    }
  }

  function CountOverdue(s: State, order: seq<u16>, now: int): nat {
    if order == [] then 0
    else CountOverdue(s, order[..|order| - 1], now) + if Overdue(s, order[|order| - 1], now) then 1 else 0
  }

  lemma {:induction false} CountedOverdue(s: State, order: seq<u16>, now: int)
    ensures CountOverdue(s, order, now) > 0 <==> exists k :: k in order && Overdue(s, k, now)
    decreases |order|
  {
    if order != [] {
      CountedOverdue(s, order[..|order| - 1], now);
      assert order == order[..|order| - 1] + [order[|order| - 1]];
    }
  }

  lemma {:induction false} TickOn(s: State, order: seq<u16>, now: int, late: nat, k: u16)
    requires forall i, j :: 0 <= i < j < |order| ==> order[i] != order[j]
    ensures var t := ResendAll(s, order, now, late);
            if k in order then k in t.pending ==> k in s.pending && t.pending[k] == Resent(s.pending[k], now)
            else (k in t.pending <==> k in s.pending) && (k in s.pending ==> t.pending[k] == s.pending[k])
    decreases |order|
  {
    if order != [] {
      TickOn(s, order[..|order| - 1], now, late, k);
      assert order == order[..|order| - 1] + [order[|order| - 1]];
    }
  }

  function Resent(p: Pending, now: int): Pending {
    if now < p.deadline then p else p.(retries := p.retries + 1, deadline := now + RTO)
  }

  ghost predicate Bounded(s: State) {
    forall k :: k in s.pending ==> s.pending[k].retries <= MAX_RETRIES
  }

  lemma {:induction false} WalkLowers(s: State, order: seq<u16>, now: int, late: nat)
    requires Bounded(s) && forall i, j :: 0 <= i < j < |order| ==> order[i] != order[j]
    ensures Left(ResendAll(s, order, now, late)) + CountOverdue(s, order, now) == Left(s)
    decreases |order|
  {
    if order != [] {
      var before, k := order[..|order| - 1], order[|order| - 1];
      WalkLowers(s, before, now, late);
      TickOn(s, before, now, late, k);
      ResendLowers(ResendAll(s, before, now, late), k, now, late);
    }
  }

  /** A tick lowers what is left by one for each packet that is due, so strictly exactly if one is. */
  lemma TickLowers(frame: Frame, s: State, order: seq<u16>, now: int, late: nat)
    requires Sound(frame, s) && Visits(s.pending.Keys, order)
    ensures var t := ResendAll(s, order, now, late);
            Left(t) <= Left(s) && (Left(t) < Left(s) <==> exists k :: Overdue(s, k, now))
  {
    RetriesBounded(frame, s);
    WalkLowers(s, order, now, late);
    CountedOverdue(s, order, now);
    assert forall k :: Overdue(s, k, now) ==> k in order;
  }

  /**
   The deadlines after a tick at the time last: each is still to come, and lies at most an RTO and a tick's distance g
   for every resend after ready.
   */
  ghost predicate Near(s: State, last: int, ready: int, g: nat) {
    forall k :: k in s.pending ==>
      && (last < s.pending[k].deadline || last <= ready)
      && s.pending[k].deadline <= ready + s.pending[k].retries * (RTO + g)
  }

  lemma ResentNear(p: Pending, last: int, ready: int, g: nat, now: int)
    requires last < p.deadline || last <= ready
    requires p.deadline <= ready + p.retries * (RTO + g) && now <= last + g
    ensures var q := Resent(p, now); now < q.deadline <= ready + q.retries * (RTO + g)
  {
    assert (p.retries + 1) * (RTO + g) == p.retries * (RTO + g) + (RTO + g);
    assert p.retries * (RTO + g) >= 0;
  }

  lemma TickNear(s: State, order: seq<u16>, now: int, late: nat, last: int, ready: int, g: nat)
    requires Near(s, last, ready, g) && now <= last + g && Visits(s.pending.Keys, order)
    ensures Near(ResendAll(s, order, now, late), now, ready, g)
    ensures forall k :: k in ResendAll(s, order, now, late).pending ==>
              now < ResendAll(s, order, now, late).pending[k].deadline
  {
    var t := ResendAll(s, order, now, late);
    forall k | k in t.pending
      ensures now < t.pending[k].deadline <= ready + t.pending[k].retries * (RTO + g)
    {
      TickOn(s, order, now, late, k);
      ResentNear(s.pending[k], last, ready, g, now);
    }
  }

  /** The time of the last tick, or start if there was none. */
  function Latest(evs: seq<Event>, start: int): int {
    if evs == [] then start
    else if evs[|evs| - 1].Tick? then evs[|evs| - 1].now else Latest(evs[..|evs| - 1], start)
  }

  /** No new sends, and ticks at most g apart that each look at the whole buffer. */
  ghost predicate Quiet(frame: Frame, s: State, evs: seq<Event>, start: int, g: nat) {
    evs == [] ||
    var before, ev := evs[..|evs| - 1], evs[|evs| - 1];
    && Quiet(frame, s, before, start, g) && !ev.Emit?
    && (ev.Tick? ==> Visits(RunFrom(frame, s, before).pending.Keys, ev.order) && ev.now <= Latest(before, start) + g)
  }

  /** Whether anything in the buffer may lie in the past: only before the first tick. */
  ghost predicate Ahead(s: State, last: int, start: int) {
    last != start ==> forall k :: k in s.pending ==> last < s.pending[k].deadline
  }

  lemma {:induction false} QuietNear(frame: Frame, s: State, evs: seq<Event>, start: int, ready: int, g: nat)
    requires Quiet(frame, s, evs, start, g) && Near(s, start, ready, g)
    ensures Near(RunFrom(frame, s, evs), Latest(evs, start), ready, g)
    ensures Ahead(RunFrom(frame, s, evs), Latest(evs, start), start)
    decreases |evs|
  {
    if evs != [] {
      var before, ev := evs[..|evs| - 1], evs[|evs| - 1];
      QuietNear(frame, s, before, start, ready, g);
      if ev.Tick? {
        TickNear(RunFrom(frame, s, before), ev.order, ev.now, ev.late, Latest(before, start), ready, g);
      }
    }
  }

  lemma {:induction false} StepsKeep(frame: Frame, s: State, evs: seq<Event>)
    requires Sound(frame, s)
    ensures Sound(frame, RunFrom(frame, s, evs))
    decreases |evs|
  {
    if evs != [] {
      StepsKeep(frame, s, evs[..|evs| - 1]);
      StepKeeps(frame, RunFrom(frame, s, evs[..|evs| - 1]), evs[|evs| - 1]);
    }
  }

  lemma RetriesBounded(frame: Frame, s: State)
    requires Sound(frame, s)
    ensures Bounded(s)
  {
    forall k | k in s.pending
      ensures s.pending[k].retries <= MAX_RETRIES
    {
      assert Faithful(frame, s.sent[s.pending[k].sending]);
    }
  }

  /**
   With no new sends and ticks at most g apart, whatever g is, the buffer is empty once a tick comes eight times
   an RTO and g after the last deadline, acknowledged or not.
   */
  lemma Drains(frame: Frame, s: State, evs: seq<Event>, start: int, ready: int, g: nat)
    requires Sound(frame, s) && start <= ready && DueBy(s, ready)
    requires Quiet(frame, s, evs, start, g) && Latest(evs, start) >= ready + MAX_RETRIES * (RTO + g)
    ensures RunFrom(frame, s, evs).pending == map[]
  {
    StartsNear(s, start, ready, g);
    QuietNear(frame, s, evs, start, ready, g);
    StepsKeep(frame, s, evs);
    RetriesBounded(frame, RunFrom(frame, s, evs));
    NoneLeft(RunFrom(frame, s, evs), Latest(evs, start), start, ready, g);
  }

  lemma StartsNear(s: State, start: int, ready: int, g: nat)
    requires start <= ready && DueBy(s, ready)
    ensures Near(s, start, ready, g)
  {
    forall k | k in s.pending
      ensures s.pending[k].deadline <= ready + s.pending[k].retries * (RTO + g)
    {
      MulMonotone(RTO + g, 0, s.pending[k].retries);
    }
  }

  lemma NoneLeft(s: State, last: int, start: int, ready: int, g: nat)
    requires Near(s, last, ready, g) && Ahead(s, last, start) && Bounded(s)
    requires start <= ready && last >= ready + MAX_RETRIES * (RTO + g)
    ensures s.pending == map[]
  {
    if k :| k in s.pending {
      MulMonotone(RTO + g, s.pending[k].retries, MAX_RETRIES);
      assert false;
    }
  }

  ghost predicate DueBy(s: State, limit: int) {
    forall k :: k in s.pending ==> s.pending[k].deadline <= limit
  }

  ghost predicate Clocked(evs: seq<Event>, now: int) {
    forall i :: 0 <= i < |evs| && !evs[i].Ack? ==> evs[i].now <= now
  }

  lemma {:induction false} TickDeadlines(s: State, order: seq<u16>, now: int, late: nat, t: int)
    requires now <= t && DueBy(s, t + RTO)
    ensures DueBy(ResendAll(s, order, now, late), t + RTO)
    decreases |order|
  {
    if order != [] {
      TickDeadlines(s, order[..|order| - 1], now, late, t);
    }
  }

  lemma {:induction false} DeadlinesSoon(frame: Frame, evs: seq<Event>, t: int)
    requires Clocked(evs, t)
    ensures DueBy(RunFrom(frame, FRESH, evs), t + RTO)
    decreases |evs|
  {
    if evs != [] {
      var s, ev := RunFrom(frame, FRESH, evs[..|evs| - 1]), evs[|evs| - 1];
      DeadlinesSoon(frame, evs[..|evs| - 1], t);
      if ev.Tick? {
        TickDeadlines(s, ev.order, ev.now, ev.late, t);
      }
    }
  }

  /** After any run up to the time t, a sender that is given nothing more to send has an empty buffer before long. */
  lemma DrainsAfterAnyRun(frame: Frame, past: seq<Event>, t: int, evs: seq<Event>, g: nat)
    requires Clocked(past, t) && Quiet(frame, RunFrom(frame, FRESH, past), evs, t, g)
    requires Latest(evs, t) >= t + RTO + MAX_RETRIES * (RTO + g)
    ensures RunFrom(frame, RunFrom(frame, FRESH, past), evs).pending == map[]
  {
    RunSound(frame, past);
    DeadlinesSoon(frame, past, t);
    Drains(frame, RunFrom(frame, FRESH, past), evs, t, t + RTO, g);
  }

  // ----- What the client reads -----

  /** Every copy of a packet that fits a datagram decodes to that packet. */
  lemma EveryCopyDecodes(key: seq<byte>, evs: seq<Event>, i: nat, j: nat)
    requires var s := RunFrom((p, salt) => Encode(p, key, salt), FRESH, evs);
             i < |s.sent| && j < |s.sent[i].copies|
    ensures var x := RunFrom((p, salt) => Encode(p, key, salt), FRESH, evs).sent[i];
            && Wire(x.packet, key, x.salt).Ok?
            && (!x.packet.Gzipped() && |Wire(x.packet, key, x.salt).value| < 0x1_0000 ==>
                  Decode(x.copies[j].wire, key) == Ok(x.packet.Sent()))
  {
    var frame: Frame := (p, salt) => Encode(p, key, salt);
    RunSound(frame, evs);
    var x := RunFrom(frame, FRESH, evs).sent[i];
    assert Faithful(frame, x);
    DecodeEncode(x.packet, key, x.salt);
  }

  // ----- The Go code -----

  lemma ResendAllMore(s: State, order: seq<u16>, k: u16, now: int, late: nat)
    ensures ResendAll(s, order + [k], now, late) == ResendOne(ResendAll(s, order, now, late), k, now, late)
  {
    assert (order + [k])[..|order|] == order;
  }

  lemma {:induction false} StillPending(s: State, order: seq<u16>, k: u16, now: int, late: nat)
    requires k in s.pending && k !in order
    ensures k in ResendAll(s, order, now, late).pending
    decreases |order|
  {
    if order != [] {
      StillPending(s, order[..|order| - 1], k, now, late);
    }
  }

  /**
   The counters and the buffer that the run loop owns. sent stands for the socket: it records what was written to it,
   and tells apart buffered packets that share a sequence id over time.
   */
  class Writer {
    const frame: Frame

    var seqID: u16
    var orderID: u16
    var pending: map<u16, Pending>
    var sent: seq<Sending>
    ghost var stamped: seq<Packet>
    ghost var past: seq<Event>

    ghost function Now(): State
      reads this`seqID, this`orderID, this`pending, this`sent, this`stamped
    {
      State(seqID, orderID, pending, sent, stamped)
    }

    constructor (frame: Frame)
      ensures this.frame == frame && Now() == FRESH && past == []
    {
      this.frame := frame;
      seqID, orderID, pending := 0, 0, map[];
      sent, stamped, past := [], [], [];
    }

    method Emit(p: Packet, salt: TeaMessage.Salt, now: int) returns (wire: Option<seq<byte>>)
      modifies this`seqID, this`orderID, this`pending, this`sent, this`stamped
      ensures Now() == EmitStep(frame, old(Now()), p, salt, now)
      ensures var framed := frame(Stamp(old(Now()), p), salt);
              wire == if framed.Ok? then Some(framed.value) else None
    {
      var q := p;
      if IsReliable(p.cmd, p.sendOption) {
        q := q.(seqID := seqID);
        seqID := (seqID + 1) % IDS;
        if p.sendOption == SEND_RELIABLE {
          q := q.(orderID := orderID);
          orderID := (orderID + 1) % IDS;
        }
        stamped := stamped + [q];
      }
      var framed := frame(q, salt);
      if framed.Err? {
        return None;
      }
      wire := Some(framed.value);
      if q.sendOption == SEND_RELIABLE {
        pending := pending[q.seqID := Pending(|sent|, framed.value, now + RTO, 0)];
        sent := sent + [Sending(q, salt, [Copy(now, now, framed.value)])];
      }
    }

    /** emit for whatever is queued: what is encoded already leaves counters and buffer alone. */
    method EmitQueued(it: Outgoing, salt: TeaMessage.Salt, now: int) returns (wire: Option<seq<byte>>)
      modifies this`seqID, this`orderID, this`pending, this`sent, this`stamped
      ensures match it
              case Verbatim(raw) => Now() == old(Now()) && wire == raw
              case Logical(p) =>
                && Now() == EmitStep(frame, old(Now()), p, salt, now)
                && var framed := frame(Stamp(old(Now()), p), salt);
                   wire == if framed.Ok? then Some(framed.value) else None
    {
      match it
      case Verbatim(raw) => wire := raw;
      case Logical(p) => wire := Emit(p, salt, now);
    }

    method OnAck(ackedID: u16)
      modifies this`pending
      ensures Now() == AckStep(old(Now()), ackedID)
    {
      pending := pending - {ackedID};
    }

    /** One turn of the retransmit loop. */
    method ResendTurn(k: u16, now: int, late: nat)
      requires k in pending
      modifies this`pending, this`sent
      ensures Now() == ResendOne(old(Now()), k, now, late)
    {
      var p := pending[k];
      if now < p.deadline {
        return;
      }
      if p.retries >= MAX_RETRIES {
        pending := pending - {k};
        return;
      }
      sent := Resend(sent, p.sending, Copy(now, now + late, p.wire));
      pending := pending[k := p.(retries := p.retries + 1, deadline := now + RTO)];
    }

    /** retransmit, reporting the order in which the map was walked. */
    method Retransmit(now: int, late: nat) returns (ghost order: seq<u16>)
      modifies this`pending, this`sent
      ensures Now() == ResendAll(old(Now()), order, now, late) && Visits(old(pending).Keys, order)
    {
      ghost var s := Now();
      var left := pending.Keys;
      order := [];
      while left != {}
        invariant Walk(s.pending.Keys, order, left) && Now() == ResendAll(s, order, now, late)
        decreases left
      {
        var k :| k in left;
        WalkOn(s.pending.Keys, order, left, k);
        StillPending(s, order, k, now, late);
        ResendAllMore(s, order, k, now, late);
        ResendTurn(k, now, late);
        order, left := order + [k], left - {k};
      }
    }

    /** One turn of the run loop. The state stays that of all events so far, to which the results about runs apply. */
    method RunTurn(ev: Event) returns (ghost taken: Event)
      requires Now() == RunFrom(frame, FRESH, past)
      modifies this
      ensures Now() == RunFrom(frame, FRESH, past) && past == old(past) + [taken]
      ensures if ev.Tick?
              then taken.Tick? && taken.now == ev.now && taken.late == ev.late && Visits(old(pending).Keys, taken.order)
              else taken == ev
    {
      ghost var before := past;
      taken := ev;
      match ev {
        case Emit(p, salt, now) =>
          var _ := Emit(p, salt, now);
        case Ack(ackedID) => OnAck(ackedID);
        case Tick(_, now, late) =>
          ghost var order := Retransmit(now, late);
          taken := Tick(order, now, late);
      }
      assert (before + [taken])[..|before|] == before;
      past := before + [taken];
    }
  }
}
