/**
 What becomes of a reliable packet that the sender of match-server/writer.go was given: it is sent again and again until
 it is acknowledged or has gone out nine times. Times are milliseconds.
 */
module Delivery {
  import opened Bytes
  import opened Packets
  import opened Sender
  import Tea
  import TeaMessage
  import opened Walks

  // ----- No packet is forgotten -----

  /** An acknowledgement of the i-th sending came after it was made. */
  ghost predicate Acknowledged(frame: Frame, evs: seq<Event>, i: nat)
    requires i < |RunFrom(frame, FRESH, evs).sent|
  {
    exists n :: 0 <= n < |evs| && AcknowledgedAt(frame, evs, i, n)
  }

  ghost predicate AcknowledgedAt(frame: Frame, evs: seq<Event>, i: nat, n: nat)
    requires i < |RunFrom(frame, FRESH, evs).sent| && n < |evs|
  {
    && i < |RunFrom(frame, FRESH, evs[..n]).sent|
    && evs[n] == Ack(RunFrom(frame, FRESH, evs).sent[i].packet.seqID)
  }

  /** A later sending has taken its id. */
  ghost predicate Superseded(sent: seq<Sending>, i: nat)
    requires i < |sent|
  {
    exists j :: i < j < |sent| && sent[j].packet.seqID == sent[i].packet.seqID
  }

  ghost predicate Through(s: State, i: nat) {
    i < |s.sent| && (Held(s, i) || |s.sent[i].copies| == 9)
  }

  ghost predicate Accounted(frame: Frame, evs: seq<Event>, i: nat)
    requires i < |RunFrom(frame, FRESH, evs).sent|
  {
    Through(RunFrom(frame, FRESH, evs), i) || Acknowledged(frame, evs, i)
    || Superseded(RunFrom(frame, FRESH, evs).sent, i)
  }

  /** The sendings of s are still those of t, with more copies perhaps. */
  ghost predicate Extends(s: State, t: State) {
    |s.sent| <= |t.sent| && forall i :: 0 <= i < |s.sent| ==> t.sent[i].packet == s.sent[i].packet
  }

  lemma {:induction false} TickExtends(s: State, order: seq<u16>, now: int, late: nat)
    ensures Extends(s, ResendAll(s, order, now, late)) && |ResendAll(s, order, now, late).sent| == |s.sent|
    decreases |order|
  {
    if order != [] {
      TickExtends(s, order[..|order| - 1], now, late);
    }
  }

  lemma StepExtends(frame: Frame, s: State, ev: Event)
    ensures Extends(s, Step(frame, s, ev))
  {
    match ev
    case Tick(order, now, late) => TickExtends(s, order, now, late);
    case _ =>
  }

  lemma TurnThrough(frame: Frame, s: State, k: u16, now: int, late: nat, i: nat)
    requires Sound(frame, s) && Through(s, i)
    ensures Through(ResendOne(s, k, now, late), i)
  {
    var t := ResendOne(s, k, now, late);
    if Held(s, i) {
      var l :| l in s.pending && s.pending[l].sending == i;
      if l in t.pending {
        assert t.pending[l].sending == i;
      } else {
        assert l == k && Faithful(frame, s.sent[i]);
      }
    } else {
      FrozenOne(s, k, now, late, i);
    }
  }

  lemma {:induction false} TickThrough(frame: Frame, s: State, order: seq<u16>, now: int, late: nat, i: nat)
    requires Sound(frame, s) && Through(s, i)
    ensures Through(ResendAll(s, order, now, late), i)
    decreases |order|
  {
    if order != [] {
      ResendAllKeeps(frame, s, order[..|order| - 1], now, late);
      TickThrough(frame, s, order[..|order| - 1], now, late, i);
      TurnThrough(frame, ResendAll(s, order[..|order| - 1], now, late), order[|order| - 1], now, late, i);
    }
  }

  lemma AckThrough(s: State, k: u16, l: u16, i: nat)
    requires l in s.pending && s.pending[l].sending == i && i < |s.sent| && k != l
    ensures Through(AckStep(s, k), i)
  {
    assert AckStep(s, k).pending[l].sending == i;
  }

  lemma EmitThrough(frame: Frame, s: State, p: Packet, salt: TeaMessage.Salt, now: int, l: u16, i: nat)
    requires l in s.pending && s.pending[l].sending == i && i < |s.sent| && s.sent[i].packet.seqID == l
    ensures var t := EmitStep(frame, s, p, salt, now);
            i < |t.sent| && (Through(t, i) || Superseded(t.sent, i))
  {
    var t := EmitStep(frame, s, p, salt, now);
    if t.pending[l].sending != i {
      assert t.sent[|s.sent|].packet.seqID == l;
    }
  }

  /** What is buffered stays so until it has gone out nine times, is acknowledged or gives up its id. */
  lemma StepThrough(frame: Frame, s: State, ev: Event, i: nat)
    requires Sound(frame, s) && Through(s, i)
    ensures var t := Step(frame, s, ev);
            && i < |t.sent|
            && (Through(t, i) || ev == Ack(s.sent[i].packet.seqID) || Superseded(t.sent, i))
  {
    if !Held(s, i) {
      FrozenStep(frame, s, ev, i);
      return;
    }
    var l :| l in s.pending && s.pending[l].sending == i;
    match ev
    case Tick(order, now, late) => TickThrough(frame, s, order, now, late, i);
    case Ack(k) =>
      if k != l {
        AckThrough(s, k, l, i);
      }
    case Emit(p, salt, now) => EmitThrough(frame, s, p, salt, now, l, i);
  }

  /**
   In every reachable state each reliable packet that was sent is still buffered, or has gone out nine times, or has
   been acknowledged since, or a later packet has taken its id.
   */
  lemma {:induction false} NoneForgotten(frame: Frame, evs: seq<Event>, i: nat)
    requires i < |RunFrom(frame, FRESH, evs).sent|
    ensures Accounted(frame, evs, i)
    decreases |evs|
  {
    var before, ev := evs[..|evs| - 1], evs[|evs| - 1];
    var s, t := RunFrom(frame, FRESH, before), RunFrom(frame, FRESH, evs);
    RunSound(frame, before);
    StepExtends(frame, s, ev);
    if i >= |s.sent| {
      NewIsHeld(frame, s, ev, i);
    } else {
      NoneForgotten(frame, before, i);
      AccountedOn(frame, evs, i);
    }
  }

  lemma NewIsHeld(frame: Frame, s: State, ev: Event, i: nat)
    requires |s.sent| <= i < |Step(frame, s, ev).sent|
    ensures Through(Step(frame, s, ev), i)
  {
    var t := Step(frame, s, ev);
    match ev
    case Tick(order, now, late) => TickExtends(s, order, now, late);
    case Ack(_) =>
    case Emit(p, _, _) => assert t.pending[Stamp(s, p).seqID].sending == i;
  }

  lemma AccountedOn(frame: Frame, evs: seq<Event>, i: nat)
    requires evs != [] && Sound(frame, RunFrom(frame, FRESH, evs[..|evs| - 1]))
    requires i < |RunFrom(frame, FRESH, evs[..|evs| - 1]).sent| && Accounted(frame, evs[..|evs| - 1], i)
    ensures i < |RunFrom(frame, FRESH, evs).sent| && Accounted(frame, evs, i)
  {
    var before, ev := evs[..|evs| - 1], evs[|evs| - 1];
    var s, t := RunFrom(frame, FRESH, before), RunFrom(frame, FRESH, evs);
    StepExtends(frame, s, ev);
    if Through(s, i) {
      StepThrough(frame, s, ev, i);
      if ev == Ack(s.sent[i].packet.seqID) {
        assert AcknowledgedAt(frame, evs, i, |before|);
      }
    } else if Acknowledged(frame, before, i) {
      var n :| 0 <= n < |before| && AcknowledgedAt(frame, before, i, n);
      assert evs[..n] == before[..n] && AcknowledgedAt(frame, evs, i, n);
    } else {
      var j :| i < j < |s.sent| && s.sent[j].packet.seqID == s.sent[i].packet.seqID;
      assert t.sent[j].packet.seqID == t.sent[i].packet.seqID;
    }
  }

  // ----- Nine copies, each as soon as it is due -----

  /** The times of the ticks. */
  function Ticks(evs: seq<Event>): seq<int> {
    if evs == [] then [] else
    Ticks(evs[..|evs| - 1]) + if evs[|evs| - 1].Tick? then [evs[|evs| - 1].now] else []
  }

  /** A tick at now adds a copy, if the last was made 250 ms or more before and there are fewer than nine. */
  function NextTimes(times: seq<int>, now: int): seq<int>
    requires 1 <= |times|
  {
    if |times| < 9 && now >= times[|times| - 1] + 250 then times + [now] else times
  }

  /** When copies go out: the first at start, each other at the first tick 250 ms or more later, nine in all. */
  function Schedule(start: int, ticks: seq<int>): (times: seq<int>)
    ensures 1 <= |times| <= 9
  {
    if ticks == [] then [start] else NextTimes(Schedule(start, ticks[..|ticks| - 1]), ticks[|ticks| - 1])
  }

  lemma ScheduleMore(start: int, ticks: seq<int>, now: int)
    ensures Schedule(start, ticks + [now]) == NextTimes(Schedule(start, ticks), now)
  {
    assert (ticks + [now])[..|ticks|] == ticks;
  }

  function Times(copies: seq<Copy>): (times: seq<int>)
    ensures |times| == |copies|
  {
    seq(|copies|, i requires 0 <= i < |copies| => copies[i].time)
  }

  /** Nobody acknowledges the id k, no other ordered packet takes it, and each tick looks at the whole buffer. */
  ghost predicate Unanswered(frame: Frame, s: State, evs: seq<Event>, k: u16) {
    evs == [] ||
    var before, ev := evs[..|evs| - 1], evs[|evs| - 1];
    && Unanswered(frame, s, before, k) && Leaves(RunFrom(frame, s, before), ev, k)
  }

  ghost predicate Leaves(s: State, ev: Event, k: u16) {
    match ev
    case Emit(p, _, _) => p.sendOption == SEND_RELIABLE ==> Stamp(s, p).seqID != k
    case Ack(seqID) => seqID != k
    case Tick(order, _, _) => Visits(s.pending.Keys, order)
  }

  /** The i-th sending has gone out at these times, and is buffered under k for the next one; or all nine are out. */
  ghost predicate OnSchedule(s: State, k: u16, i: nat, wire: seq<byte>, times: seq<int>) {
    && i < |s.sent| && Times(s.sent[i].copies) == times && 1 <= |times| <= 9
    && (forall c :: c in s.sent[i].copies ==> c.wire == wire)
    && (forall l :: l in s.pending && l != k ==> s.pending[l].sending != i)
    && if k in s.pending && s.pending[k].sending == i
       then s.pending[k] == Pending(i, wire, times[|times| - 1] + 250, |times| - 1)
       else |times| == 9
  }

  lemma EmitSchedules(frame: Frame, s: State, p: Packet, salt: TeaMessage.Salt, now: int)
    requires Sound(frame, s) && p.sendOption == SEND_RELIABLE && frame(Stamp(s, p), salt).Ok?
    ensures var t := EmitStep(frame, s, p, salt, now);
            OnSchedule(t, Stamp(s, p).seqID, |s.sent|, frame(Stamp(s, p), salt).value, [now])
  {
    var t := EmitStep(frame, s, p, salt, now);
    assert Times(t.sent[|s.sent|].copies) == [now];
  }

  lemma OtherTurn(s: State, l: u16, now: int, late: nat, k: u16, i: nat, wire: seq<byte>, times: seq<int>)
    requires OnSchedule(s, k, i, wire, times) && l != k
    ensures OnSchedule(ResendOne(s, l, now, late), k, i, wire, times)
  {
  }

  lemma OwnTurn(s: State, now: int, late: nat, k: u16, i: nat, wire: seq<byte>, times: seq<int>)
    requires OnSchedule(s, k, i, wire, times)
    ensures OnSchedule(ResendOne(s, k, now, late), k, i, wire, NextTimes(times, now))
  {
    var t := ResendOne(s, k, now, late);
    if k in s.pending && s.pending[k].sending == i && now >= s.pending[k].deadline && |times| < 9 {
      var copies := s.sent[i].copies;
      assert t.sent[i].copies == copies + [Copy(now, now + late, wire)];
      assert Times(t.sent[i].copies) == times + [now];
    }
  }

  /** A tick looks at each packet once. */
  lemma {:induction false} TickSchedules(s: State, order: seq<u16>, now: int, late: nat, k: u16, i: nat,
                                         wire: seq<byte>, times: seq<int>)
    requires OnSchedule(s, k, i, wire, times) && forall a, b :: 0 <= a < b < |order| ==> order[a] != order[b]
    ensures OnSchedule(ResendAll(s, order, now, late), k, i, wire, if k in order then NextTimes(times, now) else times)
    decreases |order|
  {
    if order != [] {
      var before, last := order[..|order| - 1], order[|order| - 1];
      TickSchedules(s, before, now, late, k, i, wire, times);
      assert order == before + [last];
      if last == k {
        OwnTurn(ResendAll(s, before, now, late), now, late, k, i, wire, times);
      } else {
        OtherTurn(ResendAll(s, before, now, late), last, now, late, k, i, wire,
                  if k in before then NextTimes(times, now) else times);
      }
    }
  }

  lemma StepSchedules(frame: Frame, s: State, ev: Event, k: u16, i: nat, wire: seq<byte>, times: seq<int>)
    requires OnSchedule(s, k, i, wire, times) && Leaves(s, ev, k)
    ensures OnSchedule(Step(frame, s, ev), k, i, wire, if ev.Tick? then NextTimes(times, ev.now) else times)
  {
    match ev
    case Tick(order, now, late) => TickSchedules(s, order, now, late, k, i, wire, times);
    case _ =>
  }

  lemma TicksMore(start: int, evs: seq<Event>)
    requires evs != []
    ensures var before, ev := evs[..|evs| - 1], evs[|evs| - 1];
            Schedule(start, Ticks(evs)) ==
            if ev.Tick? then NextTimes(Schedule(start, Ticks(before)), ev.now) else Schedule(start, Ticks(before))
  {
    var before, ev := evs[..|evs| - 1], evs[|evs| - 1];
    if ev.Tick? {
      ScheduleMore(start, Ticks(before), ev.now);
    } else {
      assert Ticks(evs) == Ticks(before) + [] == Ticks(before);
    }
  }

  lemma {:induction false} RunSchedules(frame: Frame, s: State, evs: seq<Event>, k: u16, i: nat, wire: seq<byte>,
                                        start: int)
    requires OnSchedule(s, k, i, wire, [start]) && Unanswered(frame, s, evs, k)
    ensures OnSchedule(RunFrom(frame, s, evs), k, i, wire, Schedule(start, Ticks(evs)))
    decreases |evs|
  {
    if evs != [] {
      var before, ev := evs[..|evs| - 1], evs[|evs| - 1];
      RunSchedules(frame, s, before, k, i, wire, start);
      StepSchedules(frame, RunFrom(frame, s, before), ev, k, i, wire, Schedule(start, Ticks(before)));
      TicksMore(start, evs);
    }
  }

  /**
   While nobody acknowledges it, an ordered packet that was sent goes out again, as the same bytes, at the first tick
   250 ms or more after each copy, until there are nine.
   */
  lemma SentAgain(frame: Frame, past: seq<Event>, p: Packet, salt: TeaMessage.Salt, now: int, evs: seq<Event>)
    requires var s := RunFrom(frame, FRESH, past);
             && p.sendOption == SEND_RELIABLE && frame(Stamp(s, p), salt).Ok?
             && Unanswered(frame, EmitStep(frame, s, p, salt, now), evs, Stamp(s, p).seqID)
    ensures var s := RunFrom(frame, FRESH, past);
            var sent := RunFrom(frame, EmitStep(frame, s, p, salt, now), evs).sent;
            && |s.sent| < |sent| && Times(sent[|s.sent|].copies) == Schedule(now, Ticks(evs))
            && forall c :: c in sent[|s.sent|].copies ==> c.wire == frame(Stamp(s, p), salt).value
  {
    var s := RunFrom(frame, FRESH, past);
    RunSound(frame, past);
    EmitSchedules(frame, s, p, salt, now);
    RunSchedules(frame, EmitStep(frame, s, p, salt, now), evs, Stamp(s, p).seqID, |s.sent|,
                 frame(Stamp(s, p), salt).value, now);
  }

  // ----- When all nine are out -----

  function LastOf(start: int, ticks: seq<int>): int {
    if ticks == [] then start else ticks[|ticks| - 1]
  }

  /** Each tick comes at most g after the one before. */
  ghost predicate Dense(start: int, ticks: seq<int>, g: nat) {
    ticks == [] ||
    (Dense(start, ticks[..|ticks| - 1], g) && ticks[|ticks| - 1] <= LastOf(start, ticks[..|ticks| - 1]) + g)
  }

  lemma {:induction false} ScheduleNear(start: int, ticks: seq<int>, g: nat)
    requires Dense(start, ticks, g)
    ensures var times := Schedule(start, ticks);
            && times[|times| - 1] <= start + (|times| - 1) * (250 + g)
            && (|times| < 9 ==> LastOf(start, ticks) < times[|times| - 1] + 250)
    decreases |ticks|
  {
    if ticks != [] {
      var before := ticks[..|ticks| - 1];
      ScheduleNear(start, before, g);
      var n := |Schedule(start, before)|;
      assert n * (250 + g) == (n - 1) * (250 + g) + (250 + g);
    }
  }

  lemma Spread(n: nat, d: nat)
    requires 1 <= n <= 8
    ensures (n - 1) * d + d <= 8 * d
  {
    MulMonotone(d, n, 8);
  }

  lemma EarlyTicks(start: int, ticks: seq<int>, g: nat)
    requires Dense(start, ticks, g) && |Schedule(start, ticks)| < 9
    ensures LastOf(start, ticks) < start + 8 * (250 + g)
  {
    ScheduleNear(start, ticks, g);
    Spread(|Schedule(start, ticks)|, 250 + g);
  }

  /** With ticks at most g apart all nine copies are out eight times 250 ms and g after the first. */
  lemma AllNine(start: int, ticks: seq<int>, g: nat)
    requires Dense(start, ticks, g) && LastOf(start, ticks) >= start + 8 * (250 + g)
    ensures |Schedule(start, ticks)| == 9
  {
    if |Schedule(start, ticks)| < 9 {
      EarlyTicks(start, ticks, g);
    }
  }
}
