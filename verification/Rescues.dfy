/**
 When the rescue tick of match-server/deathmatch.go depends on the order in which Go walks the map of rescues, and why
 it never does in a match that ticks often enough.
 */
module Rescues {
  import opened Lives
  import opened Roster
  import opened Vitals
  import opened Walks

  /** Every rescue is of somebody who is down, filed under him. */
  ghost predicate Orderly(s: State) {
    forall e :: e in s.rescues ==> s.LifeOf(e) == Knocked && s.rescues[e].target == e
  }

  lemma ConsistentOrderly(m: Setup, s: State)
    requires Consistent(m, s)
    ensures Orderly(s)
  {
    forall e | e in s.rescues
      ensures s.LifeOf(e) == Knocked
    {
      assert Agrees(m, s, e);
    }
  }

  /** The rescue of e comes to its end: the reviver is up and the time is over. */
  predicate Succeeds(s: State, e: Entity, now: int) {
    e in s.rescues && s.LifeOf(s.rescues[e].reviver) == Alive && now >= s.rescues[e].completeAt
  }

  predicate Fails(s: State, e: Entity) {
    e in s.rescues && s.LifeOf(s.rescues[e].reviver) != Alive
  }

  /** The reviver of b is down himself, and up again this very tick. */
  predicate ClashAt(s: State, b: Entity, now: int) {
    && b in s.rescues && s.LifeOf(b) == Knocked
    && s.LifeOf(s.rescues[b].reviver) == Knocked && Succeeds(s, s.rescues[b].reviver, now)
  }

  ghost predicate Clash(s: State, now: int) {
    exists b :: ClashAt(s, b, now)
  }

  // ----- Without a clash -----

  function Rescued(s: State, turn: set<Entity>, now: int): set<Entity> {
    set e | e in turn && Succeeds(s, e, now)
  }

  function Ended(s: State, turn: set<Entity>, now: int): set<Entity> {
    set e | e in turn && (Succeeds(s, e, now) || Fails(s, e))
  }

  /** The map with the same value for everybody in keys. */
  function SetAll<V>(f: map<Entity, V>, keys: set<Entity>, v: V): map<Entity, V> {
    map e | e in f.Keys + keys :: if e in keys then v else f[e]
  }

  lemma SetMore<V>(f: map<Entity, V>, keys: set<Entity>, e: Entity, v: V)
    ensures SetAll(f, keys + {e}, v) == SetAll(f, keys, v)[e := v]
  {
  }

  lemma SetNone<V>(f: map<Entity, V>, v: V)
    ensures SetAll(f, {}, v) == f
  {
  }

  function Revive(s: State, up: set<Entity>, ended: set<Entity>): State {
    s.(life := SetAll(s.life, up, Alive), hp := SetAll(s.hp, up, REVIVE_HP), knock := s.knock - up,
       rescues := s.rescues - ended)
  }

  /** What becomes of those in turn, as the state before the tick has it. */
  function RescueSome(s: State, turn: set<Entity>, now: int): State {
    Revive(s, Rescued(s, turn, now), Ended(s, turn, now))
  }

  lemma ReviveNobody(s: State)
    ensures Revive(s, {}, {}) == s
  {
    SetNone(s.life, Alive);
    SetNone(s.hp, REVIVE_HP);
  }

  lemma ReviveMore(s: State, up: set<Entity>, ended: set<Entity>, e: Entity)
    ensures Revive(s, up + {e}, ended + {e}) ==
            var t := Revive(s, up, ended); CompleteRescue(t.(rescues := t.rescues - {e}), e)
  {
    SetMore(s.life, up, e, Alive);
    SetMore(s.hp, up, e, REVIVE_HP);
    assert s.knock - (up + {e}) == s.knock - up - {e};
    assert s.rescues - (ended + {e}) == s.rescues - ended - {e};
  }

  lemma EndMore(s: State, up: set<Entity>, ended: set<Entity>, e: Entity)
    ensures Revive(s, up, ended + {e}) == var t := Revive(s, up, ended); t.(rescues := t.rescues - {e})
  {
    assert s.rescues - (ended + {e}) == s.rescues - ended - {e};
  }

  /** Without a clash everyone's life that matters to a rescue is, after any part of the walk, what it was before. */
  lemma ReviverAsBefore(s: State, turn: set<Entity>, e: Entity, now: int)
    requires Orderly(s) && !Clash(s, now) && e in s.rescues && e !in turn
    ensures var t, r := RescueSome(s, turn, now), s.rescues[e];
            && e in t.rescues && t.rescues[e] == r && t.LifeOf(e) == Knocked
            && (t.LifeOf(r.reviver) == Alive <==> s.LifeOf(r.reviver) == Alive)
  {
    var a := s.rescues[e].reviver;
    assert a in Rescued(s, turn, now) ==> ClashAt(s, e, now);
  }

  lemma TurnMore(s: State, turn: set<Entity>, e: Entity, now: int)
    ensures Rescued(s, turn + {e}, now) == Rescued(s, turn, now) + if Succeeds(s, e, now) then {e} else {}
    ensures Ended(s, turn + {e}, now) == Ended(s, turn, now) + if Succeeds(s, e, now) || Fails(s, e) then {e} else {}
  {
  }

  lemma RescueMore(s: State, turn: set<Entity>, e: Entity, now: int)
    requires Orderly(s) && !Clash(s, now) && e in s.rescues && e !in turn
    ensures RescueSome(s, turn + {e}, now) == RescueOne(RescueSome(s, turn, now), e, now)
  {
    var up, ended := Rescued(s, turn, now), Ended(s, turn, now);
    ReviverAsBefore(s, turn, e, now);
    TurnMore(s, turn, e, now);
    if Succeeds(s, e, now) {
      ReviveMore(s, up, ended, e);
    } else if Fails(s, e) {
      assert up + {} == up;
      EndMore(s, up, ended, e);
    } else {
      assert up + {} == up && ended + {} == ended;
    }
  }

  lemma RescueNobody(s: State, now: int)
    ensures RescueSome(s, Elements<Entity>([]), now) == s
  {
    assert Elements<Entity>([]) == {} && Rescued(s, {}, now) == {} && Ended(s, {}, now) == {};
    ReviveNobody(s);
  }

  lemma {:induction false} RescueAllIs(s: State, order: seq<Entity>, now: int)
    requires Orderly(s) && !Clash(s, now) && forall e :: e in order ==> e in s.rescues
    requires forall i, j :: 0 <= i < j < |order| ==> order[i] != order[j]
    ensures RescueAll(s, order, now) == RescueSome(s, Elements(order), now)
    decreases |order|
  {
    if order == [] {
      RescueNobody(s, now);
    } else {
      var before, last := order[..|order| - 1], order[|order| - 1];
      assert order == before + [last];
      RescueAllIs(s, before, now);
      ElementsMore(before, last);
      RescueMore(s, Elements(before), last, now);
    }
  }

  // ----- With a clash -----

  /** Whoever is not looked at keeps his life and his rescue. */
  lemma {:induction false} Unseen(s: State, order: seq<Entity>, e: Entity, now: int)
    requires e !in order && forall x :: x in s.rescues ==> s.rescues[x].target == x
    ensures var t := RescueAll(s, order, now);
            && t.LifeOf(e) == s.LifeOf(e) && (e in t.rescues <==> e in s.rescues)
            && forall x :: x in t.rescues ==> x in s.rescues && t.rescues[x] == s.rescues[x]
    decreases |order|
  {
    if order != [] {
      Unseen(s, order[..|order| - 1], e, now);
    }
  }

  lemma {:induction false} RescueAllConcat(s: State, a: seq<Entity>, b: seq<Entity>, now: int)
    ensures RescueAll(s, a + b, now) == RescueAll(RescueAll(s, a, now), b, now)
    decreases |b|
  {
    if b == [] {
      assert a + b == a;
    } else {
      assert (a + b)[..|a + b| - 1] == a + b[..|b| - 1];
      RescueAllConcat(s, a, b[..|b| - 1], now);
    }
  }

  lemma RescueTwo(s: State, a: Entity, b: Entity, now: int)
    ensures RescueAll(s, [a, b], now) == RescueOne(RescueOne(s, a, now), b, now)
  {
    assert [a, b][..1] == [a] && [a][..0] == [];
    assert RescueAll(s, [a], now) == RescueOne(s, a, now);
  }

  /** Looked at before his reviver, b is given up; after him, he is rescued or goes on being rescued. */
  lemma ClashDiffers(s: State, b: Entity, now: int)
    requires Orderly(s) && ClashAt(s, b, now)
    ensures var a := s.rescues[b].reviver;
            var t, u := RescueAll(s, [b, a], now), RescueAll(s, [a, b], now);
            && t.LifeOf(b) == Knocked && b !in t.rescues && (u.LifeOf(b) == Alive || b in u.rescues)
            && (forall x :: x in t.rescues ==> t.rescues[x].target == x)
            && (forall x :: x in u.rescues ==> u.rescues[x].target == x)
  {
    var a := s.rescues[b].reviver;
    assert a != b;
    RescueTwo(s, b, a, now);
    RescueTwo(s, a, b, now);
    var s1 := RescueOne(s, a, now);
    assert s1 == CompleteRescue(s.(rescues := s.rescues - {a}), a);
    assert s1.LifeOf(b) == Knocked && b in s1.rescues && s1.rescues[b] == s.rescues[b];
  }

  /** Whatever is looked at after the two, they come out differently. */
  lemma ClashRemains(s: State, b: Entity, now: int, rest: seq<Entity>)
    requires Orderly(s) && ClashAt(s, b, now) && b !in rest
    ensures var a := s.rescues[b].reviver; RescueAll(s, [b, a] + rest, now) != RescueAll(s, [a, b] + rest, now)
  {
    var a := s.rescues[b].reviver;
    RescueAllConcat(s, [b, a], rest, now);
    RescueAllConcat(s, [a, b], rest, now);
    ClashDiffers(s, b, now);
    Unseen(RescueAll(s, [b, a], now), rest, b, now);
    Unseen(RescueAll(s, [a, b], now), rest, b, now);
  }

  lemma TwoFirst(keys: set<Entity>, a: Entity, b: Entity, rest: seq<Entity>)
    requires a in keys && b in keys && a != b && Visits(keys - {a, b}, rest)
    ensures Visits(keys, [a, b] + rest)
  {
    var order := [a, b] + rest;
    forall e
      ensures e in keys <==> e in order
    {
      assert e in order <==> e in [a, b] || e in rest;
    }
  }

  lemma ClashMatters(s: State, b: Entity, now: int) returns (first: seq<Entity>, second: seq<Entity>)
    requires Orderly(s) && ClashAt(s, b, now)
    ensures Visits(s.rescues.Keys, first) && Visits(s.rescues.Keys, second)
    ensures RescueAll(s, first, now) != RescueAll(s, second, now)
  {
    var a := s.rescues[b].reviver;
    assert a != b;
    var rest := SomeOrder(s.rescues.Keys - {a, b});
    first, second := [b, a] + rest, [a, b] + rest;
    ClashRemains(s, b, now, rest);
    TwoFirst(s.rescues.Keys, a, b, rest);
    assert {b, a} == {a, b};
    TwoFirst(s.rescues.Keys, b, a, rest);
  }

  ghost predicate SameInAnyOrder(s: State, now: int) {
    forall x: seq<Entity>, y: seq<Entity> :: Visits(s.rescues.Keys, x) && Visits(s.rescues.Keys, y) ==>
      RescueAll(s, x, now) == RescueAll(s, y, now)
  }

  /** A rescue tick comes out the same in every order of the map exactly when nobody's reviver is revived in it. */
  lemma OrderMattersIffClash(m: Setup, s: State, now: int)
    requires Consistent(m, s)
    ensures SameInAnyOrder(s, now) <==> !Clash(s, now)
  {
    ConsistentOrderly(m, s);
    if Clash(s, now) {
      var b :| ClashAt(s, b, now);
      var first, second := ClashMatters(s, b, now);
    } else {
      forall x: seq<Entity>, y: seq<Entity> | Visits(s.rescues.Keys, x) && Visits(s.rescues.Keys, y)
        ensures RescueAll(s, x, now) == RescueAll(s, y, now)
      {
        RescueAllIs(s, x, now);
        RescueAllIs(s, y, now);
        VisitedElements(s.rescues.Keys, x);
        VisitedElements(s.rescues.Keys, y);
      }
    }
  }

  // ----- A clash can be reached -----

  /** Somebody who is up at full hit points goes down when a teammate stays up. */
  lemma KnockedDown(m: Setup, s: State, victim: Entity, mate: Entity, now: int)
    requires m.Valid() && victim in m.ids && mate in m.ids && victim != mate && TeamOf(victim) == TeamOf(mate)
    requires s.LifeOf(victim) == Alive && s.LifeOf(mate) == Alive && !s.roundOver
    requires victim in s.hp && s.hp[victim] == m.maxHP
    ensures Damage(m, s, victim, 0, m.maxHP, now) == KnockDown(s, victim, 0, now)
  {
    TwoMembers(m.roster, TeamOf(victim), victim, mate);
    var down := KnockDown(s.(hp := s.hp[victim := 0]), victim, 0, now);
    assert down.LifeOf(mate) == Alive;
    CountIsMates(m, down, victim);
    assert s.hp[victim := 0][victim := KNOCKDOWN_HP] == s.hp[victim := KNOCKDOWN_HP];
  }

  /** Three on a team: one goes down, the second begins to revive him and goes down, the third revives the second. */
  function TrioEvents(m: Setup, a: Entity, b: Entity, c: Entity): seq<Event> {
    [Hit(b, 0, m.maxHP, 0), Begin(a, b, 0), Hit(a, 0, m.maxHP, 0), Begin(c, a, 0)]
  }

  lemma TrioClash(m: Setup, a: Entity, b: Entity, c: Entity)
    requires m.Valid() && {a, b, c} <= m.ids && a != b && b != c && a != c
    requires TeamOf(a) == TeamOf(b) == TeamOf(c)
    ensures Clash(Run(m, TrioEvents(m, a, b, c)), REVIVE_DURATION)
  {
    var s0 := Fresh(m);
    KnockedDown(m, s0, b, c, 0);
    var s1 := KnockDown(s0, b, 0, 0);
    var s2 := s1.(rescues := s1.rescues[b := Rescue(a, b, REVIVE_DURATION)]);
    assert Lives.StartRescue(s1, a, b, 0) == s2;
    KnockedDown(m, s2, a, c, 0);
    var s3 := KnockDown(s2, a, 0, 0);
    var s4 := s3.(rescues := s3.rescues[a := Rescue(c, a, REVIVE_DURATION)]);
    assert Lives.StartRescue(s3, c, a, 0) == s4;
    assert ClashAt(s4, b, REVIVE_DURATION);
    TrioRun(m, a, b, c, s1, s2, s3, s4);
  }

  lemma TrioRun(m: Setup, a: Entity, b: Entity, c: Entity, s1: State, s2: State, s3: State, s4: State)
    requires s1 == Damage(m, Fresh(m), b, 0, m.maxHP, 0) && s2 == Lives.StartRescue(s1, a, b, 0)
    requires s3 == Damage(m, s2, a, 0, m.maxHP, 0) && s4 == Lives.StartRescue(s3, c, a, 0)
    ensures Run(m, TrioEvents(m, a, b, c)) == s4
  {
    RunMore(m, [], Hit(b, 0, m.maxHP, 0));
    RunMore(m, [Hit(b, 0, m.maxHP, 0)], Begin(a, b, 0));
    RunMore(m, [Hit(b, 0, m.maxHP, 0), Begin(a, b, 0)], Hit(a, 0, m.maxHP, 0));
    RunMore(m, [Hit(b, 0, m.maxHP, 0), Begin(a, b, 0), Hit(a, 0, m.maxHP, 0)], Begin(c, a, 0));
    assert [] + [Hit(b, 0, m.maxHP, 0)] == [Hit(b, 0, m.maxHP, 0)];
    assert [Hit(b, 0, m.maxHP, 0)] + [Begin(a, b, 0)] == [Hit(b, 0, m.maxHP, 0), Begin(a, b, 0)];
    assert [Hit(b, 0, m.maxHP, 0), Begin(a, b, 0)] + [Hit(a, 0, m.maxHP, 0)] ==
           [Hit(b, 0, m.maxHP, 0), Begin(a, b, 0), Hit(a, 0, m.maxHP, 0)];
    assert [Hit(b, 0, m.maxHP, 0), Begin(a, b, 0), Hit(a, 0, m.maxHP, 0)] + [Begin(c, a, 0)] == TrioEvents(m, a, b, c);
  }

  lemma TrioMatters(m: Setup, a: Entity, b: Entity, c: Entity)
    requires m.Valid() && {a, b, c} <= m.ids && a != b && b != c && a != c
    requires TeamOf(a) == TeamOf(b) == TeamOf(c)
    ensures !SameInAnyOrder(Run(m, TrioEvents(m, a, b, c)), REVIVE_DURATION)
  {
    TrioClash(m, a, b, c);
    RunSafe(m, TrioEvents(m, a, b, c));
    OrderMattersIffClash(m, Run(m, TrioEvents(m, a, b, c)), REVIVE_DURATION);
  }

  /** So in any match with three on a team there is a run in which the order of the next rescue tick matters. */
  lemma OrderCanMatter()
    ensures exists m: Setup, evs: seq<Event>, now: int :: m.Valid() && !SameInAnyOrder(Run(m, evs), now)
  {
    var players := [Player(0x100_0001, 1), Player(0x100_0003, 1), Player(0x100_0004, 1), Player(0x200_0005, 2)];
    var r := Roster(players, 0);
    var m := Setup(r, r.Ids(), 200);
    var a: Entity, b: Entity, c: Entity := 0x100_0001, 0x100_0003, 0x100_0004;
    assert players[0].entityID == a && players[1].entityID == b && players[2].entityID == c;
    TrioMatters(m, a, b, c);
  }

  // ----- A match that ticks often enough -----

  /** The time of the last rescue tick, or start if there was none. */
  function LastTick(evs: seq<Event>, start: int): int {
    if evs == [] then start
    else if evs[|evs| - 1].RescueTick? then evs[|evs| - 1].now else LastTick(evs[..|evs| - 1], start)
  }

  /** Rescue ticks come less than the length of a rescue apart, and the clock does not run backwards past them. */
  ghost predicate Prompt(m: Setup, evs: seq<Event>, start: int) {
    evs == [] ||
    var before, ev := evs[..|evs| - 1], evs[|evs| - 1];
    && Prompt(m, before, start)
    && (ev.RescueTick? ==>
          Visits(Run(m, before).rescues.Keys, ev.order) && ev.now < LastTick(before, start) + REVIVE_DURATION)
    && (ev.Begin? ==> LastTick(before, start) <= ev.now)
  }

  /** The rescue of a reviver who is down began after the last tick: that tick gave up what he was reviving before. */
  ghost predicate Recent(s: State, last: int) {
    forall b :: b in s.rescues && s.rescues[b].reviver in s.rescues ==>
      s.rescues[s.rescues[b].reviver].completeAt >= last + REVIVE_DURATION
  }

  lemma RecentNoClash(s: State, last: int, now: int)
    requires Recent(s, last) && now < last + REVIVE_DURATION
    ensures !Clash(s, now)
  {
  }

  ghost predicate Fewer(s: State, t: State) {
    forall e :: e in t.rescues ==> e in s.rescues && t.rescues[e] == s.rescues[e]
  }

  lemma FewerRecent(s: State, t: State, last: int)
    requires Recent(s, last) && Fewer(s, t)
    ensures Recent(t, last)
  {
  }

  /** Nothing but the beginning of a rescue adds one. */
  lemma NoneAdded(m: Setup, s: State, ev: Event)
    requires !ev.Begin? && !ev.RescueTick?
    ensures Fewer(s, Step(m, s, ev))
  {
  }

  lemma BeginRecent(s: State, reviver: Entity, target: Entity, now: int, last: int)
    requires Orderly(s) && Recent(s, last) && last <= now
    ensures Recent(Lives.StartRescue(s, reviver, target, now), last)
  {
    var t := Lives.StartRescue(s, reviver, target, now);
    if t != s {
      assert reviver !in s.rescues;
    }
  }

  /** After a tick every reviver is up. */
  lemma TickRecent(s: State, order: seq<Entity>, now: int)
    requires Orderly(s) && !Clash(s, now) && Visits(s.rescues.Keys, order)
    ensures Recent(RescueAll(s, order, now), now)
  {
    var t := RescueSome(s, s.rescues.Keys, now);
    RescueAllIs(s, order, now);
    VisitedElements(s.rescues.Keys, order);
    forall b | b in t.rescues
      ensures t.rescues[b].reviver !in t.rescues
    {
      assert !Fails(s, b);
      assert s.LifeOf(s.rescues[b].reviver) == Alive;
    }
  }

  lemma {:induction false} PromptRecent(m: Setup, evs: seq<Event>, start: int)
    requires m.Valid() && Prompt(m, evs, start)
    ensures Recent(Run(m, evs), LastTick(evs, start))
    decreases |evs|
  {
    if evs != [] {
      var before, ev := evs[..|evs| - 1], evs[|evs| - 1];
      var s := Run(m, before);
      PromptRecent(m, before, start);
      RunSafe(m, before);
      ConsistentOrderly(m, s);
      if ev.RescueTick? {
        RecentNoClash(s, LastTick(before, start), ev.now);
        TickRecent(s, ev.order, ev.now);
      } else if ev.Begin? {
        BeginRecent(s, ev.reviver, ev.target, ev.now, LastTick(before, start));
      } else {
        NoneAdded(m, s, ev);
        FewerRecent(s, Run(m, evs), LastTick(before, start));
      }
    }
  }

  /**
   In a match whose rescue ticks come less than the length of a rescue apart, no tick depends on the order of the map:
   the server ticks forty times in that time.
   */
  lemma OrderNeverMatters(m: Setup, evs: seq<Event>, start: int, now: int)
    requires m.Valid() && Prompt(m, evs, start) && now < LastTick(evs, start) + REVIVE_DURATION
    ensures SameInAnyOrder(Run(m, evs), now)
  {
    PromptRecent(m, evs, start);
    RecentNoClash(Run(m, evs), LastTick(evs, start), now);
    RunSafe(m, evs);
    OrderMattersIffClash(m, Run(m, evs), now);
  }
}
