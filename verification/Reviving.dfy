/**
 How a rescue ends (match-server/deathmatch.go): a teammate who stays up and does not let go has somebody up again after
 four seconds, with 20 hit points. Times are milliseconds.
 */
module Reviving {
  import opened Bleeding
  import opened Lives
  import opened Roster
  import opened Walks

  /** e is down, and r has been reviving him since t0. */
  ghost predicate UnderWay(s: State, e: Entity, r: Entity, t0: int) {
    && s.LifeOf(e) == Knocked && s.LifeOf(r) == Alive
    && e in s.rescues && s.rescues[e] == Rescue(r, e, t0 + 4000)
  }

  /** It is under way, or one of the two is not what he was. */
  ghost predicate UnderWayUnless(s: State, e: Entity, r: Entity, t0: int) {
    s.LifeOf(e) == Knocked && s.LifeOf(r) == Alive ==> UnderWay(s, e, r, t0)
  }

  /** Before each event one is still down and the other up, and the reviver does not stop. */
  ghost predicate Undisturbed(m: Setup, s: State, evs: seq<Event>, e: Entity, r: Entity) {
    evs == [] ||
    var before, ev := evs[..|evs| - 1], evs[|evs| - 1];
    && Undisturbed(m, s, before, e, r)
    && RunFrom(m, s, before).LifeOf(e) == Knocked && RunFrom(m, s, before).LifeOf(r) == Alive
    && ev != Stop(r, e)
    && (ev.RescueTick? ==> Visits(RunFrom(m, s, before).rescues.Keys, ev.order))
  }

  ghost predicate Targets(s: State) {
    forall x :: x in s.rescues ==> s.rescues[x].target == x
  }

  /** A rescue begins with somebody up on the team of somebody down, whom nobody is reviving yet. */
  lemma Begins(m: Setup, s: State, e: Entity, r: Entity, t0: int)
    requires s.LifeOf(e) == Knocked && s.LifeOf(r) == Alive && TeamOf(e) == TeamOf(r) && e !in s.rescues
    ensures UnderWay(Step(m, s, Begin(r, e, t0)), e, r, t0)
  {
  }

  // ----- Other events -----

  lemma HitLeavesRescue(m: Setup, s: State, v: Entity, a: Entity, dmg: nat, now: int, e: Entity, r: Entity, t0: int)
    requires UnderWay(s, e, r, t0)
    ensures UnderWayUnless(Damage(m, s, v, a, dmg, now), e, r, t0)
  {
  }

  lemma BleedLeavesRescue(s: State, now: int, e: Entity, r: Entity, t0: int)
    requires UnderWay(s, e, r, t0)
    ensures UnderWayUnless(Bleed(s, now), e, r, t0)
  {
  }

  lemma OthersLeaveRescue(m: Setup, s: State, ev: Event, e: Entity, r: Entity, t0: int)
    requires e in m.ids && UnderWay(s, e, r, t0) && ev != Stop(r, e) && !ev.RescueTick?
    ensures UnderWayUnless(Step(m, s, ev), e, r, t0)
  {
    match ev
    case Hit(v, a, dmg, now) => HitLeavesRescue(m, s, v, a, dmg, now, e, r, t0);
    case BleedTick(now) => BleedLeavesRescue(s, now, e, r, t0);
    case _ =>
  }

  // ----- The rescue tick -----

  /** Up again with 20 hit points, and no knock or rescue left. */
  ghost predicate UpAgain(s: State, e: Entity) {
    s.LifeOf(e) == Alive && e in s.hp && s.hp[e] == 20 && e !in s.knock && e !in s.rescues
  }

  lemma OtherRescue(s: State, l: Entity, now: int, e: Entity, r: Entity, t0: int)
    requires Targets(s) && l != e
    ensures Targets(RescueOne(s, l, now))
    ensures UnderWay(s, e, r, t0) ==> UnderWay(RescueOne(s, l, now), e, r, t0)
    ensures UpAgain(s, e) ==> UpAgain(RescueOne(s, l, now), e)
  {
  }

  lemma OwnRescue(s: State, now: int, e: Entity, r: Entity, t0: int)
    requires Targets(s) && UnderWay(s, e, r, t0)
    ensures Targets(RescueOne(s, e, now))
    ensures if now >= t0 + 4000 then UpAgain(RescueOne(s, e, now), e) else UnderWay(RescueOne(s, e, now), e, r, t0)
  {
  }

  lemma {:induction false} RescueTicks(s: State, order: seq<Entity>, now: int, e: Entity, r: Entity, t0: int)
    requires Targets(s) && UnderWay(s, e, r, t0)
    requires forall i, j :: 0 <= i < j < |order| ==> order[i] != order[j]
    ensures var t := RescueAll(s, order, now);
            Targets(t) && if e in order && now >= t0 + 4000 then UpAgain(t, e) else UnderWay(t, e, r, t0)
    decreases |order|
  {
    if order != [] {
      var before, l := order[..|order| - 1], order[|order| - 1];
      RescueTicks(s, before, now, e, r, t0);
      assert order == before + [l];
      if l == e {
        OwnRescue(RescueAll(s, before, now), now, e, r, t0);
      } else {
        OtherRescue(RescueAll(s, before, now), l, now, e, r, t0);
      }
    }
  }

  // ----- Whole runs -----

  lemma {:induction false} RunStaysSafe(m: Setup, s: State, evs: seq<Event>)
    requires m.Valid() && Safe(m, s)
    ensures Safe(m, RunFrom(m, s, evs))
    decreases |evs|
  {
    if evs != [] {
      RunStaysSafe(m, s, evs[..|evs| - 1]);
      StepKeeps(m, RunFrom(m, s, evs[..|evs| - 1]), evs[|evs| - 1]);
    }
  }

  lemma {:induction false} RunUnderWay(m: Setup, s: State, evs: seq<Event>, e: Entity, r: Entity, t0: int)
    requires m.Valid() && Safe(m, s) && e in m.ids && UnderWay(s, e, r, t0) && Undisturbed(m, s, evs, e, r)
    ensures UnderWayUnless(RunFrom(m, s, evs), e, r, t0)
    decreases |evs|
  {
    if evs != [] {
      var before, ev := evs[..|evs| - 1], evs[|evs| - 1];
      var t := RunFrom(m, s, before);
      RunUnderWay(m, s, before, e, r, t0);
      RunStaysSafe(m, s, before);
      if ev.RescueTick? {
        RescueTicks(t, ev.order, ev.now, e, r, t0);
      } else {
        OthersLeaveRescue(m, t, ev, e, r, t0);
      }
    }
  }

  /**
   Whatever else happens: while one stays down and the other up and does not stop, a rescue tick revives him, with 20
   hit points, if four seconds have passed, and changes nothing about it before.
   */
  lemma FourSeconds(m: Setup, past: seq<Event>, e: Entity, r: Entity, t0: int, evs: seq<Event>, order: seq<Entity>,
                    now: int)
    requires var s := Run(m, past);
             && m.Valid() && e in m.ids && UnderWay(s, e, r, t0)
             && Undisturbed(m, s, evs + [RescueTick(order, now)], e, r)
    ensures var t := RescueAll(RunFrom(m, Run(m, past), evs), order, now);
            if now >= t0 + 4000 then UpAgain(t, e) else UnderWay(t, e, r, t0)
  {
    var s := Run(m, past);
    var all := evs + [RescueTick(order, now)];
    assert all[..|all| - 1] == evs;
    RunSafe(m, past);
    RunUnderWay(m, s, evs, e, r, t0);
    RunStaysSafe(m, s, evs);
    RescueTicks(RunFrom(m, s, evs), order, now, e, r, t0);
  }

  // ----- Who revives whom -----

  /** Every rescue is by somebody else of the same team. */
  ghost predicate ByMates(s: State) {
    forall e :: e in s.rescues ==> s.rescues[e].reviver != e && TeamOf(s.rescues[e].reviver) == TeamOf(e)
  }

  /** No rescue but one that s has. */
  ghost predicate NoNewRescues(s: State, t: State) {
    forall e :: e in t.rescues ==> e in s.rescues && t.rescues[e] == s.rescues[e]
  }

  lemma HitsBeginNone(m: Setup, s: State, v: Entity, a: Entity, dmg: nat, now: int)
    ensures NoNewRescues(s, Damage(m, s, v, a, dmg, now))
  {
  }

  lemma BleedBeginsNone(s: State, now: int)
    ensures NoNewRescues(s, Bleed(s, now))
  {
  }

  lemma {:induction false} RescuesBeginNone(s: State, order: seq<Entity>, now: int)
    ensures NoNewRescues(s, RescueAll(s, order, now))
    decreases |order|
  {
    if order != [] {
      RescuesBeginNone(s, order[..|order| - 1], now);
    }
  }

  lemma StepByMates(m: Setup, s: State, ev: Event)
    requires ByMates(s)
    ensures ByMates(Step(m, s, ev))
  {
    match ev
    case Hit(v, a, dmg, now) => HitsBeginNone(m, s, v, a, dmg, now);
    case BleedTick(now) => BleedBeginsNone(s, now);
    case RescueTick(order, now) => RescuesBeginNone(s, order, now);
    case _ =>
  }

  /** In every reachable state. */
  lemma {:induction false} OnlyMatesRescue(m: Setup, evs: seq<Event>)
    ensures ByMates(Run(m, evs))
    decreases |evs|
  {
    if evs != [] {
      OnlyMatesRescue(m, evs[..|evs| - 1]);
      StepByMates(m, Run(m, evs[..|evs| - 1]), evs[|evs| - 1]);
    }
  }
}
