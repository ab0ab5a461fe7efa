/**
 How long a knock lasts: the bleed of match-server/deathmatch.go in runs in which anything else may happen to anybody
 else. Times are milliseconds.
 */
module Bleeding {
  import opened Lives
  import opened Roster

  function RunFrom(m: Setup, s: State, evs: seq<Event>): State {
    if evs == [] then s else Step(m, RunFrom(m, s, evs[..|evs| - 1]), evs[|evs| - 1])
  }

  /** e is down before each of the events, and none of them hits him: whoever rescues him has not done so yet. */
  ghost predicate LeftAlone(m: Setup, s: State, evs: seq<Event>, e: Entity) {
    evs == [] ||
    var before, ev := evs[..|evs| - 1], evs[|evs| - 1];
    && LeftAlone(m, s, before, e) && RunFrom(m, s, before).LifeOf(e) == Knocked
    && !(ev.Hit? && ev.victim == e)
  }

  // ----- What does not touch a knock -----

  /** e is down with this knock. */
  ghost predicate Has(s: State, e: Entity, k: Knock) {
    s.LifeOf(e) == Knocked && e in s.knock && s.knock[e] == k
  }

  /** e is down with this knock, or not down any more. */
  ghost predicate HadUpTo(s: State, e: Entity, k: Knock) {
    s.LifeOf(e) == Knocked ==> Has(s, e, k)
  }

  lemma HitOnAnother(m: Setup, s: State, victim: Entity, attacker: Entity, dmg: nat, now: int, e: Entity, k: Knock)
    requires Has(s, e, k) && victim != e
    ensures HadUpTo(Damage(m, s, victim, attacker, dmg, now), e, k)
  {
  }

  lemma {:induction false} RescuesOfAll(s: State, order: seq<Entity>, now: int, e: Entity, k: Knock)
    requires Has(s, e, k)
    ensures HadUpTo(RescueAll(s, order, now), e, k)
    decreases |order|
  {
    if order != [] {
      RescuesOfAll(s, order[..|order| - 1], now, e, k);
    }
  }

  /** Whatever happens but a bleed or a hit on e leaves his knock as it is, or ends it. */
  lemma StepLeaves(m: Setup, s: State, ev: Event, e: Entity, k: Knock)
    requires e in m.ids && Has(s, e, k) && !ev.BleedTick? && !(ev.Hit? && ev.victim == e)
    ensures HadUpTo(Step(m, s, ev), e, k)
  {
    match ev
    case Hit(victim, attacker, dmg, now) => HitOnAnother(m, s, victim, attacker, dmg, now, e, k);
    case RescueTick(order, now) => RescuesOfAll(s, order, now, e, k);
    case _ =>
  }

  /** What a bleed tick does to it. */
  lemma BleedsOne(s: State, e: Entity, now: int, k: Knock)
    requires Has(s, e, k)
    ensures var t := Bleed(s, now);
            if now < k.deadline then Has(t, e, k)
            else if k.hp <= BLEED_AMT then t.LifeOf(e) == Dead
            else Has(t, e, BleedKnock(k))
  {
  }

  // ----- Twenty bleeds -----

  /** Someone knocked at t0 after b bleeds. */
  function Drained(t0: int, killer: Entity, b: nat): Knock
    requires b < 20
  {
    Knock(KNOCKDOWN_HP - BLEED_AMT * b, t0 + BLEED_EVERY * (b + 1), killer)
  }

  /** A fresh knock is one without a bleed. */
  lemma KnockedFresh(s: State, e: Entity, killer: Entity, t0: int)
    ensures Has(KnockDown(s, e, killer, t0), e, Drained(t0, killer, 0))
  {
  }

  lemma NextBleed(t0: int, killer: Entity, b: nat)
    requires b < 20
    ensures Drained(t0, killer, b).hp <= BLEED_AMT <==> b == 19
    ensures b < 19 ==> BleedKnock(Drained(t0, killer, b)) == Drained(t0, killer, b + 1)
  {
  }

  /** If e is down, it is with a knock of some number of bleeds. */
  ghost predicate Draining(s: State, e: Entity, t0: int, killer: Entity) {
    s.LifeOf(e) == Knocked ==> exists b: nat | b < 20 :: Has(s, e, Drained(t0, killer, b))
  }

  lemma BleedCounts(s: State, e: Entity, t0: int, killer: Entity, now: int, b: nat)
    requires b < 20 && Has(s, e, Drained(t0, killer, b))
    ensures Draining(Bleed(s, now), e, t0, killer)
    ensures Bleed(s, now).LifeOf(e) == Dead <==> b == 19 && now >= t0 + 30_000
  {
    BleedsOne(s, e, now, Drained(t0, killer, b));
    NextBleed(t0, killer, b);
  }

  lemma {:induction false} RunBleeds(m: Setup, s: State, evs: seq<Event>, e: Entity, t0: int, killer: Entity)
    requires e in m.ids && Has(s, e, Drained(t0, killer, 0)) && LeftAlone(m, s, evs, e)
    ensures Draining(RunFrom(m, s, evs), e, t0, killer)
    decreases |evs|
  {
    if evs == [] {
      assert Has(s, e, Drained(t0, killer, 0));
    } else {
      var before, ev := evs[..|evs| - 1], evs[|evs| - 1];
      var t := RunFrom(m, s, before);
      RunBleeds(m, s, before, e, t0, killer);
      var b: nat :| b < 20 && Has(t, e, Drained(t0, killer, b));
      if ev.BleedTick? {
        BleedCounts(t, e, t0, killer, ev.now, b);
      } else {
        StepLeaves(m, t, ev, e, Drained(t0, killer, b));
      }
    }
  }

  /** e was knocked at t0 in s, was left alone since, and is still down. */
  ghost predicate DownSince(m: Setup, s: State, evs: seq<Event>, e: Entity, t0: int, killer: Entity) {
    && e in m.ids && Has(s, e, Drained(t0, killer, 0))
    && LeftAlone(m, s, evs, e) && RunFrom(m, s, evs).LifeOf(e) == Knocked
  }

  ghost predicate BleedKills(s: State, e: Entity, now: int) {
    Bleed(s, now).LifeOf(e) == Dead
  }

  /**
   Whatever else happens, and however the ticks come, a knock that is neither hit nor rescued does not end in a bleed
   before 30 s.
   */
  lemma NeverEarlier(m: Setup, s: State, evs: seq<Event>, e: Entity, t0: int, killer: Entity, now: int)
    requires DownSince(m, s, evs, e, t0, killer)
    ensures BleedKills(RunFrom(m, s, evs), e, now) ==> now >= t0 + 30_000
  {
    var t := RunFrom(m, s, evs);
    RunBleeds(m, s, evs, e, t0, killer);
    var b: nat :| b < 20 && Has(t, e, Drained(t0, killer, b));
    BleedCounts(t, e, t0, killer, now, b);
  }

  // ----- On time -----

  /** The last bleed tick, or the knock if there was none yet. */
  function Latest(t0: int, evs: seq<Event>): int {
    if evs == [] then t0
    else if evs[|evs| - 1].BleedTick? then evs[|evs| - 1].now else Latest(t0, evs[..|evs| - 1])
  }

  /**
   The bleed ticks come in order, the first no more than 1.5 s after the knock and each no more than that after the one
   before; anything may come between.
   */
  ghost predicate Steady(t0: int, evs: seq<Event>) {
    evs == [] ||
    var before, ev := evs[..|evs| - 1], evs[|evs| - 1];
    && Steady(t0, before)
    && (ev.BleedTick? ==> Latest(t0, before) <= ev.now <= Latest(t0, before) + BLEED_EVERY)
  }

  /** The bleeds that are due by now. */
  function BleedsBy(t0: int, now: int): nat {
    if now < t0 then 0 else (now - t0) / BLEED_EVERY
  }

  /** If e is down, he has bled as often as has come due. */
  ghost predicate OnTime(s: State, e: Entity, t0: int, killer: Entity, now: int) {
    s.LifeOf(e) == Knocked ==> BleedsBy(t0, now) < 20 && Has(s, e, Drained(t0, killer, BleedsBy(t0, now)))
  }

  lemma OneMoreBy(t0: int, before: int, now: int)
    requires t0 <= before <= now <= before + BLEED_EVERY
    ensures BleedsBy(t0, now) ==
            BleedsBy(t0, before) + if now < t0 + BLEED_EVERY * (BleedsBy(t0, before) + 1) then 0 else 1
  {
  }

  lemma TickOnTime(s: State, e: Entity, t0: int, killer: Entity, before: int, now: int)
    requires t0 <= before <= now <= before + BLEED_EVERY && OnTime(s, e, t0, killer, before) && s.LifeOf(e) == Knocked
    ensures OnTime(Bleed(s, now), e, t0, killer, now)
    ensures Bleed(s, now).LifeOf(e) == if now >= t0 + 30_000 then Dead else Knocked
  {
    var b := BleedsBy(t0, before);
    OneMoreBy(t0, before, now);
    BleedsOne(s, e, now, Drained(t0, killer, b));
    NextBleed(t0, killer, b);
  }

  lemma {:induction false} RunOnTime(m: Setup, s: State, evs: seq<Event>, e: Entity, t0: int, killer: Entity)
    requires e in m.ids && Has(s, e, Drained(t0, killer, 0)) && LeftAlone(m, s, evs, e) && Steady(t0, evs)
    ensures t0 <= Latest(t0, evs) && OnTime(RunFrom(m, s, evs), e, t0, killer, Latest(t0, evs))
    decreases |evs|
  {
    if evs != [] {
      var before, ev := evs[..|evs| - 1], evs[|evs| - 1];
      var t, at := RunFrom(m, s, before), Latest(t0, before);
      RunOnTime(m, s, before, e, t0, killer);
      if ev.BleedTick? {
        TickOnTime(t, e, t0, killer, at, ev.now);
      } else {
        StepLeaves(m, t, ev, e, Drained(t0, killer, BleedsBy(t0, at)));
      }
    }
  }

  /** The next bleed tick, at now, comes no more than 1.5 s after the one before, as they all did. */
  ghost predicate TickInTime(t0: int, evs: seq<Event>, now: int) {
    Steady(t0, evs) && Latest(t0, evs) <= now <= Latest(t0, evs) + BLEED_EVERY
  }

  /** A bleed tick at now kills e, if due has come, and leaves him down otherwise. */
  ghost predicate DiesFrom(s: State, e: Entity, now: int, due: int) {
    && (BleedKills(s, e, now) <==> now >= due)
    && (Bleed(s, now).LifeOf(e) == Knocked <==> now < due)
  }

  /**
   With bleed ticks at most 1.5 s apart and anything else between them, a knock that is neither hit nor rescued ends in
   death at its 20th bleed: at the first tick 30 s or more after it, and not before.
   */
  lemma DeadAfterThirtySeconds(m: Setup, s: State, evs: seq<Event>, e: Entity, t0: int, killer: Entity, now: int)
    requires DownSince(m, s, evs, e, t0, killer) && TickInTime(t0, evs, now)
    ensures var exactly := DiesFrom(RunFrom(m, s, evs), e, now, t0 + 30_000); exactly
  {
    RunOnTime(m, s, evs, e, t0, killer);
    TickOnTime(RunFrom(m, s, evs), e, t0, killer, Latest(t0, evs), now);
  }
}
