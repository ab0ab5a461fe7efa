/**
 How far a room may set the full hit points: for which settings everybody alive always has some, and for which nobody
 ever has more than the full ones.
 */
module Limits {
  import opened Lives
  import opened Rescues
  import opened Roster
  import opened Vitals

  // ----- Nobody alive without hit points -----

  /** A setup with somebody in it and any 16-bit number of hit points. */
  ghost predicate Settable(m: Setup) {
    m.roster.Valid() && m.ids == m.roster.Ids() && m.ids != {} && 1 <= m.maxHP < U16
  }

  /** A scratch, and one tick of energy that fills it up to exactly 2^16. */
  function Overfilled(m: Setup, e: Entity): seq<Event>
    requires m.maxHP < U16 < m.maxHP + MAX_EP
  {
    [Hit(e, 0, 1, 0), Feeding(e, U16 - m.maxHP + 1)]
  }

  lemma OverfilledAtZero(m: Setup, e: Entity)
    requires Settable(m) && m.maxHP + MAX_EP > U16 && e in m.ids
    ensures var s := Run(m, Overfilled(m, e)); s.LifeOf(e) == Alive && e in s.hp && s.hp[e] == 0
  {
    var s0 := Fresh(m);
    var s1 := s0.(hp := s0.hp[e := m.maxHP - 1]);
    assert Damage(m, s0, e, 0, 1, 0) == s1;
    assert Fed(m.maxHP - 1, U16 - m.maxHP + 1, m.maxHP) == 0;
    RunMore(m, [], Hit(e, 0, 1, 0));
    RunMore(m, [Hit(e, 0, 1, 0)], Feeding(e, U16 - m.maxHP + 1));
    assert [] + [Hit(e, 0, 1, 0)] == [Hit(e, 0, 1, 0)];
    assert [Hit(e, 0, 1, 0)] + [Feeding(e, U16 - m.maxHP + 1)] == Overfilled(m, e);
  }

  ghost predicate AlwaysSafe(m: Setup) {
    forall evs :: Safe(m, Run(m, evs))
  }

  /** The invariant of the life machine holds in every run exactly when full hit points leave 200 up to 2^16. */
  lemma SafeExactly(m: Setup)
    requires Settable(m)
    ensures AlwaysSafe(m) <==> m.maxHP + MAX_EP <= U16
  {
    if m.maxHP + MAX_EP <= U16 {
      forall evs
        ensures Safe(m, Run(m, evs))
      {
        RunSafe(m, evs);
      }
    } else {
      var e :| e in m.ids;
      OverfilledAtZero(m, e);
      assert !Agrees(m, Run(m, Overfilled(m, e)), e);
      assert !Safe(m, Run(m, Overfilled(m, e)));
    }
  }

  // ----- Nobody above full hit points -----

  /** Everybody alive is within full hit points. */
  ghost predicate Within(m: Setup, s: State) {
    forall e :: e in s.hp && s.LifeOf(e) == Alive ==> s.hp[e] <= m.maxHP
  }

  ghost predicate AlwaysWithin(m: Setup) {
    forall evs :: Within(m, Run(m, evs))
  }

  /** No team has two members, so that nobody is ever down. */
  ghost predicate Alone(m: Setup) {
    forall a, b :: a in m.ids && b in m.ids && TeamOf(a) == TeamOf(b) ==> a == b
  }

  lemma DownHasMate(m: Setup, s: State, e: Entity)
    requires Safe(m, s)
    ensures s.LifeOf(e) == Knocked ==> e in m.ids && HasMate(m, s, e)
  {
    assert e in m.ids ==> Agrees(m, s, e);
  }

  lemma AloneNoMate(m: Setup, s: State, e: Entity)
    requires Alone(m)
    ensures e in m.ids && HasMate(m, s, e) ==> s.LifeOf(e) == Alive
  {
  }

  /** Nobody is down. */
  ghost predicate NobodyDown(s: State) {
    s.knock == map[] && forall e :: s.LifeOf(e) != Knocked
  }

  lemma AloneNeverDown(m: Setup, evs: seq<Event>)
    requires m.Valid() && Alone(m)
    ensures NobodyDown(Run(m, evs))
  {
    var s := Run(m, evs);
    RunSafe(m, evs);
    forall e
      ensures s.LifeOf(e) != Knocked
    {
      DownHasMate(m, s, e);
      AloneNoMate(m, s, e);
    }
    forall e | e in m.ids
      ensures e !in s.knock
    {
      assert Agrees(m, s, e);
    }
  }

  lemma RescueNobodyDown(s: State, order: seq<Entity>, now: int)
    requires forall e :: s.LifeOf(e) != Knocked
    ensures RescueAll(s, order, now).hp == s.hp && RescueAll(s, order, now).life == s.life
    decreases |order|
  {
    if order != [] {
      var before, last := order[..|order| - 1], order[|order| - 1];
      RescueNobodyDown(s, before, now);
      assert RescueAll(s, before, now).LifeOf(last) == s.LifeOf(last);
    }
  }

  lemma DamageWithin(m: Setup, s: State, victim: Entity, attacker: Entity, dmg: nat, now: int)
    requires Within(m, s)
    ensures Within(m, Damage(m, s, victim, attacker, dmg, now))
  {
  }

  /** Only a rescue can take somebody above full hit points. */
  lemma StepWithin(m: Setup, s: State, ev: Event)
    requires m.maxHP + MAX_EP <= U16 && Within(m, s) && NobodyDown(s)
    ensures Within(m, Step(m, s, ev))
  {
    match ev
    case Hit(victim, attacker, dmg, now) => DamageWithin(m, s, victim, attacker, dmg, now);
    case RescueTick(order, now) => RescueNobodyDown(s, order, now);
    case Feeding(e, gain) =>
      if e in s.hp && s.hp[e] < m.maxHP {
        NoWrap(s.hp[e], gain, m.maxHP);
      }
    case _ =>
  }

  lemma {:induction false} AloneWithin(m: Setup, evs: seq<Event>)
    requires m.Valid() && Alone(m)
    ensures Within(m, Run(m, evs))
    decreases |evs|
  {
    if evs != [] {
      AloneWithin(m, evs[..|evs| - 1]);
      AloneNeverDown(m, evs[..|evs| - 1]);
      StepWithin(m, Run(m, evs[..|evs| - 1]), evs[|evs| - 1]);
    }
  }

  lemma EnoughWithin(m: Setup, evs: seq<Event>)
    requires m.Valid() && m.maxHP >= REVIVE_HP
    ensures Within(m, Run(m, evs))
  {
    var s := Run(m, evs);
    RunSafe(m, evs);
    forall e | e in s.hp && s.LifeOf(e) == Alive
      ensures s.hp[e] <= m.maxHP
    {
      assert Agrees(m, s, e);
    }
  }

  /** One goes down and a teammate revives him. */
  function OneRevive(m: Setup, a: Entity, b: Entity): seq<Event> {
    [Hit(b, 0, m.maxHP, 0), Begin(a, b, 0), RescueTick([b], REVIVE_DURATION)]
  }

  lemma RevivedAbove(m: Setup, a: Entity, b: Entity)
    requires m.Valid() && a in m.ids && b in m.ids && a != b && TeamOf(a) == TeamOf(b)
    ensures var s := Run(m, OneRevive(m, a, b)); s.LifeOf(b) == Alive && b in s.hp && s.hp[b] == REVIVE_HP
  {
    var s0 := Fresh(m);
    KnockedDown(m, s0, b, a, 0);
    var s1 := KnockDown(s0, b, 0, 0);
    var s2 := s1.(rescues := s1.rescues[b := Rescue(a, b, REVIVE_DURATION)]);
    assert Lives.StartRescue(s1, a, b, 0) == s2;
    assert [b][..0] == [] && RescueAll(s2, [b], REVIVE_DURATION) == RescueOne(s2, b, REVIVE_DURATION);
    RunThree(m, Hit(b, 0, m.maxHP, 0), Begin(a, b, 0), RescueTick([b], REVIVE_DURATION));
  }

  lemma RunThree(m: Setup, x: Event, y: Event, z: Event)
    ensures Run(m, [x, y, z]) == Step(m, Step(m, Step(m, Fresh(m), x), y), z)
  {
    RunMore(m, [], x);
    RunMore(m, [x], y);
    RunMore(m, [x, y], z);
    assert [] + [x] == [x] && [x] + [y] == [x, y] && [x, y] + [z] == [x, y, z];
  }

  /**
   Everybody alive is within full hit points after every run exactly when full hit points are at least those that a
   revive gives, or nobody has a teammate to be revived by.
   */
  lemma WithinFullExactly(m: Setup)
    requires m.Valid()
    ensures AlwaysWithin(m) <==> m.maxHP >= REVIVE_HP || Alone(m)
  {
    if m.maxHP >= REVIVE_HP || Alone(m) {
      forall evs
        ensures Within(m, Run(m, evs))
      {
        if m.maxHP >= REVIVE_HP {
          EnoughWithin(m, evs);
        } else {
          AloneWithin(m, evs);
        }
      }
    } else {
      var a, b :| a in m.ids && b in m.ids && TeamOf(a) == TeamOf(b) && a != b;
      RevivedAbove(m, a, b);
      assert !Within(m, Run(m, OneRevive(m, a, b)));
    }
  }
}
