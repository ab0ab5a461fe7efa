/**
 What hits come to (match-server/deathmatch.go): they take off what they say, off the hit points of whoever is standing
 and off the pool of whoever is down, until there is nothing left.
 */
module Wounds {
  import opened Lives
  import opened Roster

  /** One hit on a certain player. */
  datatype Blow = Blow(attacker: Entity, dmg: nat, now: int)

  function Suffer(m: Setup, s: State, v: Entity, blows: seq<Blow>): State {
    if blows == [] then s else
    var b := blows[|blows| - 1];
    Damage(m, Suffer(m, s, v, blows[..|blows| - 1]), v, b.attacker, b.dmg, b.now)
  }

  function Total(blows: seq<Blow>): nat {
    if blows == [] then 0 else Total(blows[..|blows| - 1]) + blows[|blows| - 1].dmg
  }

  // ----- Somebody standing -----

  /** v can be hurt, and has that many hit points. */
  predicate Standing(s: State, v: Entity, hp: nat) {
    !s.roundOver && s.LifeOf(v) == Alive && v in s.hp && s.hp[v] == hp > 0
  }

  predicate Fallen(s: State, v: Entity) {
    s.LifeOf(v) != Alive
  }

  /** Somebody else of his team is up. */
  ghost predicate MateUp(m: Setup, s: State, v: Entity) {
    exists a :: a in m.ids && a != v && TeamOf(a) == TeamOf(v) && s.LifeOf(a) == Alive
  }

  /** A hit for less than the hit points there are takes off just that; one for all of them fells him. */
  lemma HitTakes(m: Setup, s: State, v: Entity, attacker: Entity, dmg: nat, now: int, hp: nat)
    requires Standing(s, v, hp)
    ensures var t := Damage(m, s, v, attacker, dmg, now);
            if dmg < hp then t == s.(hp := s.hp[v := hp - dmg]) && Standing(t, v, hp - dmg)
            else Fallen(t, v) && t.LifeOf(v) in {Knocked, Dead}
  {
  }

  /** Hits on nobody who is standing leave him so. */
  lemma StaysFallen(m: Setup, s: State, v: Entity, attacker: Entity, dmg: nat, now: int)
    requires Fallen(s, v)
    ensures Fallen(Damage(m, s, v, attacker, dmg, now), v)
  {
  }

  /** Two hits do what one with the sum of both does, whoever deals them and when, while it is less than he has. */
  lemma HitsAdd(m: Setup, s: State, v: Entity, a: Blow, b: Blow, c: Blow, hp: nat)
    requires Standing(s, v, hp) && a.dmg + b.dmg == c.dmg < hp
    ensures Damage(m, Damage(m, s, v, a.attacker, a.dmg, a.now), v, b.attacker, b.dmg, b.now)
            == Damage(m, s, v, c.attacker, c.dmg, c.now) == s.(hp := s.hp[v := hp - a.dmg - b.dmg])
  {
    HitTakes(m, s, v, a.attacker, a.dmg, a.now, hp);
    var t := s.(hp := s.hp[v := hp - a.dmg]);
    HitTakes(m, t, v, b.attacker, b.dmg, b.now, hp - a.dmg);
    assert t.hp[v := hp - a.dmg - b.dmg] == s.hp[v := hp - a.dmg - b.dmg];
  }

  /**
   After any hits on somebody standing, he has his hit points less their sum while that is positive, with nothing else
   changed; and he is down or dead from the hit on that leaves nothing.
   */
  lemma {:induction false} HitsSumUp(m: Setup, s: State, v: Entity, blows: seq<Blow>, hp: nat)
    requires Standing(s, v, hp)
    ensures var t := Suffer(m, s, v, blows);
            if Total(blows) < hp then t == s.(hp := s.hp[v := hp - Total(blows)]) && Standing(t, v, hp - Total(blows))
            else Fallen(t, v)
    decreases |blows|
  {
    if blows == [] {
      assert s.hp[v := hp] == s.hp;
    } else {
      var before, b := blows[..|blows| - 1], blows[|blows| - 1];
      var t := Suffer(m, s, v, before);
      HitsSumUp(m, s, v, before, hp);
      if Total(before) < hp {
        HitTakes(m, t, v, b.attacker, b.dmg, b.now, hp - Total(before));
        assert b.dmg < hp - Total(before) ==>
            t.hp[v := hp - Total(before) - b.dmg] == s.hp[v := hp - Total(before) - b.dmg];
      } else {
        StaysFallen(m, t, v, b.attacker, b.dmg, b.now);
      }
    }
  }

  /** Whoever is felled with somebody of his team still up is down, with a full pool, for whoever hit him; else dead. */
  lemma Felled(m: Setup, s: State, v: Entity, attacker: Entity, dmg: nat, now: int, hp: nat)
    requires m.Valid() && v in m.ids && Standing(s, v, hp) && dmg >= hp
    ensures var t := Damage(m, s, v, attacker, dmg, now);
            && (t.LifeOf(v) == Knocked <==> MateUp(m, s, v))
            && (MateUp(m, s, v) ==>
                  t == s.(life := s.life[v := Knocked], hp := s.hp[v := 200],
                          knock := s.knock[v := Knock(200, now + 1500, attacker)]))
            && (!MateUp(m, s, v) ==> t.LifeOf(v) == Dead && v in t.hp && t.hp[v] == 0)
  {
    var z := s.(hp := s.hp[v := 0]);
    var down := KnockDown(z, v, attacker, now);
    assert z.hp[v := KNOCKDOWN_HP] == s.hp[v := KNOCKDOWN_HP];
    CountIsMates(m, down, v);
    if MateUp(m, s, v) {
      var a :| a in m.ids && a != v && TeamOf(a) == TeamOf(v) && s.LifeOf(a) == Alive;
      TwoMembers(m.roster, TeamOf(v), a, v);
      assert down.LifeOf(a) == Alive;
    } else if TeamSize(m, TeamOf(v)) > 1 {
      assert !HasMate(m, down, v);
      assert v in Downed(down, TeamOf(v));
    }
  }

  // ----- Somebody down -----

  predicate Down(s: State, v: Entity, pool: nat) {
    !s.roundOver && s.LifeOf(v) == Knocked && v in s.knock && s.knock[v].hp == pool > 0
  }

  /** With that much of the pool left, shown as hit points; nothing else is changed. */
  function Drained(s: State, v: Entity, pool: nat): State
    requires v in s.knock
  {
    s.(knock := s.knock[v := s.knock[v].(hp := pool)], hp := s.hp[v := pool])
  }

  lemma HitDrains(m: Setup, s: State, v: Entity, attacker: Entity, dmg: nat, now: int, pool: nat)
    requires Down(s, v, pool)
    ensures var t := Damage(m, s, v, attacker, dmg, now);
            if dmg < pool then t == Drained(s, v, pool - dmg) && Down(t, v, pool - dmg)
            else t.LifeOf(v) == Dead
  {
  }

  lemma StaysDead(m: Setup, s: State, v: Entity, attacker: Entity, dmg: nat, now: int)
    requires s.LifeOf(v) == Dead
    ensures Damage(m, s, v, attacker, dmg, now) == s
  {
  }

  lemma DrainedTwice(s: State, v: Entity, one: nat, two: nat)
    requires v in s.knock
    ensures Drained(Drained(s, v, one), v, two) == Drained(s, v, two)
  {
    var t := Drained(s, v, one);
    assert t.knock[v := t.knock[v].(hp := two)] == s.knock[v := s.knock[v].(hp := two)];
    assert t.hp[v := two] == s.hp[v := two];
  }

  lemma DrainOn(m: Setup, s: State, v: Entity, b: Blow, left: nat)
    requires v in s.knock && Down(Drained(s, v, left), v, left)
    ensures var t := Damage(m, Drained(s, v, left), v, b.attacker, b.dmg, b.now);
            if b.dmg < left then t == Drained(s, v, left - b.dmg) && Down(t, v, left - b.dmg)
            else t.LifeOf(v) == Dead
  {
    HitDrains(m, Drained(s, v, left), v, b.attacker, b.dmg, b.now, left);
    if b.dmg < left {
      DrainedTwice(s, v, left, left - b.dmg);
    }
  }

  lemma DrainedAlready(s: State, v: Entity, pool: nat)
    requires Down(s, v, pool) && v in s.hp && s.hp[v] == pool
    ensures Drained(s, v, pool) == s
  {
    assert s.knock[v := s.knock[v].(hp := pool)] == s.knock && s.hp[v := pool] == s.hp;
  }

  /** t is what s comes to when hits of that total are taken off v's pool. */
  ghost predicate DrainedBy(s: State, t: State, v: Entity, pool: nat, total: nat) {
    v in s.knock &&
    if total < pool then t == Drained(s, v, pool - total) && Down(t, v, pool - total) else t.LifeOf(v) == Dead
  }

  lemma DrainMore(m: Setup, s: State, t: State, v: Entity, b: Blow, pool: nat, total: nat)
    requires DrainedBy(s, t, v, pool, total)
    ensures DrainedBy(s, Damage(m, t, v, b.attacker, b.dmg, b.now), v, pool, total + b.dmg)
  {
    if total < pool {
      DrainOn(m, s, v, b, pool - total);
    } else {
      StaysDead(m, t, v, b.attacker, b.dmg, b.now);
    }
  }

  /** The same for the pool: the hits come off it while anything is left, and the one that empties it ends the knock. */
  lemma {:induction false} DrainsSumUp(m: Setup, s: State, v: Entity, blows: seq<Blow>, pool: nat)
    requires Down(s, v, pool) && v in s.hp && s.hp[v] == pool
    ensures DrainedBy(s, Suffer(m, s, v, blows), v, pool, Total(blows))
    decreases |blows|
  {
    if blows == [] {
      DrainedAlready(s, v, pool);
    } else {
      DrainsSumUp(m, s, v, blows[..|blows| - 1], pool);
      DrainMore(m, s, Suffer(m, s, v, blows[..|blows| - 1]), v, blows[|blows| - 1], pool, Total(blows[..|blows| - 1]));
    }
  }

  /** Nobody is hurt after the round is decided, nor anybody dead or unknown. */
  lemma NoHarm(m: Setup, s: State, v: Entity, blows: seq<Blow>)
    requires s.roundOver || s.LifeOf(v) == Dead || (s.LifeOf(v) == Alive && (v !in s.hp || s.hp[v] == 0))
    ensures Suffer(m, s, v, blows) == s
    decreases |blows|
  {
    if blows != [] {
      NoHarm(m, s, v, blows[..|blows| - 1]);
    }
  }
}
