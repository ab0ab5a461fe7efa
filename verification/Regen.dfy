/**
 Hit points over time: the medkit (match-server/medkit.go) and the mushroom's energy (match-server/ep.go). Times are
 nanoseconds.
 */
module Regen {
  import opened Bytes
  import opened Vitals
  import Lives
  import Roster

  const MEDKIT_INTERVAL := 66_666_666
  const EP_PER_MUSHROOM := 100
  const EP_INTERVAL := 250_000_000

  // ----- The medkit -----

  datatype Heal = Heal(hp: nat, active: bool, start: int, applied: nat)

  /** How many of the steps have come due. Before the start it is none, as Go's division would have it. */
  function Due(start: int, now: int): nat {
    var n := if now < start then 0 else (now - start) / MEDKIT_INTERVAL;
    if n > MEDKIT_STEPS then MEDKIT_STEPS else n
  }

  /** A heal of which want steps have come due. */
  function Healed(h: Heal, maxHP: nat, want: nat): Heal {
    var hp := if want > h.applied then Topped(h.hp, want - h.applied, maxHP) else h.hp;
    var applied := if want > h.applied then want else h.applied;
    Heal(hp, applied < MEDKIT_STEPS && hp < maxHP, h.start, applied)
  }

  /** stepHeal. */
  function HealTick(h: Heal, maxHP: nat, alive: bool, now: int): Heal {
    if !h.active then h
    else if !alive then h.(active := false)
    else Healed(h, maxHP, Due(h.start, now))
  }

  lemma DueGrows(start: int, t1: int, t2: int)
    requires t1 <= t2
    ensures Due(start, t1) <= Due(start, t2)
  {
    if start <= t1 {
      DivGrows(t1 - start, t2 - start, MEDKIT_INTERVAL);
    }
  }

  lemma DivGrows(a: nat, b: nat, m: nat)
    requires a <= b && m > 0
    ensures a / m <= b / m
  {
    if a / m > b / m {
      MulMonotone(m, b / m + 1, a / m);
    }
  }

  /** Two ticks do what one tick at the later time does. */
  ghost predicate Splits(h: Heal, maxHP: nat, t1: int, t2: int) {
    HealTick(HealTick(h, maxHP, true, t1), maxHP, true, t2).hp == HealTick(h, maxHP, true, t2).hp
  }

  /** So they do for a player within full hit points, as long as 75 more fit; and the heal goes on or ends alike. */
  lemma HealSplits(h: Heal, maxHP: nat, t1: int, t2: int)
    requires t1 <= t2 && h.hp <= maxHP && maxHP + MEDKIT_STEPS < U16
    ensures Splits(h, maxHP, t1, t2)
    ensures HealTick(HealTick(h, maxHP, true, t1), maxHP, true, t2).active == HealTick(h, maxHP, true, t2).active
  {
    DueGrows(h.start, t1, t2);
    HealedTwice(h, maxHP, Due(h.start, t1), Due(h.start, t2));
  }

  lemma HealedTwice(h: Heal, maxHP: nat, d1: nat, d2: nat)
    requires d1 <= d2 <= MEDKIT_STEPS && h.hp <= maxHP && maxHP + MEDKIT_STEPS < U16
    ensures var first, once := Healed(h, maxHP, d1), Healed(h, maxHP, d2);
            var twice := if first.active then Healed(first, maxHP, d2) else first;
            twice.hp == once.hp && twice.active == once.active
  {
    if d1 > h.applied {
      ToppedTwice(h.hp, d1 - h.applied, d2 - d1, maxHP);
    }
  }

  lemma ToppedTwice(hp: nat, a: nat, b: nat, maxHP: nat)
    requires hp <= maxHP && a + b <= MEDKIT_STEPS && maxHP + MEDKIT_STEPS < U16
    ensures Topped(Topped(hp, a, maxHP), b, maxHP) == Topped(hp, a + b, maxHP)
    ensures Topped(hp, a, maxHP) == maxHP ==> Topped(hp, a + b, maxHP) == maxHP
    ensures b == 0 ==> Topped(Topped(hp, a, maxHP), b, maxHP) == Topped(hp, a, maxHP)
  {
    NoWrap(hp, a, maxHP);
    NoWrap(Topped(hp, a, maxHP), b, maxHP);
    NoWrap(hp, a + b, maxHP);
  }

  /** Ticks of the heal of somebody who stays up and unhurt. */
  function HealRun(h: Heal, maxHP: nat, times: seq<int>): Heal {
    if times == [] then h else HealTick(HealRun(h, maxHP, times[..|times| - 1]), maxHP, true, times[|times| - 1])
  }

  /** How far a heal has come by now: a hit point for each 66.666666 ms, 75 in all. */
  function Steady(start: int, now: int): nat {
    if now < start then 0 else Min((now - start) / 66_666_666, 75)
  }

  /** The heal has come as far as it can, or goes on from where it should be. */
  ghost predicate HealedTo(h: Heal, maxHP: nat, hp: nat, start: int, steps: nat) {
    && h.hp == Min(hp + steps, maxHP) && h.start == start
    && if h.active then h.applied == steps else steps == 75 || h.hp == maxHP
  }

  lemma HealOn(h: Heal, maxHP: nat, hp: nat, start: int, before: int, now: int)
    requires HealedTo(h, maxHP, hp, start, Steady(start, before)) && before <= now
    requires hp <= maxHP && maxHP + 75 < 0x1_0000
    ensures HealedTo(HealTick(h, maxHP, true, now), maxHP, hp, start, Steady(start, now))
  {
    DueGrows(start, before, now);
    if h.active && Steady(start, now) > h.applied {
      NoWrap(h.hp, Steady(start, now) - h.applied, maxHP);
    }
  }

  /**
   Whenever the ticks come, a medkit used at start has given a hit point for each 66.666666 ms by the last of them, 75
   in all, as far as there is room; so somebody who is not hit for 5 s gets all of it.
   */
  lemma {:induction false} HealsInAll(hp: nat, maxHP: nat, start: int, times: seq<int>)
    requires hp <= maxHP && maxHP + 75 < 0x1_0000
    requires forall i, j :: 0 <= i < j < |times| ==> times[i] <= times[j]
    ensures var now := if times == [] then start else times[|times| - 1];
            HealedTo(HealRun(Heal(hp, true, start, 0), maxHP, times), maxHP, hp, start, Steady(start, now))
    decreases |times|
  {
    if times != [] {
      var before := times[..|times| - 1];
      HealsInAll(hp, maxHP, start, before);
      if before == [] {
        HealOn(Heal(hp, true, start, 0), maxHP, hp, start, Earlier(start, times[0]), times[0]);
      } else {
        HealOn(HealRun(Heal(hp, true, start, 0), maxHP, before), maxHP, hp, start, before[|before| - 1],
               times[|times| - 1]);
      }
    }
  }

  function Earlier(a: int, b: int): int {
    if a < b then a else b
  }

  /** A heal of somebody who is down at a tick is over for good, even if he is up again. */
  lemma {:induction false} DownEndsHeal(h: Heal, maxHP: nat, t: int, times: seq<int>)
    ensures HealRun(HealTick(h, maxHP, false, t), maxHP, times).hp == h.hp
    ensures !HealRun(HealTick(h, maxHP, false, t), maxHP, times).active
    decreases |times|
  {
    if times != [] {
      DownEndsHeal(h, maxHP, t, times[..|times| - 1]);
    }
  }

  /**
   For a player revived above full hit points they do exactly if the heal is over, or the first tick already brings a
   step, or not even the second does: a tick without a step ends the heal, a step takes him down to full hit points.
   */
  lemma HealSplitsAbove(h: Heal, maxHP: nat, t1: int, t2: int)
    requires t1 <= t2 && maxHP < h.hp && h.hp + MEDKIT_STEPS < U16
    ensures Splits(h, maxHP, t1, t2) <==> !h.active || Due(h.start, t1) > h.applied || Due(h.start, t2) <= h.applied
  {
    DueGrows(h.start, t1, t2);
    assert Due(h.start, t1) <= MEDKIT_STEPS && Due(h.start, t2) <= MEDKIT_STEPS;
  }

  /** In a room of 1 hit point, a player just revived keeps his 20 or drops to 1, depending on when the ticks come. */
  lemma OneHitPoint()
    ensures var h := Heal(REVIVE_HP, true, 0, 0);
            var t1, t2 := 50_000_000, 100_000_000;
            && HealTick(HealTick(h, 1, true, t1), 1, true, t2).hp == REVIVE_HP && HealTick(h, 1, true, t2).hp == 1
  {
    assert Due(0, 50_000_000) == 0 && Due(0, 100_000_000) == 1;
  }

  /** For every heal of whatever hit points somebody alive can have. */
  ghost predicate AlwaysSplits(maxHP: nat) {
    forall h: Heal, t1: int, t2: int :: t1 <= t2 && h.hp <= Cap(maxHP) ==> Splits(h, maxHP, t1, t2)
  }

  /**
   The law holds for every heal of any hit points that somebody alive can have, exactly when full hit points are no
   fewer than a revive gives and leave 75 to spare.
   */
  lemma HealSplitsExactly(maxHP: nat)
    requires 0 < maxHP < U16
    ensures AlwaysSplits(maxHP) <==> 20 <= maxHP && maxHP + 75 < 0x1_0000
  {
    if maxHP < REVIVE_HP {
      var h := Heal(REVIVE_HP, true, 0, 0);
      assert Due(0, 0) == 0 && Due(0, MEDKIT_INTERVAL) == 1;
      HealSplitsAbove(h, maxHP, 0, MEDKIT_INTERVAL);
      assert !Splits(h, maxHP, 0, MEDKIT_INTERVAL);
    } else if maxHP + MEDKIT_STEPS < U16 {
      forall h: Heal, t1: int, t2: int | t1 <= t2 && h.hp <= Cap(maxHP)
        ensures Splits(h, maxHP, t1, t2)
      {
        HealSplits(h, maxHP, t1, t2);
      }
    } else {
      HealWraps(maxHP);
      assert !Splits(Heal(maxHP, true, 0, 0), maxHP, 0, (U16 - maxHP) * MEDKIT_INTERVAL);
    }
  }

  /** Close to the 16-bit limit, a medkit used at full hit points can take a player down to almost none in one tick. */
  lemma HealWraps(maxHP: nat)
    requires 0 < maxHP < U16 && maxHP + MEDKIT_STEPS >= U16
    ensures var h := Heal(maxHP, true, 0, 0);
            var t1, t2 := 0, (U16 - maxHP) * MEDKIT_INTERVAL;
            && t1 <= t2 && HealTick(h, maxHP, true, t2).hp == 0
            && HealTick(HealTick(h, maxHP, true, t1), maxHP, true, t2).hp == maxHP
  {
    var n := U16 - maxHP;
    DivModUnique(n * MEDKIT_INTERVAL, MEDKIT_INTERVAL, n, 0);
    assert Due(0, n * MEDKIT_INTERVAL) == n;
    assert Due(0, 0) == 0;
  }

  // ----- The mushroom -----

  datatype Energy = Energy(hp: nat, ep: nat, last: int)

  function Steps(last: int, now: int): nat {
    if now < last then 0 else (now - last) / EP_INTERVAL
  }

  /** The number of steps goes through 16 bits, then the energy and the room to full hit points limit it. */
  function Gain(e: Energy, maxHP: nat, steps: nat): (gain: nat)
    requires e.hp <= maxHP
    ensures gain <= e.ep
  {
    var g := if steps % U16 > e.ep then e.ep else steps % U16;
    if (e.hp + g) % U16 > maxHP then maxHP - e.hp else g
  }

  /** stepEP. While there is nothing to heal, the clock stays at now. */
  function EnergyTick(e: Energy, maxHP: nat, alive: bool, now: int): Energy {
    if e.ep == 0 then e
    else if !alive || e.hp == 0 || e.hp >= maxHP then e.(last := now)
    else if Steps(e.last, now) == 0 then e
    else
      var steps := Steps(e.last, now);
      var gain := Gain(e, maxHP, steps);
      Energy((e.hp + gain) % U16, e.ep - gain, e.last + steps * EP_INTERVAL)
  }

  /** grantMushroom. */
  function Grant(e: Energy, now: int): Energy {
    e.(ep := if e.ep + EP_PER_MUSHROOM > MAX_EP then MAX_EP else e.ep + EP_PER_MUSHROOM, last := now)
  }

  function Min(a: nat, b: nat): nat {
    if a < b then a else b
  }

  ghost predicate Fits(e: Energy, maxHP: nat) {
    e.ep <= MAX_EP && maxHP + MAX_EP <= U16
  }

  /** The tick has something to heal and to heal it with. */
  predicate Healing(e: Energy, maxHP: nat, alive: bool) {
    e.ep > 0 && alive && 0 < e.hp < maxHP
  }

  /** Energy turned into hit points one for one, and never past full; whoever is past full keeps what he has. */
  ghost predicate Turned(e: Energy, maxHP: nat, f: Energy) {
    f.hp + f.ep == e.hp + e.ep && e.hp <= f.hp && (f.hp <= maxHP || f.hp == e.hp)
  }

  /** That law holds of a tick exactly when the hit points, before they are capped at full, fit 16 bits. */
  lemma OneForOneExactly(e: Energy, maxHP: nat, alive: bool, now: int)
    requires maxHP < U16 && e.ep <= MAX_EP
    ensures var law := Turned(e, maxHP, EnergyTick(e, maxHP, alive, now));
            law <==> !Healing(e, maxHP, alive) || e.hp + Min(e.ep, Steps(e.last, now) % U16) < U16
  {
    var g := Min(e.ep, Steps(e.last, now) % U16);
    if Healing(e, maxHP, alive) && e.hp + g >= U16 {
      assert (e.hp + g) % U16 == e.hp + g - U16;
    }
  }

  /** So it holds of every tick exactly when full hit points leave the most energy there is to spare. */
  lemma OneForOneAlways(maxHP: nat)
    requires maxHP < U16
    ensures (forall e: Energy, alive: bool, now: int :: e.ep <= MAX_EP ==>
               Turned(e, maxHP, EnergyTick(e, maxHP, alive, now)))
            <==> maxHP + MAX_EP <= U16
  {
    if maxHP + MAX_EP <= U16 {
      forall e: Energy, alive: bool, now: int | e.ep <= MAX_EP
        ensures Turned(e, maxHP, EnergyTick(e, maxHP, alive, now))
      {
        OneForOneExactly(e, maxHP, alive, now);
      }
    } else {
      var e := Energy(maxHP - 1, MAX_EP, 0);
      assert Steps(0, MAX_EP * EP_INTERVAL) == MAX_EP;
      OneForOneExactly(e, maxHP, true, MAX_EP * EP_INTERVAL);
      assert !Turned(e, maxHP, EnergyTick(e, maxHP, true, MAX_EP * EP_INTERVAL));
    }
  }

  /** Energy turns into hit points one for one, and never past full. */
  lemma OneForOne(e: Energy, maxHP: nat, alive: bool, now: int)
    requires Fits(e, maxHP)
    ensures var f := EnergyTick(e, maxHP, alive, now);
            Turned(e, maxHP, f) && Fits(f, maxHP)
  {
  }

  lemma GainIs(e: Energy, maxHP: nat, steps: nat)
    requires Fits(e, maxHP) && e.hp < maxHP
    ensures Gain(e, maxHP, steps) == Min(steps % U16, Min(e.ep, maxHP - e.hp))
  {
  }

  /**
   A tick gives one hit point for each 250 ms since the last, as far as energy and room allow, exactly when the number
   of steps does not lose anything that matters to its 16 bits.
   */
  lemma GainExact(e: Energy, maxHP: nat, now: int)
    requires Fits(e, maxHP) && e.ep > 0 && 0 < e.hp < maxHP
    ensures var steps := if now < e.last then 0 else (now - e.last) / 250_000_000;
            var room := Min(e.ep, maxHP - e.hp);
            EnergyTick(e, maxHP, true, now).hp == e.hp + Min(steps, room) <==>
            steps < 0x1_0000 || steps % 0x1_0000 >= room
  {
    GainIs(e, maxHP, Steps(e.last, now));
    if Steps(e.last, now) < U16 {
      assert Steps(e.last, now) % U16 == Steps(e.last, now);
    }
  }

  /**
   Two ticks do what one tick at the later time does, exactly when the 16 bits for the number of steps do not lose
   something that matters: no wrap between the ticks, or room enough for no more anyway.
   */
  lemma EnergySplits(e: Energy, maxHP: nat, t1: int, t2: int)
    requires Fits(e, maxHP) && e.last <= t1 <= t2
    ensures var once := EnergyTick(e, maxHP, true, t2);
            var twice := EnergyTick(EnergyTick(e, maxHP, true, t1), maxHP, true, t2);
            var n1, n := Steps(e.last, t1) % U16, Steps(e.last, t2) % U16;
            twice.hp == once.hp && twice.ep == once.ep <==>
            e.hp == 0 || e.hp >= maxHP || n1 <= n || n >= Min(e.ep, maxHP - e.hp)
  {
    if e.ep > 0 && 0 < e.hp < maxHP {
      var n1, n := Steps(e.last, t1), Steps(e.last, t2);
      StepsApart(e.last, t1, t2);
      ModApart(n1, n, U16);
      EnergyTwice(e, maxHP, t1, t2, n1 % U16, n % U16, (n - n1) % U16);
    }
  }

  lemma ModApart(a: nat, b: nat, m: nat)
    requires a <= b && m > 0
    ensures (b - a) % m == b % m - a % m + if a % m <= b % m then 0 else m
  {
    var q := b / m - a / m;
    assert b - a == m * q + (b % m - a % m);
    DivGrows(a, b, m);
    if a % m <= b % m {
      DivModUnique(b - a, m, q, b % m - a % m);
    } else {
      assert b - a == m * q + (b % m - a % m) && q >= 0;
      assert q != 0;
      assert m * q == m * (q - 1) + m;
      DivModUnique(b - a, m, q - 1, b % m - a % m + m);
    }
  }

  /** What a tick gives, n being its steps in 16 bits. */
  lemma TickGives(e: Energy, maxHP: nat, t: int, n: nat)
    requires Fits(e, maxHP) && 0 < e.hp <= maxHP && n == Steps(e.last, t) % U16
    ensures var f, gain := EnergyTick(e, maxHP, true, t), Min(n, Min(e.ep, maxHP - e.hp));
            f.hp == e.hp + gain && f.ep == e.ep - gain
  {
    if e.hp < maxHP {
      GainIs(e, maxHP, Steps(e.last, t));
    }
  }

  lemma EnergyTwice(e: Energy, maxHP: nat, t1: int, t2: int, n1: nat, n: nat, more: nat)
    requires Fits(e, maxHP) && e.ep > 0 && 0 < e.hp < maxHP
    requires n1 == Steps(e.last, t1) % U16 && n == Steps(e.last, t2) % U16
    requires more == Steps(e.last + Steps(e.last, t1) * EP_INTERVAL, t2) % U16
    requires more == n - n1 + if n1 <= n then 0 else U16
    ensures var once := EnergyTick(e, maxHP, true, t2);
            var twice := EnergyTick(EnergyTick(e, maxHP, true, t1), maxHP, true, t2);
            twice.hp == once.hp && twice.ep == once.ep <==> n1 <= n || n >= Min(e.ep, maxHP - e.hp)
  {
    var mid := EnergyTick(e, maxHP, true, t1);
    assert mid.last == e.last + Steps(e.last, t1) * EP_INTERVAL;
    OneForOne(e, maxHP, true, t1);
    TickGives(e, maxHP, t1, n1);
    TickGives(e, maxHP, t2, n);
    TickGives(mid, maxHP, t2, more);
    TwiceOrOnce(n1, n, more, e.ep, maxHP - e.hp);
  }

  lemma TwiceOrOnce(n1: nat, n: nat, more: nat, ep: nat, room: nat)
    requires ep <= MAX_EP && more == n - n1 + (if n1 <= n then 0 else U16) && n1 < U16 && n < U16
    ensures var g := Min(n1, Min(ep, room));
            g + Min(more, Min(ep - g, room - g)) == Min(n, Min(ep, room)) <==> n1 <= n || n >= Min(ep, room)
  {
  }

  /** The steps after the first tick's are those that are left. */
  lemma StepsApart(last: int, t1: int, t2: int)
    requires last <= t1 <= t2
    ensures Steps(last, t1) <= Steps(last, t2)
    ensures Steps(last + Steps(last, t1) * EP_INTERVAL, t2) == Steps(last, t2) - Steps(last, t1)
  {
    var a, b := t1 - last, t2 - last;
    var q1, q2, r2 := a / EP_INTERVAL, b / EP_INTERVAL, b % EP_INTERVAL;
    DivGrows(a, b, EP_INTERVAL);
    DivModUnique(b - q1 * EP_INTERVAL, EP_INTERVAL, q2 - q1, r2);
  }

  // ----- Over any run -----

  /** A tick finds the player with some hit points, whatever happened to them since; a mushroom may come between. */
  datatype Moment = Tick(now: int, alive: bool, hp: nat) | Mushroom(now: int)

  function Pass(e: Energy, maxHP: nat, m: Moment): Energy {
    match m
    case Tick(now, alive, hp) => EnergyTick(e.(hp := hp), maxHP, alive, now)
    case Mushroom(now) => Grant(e, now)
  }

  function RunEP(e: Energy, maxHP: nat, ms: seq<Moment>): Energy {
    if ms == [] then e else Pass(RunEP(e, maxHP, ms[..|ms| - 1]), maxHP, ms[|ms| - 1])
  }

  /** Mushrooms one after the other give 100 each, up to 200 in all. */
  lemma {:induction false} MushroomsFill(e: Energy, maxHP: nat, ms: seq<Moment>)
    requires e.ep <= 200 && forall i :: 0 <= i < |ms| ==> ms[i].Mushroom?
    ensures RunEP(e, maxHP, ms).ep == Min(200, e.ep + 100 * |ms|) && RunEP(e, maxHP, ms).hp == e.hp
    decreases |ms|
  {
    if ms != [] {
      MushroomsFill(e, maxHP, ms[..|ms| - 1]);
    }
  }

  /** The hit points that the ticks gave. */
  function Gained(e: Energy, maxHP: nat, ms: seq<Moment>): int {
    if ms == [] then 0 else
    var m := ms[|ms| - 1];
    Gained(e, maxHP, ms[..|ms| - 1]) + if m.Tick? then RunEP(e, maxHP, ms).hp - m.hp else 0
  }

  ghost predicate Regular(e: Energy, ms: seq<Moment>) {
    && (forall i :: 0 <= i < |ms| ==> e.last <= ms[i].now)
    && (forall i, j :: 0 <= i < j < |ms| ==> ms[i].now <= ms[j].now)
  }

  lemma PassTakesTime(e: Energy, maxHP: nat, now: int, alive: bool)
    requires Fits(e, maxHP) && e.last <= now
    ensures var f := EnergyTick(e, maxHP, alive, now);
            && e.last <= f.last <= now && (f.hp - e.hp) * EP_INTERVAL <= f.last - e.last
            && (e.hp >= maxHP && e.ep > 0 ==> f.last == now)
  {
    if e.ep > 0 && alive && 0 < e.hp < maxHP {
      var n := Steps(e.last, now);
      GainIs(e, maxHP, n);
      assert now - e.last == EP_INTERVAL * n + (now - e.last) % EP_INTERVAL;
      assert Gain(e, maxHP, n) <= n % U16 <= n;
    }
  }

  lemma {:induction false} GainTakesTime(e: Energy, maxHP: nat, ms: seq<Moment>)
    requires Fits(e, maxHP) && Regular(e, ms)
    ensures var f := RunEP(e, maxHP, ms);
            && Fits(f, maxHP) && e.last <= f.last && (ms != [] ==> f.last <= ms[|ms| - 1].now)
            && Gained(e, maxHP, ms) * EP_INTERVAL <= f.last - e.last
    decreases |ms|
  {
    if ms != [] {
      var before, m := ms[..|ms| - 1], ms[|ms| - 1];
      GainTakesTime(e, maxHP, before);
      var f := RunEP(e, maxHP, before);
      assert before != [] ==> before[|before| - 1].now <= m.now;
      if m.Tick? {
        OneForOne(f.(hp := m.hp), maxHP, m.alive, m.now);
        PassTakesTime(f.(hp := m.hp), maxHP, m.now, m.alive);
      }
    }
  }

  /** Whatever the ticks, the damage and the mushrooms, energy gives at most one hit point for each 250 ms elapsed. */
  lemma GainBounded(e: Energy, maxHP: nat, ms: seq<Moment>)
    requires Fits(e, maxHP) && Regular(e, ms) && ms != []
    ensures Gained(e, maxHP, ms) <= (ms[|ms| - 1].now - e.last) / 250_000_000
  {
    GainTakesTime(e, maxHP, ms);
  }

  /** Time spent at full hit points is not banked: from such a tick on, the clock starts anew. */
  lemma NothingBanked(e: Energy, maxHP: nat, t: int, alive: bool, hp: nat, later: int)
    requires Fits(e, maxHP) && e.ep > 0 && e.hp >= maxHP && e.last <= t <= later
    ensures var f := EnergyTick(e, maxHP, alive, t).(hp := hp);
            EnergyTick(f, maxHP, true, later).hp - hp <= (later - t) / 250_000_000
  {
    var f := EnergyTick(e, maxHP, alive, t).(hp := hp);
    assert f.last == t;
    if hp < maxHP {
      GainIs(f, maxHP, Steps(t, later));
    }
  }

  /** A mushroom starts the clock anew: nothing is owed for the time before it. */
  lemma MushroomStartsAnew(e: Energy, maxHP: nat, t: int, later: int)
    requires Fits(e, maxHP) && t <= later
    ensures EnergyTick(Grant(e, t), maxHP, true, later).hp - e.hp <= (later - t) / 250_000_000
  {
    var f := Grant(e, t);
    if f.ep > 0 && 0 < f.hp < maxHP {
      GainIs(f, maxHP, Steps(t, later));
    }
  }

  // ----- The match's hit points -----

  /**
   What a heal tick does to the match's hit points is one treatment of Lives with the steps that have come due, or
   nothing.
   */
  lemma HealTickIsTreat(m: Lives.Setup, s: Lives.State, e: Roster.Entity, h: Heal, now: int)
    requires e in s.hp && h.hp == s.hp[e]
    ensures var f := HealTick(h, m.maxHP, s.LifeOf(e) == Lives.Alive, now);
            var t := s.(hp := s.hp[e := f.hp]);
            var steps := Due(h.start, now) - h.applied;
            if h.active && steps > 0 then t == Lives.Treat(m, s, e, steps) else t == s
  {
    assert s.hp[e := s.hp[e]] == s.hp;
  }

  /** What an energy tick does to them is one feeding with the energy that its steps turn, or nothing. */
  lemma EnergyTickIsFeed(m: Lives.Setup, s: Lives.State, e: Roster.Entity, b: Energy, now: int)
    requires e in s.hp && b.hp == s.hp[e] && b.ep <= MAX_EP
    ensures var f := EnergyTick(b, m.maxHP, s.LifeOf(e) == Lives.Alive, now);
            var t := s.(hp := s.hp[e := f.hp]);
            if b.ep > 0 && Steps(b.last, now) > 0 then
              t == Lives.Feed(m, s, e, Min(b.ep, Steps(b.last, now) % U16))
            else t == s
  {
    assert s.hp[e := s.hp[e]] == s.hp;
  }

  // ----- The Go code -----

  /** A player's heal and energy fields, and his entry in the match's hp map. */
  class Body {
    const maxHP: u16

    var hp: u16
    var healActive: bool
    var healStart: int
    var healApplied: nat
    var ep: nat
    var epLast: int
    var mushrooms: nat

    constructor (maxHP: u16)
      ensures this.maxHP == hp == maxHP && !healActive && ep == 0 && mushrooms == 0
    {
      this.maxHP, hp := maxHP, maxHP;
      healActive, healStart, healApplied := false, 0, 0;
      ep, epLast, mushrooms := 0, 0, 0;
    }

    function Healing(): Heal
      reads this
    {
      Heal(hp, healActive, healStart, healApplied)
    }

    function Store(): Energy
      reads this
    {
      Energy(hp, ep, epLast)
    }

    /** handleUseInventory for a medkit: the heal starts over. */
    method UseMedkit(now: int)
      modifies this`healActive, this`healStart, this`healApplied
      ensures Healing() == Heal(hp, true, now, 0)
    {
      healActive, healStart, healApplied := true, now, 0;
    }

    method StepHeal(alive: bool, now: int)
      modifies this`hp, this`healActive, this`healApplied
      ensures Healing() == HealTick(old(Healing()), maxHP, alive, now)
    {
      if !healActive {
        return;
      }
      if !alive {
        healActive := false;
        return;
      }
      var h := hp;
      var want := if now < healStart then 0 else (now - healStart) / MEDKIT_INTERVAL;
      if want > MEDKIT_STEPS {
        want := MEDKIT_STEPS;
      }
      if want > healApplied {
        h := (h + (want - healApplied)) % U16;
        if h > maxHP {
          h := maxHP;
        }
        hp := h;
        healApplied := want;
      }
      if healApplied >= MEDKIT_STEPS || h >= maxHP {
        healActive := false;
      }
    }

    method GrantMushroom(now: int)
      modifies this`ep, this`epLast, this`mushrooms
      ensures Store() == Grant(old(Store()), now) && mushrooms == old(mushrooms) + 1
    {
      mushrooms := mushrooms + 1;
      ep := ep + EP_PER_MUSHROOM;
      if ep > MAX_EP {
        ep := MAX_EP;
      }
      epLast := now;
    }

    method StepEP(alive: bool, now: int)
      modifies this`hp, this`ep, this`epLast
      ensures Store() == EnergyTick(old(Store()), maxHP, alive, now)
      ensures Fits(old(Store()), maxHP) ==> Fits(Store(), maxHP)
    {
      if ep == 0 {
        return;
      }
      if !alive || hp == 0 || hp >= maxHP {
        epLast := now;
        return;
      }
      var steps := if now < epLast then 0 else (now - epLast) / EP_INTERVAL;
      if steps <= 0 {
        return;
      }
      epLast := epLast + steps * EP_INTERVAL;
      var gain := steps % U16;
      if gain > ep {
        gain := ep;
      }
      if (hp + gain) % U16 > maxHP {
        gain := maxHP - hp;
      }
      if gain == 0 {
        return;
      }
      hp := (hp + gain) % U16;
      ep := ep - gain;
    }

    method ResetEP()
      modifies this`ep, this`mushrooms
      ensures ep == 0 && mushrooms == 0
    {
      ep, mushrooms := 0, 0;
    }
  }
}
