/**
 Who is alive, knocked or dead: the transitions of match-server/deathmatch.go on the hp, life, knock and rescues
 maps, as functions of the whole state. DeathMatch.dfy shows that the Go methods compute them, in whatever order
 the maps are iterated.
 */
module Lives {
  import opened Roster
  import opened Vitals

  const KNOCKDOWN_HP := 200
  const BLEED_AMT := 10
  const BLEED_EVERY := 1500
  const REVIVE_DURATION := 4000

  datatype Life = Alive | Knocked | Dead

  /** A live knockdown: the bleed pool, the next bleed, and who is to be credited. Times are milliseconds. */
  datatype Knock = Knock(hp: nat, deadline: int, killer: Entity)

  datatype Rescue = Rescue(reviver: Entity, target: Entity, completeAt: int)

  datatype State = State(
    hp: map<Entity, nat>, life: map<Entity, Life>, knock: map<Entity, Knock>, rescues: map<Entity, Rescue>,
    roundOver: bool)
  {
    /** An entity that is not tracked counts as alive. */
    function LifeOf(e: Entity): Life {
      if e in life then life[e] else Alive
    }
  }

  /**
   What stays fixed during a match: the roster, the entities on it, and the hit points of a fresh player. What a tick
   can add to those has to fit 16 bits; Limits.dfy says what happens otherwise.
   */
  datatype Setup = Setup(roster: Roster, ids: set<Entity>, maxHP: nat)
  {
    ghost predicate Valid() {
      roster.Valid() && ids == roster.Ids() && 1 <= maxHP && maxHP + MAX_EP <= U16
    }
  }

  /** Every lobby gives a setup that all results below apply to. */
  lemma AnyLobbyWillDo(first: Team, arrivals: seq<Arrival>, maxHP: nat)
    requires 1 <= maxHP && maxHP + MAX_EP <= U16
    ensures var l := LobbyRun(first, arrivals);
            var r := Roster(l.players, l.bot);
            Setup(r, r.Ids(), maxHP).Valid()
  {
    LobbyValid(first, arrivals);
  }

  function TeamSize(m: Setup, team: Team): nat {
    CountUp(m.roster, team, _ => true)
  }

  function Up(s: State): Entity -> bool {
    (e: Entity) => s.LifeOf(e) == Alive
  }

  function TeamAlive(m: Setup, s: State, team: Team): nat {
    CountUp(m.roster, team, Up(s))
  }

  // ----- Transitions -----

  function Fresh(m: Setup): State {
    State(map e | e in m.ids :: m.maxHP, map e | e in m.ids :: Alive, map[], map[], false)
  }

  /** Every entity of gone dies of its knock. */
  function FinalizeAll(s: State, gone: set<Entity>): State {
    s.(life := map e | e in s.life.Keys + gone :: if e in gone then Dead else s.life[e],
       hp := map e | e in s.hp.Keys + gone :: if e in gone then 0 else s.hp[e],
       knock := s.knock - gone,
       rescues := s.rescues - gone)
  }

  function Finalize(s: State, e: Entity): State {
    s.(life := s.life[e := Dead], hp := s.hp[e := 0], knock := s.knock - {e}, rescues := s.rescues - {e})
  }

  /** The members of a team that are still down. */
  function Downed(s: State, team: Team): set<Entity> {
    set e | e in s.knock && TeamOf(e) == team && s.LifeOf(e) == Knocked
  }

  function Kill(s: State, victim: Entity): State {
    s.(life := s.life[victim := Dead], hp := s.hp[victim := 0])
  }

  function KnockDown(s: State, victim: Entity, attacker: Entity, now: int): State {
    s.(life := s.life[victim := Knocked], hp := s.hp[victim := KNOCKDOWN_HP],
       knock := s.knock[victim := Knock(KNOCKDOWN_HP, now + BLEED_EVERY, attacker)])
  }

  function DownOrKill(m: Setup, s: State, victim: Entity, attacker: Entity, now: int): State {
    var team := TeamOf(victim);
    if TeamSize(m, team) <= 1 then Kill(s, victim) else
    var down := KnockDown(s, victim, attacker, now);
    if TeamAlive(m, down, team) == 0 then FinalizeAll(down, Downed(down, team)) else down
  }

  function HitKnocked(s: State, victim: Entity, dmg: nat): State {
    if victim !in s.knock then s
    else if dmg >= s.knock[victim].hp then Finalize(s, victim)
    else
      var left := s.knock[victim].hp - dmg;
      s.(knock := s.knock[victim := s.knock[victim].(hp := left)], hp := s.hp[victim := left])
  }

  function HitStanding(m: Setup, s: State, victim: Entity, attacker: Entity, dmg: nat, now: int): State
    requires victim in s.hp
  {
    if dmg >= s.hp[victim] then DownOrKill(m, s.(hp := s.hp[victim := 0]), victim, attacker, now)
    else s.(hp := s.hp[victim := s.hp[victim] - dmg])
  }

  function Damage(m: Setup, s: State, victim: Entity, attacker: Entity, dmg: nat, now: int): State {
    if s.roundOver then s
    else if s.LifeOf(victim) == Knocked then HitKnocked(s, victim, dmg)
    else if s.LifeOf(victim) != Alive || victim !in s.hp || s.hp[victim] == 0 then s
    else HitStanding(m, s, victim, attacker, dmg, now)
  }

  predicate Due(s: State, e: Entity, now: int) {
    e in s.knock && now >= s.knock[e].deadline
  }

  /** The bleed tick: everyone due loses ten, and dies of the last ten. */
  function Bled(s: State, now: int): set<Entity> {
    set e | e in s.knock && Due(s, e, now) && s.knock[e].hp <= BLEED_AMT
  }

  function BleedKnock(k: Knock): Knock {
    k.(hp := if k.hp <= BLEED_AMT then k.hp else k.hp - BLEED_AMT, deadline := k.deadline + BLEED_EVERY)
  }

  /** The drop in the pools of those in turn: someone on the last ten keeps them until he is finalized. */
  function Drain(s: State, turn: set<Entity>, now: int): State {
    s.(
      knock := map e | e in s.knock :: if e in turn && Due(s, e, now) then BleedKnock(s.knock[e]) else s.knock[e],
      hp := map e | e in s.hp :: if e in turn && Due(s, e, now) then BleedKnock(s.knock[e]).hp else s.hp[e])
  }

  /** The bleed of those in turn. */
  function BleedSome(s: State, turn: set<Entity>, now: int): State {
    FinalizeAll(Drain(s, turn, now), Bled(s, now) * turn)
  }

  function Bleed(s: State, now: int): State {
    BleedSome(s, s.knock.Keys, now)
  }

  function StartRescue(s: State, reviver: Entity, target: Entity, now: int): State {
    if s.LifeOf(target) != Knocked || s.LifeOf(reviver) != Alive || TeamOf(reviver) != TeamOf(target) then s
    else if target in s.rescues then s
    else s.(rescues := s.rescues[target := Rescue(reviver, target, now + REVIVE_DURATION)])
  }

  function StopRescue(s: State, reviver: Entity, target: Entity): State {
    if target in s.rescues && s.rescues[target].reviver == reviver then s.(rescues := s.rescues - {target}) else s
  }

  function CompleteRescue(s: State, target: Entity): State {
    s.(life := s.life[target := Alive], hp := s.hp[target := REVIVE_HP], knock := s.knock - {target})
  }

  /** One turn of the rescue loop. */
  function RescueOne(s: State, target: Entity, now: int): State {
    if target !in s.rescues then s else
    var r := s.rescues[target];
    if s.LifeOf(target) != Knocked || s.LifeOf(r.reviver) != Alive then s.(rescues := s.rescues - {target})
    else if now < r.completeAt then s
    else CompleteRescue(s.(rescues := s.rescues - {target}), r.target)
  }

  /**
   The rescue tick in one iteration order. The outcome can depend on the order: a reviver who is being revived
   himself may be up again before or after his own rescue is looked at. Rescues.dfy says exactly when it does.
   */
  function RescueAll(s: State, order: seq<Entity>, now: int): State {
    if order == [] then s else RescueOne(RescueAll(s, order[..|order| - 1], now), order[|order| - 1], now)
  }

  /** What a medkit does: raise the hit points of someone who is up, never past full, in 16 bits. */
  function Treat(m: Setup, s: State, e: Entity, steps: nat): State {
    if s.LifeOf(e) != Alive || e !in s.hp then s else s.(hp := s.hp[e := Topped(s.hp[e], steps, m.maxHP)])
  }

  /** What a mushroom does: the same, but only for someone short of full. */
  function Feed(m: Setup, s: State, e: Entity, gain: nat): State {
    if s.LifeOf(e) != Alive || e !in s.hp || s.hp[e] == 0 || s.hp[e] >= m.maxHP then s
    else s.(hp := s.hp[e := Fed(s.hp[e], gain, m.maxHP)])
  }

  function ReviveAll(m: Setup, s: State): State {
    s.(life := map e | e in s.life.Keys + m.ids :: if e in m.ids then Alive else s.life[e],
       hp := map e | e in s.hp.Keys + m.ids :: if e in m.ids then m.maxHP else s.hp[e],
       knock := map[], rescues := map[], roundOver := false)
  }

  // ----- Whole runs -----

  datatype Event =
    | Hit(victim: Entity, attacker: Entity, dmg: nat, now: int)
    | BleedTick(now: int)
    | Begin(reviver: Entity, target: Entity, now: int)
    | Stop(reviver: Entity, target: Entity)
    | RescueTick(order: seq<Entity>, now: int)
    | Treating(e: Entity, steps: Dose)
    | Feeding(e: Entity, gain: Ration)
    | RoundDecided
    | NextRound

  function Step(m: Setup, s: State, ev: Event): State {
    match ev
    case Hit(victim, attacker, dmg, now) => Damage(m, s, victim, attacker, dmg, now)
    case BleedTick(now) => Bleed(s, now)
    case Begin(reviver, target, now) => StartRescue(s, reviver, target, now)
    case Stop(reviver, target) => StopRescue(s, reviver, target)
    case RescueTick(order, now) => RescueAll(s, order, now)
    case Treating(e, steps) => Treat(m, s, e, steps)
    case Feeding(e, gain) => Feed(m, s, e, gain)
    case RoundDecided => s.(roundOver := true)
    case NextRound => ReviveAll(m, s)
  }

  function Run(m: Setup, evs: seq<Event>): State {
    if evs == [] then Fresh(m) else Step(m, Run(m, evs[..|evs| - 1]), evs[|evs| - 1])
  }

  lemma RunMore(m: Setup, past: seq<Event>, ev: Event)
    ensures Run(m, past + [ev]) == Step(m, Run(m, past), ev)
  {
    assert (past + [ev])[..|past|] == past;
  }

  // ----- What every step keeps -----

  /** The four maps agree on every entity of the roster. */
  ghost predicate Agrees(m: Setup, s: State, e: Entity) {
    && e in s.hp && e in s.life
    && (e in s.knock <==> s.life[e] == Knocked)
    && (match s.life[e]
        case Alive => 0 < s.hp[e] <= Cap(m.maxHP)
        case Knocked => 1 <= s.hp[e] <= KNOCKDOWN_HP && s.knock[e].hp == s.hp[e]
        case Dead => s.hp[e] == 0)
  }

  ghost predicate Consistent(m: Setup, s: State) {
    && (forall e :: e in m.ids ==> Agrees(m, s, e))
    && (forall e :: e in s.hp || e in s.life || e in s.knock ==> e in m.ids)
    && (forall e :: e in s.rescues ==> e in s.knock && s.rescues[e].target == e)
  }

  ghost predicate HasMate(m: Setup, s: State, e: Entity) {
    exists a :: a in m.ids && TeamOf(a) == TeamOf(e) && s.LifeOf(a) == Alive
  }

  /** Somebody who is down has somebody up on the team: the match never waits for a rescue that cannot come. */
  ghost predicate Rescuable(m: Setup, s: State) {
    forall e :: e in s.knock ==> HasMate(m, s, e)
  }

  /** The invariant of the life machine. */
  ghost predicate Safe(m: Setup, s: State) {
    Consistent(m, s) && Rescuable(m, s)
  }

  lemma FreshConsistent(m: Setup)
    requires m.Valid()
    ensures Safe(m, Fresh(m))
  {
  }

  lemma FinalizeConsistent(m: Setup, s: State, gone: set<Entity>)
    requires Consistent(m, s) && gone <= s.knock.Keys
    ensures Consistent(m, FinalizeAll(s, gone))
  {
    var t := FinalizeAll(s, gone);
    forall e | e in m.ids
      ensures Agrees(m, t, e)
    {
      assert Agrees(m, s, e);
    }
  }

  lemma FinalizeOne(s: State, e: Entity)
    ensures FinalizeAll(s, {e}) == Finalize(s, e)
  {
    assert FinalizeAll(s, {e}).life == s.life[e := Dead];
    assert FinalizeAll(s, {e}).hp == s.hp[e := 0];
  }

  lemma AliveCount(m: Setup, s: State, team: Team)
    requires m.Valid()
    ensures TeamAlive(m, s, team) == 0 <==>
            forall e :: e in m.ids && TeamOf(e) == team ==> s.LifeOf(e) != Alive
  {
    NobodyUp(m.roster, team, Up(s));
  }

  /** Fewer knocks and no fewer people up leave everybody rescuable. */
  lemma MatesKept(m: Setup, s: State, t: State)
    requires Rescuable(m, s) && t.knock.Keys <= s.knock.Keys
    requires forall e :: e in m.ids && s.LifeOf(e) == Alive ==> t.LifeOf(e) == Alive
    ensures Rescuable(m, t)
  {
    forall e | e in t.knock
      ensures HasMate(m, t, e)
    {
      assert HasMate(m, s, e);
    }
  }

  lemma FinalizeKeeps(m: Setup, s: State, gone: set<Entity>)
    requires Safe(m, s) && gone <= s.knock.Keys
    ensures Safe(m, FinalizeAll(s, gone))
  {
    FinalizeConsistent(m, s, gone);
    forall e | e in m.ids && s.LifeOf(e) == Alive
      ensures e !in gone
    {
      assert Agrees(m, s, e);
    }
    MatesKept(m, s, FinalizeAll(s, gone));
  }

  /** One more of the roster is down and nobody else's life has changed. */
  ghost predicate OneDown(m: Setup, s: State, down: State, victim: Entity) {
    && Consistent(m, down) && down.knock.Keys == s.knock.Keys + {victim}
    && forall e: Entity :: e != victim ==> down.LifeOf(e) == s.LifeOf(e)
  }

  lemma KnockDownConsistent(m: Setup, s: State, victim: Entity, attacker: Entity, now: int)
    requires Consistent(m, s) && victim in m.ids && s.LifeOf(victim) == Alive
    ensures OneDown(m, s, KnockDown(s, victim, attacker, now), victim)
  {
    KnockDownAgrees(m, s, victim, attacker, now);
  }

  lemma KnockDownAgrees(m: Setup, s: State, victim: Entity, attacker: Entity, now: int)
    requires Consistent(m, s) && victim in m.ids && s.LifeOf(victim) == Alive
    ensures Consistent(m, KnockDown(s, victim, attacker, now))
  {
    var t := KnockDown(s, victim, attacker, now);
    forall e | e in m.ids
      ensures Agrees(m, t, e)
    {
      assert Agrees(m, s, e);
    }
  }

  /**
   A lethal hit. A one-member team loses its member at once; a knock that leaves somebody up is rescuable, and so
   is everyone already down; a knock that leaves nobody up turns every knock of the team into a death.
   */
  lemma DownOrKillKeeps(m: Setup, s: State, victim: Entity, attacker: Entity, now: int)
    requires m.Valid() && Safe(m, s) && victim in m.ids && s.LifeOf(victim) == Alive
    ensures Safe(m, DownOrKill(m, s, victim, attacker, now))
  {
    if TeamSize(m, TeamOf(victim)) <= 1 {
      NobodyElseOnTeam(m, victim);
      KillAlone(m, s, victim);
    } else {
      var down := KnockDown(s, victim, attacker, now);
      CountIsMates(m, down, victim);
      KnockDownConsistent(m, s, victim, attacker, now);
      FallKeeps(m, s, down, victim);
    }
  }

  /** A knock keeps the invariant if it leaves somebody up; if not, it does so together with the end of every knock. */
  lemma FallKeeps(m: Setup, s: State, down: State, victim: Entity)
    requires Rescuable(m, s) && OneDown(m, s, down, victim)
    ensures Safe(m, if HasMate(m, down, victim) then down else FinalizeAll(down, Downed(down, TeamOf(victim))))
  {
    if HasMate(m, down, victim) {
      TeamStands(m, s, down, victim);
    } else {
      TeamFalls(m, s, down, victim);
    }
  }

  lemma CountIsMates(m: Setup, s: State, e: Entity)
    requires m.Valid()
    ensures TeamAlive(m, s, TeamOf(e)) == 0 <==> !HasMate(m, s, e)
  {
    AliveCount(m, s, TeamOf(e));
  }

  lemma NobodyElseOnTeam(m: Setup, victim: Entity)
    requires m.Valid() && victim in m.ids && TeamSize(m, TeamOf(victim)) <= 1
    ensures forall e :: e in m.ids && TeamOf(e) == TeamOf(victim) ==> e == victim
  {
    forall e | e in m.ids && TeamOf(e) == TeamOf(victim)
      ensures e == victim
    {
      if e != victim {
        TwoMembers(m.roster, TeamOf(victim), e, victim);
      }
    }
  }

  lemma KillAlone(m: Setup, s: State, victim: Entity)
    requires Safe(m, s) && victim in m.ids && s.LifeOf(victim) == Alive
    requires forall e :: e in m.ids && TeamOf(e) == TeamOf(victim) ==> e == victim
    ensures Safe(m, Kill(s, victim))
  {
    var t := Kill(s, victim);
    assert Agrees(m, s, victim);
    forall e | e in m.ids
      ensures Agrees(m, t, e)
    {
      assert Agrees(m, s, e);
    }
    forall e | e in t.knock
      ensures HasMate(m, t, e)
    {
      assert HasMate(m, s, e);
      var a :| a in m.ids && TeamOf(a) == TeamOf(e) && s.LifeOf(a) == Alive;
      assert t.LifeOf(a) == Alive;
    }
  }

  lemma TeamStands(m: Setup, s: State, down: State, victim: Entity)
    requires Rescuable(m, s) && OneDown(m, s, down, victim) && HasMate(m, down, victim)
    ensures Rescuable(m, down)
  {
    forall e | e in down.knock
      ensures HasMate(m, down, e)
    {
      if TeamOf(e) != TeamOf(victim) {
        assert HasMate(m, s, e);
      }
    }
  }

  lemma TeamFalls(m: Setup, s: State, down: State, victim: Entity)
    requires Rescuable(m, s) && OneDown(m, s, down, victim) && !HasMate(m, down, victim)
    ensures var t := FinalizeAll(down, Downed(down, TeamOf(victim))); Safe(m, t)
  {
    var gone := Downed(down, TeamOf(victim));
    FinalizeConsistent(m, down, gone);
    forall e | e in down.knock && e !in gone
      ensures HasMate(m, FinalizeAll(down, gone), e)
    {
      assert Agrees(m, down, e);
      OthersStand(m, s, down, victim, e);
    }
  }

  /** Who is on another team still has his mate. */
  lemma OthersStand(m: Setup, s: State, down: State, victim: Entity, e: Entity)
    requires Rescuable(m, s) && OneDown(m, s, down, victim) && e in down.knock && TeamOf(e) != TeamOf(victim)
    ensures HasMate(m, FinalizeAll(down, Downed(down, TeamOf(victim))), e)
  {
    assert HasMate(m, s, e);
    var a :| a in m.ids && TeamOf(a) == TeamOf(e) && s.LifeOf(a) == Alive;
    assert FinalizeAll(down, Downed(down, TeamOf(victim))).LifeOf(a) == Alive;
  }

  lemma DrainKeeps(m: Setup, s: State, victim: Entity, left: nat)
    requires Safe(m, s) && victim in s.hp && s.LifeOf(victim) == Alive
    requires 0 < left <= Cap(m.maxHP)
    ensures var t := s.(hp := s.hp[victim := left]); Safe(m, t)
  {
    var t := s.(hp := s.hp[victim := left]);
    forall e | e in m.ids
      ensures Agrees(m, t, e)
    {
      assert Agrees(m, s, e);
    }
    MatesKept(m, s, t);
  }

  lemma HitKnockedKeeps(m: Setup, s: State, victim: Entity, dmg: nat)
    requires Safe(m, s)
    ensures Safe(m, HitKnocked(s, victim, dmg))
  {
    if victim in s.knock {
      if dmg >= s.knock[victim].hp {
        FinalizeKeeps(m, s, {victim});
        FinalizeOne(s, victim);
      } else {
        var t := HitKnocked(s, victim, dmg);
        forall e | e in m.ids
          ensures Agrees(m, t, e)
        {
          assert Agrees(m, s, e);
        }
        MatesKept(m, s, t);
      }
    }
  }

  lemma StandingIs(m: Setup, s: State, e: Entity)
    requires Consistent(m, s) && s.LifeOf(e) == Alive && e in s.hp
    ensures e in m.ids && 0 < s.hp[e] <= Cap(m.maxHP)
  {
    assert Agrees(m, s, e);
  }

  /** That the hit points are already zero when the outcome is decided makes no difference to it. */
  lemma LethalHit(m: Setup, s: State, victim: Entity, attacker: Entity, now: int)
    requires victim in s.hp
    ensures DownOrKill(m, s.(hp := s.hp[victim := 0]), victim, attacker, now) == DownOrKill(m, s, victim, attacker, now)
  {
    assert s.hp[victim := 0][victim := 0] == s.hp[victim := 0];
    assert s.hp[victim := 0][victim := KNOCKDOWN_HP] == s.hp[victim := KNOCKDOWN_HP];
  }

  lemma LethalKeeps(m: Setup, s: State, victim: Entity, attacker: Entity, dmg: nat, now: int)
    requires m.Valid() && Safe(m, s) && s.LifeOf(victim) == Alive && victim in s.hp && dmg >= s.hp[victim]
    ensures var t := HitStanding(m, s, victim, attacker, dmg, now); var safe := Safe(m, t); safe
  {
    StandingIs(m, s, victim);
    LethalHit(m, s, victim, attacker, now);
    DownOrKillKeeps(m, s, victim, attacker, now);
  }

  lemma GrazeKeeps(m: Setup, s: State, victim: Entity, attacker: Entity, dmg: nat, now: int)
    requires Safe(m, s) && s.LifeOf(victim) == Alive && victim in s.hp && dmg < s.hp[victim]
    ensures var t := HitStanding(m, s, victim, attacker, dmg, now); var safe := Safe(m, t); safe
  {
    StandingIs(m, s, victim);
    DrainKeeps(m, s, victim, s.hp[victim] - dmg);
  }

  lemma DamageKeeps(m: Setup, s: State, victim: Entity, attacker: Entity, dmg: nat, now: int)
    requires m.Valid() && Safe(m, s)
    ensures var t := Damage(m, s, victim, attacker, dmg, now); var safe := Safe(m, t); safe
  {
    if s.LifeOf(victim) == Knocked {
      HitKnockedKeeps(m, s, victim, dmg);
    } else if s.LifeOf(victim) == Alive && victim in s.hp {
      if dmg >= s.hp[victim] {
        LethalKeeps(m, s, victim, attacker, dmg, now);
      } else {
        GrazeKeeps(m, s, victim, attacker, dmg, now);
      }
    }
  }

  lemma BleedKeeps(m: Setup, s: State, now: int)
    requires Safe(m, s)
    ensures Safe(m, Bleed(s, now))
  {
    var drained := Drain(s, s.knock.Keys, now);
    forall e | e in m.ids
      ensures Agrees(m, drained, e)
    {
      assert Agrees(m, s, e);
    }
    MatesKept(m, s, drained);
    assert Bled(s, now) * s.knock.Keys <= drained.knock.Keys;
    FinalizeKeeps(m, drained, Bled(s, now) * s.knock.Keys);
  }

  lemma RescueOneKeeps(m: Setup, s: State, target: Entity, now: int)
    requires Safe(m, s)
    ensures Safe(m, RescueOne(s, target, now))
  {
    if target in s.rescues {
      var without := s.(rescues := s.rescues - {target});
      UntouchedLives(m, s, without);
      var r := s.rescues[target];
      if s.LifeOf(target) == Knocked && s.LifeOf(r.reviver) == Alive && now >= r.completeAt {
        CompleteKeeps(m, without, target);
      }
    }
  }

  lemma CompleteKeeps(m: Setup, s: State, target: Entity)
    requires Safe(m, s) && s.LifeOf(target) == Knocked && target !in s.rescues
    ensures Safe(m, CompleteRescue(s, target))
  {
    CompleteConsistent(m, s, target);
    MatesKept(m, s, CompleteRescue(s, target));
  }

  lemma CompleteConsistent(m: Setup, s: State, target: Entity)
    requires Consistent(m, s) && s.LifeOf(target) == Knocked && target !in s.rescues
    ensures Consistent(m, CompleteRescue(s, target))
  {
    var t := CompleteRescue(s, target);
    forall e | e in m.ids
      ensures Agrees(m, t, e)
    {
      assert Agrees(m, s, e);
    }
  }

  lemma {:induction false} RescueAllKeeps(m: Setup, s: State, order: seq<Entity>, now: int)
    requires Safe(m, s)
    ensures Safe(m, RescueAll(s, order, now))
    decreases |order|
  {
    if order != [] {
      RescueAllKeeps(m, s, order[..|order| - 1], now);
      RescueOneKeeps(m, RescueAll(s, order[..|order| - 1], now), order[|order| - 1], now);
    }
  }

  lemma StartRescueKeeps(m: Setup, s: State, reviver: Entity, target: Entity, now: int)
    requires Safe(m, s)
    ensures Safe(m, StartRescue(s, reviver, target, now))
  {
    if s.LifeOf(target) == Knocked {
      assert target in m.ids && Agrees(m, s, target);
    }
    UntouchedLives(m, s, StartRescue(s, reviver, target, now));
  }

  lemma ReviveAllKeeps(m: Setup, s: State)
    requires m.maxHP > 0 && Consistent(m, s)
    ensures Safe(m, ReviveAll(m, s))
  {
  }

  lemma TreatKeeps(m: Setup, s: State, e: Entity, steps: Dose)
    requires m.Valid() && Safe(m, s)
    ensures Safe(m, Treat(m, s, e, steps))
  {
    if s.LifeOf(e) == Alive && e in s.hp {
      StandingIs(m, s, e);
      NoWrap(s.hp[e], steps, m.maxHP);
      DrainKeeps(m, s, e, Topped(s.hp[e], steps, m.maxHP));
    }
  }

  lemma FeedKeeps(m: Setup, s: State, e: Entity, gain: Ration)
    requires m.Valid() && Safe(m, s)
    ensures Safe(m, Feed(m, s, e, gain))
  {
    if s.LifeOf(e) == Alive && e in s.hp && s.hp[e] < m.maxHP {
      StandingIs(m, s, e);
      NoWrap(s.hp[e], gain, m.maxHP);
      DrainKeeps(m, s, e, Fed(s.hp[e], gain, m.maxHP));
    }
  }

  lemma StepKeeps(m: Setup, s: State, ev: Event)
    requires m.Valid() && Safe(m, s)
    ensures Safe(m, Step(m, s, ev))
  {
    if ev.Hit? {
      DamageKeeps(m, s, ev.victim, ev.attacker, ev.dmg, ev.now);
    } else {
      QuietStepKeeps(m, s, ev);
    }
  }

  lemma QuietStepKeeps(m: Setup, s: State, ev: Event)
    requires m.Valid() && Safe(m, s) && !ev.Hit?
    ensures var t := Step(m, s, ev); var safe := Safe(m, t); safe
  {
    if ev.Treating? {
      TreatKeeps(m, s, ev.e, ev.steps);
    } else if ev.Feeding? {
      FeedKeeps(m, s, ev.e, ev.gain);
    } else {
      OtherStepKeeps(m, s, ev);
    }
  }

  lemma OtherStepKeeps(m: Setup, s: State, ev: Event)
    requires m.maxHP > 0 && Safe(m, s) && !ev.Hit? && !ev.Treating? && !ev.Feeding?
    ensures var t := Step(m, s, ev); var safe := Safe(m, t); safe
  {
    var t := Step(m, s, ev);
    match ev
    case BleedTick(now) => BleedKeeps(m, s, now);
    case Begin(reviver, target, now) => StartRescueKeeps(m, s, reviver, target, now);
    case Stop(reviver, target) => UntouchedLives(m, s, t);
    case RescueTick(order, now) => RescueAllKeeps(m, s, order, now);
    case RoundDecided => UntouchedLives(m, s, t);
    case NextRound => ReviveAllKeeps(m, s);
  }

  lemma UntouchedLives(m: Setup, s: State, t: State)
    requires Safe(m, s) && t.hp == s.hp && t.life == s.life && t.knock == s.knock
    requires forall e :: e in t.rescues ==> e in t.knock && t.rescues[e].target == e
    ensures Safe(m, t)
  {
    forall e | e in m.ids
      ensures Agrees(m, t, e)
    {
      assert Agrees(m, s, e);
    }
    MatesKept(m, s, t);
  }

  /**
   In every state that any sequence of hits, ticks, rescues, heals and round changes can lead to, the maps agree
   about everyone on the roster, every rescue in progress is of somebody who is down, and everybody who is down has
   a teammate who is up.
   */
  lemma {:induction false} RunSafe(m: Setup, evs: seq<Event>)
    requires m.Valid()
    ensures Safe(m, Run(m, evs))
    decreases |evs|
  {
    if evs == [] {
      FreshConsistent(m);
    } else {
      RunSafe(m, evs[..|evs| - 1]);
      StepKeeps(m, Run(m, evs[..|evs| - 1]), evs[|evs| - 1]);
    }
  }

  // ----- Consequences -----

  /** When the count of a team's living reaches zero, the team is dead to the last member: nobody is still down. */
  lemma WipedTeamIsDead(m: Setup, evs: seq<Event>, team: Team)
    requires m.Valid()
    ensures TeamAlive(m, Run(m, evs), team) == 0 <==>
            forall e :: e in m.ids && TeamOf(e) == team ==> Run(m, evs).LifeOf(e) == Dead
  {
    var s := Run(m, evs);
    RunSafe(m, evs);
    AliveCount(m, s, team);
    if TeamAlive(m, s, team) == 0 {
      forall e | e in m.ids && TeamOf(e) == team
        ensures s.LifeOf(e) == Dead
      {
        assert Agrees(m, s, e);
        assert e in s.knock ==> HasMate(m, s, e);
      }
    }
  }

  /** A team of one is never knocked. */
  lemma LoneMemberNeverDown(m: Setup, evs: seq<Event>, e: Entity)
    requires m.Valid() && e in m.ids && TeamSize(m, TeamOf(e)) <= 1
    ensures Run(m, evs).LifeOf(e) != Knocked
  {
    var s := Run(m, evs);
    RunSafe(m, evs);
    if s.LifeOf(e) == Knocked {
      assert Agrees(m, s, e) && HasMate(m, s, e);
      var a :| a in m.ids && TeamOf(a) == TeamOf(e) && s.LifeOf(a) == Alive;
      TwoMembers(m.roster, TeamOf(e), a, e);
    }
  }
}
