/**
 The phases of a match and the lives of its players together: what a tick of the phase machine sees are the living of
 the two teams, and what it does to them is to decide the round and to start the next one (match-server/match.go,
 run, advancePhase, endFight and postBannerEdge). The roster is that of the match once it has started.
 */
module Rounds {
  import opened Roster
  import Books
  import DeathMatch
  import Economy
  import Income
  import L = Lives
  import P = Phases
  import PhaseClock

  datatype State = State(phases: P.State, lives: L.State)

  /** A tick of the phase machine, or anything that happens to the players. */
  datatype Beat = Ticking(now: int, ready: bool) | Playing(ev: L.Event)

  /** Only the phase machine decides a round and starts the next. */
  ghost predicate Proper(beats: seq<Beat>) {
    forall i :: 0 <= i < |beats| && beats[i].Playing? ==> !beats[i].ev.RoundDecided? && !beats[i].ev.NextRound?
  }

  /** A human is down or dead. */
  predicate AnyDown(players: seq<Player>, s: L.State) {
    exists i :: 0 <= i < |players| && s.LifeOf(players[i].entityID) != L.Alive
  }

  /** What the tick sees of the players. */
  function Seen(m: L.Setup, s: L.State, now: int, ready: bool): P.Tick {
    P.Tick(now, L.TeamAlive(m, s, LOCAL_TEAM), L.TeamAlive(m, s, ENEMY_TEAM), ready, AnyDown(m.roster.players, s))
  }

  /** What a change of phase does to the players: endFight decides the round, postBannerEdge revives everybody. */
  function Effect(p: P.State, q: P.State): seq<L.Event> {
    if p.phase == P.Fight && q.phase != P.Fight then [L.RoundDecided]
    else if p.phase == P.PostBanner && q.phase != P.PostBanner then [L.NextRound]
    else []
  }

  /** What it does to the books: the round is paid for, or the deaths of a new one begin to count. */
  function Posted(p: P.State, q: P.State): seq<Books.Entry> {
    if p.phase == P.Fight && q.phase != P.Fight && q.history != [] then
      [Books.RoundPaid(q.round, TeamOfSide(q.history[|q.history| - 1]), Streak(q, Loser(q.history)))]
    else if p.phase == P.PostBanner && q.phase != P.PostBanner then [Books.Revived]
    else []
  }

  function Streak(p: P.State, side: P.Side): nat {
    if side == P.Local then p.localStreak else p.enemyStreak
  }

  function Felt(m: L.Setup, s: L.State, evs: seq<L.Event>): L.State {
    if evs == [] then s else L.Step(m, s, evs[0])
  }

  function Step(c: P.Config, m: L.Setup, s: State, b: Beat): State {
    match b
    case Ticking(now, ready) =>
      var q := P.Advance(c, s.phases, Seen(m, s.lives, now, ready));
      State(q, Felt(m, s.lives, Effect(s.phases, q)))
    case Playing(ev) => s.(lives := L.Step(m, s.lives, ev))
  }

  function Run(c: P.Config, m: L.Setup, start: int, bot: bool, beats: seq<Beat>): State {
    if beats == [] then State(P.Start(start, bot), L.Fresh(m))
    else Step(c, m, Run(c, m, start, bot, beats[..|beats| - 1]), beats[|beats| - 1])
  }

  // ----- The two machines inside -----

  /** What the phase machine and the life machine go through. */
  datatype Trace = Trace(ticks: seq<P.Tick>, events: seq<L.Event>)

  function More(c: P.Config, m: L.Setup, s: State, b: Beat, t: Trace): Trace {
    match b
    case Ticking(now, ready) =>
      var tick := Seen(m, s.lives, now, ready);
      Trace(t.ticks + [tick], t.events + Effect(s.phases, P.Advance(c, s.phases, tick)))
    case Playing(ev) => t.(events := t.events + [ev])
  }

  function TraceOf(c: P.Config, m: L.Setup, start: int, bot: bool, beats: seq<Beat>): Trace {
    if beats == [] then Trace([], [])
    else
      var before := beats[..|beats| - 1];
      More(c, m, Run(c, m, start, bot, before), beats[|beats| - 1], TraceOf(c, m, start, bot, before))
  }

  lemma PhasesMore(c: P.Config, start: int, bot: bool, ticks: seq<P.Tick>, t: P.Tick)
    ensures P.Run(c, start, bot, ticks + [t]) == P.Advance(c, P.Run(c, start, bot, ticks), t)
  {
    assert (ticks + [t])[..|ticks|] == ticks;
  }

  lemma LivesMore(m: L.Setup, evs: seq<L.Event>, more: seq<L.Event>)
    requires |more| <= 1
    ensures L.Run(m, evs + more) == Felt(m, L.Run(m, evs), more)
  {
    if more == [] {
      assert evs + more == evs;
    } else {
      assert more == [more[0]];
      L.RunMore(m, evs, more[0]);
    }
  }

  ghost predicate Inside(c: P.Config, m: L.Setup, start: int, bot: bool, s: State, t: Trace) {
    s.phases == P.Run(c, start, bot, t.ticks) && s.lives == L.Run(m, t.events)
  }

  lemma InsideMore(c: P.Config, m: L.Setup, start: int, bot: bool, s: State, t: Trace, b: Beat)
    requires Inside(c, m, start, bot, s, t)
    ensures Inside(c, m, start, bot, Step(c, m, s, b), More(c, m, s, b, t))
  {
    match b
    case Ticking(now, ready) =>
      var tick := Seen(m, s.lives, now, ready);
      PhasesMore(c, start, bot, t.ticks, tick);
      LivesMore(m, t.events, Effect(s.phases, P.Advance(c, s.phases, tick)));
    case Playing(ev) => L.RunMore(m, t.events, ev);
  }

  /** Inside a run of both are runs of each, so that what is proved of either holds of both together. */
  lemma {:induction false} RunsInside(c: P.Config, m: L.Setup, start: int, bot: bool, beats: seq<Beat>)
    ensures Inside(c, m, start, bot, Run(c, m, start, bot, beats), TraceOf(c, m, start, bot, beats))
    decreases |beats|
  {
    if beats != [] {
      var before := beats[..|beats| - 1];
      RunsInside(c, m, start, bot, before);
      InsideMore(c, m, start, bot, Run(c, m, start, bot, before), TraceOf(c, m, start, bot, before),
                 beats[|beats| - 1]);
    }
  }

  // ----- How a fight ends -----

  predicate Settling(p: P.Phase) {
    p == P.MatchEndPause || p == P.PostBanner || p == P.MatchEnd
  }

  /** Every member of the team is dead. */
  ghost predicate Wiped(m: L.Setup, s: L.State, team: Team) {
    forall e :: e in m.ids && TeamOf(e) == team ==> s.LifeOf(e) == L.Dead
  }

  function TeamOfSide(side: P.Side): Team {
    if side == P.Local then LOCAL_TEAM else ENEMY_TEAM
  }

  lemma WipedIsZero(c: P.Config, m: L.Setup, start: int, bot: bool, beats: seq<Beat>, team: Team)
    requires m.Valid()
    ensures var s := Run(c, m, start, bot, beats).lives; L.TeamAlive(m, s, team) == 0 <==> Wiped(m, s, team)
  {
    RunsInside(c, m, start, bot, beats);
    L.WipedTeamIsDead(m, TraceOf(c, m, start, bot, beats).events, team);
  }

  lemma FightSteps(c: P.Config, p: P.State, t: P.Tick)
    requires p.phase == P.Fight
    ensures var q := P.Advance(c, p, t);
            if t.localAlive > 0 && t.enemyAlive > 0 then q == p
            else Settling(q.phase) && q.history == p.history + [if t.localAlive > 0 then P.Local else P.Enemy]
  {
  }

  lemma FightPhase(c: P.Config, p: P.State, t: P.Tick)
    ensures var q := P.Advance(c, p, t);
            p.phase == P.Fight && q.phase != P.Fight ==>
              q.history != [] && q.history[|q.history| - 1] == if t.localAlive > 0 then P.Local else P.Enemy
  {
    if p.phase == P.Fight {
      FightSteps(c, p, t);
    }
  }

  /** A tick that finds a team wiped ends the fight, and no other does. */
  ghost predicate EndsRightly(m: L.Setup, s: State, t: State) {
    if Wiped(m, s.lives, LOCAL_TEAM) || Wiped(m, s.lives, ENEMY_TEAM) then
      && t.phases.phase != P.Fight && t.lives == s.lives.(roundOver := true)
      && t.phases.history == s.phases.history + [if Wiped(m, s.lives, LOCAL_TEAM) then P.Enemy else P.Local]
    else t == s
  }

  lemma FightTick(c: P.Config, m: L.Setup, s: State, now: int, ready: bool)
    requires s.phases.phase == P.Fight
    requires L.TeamAlive(m, s.lives, LOCAL_TEAM) == 0 <==> Wiped(m, s.lives, LOCAL_TEAM)
    requires L.TeamAlive(m, s.lives, ENEMY_TEAM) == 0 <==> Wiped(m, s.lives, ENEMY_TEAM)
    ensures EndsRightly(m, s, Step(c, m, s, Ticking(now, ready)))
  {
    FightSteps(c, s.phases, Seen(m, s.lives, now, ready));
  }

  /**
   A tick ends the fight exactly when a team is dead to the last member. The other team has won the round, the enemy if
   both are; and damage stops.
   */
  lemma FightEndsWithATeam(c: P.Config, m: L.Setup, start: int, bot: bool, beats: seq<Beat>, now: int, ready: bool)
    requires m.Valid() && Run(c, m, start, bot, beats).phases.phase == P.Fight
    ensures var s := Run(c, m, start, bot, beats); var t := Step(c, m, s, Ticking(now, ready));
            EndsRightly(m, s, t)
  {
    WipedIsZero(c, m, start, bot, beats, LOCAL_TEAM);
    WipedIsZero(c, m, start, bot, beats, ENEMY_TEAM);
    FightTick(c, m, Run(c, m, start, bot, beats), now, ready);
  }

  // ----- While the round is over -----

  /** The side that lost the last round. */
  function Loser(history: seq<P.Side>): P.Side
    requires history != []
  {
    P.Other(history[|history| - 1])
  }

  /** Damage is off exactly from the end of a fight until everybody is revived; until then the losers stay dead. */
  ghost predicate Decided(m: L.Setup, s: State) {
    && (s.lives.roundOver <==> Settling(s.phases.phase))
    && (s.lives.roundOver ==>
          s.phases.history != [] && Wiped(m, s.lives, TeamOfSide(Loser(s.phases.history))))
  }

  lemma RescueLeavesDead(m: L.Setup, s: L.State, target: Entity, now: int, e: Entity)
    requires L.Consistent(m, s) && s.LifeOf(e) == L.Dead
    ensures L.RescueOne(s, target, now).LifeOf(e) == L.Dead
  {
  }

  lemma {:induction false} RescuesLeaveDead(m: L.Setup, s: L.State, order: seq<Entity>, now: int, e: Entity)
    requires L.Safe(m, s) && s.LifeOf(e) == L.Dead
    ensures L.RescueAll(s, order, now).LifeOf(e) == L.Dead
    decreases |order|
  {
    if order != [] {
      var before := order[..|order| - 1];
      RescuesLeaveDead(m, s, before, now, e);
      L.RescueAllKeeps(m, s, before, now);
      RescueLeavesDead(m, L.RescueAll(s, before, now), order[|order| - 1], now, e);
    }
  }

  /** While the round is over, nothing but the next round brings the dead back, or anybody to harm but a bleed. */
  lemma DeadStayDead(m: L.Setup, s: L.State, ev: L.Event, e: Entity)
    requires L.Safe(m, s) && s.roundOver && !ev.NextRound? && s.LifeOf(e) == L.Dead
    ensures L.Step(m, s, ev).roundOver && L.Step(m, s, ev).LifeOf(e) == L.Dead
  {
    if ev.RescueTick? {
      RescuesLeaveDead(m, s, ev.order, ev.now, e);
      SameFlag(s, ev.order, ev.now);
    }
  }

  lemma {:induction false} SameFlag(s: L.State, order: seq<Entity>, now: int)
    ensures L.RescueAll(s, order, now).roundOver == s.roundOver
    decreases |order|
  {
    if order != [] {
      SameFlag(s, order[..|order| - 1], now);
    }
  }

  lemma FlagStays(m: L.Setup, s: L.State, ev: L.Event)
    requires !ev.NextRound? && !ev.RoundDecided?
    ensures L.Step(m, s, ev).roundOver == s.roundOver
  {
    if ev.RescueTick? {
      SameFlag(s, ev.order, ev.now);
    }
  }

  lemma PlayingKeeps(m: L.Setup, s: State, ev: L.Event)
    requires m.Valid() && L.Safe(m, s.lives) && Decided(m, s) && !ev.NextRound? && !ev.RoundDecided?
    ensures Decided(m, s.(lives := L.Step(m, s.lives, ev)))
  {
    FlagStays(m, s.lives, ev);
    if s.lives.roundOver {
      var team := TeamOfSide(Loser(s.phases.history));
      forall e | e in m.ids && TeamOf(e) == team
        ensures L.Step(m, s.lives, ev).LifeOf(e) == L.Dead
      {
        DeadStayDead(m, s.lives, ev, e);
      }
    }
  }

  /** Outside a fight a tick leaves the history alone, and settles nothing anew. */
  lemma PrepareSteps(c: P.Config, p: P.State, t: P.Tick)
    ensures var q := P.EnterPrepare(c, p, t); q.history == p.history && q.phase == P.Prepare
  {
  }

  lemma PreparedSteps(c: P.Config, p: P.State, t: P.Tick)
    requires p.phase == P.Prepare
    ensures var q := P.OnDeadline(c, p, t); q.history == p.history && !Settling(q.phase)
  {
  }

  lemma DeadlineSteps(c: P.Config, p: P.State, t: P.Tick)
    requires p.phase != P.Fight
    ensures var q := P.OnDeadline(c, p, t);
            q.history == p.history && (Settling(q.phase) <==> p.phase == P.MatchEndPause || p.phase == P.MatchEnd)
    ensures p.phase == P.PostBanner ==>
              P.OnDeadline(c, p, t).phase == if t.anyDead then P.PostReviveBind else P.PostBlack
  {
    PrepareSteps(c, p, t);
    if p.phase == P.Prepare {
      PreparedSteps(c, p, t);
    }
  }

  lemma PhaseSteps(c: P.Config, p: P.State, t: P.Tick)
    requires p.phase != P.Fight
    ensures var q := P.Advance(c, p, t);
            && q.history == p.history
            && (Settling(q.phase) <==> Settling(p.phase) && !(p.phase == P.PostBanner && q.phase != P.PostBanner))
  {
    DeadlineSteps(c, p, t);
  }

  lemma TickingKeeps(c: P.Config, m: L.Setup, s: State, now: int, ready: bool)
    requires Decided(m, s)
    requires forall team :: L.TeamAlive(m, s.lives, team) == 0 <==> Wiped(m, s.lives, team)
    ensures Decided(m, Step(c, m, s, Ticking(now, ready)))
  {
    var t := Seen(m, s.lives, now, ready);
    var q := P.Advance(c, s.phases, t);
    if s.phases.phase == P.Fight {
      FightSteps(c, s.phases, t);
      if q.phase != P.Fight {
        assert Loser(q.history) == if t.localAlive > 0 then P.Enemy else P.Local;
        assert Wiped(m, s.lives, TeamOfSide(Loser(q.history)));
      }
    } else {
      PhaseSteps(c, s.phases, t);
    }
  }

  /**
   In every reachable state damage is off exactly between the end of a fight and the revival of everybody, and all of
   that time the side that lost the round is dead to the last member.
   */
  lemma {:induction false} RunDecided(c: P.Config, m: L.Setup, start: int, bot: bool, beats: seq<Beat>)
    requires m.Valid() && Proper(beats)
    ensures Decided(m, Run(c, m, start, bot, beats))
    decreases |beats|
  {
    if beats != [] {
      var before, b := beats[..|beats| - 1], beats[|beats| - 1];
      var s := Run(c, m, start, bot, before);
      RunDecided(c, m, start, bot, before);
      match b
      case Ticking(now, ready) =>
        forall team
          ensures L.TeamAlive(m, s.lives, team) == 0 <==> Wiped(m, s.lives, team)
        {
          WipedIsZero(c, m, start, bot, before, team);
        }
        TickingKeeps(c, m, s, now, ready);
      case Playing(ev) =>
        RunsInside(c, m, start, bot, before);
        L.RunSafe(m, TraceOf(c, m, start, bot, before).events);
        PlayingKeeps(m, s, ev);
    }
  }

  // ----- The next round -----

  predicate HasHuman(players: seq<Player>, team: Team) {
    exists i :: 0 <= i < |players| && players[i].team == team
  }

  lemma LoserDown(m: L.Setup, s: L.State, team: Team)
    requires m.Valid() && Wiped(m, s, team) && HasHuman(m.roster.players, team)
    ensures AnyDown(m.roster.players, s)
  {
    var i :| 0 <= i < |m.roster.players| && m.roster.players[i].team == team;
    assert m.roster.players[i].entityID in HumanIds(m.roster.players);
  }

  lemma BannerTick(c: P.Config, m: L.Setup, s: State, now: int, ready: bool)
    requires s.phases.phase == P.PostBanner && P.Expired(s.phases, now)
    ensures var t := Step(c, m, s, Ticking(now, ready));
            && t.lives == L.ReviveAll(m, s.lives)
            && t.phases.phase == if AnyDown(m.roster.players, s.lives) then P.PostReviveBind else P.PostBlack
  {
    DeadlineSteps(c, s.phases, Seen(m, s.lives, now, ready));
  }

  /** Everybody is alive at full hit points and damage is on. */
  ghost predicate AllUp(m: L.Setup, s: L.State) {
    !s.roundOver && forall e :: e in m.ids ==> s.LifeOf(e) == L.Alive && e in s.hp && s.hp[e] == m.maxHP
  }

  lemma ReviveAllUp(m: L.Setup, s: L.State)
    ensures AllUp(m, L.ReviveAll(m, s))
  {
  }

  /**
   When the banner of a round has been up long enough, everybody is alive at full hit points and damage is on again.
   There is a rebind first exactly when some human is not up, which is so whenever the losing side has a human at all.
   */
  lemma NextRoundRevives(c: P.Config, m: L.Setup, start: int, bot: bool, beats: seq<Beat>, now: int, ready: bool)
    requires m.Valid() && Proper(beats) && Run(c, m, start, bot, beats).phases.phase == P.PostBanner
    requires P.Expired(Run(c, m, start, bot, beats).phases, now)
    ensures var s := Run(c, m, start, bot, beats); var t := Step(c, m, s, Ticking(now, ready));
            && AllUp(m, t.lives)
            && t.phases.phase == (if AnyDown(m.roster.players, s.lives) then P.PostReviveBind else P.PostBlack)
            && s.phases.history != []
            && (HasHuman(m.roster.players, TeamOfSide(Loser(s.phases.history))) ==> t.phases.phase == P.PostReviveBind)
  {
    var s := Run(c, m, start, bot, beats);
    RunDecided(c, m, start, bot, beats);
    ReviveAllUp(m, s.lives);
    BannerTick(c, m, s, now, ready);
    LosersDown(m, s);
  }

  lemma LosersDown(m: L.Setup, s: State)
    requires m.Valid() && Decided(m, s) && s.phases.phase == P.PostBanner
    ensures s.phases.history != []
    ensures HasHuman(m.roster.players, TeamOfSide(Loser(s.phases.history))) ==> AnyDown(m.roster.players, s.lives)
  {
    if HasHuman(m.roster.players, TeamOfSide(Loser(s.phases.history))) {
      LoserDown(m, s.lives, TeamOfSide(Loser(s.phases.history)));
    }
  }

  // ----- What is paid -----

  /** One award for each round won, in turn: its number, its winner, and what the losers have lost in a row. */
  function Payments(history: seq<P.Side>): seq<Books.Entry> {
    if history == [] then [] else
    Payments(history[..|history| - 1])
    + [Books.RoundPaid(|history|, TeamOfSide(history[|history| - 1]), P.Losing(history, Loser(history)))]
  }

  lemma PaymentsMore(history: seq<P.Side>, side: P.Side)
    ensures Payments(history + [side]) ==
            Payments(history)
            + [Books.RoundPaid(|history| + 1, TeamOfSide(side), P.Losing(history + [side], P.Other(side)))]
  {
    assert (history + [side])[..|history|] == history;
  }

  lemma FightPays(p: P.State, q: P.State, side: P.Side)
    requires p.phase == P.Fight && q.phase in {P.MatchEndPause, P.PostBanner} && q.history == p.history + [side]
    requires P.Tallied(q)
    ensures Payments(q.history) == Payments(p.history) + Books.Awards(Posted(p, q))
  {
    PaymentsMore(p.history, side);
    OneAward(Books.RoundPaid(q.round, TeamOfSide(side), Streak(q, P.Other(side))));
  }

  lemma OthersPayNothing(p: P.State, q: P.State)
    requires p.phase != P.Fight || q == p
    ensures Books.Awards(Posted(p, q)) == []
  {
    NoAward();
  }

  lemma SameHistory(c: P.Config, p: P.State, t: P.Tick)
    requires p.phase != P.Fight || P.Advance(c, p, t) == p
    ensures P.Advance(c, p, t).history == p.history
  {
    if p.phase != P.Fight {
      PhaseSteps(c, p, t);
    }
  }

  lemma EndPays(c: P.Config, p: P.State, t: P.Tick, q: P.State)
    requires q == P.Advance(c, p, t) && P.Tallied(q)
    requires p.phase == P.Fight && (t.localAlive == 0 || t.enemyAlive == 0)
    ensures Payments(q.history) == Payments(p.history) + Books.Awards(Posted(p, q))
  {
    FightSteps(c, p, t);
    FightPays(p, q, if t.localAlive > 0 then P.Local else P.Enemy);
  }

  lemma NothingPays(c: P.Config, p: P.State, t: P.Tick, q: P.State)
    requires q == P.Advance(c, p, t) && (p.phase != P.Fight || q == p)
    ensures Payments(q.history) == Payments(p.history) + Books.Awards(Posted(p, q))
  {
    OthersPayNothing(p, q);
    SameHistory(c, p, t);
  }

  lemma TickPays(c: P.Config, p: P.State, t: P.Tick, q: P.State)
    requires q == P.Advance(c, p, t) && P.Tallied(q)
    ensures var paid := Payments(p.history) + Books.Awards(Posted(p, q)); Payments(q.history) == paid
  {
    if p.phase == P.Fight && (t.localAlive == 0 || t.enemyAlive == 0) {
      EndPays(c, p, t, q);
    } else {
      NothingPays(c, p, t, q);
    }
  }

  /** What a tick posts is just the award of a round that it ends. */
  lemma PostedPays(c: P.Config, start: int, bot: bool, ticks: seq<P.Tick>, t: P.Tick)
    requires P.Decidable(c)
    ensures var p := P.Run(c, start, bot, ticks); var q := P.Advance(c, p, t);
            Payments(q.history) == Payments(p.history) + Books.Awards(Posted(p, q))
  {
    PhasesMore(c, start, bot, ticks, t);
    P.RunSound(c, start, bot, ticks + [t]);
    TickPays(c, P.Run(c, start, bot, ticks), t, P.Run(c, start, bot, ticks + [t]));
  }

  lemma OneAward(e: Books.Entry)
    requires e.RoundPaid?
    ensures Books.Awards([e]) == [e]
  {
    assert [e][..0] == [];
  }

  lemma NoAward()
    ensures Books.Awards([Books.Revived]) == [] && Books.Awards([]) == []
  {
    assert [Books.Revived][..0] == [];
  }

  lemma AwardsTogether(log: seq<Books.Entry>, more: seq<Books.Entry>)
    requires |more| <= 1
    ensures Books.Awards(log + more) == Books.Awards(log) + Books.Awards(more)
  {
    if more == [] {
      assert log + more == log;
    } else {
      Books.AwardsMore(log, more[0]);
      assert more == [more[0]] && more[..0] == [];
    }
  }

  lemma SameLast(xs: seq<Books.Entry>, x: Books.Entry, ys: seq<Books.Entry>, y: Books.Entry)
    requires xs + [x] == ys + [y]
    ensures xs == ys && x == y
  {
    assert (xs + [x])[|xs|] == (ys + [y])[|ys|];
    assert (xs + [x])[..|xs|] == xs && (ys + [y])[..|ys|] == ys;
  }

  lemma LastPaid(log: seq<Books.Entry>, history: seq<P.Side>)
    requires log != [] && log[|log| - 1].RoundPaid? && Books.Awards(log) == Payments(history)
    ensures history != [] && Books.Awards(log[..|log| - 1]) == Payments(history[..|history| - 1])
    ensures var e, winner := log[|log| - 1], history[|history| - 1];
            e.winner == TeamOfSide(winner) && e.streak == P.Losing(history, P.Other(winner))
  {
    SameLast(Books.Awards(log[..|log| - 1]), log[|log| - 1], Payments(history[..|history| - 1]),
             Books.RoundPaid(|history|, TeamOfSide(history[|history| - 1]), P.Losing(history, Loser(history))));
  }

  /** The rounds on the log are those of the history. */
  ghost predicate AsPlayed(log: seq<Books.Entry>, history: seq<P.Side>, side: P.Side) {
    && Income.LosingRun(log, TeamOfSide(side)) == P.Losing(history, side)
    && Income.WinsOf(log, TeamOfSide(side)) == P.Wins(history, side)
  }

  lemma RoundAsPlayed(log: seq<Books.Entry>, history: seq<P.Side>, side: P.Side)
    requires log != [] && log[|log| - 1].RoundPaid? && history != []
    requires log[|log| - 1].winner == TeamOfSide(history[|history| - 1])
    requires AsPlayed(log[..|log| - 1], history[..|history| - 1], side)
    ensures AsPlayed(log, history, side)
  {
  }

  /**
   A log with those awards has paid every round with the losers' losing streak, and its wins and streaks are those of
   the phases: what Income says of a player's coins is about every log of a match.
   */
  lemma {:induction false} PaidAsPlayed(log: seq<Books.Entry>, history: seq<P.Side>)
    requires Books.Awards(log) == Payments(history)
    ensures Income.Streaked(log) && AsPlayed(log, history, P.Local) && AsPlayed(log, history, P.Enemy)
    decreases |log|
  {
    if log == [] {
      assert history == [];
    } else {
      var before, some := log[..|log| - 1], history;
      if log[|log| - 1].RoundPaid? {
        LastPaid(log, history);
        some := history[..|history| - 1];
        PaidAsPlayed(before, some);
        RoundAsPlayed(log, history, P.Local);
        RoundAsPlayed(log, history, P.Enemy);
      } else {
        assert Books.Awards(before) + [] == Books.Awards(before);
        PaidAsPlayed(before, history);
      }
    }
  }

  ghost predicate PaidFor(c: P.Config, log: seq<Books.Entry>, history: seq<P.Side>) {
    P.Decidable(c) ==> Books.Awards(log) == Payments(history)
  }

  lemma StillPaid(c: P.Config, start: int, bot: bool, ticks: seq<P.Tick>, t: P.Tick, log: seq<Books.Entry>)
    requires PaidFor(c, log, P.Run(c, start, bot, ticks).history)
    ensures var p := P.Run(c, start, bot, ticks); var q := P.Advance(c, p, t);
            PaidFor(c, log + Posted(p, q), q.history)
  {
    if P.Decidable(c) {
      var p := P.Run(c, start, bot, ticks);
      PostedPays(c, start, bot, ticks, t);
      AwardsTogether(log, Posted(p, P.Advance(c, p, t)));
    }
  }

  function SideOf(e: Entity): P.Side {
    if TeamOf(e) == LOCAL_TEAM then P.Local else P.Enemy
  }

  /** A human's coins and what he spent are the starting money and his income from the rounds played. */
  lemma CoinsOfMatch(m: L.Setup, r: Books.Rules, log: seq<Books.Entry>, history: seq<P.Side>, h: Entity)
    requires m.roster.Valid() && r.humans == HumanIds(m.roster.players) && h in r.humans
    requires Books.Awards(log) == Payments(history)
    ensures (Books.Get(Books.BookOf(r, log).coins, h) + Books.SpentOf(r, log, h)) % Economy.COIN_RANGE ==
            (Economy.Table(r.table)[0] + Income.IncomeOf(r, log, h)) % Economy.COIN_RANGE
    ensures AsPlayed(log, history, SideOf(h)) && TeamOfSide(SideOf(h)) == TeamOf(h)
  {
    PaidAsPlayed(log, history);
    var i :| 0 <= i < |m.roster.players| && m.roster.players[i].entityID == h;
    Income.CoinsAreIncome(r, log, h);
  }

  // ----- The Go code -----

  lemma TickIs(c: P.Config, m: L.Setup, s: State, now: int, ready: bool, t: P.Tick, q: P.State, l: L.State)
    requires t == Seen(m, s.lives, now, ready) && q == P.Advance(c, s.phases, t)
    requires l == Felt(m, s.lives, Effect(s.phases, q))
    ensures State(q, l) == Step(c, m, s, Ticking(now, ready))
  {
  }

  /** The part of the loop in run() that ties the two together. */
  class Game {
    const clock: PhaseClock.Clock
    const game: DeathMatch.Match

    ghost function Now(): State
      reads this, clock, game
    {
      State(clock.Now(), game.Now())
    }

    ghost predicate Playable()
      reads this, game
    {
      && game.m.Valid() && game.Posted() && game.Once() && game.Now() == L.Run(game.m, game.past)
      && game.rules.humans == HumanIds(game.m.roster.players)
    }

    ghost predicate Valid()
      reads this, clock, game
    {
      && Playable() && clock.Now() == P.Run(clock.c, clock.start, clock.startBot, clock.past) && Paid()
    }

    /** The log has the awards of the rounds played, if the settings let a match be decided. */
    ghost predicate Paid()
      reads clock, game
    {
      PaidFor(clock.c, game.log, clock.history)
    }

    constructor (clock: PhaseClock.Clock, game: DeathMatch.Match)
      requires game.m.Valid() && game.Posted() && game.Once() && game.Now() == L.Run(game.m, game.past)
      requires game.rules.humans == HumanIds(game.m.roster.players)
      requires clock.Now() == P.Run(clock.c, clock.start, clock.startBot, clock.past)
      requires game.log == [] && clock.history == []
      ensures Valid() && this.clock == clock && this.game == game
    {
      this.clock, this.game := clock, game;
    }

    /** deadHumans, as far as the phases ask: whether there is one. */
    method DeadHumans() returns (any: bool)
      ensures any == AnyDown(game.m.roster.players, game.Now())
    {
      any := false;
      for i := 0 to |game.m.roster.players|
        invariant any == AnyDown(game.m.roster.players[..i], game.Now())
      {
        any := any || game.Now().LifeOf(game.m.roster.players[i].entityID) != L.Alive;
        assert game.m.roster.players[..i + 1] == game.m.roster.players[..i] + [game.m.roster.players[i]];
      }
      assert game.m.roster.players[..|game.m.roster.players|] == game.m.roster.players;
    }

    method See(now: int, ready: bool) returns (t: P.Tick)
      ensures t == Seen(game.m, game.Now(), now, ready)
    {
      var local := game.CountAlive(LOCAL_TEAM);
      var enemy := game.CountAlive(ENEMY_TEAM);
      var dead := DeadHumans();
      t := P.Tick(now, local, enemy, ready, dead);
    }

    /** The end of a fight, for the players: no more damage, and the award. */
    method Award(round: int, winner: Team, streak: nat)
      requires Playable()
      modifies game
      ensures Playable() && game.Now() == L.Step(game.m, old(game.Now()), L.RoundDecided)
      ensures game.log == old(game.log) + [Books.RoundPaid(round, winner, streak)]
    {
      ghost var _ := game.Apply(L.RoundDecided);
      L.RunMore(game.m, old(game.past), L.RoundDecided);
      game.AwardRound(round, winner, streak);
    }

    method NextRound()
      requires Playable()
      modifies game
      ensures Playable() && game.Now() == L.Step(game.m, old(game.Now()), L.NextRound)
      ensures game.log == old(game.log) + [Books.Revived]
    {
      ghost var _ := game.Apply(L.NextRound);
      L.RunMore(game.m, old(game.past), L.NextRound);
    }

    /** What the change of phase means for the players. */
    method Feel(localWon: bool, ghost p: P.State, fighting: bool, bannered: bool)
      requires Playable() && (fighting <==> p.phase == P.Fight) && (bannered <==> p.phase == P.PostBanner)
      requires fighting && clock.phase != P.Fight ==>
                 clock.history != [] && clock.history[|clock.history| - 1] == if localWon then P.Local else P.Enemy
      modifies game
      ensures Playable() && game.Now() == Felt(game.m, old(game.Now()), Effect(p, clock.Now()))
      ensures game.log == old(game.log) + Posted(p, clock.Now())
    {
      if fighting && clock.phase != P.Fight {
        Award(clock.round, if localWon then LOCAL_TEAM else ENEMY_TEAM,
              if localWon then clock.enemyStreak else clock.localStreak);
      } else if bannered && clock.phase != P.PostBanner {
        NextRound();
      }
    }

    /** The phases' part of a tick. */
    method Advance(t: P.Tick)
      requires clock.Now() == P.Run(clock.c, clock.start, clock.startBot, clock.past)
      modifies clock
      ensures clock.Now() == P.Run(clock.c, clock.start, clock.startBot, clock.past)
      ensures var p, q := old(clock.Now()), clock.Now();
              && q == P.Advance(clock.c, p, t)
              && (p.phase == P.Fight && q.phase != P.Fight ==>
                    q.history != [] && q.history[|q.history| - 1] == if t.localAlive > 0 then P.Local else P.Enemy)
    {
      PhasesMore(clock.c, clock.start, clock.startBot, clock.past, t);
      FightPhase(clock.c, clock.Now(), t);
      clock.OnTick(t);
    }

    /** A tick that sees this: the phases advance, and the players feel it. */
    method Turn(t: P.Tick)
      requires Playable() && clock.Now() == P.Run(clock.c, clock.start, clock.startBot, clock.past)
      modifies clock, game
      ensures Playable() && clock.Now() == P.Run(clock.c, clock.start, clock.startBot, clock.past)
      ensures clock.Now() == P.Advance(clock.c, old(clock.Now()), t)
      ensures game.Now() == Felt(game.m, old(game.Now()), Effect(old(clock.Now()), clock.Now()))
      ensures game.log == old(game.log) + Posted(old(clock.Now()), clock.Now())
    {
      ghost var p := clock.Now();
      var fighting, bannered := clock.phase == P.Fight, clock.phase == P.PostBanner;
      Advance(t);
      Feel(t.localAlive > 0, p, fighting, bannered);
    }

    /**
     A tick: the phases advance by what the players' state says, and the players feel it. A round that ends is paid for
     once, to the winner of the tick, with the loser's streak.
     */
    method Tick(now: int, ready: bool)
      requires Valid()
      modifies clock, game
      ensures var valid := Valid(); valid
      ensures var next := Step(clock.c, game.m, old(Now()), Ticking(now, ready)); Now() == next
      ensures game.log == old(game.log) + Posted(old(clock.Now()), clock.Now())
    {
      ghost var s, ticks, log := Now(), clock.past, game.log;
      var t := See(now, ready);
      Turn(t);
      StillPaid(clock.c, clock.start, clock.startBot, ticks, t, log);
      TickIs(clock.c, game.m, s, now, ready, t, clock.Now(), game.Now());
    }

    /** A human buys something. */
    method Purchase(h: Entity, unitPrice: nat, qty: nat, atLimit: bool) returns (ok: bool)
      requires Valid() && h in game.rules.humans
      modifies game`coins, game`log
      ensures Valid() && Now() == old(Now())
      ensures ok == (!atLimit && (game.unlimited
                                  || DeathMatch.Price(unitPrice, qty) <= Books.Get(old(game.coins), h)))
    {
      Books.AwardsMore(game.log, Books.Bought(h, DeathMatch.Price(unitPrice, qty)));
      ok := game.Purchase(h, unitPrice, qty, atLimit);
    }

    /** Anything else that happens to the players. */
    method Happen(ev: L.Event) returns (ghost taken: L.Event)
      requires Valid()
      modifies game
      ensures Valid() && Now() == Step(clock.c, game.m, old(Now()), Playing(taken))
      ensures if ev.RescueTick? then taken.RescueTick? && taken.now == ev.now else taken == ev
    {
      taken := game.Apply(ev);
      L.RunMore(game.m, old(game.past), taken);
    }
  }
}
