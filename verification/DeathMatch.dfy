/**
 The methods of match-server/deathmatch.go on the match's maps: each is proved to make the transition of Lives.dfy
 that it stands for, whatever order the maps are iterated in, and to keep the books of Books.dfy.
 */
module DeathMatch {
  import opened Bytes
  import opened Books
  import opened Economy
  import opened Lives
  import opened Roster
  import opened Vitals
  import opened Walks

  // ----- One entity at a time -----

  lemma FinalizeMore(s: State, gone: set<Entity>, e: Entity)
    ensures Finalize(FinalizeAll(s, gone), e) == FinalizeAll(s, gone + {e})
  {
    var t, u := Finalize(FinalizeAll(s, gone), e), FinalizeAll(s, gone + {e});
    assert t.life == u.life;
    assert t.hp == u.hp;
    assert t.knock == u.knock;
    assert t.rescues == u.rescues;
  }

  lemma FinalizeNobody(s: State)
    ensures FinalizeAll(s, {}) == s
  {
    var t := FinalizeAll(s, {});
    assert t.life == s.life;
    assert t.hp == s.hp;
    assert t.knock == s.knock;
    assert t.rescues == s.rescues;
  }

  /** Ending other knocks commutes with a change to this one. */
  lemma FinalizeOthers(s: State, gone: set<Entity>, e: Entity, k: Knock, hp: nat)
    requires e !in gone
    ensures FinalizeAll(s.(knock := s.knock[e := k], hp := s.hp[e := hp]), gone) ==
            var t := FinalizeAll(s, gone); t.(knock := t.knock[e := k], hp := t.hp[e := hp])
  {
    var t := FinalizeAll(s, gone);
    var u := FinalizeAll(s.(knock := s.knock[e := k], hp := s.hp[e := hp]), gone);
    assert u.knock == t.knock[e := k];
    assert u.hp == t.hp[e := hp];
  }

  /** Somebody whose turn has not come is as he was. */
  lemma BleedPending(s: State, turn: set<Entity>, e: Entity, now: int)
    requires e in s.knock && e !in turn
    ensures var t := BleedSome(s, turn, now); e in t.knock && t.knock[e] == s.knock[e] && t.LifeOf(e) == s.LifeOf(e)
  {
  }

  lemma DrainNobody(s: State, now: int)
    ensures Drain(s, {}, now) == s
  {
    var t := Drain(s, {}, now);
    assert t.hp == s.hp;
    assert t.knock == s.knock;
  }

  lemma DrainMore(s: State, turn: set<Entity>, e: Entity, now: int)
    requires e in s.knock && e in s.hp && e !in turn
    ensures var t := Drain(s, turn, now);
            Drain(s, turn + {e}, now) ==
            if Due(s, e, now)
            then t.(knock := t.knock[e := BleedKnock(s.knock[e])], hp := t.hp[e := BleedKnock(s.knock[e]).hp])
            else t
  {
    var t, u := Drain(s, turn, now), Drain(s, turn + {e}, now);
    if Due(s, e, now) {
      assert u.knock == t.knock[e := BleedKnock(s.knock[e])];
      assert u.hp == t.hp[e := BleedKnock(s.knock[e]).hp];
    } else {
      assert u.knock == t.knock;
      assert u.hp == t.hp;
    }
  }

  /** One turn of the bleed loop, for someone whose turn has not come. */
  lemma BleedMore(s: State, turn: set<Entity>, e: Entity, now: int)
    requires e in s.knock && e in s.hp && e !in turn
    ensures var t := BleedSome(s, turn, now);
            BleedSome(s, turn + {e}, now) ==
            if !Due(s, e, now) then t
            else if e in Bled(s, now) then Finalize(t, e)
            else t.(knock := t.knock[e := BleedKnock(s.knock[e])], hp := t.hp[e := BleedKnock(s.knock[e]).hp])
  {
    var d, gone := Drain(s, turn, now), Bled(s, now) * turn;
    DrainMore(s, turn, e, now);
    if Due(s, e, now) {
      var k := BleedKnock(s.knock[e]);
      FinalizeOthers(d, gone, e, k, k.hp);
      if e in Bled(s, now) {
        assert Bled(s, now) * (turn + {e}) == gone + {e};
        FinalizeMore(Drain(s, turn + {e}, now), gone, e);
        FinalizeTouched(FinalizeAll(d, gone), e, k, k.hp);
      } else {
        assert Bled(s, now) * (turn + {e}) == gone;
      }
    } else {
      assert Bled(s, now) * (turn + {e}) == gone;
    }
  }

  /** What a knock was like does not matter once it has ended. */
  lemma FinalizeTouched(s: State, e: Entity, k: Knock, hp: nat)
    ensures Finalize(s.(knock := s.knock[e := k], hp := s.hp[e := hp]), e) == Finalize(s, e)
    ensures Finalize(s.(knock := s.knock[e := k]), e) == Finalize(s, e)
  {
    assert s.knock[e := k] - {e} == s.knock - {e};
    assert s.hp[e := hp][e := 0] == s.hp[e := 0];
  }

  predicate Dies(s: State, team: Team, e: Entity) {
    TeamOf(e) == team && s.LifeOf(e) == Knocked
  }

  /** The loop over a fallen team, in one order of the map. */
  function FallInTurn(s: State, team: Team, order: seq<Entity>): State {
    if order == [] then s else
    var t := FallInTurn(s, team, order[..|order| - 1]);
    if Dies(t, team, order[|order| - 1]) then Finalize(t, order[|order| - 1]) else t
  }

  lemma FallMore(s: State, team: Team, order: seq<Entity>, e: Entity)
    ensures var t := FallInTurn(s, team, order);
            FallInTurn(s, team, order + [e]) == if Dies(t, team, e) then Finalize(t, e) else t
  {
    assert (order + [e])[..|order|] == order;
  }

  lemma {:induction false} FallPending(s: State, team: Team, order: seq<Entity>, e: Entity)
    requires e in s.knock && e !in order
    ensures var t := FallInTurn(s, team, order); e in t.knock && t.knock[e] == s.knock[e] && t.LifeOf(e) == s.LifeOf(e)
    decreases |order|
  {
    if order != [] {
      FallPending(s, team, order[..|order| - 1], e);
    }
  }

  function DyingIn(s: State, team: Team, order: seq<Entity>): set<Entity> {
    set e | e in order && Dies(s, team, e)
  }

  lemma DyingMore(s: State, team: Team, order: seq<Entity>, e: Entity)
    ensures DyingIn(s, team, order + [e]) == DyingIn(s, team, order) + if Dies(s, team, e) then {e} else {}
  {
  }

  lemma {:induction false} FallIsFinalize(s: State, team: Team, order: seq<Entity>)
    requires forall e :: e in order ==> e in s.knock
    requires forall i, j :: 0 <= i < j < |order| ==> order[i] != order[j]
    ensures FallInTurn(s, team, order) == FinalizeAll(s, DyingIn(s, team, order))
    decreases |order|
  {
    if order == [] {
      assert DyingIn(s, team, order) == {};
      FinalizeNobody(s);
    } else {
      var before, last := order[..|order| - 1], order[|order| - 1];
      var gone := DyingIn(s, team, before);
      FallIsFinalize(s, team, before);
      FallPending(s, team, before, last);
      assert order == before + [last];
      DyingMore(s, team, before, last);
      if Dies(s, team, last) {
        FinalizeMore(s, gone, last);
      } else {
        assert gone + {} == gone;
      }
    }
  }

  /** The whole loop, in any order, ends every knock of the team at once. */
  lemma FallAnyOrder(s: State, team: Team, order: seq<Entity>)
    requires forall e :: e in order <==> e in s.knock
    requires forall i, j :: 0 <= i < j < |order| ==> order[i] != order[j]
    ensures FallInTurn(s, team, order) == FinalizeAll(s, Downed(s, team))
  {
    FallIsFinalize(s, team, order);
    assert DyingIn(s, team, order) == Downed(s, team);
  }

  function BleedOne(s: State, e: Entity, now: int): State {
    if !Due(s, e, now) then s
    else if s.knock[e].hp <= BLEED_AMT then Finalize(s, e)
    else s.(knock := s.knock[e := BleedKnock(s.knock[e])], hp := s.hp[e := BleedKnock(s.knock[e]).hp])
  }

  /** The bleed loop, in one order of the map. */
  function BleedInTurn(s: State, order: seq<Entity>, now: int): State {
    if order == [] then s else BleedOne(BleedInTurn(s, order[..|order| - 1], now), order[|order| - 1], now)
  }

  lemma BleedInTurnMore(s: State, order: seq<Entity>, e: Entity, now: int)
    ensures BleedInTurn(s, order + [e], now) == BleedOne(BleedInTurn(s, order, now), e, now)
  {
    assert (order + [e])[..|order|] == order;
  }

  lemma BleedOneMore(s: State, turn: set<Entity>, e: Entity, now: int)
    requires e in s.knock && e in s.hp && e !in turn
    ensures BleedSome(s, turn + {e}, now) == BleedOne(BleedSome(s, turn, now), e, now)
  {
    BleedMore(s, turn, e, now);
    BleedPending(s, turn, e, now);
  }

  lemma {:induction false} BleedInTurnIs(s: State, order: seq<Entity>, now: int)
    requires forall e :: e in order ==> e in s.knock && e in s.hp
    requires forall i, j :: 0 <= i < j < |order| ==> order[i] != order[j]
    ensures BleedInTurn(s, order, now) == BleedSome(s, Elements(order), now)
    decreases |order|
  {
    if order == [] {
      assert Elements(order) == {} && Bled(s, now) * {} == {};
      DrainNobody(s, now);
      FinalizeNobody(s);
    } else {
      var before, last := order[..|order| - 1], order[|order| - 1];
      BleedInTurnIs(s, before, now);
      assert order == before + [last];
      ElementsMore(before, last);
      BleedOneMore(s, Elements(before), last, now);
    }
  }

  /** The whole loop, in any order, bleeds everyone at once. */
  lemma BleedAnyOrder(s: State, order: seq<Entity>, now: int)
    requires forall e :: e in order <==> e in s.knock
    requires forall e :: e in s.knock ==> e in s.hp
    requires forall i, j :: 0 <= i < j < |order| ==> order[i] != order[j]
    ensures BleedInTurn(s, order, now) == Bleed(s, now)
  {
    BleedInTurnIs(s, order, now);
    assert Elements(order) == s.knock.Keys;
  }

  /** Somebody whose turn has not come is as he was. */
  lemma BleedInTurnPending(s: State, order: seq<Entity>, e: Entity, now: int)
    requires e in s.knock && e !in order
    ensures var t := BleedInTurn(s, order, now); e in t.knock && t.knock[e] == s.knock[e] && t.LifeOf(e) == s.LifeOf(e)
    decreases |order|
  {
    if order != [] {
      BleedInTurnPending(s, order[..|order| - 1], e, now);
    }
  }

  lemma RunFacts(m: Setup, past: seq<Event>)
    requires m.Valid()
    ensures var s := Run(m, past);
            && (forall e :: e in s.knock ==> s.LifeOf(e) == Knocked && e in s.hp)
            && (forall e :: e in s.rescues ==> s.rescues[e].target == e)
            && (forall e :: e in s.life ==> e in m.ids)
  {
    var s := Run(m, past);
    RunSafe(m, past);
    forall e | e in s.knock
      ensures s.LifeOf(e) == Knocked && e in s.hp
    {
      assert Agrees(m, s, e);
    }
  }

  lemma RescueAllMore(s: State, order: seq<Entity>, e: Entity, now: int)
    ensures RescueAll(s, order + [e], now) == RescueOne(RescueAll(s, order, now), e, now)
  {
    assert (order + [e])[..|order|] == order;
  }

  lemma {:induction false} RescuePending(s: State, order: seq<Entity>, e: Entity, now: int)
    requires e in s.rescues && e !in order
    ensures var t := RescueAll(s, order, now); e in t.rescues && t.rescues[e] == s.rescues[e]
    decreases |order|
  {
    if order != [] {
      RescuePending(s, order[..|order| - 1], e, now);
    }
  }

  function ReviveSome(m: Setup, s: State, turn: set<Entity>): State {
    s.(life := map e | e in s.life.Keys + turn :: if e in turn then Alive else s.life[e],
       hp := map e | e in s.hp.Keys + turn :: if e in turn then m.maxHP else s.hp[e])
  }

  lemma ReviveNobody(m: Setup, s: State)
    ensures ReviveSome(m, s, {}) == s
    ensures ReviveSome(m, s, HumanIds([])) == s
  {
    assert HumanIds([]) == {};
    var t := ReviveSome(m, s, {});
    assert t.life == s.life;
    assert t.hp == s.hp;
  }

  lemma ReviveMore(m: Setup, s: State, turn: set<Entity>, e: Entity)
    ensures var t := ReviveSome(m, s, turn);
            ReviveSome(m, s, turn + {e}) == t.(life := t.life[e := Alive], hp := t.hp[e := m.maxHP])
  {
    var t, u := ReviveSome(m, s, turn), ReviveSome(m, s, turn + {e});
    assert u.life == t.life[e := Alive];
    assert u.hp == t.hp[e := m.maxHP];
  }

  lemma RevivedAll(m: Setup, s: State)
    requires m.ids == m.roster.Ids()
    ensures var t := ReviveSome(m, s, HumanIds(m.roster.players));
            var u := if m.roster.bot == 0 then t
                     else t.(life := t.life[m.roster.bot := Alive], hp := t.hp[m.roster.bot := m.maxHP]);
            Lives.ReviveAll(m, s) == u.(knock := map[], rescues := map[], roundOver := false)
  {
    var humans := HumanIds(m.roster.players);
    ReviveMore(m, s, humans, m.roster.bot);
    if m.roster.bot == 0 {
      assert m.ids == humans;
    } else {
      assert m.ids == humans + {m.roster.bot};
    }
    assert Lives.ReviveAll(m, s) == ReviveSome(m, s, m.ids).(knock := map[], rescues := map[], roundOver := false);
  }

  lemma RevivedOnce(m: Setup, s: State, log: seq<Entry>)
    requires forall e :: e in s.life ==> e in m.ids
    ensures DiedOnce(log + [Revived], Lives.ReviveAll(m, s))
  {
  }

  lemma HumanNext(players: seq<Player>, i: nat)
    requires i < |players|
    ensures HumanIds(players[..i + 1]) == HumanIds(players[..i]) + {players[i].entityID}
  {
    var l, r := HumanIds(players[..i + 1]), HumanIds(players[..i]) + {players[i].entityID};
    forall e | e in r
      ensures e in l
    {
      var k :| 0 <= k <= i && players[k].entityID == e;
      assert players[..i + 1][k].entityID == e;
    }
    forall e | e in l
      ensures e in r
    {
      var k :| 0 <= k <= i && players[..i + 1][k].entityID == e;
      if k < i {
        assert players[..i][k].entityID == e;
      }
    }
  }

  /** Each human has an id of his own, with the team on top. */
  ghost predicate OwnIds(players: seq<Player>) {
    forall i {:trigger players[..i]} :: 0 <= i < |players| ==>
      players[i].entityID !in HumanIds(players[..i]) && TeamOf(players[i].entityID) == players[i].team
  }

  lemma RosterOwnIds(r: Roster)
    requires r.Valid()
    ensures OwnIds(r.players)
  {
  }

  lemma HumanIn(players: seq<Player>, i: nat)
    requires i < |players|
    ensures players[i].entityID in HumanIds(players)
  {
  }

  lemma PayNobody(b: Book, r: Rules, round: int, winner: Team, streak: nat)
    ensures PaySome(b, r, HumanIds([]), round, winner, streak) == b
  {
    assert HumanIds([]) == {};
    var t := PaySome(b, r, {}, round, winner, streak);
    assert t.roundKills == b.roundKills;
    assert t.coins == b.coins;
  }

  function PaidOne(b: Book, h: Entity, aw: nat): Book {
    b.(roundKills := b.roundKills[h := 0], coins := b.coins[h := (Get(b.coins, h) + aw) % COIN_RANGE])
  }

  lemma PayMore(b: Book, r: Rules, turn: set<Entity>, h: Entity, round: int, winner: Team, streak: nat)
    requires h in b.coins && h in b.roundKills && h !in turn
    ensures var t := PaySome(b, r, turn, round, winner, streak);
            PaySome(b, r, turn + {h}, round, winner, streak) ==
            PaidOne(t, h, AwardTo(t, r, h, round, winner, streak))
  {
    var t, u := PaySome(b, r, turn, round, winner, streak), PaySome(b, r, turn + {h}, round, winner, streak);
    assert u.roundKills == t.roundKills[h := 0];
    assert u.coins == t.coins[h := (b.coins[h] + AwardTo(b, r, h, round, winner, streak)) % COIN_RANGE];
  }

  /** Quantity 0 buys one; the product is a 32-bit number. */
  function Price(unitPrice: nat, qty: nat): nat {
    (unitPrice * if qty == 0 then 1 else qty) % COIN_RANGE
  }

  // ----- The match -----

  /** The dead of this round have died once in it, everyone else not at all. */
  ghost predicate DiedOnce(log: seq<Entry>, s: State) {
    forall e: Entity :: DeathsThisRound(log, e) == if s.LifeOf(e) == Dead then 1 else 0
  }

  lemma DiedOnceMore(log: seq<Entry>, s: State, t: State, victim: Entity, killer: Entity)
    requires DiedOnce(log, s) && s.LifeOf(victim) != Dead && t.LifeOf(victim) == Dead
    requires forall e: Entity :: e != victim ==> (t.LifeOf(e) == Dead <==> s.LifeOf(e) == Dead)
    ensures DiedOnce(log + [Died(victim, killer)], t)
  {
    assert (log + [Died(victim, killer)])[..|log|] == log;
  }

  lemma SameDead(log: seq<Entry>, s: State, t: State)
    requires DiedOnce(log, s) && forall e: Entity :: t.LifeOf(e) == Dead <==> s.LifeOf(e) == Dead
    ensures DiedOnce(log, t)
  {
  }

  lemma CountNext(players: seq<Player>, i: nat, team: Team, up: Entity -> bool)
    requires i < |players|
    ensures CountPlayers(players[..i + 1], team, up) ==
            CountPlayers(players[..i], team, up) + if players[i].team == team && up(players[i].entityID) then 1 else 0
  {
    assert players[..i + 1] == players[..i] + [players[i]];
    CountPlayersSnoc(players[..i], players[i], team, up);
  }

  /** Nobody's life or death is touched by the entry or by the change. */
  lemma DiedOnceStill(log: seq<Entry>, s: State, e: Entry, t: State)
    requires DiedOnce(log, s) && (e.Bought? || e.RoundPaid?)
    requires forall e: Entity :: t.LifeOf(e) == Dead <==> s.LifeOf(e) == Dead
    ensures DiedOnce(log + [e], t)
  {
    assert (log + [e])[..|log|] == log;
  }

  /** Who made each knock. */
  function Killers(knock: map<Entity, Knock>): map<Entity, Entity> {
    map e | e in knock :: knock[e].killer
  }

  /** The victims died in this order, each death credited to the one who made the knock. */
  ghost predicate DiedInOrder(before: seq<Entry>, log: seq<Entry>, knock: map<Entity, Knock>, victims: set<Entity>,
                              order: seq<Entity>) {
    Visits(victims, order) && log == before + Deaths(Killers(knock), order)
  }

  function OneMoreDeath(knock: map<Entity, Knock>, e: Entity, dies: bool): seq<Entry>
    requires e in knock
  {
    if dies then [Died(e, knock[e].killer)] else []
  }

  lemma DiedMore(before: seq<Entry>, log: seq<Entry>, knock: map<Entity, Knock>, victims: set<Entity>,
                 order: seq<Entity>, e: Entity, dies: bool)
    requires DiedInOrder(before, log, knock, victims, order) && e in knock && e !in victims
    ensures DiedInOrder(before, log + OneMoreDeath(knock, e, dies), knock,
                        victims + (if dies then {e} else {}), order + if dies then [e] else [])
  {
    if dies {
      assert (order + [e])[..|order|] == order;
      assert before + Deaths(Killers(knock), order + [e]) ==
             (before + Deaths(Killers(knock), order)) + [Died(e, knock[e].killer)];
    } else {
      assert order + [] == order && victims + {} == victims && log + [] == log;
    }
  }

  lemma DiedNobody(log: seq<Entry>, knock: map<Entity, Knock>)
    ensures DiedInOrder(log, log, knock, {}, [])
  {
    assert log + [] == log;
  }

  /** The books after deaths in order. */
  lemma DiedBooks(r: Rules, before: seq<Entry>, log: seq<Entry>, knock: map<Entity, Knock>, victims: set<Entity>,
                  order: seq<Entity>)
    requires DiedInOrder(before, log, knock, victims, order) && victims <= knock.Keys
    ensures BookOf(r, log) == CreditAll(BookOf(r, before), r, Killers(knock), order)
  {
    BookOfDeaths(r, before, Killers(knock), order);
  }

  function BledIn(s: State, order: seq<Entity>, now: int): set<Entity> {
    set e | e in order && e in Bled(s, now)
  }

  lemma BledMore(s: State, order: seq<Entity>, e: Entity, now: int)
    ensures BledIn(s, order + [e], now) == BledIn(s, order, now) + if e in Bled(s, now) then {e} else {}
  {
  }

  lemma BledAll(s: State, order: seq<Entity>, now: int)
    requires forall e :: e in order <==> e in s.knock
    ensures BledIn(s, order, now) == Bled(s, now)
  {
  }

  /** The maps of a running match. The roster is fixed; unlimited is the money-test switch of the configuration. */
  class Match {
    const m: Setup
    const rules: Rules
    const unlimited: bool

    var hp: map<Entity, nat>
    var life: map<Entity, Life>
    var knock: map<Entity, Knock>
    var rescues: map<Entity, Rescue>
    var roundOver: bool
    var lastTeamFell: Team
    var firstBlood: Entity
    var kills: map<Entity, nat>
    var deaths: map<Entity, nat>
    var roundKills: map<Entity, nat>
    var coins: map<Entity, nat>
    ghost var log: seq<Entry>
    ghost var past: seq<Event>

    function Now(): State
      reads this`hp, this`life, this`knock, this`rescues, this`roundOver
    {
      State(hp, life, knock, rescues, roundOver)
    }

    function Ledger(): Book
      reads this`deaths, this`kills, this`roundKills, this`firstBlood, this`coins
    {
      Book(deaths, kills, roundKills, firstBlood, coins)
    }

    /** The books agree with the log. */
    ghost predicate Posted()
      reads this`deaths, this`kills, this`roundKills, this`firstBlood, this`coins, this`log
    {
      Ledger() == BookOf(rules, log)
    }

    ghost predicate Once()
      reads this`hp, this`life, this`knock, this`rescues, this`roundOver, this`log
    {
      DiedOnce(log, Now())
    }

    ghost predicate Kept()
      reads this
    {
      Posted() && Once()
    }

    /** initHP, with the players' starting coins. */
    constructor (m: Setup, rules: Rules, unlimited: bool)
      requires m.Valid() && rules.humans == HumanIds(m.roster.players)
      ensures Kept() && Now() == Fresh(m) && log == [] && past == []
      ensures this.m == m && this.rules == rules && this.unlimited == unlimited
    {
      this.m, this.rules, this.unlimited := m, rules, unlimited;
      hp := map e | e in m.ids :: m.maxHP;
      life := map e | e in m.ids :: Alive;
      knock, rescues, roundOver, lastTeamFell, firstBlood := map[], map[], false, 0, 0;
      kills, deaths := map[], map[];
      roundKills := map h | h in rules.humans :: 0;
      coins := map h | h in rules.humans :: StartingCoins(rules.table) % COIN_RANGE;
      log, past := [], [];
    }

    method CreditDeath(victim: Entity, killer: Entity)
      modifies this`deaths, this`kills, this`firstBlood, this`roundKills
      ensures Ledger() == Credit(old(Ledger()), rules, victim, killer)
    {
      deaths := deaths[victim := (Get(deaths, victim) + 1) % COUNT_RANGE];
      if killer != 0 && TeamOf(killer) != TeamOf(victim) {
        kills := kills[killer := (Get(kills, killer) + 1) % COUNT_RANGE];
        if firstBlood == 0 {
          firstBlood := killer;
        }
        if killer in rules.humans {
          roundKills := roundKills[killer := (Get(roundKills, killer) + 1) % COIN_RANGE];
        }
      }
    }

    /** The death that was just credited goes on the log. */
    ghost method LogDeath(before: State, book: Book, victim: Entity, killer: Entity)
      requires book == BookOf(rules, log) && Ledger() == Credit(book, rules, victim, killer) && DiedOnce(log, before)
      requires before.LifeOf(victim) != Dead && life == before.life[victim := Dead]
      modifies this`log
      ensures Posted() && Once() && log == old(log) + [Died(victim, killer)]
    {
      BookOneMore(rules, log, Died(victim, killer));
      DiedOnceMore(log, before, Now(), victim, killer);
      log := log + [Died(victim, killer)];
    }

    /** A knock becomes a death, credited to whoever made the knock. */
    method FinalizeKnock(entity: Entity, ks: Knock)
      requires Posted() && Once() && Now().LifeOf(entity) != Dead
      modifies this`hp, this`life, this`knock, this`rescues
      modifies this`deaths, this`kills, this`firstBlood, this`roundKills, this`log
      ensures Posted() && Once() && Now() == Finalize(old(Now()), entity)
      ensures log == old(log) + [Died(entity, ks.killer)]
    {
      ghost var before, book := Now(), Ledger();
      CreditDeath(entity, ks.killer);
      life := life[entity := Dead];
      hp := hp[entity := 0];
      knock := knock - {entity};
      rescues := rescues - {entity};
      LogDeath(before, book, entity, ks.killer);
    }

    /** One turn of the loop over a fallen team. */
    method Fall(team: Team, e: Entity)
      requires Posted() && Once() && e in knock
      modifies this`hp, this`life, this`knock, this`rescues
      modifies this`deaths, this`kills, this`firstBlood, this`roundKills, this`log
      ensures Posted() && Once()
      ensures Now() == if Dies(old(Now()), team, e) then Finalize(old(Now()), e) else old(Now())
      ensures log == old(log) + OneMoreDeath(old(knock), e, Dies(old(Now()), team, e))
    {
      if TeamOf(e) == team && Now().LifeOf(e) == Knocked {
        FinalizeKnock(e, knock[e]);
      }
    }

    /**
     Whatever the order in which the map is walked, every member still down dies of the knock, in the order reported.
     What depends on it is said by Books.FirstBloodSettled.
     */
    method TeamFellToZero(team: Team) returns (ghost fell: seq<Entity>)
      requires Posted() && Once()
      modifies this`hp, this`life, this`knock, this`rescues, this`lastTeamFell
      modifies this`deaths, this`kills, this`firstBlood, this`roundKills, this`log
      ensures Posted() && Once() && Now() == FinalizeAll(old(Now()), Downed(old(Now()), team))
      ensures DiedInOrder(old(log), log, old(knock), Downed(old(Now()), team), fell) && lastTeamFell == team
      ensures Ledger() == CreditAll(old(Ledger()), rules, Killers(old(knock)), fell)
    {
      ghost var s, before, done := Now(), log, [];
      var pending := knock.Keys;
      fell := [];
      DiedNobody(log, knock);
      assert DyingIn(s, team, []) == {};
      while pending != {}
        invariant Posted() && Once() && DiedInOrder(before, log, s.knock, DyingIn(s, team, done), fell)
        invariant Walk(s.knock.Keys, done, pending) && Now() == FallInTurn(s, team, done)
        decreases pending
      {
        var e :| e in pending;
        WalkOn(s.knock.Keys, done, pending, e);
        FallPending(s, team, done, e);
        FallMore(s, team, done, e);
        DyingMore(s, team, done, e);
        DiedMore(before, log, s.knock, DyingIn(s, team, done), fell, e, Dies(s, team, e));
        Fall(team, e);
        fell := fell + if Dies(s, team, e) then [e] else [];
        done, pending := done + [e], pending - {e};
      }
      FallAnyOrder(s, team, done);
      assert DyingIn(s, team, done) == Downed(s, team);
      DiedBooks(rules, before, log, s.knock, Downed(s, team), fell);
      lastTeamFell := team;
    }

    method KillEntity(victim: Entity, killer: Entity)
      requires Posted() && Once() && Now().LifeOf(victim) != Dead
      modifies this`hp, this`life, this`deaths, this`kills, this`firstBlood, this`roundKills, this`log
      ensures Posted() && Once() && Now() == Kill(old(Now()), victim)
      ensures log == old(log) + [Died(victim, killer)]
    {
      ghost var before, book := Now(), Ledger();
      CreditDeath(victim, killer);
      life := life[victim := Dead];
      hp := hp[victim := 0];
      LogDeath(before, book, victim, killer);
    }

    method KnockPlayer(victim: Entity, attacker: Entity, now: int)
      modifies this`hp, this`life, this`knock
      ensures Now() == KnockDown(old(Now()), victim, attacker, now)
    {
      life := life[victim := Knocked];
      knock := knock[victim := Knock(KNOCKDOWN_HP, now + BLEED_EVERY, attacker)];
      hp := hp[victim := KNOCKDOWN_HP];
    }

    /** teamSize. */
    method CountTeam(team: Team) returns (n: nat)
      ensures n == TeamSize(m, team)
    {
      n := 0;
      for i := 0 to |m.roster.players|
        invariant n == CountPlayers(m.roster.players[..i], team, _ => true)
      {
        CountNext(m.roster.players, i, team, _ => true);
        if m.roster.players[i].team == team {
          n := n + 1;
        }
      }
      assert m.roster.players[..|m.roster.players|] == m.roster.players;
      if team == ENEMY_TEAM && m.roster.bot != 0 {
        n := n + 1;
      }
    }

    /** teamAlive. */
    method CountAlive(team: Team) returns (n: nat)
      ensures n == TeamAlive(m, Now(), team)
    {
      n := 0;
      var up := Up(Now());
      for i := 0 to |m.roster.players|
        invariant n == CountPlayers(m.roster.players[..i], team, up)
      {
        CountNext(m.roster.players, i, team, up);
        if m.roster.players[i].team == team && Now().LifeOf(m.roster.players[i].entityID) == Alive {
          n := n + 1;
        }
      }
      assert m.roster.players[..|m.roster.players|] == m.roster.players;
      if team == ENEMY_TEAM && m.roster.bot != 0 && Now().LifeOf(m.roster.bot) == Alive {
        n := n + 1;
      }
    }

    /** A lethal hit: a lone member dies at once, anyone else goes down, and the last one down takes the team along. */
    method DownOrKill(victim: Entity, attacker: Entity, now: int) returns (ghost fell: seq<Entity>)
      requires Posted() && Once() && Now().LifeOf(victim) == Alive
      modifies this`hp, this`life, this`knock, this`rescues, this`lastTeamFell
      modifies this`deaths, this`kills, this`firstBlood, this`roundKills, this`log
      ensures Posted() && Once() && Now() == Lives.DownOrKill(m, old(Now()), victim, attacker, now)
      ensures TeamSize(m, TeamOf(victim)) <= 1 ==> log == old(log) + [Died(victim, attacker)]
      ensures TeamSize(m, TeamOf(victim)) > 1 ==>
                var down := KnockDown(old(Now()), victim, attacker, now);
                DiedInOrder(old(log), log, down.knock,
                            if TeamAlive(m, down, TeamOf(victim)) == 0 then Downed(down, TeamOf(victim)) else {}, fell)
      ensures Awards(log) == Awards(old(log))
    {
      var team := TeamOf(victim);
      fell := [];
      var size := CountTeam(team);
      if size <= 1 {
        AwardsMore(log, Died(victim, attacker));
        KillEntity(victim, attacker);
        return;
      }
      ghost var before := Now();
      KnockPlayer(victim, attacker, now);
      SameDead(log, before, Now());
      DiedNobody(log, knock);
      var alive := CountAlive(team);
      if alive == 0 {
        ghost var was, knocks := log, knock;
        fell := TeamFellToZero(team);
        DeathsAwardNothing(was, Killers(knocks), fell);
      }
    }

    method DamageKnocked(victim: Entity, dmg: nat)
      requires Posted() && Once() && Now().LifeOf(victim) == Knocked
      modifies this`hp, this`life, this`knock, this`rescues
      modifies this`deaths, this`kills, this`firstBlood, this`roundKills, this`log
      ensures Posted() && Once() && Now() == HitKnocked(old(Now()), victim, dmg)
      ensures log == if victim in old(knock) && dmg >= old(knock)[victim].hp
                     then old(log) + [Died(victim, old(knock)[victim].killer)] else old(log)
      ensures Awards(log) == Awards(old(log))
    {
      if victim !in knock {
        return;
      }
      var ks := knock[victim];
      if dmg >= ks.hp {
        AwardsMore(log, Died(victim, ks.killer));
        FinalizeKnock(victim, ks);
        return;
      }
      ghost var before := Now();
      knock := knock[victim := ks.(hp := ks.hp - dmg)];
      hp := hp[victim := ks.hp - dmg];
      SameDead(log, before, Now());
    }

    /** applyDamage: a hit on somebody who is up or down, by an enemy, a friend or (attacker 0) the zone. */
    method ApplyDamage(victim: Entity, attacker: Entity, dmg: nat, now: int)
      requires Posted() && Once()
      modifies this`hp, this`life, this`knock, this`rescues, this`lastTeamFell
      modifies this`deaths, this`kills, this`firstBlood, this`roundKills, this`log
      ensures Posted() && Once() && Now() == Damage(m, old(Now()), victim, attacker, dmg, now)
      ensures Awards(log) == Awards(old(log))
    {
      if roundOver {
        return;
      }
      if Now().LifeOf(victim) == Knocked {
        DamageKnocked(victim, dmg);
        return;
      }
      if Now().LifeOf(victim) != Alive {
        return;
      }
      if victim !in hp || hp[victim] == 0 {
        return;
      }
      ghost var before := Now();
      var cur := if dmg >= hp[victim] then 0 else hp[victim] - dmg;
      hp := hp[victim := cur];
      SameDead(log, before, Now());
      if cur == 0 {
        ghost var _ := DownOrKill(victim, attacker, now);
      }
    }

    /** One turn of the bleed loop. */
    method BleedTurn(e: Entity, now: int)
      requires Posted() && Once() && e in knock && Now().LifeOf(e) != Dead
      modifies this`hp, this`life, this`knock, this`rescues
      modifies this`deaths, this`kills, this`firstBlood, this`roundKills, this`log
      ensures Posted() && Once() && Now() == BleedOne(old(Now()), e, now)
      ensures log == old(log) + OneMoreDeath(old(knock), e, e in Bled(old(Now()), now))
    {
      var ks := knock[e];
      if now < ks.deadline {
        return;
      }
      ghost var s := Now();
      ks := ks.(deadline := ks.deadline + BLEED_EVERY);
      knock := knock[e := ks];
      if ks.hp <= BLEED_AMT {
        FinalizeTouched(s, e, ks, 0);
        SameDead(log, s, Now());
        FinalizeKnock(e, ks);
        return;
      }
      ks := ks.(hp := ks.hp - BLEED_AMT);
      knock := knock[e := ks];
      hp := hp[e := ks.hp];
      assert knock == s.knock[e := ks];
      SameDead(log, s, Now());
    }

    /** stepKnock: in whatever order the map is walked, all who are due bleed once; some die, in that order. */
    method StepKnock(now: int) returns (ghost died: seq<Entity>)
      requires Posted() && Once() && forall e :: e in knock ==> Now().LifeOf(e) == Knocked && e in hp
      modifies this`hp, this`life, this`knock, this`rescues
      modifies this`deaths, this`kills, this`firstBlood, this`roundKills, this`log
      ensures Posted() && Once() && Now() == Bleed(old(Now()), now)
      ensures DiedInOrder(old(log), log, old(knock), Bled(old(Now()), now), died)
      ensures Ledger() == CreditAll(old(Ledger()), rules, Killers(old(knock)), died)
    {
      ghost var s, before, done := Now(), log, [];
      var pending := knock.Keys;
      died := [];
      DiedNobody(log, knock);
      assert BledIn(s, [], now) == {};
      while pending != {}
        invariant Posted() && Once() && DiedInOrder(before, log, s.knock, BledIn(s, done, now), died)
        invariant Walk(s.knock.Keys, done, pending) && Now() == BleedInTurn(s, done, now)
        decreases pending
      {
        var e :| e in pending;
        WalkOn(s.knock.Keys, done, pending, e);
        BleedInTurnPending(s, done, e, now);
        BleedInTurnMore(s, done, e, now);
        BledMore(s, done, e, now);
        DiedMore(before, log, s.knock, BledIn(s, done, now), died, e, e in Bled(s, now));
        BleedTurn(e, now);
        died := died + if e in Bled(s, now) then [e] else [];
        done, pending := done + [e], pending - {e};
      }
      BleedAnyOrder(s, done, now);
      BledAll(s, done, now);
      DiedBooks(rules, before, log, s.knock, Bled(s, now), died);
    }

    method StartRescue(reviver: Entity, target: Entity, now: int)
      requires Posted() && Once()
      modifies this`rescues
      ensures Posted() && Once() && Now() == Lives.StartRescue(old(Now()), reviver, target, now)
    {
      ghost var s := Now();
      if Now().LifeOf(target) != Knocked || Now().LifeOf(reviver) != Alive || TeamOf(reviver) != TeamOf(target) {
        return;
      }
      if target in rescues {
        return;
      }
      rescues := rescues[target := Rescue(reviver, target, now + REVIVE_DURATION)];
      SameDead(log, s, Now());
    }

    method StopRescue(reviver: Entity, target: Entity)
      requires Posted() && Once()
      modifies this`rescues
      ensures Posted() && Once() && Now() == Lives.StopRescue(old(Now()), reviver, target)
    {
      ghost var s := Now();
      if target in rescues && rescues[target].reviver == reviver {
        rescues := rescues - {target};
        SameDead(log, s, Now());
      }
    }

    /** One turn of the rescue loop. */
    method RescueTurn(target: Entity, now: int)
      requires Posted() && Once() && target in rescues && rescues[target].target == target
      modifies this`hp, this`life, this`knock, this`rescues
      ensures Posted() && Once() && Now() == RescueOne(old(Now()), target, now)
    {
      ghost var s := Now();
      var r := rescues[target];
      if Now().LifeOf(target) != Knocked || Now().LifeOf(r.reviver) != Alive {
        rescues := rescues - {target};
        SameDead(log, s, Now());
        return;
      }
      if now < r.completeAt {
        return;
      }
      rescues := rescues - {target};
      life := life[r.target := Alive];
      hp := hp[r.target := REVIVE_HP];
      knock := knock - {r.target};
      SameDead(log, s, Now());
    }

    /** stepRescue, reporting the order in which the map was walked. */
    method StepRescue(now: int) returns (ghost order: seq<Entity>)
      requires Posted() && Once() && forall e :: e in rescues ==> rescues[e].target == e
      modifies this`hp, this`life, this`knock, this`rescues
      ensures Posted() && Once() && Now() == RescueAll(old(Now()), order, now)
      ensures forall e :: e in order <==> e in old(rescues)
      ensures forall i, j :: 0 <= i < j < |order| ==> order[i] != order[j]
    {
      ghost var s := Now();
      var pending := rescues.Keys;
      order := [];
      while pending != {}
        invariant Posted() && Once()
        invariant Walk(s.rescues.Keys, order, pending) && Now() == RescueAll(s, order, now)
        decreases pending
      {
        var e :| e in pending;
        WalkOn(s.rescues.Keys, order, pending, e);
        RescuePending(s, order, e, now);
        RescueAllMore(s, order, e, now);
        RescueTurn(e, now);
        order, pending := order + [e], pending - {e};
      }
    }

    method ReviveHumans()
      modifies this`hp, this`life
      ensures Now() == ReviveSome(m, old(Now()), HumanIds(m.roster.players))
    {
      ghost var s := Now();
      ReviveNobody(m, s);
      for i := 0 to |m.roster.players|
        invariant Now() == ReviveSome(m, s, HumanIds(m.roster.players[..i]))
      {
        var e := m.roster.players[i].entityID;
        HumanNext(m.roster.players, i);
        ReviveMore(m, s, HumanIds(m.roster.players[..i]), e);
        life := life[e := Alive];
        hp := hp[e := m.maxHP];
      }
      assert m.roster.players[..|m.roster.players|] == m.roster.players;
    }

    /** reviveAll: every human, then the bot, and the maps of knocks and rescues start over. */
    method ReviveEverybody()
      requires m.ids == m.roster.Ids()
      modifies this`hp, this`life, this`knock, this`rescues, this`roundOver
      ensures Now() == Lives.ReviveAll(m, old(Now()))
    {
      RevivedAll(m, Now());
      ReviveHumans();
      if m.roster.bot != 0 {
        life := life[m.roster.bot := Alive];
        hp := hp[m.roster.bot := m.maxHP];
      }
      knock, rescues, roundOver := map[], map[], false;
    }

    method ReviveAll()
      requires m.ids == m.roster.Ids() && Posted() && forall e :: e in life ==> e in m.ids
      modifies this`hp, this`life, this`knock, this`rescues, this`roundOver, this`log
      ensures Posted() && Once() && Now() == Lives.ReviveAll(m, old(Now())) && log == old(log) + [Revived]
    {
      ghost var book := Ledger();
      RevivedOnce(m, Now(), log);
      BookOneMore(rules, log, Revived);
      ReviveEverybody();
      assert Ledger() == book;
      log := log + [Revived];
    }

    /** One turn of the award loop. */
    method PayOne(p: Player, round: int, winner: Team, streak: nat)
      requires TeamOf(p.entityID) == p.team
      modifies this`roundKills, this`coins
      ensures Ledger() ==
              PaidOne(old(Ledger()), p.entityID, AwardTo(old(Ledger()), rules, p.entityID, round, winner, streak))
    {
      var aw := Award(round, rules.table, rules.events, Get(roundKills, p.entityID), p.team == winner, streak,
                      p.entityID == firstBlood);
      roundKills := roundKills[p.entityID := 0];
      coins := coins[p.entityID := (Get(coins, p.entityID) + aw) % COIN_RANGE];
    }

    method PayHumans(round: int, winner: Team, streak: nat)
      requires OwnIds(m.roster.players) && rules.humans == HumanIds(m.roster.players)
      requires roundKills.Keys == coins.Keys == rules.humans
      modifies this`roundKills, this`coins
      ensures Ledger() == PaySome(old(Ledger()), rules, rules.humans, round, winner, streak)
    {
      ghost var b := Ledger();
      PayNobody(b, rules, round, winner, streak);
      for i := 0 to |m.roster.players|
        invariant Ledger() == PaySome(b, rules, HumanIds(m.roster.players[..i]), round, winner, streak)
      {
        var p := m.roster.players[i];
        HumanNext(m.roster.players, i);
        HumanIn(m.roster.players, i);
        PayMore(b, rules, HumanIds(m.roster.players[..i]), p.entityID, round, winner, streak);
        PayOne(p, round, winner, streak);
      }
      assert m.roster.players[..|m.roster.players|] == m.roster.players;
    }

    /** The award loop of endFight: each human is paid for the round and the kills of it, which then count as paid. */
    method AwardRound(round: int, winner: Team, streak: nat)
      requires m.roster.Valid() && rules.humans == HumanIds(m.roster.players) && Posted() && Once()
      modifies this`roundKills, this`coins, this`firstBlood, this`log
      ensures Posted() && Once() && log == old(log) + [RoundPaid(round, winner, streak)]
    {
      RosterOwnIds(m.roster);
      OnlyHumansOnTheBooks(rules, log);
      BookOneMore(rules, log, RoundPaid(round, winner, streak));
      PayHumans(round, winner, streak);
      firstBlood := 0;
      DiedOnceStill(log, Now(), RoundPaid(round, winner, streak), Now());
      log := log + [RoundPaid(round, winner, streak)];
    }

    /** The balance part of handleCSPurchase: only a purchase within the balance is charged. */
    method Purchase(h: Entity, unitPrice: nat, qty: nat, atLimit: bool) returns (ok: bool)
      requires h in rules.humans && Posted() && Once()
      modifies this`coins, this`log
      ensures Posted() && Once()
      ensures ok == (!atLimit && (unlimited || Price(unitPrice, qty) <= Get(old(coins), h)))
      ensures log == if ok && !unlimited then old(log) + [Bought(h, Price(unitPrice, qty))] else old(log)
    {
      OnlyHumansOnTheBooks(rules, log);
      var price := Price(unitPrice, qty);
      if atLimit {
        return false;
      }
      if coins[h] < price && !unlimited {
        return false;
      }
      ok := true;
      if !unlimited {
        Charge(h, price);
      }
    }

    method Charge(h: Entity, price: nat)
      requires CanPay(Ledger(), h, price) && Posted() && Once()
      modifies this`coins, this`log
      ensures Posted() && Once() && log == old(log) + [Bought(h, price)]
    {
      BookOneMore(rules, log, Bought(h, price));
      DiedOnceStill(log, Now(), Bought(h, price), Now());
      coins := coins[h := coins[h] - price];
      log := log + [Bought(h, price)];
    }

    /** What a tick of a medkit gives somebody who is up. */
    method Treat(e: Entity, steps: nat)
      requires Posted() && Once()
      modifies this`hp
      ensures Posted() && Once() && Now() == Lives.Treat(m, old(Now()), e, steps)
    {
      ghost var s := Now();
      if Now().LifeOf(e) != Alive || e !in hp {
        return;
      }
      var h := (hp[e] + steps) % U16;
      if h > m.maxHP {
        h := m.maxHP;
      }
      hp := hp[e := h];
      SameDead(log, s, Now());
    }

    /** What a tick of the energy gives somebody who is up and short of full hit points. */
    method Feed(e: Entity, gain: nat)
      requires Posted() && Once()
      modifies this`hp
      ensures Posted() && Once() && Now() == Lives.Feed(m, old(Now()), e, gain)
    {
      ghost var s := Now();
      if Now().LifeOf(e) != Alive || e !in hp || hp[e] == 0 || hp[e] >= m.maxHP {
        return;
      }
      var more := gain;
      if (hp[e] + more) % U16 > m.maxHP {
        more := m.maxHP - hp[e];
      }
      hp := hp[e := (hp[e] + more) % U16];
      SameDead(log, s, Now());
    }

    method DecideRound()
      requires Posted() && Once()
      modifies this`roundOver
      ensures Posted() && Once() && Now() == old(Now()).(roundOver := true)
    {
      ghost var s := Now();
      roundOver := true;
      SameDead(log, s, Now());
    }

    /** What the handlers below rely on: somebody with a knock is down, a rescue is filed under its target. */
    ghost predicate Tidy()
      reads this`hp, this`life, this`knock, this`rescues, this`roundOver
    {
      && (forall e :: e in knock ==> Now().LifeOf(e) == Knocked && e in hp)
      && (forall e :: e in rescues ==> rescues[e].target == e)
      && (forall e :: e in life ==> e in m.ids)
    }

    method Tick(ev: Event) returns (ghost taken: Event)
      requires (ev.BleedTick? || ev.RescueTick? || ev.NextRound?) && m.ids == m.roster.Ids()
      requires Tidy() && Posted() && Once()
      modifies this`hp, this`life, this`knock, this`rescues, this`roundOver
      modifies this`deaths, this`kills, this`firstBlood, this`roundKills, this`log
      ensures Posted() && Once() && Now() == Step(m, old(Now()), taken)
      ensures if ev.RescueTick? then taken.RescueTick? && taken.now == ev.now else taken == ev
      ensures ev.NextRound? ==> log == old(log) + [Revived]
      ensures Awards(log) == Awards(old(log))
    {
      taken := ev;
      AwardsMore(log, Revived);
      if ev.BleedTick? {
        ghost var was, knocks := log, knock;
        ghost var died := StepKnock(ev.now);
        DeathsAwardNothing(was, Killers(knocks), died);
      } else if ev.RescueTick? {
        ghost var order := StepRescue(ev.now);
        taken := RescueTick(order, ev.now);
      } else {
        ReviveAll();
      }
    }

    method Handle(ev: Event)
      requires !ev.BleedTick? && !ev.RescueTick? && !ev.NextRound?
      requires Posted() && Once()
      modifies this`hp, this`life, this`knock, this`rescues, this`roundOver, this`lastTeamFell
      modifies this`deaths, this`kills, this`firstBlood, this`roundKills, this`log
      ensures Posted() && Once() && Now() == Step(m, old(Now()), ev)
      ensures ev.RoundDecided? ==> log == old(log)
      ensures Awards(log) == Awards(old(log))
    {
      if ev.Hit? {
        ApplyDamage(ev.victim, ev.attacker, ev.dmg, ev.now);
      } else if ev.Begin? {
        StartRescue(ev.reviver, ev.target, ev.now);
      } else if ev.Stop? {
        StopRescue(ev.reviver, ev.target);
      } else if ev.Treating? {
        Treat(ev.e, ev.steps);
      } else if ev.Feeding? {
        Feed(ev.e, ev.gain);
      } else {
        DecideRound();
      }
    }

    /**
     One event of the match, whichever it is. The maps stay the run of all events so far, to which every result of
     Lives.dfy about runs applies, and the books stay those of the log.
     */
    method Apply(ev: Event) returns (ghost taken: Event)
      requires m.Valid() && Posted() && Once() && Now() == Run(m, past)
      modifies this
      ensures Posted() && Once() && Now() == Run(m, past) && past == old(past) + [taken]
      ensures if ev.RescueTick? then taken.RescueTick? && taken.now == ev.now else taken == ev
      ensures (ev.RoundDecided? ==> log == old(log)) && (ev.NextRound? ==> log == old(log) + [Revived])
      ensures Awards(log) == Awards(old(log))
    {
      RunFacts(m, past);
      taken := ev;
      if ev.BleedTick? || ev.RescueTick? || ev.NextRound? {
        taken := Tick(ev);
      } else {
        Handle(ev);
      }
      RunMore(m, past, taken);
      past := past + [taken];
    }
  }
}
