/**
 What the log of a match says a player has coming to him: his kills by the teams of the roster, and his income from
 counting rounds, wins, losses in a row, kills and first bloods, which the books come to as well (match-server/match.go,
 endFight, and match-server/economy.go).
 */
module Income {
  import opened Books
  import opened Bytes
  import opened Economy
  import opened Roster

  // ----- Kills by the roster -----

  /** The team that somebody was given when he was put on the roster; whoever is not on it has his id to go by. */
  ghost function TeamIn(ro: Roster, e: Entity): Team {
    if ro.IsHuman(e) then
      var i :| 0 <= i < |ro.players| && ro.players[i].entityID == e;
      ro.players[i].team
    else if e == ro.bot && ro.bot != 0 then ENEMY_TEAM
    else TeamOf(e)
  }

  /** Somebody else's death by k is a kill if k is anybody at all, on the other team. */
  ghost predicate Enemies(ro: Roster, victim: Entity, k: Entity) {
    k != 0 && TeamIn(ro, victim) != TeamIn(ro, k)
  }

  lemma EnemiesKill(ro: Roster, victim: Entity, killer: Entity)
    requires ro.Valid()
    ensures IsKill(victim, killer) <==> Enemies(ro, victim, killer)
  {
    assert TeamIn(ro, victim) == TeamOf(victim) && TeamIn(ro, killer) == TeamOf(killer);
  }

  /** The deaths that k dealt to the other team. */
  ghost function EnemyKills(ro: Roster, log: seq<Entry>, k: Entity): nat {
    if log == [] then 0 else
    var e := log[|log| - 1];
    EnemyKills(ro, log[..|log| - 1], k)
    + if e.Died? && e.killer == k && Enemies(ro, e.victim, k) then 1 else 0
  }

  lemma {:induction false} KillsAreOfEnemies(ro: Roster, log: seq<Entry>, k: Entity)
    requires ro.Valid()
    ensures KillsOf(log, k) == EnemyKills(ro, log, k)
    decreases |log|
  {
    if log != [] {
      KillsAreOfEnemies(ro, log[..|log| - 1], k);
      if log[|log| - 1].Died? {
        EnemiesKill(ro, log[|log| - 1].victim, k);
      }
    }
  }

  /** The scoreboard has the deaths that somebody dealt to the other team of the roster, and no others. */
  lemma ScoreIsOfEnemies(ro: Roster, r: Rules, log: seq<Entry>, k: Entity)
    requires ro.Valid()
    ensures Get(BookOf(r, log).kills, k) == EnemyKills(ro, log, k) % COUNT_RANGE
  {
    ScoreboardCounts(r, log, k);
    KillsAreOfEnemies(ro, log, k);
  }

  // ----- Counting the rounds that were paid -----

  function WinsOf(log: seq<Entry>, team: Team): nat {
    if log == [] then 0 else
    var e := log[|log| - 1];
    WinsOf(log[..|log| - 1], team) + if e.RoundPaid? && e.winner == team then 1 else 0
  }

  /** The rounds the team has lost in a row, up to now. */
  function LosingRun(log: seq<Entry>, team: Team): nat {
    if log == [] then 0 else
    var before, e := LosingRun(log[..|log| - 1], team), log[|log| - 1];
    if !e.RoundPaid? then before else if e.winner == team then 0 else before + 1
  }

  /** The losses that were the n-th in a row. */
  function LossesAt(log: seq<Entry>, team: Team, n: nat): nat {
    if log == [] then 0 else
    var e := log[|log| - 1];
    LossesAt(log[..|log| - 1], team, n)
    + if e.RoundPaid? && e.winner != team && LosingRun(log, team) == n then 1 else 0
  }

  /** Those that were at least the n-th. */
  function LossesFrom(log: seq<Entry>, team: Team, n: nat): nat {
    if log == [] then 0 else
    var e := log[|log| - 1];
    LossesFrom(log[..|log| - 1], team, n)
    + if e.RoundPaid? && e.winner != team && LosingRun(log, team) >= n then 1 else 0
  }

  /** Who drew first blood since the last round was paid, 0 if nobody. */
  function FirstKill(log: seq<Entry>): Entity {
    if log == [] then 0 else
    var before, e := FirstKill(log[..|log| - 1]), log[|log| - 1];
    if e.RoundPaid? then 0
    else if before == 0 && e.Died? && IsKill(e.victim, e.killer) then e.killer else before
  }

  /** The rounds in which h drew it. */
  function FirstBloods(log: seq<Entry>, h: Entity): nat {
    if log == [] then 0 else
    var before := log[..|log| - 1];
    FirstBloods(before, h) + if log[|log| - 1].RoundPaid? && FirstKill(before) == h then 1 else 0
  }

  /** The kills that the last award and those before it paid for: all up to then. */
  function KillsPaid(log: seq<Entry>, h: Entity): nat {
    if log == [] then 0
    else if log[|log| - 1].RoundPaid? then KillsOf(log, h) else KillsPaid(log[..|log| - 1], h)
  }

  /** The entry of the table for a round: the one with its number, or the nearest that is no starting money. */
  function BaseOf(round: int, table: seq<nat>): nat {
    var t := Table(table);
    var last := |t| - 1;
    t[if last < round then last else if round < 1 then (if last < 1 then last else 1) else round]
  }

  function BasesOf(log: seq<Entry>, table: seq<nat>): nat {
    if log == [] then 0 else
    var e := log[|log| - 1];
    BasesOf(log[..|log| - 1], table) + if e.RoundPaid? then BaseOf(e.round, table) else 0
  }

  /** n times the coins a. */
  function Each(a: nat, n: nat): nat {
    a * n
  }

  /** Everything that h has coming. */
  function IncomeOf(r: Rules, log: seq<Entry>, h: Entity): nat {
    var ev, team := r.events, TeamOf(h);
    BasesOf(log, r.table) + Each(ev.perKill, KillsPaid(log, h)) + Each(ev.winRound, WinsOf(log, team))
    + Each(ev.lossRound, LossesFrom(log, team, 1)) + Each(ev.lossStreak2, LossesAt(log, team, 2))
    + Each(ev.lossStreak3, LossesFrom(log, team, 3)) + Each(ev.firstBlood, FirstBloods(log, h))
  }

  /** Each round was paid with the losing run of the team that lost it. */
  ghost predicate Streaked(log: seq<Entry>) {
    log == [] ||
    var e := log[|log| - 1];
    && Streaked(log[..|log| - 1])
    && (e.RoundPaid? && e.winner != LOCAL_TEAM ==> e.streak == LosingRun(log, LOCAL_TEAM))
    && (e.RoundPaid? && e.winner != ENEMY_TEAM ==> e.streak == LosingRun(log, ENEMY_TEAM))
  }

  // ----- The books come to it -----

  lemma RoundIncomeIs(round: int, table: seq<nat>)
    ensures RoundIncome(round, table) == BaseOf(round, table)
  {
  }

  lemma WaitMore(kills: nat, paid: nat)
    requires paid <= kills
    ensures ((kills - paid) % COIN_RANGE + 1) % COIN_RANGE == (kills + 1 - paid) % COIN_RANGE
  {
    ModAdd(kills - paid, 1, COIN_RANGE);
  }

  /** The kills that are waiting are those after the last award. */
  ghost predicate Outstanding(b: Book, h: Entity, kills: nat, paid: nat) {
    paid <= kills && Get(b.roundKills, h) == (kills - paid) % COIN_RANGE
  }

  lemma WaitingMore(b: Book, r: Rules, e: Entry, h: Entity, kills: nat, paid: nat)
    requires h in r.humans && h in b.roundKills && Outstanding(b, h, kills, paid)
    ensures var more := kills + if e.Died? && e.killer == h && IsKill(e.victim, h) then 1 else 0;
            Outstanding(Post(b, r, e), h, more, if e.RoundPaid? then more else paid)
  {
    WaitMore(kills, paid);
  }

  lemma KillsPaidMore(log: seq<Entry>, h: Entity)
    requires log != []
    ensures KillsPaid(log, h) == if log[|log| - 1].RoundPaid? then KillsOf(log, h) else KillsPaid(log[..|log| - 1], h)
  {
  }

  /** The kills that are waiting are those after the last award. */
  /** The kills that are waiting are those after the last award. */
  lemma {:induction false} WaitingIs(r: Rules, log: seq<Entry>, h: Entity)
    requires h in r.humans
    ensures Outstanding(BookOf(r, log), h, KillsOf(log, h), KillsPaid(log, h))
    decreases |log|
  {
    if log != [] {
      var before := log[..|log| - 1];
      OnlyHumansOnTheBooks(r, before);
      WaitingIs(r, before, h);
      WaitingMore(BookOf(r, before), r, log[|log| - 1], h, KillsOf(before, h), KillsPaid(before, h));
      KillsPaidMore(log, h);
    }
  }

  lemma {:induction false} FirstIs(r: Rules, log: seq<Entry>)
    ensures BookOf(r, log).firstBlood == FirstKill(log)
    decreases |log|
  {
    if log != [] {
      FirstIs(r, log[..|log| - 1]);
    }
  }

  /** What a round adds to the income of h, of whose kills that many are waiting. */
  function Gain(ev: Events, base: nat, kills: nat, won: bool, run: nat, first: bool): nat {
    base + Each(ev.perKill, kills) + (if won then ev.winRound else 0)
    + (if !won && run >= 1 then ev.lossRound else 0) + (if !won && run == 2 then ev.lossStreak2 else 0)
    + (if !won && run >= 3 then ev.lossStreak3 else 0) + if first then ev.firstBlood else 0
  }

  lemma Times(a: nat, n: nat, one: bool)
    ensures Each(a, n + if one then 1 else 0) == Each(a, n) + if one then a else 0
  {
  }

  lemma Split(a: nat, n: nat, d: nat)
    ensures Each(a, n + d) == Each(a, n) + Each(a, d)
  {
  }

  /** What the last entry adds. */
  function GainOf(r: Rules, log: seq<Entry>, h: Entity): nat
    requires log != []
  {
    var before, e := log[..|log| - 1], log[|log| - 1];
    var kills := if KillsPaid(before, h) <= KillsOf(before, h) then KillsOf(before, h) - KillsPaid(before, h) else 0;
    if !e.RoundPaid? then 0 else
    Gain(r.events, BaseOf(e.round, r.table), kills, e.winner == TeamOf(h), LosingRun(log, TeamOf(h)),
         FirstKill(before) == h)
  }

  function Gains(r: Rules, log: seq<Entry>, h: Entity): nat {
    if log == [] then 0 else Gains(r, log[..|log| - 1], h) + GainOf(r, log, h)
  }

  lemma IncomeMore(r: Rules, log: seq<Entry>, h: Entity)
    requires log != [] && KillsPaid(log[..|log| - 1], h) <= KillsOf(log[..|log| - 1], h)
    ensures IncomeOf(r, log, h) ==
            IncomeOf(r, log[..|log| - 1], h) + GainOf(r, log, h)
  {
    var before, e, ev, team := log[..|log| - 1], log[|log| - 1], r.events, TeamOf(h);
    if e.RoundPaid? {
      var won, run := e.winner == team, LosingRun(log, team);
      Split(ev.perKill, KillsPaid(before, h), KillsOf(before, h) - KillsPaid(before, h));
      Times(ev.winRound, WinsOf(before, team), won);
      Times(ev.lossRound, LossesFrom(before, team, 1), !won && run >= 1);
      Times(ev.lossStreak2, LossesAt(before, team, 2), !won && run == 2);
      Times(ev.lossStreak3, LossesFrom(before, team, 3), !won && run >= 3);
      Times(ev.firstBlood, FirstBloods(before, h), FirstKill(before) == h);
    }
  }

  lemma MulMod(a: nat, d: nat)
    ensures Each(a, d % COIN_RANGE) % COIN_RANGE == Each(a, d) % COIN_RANGE
  {
    var q, w := d / COIN_RANGE, d % COIN_RANGE;
    var x := a * w;
    assert a * d == COIN_RANGE * (a * q) + x by {
      assert d == COIN_RANGE * q + w;
    }
    assert a * d == COIN_RANGE * (a * q + x / COIN_RANGE) + x % COIN_RANGE;
    DivModUnique(a * d, COIN_RANGE, a * q + x / COIN_RANGE, x % COIN_RANGE);
  }

  /** Sums of congruent numbers are congruent. */
  lemma SumMod(a: nat, b: nat, x: nat, y: nat)
    requires a % COIN_RANGE == b % COIN_RANGE && x % COIN_RANGE == y % COIN_RANGE
    ensures (a + x) % COIN_RANGE == (b + y) % COIN_RANGE
  {
    ModAdd(a, x, COIN_RANGE);
    ModAdd(b, x, COIN_RANGE);
    ModAdd(x, b, COIN_RANGE);
    ModAdd(y, b, COIN_RANGE);
  }

  /** An award is the gain, modulo 2^32. */
  lemma AwardIsGain(round: int, table: seq<nat>, ev: Events, d: nat, won: bool, run: nat, first: bool)
    requires won || run >= 1
    ensures Award(round, table, ev, d % COIN_RANGE, won, run, first) ==
            Gain(ev, BaseOf(round, table), d, won, run, first) % COIN_RANGE
  {
    RoundIncomeIs(round, table);
    MulMod(ev.perKill, d);
    var rest := Gain(ev, BaseOf(round, table), 0, won, run, first);
    assert Gain(ev, BaseOf(round, table), d, won, run, first) == rest + Each(ev.perKill, d);
    SumMod(rest, rest, Each(ev.perKill, d % COIN_RANGE), Each(ev.perKill, d));
  }

  lemma LostOnce(log: seq<Entry>, team: Team)
    requires log != [] && log[|log| - 1].RoundPaid? && log[|log| - 1].winner != team
    ensures LosingRun(log, team) >= 1
  {
  }

  lemma PaidMore(r: Rules, b: Book, e: Entry, h: Entity, d: nat, run: nat)
    requires e.RoundPaid? && Get(b.roundKills, h) == d % COIN_RANGE
    requires e.winner == TeamOf(h) || (e.streak == run && run >= 1)
    ensures EarnedBy(b, r, e, h) ==
            Gain(r.events, BaseOf(e.round, r.table), d, e.winner == TeamOf(h), run, b.firstBlood == h) % COIN_RANGE
  {
    if e.winner == TeamOf(h) {
      AwardIsGain(e.round, r.table, r.events, d, true, e.streak, h == b.firstBlood);
    } else {
      AwardIsGain(e.round, r.table, r.events, d, false, run, h == b.firstBlood);
    }
  }

  lemma PaidIsGain(r: Rules, log: seq<Entry>, h: Entity)
    requires log != [] && h in r.humans && TeamOf(h) in {LOCAL_TEAM, ENEMY_TEAM} && Streaked(log)
    ensures EarnedBy(BookOf(r, log[..|log| - 1]), r, log[|log| - 1], h) == GainOf(r, log, h) % COIN_RANGE
  {
    var before, e := log[..|log| - 1], log[|log| - 1];
    if e.RoundPaid? {
      WaitingIs(r, before, h);
      FirstIs(r, before);
      if e.winner != TeamOf(h) {
        LostOnce(log, TeamOf(h));
      }
      PaidMore(r, BookOf(r, before), e, h, KillsOf(before, h) - KillsPaid(before, h), LosingRun(log, TeamOf(h)));
    }
  }

  lemma PartMod(a: nat, b: nat, x: nat, y: nat)
    requires a % COIN_RANGE == b % COIN_RANGE && x == y % COIN_RANGE
    ensures (a + x) % COIN_RANGE == (b + y) % COIN_RANGE
  {
    SumMod(a, b, x, y);
  }

  /** What was earned is the gains of the rounds, modulo 2^32. */
  lemma {:induction false} EarnedIsGains(r: Rules, log: seq<Entry>, h: Entity)
    requires h in r.humans && TeamOf(h) in {LOCAL_TEAM, ENEMY_TEAM} && Streaked(log)
    ensures EarnedOf(r, log, h) % COIN_RANGE == Gains(r, log, h) % COIN_RANGE
    decreases |log|
  {
    if log != [] {
      var before, e := log[..|log| - 1], log[|log| - 1];
      EarnedIsGains(r, before, h);
      LastPosting(r, log, h);
      PaidIsGain(r, log, h);
      PartMod(EarnedOf(r, before, h), Gains(r, before, h), EarnedBy(BookOf(r, before), r, e, h), GainOf(r, log, h));
    }
  }

  lemma {:induction false} GainsAreIncome(r: Rules, log: seq<Entry>, h: Entity)
    requires h in r.humans
    ensures Gains(r, log, h) == IncomeOf(r, log, h)
    decreases |log|
  {
    if log != [] {
      GainsAreIncome(r, log[..|log| - 1], h);
      WaitingIs(r, log[..|log| - 1], h);
      IncomeMore(r, log, h);
    }
  }

  /**
   What a human has earned is, modulo 2^32, the base income of every round paid, so much for each of his kills up to the
   last award, for each round his team won, for each it lost, more for every second loss in a row and for every one from
   the third on, and for each round in which he drew first blood.
   */
  lemma EarnedIsIncome(r: Rules, log: seq<Entry>, h: Entity)
    requires h in r.humans && TeamOf(h) in {LOCAL_TEAM, ENEMY_TEAM} && Streaked(log)
    ensures EarnedOf(r, log, h) % COIN_RANGE == IncomeOf(r, log, h) % COIN_RANGE
  {
    EarnedIsGains(r, log, h);
    GainsAreIncome(r, log, h);
  }

  lemma SpentBack(start: nat, earned: nat, spent: nat, income: nat)
    requires spent <= start + earned && earned % COIN_RANGE == income % COIN_RANGE
    ensures ((start + earned - spent) % COIN_RANGE + spent) % COIN_RANGE == (start + income) % COIN_RANGE
  {
    ModAdd(start + earned - spent, spent, COIN_RANGE);
    SumMod(start, start, earned, income);
  }

  lemma CoinsAreGains(r: Rules, log: seq<Entry>, h: Entity)
    requires h in r.humans && TeamOf(h) in {LOCAL_TEAM, ENEMY_TEAM} && Streaked(log)
    ensures (Get(BookOf(r, log).coins, h) + SpentOf(r, log, h)) % COIN_RANGE ==
            (StartingCoins(r.table) + Gains(r, log, h)) % COIN_RANGE
  {
    BalanceIsExact(r, log, h);
    EarnedIsGains(r, log, h);
    SpentBack(StartingCoins(r.table), EarnedOf(r, log, h), SpentOf(r, log, h), Gains(r, log, h));
  }

  /** So his coins and what he spent are his starting money and that. */
  lemma CoinsAreIncome(r: Rules, log: seq<Entry>, h: Entity)
    requires h in r.humans && TeamOf(h) in {LOCAL_TEAM, ENEMY_TEAM} && Streaked(log)
    ensures (Get(BookOf(r, log).coins, h) + SpentOf(r, log, h)) % COIN_RANGE ==
            (Table(r.table)[0] + IncomeOf(r, log, h)) % COIN_RANGE
  {
    CoinsAreGains(r, log, h);
    GainsAreIncome(r, log, h);
  }
}
