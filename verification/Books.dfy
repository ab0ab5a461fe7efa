/**
 The books of a match: the scoreboard, the kills still to be paid, first blood and the players' coins, as functions of
 the log of what happened. DeathMatch.dfy shows that the match's maps are exactly these functions.
 */
module Books {
  import opened Bytes
  import opened Economy
  import opened Roster
  import opened Walks

  const COUNT_RANGE := 0x1_0000

  datatype Entry =
    | Died(victim: Entity, killer: Entity)
    | Revived
    | RoundPaid(round: int, winner: Team, streak: nat)
    | Bought(buyer: Entity, price: nat)

  /** The humans of the match and its economy. */
  datatype Rules = Rules(humans: set<Entity>, table: seq<nat>, events: Events)

  datatype Book = Book(deaths: map<Entity, nat>, kills: map<Entity, nat>, roundKills: map<Entity, nat>,
                       firstBlood: Entity, coins: map<Entity, nat>)

  /** A missing key reads as zero. */
  function Get(m: map<Entity, nat>, e: Entity): nat {
    if e in m then m[e] else 0
  }

  /** Only a death by an enemy counts as somebody's kill. */
  predicate IsKill(victim: Entity, killer: Entity) {
    killer != 0 && TeamOf(killer) != TeamOf(victim)
  }

  function Opening(r: Rules): Book {
    Book(map[], map[], map h | h in r.humans :: 0, 0, map h | h in r.humans :: StartingCoins(r.table) % COIN_RANGE)
  }

  function Bump(m: map<Entity, nat>, e: Entity, range: nat): map<Entity, nat>
    requires range > 0
  {
    m[e := (Get(m, e) + 1) % range]
  }

  function Credit(b: Book, r: Rules, victim: Entity, killer: Entity): Book {
    var c := b.(deaths := Bump(b.deaths, victim, COUNT_RANGE));
    if IsKill(victim, killer) then
      c.(kills := Bump(b.kills, killer, COUNT_RANGE),
         firstBlood := if b.firstBlood == 0 then killer else b.firstBlood,
         roundKills := if killer in r.humans then Bump(b.roundKills, killer, COIN_RANGE) else b.roundKills)
    else c
  }

  /** What the round pays h. The streak is the losing team's, this round included. */
  function AwardTo(b: Book, r: Rules, h: Entity, round: int, winner: Team, streak: nat): (a: nat)
    ensures a < COIN_RANGE
  {
    Award(round, r.table, r.events, Get(b.roundKills, h), TeamOf(h) == winner, streak, h == b.firstBlood)
  }

  function PaySome(b: Book, r: Rules, turn: set<Entity>, round: int, winner: Team, streak: nat): Book {
    b.(roundKills := map h | h in b.roundKills :: if h in turn then 0 else b.roundKills[h],
       coins := map h | h in b.coins ::
         if h in turn then (b.coins[h] + AwardTo(b, r, h, round, winner, streak)) % COIN_RANGE else b.coins[h])
  }

  function Pay(b: Book, r: Rules, round: int, winner: Team, streak: nat): Book {
    PaySome(b, r, r.humans, round, winner, streak).(firstBlood := 0)
  }

  predicate CanPay(b: Book, h: Entity, price: nat) {
    h in b.coins && price <= b.coins[h]
  }

  function Post(b: Book, r: Rules, e: Entry): Book {
    match e
    case Died(victim, killer) => Credit(b, r, victim, killer)
    case Revived => b
    case RoundPaid(round, winner, streak) => Pay(b, r, round, winner, streak)
    case Bought(buyer, price) =>
      if CanPay(b, buyer, price) then b.(coins := b.coins[buyer := b.coins[buyer] - price]) else b
  }

  function BookOf(r: Rules, log: seq<Entry>): Book {
    if log == [] then Opening(r) else Post(BookOf(r, log[..|log| - 1]), r, log[|log| - 1])
  }

  lemma BookOneMore(r: Rules, log: seq<Entry>, e: Entry)
    ensures BookOf(r, log + [e]) == Post(BookOf(r, log), r, e)
  {
    assert (log + [e])[..|log|] == log;
  }

  // ----- What the log says -----

  function DeathsOf(log: seq<Entry>, v: Entity): nat {
    if log == [] then 0 else
    var e := log[|log| - 1];
    DeathsOf(log[..|log| - 1], v) + if e.Died? && e.victim == v then 1 else 0
  }

  function KillsOf(log: seq<Entry>, k: Entity): nat {
    if log == [] then 0 else
    var e := log[|log| - 1];
    KillsOf(log[..|log| - 1], k) + if e.Died? && e.killer == k && IsKill(e.victim, k) then 1 else 0
  }

  /** The round awards on the log. */
  function Awards(log: seq<Entry>): seq<Entry> {
    if log == [] then [] else
    Awards(log[..|log| - 1]) + if log[|log| - 1].RoundPaid? then [log[|log| - 1]] else []
  }

  lemma AwardsMore(log: seq<Entry>, e: Entry)
    ensures Awards(log + [e]) == Awards(log) + if e.RoundPaid? then [e] else []
  {
    assert (log + [e])[..|log|] == log;
  }

  /** The deaths since everybody was last revived. */
  function DeathsThisRound(log: seq<Entry>, v: Entity): nat {
    if log == [] then 0 else
    var e := log[|log| - 1];
    if e.Revived? then 0
    else DeathsThisRound(log[..|log| - 1], v) + if e.Died? && e.victim == v then 1 else 0
  }

  /** The kills that the round awards so far have paid for. */
  function PaidOf(r: Rules, log: seq<Entry>, h: Entity): nat {
    if log == [] then 0 else
    var before := log[..|log| - 1];
    PaidOf(r, before, h) + if log[|log| - 1].RoundPaid? then Get(BookOf(r, before).roundKills, h) else 0
  }

  function EarnedBy(b: Book, r: Rules, e: Entry, h: Entity): nat {
    if e.RoundPaid? then AwardTo(b, r, h, e.round, e.winner, e.streak) else 0
  }

  function EarnedOf(r: Rules, log: seq<Entry>, h: Entity): nat {
    if log == [] then 0 else
    var before, e := log[..|log| - 1], log[|log| - 1];
    EarnedOf(r, before, h) + EarnedBy(BookOf(r, before), r, e, h)
  }

  /** The price of a purchase that was accepted: one beyond the balance is turned down. */
  function SpentBy(b: Book, e: Entry, h: Entity): nat {
    if e.Bought? && e.buyer == h && CanPay(b, h, e.price) then e.price else 0
  }

  function SpentOf(r: Rules, log: seq<Entry>, h: Entity): nat {
    if log == [] then 0 else
    var before, e := log[..|log| - 1], log[|log| - 1];
    SpentOf(r, before, h) + SpentBy(BookOf(r, before), e, h)
  }

  // ----- What the books say about it -----

  ghost predicate Scored(b: Book, e: Entity, deaths: nat, kills: nat) {
    Get(b.deaths, e) == deaths % COUNT_RANGE && Get(b.kills, e) == kills % COUNT_RANGE
  }

  lemma ScoreStep(b: Book, r: Rules, entry: Entry, e: Entity, deaths: nat, kills: nat)
    requires Scored(b, e, deaths, kills)
    ensures Scored(Post(b, r, entry), e, deaths + if entry.Died? && entry.victim == e then 1 else 0,
                   kills + if entry.Died? && entry.killer == e && IsKill(entry.victim, e) then 1 else 0)
  {
    ModAdd(deaths, 1, COUNT_RANGE);
    ModAdd(kills, 1, COUNT_RANGE);
  }

  /** The scoreboard counts the log, as 16-bit counters do. */
  lemma {:induction false} ScoreboardCounts(r: Rules, log: seq<Entry>, e: Entity)
    ensures Scored(BookOf(r, log), e, DeathsOf(log, e), KillsOf(log, e))
    decreases |log|
  {
    if log != [] {
      var before := log[..|log| - 1];
      ScoreboardCounts(r, before, e);
      ScoreStep(BookOf(r, before), r, log[|log| - 1], e, DeathsOf(before, e), KillsOf(before, e));
    }
  }

  lemma {:induction false} OnlyHumansOnTheBooks(r: Rules, log: seq<Entry>)
    ensures BookOf(r, log).roundKills.Keys == BookOf(r, log).coins.Keys == r.humans
    decreases |log|
  {
    if log != [] {
      OnlyHumansOnTheBooks(r, log[..|log| - 1]);
    }
  }

  lemma WaitOneMore(paid: nat, waiting: nat, kills: nat)
    requires paid + waiting <= kills && (paid + waiting) % COIN_RANGE == kills % COIN_RANGE
    ensures (paid + (waiting + 1) % COIN_RANGE) % COIN_RANGE == (kills + 1) % COIN_RANGE
  {
    ModAdd(paid + waiting, 1, COIN_RANGE);
    ModAdd(kills, 1, COIN_RANGE);
    ModAdd(waiting + 1, paid, COIN_RANGE);
  }

  ghost predicate Waits(paid: nat, waiting: nat, kills: nat) {
    waiting < COIN_RANGE && paid + waiting <= kills && (paid + waiting) % COIN_RANGE == kills % COIN_RANGE
  }

  lemma WaitStep(b: Book, r: Rules, e: Entry, h: Entity, paid: nat, kills: nat)
    requires h in r.humans && h in b.roundKills && Waits(paid, b.roundKills[h], kills)
    ensures Waits(paid + if e.RoundPaid? then b.roundKills[h] else 0, Get(Post(b, r, e).roundKills, h),
                  kills + if e.Died? && e.killer == h && IsKill(e.victim, h) then 1 else 0)
  {
    WaitOneMore(paid, b.roundKills[h], kills);
  }

  lemma {:induction false} WaitingKills(r: Rules, log: seq<Entry>, h: Entity)
    requires h in r.humans
    ensures Waits(PaidOf(r, log, h), Get(BookOf(r, log).roundKills, h), KillsOf(log, h))
    decreases |log|
  {
    if log != [] {
      var before, e := log[..|log| - 1], log[|log| - 1];
      OnlyHumansOnTheBooks(r, before);
      WaitingKills(r, before, h);
      WaitStep(BookOf(r, before), r, e, h, PaidOf(r, before, h), KillsOf(before, h));
    }
  }

  /** Every kill of a human is paid for in exactly one round award, or still waiting for the next one. */
  lemma KillsPaidOnce(r: Rules, log: seq<Entry>, h: Entity)
    requires h in r.humans && KillsOf(log, h) < COIN_RANGE
    ensures KillsOf(log, h) == PaidOf(r, log, h) + Get(BookOf(r, log).roundKills, h)
  {
    WaitingKills(r, log, h);
  }

  /** After a round award nothing is waiting: all kills so far are paid. */
  lemma AwardSettles(r: Rules, log: seq<Entry>, h: Entity)
    requires h in r.humans && log != [] && log[|log| - 1].RoundPaid? && KillsOf(log, h) < COIN_RANGE
    ensures PaidOf(r, log, h) == KillsOf(log, h)
  {
    OnlyHumansOnTheBooks(r, log[..|log| - 1]);
    KillsPaidOnce(r, log, h);
  }

  lemma SubMod(x: nat, y: nat, m: nat)
    requires m > 0 && y <= x % m
    ensures x % m - y == (x - y) % m && y <= x
  {
    assert x - y == m * (x / m) + (x % m - y);
    DivModUnique(x - y, m, x / m, x % m - y);
  }

  ghost predicate Balanced(coins: nat, start: nat, earned: nat, spent: nat) {
    spent <= start + earned && coins == (start + earned - spent) % COIN_RANGE
  }

  lemma BalanceStep(b: Book, r: Rules, e: Entry, h: Entity, earned: nat, spent: nat)
    requires h in r.humans && h in b.coins && Balanced(b.coins[h], StartingCoins(r.table), earned, spent)
    ensures Balanced(Get(Post(b, r, e).coins, h), StartingCoins(r.table),
                     earned + EarnedBy(b, r, e, h), spent + SpentBy(b, e, h))
  {
    var x: nat := StartingCoins(r.table) + earned - spent;
    if e.RoundPaid? {
      ModAdd(x, AwardTo(b, r, h, e.round, e.winner, e.streak), COIN_RANGE);
    } else if e.Bought? && e.buyer == h && CanPay(b, h, e.price) {
      SubMod(x, e.price, COIN_RANGE);
    }
  }

  lemma LastPosting(r: Rules, log: seq<Entry>, h: Entity)
    requires log != []
    ensures var b, e := BookOf(r, log[..|log| - 1]), log[|log| - 1];
            && BookOf(r, log) == Post(b, r, e)
            && EarnedOf(r, log, h) == EarnedOf(r, log[..|log| - 1], h) + EarnedBy(b, r, e, h)
            && SpentOf(r, log, h) == SpentOf(r, log[..|log| - 1], h) + SpentBy(b, e, h)
  {
  }

  /**
   A balance is the starting coins plus the awards less the accepted purchases, as a 32-bit number, and the purchases
   never exceed what came in: no balance was ever below zero.
   */
  lemma {:induction false} BalanceIsExact(r: Rules, log: seq<Entry>, h: Entity)
    requires h in r.humans
    ensures Balanced(Get(BookOf(r, log).coins, h), StartingCoins(r.table), EarnedOf(r, log, h), SpentOf(r, log, h))
    decreases |log|
  {
    if log != [] {
      var before, e := log[..|log| - 1], log[|log| - 1];
      OnlyHumansOnTheBooks(r, before);
      BalanceIsExact(r, before, h);
      LastPosting(r, log, h);
      BalanceStep(BookOf(r, before), r, e, h, EarnedOf(r, before, h), SpentOf(r, before, h));
    }
  }

  // ----- Several deaths at once -----

  /** The deaths of order on the log, each by its killer in killers. */
  function Deaths(killers: map<Entity, Entity>, order: seq<Entity>): seq<Entry> {
    if order == [] then [] else
    var v := order[|order| - 1];
    Deaths(killers, order[..|order| - 1]) + if v in killers then [Died(v, killers[v])] else []
  }

  lemma {:induction false} DeathsAwardNothing(log: seq<Entry>, killers: map<Entity, Entity>, order: seq<Entity>)
    ensures Awards(log + Deaths(killers, order)) == Awards(log)
    decreases |order|
  {
    if order == [] {
      assert log + [] == log;
    } else {
      var before, v := order[..|order| - 1], order[|order| - 1];
      DeathsAwardNothing(log, killers, before);
      if v in killers {
        AwardsMore(log + Deaths(killers, before), Died(v, killers[v]));
        assert log + Deaths(killers, order) == (log + Deaths(killers, before)) + [Died(v, killers[v])];
      } else {
        assert Deaths(killers, order) == Deaths(killers, before);
      }
    }
  }

  function CreditAll(b: Book, r: Rules, killers: map<Entity, Entity>, order: seq<Entity>): Book {
    if order == [] then b else
    var v := order[|order| - 1];
    var c := CreditAll(b, r, killers, order[..|order| - 1]);
    if v in killers then Credit(c, r, v, killers[v]) else c
  }

  lemma CreditMoreDeaths(b: Book, r: Rules, killers: map<Entity, Entity>, order: seq<Entity>, v: Entity)
    requires v in killers
    ensures CreditAll(b, r, killers, order + [v]) == Credit(CreditAll(b, r, killers, order), r, v, killers[v])
    ensures Deaths(killers, order + [v]) == Deaths(killers, order) + [Died(v, killers[v])]
  {
    assert (order + [v])[..|order|] == order;
  }

  /** The books after the deaths. */
  lemma {:induction false} BookOfDeaths(r: Rules, log: seq<Entry>, killers: map<Entity, Entity>, order: seq<Entity>)
    requires forall v :: v in order ==> v in killers
    ensures BookOf(r, log + Deaths(killers, order)) == CreditAll(BookOf(r, log), r, killers, order)
    decreases |order|
  {
    if order == [] {
      assert log + [] == log;
    } else {
      var before, v := order[..|order| - 1], order[|order| - 1];
      assert order == before + [v];
      BookOfDeaths(r, log, killers, before);
      CreditMoreDeaths(BookOf(r, log), r, killers, before, v);
      BookOneMore(r, log + Deaths(killers, before), Died(v, killers[v]));
      assert log + Deaths(killers, order) == (log + Deaths(killers, before)) + [Died(v, killers[v])];
    }
  }

  /** The books but for who drew first blood. */
  function Sheet(b: Book): Book {
    b.(firstBlood := 0)
  }

  lemma BumpsCommute(m: map<Entity, nat>, v: Entity, w: Entity, range: nat)
    requires range > 0
    ensures Bump(Bump(m, v, range), w, range) == Bump(Bump(m, w, range), v, range)
  {
    if v != w {
      assert m[v := (Get(m, v) + 1) % range][w := (Get(m, w) + 1) % range] ==
             m[w := (Get(m, w) + 1) % range][v := (Get(m, v) + 1) % range];
    }
  }

  function BumpIf(on: bool, m: map<Entity, nat>, e: Entity, range: nat): map<Entity, nat>
    requires range > 0
  {
    if on then Bump(m, e, range) else m
  }

  lemma BumpIfsCommute(p: bool, q: bool, m: map<Entity, nat>, v: Entity, w: Entity, range: nat)
    requires range > 0
    ensures BumpIf(q, BumpIf(p, m, v, range), w, range) == BumpIf(p, BumpIf(q, m, w, range), v, range)
  {
    BumpsCommute(m, v, w, range);
  }

  lemma CreditIs(b: Book, r: Rules, v: Entity, k: Entity)
    ensures Sheet(Credit(b, r, v, k)) ==
            Book(Bump(b.deaths, v, COUNT_RANGE), BumpIf(IsKill(v, k), b.kills, k, COUNT_RANGE),
                 BumpIf(IsKill(v, k) && k in r.humans, b.roundKills, k, COIN_RANGE), 0, b.coins)
  {
  }

  lemma CreditsCommute(b: Book, r: Rules, v: Entity, k: Entity, w: Entity, l: Entity)
    ensures Sheet(Credit(Credit(b, r, v, k), r, w, l)) == Sheet(Credit(Credit(b, r, w, l), r, v, k))
  {
    var c, d := Credit(b, r, v, k), Credit(b, r, w, l);
    CreditIs(b, r, v, k);
    CreditIs(b, r, w, l);
    CreditIs(c, r, w, l);
    CreditIs(d, r, v, k);
    BumpsCommute(b.deaths, v, w, COUNT_RANGE);
    BumpIfsCommute(IsKill(v, k), IsKill(w, l), b.kills, k, l, COUNT_RANGE);
    BumpIfsCommute(IsKill(v, k) && k in r.humans, IsKill(w, l) && l in r.humans, b.roundKills, k, l, COIN_RANGE);
  }

  lemma SheetOfCredit(b: Book, c: Book, r: Rules, v: Entity, k: Entity)
    requires Sheet(b) == Sheet(c)
    ensures Sheet(Credit(b, r, v, k)) == Sheet(Credit(c, r, v, k))
  {
  }

  lemma {:induction false} MoveLast(b: Book, r: Rules, killers: map<Entity, Entity>, pre: seq<Entity>, v: Entity,
                                    post: seq<Entity>)
    requires v in killers && forall w :: w in post ==> w in killers
    ensures Sheet(CreditAll(b, r, killers, pre + [v] + post)) == Sheet(CreditAll(b, r, killers, pre + post + [v]))
    decreases |post|
  {
    if post == [] {
      assert pre + [v] + post == pre + post + [v];
    } else {
      var some, w := post[..|post| - 1], post[|post| - 1];
      assert post == some + [w];
      assert pre + [v] + post == (pre + [v] + some) + [w];
      assert pre + post + [v] == ((pre + some) + [w]) + [v];
      MoveLast(b, r, killers, pre, v, some);
      CreditMoreDeaths(b, r, killers, pre + [v] + some, w);
      SheetOfCredit(CreditAll(b, r, killers, pre + [v] + some), CreditAll(b, r, killers, pre + some + [v]), r, w,
                    killers[w]);
      CreditMoreDeaths(b, r, killers, pre + some, v);
      CreditsCommute(CreditAll(b, r, killers, pre + some), r, v, killers[v], w, killers[w]);
      CreditMoreDeaths(b, r, killers, pre + some, w);
      CreditMoreDeaths(b, r, killers, (pre + some) + [w], v);
    }
  }

  lemma {:induction false} VisitsAll(victims: set<Entity>, order: seq<Entity>)
    requires Visits(victims, order)
    ensures |order| == |victims|
    decreases |order|
  {
    if order == [] {
      assert victims == {};
    } else {
      var before, v := order[..|order| - 1], order[|order| - 1];
      assert order == before + [v];
      VisitsAll(victims - {v}, before);
    }
  }

  lemma WithoutOne(victims: set<Entity>, order: seq<Entity>, v: Entity) returns (pre: seq<Entity>, post: seq<Entity>)
    requires Visits(victims, order) && v in victims
    ensures order == pre + [v] + post && Visits(victims - {v}, pre + post)
  {
    var i :| 0 <= i < |order| && order[i] == v;
    pre, post := order[..i], order[i + 1..];
    forall e | e in victims - {v}
      ensures e in pre + post
    {
      var j :| 0 <= j < |order| && order[j] == e;
      assert (pre + post)[if j < i then j else j - 1] == e;
    }
  }

  /** Deaths, kills and unpaid kills do not depend on the order in which the victims die. */
  lemma {:induction false} SheetAnyOrder(b: Book, r: Rules, killers: map<Entity, Entity>, victims: set<Entity>,
                                         one: seq<Entity>, two: seq<Entity>)
    requires victims <= killers.Keys && Visits(victims, one) && Visits(victims, two)
    ensures Sheet(CreditAll(b, r, killers, one)) == Sheet(CreditAll(b, r, killers, two))
    decreases victims
  {
    if one == [] {
      VisitsAll(victims, one);
      VisitsAll(victims, two);
    } else {
      var before, v := one[..|one| - 1], one[|one| - 1];
      assert one == before + [v];
      var pre, post := WithoutOne(victims, two, v);
      assert Visits(victims - {v}, before);
      SheetAnyOrder(b, r, killers, victims - {v}, before, pre + post);
      MoveLast(b, r, killers, pre, v, post);
      CreditMoreDeaths(b, r, killers, before, v);
      CreditMoreDeaths(b, r, killers, pre + post, v);
      SheetOfCredit(CreditAll(b, r, killers, before), CreditAll(b, r, killers, pre + post), r, v, killers[v]);
    }
  }

  /** The killer of the first victim in order who was killed by an enemy, 0 if there is none. */
  function FirstKiller(killers: map<Entity, Entity>, order: seq<Entity>): Entity {
    if order == [] then 0
    else if order[0] in killers && IsKill(order[0], killers[order[0]]) then killers[order[0]]
    else FirstKiller(killers, order[1..])
  }

  lemma {:induction false} FirstKillerMore(killers: map<Entity, Entity>, order: seq<Entity>, v: Entity)
    ensures var first := FirstKiller(killers, order);
            FirstKiller(killers, order + [v]) ==
            if first != 0 then first else if v in killers && IsKill(v, killers[v]) then killers[v] else 0
    decreases |order|
  {
    if order == [] {
      assert [v][1..] == [];
    } else {
      assert (order + [v])[1..] == order[1..] + [v];
      FirstKillerMore(killers, order[1..], v);
    }
  }

  lemma {:induction false} FirstBloodIs(b: Book, r: Rules, killers: map<Entity, Entity>, order: seq<Entity>)
    requires forall v :: v in order ==> v in killers
    ensures CreditAll(b, r, killers, order).firstBlood ==
            if b.firstBlood != 0 then b.firstBlood else FirstKiller(killers, order)
    decreases |order|
  {
    if order != [] {
      var before, v := order[..|order| - 1], order[|order| - 1];
      assert order == before + [v];
      FirstBloodIs(b, r, killers, before);
      FirstKillerMore(killers, before, v);
    }
  }

  lemma {:induction false} FirstKillerIsOne(killers: map<Entity, Entity>, order: seq<Entity>)
    requires forall v :: v in order ==> v in killers
    ensures FirstKiller(killers, order) != 0 ==>
              exists v :: v in order && IsKill(v, killers[v]) && killers[v] == FirstKiller(killers, order)
    ensures FirstKiller(killers, order) == 0 ==> forall v :: v in order ==> !IsKill(v, killers[v])
    decreases |order|
  {
    if order != [] {
      FirstKillerIsOne(killers, order[1..]);
      assert order == [order[0]] + order[1..];
      if FirstKiller(killers, order) != 0 && FirstKiller(killers, order) == FirstKiller(killers, order[1..]) {
        var v :| v in order[1..] && IsKill(v, killers[v]) && killers[v] == FirstKiller(killers, order[1..]);
        assert v in order;
      }
    }
  }

  /** First blood is drawn already, or all of the victims who were killed by an enemy have the same killer. */
  ghost predicate Settled(b: Book, killers: map<Entity, Entity>, victims: set<Entity>)
    requires victims <= killers.Keys
  {
    b.firstBlood != 0
    || forall v, w :: v in victims && w in victims && IsKill(v, killers[v]) && IsKill(w, killers[w]) ==>
         killers[v] == killers[w]
  }

  /** The books come to the same in whatever order the victims die. */
  ghost predicate AnyOrder(b: Book, r: Rules, killers: map<Entity, Entity>, victims: set<Entity>) {
    forall one, two :: Visits(victims, one) && Visits(victims, two) ==>
      CreditAll(b, r, killers, one) == CreditAll(b, r, killers, two)
  }

  lemma SettledAnyOrder(b: Book, r: Rules, killers: map<Entity, Entity>, victims: set<Entity>, one: seq<Entity>,
                        two: seq<Entity>)
    requires victims <= killers.Keys && Visits(victims, one) && Visits(victims, two) && Settled(b, killers, victims)
    ensures CreditAll(b, r, killers, one) == CreditAll(b, r, killers, two)
  {
    SheetAnyOrder(b, r, killers, victims, one, two);
    FirstBloodIs(b, r, killers, one);
    FirstBloodIs(b, r, killers, two);
    FirstKillerIsOne(killers, one);
    FirstKillerIsOne(killers, two);
  }

  /** Whoever dies first may as well be v. */
  lemma DiesFirst(killers: map<Entity, Entity>, victims: set<Entity>, v: Entity) returns (order: seq<Entity>)
    requires v in victims && victims <= killers.Keys && IsKill(v, killers[v])
    ensures Visits(victims, order) && FirstKiller(killers, order) == killers[v]
  {
    var rest := SomeOrder(victims - {v});
    order := [v] + rest;
  }

  /** Exactly when first blood is settled do the books not depend on the order, which decides that and nothing else. */
  lemma FirstBloodSettled(b: Book, r: Rules, killers: map<Entity, Entity>, victims: set<Entity>)
    requires victims <= killers.Keys
    ensures AnyOrder(b, r, killers, victims) <==> Settled(b, killers, victims)
  {
    if Settled(b, killers, victims) {
      forall one, two | Visits(victims, one) && Visits(victims, two)
        ensures CreditAll(b, r, killers, one) == CreditAll(b, r, killers, two)
      {
        SettledAnyOrder(b, r, killers, victims, one, two);
      }
    } else {
      var v, w :| v in victims && w in victims && IsKill(v, killers[v]) && IsKill(w, killers[w])
                  && killers[v] != killers[w];
      var one := DiesFirst(killers, victims, v);
      var two := DiesFirst(killers, victims, w);
      FirstBloodIs(b, r, killers, one);
      FirstBloodIs(b, r, killers, two);
    }
  }
}
