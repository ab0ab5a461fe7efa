/** Round income and bonuses: match-server/economy.go. */
module Economy {

  const COIN_RANGE := 0x1_0000_0000

  const DEFAULT_TABLE: seq<nat> := [500, 900, 1100, 1700, 2100, 2400, 3000]

  /** The economy table in force: a room's own, unless it is empty. */
  function Table(table: seq<nat>): (t: seq<nat>)
    ensures |t| > 0
  {
    if table == [] then DEFAULT_TABLE else table
  }

  function StartingCoins(table: seq<nat>): nat {
    Table(table)[0]
  }

  /** What round earns: its own entry, the first earning entry before round 1, the last beyond the table. */
  function RoundIncome(round: int, table: seq<nat>): nat {
    var t := Table(table);
    var r := if round < 1 then 1 else round;
    if r >= |t| then t[|t| - 1] else t[r]
  }

  datatype Events = Events(winRound: nat, perKill: nat, lossRound: nat, lossStreak2: nat, lossStreak3: nat,
                           firstBlood: nat)

  function LossBonus(e: Events, streak: nat): nat {
    e.lossRound + if streak >= 3 then e.lossStreak3 else if streak == 2 then e.lossStreak2 else 0
  }

  /** One player's coins for a round, as a 32-bit sum. */
  function Award(round: int, table: seq<nat>, e: Events, kills: nat, won: bool, streak: nat, first: bool): (a: nat)
    ensures a < COIN_RANGE
  {
    (RoundIncome(round, table) + e.perKill * kills + (if won then e.winRound else LossBonus(e, streak))
     + if first then e.firstBlood else 0) % COIN_RANGE
  }

  /** The entries after the first, which is the starting money, never go down. */
  ghost predicate Rising(t: seq<nat>) {
    forall i, j :: 1 <= i <= j < |t| ==> t[i] <= t[j]
  }

  /** Exactly with such a table do later rounds never pay less. */
  lemma IncomeGrows(table: seq<nat>)
    ensures (forall a: int, b: int :: a <= b ==> RoundIncome(a, table) <= RoundIncome(b, table)) <==>
            Rising(Table(table))
  {
    var t := Table(table);
    if !Rising(t) {
      var i, j :| 1 <= i <= j < |t| && t[i] > t[j];
      assert RoundIncome(i, table) == t[i] && RoundIncome(j, table) == t[j];
    }
  }

  /** A room without a table of its own starts at 500 and pays 900, 1100, 1700, 2100, 2400, and 3000 from round 6 on. */
  lemma DefaultIncome(round: int)
    ensures StartingCoins([]) == 500
    ensures RoundIncome(round, []) ==
            if round <= 1 then 900 else if round == 2 then 1100 else if round == 3 then 1700
            else if round == 4 then 2100 else if round == 5 then 2400 else 3000
  {
    assert Table([]) == DEFAULT_TABLE;
  }
}
