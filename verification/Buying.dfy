/**
 What a series of purchases leaves of a balance: the balance part of handleCSPurchase (match-server/purchase.go), one
 purchase after the other.
 */
module Buying {
  import opened Books
  import opened Roster
  import DeathMatch

  /** The price is that of so many, or of one for a quantity of zero, exactly if that is a 32-bit number. */
  lemma PriceExact(unitPrice: nat, qty: nat)
    ensures var due := if qty > 0 then unitPrice * qty else unitPrice;
            DeathMatch.Price(unitPrice, qty) == due <==> due < 0x1_0000_0000
  {
    var due := if qty > 0 then unitPrice * qty else unitPrice;
    assert DeathMatch.Price(unitPrice, qty) == due % 0x1_0000_0000;
  }

  function Bills(h: Entity, prices: seq<nat>): seq<Entry> {
    if prices == [] then [] else Bills(h, prices[..|prices| - 1]) + [Bought(h, prices[|prices| - 1])]
  }

  /** What is left in a purse from which each price is paid if there is as much. */
  function Purse(coins: nat, prices: seq<nat>): nat {
    if prices == [] then coins else
    var left, price := Purse(coins, prices[..|prices| - 1]), prices[|prices| - 1];
    if price <= left then left - price else left
  }

  function Sum(prices: seq<nat>): nat {
    if prices == [] then 0 else Sum(prices[..|prices| - 1]) + prices[|prices| - 1]
  }

  lemma BillsMore(r: Rules, log: seq<Entry>, h: Entity, prices: seq<nat>)
    requires prices != []
    ensures BookOf(r, log + Bills(h, prices)) ==
            Post(BookOf(r, log + Bills(h, prices[..|prices| - 1])), r, Bought(h, prices[|prices| - 1]))
  {
    var before, e := log + Bills(h, prices[..|prices| - 1]), Bought(h, prices[|prices| - 1]);
    BookOneMore(r, before, e);
    assert before + [e] == log + Bills(h, prices);
  }

  /** Whatever he buys, and however often it is turned down, his coins are the purse, and nothing else has changed. */
  lemma {:induction false} CoinsArePurse(r: Rules, log: seq<Entry>, h: Entity, prices: seq<nat>)
    requires h in BookOf(r, log).coins
    ensures var b := BookOf(r, log);
            BookOf(r, log + Bills(h, prices)) == b.(coins := b.coins[h := Purse(b.coins[h], prices)])
    decreases |prices|
  {
    if prices == [] {
      assert log + [] == log;
      assert BookOf(r, log).coins == BookOf(r, log).coins[h := BookOf(r, log).coins[h]];
    } else {
      CoinsArePurse(r, log, h, prices[..|prices| - 1]);
      BillsMore(r, log, h, prices);
    }
  }

  /** All of it is bought, leaving the rest, exactly if the sum of the prices is within the balance. */
  lemma {:induction false} AllBought(coins: nat, prices: seq<nat>)
    ensures Purse(coins, prices) == coins - Sum(prices) <==> Sum(prices) <= coins
    ensures Purse(coins, prices) >= coins - Sum(prices)
    decreases |prices|
  {
    if prices != [] {
      AllBought(coins, prices[..|prices| - 1]);
    }
  }
}
