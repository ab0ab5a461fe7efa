/**
 How gloo walls go (match-server/gloo.go): hits on a wall add up until nothing is left of it, and a sweep takes those
 that have stood for 90 s. Times are milliseconds.
 */
module Wear {
  import opened Gloo
  import opened Results

  function Batter(s: State, id: nat, blows: seq<nat>): State {
    if blows == [] then s else Damage(Batter(s, id, blows[..|blows| - 1]), id, blows[|blows| - 1])
  }

  /** What the blows come to: each has 16 bits, and one of nothing counts as 25. */
  function Total(blows: seq<nat>): nat {
    if blows == [] then 0 else
    var low := blows[|blows| - 1] % 0x1_0000;
    Total(blows[..|blows| - 1]) + if low == 0 then 25 else low
  }

  /** The list with w in place of the wall of that id. */
  function Put(walls: seq<Wall>, id: nat, w: Wall): seq<Wall> {
    if walls == [] then []
    else if walls[0].id == id then [w] + walls[1..]
    else [walls[0]] + Put(walls[1..], id, w)
  }

  lemma {:induction false} PutPut(walls: seq<Wall>, id: nat, v: Wall, w: Wall)
    requires v.id == id && Find(walls, id).Some?
    ensures Put(Put(walls, id, v), id, w) == Put(walls, id, w) && Find(Put(walls, id, v), id) == Some(v)
    ensures WithoutID(Put(walls, id, v), id) == WithoutID(walls, id)
    decreases |walls|
  {
    if walls[0].id == id {
      assert ([v] + walls[1..])[1..] == walls[1..];
    } else {
      var rest := Put(walls[1..], id, v);
      PutPut(walls[1..], id, v, w);
      assert ([walls[0]] + rest)[1..] == rest;
    }
  }

  lemma {:induction false} PutSame(walls: seq<Wall>, id: nat)
    requires Find(walls, id).Some?
    ensures Put(walls, id, Find(walls, id).value) == walls
    decreases |walls|
  {
    if walls[0].id == id {
      assert walls == [walls[0]] + walls[1..];
    } else {
      PutSame(walls[1..], id);
      assert walls == [walls[0]] + walls[1..];
    }
  }

  lemma {:induction false} HurtPuts(walls: seq<Wall>, id: nat, dealt: nat)
    requires Find(walls, id).Some?
    ensures HurtIn(walls, id, dealt) == Put(walls, id, Hurt(Find(walls, id).value, dealt))
    decreases |walls|
  {
    if walls[0].id != id {
      HurtPuts(walls[1..], id, dealt);
    }
  }

  lemma {:induction false} OnlyOneFound(walls: seq<Wall>, id: nat)
    requires Rising(walls)
    ensures Find(WithoutID(walls, id), id) == None
    decreases |walls|
  {
    if walls != [] {
      if walls[0].id == id {
        NotFound(walls[1..], id);
      } else {
        var rest := WithoutID(walls[1..], id);
        OnlyOneFound(walls[1..], id);
        assert ([walls[0]] + rest)[1..] == rest;
      }
    }
  }

  lemma {:induction false} NotFound(walls: seq<Wall>, id: nat)
    requires forall w :: w in walls ==> w.id != id
    ensures Find(walls, id) == None
    decreases |walls|
  {
    if walls != [] {
      NotFound(walls[1..], id);
    }
  }

  /** The wall with that many hit points, which shows cracks from 330 down. */
  function Worn(w: Wall, hp: nat): Wall {
    w.(hp := hp, state := if hp <= 330 then 1 else 2)
  }

  /** t is s with that much damage done to the wall w. */
  ghost predicate WornBy(s: State, t: State, w: Wall, total: nat) {
    t == s.(walls := if total < w.hp then Put(s.walls, w.id, Worn(w, w.hp - total)) else WithoutID(s.walls, w.id))
  }

  lemma WearMore(s: State, t: State, w: Wall, total: nat, damage: nat)
    requires Rising(s.walls) && Find(s.walls, w.id) == Some(w) && WornBy(s, t, w, total)
    ensures var low := damage % 0x1_0000;
            WornBy(s, Damage(t, w.id, damage), w, total + if low == 0 then 25 else low)
  {
    if total < w.hp {
      var v, dealt := Worn(w, w.hp - total), Dealt(damage);
      PutPut(s.walls, w.id, v, Worn(w, if dealt < v.hp then v.hp - dealt else 0));
      HurtPuts(t.walls, w.id, dealt);
    } else {
      OnlyOneFound(s.walls, w.id);
    }
  }

  /**
   In every state of the walls in which the list is in order: after any hits on a live wall it has lost their sum and
   shows the state that goes with that, if that leaves anything; otherwise it is gone. No other wall is touched.
   */
  lemma {:induction false} WearsDown(s: State, w: Wall, blows: seq<nat>)
    requires Sound(s) && Find(s.walls, w.id) == Some(w)
    ensures WornBy(s, Batter(s, w.id, blows), w, Total(blows))
    decreases |blows|
  {
    if blows == [] {
      FindIs(s.walls, w.id);
      assert Live(w);
      PutSame(s.walls, w.id);
    } else {
      WearsDown(s, w, blows[..|blows| - 1]);
      WearMore(s, Batter(s, w.id, blows[..|blows| - 1]), w, Total(blows[..|blows| - 1]), blows[|blows| - 1]);
    }
  }

  /** A placement leaves the owner's newest two walls, everybody else's, and a new one of 750 hit points, uncracked. */
  lemma Placed(s: State, owner: nat, now: int)
    requires s.wallSeq + 1 < 0x100_0000
    ensures Place(s, owner, now).walls ==
            Newest(s.walls, owner, 2) + [Wall(0x300_0000 + s.wallSeq + 1, owner, 750, 2, now)]
  {
    var w := Wall(0x300_0000 + s.wallSeq + 1, owner, 750, 2, now);
    WallIDBelow(s.wallSeq + 1);
    TrimKeepsNewest(s.walls + [w], owner);
    assert (s.walls + [w])[..|s.walls|] == s.walls;
  }

  // ----- Sweeps -----

  lemma {:induction false} FilterHolds(walls: seq<Wall>, keep: Wall -> bool, w: Wall)
    ensures w in Filter(walls, keep) <==> w in walls && keep(w)
    decreases |walls|
  {
    if walls != [] {
      FilterHolds(walls[1..], keep, w);
      assert walls == [walls[0]] + walls[1..];
    }
  }

  /** A sweep takes just the walls that have stood for 90 s. */
  lemma Swept(s: State, now: int, w: Wall)
    ensures w in Sweep(s, now).walls <==> w in s.walls && now < w.placedAt + 90_000
  {
    FilterHolds(s.walls, (v: Wall) => now - v.placedAt < LIFETIME, w);
  }
}
