/** The gloo walls of a match (match-server/gloo.go): placing, damaging, sweeping and clearing them. */
module Gloo {
  import opened Bytes
  import opened Results

  const MAX_HP := 750
  const CRACK_HP := 330
  const LIFETIME := 90_000
  const WALL_CAP := 3
  const ID_BASE := 0x300_0000
  const ID_BITS := 24
  const SEQ_RANGE := 0x1_0000_0000

  const BROKEN := 0
  const CRACKED := 1
  const INTACT := 2

  datatype Wall = Wall(id: nat, owner: nat, hp: nat, state: nat, placedAt: int)

  datatype State = State(walls: seq<Wall>, wallSeq: nat)

  // ----- Wall ids -----

  function Or(a: nat, b: nat): nat
    decreases a + b
  {
    if a + b == 0 then 0 else (if a % 2 == 1 || b % 2 == 1 then 1 else 0) + 2 * Or(a / 2, b / 2)
  }

  lemma {:induction false} OrBit(a: nat, b: nat, i: nat)
    ensures Bit(Or(a, b), i) <==> Bit(a, i) || Bit(b, i)
    decreases i
  {
    if a + b == 0 {
      ZeroBits(i);
    } else {
      Digit(if a % 2 == 1 || b % 2 == 1 then 1 else 0, Or(a / 2, b / 2));
      if i > 0 {
        OrBit(a / 2, b / 2, i - 1);
      }
    }
  }

  /** c with k zero bits behind it. */
  function Shifted(c: nat, k: nat): nat {
    if k == 0 then c else 2 * Shifted(c, k - 1)
  }

  /** Below the shifted bits, or is addition. */
  lemma {:induction false} OrLow(c: nat, k: nat, n: nat)
    requires n < Pow2(k)
    ensures Or(Shifted(c, k), n) == Shifted(c, k) + n
    decreases k
  {
    if k == 0 {
      assert n == 0;
      forall i: nat
        ensures Bit(Or(c, 0), i) == Bit(c, i)
      {
        OrBit(c, 0, i);
        ZeroBits(i);
      }
      SameBits(Or(c, 0), c);
    } else {
      OrLow(c, k - 1, n / 2);
      Digit(0, Shifted(c, k - 1));
    }
  }

  lemma {:induction false} OrShifted(c: nat, d: nat, k: nat)
    ensures Or(Shifted(c, k), Shifted(d, k)) == Shifted(Or(c, d), k)
    decreases k
  {
    if k > 0 {
      OrShifted(c, d, k - 1);
      Digit(0, Shifted(c, k - 1));
      Digit(0, Shifted(d, k - 1));
    }
  }

  lemma Shifts()
    ensures Shifted(3, ID_BITS) == ID_BASE && Shifted(1, ID_BITS) == Pow2(ID_BITS) == 0x100_0000
  {
    assert Shifted(3, 8) == 0x300 && Shifted(1, 8) == Pow2(8) == 0x100;
    assert Shifted(3, 12) == 0x3000 && Shifted(1, 12) == Pow2(12) == 0x1000;
    assert Shifted(3, 16) == 0x3_0000 && Shifted(1, 16) == Pow2(16) == 0x1_0000;
    assert Shifted(3, 20) == 0x30_0000 && Shifted(1, 20) == Pow2(20) == 0x10_0000;
  }

  /** The id of the n-th wall. */
  function WallID(n: nat): nat {
    Or(ID_BASE, n)
  }

  lemma WallIDBelow(n: nat)
    requires n < 0x100_0000
    ensures WallID(n) == ID_BASE + n
  {
    Shifts();
    OrLow(3, ID_BITS, n);
  }

  /** The 2^24-th wall gets the bare base as its id: all ids before it are larger. */
  lemma WallIDWraps()
    ensures WallID(0x100_0000) == ID_BASE
  {
    Shifts();
    OrShifted(3, 1, ID_BITS);
    OrThreeOne();
  }

  lemma OrThreeOne()
    ensures Or(3, 1) == 3
  {
    assert Or(1, 0) == 1;
  }

  /** The ids of the first n walls grow strictly exactly as long as there are fewer than 2^24. */
  lemma IDsGrow(n: nat)
    ensures (forall i, j :: 1 <= i < j <= n ==> WallID(i) < WallID(j)) <==> n < 0x100_0000
  {
    if n < 0x100_0000 {
      forall i, j | 1 <= i < j <= n
        ensures WallID(i) < WallID(j)
      {
        WallIDBelow(i);
        WallIDBelow(j);
      }
    } else {
      WallIDBelow(1);
      WallIDWraps();
      assert WallID(1) > WallID(0x100_0000);
    }
  }

  /** Bits above do not disturb those below the shift. */
  lemma {:induction false} OrAbove(c: nat, d: nat, k: nat, n: nat)
    requires n < Pow2(k)
    ensures Or(Shifted(c, k), Shifted(d, k) + n) == Shifted(Or(c, d), k) + n
    decreases k
  {
    if k > 0 {
      OrAbove(c, d, k - 1, n / 2);
      Digit(0, Shifted(c, k - 1));
      Digit(n % 2, Shifted(d, k - 1) + n / 2);
      Digit(n % 2, Or(Shifted(c, k - 1), Shifted(d, k - 1) + n / 2));
    }
  }

  /** The wall after that gets the id of the first one again. */
  lemma WallIDRepeats()
    ensures WallID(0x100_0001) == WallID(1)
  {
    Shifts();
    OrAbove(3, 1, ID_BITS, 1);
    OrThreeOne();
    WallIDBelow(1);
  }

  lemma WallIDLast(n: nat)
    requires n == 0x100_0000
    ensures WallID(n) == ID_BASE
  {
    WallIDWraps();
  }

  lemma IDsDiffer(i: nat, j: nat)
    requires 1 <= i < j <= 0x100_0000
    ensures WallID(i) != WallID(j)
  {
    WallIDBelow(i);
    if j == 0x100_0000 {
      WallIDLast(j);
    } else {
      WallIDBelow(j);
    }
  }

  ghost predicate Distinct(n: nat) {
    forall i, j :: 1 <= i < j <= n ==> WallID(i) != WallID(j)
  }

  /** The ids of the first n walls are all different exactly as long as there are no more than 2^24. */
  lemma IDsDistinct(n: nat)
    ensures Distinct(n) <==> n <= 0x100_0000
  {
    if n <= 0x100_0000 {
      forall i, j | 1 <= i < j <= n
        ensures WallID(i) != WallID(j)
      {
        IDsDiffer(i, j);
      }
    } else {
      WallIDRepeats();
    }
  }

  // ----- Steps -----

  /** wallStateForHP. */
  function StateFor(hp: nat): nat {
    if hp == 0 then BROKEN else if hp <= CRACK_HP then CRACKED else INTACT
  }

  function Owned(walls: seq<Wall>, owner: nat): nat {
    if walls == [] then 0 else (if walls[0].owner == owner then 1 else 0) + Owned(walls[1..], owner)
  }

  /** The list without the owner's oldest wall. */
  function PopOldest(walls: seq<Wall>, owner: nat): seq<Wall> {
    if walls == [] then []
    else if walls[0].owner == owner then walls[1..]
    else [walls[0]] + PopOldest(walls[1..], owner)
  }

  lemma {:induction false} PopOwned(walls: seq<Wall>, owner: nat, o: nat)
    ensures Owned(PopOldest(walls, owner), o) ==
            if o == owner && Owned(walls, owner) > 0 then Owned(walls, o) - 1 else Owned(walls, o)
    ensures |PopOldest(walls, owner)| == if Owned(walls, owner) > 0 then |walls| - 1 else |walls|
    decreases |walls|
  {
    if walls != [] && walls[0].owner != owner {
      PopOwned(walls[1..], owner, o);
      PopOwned(walls[1..], owner, owner);
    } else if walls != [] {
      assert Owned(walls, owner) > 0;
    }
  }

  /** The trim loop of a placement: the owner's oldest walls go until he has no more than the cap. */
  function Trim(walls: seq<Wall>, owner: nat): seq<Wall>
    decreases |walls|
  {
    if Owned(walls, owner) > WALL_CAP then
      PopOwned(walls, owner, owner);
      Trim(PopOldest(walls, owner), owner)
    else walls
  }

  function NextSeq(n: nat): nat {
    (n + 1) % SEQ_RANGE
  }

  function Place(s: State, owner: nat, now: int): State {
    var n := NextSeq(s.wallSeq);
    State(Trim(s.walls + [Wall(WallID(n), owner, MAX_HP, INTACT, now)], owner), n)
  }

  function WithoutID(walls: seq<Wall>, id: nat): seq<Wall> {
    if walls == [] then [] else if walls[0].id == id then walls[1..] else [walls[0]] + WithoutID(walls[1..], id)
  }

  function Find(walls: seq<Wall>, id: nat): Option<Wall> {
    if walls == [] then None else if walls[0].id == id then Some(walls[0]) else Find(walls[1..], id)
  }

  /** The damage of a report: its low 16 bits, and 25 for none at all. */
  function Dealt(damage: nat): nat {
    if damage % 0x1_0000 == 0 then 25 else damage % 0x1_0000
  }

  function Hurt(w: Wall, dealt: nat): Wall {
    var hp := if dealt >= w.hp then 0 else w.hp - dealt;
    w.(hp := hp, state := if hp == 0 then w.state else StateFor(hp))
  }

  function HurtIn(walls: seq<Wall>, id: nat, dealt: nat): seq<Wall> {
    if walls == [] then []
    else if walls[0].id == id then [Hurt(walls[0], dealt)] + walls[1..]
    else [walls[0]] + HurtIn(walls[1..], id, dealt)
  }

  function Damage(s: State, id: nat, damage: nat): State {
    match Find(s.walls, id)
    case None => s
    case Some(w) =>
      if Hurt(w, Dealt(damage)).hp == 0 then s.(walls := WithoutID(s.walls, id))
      else s.(walls := HurtIn(s.walls, id, Dealt(damage)))
  }

  function Filter(walls: seq<Wall>, keep: Wall -> bool): seq<Wall> {
    if walls == [] then [] else (if keep(walls[0]) then [walls[0]] else []) + Filter(walls[1..], keep)
  }

  function Sweep(s: State, now: int): State {
    s.(walls := Filter(s.walls, (w: Wall) => now - w.placedAt < LIFETIME))
  }

  datatype Event =
    | Placing(owner: nat, now: int)
    | Damaging(id: nat, damage: nat)
    | Sweeping(now: int)
    | Clearing

  function Step(s: State, ev: Event): State {
    match ev
    case Placing(owner, now) => Place(s, owner, now)
    case Damaging(id, damage) => Damage(s, id, damage)
    case Sweeping(now) => Sweep(s, now)
    case Clearing => s.(walls := [])
  }

  function Run(evs: seq<Event>): State {
    if evs == [] then State([], 0) else Step(Run(evs[..|evs| - 1]), evs[|evs| - 1])
  }

  // ----- What every step keeps -----

  /** A live wall: some hit points, never more than full, and the crack state that goes with them. */
  ghost predicate Live(w: Wall) {
    0 < w.hp <= MAX_HP && w.state == StateFor(w.hp)
  }

  ghost predicate Rising(walls: seq<Wall>) {
    walls == [] || ((forall w :: w in walls[1..] ==> walls[0].id < w.id) && Rising(walls[1..]))
  }

  ghost predicate Capped(walls: seq<Wall>) {
    forall o :: Owned(walls, o) <= WALL_CAP
  }

  ghost predicate Sound(s: State) {
    && Rising(s.walls) && Capped(s.walls)
    && (forall w :: w in s.walls ==> Live(w) && w.id <= ID_BASE + s.wallSeq)
  }

  lemma {:induction false} PopKeeps(walls: seq<Wall>, owner: nat)
    requires Rising(walls)
    ensures Rising(PopOldest(walls, owner)) && forall w :: w in PopOldest(walls, owner) ==> w in walls
    decreases |walls|
  {
    if walls != [] && walls[0].owner != owner {
      PopKeeps(walls[1..], owner);
      assert PopOldest(walls, owner)[1..] == PopOldest(walls[1..], owner);
    }
  }

  lemma {:induction false} TrimKeeps(walls: seq<Wall>, owner: nat)
    requires Rising(walls)
    ensures Rising(Trim(walls, owner)) && forall w :: w in Trim(walls, owner) ==> w in walls
    decreases |walls|
  {
    if Owned(walls, owner) > WALL_CAP {
      PopOwned(walls, owner, owner);
      PopKeeps(walls, owner);
      TrimKeeps(PopOldest(walls, owner), owner);
    }
  }

  lemma {:induction false} TrimOwned(walls: seq<Wall>, owner: nat, o: nat)
    ensures o != owner ==> Owned(Trim(walls, owner), o) == Owned(walls, o)
    ensures Owned(Trim(walls, owner), owner) == if Owned(walls, owner) > WALL_CAP then WALL_CAP else Owned(walls, owner)
    decreases |walls|
  {
    if Owned(walls, owner) > WALL_CAP {
      PopOwned(walls, owner, owner);
      PopOwned(walls, owner, o);
      TrimOwned(PopOldest(walls, owner), owner, o);
    }
  }

  lemma {:induction false} AddKeeps(walls: seq<Wall>, w: Wall, o: nat)
    requires Rising(walls) && forall v :: v in walls ==> v.id < w.id
    ensures Rising(walls + [w])
    ensures Owned(walls + [w], o) == Owned(walls, o) + if w.owner == o then 1 else 0
    decreases |walls|
  {
    if walls == [] {
      assert [w][1..] == [];
    } else {
      assert (walls + [w])[1..] == walls[1..] + [w];
      AddKeeps(walls[1..], w, o);
    }
  }

  lemma {:induction false} FilterKeeps(walls: seq<Wall>, keep: Wall -> bool, o: nat)
    requires Rising(walls)
    ensures Rising(Filter(walls, keep)) && Owned(Filter(walls, keep), o) <= Owned(walls, o)
    ensures forall w :: w in Filter(walls, keep) <==> w in walls && keep(w)
    decreases |walls|
  {
    if walls != [] {
      FilterKeeps(walls[1..], keep, o);
      var rest := Filter(walls[1..], keep);
      assert walls == [walls[0]] + walls[1..];
      if keep(walls[0]) {
        assert ([walls[0]] + rest)[1..] == rest;
      } else {
        assert [] + rest == rest;
      }
    }
  }

  /** Ids are distinct, so taking out the first wall with an id is filtering it out. */
  lemma {:induction false} RemovalIsFilter(walls: seq<Wall>, id: nat)
    requires Rising(walls)
    ensures WithoutID(walls, id) == Filter(walls, (w: Wall) => w.id != id)
    decreases |walls|
  {
    var others := (w: Wall) => w.id != id;
    if walls != [] {
      if walls[0].id == id {
        AllKept(walls[1..], others);
        assert [] + Filter(walls[1..], others) == Filter(walls[1..], others);
      } else {
        RemovalIsFilter(walls[1..], id);
      }
    }
  }

  lemma {:induction false} AllKept(walls: seq<Wall>, keep: Wall -> bool)
    requires forall w :: w in walls ==> keep(w)
    ensures Filter(walls, keep) == walls
    decreases |walls|
  {
    if walls != [] {
      AllKept(walls[1..], keep);
    }
  }

  lemma {:induction false} FindIs(walls: seq<Wall>, id: nat)
    ensures match Find(walls, id)
            case None => forall w :: w in walls ==> w.id != id
            case Some(w) => w in walls && w.id == id
    decreases |walls|
  {
    if walls != [] {
      FindIs(walls[1..], id);
      assert walls == [walls[0]] + walls[1..];
    }
  }

  lemma {:induction false} HurtKeeps(walls: seq<Wall>, id: nat, dealt: nat, o: nat)
    requires Rising(walls)
    ensures Rising(HurtIn(walls, id, dealt)) && Owned(HurtIn(walls, id, dealt), o) == Owned(walls, o)
    ensures forall w :: w in HurtIn(walls, id, dealt) ==>
              w in walls || (Find(walls, id).Some? && w == Hurt(Find(walls, id).value, dealt))
    ensures forall w :: w in HurtIn(walls, id, dealt) ==> exists v :: v in walls && v.id == w.id
    decreases |walls|
  {
    if walls != [] {
      assert walls == [walls[0]] + walls[1..];
      if walls[0].id == id {
        assert ([Hurt(walls[0], dealt)] + walls[1..])[1..] == walls[1..];
      } else {
        HurtKeeps(walls[1..], id, dealt, o);
        var rest := HurtIn(walls[1..], id, dealt);
        assert ([walls[0]] + rest)[1..] == rest;
      }
    }
  }

  lemma AddedOwned(walls: seq<Wall>, w: Wall, o: nat)
    requires Rising(walls) && Capped(walls) && forall v :: v in walls ==> v.id < w.id
    ensures Owned(Trim(walls + [w], w.owner), o) <= WALL_CAP
  {
    AddKeeps(walls, w, o);
    TrimOwned(walls + [w], w.owner, o);
  }

  lemma AddedKeeps(walls: seq<Wall>, w: Wall)
    requires Rising(walls) && Capped(walls) && forall v :: v in walls ==> v.id < w.id
    ensures Rising(Trim(walls + [w], w.owner)) && Capped(Trim(walls + [w], w.owner))
    ensures forall v :: v in Trim(walls + [w], w.owner) ==> v in walls || v == w
  {
    AddKeeps(walls, w, w.owner);
    TrimKeeps(walls + [w], w.owner);
    forall o
      ensures Owned(Trim(walls + [w], w.owner), o) <= WALL_CAP
    {
      AddedOwned(walls, w, o);
    }
  }

  lemma PlaceKeeps(s: State, owner: nat, now: int)
    requires Sound(s) && s.wallSeq + 1 < 0x100_0000
    ensures Sound(Place(s, owner, now))
  {
    var n := s.wallSeq + 1;
    WallIDBelow(n);
    AddedKeeps(s.walls, Wall(WallID(n), owner, MAX_HP, INTACT, now));
  }

  lemma DamageKeeps(s: State, id: nat, damage: nat)
    requires Sound(s)
    ensures Sound(Damage(s, id, damage))
  {
    FindIs(s.walls, id);
    if Find(s.walls, id).Some? {
      var others := (w: Wall) => w.id != id;
      RemovalIsFilter(s.walls, id);
      forall o
        ensures Owned(WithoutID(s.walls, id), o) <= WALL_CAP && Owned(HurtIn(s.walls, id, Dealt(damage)), o) <= WALL_CAP
      {
        FilterKeeps(s.walls, others, o);
        HurtKeeps(s.walls, id, Dealt(damage), o);
      }
      FilterKeeps(s.walls, others, 0);
      HurtKeeps(s.walls, id, Dealt(damage), 0);
    }
  }

  lemma SweepKeeps(s: State, now: int)
    requires Sound(s)
    ensures Sound(Sweep(s, now))
  {
    var young := (w: Wall) => now - w.placedAt < LIFETIME;
    forall o
      ensures Owned(Filter(s.walls, young), o) <= WALL_CAP
    {
      FilterKeeps(s.walls, young, o);
    }
    FilterKeeps(s.walls, young, 0);
  }

  function Placements(evs: seq<Event>): nat {
    if evs == [] then 0 else Placements(evs[..|evs| - 1]) + if evs[|evs| - 1].Placing? then 1 else 0
  }

  /**
   While fewer than 2^24 walls have been placed: after every step the list is strictly rising in id, every wall on it
   has hit points left and the crack state for them, and nobody has more than three.
   */
  lemma {:induction false} RunSound(evs: seq<Event>)
    requires Placements(evs) < 0x100_0000
    ensures Sound(Run(evs)) && Run(evs).wallSeq == Placements(evs)
    decreases |evs|
  {
    if evs != [] {
      var s, ev := Run(evs[..|evs| - 1]), evs[|evs| - 1];
      RunSound(evs[..|evs| - 1]);
      match ev
      case Placing(owner, now) => PlaceKeeps(s, owner, now);
      case Damaging(id, damage) => DamageKeeps(s, id, damage);
      case Sweeping(now) => SweepKeeps(s, now);
      case Clearing =>
    }
  }

  // ----- Which walls a placement keeps -----

  /** All walls of others, and the owner's last n. */
  function Newest(walls: seq<Wall>, owner: nat, n: nat): seq<Wall> {
    if walls == [] then [] else
    var before, last := walls[..|walls| - 1], walls[|walls| - 1];
    if last.owner != owner then Newest(before, owner, n) + [last]
    else if n > 0 then Newest(before, owner, n - 1) + [last]
    else Newest(before, owner, 0)
  }

  lemma {:induction false} OwnedSnoc(walls: seq<Wall>, w: Wall, o: nat)
    ensures Owned(walls + [w], o) == Owned(walls, o) + if w.owner == o then 1 else 0
    decreases |walls|
  {
    if walls == [] {
      assert [w][1..] == [];
    } else {
      assert (walls + [w])[1..] == walls[1..] + [w];
      OwnedSnoc(walls[1..], w, o);
    }
  }

  lemma {:induction false} PopSnoc(walls: seq<Wall>, w: Wall, owner: nat)
    ensures PopOldest(walls + [w], owner) ==
            if Owned(walls, owner) > 0 then PopOldest(walls, owner) + [w]
            else if w.owner == owner then walls else walls + [w]
    decreases |walls|
  {
    if walls == [] {
      assert [w][1..] == [] && PopOldest([], owner) == [];
    } else {
      assert (walls + [w])[1..] == walls[1..] + [w];
      PopSnoc(walls[1..], w, owner);
    }
  }

  lemma {:induction false} NewestAll(walls: seq<Wall>, owner: nat, n: nat)
    requires Owned(walls, owner) <= n
    ensures Newest(walls, owner, n) == walls
    decreases |walls|
  {
    if walls != [] {
      var before, last := walls[..|walls| - 1], walls[|walls| - 1];
      assert walls == before + [last];
      OwnedSnoc(before, last, owner);
      NewestAll(before, owner, if last.owner == owner then n - 1 else n);
    }
  }

  lemma {:induction false} NewestPop(walls: seq<Wall>, owner: nat, n: nat)
    requires Owned(walls, owner) > n
    ensures Newest(PopOldest(walls, owner), owner, n) == Newest(walls, owner, n)
    decreases |walls|
  {
    var before, last := walls[..|walls| - 1], walls[|walls| - 1];
    assert walls == before + [last];
    OwnedSnoc(before, last, owner);
    PopSnoc(before, last, owner);
    if Owned(before, owner) > 0 {
      assert (PopOldest(before, owner) + [last])[..|PopOldest(before, owner)|] == PopOldest(before, owner);
      var m := if last.owner != owner then n else if n > 0 then n - 1 else 0;
      if Owned(before, owner) > m {
        NewestPop(before, owner, m);
      }
    } else {
      assert n == 0 && last.owner == owner;
    }
  }

  /** The trim loop keeps the owner's newest three walls and everybody else's, in their order. */
  lemma {:induction false} TrimKeepsNewest(walls: seq<Wall>, owner: nat)
    ensures Trim(walls, owner) == Newest(walls, owner, 3)
    decreases |walls|
  {
    if Owned(walls, owner) > WALL_CAP {
      PopOwned(walls, owner, owner);
      NewestPop(walls, owner, WALL_CAP);
      TrimKeepsNewest(PopOldest(walls, owner), owner);
    } else {
      NewestAll(walls, owner, WALL_CAP);
    }
  }

  // ----- How long the list stays in order -----

  /** One owner places n walls. */
  function Spree(owner: nat, now: int, n: nat): seq<Event> {
    if n == 0 then [] else Spree(owner, now, n - 1) + [Placing(owner, now)]
  }

  lemma SpreeMore(owner: nat, now: int, n: nat)
    requires n > 0
    ensures Run(Spree(owner, now, n)) == Place(Run(Spree(owner, now, n - 1)), owner, now)
  {
    var before := Spree(owner, now, n - 1);
    assert Spree(owner, now, n)[..|before|] == before;
  }

  lemma PlacingCounts(evs: seq<Event>, owner: nat, now: int)
    ensures Placements(evs + [Placing(owner, now)]) == Placements(evs) + 1
  {
    assert (evs + [Placing(owner, now)])[..|evs|] == evs;
  }

  lemma {:induction false} SpreePlaces(owner: nat, now: int, n: nat)
    ensures Placements(Spree(owner, now, n)) == n
  {
    if n > 0 {
      SpreePlaces(owner, now, n - 1);
      PlacingCounts(Spree(owner, now, n - 1), owner, now);
    }
  }

  lemma SpreeCounts(owner: nat, now: int, n: nat)
    requires n < 0x100_0000
    ensures Run(Spree(owner, now, n)).wallSeq == n
  {
    SpreePlaces(owner, now, n);
    RunSound(Spree(owner, now, n));
  }

  /** A placement ends the list with the new wall, behind the owner's last one if that ended it before. */
  lemma PlaceEnds(s: State, owner: nat, now: int)
    ensures var t := Place(s, owner, now).walls;
            && t != [] && t[|t| - 1] == Wall(WallID(NextSeq(s.wallSeq)), owner, MAX_HP, INTACT, now)
            && (s.walls != [] && s.walls[|s.walls| - 1].owner == owner ==>
                  |t| > 1 && t[|t| - 2] == s.walls[|s.walls| - 1])
  {
    var w := Wall(WallID(NextSeq(s.wallSeq)), owner, MAX_HP, INTACT, now);
    TrimKeepsNewest(s.walls + [w], owner);
    assert (s.walls + [w])[..|s.walls|] == s.walls;
    assert Newest(s.walls + [w], owner, 3) == Newest(s.walls, owner, 2) + [w];
  }

  lemma SpreeEnds(owner: nat, now: int, n: nat)
    requires 0 < n < 0x100_0000
    ensures var s := Run(Spree(owner, now, n));
            && s.wallSeq == n && s.walls != []
            && s.walls[|s.walls| - 1] == Wall(WallID(n), owner, MAX_HP, INTACT, now)
  {
    SpreeCounts(owner, now, n);
    SpreeCounts(owner, now, n - 1);
    SpreeMore(owner, now, n);
    PlaceEnds(Run(Spree(owner, now, n - 1)), owner, now);
  }

  lemma {:induction false} RisingAt(walls: seq<Wall>, i: nat)
    requires Rising(walls) && i + 1 < |walls|
    ensures walls[i].id < walls[i + 1].id
    decreases |walls|
  {
    if i > 0 {
      RisingAt(walls[1..], i - 1);
    }
  }

  /** After 2^24 walls the last two on the list are in the wrong order. */
  lemma SpreeFalls(owner: nat, now: int)
    ensures !Rising(Run(Spree(owner, now, 0x100_0000)).walls)
  {
    var s := Run(Spree(owner, now, 0xFF_FFFF));
    SpreeEnds(owner, now, 0xFF_FFFF);
    SpreeMore(owner, now, 0x100_0000);
    PlaceEnds(s, owner, now);
    WallIDWraps();
    WallIDBelow(0xFF_FFFF);
    var t := Place(s, owner, now).walls;
    if Rising(t) {
      RisingAt(t, |t| - 2);
    }
  }

  ghost predicate AlwaysRising(n: nat) {
    forall evs :: Placements(evs) <= n ==> Rising(Run(evs).walls)
  }

  /** The list stays in order in all runs of up to n placements exactly while n is below 2^24. */
  lemma RisingExactly(n: nat)
    ensures AlwaysRising(n) <==> n < 0x100_0000
  {
    if n < 0x100_0000 {
      forall evs | Placements(evs) <= n
        ensures Rising(Run(evs).walls)
      {
        RunSound(evs);
      }
    } else {
      SpreePlaces(0, 0, 0x100_0000);
      SpreeFalls(0, 0);
    }
  }
}
