/** The Go methods of match-server/gloo.go on the wall list, and the gloo stack that a placement is paid from. */
module GlooWalls {
  import opened Gloo
  import opened Results
  import Conservation
  import Inventory
  import Loadout

  // ----- The gloo stack -----

  function LastSpent(s: Inventory.State, u: nat): Inventory.State {
    s.(uids := s.uids - {u}, equip := s.equip - {Inventory.BUILDING})
  }

  function OneSpent(s: Inventory.State, u: nat): Inventory.State
    requires u in s.uids && s.uids[u].count > 0
  {
    s.(uids := s.uids[u := s.uids[u].(count := s.uids[u].count - 1)])
  }

  /** One gloo wall less: the stack shrinks, or goes with its slot when it was the last. */
  function Spend(s: Inventory.State, u: nat): Inventory.State
    requires u in s.uids && s.uids[u].count > 0
  {
    if s.uids[u].count == 1 then LastSpent(s, u) else OneSpent(s, u)
  }

  lemma LastSpentTotal(s: Inventory.State, u: nat, data: nat)
    requires u in s.uids && s.uids[u].count == 1
    ensures Conservation.Total(LastSpent(s, u), data) + Conservation.Amount(s.uids[u], data) ==
            Conservation.Total(s, data)
  {
    Conservation.HeldWithout(s.uids, u, data);
  }

  lemma OneSpentTotal(s: Inventory.State, u: nat, data: nat)
    requires u in s.uids && s.uids[u].count > 0
    ensures Conservation.Total(OneSpent(s, u), data) + Conservation.Amount(s.uids[u], data) ==
            Conservation.Total(s, data) + Conservation.Amount(s.uids[u].(count := s.uids[u].count - 1), data)
  {
    Conservation.HeldChange(s.uids, u, s.uids[u].(count := s.uids[u].count - 1), data);
  }

  /** A placement takes exactly one of the gloo data, and nothing of any other. */
  lemma SpendsOne(s: Inventory.State, u: nat, data: nat)
    requires u in s.uids && s.uids[u].count > 0
    ensures Conservation.Total(Spend(s, u), data) + (if data == s.uids[u].data then 1 else 0) ==
            Conservation.Total(s, data)
  {
    if s.uids[u].count == 1 {
      LastSpentTotal(s, u, data);
    } else {
      OneSpentTotal(s, u, data);
    }
  }

  lemma LastSpentKeeps(k: Inventory.Kinds, s: Inventory.State, u: nat)
    requires Inventory.Held(k, s) && u in s.uids && u != 0
    requires forall l :: l in s.equip && l != Inventory.BUILDING ==> s.equip[l].unique != u
    ensures Inventory.Held(k, LastSpent(s, u))
  {
    var t := LastSpent(s, u);
    forall l | l in t.weapons
      ensures Inventory.ArmedAt(k, t, l)
    {
      assert Inventory.ArmedAt(k, s, l);
    }
    forall l | l in t.equip
      ensures Inventory.WornAt(k, t, l)
    {
      assert Inventory.WornAt(k, s, l);
    }
  }

  lemma OneSpentKeeps(k: Inventory.Kinds, s: Inventory.State, u: nat)
    requires Inventory.Held(k, s) && u in s.uids && s.uids[u].count > 0
    requires Inventory.Plain(k, s.uids[u].data) && !k.weapon(s.uids[u].data)
    ensures Inventory.Held(k, OneSpent(s, u))
  {
    var t := OneSpent(s, u);
    forall l | l in t.weapons
      ensures Inventory.ArmedAt(k, t, l)
    {
      assert Inventory.ArmedAt(k, s, l);
    }
    forall l | l in t.equip
      ensures Inventory.WornAt(k, t, l)
    {
      assert Inventory.WornAt(k, s, l);
    }
  }

  /** The gloo stack is worn in its own slot or nowhere. */
  lemma GlooSlot(k: Inventory.Kinds, s: Inventory.State, u: nat)
    requires Inventory.Standard(k) && Inventory.Held(k, s)
    requires u in s.uids && s.uids[u].data == Inventory.GLOO && u != 0
    ensures forall l :: l in s.equip && l != Inventory.BUILDING ==> s.equip[l].unique != u
  {
    forall l | l in s.equip && l != Inventory.BUILDING
      ensures s.equip[l].unique != u
    {
      assert Inventory.WornAt(k, s, l);
    }
  }

  /** The inventory invariant survives it. */
  lemma SpendKeeps(k: Inventory.Kinds, s: Inventory.State, u: nat)
    requires k.Valid() && Inventory.Standard(k) && Inventory.Core(k, s)
    requires u in s.uids && s.uids[u].count > 0 && s.uids[u].data == Inventory.GLOO
    ensures Inventory.Core(k, Spend(s, u))
  {
    GlooSlot(k, s, u);
    LastSpentKeeps(k, s, u);
    OneSpentKeeps(k, s, u);
    Inventory.FewerHeld(k, s, Spend(s, u));
  }

  // ----- The wall list -----

  lemma WithoutStep(walls: seq<Wall>, i: nat, id: nat)
    requires i < |walls| && walls[i].id == id && forall j :: 0 <= j < i ==> walls[j].id != id
    ensures WithoutID(walls, id) == walls[..i] + walls[i + 1..]
  {
    if i > 0 {
      WithoutStep(walls[1..], i - 1, id);
      assert walls[1..][..i - 1] == walls[1..i] && walls[1..][i..] == walls[i + 1..];
      assert [walls[0]] + walls[1..i] == walls[..i];
    }
  }

  lemma WithoutNone(walls: seq<Wall>, id: nat)
    requires forall j :: 0 <= j < |walls| ==> walls[j].id != id
    ensures WithoutID(walls, id) == walls && Find(walls, id) == None
  {
    if walls != [] {
      WithoutNone(walls[1..], id);
    }
  }

  lemma FindStep(walls: seq<Wall>, i: nat, id: nat, dealt: nat)
    requires i < |walls| && walls[i].id == id && forall j :: 0 <= j < i ==> walls[j].id != id
    ensures Find(walls, id) == Some(walls[i]) && HurtIn(walls, id, dealt) == walls[i := Hurt(walls[i], dealt)]
  {
    if i > 0 {
      FindStep(walls[1..], i - 1, id, dealt);
      assert walls[1..][i - 1 := Hurt(walls[i], dealt)] == walls[i := Hurt(walls[i], dealt)][1..];
    } else {
      assert [Hurt(walls[0], dealt)] + walls[1..] == walls[0 := Hurt(walls[0], dealt)];
    }
  }

  lemma PopStep(walls: seq<Wall>, i: nat, owner: nat)
    requires i < |walls| && walls[i].owner == owner && forall j :: 0 <= j < i ==> walls[j].owner != owner
    ensures PopOldest(walls, owner) == walls[..i] + walls[i + 1..]
  {
    if i > 0 {
      PopStep(walls[1..], i - 1, owner);
      assert walls[1..][..i - 1] == walls[1..i] && walls[1..][i..] == walls[i + 1..];
      assert [walls[0]] + walls[1..i] == walls[..i];
    }
  }

  /** The list rest is walls with w taken out. */
  ghost predicate TakenOut(walls: seq<Wall>, w: Wall, rest: seq<Wall>) {
    exists i :: 0 <= i < |walls| && walls[i] == w && rest == walls[..i] + walls[i + 1..]
  }

  lemma PopNone(walls: seq<Wall>, owner: nat)
    requires forall j :: 0 <= j < |walls| ==> walls[j].owner != owner
    ensures PopOldest(walls, owner) == walls && Owned(walls, owner) == 0
  {
    if walls != [] {
      PopNone(walls[1..], owner);
    }
  }

  lemma {:induction false} FilterSnoc(walls: seq<Wall>, w: Wall, keep: Wall -> bool)
    ensures Filter(walls + [w], keep) == Filter(walls, keep) + if keep(w) then [w] else []
    decreases |walls|
  {
    if walls == [] {
      assert [] + [w] == [w];
    } else {
      FilterSnoc(walls[1..], w, keep);
      FilterCons(walls[0], walls[1..], keep);
      FilterCons(walls[0], walls[1..] + [w], keep);
      assert walls == [walls[0]] + walls[1..];
      assert walls + [w] == [walls[0]] + (walls[1..] + [w]);
    }
  }

  lemma FilterCons(w: Wall, walls: seq<Wall>, keep: Wall -> bool)
    ensures Filter([w] + walls, keep) == (if keep(w) then [w] else []) + Filter(walls, keep)
  {
    assert ([w] + walls)[1..] == walls;
  }

  /** The match's walls, oldest first. */
  class Walls {
    var walls: seq<Wall>
    var wallSeq: nat

    function Now(): State
      reads this
    {
      State(walls, wallSeq)
    }

    constructor ()
      ensures Now() == State([], 0)
    {
      walls, wallSeq := [], 0;
    }

    method OwnerWallCount(owner: nat) returns (n: nat)
      ensures n == Owned(walls, owner)
    {
      n := 0;
      for i := 0 to |walls|
        invariant n == Owned(walls[..i], owner)
      {
        assert walls[..i + 1] == walls[..i] + [walls[i]];
        OwnedSnoc(walls[..i], walls[i], owner);
        if walls[i].owner == owner {
          n := n + 1;
        }
      }
      assert walls[..|walls|] == walls;
    }

    /** popOldestWall, shifting the rest down. */
    method PopOldestWall(owner: nat) returns (popped: Option<Wall>)
      modifies this`walls
      ensures walls == PopOldest(old(walls), owner)
      ensures popped.Some? <==> Owned(old(walls), owner) > 0
      ensures popped.Some? ==> popped.value.owner == owner && TakenOut(old(walls), popped.value, walls)
    {
      for i := 0 to |walls|
        invariant walls == old(walls)
        invariant forall j :: 0 <= j < i ==> walls[j].owner != owner
      {
        if walls[i].owner == owner {
          PopStep(walls, i, owner);
          PopOwned(walls, owner, owner);
          popped := Some(walls[i]);
          walls := walls[..i] + walls[i + 1..];
          return;
        }
      }
      PopNone(walls, owner);
      popped := None;
    }

    /** The wall part of handlePlaceIcewall: a fresh wall, and the owner's oldest ones go beyond the cap. */
    method PlaceWall(owner: nat, now: int) returns (id: nat)
      modifies this
      ensures Now() == Place(old(Now()), owner, now) && id == WallID(wallSeq)
    {
      wallSeq := (wallSeq + 1) % SEQ_RANGE;
      id := WallID(wallSeq);
      walls := walls + [Wall(id, owner, MAX_HP, INTACT, now)];
      ghost var more := walls;
      var n := OwnerWallCount(owner);
      while n > WALL_CAP
        invariant wallSeq == NextSeq(old(wallSeq)) && n == Owned(walls, owner)
        invariant Trim(walls, owner) == Trim(more, owner)
        decreases n
      {
        PopOwned(walls, owner, owner);
        var oldest := PopOldestWall(owner);
        n := OwnerWallCount(owner);
      }
    }

    method RemoveWallByID(id: nat)
      modifies this`walls
      ensures walls == WithoutID(old(walls), id)
    {
      for i := 0 to |walls|
        invariant walls == old(walls)
        invariant forall j :: 0 <= j < i ==> walls[j].id != id
      {
        if walls[i].id == id {
          WithoutStep(walls, i, id);
          walls := walls[..i] + walls[i + 1..];
          return;
        }
      }
      WithoutNone(walls, id);
    }

    /** handleIcewallDamage. */
    method IcewallDamage(id: nat, damage: nat)
      modifies this`walls
      ensures Now() == Damage(old(Now()), id, damage)
    {
      var i := 0;
      while i < |walls| && walls[i].id != id
        invariant walls == old(walls) && i <= |walls|
        invariant forall j :: 0 <= j < i ==> walls[j].id != id
        decreases |walls| - i
      {
        i := i + 1;
      }
      if i == |walls| {
        WithoutNone(walls, id);
        return;
      }
      var dmg := damage % 0x1_0000;
      if dmg == 0 {
        dmg := 25;
      }
      FindStep(walls, i, id, dmg);
      var hp := if dmg >= walls[i].hp then 0 else walls[i].hp - dmg;
      if hp == 0 {
        RemoveWallByID(id);
      } else {
        walls := walls[i := walls[i].(hp := hp, state := StateFor(hp))];
      }
    }

    /** sweepWalls, compacting the list in place. */
    method SweepWalls(now: int)
      modifies this`walls
      ensures Now() == Sweep(old(Now()), now)
    {
      var young := (w: Wall) => now - w.placedAt < LIFETIME;
      var kept: seq<Wall> := [];
      for i := 0 to |walls|
        invariant walls == old(walls) && kept == Filter(walls[..i], young)
      {
        assert walls[..i + 1] == walls[..i] + [walls[i]];
        FilterSnoc(walls[..i], walls[i], young);
        if now - walls[i].placedAt < LIFETIME {
          kept := kept + [walls[i]];
        }
      }
      assert walls[..|walls|] == walls;
      walls := kept;
    }

    method ClearWalls()
      modifies this`walls
      ensures Now() == old(Now()).(walls := [])
    {
      walls := [];
    }
  }

  // ----- A placement by a player -----

  /** The unique is that of one of the player's guns. */
  predicate IsGun(s: Inventory.State, u: nat) {
    u != 0 && exists l :: l in s.weapons && s.weapons[l].unique == u
  }

  function GunIn(s: Inventory.State, slot: nat): nat {
    if slot in s.weapons then s.weapons[slot].unique else 0
  }

  /** bestWeaponUID: a primary, else the secondary, else 0. */
  function BestGun(s: Inventory.State): nat {
    if GunIn(s, Inventory.PRIMARY1) != 0 then GunIn(s, Inventory.PRIMARY1)
    else if GunIn(s, Inventory.PRIMARY2) != 0 then GunIn(s, Inventory.PRIMARY2)
    else GunIn(s, Inventory.SECONDARY)
  }

  /** After the last wall: back to the gun held before it, or the best there is, or no change. */
  function Switched(s: Inventory.State, heldBefore: nat): Inventory.State {
    var target := if IsGun(s, heldBefore) then heldBefore else BestGun(s);
    if target == 0 then s else s.(onHand := target)
  }

  /** A gun to go back to: the one held before, or one in a primary or the secondary slot. */
  predicate HasGun(s: Inventory.State, heldBefore: nat) {
    IsGun(s, heldBefore) || exists l :: l in s.weapons && l <= Inventory.SECONDARY
  }

  /** The hand then holds a gun exactly if there is one to go back to; a blade in the melee slot alone is none. */
  lemma SwitchedToGun(s: Inventory.State, heldBefore: nat)
    requires forall l :: l in s.weapons ==> s.weapons[l].unique != 0
    ensures var t := Switched(s, heldBefore); if HasGun(s, heldBefore) then IsGun(t, t.onHand) else t == s
  {
    if exists l :: l in s.weapons && l <= Inventory.SECONDARY {
      var l :| l in s.weapons && l <= Inventory.SECONDARY;
      assert l == Inventory.PRIMARY1 || l == Inventory.PRIMARY2 || l == Inventory.SECONDARY;
    }
  }

  /** What a placement does to the inventory: nothing with infinite gloo. */
  function Paid(s: Inventory.State, u: nat, infinite: bool, heldBefore: nat): Inventory.State
    requires u in s.uids && s.uids[u].count > 0
  {
    if infinite then s
    else if s.uids[u].count == 1 then Switched(Spend(s, u), heldBefore) else Spend(s, u)
  }

  /** The gun remembered from before the gloo was drawn: forgotten when the last wall is paid. */
  function StillHeld(s: Inventory.State, u: nat, infinite: bool, heldBefore: nat): nat
    requires u in s.uids && s.uids[u].count > 0
  {
    if !infinite && s.uids[u].count == 1 then 0 else heldBefore
  }

  /** The unique is that of a stack of gloo walls. */
  predicate IsGloo(s: Inventory.State, u: nat) {
    u in s.uids && s.uids[u].data == Inventory.GLOO
  }

  /** What is in the building slot, 0 standing for nothing. */
  function InBuilding(s: Inventory.State): nat {
    if Inventory.BUILDING in s.equip then s.equip[Inventory.BUILDING].unique else 0
  }

  /** The stack that a placement is paid from: the one in the building slot if there is one, else any. */
  ghost predicate GlooStack(s: Inventory.State, u: nat) {
    && (IsGloo(s, InBuilding(s)) ==> u == InBuilding(s))
    && if u == 0 then forall v :: !IsGloo(s, v) else IsGloo(s, u)
  }

  function CountOf(s: Inventory.State, u: nat): nat {
    if u in s.uids then s.uids[u].count else 0
  }

  /** glooCount; 0 is nobody's unique. */
  method GlooCount(s: Loadout.Session) returns (uid: nat, count: nat)
    requires Loadout.OneEach(s.equipment) && 0 !in s.clientUIDs
    ensures GlooStack(s.Now(), uid) && count == CountOf(s.Now(), uid)
  {
    for i := 0 to |s.equipment|
      invariant forall j :: 0 <= j < i && s.equipment[j].slot == Inventory.BUILDING ==>
                  !IsGloo(s.Now(), s.equipment[j].unique)
    {
      if s.equipment[i].slot == Inventory.BUILDING {
        var u := s.equipment[i].unique;
        if u in s.clientUIDs && s.clientUIDs[u].data == Inventory.GLOO {
          Loadout.AsMapHas(s.equipment, Inventory.BUILDING);
          return u, s.clientUIDs[u].count;
        }
      }
    }
    Loadout.AsMapHas(s.equipment, Inventory.BUILDING);
    var u := s.TrackedByData(Inventory.GLOO, 0);
    if u.Some? {
      return u.value, s.clientUIDs[u.value].count;
    }
    return 0, 0;
  }

  /**
   handlePlaceIcewall: exactly a player whose stack is not empty pays one wall of it, unless gloo is infinite, and the
   wall stands; otherwise nothing happens.
   */
  method HandlePlaceIcewall(s: Loadout.Session, w: Walls, owner: nat, infinite: bool, heldBefore: nat, now: int)
    returns (placed: bool, held: nat, ghost uid: nat)
    requires Loadout.OneEach(s.equipment) && 0 !in s.clientUIDs
    modifies s, w
    ensures Loadout.OneEach(s.equipment) && GlooStack(old(s.Now()), uid)
    ensures placed <==> CountOf(old(s.Now()), uid) > 0
    ensures placed ==> s.Now() == Paid(old(s.Now()), uid, infinite, heldBefore)
    ensures held == if placed then StillHeld(old(s.Now()), uid, infinite, heldBefore) else heldBefore
    ensures placed ==> w.Now() == Place(old(w.Now()), owner, now)
    ensures !placed ==> s.Now() == old(s.Now()) && w.Now() == old(w.Now())
  {
    var u, count := GlooCount(s);
    uid, held := u, heldBefore;
    if count == 0 {
      placed := false;
      return;
    }
    placed := true;
    if !infinite {
      held := PayWall(s, u, heldBefore);
    }
    var id := w.PlaceWall(owner, now);
  }

  method PayWall(s: Loadout.Session, u: nat, heldBefore: nat) returns (held: nat)
    requires Loadout.OneEach(s.equipment) && u in s.clientUIDs && s.clientUIDs[u].count > 0
    modifies s
    ensures Loadout.OneEach(s.equipment) && s.Now() == Paid(old(s.Now()), u, false, heldBefore)
    ensures held == StillHeld(old(s.Now()), u, false, heldBefore)
  {
    held := heldBefore;
    var left := s.clientUIDs[u].count - 1;
    if left == 0 {
      s.clientUIDs := s.clientUIDs - {u};
      s.ClearEquip(Inventory.BUILDING);
      var target := heldBefore;
      if !IsGun(s.Now(), target) {
        target := BestGun(s.Now());
      }
      if target != 0 {
        s.itemOnHand := target;
      }
      held := 0;
    } else {
      s.clientUIDs := s.clientUIDs[u := s.clientUIDs[u].(count := left)];
    }
  }
}
