/**
 The Go methods on one player's inventory and the match's boxes (match-server/loot.go, match-server/purchase.go,
 match-server/equip.go, match-server/cssync.go): each is proved to make the transition of Inventory.dfy it stands for.
 */
module Loadout {
  import opened Inventory
  import opened Results
  import opened Walks
  import Conservation

  /** One entry of the equipment list. */
  datatype Slotted = Slotted(slot: nat, data: nat, unique: nat)

  // ----- The equipment list as a map -----

  function AsMap(eq: seq<Slotted>): map<nat, Equipped> {
    if eq == [] then map[]
    else AsMap(eq[..|eq| - 1])[eq[|eq| - 1].slot := Equipped(eq[|eq| - 1].data, eq[|eq| - 1].unique)]
  }

  ghost predicate OneEach(eq: seq<Slotted>) {
    forall i, j :: 0 <= i < j < |eq| ==> eq[i].slot != eq[j].slot
  }

  function Clear(eq: seq<Slotted>, slot: nat): seq<Slotted> {
    if eq == [] then []
    else Clear(eq[..|eq| - 1], slot) + if eq[|eq| - 1].slot != slot then [eq[|eq| - 1]] else []
  }

  lemma AsMapMore(eq: seq<Slotted>, e: Slotted)
    ensures AsMap(eq + [e]) == AsMap(eq)[e.slot := Equipped(e.data, e.unique)]
  {
    assert (eq + [e])[..|eq|] == eq;
  }

  /** The map has just the slots of the list, and with one entry for each, the entries too. */
  lemma {:induction false} AsMapHas(eq: seq<Slotted>, slot: nat)
    ensures slot in AsMap(eq) <==> exists i :: 0 <= i < |eq| && eq[i].slot == slot
    ensures OneEach(eq) ==> forall i :: 0 <= i < |eq| && eq[i].slot == slot ==>
                              slot in AsMap(eq) && AsMap(eq)[slot] == Equipped(eq[i].data, eq[i].unique)
    decreases |eq|
  {
    if eq != [] {
      AsMapHas(eq[..|eq| - 1], slot);
      assert forall i :: 0 <= i < |eq| - 1 ==> eq[..|eq| - 1][i] == eq[i];
      if slot in AsMap(eq) && eq[|eq| - 1].slot != slot {
        var i :| 0 <= i < |eq| - 1 && eq[..|eq| - 1][i].slot == slot;
        assert eq[i].slot == slot;
      }
    }
  }

  lemma {:induction false} ClearHas(eq: seq<Slotted>, slot: nat)
    ensures forall e :: e in Clear(eq, slot) <==> e in eq && e.slot != slot
    decreases |eq|
  {
    if eq != [] {
      ClearHas(eq[..|eq| - 1], slot);
      assert eq == eq[..|eq| - 1] + [eq[|eq| - 1]];
    }
  }

  lemma {:induction false} ClearOnce(eq: seq<Slotted>, slot: nat)
    requires OneEach(eq)
    ensures OneEach(Clear(eq, slot))
    decreases |eq|
  {
    if eq != [] {
      var before, last := eq[..|eq| - 1], eq[|eq| - 1];
      ClearOnce(before, slot);
      ClearHas(before, slot);
      var c := Clear(before, slot);
      forall i | 0 <= i < |c|
        ensures c[i].slot != last.slot
      {
        assert c[i] in before;
        var j :| 0 <= j < |before| && before[j] == c[i];
        assert eq[j] == c[i];
      }
    }
  }

  lemma {:induction false} ClearIs(eq: seq<Slotted>, slot: nat)
    ensures AsMap(Clear(eq, slot)) == AsMap(eq) - {slot}
    decreases |eq|
  {
    if eq != [] {
      var before, last := eq[..|eq| - 1], eq[|eq| - 1];
      ClearIs(before, slot);
      if last.slot != slot {
        AsMapMore(Clear(before, slot), last);
      } else {
        assert Clear(before, slot) + [] == Clear(before, slot);
      }
    }
  }

  lemma {:induction false} AsMapSet(eq: seq<Slotted>, i: nat, e: Slotted)
    requires OneEach(eq) && i < |eq| && eq[i].slot == e.slot
    ensures AsMap(eq[i := e]) == AsMap(eq)[e.slot := Equipped(e.data, e.unique)] && OneEach(eq[i := e])
    decreases |eq|
  {
    var before, last := eq[..|eq| - 1], eq[|eq| - 1];
    if i == |eq| - 1 {
      assert eq[i := e] == before + [e];
      AsMapMore(before, e);
    } else {
      AsMapSet(before, i, e);
      assert eq[i := e] == before[i := e] + [last];
      AsMapMore(before[i := e], last);
      assert last.slot != e.slot;
    }
  }

  /** What finds the one place of an item: a weapon is in the slot it is equipped in, and no item is in two slots. */
  ghost predicate Matched(s: State) {
    && (forall l :: l in s.weapons ==> l in s.equip && s.equip[l].unique == s.weapons[l].unique)
    && (forall l, m :: l in s.equip && m in s.equip && l != m && s.equip[l].unique != 0 ==>
          s.equip[l].unique != s.equip[m].unique)
  }

  lemma SoundMatched(k: Kinds, s: State)
    requires Core(k, s)
    ensures Matched(s) && forall u :: u in s.uids ==> s.uids[u].unique == u != 0
  {
    forall l | l in s.weapons
      ensures l in s.equip && s.equip[l].unique == s.weapons[l].unique
    {
      assert ArmedAt(k, s, l);
    }
  }

  lemma RemoveWeapon(s: State, u: nat, slot: nat)
    requires Matched(s) && u != 0 && slot in s.weapons && s.weapons[slot].unique == u
    ensures Remove(s, u).weapons == s.weapons - {slot} && Remove(s, u).equip == s.equip - {slot}
  {
  }

  lemma RemoveWorn(s: State, u: nat, slot: nat)
    requires Matched(s) && u != 0 && slot in s.equip && s.equip[slot].unique == u
    requires forall l :: l in s.weapons ==> s.weapons[l].unique != u
    ensures Remove(s, u).weapons == s.weapons && Remove(s, u).equip == s.equip - {slot}
  {
  }

  lemma RemoveCarried(s: State, u: nat)
    requires forall l :: l in s.weapons ==> s.weapons[l].unique != u
    requires forall l :: l in s.equip ==> s.equip[l].unique != u
    ensures Remove(s, u).weapons == s.weapons && Remove(s, u).equip == s.equip
  {
  }

  lemma WithoutStep(items: seq<Item>, i: nat, u: nat, out: seq<Item>)
    requires i < |items|
    ensures out + Without(items[i..], u) ==
            (if items[i].unique != u then out + [items[i]] else out) + Without(items[i + 1..], u)
  {
    assert items[i..][1..] == items[i + 1..];
    var rest := Without(items[i + 1..], u);
    assert out + ([items[i]] + rest) == out + [items[i]] + rest;
    assert [] + rest == rest;
  }

  /** The player does not have the item, and its like can be told apart from no item. */
  ghost predicate Liftable(s: State, it: Item) {
    && Matched(s) && it.unique !in s.uids && 0 !in s.uids
    && forall l :: l in s.weapons ==> s.weapons[l].unique != it.unique && s.weapons[l].unique != 0
  }

  lemma PickFacts(k: Kinds, s: State, c: nat, it: Item)
    requires Core(k, s) && c in s.boxes && it in s.boxes[c]
    ensures Liftable(s, it)
  {
    LyingItem(k, s, c, it);
    SoundMatched(k, s);
    forall l | l in s.weapons
      ensures s.weapons[l].unique != it.unique && s.weapons[l].unique != 0
    {
      assert ArmedAt(k, s, l);
    }
  }

  ghost predicate Lies(s: State, c: nat, it: Item) {
    c in s.boxes && it in s.boxes[c]
  }

  /** The move is a pickup of the item with this unique, and leads from s to t. */
  ghost predicate Picked(k: Kinds, s: State, m: Conservation.Move, near: Option<nat>, unique: nat, t: State) {
    match m
    case Dropping(_, _) => false
    case PickingWeapon(c, it, n) =>
      Lies(s, c, it) && it.unique == unique && n == near && k.weapon(it.data) && t == PickWeapon(k, s, c, it, near)
    case PickingOther(c, it, dup, slot) =>
      Lies(s, c, it) && it.unique == unique && !k.weapon(it.data) && Foldable(s, it, dup, slot)
      && t == PickOther(s, c, it, dup, slot)
  }

  // ----- The session and the match's boxes -----

  class Session {
    const k: Kinds

    var clientUIDs: map<nat, Item>
    var weapons: map<nat, Weapon>
    var equipment: seq<Slotted>
    var itemOnHand: nat
    var containers: map<nat, seq<Item>>
    var nextContainerID: nat
    var uidCounter: nat

    function Now(): State
      reads this
    {
      State(clientUIDs, weapons, AsMap(equipment), itemOnHand, containers, nextContainerID, uidCounter)
    }

    /** setEquip: in place if the slot is in the list, else at the end. */
    method SetEquip(slot: nat, data: nat, unique: nat)
      requires OneEach(equipment)
      modifies this`equipment
      ensures OneEach(equipment) && Now() == Wear(old(Now()), slot, data, unique)
      ensures |equipment| >= |old(equipment)|
      ensures forall i :: 0 <= i < |old(equipment)| ==>
                equipment[i] ==
                if old(equipment)[i].slot == slot then Slotted(slot, data, unique) else old(equipment)[i]
    {
      for i := 0 to |equipment|
        invariant equipment == old(equipment)
        invariant forall j :: 0 <= j < i ==> equipment[j].slot != slot
      {
        if equipment[i].slot == slot {
          AsMapSet(equipment, i, Slotted(slot, data, unique));
          equipment := equipment[i := Slotted(slot, data, unique)];
          return;
        }
      }
      AsMapMore(equipment, Slotted(slot, data, unique));
      equipment := equipment + [Slotted(slot, data, unique)];
    }

    /** clearEquip, compacting the list in place: the others keep their order. */
    method ClearEquip(slot: nat)
      requires OneEach(equipment)
      modifies this`equipment
      ensures OneEach(equipment) && equipment == Clear(old(equipment), slot)
      ensures AsMap(equipment) == AsMap(old(equipment)) - {slot}
    {
      var out: seq<Slotted> := [];
      for i := 0 to |equipment|
        invariant equipment == old(equipment) && out == Clear(equipment[..i], slot)
      {
        assert equipment[..i + 1][..i] == equipment[..i];
        if equipment[i].slot != slot {
          out := out + [equipment[i]];
        }
      }
      assert equipment[..|equipment|] == equipment;
      ClearOnce(equipment, slot);
      ClearIs(equipment, slot);
      equipment := out;
    }

    /** findLoadoutWeapon. */
    method FindLoadoutWeapon(unique: nat) returns (slot: Option<nat>)
      ensures slot.Some? ==> slot.value in weapons && weapons[slot.value].unique == unique
      ensures slot.None? ==> forall l :: l in weapons ==> weapons[l].unique != unique
    {
      var pending := weapons.Keys;
      while pending != {}
        invariant pending <= weapons.Keys
        invariant forall l :: l in weapons && l !in pending ==> weapons[l].unique != unique
        decreases pending
      {
        var l :| l in pending;
        if weapons[l].unique == unique {
          return Some(l);
        }
        pending := pending - {l};
      }
      slot := None;
    }

    /** equipSlotOf. */
    method EquipSlotOf(unique: nat) returns (slot: Option<nat>)
      requires OneEach(equipment)
      ensures slot.Some? ==> slot.value in AsMap(equipment) && AsMap(equipment)[slot.value].unique == unique
      ensures slot.None? ==> forall l :: l in AsMap(equipment) ==> AsMap(equipment)[l].unique != unique
    {
      for i := 0 to |equipment|
        invariant forall j :: 0 <= j < i ==> equipment[j].unique != unique
      {
        if equipment[i].unique == unique {
          AsMapHas(equipment, equipment[i].slot);
          return Some(equipment[i].slot);
        }
      }
      slot := None;
      forall l | l in AsMap(equipment)
        ensures AsMap(equipment)[l].unique != unique
      {
        AsMapHas(equipment, l);
      }
    }

    /** trackedByData: any stack of the data other than skip. */
    method TrackedByData(data: nat, skip: nat) returns (u: Option<nat>)
      ensures u.Some? ==> u.value in clientUIDs && u.value != skip && clientUIDs[u.value].data == data
      ensures u.None? ==> forall v :: v in clientUIDs && v != skip ==> clientUIDs[v].data != data
    {
      var pending := clientUIDs.Keys;
      while pending != {}
        invariant pending <= clientUIDs.Keys
        invariant forall v :: v in clientUIDs && v !in pending && v != skip ==> clientUIDs[v].data != data
        decreases pending
      {
        var v :| v in pending;
        if v != skip && clientUIDs[v].data == data {
          return Some(v);
        }
        pending := pending - {v};
      }
      u := None;
    }

    /** removeTrackedItem: a weapon leaves its slot and the weapon map, anything else the slot it is in. */
    method RemoveTrackedItem(unique: nat)
      requires OneEach(equipment) && Matched(Now()) && unique != 0
      modifies this`weapons, this`equipment, this`clientUIDs, this`itemOnHand
      ensures OneEach(equipment) && Now() == Remove(old(Now()), unique)
    {
      ghost var s := Now();
      var slot := FindLoadoutWeapon(unique);
      if slot.Some? {
        RemoveWeapon(s, unique, slot.value);
        weapons := weapons - {slot.value};
        ClearEquip(slot.value);
      } else {
        var worn := EquipSlotOf(unique);
        if worn.Some? {
          RemoveWorn(s, unique, worn.value);
          ClearEquip(worn.value);
        } else {
          RemoveCarried(s, unique);
        }
      }
      clientUIDs := clientUIDs - {unique};
      if itemOnHand == unique {
        itemOnHand := 0;
      }
    }

    method RemoveLoadoutWeapon(slot: nat) returns (w: Weapon)
      requires OneEach(equipment) && Matched(Now()) && slot in weapons && weapons[slot].unique != 0
      modifies this`weapons, this`equipment, this`clientUIDs, this`itemOnHand
      ensures OneEach(equipment) && w == old(weapons)[slot] && Now() == Remove(old(Now()), w.unique)
    {
      w := weapons[slot];
      RemoveWeapon(Now(), w.unique, slot);
      weapons := weapons - {slot};
      ClearEquip(slot);
      clientUIDs := clientUIDs - {w.unique};
      if itemOnHand == w.unique {
        itemOnHand := 0;
      }
    }

    /** allocContainerID, with ensureLoot's reset into the band. */
    method AllocContainerID() returns (id: nat)
      modifies this`nextContainerID
      ensures id == BoxID(old(Now())) && BOX_BASE <= id <= BOX_MAX
      ensures nextContainerID == if id == BOX_MAX then BOX_BASE else id + 1
    {
      if nextContainerID < BOX_BASE || nextContainerID > BOX_MAX {
        nextContainerID := BOX_BASE;
      }
      id := nextContainerID;
      var next := (id + 1) % 0x1_0000;
      if next > BOX_MAX || next < BOX_BASE {
        next := BOX_BASE;
      }
      nextContainerID := next;
    }

    /** dropToGround. near is the box that the distance search found, if there is one. */
    method DropToGround(it: Item, near: Option<nat>)
      modifies this`containers, this`nextContainerID
      ensures Now() == Ground(old(Now()), it, near)
    {
      if it.unique == 0 && it.data == 0 {
        return;
      }
      if near.Some? && near.value in containers {
        containers := containers[near.value := containers[near.value] + [it]];
        return;
      }
      var id := AllocContainerID();
      containers := containers[id := [it]];
    }

    /** removeItemFromContainer, compacting the box's list in place. */
    method RemoveItemFromContainer(c: nat, unique: nat)
      requires c in containers
      modifies this`containers
      ensures Now() == Take(old(Now()), c, unique)
    {
      var items := containers[c];
      var out: seq<Item> := [];
      assert items[0..] == items;
      for i := 0 to |items|
        invariant containers == old(containers) && Without(items, unique) == out + Without(items[i..], unique)
      {
        WithoutStep(items, i, unique, out);
        if items[i].unique != unique {
          out := out + [items[i]];
        }
      }
      assert items[|items|..] == [] && out + [] == out;
      containers := containers[c := out];
    }

    method NextUID() returns (uid: nat)
      modifies this`uidCounter
      ensures uid == uidCounter == NextUid(old(uidCounter))
    {
      uidCounter := (uidCounter + 1) % COUNT_RANGE;
      uid := uidCounter;
    }

    /** A new item with the next unique. */
    method Issue(data: nat, count: nat, runtime: nat) returns (uid: nat)
      modifies this`uidCounter, this`clientUIDs
      ensures Now() == Fresh(old(Now()), data, count, runtime) && uid == uidCounter
    {
      uid := NextUID();
      clientUIDs := clientUIDs[uid := Item(uid, data, count, runtime)];
    }

    method BuildWeaponAttachments(data: seq<nat>)
      modifies this`uidCounter, this`clientUIDs
      ensures Now() == Attach(old(Now()), data)
    {
      for i := 0 to |data|
        invariant Now() == Attach(old(Now()), data[..i])
      {
        assert data[..i + 1][..i] == data[..i];
        var _ := Issue(data[i], 1, 0);
      }
      assert data[..|data|] == data;
    }

    /** handleDrop. */
    method HandleDrop(unique: nat, near: Option<nat>)
      requires OneEach(equipment) && Core(k, Now())
      modifies this
      ensures OneEach(equipment) && Now() == Drop(old(Now()), unique, near)
    {
      if unique == 0 {
        return;
      }
      if unique !in clientUIDs {
        return;
      }
      SoundMatched(k, Now());
      var it := clientUIDs[unique];
      RemoveTrackedItem(unique);
      DropToGround(it, near);
    }

    /** pickupWeaponSlot and pickPrimarySlot. */
    method PickupWeaponSlot(isPrimary: bool) returns (slot: nat)
      ensures slot == if isPrimary then PrimarySlot(Now()) else SECONDARY
    {
      if !isPrimary {
        return SECONDARY;
      }
      if PRIMARY1 !in weapons {
        return PRIMARY1;
      }
      if PRIMARY2 !in weapons {
        return PRIMARY2;
      }
      if weapons[PRIMARY1].unique == itemOnHand {
        return PRIMARY1;
      }
      if weapons[PRIMARY2].unique == itemOnHand {
        return PRIMARY2;
      }
      slot := PRIMARY1;
    }

    /** The picked weapon in its slot, with its attachments; returns what was in the slot. */
    method InstallWeapon(it: Item, slot: nat) returns (dropped: Option<Item>)
      requires OneEach(equipment) && Matched(Now())
      requires forall l :: l in weapons ==> weapons[l].unique != it.unique && weapons[l].unique != 0
      modifies this`weapons, this`equipment, this`clientUIDs, this`itemOnHand, this`uidCounter
      ensures OneEach(equipment) && Now() == Arm(k, old(Now()), it, slot)
      ensures dropped == if slot in old(weapons) then Some(Loot(k, old(weapons)[slot])) else None
    {
      dropped := None;
      if slot in weapons && weapons[slot].unique != it.unique {
        var w := RemoveLoadoutWeapon(slot);
        dropped := Some(Item(w.unique, w.data, 1, k.clip(w.data)));
      }
      ghost var free := Now();
      weapons := weapons[slot := Weapon(slot, it.data, it.unique, k.ammoOf(it.data))];
      SetEquip(slot, it.data, it.unique);
      clientUIDs := clientUIDs[it.unique := it];
      itemOnHand := it.unique;
      assert Now() == Wield(Track(free, it), slot, it.data, it.unique, k.ammoOf(it.data));
      BuildWeaponAttachments(k.attachments(it.data));
    }

    /** handlePickup of a weapon that lies in box c. near is the box found for what the weapon displaces. */
    method PickUpWeapon(c: nat, it: Item, near: Option<nat>)
      requires OneEach(equipment) && Liftable(Now(), it) && c in containers
      modifies this
      ensures OneEach(equipment) && Now() == PickWeapon(k, old(Now()), c, it, near)
    {
      ghost var s := Now();
      var dropped, left, slot := LiftWeapon(c, it);
      FinishPickup(dropped, left, s, slot, c, near);
    }

    /** The first part of it: the weapon is out of its box and in its slot. */
    method LiftWeapon(c: nat, it: Item) returns (dropped: Option<Item>, left: seq<Item>, slot: nat)
      requires OneEach(equipment) && Liftable(Now(), it) && c in containers
      modifies this
      ensures OneEach(equipment) && slot == SlotFor(k, old(Now()), it.data)
      ensures Now() == Arm(k, Take(old(Now()), c, it.unique), it, slot) && c in containers && containers[c] == left
      ensures dropped == if slot in old(weapons) then Some(Loot(k, old(weapons)[slot])) else None
    {
      RemoveItemFromContainer(c, it.unique);
      left := containers[c];
      slot := PickupWeaponSlot(k.primary(it.data));
      dropped := InstallWeapon(it, slot);
    }

    /** The end of a pickup from box c, of which left was left. */
    method FinishPickup(dropped: Option<Item>, left: seq<Item>, ghost s: State, ghost slot: nat, c: nat,
                        near: Option<nat>)
      requires c in containers && containers[c] == left
      requires dropped == if slot in s.weapons then Some(Loot(k, s.weapons[slot])) else None
      modifies this`containers, this`nextContainerID
      ensures Now() == PutDown(k, s, old(Now()), slot, c, near)
    {
      var box := left;
      if dropped.Some? {
        DropToGround(dropped.value, near);
        // The box is the one the item came from, whatever the map holds under its id by now.
        if near == Some(c) {
          box := box + [dropped.value];
        }
      }
      if box == [] {
        containers := containers - {c};
      }
    }

    /** handlePickup of anything else that lies in box c. */
    method PickUpOther(c: nat, it: Item) returns (ghost dup: Option<nat>, ghost slot: Option<nat>)
      requires OneEach(equipment) && Liftable(Now(), it) && c in containers
      modifies this
      ensures OneEach(equipment) && Foldable(old(Now()), it, dup, slot)
      ensures Now() == PickOther(old(Now()), c, it, dup, slot)
    {
      ghost var s := Now();
      RemoveItemFromContainer(c, it.unique);
      var left := containers[c];
      var u := TrackedByData(it.data, it.unique);
      dup, slot := u, None;
      if u.Some? {
        slot := FoldInto(it, u.value);
      } else {
        clientUIDs := clientUIDs[it.unique := it];
      }
      if left == [] {
        containers := containers - {c};
      }
    }

    /** The fold of another stack of the same data into the picked one. */
    method FoldInto(it: Item, u: nat) returns (slot: Option<nat>)
      requires OneEach(equipment) && Matched(Now()) && u in clientUIDs && u != 0
      modifies this`weapons, this`equipment, this`clientUIDs, this`itemOnHand
      ensures OneEach(equipment) && Now() == Fold(old(Now()), it, u, slot)
      ensures slot.Some? ==> slot.value in old(Now()).equip && old(Now()).equip[slot.value].unique == u
      ensures slot.None? ==> NotWorn(old(Now()), u)
    {
      var count := (it.count + clientUIDs[u].count) % COUNT_RANGE;
      slot := EquipSlotOf(u);
      var wasHeld := itemOnHand == u;
      RemoveTrackedItem(u);
      if slot.Some? {
        SetEquip(slot.value, it.data, it.unique);
      }
      if wasHeld {
        itemOnHand := it.unique;
      }
      clientUIDs := clientUIDs[it.unique := it.(count := count)];
    }

    /** findLoot. */
    method FindLoot(unique: nat) returns (found: Option<(nat, Item)>)
      ensures found.Some? ==> Lies(Now(), found.value.0, found.value.1) && found.value.1.unique == unique
      ensures found.None? ==> forall c, it :: Lies(Now(), c, it) ==> it.unique != unique
    {
      var pending := containers.Keys;
      while pending != {}
        invariant pending <= containers.Keys
        invariant forall c, it :: Lies(Now(), c, it) && c !in pending ==> it.unique != unique
        decreases pending
      {
        var c :| c in pending;
        var items := containers[c];
        for i := 0 to |items|
          invariant forall j :: 0 <= j < i ==> items[j].unique != unique
        {
          if items[i].unique == unique {
            return Some((c, items[i]));
          }
        }
        pending := pending - {c};
      }
      found := None;
    }

    /** handlePickup. */
    method HandlePickup(unique: nat, near: Option<nat>) returns (ghost move: Option<Conservation.Move>)
      requires OneEach(equipment) && Core(k, Now())
      modifies this
      ensures OneEach(equipment)
      ensures move.Some? ==> Picked(k, old(Now()), move.value, near, unique, Now())
      ensures move.None? ==> Now() == old(Now()) && forall c, it :: Lies(Now(), c, it) ==> it.unique != unique
    {
      var found := FindLoot(unique);
      if found.None? {
        return None;
      }
      var c, it := found.value.0, found.value.1;
      PickFacts(k, Now(), c, it);
      if k.weapon(it.data) {
        PickUpWeapon(c, it, near);
        move := Some(Conservation.PickingWeapon(c, it, near));
      } else {
        ghost var dup, slot := PickUpOther(c, it);
        move := Some(Conservation.PickingOther(c, it, dup, slot));
      }
    }

    /** giveAmmoStacks, for a weapon that has ammunition. */
    method GiveAmmo(ammo: nat)
      modifies this`uidCounter, this`clientUIDs
      ensures Now() == Reserve(k, old(Now()), ammo)
    {
      if ammo != 0 {
        var _ := Issue(ammo, k.reserve(ammo), 0);
      }
    }

    /** addPurchasedItem for a weapon, and the drop of the one it overrides. */
    method BuyGun(data: nat, near: Option<nat>)
      requires OneEach(equipment)
      modifies this
      ensures OneEach(equipment) && Now() == BuyWeapon(k, old(Now()), data, near)
    {
      var place := k.place(data);
      var slot := place.slot;
      if place.isPrimary {
        slot := PickupWeaponSlot(true);
      }
      var uid := Issue(data, 1, k.clip(data));
      GiveAmmo(place.ammo);
      BuildWeaponAttachments(k.attachments(data));
      var outgoing: Option<Item> := None;
      if slot in weapons {
        outgoing := Some(Loot(k, weapons[slot]));
        clientUIDs := clientUIDs - {weapons[slot].unique};
      }
      itemOnHand := uid;
      weapons := weapons[slot := Weapon(slot, data, uid, place.ammo)];
      SetEquip(slot, data, uid);
      if outgoing.Some? {
        DropToGround(outgoing.value, near);
      }
    }

    /** addPurchasedItem for anything else. */
    method BuyThing(data: nat, qty: nat) returns (ghost dup: Option<nat>)
      requires OneEach(equipment) && 0 !in clientUIDs
      modifies this`uidCounter, this`clientUIDs, this`equipment
      ensures OneEach(equipment) && Stack(old(Now()), data, dup) && Now() == BuyOther(k, old(Now()), data, qty, dup)
    {
      var place := k.place(data);
      var uid := NextUID();
      var u := TrackedByData(data, 0);
      dup := u;
      if u.Some? && !place.isArmor {
        var existing := clientUIDs[u.value];
        clientUIDs := clientUIDs[u.value := existing.(count := (existing.count + qty) % COUNT_RANGE)];
        uid := u.value;
      } else {
        clientUIDs := clientUIDs[uid := Item(uid, data, qty, if place.isArmor then k.durability(data) else 0)];
      }
      if place.slot != NO_SLOT {
        SetEquip(place.slot, data, uid);
      }
    }

    /** giveLoadout. */
    method GiveLoadout(noLoadout: bool, infiniteGloo: bool)
      modifies this
      ensures OneEach(equipment) && Now() == Inventory.GiveLoadout(k, old(Now()), noLoadout, infiniteGloo)
    {
      var uspUID := NextUID();
      var medkitID := NextUID();
      StartOver(medkitID);
      if !noLoadout {
        GivePistol(uspUID);
      }
      if infiniteGloo {
        GiveGloo();
      }
    }

    method StartOver(medkitID: nat)
      requires uidCounter == medkitID
      modifies this
      ensures OneEach(equipment) && Now() == Kit(old(Now()), medkitID)
    {
      containers := map[];
      equipment := [Slotted(MELEE, 0, 0)];
      weapons, itemOnHand := map[], 0;
      clientUIDs := map[medkitID := Item(medkitID, MEDKIT, 2, 2)];
      assert equipment[..0] == [];
      assert AsMap(equipment) == map[MELEE := Equipped(0, 0)];
    }

    method GiveGloo()
      requires OneEach(equipment)
      modifies this`equipment, this`clientUIDs, this`uidCounter
      ensures OneEach(equipment) && Now() == Gloo(old(Now()))
    {
      var glooUID := Issue(GLOO, 5, 0);
      SetEquip(BUILDING, GLOO, glooUID);
    }

    method GivePistol(uspUID: nat)
      requires OneEach(equipment)
      modifies this`weapons, this`equipment, this`clientUIDs, this`itemOnHand, this`uidCounter
      ensures OneEach(equipment) && Now() == Pistol(k, old(Now()), uspUID)
    {
      clientUIDs := clientUIDs[uspUID := Item(uspUID, USP, 1, k.clip(USP))];
      weapons := weapons[SECONDARY := Weapon(SECONDARY, USP, uspUID, PISTOL_AMMO)];
      itemOnHand := uspUID;
      SetEquip(SECONDARY, USP, uspUID);
      BuildWeaponAttachments(k.attachments(USP));
      GiveAmmo(PISTOL_AMMO);
    }

    /** The medkits of reissueLoadout; the rest of it only sends. */
    method ReissueLoadout() returns (ghost med: Option<nat>)
      requires 0 !in clientUIDs
      modifies this`uidCounter, this`clientUIDs
      ensures Stack(old(Now()), MEDKIT, med) && Now() == Reissue(old(Now()), med)
    {
      var u := TrackedByData(MEDKIT, 0);
      med := u;
      if u.Some? {
        clientUIDs := clientUIDs[u.value := Item(u.value, MEDKIT, 2, 2)];
      } else {
        var _ := Issue(MEDKIT, 2, 2);
      }
    }
  }
}
