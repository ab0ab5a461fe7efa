/**
 Where a weapon goes that is picked up or bought (pickPrimarySlot of match-server/purchase.go; match-server/loot.go): a
 primary fills a free slot and displaces nothing; with both taken the one in hand goes.
 */
module Arming {
  import opened Inventory
  import opened Results

  predicate PrimaryAt(l: nat) {
    l == 0 || l == 1
  }

  /** Attachments change neither weapons nor boxes nor the hand. */
  lemma {:induction false} AttachOnly(s: State, data: seq<nat>)
    ensures var t := Attach(s, data);
            t.weapons == s.weapons && t.boxes == s.boxes && t.nextBox == s.nextBox && t.onHand == s.onHand
    decreases |data|
  {
    if data != [] {
      AttachOnly(s, data[..|data| - 1]);
    }
  }

  lemma OneSlot(k: Kinds, s: State, l: nat, m: nat)
    requires Held(k, s) && l in s.weapons && m in s.weapons && l != m
    ensures s.weapons[l].unique != s.weapons[m].unique
  {
    assert ArmedAt(k, s, l) && ArmedAt(k, s, m);
  }

  lemma UnarmOnly(k: Kinds, s: State, slot: nat)
    requires Held(k, s)
    ensures Unarm(s, slot).weapons == s.weapons - {slot}
  {
    if slot in s.weapons {
      forall l | l in s.weapons && l != slot
        ensures s.weapons[l].unique != s.weapons[slot].unique
      {
        OneSlot(k, s, l, slot);
      }
    }
  }

  /** The state after the weapon is in hand, before the one it displaces is put down. */
  lemma ArmOnly(k: Kinds, s: State, c: nat, it: Item, slot: nat)
    requires Core(k, s) && c in s.boxes
    ensures var t := Arm(k, Take(s, c, it.unique), it, slot);
            && t.weapons == s.weapons[slot := Weapon(slot, it.data, it.unique, k.ammoOf(it.data))]
            && t.boxes == s.boxes[c := Without(s.boxes[c], it.unique)] && t.nextBox == s.nextBox
            && t.onHand == it.unique
  {
    var taken := Take(s, c, it.unique);
    SameHeld(k, s, taken);
    UnarmOnly(k, taken, slot);
    AttachOnly(Draw(k, taken, it, slot), k.attachments(it.data));
    var w := Weapon(slot, it.data, it.unique, k.ammoOf(it.data));
    assert (s.weapons - {slot})[slot := w] == s.weapons[slot := w];
  }

  /** t holds the new weapon in a primary slot that was free, and in hand; nothing that was held is out of its slot. */
  ghost predicate Added(s: State, t: State, data: nat, u: nat, ammo: nat) {
    exists l :: PrimaryAt(l) && l !in s.weapons && AddedAt(s, t, l, data, u, ammo)
  }

  ghost predicate AddedAt(s: State, t: State, l: nat, data: nat, u: nat, ammo: nat) {
    t.weapons == s.weapons[l := Weapon(l, data, u, ammo)] && t.onHand == u
  }

  /** The slot that has to be given up when both are taken: that of the weapon in hand, the first if it is neither. */
  ghost predicate GivenUp(s: State, l: nat) {
    && PrimaryAt(l) && 0 in s.weapons && 1 in s.weapons
    && if s.onHand == s.weapons[0].unique || s.onHand == s.weapons[1].unique
       then s.weapons[l].unique == s.onHand else l == 0
  }

  ghost predicate FreePrimary(s: State) {
    0 !in s.weapons || 1 !in s.weapons
  }

  lemma SlotIsFree(s: State)
    requires FreePrimary(s)
    ensures PrimaryAt(PrimarySlot(s)) && PrimarySlot(s) !in s.weapons
  {
  }

  lemma SlotIsGivenUp(k: Kinds, s: State, l: nat)
    requires Held(k, s) && GivenUp(s, l)
    ensures PrimarySlot(s) == l
  {
    OneSlot(k, s, PRIMARY1, PRIMARY2);
  }

  lemma SomeGivenUp(s: State)
    requires !FreePrimary(s)
    ensures GivenUp(s, PrimarySlot(s))
  {
  }

  predicate Lies(s: State, it: Item) {
    exists c, i :: c in s.boxes && 0 <= i < |s.boxes[c]| && s.boxes[c][i] == it
  }

  lemma GroundOnly(s: State, it: Item, near: Option<nat>)
    ensures Ground(s, it, near).weapons == s.weapons && Ground(s, it, near).onHand == s.onHand
    ensures it.unique != 0 ==> Lies(Ground(s, it, near), it)
  {
    if it.unique != 0 {
      var t := Ground(s, it, near);
      var b := if near.Some? && near.value in s.boxes then near.value else BoxID(s);
      assert t.boxes[b][|t.boxes[b]| - 1] == it;
    }
  }

  lemma PutDownOnly(k: Kinds, s: State, armed: State, slot: nat, c: nat, near: Option<nat>)
    requires c in armed.boxes
    ensures PutDown(k, s, armed, slot, c, near).weapons == armed.weapons
    ensures PutDown(k, s, armed, slot, c, near).onHand == armed.onHand
  {
    if slot in s.weapons {
      GroundOnly(armed, Loot(k, s.weapons[slot]), near);
    }
  }

  lemma PutDownNothing(k: Kinds, s: State, armed: State, slot: nat, c: nat, near: Option<nat>)
    requires c in armed.boxes && slot !in s.weapons
    ensures PutDown(k, s, armed, slot, c, near).boxes ==
            if armed.boxes[c] == [] then armed.boxes - {c} else armed.boxes
  {
  }

  /** A picked weapon goes into the slot for it; the others stay where they are. */
  lemma PickupInSlot(k: Kinds, s: State, c: nat, it: Item, near: Option<nat>, slot: nat)
    requires Core(k, s) && c in s.boxes && slot == SlotFor(k, s, it.data)
    ensures AddedAt(s, PickWeapon(k, s, c, it, near), slot, it.data, it.unique, k.ammoOf(it.data))
  {
    ArmOnly(k, s, c, it, slot);
    PutDownOnly(k, s, Arm(k, Take(s, c, it.unique), it, slot), slot, c, near);
  }

  lemma PickupBoxes(k: Kinds, s: State, c: nat, it: Item, near: Option<nat>, slot: nat)
    requires Core(k, s) && c in s.boxes && slot == SlotFor(k, s, it.data) && slot !in s.weapons
    ensures var left := Without(s.boxes[c], it.unique);
            PickWeapon(k, s, c, it, near).boxes == if left == [] then s.boxes - {c} else s.boxes[c := left]
  {
    ArmOnly(k, s, c, it, slot);
    PutDownNothing(k, s, Arm(k, Take(s, c, it.unique), it, slot), slot, c, near);
    assert s.boxes[c := Without(s.boxes[c], it.unique)] - {c} == s.boxes - {c};
  }

  /** Picking up a primary with a slot free for it adds it to what is held, and puts nothing on the ground. */
  lemma PickupAdds(k: Kinds, s: State, c: nat, it: Item, near: Option<nat>)
    requires Core(k, s) && c in s.boxes && k.primary(it.data) && FreePrimary(s)
    ensures var left := Without(s.boxes[c], it.unique);
            && Added(s, PickWeapon(k, s, c, it, near), it.data, it.unique, k.ammoOf(it.data))
            && PickWeapon(k, s, c, it, near).boxes == if left == [] then s.boxes - {c} else s.boxes[c := left]
  {
    SlotIsFree(s);
    PickupInSlot(k, s, c, it, near, PrimarySlot(s));
    PickupBoxes(k, s, c, it, near, PrimarySlot(s));
  }

  /** A weapon that was given up: one of it, with a full clip. */
  function PutBack(k: Kinds, w: Weapon): Item {
    Item(w.unique, w.data, 1, k.clip(w.data))
  }

  /** There is room for something on the ground: a box near, or a fresh one. */
  predicate Room(s: State, near: Option<nat>) {
    (near.Some? && near.value in s.boxes) || BoxID(s) !in s.boxes
  }

  /** A weapon put down lies on the ground, unless the box it got is the one that goes away. */
  lemma PutDownLies(k: Kinds, s: State, armed: State, slot: nat, c: nat, near: Option<nat>)
    requires c in armed.boxes && slot in s.weapons && s.weapons[slot].unique != 0 && Room(armed, near)
    ensures Lies(PutDown(k, s, armed, slot, c, near), Loot(k, s.weapons[slot]))
  {
    var it := Loot(k, s.weapons[slot]);
    var t := Ground(armed, it, near);
    var b := if near.Some? && near.value in armed.boxes then near.value else BoxID(armed);
    assert t.boxes[b][|t.boxes[b]| - 1] == it;
    var u := PutDown(k, s, armed, slot, c, near);
    assert b in u.boxes && u.boxes[b] == t.boxes[b];
  }

  lemma PickupPutsDown(k: Kinds, s: State, c: nat, it: Item, near: Option<nat>, slot: nat)
    requires Core(k, s) && c in s.boxes && slot == SlotFor(k, s, it.data) && slot in s.weapons && Room(s, near)
    ensures Lies(PickWeapon(k, s, c, it, near), Loot(k, s.weapons[slot]))
  {
    ArmOnly(k, s, c, it, slot);
    assert ArmedAt(k, s, slot);
    PutDownLies(k, s, Arm(k, Take(s, c, it.unique), it, slot), slot, c, near);
  }

  /** With both slots taken it replaces just the one to be given up, which then lies on the ground with a full clip. */
  lemma PickupReplaces(k: Kinds, s: State, c: nat, it: Item, near: Option<nat>, l: nat)
    requires Core(k, s) && c in s.boxes && k.primary(it.data) && GivenUp(s, l)
    ensures AddedAt(s, PickWeapon(k, s, c, it, near), l, it.data, it.unique, k.ammoOf(it.data))
    ensures Room(s, near) ==> Lies(PickWeapon(k, s, c, it, near), PutBack(k, s.weapons[l]))
  {
    SlotIsGivenUp(k, s, l);
    PickupInSlot(k, s, c, it, near, l);
    if Room(s, near) {
      PickupPutsDown(k, s, c, it, near, l);
    }
  }

  /** Any other weapon goes into slot 2, for what was there. */
  lemma PistolPickup(k: Kinds, s: State, c: nat, it: Item, near: Option<nat>)
    requires Core(k, s) && c in s.boxes && !k.primary(it.data)
    ensures AddedAt(s, PickWeapon(k, s, c, it, near), 2, it.data, it.unique, k.ammoOf(it.data))
    ensures 2 in s.weapons && Room(s, near) ==> Lies(PickWeapon(k, s, c, it, near), PutBack(k, s.weapons[2]))
  {
    PickupInSlot(k, s, c, it, near, 2);
    if 2 in s.weapons && Room(s, near) {
      PickupPutsDown(k, s, c, it, near, 2);
    }
  }

  // ----- Purchases -----

  lemma BoughtOnly(k: Kinds, s: State, data: nat)
    ensures var t, slot := Bought(k, s, data), BoughtSlot(k, s, data);
            var u := NextUid(s.lastUid);
            && t.weapons == s.weapons[slot := Weapon(slot, data, u, k.place(data).ammo)]
            && t.boxes == s.boxes && t.nextBox == s.nextBox && t.onHand == u
  {
    AttachOnly(Reserve(k, Fresh(s, data, 1, k.clip(data)), k.place(data).ammo), k.attachments(data));
  }

  /** A bought weapon goes into the slot for it; the others stay where they are. */
  lemma PurchaseInSlot(k: Kinds, s: State, data: nat, near: Option<nat>, slot: nat)
    requires slot == BoughtSlot(k, s, data)
    ensures AddedAt(s, BuyWeapon(k, s, data, near), slot, data, NextUid(s.lastUid), k.place(data).ammo)
  {
    BuyWeaponIs(k, s, data, near);
    BoughtOnly(k, s, data);
    if slot in s.weapons {
      GroundOnly(Bought(k, s, data), Loot(k, s.weapons[slot]), near);
    }
  }

  /** Buying a primary with a slot free for it adds it, and puts nothing on the ground. */
  lemma PurchaseAdds(k: Kinds, s: State, data: nat, near: Option<nat>)
    requires k.place(data).isPrimary && FreePrimary(s)
    ensures Added(s, BuyWeapon(k, s, data, near), data, NextUid(s.lastUid), k.place(data).ammo)
    ensures BuyWeapon(k, s, data, near).boxes == s.boxes
  {
    SlotIsFree(s);
    PurchaseInSlot(k, s, data, near, PrimarySlot(s));
    BuyWeaponIs(k, s, data, near);
    BoughtOnly(k, s, data);
  }

  /** With both taken it replaces just the one to be given up, which then lies on the ground with a full clip. */
  lemma PurchaseReplaces(k: Kinds, s: State, data: nat, near: Option<nat>, l: nat)
    requires Core(k, s) && k.place(data).isPrimary && GivenUp(s, l)
    ensures AddedAt(s, BuyWeapon(k, s, data, near), l, data, NextUid(s.lastUid), k.place(data).ammo)
    ensures Lies(BuyWeapon(k, s, data, near), PutBack(k, s.weapons[l]))
  {
    SlotIsGivenUp(k, s, l);
    PurchaseInSlot(k, s, data, near, l);
    BuyWeaponIs(k, s, data, near);
    assert ArmedAt(k, s, l);
    GroundOnly(Bought(k, s, data), Loot(k, s.weapons[l]), near);
  }

  /** One slot is free, or one is to be given up. */
  lemma FreeOrGivenUp(s: State)
    ensures FreePrimary(s) <==> !exists l :: GivenUp(s, l)
  {
    if !FreePrimary(s) {
      SomeGivenUp(s);
    }
  }

  // ----- What comes with a bought weapon -----

  /** A weapon with a full clip and the reserve of its ammunition, if it has any. */
  function Gun(k: Kinds, data: nat, first: nat): seq<Item> {
    var ammo := k.place(data).ammo;
    [Item(first, data, 1, k.clip(data))] + if ammo == 0 then [] else [Item(first + 1, ammo, k.reserve(ammo), 0)]
  }

  /** The items of one purchase: these, and the attachments. */
  function Parcel(k: Kinds, data: nat, first: nat): seq<Item> {
    Gun(k, data, first) + Single(k.attachments(data), first + |Gun(k, data, first)|)
  }

  /** One of each, numbered from first on. */
  function Single(data: seq<nat>, first: nat): (items: seq<Item>)
    ensures |items| == |data|
  {
    seq(|data|, i requires 0 <= i < |data| => Item(first + i, data[i], 1, 0))
  }

  /** t has these new items under the next uniques, and everything that s had. */
  ghost predicate Given(s: State, t: State, items: seq<Item>) {
    && t.lastUid == s.lastUid + |items|
    && (forall i :: 0 <= i < |items| ==> items[i].unique == s.lastUid + 1 + i)
    && forall u :: (u in t.uids <==> u in s.uids || s.lastUid < u <= s.lastUid + |items|)
                   && (u in t.uids ==> t.uids[u] == if s.lastUid < u <= s.lastUid + |items|
                                                    then items[u - s.lastUid - 1] else s.uids[u])
  }

  lemma OneGiven(s: State, t: State, items: seq<Item>, data: nat, count: nat, runtime: nat)
    requires Given(s, t, items) && t.lastUid + 1 < 0x1_0000_0000
    ensures Given(s, Fresh(t, data, count, runtime), items + [Item(t.lastUid + 1, data, count, runtime)])
  {
  }

  lemma {:induction false} AttachGiven(s: State, t: State, items: seq<Item>, data: seq<nat>)
    requires Given(s, t, items) && t.lastUid + |data| < 0x1_0000_0000
    ensures Given(s, Attach(t, data), items + Single(data, t.lastUid + 1))
    decreases |data|
  {
    if data == [] {
      assert items + Single(data, t.lastUid + 1) == items;
    } else {
      var before := data[..|data| - 1];
      AttachGiven(s, t, items, before);
      OneGiven(s, Attach(t, before), items + Single(before, t.lastUid + 1), data[|data| - 1], 1, 0);
      assert Single(data, t.lastUid + 1) ==
             Single(before, t.lastUid + 1) + [Item(t.lastUid + |data|, data[|data| - 1], 1, 0)];
      assert items + Single(data, t.lastUid + 1) ==
             items + Single(before, t.lastUid + 1) + [Item(t.lastUid + |data|, data[|data| - 1], 1, 0)];
    }
  }

  lemma FirstGiven(s: State, data: nat, runtime: nat)
    requires s.lastUid + 1 < 0x1_0000_0000
    ensures Given(s, Fresh(s, data, 1, runtime), [Item(s.lastUid + 1, data, 1, runtime)])
  {
    OneGiven(s, s, [], data, 1, runtime);
    assert [] + [Item(s.lastUid + 1, data, 1, runtime)] == [Item(s.lastUid + 1, data, 1, runtime)];
  }

  lemma SpareGiven(k: Kinds, s: State, t: State, items: seq<Item>, ammo: nat)
    requires Given(s, t, items) && t.lastUid + 1 < 0x1_0000_0000
    ensures var spare := if ammo == 0 then [] else [Item(t.lastUid + 1, ammo, k.reserve(ammo), 0)];
            var given := Given(s, Reserve(k, t, ammo), items + spare); given
  {
    if ammo == 0 {
      assert items + [] == items;
    } else {
      OneGiven(s, t, items, ammo, k.reserve(ammo), 0);
    }
  }

  lemma GunGiven(k: Kinds, s: State, data: nat)
    requires s.lastUid + 2 < 0x1_0000_0000
    ensures var t := Reserve(k, Fresh(s, data, 1, k.clip(data)), k.place(data).ammo);
            var given := Given(s, t, Gun(k, data, s.lastUid + 1)); given
  {
    var gun := Item(s.lastUid + 1, data, 1, k.clip(data));
    FirstGiven(s, data, k.clip(data));
    SpareGiven(k, s, Fresh(s, data, 1, k.clip(data)), [gun], k.place(data).ammo);
  }

  lemma IssuedGiven(k: Kinds, s: State, data: nat)
    requires s.lastUid + 2 + |k.attachments(data)| < 0x1_0000_0000
    ensures Given(s, Issued(k, s, data), Parcel(k, data, s.lastUid + 1))
  {
    var t := Reserve(k, Fresh(s, data, 1, k.clip(data)), k.place(data).ammo);
    GunGiven(k, s, data);
    AttachGiven(s, t, Gun(k, data, s.lastUid + 1), k.attachments(data));
  }

  /** The tracked items but for one that a weapon in the slot had. */
  function But(s: State, t: State, slot: nat): map<nat, Item> {
    if slot in s.weapons then t.uids - {s.weapons[slot].unique} else t.uids
  }

  /** A purchase gives just its parcel, and takes just the weapon that it overrides. */
  lemma PurchaseGives(k: Kinds, s: State, data: nat, near: Option<nat>)
    requires s.lastUid + 2 + |k.attachments(data)| < 0x1_0000_0000
    ensures var t := BuyWeapon(k, s, data, near);
            exists kept :: Given(s, kept, Parcel(k, data, s.lastUid + 1)) && t.lastUid == kept.lastUid
                           && t.uids == But(s, kept, BoughtSlot(k, s, data))
  {
    IssuedGiven(k, s, data);
    BuyWeaponIs(k, s, data, near);
    assert BuyWeapon(k, s, data, near).uids == But(s, Issued(k, s, data), BoughtSlot(k, s, data));
  }
}
