/**
 What a player holds after buying or picking up something other than a weapon, and after a loadout is issued or filled
 up (match-server/purchase.go, match-server/loot.go, match-server/cssync.go).
 */
module Holding {
  import opened Arming
  import opened Inventory
  import opened Results

  /** Another stack of the data: the one that the code finds, if there is one. */
  ghost predicate Found(s: State, data: nat, dup: Option<nat>) {
    dup.Some? ==> dup.value in s.uids && s.uids[dup.value].data == data
  }

  /** u is a stack of that many of the data. */
  predicate Stack(s: State, u: nat, data: nat, count: nat) {
    u in s.uids && s.uids[u].data == data && s.uids[u].count == count
  }

  /** A repeat buy makes the stack that is there so much larger; armour, and anything new, is a stack by itself. */
  lemma Stacked(k: Kinds, s: State, data: nat, qty: nat, dup: Option<nat>)
    requires Found(s, data, dup)
    ensures var t := BuyOther(k, s, data, qty, dup);
            if dup.Some? && !k.place(data).isArmor
            then
              var had := s.uids[dup.value];
              t.uids == s.uids[dup.value := had.(count := (had.count + qty) % 0x1_0000_0000)]
            else
              var u := NextUid(s.lastUid);
              t.uids == s.uids[u := Item(u, data, qty, if k.place(data).isArmor then k.durability(data) else 0)]
  {
  }

  /** What has a slot is in it afterwards, and nothing else has moved. */
  lemma PurchaseWorn(k: Kinds, s: State, data: nat, qty: nat, dup: Option<nat>)
    requires Found(s, data, dup)
    ensures var t, slot := BuyOther(k, s, data, qty, dup), k.place(data).slot;
            var u := if dup.Some? && !k.place(data).isArmor then dup.value else NextUid(s.lastUid);
            && t.equip == (if slot == 255 then s.equip else s.equip[slot := Equipped(data, u)])
            && t.weapons == s.weapons && t.boxes == s.boxes && t.onHand == s.onHand
  {
  }

  /** Anything picked up that there is no stack of is held as it lay there. */
  lemma HeldAsItLay(s: State, c: nat, it: Item, slot: Option<nat>)
    requires c in s.boxes
    ensures var t := PickOther(s, c, it, None, slot);
            && t.uids == s.uids[it.unique := it] && t.equip == s.equip && t.weapons == s.weapons && t.onHand == s.onHand
            && forall b :: b in t.boxes ==>
                 b in s.boxes && t.boxes[b] == if b == c then Without(s.boxes[c], it.unique) else s.boxes[b]
  {
  }

  /** A stack that is picked up takes over from the one of its kind: what both held, its slot, and the hand. */
  lemma TakesOver(s: State, c: nat, it: Item, dup: nat, slot: Option<nat>)
    requires c in s.boxes && dup in s.uids && dup != it.unique
    requires slot.Some? ==> slot.value in s.equip && s.equip[slot.value].unique == dup
    ensures var t := PickOther(s, c, it, Some(dup), slot);
            && dup !in t.uids && it.unique in t.uids
            && t.uids[it.unique] == it.(count := (it.count + s.uids[dup].count) % 0x1_0000_0000)
            && (slot.Some? ==> slot.value in t.equip && t.equip[slot.value] == Equipped(it.data, it.unique))
            && t.onHand == (if s.onHand == dup then it.unique else s.onHand)
            && forall u :: u in s.uids && u != dup && u != it.unique ==> u in t.uids && t.uids[u] == s.uids[u]
  {
  }

  // ----- Loadouts -----

  ghost predicate MedkitOf(s: State, med: Option<nat>) {
    && (med.Some? ==> med.value in s.uids)
    && forall u :: u in s.uids && s.uids[u].data == 102 ==> med == Some(u)
  }

  /** After a refill there is one stack of medkits, of two. */
  lemma TwoMedkits(s: State, med: Option<nat>)
    requires MedkitOf(s, med)
    ensures exists u :: Stack(Reissue(s, med), u, 102, 2)
                        && forall v :: v in Reissue(s, med).uids && Reissue(s, med).uids[v].data == 102 ==> v == u
  {
    var t := Reissue(s, med);
    var u := if med.Some? then med.value else NextUid(s.lastUid);
    assert Stack(t, u, 102, 2);
  }

  lemma {:induction false} AttachWears(s: State, data: seq<nat>)
    ensures Attach(s, data).equip == s.equip
    decreases |data|
  {
    if data != [] {
      AttachWears(s, data[..|data| - 1]);
    }
  }

  lemma PistolOnly(k: Kinds, s: State, u: nat)
    ensures var t := Pistol(k, s, u);
            && t.weapons == s.weapons[2 := Weapon(2, 3, u, 202)] && t.equip == s.equip[2 := Equipped(3, u)]
            && t.boxes == s.boxes && t.onHand == u
  {
    var w := Wield(Track(s, Item(u, USP, 1, k.clip(USP))), SECONDARY, USP, u, PISTOL_AMMO);
    AttachOnly(w, k.attachments(USP));
    AttachWears(w, k.attachments(USP));
  }

  /**
   A fresh loadout: the pistol in slot 2 and in hand, unless the room has none; gloo in slot 13 exactly if the room has
   it without end; nothing else in a slot but the fist; and nothing on the ground.
   */
  lemma LoadoutHolds(k: Kinds, s: State, noLoadout: bool, infiniteGloo: bool)
    ensures var t := GiveLoadout(k, s, noLoadout, infiniteGloo);
            && t.weapons.Keys == (if noLoadout then {} else {2}) && (!noLoadout ==> t.weapons[2].data == 3)
            && t.equip.Keys == {4} + (if noLoadout then {} else {2}) + (if infiniteGloo then {13} else {})
            && (infiniteGloo ==> t.equip[13].data == 1201) && t.equip[4] == Equipped(0, 0)
            && t.boxes == map[] && (t.onHand == 0 <==> noLoadout || t.weapons[2].unique == 0)
  {
    var usp := NextUid(s.lastUid);
    PistolOnly(k, Kit(s, NextUid(usp)), usp);
  }
}
