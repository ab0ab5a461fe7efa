/**
 One player's inventory and the boxes on the ground: what a drop, a pickup and a purchase do to them
 (match-server/loot.go, match-server/purchase.go), as functions of the whole state, and the invariant they keep.
 Loadout.dfy holds the Go methods.
 */
module Inventory {
  import opened Results

  const COUNT_RANGE := 0x1_0000_0000
  const BOX_BASE := 40000
  const BOX_MAX := 65535

  const PRIMARY1 := 0
  const PRIMARY2 := 1
  const SECONDARY := 2
  const MELEE := 4
  const BUILDING := 13
  const NO_SLOT := 255

  datatype Item = Item(unique: nat, data: nat, count: nat, runtime: nat)

  datatype Weapon = Weapon(slot: nat, data: nat, unique: nat, ammo: nat)

  datatype Equipped = Equipped(data: nat, unique: nat)

  /** Where a bought item goes: its slot (a primary's is chosen live), its ammunition and its class. */
  datatype Placement = Placement(slot: nat, ammo: nat, isWeapon: bool, isPrimary: bool, isArmor: bool)

  /**
   The item tables: what counts as a weapon on the ground and which of those are primaries, where purchases go, the
   attachments issued with a weapon, clip sizes, ammunition reserves and armour durability. consumable names data of
   which a player is meant to hold one stack.
   */
  datatype Kinds = Kinds(weapon: nat -> bool, primary: nat -> bool, ammoOf: nat -> nat, place: nat -> Placement,
                         attachments: nat -> seq<nat>, clip: nat -> nat, reserve: nat -> nat, durability: nat -> nat,
                         consumable: nat -> bool)
  {
    ghost predicate Valid() {
      && (forall d :: weapon(d) ==> place(d).isWeapon)
      && (forall d :: if place(d).isWeapon then place(d).isPrimary || WeaponSlot(place(d).slot)
                      else !place(d).isPrimary && !WeaponSlot(place(d).slot))
      && (forall d :: consumable(d) ==> !place(d).isWeapon && !place(d).isArmor)
      && (forall d :: place(d).isWeapon ==> !consumable(place(d).ammo) && !weapon(place(d).ammo))
      && (forall d, i :: 0 <= i < |attachments(d)| ==> !consumable(attachments(d)[i]) && !weapon(attachments(d)[i]))
    }
  }

  predicate WeaponSlot(slot: nat) {
    slot == PRIMARY1 || slot == PRIMARY2 || slot == SECONDARY || slot == MELEE
  }

  datatype State = State(uids: map<nat, Item>, weapons: map<nat, Weapon>, equip: map<nat, Equipped>, onHand: nat,
                         boxes: map<nat, seq<Item>>, nextBox: nat, lastUid: nat)

  // ----- Steps -----

  /** The item leaves the loadout altogether: its weapon entry, its slot, its tracking, the hand. */
  function Remove(s: State, u: nat): State {
    s.(weapons := map l | l in s.weapons && s.weapons[l].unique != u :: s.weapons[l],
       equip := map l | l in s.equip && s.equip[l].unique != u :: s.equip[l],
       uids := s.uids - {u},
       onHand := if s.onHand == u then 0 else s.onHand)
  }

  function Without(items: seq<Item>, u: nat): seq<Item> {
    if items == [] then []
    else (if items[0].unique != u then [items[0]] else []) + Without(items[1..], u)
  }

  function Take(s: State, c: nat, u: nat): State
    requires c in s.boxes
  {
    s.(boxes := s.boxes[c := Without(s.boxes[c], u)])
  }

  function Track(s: State, it: Item): State {
    s.(uids := s.uids[it.unique := it])
  }

  function Wear(s: State, slot: nat, data: nat, u: nat): State {
    s.(equip := s.equip[slot := Equipped(data, u)])
  }

  function Wield(s: State, slot: nat, data: nat, u: nat, ammo: nat): State {
    Wear(s, slot, data, u).(weapons := s.weapons[slot := Weapon(slot, data, u, ammo)], onHand := u)
  }

  /** The next box id: one inside the band, wrapping inside it. */
  function BoxID(s: State): nat {
    if s.nextBox < BOX_BASE || s.nextBox > BOX_MAX then BOX_BASE else s.nextBox
  }

  /** An item on the ground joins the box the geometry picked, or gets a new one. */
  function Ground(s: State, it: Item, near: Option<nat>): State {
    if it.unique == 0 && it.data == 0 then s
    else if near.Some? && near.value in s.boxes then s.(boxes := s.boxes[near.value := s.boxes[near.value] + [it]])
    else s.(boxes := s.boxes[BoxID(s) := [it]], nextBox := if BoxID(s) == BOX_MAX then BOX_BASE else BoxID(s) + 1)
  }

  /** Uniques are 32-bit numbers. */
  function NextUid(u: nat): nat {
    (u + 1) % COUNT_RANGE
  }

  function Fresh(s: State, data: nat, count: nat, runtime: nat): State {
    var u := NextUid(s.lastUid);
    Track(s.(lastUid := u), Item(u, data, count, runtime))
  }

  function Attach(s: State, data: seq<nat>): (t: State)
    ensures t.boxes == s.boxes
  {
    if data == [] then s else Fresh(Attach(s, data[..|data| - 1]), data[|data| - 1], 1, 0)
  }

  // ----- Drops -----

  function Drop(s: State, u: nat, near: Option<nat>): State {
    if u == 0 || u !in s.uids then s else Ground(Remove(s, u), s.uids[u], near)
  }

  // ----- Pickups -----

  /** An empty primary slot if there is one, else the primary in hand, else the first. */
  function PrimarySlot(s: State): nat {
    if PRIMARY1 !in s.weapons then PRIMARY1
    else if PRIMARY2 !in s.weapons then PRIMARY2
    else if s.weapons[PRIMARY1].unique == s.onHand then PRIMARY1
    else if s.weapons[PRIMARY2].unique == s.onHand then PRIMARY2
    else PRIMARY1
  }

  function SlotFor(k: Kinds, s: State, data: nat): nat {
    if k.primary(data) then PrimarySlot(s) else SECONDARY
  }

  /** A weapon as it lies on the ground: one of it, with a full clip. */
  function Loot(k: Kinds, w: Weapon): Item {
    Item(w.unique, w.data, 1, k.clip(w.data))
  }

  function Unarm(s: State, slot: nat): State {
    if slot in s.weapons then Remove(s, s.weapons[slot].unique) else s
  }

  /** The weapon is in its slot and whatever was there is out of the loadout. */
  function Draw(k: Kinds, s: State, it: Item, slot: nat): State {
    Wield(Track(Unarm(s, slot), it), slot, it.data, it.unique, k.ammoOf(it.data))
  }

  function Arm(k: Kinds, s: State, it: Item, slot: nat): State {
    Attach(Draw(k, s, it, slot), k.attachments(it.data))
  }

  function Discard(s: State, c: nat): State {
    s.(boxes := s.boxes - {c})
  }

  /** The weapon displaced from the slot goes to the ground, and the box that the pickup emptied goes away. */
  function PutDown(k: Kinds, s: State, armed: State, slot: nat, c: nat, near: Option<nat>): State
    requires c in armed.boxes
  {
    var t := if slot in s.weapons then Ground(armed, Loot(k, s.weapons[slot]), near) else armed;
    if armed.boxes[c] == [] && !(slot in s.weapons && near == Some(c)) then Discard(t, c) else t
  }

  /** Picking up a weapon from box c. The weapon it displaces may join that same box, which then survives. */
  function PickWeapon(k: Kinds, s: State, c: nat, it: Item, near: Option<nat>): State
    requires c in s.boxes
  {
    var slot := SlotFor(k, s, it.data);
    PutDown(k, s, Arm(k, Take(s, c, it.unique), it, slot), slot, c, near)
  }

  /** The picked item holding what both held. */
  function Together(it: Item, other: Item): (both: Item)
    ensures both.unique == it.unique && both.data == it.data
  {
    it.(count := (it.count + other.count) % COUNT_RANGE)
  }

  /** The stack dup of the same data is folded into the picked one, which takes over its slot and the hand. */
  function Fold(s: State, it: Item, dup: nat, slot: Option<nat>): State
    requires dup in s.uids
  {
    var r := Remove(s, dup);
    var t := if slot.Some? then Wear(r, slot.value, it.data, it.unique) else r;
    Track(t, Together(it, s.uids[dup])).(onHand := if s.onHand == dup then it.unique else r.onHand)
  }

  /** Picking up anything else from box c. dup is another stack of the same data, slot the slot that one is in. */
  function PickOther(s: State, c: nat, it: Item, dup: Option<nat>, slot: Option<nat>): State
    requires c in s.boxes && (dup.Some? ==> dup.value in s.uids)
  {
    var taken := Take(s, c, it.unique);
    var t := if dup.Some? then Fold(taken, it, dup.value, slot) else Track(taken, it);
    if Without(s.boxes[c], it.unique) == [] then Discard(t, c) else t
  }

  // ----- Purchases -----

  function Reserve(k: Kinds, s: State, ammo: nat): State {
    if ammo == 0 then s else Fresh(s, ammo, k.reserve(ammo), 0)
  }

  /** A bought weapon, its ammunition and attachments; the weapon it overrides goes to the ground. */
  function BuyWeapon(k: Kinds, s: State, data: nat, near: Option<nat>): State {
    var p := k.place(data);
    var slot := if p.isPrimary then PrimarySlot(s) else p.slot;
    var got := Fresh(s, data, 1, k.clip(data));
    var kept := Attach(Reserve(k, got, p.ammo), k.attachments(data));
    var free := if slot in s.weapons then kept.(uids := kept.uids - {s.weapons[slot].unique}) else kept;
    var t := Wield(free, slot, data, got.lastUid, p.ammo);
    if slot in s.weapons then Ground(t, Loot(k, s.weapons[slot]), near) else t
  }

  function Refill(s: State, u: nat, qty: nat): State
    requires u in s.uids
  {
    s.(uids := s.uids[u := s.uids[u].(count := (s.uids[u].count + qty) % COUNT_RANGE)])
  }

  /** Anything else: a repeat buy joins the stack dup unless it is armour; an unused unique is left behind. */
  function BuyOther(k: Kinds, s: State, data: nat, qty: nat, dup: Option<nat>): State
    requires dup.Some? ==> dup.value in s.uids
  {
    var p := k.place(data);
    var got := Fresh(s, data, qty, if p.isArmor then k.durability(data) else 0);
    var t := if dup.Some? && !p.isArmor then Refill(s, dup.value, qty).(lastUid := got.lastUid) else got;
    var u := if dup.Some? && !p.isArmor then dup.value else got.lastUid;
    if p.slot != NO_SLOT then Wear(t, p.slot, data, u) else t
  }

  // ----- Fresh and refilled loadouts -----

  const USP := 3
  const PISTOL_AMMO := 202
  const MEDKIT := 102
  const GLOO := 1201

  /** giveLoadout: everything held and everything on the ground goes; medkits, and a pistol unless the room has none. */
  function GiveLoadout(k: Kinds, s: State, noLoadout: bool, infiniteGloo: bool): State {
    var usp := NextUid(s.lastUid);
    FillUp(k, Kit(s, NextUid(usp)), usp, noLoadout, infiniteGloo)
  }

  function FillUp(k: Kinds, kit: State, usp: nat, noLoadout: bool, infiniteGloo: bool): State {
    var armed := if noLoadout then kit else Pistol(k, kit, usp);
    if infiniteGloo then Gloo(armed) else armed
  }

  function Kit(s: State, med: nat): State {
    Track(State(map[], map[], map[MELEE := Equipped(0, 0)], 0, map[], s.nextBox, med), Item(med, MEDKIT, 2, 2))
  }

  function Gloo(s: State): State {
    var g := Fresh(s, GLOO, 5, 0);
    Wear(g, BUILDING, GLOO, g.lastUid)
  }

  function Pistol(k: Kinds, s: State, usp: nat): State {
    var t := Wield(Track(s, Item(usp, USP, 1, k.clip(USP))), SECONDARY, USP, usp, PISTOL_AMMO);
    Reserve(k, Attach(t, k.attachments(USP)), PISTOL_AMMO)
  }

  /** reissueLoadout: the medkits of a survivor are two again. med is the stack he has, if any. */
  function Reissue(s: State, med: Option<nat>): State {
    if med.Some? then Track(s, Item(med.value, MEDKIT, 2, 2)) else Fresh(s, MEDKIT, 2, 2)
  }

  // ----- The invariant -----

  function Uniques(items: seq<Item>): set<nat> {
    if items == [] then {} else {items[0].unique} + Uniques(items[1..])
  }

  ghost predicate NoTwice(items: seq<Item>) {
    items == [] || (items[0].unique !in Uniques(items[1..]) && NoTwice(items[1..]))
  }

  ghost predicate Known(s: State) {
    forall u :: u in s.uids ==> s.uids[u].unique == u && 1 <= u <= s.lastUid
  }

  /** A weapon entry is what its slot holds, and is tracked as one piece of the same data. */
  ghost predicate ArmedAt(k: Kinds, s: State, l: nat)
    requires l in s.weapons
  {
    var w := s.weapons[l];
    && w.slot == l && WeaponSlot(l) && k.place(w.data).isWeapon
    && l in s.equip && s.equip[l] == Equipped(w.data, w.unique)
    && w.unique in s.uids && s.uids[w.unique].data == w.data && s.uids[w.unique].count == 1
  }

  ghost predicate Armed(k: Kinds, s: State) {
    forall l :: l in s.weapons ==> ArmedAt(k, s, l)
  }

  /** Neither a weapon nor armour: it has one slot, if any. */
  predicate Plain(k: Kinds, data: nat) {
    !k.place(data).isWeapon && !k.place(data).isArmor
  }

  /** A slot holds a tracked item of its data, or the fist; what is plain is in the slot it is bought into. */
  ghost predicate WornAt(k: Kinds, s: State, l: nat)
    requires l in s.equip
  {
    var e := s.equip[l];
    e.unique == 0 || (e.unique in s.uids && s.uids[e.unique].data == e.data
                      && (Plain(k, e.data) ==> k.place(e.data).slot == l))
  }

  /** No item is in two slots. */
  ghost predicate Worn(k: Kinds, s: State) {
    && (forall l :: l in s.equip ==> WornAt(k, s, l))
    && (forall l, m :: l in s.equip && m in s.equip && l != m && s.equip[l].unique != 0 ==>
          s.equip[l].unique != s.equip[m].unique)
  }

  /** At most one stack of each consumable. */
  ghost predicate Single(k: Kinds, s: State) {
    forall u, v :: u in s.uids && v in s.uids && s.uids[u].data == s.uids[v].data && k.consumable(s.uids[u].data) ==>
      u == v
  }

  /** Weapons come one by one. */
  ghost predicate Piece(k: Kinds, it: Item) {
    k.weapon(it.data) ==> it.count == 1
  }

  ghost predicate Held(k: Kinds, s: State) {
    && Known(s) && Armed(k, s) && Worn(k, s) && Single(k, s)
    && (forall u :: u in s.uids ==> Piece(k, s.uids[u]))
  }

  /** Items on the ground are nobody's, and none lies there twice. */
  ghost predicate Loose(k: Kinds, s: State, c: nat)
    requires c in s.boxes
  {
    && NoTwice(s.boxes[c])
    && (forall u :: u in Uniques(s.boxes[c]) ==> 1 <= u <= s.lastUid && u !in s.uids)
    && (forall it :: it in s.boxes[c] ==> Piece(k, it))
  }

  ghost predicate Scattered(k: Kinds, s: State) {
    && (forall c :: c in s.boxes ==> Loose(k, s, c))
    && (forall c, d :: c in s.boxes && d in s.boxes && c != d ==> Uniques(s.boxes[c]) !! Uniques(s.boxes[d]))
  }

  ghost predicate Core(k: Kinds, s: State) {
    Held(k, s) && Scattered(k, s)
  }

  ghost predicate Filled(s: State) {
    forall c :: c in s.boxes ==> s.boxes[c] != []
  }

  ghost predicate Sound(k: Kinds, s: State) {
    Core(k, s) && Filled(s)
  }

  /** Nobody has the item, and it lies nowhere. */
  ghost predicate Gone(s: State, u: nat) {
    u !in s.uids && forall c :: c in s.boxes ==> u !in Uniques(s.boxes[c])
  }

  // ----- What each step keeps -----

  lemma {:induction false} UniqueOf(items: seq<Item>, u: nat)
    ensures u in Uniques(items) <==> exists it :: it in items && it.unique == u
    decreases |items|
  {
    if items != [] {
      UniqueOf(items[1..], u);
      assert items == [items[0]] + items[1..];
      if it :| it in items && it.unique == u {
        assert it == items[0] || it in items[1..];
      }
    }
  }

  lemma {:induction false} WithoutIs(items: seq<Item>, u: nat)
    ensures Uniques(Without(items, u)) == Uniques(items) - {u}
    ensures NoTwice(items) ==> NoTwice(Without(items, u))
    ensures forall it :: it in Without(items, u) ==> it in items
    decreases |items|
  {
    if items != [] {
      WithoutIs(items[1..], u);
      var rest := Without(items[1..], u);
      if items[0].unique != u {
        assert ([items[0]] + rest)[1..] == rest;
      } else {
        assert [] + rest == rest;
      }
    }
  }

  lemma {:induction false} AppendIs(items: seq<Item>, it: Item)
    ensures Uniques(items + [it]) == Uniques(items) + {it.unique}
    ensures NoTwice(items) && it.unique !in Uniques(items) ==> NoTwice(items + [it])
    decreases |items|
  {
    if items == [] {
      assert [it][1..] == [];
    } else {
      assert (items + [it])[1..] == items[1..] + [it];
      AppendIs(items[1..], it);
    }
  }

  lemma RemoveHeld(k: Kinds, s: State, u: nat)
    requires Held(k, s) && u in s.uids
    ensures Held(k, Remove(s, u))
  {
    var t := Remove(s, u);
    forall l | l in t.weapons
      ensures ArmedAt(k, t, l)
    {
      assert ArmedAt(k, s, l);
    }
    forall l | l in t.equip
      ensures WornAt(k, t, l)
    {
      assert WornAt(k, s, l);
    }
  }

  lemma RemoveKeeps(k: Kinds, s: State, u: nat)
    requires Core(k, s) && u in s.uids
    ensures Core(k, Remove(s, u)) && Gone(Remove(s, u), u)
  {
    RemoveHeld(k, s, u);
    FewerHeld(k, s, Remove(s, u));
    assert forall c :: c in s.boxes ==> Loose(k, s, c);
  }

  lemma FewerHeld(k: Kinds, s: State, t: State)
    requires Scattered(k, s) && t.boxes == s.boxes && t.uids.Keys <= s.uids.Keys && t.lastUid >= s.lastUid
    ensures Scattered(k, t)
  {
    forall c | c in t.boxes
      ensures Loose(k, t, c)
    {
      assert Loose(k, s, c);
    }
  }

  lemma TakeKeeps(k: Kinds, s: State, c: nat, u: nat)
    requires Core(k, s) && c in s.boxes
    ensures Core(k, Take(s, c, u))
    ensures u in Uniques(s.boxes[c]) ==> Gone(Take(s, c, u), u)
  {
    var t := Take(s, c, u);
    WithoutIs(s.boxes[c], u);
    SameHeld(k, s, t);
    forall d | d in t.boxes
      ensures Loose(k, t, d)
    {
      assert Loose(k, s, d);
    }
    assert Loose(k, s, c);
  }

  lemma SameHeld(k: Kinds, s: State, t: State)
    requires Held(k, s) && t.uids == s.uids && t.weapons == s.weapons && t.equip == s.equip && t.lastUid >= s.lastUid
    ensures Held(k, t)
  {
    forall l | l in t.weapons
      ensures ArmedAt(k, t, l)
    {
      assert ArmedAt(k, s, l);
    }
    forall l | l in t.equip
      ensures WornAt(k, t, l)
    {
      assert WornAt(k, s, l);
    }
  }

  /** A new stack is of a consumable only if there is no other of it, and of a weapon only as one piece. */
  ghost predicate Welcome(k: Kinds, s: State, it: Item) {
    && 1 <= it.unique <= s.lastUid && Piece(k, it)
    && (k.consumable(it.data) ==> forall u :: u in s.uids ==> s.uids[u].data != it.data)
  }

  lemma TrackKeeps(k: Kinds, s: State, it: Item)
    requires Core(k, s) && Gone(s, it.unique) && Welcome(k, s, it)
    ensures Core(k, Track(s, it))
  {
    var t := Track(s, it);
    forall l | l in t.weapons
      ensures ArmedAt(k, t, l)
    {
      assert ArmedAt(k, s, l);
    }
    forall l | l in t.equip
      ensures WornAt(k, t, l)
    {
      assert WornAt(k, s, l);
    }
    forall c | c in t.boxes
      ensures Loose(k, t, c)
    {
      assert Loose(k, s, c);
    }
  }

  ghost predicate NotWorn(s: State, u: nat) {
    forall l :: l in s.equip ==> s.equip[l].unique != u
  }

  /** Something other than a weapon takes a slot where no weapon is. */
  lemma WearHeld(k: Kinds, s: State, slot: nat, data: nat, u: nat)
    requires Held(k, s) && u in s.uids && s.uids[u].data == data && slot !in s.weapons
    requires forall l :: l in s.equip && l != slot ==> s.equip[l].unique != u
    requires Plain(k, data) ==> k.place(data).slot == slot
    ensures Held(k, Wear(s, slot, data, u))
  {
    var t := Wear(s, slot, data, u);
    forall l | l in t.weapons
      ensures ArmedAt(k, t, l)
    {
      assert ArmedAt(k, s, l);
    }
    forall l | l in t.equip
      ensures WornAt(k, t, l)
    {
      assert l != slot ==> WornAt(k, s, l);
    }
  }

  /** A weapon takes its slot; whatever was in it is no longer worn, but still tracked. */
  lemma WieldHeld(k: Kinds, s: State, slot: nat, data: nat, u: nat, ammo: nat)
    requires Held(k, s) && u in s.uids && s.uids[u].data == data && s.uids[u].count == 1 && NotWorn(s, u)
    requires WeaponSlot(slot) && k.place(data).isWeapon
    ensures Held(k, Wield(s, slot, data, u, ammo))
  {
    var t := Wield(s, slot, data, u, ammo);
    forall l | l in t.weapons
      ensures ArmedAt(k, t, l)
    {
      assert l != slot ==> ArmedAt(k, s, l);
    }
    forall l | l in t.equip
      ensures WornAt(k, t, l)
    {
      assert l != slot ==> WornAt(k, s, l);
    }
  }

  /** Where a new box goes there is none yet. */
  predicate RoomFor(s: State, near: Option<nat>) {
    (near.Some? && near.value in s.boxes) || BoxID(s) !in s.boxes
  }

  /** What may lie in box c. */
  ghost predicate MayLie(k: Kinds, s: State, c: nat, items: seq<Item>) {
    && NoTwice(items) && (forall it :: it in items ==> Piece(k, it))
    && (forall u :: u in Uniques(items) ==> 1 <= u <= s.lastUid && u !in s.uids)
    && (forall d :: d in s.boxes && d != c ==> Uniques(items) !! Uniques(s.boxes[d]))
  }

  lemma BoxKeeps(k: Kinds, s: State, c: nat, items: seq<Item>, next: nat)
    requires Core(k, s) && MayLie(k, s, c, items)
    ensures Core(k, s.(boxes := s.boxes[c := items], nextBox := next))
  {
    var t := s.(boxes := s.boxes[c := items], nextBox := next);
    SameHeld(k, s, t);
    forall d | d in t.boxes
      ensures Loose(k, t, d)
    {
      assert d != c ==> Loose(k, s, d);
    }
  }

  lemma MayJoin(k: Kinds, s: State, c: nat, it: Item)
    requires Core(k, s) && c in s.boxes && Gone(s, it.unique) && 1 <= it.unique <= s.lastUid && Piece(k, it)
    ensures MayLie(k, s, c, s.boxes[c] + [it])
  {
    AppendIs(s.boxes[c], it);
    assert Loose(k, s, c);
  }

  lemma MayBeAlone(k: Kinds, s: State, c: nat, it: Item)
    requires Gone(s, it.unique) && 1 <= it.unique <= s.lastUid && Piece(k, it)
    ensures MayLie(k, s, c, [it])
  {
    AppendIs([], it);
    assert [] + [it] == [it];
  }

  lemma GroundKeeps(k: Kinds, s: State, it: Item, near: Option<nat>)
    requires Core(k, s) && Gone(s, it.unique) && 1 <= it.unique <= s.lastUid && Piece(k, it)
    ensures Core(k, Ground(s, it, near)) && (Filled(s) ==> Filled(Ground(s, it, near)))
  {
    if near.Some? && near.value in s.boxes {
      MayJoin(k, s, near.value, it);
      BoxKeeps(k, s, near.value, s.boxes[near.value] + [it], s.nextBox);
    } else {
      MayBeAlone(k, s, BoxID(s), it);
      BoxKeeps(k, s, BoxID(s), [it], if BoxID(s) == BOX_MAX then BOX_BASE else BoxID(s) + 1);
    }
  }

  lemma DiscardKeeps(k: Kinds, s: State, c: nat)
    requires Core(k, s)
    ensures Core(k, Discard(s, c))
  {
    var t := Discard(s, c);
    SameHeld(k, s, t);
    forall d | d in t.boxes
      ensures Loose(k, t, d)
    {
      assert Loose(k, s, d);
    }
  }

  lemma NewUidKeeps(k: Kinds, s: State)
    requires Core(k, s) && s.lastUid + 1 < COUNT_RANGE
    ensures var t := s.(lastUid := s.lastUid + 1); Core(k, t) && Gone(t, s.lastUid + 1)
  {
    var t := s.(lastUid := s.lastUid + 1);
    SameHeld(k, s, t);
    forall c | c in t.boxes
      ensures Loose(k, t, c) && s.lastUid + 1 !in Uniques(t.boxes[c])
    {
      assert Loose(k, s, c);
    }
  }

  function Numbered(s: State): State {
    s.(lastUid := s.lastUid + 1)
  }

  lemma FreshIs(s: State, data: nat, count: nat, runtime: nat)
    requires s.lastUid + 1 < COUNT_RANGE
    ensures Fresh(s, data, count, runtime) == Track(Numbered(s), Item(s.lastUid + 1, data, count, runtime))
  {
  }

  lemma FreshKeeps(k: Kinds, s: State, data: nat, count: nat, runtime: nat)
    requires Core(k, s) && s.lastUid + 1 < COUNT_RANGE && (k.weapon(data) ==> count == 1)
    requires k.consumable(data) ==> forall u :: u in s.uids ==> s.uids[u].data != data
    ensures Core(k, Fresh(s, data, count, runtime))
  {
    NewUidKeeps(k, s);
    FreshIs(s, data, count, runtime);
    TrackKeeps(k, Numbered(s), Item(s.lastUid + 1, data, count, runtime));
  }

  /** Items added with new uniques: the old ones are all still there. */
  ghost predicate Extends(s: State, t: State) {
    && t.boxes == s.boxes && t.equip == s.equip && t.weapons == s.weapons && t.nextBox == s.nextBox
    && t.onHand == s.onHand && t.lastUid >= s.lastUid
    && (forall u :: u in s.uids ==> u in t.uids && t.uids[u] == s.uids[u])
    && (forall u :: u in t.uids ==> u in s.uids || u > s.lastUid)
  }

  lemma {:induction false} AttachKeeps(k: Kinds, s: State, data: seq<nat>)
    requires Core(k, s) && s.lastUid + |data| < COUNT_RANGE
    requires forall i :: 0 <= i < |data| ==> !k.consumable(data[i]) && !k.weapon(data[i])
    ensures Core(k, Attach(s, data)) && Attach(s, data).lastUid == s.lastUid + |data| && Extends(s, Attach(s, data))
    decreases |data|
  {
    if data != [] {
      var before := Attach(s, data[..|data| - 1]);
      AttachKeeps(k, s, data[..|data| - 1]);
      FreshKeeps(k, before, data[|data| - 1], 1, 0);
      FreshIs(before, data[|data| - 1], 1, 0);
    }
  }

  // ----- What each operation keeps -----

  lemma DropKeeps(k: Kinds, s: State, u: nat, near: Option<nat>)
    requires Sound(k, s)
    ensures Sound(k, Drop(s, u, near))
  {
    if u != 0 && u in s.uids {
      RemoveKeeps(k, s, u);
      GroundKeeps(k, Remove(s, u), s.uids[u], near);
    }
  }

  /** A weapon that is nobody's goes into a slot where no weapon is. */
  lemma InstallKeeps(k: Kinds, s: State, it: Item, slot: nat)
    requires k.Valid() && Core(k, s) && Gone(s, it.unique) && 1 <= it.unique <= s.lastUid
    requires k.weapon(it.data) && it.count == 1 && WeaponSlot(slot)
    ensures Core(k, Wield(Track(s, it), slot, it.data, it.unique, k.ammoOf(it.data)))
  {
    NobodyWears(k, s, it.unique);
    TrackKeeps(k, s, it);
    WieldHeld(k, Track(s, it), slot, it.data, it.unique, k.ammoOf(it.data));
    FewerHeld(k, Track(s, it), Wield(Track(s, it), slot, it.data, it.unique, k.ammoOf(it.data)));
  }

  lemma NobodyWears(k: Kinds, s: State, u: nat)
    requires Held(k, s) && u !in s.uids && u != 0
    ensures NotWorn(s, u)
  {
    forall l | l in s.equip
      ensures s.equip[l].unique != u
    {
      assert WornAt(k, s, l);
    }
  }

  /** An item that is nobody's stays so when others are given out. */
  lemma GoneExtends(s: State, t: State, u: nat)
    requires Gone(s, u) && Extends(s, t) && u <= s.lastUid
    ensures Gone(t, u)
  {
  }

  lemma UnarmKeeps(k: Kinds, s: State, slot: nat)
    requires Core(k, s)
    ensures Core(k, Unarm(s, slot)) && Unarm(s, slot).lastUid == s.lastUid && Unarm(s, slot).boxes == s.boxes
    ensures slot in s.weapons ==>
              Gone(Unarm(s, slot), s.weapons[slot].unique) && 1 <= s.weapons[slot].unique <= s.lastUid
    ensures forall u :: Gone(s, u) ==> Gone(Unarm(s, slot), u)
  {
    if slot in s.weapons {
      assert ArmedAt(k, s, slot);
      RemoveKeeps(k, s, s.weapons[slot].unique);
    }
  }

  lemma DrawKeeps(k: Kinds, s: State, it: Item, slot: nat)
    requires k.Valid() && Core(k, s) && Gone(s, it.unique) && 1 <= it.unique <= s.lastUid
    requires k.weapon(it.data) && it.count == 1 && WeaponSlot(slot)
    ensures var t := Draw(k, s, it, slot);
            && Core(k, t) && t.boxes == s.boxes && t.lastUid == s.lastUid
            && (slot in s.weapons ==> Gone(t, s.weapons[slot].unique) && 1 <= s.weapons[slot].unique <= s.lastUid)
  {
    UnarmKeeps(k, s, slot);
    InstallKeeps(k, Unarm(s, slot), it, slot);
    assert slot in s.weapons ==> ArmedAt(k, s, slot);
  }

  lemma ArmKeeps(k: Kinds, s: State, it: Item, slot: nat)
    requires k.Valid() && Core(k, s) && Gone(s, it.unique) && 1 <= it.unique <= s.lastUid
    requires k.weapon(it.data) && it.count == 1 && WeaponSlot(slot)
    requires s.lastUid + |k.attachments(it.data)| < COUNT_RANGE
    ensures var t := Arm(k, s, it, slot);
            && Core(k, t) && t.boxes == s.boxes && t.lastUid >= s.lastUid
            && (slot in s.weapons ==> Gone(t, s.weapons[slot].unique) && 1 <= s.weapons[slot].unique <= s.lastUid)
  {
    DrawKeeps(k, s, it, slot);
    AttachKeeps(k, Draw(k, s, it, slot), k.attachments(it.data));
    if slot in s.weapons {
      GoneExtends(Draw(k, s, it, slot), Arm(k, s, it, slot), s.weapons[slot].unique);
    }
  }

  lemma SlotIsWeapon(k: Kinds, s: State, data: nat)
    ensures WeaponSlot(SlotFor(k, s, data))
  {
  }

  lemma PickArms(k: Kinds, s: State, c: nat, it: Item, slot: nat)
    requires k.Valid() && Core(k, s) && c in s.boxes && it in s.boxes[c] && k.weapon(it.data) && WeaponSlot(slot)
    requires s.lastUid + |k.attachments(it.data)| < COUNT_RANGE
    ensures var t := Arm(k, Take(s, c, it.unique), it, slot);
            && Core(k, t) && t.boxes == Take(s, c, it.unique).boxes && t.lastUid >= s.lastUid
            && (slot in s.weapons ==> Gone(t, s.weapons[slot].unique) && 1 <= s.weapons[slot].unique <= s.lastUid)
  {
    LyingItem(k, s, c, it);
    TakeKeeps(k, s, c, it.unique);
    ArmKeeps(k, Take(s, c, it.unique), it, slot);
  }

  lemma PickWeaponKeeps(k: Kinds, s: State, c: nat, it: Item, near: Option<nat>)
    requires k.Valid() && Sound(k, s) && c in s.boxes && it in s.boxes[c] && k.weapon(it.data)
    requires s.lastUid + |k.attachments(it.data)| < COUNT_RANGE
    ensures Sound(k, PickWeapon(k, s, c, it, near))
  {
    var slot := SlotFor(k, s, it.data);
    SlotIsWeapon(k, s, it.data);
    PickArms(k, s, c, it, slot);
    PutDownKeeps(k, s, Arm(k, Take(s, c, it.unique), it, slot), slot, c, near);
  }

  lemma PutDownKeeps(k: Kinds, s: State, armed: State, slot: nat, c: nat, near: Option<nat>)
    requires Core(k, armed) && FilledBut(armed, c) && c in armed.boxes
    requires slot in s.weapons ==>
               Gone(armed, s.weapons[slot].unique) && 1 <= s.weapons[slot].unique <= armed.lastUid
    ensures Sound(k, PutDown(k, s, armed, slot, c, near))
  {
    if slot in s.weapons {
      PickSwaps(k, s, armed, c, slot, near);
    } else {
      DiscardKeeps(k, armed, c);
      DiscardFills(armed, c);
    }
  }

  lemma PickSwaps(k: Kinds, s: State, armed: State, c: nat, slot: nat, near: Option<nat>)
    requires Core(k, armed) && FilledBut(armed, c) && c in armed.boxes && slot in s.weapons
    requires Gone(armed, s.weapons[slot].unique) && 1 <= s.weapons[slot].unique <= armed.lastUid
    ensures var t := Ground(armed, Loot(k, s.weapons[slot]), near);
            Sound(k, if armed.boxes[c] == [] && near != Some(c) then Discard(t, c) else t)
  {
    var t := Ground(armed, Loot(k, s.weapons[slot]), near);
    GroundKeeps(k, armed, Loot(k, s.weapons[slot]), near);
    GroundFills(armed, Loot(k, s.weapons[slot]), near, c);
    DiscardKeeps(k, t, c);
    DiscardFills(t, c);
  }

  /** Only box c may be empty. */
  ghost predicate FilledBut(s: State, c: nat) {
    forall d :: d in s.boxes && d != c ==> s.boxes[d] != []
  }

  lemma DiscardFills(s: State, c: nat)
    requires FilledBut(s, c)
    ensures Filled(Discard(s, c))
    ensures c in s.boxes && s.boxes[c] != [] ==> Filled(s)
  {
  }

  lemma GroundFills(s: State, it: Item, near: Option<nat>, c: nat)
    requires FilledBut(s, c) && c in s.boxes && it.unique != 0
    ensures FilledBut(Ground(s, it, near), c)
    ensures s.boxes[c] != [] || near == Some(c) ==> Filled(Ground(s, it, near))
  {
  }

  lemma LyingItem(k: Kinds, s: State, c: nat, it: Item)
    requires Core(k, s) && c in s.boxes && it in s.boxes[c]
    ensures it.unique in Uniques(s.boxes[c]) && 1 <= it.unique <= s.lastUid && it.unique !in s.uids && Piece(k, it)
  {
    UniqueOf(s.boxes[c], it.unique);
    assert Loose(k, s, c);
  }

  /** dup is the stack to fold: none, or one of the same data in the slot given, if it is in one. */
  ghost predicate Foldable(s: State, it: Item, dup: Option<nat>, slot: Option<nat>) {
    match dup
    case None => slot.None? && forall u :: u in s.uids && u != it.unique ==> s.uids[u].data != it.data
    case Some(u) =>
      && u in s.uids && u != it.unique && s.uids[u].data == it.data
      && (slot.Some? ==> slot.value in s.equip && s.equip[slot.value].unique == u)
      && (slot.None? ==> NotWorn(s, u))
  }

  /** The picked item with both counts, in place of the other stack. */
  function Merged(s: State, it: Item, dup: nat): State
    requires dup in s.uids
  {
    Track(Remove(s, dup), Together(it, s.uids[dup]))
  }

  lemma ReplacedNotWorn(k: Kinds, s: State, it: Item, dup: nat)
    requires Held(k, s) && it.unique !in s.uids && it.unique != 0
    ensures NotWorn(Track(Remove(s, dup), it), it.unique)
  {
    NobodyWears(k, s, it.unique);
  }

  lemma ReplaceKeeps(k: Kinds, s: State, it: Item, dup: nat)
    requires Core(k, s) && Gone(s, it.unique) && 1 <= it.unique <= s.lastUid && !k.weapon(it.data)
    requires dup in s.uids && s.uids[dup].data == it.data
    ensures Core(k, Track(Remove(s, dup), it)) && NotWorn(Track(Remove(s, dup), it), it.unique)
  {
    ReplacedNotWorn(k, s, it, dup);
    RemoveKeeps(k, s, dup);
    TrackKeeps(k, Remove(s, dup), it);
  }

  lemma MergedKeeps(k: Kinds, s: State, it: Item, dup: nat)
    requires Core(k, s) && Gone(s, it.unique) && 1 <= it.unique <= s.lastUid && !k.weapon(it.data)
    requires dup in s.uids && s.uids[dup].data == it.data
    ensures Core(k, Merged(s, it, dup)) && NotWorn(Merged(s, it, dup), it.unique)
  {
    ReplaceKeeps(k, s, Together(it, s.uids[dup]), dup);
  }

  lemma MergedSlot(k: Kinds, s: State, it: Item, dup: nat, slot: nat)
    requires Core(k, s) && Gone(s, it.unique) && 1 <= it.unique <= s.lastUid && !k.weapon(it.data)
    requires Foldable(s, it, Some(dup), Some(slot))
    ensures Core(k, Wear(Merged(s, it, dup), slot, it.data, it.unique))
  {
    var t := Merged(s, it, dup);
    MergedKeeps(k, s, it, dup);
    FoldSlot(k, s, dup, slot);
    WearHeld(k, t, slot, it.data, it.unique);
    FewerHeld(k, t, Wear(t, slot, it.data, it.unique));
  }

  lemma FoldKeeps(k: Kinds, s: State, it: Item, dup: nat, slot: Option<nat>)
    requires Core(k, s) && Gone(s, it.unique) && 1 <= it.unique <= s.lastUid && !k.weapon(it.data)
    requires Foldable(s, it, Some(dup), slot)
    ensures Core(k, Fold(s, it, dup, slot)) && Fold(s, it, dup, slot).boxes == s.boxes
  {
    var f, t := Fold(s, it, dup, slot), Merged(s, it, dup);
    if slot.Some? {
      MergedSlot(k, s, it, dup, slot.value);
      OtherHand(k, Wear(t, slot.value, it.data, it.unique), f);
    } else {
      MergedKeeps(k, s, it, dup);
      OtherHand(k, t, f);
    }
  }

  lemma OtherHand(k: Kinds, s: State, t: State)
    requires Core(k, s) && t == s.(onHand := t.onHand)
    ensures Core(k, t)
  {
    SameHeld(k, s, t);
    FewerHeld(k, s, t);
  }

  /** The slot of the stack that goes is free of weapons, and the right one for the data. */
  lemma FoldSlot(k: Kinds, s: State, dup: nat, slot: nat)
    requires Held(k, s) && dup in s.uids && dup != 0 && slot in s.equip && s.equip[slot].unique == dup
    ensures slot !in Remove(s, dup).weapons
    ensures Plain(k, s.uids[dup].data) ==> k.place(s.uids[dup].data).slot == slot
  {
    assert WornAt(k, s, slot);
    assert slot in s.weapons ==> ArmedAt(k, s, slot);
  }

  lemma PickOtherKeeps(k: Kinds, s: State, c: nat, it: Item, dup: Option<nat>, slot: Option<nat>)
    requires Sound(k, s) && c in s.boxes && it in s.boxes[c] && !k.weapon(it.data) && Foldable(s, it, dup, slot)
    ensures var t := PickOther(s, c, it, dup, slot); var sound := Sound(k, t); sound
  {
    var taken := Take(s, c, it.unique);
    LyingItem(k, s, c, it);
    TakeKeeps(k, s, c, it.unique);
    TakenKeeps(k, taken, it, dup, slot);
    EmptyOut(k, if dup.Some? then Fold(taken, it, dup.value, slot) else Track(taken, it), c);
  }

  /** Something other than a weapon, nobody's any more, is folded with its like or tracked. */
  lemma TakenKeeps(k: Kinds, s: State, it: Item, dup: Option<nat>, slot: Option<nat>)
    requires Core(k, s) && Gone(s, it.unique) && 1 <= it.unique <= s.lastUid && !k.weapon(it.data)
    requires Foldable(s, it, dup, slot)
    ensures var t := if dup.Some? then Fold(s, it, dup.value, slot) else Track(s, it);
            t.boxes == s.boxes && var core := Core(k, t); core
  {
    if dup.Some? {
      FoldKeeps(k, s, it, dup.value, slot);
    } else {
      TrackKeeps(k, s, it);
    }
  }

  lemma EmptyOut(k: Kinds, t: State, c: nat)
    requires Core(k, t) && FilledBut(t, c) && c in t.boxes
    ensures Sound(k, if t.boxes[c] == [] then Discard(t, c) else t)
  {
    DiscardKeeps(k, t, c);
    DiscardFills(t, c);
  }

  /** An item in no slot is forgotten. */
  lemma UntrackKeeps(k: Kinds, s: State, u: nat)
    requires Core(k, s) && u in s.uids && u != 0 && NotWorn(s, u)
    ensures Core(k, s.(uids := s.uids - {u})) && Gone(s.(uids := s.uids - {u}), u)
  {
    var t := s.(uids := s.uids - {u});
    forall l | l in t.weapons
      ensures ArmedAt(k, t, l)
    {
      assert ArmedAt(k, s, l);
    }
    forall l | l in t.equip
      ensures WornAt(k, t, l)
    {
      assert WornAt(k, s, l);
    }
    FewerHeld(k, s, t);
    assert forall c :: c in s.boxes ==> Loose(k, s, c);
  }

  function Issued(k: Kinds, s: State, data: nat): State {
    Attach(Reserve(k, Fresh(s, data, 1, k.clip(data)), k.place(data).ammo), k.attachments(data))
  }

  lemma NewItem(k: Kinds, s: State, data: nat, count: nat, runtime: nat)
    requires Core(k, s) && s.lastUid + 1 < COUNT_RANGE && (k.weapon(data) ==> count == 1)
    requires k.consumable(data) ==> forall u :: u in s.uids ==> s.uids[u].data != data
    ensures var t := Fresh(s, data, count, runtime);
            && Core(k, t) && Extends(s, t) && t.lastUid == s.lastUid + 1
            && t.lastUid in t.uids && t.uids[t.lastUid] == Item(t.lastUid, data, count, runtime)
  {
    FreshKeeps(k, s, data, count, runtime);
    FreshIs(s, data, count, runtime);
  }

  lemma ReserveKeeps(k: Kinds, s: State, ammo: nat)
    requires Core(k, s) && s.lastUid + 1 < COUNT_RANGE && !k.weapon(ammo) && !k.consumable(ammo)
    ensures var t := Reserve(k, s, ammo); Core(k, t) && Extends(s, t) && t.lastUid <= s.lastUid + 1
  {
    if ammo != 0 {
      NewItem(k, s, ammo, k.reserve(ammo), 0);
    }
  }

  lemma ExtendsFurther(s: State, t: State, v: State)
    requires Extends(s, t) && Extends(t, v)
    ensures Extends(s, v)
  {
  }

  lemma SuppliedKeeps(k: Kinds, s: State, ammo: nat, data: seq<nat>)
    requires Core(k, s) && !k.weapon(ammo) && !k.consumable(ammo) && s.lastUid + 1 + |data| < COUNT_RANGE
    requires forall i :: 0 <= i < |data| ==> !k.consumable(data[i]) && !k.weapon(data[i])
    ensures var t := Attach(Reserve(k, s, ammo), data); Core(k, t) && Extends(s, t)
  {
    ReserveKeeps(k, s, ammo);
    AttachKeeps(k, Reserve(k, s, ammo), data);
    ExtendsFurther(s, Reserve(k, s, ammo), Attach(Reserve(k, s, ammo), data));
  }

  lemma StillThere(s: State, got: State, t: State, u: nat)
    requires Extends(s, got) && Extends(got, t) && u in got.uids && u <= got.lastUid
    ensures Extends(s, t) && u <= t.lastUid && u in t.uids && t.uids[u] == got.uids[u]
  {
    ExtendsFurther(s, got, t);
  }

  lemma IssuedKeeps(k: Kinds, s: State, data: nat)
    requires k.Valid() && Core(k, s) && k.place(data).isWeapon
    requires s.lastUid + 2 + |k.attachments(data)| < COUNT_RANGE
    ensures var t, u := Issued(k, s, data), s.lastUid + 1; var core := Core(k, t);
            core && Extends(s, t) && u <= t.lastUid && u in t.uids && t.uids[u] == Item(u, data, 1, k.clip(data))
  {
    var got := Fresh(s, data, 1, k.clip(data));
    NewItem(k, s, data, 1, k.clip(data));
    SuppliedKeeps(k, got, k.place(data).ammo, k.attachments(data));
    StillThere(s, got, Issued(k, s, data), s.lastUid + 1);
  }

  /** A weapon that was just issued takes its slot. */
  lemma WieldNewKeeps(k: Kinds, s: State, kept: State, slot: nat, data: nat, u: nat)
    requires Held(k, s) && Core(k, kept) && kept.equip == s.equip && u !in s.uids && u != 0
    requires u in kept.uids && kept.uids[u].data == data && kept.uids[u].count == 1
    requires WeaponSlot(slot) && k.place(data).isWeapon
    ensures Core(k, Wield(kept, slot, data, u, k.place(data).ammo))
  {
    NobodyWears(k, s, u);
    WieldHeld(k, kept, slot, data, u, k.place(data).ammo);
    FewerHeld(k, kept, Wield(kept, slot, data, u, k.place(data).ammo));
  }

  /** The weapon that is overridden is in no slot any more. */
  lemma OverriddenNotWorn(k: Kinds, s: State, worn: State, slot: nat, data: nat, u: nat)
    requires Held(k, s) && slot in s.weapons && worn.equip == s.equip[slot := Equipped(data, u)] && u > s.lastUid
    ensures var o := s.weapons[slot].unique; NotWorn(worn, o) && o in s.uids && 1 <= o <= s.lastUid
  {
    assert ArmedAt(k, s, slot);
  }

  /** The new weapon takes its slot, and the one it overrides is forgotten: it is nobody's from then on. */
  lemma OverrideKeeps(k: Kinds, s: State, kept: State, slot: nat, data: nat, u: nat)
    requires Core(k, s) && Core(k, kept) && Extends(s, kept) && s.lastUid < u <= kept.lastUid
    requires u in kept.uids && kept.uids[u].data == data && kept.uids[u].count == 1
    requires WeaponSlot(slot) && k.place(data).isWeapon && slot in s.weapons
    ensures var o, worn := s.weapons[slot].unique, Wield(kept, slot, data, u, k.place(data).ammo);
            var t := worn.(uids := worn.uids - {o}); var core := Core(k, t);
            core && Gone(t, o) && 1 <= o <= t.lastUid
  {
    var worn := Wield(kept, slot, data, u, k.place(data).ammo);
    OverriddenNotWorn(k, s, worn, slot, data, u);
    WieldNewKeeps(k, s, kept, slot, data, u);
    UntrackKeeps(k, worn, s.weapons[slot].unique);
  }

  /** The slot that a bought weapon goes into. */
  function BoughtSlot(k: Kinds, s: State, data: nat): nat {
    if k.place(data).isPrimary then PrimarySlot(s) else k.place(data).slot
  }

  /** The bought weapon in its slot, before the one it overrides is put down. */
  function Bought(k: Kinds, s: State, data: nat): State {
    var slot, kept := BoughtSlot(k, s, data), Issued(k, s, data);
    var free := if slot in s.weapons then kept.(uids := kept.uids - {s.weapons[slot].unique}) else kept;
    Wield(free, slot, data, Fresh(s, data, 1, k.clip(data)).lastUid, k.place(data).ammo)
  }

  lemma BuyWeaponIs(k: Kinds, s: State, data: nat, near: Option<nat>)
    ensures var slot, t := BoughtSlot(k, s, data), Bought(k, s, data);
            BuyWeapon(k, s, data, near) ==
            if slot in s.weapons then Ground(t, Loot(k, s.weapons[slot]), near) else t
  {
  }

  lemma BoughtSlotIs(k: Kinds, s: State, data: nat)
    requires k.Valid() && k.place(data).isWeapon
    ensures WeaponSlot(BoughtSlot(k, s, data))
  {
  }

  lemma IssuedUid(k: Kinds, s: State, data: nat)
    requires s.lastUid + 1 < COUNT_RANGE
    ensures Fresh(s, data, 1, k.clip(data)).lastUid == s.lastUid + 1
  {
  }

  lemma BoughtFrom(k: Kinds, s: State, data: nat, kept: State, slot: nat)
    requires s.lastUid + 1 < COUNT_RANGE && kept == Issued(k, s, data) && slot == BoughtSlot(k, s, data)
    ensures var worn := Wield(kept, slot, data, s.lastUid + 1, k.place(data).ammo);
            Bought(k, s, data) ==
            if slot in s.weapons then worn.(uids := worn.uids - {s.weapons[slot].unique}) else worn
  {
    IssuedUid(k, s, data);
  }

  lemma NewInSlot(k: Kinds, s: State, kept: State, slot: nat, data: nat, u: nat, t: State)
    requires Core(k, s) && Core(k, kept) && Extends(s, kept) && s.lastUid < u <= kept.lastUid
    requires u in kept.uids && kept.uids[u].data == data && kept.uids[u].count == 1
    requires WeaponSlot(slot) && k.place(data).isWeapon
    requires var worn := Wield(kept, slot, data, u, k.place(data).ammo);
             t == if slot in s.weapons then worn.(uids := worn.uids - {s.weapons[slot].unique}) else worn
    ensures Core(k, t) && t.boxes == s.boxes
    ensures slot in s.weapons ==> Gone(t, s.weapons[slot].unique) && 1 <= s.weapons[slot].unique <= t.lastUid
  {
    if slot in s.weapons {
      OverrideKeeps(k, s, kept, slot, data, u);
    } else {
      WieldNewKeeps(k, s, kept, slot, data, u);
    }
  }

  lemma BoughtKeeps(k: Kinds, s: State, data: nat)
    requires k.Valid() && Core(k, s) && k.place(data).isWeapon
    requires s.lastUid + 2 + |k.attachments(data)| < COUNT_RANGE
    ensures var slot, t := BoughtSlot(k, s, data), Bought(k, s, data); var core := Core(k, t);
            && core && t.boxes == s.boxes
            && (slot in s.weapons ==> Gone(t, s.weapons[slot].unique) && 1 <= s.weapons[slot].unique <= t.lastUid)
  {
    var slot, kept := BoughtSlot(k, s, data), Issued(k, s, data);
    IssuedKeeps(k, s, data);
    BoughtSlotIs(k, s, data);
    BoughtFrom(k, s, data, kept, slot);
    NewInSlot(k, s, kept, slot, data, s.lastUid + 1, Bought(k, s, data));
  }

  lemma OverriddenDown(k: Kinds, s: State, t: State, slot: nat, near: Option<nat>)
    requires Core(k, t) && Filled(t)
    requires slot in s.weapons ==> Gone(t, s.weapons[slot].unique) && 1 <= s.weapons[slot].unique <= t.lastUid
    ensures Sound(k, if slot in s.weapons then Ground(t, Loot(k, s.weapons[slot]), near) else t)
  {
    if slot in s.weapons {
      GroundKeeps(k, t, Loot(k, s.weapons[slot]), near);
    }
  }

  lemma BuyWeaponKeeps(k: Kinds, s: State, data: nat, near: Option<nat>)
    requires k.Valid() && Sound(k, s) && k.place(data).isWeapon
    requires s.lastUid + 2 + |k.attachments(data)| < COUNT_RANGE
    ensures var t := BuyWeapon(k, s, data, near); var sound := Sound(k, t); sound
  {
    BoughtKeeps(k, s, data);
    OverriddenDown(k, s, Bought(k, s, data), BoughtSlot(k, s, data), near);
    BuyWeaponIs(k, s, data, near);
  }

  lemma RefillKeeps(k: Kinds, s: State, u: nat, qty: nat)
    requires k.Valid() && Core(k, s) && u in s.uids && Plain(k, s.uids[u].data) && s.lastUid + 1 < COUNT_RANGE
    ensures Core(k, Numbered(Refill(s, u, qty)))
  {
    var t := Numbered(Refill(s, u, qty));
    forall l | l in t.weapons
      ensures ArmedAt(k, t, l)
    {
      assert ArmedAt(k, s, l);
    }
    forall l | l in t.equip
      ensures WornAt(k, t, l)
    {
      assert WornAt(k, s, l);
    }
    FewerHeld(k, s, t);
  }

  /** dup is a stack of the same data, if there is one. */
  ghost predicate Stack(s: State, data: nat, dup: Option<nat>) {
    if dup.Some? then dup.value in s.uids && s.uids[dup.value].data == data
    else forall u :: u in s.uids ==> s.uids[u].data != data
  }

  lemma BuyOtherKeeps(k: Kinds, s: State, data: nat, qty: nat, dup: Option<nat>)
    requires k.Valid() && Sound(k, s) && !k.place(data).isWeapon && s.lastUid + 1 < COUNT_RANGE && Stack(s, data, dup)
    ensures Sound(k, BuyOther(k, s, data, qty, dup))
  {
    BuyOtherIs(k, s, data, qty, dup);
    if dup.Some? && !k.place(data).isArmor {
      RefillKeeps(k, s, dup.value, qty);
      WearPlain(k, s, Numbered(Refill(s, dup.value, qty)), data, dup.value);
    } else {
      BuyNewKeeps(k, s, data, qty);
    }
  }

  lemma BuyOtherIs(k: Kinds, s: State, data: nat, qty: nat, dup: Option<nat>)
    requires s.lastUid + 1 < COUNT_RANGE && (dup.Some? ==> dup.value in s.uids)
    ensures var p := k.place(data);
            BuyOther(k, s, data, qty, dup) ==
            if dup.Some? && !p.isArmor then
              if p.slot != NO_SLOT then Wear(Numbered(Refill(s, dup.value, qty)), p.slot, data, dup.value)
              else Numbered(Refill(s, dup.value, qty))
            else BuyNew(k, s, data, qty)
  {
  }

  function BuyNew(k: Kinds, s: State, data: nat, qty: nat): State {
    var p := k.place(data);
    var t := Fresh(s, data, qty, if p.isArmor then k.durability(data) else 0);
    if p.slot != NO_SLOT then Wear(t, p.slot, data, t.lastUid) else t
  }

  lemma BuyNewKeeps(k: Kinds, s: State, data: nat, qty: nat)
    requires k.Valid() && Sound(k, s) && !k.place(data).isWeapon && s.lastUid + 1 < COUNT_RANGE
    requires k.place(data).isArmor || forall u :: u in s.uids ==> s.uids[u].data != data
    ensures Sound(k, BuyNew(k, s, data, qty))
  {
    var runtime := if k.place(data).isArmor then k.durability(data) else 0;
    NewItem(k, s, data, qty, runtime);
    NobodyWears(k, s, s.lastUid + 1);
    WearPlain(k, s, Fresh(s, data, qty, runtime), data, s.lastUid + 1);
  }

  lemma WearPlain(k: Kinds, s: State, t: State, data: nat, u: nat)
    requires k.Valid() && Held(k, s) && Core(k, t) && t.equip == s.equip && t.weapons == s.weapons
    requires u in t.uids && t.uids[u].data == data && !k.place(data).isWeapon
    requires (k.place(data).isArmor || u !in s.uids) ==> NotWorn(s, u)
    ensures Core(k, Wear(t, k.place(data).slot, data, u))
  {
    var slot := k.place(data).slot;
    forall l | l in t.equip && l != slot
      ensures t.equip[l].unique != u
    {
      assert WornAt(k, t, l);
    }
    forall l | l in t.weapons
      ensures WeaponSlot(l)
    {
      assert ArmedAt(k, t, l);
    }
    WearHeld(k, t, slot, data, u);
    FewerHeld(k, t, Wear(t, slot, data, u));
  }

  /** The tables know the pistol as a weapon, the medkit and the gloo wall as what they are. */
  ghost predicate Standard(k: Kinds) {
    k.weapon(USP) && Plain(k, MEDKIT) && Plain(k, GLOO) && k.place(GLOO).slot == BUILDING
    && k.ammoOf(USP) == PISTOL_AMMO && !k.weapon(PISTOL_AMMO) && !k.consumable(PISTOL_AMMO)
  }

  lemma KitKeeps(k: Kinds, s: State, med: nat, usp: nat)
    requires k.Valid() && Standard(k) && med >= 2 && usp != med
    ensures Sound(k, Kit(s, med)) && Gone(Kit(s, med), usp) && Kit(s, med).lastUid == med
  {
    var bare := State(map[], map[], map[MELEE := Equipped(0, 0)], 0, map[], s.nextBox, med);
    assert Core(k, bare);
    TrackKeeps(k, bare, Item(med, MEDKIT, 2, 2));
  }

  lemma KitLacks(s: State, med: nat)
    ensures Lacks(Kit(s, med), GLOO)
  {
  }

  ghost predicate Lacks(s: State, data: nat) {
    forall u :: u in s.uids ==> s.uids[u].data != data
  }

  lemma {:induction false} AttachLacks(s: State, data: seq<nat>, d: nat)
    requires Lacks(s, d) && d !in data
    ensures Lacks(Attach(s, data), d)
    decreases |data|
  {
    if data != [] {
      AttachLacks(s, data[..|data| - 1], d);
    }
  }

  /** A loadout that is in order, with room for the pistol's uniques. */
  ghost predicate Ready(k: Kinds, s: State, usp: nat) {
    && k.Valid() && Standard(k) && Sound(k, s) && Gone(s, usp)
    && 1 <= usp <= s.lastUid && s.lastUid + 2 + |k.attachments(USP)| < COUNT_RANGE
  }

  ghost predicate Done(k: Kinds, s: State) {
    Sound(k, s) && s.lastUid + 1 < COUNT_RANGE
  }

  lemma PistolKeeps(k: Kinds, s: State, usp: nat)
    ensures Ready(k, s, usp) ==> Done(k, Pistol(k, s, usp))
  {
    if Ready(k, s, usp) {
      var it := Item(usp, USP, 1, k.clip(USP));
      var held := Wield(Track(s, it), SECONDARY, USP, usp, PISTOL_AMMO);
      InstallKeeps(k, s, it, SECONDARY);
      AttachKeeps(k, held, k.attachments(USP));
      ReserveKeeps(k, Attach(held, k.attachments(USP)), PISTOL_AMMO);
    }
  }

  lemma PistolLacks(k: Kinds, s: State, usp: nat, d: nat)
    requires k.Valid() && Standard(k) && k.consumable(d) && Lacks(s, d)
    ensures Lacks(Pistol(k, s, usp), d)
  {
    var held := Wield(Track(s, Item(usp, USP, 1, k.clip(USP))), SECONDARY, USP, usp, PISTOL_AMMO);
    AttachLacks(held, k.attachments(USP), d);
  }

  lemma GlooKeeps(k: Kinds, s: State)
    requires k.Valid() && Standard(k) && Sound(k, s) && s.lastUid + 1 < COUNT_RANGE
    requires k.consumable(GLOO) ==> Lacks(s, GLOO)
    ensures Sound(k, Gloo(s))
  {
    NewItem(k, s, GLOO, 5, 0);
    NobodyWears(k, s, s.lastUid + 1);
    WearPlain(k, s, Fresh(s, GLOO, 5, 0), GLOO, s.lastUid + 1);
  }

  lemma FillUpKeeps(k: Kinds, kit: State, usp: nat, noLoadout: bool, infiniteGloo: bool)
    ensures Ready(k, kit, usp) && Lacks(kit, GLOO) ==> Sound(k, FillUp(k, kit, usp, noLoadout, infiniteGloo))
  {
    if Ready(k, kit, usp) && Lacks(kit, GLOO) {
      PistolKeeps(k, kit, usp);
      if infiniteGloo {
        if k.consumable(GLOO) {
          PistolLacks(k, kit, usp, GLOO);
        }
        GlooKeeps(k, if noLoadout then kit else Pistol(k, kit, usp));
      }
    }
  }

  /** Whatever was held or lay around before, a fresh loadout satisfies the invariant. */
  lemma GiveLoadoutKeeps(k: Kinds, s: State, noLoadout: bool, infiniteGloo: bool)
    requires k.Valid() && Standard(k) && s.lastUid + 4 + |k.attachments(USP)| < COUNT_RANGE
    ensures var t := GiveLoadout(k, s, noLoadout, infiniteGloo); var sound := Sound(k, t); sound
  {
    var usp, med := s.lastUid + 1, s.lastUid + 2;
    GiveLoadoutIs(k, s, noLoadout, infiniteGloo, usp, med);
    KitKeeps(k, s, med, usp);
    KitLacks(s, med);
    FillUpKeeps(k, Kit(s, med), usp, noLoadout, infiniteGloo);
  }

  lemma GiveLoadoutIs(k: Kinds, s: State, noLoadout: bool, infiniteGloo: bool, usp: nat, med: nat)
    requires usp == s.lastUid + 1 && med == s.lastUid + 2 < COUNT_RANGE
    ensures GiveLoadout(k, s, noLoadout, infiniteGloo) == FillUp(k, Kit(s, med), usp, noLoadout, infiniteGloo)
  {
  }

  lemma ReissueKeeps(k: Kinds, s: State, med: Option<nat>)
    requires k.Valid() && Standard(k) && Sound(k, s) && Stack(s, MEDKIT, med) && s.lastUid + 1 < COUNT_RANGE
    ensures Sound(k, Reissue(s, med))
  {
    if med.Some? {
      RestockKeeps(k, s, med.value);
    } else {
      NewItem(k, s, MEDKIT, 2, 2);
    }
  }

  lemma RestockKeeps(k: Kinds, s: State, u: nat)
    requires k.Valid() && Sound(k, s) && u in s.uids && Plain(k, s.uids[u].data)
    ensures Sound(k, Track(s, Item(u, s.uids[u].data, 2, 2)))
  {
    var t := Track(s, Item(u, s.uids[u].data, 2, 2));
    forall l | l in t.weapons
      ensures ArmedAt(k, t, l)
    {
      assert ArmedAt(k, s, l);
    }
    forall l | l in t.equip
      ensures WornAt(k, t, l)
    {
      assert WornAt(k, s, l);
    }
    FewerHeld(k, s, t);
  }
}
