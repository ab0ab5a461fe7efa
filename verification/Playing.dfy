/**
 Whole runs of what a player can do to the inventory and the ground: drops, pickups, purchases, refills, gloo walls,
 medkits used and fresh loadouts. The invariant holds in every reachable state, and every stack is accounted for as long
 as a new box never takes the place of one that is still there, which is so for 25536 new boxes and no longer.
 */
module Playing {
  import opened Conservation
  import opened Inventory
  import opened Results
  import GlooWalls

  datatype Act =
    | Moving(m: Move)
    | BuyingWeapon(data: nat, near: Option<nat>)
    | BuyingOther(data: nat, qty: nat, dup: Option<nat>)
    | Reissuing(med: Option<nat>)
    | Walling(u: nat, infinite: bool, heldBefore: nat)
    | Using(u: nat)
    | Issuing(noLoadout: bool, infiniteGloo: bool)

  /** handleUseInventory: one less, and an empty stack stays. */
  function UseOne(s: State, u: nat): State
    requires u in s.uids
  {
    if s.uids[u].count > 0 then GlooWalls.OneSpent(s, u) else s
  }

  /** The act is one the code can make in the state. */
  ghost predicate Can(k: Kinds, s: State, a: Act) {
    match a
    case Moving(m) => Enabled(k, s, m)
    case BuyingWeapon(data, _) => k.place(data).isWeapon
    case BuyingOther(data, _, dup) => !k.place(data).isWeapon && Stack(s, data, dup)
    case Reissuing(med) => Stack(s, MEDKIT, med)
    case Walling(u, _, _) => u in s.uids && s.uids[u].count > 0 && s.uids[u].data == GLOO
    case Using(u) => u in s.uids && Plain(k, s.uids[u].data) && !k.weapon(s.uids[u].data)
    case Issuing(_, _) => true
  }

  ghost function Done(k: Kinds, s: State, a: Act): State
    requires Can(k, s, a)
  {
    match a
    case Moving(m) => After(k, s, m)
    case BuyingWeapon(data, near) => BuyWeapon(k, s, data, near)
    case BuyingOther(data, qty, dup) => BuyOther(k, s, data, qty, dup)
    case Reissuing(med) => Reissue(s, med)
    case Walling(u, infinite, heldBefore) => GlooWalls.Paid(s, u, infinite, heldBefore)
    case Using(u) => UseOne(s, u)
    case Issuing(noLoadout, infiniteGloo) => GiveLoadout(k, s, noLoadout, infiniteGloo)
  }

  /** How many uniques the act hands out at most. */
  function Uids(k: Kinds, a: Act): nat {
    match a
    case Moving(m) => Issues(k, m)
    case BuyingWeapon(data, _) => 2 + |k.attachments(data)|
    case BuyingOther(_, _, _) => 1
    case Reissuing(_) => 1
    case Walling(_, _, _) => 0
    case Using(_) => 0
    case Issuing(_, _) => 4 + |k.attachments(USP)|
  }

  function AllUids(k: Kinds, acts: seq<Act>): nat {
    if acts == [] then 0 else Uids(k, acts[0]) + AllUids(k, acts[1..])
  }

  ghost predicate Able(k: Kinds, s: State, acts: seq<Act>)
    decreases |acts|
  {
    acts == [] || (Can(k, s, acts[0]) && Able(k, Done(k, s, acts[0]), acts[1..]))
  }

  ghost function Run(k: Kinds, s: State, acts: seq<Act>): State
    requires Able(k, s, acts)
    decreases |acts|
  {
    if acts == [] then s else Run(k, Done(k, s, acts[0]), acts[1..])
  }

  // ----- Every act keeps the invariant -----

  lemma {:induction false} AttachUid(s: State, more: seq<nat>)
    requires s.lastUid + |more| < COUNT_RANGE
    ensures Attach(s, more).lastUid == s.lastUid + |more|
    decreases |more|
  {
    if more != [] {
      AttachUid(s, more[..|more| - 1]);
      FreshIs(Attach(s, more[..|more| - 1]), more[|more| - 1], 1, 0);
    }
  }

  lemma ReserveUid(k: Kinds, s: State, ammo: nat)
    requires s.lastUid + 1 < COUNT_RANGE
    ensures s.lastUid <= Reserve(k, s, ammo).lastUid <= s.lastUid + 1
  {
    FreshIs(s, ammo, k.reserve(ammo), 0);
  }

  lemma PickWeaponUid(k: Kinds, s: State, c: nat, it: Item, near: Option<nat>)
    requires c in s.boxes && s.lastUid + |k.attachments(it.data)| < COUNT_RANGE
    ensures PickWeapon(k, s, c, it, near).lastUid == s.lastUid + |k.attachments(it.data)|
  {
    var slot := SlotFor(k, s, it.data);
    AttachUid(Draw(k, Take(s, c, it.unique), it, slot), k.attachments(it.data));
  }

  lemma IssuedUids(k: Kinds, s: State, data: nat)
    requires s.lastUid + 2 + |k.attachments(data)| < COUNT_RANGE
    ensures s.lastUid <= Issued(k, s, data).lastUid <= s.lastUid + 2 + |k.attachments(data)|
  {
    var got := Fresh(s, data, 1, k.clip(data));
    FreshIs(s, data, 1, k.clip(data));
    ReserveUid(k, got, k.place(data).ammo);
    AttachUid(Reserve(k, got, k.place(data).ammo), k.attachments(data));
  }

  lemma BuyWeaponUid(k: Kinds, s: State, data: nat, near: Option<nat>)
    ensures BuyWeapon(k, s, data, near).lastUid == Issued(k, s, data).lastUid
  {
  }

  lemma PistolUid(k: Kinds, s: State, usp: nat)
    requires s.lastUid + 1 + |k.attachments(USP)| < COUNT_RANGE
    ensures Pistol(k, s, usp).lastUid <= s.lastUid + 1 + |k.attachments(USP)|
  {
    var t := Wield(Track(s, Item(usp, USP, 1, k.clip(USP))), SECONDARY, USP, usp, PISTOL_AMMO);
    AttachUid(t, k.attachments(USP));
    ReserveUid(k, Attach(t, k.attachments(USP)), PISTOL_AMMO);
  }

  lemma GiveLoadoutUid(k: Kinds, s: State, noLoadout: bool, infiniteGloo: bool)
    requires s.lastUid + 4 + |k.attachments(USP)| < COUNT_RANGE
    ensures GiveLoadout(k, s, noLoadout, infiniteGloo).lastUid <= s.lastUid + 4 + |k.attachments(USP)|
  {
    var usp, med := s.lastUid + 1, s.lastUid + 2;
    GiveLoadoutIs(k, s, noLoadout, infiniteGloo, usp, med);
    var kit := Kit(s, med);
    PistolUid(k, kit, usp);
    FreshIs(if noLoadout then kit else Pistol(k, kit, usp), GLOO, 5, 0);
  }

  lemma MoveUid(k: Kinds, s: State, m: Move)
    requires Enabled(k, s, m) && s.lastUid + Issues(k, m) < COUNT_RANGE
    ensures After(k, s, m).lastUid == s.lastUid + Issues(k, m)
  {
    if m.PickingWeapon? {
      PickWeaponUid(k, s, m.c, m.it, m.near);
    }
  }

  lemma ActUid(k: Kinds, s: State, a: Act)
    requires Can(k, s, a) && s.lastUid + Uids(k, a) < COUNT_RANGE
    ensures Done(k, s, a).lastUid <= s.lastUid + Uids(k, a)
  {
    match a
    case Moving(m) => MoveUid(k, s, m);
    case BuyingWeapon(data, near) =>
      IssuedUids(k, s, data);
      BuyWeaponUid(k, s, data, near);
    case BuyingOther(data, qty, dup) => BuyOtherIs(k, s, data, qty, dup);
    case Reissuing(med) =>
    case Walling(_, _, _) =>
    case Using(_) =>
    case Issuing(noLoadout, infiniteGloo) => GiveLoadoutUid(k, s, noLoadout, infiniteGloo);
  }

  lemma WallingKeeps(k: Kinds, s: State, u: nat, infinite: bool, heldBefore: nat)
    requires k.Valid() && Standard(k) && Sound(k, s) && Can(k, s, Walling(u, infinite, heldBefore))
    ensures Sound(k, GlooWalls.Paid(s, u, infinite, heldBefore))
  {
    if !infinite {
      var t := GlooWalls.Spend(s, u);
      GlooWalls.SpendKeeps(k, s, u);
      OtherHand(k, t, GlooWalls.Switched(t, heldBefore));
    }
  }

  lemma UsingKeeps(k: Kinds, s: State, u: nat)
    requires Sound(k, s) && Can(k, s, Using(u))
    ensures Sound(k, UseOne(s, u))
  {
    if s.uids[u].count > 0 {
      GlooWalls.OneSpentKeeps(k, s, u);
      FewerHeld(k, s, GlooWalls.OneSpent(s, u));
    }
  }

  /** Every act keeps the inventory invariant; a fresh loadout establishes it. */
  lemma ActKeeps(k: Kinds, s: State, a: Act)
    requires k.Valid() && Standard(k) && Can(k, s, a) && (Sound(k, s) || a.Issuing?)
    requires s.lastUid + Uids(k, a) < COUNT_RANGE
    ensures var sound := Sound(k, Done(k, s, a)); sound
  {
    match a
    case Moving(m) => MoveKeeps(k, s, m);
    case BuyingWeapon(data, near) => BuyWeaponKeeps(k, s, data, near);
    case BuyingOther(data, qty, dup) => BuyOtherKeeps(k, s, data, qty, dup);
    case Reissuing(med) => ReissueKeeps(k, s, med);
    case Walling(u, infinite, heldBefore) => WallingKeeps(k, s, u, infinite, heldBefore);
    case Using(u) => UsingKeeps(k, s, u);
    case Issuing(noLoadout, infiniteGloo) => GiveLoadoutKeeps(k, s, noLoadout, infiniteGloo);
  }

  /** So the invariant holds in every state that a run reaches, until the uniques run out. */
  lemma {:induction false} RunKeeps(k: Kinds, s: State, acts: seq<Act>)
    requires k.Valid() && Standard(k) && Sound(k, s) && Able(k, s, acts)
    requires s.lastUid + AllUids(k, acts) < COUNT_RANGE
    ensures Sound(k, Run(k, s, acts))
    decreases |acts|
  {
    if acts != [] {
      ActKeeps(k, s, acts[0]);
      ActUid(k, s, acts[0]);
      RunKeeps(k, Done(k, s, acts[0]), acts[1..]);
    }
  }

  /** In particular in every state reached from a fresh loadout, whatever was held before. */
  lemma AlwaysSound(k: Kinds, s: State, noLoadout: bool, infiniteGloo: bool, acts: seq<Act>)
    requires k.Valid() && Standard(k) && Able(k, GiveLoadout(k, s, noLoadout, infiniteGloo), acts)
    requires s.lastUid + 4 + |k.attachments(USP)| + AllUids(k, acts) < COUNT_RANGE
    ensures Sound(k, Run(k, GiveLoadout(k, s, noLoadout, infiniteGloo), acts))
  {
    GiveLoadoutKeeps(k, s, noLoadout, infiniteGloo);
    GiveLoadoutUid(k, s, noLoadout, infiniteGloo);
    RunKeeps(k, GiveLoadout(k, s, noLoadout, infiniteGloo), acts);
  }

  // ----- How old the boxes are -----

  const BAND := 25_536

  predicate InBand(c: nat) {
    40_000 <= c <= 65_535
  }

  /** How many boxes ago the id was last handed out: 1 for the newest box, BAND for the id that is next. */
  function Ago(next: nat, c: nat): int {
    if c < next then next - c else next - c + BAND
  }

  /** Every box has one of the last n ids handed out. */
  ghost predicate Recent(s: State, n: nat) {
    forall c :: c in s.boxes ==> InBand(c) && Ago(BoxID(s), c) <= n
  }

  /** A box that the geometry picked is there. */
  predicate Nearby(s: State, near: Option<nat>) {
    near.Some? && near.value in s.boxes
  }

  /** With fewer than BAND boxes since, the next id is free. */
  lemma RecentRoom(s: State, near: Option<nat>, n: nat)
    requires Recent(s, n) && n < BAND
    ensures RoomFor(s, near)
  {
    assert Ago(BoxID(s), BoxID(s)) == BAND;
  }

  function Succ(id: nat): nat {
    if id == BOX_MAX then BOX_BASE else id + 1
  }

  lemma AgoSucc(next: nat, c: nat)
    requires InBand(next) && InBand(c)
    ensures Ago(Succ(next), c) == if c == next then 1 else Ago(next, c) + 1
  {
  }

  lemma GroundRecent(s: State, it: Item, near: Option<nat>, n: nat)
    requires Recent(s, n)
    ensures Recent(Ground(s, it, near), if Nearby(s, near) then n else n + 1)
  {
    var t := Ground(s, it, near);
    forall c | c in t.boxes && InBand(c)
      ensures Ago(BoxID(t), c) <= if Nearby(s, near) then n else n + 1
    {
      AgoSucc(BoxID(s), c);
    }
  }

  lemma FewerRecent(s: State, t: State, n: nat)
    requires Recent(s, n) && t.boxes.Keys <= s.boxes.Keys && t.nextBox == s.nextBox
    ensures Recent(t, n)
  {
  }

  /** Whether the act puts something on the ground, and where the geometry would have it. */
  ghost predicate PutsDown(k: Kinds, s: State, a: Act) {
    match a
    case Moving(Dropping(u, _)) => u != 0 && u in s.uids
    case Moving(PickingWeapon(_, it, _)) => SlotFor(k, s, it.data) in s.weapons
    case BuyingWeapon(data, _) => BoughtSlot(k, s, data) in s.weapons
    case _ => false
  }

  function Where(a: Act): Option<nat> {
    match a
    case Moving(Dropping(_, near)) => near
    case Moving(PickingWeapon(_, _, near)) => near
    case BuyingWeapon(_, near) => near
    case _ => None
  }

  /** The boxes that the act makes: one if something goes to the ground and none is near. */
  ghost function NewBox(k: Kinds, s: State, a: Act): nat {
    if PutsDown(k, s, a) && !Nearby(s, Where(a)) then 1 else 0
  }

  /** The number of boxes made since the ground was last cleared, if it was n before the act. */
  ghost function Since(k: Kinds, s: State, a: Act, n: nat): nat {
    if a.Issuing? then 0 else n + NewBox(k, s, a)
  }

  lemma PickWeaponRecent(k: Kinds, s: State, c: nat, it: Item, near: Option<nat>, n: nat)
    requires c in s.boxes && Recent(s, n)
    ensures Recent(PickWeapon(k, s, c, it, near), n + NewBox(k, s, Moving(PickingWeapon(c, it, near))))
  {
    var slot := SlotFor(k, s, it.data);
    var armed := Arm(k, Take(s, c, it.unique), it, slot);
    ArmBox(k, Take(s, c, it.unique), it, slot);
    FewerRecent(s, armed, n);
    PutDownRecent(k, s, armed, slot, c, near, n);
  }

  lemma PutDownRecent(k: Kinds, s: State, armed: State, slot: nat, c: nat, near: Option<nat>, n: nat)
    requires c in armed.boxes && Recent(armed, n)
    ensures Recent(PutDown(k, s, armed, slot, c, near),
                   if slot in s.weapons && !Nearby(armed, near) then n + 1 else n)
  {
    if slot in s.weapons {
      GroundRecent(armed, Loot(k, s.weapons[slot]), near, n);
    }
  }

  lemma IssuedBoxes(k: Kinds, s: State, data: nat)
    ensures Issued(k, s, data).boxes == s.boxes && Issued(k, s, data).nextBox == s.nextBox
  {
    AttachBox(Reserve(k, Fresh(s, data, 1, k.clip(data)), k.place(data).ammo), k.attachments(data));
  }

  lemma BuyWeaponRecent(k: Kinds, s: State, data: nat, near: Option<nat>, n: nat)
    requires Recent(s, n)
    ensures Recent(BuyWeapon(k, s, data, near), n + NewBox(k, s, BuyingWeapon(data, near)))
  {
    var slot, t := BoughtSlot(k, s, data), Bought(k, s, data);
    IssuedBoxes(k, s, data);
    FewerRecent(s, t, n);
    BuyWeaponIs(k, s, data, near);
    if slot in s.weapons {
      GroundRecent(t, Loot(k, s.weapons[slot]), near, n);
    }
  }

  lemma {:induction false} GiveLoadoutClears(k: Kinds, s: State, noLoadout: bool, infiniteGloo: bool)
    ensures GiveLoadout(k, s, noLoadout, infiniteGloo).boxes == map[]
  {
  }

  /** An act makes every box one id older if it makes a new one, and a fresh loadout clears the ground. */
  lemma ActRecent(k: Kinds, s: State, a: Act, n: nat)
    requires Can(k, s, a) && Recent(s, n)
    ensures Recent(Done(k, s, a), Since(k, s, a, n))
  {
    match a
    case Moving(m) => MoveRecent(k, s, m, n);
    case BuyingWeapon(data, near) => BuyWeaponRecent(k, s, data, near, n);
    case BuyingOther(_, _, _) => FewerRecent(s, Done(k, s, a), n);
    case Reissuing(_) => FewerRecent(s, Done(k, s, a), n);
    case Walling(_, _, _) => FewerRecent(s, Done(k, s, a), n);
    case Using(_) => FewerRecent(s, Done(k, s, a), n);
    case Issuing(noLoadout, infiniteGloo) => GiveLoadoutClears(k, s, noLoadout, infiniteGloo);
  }

  lemma MoveRecent(k: Kinds, s: State, m: Move, n: nat)
    requires Enabled(k, s, m) && Recent(s, n)
    ensures Recent(After(k, s, m), n + NewBox(k, s, Moving(m)))
  {
    match m
    case Dropping(u, near) =>
      if u != 0 && u in s.uids {
        FewerRecent(s, Remove(s, u), n);
        GroundRecent(Remove(s, u), s.uids[u], near, n);
      }
    case PickingWeapon(c, it, near) => PickWeaponRecent(k, s, c, it, near, n);
    case PickingOther(c, it, dup, slot) => FewerRecent(s, After(k, s, m), n);
  }

  // ----- What each act makes and uses up -----

  function If(c: bool, n: nat): nat {
    if c then n else 0
  }

  /** How much of the data the act issues. */
  function Made(k: Kinds, a: Act, d: nat): nat {
    match a
    case Moving(_) => 0
    case BuyingWeapon(data, _) => If(data == d, 1) + If(k.place(data).ammo == d && d != 0, k.reserve(d))
    case BuyingOther(data, qty, _) => If(data == d, qty)
    case Reissuing(_) => If(d == MEDKIT, 2)
    case Walling(_, _, _) => 0
    case Using(_) => 0
    case Issuing(noLoadout, infiniteGloo) =>
      If(d == MEDKIT, 2) + If(!noLoadout && d == USP, 1) + If(!noLoadout && d == PISTOL_AMMO, k.reserve(d))
      + If(infiniteGloo && d == GLOO, 5)
  }

  /**
   How much of the data the act uses up: a wall, what is used, the medkits that are replaced, everything when a loadout
   starts over, and what a 32-bit count drops of a sum.
   */
  ghost function Used(k: Kinds, s: State, a: Act, d: nat): nat
    requires Can(k, s, a)
  {
    match a
    case Moving(m) => Spill(s, m, d)
    case BuyingWeapon(_, _) => 0
    case BuyingOther(data, qty, dup) =>
      If(data == d && !k.place(data).isArmor, if dup.Some? then Excess(s.uids[dup.value].count + qty) else 0)
    case Reissuing(med) => If(d == MEDKIT, if med.Some? then s.uids[med.value].count else 0)
    case Walling(_, infinite, _) => If(d == GLOO && !infinite, 1)
    case Using(u) => If(d == s.uids[u].data && s.uids[u].count > 0, 1)
    case Issuing(_, _) => Total(s, d)
  }

  /** A new stack adds what it holds. */
  lemma FreshTotal(s: State, data: nat, count: nat, runtime: nat, d: nat)
    requires Known(s) && s.lastUid + 1 < COUNT_RANGE
    ensures Total(Fresh(s, data, count, runtime), d) == Total(s, d) + If(data == d, count)
  {
    FreshIs(s, data, count, runtime);
    TrackTotal(Numbered(s), Item(s.lastUid + 1, data, count, runtime), d);
  }

  lemma ReserveTotal(k: Kinds, s: State, ammo: nat, d: nat)
    requires Core(k, s) && s.lastUid + 1 < COUNT_RANGE
    ensures Total(Reserve(k, s, ammo), d) == Total(s, d) + If(ammo == d && d != 0, k.reserve(d))
  {
    if ammo != 0 {
      FreshTotal(s, ammo, k.reserve(ammo), 0, d);
    }
  }

  lemma IssuedTotal(k: Kinds, s: State, data: nat, d: nat)
    requires k.Valid() && Core(k, s) && k.place(data).isWeapon && NoAttachment(k, d)
    requires s.lastUid + 2 + |k.attachments(data)| < COUNT_RANGE
    ensures Total(Issued(k, s, data), d) == Total(s, d) + Made(k, BuyingWeapon(data, None), d)
  {
    var p := k.place(data);
    var got := Fresh(s, data, 1, k.clip(data));
    NewItem(k, s, data, 1, k.clip(data));
    FreshTotal(s, data, 1, k.clip(data), d);
    ReserveKeeps(k, got, p.ammo);
    ReserveTotal(k, got, p.ammo, d);
    AttachTotal(k, Reserve(k, got, p.ammo), k.attachments(data), d);
  }

  /** The weapon that a new one overrides. */
  lemma OverriddenItem(k: Kinds, s: State, kept: State, slot: nat, d: nat)
    requires Core(k, s) && Extends(s, kept) && slot in s.weapons
    ensures var o := s.weapons[slot].unique;
            o != 0 && o in kept.uids && Amount(kept.uids[o], d) == Amount(Loot(k, s.weapons[slot]), d)
  {
    assert ArmedAt(k, s, slot);
  }

  /** What is overridden leaves the tracking and lies on the ground instead. */
  lemma OverrideTotal(kept: State, it: Item, t: State, near: Option<nat>, d: nat)
    requires it.unique != 0 && it.unique in kept.uids && Amount(kept.uids[it.unique], d) == Amount(it, d)
    requires t.uids == kept.uids - {it.unique} && t.boxes == kept.boxes && RoomFor(t, near)
    ensures Total(Ground(t, it, near), d) == Total(kept, d)
  {
    HeldWithout(kept.uids, it.unique, d);
    GroundTotal(t, it, near, d);
  }

  lemma BuyWeaponTotal(k: Kinds, s: State, data: nat, near: Option<nat>, d: nat)
    requires k.Valid() && Core(k, s) && k.place(data).isWeapon && NoAttachment(k, d)
    requires s.lastUid + 2 + |k.attachments(data)| < COUNT_RANGE
    requires BoughtSlot(k, s, data) in s.weapons ==> RoomFor(s, near)
    ensures Total(BuyWeapon(k, s, data, near), d) == Total(s, d) + Made(k, BuyingWeapon(data, near), d)
  {
    IssuedTotal(k, s, data, d);
    IssuedKeeps(k, s, data);
    BuyWeaponKept(k, s, data, near, Issued(k, s, data), d);
  }

  lemma BuyWeaponKept(k: Kinds, s: State, data: nat, near: Option<nat>, kept: State, d: nat)
    requires Core(k, s) && kept == Issued(k, s, data) && Extends(s, kept)
    requires BoughtSlot(k, s, data) in s.weapons ==> RoomFor(s, near)
    ensures Total(BuyWeapon(k, s, data, near), d) == Total(kept, d)
  {
    var slot := BoughtSlot(k, s, data);
    BuyWeaponIs(k, s, data, near);
    if slot in s.weapons {
      OverriddenItem(k, s, kept, slot, d);
      OverrideTotal(kept, Loot(k, s.weapons[slot]), Bought(k, s, data), near, d);
    }
  }

  lemma RefillIs(s: State, u: nat, qty: nat, n: nat)
    requires u in s.uids && n + Excess(s.uids[u].count + qty) == s.uids[u].count + qty
    ensures Numbered(Refill(s, u, qty)) == Numbered(s).(uids := s.uids[u := s.uids[u].(count := n)])
  {
  }

  lemma RefillTotal(s: State, u: nat, qty: nat, d: nat)
    requires u in s.uids
    ensures Total(Numbered(Refill(s, u, qty)), d) + If(s.uids[u].data == d, Excess(s.uids[u].count + qty)) ==
            Total(s, d) + If(s.uids[u].data == d, qty)
  {
    var sum := s.uids[u].count + qty;
    RefillIs(s, u, qty, sum - Excess(sum));
    HeldChange(s.uids, u, s.uids[u].(count := sum - Excess(sum)), d);
  }

  lemma WearTotal(s: State, slot: nat, data: nat, u: nat, d: nat)
    ensures Total(if slot != NO_SLOT then Wear(s, slot, data, u) else s, d) == Total(s, d)
  {
  }

  /** A repeat buy joins its stack; anything else is a new one. */
  ghost predicate Joins(k: Kinds, data: nat, dup: Option<nat>) {
    dup.Some? && !k.place(data).isArmor
  }

  lemma BuyOtherIsTotal(k: Kinds, s: State, data: nat, qty: nat, dup: Option<nat>, d: nat)
    requires s.lastUid + 1 < COUNT_RANGE && (dup.Some? ==> dup.value in s.uids)
    ensures Total(BuyOther(k, s, data, qty, dup), d) ==
            if Joins(k, data, dup) then Total(Numbered(Refill(s, dup.value, qty)), d)
            else Total(Fresh(s, data, qty, if k.place(data).isArmor then k.durability(data) else 0), d)
  {
    BuyOtherIs(k, s, data, qty, dup);
    var slot := k.place(data).slot;
    if Joins(k, data, dup) {
      WearTotal(Numbered(Refill(s, dup.value, qty)), slot, data, dup.value, d);
    } else {
      var t := Fresh(s, data, qty, if k.place(data).isArmor then k.durability(data) else 0);
      WearTotal(t, slot, data, t.lastUid, d);
    }
  }

  lemma JoinTotal(k: Kinds, s: State, data: nat, qty: nat, dup: nat, r: State, d: nat)
    requires Can(k, s, BuyingOther(data, qty, Some(dup))) && !k.place(data).isArmor
    requires Total(r, d) == Total(Numbered(Refill(s, dup, qty)), d)
    ensures Total(r, d) + Used(k, s, BuyingOther(data, qty, Some(dup)), d) == Total(s, d) + If(data == d, qty)
  {
    RefillTotal(s, dup, qty, d);
  }

  lemma NewTotal(k: Kinds, s: State, data: nat, qty: nat, dup: Option<nat>, r: State, d: nat)
    requires Known(s) && Can(k, s, BuyingOther(data, qty, dup)) && !Joins(k, data, dup) && s.lastUid + 1 < COUNT_RANGE
    requires Total(r, d) == Total(Fresh(s, data, qty, if k.place(data).isArmor then k.durability(data) else 0), d)
    ensures Total(r, d) + Used(k, s, BuyingOther(data, qty, dup), d) == Total(s, d) + If(data == d, qty)
  {
    FreshTotal(s, data, qty, if k.place(data).isArmor then k.durability(data) else 0, d);
  }

  lemma BuyOtherTotal(k: Kinds, s: State, data: nat, qty: nat, dup: Option<nat>, d: nat)
    requires Known(s) && Can(k, s, BuyingOther(data, qty, dup)) && s.lastUid + 1 < COUNT_RANGE
    ensures var r, uses := BuyOther(k, s, data, qty, dup), Used(k, s, BuyingOther(data, qty, dup), d);
            Total(r, d) + uses == Total(s, d) + If(data == d, qty)
  {
    BuyOtherIsTotal(k, s, data, qty, dup, d);
    if Joins(k, data, dup) {
      JoinTotal(k, s, data, qty, dup.value, BuyOther(k, s, data, qty, dup), d);
    } else {
      NewTotal(k, s, data, qty, dup, BuyOther(k, s, data, qty, dup), d);
    }
  }

  lemma RestockTotal(s: State, u: nat, d: nat)
    requires u in s.uids && s.uids[u].data == MEDKIT
    ensures Total(Track(s, Item(u, MEDKIT, 2, 2)), d) + If(d == MEDKIT, s.uids[u].count) ==
            Total(s, d) + If(d == MEDKIT, 2)
  {
    HeldChange(s.uids, u, Item(u, MEDKIT, 2, 2), d);
  }

  lemma ReissueTotal(k: Kinds, s: State, med: Option<nat>, d: nat)
    requires Known(s) && Stack(s, MEDKIT, med) && s.lastUid + 1 < COUNT_RANGE
    ensures var uses := Used(k, s, Reissuing(med), d);
            Total(Reissue(s, med), d) + uses == Total(s, d) + Made(k, Reissuing(med), d)
  {
    match med
    case Some(u) => RestockTotal(s, u, d);
    case None => FreshTotal(s, MEDKIT, 2, 2, d);
  }

  lemma WallingTotal(k: Kinds, s: State, u: nat, infinite: bool, heldBefore: nat, d: nat)
    requires Can(k, s, Walling(u, infinite, heldBefore))
    ensures Total(GlooWalls.Paid(s, u, infinite, heldBefore), d) + Used(k, s, Walling(u, infinite, heldBefore), d) ==
            Total(s, d)
  {
    if !infinite {
      GlooWalls.SpendsOne(s, u, d);
    }
  }

  lemma UsingTotal(k: Kinds, s: State, u: nat, d: nat)
    requires Can(k, s, Using(u))
    ensures Total(UseOne(s, u), d) + Used(k, s, Using(u), d) == Total(s, d)
  {
    if s.uids[u].count > 0 {
      GlooWalls.OneSpentTotal(s, u, d);
    }
  }

  lemma KitTotal(s: State, med: nat, d: nat)
    ensures Total(Kit(s, med), d) == If(d == MEDKIT, 2)
  {
    var bare := State(map[], map[], map[MELEE := Equipped(0, 0)], 0, map[], s.nextBox, med);
    assert Total(bare, d) == 0;
    TrackTotal(bare, Item(med, MEDKIT, 2, 2), d);
  }

  lemma PistolTotal(k: Kinds, s: State, usp: nat, d: nat)
    requires Ready(k, s, usp) && NoAttachment(k, d)
    ensures Total(Pistol(k, s, usp), d) == Total(s, d) + If(d == USP, 1) + If(d == PISTOL_AMMO, k.reserve(d))
  {
    var it := Item(usp, USP, 1, k.clip(USP));
    var held := Wield(Track(s, it), SECONDARY, USP, usp, PISTOL_AMMO);
    TrackTotal(s, it, d);
    InstallKeeps(k, s, it, SECONDARY);
    AttachTotal(k, held, k.attachments(USP), d);
    AttachKeeps(k, held, k.attachments(USP));
    ReserveTotal(k, Attach(held, k.attachments(USP)), PISTOL_AMMO, d);
  }

  lemma FillUpTotal(k: Kinds, kit: State, usp: nat, noLoadout: bool, infiniteGloo: bool, d: nat)
    requires Ready(k, kit, usp) && NoAttachment(k, d)
    ensures Total(FillUp(k, kit, usp, noLoadout, infiniteGloo), d) ==
            Total(kit, d) + If(!noLoadout && d == USP, 1) + If(!noLoadout && d == PISTOL_AMMO, k.reserve(d))
            + If(infiniteGloo && d == GLOO, 5)
  {
    var armed := if noLoadout then kit else Pistol(k, kit, usp);
    PistolTotal(k, kit, usp, d);
    PistolKeeps(k, kit, usp);
    FreshTotal(armed, GLOO, 5, 0, d);
  }

  lemma KitReady(k: Kinds, s: State, usp: nat, med: nat)
    requires k.Valid() && Standard(k) && usp == s.lastUid + 1 && med == s.lastUid + 2
    requires s.lastUid + 4 + |k.attachments(USP)| < COUNT_RANGE
    ensures Ready(k, Kit(s, med), usp)
  {
    KitKeeps(k, s, med, usp);
  }

  lemma FilledKitTotal(k: Kinds, kit: State, usp: nat, noLoadout: bool, infiniteGloo: bool, d: nat)
    requires Ready(k, kit, usp) && NoAttachment(k, d) && Total(kit, d) == If(d == MEDKIT, 2)
    ensures Total(FillUp(k, kit, usp, noLoadout, infiniteGloo), d) == Made(k, Issuing(noLoadout, infiniteGloo), d)
  {
    FillUpTotal(k, kit, usp, noLoadout, infiniteGloo, d);
  }

  lemma GiveLoadoutTotal(k: Kinds, s: State, noLoadout: bool, infiniteGloo: bool, d: nat)
    requires k.Valid() && Standard(k) && s.lastUid + 4 + |k.attachments(USP)| < COUNT_RANGE && NoAttachment(k, d)
    ensures var given := GiveLoadout(k, s, noLoadout, infiniteGloo); var all := Total(given, d);
            all == Made(k, Issuing(noLoadout, infiniteGloo), d)
  {
    var usp, med := s.lastUid + 1, s.lastUid + 2;
    KitReady(k, s, usp, med);
    KitTotal(s, med, d);
    FilledKitTotal(k, Kit(s, med), usp, noLoadout, infiniteGloo, d);
    GiveLoadoutIs(k, s, noLoadout, infiniteGloo, usp, med);
  }

  /** If the act puts something on the ground, no box is in the way of a new one. */
  ghost predicate Roomy(k: Kinds, s: State, a: Act) {
    PutsDown(k, s, a) ==> RoomFor(s, Where(a))
  }

  /** An act with room adds what it makes and takes what it uses up, of everything but attachments. */
  lemma ActTotal(k: Kinds, s: State, a: Act, d: nat)
    requires k.Valid() && Standard(k) && Sound(k, s) && Can(k, s, a) && s.lastUid + Uids(k, a) < COUNT_RANGE
    requires Roomy(k, s, a) && NoAttachment(k, d)
    ensures Total(Done(k, s, a), d) + Used(k, s, a, d) == Total(s, d) + Made(k, a, d)
  {
    match a
    case Moving(m) => MoveConserves(k, s, m, d);
    case BuyingWeapon(data, near) => BuyWeaponTotal(k, s, data, near, d);
    case BuyingOther(data, qty, dup) => BuyOtherTotal(k, s, data, qty, dup, d);
    case Reissuing(med) => ReissueTotal(k, s, med, d);
    case Walling(u, infinite, heldBefore) => WallingTotal(k, s, u, infinite, heldBefore, d);
    case Using(u) => UsingTotal(k, s, u, d);
    case Issuing(noLoadout, infiniteGloo) => GiveLoadoutTotal(k, s, noLoadout, infiniteGloo, d);
  }

  // ----- What a run makes and uses up -----

  function AllMade(k: Kinds, acts: seq<Act>, d: nat): nat {
    if acts == [] then 0 else Made(k, acts[0], d) + AllMade(k, acts[1..], d)
  }

  ghost function AllUsed(k: Kinds, s: State, acts: seq<Act>, d: nat): nat
    requires Able(k, s, acts)
    decreases |acts|
  {
    if acts == [] then 0 else Used(k, s, acts[0], d) + AllUsed(k, Done(k, s, acts[0]), acts[1..], d)
  }

  /** The number of boxes made since the ground was last cleared, n before the run. */
  ghost function AllSince(k: Kinds, s: State, acts: seq<Act>, n: nat): nat
    requires Able(k, s, acts)
    decreases |acts|
  {
    if acts == [] then n else AllSince(k, Done(k, s, acts[0]), acts[1..], Since(k, s, acts[0], n))
  }

  /** At no time are more than BAND boxes made between two clearings of the ground. */
  ghost predicate Uncrowded(k: Kinds, s: State, acts: seq<Act>, n: nat)
    requires Able(k, s, acts)
    decreases |acts|
  {
    acts == []
    || (Since(k, s, acts[0], n) <= BAND && Uncrowded(k, Done(k, s, acts[0]), acts[1..], Since(k, s, acts[0], n)))
  }

  lemma UncrowdedRoom(k: Kinds, s: State, a: Act, n: nat)
    requires Recent(s, n) && Since(k, s, a, n) <= BAND
    ensures Roomy(k, s, a)
  {
    if PutsDown(k, s, a) && !Nearby(s, Where(a)) {
      RecentRoom(s, Where(a), n);
    }
  }

  /**
   Over a run that starts with boxes no older than n and makes no more than BAND of them between two clearings, every
   stack of a data that is no attachment is accounted for: all there is at the end is all there was and was made, less
   what was used up.
   */
  lemma {:induction false} RunTotal(k: Kinds, s: State, acts: seq<Act>, n: nat, d: nat)
    requires k.Valid() && Standard(k) && Sound(k, s) && Able(k, s, acts) && NoAttachment(k, d)
    requires s.lastUid + AllUids(k, acts) < COUNT_RANGE && Recent(s, n) && Uncrowded(k, s, acts, n)
    ensures Total(Run(k, s, acts), d) + AllUsed(k, s, acts, d) == Total(s, d) + AllMade(k, acts, d)
    decreases |acts|
  {
    if acts != [] {
      var a, t := acts[0], Done(k, s, acts[0]);
      UncrowdedRoom(k, s, a, n);
      ActTotal(k, s, a, d);
      ActKeeps(k, s, a);
      ActUid(k, s, a);
      ActRecent(k, s, a, n);
      RunTotal(k, t, acts[1..], Since(k, s, a, n), d);
    }
  }

  ghost predicate OnlyMoves(acts: seq<Act>) {
    forall i :: 0 <= i < |acts| ==> acts[i].Moving?
  }

  lemma {:induction false} MovesMakeNothing(k: Kinds, acts: seq<Act>, d: nat)
    requires OnlyMoves(acts)
    ensures AllMade(k, acts, d) == 0
    decreases |acts|
  {
    if acts != [] {
      MovesMakeNothing(k, acts[1..], d);
    }
  }

  /** Without clearings, the boxes made only add up. */
  lemma {:induction false} MovesUncrowded(k: Kinds, s: State, acts: seq<Act>, n: nat)
    requires Able(k, s, acts) && OnlyMoves(acts)
    ensures n <= AllSince(k, s, acts, n) <= n + |acts|
    ensures AllSince(k, s, acts, n) <= BAND ==> Uncrowded(k, s, acts, n)
    decreases |acts|
  {
    if acts != [] {
      MovesUncrowded(k, Done(k, s, acts[0]), acts[1..], Since(k, s, acts[0], n));
    }
  }

  /**
   Drops and pickups from a fresh loadout on that make no more than BAND boxes, as any BAND of them do, keep the amount
   of everything but attachments, except for what a folded stack's 32-bit count drops.
   */
  lemma PlayConserves(k: Kinds, s: State, noLoadout: bool, infiniteGloo: bool, acts: seq<Act>, d: nat)
    requires k.Valid() && Standard(k) && OnlyMoves(acts) && NoAttachment(k, d)
    requires Able(k, GiveLoadout(k, s, noLoadout, infiniteGloo), acts)
    requires |acts| <= BAND || AllSince(k, GiveLoadout(k, s, noLoadout, infiniteGloo), acts, 0) <= BAND
    requires s.lastUid + 4 + |k.attachments(USP)| + AllUids(k, acts) < COUNT_RANGE
    ensures var t := GiveLoadout(k, s, noLoadout, infiniteGloo);
            Total(Run(k, t, acts), d) + AllUsed(k, t, acts, d) == Total(t, d)
  {
    var t := GiveLoadout(k, s, noLoadout, infiniteGloo);
    GiveLoadoutKeeps(k, s, noLoadout, infiniteGloo);
    GiveLoadoutUid(k, s, noLoadout, infiniteGloo);
    GiveLoadoutClears(k, s, noLoadout, infiniteGloo);
    MovesUncrowded(k, t, acts, 0);
    MovesMakeNothing(k, acts, d);
    RunTotal(k, t, acts, 0, d);
  }

  // ----- The bound is exact -----

  /** Dropping v where no box is near, and picking it up again from its new box c. */
  function Turn(v: nat, it: Item, c: nat): seq<Act> {
    [Moving(Dropping(v, None)), Moving(PickingOther(c, it, None, None))]
  }

  function Turns(v: nat, it: Item, c: nat, j: nat): seq<Act>
    decreases j
  {
    if j == 0 then [] else Turn(v, it, c) + Turns(v, it, Succ(c), j - 1)
  }

  ghost predicate NoOther(s: State, v: nat, d: nat) {
    forall u :: u in s.uids && u != v ==> s.uids[u].data != d
  }

  /** The only stack of something that is no weapon, held but not worn. */
  ghost predicate Spare(k: Kinds, s: State, v: nat) {
    && v != 0 && v in s.uids && s.uids[v].unique == v && !k.weapon(s.uids[v].data) && s.onHand != v
    && NotWorn(s, v) && (forall l :: l in s.weapons ==> s.weapons[l].unique != v) && NoOther(s, v, s.uids[v].data)
  }

  lemma DropSpare(k: Kinds, s: State, v: nat)
    requires Spare(k, s, v)
    ensures Drop(s, v, None) ==
            s.(uids := s.uids - {v}, boxes := s.boxes[BoxID(s) := [s.uids[v]]], nextBox := Succ(BoxID(s)))
  {
    var r := Remove(s, v);
    assert r.weapons == s.weapons && r.equip == s.equip;
  }

  lemma PickSpare(k: Kinds, s: State, v: nat)
    requires Spare(k, s, v) && BoxID(s) !in s.boxes
    ensures var d := Drop(s, v, None);
            && Can(k, d, Moving(PickingOther(BoxID(s), s.uids[v], None, None)))
            && PickOther(d, BoxID(s), s.uids[v], None, None) == s.(nextBox := Succ(BoxID(s)))
  {
    var c, it := BoxID(s), s.uids[v];
    var d := s.(uids := s.uids - {v}, boxes := s.boxes[c := [it]], nextBox := Succ(c));
    DropSpare(k, s, v);
    assert [it][1..] == [];
    assert Without([it], v) == [];
    assert d.uids[v := it] == s.uids;
    assert d.boxes[c := []] - {c} == s.boxes;
  }

  lemma RunTwo(k: Kinds, s: State, a: Act, b: Act, more: seq<Act>, n: nat)
    requires Can(k, s, a) && Can(k, Done(k, s, a), b) && Able(k, Done(k, Done(k, s, a), b), more)
    ensures var t := Done(k, Done(k, s, a), b); var m := Since(k, Done(k, s, a), b, Since(k, s, a, n));
            && Able(k, s, [a, b] + more) && Run(k, s, [a, b] + more) == Run(k, t, more)
            && AllSince(k, s, [a, b] + more, n) == AllSince(k, t, more, m)
  {
    var acts := [a, b] + more;
    assert acts[1..] == [b] + more && acts[1..][1..] == more;
  }

  /** A turn only uses up a box id. */
  lemma TurnIs(k: Kinds, s: State, v: nat, more: seq<Act>, n: nat)
    requires Spare(k, s, v) && BoxID(s) !in s.boxes && Able(k, s.(nextBox := Succ(BoxID(s))), more)
    ensures var acts, t := Turn(v, s.uids[v], BoxID(s)) + more, s.(nextBox := Succ(BoxID(s)));
            && Able(k, s, acts) && Run(k, s, acts) == Run(k, t, more)
            && AllSince(k, s, acts, n) == AllSince(k, t, more, n + 1)
  {
    PickSpare(k, s, v);
    RunTwo(k, s, Moving(Dropping(v, None)), Moving(PickingOther(BoxID(s), s.uids[v], None, None)), more, n);
  }

  /** With one box on the ground, turns are possible until its id is next. */
  lemma {:induction false} TurnsAre(k: Kinds, s: State, v: nat, c: nat, j: nat, n: nat)
    requires Spare(k, s, v) && s.boxes.Keys == {c} && InBand(c) && Ago(BoxID(s), c) + j <= BAND
    ensures var acts := Turns(v, s.uids[v], BoxID(s), j);
            && Able(k, s, acts) && AllSince(k, s, acts, n) == n + j
            && Run(k, s, acts) == s.(nextBox := Run(k, s, acts).nextBox)
            && Ago(BoxID(Run(k, s, acts)), c) == Ago(BoxID(s), c) + j
    decreases j
  {
    if j > 0 {
      var t := s.(nextBox := Succ(BoxID(s)));
      AgoSucc(BoxID(s), c);
      TurnsAre(k, t, v, c, j - 1, n + 1);
      TurnIs(k, s, v, Turns(v, s.uids[v], BoxID(t), j - 1), n);
    }
  }

  lemma TurnsMove(v: nat, it: Item, c: nat, j: nat)
    ensures OnlyMoves(Turns(v, it, c, j))
    decreases j
  {
    if j > 0 {
      TurnsMove(v, it, Succ(c), j - 1);
    }
  }

  lemma {:induction false} AttachOther(s: State, more: seq<nat>, v: nat, d: nat)
    requires NoOther(s, v, d) && d !in more
    ensures NoOther(Attach(s, more), v, d)
    decreases |more|
  {
    if more != [] {
      AttachOther(s, more[..|more| - 1], v, d);
    }
  }

  lemma AgoIsBand(next: nat, c: nat)
    requires InBand(next) && InBand(c)
    ensures Ago(next, c) == BAND <==> c == next
  {
  }

  lemma NextBoxKeeps(k: Kinds, s: State, next: nat)
    requires Sound(k, s)
    ensures Sound(k, s.(nextBox := next))
  {
    SameHeld(k, s, s.(nextBox := next));
    FewerHeld(k, s, s.(nextBox := next));
  }

  /** u dropped, and v turned until the id of u's box is next. */
  function Crowding(t: State, u: nat, v: nat): seq<Act> {
    var r := Drop(t, u, None);
    [Moving(Dropping(u, None))] + if v in r.uids then Turns(v, r.uids[v], BoxID(r), BAND - 1) else []
  }

  lemma FirstBox(t: State, u: nat)
    requires t.boxes == map[] && u in t.uids && t.uids[u].unique == u != 0
    ensures var r, b := Drop(t, u, None), BoxID(t); r.boxes.Keys == {b} && InBand(b) && Ago(BoxID(r), b) == 1
  {
  }

  lemma CrowdingRuns(k: Kinds, t: State, u: nat, v: nat, r: State, turns: seq<Act>)
    requires t.boxes == map[] && u in t.uids && t.uids[u].unique == u != 0 && r == Drop(t, u, None)
    requires v in r.uids && turns == Turns(v, r.uids[v], BoxID(r), BAND - 1) && Able(k, r, turns) && OnlyMoves(turns)
    ensures var acts := Crowding(t, u, v);
            OnlyMoves(acts) && Able(k, t, acts) && AllSince(k, t, acts, 0) == AllSince(k, r, turns, 1)
            && Run(k, t, acts) == Run(k, r, turns)
  {
    assert Crowding(t, u, v)[1..] == turns;
  }

  lemma FullCircle(k: Kinds, r: State, v: nat, b: nat, next: nat)
    requires Sound(k, r) && r.boxes.Keys == {b} && v in r.uids && InBand(b)
    requires Ago(BoxID(r.(nextBox := next)), b) == BAND
    ensures !SameItems(r.(nextBox := next), Drop(r.(nextBox := next), v, None))
  {
    NextBoxKeeps(k, r, next);
    AgoIsBand(BoxID(r.(nextBox := next)), b);
    DropLosesNothing(k, r.(nextBox := next), v, None);
  }

  /** The moves of Crowding are possible, make BAND boxes and lead to a state in which dropping v loses an item. */
  ghost predicate LosesAtBound(k: Kinds, t: State, u: nat, v: nat) {
    var acts := Crowding(t, u, v);
    && OnlyMoves(acts) && Able(k, t, acts) && AllSince(k, t, acts, 0) == BAND
    && !SameItems(Run(k, t, acts), Drop(Run(k, t, acts), v, None))
  }

  /**
   With BAND boxes made, the next one may take the place of one that is still there: from every state with nothing on
   the ground, something to drop and something spare, there are drops and pickups after which a drop loses an item.
   */
  lemma BoundIsExact(k: Kinds, t: State, u: nat, v: nat)
    requires Sound(k, t) && t.boxes == map[] && u in t.uids && Spare(k, Drop(t, u, None), v)
    ensures LosesAtBound(k, t, u, v)
  {
    var r := Drop(t, u, None);
    var turns := Turns(v, r.uids[v], BoxID(r), BAND - 1);
    FirstBox(t, u);
    TurnsAre(k, r, v, BoxID(t), BAND - 1, 1);
    TurnsMove(v, r.uids[v], BoxID(r), BAND - 1);
    CrowdingRuns(k, t, u, v, r, turns);
    DropKeeps(k, t, u, None);
    FullCircle(k, r, v, BoxID(t), Run(k, r, turns).nextBox);
  }

  // ----- A fresh loadout is such a state -----

  /** The pistol in the hand beside the rest of the kit, before the pistol's attachments. */
  function Drawn(k: Kinds, kit: State, usp: nat): State {
    Wield(Track(kit, Item(usp, USP, 1, k.clip(USP))), SECONDARY, USP, usp, PISTOL_AMMO)
  }

  lemma PistolIs(k: Kinds, kit: State, usp: nat)
    ensures Pistol(k, kit, usp) == Reserve(k, Attach(Drawn(k, kit, usp), k.attachments(USP)), PISTOL_AMMO)
  {
  }

  lemma DrawnKeeps(k: Kinds, kit: State, usp: nat)
    requires Ready(k, kit, usp)
    ensures Core(k, Drawn(k, kit, usp)) && Drawn(k, kit, usp).lastUid == kit.lastUid
  {
    InstallKeeps(k, kit, Item(usp, USP, 1, k.clip(USP)), SECONDARY);
  }

  lemma SuppliedExtends(k: Kinds, held: State, more: seq<nat>, v: nat, d: nat)
    requires Core(k, held) && held.lastUid + |more| + 1 < COUNT_RANGE && NoOther(held, v, d) && d !in more
    requires forall i :: 0 <= i < |more| ==> !k.consumable(more[i]) && !k.weapon(more[i])
    requires !k.weapon(PISTOL_AMMO) && !k.consumable(PISTOL_AMMO) && d != PISTOL_AMMO
    ensures var t := Reserve(k, Attach(held, more), PISTOL_AMMO); Extends(held, t) && NoOther(t, v, d)
  {
    AttachKeeps(k, held, more);
    AttachOther(held, more, v, d);
    ReserveKeeps(k, Attach(held, more), PISTOL_AMMO);
    ExtendsFurther(held, Attach(held, more), Reserve(k, Attach(held, more), PISTOL_AMMO));
  }

  lemma PistolExtends(k: Kinds, kit: State, usp: nat, med: nat)
    requires Ready(k, kit, usp) && NoOther(Drawn(k, kit, usp), med, MEDKIT) && MEDKIT !in k.attachments(USP)
    ensures Extends(Drawn(k, kit, usp), Pistol(k, kit, usp)) && NoOther(Pistol(k, kit, usp), med, MEDKIT)
  {
    DrawnKeeps(k, kit, usp);
    PistolIs(k, kit, usp);
    SuppliedExtends(k, Drawn(k, kit, usp), k.attachments(USP), med, MEDKIT);
  }

  /** With the pistol dropped, the medkits can be turned. */
  lemma MedkitIsSpare(k: Kinds, s: State, usp: nat, med: nat, t: State)
    requires k.Valid() && Standard(k) && 0 < usp < med
    requires Extends(Drawn(k, Kit(s, med), usp), t) && NoOther(t, med, MEDKIT)
    ensures usp in t.uids && Spare(k, Drop(t, usp, None), med)
  {
  }

  lemma PistolCanCrowd(k: Kinds, s: State, usp: nat, med: nat, t: State)
    requires Ready(k, Kit(s, med), usp) && usp < med && MEDKIT !in k.attachments(USP)
    requires Sound(k, t) && t.boxes == map[] && t == Pistol(k, Kit(s, med), usp)
    ensures LosesAtBound(k, t, usp, med)
  {
    PistolExtends(k, Kit(s, med), usp, med);
    MedkitIsSpare(k, s, usp, med, t);
    BoundIsExact(k, t, usp, med);
  }

  /** So the bound is met with a loss after every fresh loadout with a pistol that medkits are no attachment of. */
  lemma EveryLoadoutCanCrowd(k: Kinds, s: State)
    requires k.Valid() && Standard(k) && s.lastUid + 4 + |k.attachments(USP)| < COUNT_RANGE
    requires MEDKIT !in k.attachments(USP)
    ensures var t := GiveLoadout(k, s, false, false);
            var loses := LosesAtBound(k, t, s.lastUid + 1, s.lastUid + 2); loses
  {
    var t, usp, med := GiveLoadout(k, s, false, false), s.lastUid + 1, s.lastUid + 2;
    GiveLoadoutKeeps(k, s, false, false);
    GiveLoadoutClears(k, s, false, false);
    KitReady(k, s, usp, med);
    GiveLoadoutIs(k, s, false, false, usp, med);
    PistolCanCrowd(k, s, usp, med, t);
  }
}
