/**
 What drops and pickups do to the amount of each item: nothing, as long as a new box never takes the place of one that
 is still there.
 */
module Conservation {
  import opened Inventory
  import opened Results
  import opened Sums

  // ----- How much there is -----

  function Amount(it: Item, data: nat): nat {
    if it.data == data then it.count else 0
  }

  function Amounts(uids: map<nat, Item>, data: nat): map<nat, nat> {
    map u | u in uids :: Amount(uids[u], data)
  }

  function Lying(items: seq<Item>, data: nat): nat {
    if items == [] then 0 else Amount(items[0], data) + Lying(items[1..], data)
  }

  function Boxes(boxes: map<nat, seq<Item>>, data: nat): map<nat, nat> {
    map c | c in boxes :: Lying(boxes[c], data)
  }

  ghost function Held(s: State, data: nat): nat {
    Sum(Amounts(s.uids, data))
  }

  ghost function Around(s: State, data: nat): nat {
    Sum(Boxes(s.boxes, data))
  }

  /** All there is of the data, held and on the ground. */
  ghost function Total(s: State, data: nat): nat {
    Held(s, data) + Around(s, data)
  }

  // ----- What each step does to the amounts -----

  lemma AmountsWithout(uids: map<nat, Item>, u: nat, data: nat)
    ensures Amounts(uids - {u}, data) == Amounts(uids, data) - {u}
    ensures u in uids ==> Amounts(uids, data)[u] == Amount(uids[u], data)
  {
  }

  lemma AmountsPut(uids: map<nat, Item>, u: nat, it: Item, data: nat)
    ensures Amounts(uids[u := it], data) == Amounts(uids, data)[u := Amount(it, data)]
  {
  }

  lemma BoxesPut(boxes: map<nat, seq<Item>>, c: nat, items: seq<Item>, data: nat)
    ensures Boxes(boxes[c := items], data) == Boxes(boxes, data)[c := Lying(items, data)]
    ensures Boxes(boxes - {c}, data) == Boxes(boxes, data) - {c}
    ensures c in boxes ==> Boxes(boxes, data)[c] == Lying(boxes[c], data)
  {
  }

  lemma HeldWithout(uids: map<nat, Item>, u: nat, data: nat)
    ensures Sum(Amounts(uids - {u}, data)) + (if u in uids then Amount(uids[u], data) else 0) ==
            Sum(Amounts(uids, data))
  {
    AmountsWithout(uids, u, data);
    SumWithout(Amounts(uids, data), u);
  }

  lemma HeldPut(uids: map<nat, Item>, it: Item, data: nat)
    requires it.unique !in uids
    ensures Sum(Amounts(uids[it.unique := it], data)) == Sum(Amounts(uids, data)) + Amount(it, data)
  {
    HeldWithout(uids[it.unique := it], it.unique, data);
    assert uids[it.unique := it] - {it.unique} == uids;
  }

  lemma HeldChange(uids: map<nat, Item>, u: nat, it: Item, data: nat)
    requires u in uids
    ensures Sum(Amounts(uids[u := it], data)) + Amount(uids[u], data) == Sum(Amounts(uids, data)) + Amount(it, data)
  {
    AmountsPut(uids, u, it, data);
    AmountsWithout(uids, u, data);
    SumPut(Amounts(uids, data), u, Amount(it, data));
    SumWithout(Amounts(uids, data), u);
  }

  lemma BoxPut(boxes: map<nat, seq<Item>>, c: nat, items: seq<Item>, data: nat)
    ensures Sum(Boxes(boxes[c := items], data)) + (if c in boxes then Lying(boxes[c], data) else 0) ==
            Sum(Boxes(boxes, data)) + Lying(items, data)
  {
    BoxesPut(boxes, c, items, data);
    SumPut(Boxes(boxes, data), c, Lying(items, data));
    SumWithout(Boxes(boxes, data), c);
  }

  lemma BoxWithout(boxes: map<nat, seq<Item>>, c: nat, data: nat)
    ensures Sum(Boxes(boxes - {c}, data)) + (if c in boxes then Lying(boxes[c], data) else 0) == Sum(Boxes(boxes, data))
  {
    BoxesPut(boxes, c, [], data);
    SumWithout(Boxes(boxes, data), c);
  }

  lemma {:induction false} LyingAppend(items: seq<Item>, it: Item, data: nat)
    ensures Lying(items + [it], data) == Lying(items, data) + Amount(it, data)
    decreases |items|
  {
    if items == [] {
      assert [it][1..] == [];
    } else {
      assert (items + [it])[1..] == items[1..] + [it];
      LyingAppend(items[1..], it, data);
    }
  }

  lemma {:induction false} NothingTaken(items: seq<Item>, u: nat)
    requires u !in Uniques(items)
    ensures Without(items, u) == items
    decreases |items|
  {
    if items != [] {
      NothingTaken(items[1..], u);
    }
  }

  lemma {:induction false} LyingWithout(items: seq<Item>, it: Item, data: nat)
    requires NoTwice(items) && it in items
    ensures Lying(Without(items, it.unique), data) + Amount(it, data) == Lying(items, data)
    decreases |items|
  {
    var rest := Without(items[1..], it.unique);
    assert items == [items[0]] + items[1..];
    if items[0] == it {
      NothingTaken(items[1..], it.unique);
      assert [] + rest == rest;
    } else {
      UniqueOf(items[1..], it.unique);
      LyingWithout(items[1..], it, data);
      assert ([items[0]] + rest)[1..] == rest;
    }
  }

  lemma RemoveTotal(s: State, u: nat, data: nat)
    requires u in s.uids
    ensures Total(Remove(s, u), data) + Amount(s.uids[u], data) == Total(s, data)
  {
    HeldWithout(s.uids, u, data);
  }

  lemma TrackTotal(s: State, it: Item, data: nat)
    requires it.unique !in s.uids
    ensures Total(Track(s, it), data) == Total(s, data) + Amount(it, data)
  {
    HeldPut(s.uids, it, data);
  }

  lemma TakeTotal(k: Kinds, s: State, c: nat, it: Item, data: nat)
    requires Core(k, s) && c in s.boxes && it in s.boxes[c]
    ensures Total(Take(s, c, it.unique), data) + Amount(it, data) == Total(s, data)
  {
    assert Loose(k, s, c);
    LyingWithout(s.boxes[c], it, data);
    BoxPut(s.boxes, c, Without(s.boxes[c], it.unique), data);
  }

  lemma GroundTotal(s: State, it: Item, near: Option<nat>, data: nat)
    requires it.unique != 0 && RoomFor(s, near)
    ensures Total(Ground(s, it, near), data) == Total(s, data) + Amount(it, data)
  {
    if near.Some? && near.value in s.boxes {
      LyingAppend(s.boxes[near.value], it, data);
      BoxPut(s.boxes, near.value, s.boxes[near.value] + [it], data);
    } else {
      LyingAppend([], it, data);
      assert [] + [it] == [it];
      BoxPut(s.boxes, BoxID(s), [it], data);
    }
  }

  lemma DiscardTotal(s: State, c: nat, data: nat)
    requires c in s.boxes ==> s.boxes[c] == []
    ensures Total(Discard(s, c), data) == Total(s, data)
  {
    BoxWithout(s.boxes, c, data);
  }

  lemma {:induction false} AttachTotal(k: Kinds, s: State, more: seq<nat>, data: nat)
    requires Core(k, s) && s.lastUid + |more| < COUNT_RANGE && data !in more
    requires forall i :: 0 <= i < |more| ==> !k.consumable(more[i]) && !k.weapon(more[i])
    ensures Total(Attach(s, more), data) == Total(s, data)
    decreases |more|
  {
    if more != [] {
      var before, d := more[..|more| - 1], more[|more| - 1];
      AttachTotal(k, s, before, data);
      AttachKeeps(k, s, before);
      FreshIs(Attach(s, before), d, 1, 0);
      NewTotal(k, Attach(s, before), d, data);
    }
  }

  lemma NewTotal(k: Kinds, s: State, d: nat, data: nat)
    requires Core(k, s) && s.lastUid + 1 < COUNT_RANGE && d != data
    ensures Total(Fresh(s, d, 1, 0), data) == Total(s, data)
  {
    FreshIs(s, d, 1, 0);
    TrackTotal(Numbered(s), Item(s.lastUid + 1, d, 1, 0), data);
  }

  // ----- Drops -----

  lemma DropTotal(s: State, u: nat, near: Option<nat>, data: nat)
    requires u in s.uids && s.uids[u].unique == u != 0 && RoomFor(s, near)
    ensures Total(Ground(Remove(s, u), s.uids[u], near), data) == Total(s, data)
  {
    RemoveTotal(s, u, data);
    GroundTotal(Remove(s, u), s.uids[u], near, data);
  }

  /** Nothing is lost or made by a drop that has room for its box. */
  lemma DropConserves(k: Kinds, s: State, u: nat, near: Option<nat>, data: nat)
    requires Core(k, s) && (u != 0 && u in s.uids ==> RoomFor(s, near))
    ensures Total(Drop(s, u, near), data) == Total(s, data)
  {
    if u != 0 && u in s.uids {
      DropTotal(s, u, near, data);
    }
  }

  lemma LostBox(k: Kinds, s: State, c: nat)
    requires Sound(k, s) && c in s.boxes
    ensures s.boxes[c] != [] && !Gone(s, s.boxes[c][0].unique)
    ensures forall d :: d in s.boxes && d != c ==> s.boxes[c][0].unique !in Uniques(s.boxes[d])
    ensures s.boxes[c][0].unique !in s.uids && s.boxes[c][0].unique != 0
  {
    UniqueOf(s.boxes[c], s.boxes[c][0].unique);
    assert Loose(k, s, c);
  }

  lemma GroundGone(s: State, it: Item, near: Option<nat>, x: nat)
    requires it.unique != 0 && RoomFor(s, near)
    ensures var gone := Gone(Ground(s, it, near), x); gone <==> Gone(s, x) && x != it.unique
  {
    var t := Ground(s, it, near);
    var c := if near.Some? && near.value in s.boxes then near.value else BoxID(s);
    AppendIs([], it);
    assert [] + [it] == [it];
    if c in s.boxes {
      AppendIs(s.boxes[c], it);
    }
    assert Uniques(t.boxes[c]) == (if c in s.boxes then Uniques(s.boxes[c]) else {}) + {it.unique};
    assert forall d :: d in s.boxes && d != c ==> d in t.boxes && t.boxes[d] == s.boxes[d];
    assert forall d :: d in t.boxes && d != c ==> d in s.boxes;
    if Gone(t, x) {
      assert c in t.boxes && x !in Uniques(t.boxes[c]);
      forall d | d in s.boxes
        ensures x !in Uniques(s.boxes[d])
      {
        assert d in t.boxes;
      }
    }
  }

  /** The same items exist in both states, held or on the ground. */
  ghost predicate SameItems(s: State, t: State) {
    forall x :: Gone(t, x) <==> Gone(s, x)
  }

  lemma RemoveGone(k: Kinds, s: State, u: nat, x: nat)
    requires Core(k, s) && u in s.uids
    ensures Gone(Remove(s, u), x) <==> Gone(s, x) || x == u
  {
    RemoveKeeps(k, s, u);
  }

  lemma DropKeepsItems(k: Kinds, s: State, u: nat, near: Option<nat>)
    requires Sound(k, s) && u in s.uids && RoomFor(s, near)
    ensures SameItems(s, Drop(s, u, near))
  {
    forall x
      ensures Gone(Drop(s, u, near), x) <==> Gone(s, x)
    {
      RemoveGone(k, s, u, x);
      GroundGone(Remove(s, u), s.uids[u], near, x);
    }
  }

  /** What lay in a box that is overwritten is lost. */
  lemma OverwriteLoses(k: Kinds, s: State, it: Item, near: Option<nat>, x: nat)
    requires !RoomFor(s, near) && x in Uniques(s.boxes[BoxID(s)]) && x !in s.uids && x != it.unique
    requires it.unique != 0 && forall d :: d in s.boxes && d != BoxID(s) ==> x !in Uniques(s.boxes[d])
    ensures Gone(Ground(s, it, near), x)
  {
    AppendIs([], it);
    assert [] + [it] == [it];
  }

  lemma DropLoses(k: Kinds, s: State, u: nat, near: Option<nat>)
    requires Sound(k, s) && u in s.uids && !RoomFor(s, near)
    ensures !SameItems(s, Drop(s, u, near))
  {
    var lost := s.boxes[BoxID(s)][0].unique;
    LostBox(k, s, BoxID(s));
    OverwriteLoses(k, Remove(s, u), s.uids[u], near, lost);
    assert Gone(Drop(s, u, near), lost);
  }

  /**
   A drop loses no item exactly when it has room: when the next box id has wrapped onto a box that is still there and
   no box is near, that box is overwritten.
   */
  lemma DropLosesNothing(k: Kinds, s: State, u: nat, near: Option<nat>)
    requires Sound(k, s) && u in s.uids
    ensures var kept := SameItems(s, Drop(s, u, near)); kept <==> RoomFor(s, near)
  {
    if RoomFor(s, near) {
      DropKeepsItems(k, s, u, near);
    } else {
      DropLoses(k, s, u, near);
    }
  }

  // ----- Pickups -----

  function Displaced(k: Kinds, s: State, slot: nat, data: nat): nat {
    if slot in s.weapons then Amount(Loot(k, s.weapons[slot]), data) else 0
  }

  lemma UnarmTotal(k: Kinds, s: State, slot: nat, data: nat)
    requires Core(k, s)
    ensures Total(Unarm(s, slot), data) + Displaced(k, s, slot, data) == Total(s, data)
  {
    if slot in s.weapons {
      assert ArmedAt(k, s, slot);
      RemoveTotal(s, s.weapons[slot].unique, data);
    }
  }

  lemma DrawTotal(k: Kinds, s: State, it: Item, slot: nat, data: nat)
    requires Core(k, s) && it.unique !in s.uids
    ensures Total(Draw(k, s, it, slot), data) + Displaced(k, s, slot, data) == Total(s, data) + Amount(it, data)
  {
    UnarmTotal(k, s, slot, data);
    TrackTotal(Unarm(s, slot), it, data);
  }

  lemma ArmTotal(k: Kinds, s: State, it: Item, slot: nat, data: nat)
    requires k.Valid() && Core(k, s) && Gone(s, it.unique) && 1 <= it.unique <= s.lastUid
    requires k.weapon(it.data) && it.count == 1 && WeaponSlot(slot)
    requires s.lastUid + |k.attachments(it.data)| < COUNT_RANGE && data !in k.attachments(it.data)
    ensures Total(Arm(k, s, it, slot), data) + Displaced(k, s, slot, data) == Total(s, data) + Amount(it, data)
  {
    DrawTotal(k, s, it, slot, data);
    DrawKeeps(k, s, it, slot);
    AttachTotal(k, Draw(k, s, it, slot), k.attachments(it.data), data);
  }

  /** Whether picking the weapon up puts another one on the ground, and that has room. */
  ghost predicate PickHasRoom(k: Kinds, s: State, data: nat, near: Option<nat>) {
    SlotFor(k, s, data) in s.weapons ==> RoomFor(s, near)
  }

  lemma TakeArmTotal(k: Kinds, s: State, c: nat, it: Item, slot: nat, data: nat)
    requires k.Valid() && Core(k, s) && c in s.boxes && it in s.boxes[c] && k.weapon(it.data) && WeaponSlot(slot)
    requires s.lastUid + |k.attachments(it.data)| < COUNT_RANGE && data !in k.attachments(it.data)
    ensures Total(Arm(k, Take(s, c, it.unique), it, slot), data) + Displaced(k, s, slot, data) == Total(s, data)
  {
    TakenArmTotal(k, s, c, it, slot, data);
    TakeTotal(k, s, c, it, data);
  }

  lemma TakenArmTotal(k: Kinds, s: State, c: nat, it: Item, slot: nat, data: nat)
    requires k.Valid() && Core(k, s) && c in s.boxes && it in s.boxes[c] && k.weapon(it.data) && WeaponSlot(slot)
    requires s.lastUid + |k.attachments(it.data)| < COUNT_RANGE && data !in k.attachments(it.data)
    ensures var taken := Take(s, c, it.unique);
            Total(Arm(k, taken, it, slot), data) + Displaced(k, s, slot, data) == Total(taken, data) + Amount(it, data)
  {
    LyingItem(k, s, c, it);
    TakeKeeps(k, s, c, it.unique);
    ArmTotal(k, Take(s, c, it.unique), it, slot, data);
  }

  lemma {:induction false} AttachBox(s: State, more: seq<nat>)
    ensures Attach(s, more).nextBox == s.nextBox
    decreases |more|
  {
    if more != [] {
      AttachBox(s, more[..|more| - 1]);
    }
  }

  lemma ArmBox(k: Kinds, s: State, it: Item, slot: nat)
    ensures Arm(k, s, it, slot).nextBox == s.nextBox && Arm(k, s, it, slot).boxes == s.boxes
  {
    AttachBox(Draw(k, s, it, slot), k.attachments(it.data));
  }

  lemma DisplacedUnique(k: Kinds, s: State, slot: nat)
    requires Core(k, s)
    ensures slot in s.weapons ==> s.weapons[slot].unique != 0
  {
    assert slot in s.weapons ==> ArmedAt(k, s, slot);
  }

  /** Picking up a weapon, and putting down the one it displaces, keeps the amount of everything but attachments. */
  lemma PickWeaponConserves(k: Kinds, s: State, c: nat, it: Item, near: Option<nat>, data: nat)
    requires k.Valid() && Core(k, s) && c in s.boxes && it in s.boxes[c] && k.weapon(it.data)
    requires s.lastUid + |k.attachments(it.data)| < COUNT_RANGE && data !in k.attachments(it.data)
    requires PickHasRoom(k, s, it.data, near)
    ensures var t := PickWeapon(k, s, c, it, near); var all := Total(t, data); all == Total(s, data)
  {
    var slot := SlotFor(k, s, it.data);
    var armed := Arm(k, Take(s, c, it.unique), it, slot);
    SlotIsWeapon(k, s, it.data);
    TakeArmTotal(k, s, c, it, slot, data);
    DisplacedUnique(k, s, slot);
    ArmedBoxes(k, s, c, it, slot);
    PutDownTotal(k, s, armed, slot, c, near, data);
  }

  lemma ArmedBoxes(k: Kinds, s: State, c: nat, it: Item, slot: nat)
    requires c in s.boxes
    ensures var armed := Arm(k, Take(s, c, it.unique), it, slot);
            BoxID(armed) == BoxID(s) && armed.boxes.Keys == s.boxes.Keys
  {
    ArmBox(k, Take(s, c, it.unique), it, slot);
  }

  /** The end of a pickup: the displaced weapon, if any, goes to the ground, and an emptied box goes. */
  lemma PutDownTotal(k: Kinds, s: State, armed: State, slot: nat, c: nat, near: Option<nat>, data: nat)
    requires c in armed.boxes && BoxID(armed) == BoxID(s) && armed.boxes.Keys == s.boxes.Keys
    requires slot in s.weapons ==> RoomFor(s, near) && s.weapons[slot].unique != 0
    ensures Total(PutDown(k, s, armed, slot, c, near), data) == Total(armed, data) + Displaced(k, s, slot, data)
  {
    if slot in s.weapons {
      SwapTotal(armed, Loot(k, s.weapons[slot]), near, c, data);
    } else {
      EmptiedTotal(armed, c, data);
    }
  }

  lemma EmptiedTotal(s: State, c: nat, data: nat)
    requires c in s.boxes
    ensures Total(if s.boxes[c] == [] then Discard(s, c) else s, data) == Total(s, data)
  {
    if s.boxes[c] == [] {
      DiscardTotal(s, c, data);
    }
  }

  lemma SwapTotal(s: State, it: Item, near: Option<nat>, c: nat, data: nat)
    requires it.unique != 0 && RoomFor(s, near) && c in s.boxes
    ensures var t := Ground(s, it, near);
            Total(if s.boxes[c] == [] && near != Some(c) then Discard(t, c) else t, data) ==
            Total(s, data) + Amount(it, data)
  {
    GroundTotal(s, it, near, data);
    if s.boxes[c] == [] && near != Some(c) {
      DiscardTotal(Ground(s, it, near), c, data);
    }
  }

  /** What a 32-bit count drops of a sum: nothing unless the sum is out of range. */
  function Excess(n: nat): (e: nat)
    ensures e == 0 <==> n < COUNT_RANGE
  {
    n - n % COUNT_RANGE
  }

  /** Two stacks of one data hold together what each held, but for what their count drops. */
  lemma TogetherAmount(it: Item, other: Item, data: nat)
    requires it.data == other.data
    ensures Amount(Together(it, other), data) + (if it.data == data then Excess(it.count + other.count) else 0) ==
            Amount(it, data) + Amount(other, data)
  {
  }

  /** What folding the picked item into dup loses of the data. */
  function Overflow(s: State, it: Item, dup: Option<nat>, data: nat): nat {
    if dup.Some? && dup.value in s.uids && it.data == data then Excess(it.count + s.uids[dup.value].count) else 0
  }

  lemma ReplacedTotal(s: State, dup: nat, it: Item, data: nat)
    requires dup in s.uids && it.unique !in s.uids
    ensures Total(Track(Remove(s, dup), it), data) + Amount(s.uids[dup], data) == Total(s, data) + Amount(it, data)
  {
    RemoveTotal(s, dup, data);
    TrackTotal(Remove(s, dup), it, data);
  }

  lemma MergedTotal(s: State, it: Item, dup: nat, data: nat)
    requires dup in s.uids && it.unique !in s.uids && s.uids[dup].data == it.data
    ensures Total(Merged(s, it, dup), data) + Overflow(s, it, Some(dup), data) == Total(s, data) + Amount(it, data)
  {
    ReplacedTotal(s, dup, Together(it, s.uids[dup]), data);
    TogetherAmount(it, s.uids[dup], data);
  }

  lemma FoldIsMerged(s: State, it: Item, dup: nat, slot: Option<nat>, data: nat)
    requires dup in s.uids
    ensures Total(Fold(s, it, dup, slot), data) == Total(Merged(s, it, dup), data)
  {
    assert Fold(s, it, dup, slot).uids == Merged(s, it, dup).uids;
    assert Fold(s, it, dup, slot).boxes == Merged(s, it, dup).boxes;
  }

  lemma FoldTotal(s: State, it: Item, dup: nat, slot: Option<nat>, data: nat)
    requires dup in s.uids && it.unique !in s.uids && s.uids[dup].data == it.data
    ensures Total(Fold(s, it, dup, slot), data) + Overflow(s, it, Some(dup), data) == Total(s, data) + Amount(it, data)
  {
    FoldIsMerged(s, it, dup, slot, data);
    MergedTotal(s, it, dup, data);
  }

  lemma TakeOverflow(s: State, c: nat, it: Item, dup: nat, data: nat)
    requires c in s.boxes
    ensures Overflow(Take(s, c, it.unique), it, Some(dup), data) == Overflow(s, it, Some(dup), data)
  {
  }

  lemma EmptiedFold(s: State, c: nat, it: Item, dup: nat, slot: Option<nat>, data: nat)
    requires c in s.boxes && dup in s.uids
    ensures Total(PickOther(s, c, it, Some(dup), slot), data) == Total(Fold(Take(s, c, it.unique), it, dup, slot), data)
  {
    EmptiedTotal(Fold(Take(s, c, it.unique), it, dup, slot), c, data);
  }

  lemma FoldOtherTotal(s: State, c: nat, it: Item, dup: nat, slot: Option<nat>, data: nat)
    requires c in s.boxes && dup in s.uids && it.unique !in s.uids && s.uids[dup].data == it.data
    ensures Total(PickOther(s, c, it, Some(dup), slot), data) + Overflow(s, it, Some(dup), data) ==
            Total(Take(s, c, it.unique), data) + Amount(it, data)
  {
    var taken := Take(s, c, it.unique);
    EmptiedFold(s, c, it, dup, slot, data);
    FoldTotal(taken, it, dup, slot, data);
    TakeOverflow(s, c, it, dup, data);
  }

  lemma TrackOtherTotal(s: State, c: nat, it: Item, slot: Option<nat>, data: nat)
    requires c in s.boxes && it.unique !in s.uids
    ensures Total(PickOther(s, c, it, None, slot), data) == Total(Take(s, c, it.unique), data) + Amount(it, data)
  {
    var taken := Take(s, c, it.unique);
    TrackTotal(taken, it, data);
    EmptiedTotal(Track(taken, it), c, data);
  }

  /**
   Picking up anything else keeps the amount of everything, except for what the 32-bit count of a folded stack drops:
   it is exact exactly when the two counts together are in range.
   */
  lemma PickOtherConserves(k: Kinds, s: State, c: nat, it: Item, dup: Option<nat>, slot: Option<nat>, data: nat)
    requires Core(k, s) && c in s.boxes && it in s.boxes[c] && Foldable(s, it, dup, slot)
    ensures Total(PickOther(s, c, it, dup, slot), data) + Overflow(s, it, dup, data) == Total(s, data)
  {
    LyingItem(k, s, c, it);
    TakeTotal(k, s, c, it, data);
    match dup {
      case Some(u) => FoldOtherTotal(s, c, it, u, slot, data);
      case None => TrackOtherTotal(s, c, it, slot, data);
    }
  }

  /** Who holds what after a weapon is drawn: what was held before without the displaced, the weapon, and new items. */
  lemma ArmHolds(k: Kinds, s: State, it: Item, slot: nat, u: nat)
    requires k.Valid() && Core(k, s) && Gone(s, it.unique) && 1 <= it.unique <= s.lastUid
    requires k.weapon(it.data) && it.count == 1 && WeaponSlot(slot)
    requires s.lastUid + |k.attachments(it.data)| < COUNT_RANGE
    requires u != it.unique && u <= s.lastUid && (u !in s.uids || (slot in s.weapons && u == s.weapons[slot].unique))
    ensures u !in Arm(k, s, it, slot).uids
  {
    DrawKeeps(k, s, it, slot);
    AttachKeeps(k, Draw(k, s, it, slot), k.attachments(it.data));
    assert u !in Draw(k, s, it, slot).uids;
  }

  /** An item that the pickup loses when the box for the displaced weapon lands on one that is still there. */
  ghost function LostByPick(s: State, c: nat, it: Item, slot: nat): nat
    requires slot in s.weapons && c in s.boxes && BoxID(s) in s.boxes
  {
    var rest := Without(s.boxes[c], it.unique);
    if BoxID(s) != c then (if s.boxes[BoxID(s)] == [] then 0 else s.boxes[BoxID(s)][0].unique)
    else if rest == [] then s.weapons[slot].unique
    else rest[0].unique
  }

  lemma LostIsThere(k: Kinds, s: State, c: nat, it: Item, slot: nat)
    requires Sound(k, s) && c in s.boxes && it in s.boxes[c] && slot in s.weapons && BoxID(s) in s.boxes
    ensures var x := LostByPick(s, c, it, slot);
            && !Gone(s, x) && 1 <= x <= s.lastUid && x != it.unique
            && (x in s.uids ==> x == s.weapons[slot].unique)
            && (x == s.weapons[slot].unique ==> forall d :: d in s.boxes ==> x !in Uniques(s.boxes[d]))
            && (x != s.weapons[slot].unique ==>
                  forall d :: d in s.boxes && d != BoxID(s) ==> x !in Uniques(s.boxes[d]))
  {
    var w := s.weapons[slot].unique;
    assert ArmedAt(k, s, slot);
    assert Loose(k, s, c) && Loose(k, s, BoxID(s));
    WithoutIs(s.boxes[c], it.unique);
    LyingItem(k, s, c, it);
    LostBox(k, s, BoxID(s));
    assert s.boxes[BoxID(s)][0].unique in Uniques(s.boxes[BoxID(s)]);
    var rest := Without(s.boxes[c], it.unique);
    if rest != [] {
      UniqueOf(rest, rest[0].unique);
    }
    forall d | d in s.boxes
      ensures w !in Uniques(s.boxes[d])
    {
      assert Loose(k, s, d);
    }
  }

  /** Exactly then a pickup that displaces a weapon loses an item: no box is near and the new one's id is taken. */
  lemma PickWeaponLoses(k: Kinds, s: State, c: nat, it: Item, near: Option<nat>)
    requires k.Valid() && Sound(k, s) && c in s.boxes && it in s.boxes[c] && k.weapon(it.data)
    requires s.lastUid + |k.attachments(it.data)| < COUNT_RANGE && !PickHasRoom(k, s, it.data, near)
    ensures exists x :: !Gone(s, x) && Gone(PickWeapon(k, s, c, it, near), x)
  {
    var slot := SlotFor(k, s, it.data);
    var x := LostByPick(s, c, it, slot);
    var taken := Take(s, c, it.unique);
    SlotIsWeapon(k, s, it.data);
    LyingItem(k, s, c, it);
    LostIsThere(k, s, c, it, slot);
    TakeKeeps(k, s, c, it.unique);
    ArmHolds(k, taken, it, slot, x);
    ArmBox(k, taken, it, slot);
    PickOverwrites(k, s, c, it, near, Arm(k, taken, it, slot), slot);
    assert Gone(PickWeapon(k, s, c, it, near), x);
  }

  lemma PickOverwrites(k: Kinds, s: State, c: nat, it: Item, near: Option<nat>, armed: State, slot: nat)
    requires Sound(k, s) && c in s.boxes && it in s.boxes[c] && slot in s.weapons && !RoomFor(s, near)
    requires armed.boxes == Take(s, c, it.unique).boxes && BoxID(armed) == BoxID(s)
    requires LostByPick(s, c, it, slot) !in armed.uids
    ensures Gone(PutDown(k, s, armed, slot, c, near), LostByPick(s, c, it, slot))
  {
    var x, t := LostByPick(s, c, it, slot), PutDown(k, s, armed, slot, c, near);
    LostIsThere(k, s, c, it, slot);
    PutDownBoxes(k, s, armed, slot, c, near);
    forall d | d in t.boxes
      ensures x !in Uniques(t.boxes[d])
    {
      NotLeft(k, s, c, it, slot, d);
    }
  }

  /** The boxes after a pickup that overwrites one. */
  function BoxesLeft(s: State, c: nat, rest: seq<Item>, w: Item): map<nat, seq<Item>> {
    var after := s.boxes[c := rest][BoxID(s) := [w]];
    if rest == [] then after - {c} else after
  }

  lemma PutDownBoxes(k: Kinds, s: State, armed: State, slot: nat, c: nat, near: Option<nat>)
    requires c in s.boxes && slot in s.weapons && s.weapons[slot].unique != 0 && !RoomFor(s, near)
    requires c in armed.boxes && armed.boxes == s.boxes[c := armed.boxes[c]] && BoxID(armed) == BoxID(s)
    ensures PutDown(k, s, armed, slot, c, near).boxes ==
            BoxesLeft(s, c, armed.boxes[c], Loot(k, s.weapons[slot]))
    ensures PutDown(k, s, armed, slot, c, near).uids == armed.uids
  {
  }

  lemma NotLeft(k: Kinds, s: State, c: nat, it: Item, slot: nat, d: nat)
    requires Sound(k, s) && c in s.boxes && it in s.boxes[c] && slot in s.weapons && BoxID(s) in s.boxes
    requires d in BoxesLeft(s, c, Without(s.boxes[c], it.unique), Loot(k, s.weapons[slot]))
    ensures LostByPick(s, c, it, slot) !in
            Uniques(BoxesLeft(s, c, Without(s.boxes[c], it.unique), Loot(k, s.weapons[slot]))[d])
  {
    var w := Loot(k, s.weapons[slot]);
    LostIsThere(k, s, c, it, slot);
    WithoutIs(s.boxes[c], it.unique);
    AppendIs([], w);
    assert [] + [w] == [w];
    if d == BoxID(s) {
      LostNotDisplaced(k, s, c, it, slot);
    }
  }

  lemma LostNotDisplaced(k: Kinds, s: State, c: nat, it: Item, slot: nat)
    requires Sound(k, s) && c in s.boxes && it in s.boxes[c] && slot in s.weapons && BoxID(s) in s.boxes
    ensures BoxID(s) != c || Without(s.boxes[c], it.unique) != [] ==>
              LostByPick(s, c, it, slot) != s.weapons[slot].unique
  {
    var rest := Without(s.boxes[c], it.unique);
    assert ArmedAt(k, s, slot) && Loose(k, s, c) && Loose(k, s, BoxID(s));
    LostBox(k, s, BoxID(s));
    WithoutIs(s.boxes[c], it.unique);
    if rest != [] {
      UniqueOf(rest, rest[0].unique);
    }
  }

  // ----- Drops and pickups as moves -----

  datatype Move =
    | Dropping(u: nat, near: Option<nat>)
    | PickingWeapon(c: nat, it: Item, near: Option<nat>)
    | PickingOther(c: nat, it: Item, dup: Option<nat>, slot: Option<nat>)

  /** The move is one the code can make: the item is in the box, and the stack to fold is one of the same data. */
  ghost predicate Enabled(k: Kinds, s: State, m: Move) {
    match m
    case Dropping(_, _) => true
    case PickingWeapon(c, it, _) =>
      c in s.boxes && it in s.boxes[c] && k.weapon(it.data)
    case PickingOther(c, it, dup, slot) =>
      c in s.boxes && it in s.boxes[c] && !k.weapon(it.data) && Foldable(s, it, dup, slot)
  }

  /** How many uniques the move hands out. */
  function Issues(k: Kinds, m: Move): nat {
    if m.PickingWeapon? then |k.attachments(m.it.data)| else 0
  }

  ghost function After(k: Kinds, s: State, m: Move): State
    requires Enabled(k, s, m)
  {
    match m
    case Dropping(u, near) => Drop(s, u, near)
    case PickingWeapon(c, it, near) => PickWeapon(k, s, c, it, near)
    case PickingOther(c, it, dup, slot) => PickOther(s, c, it, dup, slot)
  }

  /** If the move puts something on the ground, no box is in the way of a new one. */
  ghost predicate HasRoom(k: Kinds, s: State, m: Move) {
    match m
    case Dropping(u, near) => u != 0 && u in s.uids ==> RoomFor(s, near)
    case PickingWeapon(_, it, near) => PickHasRoom(k, s, it.data, near)
    case PickingOther(_, _, _, _) => true
  }

  /** What the move drops of the data by folding two stacks into a 32-bit count. */
  function Spill(s: State, m: Move, data: nat): nat {
    if m.PickingOther? then Overflow(s, m.it, m.dup, data) else 0
  }

  lemma MoveKeeps(k: Kinds, s: State, m: Move)
    requires k.Valid() && Sound(k, s) && Enabled(k, s, m) && s.lastUid + Issues(k, m) < COUNT_RANGE
    ensures Sound(k, After(k, s, m))
  {
    match m
    case Dropping(u, near) => DropKeeps(k, s, u, near);
    case PickingWeapon(c, it, near) => PickWeaponKeeps(k, s, c, it, near);
    case PickingOther(c, it, dup, slot) => PickOtherKeeps(k, s, c, it, dup, slot);
  }

  ghost predicate NoAttachment(k: Kinds, data: nat) {
    forall d :: data !in k.attachments(d)
  }

  lemma MoveConserves(k: Kinds, s: State, m: Move, data: nat)
    requires k.Valid() && Core(k, s) && Enabled(k, s, m) && s.lastUid + Issues(k, m) < COUNT_RANGE
    requires HasRoom(k, s, m) && NoAttachment(k, data)
    ensures Total(After(k, s, m), data) + Spill(s, m, data) == Total(s, data)
  {
    match m
    case Dropping(u, near) => DropConserves(k, s, u, near, data);
    case PickingWeapon(c, it, near) => PickWeaponConserves(k, s, c, it, near, data);
    case PickingOther(c, it, dup, slot) => PickOtherConserves(k, s, c, it, dup, slot, data);
  }
}
