/**
 What the other players are told about a player's slots: equipSnapshot and broadcastEquipDiff of match-server/equip.go.
 */
module EquipDiff {
  import opened Loadout

  /** A slot changed: out left it and the item in came, 0 standing for none. */
  datatype Change = Change(slot: nat, out: nat, into: nat, data: nat)

  /** The unique in a slot; no entry and the fist's entry 0 mean the same to a viewer. */
  function At(slots: map<nat, nat>, slot: nat): nat {
    if slot in slots then slots[slot] else 0
  }

  function Snapshot(eq: seq<Slotted>): map<nat, nat> {
    if eq == [] then map[] else Snapshot(eq[..|eq| - 1])[eq[|eq| - 1].slot := eq[|eq| - 1].unique]
  }

  /** What a viewer who knew the old slots makes of the changes. */
  function Replay(slots: map<nat, nat>, changes: seq<Change>): map<nat, nat> {
    if changes == [] then slots
    else Replay(slots, changes[..|changes| - 1])[changes[|changes| - 1].slot := changes[|changes| - 1].into]
  }

  lemma SnapshotMore(eq: seq<Slotted>, e: Slotted)
    ensures Snapshot(eq + [e]) == Snapshot(eq)[e.slot := e.unique]
  {
    assert (eq + [e])[..|eq|] == eq;
  }

  lemma ReplayMore(slots: map<nat, nat>, changes: seq<Change>, c: Change)
    ensures Replay(slots, changes + [c]) == Replay(slots, changes)[c.slot := c.into]
  {
    assert (changes + [c])[..|changes|] == changes;
  }

  lemma {:induction false} SnapshotHas(eq: seq<Slotted>, slot: nat)
    ensures slot in Snapshot(eq) <==> exists i :: 0 <= i < |eq| && eq[i].slot == slot
    decreases |eq|
  {
    if eq != [] {
      SnapshotHas(eq[..|eq| - 1], slot);
      assert forall i :: 0 <= i < |eq| - 1 ==> eq[..|eq| - 1][i] == eq[i];
      if slot in Snapshot(eq) && eq[|eq| - 1].slot != slot {
        var i :| 0 <= i < |eq| - 1 && eq[..|eq| - 1][i].slot == slot;
        assert eq[i].slot == slot;
      }
    }
  }

  lemma {:induction false} SnapshotIs(eq: seq<Slotted>, i: nat)
    requires OneEach(eq) && i < |eq|
    ensures eq[i].slot in Snapshot(eq) && Snapshot(eq)[eq[i].slot] == eq[i].unique
    decreases |eq|
  {
    if i < |eq| - 1 {
      SnapshotIs(eq[..|eq| - 1], i);
      assert eq[|eq| - 1].slot != eq[i].slot;
    }
  }

  /** Every change is a real one: it takes out what was in the slot, and puts in what is there now. */
  ghost predicate Real(before: map<nat, nat>, eq: seq<Slotted>, c: Change) {
    && c.out == At(before, c.slot) && c.into == At(Snapshot(eq), c.slot) && c.out != c.into
    && (c.into != 0 || c.data != 0 ==> Slotted(c.slot, c.data, c.into) in eq)
  }

  method EquipSnapshot(eq: seq<Slotted>) returns (snap: map<nat, nat>)
    ensures snap == Snapshot(eq)
  {
    snap := map[];
    for i := 0 to |eq|
      invariant snap == Snapshot(eq[..i])
    {
      assert eq[..i + 1] == eq[..i] + [eq[i]];
      SnapshotMore(eq[..i], eq[i]);
      snap := snap[eq[i].slot := eq[i].unique];
    }
    assert eq[..|eq|] == eq;
  }

  /** The changes for the slots that the list has: those whose item is another one now. */
  method Gained(before: map<nat, nat>, eq: seq<Slotted>) returns (sent: seq<Change>, seen: set<nat>)
    requires OneEach(eq)
    ensures seen == Snapshot(eq).Keys && forall c :: c in sent ==> Real(before, eq, c)
    ensures forall slot :: At(Replay(before, sent), slot) ==
                           if slot in Snapshot(eq) then Snapshot(eq)[slot] else At(before, slot)
  {
    sent, seen := [], {};
    for i := 0 to |eq|
      invariant seen == Snapshot(eq[..i]).Keys && forall c :: c in sent ==> Real(before, eq, c)
      invariant forall slot :: At(Replay(before, sent), slot) ==
                               if slot in Snapshot(eq[..i]) then Snapshot(eq[..i])[slot] else At(before, slot)
    {
      var e := eq[i];
      assert eq[..i + 1] == eq[..i] + [e];
      SnapshotMore(eq[..i], e);
      SnapshotHas(eq[..i], e.slot);
      SnapshotIs(eq, i);
      seen := seen + {e.slot};
      if At(before, e.slot) != e.unique {
        ReplayMore(before, sent, Change(e.slot, At(before, e.slot), e.unique, e.data));
        sent := sent + [Change(e.slot, At(before, e.slot), e.unique, e.data)];
      }
    }
    assert eq[..|eq|] == eq;
  }

  /** broadcastEquipDiff: a viewer who replays the changes on the slots he knew has the slots as they are now. */
  method BroadcastEquipDiff(before: map<nat, nat>, eq: seq<Slotted>) returns (sent: seq<Change>)
    requires OneEach(eq)
    ensures forall slot :: At(Replay(before, sent), slot) == At(Snapshot(eq), slot)
    ensures forall c :: c in sent ==> Real(before, eq, c)
    ensures sent == [] <==> forall slot :: At(before, slot) == At(Snapshot(eq), slot)
  {
    var seen: set<nat>;
    sent, seen := Gained(before, eq);
    var pending := before.Keys;
    while pending != {}
      invariant pending <= before.Keys && forall c :: c in sent ==> Real(before, eq, c)
      invariant forall slot :: At(Replay(before, sent), slot) ==
                               if slot in Snapshot(eq) then Snapshot(eq)[slot]
                               else if slot in pending then At(before, slot) else 0
      decreases pending
    {
      var slot :| slot in pending;
      pending := pending - {slot};
      if slot !in seen && before[slot] != 0 {
        ReplayMore(before, sent, Change(slot, before[slot], 0, 0));
        sent := sent + [Change(slot, before[slot], 0, 0)];
      }
    }
    if sent != [] {
      assert Real(before, eq, sent[0]);
    }
  }
}
