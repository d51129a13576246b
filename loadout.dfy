// The home page's three-slot team loadout editor: which card sits in which slot, which slot the
// picker is open for, and the message shown when a battle cannot start yet.

module Loadout {
  import opened Common
  import opened Catalogue

  const SlotCount: nat := 3
  const SelectThreeMessage: string := "Select 3 cards in your loadout to start battle."
  const BattlePath: string := "/battle?loadout="

  type Slots = seq<Option<InventoryCard>>

  /** The ids of the filled slots, in slot order (`loadout.filter(Boolean).map(card => card.id)`). */
  function FilledIds(slots: Slots): (ids: seq<string>)
    ensures |ids| <= |slots|
  {
    if slots == [] then []
    else (match slots[0] case Some(c) => [c.id] case None => []) + FilledIds(slots[1..])
  }

  /** The ids assigned to some slot (`assignedCardIds`). */
  function AssignedIds(slots: Slots): set<string>
  {
    set i | 0 <= i < |slots| && slots[i].Some? :: slots[i].value.id
  }

  /** A picker entry is disabled when its card sits in a slot other than the active one. */
  predicate IsDisabled(slots: Slots, active: nat, card: InventoryCard)
    requires active < |slots|
  {
    card.id in AssignedIds(slots) && !(slots[active].Some? && slots[active].value.id == card.id)
  }

  /** No id occupies two slots. */
  predicate DistinctSlots(slots: Slots)
  {
    forall i, j :: 0 <= i < |slots| && 0 <= j < |slots| && i != j && slots[i].Some? && slots[j].Some?
      ==> slots[i].value.id != slots[j].value.id
  }

  /** Every slot filled. */
  predicate Full(slots: Slots)
  {
    forall i :: 0 <= i < |slots| ==> slots[i].Some?
  }

  /** The filled ids fill the whole list exactly when every slot is filled. */
  lemma {:induction false} FilledIdsFull(slots: Slots)
    ensures |FilledIds(slots)| == |slots| <==> Full(slots)
  {
    if slots != [] {
      FilledIdsFull(slots[1..]);
      if slots[0].None? {
        assert !Full(slots);
      } else {
        if Full(slots[1..]) {
          assert Full(slots) by {
            forall i | 0 <= i < |slots| ensures slots[i].Some? {
              if i > 0 { assert slots[i] == slots[1..][i - 1]; }
            }
          }
        }
        if Full(slots) {
          assert Full(slots[1..]) by {
            forall i | 0 <= i < |slots| - 1 ensures slots[1..][i].Some? {
              assert slots[1..][i] == slots[i + 1];
            }
          }
        }
      }
    }
  }

  /** When every slot is filled, the ids are the slots' ids in slot order. */
  lemma {:induction false} FilledIdsOfFull(slots: Slots)
    requires Full(slots)
    ensures |FilledIds(slots)| == |slots|
    ensures forall i :: 0 <= i < |slots| ==> FilledIds(slots)[i] == slots[i].value.id
  {
    if slots != [] {
      assert Full(slots[1..]) by {
        forall i | 0 <= i < |slots| - 1 ensures slots[1..][i].Some? {
          assert slots[1..][i] == slots[i + 1];
        }
      }
      FilledIdsOfFull(slots[1..]);
      forall i | 1 <= i < |slots| ensures FilledIds(slots)[i] == slots[i].value.id {
        assert slots[1..][i - 1] == slots[i];
      }
    }
  }

  /** Placing an enabled picker entry in the active slot never puts one id in two slots. */
  lemma PickKeepsDistinct(slots: Slots, active: nat, card: InventoryCard)
    requires active < |slots| && DistinctSlots(slots) && !IsDisabled(slots, active, card)
    ensures DistinctSlots(slots[active := Some(card)])
  {
    var next := slots[active := Some(card)];
    forall i, j | 0 <= i < |next| && 0 <= j < |next| && i != j && next[i].Some? && next[j].Some?
      ensures next[i].value.id != next[j].value.id
    {
      if i == active {
        assert slots[j].value.id in AssignedIds(slots);
      } else if j == active {
        assert slots[i].value.id in AssignedIds(slots);
      }
    }
  }

  class LoadoutEditor {
    var slots: Slots
    var activeSlot: Option<nat>
    var battleMessage: Option<string>

    /** Three slots, and the picker, when open, belongs to one of them. */
    predicate Valid()
      reads this
    {
      |slots| == SlotCount && (activeSlot.Some? ==> activeSlot.value < SlotCount)
    }

    constructor ()
      ensures slots == [None, None, None] && activeSlot.None? && battleMessage.None?
      ensures Valid() && DistinctSlots(slots)
    {
      slots := [None, None, None];
      activeSlot := None;
      battleMessage := None;
    }

    /** Clicking slot `index` opens the picker for it. */
    method OpenPicker(index: nat)
      requires Valid() && index < SlotCount
      modifies this
      ensures Valid() && activeSlot == Some(index)
      ensures slots == old(slots) && battleMessage == old(battleMessage)
    {
      activeSlot := Some(index);
    }

    /** The picker's Close button. */
    method ClosePicker()
      requires Valid()
      modifies this
      ensures Valid() && activeSlot.None?
      ensures slots == old(slots) && battleMessage == old(battleMessage)
    {
      activeSlot := None;
    }

    /** `selectCardForSlot`: without an open picker nothing changes; otherwise only the active
        slot takes the card and the picker closes. */
    method SelectCardForSlot(card: InventoryCard)
      requires Valid()
      modifies this
      ensures Valid() && battleMessage == old(battleMessage)
      ensures old(activeSlot).None? ==> slots == old(slots) && activeSlot.None?
      ensures old(activeSlot).Some? ==>
        slots == old(slots)[old(activeSlot).value := Some(card)] && activeSlot.None?
    {
      if activeSlot.None? {
        return;
      }
      var next := slots;
      next := next[activeSlot.value := Some(card)];
      slots := next;
      activeSlot := None;
    }

    /** A click on a picker entry: a disabled entry does not react, an enabled one selects its card. */
    method ClickPickerEntry(card: InventoryCard)
      requires Valid() && activeSlot.Some?
      modifies this
      ensures Valid() && battleMessage == old(battleMessage)
      ensures IsDisabled(old(slots), old(activeSlot).value, card) ==>
        slots == old(slots) && activeSlot == old(activeSlot)
      ensures !IsDisabled(old(slots), old(activeSlot).value, card) ==>
        slots == old(slots)[old(activeSlot).value := Some(card)] && activeSlot.None?
      ensures DistinctSlots(old(slots)) ==> DistinctSlots(slots)
    {
      if IsDisabled(slots, activeSlot.value, card) {
        return;
      }
      if DistinctSlots(slots) {
        PickKeepsDistinct(slots, activeSlot.value, card);
      }
      SelectCardForSlot(card);
    }

    /** `clearSlot`: slot `index` becomes empty and every other slot is kept. */
    method ClearSlot(index: nat)
      requires Valid() && index < SlotCount
      modifies this
      ensures Valid() && activeSlot == old(activeSlot) && battleMessage == old(battleMessage)
      ensures |slots| == |old(slots)| && slots[index].None?
      ensures forall i :: 0 <= i < |slots| && i != index ==> slots[i] == old(slots)[i]
      ensures DistinctSlots(old(slots)) ==> DistinctSlots(slots)
    {
      var next := slots;
      next := next[index := None];
      slots := next;
    }

    /** `startBattle`: with a slot still empty it shows the message and stays; with all three
        filled it clears the message and navigates with the ids joined by commas in slot order. */
    method StartBattle() returns (navigateTo: Option<string>)
      requires Valid()
      modifies this
      ensures Valid() && slots == old(slots) && activeSlot == old(activeSlot)
      ensures !Full(slots) ==> battleMessage == Some(SelectThreeMessage) && navigateTo.None?
      ensures Full(slots) ==> battleMessage.None?
      ensures Full(slots) ==>
        navigateTo == Some(BattlePath + Join([slots[0].value.id, slots[1].value.id, slots[2].value.id], ','))
    {
      var selectedIds := FilledIds(slots);
      FilledIdsFull(slots);
      if |selectedIds| < 3 {
        battleMessage := Some(SelectThreeMessage);
        navigateTo := None;
        return;
      }
      FilledIdsOfFull(slots);
      assert selectedIds == [slots[0].value.id, slots[1].value.id, slots[2].value.id];
      battleMessage := None;
      navigateTo := Some(BattlePath + Join(selectedIds, ','));
    }
  }
}
