/**
 * The backpack (src/domain/objects/backpack/backpack.py): the player-facing
 * side of the item list, which counts slots from 1 and turns a bad slot into
 * a message instead of an error.
 */
module Backpack {
  import opened Wrappers
  import opened RogueTypes
  import opened Items
  import IL = ItemList
  import WeaponItem

  const MinSlot := 1
  const MaxSlot := 9

  /** The message for a slot outside `1..n`. */
  function SlotMessage(n: nat): string
  {
    if n == 0 then "Отделение пусто" else "Неверный слот. Введите слот от 1) до " + NatToString(n) + ")"
  }

  function FullMessage(t: ItemType): string
  {
    "Отделение для предметов типа '" + TypeName(t) + "' переполнено."
  }

  class Backpack {
    const items: IL.ItemList

    ghost predicate Valid()
      reads this, items
    {
      items.Valid()
    }

    constructor()
      ensures Valid() && fresh(items) && items.Size() == 0
    {
      items := new IL.ItemList();
    }

    /**
     * `add_item`: gold is refused with a TypeError; anything else goes to
     * the item list, whose answer is returned with the pick-up events or a
     * message that the compartment is full.
     */
    method AddItem(item: Item) returns (r: Result<(seq<RogueEvent>, bool)>)
      requires Valid()
      modifies items
      ensures Valid()
      ensures item.Gold? <==> r.Failure?
      ensures r.Failure? ==> r.error.TypeError? && items.State() == old(items.State())
      ensures r.Success? ==> var (events, added) := r.value;
        && (added <==> old(items.Length(TypeOf(item))) < IL.MaxItemsPerType)
        && events == (if added then PickUpEvents(item) else [Event(FullMessage(TypeOf(item)))])
        && items.State() == if added then IL.Inserted(old(items.State()), item) else old(items.State())
    {
      if item.Gold? {
        return Failure(TypeError("You're trying to add gold to backpack"));
      }
      var added := items.Add(item);
      var events := if added then PickUpEvents(item) else [Event(FullMessage(TypeOf(item)))];
      return Success((events, added));
    }

    /**
     * `drop_item`: a slot from 1 to the compartment's size drops the item at
     * index slot - 1; any other slot leaves the backpack as it was and says
     * why. The gold class has no compartment, so a slot that passes the
     * check (it is counted against the weapons) ends in NotImplementedError.
     * A dropped weapon is no longer held; every other weapon keeps its flag.
     */
    method DropItem(t: ItemType, slot: int) returns (r: Result<(seq<RogueEvent>, Option<Item>)>)
      requires Valid()
      modifies items, items.weapons
      ensures Valid()
      ensures var n := old(items.TypeSize(t));
        !(MinSlot <= slot <= n) ==> r == Success(([Event(SlotMessage(n))], None)) && items.State() == old(items.State())
      ensures var n := old(items.TypeSize(t));
        MinSlot <= slot <= n && t == GoldType ==> r.Failure? && items.State() == old(items.State())
      ensures var n := old(items.TypeSize(t));
        MinSlot <= slot <= n && t != GoldType ==>
          var item := old(items.Compartment(t))[slot - 1];
          && r == Success((IL.DropEvents(item), Some(item)))
          && items.State() == IL.Removed(old(items.State()), t, slot - 1)
      ensures r.Success? && t == WeaponType && r.value.1.Some? ==> !r.value.1.value.weapon.held
      ensures forall w :: w in old(items.weapons) && (r.Failure? || r.value.1 != Some(Weapon(w))) ==> w.held == old(w.held)
    {
      var n := items.TypeSize(t);
      if MinSlot <= slot <= n {
        var dropped := items.Drop(t, slot - 1);
        if dropped.Failure? {
          return Failure(dropped.error);
        }
        return Success((dropped.value.0, Some(dropped.value.1)));
      }
      return Success(([Event(SlotMessage(n))], None));
    }

    /**
     * `use_item`: the same slot check as `drop_item`; a slot in range uses
     * the item at index slot - 1 (food, potions and scrolls leave the
     * backpack, a weapon stays and is returned only if not already held).
     */
    method UseItem(t: ItemType, slot: int) returns (r: Result<(seq<RogueEvent>, Option<Item>)>)
      requires Valid()
      modifies items
      ensures Valid()
      ensures var n := old(items.TypeSize(t));
        !(MinSlot <= slot <= n) ==> r == Success(([Event(SlotMessage(n))], None)) && items.State() == old(items.State())
      ensures var n := old(items.TypeSize(t));
        MinSlot <= slot <= n && t == GoldType ==> r.Failure? && items.State() == old(items.State())
      ensures var n := old(items.TypeSize(t));
        MinSlot <= slot <= n && t != GoldType ==>
          var item := old(items.Compartment(t))[slot - 1];
          if t == WeaponType then
            && r == Success(if item.weapon.held then ([Event(IL.HeldMessage)], None) else ([], Some(item)))
            && items.State() == old(items.State())
          else r == Success(([], Some(item))) && items.State() == IL.Removed(old(items.State()), t, slot - 1)
    {
      var n := items.TypeSize(t);
      if MinSlot <= slot <= n {
        var used := items.Use(t, slot - 1);
        if used.Failure? {
          return Failure(used.error);
        }
        return Success(used.value);
      }
      return Success(([Event(SlotMessage(n))], None));
    }

    /**
     * `drop_weapon`: None changes nothing; a weapon is removed from the
     * weapons compartment where it first appears (`list.remove`), and a
     * weapon that is not there is a ValueError.
     */
    method DropWeapon(w: WeaponItem.Weapon?) returns (r: Result<()>)
      requires Valid()
      modifies items
      ensures Valid()
      ensures w == null ==> r.Success?
      ensures w != null ==> (r.Success? <==> w in old(items.weapons))
      ensures r.Failure? ==> r.error.ValueError?
      ensures w == null || r.Failure? ==> items.State() == old(items.State())
      ensures w != null && r.Success? ==>
        exists k :: && 0 <= k < |old(items.weapons)|
                    && old(items.weapons)[k] == w && w !in old(items.weapons)[..k]
                    && items.State() == IL.Removed(old(items.State()), WeaponType, k)
    {
      if w == null {
        return Success(());
      }
      var k := 0;
      while k < |items.weapons| && items.weapons[k] != w
        invariant 0 <= k <= |items.weapons|
        invariant w !in items.weapons[..k]
      {
        k := k + 1;
      }
      if k == |items.weapons| {
        assert items.weapons[..k] == items.weapons;
        return Failure(ValueError("list.remove(x): x not in list"));
      }
      items.Delete(WeaponType, k);
      return Success(());
    }

    /** `show_items`: the compartment's items as text, in slot order. */
    function ShowItems(t: ItemType): (lines: seq<string>)
      reads this, items, items.weapons
      ensures |lines| == items.TypeSize(t)
      ensures forall i :: 0 <= i < |lines| ==> lines[i] == IL.ItemString(items.Compartment(t)[i])
    {
      items.Show(t)
    }
  }
}
