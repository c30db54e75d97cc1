/**
 * The backpack's four compartments (src/domain/objects/backpack/item_list.py):
 * food, potions, scrolls and weapons, each holding at most nine items and kept
 * sorted by its item class's `__lt__`.
 */
module ItemList {
  import opened Wrappers
  import opened RogueTypes
  import Ordering
  import opened Items
  import FoodItem
  import PotionItem
  import ScrollItem
  import WeaponItem
  import GoldItem

  const MaxItemsPerType := 9

  /** How many items of class `t` a sequence of items holds. */
  function CountOf(s: seq<Item>, t: ItemType): nat
  {
    if |s| == 0 then 0 else CountOf(s[..|s| - 1], t) + (if TypeOf(s[|s| - 1]) == t then 1 else 0)
  }

  lemma {:induction false} CountOfAppend(a: seq<Item>, b: seq<Item>, t: ItemType)
    ensures CountOf(a + b, t) == CountOf(a, t) + CountOf(b, t)
    decreases |b|
  {
    if |b| == 0 {
      assert a + b == a;
    } else {
      assert (a + b)[..|a + b| - 1] == a + b[..|b| - 1];
      assert (a + b)[|a + b| - 1] == b[|b| - 1];
      CountOfAppend(a, b[..|b| - 1], t);
    }
  }

  /** A sequence of items all of class `u` has `|s|` items of `u` and none of any other class. */
  lemma {:induction false} CountOfUniform(s: seq<Item>, u: ItemType, t: ItemType)
    requires forall i :: 0 <= i < |s| ==> TypeOf(s[i]) == u
    ensures CountOf(s, t) == if t == u then |s| else 0
  {
    if |s| > 0 {
      CountOfUniform(s[..|s| - 1], u, t);
    }
  }

  /** Each element wrapped as an item. */
  function MapSeq<T>(s: seq<T>, wrap: T -> Item): (r: seq<Item>)
    ensures |r| == |s| && forall i :: 0 <= i < |s| ==> r[i] == wrap(s[i])
  {
    seq(|s|, i requires 0 <= i < |s| => wrap(s[i]))
  }

  function FoodToItem(f: FoodItem.Food): Item { Food(f) }
  function PotionToItem(p: PotionItem.Potion): Item { Potion(p) }
  function ScrollToItem(s: ScrollItem.Scroll): Item { Scroll(s) }
  function WeaponToItem(w: WeaponItem.Weapon): Item { Weapon(w) }

  function FoodItems(s: seq<FoodItem.Food>): seq<Item> { MapSeq(s, FoodToItem) }
  function PotionItems(s: seq<PotionItem.Potion>): seq<Item> { MapSeq(s, PotionToItem) }
  function ScrollItems(s: seq<ScrollItem.Scroll>): seq<Item> { MapSeq(s, ScrollToItem) }
  function WeaponItems(s: seq<WeaponItem.Weapon>): seq<Item> { MapSeq(s, WeaponToItem) }

  function WeaponNames(ws: seq<WeaponItem.Weapon>): (r: seq<string>)
    reads ws
    ensures |r| == |ws| && forall i :: 0 <= i < |ws| ==> r[i] == ws[i].ToString()
  {
    if |ws| == 0 then [] else WeaponNames(ws[..|ws| - 1]) + [ws[|ws| - 1].ToString()]
  }

  /** The class whose compartment `type_size` and `show` select for `t`. */
  function Slotted(t: ItemType): (u: ItemType)
    ensures u != GoldType && (t != GoldType ==> u == t)
  {
    if t == GoldType then WeaponType else t
  }

  /** `str(item)`. */
  function ItemString(item: Item): string
    reads if item.Weapon? then {item.weapon} else {}
  {
    match item
    case Gold(g) => GoldItem.ToString(g)
    case Food(f) => FoodItem.ToString(f)
    case Potion(p) => PotionItem.ToString(p)
    case Scroll(s) => ScrollItem.ToString(s)
    case Weapon(w) => w.ToString()
  }

  /** The events an item's `drop` reports. */
  function DropEvents(item: Item): seq<RogueEvent>
  {
    match item
    case Gold(_) => []
    case Food(f) => FoodItem.Drop(f).0
    case Potion(p) => PotionItem.Drop(p).0
    case Scroll(s) => ScrollItem.Drop(s).0
    case Weapon(w) => [Event("Вы выбросили оружие " + w.name)]
  }

  /** The four compartments' contents at one moment. */
  datatype Shelves = Shelves(
    food: seq<FoodItem.Food>, potions: seq<PotionItem.Potion>,
    scrolls: seq<ScrollItem.Scroll>, weapons: seq<WeaponItem.Weapon>)

  /** Every compartment holds at most nine items, in sorted order. */
  predicate Tidy(c: Shelves)
  {
    && |c.food| <= MaxItemsPerType && |c.potions| <= MaxItemsPerType
    && |c.scrolls| <= MaxItemsPerType && |c.weapons| <= MaxItemsPerType
    && Ordering.Sorted(c.food, FoodItem.Less) && Ordering.Sorted(c.potions, PotionItem.Less)
    && Ordering.Sorted(c.scrolls, ScrollItem.Less) && Ordering.Sorted(c.weapons, WeaponItem.Less)
  }

  /** All items, compartment by compartment: the order the character's dump lists them in. */
  function ContentsOf(c: Shelves): seq<Item>
  {
    FoodItems(c.food) + PotionItems(c.potions) + ScrollItems(c.scrolls) + WeaponItems(c.weapons)
  }

  /** The number of items in the compartment for `t`; gold has none. */
  function LengthOf(c: Shelves, t: ItemType): nat
  {
    match t
    case FoodType => |c.food|
    case PotionType => |c.potions|
    case ScrollType => |c.scrolls|
    case WeaponType => |c.weapons|
    case GoldType => 0
  }

  /** The compartment of class `t`, as items. */
  function ItemsOf(c: Shelves, t: ItemType): (s: seq<Item>)
    ensures |s| == LengthOf(c, t) && forall i :: 0 <= i < |s| ==> TypeOf(s[i]) == t
  {
    match t
    case FoodType => FoodItems(c.food)
    case PotionType => PotionItems(c.potions)
    case ScrollType => ScrollItems(c.scrolls)
    case WeaponType => WeaponItems(c.weapons)
    case GoldType => []
  }

  /** `_add_to_list`: `item` appended to its compartment, which is then sorted. */
  function Inserted(c: Shelves, item: Item): Shelves
    requires !item.Gold?
  {
    match item
    case Food(f) => c.(food := Ordering.Insert(c.food, f, FoodItem.Less))
    case Potion(p) => c.(potions := Ordering.Insert(c.potions, p, PotionItem.Less))
    case Scroll(s) => c.(scrolls := Ordering.Insert(c.scrolls, s, ScrollItem.Less))
    case Weapon(w) => c.(weapons := Ordering.Insert(c.weapons, w, WeaponItem.Less))
  }

  /** `add` of an item other than gold: inserted when its compartment has room, refused when it is full. */
  function Offered(c: Shelves, item: Item): Shelves
    requires !item.Gold?
  {
    if LengthOf(c, TypeOf(item)) < MaxItemsPerType then Inserted(c, item) else c
  }

  /** `del lst[i]` on the compartment of class `t`. */
  function Removed(c: Shelves, t: ItemType, i: nat): Shelves
    requires t != GoldType && i < LengthOf(c, t)
  {
    match t
    case FoodType => c.(food := c.food[..i] + c.food[i + 1..])
    case PotionType => c.(potions := c.potions[..i] + c.potions[i + 1..])
    case ScrollType => c.(scrolls := c.scrolls[..i] + c.scrolls[i + 1..])
    case WeaponType => c.(weapons := c.weapons[..i] + c.weapons[i + 1..])
  }

  /** How many items of each class the shelves hold, counted over all of their contents. */
  lemma {:induction false} ContentsCount(c: Shelves, t: ItemType)
    ensures CountOf(ContentsOf(c), t) == LengthOf(c, t)
  {
    var f, p, s, w := FoodItems(c.food), PotionItems(c.potions), ScrollItems(c.scrolls), WeaponItems(c.weapons);
    CountOfAppend(f + p + s, w, t);
    CountOfAppend(f + p, s, t);
    CountOfAppend(f, p, t);
    CountOfUniform(f, FoodType, t);
    CountOfUniform(p, PotionType, t);
    CountOfUniform(s, ScrollType, t);
    CountOfUniform(w, WeaponType, t);
  }

  /**
   * Adding to a compartment with room keeps every compartment within nine
   * items and sorted, puts the item among the contents and takes nothing
   * out, and makes its compartment one longer and no other.
   */
  lemma InsertedTidy(c: Shelves, item: Item)
    requires Tidy(c) && !item.Gold? && LengthOf(c, TypeOf(item)) < MaxItemsPerType
    ensures Tidy(Inserted(c, item))
    ensures forall t :: LengthOf(Inserted(c, item), t) == LengthOf(c, t) + (if t == TypeOf(item) then 1 else 0)
  {
    match item
    case Food(f) =>
      FoodItem.LessIsStrictOrder(c.food + [f]);
      InsertKeepsSorted(c.food, f, FoodItem.Less);
    case Potion(p) =>
      PotionItem.LessIsStrictOrder(c.potions + [p]);
      InsertKeepsSorted(c.potions, p, PotionItem.Less);
    case Scroll(s) =>
      ScrollItem.LessIsStrictOrder(c.scrolls + [s]);
      InsertKeepsSorted(c.scrolls, s, ScrollItem.Less);
    case Weapon(w) =>
      WeaponItem.LessIsStrictOrder(c.weapons + [w]);
      InsertKeepsSorted(c.weapons, w, WeaponItem.Less);
  }

  /** The part of the sorted insertion a compartment needs: still sorted, one longer. */
  lemma InsertKeepsSorted<T>(s: seq<T>, x: T, less: (T, T) -> bool)
    requires Ordering.StrictOrderOn(s + [x], less) && Ordering.Sorted(s, less)
    ensures Ordering.Sorted(Ordering.Insert(s, x, less), less) && |Ordering.Insert(s, x, less)| == |s| + 1
  {
    Ordering.InsertSorted(s, x, less);
  }

  /** One of four parts grown by `x` grows their sum by `x`. */
  lemma Regroup<T>(a: multiset<T>, b: multiset<T>, c: multiset<T>, d: multiset<T>, x: multiset<T>)
    ensures (a + x) + b + c + d == (a + b + c + d) + x && a + (b + x) + c + d == (a + b + c + d) + x
    ensures a + b + (c + x) + d == (a + b + c + d) + x && a + b + c + (d + x) == (a + b + c + d) + x
  {
  }

  lemma AddThenTake<T>(m: multiset<T>, x: multiset<T>)
    ensures (m + x) - x == m
  {
  }

  /** The contents as a multiset: the four compartments' together. */
  lemma ContentsMultiset(c: Shelves)
    ensures multiset(ContentsOf(c))
      == multiset(FoodItems(c.food)) + multiset(PotionItems(c.potions)) + multiset(ScrollItems(c.scrolls)) + multiset(WeaponItems(c.weapons))
  {
  }

  /** Adding puts exactly the item among the contents. */
  lemma InsertedContents(c: Shelves, item: Item)
    requires !item.Gold?
    ensures multiset(ContentsOf(Inserted(c, item))) == multiset(ContentsOf(c)) + multiset{item}
  {
    var r := Inserted(c, item);
    var f, p, s, w := multiset(FoodItems(c.food)), multiset(PotionItems(c.potions)), multiset(ScrollItems(c.scrolls)), multiset(WeaponItems(c.weapons));
    ContentsMultiset(c);
    ContentsMultiset(r);
    Regroup(f, p, s, w, multiset{item});
    match item
    case Food(x) =>
      InsertedItems(c.food, x, FoodItem.Less, FoodToItem);
    case Potion(x) =>
      InsertedItems(c.potions, x, PotionItem.Less, PotionToItem);
    case Scroll(x) =>
      InsertedItems(c.scrolls, x, ScrollItem.Less, ScrollToItem);
    case Weapon(x) =>
      InsertedItems(c.weapons, x, WeaponItem.Less, WeaponToItem);
  }

  /** Deleting keeps every compartment within nine items and sorted. */
  lemma RemovedTidy(c: Shelves, t: ItemType, i: nat)
    requires Tidy(c) && t != GoldType && i < LengthOf(c, t)
    ensures Tidy(Removed(c, t, i))
  {
    match t
    case FoodType => Ordering.RemoveSorted(c.food, i, FoodItem.Less);
    case PotionType => Ordering.RemoveSorted(c.potions, i, PotionItem.Less);
    case ScrollType => Ordering.RemoveSorted(c.scrolls, i, ScrollItem.Less);
    case WeaponType => Ordering.RemoveSorted(c.weapons, i, WeaponItem.Less);
  }

  /** Deleting slot `i` takes exactly that item out of the contents. */
  lemma RemovedContents(c: Shelves, t: ItemType, i: nat)
    requires t != GoldType && i < LengthOf(c, t)
    ensures multiset(ContentsOf(Removed(c, t, i))) == multiset(ContentsOf(c)) - multiset{ItemsOf(c, t)[i]}
  {
    var r := Removed(c, t, i);
    var x := multiset{ItemsOf(c, t)[i]};
    ContentsMultiset(c);
    ContentsMultiset(r);
    Regroup(multiset(FoodItems(r.food)), multiset(PotionItems(r.potions)), multiset(ScrollItems(r.scrolls)), multiset(WeaponItems(r.weapons)), x);
    AddThenTake(multiset(ContentsOf(r)), x);
    match t
    case FoodType => RemovedItems(c.food, i, FoodToItem);
    case PotionType => RemovedItems(c.potions, i, PotionToItem);
    case ScrollType => RemovedItems(c.scrolls, i, ScrollToItem);
    case WeaponType => RemovedItems(c.weapons, i, WeaponToItem);
  }

  /**
   * Deleting slot `i` closes the gap in its compartment with the other items
   * in their order and leaves every other compartment as it was.
   */
  lemma RemovedCompartments(c: Shelves, t: ItemType, i: nat)
    requires t != GoldType && i < LengthOf(c, t)
    ensures ItemsOf(Removed(c, t, i), t) == ItemsOf(c, t)[..i] + ItemsOf(c, t)[i + 1..]
    ensures forall u :: u != t ==> ItemsOf(Removed(c, t, i), u) == ItemsOf(c, u)
  {
    match t
    case FoodType => RemovedItems(c.food, i, FoodToItem);
    case PotionType => RemovedItems(c.potions, i, PotionToItem);
    case ScrollType => RemovedItems(c.scrolls, i, ScrollToItem);
    case WeaponType => RemovedItems(c.weapons, i, WeaponToItem);
  }

  class ItemList {
    var food: seq<FoodItem.Food>
    var potions: seq<PotionItem.Potion>
    var scrolls: seq<ScrollItem.Scroll>
    var weapons: seq<WeaponItem.Weapon>

    function State(): Shelves
      reads this
    {
      Shelves(food, potions, scrolls, weapons)
    }

    ghost predicate Valid()
      reads this
    {
      Tidy(State())
    }

    constructor()
      ensures Valid() && State() == Shelves([], [], [], [])
    {
      food, potions, scrolls, weapons := [], [], [], [];
    }

    function Contents(): seq<Item>
      reads this
    {
      ContentsOf(State())
    }

    /** `size`: how many items the backpack holds. */
    function Size(): (n: nat)
      reads this
      ensures n == |Contents()|
    {
      |food| + |potions| + |scrolls| + |weapons|
    }

    /**
     * The compartment `type_size` and `show` look at for class `t`: food,
     * potions or scrolls for those classes, the weapons for any other class.
     */
    function Compartment(t: ItemType): seq<Item>
      reads this
    {
      ItemsOf(State(), Slotted(t))
    }

    /** `type_size`: how many items of class `t` there are; any class but the three others counts weapons. */
    function TypeSize(t: ItemType): (n: nat)
      reads this
      ensures n == CountOf(Contents(), Slotted(t)) == |Compartment(t)|
    {
      ContentsCount(State(), Slotted(t));
      if t == FoodType then |food|
      else if t == PotionType then |potions|
      else if t == ScrollType then |scrolls|
      else |weapons|
    }

    function Length(t: ItemType): nat
      reads this
    {
      LengthOf(State(), t)
    }

    /**
     * `add`: an item other than gold goes into its compartment, at the place
     * a stable sort gives it, when the compartment holds fewer than nine
     * items; otherwise nothing changes.
     */
    method Add(item: Item) returns (added: bool)
      requires Valid()
      modifies this
      ensures Valid()
      ensures added <==> !item.Gold? && old(Length(TypeOf(item))) < MaxItemsPerType
      ensures State() == if added then Inserted(old(State()), item) else old(State())
    {
      added := !item.Gold? && Length(TypeOf(item)) < MaxItemsPerType;
      if added {
        InsertedTidy(State(), item);
        match item {
        case Food(f) => food := Ordering.Insert(food, f, FoodItem.Less);
        case Potion(p) => potions := Ordering.Insert(potions, p, PotionItem.Less);
        case Scroll(s) => scrolls := Ordering.Insert(scrolls, s, ScrollItem.Less);
        case Weapon(w) => weapons := Ordering.Insert(weapons, w, WeaponItem.Less);
        }
      }
    }

    /** `del lst[i]` on the compartment of class `t`. */
    method Delete(t: ItemType, i: nat)
      requires Valid() && t != GoldType && i < Length(t)
      modifies this
      ensures Valid()
      ensures State() == Removed(old(State()), t, i)
    {
      RemovedTidy(State(), t, i);
      match t {
      case FoodType => food := food[..i] + food[i + 1..];
      case PotionType => potions := potions[..i] + potions[i + 1..];
      case ScrollType => scrolls := scrolls[..i] + scrolls[i + 1..];
      case WeaponType => weapons := weapons[..i] + weapons[i + 1..];
      }
    }

    /** The index Python's `lst[slot]` reads: negative slots count from the end. */
    static function PyIndex(slot: int, n: nat): int
    {
      if slot < 0 then slot + n else slot
    }

    /**
     * `drop`: removes the item at `slot` of the compartment for `t` and
     * returns it with its drop events (a weapon dropped is no longer held).
     * A slot outside the list is an IndexError; the gold class has no
     * compartment.
     */
    method Drop(t: ItemType, slot: int) returns (r: Result<(seq<RogueEvent>, Item)>)
      requires Valid()
      modifies this, weapons
      ensures Valid()
      ensures t == GoldType ==> r.Failure? && r.error.NotImplementedError?
      ensures t != GoldType ==> (r.Success? <==> 0 <= PyIndex(slot, old(Length(t))) < old(Length(t)))
      ensures r.Failure? ==> State() == old(State())
      ensures r.Success? ==> var i := PyIndex(slot, old(Length(t)));
        && r.value == (DropEvents(r.value.1), old(ItemsOf(State(), t))[i])
        && State() == Removed(old(State()), t, i)
      ensures r.Success? && t == WeaponType ==> !r.value.1.weapon.held
      ensures forall w :: w in old(weapons) && (r.Failure? || r.value.1 != Weapon(w)) ==> w.held == old(w.held)
    {
      if t == GoldType {
        return Failure(NotImplementedError("Unknown item type"));
      }
      var n := Length(t);
      var i := PyIndex(slot, n);
      if !(0 <= i < n) {
        return Failure(IndexError("list index out of range"));
      }
      var item := ItemsOf(State(), t)[i];
      var events;
      match item {
      case Food(f) => events := FoodItem.Drop(f).0;
      case Potion(p) => events := PotionItem.Drop(p).0;
      case Scroll(s) => events := ScrollItem.Drop(s).0;
      case Weapon(w) => events := w.Drop();
      }
      Delete(t, i);
      return Success((events, item));
    }

    /**
     * `use`: food, a potion or a scroll leaves its compartment and is
     * returned; a weapon stays where it is and is returned unless it is
     * already held (then None, with a message).
     */
    method Use(t: ItemType, slot: int) returns (r: Result<(seq<RogueEvent>, Option<Item>)>)
      requires Valid()
      modifies this
      ensures Valid()
      ensures t == GoldType ==> r.Failure? && r.error.NotImplementedError?
      ensures t != GoldType ==> (r.Success? <==> 0 <= PyIndex(slot, old(Length(t))) < old(Length(t)))
      ensures r.Failure? || t == WeaponType ==> State() == old(State())
      ensures r.Success? ==> var i := PyIndex(slot, old(Length(t)));
        var item := old(ItemsOf(State(), t))[i];
        if t == WeaponType then r.value == if item.weapon.held then ([Event(HeldMessage)], None) else ([], Some(item))
        else r.value == ([], Some(item)) && State() == Removed(old(State()), t, i)
    {
      if t == GoldType {
        return Failure(NotImplementedError("Unknown item type"));
      }
      var n := Length(t);
      var i := PyIndex(slot, n);
      if !(0 <= i < n) {
        return Failure(IndexError("list index out of range"));
      }
      var item := ItemsOf(State(), t)[i];
      if t == WeaponType {
        if item.weapon.held {
          return Success(([Event(HeldMessage)], None));
        }
        return Success(([], Some(item)));
      }
      Delete(t, i);
      return Success(([], Some(item)));
    }

    /** `show`: the items of the compartment for `t` as text, in slot order. */
    function Show(t: ItemType): (lines: seq<string>)
      reads this, weapons
      ensures |lines| == TypeSize(t)
      ensures forall i :: 0 <= i < |lines| ==> lines[i] == ItemString(Compartment(t)[i])
    {
      var f, p, s := food, potions, scrolls;
      if t == FoodType then seq(|f|, i requires 0 <= i < |f| => FoodItem.ToString(f[i]))
      else if t == PotionType then seq(|p|, i requires 0 <= i < |p| => PotionItem.ToString(p[i]))
      else if t == ScrollType then seq(|s|, i requires 0 <= i < |s| => ScrollItem.ToString(s[i]))
      else WeaponNames(weapons)
    }
  }

  const HeldMessage := "Это оружие уже в руках"

  /** Wrapping each element as an item commutes with the sorted insertion. */
  lemma InsertedItems<T>(s: seq<T>, x: T, less: (T, T) -> bool, wrap: T -> Item)
    ensures multiset(MapSeq(Ordering.Insert(s, x, less), wrap)) == multiset(MapSeq(s, wrap)) + multiset{wrap(x)}
  {
    var k := Ordering.InsertPos(s, x, less);
    var r := Ordering.Insert(s, x, less);
    var ws := MapSeq(s, wrap);
    var wr := MapSeq(r, wrap);
    assert r == s[..k] + [x] + s[k..];
    forall i | 0 <= i < |wr|
      ensures wr[i] == (ws[..k] + [wrap(x)] + ws[k..])[i]
    {
      if i < k {
        assert r[i] == s[i];
      } else if i > k {
        assert r[i] == s[i - 1];
      }
    }
    assert wr == ws[..k] + [wrap(x)] + ws[k..];
    assert ws == ws[..k] + ws[k..];
  }

  /** Wrapping each element as an item commutes with deleting one element. */
  lemma RemovedItems<T>(s: seq<T>, i: nat, wrap: T -> Item)
    requires i < |s|
    ensures MapSeq(s[..i] + s[i + 1..], wrap) == MapSeq(s, wrap)[..i] + MapSeq(s, wrap)[i + 1..]
    ensures multiset(MapSeq(s, wrap)) == multiset(MapSeq(s[..i] + s[i + 1..], wrap)) + multiset{wrap(s[i])}
  {
    var ws := MapSeq(s, wrap);
    var wr := MapSeq(s[..i] + s[i + 1..], wrap);
    forall j | 0 <= j < |wr|
      ensures wr[j] == (ws[..i] + ws[i + 1..])[j]
    {
      if j >= i {
        assert (s[..i] + s[i + 1..])[j] == s[j + 1];
      }
    }
    assert wr == ws[..i] + ws[i + 1..];
    assert ws == ws[..i] + [ws[i]] + ws[i + 1..];
  }
}
