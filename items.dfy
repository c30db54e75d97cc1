/**
 * Any item that can lie on the map or in the backpack, and the item classes
 * as the backpack and the map name them (src/domain/objects/items/__init__.py).
 */
module Items {
  import opened RogueTypes
  import GoldItem
  import FoodItem
  import PotionItem
  import ScrollItem
  import WeaponItem

  datatype Item =
    | Gold(gold: GoldItem.Gold)
    | Food(food: FoodItem.Food)
    | Weapon(weapon: WeaponItem.Weapon)
    | Scroll(scroll: ScrollItem.Scroll)
    | Potion(potion: PotionItem.Potion)

  /** An item class, as passed to the backpack and the controller. */
  datatype ItemType = GoldType | FoodType | WeaponType | ScrollType | PotionType

  function TypeOf(item: Item): ItemType
  {
    match item
    case Gold(_) => GoldType
    case Food(_) => FoodType
    case Weapon(_) => WeaponType
    case Scroll(_) => ScrollType
    case Potion(_) => PotionType
  }

  /** `ITEMS`, in order; a mimic takes its disguise from one of them. */
  const ItemClasses: seq<ItemType> := [GoldType, FoodType, WeaponType, ScrollType, PotionType]

  function Symbol(t: ItemType): string
  {
    match t
    case GoldType => GoldItem.Symbol
    case FoodType => FoodItem.Symbol
    case WeaponType => WeaponItem.Symbol
    case ScrollType => ScrollItem.Symbol
    case PotionType => PotionItem.Symbol
  }

  function Color(t: ItemType): int
  {
    match t
    case GoldType => GoldItem.Color
    case FoodType => FoodItem.Color
    case WeaponType => WeaponItem.Color
    case ScrollType => ScrollItem.Color
    case PotionType => PotionItem.Color
  }

  /** The type label shown when a backpack compartment is full. */
  function TypeName(t: ItemType): string
  {
    match t
    case GoldType => "золото"
    case FoodType => "еда"
    case WeaponType => "оружие"
    case ScrollType => "свиток"
    case PotionType => "зелье"
  }

  /** The events `item.pick_up()` reports. */
  function PickUpEvents(item: Item): seq<RogueEvent>
  {
    match item
    case Gold(g) => GoldItem.PickUp(g).0
    case Food(f) => FoodItem.PickUp(f)
    case Weapon(w) => w.PickUp()
    case Scroll(s) => ScrollItem.PickUp(s)
    case Potion(p) => PotionItem.PickUp(p)
  }
}
