# A verified model of a terminal roguelike's game core

This project models, in Dafny, the core of a turn-based roguelike written in
Python: a level is a 3 x 3 grid of rooms joined by corridors, some doors are
locked and their keys are scattered so that each can be fetched, a character
walks, fights, picks up items and gains levels, and the enemies take their
turns after every move of the character. The model follows the source class
by class. Objects whose fields the game updates in place (the character, an
enemy, a room, a corridor, a door, the backpack and its compartments, the
statistics record, the level map, the controller) are Dafny classes with
`modifies` frames. Values (items, effects, saved records, events) are
datatypes. Every loop of the source is a loop with its invariants.

Every random draw (`randint`, `choice`, `sample`, `uniform`, `random`) and
the float hit test `is_enemy_hits` is a parameter of the member that draws
it, constrained to the range the source draws from.

The modules, in the order of the source tree:

- `RogueTypes`, `Wrappers`: coordinates, effect kinds, the error values of the
  exceptions the source raises, `Result`/`Option`.
- `Items`, `FoodItem`, `PotionItem`, `ScrollItem`, `WeaponItem`, `GoldItem`
  (`src/domain/objects/items`): the item variants, their effects, orderings
  and dump/load round trips, and the spelling of gold amounts.
- `ItemList`, `Backpack` (`src/domain/objects/backpack`): four sorted
  compartments capped at nine items, with one-based slots.
- `EffectBag`, `Character`, `CharacterSave` (`character.py`): the timed
  effects, the character's attributes, fights, experience and level-up loop,
  weapon handling, and `_dump`/`_load` with their round trip.
- `Enemies` (`enemy.py` and its variants): attributes scaled by level,
  health floored at 0, experience, engagement, and the special rules of the
  vampire, mimic, ogre, snake mage and ghost.
- `Rooms`, `Corridors` (`room.py`, `corridor.py`): rooms as inclusive
  rectangles with their objects, items, keys, exits and doors; corridors as
  straight or three-segment paths between two doors.
- `LockedDoors` (`keys.py`): the reachability search over the room graph and
  the round-by-round locking of doors and placing of keys, proved to put each
  key where it can be reached without the key itself.
- `RoomGroups`, `Spiral`, `Sight`, `Chase`, `Moves`, `LevelMaps`
  (`level_map.py`): the grouping of rooms while corridors are generated, the
  spiral of `drop_item`, the line-of-sight walk, the chase step, the standard
  and diagonal probes, and the level map with the character's move, the
  enemy phase, exits and dropped items.
- `JsonValue`, `Ordering`, `Stats` (`src/datalayer/stats.py`): the statistics
  record, its dump and load, and the leaderboard list logic on the file
  contents given as values.
- `Controller` (`src/controller/controller.py`): keys to actions, the
  Russian-layout normalisation, the state machine table and its handlers.

## Model

| member | source | states |
|---|---|---|
| RogueTypes.Growth | src/domain/objects/items/potion.py:37 | `pow(1.15, n)` as an exact real: never below 1 |
| RogueTypes.RoundHalfEven | src/domain/objects/items/potion.py:36-38 | Python's `round`: the result is within a half of the argument |
| RogueTypes.EffectFromName | src/domain/objects/items/potion.py:79 | `Effects[name]`: the member whose name it is, and a member only when the names agree |
| FoodItem.NewFood | src/domain/objects/items/food.py:22-24 | a new food is one of the five `food_types` entries, so it restores 10, 30, 50, 100 or 1000 |
| FoodItem.Effect | src/domain/objects/items/food.py:24 | eating restores `health_points` instantly (period 0) |
| FoodItem.Drop | src/domain/objects/items/food.py:36-37 | dropping gives back the food itself |
| FoodItem.PickUp | src/domain/objects/items/food.py:32-34 | the find message names the food, in the find colour 11 |
| FoodItem.Dump | src/domain/objects/items/food.py:44-45 | `_dump` writes the name under "name" and the health points under "hp"; FoodItem.DumpLoadRoundTrip reads it back |
| FoodItem.ToString | src/domain/objects/items/food.py:52-53 | `__str__` is the name |
| FoodItem.Less | src/domain/objects/items/food.py:55-56 | `__lt__` compares health points; FoodItem.LessIsStrictOrder proves it a strict order |
| FoodItem.Use | src/domain/objects/items/food.py:39-42 | `use` yields the food's effect, one message from `messages`, and one more eaten food in the statistics, the rest unchanged |
| FoodItem.Load | src/domain/objects/items/food.py:47-50 | `_load(**d)` succeeds only with exactly the keys name and hp, and the food it gives dumps back to `d` |
| FoodItem.DumpLoadRoundTrip | src/domain/objects/items/food.py:44-50 | loading a dump gives back the same food |
| FoodItem.LessIsStrictOrder | src/domain/objects/items/food.py:55-56 | `__lt__` (by health points) is a strict order, so sorting by it is well defined |
| PotionItem.NewPotion | src/domain/objects/items/potion.py:33-43 | a new potion raises maximum health, agility or strength, lasts 10, 20 or 30 turns with the label I, II or III, and its effect carries the drawn points |
| PotionItem.Effect | src/domain/objects/items/potion.py:43 | the effect raises the feature by the points for the potion's time |
| PotionItem.Drop | src/domain/objects/items/potion.py:55-56 | dropping gives back the potion itself |
| PotionItem.PickUp | src/domain/objects/items/potion.py:51-53 | the find message names the feature label and the power, in the find colour 11 |
| PotionItem.Dump | src/domain/objects/items/potion.py:70-76 | `_dump` writes the feature name, the points, the power label and the time; PotionItem.DumpLoadRoundTrip reads it back |
| PotionItem.ToString | src/domain/objects/items/potion.py:85-86 | `__str__` is "Зелье ", the feature label and the power label |
| PotionItem.Less | src/domain/objects/items/potion.py:88-93 | `__lt__` compares power labels between equal feature labels and feature labels otherwise; PotionItem.LessIsStrictOrder proves it a strict order |
| PotionItem.Use | src/domain/objects/items/potion.py:58-68 | `use` yields the stored effect and the one message of its feature (`UseMessage`), and counts one more used potion, the rest unchanged |
| PotionItem.UseMessagesDistinct | src/domain/objects/items/potion.py:61-66 | the three features a potion raises each have their own message |
| PotionItem.Load | src/domain/objects/items/potion.py:78-83 | `_load(**d)` needs exactly feature, points, power and time, and what it gives dumps back to `d` |
| PotionItem.DumpLoadRoundTrip | src/domain/objects/items/potion.py:70-83 | loading a dump restores the potion and so an equal effect |
| PotionItem.EffectNames | src/domain/objects/items/potion.py:72-79 | the name a dump writes reads back as the same kind |
| PotionItem.LessIsStrictOrder | src/domain/objects/items/potion.py:88-93 | `__lt__` (label, then power) is a strict order |
| PotionItem.LabelOrder | src/domain/objects/items/potion.py:88-93 | the labels sort health before agility before strength, and I before II before III |
| ScrollItem.NewScroll | src/domain/objects/items/scroll.py:14-21 | a new scroll raises maximum health, agility or strength by the drawn points, instantly |
| ScrollItem.Effect | src/domain/objects/items/scroll.py:21 | the effect is instantaneous (period 0) |
| ScrollItem.Drop | src/domain/objects/items/scroll.py:33-34 | dropping gives back the scroll itself |
| ScrollItem.PickUp | src/domain/objects/items/scroll.py:29-31 | the find message names the feature label, in the find colour 11 |
| ScrollItem.Dump | src/domain/objects/items/scroll.py:48-52 | `_dump` writes the feature name and the points; ScrollItem.DumpLoadRoundTrip reads it back |
| ScrollItem.ToString | src/domain/objects/items/scroll.py:59-60 | `__str__` is "Свиток " and the feature label |
| ScrollItem.Less | src/domain/objects/items/scroll.py:62-63 | `__lt__` compares feature labels; ScrollItem.LessIsStrictOrder proves it a strict order |
| ScrollItem.Use | src/domain/objects/items/scroll.py:36-46 | `use` yields the effect and the one message of its feature (`UseMessage`), and counts one more used scroll, the rest unchanged |
| ScrollItem.UseMessagesDistinct | src/domain/objects/items/scroll.py:39-44 | the three features a scroll raises each have their own message |
| ScrollItem.Load | src/domain/objects/items/scroll.py:54-57 | `_load(**d)` needs exactly feature and points, and what it gives dumps back to `d` |
| ScrollItem.DumpLoadRoundTrip | src/domain/objects/items/scroll.py:48-57 | loading a dump restores the scroll and its effect |
| ScrollItem.LessIsStrictOrder | src/domain/objects/items/scroll.py:62-63 | `__lt__` (by label) is a strict order |
| WeaponItem.Weapon.Generate | src/domain/objects/items/weapon.py:41-44 | a new weapon is a `weapon_types` entry and is not held |
| WeaponItem.Weapon.Loaded | src/domain/objects/items/weapon.py:72-76 | the loaded weapon has the given name, power and held flag |
| WeaponItem.Weapon.Effect | src/domain/objects/items/weapon.py:43 | holding it adds `power` to strength, instantly |
| WeaponItem.Weapon.Drop | src/domain/objects/items/weapon.py:56-58 | dropping clears `held` and reports the weapon |
| WeaponItem.Weapon.Use | src/domain/objects/items/weapon.py:60-63 | using sets `held` and yields the strength effect |
| WeaponItem.Weapon.PickUp | src/domain/objects/items/weapon.py:52-54 | the find message names the weapon, in the find colour 11 |
| WeaponItem.Weapon.Dump | src/domain/objects/items/weapon.py:65-70 | `_dump` writes name, power and held; WeaponItem.DumpLoadRoundTrip reads it back |
| WeaponItem.Weapon.ToString | src/domain/objects/items/weapon.py:78-79 | the name, with the "in hand" mark exactly when held |
| WeaponItem.ParseWeapon | src/domain/objects/items/weapon.py:72-76 | `_load(**d)` needs exactly name, power and held, and what it reads dumps back to `d` |
| WeaponItem.Load | src/domain/objects/items/weapon.py:72-76 | a fresh weapon exactly when the fields read, holding the fields read |
| WeaponItem.DumpLoadRoundTrip | src/domain/objects/items/weapon.py:65-76 | loading a dump restores name, power and held |
| WeaponItem.LessIsStrictOrder | src/domain/objects/items/weapon.py:81-82 | `__lt__` (by power) is a strict order |
| WeaponItem.Less | src/domain/objects/items/weapon.py:81-82 | `__lt__` compares powers; WeaponItem.LessIsStrictOrder proves it a strict order |
| GoldItem.NewGold | src/domain/objects/items/gold.py:12-13 | a pile holds the drawn amount, which is never negative |
| GoldItem.Spelling | src/domain/objects/items/gold.py:17-25 | the three noun forms, chosen exactly by the last digit being 1, being 2 to 4, or anything else |
| GoldItem.SpellingLastDigit | src/domain/objects/items/gold.py:17-25 | only the last digit matters: 11 to 14 get the same form as 1 to 4 |
| GoldItem.PickUp | src/domain/objects/items/gold.py:27-29 | picking up yields one message and exactly the pile's amount |
| GoldItem.ToString | src/domain/objects/items/gold.py:35-36 | `__str__` is "Золото: " and the amount |
| ItemList.Slotted | src/domain/objects/backpack/item_list.py:22-31 | `type_size` and `show` send any type but food, potion and scroll to the weapons list |
| ItemList.ContentsCount | src/domain/objects/backpack/item_list.py:19-31 | counting one type among all the items gives that compartment's length |
| ItemList.InsertedTidy | src/domain/objects/backpack/item_list.py:33-58 | adding to a compartment that has room keeps every compartment sorted and within 9, and grows only that compartment, by one |
| ItemList.InsertKeepsSorted | src/domain/objects/backpack/item_list.py:53-58 | `append` then `sort` on a sorted list gives a sorted list one longer |
| ItemList.InsertedContents | src/domain/objects/backpack/item_list.py:33-58 | after adding, the items are the old ones plus the new one (as a multiset) |
| ItemList.RemovedTidy | src/domain/objects/backpack/item_list.py:74-78 | `del lst[slot]` keeps every compartment sorted and within 9 |
| ItemList.RemovedContents | src/domain/objects/backpack/item_list.py:74-78 | after `del`, the items are the old ones less exactly the one at the slot |
| ItemList.RemovedCompartments | src/domain/objects/backpack/item_list.py:74-78 | `del` takes out that one element of that compartment; the others stay as they were |
| ItemList.ItemList.constructor | src/domain/objects/backpack/item_list.py:13-17 | four empty compartments |
| ItemList.ItemList.Size | src/domain/objects/backpack/item_list.py:19-20 | `size` is the number of items held |
| ItemList.ItemList.TypeSize | src/domain/objects/backpack/item_list.py:22-31 | `type_size` counts the items of that (slotted) type, which is that compartment's length |
| ItemList.ItemList.Add | src/domain/objects/backpack/item_list.py:33-58 | added exactly when the item is not gold and its compartment holds fewer than 9; then the item is inserted in sorted position, else nothing changes |
| ItemList.ItemList.Delete | src/domain/objects/backpack/item_list.py:76 | `del lst[i]` on a compartment |
| ItemList.ItemList.Drop | src/domain/objects/backpack/item_list.py:60-78 | gold is the NotImplementedError; otherwise it succeeds exactly when the Python index is in range, returns that item with its drop event and removes it; a dropped weapon is no longer held, and no other weapon changes |
| ItemList.ItemList.Use | src/domain/objects/backpack/item_list.py:80-101 | gold is the NotImplementedError; an index out of range is the IndexError; food, potions and scrolls are taken out and returned; a held weapon gives the "already in hand" event and no item; any other weapon is returned and stays |
| ItemList.ItemList.Show | src/domain/objects/backpack/item_list.py:103-113 | one line per item of the compartment, its `str`, in order |
| ItemList.InsertedItems | src/domain/objects/backpack/item_list.py:53-58 | inserting one item adds exactly that item to the compartment's items |
| ItemList.RemovedItems | src/domain/objects/backpack/item_list.py:74-78 | deleting one element takes exactly that item out |
| Backpack.Backpack.constructor | src/domain/objects/backpack/backpack.py:23-24 | an empty item list |
| Backpack.Backpack.AddItem | src/domain/objects/backpack/backpack.py:26-39 | gold is the TypeError and changes nothing; otherwise added exactly when the compartment has room, with the pick-up events when added and the "compartment full" event when not |
| Backpack.Backpack.DropItem | src/domain/objects/backpack/backpack.py:41-56 | a slot outside 1 to the compartment's size gives the "empty" or "wrong slot" event and changes nothing; otherwise the item in slot-1 is dropped and returned; a dropped weapon is no longer held (src/domain/objects/backpack/item_list.py:75) and every other weapon keeps its `held` flag |
| Backpack.Backpack.UseItem | src/domain/objects/backpack/backpack.py:62-78 | a slot outside 1 to the size gives the slot event; otherwise as `ItemList.use` on slot-1 |
| Backpack.Backpack.DropWeapon | src/domain/objects/backpack/backpack.py:58-60 | no weapon changes nothing; a weapon not in the list is the ValueError of `remove`; otherwise its first occurrence leaves the weapons list |
| Backpack.Backpack.ShowItems | src/domain/objects/backpack/backpack.py:80-82 | the compartment's lines, one per item |
| EffectBag.EmptyWellKeyed | src/domain/objects/character.py:58 | the fresh dictionary of effects holds an empty list for every kind |
| EffectBag.Record | src/domain/objects/character.py:250-255 | an instantaneous effect is not kept; a timed sleep replaces every sleep there was; any other timed effect is appended to its kind's list; other kinds are untouched |
| Lists.RemoveFirst | src/domain/objects/character.py:286-289 | `lst.remove(x)` (effects here, and the free door sides of `__remove_side` and the keys of `__knock_the_door`): exactly one occurrence of `x` leaves the list (as a multiset), and the list is left alone when `x` is absent |
| Lists.RemoveFirstWithin | src/domain/objects/character.py:287 | `remove` never adds an element |
| EffectBag.Decrement | src/domain/objects/character.py:315-322 | the list keeps its length and every entry is the old one a turn on: an expired effect stays as it is, a running one loses one from its period |
| EffectBag.ZerosWithin | src/domain/objects/character.py:316-317 | the effects collected for removal come from the list and have period 0 |
| EffectBag.DecrementSplit | src/domain/objects/character.py:315-322 | the decremented list is, as a multiset, the running effects a turn shorter plus the expired ones |
| EffectBag.TiredFacts | src/domain/objects/character.py:319-321 | the messages of a list are all the tiredness message, and there is one exactly when a timed sleep runs |
| EffectBag.AdvanceList | src/domain/objects/character.py:315-322 | the inner loop over one list gives its decremented list, its expired effects and its tiredness messages |
| EffectBag.Advance | src/domain/objects/character.py:310-322 | the outer loop over all kinds decrements every list, collects exactly the expired effects, and gives no message exactly when nothing sleeps, and then only tiredness messages |
| EffectBag.AdvanceDone | src/domain/objects/character.py:314-322 | once every kind is visited, the bag built is the fully decremented one and the message list is empty exactly when nothing sleeps |
| EffectBag.DecrementAll | src/domain/objects/character.py:314-322 | every kind's list is decremented; the bag stays keyed by every kind |
| EffectBag.CalmIff | src/domain/objects/character.py:319-320 | "no sleep among the first kinds" is exactly that no list among them has a running sleep |
| EffectBag.DrowsyIff | src/domain/objects/character.py:319-320 | the character cannot move exactly when some list has a running sleep |
| EffectBag.Withdraw | src/domain/objects/character.py:286-289 | `self.__effects[effect.effect].remove(effect)`: one occurrence leaves that kind's list, the others stay; nothing changes when it is absent |
| EffectBag.RemoveEachCount | src/domain/objects/character.py:323-324 | removing the collected effects one by one takes exactly those of each kind out of that kind's list |
| EffectBag.Appended | src/domain/objects/character.py:410-414 | `_load` appends each saved effect to its kind's list, with no non-stacking rule |
| EffectBag.AppendedOfKind | src/domain/objects/character.py:410-414 | each kind's list gains exactly the loaded effects of that kind, in their order |
| EffectBag.ExpiredOfKind | src/domain/objects/character.py:314-318 | the effects collected for removal, restricted to one kind, are that kind's expired effects |
| EffectBag.TurnLeavesActive | src/domain/objects/character.py:314-324 | after the decrementing pass and the removals, each list holds exactly the effects that were running, each one turn shorter |
| EffectBag.TurnKeepsActive | src/domain/objects/character.py:305-326 | a turn of `check_object_effects` removes every expired effect and keeps every running one, one turn shorter, up to order |
| EffectBag.NextPresent | src/domain/objects/character.py:323-324 | each effect the removal pass takes out is still in its list when its turn comes, so the ValueError branch is never taken during a turn |
| Character.Applied | src/domain/objects/character.py:257-268 | `apply_effect` on the attributes, case by case: health tops up to at most the maximum, a raised maximum also raises health and health is cut to the maximum, agility and strength add, and sleep changes nothing |
| Character.HealthClamped | src/domain/objects/character.py:258-264 | after a health or maximum-health effect health is at most the maximum, and a non-negative heal from a state within the maximum never lowers health |
| Character.RevertUndoesApply | src/domain/objects/character.py:244-303 | `__remove_effect` after `apply_effect` of an agility, strength or sleep effect gives back exactly the attributes there were |
| Character.RevertRestoresMaxHp | src/domain/objects/character.py:258-293 | removing a maximum-health effect restores the maximum (and agility and strength) |
| Character.MaxHealthBoostOutlasts | src/domain/objects/character.py:258-293 | health is not taken back when a maximum-health effect ends: from full health a boost of v leaves health v above the restored maximum |
| Character.RevertAllSums | src/domain/objects/character.py:296-324 | removing strength and agility effects in any order takes back exactly the sum of their values |
| Character.AttrUpBounds | src/domain/objects/character.py:172-173 | `__calculate_attr_up` of a non-negative attribute with a factor from the `uniform` range is never negative |
| Character.HpUpIsAttrUp | src/domain/objects/character.py:155 | the health gain is the general rule on the base health, which stays 100 |
| Character.HpUpBounds | src/domain/objects/character.py:155-173 | every level adds between 10 and 20 health points |
| Character.NextMaxExp | src/domain/objects/character.py:152 | `round(1.25 * max_exp)` never lowers a threshold of at least 1 |
| Character.NextMaxExpRounds | src/domain/objects/character.py:152 | the integer form is exactly Python's half-to-even `round` of the real product |
| Character.NoClimbEnd | src/domain/objects/character.py:147-152 | with a loaded threshold of 0 or less the loop condition still holds after a pass and the threshold stays at most 0 (at 0 it stays 0), so `__up_level` never ends |
| Character.ClimbBound | src/domain/objects/character.py:149-151 | the number of passes times the threshold never exceeds the experience, so the loop stops |
| Character.StepUpKeepsBases | src/domain/objects/character.py:150-166 | a pass never lowers the threshold or the strength and agility bases |
| Character.Raised | src/domain/objects/character.py:147-170 | after the loop the experience is below the threshold, the threshold has not fallen, and the level has risen by the number of passes |
| Character.RaiseMessages | src/domain/objects/character.py:167-169 | one level-up message per pass |
| Character.UpLevelGains | src/domain/objects/character.py:147-170 | over the whole loop, maximum health and health rise by the same amount, 10 to 20 per level, and strength (and agility) rise with their bases, never falling |
| Character.LevelStep | src/domain/objects/character.py:149-169 | one pass of the loop from a state whose experience reaches the threshold, then the rest of the loop from the next state |
| Character.FinishDone | src/domain/objects/character.py:149 | where the loop condition fails nothing more happens |
| Character.Refreshed | src/domain/objects/character.py:305-326 | the character after `check_object_effects`: effects, attributes and colour change; position, keys, gold, weapon and the rest stay |
| Character.Character.constructor | src/domain/objects/character.py:45-63 | a new character has health 100 of 100, strength 8, agility 6, level 1, 0 experience of 5, no gold, keys, weapon or effects, and an empty backpack; the statistics take the nickname |
| Character.Character.DecreaseHp | src/domain/objects/character.py:126-133 | health drops by the value, nothing else changes, and the answer is whether health is still above 0 |
| Character.Character.ApplyEffect | src/domain/objects/character.py:244-280 | the attributes are `Applied`, the effect is recorded as `EffectBag.Record` says, and one message names the effect |
| Character.Character.RemoveEffect | src/domain/objects/character.py:282-303 | the first equal effect leaves its list and its value is taken back from the attribute; one message |
| Character.Character.Harm | src/domain/objects/character.py:200-228 | a miss changes nothing and gives the miss message; a hit sets the harm colour, applies the attacker's effect if any, then takes the attacker's strength off health; the answer is whether health stays above 0 |
| Character.Character.AddExperience | src/domain/objects/character.py:135-145 | gold between value // 2 and value * 2 goes to the character and the statistics, then the experience is added and the level-up loop runs to the end as `Raised` |
| Character.Character.ConvertExpToGold | src/domain/objects/character.py:175-185 | the drawn gold is added to the character's and to the statistics' gold, with one message |
| Character.Character.RaiseLevels | src/domain/objects/character.py:147-170 | the loop's result is `Raised` with its messages; gold, items and effects stay |
| Character.Character.LevelUpOnce | src/domain/objects/character.py:150-169 | one pass: experience less the threshold, level plus one, the next threshold, and the three gains applied to maximum, health and the bases |
| Character.Character.CheckObjectEffects | src/domain/objects/character.py:305-326 | the new state is `Refreshed`, and the character may move exactly when no sleep was running |
| Character.Character.AdvanceEffects | src/domain/objects/character.py:310-322 | the first pass: every list one turn on, the expired effects collected, one tiredness message per running sleep |
| Character.Character.RemoveExpired | src/domain/objects/character.py:323-324 | each collected effect in turn is removed and its value taken back, with one loss message each |
| Character.Character.Place | src/domain/objects/character.py:328-332 | the position becomes the given cell and nothing else changes |
| Character.Character.ClearKeys | src/domain/map/keys.py:20 | a level's doors start with the keys thrown away |
| Character.Character.AddKey | src/domain/map/room.py:250 | a picked-up key's colour joins the end of the keys |
| Character.Character.UseKey | src/domain/map/level_map.py:232-234 | a key spent on its door: the first copy of that colour leaves the keys |
| Character.Character.AddGold | src/domain/objects/character.py:237-242 | the pile's amount goes to the character and to the statistics, with the pick-up message |
| Character.Character.PickUpItem | src/domain/objects/character.py:340-345 | gold is always picked up and added; anything else goes to the backpack, exactly as `add_item` decides |
| Character.Character.DropWeapon | src/domain/objects/character.py:357-365 | the held weapon, if any, is no longer held, its bonus is removed from strength and the slot is empty; with no weapon nothing changes |
| Character.Character.EquipWeapon | src/domain/objects/character.py:347-355 | the old weapon is dropped first, then the new one is held and its bonus applied, so strength less the bonus is unchanged; the old weapon is returned |
| Character.Character.UseItem | src/domain/objects/character.py:230-235 | gold has no `use` (the AttributeError); anything else yields its effect, which is applied and recorded, and the statistics count the use |
| Character.Character.Attack | src/domain/objects/character.py:186-198 | the attack carries no effect |
| Character.Character.LoadAttribute | src/domain/objects/character.py:394-409 | an attribute key sets exactly that field; the saved strength is the base without the held weapon's bonus |
| Character.Character.LoadEffects | src/domain/objects/character.py:410-414 | each saved effect joins its kind's list as it is, in order |
| Character.Character.LoadItem | src/domain/objects/character.py:416-421 | the item the record makes is offered to the backpack, whose stock becomes `Stocked` of the old stock and the record (inserted in sorted place, or refused when the compartment holds nine, silently); a held weapon is then equipped |
| Character.Character.LoadItems | src/domain/objects/character.py:415-421 | the backpack's stock is `StockedAll` of the old stock and the records, each compartment takes as many as fit, and the last held weapon ends up equipped |
| Character.Character.Load | src/domain/objects/character.py:391-423 | the load succeeds exactly when every entry reads as the saved-record `Load` decides, with its error otherwise; on success every field is the loaded one, strength less the weapon's bonus is the loaded strength, the effects are the loaded ones appended, and the backpack holds the old stock with the loaded item records added in order (`StockedAll`) |
| Character.Character.LoadEntry | src/domain/objects/character.py:392-423 | one entry that reads keeps the character mirroring the saved-record state after that entry, the backpack's stock included |
| Character.Character.Dump | src/domain/objects/character.py:367-389 | `_dump` gives entries that `_load` on this character reads back as exactly the saved record: its attributes, strength without the held weapon's bonus, its effects and its items |
| Character.Character.OfferItem | src/domain/objects/character.py:419 | `add_item` leaves the shelves as `Offered` gives them: the item inserted into its compartment when that has room, unchanged when it is full |
| Character.Character.LoadAttributeEntry | src/domain/objects/character.py:393-408 | one attribute entry sets exactly that field, and nothing outside the attributes changes |
| Character.Character.LoadEffectsEntry | src/domain/objects/character.py:410-414 | the saved effects join the character's effects in order, and nothing else changes |
| Character.Character.LoadItemsEntry | src/domain/objects/character.py:415-421 | the saved items are added to the stock in order, and only the held weapon may change |
| Character.Character.LoadStep | src/domain/objects/character.py:392-423 | one pass of the loop: the entry read and applied, keeping the mirror of the saved record, or the error that ends the load |
| Character.StockedLengths | src/domain/objects/character.py:415-421 | each compartment takes the records of its class until it holds nine and refuses the rest |
| Character.StockedSorted | src/domain/objects/character.py:415-421 | adding item records keeps every compartment sorted by its class's `__lt__` |
| Character.StockedAllAppend | src/domain/objects/character.py:415-421 | adding two runs of records is adding their concatenation, so successive "items" entries compose |
| Character.StockOfOffered | src/domain/objects/character.py:417-419 | offering the item a record makes adds that record to the stock: the weapon object by its name and power |
| Character.InsertFacts | src/domain/objects/items/weapon.py:81-82 | sorting a weapon object in by `__lt__` puts its name and power where sorting by power puts them |
| CharacterSave.ParseItem | src/domain/objects/character.py:416-418 | a loaded item record is read only from a dictionary with "cls" and "dump" holding the class name and the item's own dump; gold and unknown classes are errors |
| CharacterSave.ParseItemRecord | src/domain/objects/character.py:382-418 | an item record written by `_dump` reads back as the same item |
| CharacterSave.ParseEffect | src/domain/objects/character.py:411-414 | an effect record is read only from a dictionary whose "effect", "value" and "period" hold the effect's name and numbers |
| CharacterSave.ParseEffectRecord | src/domain/objects/character.py:377-414 | an effect record written by `_dump` reads back as the same effect |
| CharacterSave.EffectRecords | src/domain/objects/character.py:377-381 | one record per effect, in order |
| CharacterSave.ItemRecords | src/domain/objects/character.py:382-388 | one record per item, in order |
| CharacterSave.ParseEffects | src/domain/objects/character.py:411-414 | a list that reads gives one effect per record |
| CharacterSave.ParseItems | src/domain/objects/character.py:416-421 | a list that reads gives one item per record |
| CharacterSave.ParseEffectRecords | src/domain/objects/character.py:377-414 | the dumped effects list reads back as the same effects |
| CharacterSave.ParseItemRecords | src/domain/objects/character.py:382-418 | the dumped items list reads back as the same items |
| CharacterSave.Step | src/domain/objects/character.py:393-423 | a key outside the ten saved keys is the ValueError of `case _`, and only those keys load |
| CharacterSave.Load | src/domain/objects/character.py:391-423 | a load that succeeds used only the saved keys |
| CharacterSave.DumpLoadRoundTrip | src/domain/objects/character.py:367-423 | loading a dump on top of a record replaces every attribute by the dumped one and appends the dumped effects and items to those already there |
| CharacterSave.AttributesPrefix | src/domain/objects/character.py:369-409 | the eight attribute entries of a dump replace the eight attributes |
| CharacterSave.SetAttribute | src/domain/objects/character.py:394-409 | an attribute entry leaves the effects and items alone |
| CharacterSave.StepAttribute | src/domain/objects/character.py:394-409 | an attribute entry holding an integer replaces that attribute; any other value is an error |
| CharacterSave.ParseEntry | src/domain/objects/character.py:393-423 | an entry that reads names the attribute, "effects" or "items" it came from |
| CharacterSave.LoadAt | src/domain/objects/character.py:392-423 | one more entry is read and, when it reads, applied to the record loaded so far |
| CharacterSave.LoadStops | src/domain/objects/character.py:392-423 | the first entry that fails decides the error; the later ones are never read |
| CharacterSave.DumpLoadIdentity | src/domain/objects/character.py:367-423 | a dump loaded into a record with no effects and no items gives the dumped record back |
| CharacterSave.InKindOrderOfKind | src/domain/objects/character.py:377-414 | effects dumped in kind order and appended to empty lists rebuild every kind's list |
| Stats.ParseRecord | src/datalayer/stats.py:191-201 | `_load(**d)` reads exactly when the nickname is a string and the nine counters are integers |
| Stats.DumpLoadRoundTrip | src/datalayer/stats.py:177-201 | `_load(**_dump())` restores all ten fields |
| Stats.RogueStats.Dump | src/datalayer/stats.py:177-189 | `_dump` writes the nickname and the nine counters under their field names; Stats.DumpLoadRoundTrip reads them back |
| Stats.RogueStats.constructor | src/datalayer/stats.py:18-28 | a fresh record: nickname "Rogue", level 1, every counter 0 |
| Stats.RogueStats.FormStatsDict | src/datalayer/stats.py:60-73 | the leaderboard record holds `last_record` True, the nickname and every counter under its display name |
| Stats.RogueStats.Load | src/datalayer/stats.py:191-201 | the load succeeds exactly when the record reads, and then the fields are the ones read; otherwise the error of the first key it cannot read, with the fields before that key assigned and the others as they were |
| Stats.RogueStats.AssignHead | src/datalayer/stats.py:192-196 | the first five keys are assigned in order, stopping at the first one that cannot be read |
| Stats.RogueStats.AssignTail | src/datalayer/stats.py:197-201 | once the first five are assigned, the last five are assigned in order, stopping at the first one that cannot be read |
| Stats.Readable | src/datalayer/stats.py:191-201 | the number of keys read before the first one that cannot be read |
| Stats.ReadableParse | src/datalayer/stats.py:191-201 | the record reads exactly when all ten keys do, and then assigning them all gives the record whatever the fields held; otherwise the error is that of the first unreadable key |
| Stats.RogueStats.DumpJsonStats | src/datalayer/stats.py:112-135 | every stored record must be a dictionary; each gets `last_record` False and this run's record is appended last; an undecodable file counts as empty |
| Stats.ClearLastRecord | src/datalayer/stats.py:127-128 | `dct["last_record"] = False` adds or replaces that one key and keeps every other |
| Stats.CheckNickname | src/datalayer/stats.py:75-92 | True when the file does not decode; otherwise False exactly when some stored record has the nickname |
| Stats.FindNickname | src/datalayer/stats.py:84-86 | the scan answers False exactly when some record carries the nickname |
| Stats.RichAfterIsStrictOrder | src/datalayer/stats.py:104 | ordering by gold, descending, is a strict order |
| Stats.SortedStats | src/datalayer/stats.py:94-110 | an undecodable file gives no records; otherwise the sort succeeds exactly when every record is a dictionary with an integer gold entry |
| Stats.GoldKeys | src/datalayer/stats.py:104 | the sort key `dct["Золото"]` reads for every record exactly when each is a dictionary with integer gold |
| Stats.SortByGoldCorrect | src/datalayer/stats.py:104 | the sorted list is a permutation of the records, ordered by gold, richest first |
| Stats.SortByGold | src/datalayer/stats.py:104 | `data.sort(key=gold, reverse=True)` as a stable insertion sort; Stats.SortByGoldCorrect proves it a permutation ordered richest first |
| Stats.InsertByGold | src/datalayer/stats.py:104 | one insertion step keeps the order and adds exactly one record |
| Stats.SortedStatsOrdered | src/datalayer/stats.py:94-110 | the leaderboard holds the stored records (none for no file), richest first |
| JsonValue.GetInt | src/datalayer/stats.py:193-201 | `d[key]` read as an integer succeeds exactly when the key is there with an integer, and gives that integer |
| JsonValue.GetStr | src/datalayer/stats.py:193-201 | the same for a string |
| JsonValue.GetBool | src/domain/objects/items/weapon.py:72-76 | the same for a boolean |
| Ordering.StrLessIrreflexive | src/domain/objects/items/scroll.py:62-63 | string `<` is irreflexive |
| Ordering.StrLessTransitive | src/domain/objects/items/scroll.py:62-63 | string `<` is transitive |
| Ordering.InsertPos | src/domain/objects/backpack/item_list.py:57-58 | the position a stable sort gives an appended element: after every element not greater, before the first greater |
| Ordering.InsertSorted | src/domain/objects/backpack/item_list.py:57-58 | `append` then `sort` on a sorted list is sorted, adds exactly the element and keeps the others in order |
| Ordering.InsertKeepsOrder | src/domain/objects/backpack/item_list.py:57-58 | the result is sorted |
| Ordering.RemoveSorted | src/domain/objects/backpack/item_list.py:76-78 | deleting one element keeps a list sorted |
| Stats.ClearAll | src/datalayer/stats.py:127-128 | the loop over the stored records succeeds exactly when each is a dictionary, and then gives each one with `last_record` False, in order |
| Enemies.KindOfSymbol | src/domain/objects/enemies/enemy.py:23-57 | the symbol keys the tables: the kind a symbol names has that symbol |
| Enemies.SymbolNamesKind | src/domain/objects/enemies/enemy.py:23-57 | every kind's symbol looks up that kind, so no two kinds share a symbol |
| Enemies.ScaleFactor | src/domain/objects/enemies/enemy.py:21-66 | `pow(1.15, level - 1)` is positive, and at least 1 from level 1 on |
| Enemies.Drawn | src/domain/objects/enemies/enemy.py:68-119 | a drawn attribute is never negative, and from level 1 on at least 0.8 of the table's base less a half |
| Enemies.RoundedScaled | src/domain/objects/enemies/enemy.py:118-119 | the rounded product of a base, a positive scale and a factor drawn in [0.8, 1.2] is never negative, and at least 0.8 of the base less a half once the scale is at least 1 |
| Enemies.RoundedAbove | src/domain/objects/enemies/enemy.py:119 | rounding loses at most a half |
| Enemies.ScaledAtLeast | src/domain/objects/enemies/enemy.py:66-70 | scaling a base by at least 1 and then at least 0.8 leaves at least 0.8 of it |
| Enemies.SleepPeriodPositive | src/domain/objects/enemies/snake_mage.py:18 | `level // 7 or 1`: the snake mage's sleep lasts at least one turn, a seventh of the level from level 7 on |
| Enemies.Experience | src/domain/objects/enemies/enemy.py:151 | `ceil` of the weighted sum, exactly: the smallest integer at or above (10 (str + agi) + 8 hostility + 5 max_health) / 100 |
| Enemies.ExperienceExample | src/domain/objects/enemies/enemy.py:151 | strength 10, agility 5, hostility 8 and maximum health 50 give 5 experience |
| Enemies.RevertUndoesApply | src/domain/objects/enemies/enemy.py:153-226 | removing any effect undoes applying it on agility and strength |
| Enemies.OnlyAgilityAndStrength | src/domain/objects/enemies/enemy.py:165-218 | health, maximum-health and sleep effects change no enemy attribute either way |
| Enemies.RevertAllSums | src/domain/objects/enemies/enemy.py:204-222 | removing a list of effects takes back the sum of their values, kind by kind |
| Enemies.RemovalStep | src/domain/objects/enemies/enemy.py:204-205 | the removal loop one step further: one more `__remove_effect` |
| Enemies.ReachIsDistance | src/domain/objects/enemies/enemy.py:234-235 | `sqrt(dx² + dy²) <= hostility` is exactly `dx² + dy² <= hostility²`, the integer test the model uses |
| Enemies.DamageBounds | src/domain/objects/enemies/enemy.py:125 | `round(uniform(0.8 s, 1.2 s))` lies between 0.8 s and 1.2 s, up to the half of rounding |
| Enemies.Enemy.constructor | src/domain/objects/enemies/enemy.py:61-85 | a new enemy takes its kind's symbol, colour, name, pattern, speed, hostility and maximum health from the tables; health, agility and strength are drawn around the scaled base; it walks, is visible and carries no effect; a mimic takes an item's look (src/domain/objects/enemies/mimic.py:16-18) |
| Enemies.Enemy.ExpCount | src/domain/objects/enemies/enemy.py:148-151 | `__exp_count` is 0 while the enemy lives and `Experience` of its attributes once it is dead |
| Enemies.Enemy.ApplyEffect | src/domain/objects/enemies/enemy.py:153-184 | a timed effect is recorded (a timed sleep replacing the sleeps there were); agility and strength effects add their value; one message |
| Enemies.Enemy.RemoveEffect | src/domain/objects/enemies/enemy.py:208-226 | succeeds exactly when the effect is in its list: then one copy leaves and its value is taken back; otherwise the ValueError of `remove` and nothing changes |
| Enemies.Enemy.CheckObjectEffects | src/domain/objects/enemies/enemy.py:186-206 | the colour goes back to the kind's, every running effect loses a turn, every expired one is removed and its value taken back, and the enemy may move exactly when no sleep was running |
| Enemies.Enemy.AdvanceEffects | src/domain/objects/enemies/enemy.py:195-203 | the first pass: every list one turn on, the expired effects collected, one tiredness message per running sleep |
| Enemies.Enemy.RemoveExpired | src/domain/objects/enemies/enemy.py:204-205 | every collected effect is still in its list when removed, so the `remove` never raises during a turn |
| Enemies.Enemy.Harm | src/domain/objects/enemies/enemy.py:128-146 | a hit counts in the statistics, shows the harm colour, takes the strength off health (never below 0) and applies the effect; a miss counts as missed and changes nothing else; the hit test of a vampire's first blow since it engaged takes agility 0 (src/domain/objects/enemies/vampire.py:24-30); the experience is that of `__exp_count` |
| Enemies.Enemy.TakeHit | src/domain/objects/enemies/enemy.py:135-137 | the harm colour, and health less the strength but at least 0 |
| Enemies.Enemy.Attack | src/domain/objects/enemies/enemy.py:124-126 | the name, the drawn damage, the agility and the attack effect; an ogre first appends a one-turn sleep to itself (src/domain/objects/enemies/ogre.py:14-17); a snake mage sends sleep and a vampire a maximum-health drain on their chance draws (src/domain/objects/enemies/snake_mage.py:21-23, src/domain/objects/enemies/vampire.py:21-22) |
| Enemies.Enemy.IsEngaged | src/domain/objects/enemies/enemy.py:231-238 | engaged exactly when the character is within the hostility radius; out of reach the enemy walks; a ghost in reach shows itself and out of reach is visible on its draw (src/domain/objects/enemies/ghost.py:19-29) |
| Enemies.Enemy.SetEngagedStatus | src/domain/objects/enemies/enemy.py:240-243 | the enemy is engaged afterwards and a second call changes nothing; a vampire that was not engaged gets its first hit back (src/domain/objects/enemies/vampire.py:32-35) |
| Enemies.OgreNapStopsMove | src/domain/objects/enemies/ogre.py:15 | in the turn after an ogre's attack its sleep is running, so it cannot move |
| Enemies.OgreNapExpires | src/domain/objects/enemies/ogre.py:15 | that turn leaves the nap spent, among the effects the next turn removes |
| Enemies.ZerosComplete | src/domain/objects/enemies/enemy.py:197-198 | every expired effect of a list is among those collected |
| Rooms.GenerateRoom | src/domain/map/room.py:278-296 | a grid cell too small for the least room, once the margins are taken, is the ValueError; otherwise the room is at least the least size and fits in the cell within the margins |
| Rooms.DoorSides | src/domain/map/room.py:29-39 | `__doors_map[id]` is defined exactly for ids 0 to 8; any other id is the KeyError |
| Rooms.DoorSidesAreGrid | src/domain/map/room.py:29-39 | the map lists exactly the sides on which a room of the 3 x 3 grid has a neighbour, each once |
| Rooms.DoorSidesSymmetric | src/domain/map/room.py:29-39 | the neighbour through a listed side is a room of the grid that lists the opposite side, back to this room |
| Rooms.RemoveFirstNoDuplicates | src/domain/map/room.py:198-200 | removing a side from a list without repeats leaves it without that side and without repeats |
| Rooms.Room.constructor | src/domain/map/room.py:41-56 | the room with its corners, every door-map side free, and no objects, exits, items, keys, doors or character, unvisited |
| Rooms.Room.AddActualDoor | src/domain/map/room.py:64-67 | a new open door of the base colour joins the end of the doors |
| Rooms.Room.GetBorderSymbol | src/domain/map/room.py:89-107 | a door cell shows the corridor; any other cell gets the border colour |
| Rooms.Room.IsIn | src/domain/map/room.py:109-110 | `is_in`: inside the rectangle, both bounds of each axis included |
| Rooms.Room.IsInAndAvailableForMove | src/domain/map/room.py:112-113 | `is_in_and_available_for_move`: inside and holding no object |
| Rooms.Room.IsInAndAvailable | src/domain/map/room.py:115-121 | `is_in_and_available`: inside and holding no object and no item |
| Rooms.Room.BorderIsFrame | src/domain/map/room.py:89-107 | off the doors a border symbol is drawn exactly on the frame around the rectangle, with each corner's own symbol |
| Rooms.Room.PlaceCharacter | src/domain/map/room.py:123-129 | the character stands on the cell, which holds it; the room holds the character and is visited |
| Rooms.Room.PlaceExit | src/domain/map/room.py:131-133 | the cell becomes an exit |
| Rooms.Room.AllocateCoordinates | src/domain/map/room.py:187-193 | the cell is the first draw holding no object, exit, item or key, and there is one exactly when some draw is free |
| Rooms.Room.GetRandomCrdInZone | src/domain/map/room.py:170-185 | radius 0 allocates anywhere in the room; otherwise an empty clipped range is the ValueError of `randint`, and the cell is the first draw in the zone holding no object, item or key |
| Rooms.Room.RandomDoorSides | src/domain/map/room.py:195-196 | `sample` of the free sides: at least one, all different, all free; none when no side is free |
| Rooms.Room.RemoveSide | src/domain/map/room.py:198-200 | the side is no longer free and nothing else changes |
| Rooms.Room.GenerateDoor | src/domain/map/room.py:202-222 | the side stops being free and the door cell lies one cell outside the rectangle on that side, strictly between its corners, and is recorded |
| Rooms.Room.DoorShowsCorridor | src/domain/map/room.py:89-93 | a door cell made by `generate_door` is drawn as corridor |
| Rooms.Room.AddObject | src/domain/map/room.py:224-225 | the object is stored at the cell |
| Rooms.Room.RemoveObject | src/domain/map/room.py:227-228 | `del` succeeds exactly when the cell holds an object, else the KeyError; the object is gone |
| Rooms.Room.GetObject | src/domain/map/room.py:230-237 | the object at the cell, when there is one |
| Rooms.Room.AddItem | src/domain/map/room.py:262-263 | the item is stored at the cell |
| Rooms.Room.RemoveItem | src/domain/map/room.py:265-266 | `del` succeeds exactly when the cell holds an item, else the KeyError |
| Rooms.Room.GetItem | src/domain/map/room.py:268-273 | the item at the cell, when there is one |
| Rooms.Room.GetKey | src/domain/map/room.py:248-253 | a key on the cell is taken and its colour less 3 joins the character's keys; otherwise nothing changes |
| Rooms.Room.FaceDoor | src/domain/map/room.py:255-260 | the first door of the room at the cell, exactly when it is locked |
| Rooms.Room.GenerateKeys | src/domain/map/room.py:166-168 | the keys land on distinct allocated cells, one per colour when all succeed |
| Rooms.Room.GenerateEnemies | src/domain/map/room.py:135-145 | one enemy per successful creation draw, each on a distinct allocated cell |
| Rooms.EnemyAttempts | src/domain/map/room.py:137 | `range(level // 4 + 2)`: at least two attempts from level 1 |
| Rooms.EnemyAttemptsGrow | src/domain/map/room.py:137 | from level 1 to 21 two to seven attempts; four levels add one |
| Rooms.CountTrue | src/domain/map/room.py:137-145 | no more enemies than attempts |
| Rooms.FirstDoorAt | src/domain/map/room.py:255-260 | the first door at the cell, with no earlier door there |
| Rooms.NewRoom | src/domain/map/room.py:41-56 | `Room(...)` succeeds exactly when the grid cell fits a room and the id is on the door map; the ValueError of `generate_room` comes first |
| Corridors.NewKey | src/domain/map/corridor.py:19-22 | `Key(color)` is defined exactly for the three lock colours, and its colour is the lock colour plus 3 |
| Corridors.Door.constructor | src/domain/map/corridor.py:28-37 | a new door is unlocked, open and of the base colour |
| Corridors.ShiftInitials | src/domain/map/corridor.py:74-90 | any direction but "v" and "h" is the ValueError; otherwise each end moves one cell along the axis towards the other |
| Corridors.ShiftStaysBetween | src/domain/map/corridor.py:74-90 | ends at least two apart along the axis land strictly between the doors, the other coordinate kept |
| Corridors.PathHasEnds | src/domain/map/corridor.py:92-112 | the path holds both shifted ends |
| Corridors.PathJoinsAtTurn | src/domain/map/corridor.py:92-112 | the segments meet at the turn: the crossing segment's ends are on the two others |
| Corridors.Corridor.constructor | src/domain/map/corridor.py:50-69 | a corridor between two doors: its doors, ends and path cells, nothing on it |
| Corridors.Corridor.GenerateCorridor | src/domain/map/corridor.py:92-112 | the built cells are exactly the path |
| Corridors.Corridor.BuildVertical | src/domain/map/corridor.py:114-116 | exactly the column segment is added |
| Corridors.Corridor.BuildHorizontal | src/domain/map/corridor.py:118-120 | exactly the row segment is added |
| Corridors.Corridor.Zone | src/domain/map/corridor.py:150-169 | the path cells within the radius that hold no object and no item |
| Corridors.Corridor.IsIn | src/domain/map/corridor.py:136-137 | `is_in`: a path cell, or the cell of an open door |
| Corridors.Corridor.IsInVisible | src/domain/map/corridor.py:139-140 | `is_in_visible`: a path cell or a door cell, open or not |
| Corridors.Corridor.IsInAndAvailableForMove | src/domain/map/corridor.py:142-145 | `is_in_and_available_for_move`: `is_in` and holding no object |
| Corridors.Corridor.IsInAndAvailable | src/domain/map/corridor.py:147-148 | `is_in_and_available`: a path or door cell (a locked door too) holding no object and no item |
| Corridors.Corridor.GetRandomCrdInZone | src/domain/map/corridor.py:150-169 | with radius 0 the first drawn path cell with no object or item, and `None` exactly when no draw is free; otherwise a free path cell within the radius, and `choice` of an empty zone is the error |
| Corridors.Corridor.AddObject | src/domain/map/corridor.py:171-172 | the object is stored at the cell |
| Corridors.Corridor.RemoveObject | src/domain/map/corridor.py:174-175 | `del` succeeds exactly when the cell holds an object, else the KeyError |
| Corridors.Corridor.GetObject | src/domain/map/corridor.py:177-184 | the object at the cell, when there is one |
| Corridors.Corridor.AddItem | src/domain/map/corridor.py:188-189 | the item is stored at the cell |
| Corridors.Corridor.RemoveItem | src/domain/map/corridor.py:191-192 | `del` succeeds exactly when the cell holds an item, else the KeyError |
| Corridors.Corridor.GetItem | src/domain/map/corridor.py:194-199 | the item at the cell, when there is one |
| Corridors.Corridor.FaceDoor | src/domain/map/corridor.py:201-204 | the corridor's door at the cell, exactly when it is locked |
| Corridors.NewCorridor | src/domain/map/corridor.py:50-69 | the corridor is built exactly when the direction is "v" or "h" |
| LockedDoors.FirstDoorTo | src/domain/map/keys.py:77-80 | the first door of the list leading to the room, with no earlier one leading there |
| LockedDoors.SecondDoor | src/domain/map/keys.py:76-80 | `get_2nd_door`: a door of the room the door leads to that leads back, and None exactly when there is none |
| LockedDoors.DoorListIsAll | src/domain/map/keys.py:27-29 | `all_doors` holds exactly the doors of every room |
| LockedDoors.ClosedDoorOf | src/domain/map/keys.py:68-88 | the closed door of a passage is the door itself or its door back, and locked; null exactly when neither is locked (or the open door has no door back) |
| LockedDoors.GetClosedDoor | src/domain/map/keys.py:83-88 | a locked first door is returned; an open first door with no second door is the AttributeError on None; otherwise the second door when locked, else None |
| LockedDoors.OpenIsStep | src/domain/map/keys.py:70-71 | an open passage is a step between its two rooms |
| LockedDoors.AfterSearch | src/domain/map/keys.py:70-71 | the search's invariant survives the recursive call behind an open passage |
| LockedDoors.AfterKey | src/domain/map/keys.py:72-73 | the search's invariant survives a new colour appended to `keys` |
| LockedDoors.MeasureShrinks | src/domain/map/keys.py:66-71 | the rooms not yet listed are fewer after each recursive call, so the recursion ends |
| LockedDoors.GetAvailableRooms | src/domain/map/keys.py:65-73 | the room and then, depth first, every room behind an open passage not yet listed join `available_rooms`; every locked passage met adds its colour to `keys` once; nothing already listed is dropped |
| LockedDoors.SearchDoor | src/domain/map/keys.py:67-73 | one pass of the door loop keeps the search's invariant for the next door |
| LockedDoors.ClosedPassage | src/domain/map/keys.py:68-69 | when every door has a door back, `get_closed_door(door, get_2nd_door(room, door))` never raises and gives the passage's closed door |
| LockedDoors.SearchDone | src/domain/map/keys.py:67-73 | after the loop the room itself is covered |
| LockedDoors.PassableIffOpen | src/domain/map/keys.py:69-70 | a passage is passable under the current locks exactly when `get_closed_door` finds no locked door in it |
| LockedDoors.ListedReachable | src/domain/map/keys.py:65-73 | every room listed is reachable from the start room through open passages |
| LockedDoors.WalkStaysListed | src/domain/map/keys.py:65-73 | a walk through open passages from a listed room ends in a listed room |
| LockedDoors.SearchFromStart | src/domain/map/keys.py:40-73 | from empty lists, the rooms listed are exactly those reachable from the start without passing a locked door, each once, and the keys are the distinct colours of the locked passages met |
| LockedDoors.LevelOf | src/domain/map/keys.py:28-29 | the doors of each room |
| LockedDoors.StartRoom | src/domain/map/keys.py:28-32 | `start_room` is the last room holding the character |
| LockedDoors.LockedFor | src/domain/map/keys.py:45-48 | the doors still locked once the doors of the colours used are unlocked |
| LockedDoors.RoundLocks | src/domain/map/keys.py:39-48 | between rounds the locked doors are the sampled ones whose key is not placed yet |
| LockedDoors.KeyIsFresh | src/domain/map/keys.py:41-73 | a colour met in a round's search is that of a sampled door still locked |
| LockedDoors.LockDoors | src/domain/map/keys.py:54-57 | the i-th door is locked with the i-th colour |
| LockedDoors.UnlockColor | src/domain/map/keys.py:45-48 | the doors of the colour are unlocked and get the base colour; the others keep their lock and colour |
| LockedDoors.UnlockRound | src/domain/map/keys.py:45-48 | unlocking a fresh colour moves the locks on to the next round, and no room changes |
| LockedDoors.SearchRound | src/domain/map/keys.py:40-41 | a round's search lists exactly the rooms reachable through the doors whose key is not placed yet |
| LockedDoors.PlaceKey | src/domain/map/keys.py:60-62 | the key's colour joins the end of the chosen room's keys; nothing else changes |
| LockedDoors.KeyRound | src/domain/map/keys.py:39-48 | `keys.pop()` of an empty list is the IndexError; otherwise the key goes to a reachable room and its door is unlocked |
| LockedDoors.KeyPlaced | src/domain/map/keys.py:42-48 | a key of a still-locked colour goes to a room reachable this round, and its door is unlocked |
| LockedDoors.KeysIn | src/domain/map/keys.py:60-62 | the keys placed in a room come from the colours placed |
| LockedDoors.KeysInSnoc | src/domain/map/keys.py:60-62 | one round more adds its key to its room only |
| LockedDoors.Sampled | src/domain/map/keys.py:34 | `sample(all_doors, 3)` as the positions picked: one door per pick |
| LockedDoors.FetchableSnoc | src/domain/map/keys.py:39-48 | keys placed so far can still be fetched in order after one more round |
| LockedDoors.States | src/domain/map/keys.py:28 | the state of each room |
| LockedDoors.PlaceKeys | src/domain/map/keys.py:39-48 | the three rounds: each places the key of a still-locked colour in a room reachable through the doors still locked, or stops at the IndexError of an empty pop |
| LockedDoors.PlacedKeepsDoors | src/domain/map/keys.py:60-62 | placing keys changes no room's doors |
| LockedDoors.Relock | src/domain/map/keys.py:51 | the last `lock_doors`: the sampled doors are locked again, one per colour, and are the only locked doors |
| LockedDoors.GenerateLockedDoors | src/domain/map/keys.py:18-51 | the character's keys are thrown away, the doors stay, and the result is `Outcome`: every key placed where it can be fetched in order, or the IndexError of `pop` |
| LockedDoors.LockAndPlace | src/domain/map/keys.py:22-51 | the rest of `generate_locked_doors`, with the same outcome |
| LockedDoors.LockSample | src/domain/map/keys.py:34-36 | the sampled doors are distinct doors of the level, and once locked the rounds can start |
| LockedDoors.EveryColorKeyed | src/domain/map/keys.py:39-48 | three keys of distinct lock colours are the three colours, so every locked door's key is placed |
| RoomGroups.MergeInto | src/domain/map/level_map.py:106-108 | the inner loop keeps the number of groups |
| RoomGroups.UnionGroups | src/domain/map/level_map.py:103-108 | the nested loops give the recursive definition's groups |
| RoomGroups.MergeIntoGrows | src/domain/map/level_map.py:106-108 | the inner loop grows only group i, keeps the rooms covered, and takes in every later group that meets it |
| RoomGroups.UnionFromGrows | src/domain/map/level_map.py:105-108 | the outer loop keeps the number of groups and the rooms covered, and only grows groups |
| RoomGroups.UnionAbsorbs | src/domain/map/level_map.py:103-108 | `union_groups` keeps the number of groups and the rooms covered, and the first group takes in every group that shared a room with it |
| RoomGroups.UnionKeepsConnections | src/domain/map/level_map.py:111-143 | groups connected to the first stay connected once united |
| RoomGroups.PickRoom | src/domain/map/level_map.py:119 | `choice(list(group))` is a room of the group |
| RoomGroups.AddConnection | src/domain/map/level_map.py:115-122 | `choice` on an empty later group is the error; otherwise each group not meeting the first picks one of its rooms and grows by the rooms its new doors lead to, and the groups that met it stay |
| Spiral.WalkerTurns | src/domain/map/level_map.py:516-541 | the direction stays one of the four moves and the segment length never drops below 2 |
| Spiral.SearchSteps | src/domain/map/level_map.py:533-541 | consecutive cells of the search are side by side |
| Spiral.Ring | src/domain/map/level_map.py:505-541 | the eight distinct neighbours of a cell |
| Spiral.SearchStartsAround | src/domain/map/level_map.py:505-541 | the first eight cells looked at are the character's eight neighbours, clockwise from the top-left one, and the ninth is that one again |
| Sight.Step | src/domain/map/level_map.py:176-186 | `w` and `s` change the row and `a` and `d` the column by one; any other direction is the ValueError |
| Sight.RayOf | src/domain/map/level_map.py:271-274 | the walk's extents are the absolute differences, and each axis's direction is 1 exactly when that coordinate grows |
| Sight.MulIsProduct | src/domain/map/level_map.py:276-292 | the error's repeated additions agree with multiplication |
| Sight.ColumnsDone | src/domain/map/level_map.py:287-292 | with every column step made and a row step left, the error is not positive, so the walk steps a row |
| Sight.RowsDone | src/domain/map/level_map.py:287-292 | with every row step made and a column step left, the error is positive, so the walk steps a column |
| Sight.Walked | src/domain/map/level_map.py:280-292 | after k steps the walk has made kx column and ky row steps, k in all, within the extents |
| Sight.StepWalks | src/domain/map/level_map.py:287-292 | one step moves one unit along one axis, toward the target |
| Sight.WalkEnds | src/domain/map/level_map.py:272-292 | after dx + dy steps the walk stands on the target |
| Sight.CellsWalk | src/domain/map/level_map.py:264-294 | the loop looks at 1 + dx + dy cells, from the enemy to the character, each next to the one before |
| Sight.NearWalk | src/domain/map/level_map.py:495-500 | a cell near the character (within 3 on each axis) has a walk of at most 7 cells, one with a walk of at most 4 cells is near, and nearness is symmetric |
| Chase.Neighbours | src/domain/map/level_map.py:416 | the four moves, right, left, down, up |
| Chase.Sq | src/domain/map/level_map.py:425-431 | `abs(n) ** 2` is zero only for zero |
| Chase.Dist2 | src/domain/map/level_map.py:425-431 | the squared distance is zero exactly for the same cell |
| Chase.SelectAsWritten | src/domain/map/level_map.py:425-435 | the source's loop gives exactly the as-written selection |
| Chase.Select | src/domain/map/level_map.py:425-435 | the corrected loop gives exactly the intended selection |
| Chase.AsWrittenBound | src/domain/map/level_map.py:425-435 | as written, the smallest distance stays at most the current one plus 2, and the last cell kept is at it |
| Chase.AsWritten | src/domain/map/level_map.py:425-435 | the first `k` passes of the loop as written, popping one candidate on a strictly closer cell; Chase.AsWrittenSound and Chase.AsWrittenKeepsFartherCell state what it keeps |
| Chase.AsWrittenKept | src/domain/map/level_map.py:427-435 | as written, each kept cell is an eligible neighbour |
| Chase.AsWrittenSound | src/domain/map/level_map.py:425-435 | as written, every kept cell is a free neighbour within the current distance plus 2, and the last one kept is as close as any |
| Chase.AsWrittenKeepsFartherCell | src/domain/map/level_map.py:431-435 | with an enemy at (0, 0), the character at (3, 0) and every neighbour free, the loop keeps (0, 1), farther (10) than the enemy is now (9), beside (1, 0); the intended selection keeps only (1, 0) |
| Chase.AtDist | src/domain/map/level_map.py:427-435 | no more cells than neighbours looked at |
| Chase.AtDistMember | src/domain/map/level_map.py:427-435 | the cells kept at a distance are exactly the free neighbours at it |
| Chase.IntendedExact | src/domain/map/level_map.py:425-435 | as intended, the kept cells are, in order, the free neighbours at the smallest distance, and no free neighbour is closer |
| Chase.Intended | src/domain/map/level_map.py:425-435 | the first `k` passes as intended, a strictly closer cell restarting the list; Chase.IntendedExact proves it keeps exactly the closest free neighbours |
| Chase.IntendedSound | src/domain/map/level_map.py:425-435 | the corrected selection keeps exactly the closest free neighbours within the current distance plus 2 |
| Chase.IntendedApproaches | src/domain/map/level_map.py:425-435 | when some free neighbour is closer than the enemy is now, every kept cell is closer |
| Moves.Line | src/domain/map/level_map.py:356-369 | `range(x + 1, x + speed + 1)`: the cells outward from the enemy, nearest first |
| Moves.AheadIsFreePrefix | src/domain/map/level_map.py:351-369 | a probe keeps the longest run of free cells from its start, and stops at the first blocked one |
| Moves.AheadUpTo | src/domain/map/level_map.py:351-369 | a run of free cells that ends at the end or at a blocked cell is the probe's result |
| Moves.AheadMembers | src/domain/map/level_map.py:351-369 | a cell is offered exactly when it is on the line with every cell before it free |
| Moves.LeftAsWritten | src/domain/map/level_map.py:351 | `range(x - speed, x)` runs from the far cell toward the enemy |
| Moves.UpAsWritten | src/domain/map/level_map.py:361 | `range(y - speed, y)` runs from the far cell toward the enemy |
| Moves.Axes | src/domain/map/level_map.py:351-369 | four probes of `speed` cells each |
| Moves.AxesAsWritten | src/domain/map/level_map.py:351-369 | the four probes in the source's order and direction: right and down as the outward probes, left and up the same cells farthest first |
| Moves.OptionsSnoc | src/domain/map/level_map.py:351-369 | each probe appends its run to the options |
| Moves.OptionsReached | src/domain/map/level_map.py:340-373 | the standard move offers exactly the cells its outward probes reach |
| Moves.FarEndFirst | src/domain/map/level_map.py:351-354 | with the enemy at (5, 5) and speed 2, the as-written left probe offers nothing when (5, 3) is blocked and (5, 4) free, and offers (5, 3) past a blocked (5, 4); the outward probe does the opposite |
| Moves.Diagonals | src/domain/map/level_map.py:387-403 | four diagonals of `speed` cells each, in the source's order |
| Moves.Round | src/domain/map/level_map.py:388-403 | a round keeps the number of directions |
| Moves.RoundEffect | src/domain/map/level_map.py:388-403 | one round keeps a direction open exactly when its cell is free, and adds exactly the cells of the open directions, in order |
| Moves.SpreadOpen | src/domain/map/level_map.py:387-403 | after n rounds a direction is open exactly when its first n cells are free |
| Moves.SpreadReached | src/domain/map/level_map.py:375-407 | the diagonal move offers exactly the cells the four diagonal probes reach |
| Moves.RoundReached | src/domain/map/level_map.py:387-403 | one more round extends the cells reached to one more cell per direction |
| Moves.ReachedGrows | src/domain/map/level_map.py:387 | a cell reached within n cells is reached within n + 1 |
| Moves.Fanned | src/domain/map/level_map.py:387-403 | the diagonal loop gives the options of `Spread` |
| Moves.Probe | src/domain/map/level_map.py:356-359 | the probe loop gives `Ahead` |
| Moves.Probes | src/domain/map/level_map.py:351-369 | the four probe loops give the options, probe after probe |
| Controller.StateOf | src/controller/controller.py:21-30 | `GameState(v)` is defined exactly for 1 to 9, with that value; any other number is the ValueError |
| Controller.ActionOf | src/controller/controller.py:32-39 | `UserAction(key)` gives the action with that value; a string no action has is the ValueError |
| Controller.FromKeyValues | src/controller/controller.py:42-51 | every action's own value reads back as that action |
| Controller.FromKey | src/controller/controller.py:42-51 | `from_key`: a movement key is MOVE, a section key INVENTORY, a number from 1 to 9 SLOT, anything else `UserAction(key)`; Controller.KeysAccepted and Controller.FromKeyValues state what it accepts |
| Controller.KeysAccepted | src/controller/controller.py:42-51 | a one-character key is an action exactly when it is one of w a s d h j k e q l m, newline or 1 to 9: the first four move, the next four open the inventory, the digits pick a slot |
| Controller.LowerChar | src/controller/controller.py:283 | `lower` maps the Latin and Russian capitals (and Ё) to their small letters and leaves the rest alone |
| Controller.Lower | src/controller/controller.py:283 | `lower` character by character |
| Controller.Normalize | src/controller/controller.py:282-285 | the lower-cased key, replaced by its English twin when it is a Russian key |
| Controller.NormalizeIdempotent | src/controller/controller.py:282-285 | a normalised key normalises to itself |
| Controller.NormalizeOneChar | src/controller/controller.py:282-285 | one character stays one character |
| Controller.RussianLayout | src/controller/controller.py:282-285 | a key of the Russian layout, in either case, acts as its English twin |
| Controller.SlotNumber | src/controller/controller.py:347-367 | `int(key)` succeeds exactly on decimal digits, with their value |
| Controller.FsmRows | src/controller/controller.py:95-112 | the table calls `__inventory` only from INPUT and DROP, and the slot handlers only on SLOT |
| Controller.ShortKeyNeverFails | src/controller/controller.py:242-264 | no handler the table calls fails on a one-character key |
| Controller.EndOnlyByConfirming | src/controller/controller.py:95-112 | the game ends only by ENTER in the QUIT state |
| Controller.RogueMovesAfterActing | src/controller/controller.py:287-375 | the rogue moves only after a move, or after a used or dropped slot that gave an item |
| Controller.WinAndLevelUp | src/controller/controller.py:311-327 | the game is won only by entering the exit on the last level, and the level rises only by one, by entering an exit below it |
| Controller.InventoryOpens | src/controller/controller.py:329-340 | a section key opens that section (state one on) when it holds items, and otherwise reports it and stays |
| Controller.MuteTwice | src/controller/controller.py:377-383 | muting twice restores the sound setting, announcing both changes |
| Controller.DeathOnlyQuits | src/controller/controller.py:107 | from DEATH only the quit key does anything, and it asks for confirmation |
| Controller.Controller.constructor | src/controller/controller.py:74-93 | a new controller is in INPUT on level 1, sound on, no section chosen |
| Controller.Controller.Handle | src/controller/controller.py:256-258 | the handler the table names is applied to the snapshot |
| Controller.Apply | src/controller/controller.py:287-383 | what each handler returns and leaves in the state, level, sound flag and section; Controller.Controller.Handle runs it, and the lemmas after Controller.FsmRows state its properties |
| Controller.Controller.Enter | src/controller/controller.py:311-327 | `__enter` as the table's ENTER handler |
| Controller.Controller.OpenInventory | src/controller/controller.py:329-340 | `__inventory` as the table's handler |
| Controller.Controller.UseSlot | src/controller/controller.py:346-375 | `slot` and `drop_slot`: the rogue moves when the slot gave an item |
| Controller.Controller.Step | src/controller/controller.py:242-264 | the key is normalised and read as an action; a key that names no action, or a pair the table does not list, changes nothing |
| Controller.Controller.AfterInput | src/controller/controller.py:226-280 | after a rogue move the state is INPUT, or DEATH when the character died; any other state is left alone |
| LevelMaps.Left | src/domain/map/level_map.py:241-246 | `__remove_character` on place `f`: the flag goes and so does the object on the character's cell, and nothing else changes |
| LevelMaps.Arrived | src/domain/map/level_map.py:224-225 | place `p` gets the flag and the character as its object on `to`; nothing else changes |
| LevelMaps.MoveKeepsPlaced | src/domain/map/level_map.py:223-226 | leaving the old place and arriving anywhere leaves the character placed once, on the new cell |
| LevelMaps.RemoveFoeKeepsPlaced | src/domain/map/level_map.py:248-252 | taking a killed enemy off a cell that is not the character's keeps the character placed |
| LevelMaps.GoldDraw | src/domain/objects/character.py:175-184 | the gold for an experience worth `value` lies between `value // 2` and `value * 2` |
| LevelMaps.Award | src/domain/map/level_map.py:248-254 | a kill adds gold between half and twice its experience, to the character and to the statistics alike, one more defeated enemy, and as many levels as the experience climbs; the experience stays below the limit and the limit never drops |
| LevelMaps.Reward | src/domain/map/level_map.py:251-253 | `add_experience` and the defeated-enemy count after a kill, as `Award` states |
| LevelMaps.Settle | src/domain/map/level_map.py:248-254 | a positive count gives `Award`; a negative count fails in `randint` before anything changes |
| LevelMaps.PickedUp | src/domain/map/level_map.py:257-262 | `__pick_up_item` changes neither the places nor where the character stands |
| LevelMaps.KeyTaken | src/domain/map/room.py:248-253 | `get_key` changes neither the places nor where the character stands |
| LevelMaps.GatheredKeepsObjects | src/domain/map/level_map.py:212-221 | picking up the exit, the item and the key moves no actor |
| LevelMaps.GatheredKeepsPlaced | src/domain/map/level_map.py:212-221 | so the character stays placed where it was |
| LevelMaps.Weary | src/domain/map/level_map.py:171-173 | the character's effects run one turn; it can move exactly when it is not asleep, and no enemy changes |
| LevelMaps.Step | src/domain/map/level_map.py:226-227 | only the character's cell changes, and the statistics count one more passed cell |
| LevelMaps.ShiftMoves | src/domain/map/level_map.py:442-452 | moving an enemy empties its old cell, puts it on the new one, and leaves every other cell as it was |
| LevelMaps.ShiftFoesFrom | src/domain/map/level_map.py:442-452 | a move brings no new enemy onto the map |
| LevelMaps.MovedKeeps | src/domain/map/level_map.py:442-457 | any enemy move changes only the objects, and brings no new enemy onto the map |
| LevelMaps.Keep | src/domain/map/room.py:180-184 | the draws that pass the test (those `randint` can give within the bounds), in order, and nothing else |
| LevelMaps.Chosen | src/domain/map/level_map.py:438-439 | `choice` gives nothing for no options, and otherwise one of the options |
| LevelMaps.WentMoved | src/domain/map/level_map.py:438-452 | a move to the chosen cell, or no move at all, is one of `Moved` |
| LevelMaps.GenerateLevelRooms | src/domain/map/level_map.py:62-75 | nine fresh rooms with identifiers 0 to 8, room `i` in grid cell `i` with nothing on it, or the ValueError when a grid cell is too small for a room |
| LevelMaps.GridRoomsApart | src/domain/map/level_map.py:62-75 | rooms of different grid cells never overlap |
| LevelMaps.LevelMap.constructor | src/domain/map/level_map.py:26-37 | the map keeps its size, its rooms and the character, with no corridor yet |
| LevelMaps.LevelMap.FaceDoor | src/domain/map/room.py:255-260 | `face_door` gives only a locked door of the map, or null |
| LevelMaps.LevelMap.IsIn | src/domain/map/level_map.py:193-194 | `place.is_in(crd)` of the place the level map looks at, a room or a corridor |
| LevelMaps.LevelMap.IsInAndAvailableForMove | src/domain/map/level_map.py:348-349 | `is_in_and_available_for_move` of the place the enemy probes |
| LevelMaps.LevelMap.IsInAndAvailable | src/domain/map/level_map.py:507-513 | `is_in_and_available` of the place `drop_item` tries |
| LevelMaps.LevelMap.RemoveObjectAt | src/domain/map/room.py:227-228 | `remove_object` is a KeyError exactly when nothing stands on the cell; otherwise only that object goes |
| LevelMaps.LevelMap.RemoveItemAt | src/domain/map/room.py:265-266 | `remove_item` is a KeyError exactly when no item lies on the cell; otherwise only that item goes |
| LevelMaps.LevelMap.FirstWithCharacter | src/domain/map/level_map.py:242-243 | the first place with the character flag: none before it has the flag |
| LevelMaps.LevelMap.RemoveCharacter | src/domain/map/level_map.py:241-246 | the first place with the flag loses it and the character's object; with no such place nothing changes |
| LevelMaps.LevelMap.HomeIsFirst | src/domain/map/level_map.py:241-246 | the place the character stands in is the one `__remove_character` finds |
| LevelMaps.LevelMap.Relocate | src/domain/map/level_map.py:223-225 | the map after a step: the character has left its place and stands on `crd` of place `p` |
| LevelMaps.LevelMap.FirstReaching | src/domain/map/level_map.py:194-197 | the first place holding `crd` or with a locked door in front of it: none before it does |
| LevelMaps.LevelMap.FoeAt | src/domain/map/room.py:230-236 | an enemy exactly when one stands on the cell |
| LevelMaps.LevelMap.MoveCharacter | src/domain/map/level_map.py:170-191 | a sleeping character only has its effects run; otherwise the direction gives the cell, an unknown one is the ValueError, and the move follows as `Steered` says |
| LevelMaps.LevelMap.Steer | src/domain/map/level_map.py:175-191 | the direction decides the cell, and the move goes as `Steered` says |
| LevelMaps.LevelMap.CheckEffects | src/domain/map/level_map.py:171 | only the character changes, with its effects one turn on |
| LevelMaps.LevelMap.MoveHero | src/domain/map/level_map.py:193-199 | the first place that reaches `crd` takes the move; when no place does, nothing changes and there are no events |
| LevelMaps.LevelMap.MoveActor | src/domain/map/level_map.py:201-228 | an enemy on the cell is attacked, a locked door in front is knocked on, and only otherwise does the character move in, picking up the exit, the item and the key there |
| LevelMaps.LevelMap.Walk | src/domain/map/level_map.py:212-228 | the exit, the item and the key there are gathered, then the character stands on `crd` of place `p` |
| LevelMaps.LevelMap.Enter | src/domain/map/level_map.py:223-227 | the character stands on `crd` of place `p`, and one more cell is counted as passed |
| LevelMaps.LevelMap.Knock | src/domain/map/level_map.py:230-239 | with a key of the door's colour the door opens, takes the base colour and that key is spent; without one nothing changes and the door is reported locked |
| LevelMaps.LevelMap.AttackEnemy | src/domain/map/level_map.py:248-255 | a living enemy stays on the map; a dead one leaves it, and its experience is settled as `Settle` says |
| LevelMaps.LevelMap.Gather | src/domain/map/level_map.py:212-221 | the exit, the item and the key on `crd` are gathered, each with its event |
| LevelMaps.LevelMap.TakeKeyAt | src/domain/map/room.py:248-253 | a key on the cell leaves the room and its colour joins the character's keys |
| LevelMaps.LevelMap.PickUpAt | src/domain/map/level_map.py:257-262 | the item leaves the place exactly when the character took it |
| LevelMaps.LevelMap.StandardReaches | src/domain/map/level_map.py:340-373 | with the corrected outward probes (Moves.Axes, see Findings), the standard move offers exactly the cells on the four axes, within the speed, that are free with every cell before them free |
| LevelMaps.LevelMap.DiagonalReaches | src/domain/map/level_map.py:375-407 | the diagonal move offers exactly the cells on the four diagonals, within the speed, that are free with every cell before them free |
| LevelMaps.LevelMap.StandardOptions | src/domain/map/level_map.py:348-369 | the probes' offers are the standard options, probed outward (Moves.Axes, see Findings) |
| LevelMaps.LevelMap.DiagonalOptions | src/domain/map/level_map.py:383-404 | the loop's offers are the diagonal options |
| LevelMaps.LevelMap.Dest | src/domain/map/level_map.py:442-451 | the place that takes the enemy holds `to`: its own place first, else the first place that does, and none when no place does |
| LevelMaps.LevelMap.ReplaceEnemy | src/domain/map/level_map.py:442-452 | the enemy moves to the place that holds `to`; when no place does, nothing changes |
| LevelMaps.LevelMap.StandardMove | src/domain/map/level_map.py:340-373 | a speed of 0 or less is the ValueError and changes nothing; otherwise the enemy goes to the chosen option of the corrected outward probes (see Findings), or stays when there is none |
| LevelMaps.LevelMap.DiagonalMove | src/domain/map/level_map.py:375-407 | a speed of 0 or less is the ValueError; in a corridor the move is the (corrected) standard one; in a room the enemy goes to the chosen diagonal option |
| LevelMaps.LevelMap.JumpMove | src/domain/map/level_map.py:454-457 | the enemy lands on a free cell of its own place; an error of the draw, or draws that find no free cell, leave the map as it was |
| LevelMaps.LevelMap.RoomLanding | src/domain/map/room.py:170-185 | the error of an empty range, or a free landing cell in the zone, or none when no drawn cell is free |
| LevelMaps.LevelMap.CorridorLanding | src/domain/map/corridor.py:150-169 | the error of an empty choice, or a free landing cell of the corridor within the radius, or none when no drawn cell is free |
| LevelMaps.LevelMap.CasualMove | src/domain/map/level_map.py:327-338 | the pattern picks the (corrected) standard, diagonal or jump move; a mimic stays put |
| LevelMaps.LevelMap.ChaseStep | src/domain/map/level_map.py:420-439 | with the corrected selection (Chase.Select, see Findings), the enemy moves to one of the closest free neighbours, or stays when none is free |
| LevelMaps.LevelMap.EngagedMove | src/domain/map/level_map.py:409-440 | next to the character the enemy strikes, and `alive` tells whether the character lives; otherwise it takes the corrected chase step |
| LevelMaps.LevelMap.IsPointVisible | src/domain/map/level_map.py:264-294 | the walk answers exactly as `Visible` defines the line of sight |
| LevelMaps.LevelMap.Roster | src/domain/map/level_map.py:304-309 | every enemy on the map exactly once, place by place in the order of the rooms and then the corridors |
| LevelMaps.LevelMap.EnemyTurn | src/domain/map/level_map.py:313-324 | a sleeping enemy does nothing else; an awake one chases when the character is in reach and it was engaged already or sees the character, and otherwise makes its pattern move (the chase and probes corrected as in Findings) |
| LevelMaps.LevelMap.Engages | src/domain/map/level_map.py:318 | the enemy chases exactly when the character is in reach and it was engaged already or sees the character |
| LevelMaps.LevelMap.Act | src/domain/map/level_map.py:318-324 | the engaged move when the enemy chases, the pattern move otherwise (both corrected as in Findings) |
| LevelMaps.LevelMap.Rouse | src/domain/map/level_map.py:313-316 | only the enemy's effects change, and it can move exactly when it is not asleep |
| LevelMaps.LevelMap.Phase | src/domain/map/level_map.py:304-324 | the loop over the snapshot keeps `InPhase`: only objects change, no enemy is added, and `alive` is the conjunction of the blows' outcomes; the enemy moves are the corrected ones |
| LevelMaps.LevelMap.MakeRogueMove | src/domain/map/level_map.py:296-325 | the character's cell, keys and items stay; only the objects of the map change; `alive` is false exactly when some blow found the character dead; the enemies move by the corrected chase and probes |
| LevelMaps.LevelMap.FirstAvailable | src/domain/map/level_map.py:507-513 | the first place that takes an item on `crd`: none before it does |
| LevelMaps.LevelMap.DropSpot | src/domain/map/level_map.py:516-541 | the spiral search, as `Search` defines it |
| LevelMaps.LevelMap.DropItem | src/domain/map/level_map.py:502-541 | no item drops nothing; otherwise the item goes onto the cell the spiral finds, and nothing else changes; when the spiral finds none the map is unchanged |
| LevelMaps.LevelMap.DropBeside | src/domain/map/level_map.py:502-541 | when a neighbour of the character can take an item, the item lands on one of the eight neighbours |
| LevelMaps.LevelMap.Vacant | src/domain/map/level_map.py:80-81 | exactly the rooms without the character, in order |
| LevelMaps.LevelMap.PlaceExit | src/domain/map/level_map.py:80-81 | the exit goes into a room without the character, on the drawn cell; when every room holds the character, `choice` fails and nothing changes |
| LevelMaps.LevelMap.IsExit | src/domain/map/level_map.py:459-465 | the first room holding the character's cell answers whether it is an exit |
| LevelMaps.LevelMap.OnAnyExit | src/domain/map/level_map.py:459-465 | with the rooms apart, `is_exit` holds exactly when the character stands on an exit of some room |
| LevelMaps.LevelMap.Advance | src/domain/map/level_map.py:189-190 | the move toward the cell the direction gave goes as `Steered` says |
| LevelMaps.LevelMap.Refresh | src/domain/map/level_map.py:171-173 | the character's effects run one turn; the map stays and the character can move exactly when it is not asleep |
| LevelMaps.LevelMap.Fight | src/domain/map/level_map.py:203-206 | a living enemy stays; a dead one leaves the cell and its experience is settled, while the character stays where it stood |
| LevelMaps.LevelMap.Push | src/domain/map/level_map.py:208-210 | the knock on the locked door in front of the cell, with its event; the places and the character's cell stay |
| LevelMaps.LevelMap.Slay | src/domain/map/level_map.py:249-251 | the enemy leaves the map exactly when its experience is not 0, and nothing of the gold, experience or kill count changes yet |
| LevelMaps.LevelMap.Strike | src/domain/map/level_map.py:249 | the blow gives the enemy's experience exactly when it dies, and changes neither the gold nor the kill count |
| LevelMaps.LevelMap.PickUpIfAny | src/domain/map/level_map.py:215-217 | an item on the cell is picked up with its messages; with none nothing changes |
| LevelMaps.LevelMap.KeyIfRoom | src/domain/map/level_map.py:219-221 | in a room the key on the cell is taken with its event; in a corridor nothing changes |
| LevelMaps.LevelMap.MoveAmong | src/domain/map/level_map.py:437-439 | the enemy moves to the option `choice` picks, and stays when there is none |
| LevelMaps.LevelMap.DiagonalInRoom | src/domain/map/level_map.py:383-407 | in a room the enemy goes to the diagonal option `choice` picks |
| LevelMaps.LevelMap.Pursue | src/domain/map/level_map.py:319-322 | next to the character the enemy strikes, and `alive` says whether the character lives; otherwise the character is unchanged and alive, and the enemy takes the corrected chase step |
| LevelMaps.LevelMap.PhaseStep | src/domain/map/level_map.py:310-324 | one pass of the loop, with the corrected enemy turn, keeps `InPhase` |

## Left out

- Floating point: the hit test `is_enemy_hits` is the oracle `hitTest`, and the uniform draws (`uniform`, `random`) are real-valued parameters in [0, 1).
- Enemies.ScaleFactor and RogueTypes.Growth: the float `pow(1.15, level - 1)` (enemy.py:66, and the level scaling of the items) is an exact real number, and so is the `1.25` factor of `__up_level`; rounding errors of the float arithmetic are not modelled.
- Enemies.Experience: the float `ceil` of `__exp_count` (enemy.py:151) is taken on exact rationals, so a float result that rounds differently from the exact one is not modelled.
- Random draws: every `randint`, `choice`, `sample`, `uniform` and `random` result is a parameter (the draws `Draws`, `u`, `chance`, `draw`, `goldRaw`, `ups`, `pick`, `picks`, `sidesOf`, the lists of cell draws), constrained to the range the source draws from; which values the generator yields, and how often, is not modelled.
- Redraw-until-free loops (Rooms.Room.AllocateCoordinates, Rooms.Room.GetRandomCrdInZone, Corridors.Corridor.GetRandomCrdInZone on a radius of 0): they take a finite list of draws, and when no draw in the list is free the model answers `None` where the source keeps drawing; when every cell it draws from is taken, the source loop never ends.
- LevelMaps.LevelMap.CorridorLanding: the `choice` among the free corridor cells within the radius is a cell picked by `:|`, not a draw parameter.
- JsonValue.GetInt, JsonValue.GetStr, JsonValue.GetBool, CharacterSave.IntValue, CharacterSave.RecordList, Stats.RogueStats.Load, FoodItem.Load, PotionItem.Load, ScrollItem.Load, WeaponItem.ParseWeapon, WeaponItem.Load, CharacterSave.ParseItem, CharacterSave.ParseEffect: JSON values are typed, so a value of the wrong type under a known key is a TypeError, whereas the Python `_load` methods assign any value (a gold of `"x"` is accepted there); a potion or effect name that is not a string is a KeyError of `Effects[...]` in Python.
- Character.Character.Load: an "effects" or "items" entry is read whole before any of it is applied, so when its k-th record fails the model has applied none of that entry, whereas Python (character.py:410-421) has already appended the first k - 1 effects or added and equipped the first k - 1 items; the contract says nothing of the state after a failure.
- Character.Character.LoadItems: states each loaded weapon by name and power and the last held one as equipped; the `held` flags of the other weapons in the backpack are not stated (an earlier held weapon is unheld again by `equip_weapon` of a later one).
- Sound, logging and `sleep`: `SoundController`, `domain_log` and the pause before an enemy's blow have no effect on the game state and are dropped.
- Singletons: `Character.get_instance()`, `RogueStats.get_instance()` and `SoundController.get_instance()` are objects passed to the members that use them.
- File I/O: `dump_json_stats`, `get_sorted_stats`, `check_nickname` and the save files (`dump_json_save`, `load_json_save`, `remove_save`) take or return the file contents as values; opening, reading, writing and removing files is left to the caller.
- `__generate_doors_and_corridors` (level_map.py:83-147): the union, the connection check and `add_connection` are modelled on groups of room ids (`RoomGroups`), with the rooms that new doors lead to as a parameter; the walk over the rooms that builds the first corridors (level_map.py:124-141) and the building of the corridor objects there are not part of a LevelMap method, and the termination of the `while not check_connections()` loop (level_map.py:144-147) is not proved (it depends on the draws).
- LockedDoors.GetAvailableRooms: requires every door to have a door back (`BacksExist`); a door without one makes the source raise AttributeError on `None.is_closed`, which only LockedDoors.GetClosedDoor models.
- LockedDoors.KeyRound: a `keys.pop()` on an empty list is modelled as the IndexError, but its absence is not proved, because that would need the connectivity of the generated level.
- Character.Character.AddExperience and Character.Character.RaiseLevels: require a threshold `max_exp` of at least 1. `_load` accepts any `max_exp`, and with 0 or less the `while` loop of `__up_level` never ends (Character.NoClimbEnd: `round(1.25 * 0) == 0`).
- LevelMaps.LevelMap.DropItem: the spiral search of `drop_item` runs at most `fuel` cells, where the source stops only on leaving the bounds; a fuel of at least 8 reaches every neighbour (LevelMaps.LevelMap.DropBeside).
- LevelMaps.LevelMap.StandardReaches, LevelMaps.LevelMap.StandardOptions, LevelMaps.LevelMap.StandardMove: model the corrected probes of the Findings (every probe outward from the enemy, `Moves.Axes`), not the far-end-first left and up probes of level_map.py:351-354 and 361-364 (`Moves.AxesAsWritten`); with the enemy at (5, 5), speed 2, (5, 4) blocked and (5, 3) free, the source offers (5, 3) and the model does not.
- LevelMaps.LevelMap.ChaseStep: models the corrected selection of the Findings (`Chase.Select`, exactly the closest free neighbours), not the pop-one loop of level_map.py:425-435 (`Chase.SelectAsWritten`), which can keep a farther cell.
- LevelMaps.LevelMap.DiagonalMove: its corridor fallback is the corrected standard move.
- LevelMaps.LevelMap.CasualMove: its standard and diagonal branches run the corrected probes.
- LevelMaps.LevelMap.EngagedMove: its chase branch is the corrected chase step.
- LevelMaps.LevelMap.Pursue: its chase branch is the corrected chase step.
- LevelMaps.LevelMap.Act: both branches run the corrected chase step or probes.
- LevelMaps.LevelMap.EnemyTurn: the enemy's move is the corrected chase step or probe move, so the map after a turn can differ from the source's.
- LevelMaps.LevelMap.PhaseStep: each pass runs the corrected enemy turn; the phase invariant it keeps holds of the source too.
- LevelMaps.LevelMap.Phase: the enemy moves of the loop are the corrected ones; the invariant (only objects change, no enemy added, `alive` the conjunction of the blows) holds of the source too.
- LevelMaps.LevelMap.MakeRogueMove: the enemies move by the corrected chase step and probes, so the map it produces can differ from the source's; its ensures hold of the source too.
- Controller.LowerChar: lower-cases only Latin capitals, Russian capitals and Ё; Python's `str.lower` (controller.py:283) lowers every script, maps U+212A KELVIN SIGN to "k" and turns "İ" into two characters.
- Controller.Lower: inherits that restriction of Controller.LowerChar and keeps the length of the key.
- Controller.Normalize: inherits the Latin-and-Cyrillic-only lowering of Controller.LowerChar.
- Controller.NormalizeOneChar: holds of the model's lowering only; in the source "İ" normalises to two characters.
- Controller.SlotNumber: reads ASCII digits only; Python's `int` (controller.py:347, 367) also reads other decimal digits such as "٣" as 3.
- Controller.KeysAccepted: lists the one-character keys of the model's ASCII-only `isdigit`; in the source "٣" passes `isdigit` and reads as slot 3, and "²" passes `isdigit` but makes `int` raise ValueError.
- Controller.FromKey: `isdigit` and `int` are ASCII-only here (Controller.IsDigits, Controller.DigitsValue), as for Controller.KeysAccepted.
- LevelMaps.LevelMap.Roster: the order of the enemies within one place is some order of their cells, not the insertion order of the Python dictionary.
- `__place_character_to_initial_room`, `__generate_enemies`, `__generate_items` and the rest of `LevelMap.__init__` are not one method; the room-level parts (`Rooms.Room.PlaceCharacter`, `Rooms.Room.GenerateEnemies`, `Rooms.EnemyAttempts`) are modelled.
- `generate_items` of a room (room.py:147-164) is not modelled: it draws item kinds by weighted float chances.
- `get_cell` of the level map and of rooms and corridors, and the rest of the rendering (colours, symbols, the visited-corridor set): display only. The mimic's disguised `color` and `symbol` properties are display too.
- The game loop of the controller beyond the ROGUE_MOVE to INPUT step (drawing, reading keys, the level transition that builds a new map) is not modelled.

## Findings

| source | as written | input that shows it | evidently intended | confidence | as-written member | corrected member |
|---|---|---|---|---|---|---|
| src/domain/map/level_map.py:431-435 | when a strictly closer neighbour is found, `best_move.pop()` removes only the last of the candidates kept so far | enemy at (0, 0), character at (3, 0), all four neighbours free: `best_move` ends as [(0, 1), (1, 0)], and (0, 1) is at squared distance 10, farther than the enemy's present 9 | the candidates are exactly the free neighbours at the smallest distance | not executed | Chase.AsWrittenKeepsFartherCell | Chase.IntendedSound |
| src/domain/map/level_map.py:351-354 | the left and up probes run `range(x - speed, x)` and `range(y - speed, y)`, from the far cell toward the enemy, and stop at the first blocked cell | enemy at (5, 5), speed 2: with (5, 3) blocked and (5, 4) free the left probe offers nothing; with (5, 4) blocked and (5, 3) free it offers (5, 3), past the blocked cell | every probe runs outward from the enemy, as the right and down probes do | not executed | Moves.FarEndFirst | Moves.OptionsReached |

The rest of the model uses the corrected definitions: the chase step of
`LevelMaps.LevelMap.EngagedMove` selects with `Chase.Select`, and the
standard move of `LevelMaps.LevelMap.StandardMove` probes along `Moves.Axes`.
The as-written probes are `Moves.AxesAsWritten` and the as-written selection
is `Chase.SelectAsWritten`; the members of the enemy phase that run the
corrected ones are listed under "## Left out".
