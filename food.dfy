/** Food (src/domain/objects/items/food.py): heals by a fixed number of points. */
module FoodItem {
  import opened Wrappers
  import opened RogueTypes
  import opened JsonValue
  import Ordering
  import Stats

  const Symbol: string := "f"
  const Color := 9

  /** `food_types`: the kinds of food and the hit points each restores. */
  const FoodTypes: seq<(string, int)> :=
    [("яблоко", 10), ("манго", 30), ("хлеб", 50), ("кроличье рагу", 100), ("эликсир жизни", 1000)]

  const Messages: seq<string> := ["Неплохо подкрепились", "Это было не очень вкусно...", "Фу какая гадость"]

  datatype Food = Food(name: string, healthPoints: int)

  /** A food of the kind drawn at index `kind` of `food_types`. */
  function NewFood(kind: nat): (f: Food)
    requires kind < |FoodTypes|
    ensures (f.name, f.healthPoints) in FoodTypes
    ensures f.healthPoints in {10, 30, 50, 100, 1000}
  {
    Food(FoodTypes[kind].0, FoodTypes[kind].1)
  }

  /** Eating restores `health_points`, instantly. */
  function Effect(f: Food): (e: RogueEffect)
    ensures e.effect == Health && e.value == f.healthPoints && e.period == 0
  {
    RogueEffect(Health, f.healthPoints, 0)
  }

  function PickUp(f: Food): seq<RogueEvent>
  {
    [RogueEvent("Вы нашли " + f.name, 11)]
  }

  /** Dropping reports the food and gives the food itself back. */
  function Drop(f: Food): (r: (seq<RogueEvent>, Food))
    ensures r.1 == f
  {
    ([Event("Вы выбросили " + f.name)], f)
  }

  /**
   * `use`: counts one eaten food in the statistics and yields the effect;
   * `message` is the drawn index of the message shown.
   */
  method Use(f: Food, stats: Stats.RogueStats, message: nat) returns (events: seq<RogueEvent>, effect: RogueEffect)
    requires message < |Messages|
    modifies stats
    ensures effect == Effect(f)
    ensures events == [Event(Messages[message])]
    ensures stats.eatenFood == old(stats.eatenFood) + 1
    ensures stats.Record() == old(stats.Record()).(eatenFood := old(stats.eatenFood) + 1)
  {
    stats.eatenFood := stats.eatenFood + 1;
    return [Event(Messages[message])], Effect(f);
  }

  function Dump(f: Food): map<string, Value>
  {
    map["name" := Str(f.name), "hp" := Int(f.healthPoints)]
  }

  /** `_load(**d)`: both parameters must be given and nothing else. */
  function Load(d: map<string, Value>): (r: Result<Food>)
    ensures r.Success? ==> d.Keys == {"name", "hp"} && Dump(r.value) == d
  {
    if !KwargsMatch(d, {"name", "hp"}) then Failure(TypeError("_load() arguments"))
    else
      var name :- GetStr(d, "name");
      var hp :- GetInt(d, "hp");
      Success(Food(name, hp))
  }

  lemma DumpLoadRoundTrip(f: Food)
    ensures Load(Dump(f)) == Success(f)
  {
  }

  function ToString(f: Food): string
  {
    f.name
  }

  /** `__lt__`: by the hit points restored. */
  predicate Less(a: Food, b: Food)
  {
    a.healthPoints < b.healthPoints
  }

  lemma LessIsStrictOrder(s: seq<Food>)
    ensures Ordering.StrictOrderOn(s, Less)
  {
  }
}
