/** Potions (src/domain/objects/items/potion.py): a timed boost of one attribute. */
module PotionItem {
  import opened Wrappers
  import opened RogueTypes
  import opened JsonValue
  import Ordering
  import Stats

  const Symbol: string := "\U{100F0}"
  const Color := 25

  /** The three strengths a potion comes in: how long it lasts, and its label. */
  datatype Power = First | Second | Third
  {
    function Time(): int
    {
      match this
      case First => 10
      case Second => 20
      case Third => 30
    }

    function Label(): string
    {
      match this
      case First => "I"
      case Second => "II"
      case Third => "III"
    }
  }

  datatype Potion = Potion(feature: EffectKind, points: int, power: string, time: int)

  /** The attributes a potion or a scroll can raise: the first three effect kinds. */
  predicate IsFeature(k: EffectKind)
  {
    k in AllEffects[..3]
  }

  function FeatureBase(k: EffectKind): real
  {
    if k == MaxHealth then 100.0 else if k == Strength then 15.0 else 12.0
  }

  /**
   * A potion made on `level` from the drawn `feature`, `points` (the rounded
   * uniform draw between 0.3 and 0.5 of the feature's base, scaled by level)
   * and `power`.
   */
  function NewPotion(level: nat, feature: EffectKind, points: int, power: Power): (p: Potion)
    requires level >= 1 && IsFeature(feature)
    requires FeatureBase(feature) * 0.3 * Growth(level - 1) - 0.5 <= points as real
    requires points as real <= FeatureBase(feature) * 0.5 * Growth(level - 1) + 0.5
    ensures p.feature in {MaxHealth, Agility, Strength}
    ensures p.time in {10, 20, 30} && p.power in {"I", "II", "III"}
    ensures Effect(p) == RogueEffect(feature, points, power.Time())
  {
    Potion(feature, points, power.Label(), power.Time())
  }

  /** The effect: the feature raised by `points` for `time` turns. */
  function Effect(p: Potion): (e: RogueEffect)
    ensures e.effect == p.feature && e.value == p.points && e.period == p.time
  {
    RogueEffect(p.feature, p.points, p.time)
  }

  function PickUp(p: Potion): seq<RogueEvent>
  {
    [RogueEvent("Вы нашли зелье " + p.feature.Label() + " " + p.power, 11)]
  }

  /** Dropping gives the potion itself back. */
  function Drop(p: Potion): (r: (seq<RogueEvent>, Potion))
    ensures r.1 == p
  {
    ([Event("Вы выбросили зелье " + p.feature.Label() + " " + p.power)], p)
  }

  /** The message a potion of this feature gives when drunk. */
  function UseMessage(k: EffectKind): string
  {
    if k == Agility then "Ваша ловкость временно возрасла"
    else if k == Strength then "Ваша сила временно возрасла"
    else "Ваш запас здоровья временно увеличился"
  }

  /** Each of the three features a potion raises has its own message. */
  lemma UseMessagesDistinct(a: EffectKind, b: EffectKind)
    requires IsFeature(a) && IsFeature(b)
    ensures UseMessage(a) == UseMessage(b) <==> a == b
  {
    if UseMessage(a) == UseMessage(b) {
      LengthOfUseMessage(a);
      LengthOfUseMessage(b);
    }
  }

  /** The three messages have different lengths. */
  lemma LengthOfUseMessage(k: EffectKind)
    ensures |UseMessage(k)| == if k == Agility then 31 else if k == Strength then 27 else 38
  {
  }

  /** `use`: counts one used potion and yields the stored effect, with the feature's message. */
  method Use(p: Potion, stats: Stats.RogueStats) returns (events: seq<RogueEvent>, effect: RogueEffect)
    modifies stats
    ensures effect == Effect(p)
    ensures stats.Record() == old(stats.Record()).(usedPotions := old(stats.usedPotions) + 1)
    ensures events == [Event(UseMessage(p.feature))]
  {
    stats.usedPotions := stats.usedPotions + 1;
    var spelling;
    if p.feature == Agility {
      spelling := "Ваша ловкость временно возрасла";
    } else if p.feature == Strength {
      spelling := "Ваша сила временно возрасла";
    } else {
      spelling := "Ваш запас здоровья временно увеличился";
    }
    return [Event(spelling)], Effect(p);
  }

  function Dump(p: Potion): map<string, Value>
  {
    map["feature" := Str(p.feature.Name()), "points" := Int(p.points), "power" := Str(p.power),
        "time" := Int(p.time)]
  }

  /** `_load(**d)`: exactly the four parameters; an unknown feature name is a KeyError. */
  function Load(d: map<string, Value>): (r: Result<Potion>)
    ensures r.Success? ==> d.Keys == {"feature", "points", "power", "time"} && Dump(r.value) == d
  {
    if !KwargsMatch(d, {"feature", "points", "power", "time"}) then Failure(TypeError("_load() arguments"))
    else
      var name :- GetStr(d, "feature");
      var feature :- EffectFromName(name);
      var points :- GetInt(d, "points");
      var power :- GetStr(d, "power");
      var time :- GetInt(d, "time");
      Success(Potion(feature, points, power, time))
  }

  /** Reloading a dump restores the potion, and so an equal effect. */
  lemma DumpLoadRoundTrip(p: Potion)
    ensures Load(Dump(p)) == Success(p)
    ensures Effect(Load(Dump(p)).value) == Effect(p)
  {
    EffectNames(p.feature);
  }

  lemma EffectNames(k: EffectKind)
    ensures EffectFromName(k.Name()) == Success(k)
  {
  }

  function ToString(p: Potion): string
  {
    "Зелье " + p.feature.Label() + " " + p.power
  }

  /** `__lt__`: by feature label, and by power label between potions of the same feature. */
  predicate Less(a: Potion, b: Potion)
  {
    if a.feature.Label() == b.feature.Label() then Ordering.StrLess(a.power, b.power)
    else Ordering.StrLess(a.feature.Label(), b.feature.Label())
  }

  lemma LessIsStrictOrder(s: seq<Potion>)
    ensures Ordering.StrictOrderOn(s, Less)
  {
    forall i | 0 <= i < |s|
      ensures !Less(s[i], s[i])
    {
      Ordering.StrLessIrreflexive(s[i].power);
    }
    forall i, j, k | 0 <= i < |s| && 0 <= j < |s| && 0 <= k < |s| && Less(s[i], s[j]) && Less(s[j], s[k])
      ensures Less(s[i], s[k])
    {
      LessTransitive(s[i], s[j], s[k]);
    }
  }

  lemma LessTransitive(a: Potion, b: Potion, c: Potion)
    requires Less(a, b) && Less(b, c)
    ensures Less(a, c)
  {
    var la, lb, lc := a.feature.Label(), b.feature.Label(), c.feature.Label();
    if la == lb && lb == lc {
      Ordering.StrLessTransitive(a.power, b.power, c.power);
    } else if la != lb && lb != lc {
      Ordering.StrLessTransitive(la, lb, lc);
      if la == lc {
        Ordering.StrLessIrreflexive(la);
      }
    }
  }

  /** The labels order the potions health, agility, strength; and I before II before III. */
  lemma LabelOrder()
    ensures Ordering.StrLess(MaxHealth.Label(), Agility.Label())
    ensures Ordering.StrLess(Agility.Label(), Strength.Label())
    ensures Ordering.StrLess(First.Label(), Second.Label()) && Ordering.StrLess(Second.Label(), Third.Label())
  {
  }
}
