/** Scrolls (src/domain/objects/items/scroll.py): a permanent boost of one attribute. */
module ScrollItem {
  import opened Wrappers
  import opened RogueTypes
  import opened JsonValue
  import Ordering
  import Stats
  import PotionItem

  const Symbol: string := "ʃ"
  const Color := 26

  datatype Scroll = Scroll(feature: EffectKind, points: int)

  /**
   * A scroll made on `level` from the drawn `feature` and `points` (the rounded
   * uniform draw between 0.05 and 0.15 of the feature's base, scaled by level).
   */
  function NewScroll(level: nat, feature: EffectKind, points: int): (s: Scroll)
    requires level >= 1 && PotionItem.IsFeature(feature)
    requires PotionItem.FeatureBase(feature) * 0.05 * Growth(level - 1) - 0.5 <= points as real
    requires points as real <= PotionItem.FeatureBase(feature) * 0.15 * Growth(level - 1) + 0.5
    ensures s.feature in {MaxHealth, Agility, Strength}
    ensures Effect(s) == RogueEffect(feature, points, 0)
  {
    Scroll(feature, points)
  }

  /** The effect is instantaneous (period 0), so it is applied once and never tracked. */
  function Effect(s: Scroll): (e: RogueEffect)
    ensures e.effect == s.feature && e.value == s.points && e.period == 0
  {
    RogueEffect(s.feature, s.points, 0)
  }

  function PickUp(s: Scroll): seq<RogueEvent>
  {
    [RogueEvent("Вы нашли свиток " + s.feature.Label(), 11)]
  }

  function Drop(s: Scroll): (r: (seq<RogueEvent>, Scroll))
    ensures r.1 == s
  {
    ([Event("Вы выбросили свиток " + s.feature.Label())], s)
  }

  /** The message a scroll of this feature gives when read. */
  function UseMessage(k: EffectKind): string
  {
    if k == Agility then "Теперь вы стали проворнее"
    else if k == Strength then "Вы чувствуете прилив сил"
    else "Вы стали выносливее"
  }

  /** Each of the three features a scroll raises has its own message. */
  lemma UseMessagesDistinct(a: EffectKind, b: EffectKind)
    requires PotionItem.IsFeature(a) && PotionItem.IsFeature(b)
    ensures UseMessage(a) == UseMessage(b) <==> a == b
  {
    if UseMessage(a) == UseMessage(b) {
      LengthOfUseMessage(a);
      LengthOfUseMessage(b);
    }
  }

  /** The three messages have different lengths. */
  lemma LengthOfUseMessage(k: EffectKind)
    ensures |UseMessage(k)| == if k == Agility then 25 else if k == Strength then 24 else 19
  {
  }

  /** `use`: counts one used scroll and yields the effect, with the feature's message. */
  method Use(s: Scroll, stats: Stats.RogueStats) returns (events: seq<RogueEvent>, effect: RogueEffect)
    modifies stats
    ensures effect == Effect(s)
    ensures stats.Record() == old(stats.Record()).(usedScrolls := old(stats.usedScrolls) + 1)
    ensures events == [Event(UseMessage(s.feature))]
  {
    stats.usedScrolls := stats.usedScrolls + 1;
    var spelling;
    if s.feature == Agility {
      spelling := "Теперь вы стали проворнее";
    } else if s.feature == Strength {
      spelling := "Вы чувствуете прилив сил";
    } else {
      spelling := "Вы стали выносливее";
    }
    return [Event(spelling)], Effect(s);
  }

  function Dump(s: Scroll): map<string, Value>
  {
    map["feature" := Str(s.feature.Name()), "points" := Int(s.points)]
  }

  function Load(d: map<string, Value>): (r: Result<Scroll>)
    ensures r.Success? ==> d.Keys == {"feature", "points"} && Dump(r.value) == d
  {
    if !KwargsMatch(d, {"feature", "points"}) then Failure(TypeError("_load() arguments"))
    else
      var name :- GetStr(d, "feature");
      var feature :- EffectFromName(name);
      var points :- GetInt(d, "points");
      Success(Scroll(feature, points))
  }

  lemma DumpLoadRoundTrip(s: Scroll)
    ensures Load(Dump(s)) == Success(s)
    ensures Effect(Load(Dump(s)).value) == Effect(s)
  {
    PotionItem.EffectNames(s.feature);
  }

  function ToString(s: Scroll): string
  {
    "Свиток " + s.feature.Label()
  }

  /** `__lt__`: by feature label. */
  predicate Less(a: Scroll, b: Scroll)
  {
    Ordering.StrLess(a.feature.Label(), b.feature.Label())
  }

  lemma LessIsStrictOrder(s: seq<Scroll>)
    ensures Ordering.StrictOrderOn(s, Less)
  {
    forall i | 0 <= i < |s|
      ensures !Less(s[i], s[i])
    {
      Ordering.StrLessIrreflexive(s[i].feature.Label());
    }
    forall i, j, k | 0 <= i < |s| && 0 <= j < |s| && 0 <= k < |s| && Less(s[i], s[j]) && Less(s[j], s[k])
      ensures Less(s[i], s[k])
    {
      Ordering.StrLessTransitive(s[i].feature.Label(), s[j].feature.Label(), s[k].feature.Label());
    }
  }
}
