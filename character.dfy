/**
 * The player character (src/domain/objects/character.py): hit points and the
 * other attributes, the timed effects on them, experience and levels, gold,
 * keys, the held weapon and the backpack, and the save record.
 *
 * The character is one object whose methods update its fields. Every random
 * draw is a parameter: the hit test `is_enemy_hits` is the oracle `hitTest`
 * (attacker agility, defender agility), the gold for experience is `goldDraw`,
 * and each level-up's three uniform factors are one `Ups` value.
 */
module Character {
  import opened Wrappers
  import opened RogueTypes
  import Lists
  import opened JsonValue
  import opened Items
  import EB = EffectBag
  import CS = CharacterSave
  import Stats
  import GoldItem
  import FoodItem
  import PotionItem
  import ScrollItem
  import WeaponItem
  import IL = ItemList
  import Ordering
  import BP = Backpack

  const Symbol: string := "@"
  const BaseColor := 13
  const HarmColor := 10
  const HpStarted := 100
  const StrStarted := 8
  const AgilStarted := 6
  const ExpStarted := 5

  /** The name the tired message uses: the class's own name. */
  const ClassName: string := "Character"

  /** The scale 0.15 of every attribute rise, spread by 30% either way. */
  const UpLow: real := 0.105
  const UpHigh: real := 0.195

  /** The attributes effects act on. */
  datatype Attrs = Attrs(hp: int, maxHp: int, agility: int, strength: int)

  function Min(a: int, b: int): (m: int)
    ensures m <= a && m <= b && (m == a || m == b)
  {
    if a <= b then a else b
  }

  /**
   * `apply_effect` on the attributes: health is topped up to at most the
   * maximum, a raised maximum also raises health, and health never ends
   * above the maximum; agility and strength just add.
   */
  function Applied(a: Attrs, e: RogueEffect): (r: Attrs)
    ensures e.effect == Health ==> r == a.(hp := Min(a.hp + e.value, a.maxHp))
    ensures e.effect == MaxHealth ==>
      && r.maxHp == a.maxHp + e.value && r.agility == a.agility && r.strength == a.strength
      && r.hp == Min(if e.value > 0 then a.hp + e.value else a.hp, r.maxHp)
    ensures e.effect == Agility ==> r == a.(agility := a.agility + e.value)
    ensures e.effect == Strength ==> r == a.(strength := a.strength + e.value)
    ensures e.effect == Sleep ==> r == a
  {
    match e.effect
    case MaxHealth =>
      var maxHp := a.maxHp + e.value;
      var hp := if e.value > 0 then a.hp + e.value else a.hp;
      a.(maxHp := maxHp, hp := if hp <= maxHp then hp else maxHp)
    case Health => a.(hp := if a.hp + e.value <= a.maxHp then a.hp + e.value else a.maxHp)
    case Agility => a.(agility := a.agility + e.value)
    case Strength => a.(strength := a.strength + e.value)
    case Sleep => a
  }

  /** `__remove_effect` on the attributes: the value is taken back, with no clamp. */
  function Reverted(a: Attrs, e: RogueEffect): Attrs
  {
    match e.effect
    case MaxHealth => a.(maxHp := a.maxHp - e.value)
    case Health => a.(hp := a.hp - e.value)
    case Agility => a.(agility := a.agility - e.value)
    case Strength => a.(strength := a.strength - e.value)
    case Sleep => a
  }

  /** The effects of `zs` removed in turn, from the first. */
  function RevertAll(a: Attrs, zs: seq<RogueEffect>): Attrs
  {
    if |zs| == 0 then a else Reverted(RevertAll(a, zs[..|zs| - 1]), zs[|zs| - 1])
  }

  /** Health and its maximum effects keep health at or below the maximum. */
  lemma HealthClamped(a: Attrs, e: RogueEffect)
    requires e.effect in {Health, MaxHealth}
    ensures Applied(a, e).hp <= Applied(a, e).maxHp
    ensures e.effect == Health && a.hp <= a.maxHp && e.value >= 0 ==> a.hp <= Applied(a, e).hp
  {
  }

  /** Removing an agility, strength or sleep effect after applying it restores every attribute. */
  lemma RevertUndoesApply(a: Attrs, e: RogueEffect)
    requires e.effect in {Agility, Strength, Sleep}
    ensures Reverted(Applied(a, e), e) == a
  {
  }

  /** Removing a maximum-health effect after applying it restores the maximum. */
  lemma RevertRestoresMaxHp(a: Attrs, e: RogueEffect)
    requires e.effect == MaxHealth
    ensures Reverted(Applied(a, e), e).maxHp == a.maxHp
    ensures Reverted(Applied(a, e), e).agility == a.agility && Reverted(Applied(a, e), e).strength == a.strength
  {
  }

  /**
   * Health is not taken back: from full health, a maximum-health boost of
   * `v` leaves `v` points of health above the restored maximum.
   */
  lemma MaxHealthBoostOutlasts(a: Attrs, e: RogueEffect)
    requires e.effect == MaxHealth && e.value > 0 && a.hp == a.maxHp
    ensures Reverted(Applied(a, e), e).hp == a.maxHp + e.value
    ensures Reverted(Applied(a, e), e).hp > Reverted(Applied(a, e), e).maxHp
  {
  }

  /** Removing strength and agility effects in any order takes back exactly their sum. */
  lemma {:induction false} RevertAllSums(a: Attrs, zs: seq<RogueEffect>)
    requires forall i :: 0 <= i < |zs| ==> zs[i].effect in {Agility, Strength}
    ensures RevertAll(a, zs) == a.(agility := a.agility - SumOf(zs, Agility), strength := a.strength - SumOf(zs, Strength))
  {
    if |zs| > 0 {
      RevertAllSums(a, zs[..|zs| - 1]);
    }
  }

  /** The total value of the effects of kind `k` in `zs`. */
  function SumOf(zs: seq<RogueEffect>, k: EffectKind): int
  {
    if |zs| == 0 then 0
    else SumOf(zs[..|zs| - 1], k) + (if zs[|zs| - 1].effect == k then zs[|zs| - 1].value else 0)
  }

  // Level-up

  /** The three uniform factors drawn for one level-up. */
  datatype Ups = Ups(hp: real, strength: real, agility: real)

  predicate UpsInRange(u: Ups)
  {
    UpLow <= u.hp <= UpHigh && UpLow <= u.strength <= UpHigh && UpLow <= u.agility <= UpHigh
  }

  /** `__calculate_attr_up`: the attribute times the drawn factor, rounded half to even. */
  function AttrUp(attr: int, u: real): int
  {
    RoundHalfEven(Scale(attr, u))
  }

  /** `attr * u`, written as repeated addition so that it stays linear. */
  function Scale(attr: int, u: real): real
    decreases if attr < 0 then -attr else attr
  {
    if attr == 0 then 0.0
    else if attr > 0 then Scale(attr - 1, u) + u
    else Scale(attr + 1, u) - u
  }

  lemma {:induction false} ScaleIsProduct(attr: int, u: real)
    ensures Scale(attr, u) == attr as real * u
    decreases if attr < 0 then -attr else attr
  {
    if attr > 0 {
      ScaleIsProduct(attr - 1, u);
    } else if attr < 0 {
      ScaleIsProduct(attr + 1, u);
    }
  }

  /** The gain is never negative. */
  lemma AttrUpBounds(attr: int, u: real)
    requires attr >= 0 && UpLow <= u <= UpHigh
    ensures 0 <= AttrUp(attr, u)
  {
    ScaleIsProduct(attr, u);
    assert attr as real * u >= 0.0;
  }

  /** `__calculate_attr_up` of the starting health: a multiple of a constant, so linear as it stands. */
  function HpUp(u: real): int
  {
    RoundHalfEven(HpStarted as real * u)
  }

  /** It is the general rule at the starting health. */
  lemma HpUpIsAttrUp(u: real)
    ensures HpUp(u) == AttrUp(HpStarted, u)
  {
    ScaleIsProduct(HpStarted, u);
  }

  /** The health gain lies between 10 and 20. */
  lemma HpUpBounds(u: real)
    requires UpLow <= u <= UpHigh
    ensures 10 <= HpUp(u) <= 20
  {
    assert 10.5 <= HpStarted as real * u <= 19.5;
  }

  /**
   * `round(1.25 * max_exp)`, in integers: 5m/4 rounded half to even. The
   * next threshold is never below the current one.
   */
  function NextMaxExp(m: int): (r: int)
    ensures m >= 1 ==> r >= m
  {
    var q, rem := 5 * m / 4, 5 * m % 4;
    if rem < 2 then q else if rem > 2 then q + 1 else if q % 2 == 0 then q else q + 1
  }

  /** The integer form agrees with rounding the real product half to even. */
  lemma NextMaxExpRounds(m: int)
    ensures NextMaxExp(m) == RoundHalfEven(1.25 * m as real)
  {
    var q, rem := 5 * m / 4, 5 * m % 4;
    assert 5 * m == 4 * q + rem;
    var x := 1.25 * m as real;
    assert x == q as real + rem as real / 4.0;
    assert x.Floor == q;
  }

  /**
   * With a threshold of zero or less, which `_load` accepts, the level-up
   * loop never stops: after a pass the threshold is still at most zero and
   * the experience still reaches it.
   */
  lemma NoClimbEnd(exp: int, m: int)
    requires m <= 0 && exp >= m
    ensures NextMaxExp(m) <= 0 && exp - m >= NextMaxExp(m)
    ensures m == 0 ==> NextMaxExp(m) == 0
  {
    var q, rem := 5 * m / 4, 5 * m % 4;
    assert 5 * m == 4 * q + rem && 0 <= rem < 4;
  }

  /** How many times the level-up loop runs from `exp` with threshold `maxExp`. */
  function Climb(exp: int, maxExp: int): nat
    requires maxExp >= 1
    decreases if exp < maxExp then 0 else exp
  {
    if exp < maxExp then 0 else 1 + Climb(exp - maxExp, NextMaxExp(maxExp))
  }

  /** The growing number of levels never needs more experience than there is. */
  lemma {:induction false} ClimbBound(exp: int, maxExp: int)
    requires maxExp >= 1 && exp >= 0
    ensures Climb(exp, maxExp) * maxExp <= exp
    decreases exp
  {
    if exp >= maxExp {
      var m := NextMaxExp(maxExp);
      var c := Climb(exp - maxExp, m);
      assert Climb(exp, maxExp) == 1 + c;
      ClimbBound(exp - maxExp, m);
      ScaleBelow(c, maxExp, m);
    }
  }

  lemma ScaleBelow(c: nat, a: int, b: int)
    requires a <= b
    ensures c * a <= c * b
  {
  }

  /** The fields the level-up loop updates. */
  datatype Advancement = Advancement(
    level: int, exp: int, maxExp: int, hp: int, maxHp: int,
    baseStrength: int, strength: int, baseAgility: int, agility: int)

  function LevelUpMessage(level: int, hpUp: int, strUp: int, agilUp: int): RogueEvent
  {
    RogueEvent(Join(["Повышение уровня до ", IntToString(level), "! Здоровье +", IntToString(hpUp),
      " Сила +", IntToString(strUp), " Ловкость +", IntToString(agilUp)]), 20)
  }

  /** The message of one pass from `p` to `q`: the new level and what each attribute gained. */
  function StepMessage(p: Advancement, q: Advancement): RogueEvent
  {
    LevelUpMessage(q.level, q.hp - p.hp, q.strength - p.strength, q.agility - p.agility)
  }

  /** One pass of the loop body. */
  function StepUp(p: Advancement, u: Ups): Advancement
  {
    var hpUp := HpUp(u.hp);
    var strUp := AttrUp(p.baseStrength, u.strength);
    var agilUp := AttrUp(p.baseAgility, u.agility);
    Advancement(p.level + 1, p.exp - p.maxExp, NextMaxExp(p.maxExp), p.hp + hpUp, p.maxHp + hpUp,
      p.baseStrength + strUp, p.strength + strUp, p.baseAgility + agilUp, p.agility + agilUp)
  }

  /** A pass keeps the bases non-negative and the threshold positive. */
  lemma StepUpKeepsBases(p: Advancement, u: Ups)
    requires p.maxExp >= 1 && p.baseStrength >= 0 && p.baseAgility >= 0 && UpsInRange(u)
    ensures var q := StepUp(p, u); q.maxExp >= p.maxExp && q.baseStrength >= p.baseStrength && q.baseAgility >= p.baseAgility
  {
    AttrUpBounds(p.baseStrength, u.strength);
    AttrUpBounds(p.baseAgility, u.agility);
  }

  /**
   * `__up_level`: the fields after the loop; each pass takes the next draws
   * from `ups`.
   */
  function Raised(p: Advancement, ups: seq<Ups>): (f: Advancement)
    requires p.maxExp >= 1 && |ups| >= Climb(p.exp, p.maxExp)
    ensures f.exp < f.maxExp && f.maxExp >= p.maxExp
    ensures f.level == p.level + Climb(p.exp, p.maxExp)
    decreases if p.exp < p.maxExp then 0 else p.exp
  {
    if p.exp < p.maxExp then p else Raised(StepUp(p, ups[0]), ups[1..])
  }

  /** The messages of `__up_level`, one per pass. */
  function RaiseMessages(p: Advancement, ups: seq<Ups>): (m: seq<RogueEvent>)
    requires p.maxExp >= 1 && |ups| >= Climb(p.exp, p.maxExp)
    ensures |m| == Climb(p.exp, p.maxExp)
    decreases if p.exp < p.maxExp then 0 else p.exp
  {
    if p.exp < p.maxExp then []
    else
      var q := StepUp(p, ups[0]);
      [StepMessage(p, q)] + RaiseMessages(q, ups[1..])
  }

  /**
   * Every level adds 10 to 20 points to the maximum and the same to health,
   * and raises base and current strength (and agility) alike, never lowering
   * them.
   */
  lemma {:induction false} UpLevelGains(p: Advancement, ups: seq<Ups>)
    requires p.maxExp >= 1 && |ups| >= Climb(p.exp, p.maxExp)
    requires p.baseStrength >= 0 && p.baseAgility >= 0
    requires forall i :: 0 <= i < |ups| ==> UpsInRange(ups[i])
    ensures var f := Raised(p, ups); var n := Climb(p.exp, p.maxExp);
      && f.hp - p.hp == f.maxHp - p.maxHp && 10 * n <= f.maxHp - p.maxHp <= 20 * n
      && f.strength - p.strength == f.baseStrength - p.baseStrength >= 0
      && f.agility - p.agility == f.baseAgility - p.baseAgility >= 0
    decreases if p.exp < p.maxExp then 0 else p.exp
  {
    if p.exp >= p.maxExp {
      var u := ups[0];
      HpUpBounds(u.hp);
      AttrUpBounds(p.baseStrength, u.strength);
      AttrUpBounds(p.baseAgility, u.agility);
      var q := StepUp(p, u);
      assert forall i :: 0 <= i < |ups[1..]| ==> ups[1..][i] == ups[i + 1];
      UpLevelGains(q, ups[1..]);
    }
  }

  /** The level-up loop run from `p` on `ups`, after the events `before`. */
  function Finish(p: Advancement, ups: seq<Ups>, before: seq<RogueEvent>): (Advancement, seq<RogueEvent>)
    requires p.maxExp >= 1 && |ups| >= Climb(p.exp, p.maxExp)
  {
    (Raised(p, ups), before + RaiseMessages(p, ups))
  }

  /**
   * One pass of the level-up loop from `p` with the draws `ups[i..]`: the
   * rest of the loop runs from the next state on `ups[i + 1..]`, after this
   * pass's message.
   */
  lemma LevelStep(p: Advancement, ups: seq<Ups>, i: nat, before: seq<RogueEvent>)
    requires i < |ups| && p.maxExp >= 1 && p.exp >= p.maxExp && |ups[i..]| >= Climb(p.exp, p.maxExp)
    ensures var q := StepUp(p, ups[i]);
      && q.maxExp >= 1 && |ups[i + 1..]| >= Climb(q.exp, q.maxExp)
      && Finish(p, ups[i..], before)
         == Finish(q, ups[i + 1..], before + [StepMessage(p, q)])
  {
    var q := StepUp(p, ups[i]);
    assert Climb(p.exp, p.maxExp) == 1 + Climb(q.exp, q.maxExp);
    assert ups[i..][1..] == ups[i + 1..];
    var e := StepMessage(p, q);
    var rest := RaiseMessages(q, ups[i + 1..]);
    assert RaiseMessages(p, ups[i..]) == [e] + rest;
    assert (before + [e]) + rest == before + ([e] + rest);
  }

  /** Where the loop stops, the run is what has been done. */
  lemma FinishDone(p: Advancement, ups: seq<Ups>, before: seq<RogueEvent>)
    requires 1 <= p.maxExp && p.exp < p.maxExp
    ensures Finish(p, ups, before) == (p, before)
  {
    assert before + [] == before;
  }

  // Messages

  function ApplyMessage(nickname: string, e: RogueEffect): RogueEvent
  {
    var val := if e.value == 0 then "" else Join([" на ", IntToString(e.value), " ед."]);
    var per := if e.period == 0 then "" else Join([" длительностью ", IntToString(e.period)]);
    Event(nickname + " получает эффект " + e.effect.Value() + val + per)
  }

  function LossMessage(nickname: string, e: RogueEffect): RogueEvent
  {
    Event(Join([nickname, " теряет эффект ", e.effect.Value(), " на ", IntToString(e.value), " ед."]))
  }

  function LossMessages(nickname: string, zs: seq<RogueEffect>): (r: seq<RogueEvent>)
    ensures |r| == |zs| && forall i :: 0 <= i < |zs| ==> r[i] == LossMessage(nickname, zs[i])
  {
    seq(|zs|, i requires 0 <= i < |zs| => LossMessage(nickname, zs[i]))
  }

  lemma LossMessagesSnoc(nickname: string, zs: seq<RogueEffect>, i: int)
    requires 0 <= i < |zs|
    ensures LossMessages(nickname, zs[..i + 1]) == LossMessages(nickname, zs[..i]) + [LossMessage(nickname, zs[i])]
  {
    var l, r := LossMessages(nickname, zs[..i + 1]), LossMessages(nickname, zs[..i]) + [LossMessage(nickname, zs[i])];
    assert |l| == |r|;
    forall j | 0 <= j < |l| ensures l[j] == r[j] {
      assert zs[..i + 1][j] == zs[j];
    }
  }

  function HitMessage(eName: string, nickname: string, damage: int): RogueEvent
  {
    RogueEvent(Join([eName, " атакует ", nickname, " нанося ", IntToString(damage), " урона"]), 22)
  }

  function MissMessage(eName: string, nickname: string): RogueEvent
  {
    Event(eName + " атакует " + nickname + " и промахивается")
  }

  function GoldMessage(nickname: string, value: int, gold: int): RogueEvent
  {
    Event(Join([nickname, " получает ", IntToString(value), " опыта и ", IntToString(gold), " ", GoldItem.Spelling(gold), "."]))
  }

  /** The fields the effect methods leave alone. */
  datatype Others = Others(
    level: int, exp: int, maxExp: int, baseStrength: int, baseAgility: int,
    gold: int, keys: seq<int>, crd: Crd)

  /** The character's fields, grouped: attributes, effects, weapon, colour and the rest. */
  datatype Snapshot = Snapshot(attrs: Attrs, effects: EB.Bag, weaponSlot: WeaponItem.Weapon?, color: int, rest: Others)

  /** The fields the level-up loop leaves alone. */
  datatype Holding = Holding(effects: EB.Bag, weaponSlot: WeaponItem.Weapon?, color: int, gold: int, keys: seq<int>, crd: Crd)

  /** The effect `use` yields for an item that has one. */
  function UseEffect(item: Item): (e: RogueEffect)
    requires !item.Gold?
  {
    match item
    case Food(f) => FoodItem.Effect(f)
    case Potion(p) => PotionItem.Effect(p)
    case Scroll(s) => ScrollItem.Effect(s)
    case Weapon(w) => w.Effect()
  }

  /** The saved form of the items, compartment by compartment. */
  function WeaponSpecs(ws: seq<WeaponItem.Weapon>): (r: seq<CS.ItemSpec>)
    reads set i | 0 <= i < |ws| :: ws[i]
    ensures |r| == |ws| && forall i :: 0 <= i < |ws| ==> r[i] == CS.WeaponSpec(ws[i].name, ws[i].power, ws[i].held)
  {
    seq(|ws|, i reads set j | 0 <= j < |ws| :: ws[j] requires 0 <= i < |ws| => CS.WeaponSpec(ws[i].name, ws[i].power, ws[i].held))
  }

  function FoodSpecs(s: seq<FoodItem.Food>): seq<CS.ItemSpec>
  {
    seq(|s|, i requires 0 <= i < |s| => CS.FoodSpec(s[i]))
  }

  function PotionSpecs(s: seq<PotionItem.Potion>): seq<CS.ItemSpec>
  {
    seq(|s|, i requires 0 <= i < |s| => CS.PotionSpec(s[i]))
  }

  function ScrollSpecs(s: seq<ScrollItem.Scroll>): seq<CS.ItemSpec>
  {
    seq(|s|, i requires 0 <= i < |s| => CS.ScrollSpec(s[i]))
  }

  /** The simple item an item entry makes; weapons are objects and are made apart. */
  function SpecItem(spec: CS.ItemSpec): Item
    requires !spec.WeaponSpec?
  {
    match spec
    case FoodSpec(f) => Food(f)
    case PotionSpec(p) => Potion(p)
    case ScrollSpec(s) => Scroll(s)
  }

  /** How many of the item entries are held weapons. */
  function HeldCount(specs: seq<CS.ItemSpec>): nat
  {
    if |specs| == 0 then 0
    else HeldCount(specs[..|specs| - 1]) + (if specs[|specs| - 1].WeaponSpec? && specs[|specs| - 1].held then 1 else 0)
  }

  /** The power of the last held weapon among the item entries, if any. */
  function LastHeldPower(specs: seq<CS.ItemSpec>): Option<int>
  {
    if |specs| == 0 then None
    else if specs[|specs| - 1].WeaponSpec? && specs[|specs| - 1].held then Some(specs[|specs| - 1].power)
    else LastHeldPower(specs[..|specs| - 1])
  }

  /** The compartment an item entry goes to. */
  function SpecType(spec: CS.ItemSpec): (t: ItemType)
    ensures t != GoldType
  {
    match spec
    case FoodSpec(_) => FoodType
    case PotionSpec(_) => PotionType
    case ScrollSpec(_) => ScrollType
    case WeaponSpec(_, _, _) => WeaponType
  }

  /** How many of the item entries go to compartment `t`. */
  function TypeCount(specs: seq<CS.ItemSpec>, t: ItemType): nat
  {
    if |specs| == 0 then 0
    else TypeCount(specs[..|specs| - 1], t) + (if SpecType(specs[|specs| - 1]) == t then 1 else 0)
  }

  /** A compartment of `n` items after `c` more were offered to it: a full one refuses the rest. */
  function Filled(n: nat, c: nat): nat
  {
    if n + c < IL.MaxItemsPerType then n + c else IL.MaxItemsPerType
  }

  lemma {:induction false} CountsAppend(a: seq<CS.ItemSpec>, b: seq<CS.ItemSpec>, t: ItemType)
    ensures TypeCount(a + b, t) == TypeCount(a, t) + TypeCount(b, t)
    ensures HeldCount(a + b) == HeldCount(a) + HeldCount(b)
    ensures LastHeldPower(a + b) == if LastHeldPower(b).Some? then LastHeldPower(b) else LastHeldPower(a)
    decreases |b|
  {
    if |b| == 0 {
      assert a + b == a;
    } else {
      assert (a + b)[..|a + b| - 1] == a + b[..|b| - 1];
      CountsAppend(a, b[..|b| - 1], t);
    }
  }

  /** There is a last held weapon exactly when some weapon entry is held. */
  lemma {:induction false} HeldCountPositive(specs: seq<CS.ItemSpec>)
    ensures LastHeldPower(specs).None? <==> HeldCount(specs) == 0
  {
    if |specs| > 0 {
      HeldCountPositive(specs[..|specs| - 1]);
    }
  }

  /**
   * The backpack's contents as values: the food, potions and scrolls, and each
   * weapon by its name and power (its `held` flag is what a weapon changes in
   * place).
   */
  datatype Stock = Stock(food: seq<FoodItem.Food>, potions: seq<PotionItem.Potion>,
                         scrolls: seq<ScrollItem.Scroll>, weapons: seq<(string, int)>)

  function WeaponFacts(ws: seq<WeaponItem.Weapon>): seq<(string, int)>
  {
    seq(|ws|, i requires 0 <= i < |ws| => (ws[i].name, ws[i].power))
  }

  function StockOf(c: IL.Shelves): Stock
  {
    Stock(c.food, c.potions, c.scrolls, WeaponFacts(c.weapons))
  }

  /** `Weapon.__lt__` on a weapon's name and power. */
  predicate Weaker(a: (string, int), b: (string, int))
  {
    a.1 < b.1
  }

  /** `add_item` of the item an item record makes: into its sorted compartment, unless that one holds nine. */
  function Stocked(k: Stock, spec: CS.ItemSpec): Stock
  {
    match spec
    case FoodSpec(f) =>
      if |k.food| < IL.MaxItemsPerType then k.(food := Ordering.Insert(k.food, f, FoodItem.Less)) else k
    case PotionSpec(p) =>
      if |k.potions| < IL.MaxItemsPerType then k.(potions := Ordering.Insert(k.potions, p, PotionItem.Less)) else k
    case ScrollSpec(s) =>
      if |k.scrolls| < IL.MaxItemsPerType then k.(scrolls := Ordering.Insert(k.scrolls, s, ScrollItem.Less)) else k
    case WeaponSpec(name, power, _) =>
      if |k.weapons| < IL.MaxItemsPerType then k.(weapons := Ordering.Insert(k.weapons, (name, power), Weaker)) else k
  }

  /** The item records of an "items" entry added in order. */
  function StockedAll(k: Stock, specs: seq<CS.ItemSpec>): Stock
  {
    if |specs| == 0 then k
    else Stocked(StockedAll(k, specs[..|specs| - 1]), specs[|specs| - 1])
  }

  lemma {:induction false} StockedAllAppend(k: Stock, a: seq<CS.ItemSpec>, b: seq<CS.ItemSpec>)
    ensures StockedAll(k, a + b) == StockedAll(StockedAll(k, a), b)
    decreases |b|
  {
    if |b| == 0 {
      assert a + b == a;
    } else {
      assert (a + b)[..|a + b| - 1] == a + b[..|b| - 1];
      StockedAllAppend(k, a, b[..|b| - 1]);
    }
  }

  /** Each compartment takes the records of its class until it holds nine, and refuses the rest. */
  lemma {:induction false} StockedLengths(k: Stock, specs: seq<CS.ItemSpec>)
    requires |k.food| <= IL.MaxItemsPerType && |k.potions| <= IL.MaxItemsPerType
    requires |k.scrolls| <= IL.MaxItemsPerType && |k.weapons| <= IL.MaxItemsPerType
    ensures var r := StockedAll(k, specs);
      && |r.food| == Filled(|k.food|, TypeCount(specs, FoodType))
      && |r.potions| == Filled(|k.potions|, TypeCount(specs, PotionType))
      && |r.scrolls| == Filled(|k.scrolls|, TypeCount(specs, ScrollType))
      && |r.weapons| == Filled(|k.weapons|, TypeCount(specs, WeaponType))
  {
    if |specs| > 0 {
      StockedLengths(k, specs[..|specs| - 1]);
    }
  }

  /** Each compartment stays sorted by its class's `__lt__` as records are added. */
  lemma {:induction false} StockedSorted(k: Stock, specs: seq<CS.ItemSpec>)
    requires Ordering.Sorted(k.food, FoodItem.Less) && Ordering.Sorted(k.potions, PotionItem.Less)
    requires Ordering.Sorted(k.scrolls, ScrollItem.Less) && Ordering.Sorted(k.weapons, Weaker)
    ensures var r := StockedAll(k, specs);
      && Ordering.Sorted(r.food, FoodItem.Less) && Ordering.Sorted(r.potions, PotionItem.Less)
      && Ordering.Sorted(r.scrolls, ScrollItem.Less) && Ordering.Sorted(r.weapons, Weaker)
  {
    if |specs| > 0 {
      StockedSorted(k, specs[..|specs| - 1]);
      var r := StockedAll(k, specs[..|specs| - 1]);
      match specs[|specs| - 1]
      case FoodSpec(f) =>
        FoodItem.LessIsStrictOrder(r.food + [f]);
        IL.InsertKeepsSorted(r.food, f, FoodItem.Less);
      case PotionSpec(p) =>
        PotionItem.LessIsStrictOrder(r.potions + [p]);
        IL.InsertKeepsSorted(r.potions, p, PotionItem.Less);
      case ScrollSpec(s) =>
        ScrollItem.LessIsStrictOrder(r.scrolls + [s]);
        IL.InsertKeepsSorted(r.scrolls, s, ScrollItem.Less);
      case WeaponSpec(name, power, _) =>
        assert Ordering.StrictOrderOn(r.weapons + [(name, power)], Weaker);
        IL.InsertKeepsSorted(r.weapons, (name, power), Weaker);
    }
  }

  lemma {:induction false} InsertPosFacts(ws: seq<WeaponItem.Weapon>, w: WeaponItem.Weapon)
    ensures Ordering.InsertPos(ws, w, WeaponItem.Less) == Ordering.InsertPos(WeaponFacts(ws), (w.name, w.power), Weaker)
  {
    if |ws| > 0 {
      assert WeaponFacts(ws)[1..] == WeaponFacts(ws[1..]);
      InsertPosFacts(ws[1..], w);
    }
  }

  /** Inserting a weapon object inserts its name and power at the same place. */
  lemma InsertFacts(ws: seq<WeaponItem.Weapon>, w: WeaponItem.Weapon)
    ensures WeaponFacts(Ordering.Insert(ws, w, WeaponItem.Less)) == Ordering.Insert(WeaponFacts(ws), (w.name, w.power), Weaker)
  {
    InsertPosFacts(ws, w);
    var k := Ordering.InsertPos(ws, w, WeaponItem.Less);
    assert WeaponFacts(ws[..k] + [w] + ws[k..]) == WeaponFacts(ws)[..k] + [(w.name, w.power)] + WeaponFacts(ws)[k..];
  }

  /** The item a record makes: the record's own food, potion or scroll, or a weapon with its name and power. */
  predicate Makes(spec: CS.ItemSpec, item: Item)
  {
    if spec.WeaponSpec? then item.Weapon? && item.weapon.name == spec.name && item.weapon.power == spec.power
    else item == SpecItem(spec)
  }

  /** Offering the item a record makes to the shelves adds that record to their stock. */
  lemma StockOfOffered(c: IL.Shelves, item: Item, spec: CS.ItemSpec)
    requires Makes(spec, item)
    ensures !item.Gold? && StockOf(IL.Offered(c, item)) == Stocked(StockOf(c), spec)
  {
    if spec.WeaponSpec? {
      InsertFacts(c.weapons, item.weapon);
    }
  }

  /** No "items" entry comes before a "strength" entry, as in every dump. */
  predicate StrengthBeforeItems(entries: seq<(string, Value)>)
  {
    forall i, j :: 0 <= i < j < |entries| && entries[i].0 == "items" ==> entries[j].0 != "strength"
  }

  /**
   * The character after `check_object_effects`: every timed effect one turn
   * shorter, the ones that had run out removed and their values taken back,
   * and the colour back to the base one; nothing else changes.
   */
  function Refreshed(s: Snapshot): (t: Snapshot)
    requires EB.WellKeyed(s.effects)
    ensures t.rest == s.rest && t.weaponSlot == s.weaponSlot && t.color == BaseColor
  {
    var expired := EB.ExpiredOf(s.effects, |AllEffects|);
    s.(attrs := RevertAll(s.attrs, expired), effects := EB.RemoveEach(EB.DecrementAll(s.effects), expired), color := BaseColor)
  }

  /** The events of `check_object_effects`: one per running sleep, then one per effect that ran out. */
  function EffectEvents(s: Snapshot, nickname: string): seq<RogueEvent>
    requires EB.WellKeyed(s.effects)
  {
    EB.TiredOf(s.effects, |AllEffects|, ClassName) + LossMessages(nickname, EB.ExpiredOf(s.effects, |AllEffects|))
  }

  class Character {
    const nickname: string
    const stats: Stats.RogueStats
    const backpack: BP.Backpack
    var color: int
    var level: int
    var exp: int
    var maxExp: int
    var hp: int
    var maxHp: int
    var baseStrength: int
    var strength: int
    var baseAgility: int
    var agility: int
    var effects: EB.Bag
    var weaponSlot: WeaponItem.Weapon?
    var gold: int
    var keys: seq<int>
    var crd: Crd

    /**
     * One list of effects per kind, and base attributes that only grow. (The
     * backpack keeps its own invariant; only the methods that fill it need it.)
     */
    ghost predicate Valid()
      reads this
    {
      EB.WellKeyed(effects) && baseStrength >= 0 && baseAgility >= 0
    }

    function Attributes(): Attrs
      reads this
    {
      Attrs(hp, maxHp, agility, strength)
    }

    function Rest(): Others
      reads this
    {
      Others(level, exp, maxExp, baseStrength, baseAgility, gold, keys, crd)
    }

    /** Everything but the level-up fields, which `Progress` covers. */
    function Holdings(): Holding
      reads this
    {
      Holding(effects, weaponSlot, color, gold, keys, crd)
    }

    /** The whole state the effect, combat and item operations change. */
    function State(): Snapshot
      reads this
    {
      Snapshot(Attributes(), effects, weaponSlot, color, Rest())
    }

    function Progress(): Advancement
      reads this
    {
      Advancement(level, exp, maxExp, hp, maxHp, baseStrength, strength, baseAgility, agility)
    }

    /** The held weapon's strength bonus. */
    function Bonus(): int
      reads this
    {
      if weaponSlot == null then 0 else weaponSlot.power
    }

    /**
     * A new character: full health 100, strength 8, agility 6, level 1, no
     * experience (5 needed), no gold, keys, weapon or effects, an empty
     * backpack; the statistics take the nickname.
     */
    constructor(nickname: string, stats: Stats.RogueStats)
      modifies stats
      ensures Valid() && this.nickname == nickname && this.stats == stats
      ensures stats.Record() == old(stats.Record()).(nickname := nickname)
      ensures fresh(backpack) && fresh(backpack.items) && backpack.items.Size() == 0
      ensures hp == maxHp == HpStarted && strength == baseStrength == StrStarted && agility == baseAgility == AgilStarted
      ensures level == 1 && exp == 0 && maxExp == ExpStarted && gold == 0 && keys == [] && weaponSlot == null
      ensures effects == EB.Empty && crd == (0, 0) && color == BaseColor
    {
      this.nickname := nickname;
      this.stats := stats;
      stats.nickname := nickname;
      color := BaseColor;
      level, exp := 1, 0;
      crd := (0, 0);
      hp, maxHp := HpStarted, HpStarted;
      baseStrength, strength := StrStarted, StrStarted;
      baseAgility, agility := AgilStarted, AgilStarted;
      maxExp := ExpStarted;
      effects := EB.Empty;
      backpack := new BP.Backpack();
      weaponSlot := null;
      gold := 0;
      keys := [];
      new;
      EB.EmptyWellKeyed();
    }

    /** `__decrease_hp`: health drops by `value`; the answer is whether the character lives. */
    method DecreaseHp(value: int) returns (alive: bool)
      modifies this
      ensures State() == old(State()).(attrs := old(Attributes()).(hp := old(hp) - value))
      ensures alive <==> hp > 0
    {
      hp := hp - value;
      alive := hp > 0;
    }

    /**
     * `apply_effect`: a timed effect is recorded (a timed sleep replacing any
     * other); the attributes change at once.
     */
    method ApplyEffect(e: RogueEffect) returns (events: seq<RogueEvent>)
      requires Valid()
      modifies this
      ensures Valid()
      ensures State() == old(State()).(attrs := Applied(old(Attributes()), e), effects := EB.Record(old(effects), e))
      ensures events == [ApplyMessage(nickname, e)]
    {
      effects := EB.Record(effects, e);
      SetAttributes(Applied(Attributes(), e));
      events := [ApplyMessage(nickname, e)];
    }

    /** The four attributes take the values of `a`. */
    method SetAttributes(a: Attrs)
      requires Valid()
      modifies this
      ensures Valid()
      ensures State() == old(State()).(attrs := a)
    {
      hp, maxHp, agility, strength := a.hp, a.maxHp, a.agility, a.strength;
    }

    /**
     * `__remove_effect`: the first equal effect leaves its list (nothing, if
     * there is none) and the attributes take the value back.
     */
    method RemoveEffect(e: RogueEffect) returns (events: seq<RogueEvent>)
      requires Valid()
      modifies this
      ensures Valid()
      ensures State() == old(State()).(attrs := Reverted(old(Attributes()), e), effects := EB.Withdraw(old(effects), e))
      ensures events == [LossMessage(nickname, e)]
    {
      effects := EB.Withdraw(effects, e);
      SetAttributes(Reverted(Attributes(), e));
      events := [LossMessage(nickname, e)];
    }

    /**
     * `harm`: on a hit the character turns the harm colour, takes the
     * attacker's effect and then `eStrength` points of damage; on a miss
     * nothing changes. The answer is whether health stays above 0.
     */
    method Harm(eName: string, eStrength: int, eAgility: int, eEffect: Option<RogueEffect>,
                hitTest: (int, int) -> bool) returns (events: seq<RogueEvent>, alive: bool)
      requires Valid()
      modifies this
      ensures Valid()
      ensures alive <==> hp > 0
      ensures !hitTest(eAgility, old(agility)) ==> State() == old(State()) && events == [MissMessage(eName, nickname)]
      ensures hitTest(eAgility, old(agility)) ==>
        var a := if eEffect.Some? then Applied(old(Attributes()), eEffect.value) else old(Attributes());
        var b := if eEffect.Some? then EB.Record(old(effects), eEffect.value) else old(effects);
        && State() == old(State()).(attrs := a.(hp := a.hp - eStrength), effects := b, color := HarmColor)
        && events == [HitMessage(eName, nickname, eStrength)] + (if eEffect.Some? then [ApplyMessage(nickname, eEffect.value)] else [])
    {
      var damage := 0;
      if hitTest(eAgility, agility) {
        color := HarmColor;
        damage := eStrength;
        events := [HitMessage(eName, nickname, damage)];
        if eEffect.Some? {
          var applied := ApplyEffect(eEffect.value);
          events := events + applied;
        }
      } else {
        events := [MissMessage(eName, nickname)];
      }
      alive := DecreaseHp(damage);
    }

    /**
     * `add_experience`: gold drawn between half and twice the experience is
     * added (to the statistics too), then the experience, then the level-up
     * loop runs until the experience is below the threshold.
     */
    method AddExperience(value: int, goldDraw: int, ups: seq<Ups>) returns (events: seq<RogueEvent>)
      requires Valid() && maxExp >= 1
      requires value / 2 <= goldDraw <= value * 2
      requires |ups| >= Climb(exp + value, maxExp)
      requires forall i :: 0 <= i < |ups| ==> UpsInRange(ups[i])
      modifies this, stats
      ensures Valid()
      ensures stats.Record() == old(stats.Record()).(gold := old(stats.gold) + goldDraw)
      ensures var p := old(Progress()).(exp := old(exp) + value);
        Progress() == Raised(p, ups) && events == [GoldMessage(nickname, value, goldDraw)] + RaiseMessages(p, ups)
      ensures Holdings() == old(Holdings()).(gold := old(gold) + goldDraw)
    {
      events := ConvertExpToGold(value, goldDraw);
      exp := exp + value;
      ghost var p1 := Progress();
      assert p1 == old(Progress()).(exp := old(exp) + value);
      var levelEvents := RaiseLevels(ups);
      events := events + levelEvents;
    }

    /** `__convert_exp_to_gold`: the drawn gold goes to the character and to the statistics. */
    method ConvertExpToGold(value: int, goldDraw: int) returns (events: seq<RogueEvent>)
      requires value / 2 <= goldDraw <= value * 2
      modifies this, stats
      ensures stats.Record() == old(stats.Record()).(gold := old(stats.gold) + goldDraw)
      ensures events == [GoldMessage(nickname, value, goldDraw)]
      ensures Progress() == old(Progress()) && Holdings() == old(Holdings()).(gold := old(gold) + goldDraw)
    {
      gold := gold + goldDraw;
      stats.gold := stats.gold + goldDraw;
      events := [GoldMessage(nickname, value, goldDraw)];
    }

    /** `__up_level`: the loop, one set of draws per pass. */
    method RaiseLevels(ups: seq<Ups>) returns (events: seq<RogueEvent>)
      requires Valid() && maxExp >= 1
      requires |ups| >= Climb(exp, maxExp)
      requires forall i :: 0 <= i < |ups| ==> UpsInRange(ups[i])
      modifies this
      ensures Valid()
      ensures Progress() == Raised(old(Progress()), ups) && events == RaiseMessages(old(Progress()), ups)
      ensures Holdings() == old(Holdings())
    {
      ghost var p0 := Progress();
      events := [];
      var i := 0;
      assert ups[0..] == ups;
      while exp >= maxExp
        invariant 0 <= i <= |ups| && maxExp >= 1
        invariant |ups| - i >= Climb(exp, maxExp)
        invariant Finish(Progress(), ups[i..], events) == Finish(p0, ups, [])
        invariant Valid() && Holdings() == old(Holdings())
        decreases |ups| - i
      {
        LevelStep(Progress(), ups, i, events);
        var e := LevelUpOnce(ups[i]);
        events := events + [e];
        i := i + 1;
      }
      FinishDone(Progress(), ups[i..], events);
      assert [] + RaiseMessages(p0, ups) == RaiseMessages(p0, ups);
    }

    /** One pass of the `__up_level` loop, with the draws `u`. */
    method LevelUpOnce(u: Ups) returns (e: RogueEvent)
      requires Valid() && maxExp >= 1
      requires UpsInRange(u)
      modifies this
      ensures Valid()
      ensures Progress() == StepUp(old(Progress()), u) && Holdings() == old(Holdings())
      ensures e == StepMessage(old(Progress()), Progress())
    {
      var p := Progress();
      var q := StepUp(p, u);
      StepUpKeepsBases(p, u);
      SetAttributes(Attrs(q.hp, q.maxHp, q.agility, q.strength));
      SetGrowth(q.level, q.exp, q.maxExp, q.baseStrength, q.baseAgility);
      e := StepMessage(p, q);
    }

    /** The level, the experience, its threshold and the two bases take new values. */
    method SetGrowth(level: int, exp: int, maxExp: int, baseStrength: int, baseAgility: int)
      requires Valid() && baseStrength >= 0 && baseAgility >= 0
      modifies this
      ensures Valid()
      ensures State() == old(State()).(rest := old(Rest()).(level := level, exp := exp, maxExp := maxExp,
                                                           baseStrength := baseStrength, baseAgility := baseAgility))
    {
      this.level, this.exp, this.maxExp, this.baseStrength, this.baseAgility := level, exp, maxExp, baseStrength, baseAgility;
    }

    /**
     * `check_object_effects`: every timed effect runs one turn shorter, every
     * effect that had run out is removed and its value taken back, and the
     * character may move unless a sleep was still running.
     */
    method CheckObjectEffects() returns (events: seq<RogueEvent>, canMove: bool)
      requires Valid()
      modifies this
      ensures Valid()
      ensures canMove <==> !EB.Drowsy(old(effects))
      ensures State() == Refreshed(old(State())) && events == EffectEvents(old(State()), nickname)
    {
      var expired, tired := AdvanceEffects();
      canMove := tired == [];
      var lost := RemoveExpired(expired);
      events := tired + lost;
      color := BaseColor;
    }

    /** The first pass of `check_object_effects`: every list one turn on. */
    method AdvanceEffects() returns (expired: seq<RogueEffect>, tired: seq<RogueEvent>)
      requires Valid()
      modifies this
      ensures Valid()
      ensures State() == old(State()).(effects := EB.DecrementAll(old(effects)))
      ensures expired == EB.ExpiredOf(old(effects), |AllEffects|) && tired == EB.TiredOf(old(effects), |AllEffects|, ClassName)
      ensures tired == [] <==> !EB.Drowsy(old(effects))
    {
      var r;
      r, expired, tired := EB.Advance(effects, ClassName);
      effects := r;
    }

    /** The removal loop of `check_object_effects`: each expired effect in turn. */
    method RemoveExpired(expired: seq<RogueEffect>) returns (events: seq<RogueEvent>)
      requires Valid()
      modifies this
      ensures Valid()
      ensures State() == old(State()).(attrs := RevertAll(old(Attributes()), expired), effects := EB.RemoveEach(old(effects), expired))
      ensures events == LossMessages(nickname, expired)
    {
      ghost var s0 := State();
      events := [];
      var i := 0;
      while i < |expired|
        invariant 0 <= i <= |expired|
        invariant Valid()
        invariant State() == s0.(attrs := RevertAll(s0.attrs, expired[..i]), effects := EB.RemoveEach(s0.effects, expired[..i]))
        invariant events == LossMessages(nickname, expired[..i])
      {
        var lost := RemoveEffect(expired[i]);
        LossMessagesSnoc(nickname, expired, i);
        events := events + lost;
        assert expired[..i + 1][..i] == expired[..i];
        i := i + 1;
      }
      assert expired[..i] == expired;
    }

    /** `place`: the character now stands at `c`. */
    method Place(c: Crd)
      modifies this
      ensures State() == old(State()).(rest := old(Rest()).(crd := c))
    {
      crd := c;
    }

    /** The keys are thrown away when a level's locks are made. */
    method ClearKeys()
      modifies this
      ensures State() == old(State()).(rest := old(Rest()).(keys := []))
    {
      keys := [];
    }

    /** A picked-up key: its lock colour joins the end of the keys. */
    method AddKey(color: int)
      modifies this
      ensures State() == old(State()).(rest := old(Rest()).(keys := old(keys) + [color]))
    {
      keys := keys + [color];
    }

    /** A key spent on a lock: the first key of that colour leaves the keys. */
    method UseKey(color: int)
      requires color in keys
      modifies this
      ensures State() == old(State()).(rest := old(Rest()).(keys := Lists.RemoveFirst(old(keys), color)))
    {
      keys := Lists.RemoveFirst(keys, color);
    }

    /** `add_gold`: the pile's amount goes to the character and to the statistics. */
    method AddGold(g: GoldItem.Gold) returns (events: seq<RogueEvent>)
      modifies this, stats
      ensures State() == old(State()).(rest := old(Rest()).(gold := old(gold) + g.amount))
      ensures stats.Record() == old(stats.Record()).(gold := old(stats.gold) + g.amount)
      ensures events == GoldItem.PickUp(g).0
    {
      var (ev, value) := GoldItem.PickUp(g);
      gold := gold + value;
      stats.gold := stats.gold + value;
      events := ev;
    }

    /** `pick_up_item`: gold is always taken; anything else goes to the backpack if it fits. */
    method PickUpItem(item: Item) returns (events: seq<RogueEvent>, picked: bool)
      requires Valid() && backpack.Valid()
      modifies this, stats, backpack.items
      ensures Valid() && backpack.Valid()
      ensures item.Gold? ==>
        && picked && events == GoldItem.PickUp(item.gold).0 && unchanged(backpack.items)
        && State() == old(State()).(rest := old(Rest()).(gold := old(gold) + item.gold.amount))
        && stats.Record() == old(stats.Record()).(gold := old(stats.gold) + item.gold.amount)
      ensures !item.Gold? ==>
        && (picked <==> old(backpack.items.Length(TypeOf(item))) < IL.MaxItemsPerType)
        && events == (if picked then PickUpEvents(item) else [Event(BP.FullMessage(TypeOf(item)))])
        && State() == old(State()) && unchanged(stats)
        && backpack.items.State() == if picked then IL.Inserted(old(backpack.items.State()), item) else old(backpack.items.State())
    {
      if item.Gold? {
        events := AddGold(item.gold);
        picked := true;
        return;
      }
      var r := backpack.AddItem(item);
      events, picked := r.value.0, r.value.1;
    }

    /**
     * `drop_weapon`: the held weapon, if any, is let go of and its strength
     * bonus is taken back; the slot is empty afterwards.
     */
    method DropWeapon() returns (events: seq<RogueEvent>, dropped: WeaponItem.Weapon?)
      requires Valid()
      modifies this, weaponSlot
      ensures Valid()
      ensures dropped == old(weaponSlot) && weaponSlot == null
      ensures strength == old(strength) - old(Bonus())
      ensures dropped == null ==> events == [] && State() == old(State())
      ensures dropped != null ==>
        && !dropped.held
        && events == [Event("Вы выбросили оружие " + dropped.name), LossMessage(nickname, dropped.Effect())]
        && State() == old(State()).(attrs := Reverted(old(Attributes()), dropped.Effect()),
                                    effects := EB.Withdraw(old(effects), dropped.Effect()), weaponSlot := null)
    {
      dropped := weaponSlot;
      events := [];
      if dropped != null {
        var dropEvents := dropped.Drop();
        var lost := RemoveEffect(dropped.Effect());
        events := dropEvents + lost;
        weaponSlot := null;
      }
    }

    /**
     * `equip_weapon`: the held weapon is dropped first, then `w` is held and
     * its bonus applied; the weapon dropped is returned. Strength less the
     * held weapon's bonus stays what it was.
     */
    method EquipWeapon(w: WeaponItem.Weapon) returns (events: seq<RogueEvent>, dropped: WeaponItem.Weapon?)
      requires Valid()
      modifies this, w, weaponSlot
      ensures Valid()
      ensures weaponSlot == w && w.held && dropped == old(weaponSlot)
      ensures dropped != null && dropped != w ==> !dropped.held
      ensures strength - Bonus() == old(strength) - old(Bonus())
      ensures var s := if dropped == null then old(State())
                       else old(State()).(attrs := Reverted(old(Attributes()), dropped.Effect()),
                                          effects := EB.Withdraw(old(effects), dropped.Effect()));
        State() == s.(attrs := Applied(s.attrs, w.Effect()), weaponSlot := w)
    {
      var dropEvents;
      dropEvents, dropped := DropWeapon();
      weaponSlot := w;
      var useEvents, effect := w.Use();
      var applied := ApplyEffect(effect);
      events := dropEvents + useEvents + applied;
    }

    /**
     * `use_item`: the item's `use` yields its effect, which is applied (the
     * statistics count the food, potion or scroll); gold has no `use`.
     */
    method UseItem(item: Item, message: nat) returns (r: Result<seq<RogueEvent>>)
      requires Valid()
      requires item.Food? ==> message < |FoodItem.Messages|
      modifies this, stats, if item.Weapon? then {item.weapon} else {}
      ensures Valid()
      ensures r.Failure? <==> item.Gold?
      ensures item.Gold? ==> r.error.AttributeError? && unchanged(this) && unchanged(stats)
      ensures !item.Gold? ==>
        var e := UseEffect(item);
        State() == old(State()).(attrs := Applied(old(Attributes()), e), effects := EB.Record(old(effects), e))
      ensures item.Food? ==> stats.Record() == old(stats.Record()).(eatenFood := old(stats.eatenFood) + 1)
      ensures item.Potion? ==> stats.Record() == old(stats.Record()).(usedPotions := old(stats.usedPotions) + 1)
      ensures item.Scroll? ==> stats.Record() == old(stats.Record()).(usedScrolls := old(stats.usedScrolls) + 1)
      ensures item.Weapon? ==> item.weapon.held && strength == old(strength) + item.weapon.power && unchanged(stats)
    {
      var events, effect;
      match item {
      case Gold(_) => return Failure(AttributeError("'Gold' object has no attribute 'use'"));
      case Food(f) => events, effect := FoodItem.Use(f, stats, message);
      case Potion(p) => events, effect := PotionItem.Use(p, stats);
      case Scroll(s) => events, effect := ScrollItem.Use(s, stats);
      case Weapon(w) => events, effect := w.Use();
      }
      var applied := ApplyEffect(effect);
      return Success(events + applied);
    }

    /** `attack`: the name, strength and agility the enemy is hit with; no effect. */
    function Attack(): (r: (string, int, int, Option<RogueEffect>))
      reads this
      ensures r.3 == None
    {
      (nickname, strength, agility, None)
    }

    /**
     * An attribute entry of `_load`: the field the key names takes `n`. The
     * saved strength is the one without the weapon bonus, so after a
     * "strength" entry the loaded record holds `n` less the held weapon's bonus.
     */
    method LoadAttribute(key: string, n: int)
      requires Valid() && CS.IsAttribute(key)
      modifies this
      ensures Valid()
      ensures LoadBase() == CS.SetAttribute(old(LoadBase()), key, if key == "strength" then n - Bonus() else n)
      ensures key == "strength" ==> strength == n
      ensures State() == old(State()).(attrs := Attributes(),
                                       rest := old(Rest()).(level := level, exp := exp, maxExp := maxExp, gold := gold))
    {
      if key == "level" { level := n; }
      else if key == "strength" { strength := n; }
      else if key == "agility" { agility := n; }
      else if key == "max_hp" { maxHp := n; }
      else if key == "hp" { hp := n; }
      else if key == "exp" { exp := n; }
      else if key == "max_exp" { maxExp := n; }
      else { gold := n; }
    }

    /** The "effects" entry of `_load`: each effect joins its kind's list as it is, in order. */
    method LoadEffects(es: seq<RogueEffect>)
      requires Valid()
      modifies this
      ensures Valid()
      ensures State() == old(State()).(effects := EB.Appended(old(effects), es))
    {
      for i := 0 to |es|
        invariant Valid()
        invariant State() == old(State()).(effects := EB.Appended(old(effects), es[..i]))
      {
        assert es[..i + 1][..i] == es[..i];
        var e := es[i];
        effects := effects[e.effect := effects[e.effect] + [e]];
      }
      assert es[..|es|] == es;
    }

    /**
     * One record of the "items" entry of `_load`: the item is made and offered
     * to the backpack (a full compartment refuses it, and nothing is said);
     * a held weapon is then equipped, whether the backpack took it or not.
     */
    method LoadItem(spec: CS.ItemSpec)
      requires Valid() && backpack.Valid()
      modifies this, backpack.items, weaponSlot
      ensures Valid() && backpack.Valid()
      ensures forall t :: t != GoldType ==>
        backpack.items.Length(t) == Filled(old(backpack.items.Length(t)), if SpecType(spec) == t then 1 else 0)
      ensures StockOf(backpack.items.State()) == Stocked(StockOf(old(backpack.items.State())), spec)
      ensures LoadBase() == old(LoadBase())
      ensures State() == old(State()).(attrs := Attributes(), effects := effects, weaponSlot := weaponSlot)
      ensures forall k :: k != Strength ==> effects[k] == old(effects)[k]
      ensures if spec.WeaponSpec? && spec.held then
          && weaponSlot != null && fresh(weaponSlot) && weaponSlot.held && weaponSlot.power == spec.power
          && (old(weaponSlot) == null ==> effects == old(effects))
        else weaponSlot == old(weaponSlot) && effects == old(effects) && (weaponSlot != null ==> unchanged(weaponSlot))
    {
      var item: Item;
      if spec.WeaponSpec? {
        var w := new WeaponItem.Weapon.Loaded(spec.name, spec.power, spec.held);
        item := Weapon(w);
      } else {
        item := SpecItem(spec);
      }
      assert TypeOf(item) == SpecType(spec) && Makes(spec, item);
      ghost var c := backpack.items.State();
      OfferItem(item);
      StockOfOffered(c, item, spec);
      if spec.WeaponSpec? && spec.held {
        var _, _ := EquipWeapon(item.weapon);
      }
    }

    /**
     * The "items" entry of `_load`: the records in order. Each compartment
     * takes as many as fit; the last held weapon ends up equipped, and while
     * no weapon was held before and at most one record is a held weapon, no
     * effect was withdrawn.
     */
    method LoadItems(specs: seq<CS.ItemSpec>)
      requires Valid() && backpack.Valid()
      modifies this, backpack.items, weaponSlot
      ensures Valid() && backpack.Valid()
      ensures forall t :: t != GoldType ==>
        backpack.items.Length(t) == Filled(old(backpack.items.Length(t)), TypeCount(specs, t))
      ensures StockOf(backpack.items.State()) == StockedAll(StockOf(old(backpack.items.State())), specs)
      ensures LoadBase() == old(LoadBase())
      ensures State() == old(State()).(attrs := Attributes(), effects := effects, weaponSlot := weaponSlot)
      ensures forall k :: k != Strength ==> effects[k] == old(effects)[k]
      ensures LastHeldPower(specs).Some? ==>
        weaponSlot != null && fresh(weaponSlot) && weaponSlot.held && weaponSlot.power == LastHeldPower(specs).value
      ensures LastHeldPower(specs).None? ==> weaponSlot == old(weaponSlot) && (weaponSlot != null ==> unchanged(weaponSlot))
      ensures HeldCount(specs) == 0 || (old(weaponSlot) == null && HeldCount(specs) <= 1) ==> effects == old(effects)
    {
      for i := 0 to |specs|
        invariant Valid() && backpack.Valid()
        invariant forall t :: t != GoldType ==>
          backpack.items.Length(t) == Filled(old(backpack.items.Length(t)), TypeCount(specs[..i], t))
        invariant StockOf(backpack.items.State()) == StockedAll(StockOf(old(backpack.items.State())), specs[..i])
        invariant LoadBase() == old(LoadBase())
        invariant State() == old(State()).(attrs := Attributes(), effects := effects, weaponSlot := weaponSlot)
        invariant forall k :: k != Strength ==> effects[k] == old(effects)[k]
        invariant LastHeldPower(specs[..i]).Some? ==>
          weaponSlot != null && fresh(weaponSlot) && weaponSlot.held && weaponSlot.power == LastHeldPower(specs[..i]).value
        invariant LastHeldPower(specs[..i]).None? ==> weaponSlot == old(weaponSlot) && (weaponSlot != null ==> unchanged(weaponSlot))
        invariant HeldCount(specs[..i]) == 0 || (old(weaponSlot) == null && HeldCount(specs[..i]) <= 1) ==> effects == old(effects)
      {
        ghost var prefix := specs[..i];
        var spec := specs[i];
        assert specs[..i + 1][..i] == prefix;
        ghost var held := spec.WeaponSpec? && spec.held;
        assert HeldCount(specs[..i + 1]) == HeldCount(prefix) + if held then 1 else 0;
        assert LastHeldPower(specs[..i + 1]) == if held then Some(spec.power) else LastHeldPower(prefix);
        HeldCountPositive(prefix);
        LoadItem(spec);
      }
      assert specs[..|specs|] == specs;
    }

    /** `add_item` with its answer ignored: the item goes into its compartment unless that one is full. */
    method OfferItem(item: Item)
      requires backpack.Valid() && !item.Gold?
      modifies backpack.items
      ensures backpack.Valid()
      ensures backpack.items.State() == IL.Offered(old(backpack.items.State()), item)
      ensures forall t :: t != GoldType ==>
        backpack.items.Length(t) == Filled(old(backpack.items.Length(t)), if TypeOf(item) == t then 1 else 0)
    {
      ghost var c := backpack.items.State();
      var r := backpack.AddItem(item);
      if r.value.1 {
        IL.InsertedTidy(c, item);
      }
    }

    /**
     * `_load(**kwargs)`: the entries in order, each as the saved-record `Load`
     * reads it, and an entry that does not read stops the load. On success the
     * attributes are the loaded ones; strength less the held weapon's bonus is
     * the loaded strength when the character held no weapon and no "items"
     * entry came before a "strength" one; the effects are appended kind by
     * kind; each compartment took the items that fit; the last held weapon
     * loaded is the one held.
     */
    method Load(entries: seq<(string, Value)>) returns (r: Result<()>)
      requires Valid() && backpack.Valid()
      modifies this, backpack.items, weaponSlot
      ensures Valid() && backpack.Valid()
      ensures r.Success? <==> CS.Load(old(LoadBase()), entries).Success?
      ensures r.Failure? ==> r.error == CS.Load(old(LoadBase()), entries).error
      ensures r.Success? ==> var s := CS.Load(old(LoadBase()), entries).value;
        && level == s.level && agility == s.agility && maxHp == s.maxHp && hp == s.hp
        && exp == s.exp && maxExp == s.maxExp && gold == s.gold
        && (old(weaponSlot) == null && StrengthBeforeItems(entries) ==> strength - Bonus() == s.strength)
      ensures r.Success? ==> var s := CS.Load(old(LoadBase()), entries).value;
        && (forall k :: k != Strength ==> effects[k] == old(effects)[k] + EB.OfKind(s.effects, k))
        && (old(weaponSlot) == null && HeldCount(s.items) <= 1 ==>
              effects[Strength] == old(effects)[Strength] + EB.OfKind(s.effects, Strength))
      ensures r.Success? ==> var s := CS.Load(old(LoadBase()), entries).value;
        && (forall t :: t != GoldType ==> backpack.items.Length(t) == Filled(old(backpack.items.Length(t)), TypeCount(s.items, t)))
        && StockOf(backpack.items.State()) == StockedAll(StockOf(old(backpack.items.State())), s.items)
        && (LastHeldPower(s.items).Some? ==> weaponSlot != null && weaponSlot.held && weaponSlot.power == LastHeldPower(s.items).value)
        && (LastHeldPower(s.items).None? ==> weaponSlot == old(weaponSlot))
      ensures color == old(color) && keys == old(keys) && crd == old(crd)
      ensures baseStrength == old(baseStrength) && baseAgility == old(baseAgility)
    {
      ghost var e0, w0, c0 := effects, weaponSlot, backpack.items.State();
      ghost var s, offset;
      r, s, offset := LoadEntries(entries);
      if r.Success? {
        assert Mirrors(s, offset, e0, w0, c0);
      }
    }

    /**
     * The loop of `_load`: on success the character mirrors the loaded record
     * `s` on top of what it held before, with `offset` what the loaded
     * strength lost to the held weapon's bonus.
     */
    method LoadEntries(entries: seq<(string, Value)>) returns (r: Result<()>, ghost s: CS.Saved, ghost offset: int)
      requires Valid() && backpack.Valid()
      modifies this, backpack.items, weaponSlot
      ensures Valid() && backpack.Valid()
      ensures r.Success? <==> CS.Load(old(LoadBase()), entries).Success?
      ensures r.Failure? ==> r.error == CS.Load(old(LoadBase()), entries).error
      ensures r.Success? ==> CS.Load(old(LoadBase()), entries) == Success(s)
      ensures r.Success? ==> Mirrors(s, offset, old(effects), old(weaponSlot), old(backpack.items.State()))
      ensures r.Success? && old(weaponSlot) == null && StrengthBeforeItems(entries) ==> offset == 0
      ensures color == old(color) && keys == old(keys) && crd == old(crd)
      ensures baseStrength == old(baseStrength) && baseAgility == old(baseAgility)
    {
      ghost var base, e0, w0, c0 := LoadBase(), effects, weaponSlot, backpack.items.State();
      s := base;
      offset := 0;
      assert entries[..0] == [];
      assert Mirrors(s, offset, e0, w0, c0);
      for i := 0 to |entries|
        invariant Valid() && backpack.Valid()
        invariant CS.Load(base, entries[..i]) == Success(s)
        invariant Mirrors(s, offset, e0, w0, c0)
        invariant weaponSlot == old(weaponSlot) || fresh(weaponSlot)
        invariant w0 == null && StrengthBeforeItems(entries) ==> offset == 0
        invariant (forall j :: 0 <= j < i ==> entries[j].0 != "items") ==> s.items == []
        invariant color == old(color) && keys == old(keys) && crd == old(crd)
        invariant baseStrength == old(baseStrength) && baseAgility == old(baseAgility)
      {
        var step;
        step, s, offset := LoadStep(entries, i, base, s, offset, e0, w0, c0);
        if step.Failure? {
          return step, s, offset;
        }
      }
      assert entries[..|entries|] == entries;
      return Success(()), s, offset;
    }

    /** One pass of the loop of `_load`: the entry at `i` read and applied, or the error that ends the load. */
    method LoadStep(entries: seq<(string, Value)>, i: nat, ghost base: CS.Saved, ghost s: CS.Saved, ghost offset: int,
                    ghost e0: EB.Bag, ghost w0: WeaponItem.Weapon?, ghost c0: IL.Shelves)
      returns (r: Result<()>, ghost s': CS.Saved, ghost offset': int)
      requires i < |entries| && Valid() && backpack.Valid()
      requires CS.Load(base, entries[..i]) == Success(s) && Mirrors(s, offset, e0, w0, c0)
      requires w0 == null && StrengthBeforeItems(entries) ==> offset == 0
      requires (forall j :: 0 <= j < i ==> entries[j].0 != "items") ==> s.items == []
      modifies this, backpack.items, weaponSlot
      ensures Valid() && backpack.Valid()
      ensures r.Failure? ==> CS.Load(base, entries) == Failure(r.error)
      ensures r.Success? ==> CS.Load(base, entries[..i + 1]) == Success(s') && Mirrors(s', offset', e0, w0, c0)
      ensures r.Success? && w0 == null && StrengthBeforeItems(entries) ==> offset' == 0
      ensures r.Success? && (forall j :: 0 <= j < i + 1 ==> entries[j].0 != "items") ==> s'.items == []
      ensures weaponSlot == old(weaponSlot) || fresh(weaponSlot)
      ensures color == old(color) && keys == old(keys) && crd == old(crd)
      ensures baseStrength == old(baseStrength) && baseAgility == old(baseAgility)
    {
      var (key, v) := entries[i];
      CS.LoadAt(base, entries, i, s);
      var entry := CS.ParseEntry(key, v);
      if entry.Failure? {
        CS.LoadStops(base, entries, i + 1);
        return Failure(entry.error), s, offset;
      }
      ghost var strengthHere := entry.value.AttributeEntry? && entry.value.key == "strength";
      if w0 == null && StrengthBeforeItems(entries) && strengthHere {
        assert forall j :: 0 <= j < i ==> entries[j].0 != "items";
      }
      offset' := LoadEntry(entry.value, s, offset, e0, w0, c0);
      s' := CS.Apply(s, entry.value);
      r := Success(());
    }

    /**
     * The character stands where loading the record `s` on top of the
     * effects `e0`, the weapon `w0` and the compartments `c0` leaves it;
     * `offset` is what the loaded strength lost to the held weapon's bonus.
     */
    ghost predicate Mirrors(s: CS.Saved, offset: int, e0: EB.Bag, w0: WeaponItem.Weapon?, c0: IL.Shelves)
      reads this, backpack, backpack.items, weaponSlot
    {
      && EB.WellKeyed(effects) && EB.WellKeyed(e0)
      && LoadBase() == s.(strength := s.strength - offset, effects := [], items := [])
      && (forall k :: k != Strength ==> effects[k] == e0[k] + EB.OfKind(s.effects, k))
      && (w0 == null && HeldCount(s.items) <= 1 ==> effects[Strength] == e0[Strength] + EB.OfKind(s.effects, Strength))
      && (forall t :: t != GoldType ==> backpack.items.Length(t) == Filled(IL.LengthOf(c0, t), TypeCount(s.items, t)))
      && StockOf(backpack.items.State()) == StockedAll(StockOf(c0), s.items)
      && (LastHeldPower(s.items).Some? ==> weaponSlot != null && weaponSlot.held && weaponSlot.power == LastHeldPower(s.items).value)
      && (LastHeldPower(s.items).None? ==> weaponSlot == w0)
    }

    /** One entry that reads, applied to the character (see `Mirrors`). */
    method LoadEntry(entry: CS.Entry, ghost s: CS.Saved, ghost offset: int,
                     ghost e0: EB.Bag, ghost w0: WeaponItem.Weapon?, ghost c0: IL.Shelves)
      returns (ghost offset': int)
      requires entry.AttributeEntry? ==> CS.IsAttribute(entry.key)
      requires Valid() && backpack.Valid() && Mirrors(s, offset, e0, w0, c0)
      modifies this, backpack.items, weaponSlot
      ensures Valid() && backpack.Valid() && Mirrors(CS.Apply(s, entry), offset', e0, w0, c0)
      ensures offset' == if entry.AttributeEntry? && entry.key == "strength" then Bonus() else offset
      ensures !entry.ItemsEntry? ==> weaponSlot == old(weaponSlot)
      ensures weaponSlot == old(weaponSlot) || fresh(weaponSlot)
      ensures w0 == null && s.items == [] && entry.AttributeEntry? && entry.key == "strength" ==> offset' == 0
      ensures !entry.ItemsEntry? ==> CS.Apply(s, entry).items == s.items
      ensures color == old(color) && keys == old(keys) && crd == old(crd)
      ensures baseStrength == old(baseStrength) && baseAgility == old(baseAgility)
    {
      match entry {
        case AttributeEntry(key, n) =>
          offset' := LoadAttributeEntry(key, n, s, offset, e0, w0, c0);
        case EffectsEntry(es) =>
          LoadEffectsEntry(es, s, offset, e0, w0, c0);
          offset' := offset;
        case ItemsEntry(specs) =>
          LoadItemsEntry(specs, s, offset, e0, w0, c0);
          offset' := offset;
      }
    }

    /** An attribute entry read as `n`; the strength entry sets the offset to the held weapon's bonus. */
    method LoadAttributeEntry(key: string, n: int, ghost s: CS.Saved, ghost offset: int,
                              ghost e0: EB.Bag, ghost w0: WeaponItem.Weapon?, ghost c0: IL.Shelves)
      returns (ghost offset': int)
      requires Valid() && CS.IsAttribute(key) && Mirrors(s, offset, e0, w0, c0)
      modifies this
      ensures Valid() && Mirrors(CS.SetAttribute(s, key, n), offset', e0, w0, c0)
      ensures offset' == if key == "strength" then Bonus() else offset
      ensures weaponSlot == old(weaponSlot) && color == old(color) && keys == old(keys) && crd == old(crd)
      ensures baseStrength == old(baseStrength) && baseAgility == old(baseAgility)
    {
      LoadAttribute(key, n);
      offset' := if key == "strength" then Bonus() else offset;
      assert LoadBase() == CS.SetAttribute(s, key, n).(strength := CS.SetAttribute(s, key, n).strength - offset', effects := [], items := []);
    }

    /** An "effects" entry read as `es`. */
    method LoadEffectsEntry(es: seq<RogueEffect>, ghost s: CS.Saved, ghost offset: int,
                            ghost e0: EB.Bag, ghost w0: WeaponItem.Weapon?, ghost c0: IL.Shelves)
      requires Valid() && Mirrors(s, offset, e0, w0, c0)
      modifies this
      ensures Valid() && Mirrors(s.(effects := s.effects + es), offset, e0, w0, c0)
      ensures weaponSlot == old(weaponSlot) && color == old(color) && keys == old(keys) && crd == old(crd)
      ensures baseStrength == old(baseStrength) && baseAgility == old(baseAgility)
    {
      ghost var e1 := effects;
      LoadEffects(es);
      assert State().effects == EB.Appended(e1, es);
      forall k: EffectKind | k != Strength || (w0 == null && HeldCount(s.items) <= 1)
        ensures effects[k] == e0[k] + EB.OfKind(s.effects + es, k)
      {
        EB.AppendedOfKind(e1, es, k);
        EB.OfKindAppend(s.effects, es, k);
        assert e1[k] == e0[k] + EB.OfKind(s.effects, k);
      }
    }

    /** An "items" entry read as `specs`. */
    method LoadItemsEntry(specs: seq<CS.ItemSpec>, ghost s: CS.Saved, ghost offset: int,
                          ghost e0: EB.Bag, ghost w0: WeaponItem.Weapon?, ghost c0: IL.Shelves)
      requires Valid() && backpack.Valid() && Mirrors(s, offset, e0, w0, c0)
      modifies this, backpack.items, weaponSlot
      ensures Valid() && backpack.Valid() && Mirrors(s.(items := s.items + specs), offset, e0, w0, c0)
      ensures weaponSlot == old(weaponSlot) || fresh(weaponSlot)
      ensures color == old(color) && keys == old(keys) && crd == old(crd)
      ensures baseStrength == old(baseStrength) && baseAgility == old(baseAgility)
    {
      HeldCountPositive(s.items);
      HeldCountPositive(specs);
      forall t: ItemType
        ensures TypeCount(s.items + specs, t) == TypeCount(s.items, t) + TypeCount(specs, t)
      {
        CountsAppend(s.items, specs, t);
      }
      CountsAppend(s.items, specs, WeaponType);
      StockedAllAppend(StockOf(c0), s.items, specs);
      ghost var slot, e1 := weaponSlot, effects;
      LoadItems(specs);
      ghost var s' := s.(items := s.items + specs);
      if w0 == null && HeldCount(s'.items) <= 1 {
        if HeldCount(s.items) == 0 {
          assert slot == null;
        } else {
          assert HeldCount(specs) == 0;
        }
        assert effects == e1;
      }
      if LastHeldPower(specs).None? {
        assert weaponSlot == slot && LastHeldPower(s'.items) == LastHeldPower(s.items);
      }
    }

    /** The saved record: strength without the held weapon's bonus, effects in kind order. */
    function Saved(): CS.Saved
      reads this, backpack, backpack.items, set i | 0 <= i < |backpack.items.weapons| :: backpack.items.weapons[i]
      requires EB.WellKeyed(effects)
    {
      var items := backpack.items;
      CS.Saved(level, strength - Bonus(), agility, maxHp, hp, exp, maxExp, gold,
        CS.InKindOrder(effects, |AllEffects|),
        FoodSpecs(items.food) + PotionSpecs(items.potions) + ScrollSpecs(items.scrolls) + WeaponSpecs(items.weapons))
    }

    /** `_dump`: the entries of the saved record, which `_load` on this character reads back as that record. */
    function Dump(): (d: seq<(string, Value)>)
      reads this, backpack, backpack.items, set i | 0 <= i < |backpack.items.weapons| :: backpack.items.weapons[i]
      requires EB.WellKeyed(effects)
      ensures CS.Load(LoadBase(), d) == Success(Saved())
    {
      CS.DumpLoadIdentity(LoadBase(), Saved());
      CS.Entries(Saved())
    }

    /** The record `_load` starts from: this character's attributes, no effects and no items. */
    function LoadBase(): CS.Saved
      reads this
    {
      CS.Saved(level, strength - Bonus(), agility, maxHp, hp, exp, maxExp, gold, [], [])
    }
  }
}
