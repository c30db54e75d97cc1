/**
 * The enemies (src/domain/objects/enemies/): the base class and its six
 * kinds, with the attribute, name, colour and move-pattern tables, harm and
 * experience, timed effects, engagement, and the attack each kind makes.
 *
 * One class stands for the base class and its subclasses; `kind` says which
 * subclass an object is, and each overridden method branches on it. Every
 * random draw is a parameter: the three `uniform(0.8, 1.2)` factors of the
 * attributes are one `Draws` value, the hit test `is_enemy_hits` is the
 * oracle `hitTest` (attacker agility, defender agility), the damage factor
 * is `u`, and each `random()` is a real in [0, 1).
 */
module Enemies {
  import opened Wrappers
  import opened RogueTypes
  import Items
  import EB = EffectBag
  import Stats

  datatype EnemyKind = Zombie | Vampire | Ghost | Ogre | SnakeMage | Mimic

  datatype EnemyState = Walking | Engaged

  /** One row of the attribute table: (health, agility, speed, strength, hostility). */
  datatype Base = Base(health: nat, agility: nat, speed: nat, strength: nat, hostility: nat)

  function BaseOf(k: EnemyKind): Base
  {
    match k
    case Zombie => Base(28, 5, 1, 5, 5)
    case Vampire => Base(32, 9, 1, 4, 8)
    case Ghost => Base(20, 10, 0, 2, 3)
    case Ogre => Base(45, 4, 2, 10, 6)
    case SnakeMage => Base(25, 12, 1, 2, 10)
    case Mimic => Base(30, 8, 1, 4, 2)
  }

  /** The map symbol, which is also the key of every table. */
  function SymbolOf(k: EnemyKind): string
  {
    match k
    case Zombie => "z"
    case Vampire => "v"
    case Ghost => "g"
    case Ogre => "O"
    case SnakeMage => "s"
    case Mimic => "m"
  }

  function NameOf(k: EnemyKind): string
  {
    match k
    case Zombie => "Зомби"
    case Vampire => "Вампир"
    case Ghost => "Привидение"
    case Ogre => "Огр"
    case SnakeMage => "Змей-маг"
    case Mimic => "Мимик"
  }

  function ColorOf(k: EnemyKind): int
  {
    match k
    case Zombie => 12
    case Vampire => 3
    case Ghost => 13
    case Ogre => 14
    case SnakeMage => 15
    case Mimic => 15
  }

  function PatternOf(k: EnemyKind): MovePattern
  {
    match k
    case Zombie => Standard
    case Vampire => Standard
    case Ghost => Jump
    case Ogre => Standard
    case SnakeMage => Diagonal
    case Mimic => ItemPattern
  }

  /** The subclass's name, which the tiredness message shows. */
  function ClassName(k: EnemyKind): string
  {
    match k
    case Zombie => "Zombie"
    case Vampire => "Vampire"
    case Ghost => "Ghost"
    case Ogre => "Ogre"
    case SnakeMage => "SnakeMage"
    case Mimic => "Mimic"
  }

  /** The table lookup by symbol: the map character names the kind. */
  function KindOfSymbol(s: string): (k: Option<EnemyKind>)
    ensures k.Some? ==> SymbolOf(k.value) == s
  {
    if s == "z" then Some(Zombie)
    else if s == "v" then Some(Vampire)
    else if s == "g" then Some(Ghost)
    else if s == "O" then Some(Ogre)
    else if s == "s" then Some(SnakeMage)
    else if s == "m" then Some(Mimic)
    else None
  }

  /** Each kind's symbol looks up that kind, so no two kinds share a symbol. */
  lemma SymbolNamesKind(k: EnemyKind)
    ensures KindOfSymbol(SymbolOf(k)) == Some(k)
  {
    match k
    case Zombie =>
    case Vampire =>
    case Ghost =>
    case Ogre =>
    case SnakeMage =>
    case Mimic =>
  }

  const HarmColor := 10

  /** The probability bounds of the random draws. */
  const EffectChance: real := 0.2
  const VisibleChance: real := 0.5

  /** `pow(1.15, level - 1)`, for any level. */
  function ScaleFactor(level: int): (g: real)
    ensures g > 0.0
    ensures level >= 1 ==> g >= 1.0
  {
    if level >= 1 then Growth(level - 1) else 1.0 / Growth(1 - level)
  }

  /** The three `uniform(0.8, 1.2)` factors of health, agility and strength. */
  datatype Draws = Draws(health: real, agility: real, strength: real)

  predicate InFactorRange(u: real)
  {
    0.8 <= u <= 1.2
  }

  predicate DrawsInRange(d: Draws)
  {
    InFactorRange(d.health) && InFactorRange(d.agility) && InFactorRange(d.strength)
  }

  /**
   * `__attr_randomize(base * scale)`: the scaled attribute times the drawn
   * factor, rounded. A drawn attribute is never negative, and from level 1
   * on it is at least 0.8 of the base, less the half that rounding can lose.
   */
  function Drawn(base: nat, level: int, u: real): (n: int)
    ensures InFactorRange(u) ==> n >= 0
    ensures InFactorRange(u) && level >= 1 ==> n as real >= 0.8 * base as real - 0.5
  {
    var b, g := base as real, ScaleFactor(level);
    RoundedScaled(b, g, u);
    RoundHalfEven(b * g * u)
  }

  /**
   * The rounded product of a base, a positive scale and a drawn factor is
   * never negative, and at least 0.8 of the base less a half once the scale
   * is at least 1.
   */
  lemma RoundedScaled(b: real, g: real, u: real)
    requires b >= 0.0 && g > 0.0
    ensures InFactorRange(u) ==> RoundHalfEven(b * g * u) >= 0
    ensures InFactorRange(u) && g >= 1.0 ==> RoundHalfEven(b * g * u) as real >= 0.8 * b - 0.5
  {
    var x := b * g * u;
    if InFactorRange(u) {
      if g >= 1.0 {
        ScaledAtLeast(b, g, u);
        assert x >= 0.8 * b;
        RoundedAbove(x, 0.8 * b);
      }
      MulNonNegative(b, g);
      MulNonNegative(b * g, u);
      RoundedAbove(x, 0.0);
    }
  }

  /** Rounding loses at most a half. */
  lemma RoundedAbove(x: real, y: real)
    requires x >= y
    ensures RoundHalfEven(x) as real >= y - 0.5
  {
  }

  /** Scaling a base by a factor of at least 1 and one of at least 0.8 leaves at least 0.8 of it. */
  lemma ScaledAtLeast(b: real, g: real, u: real)
    requires b >= 0.0 && g >= 1.0 && u >= 0.8
    ensures b * g * u >= 0.8 * b
  {
    MulMonotone(g, 1.0, b);
    assert b * g >= b;
    MulMonotone(b * g, b, u);
    MulMonotone(u, 0.8, b);
  }

  lemma MulMonotone(x: real, y: real, z: real)
    requires x >= y && z >= 0.0
    ensures x * z >= y * z && z * x >= z * y
  {
    MulNonNegative(x - y, z);
  }

  lemma MulNonNegative(x: real, y: real)
    requires x >= 0.0 && y >= 0.0
    ensures x * y >= 0.0
  {
  }

  lemma MulNonPositive(x: real, y: real)
    requires x >= 0.0 && y <= 0.0
    ensures x * y <= 0.0
  {
    MulNonNegative(x, -y);
  }

  lemma MulPositive(x: real, y: real)
    requires x > 0.0 && y > 0.0
    ensures x * y > 0.0
  {
  }

  /**
   * The timed effect an attack can carry: the vampire drains 4 maximum
   * health per level for 5 turns, the snake mage puts to sleep for
   * `level // 7` turns (1 when that is zero); the others have none.
   */
  function TemplateOf(k: EnemyKind, level: int): Option<RogueEffect>
  {
    match k
    case Vampire => Some(RogueEffect(MaxHealth, -(level * 4), 5))
    case SnakeMage => Some(RogueEffect(Sleep, 0, SleepPeriod(level)))
    case _ => None
  }

  /** `level // 7 or 1`: Python's floor division, replaced by 1 only when it is zero. */
  function SleepPeriod(level: int): int
  {
    if level / 7 != 0 then level / 7 else 1
  }

  /** On every real level the snake mage's sleep lasts at least one turn, a seventh of the level. */
  lemma SleepPeriodPositive(level: int)
    requires level >= 1
    ensures SleepPeriod(level) >= 1
    ensures SleepPeriod(level) == if level < 7 then 1 else level / 7
    ensures 7 * SleepPeriod(level) <= level || level < 7
  {
  }

  /** What the ogre puts on itself at each attack: one turn of sleep, with no value. */
  const OgreNap := RogueEffect(Sleep, 0, 1)

  /**
   * `__exp_count` once the enemy is dead: ceil((str + agi) * 0.1 +
   * hostility * 0.08 + max_health * 0.05), taken exactly in rationals.
   */
  function Experience(strength: int, agility: int, hostility: int, maxHealth: int): (x: int)
    ensures var n := 10 * (strength + agility) + 8 * hostility + 5 * maxHealth;
      100 * (x - 1) < n <= 100 * x
  {
    (10 * (strength + agility) + 8 * hostility + 5 * maxHealth + 99) / 100
  }

  /** The worked case: strength 10, agility 5, hostility 8 and maximum health 50 give 5. */
  lemma ExperienceExample()
    ensures Experience(10, 5, 8, 50) == 5
  {
  }

  /** The attributes effects act on: enemies have no effect on health. */
  datatype Attrs = Attrs(agility: int, strength: int)

  /** `apply_effect` on the attributes: agility and strength add the value; every other kind changes nothing. */
  function Applied(a: Attrs, e: RogueEffect): Attrs
  {
    match e.effect
    case Agility => a.(agility := a.agility + e.value)
    case Strength => a.(strength := a.strength + e.value)
    case _ => a
  }

  /** `__remove_effect` on the attributes: the value is taken back. */
  function Reverted(a: Attrs, e: RogueEffect): Attrs
  {
    match e.effect
    case Agility => a.(agility := a.agility - e.value)
    case Strength => a.(strength := a.strength - e.value)
    case _ => a
  }

  /** The effects of `zs` removed in turn, from the first. */
  function RevertAll(a: Attrs, zs: seq<RogueEffect>): Attrs
  {
    if |zs| == 0 then a else Reverted(RevertAll(a, zs[..|zs| - 1]), zs[|zs| - 1])
  }

  /** Removing an effect undoes applying it, whatever its kind. */
  lemma RevertUndoesApply(a: Attrs, e: RogueEffect)
    ensures Reverted(Applied(a, e), e) == a
  {
  }

  /** Health, maximum health and sleep effects leave the attributes as they are, both ways. */
  lemma OnlyAgilityAndStrength(a: Attrs, e: RogueEffect)
    requires e.effect !in {Agility, Strength}
    ensures Applied(a, e) == a && Reverted(a, e) == a
  {
  }

  /** Removing a list of effects takes back the sum of their values, kind by kind. */
  lemma {:induction false} RevertAllSums(a: Attrs, zs: seq<RogueEffect>)
    ensures RevertAll(a, zs) == Attrs(a.agility - SumOf(zs, Agility), a.strength - SumOf(zs, Strength))
  {
    if |zs| > 0 {
      RevertAllSums(a, zs[..|zs| - 1]);
    }
  }

  function SumOf(zs: seq<RogueEffect>, k: EffectKind): int
  {
    if |zs| == 0 then 0
    else SumOf(zs[..|zs| - 1], k) + (if zs[|zs| - 1].effect == k then zs[|zs| - 1].value else 0)
  }

  /** One more removal: the prefix of `i + 1` effects is the prefix of `i` and then effect `i`. */
  lemma RemovalStep(a: Attrs, b: EB.Bag, zs: seq<RogueEffect>, i: int)
    requires 0 <= i < |zs| && forall k: EffectKind :: k in b
    ensures RevertAll(a, zs[..i + 1]) == Reverted(RevertAll(a, zs[..i]), zs[i])
    ensures EB.RemoveEach(b, zs[..i + 1]) == EB.Withdraw(EB.RemoveEach(b, zs[..i]), zs[i])
  {
    assert zs[..i + 1][..i] == zs[..i];
  }

  /** The squared distance between two cells is within the hostility radius. */
  predicate InReach(crd: Crd, target: Crd, hostility: int)
  {
    var dy, dx := target.0 - crd.0, target.1 - crd.1;
    dx * dx + dy * dy <= hostility * hostility
  }

  /**
   * The engagement test in integers: the Euclidean distance `s`, the root
   * of dx² + dy², is at most the hostility exactly when dx² + dy² is at
   * most its square.
   */
  lemma ReachIsDistance(crd: Crd, target: Crd, hostility: nat, s: real)
    requires s >= 0.0
    requires s * s == ((target.1 - crd.1) * (target.1 - crd.1) + (target.0 - crd.0) * (target.0 - crd.0)) as real
    ensures s <= hostility as real <==> InReach(crd, target, hostility)
  {
    var h := hostility as real;
    if s <= h {
      MulNonNegative(s, h - s);
      MulNonNegative(h, h - s);
    } else {
      MulNonPositive(s, h - s);
      MulNonNegative(h, s - h);
      assert s * (h - s) < 0.0 by {
        MulPositive(s, s - h);
      }
    }
  }

  /** The damage `round(uniform(0.8 * s, 1.2 * s))`, as the drawn factor times the strength. */
  function Damage(strength: int, u: real): int
  {
    RoundHalfEven(strength as real * u)
  }

  /** For a non-negative strength the damage lies within a fifth of it, up to rounding. */
  lemma DamageBounds(strength: int, u: real)
    requires strength >= 0 && InFactorRange(u)
    ensures 0.8 * strength as real - 0.5 <= Damage(strength, u) as real <= 1.2 * strength as real + 0.5
  {
    var s := strength as real;
    MulNonNegative(s, u - 0.8);
    MulNonNegative(s, 1.2 - u);
  }

  // Messages

  function HitMessage(eName: string, name: string, damage: int): RogueEvent
  {
    RogueEvent(Join([eName, " атакует ", name, " нанося ", IntToString(damage), " урона"]), 23)
  }

  function MissMessage(eName: string, name: string): RogueEvent
  {
    Event(eName + " атакует " + name + " и промахивается")
  }

  /** The effect's value shows twice: once bare, then again as the amount. */
  function ApplyMessage(name: string, e: RogueEffect): RogueEvent
  {
    var val := if e.value == 0 then "" else Join([" на ", IntToString(e.value), " ед. "]);
    var per := if e.period == 0 then "" else Join([" на ", IntToString(e.period), " ходов"]);
    Event(Join([name, " получает эффект ", IntToString(e.value), val, per]))
  }

  function LossMessage(name: string, e: RogueEffect): RogueEvent
  {
    Event(name + " теряет эффект " + e.effect.Value())
  }

  function LossMessages(name: string, zs: seq<RogueEffect>): (r: seq<RogueEvent>)
    ensures |r| == |zs| && forall i :: 0 <= i < |zs| ==> r[i] == LossMessage(name, zs[i])
  {
    seq(|zs|, i requires 0 <= i < |zs| => LossMessage(name, zs[i]))
  }

  lemma LossMessagesSnoc(name: string, zs: seq<RogueEffect>, i: int)
    requires 0 <= i < |zs|
    ensures LossMessages(name, zs[..i + 1]) == LossMessages(name, zs[..i]) + [LossMessage(name, zs[i])]
  {
    var l, r := LossMessages(name, zs[..i + 1]), LossMessages(name, zs[..i]) + [LossMessage(name, zs[i])];
    assert |l| == |r|;
    forall j | 0 <= j < |l| ensures l[j] == r[j] {
      assert zs[..i + 1][j] == zs[j];
    }
  }

  /** The error `list.remove` raises for an effect that is not in the list. */
  const NotInList := ValueError("list.remove(x): x not in list")

  /** The fields the methods change, grouped. */
  datatype Shape = Shape(health: int, attrs: Attrs, color: int, state: EnemyState,
                         effects: EB.Bag, visible: bool, firstHit: bool)

  class Enemy {
    const kind: EnemyKind
    const level: int
    const name: string
    const maxHealth: int
    const speed: int
    const hostility: int
    const pattern: MovePattern
    /** The vampire's and the snake mage's attack effect, copied at each use. */
    const template: Option<RogueEffect>
    /** The mimic's disguise: the item class drawn at construction. */
    const disguise: Option<Items.ItemType>
    var health: int
    var agility: int
    var strength: int
    var color: int
    var state: EnemyState
    var effects: EB.Bag
    var visible: bool
    /** The vampire's first-hit flag. */
    var firstHit: bool

    /** One list of effects per kind; health never negative. */
    ghost predicate Valid()
      reads this
    {
      EB.WellKeyed(effects) && health >= 0 && hostility >= 0 && (kind == Mimic <==> disguise.Some?)
    }

    function Attributes(): Attrs
      reads this
    {
      Attrs(agility, strength)
    }

    function State(): Shape
      reads this
    {
      Shape(health, Attributes(), color, state, effects, visible, firstHit)
    }

    /**
     * A new enemy of the given kind and level: maximum health, speed and
     * hostility are the table's; health, agility and strength are the
     * table's scaled by 1.15 per level above the first and by the drawn
     * factors; it walks, is visible, has no effects and has its kind's colour.
     */
    constructor(kind: EnemyKind, level: int, d: Draws, disguise: Option<Items.ItemType>)
      requires DrawsInRange(d) && (kind == Mimic <==> disguise.Some?)
      ensures Valid()
      ensures this.kind == kind && this.level == level && this.disguise == disguise
      ensures name == NameOf(kind) && pattern == PatternOf(kind) && template == TemplateOf(kind, level)
      ensures maxHealth == BaseOf(kind).health && speed == BaseOf(kind).speed && hostility == BaseOf(kind).hostility
      ensures health == Drawn(BaseOf(kind).health, level, d.health)
      ensures agility == Drawn(BaseOf(kind).agility, level, d.agility)
      ensures strength == Drawn(BaseOf(kind).strength, level, d.strength)
      ensures state == Walking && visible && firstHit && color == ColorOf(kind) && effects == EB.Empty
      ensures level >= 1 ==> IsAlive()
    {
      var b := BaseOf(kind);
      this.kind, this.level, this.disguise := kind, level, disguise;
      name, pattern, template := NameOf(kind), PatternOf(kind), TemplateOf(kind, level);
      maxHealth, speed, hostility := b.health, b.speed, b.hostility;
      health := Drawn(b.health, level, d.health);
      agility := Drawn(b.agility, level, d.agility);
      strength := Drawn(b.strength, level, d.strength);
      state, visible, firstHit := Walking, true, true;
      color := ColorOf(kind);
      effects := EB.Empty;
      new;
      EB.EmptyWellKeyed();
    }

    predicate IsAlive()
      reads this
    {
      health > 0
    }

    predicate StatusEngaged()
      reads this
    {
      state == Engaged
    }

    /** `__exp_count`: nothing while the enemy lives. */
    function ExpCount(): (x: int)
      reads this
      ensures IsAlive() ==> x == 0
      ensures !IsAlive() ==> x == Experience(strength, agility, hostility, maxHealth)
    {
      if IsAlive() then 0 else Experience(strength, agility, hostility, maxHealth)
    }

    /** The colour on the map: an unengaged mimic shows its disguise's. */
    function DisplayColor(): int
      reads this
      requires Valid()
    {
      if kind == Mimic && state != Engaged then Items.Color(disguise.value) else color
    }

    /** The symbol on the map: an unengaged mimic shows its disguise's. */
    function DisplaySymbol(): string
      reads this
      requires Valid()
    {
      if kind == Mimic && state != Engaged then Items.Symbol(disguise.value) else SymbolOf(kind)
    }

    /** `add_attack_effect`: a copy of the template when the draw is at most 0.2. */
    function AttackEffect(chance: real): (e: Option<RogueEffect>)
    {
      if template.Some? && chance <= EffectChance then template else None
    }

    /**
     * `apply_effect`: a timed effect is recorded (a timed sleep replaces any
     * sleep there is); agility and strength effects add their value.
     */
    method ApplyEffect(e: RogueEffect) returns (events: seq<RogueEvent>)
      requires Valid()
      modifies this
      ensures Valid()
      ensures State() == old(State()).(attrs := Applied(old(Attributes()), e), effects := EB.Record(old(effects), e))
      ensures events == [ApplyMessage(name, e)]
    {
      effects := EB.Record(effects, e);
      SetAttributes(Applied(Attributes(), e));
      events := [ApplyMessage(name, e)];
    }

    method SetAttributes(a: Attrs)
      modifies this
      ensures State() == old(State()).(attrs := a)
    {
      agility, strength := a.agility, a.strength;
    }

    /**
     * `__remove_effect`: the first equal effect leaves its list and its value
     * is taken back; an effect that is not there raises ValueError.
     */
    method RemoveEffect(e: RogueEffect) returns (r: Result<seq<RogueEvent>>)
      requires Valid()
      modifies this
      ensures Valid()
      ensures r.Success? <==> e in old(effects)[e.effect]
      ensures r.Failure? ==> r.error == NotInList && State() == old(State())
      ensures r.Success? ==>
        && State() == old(State()).(attrs := Reverted(old(Attributes()), e), effects := EB.Withdraw(old(effects), e))
        && r.value == [LossMessage(name, e)]
    {
      if e !in effects[e.effect] {
        return Failure(NotInList);
      }
      effects := EB.Withdraw(effects, e);
      SetAttributes(Reverted(Attributes(), e));
      return Success([LossMessage(name, e)]);
    }

    /**
     * `check_object_effects`: the colour goes back to the kind's; every
     * effect with time left loses a turn (a running sleep stops the move and
     * says so), and every expired one is removed, which never fails.
     */
    method CheckObjectEffects() returns (events: seq<RogueEvent>, canMove: bool)
      requires Valid()
      modifies this
      ensures Valid()
      ensures canMove <==> !EB.Drowsy(old(effects))
      ensures var expired := EB.ExpiredOf(old(effects), |AllEffects|);
        && State() == old(State()).(attrs := RevertAll(old(Attributes()), expired),
                                    effects := EB.RemoveEach(EB.DecrementAll(old(effects)), expired),
                                    color := ColorOf(kind))
        && events == EB.TiredOf(old(effects), |AllEffects|, ClassName(kind)) + LossMessages(name, expired)
    {
      ghost var b0 := effects;
      color := ColorOf(kind);
      var expired, tired := AdvanceEffects();
      canMove := tired == [];
      var lost := RemoveExpired(expired, b0);
      events := tired + lost;
    }

    method AdvanceEffects() returns (expired: seq<RogueEffect>, tired: seq<RogueEvent>)
      requires Valid()
      modifies this
      ensures Valid()
      ensures State() == old(State()).(effects := EB.DecrementAll(old(effects)))
      ensures expired == EB.ExpiredOf(old(effects), |AllEffects|)
      ensures tired == EB.TiredOf(old(effects), |AllEffects|, ClassName(kind))
      ensures tired == [] <==> !EB.Drowsy(old(effects))
    {
      var r;
      r, expired, tired := EB.Advance(effects, ClassName(kind));
      effects := r;
    }

    /** The removal pass: each expired effect is still in its list when its turn comes. */
    method RemoveExpired(expired: seq<RogueEffect>, ghost b0: EB.Bag) returns (events: seq<RogueEvent>)
      requires Valid() && EB.WellKeyed(b0)
      requires effects == EB.DecrementAll(b0) && expired == EB.ExpiredOf(b0, |AllEffects|)
      modifies this
      ensures Valid()
      ensures State() == old(State()).(attrs := RevertAll(old(Attributes()), expired),
                                       effects := EB.RemoveEach(old(effects), expired))
      ensures events == LossMessages(name, expired)
    {
      ghost var s0 := State();
      events := [];
      for i := 0 to |expired|
        invariant Valid()
        invariant State() == s0.(attrs := RevertAll(s0.attrs, expired[..i]), effects := EB.RemoveEach(s0.effects, expired[..i]))
        invariant events == LossMessages(name, expired[..i])
      {
        EB.NextPresent(b0, s0.effects, i);
        RemovalStep(s0.attrs, s0.effects, expired, i);
        var r := RemoveEffect(expired[i]);
        LossMessagesSnoc(name, expired, i);
        events := events + r.value;
      }
      assert expired[..|expired|] == expired;
    }

    /**
     * `harm`: the attacker's agility decides the hit (a vampire's first hit
     * since it engaged is tested with agility 0); a hit takes the strength
     * off health, never below 0, shows the harm colour and applies the
     * effect; the statistics count hits and misses. The experience returned
     * is the one a dead enemy is worth.
     */
    method Harm(eName: string, eStrength: int, eAgility: int, eEffect: Option<RogueEffect>,
                hitTest: (int, int) -> bool, stats: Stats.RogueStats) returns (events: seq<RogueEvent>, exp: int)
      requires Valid()
      modifies this, stats
      ensures Valid()
      ensures exp == ExpCount() && (exp == 0 || !IsAlive())
      ensures firstHit == (old(firstHit) && kind != Vampire)
      ensures var tested := if kind == Vampire && old(firstHit) then 0 else eAgility;
        hitTest(tested, old(agility)) ==>
          var s := old(State()).(health := if old(health) - eStrength > 0 then old(health) - eStrength else 0,
                                 color := HarmColor, firstHit := firstHit);
          && State() == (if eEffect.Some? then s.(attrs := Applied(s.attrs, eEffect.value), effects := EB.Record(s.effects, eEffect.value)) else s)
          && stats.Record() == old(stats.Record()).(totalHits := old(stats.totalHits) + 1)
          && events == [HitMessage(eName, name, eStrength)] + (if eEffect.Some? then [ApplyMessage(name, eEffect.value)] else [])
      ensures var tested := if kind == Vampire && old(firstHit) then 0 else eAgility;
        !hitTest(tested, old(agility)) ==>
          && State() == old(State()).(firstHit := firstHit)
          && stats.Record() == old(stats.Record()).(missedHits := old(stats.missedHits) + 1)
          && events == [MissMessage(eName, name)]
    {
      var tested := eAgility;
      if kind == Vampire && firstHit {
        tested := 0;
        firstHit := false;
      }
      if hitTest(tested, agility) {
        stats.totalHits := stats.totalHits + 1;
        TakeHit(eStrength);
        events := [HitMessage(eName, name, eStrength)];
        if eEffect.Some? {
          var applied := ApplyEffect(eEffect.value);
          events := events + applied;
        }
      } else {
        stats.missedHits := stats.missedHits + 1;
        events := [MissMessage(eName, name)];
      }
      exp := ExpCount();
    }

    /** The hit itself: the harm colour, and health less the strength but at least 0. */
    method TakeHit(eStrength: int)
      requires Valid()
      modifies this
      ensures Valid()
      ensures State() == old(State()).(health := if old(health) - eStrength > 0 then old(health) - eStrength else 0,
                                       color := HarmColor)
    {
      color := HarmColor;
      health := health - eStrength;
      if health < 0 {
        health := 0;
      }
    }

    /**
     * `attack`: the name, the damage drawn around the strength, the agility
     * and the attack effect. The ogre first puts itself to sleep for a turn,
     * past the rule that sleep does not stack.
     */
    method Attack(u: real, chance: real) returns (r: (string, int, int, Option<RogueEffect>))
      requires Valid() && InFactorRange(u) && 0.0 <= chance < 1.0
      modifies this
      ensures Valid()
      ensures r == (name, Damage(old(strength), u), old(agility), AttackEffect(chance))
      ensures kind == Ogre ==> State() == old(State()).(effects := old(effects)[Sleep := old(effects)[Sleep] + [OgreNap]])
      ensures kind != Ogre ==> State() == old(State())
    {
      if kind == Ogre {
        effects := effects[Sleep := effects[Sleep] + [OgreNap]];
      }
      r := (name, Damage(strength, u), agility, AttackEffect(chance));
    }

    /**
     * `is_engaged`: the character at `target` is within the hostility radius
     * of `crd`; out of reach the enemy walks again. A ghost in reach shows
     * itself, and out of reach is visible when the draw is below 0.5.
     */
    method IsEngaged(crd: Crd, target: Crd, draw: real) returns (engaged: bool)
      requires Valid() && 0.0 <= draw < 1.0
      modifies this
      ensures Valid()
      ensures engaged <==> InReach(crd, target, hostility)
      ensures var st := if engaged then old(state) else Walking;
        var vis := if kind != Ghost then old(visible) else engaged || draw < VisibleChance;
        State() == old(State()).(state := st, visible := vis)
    {
      var dy, dx := target.0 - crd.0, target.1 - crd.1;
      engaged := dx * dx + dy * dy <= hostility * hostility;
      if !engaged {
        state := Walking;
      }
      if kind == Ghost {
        visible := engaged || draw < VisibleChance;
      }
    }

    /**
     * `set_engaged_status`: the enemy is engaged afterwards; a vampire
     * that was not engaged has its first hit back. Calling it again
     * changes nothing.
     */
    method SetEngagedStatus()
      modifies this
      ensures state == Engaged
      ensures old(state) == Engaged ==> State() == old(State())
      ensures old(state) != Engaged ==> State() == old(State()).(state := Engaged, firstHit := kind == Vampire || old(firstHit))
    {
      if state != Engaged {
        if kind == Vampire {
          firstHit := true;
        }
        state := Engaged;
      }
    }
  }

  /** In the turn after an ogre's attack its sleep is running, so it cannot move. */
  lemma OgreNapStopsMove(b: EB.Bag)
    requires EB.WellKeyed(b)
    ensures var b1 := b[Sleep := b[Sleep] + [OgreNap]];
      EB.WellKeyed(b1) && EB.Drowsy(b1)
  {
    var b1 := b[Sleep := b[Sleep] + [OgreNap]];
    assert b1[Sleep][|b1[Sleep]| - 1] == OgreNap;
  }

  /**
   * That turn leaves the nap with no time: it is then in the sleep list
   * with period 0, among the effects the next turn removes as expired.
   */
  lemma OgreNapExpires(b: EB.Bag)
    requires EB.WellKeyed(b)
    ensures var b1 := b[Sleep := b[Sleep] + [OgreNap]];
      EB.WellKeyed(b1) &&
      var b2 := EB.RemoveEach(EB.DecrementAll(b1), EB.ExpiredOf(b1, |AllEffects|));
      EB.WellKeyed(b2) && OgreNap.(period := 0) in EB.Zeros(b2[Sleep])
  {
    var b1 := b[Sleep := b[Sleep] + [OgreNap]];
    var nap := OgreNap.(period := 0);
    OgreNapStopsMove(b);
    var expired := EB.ExpiredOf(b1, |AllEffects|);
    EB.RemoveEachWellKeyed(EB.DecrementAll(b1), expired);
    var b2 := EB.RemoveEach(EB.DecrementAll(b1), expired);
    EB.TurnKeepsActive(b1);
    assert b1[Sleep][..|b1[Sleep]| - 1] == b[Sleep];
    assert EB.Active(b1[Sleep]) == EB.Active(b[Sleep]) + [nap];
    assert nap in multiset(b2[Sleep]);
    ZerosComplete(b2[Sleep], nap);
  }

  /** Every expired effect of a list is among those the pass collects. */
  lemma {:induction false} ZerosComplete(s: seq<RogueEffect>, y: RogueEffect)
    requires y in s && y.period == 0
    ensures y in EB.Zeros(s)
  {
    var init := s[..|s| - 1];
    if s[|s| - 1] != y {
      assert s == init + [s[|s| - 1]];
      ZerosComplete(init, y);
    }
  }
}
