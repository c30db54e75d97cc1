/**
 * The shared value types of the game: move patterns, effect kinds, timed
 * effects, events and map coordinates (src/domain/objects/utils.py), plus the
 * decimal rendering of integers that the event texts use.
 */
module RogueTypes {
  import opened Wrappers

  /** A map coordinate, (row, column), as the game stores it. */
  type Crd = (int, int)

  datatype MovePattern = Standard | Diagonal | Jump | ItemPattern
  {
    function Value(): int
    {
      match this
      case Standard => 1
      case Diagonal => 2
      case Jump => 3
      case ItemPattern => 4
    }
  }

  /** The five effect kinds, in the order the game declares (and iterates) them. */
  datatype EffectKind = MaxHealth | Agility | Strength | Sleep | Health
  {
    /** The description shown in events. */
    function Value(): string
    {
      match this
      case MaxHealth => "изменение максимального HP"
      case Agility => "изменение ловкости"
      case Strength => "изменение силы"
      case Sleep => "сон"
      case Health => "изменение HP"
    }

    /** The label shown on potions and scrolls, and the key items are sorted by. */
    function Label(): string
    {
      match this
      case MaxHealth => "здоровья"
      case Agility => "ловкости"
      case Strength => "силы"
      case Sleep => ""
      case Health => ""
    }

    /** The enum member's name, as saved in dumps. */
    function Name(): string
    {
      match this
      case MaxHealth => "MAX_HEALTH"
      case Agility => "AGILITY"
      case Strength => "STRENGTH"
      case Sleep => "SLEEP"
      case Health => "HEALTH"
    }
  }

  /** `1.15 ** n`: the per-level scale of item points and enemy attributes. */
  function Growth(n: nat): (g: real)
    ensures g >= 1.0
  {
    if n == 0 then 1.0 else 1.15 * Growth(n - 1)
  }

  /** Python's `round` on a number: to the nearest integer, ties to the even one. */
  function RoundHalfEven(x: real): (n: int)
    ensures x - 0.5 <= n as real <= x + 0.5
  {
    var f := x.Floor;
    var frac := x - f as real;
    if frac < 0.5 then f
    else if frac > 0.5 then f + 1
    else if f % 2 == 0 then f else f + 1
  }

  const AllEffects: seq<EffectKind> := [MaxHealth, Agility, Strength, Sleep, Health]

  /** `Effects[name]`: the member with that name, or a KeyError. */
  function EffectFromName(name: string): (r: Result<EffectKind>)
    ensures forall k: EffectKind :: k.Name() == name ==> r == Success(k)
    ensures r.Success? ==> r.value.Name() == name
  {
    if name == "MAX_HEALTH" then Success(MaxHealth)
    else if name == "AGILITY" then Success(Agility)
    else if name == "STRENGTH" then Success(Strength)
    else if name == "SLEEP" then Success(Sleep)
    else if name == "HEALTH" then Success(Health)
    else Failure(KeyError(name))
  }

  /** A value `value` of kind `effect` lasting `period` more turns (0: instantaneous). */
  datatype RogueEffect = RogueEffect(effect: EffectKind, value: int, period: int)

  /** A message for the event log, with its display colour (1 unless given). */
  datatype RogueEvent = RogueEvent(info: string, color: int)

  function Event(info: string): RogueEvent
  {
    RogueEvent(info, 1)
  }

  /** The decimal digits of a natural number, as Python's `str` writes them. */
  function NatToString(n: nat): (s: string)
    decreases n
  {
    if n < 10 then [Digit(n)] else NatToString(n / 10) + [Digit(n % 10)]
  }

  /** `str` of a natural number is a non-empty string of decimal digits. */
  lemma {:induction false} NatToStringDigits(n: nat)
    ensures |NatToString(n)| >= 1
    ensures forall i :: 0 <= i < |NatToString(n)| ==> '0' <= NatToString(n)[i] <= '9'
    decreases n
  {
    if n >= 10 {
      NatToStringDigits(n / 10);
    }
  }

  function Digit(d: nat): (c: char)
    requires d < 10
    ensures '0' <= c <= '9' && c as int - '0' as int == d
  {
    ('0' as int + d) as char
  }

  /** The parts of a formatted text, concatenated in order. */
  function Join(parts: seq<string>): string
  {
    if |parts| == 0 then "" else Join(parts[..|parts| - 1]) + parts[|parts| - 1]
  }

  /** Python's `str` of an integer. */
  function IntToString(i: int): string
  {
    if i < 0 then "-" + NatToString(-i) else NatToString(i)
  }

  /** The value a string of decimal digits denotes. */
  function DigitsValue(s: string): int
  {
    if |s| == 0 then 0 else DigitsValue(s[..|s| - 1]) * 10 + (s[|s| - 1] as int - '0' as int)
  }

  /** `str` is injective on naturals: the digits read back as the number. */
  lemma {:induction false} NatToStringValue(n: nat)
    ensures DigitsValue(NatToString(n)) == n
    decreases n
  {
    if n >= 10 {
      var s := NatToString(n / 10) + [Digit(n % 10)];
      assert s[..|s| - 1] == NatToString(n / 10);
      NatToStringValue(n / 10);
    }
  }
}
