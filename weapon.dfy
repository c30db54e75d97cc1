/**
 * Weapons (src/domain/objects/items/weapon.py). A weapon is an object: the
 * one the character holds is the same object as the one in the backpack, and
 * holding or dropping it flips its `held` flag in place.
 */
module WeaponItem {
  import opened Wrappers
  import opened RogueTypes
  import opened JsonValue
  import Ordering

  const Symbol: string := "†"
  const Color := 27

  /** `weapon_types`: the kinds of weapon and the strength each adds. */
  const WeaponTypes: seq<(string, int)> :=
    [("Короткий меч", 3), ("Шипастая палица", 5), ("Булава", 9), ("Алебарда", 15), ("Глефа", 21),
     ("Двуручный меч", 30), ("Молот войны", 50)]

  const HeldSuffix: string := " (в руках)"

  class Weapon {
    const name: string
    const power: int
    var held: bool

    /** A new weapon of the kind drawn at index `kind` of `weapon_types`, not held. */
    constructor Generate(kind: nat)
      requires kind < |WeaponTypes|
      ensures (name, power) == WeaponTypes[kind] && !held
    {
      name, power := WeaponTypes[kind].0, WeaponTypes[kind].1;
      held := false;
    }

    /** A weapon with the loaded fields. */
    constructor Loaded(name: string, power: int, held: bool)
      ensures this.name == name && this.power == power && this.held == held
    {
      this.name, this.power, this.held := name, power, held;
    }

    /** Holding the weapon adds `power` to strength, instantly (period 0). */
    function Effect(): (e: RogueEffect)
      ensures e.effect == Strength && e.value == power && e.period == 0
    {
      RogueEffect(Strength, power, 0)
    }

    function PickUp(): seq<RogueEvent>
    {
      [RogueEvent("Вы нашли оружие " + name, 11)]
    }

    /** `drop`: no longer held; the weapon itself is given back. */
    method Drop() returns (events: seq<RogueEvent>)
      modifies this
      ensures !held
      ensures events == [Event("Вы выбросили оружие " + name)]
    {
      held := false;
      events := [Event("Вы выбросили оружие " + name)];
    }

    /** `use`: now held; yields the strength effect. */
    method Use() returns (events: seq<RogueEvent>, effect: RogueEffect)
      modifies this
      ensures held
      ensures effect == Effect()
      ensures events == [Event("Теперь вы держите оружие " + name)]
    {
      held := true;
      events, effect := [Event("Теперь вы держите оружие " + name)], Effect();
    }

    function Dump(): map<string, Value>
      reads this
    {
      DumpFields(name, power, held)
    }

    /** `__str__`: the name, marked when held. */
    function ToString(): (s: string)
      reads this
      ensures held ==> s == name + HeldSuffix
      ensures !held ==> s == name
    {
      name + (if held then HeldSuffix else "")
    }
  }

  function DumpFields(name: string, power: int, held: bool): map<string, Value>
  {
    map["name" := Str(name), "power" := Int(power), "held" := Bool(held)]
  }

  /** The fields `_load(**d)` assigns: exactly name, power and held. */
  function ParseWeapon(d: map<string, Value>): (r: Result<(string, int, bool)>)
    ensures r.Success? ==> d.Keys == {"name", "power", "held"} && DumpFields(r.value.0, r.value.1, r.value.2) == d
  {
    if !KwargsMatch(d, {"name", "power", "held"}) then Failure(TypeError("_load() arguments"))
    else
      var name :- GetStr(d, "name");
      var power :- GetInt(d, "power");
      var held :- GetBool(d, "held");
      Success((name, power, held))
  }

  /** `_load(**d)` on a new weapon. */
  method Load(d: map<string, Value>) returns (r: Result<Weapon>)
    ensures r.Success? <==> ParseWeapon(d).Success?
    ensures r.Success? ==> fresh(r.value) && ParseWeapon(d).value == (r.value.name, r.value.power, r.value.held)
  {
    var fields :- ParseWeapon(d);
    var w := new Weapon.Loaded(fields.0, fields.1, fields.2);
    return Success(w);
  }

  /** Reloading a dump restores name, power and held, and so the same effect. */
  lemma DumpLoadRoundTrip(name: string, power: int, held: bool)
    ensures ParseWeapon(DumpFields(name, power, held)) == Success((name, power, held))
  {
  }

  /** `__lt__`: by power. */
  predicate Less(a: Weapon, b: Weapon)
  {
    a.power < b.power
  }

  lemma LessIsStrictOrder(s: seq<Weapon>)
    ensures Ordering.StrictOrderOn(s, Less)
  {
  }
}
