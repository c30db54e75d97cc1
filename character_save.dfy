/**
 * The character's save record (`Character._dump` and `_load` in
 * src/domain/objects/character.py), as values: the ordered entries the dump
 * writes, and what loading an ordered list of entries makes of a record.
 * The character class applies the same entries to its own fields.
 */
module CharacterSave {
  import opened Wrappers
  import opened RogueTypes
  import opened JsonValue
  import FoodItem
  import PotionItem
  import ScrollItem
  import WeaponItem
  import EB = EffectBag

  /** An item as saved: its class and the fields its `_load` restores. */
  datatype ItemSpec =
    | FoodSpec(food: FoodItem.Food)
    | PotionSpec(potion: PotionItem.Potion)
    | ScrollSpec(scroll: ScrollItem.Scroll)
    | WeaponSpec(name: string, power: int, held: bool)

  /** The ten saved fields, strength without the held weapon's bonus. */
  datatype Saved = Saved(
    level: int, strength: int, agility: int, maxHp: int, hp: int, exp: int, maxExp: int, gold: int,
    effects: seq<RogueEffect>, items: seq<ItemSpec>)

  /** The keys `_load` knows, in the order `_dump` writes them. */
  const SaveKeys: seq<string> := ["level", "strength", "agility", "max_hp", "hp", "exp", "max_exp", "gold", "effects", "items"]

  /** `item.__class__.__name__`, as the `ITEMS_MAPPING` keys spell it. */
  function ClassName(spec: ItemSpec): string
  {
    match spec
    case FoodSpec(_) => "Food"
    case PotionSpec(_) => "Potion"
    case ScrollSpec(_) => "Scroll"
    case WeaponSpec(_, _, _) => "Weapon"
  }

  function ItemDump(spec: ItemSpec): map<string, Value>
  {
    match spec
    case FoodSpec(f) => FoodItem.Dump(f)
    case PotionSpec(p) => PotionItem.Dump(p)
    case ScrollSpec(s) => ScrollItem.Dump(s)
    case WeaponSpec(name, power, held) => WeaponItem.DumpFields(name, power, held)
  }

  /** One element of the dump's "items" list. */
  function ItemRecord(spec: ItemSpec): Value
  {
    Dict(map["cls" := Str(ClassName(spec)), "dump" := Dict(ItemDump(spec))])
  }

  /**
   * One element of a loaded "items" list: the class is looked up in
   * `ITEMS_MAPPING` (an unknown name is a KeyError), gold has no `_load`
   * (an AttributeError, raised before "dump" is read), and the class's
   * `_load(**dump)` reads the fields.
   */
  function ParseItem(v: Value): (r: Result<ItemSpec>)
    ensures r.Success? ==>
      && v.Dict? && "cls" in v.fields && "dump" in v.fields
      && v.fields["cls"] == Str(ClassName(r.value)) && v.fields["dump"] == Dict(ItemDump(r.value))
  {
    if !v.Dict? then Failure(TypeError("item record is not a dict"))
    else
      var d := v.fields;
      var cls :- GetStr(d, "cls");
      if cls !in {"Gold", "Food", "Weapon", "Scroll", "Potion"} then Failure(KeyError(cls))
      else if cls == "Gold" then Failure(AttributeError("'Gold' object has no attribute '_load'"))
      else if "dump" !in d then Failure(KeyError("dump"))
      else if !d["dump"].Dict? then Failure(TypeError("argument after ** must be a mapping"))
      else
        var dump := d["dump"].fields;
        if cls == "Food" then
          var f :- FoodItem.Load(dump);
          Success(FoodSpec(f))
        else if cls == "Potion" then
          var p :- PotionItem.Load(dump);
          Success(PotionSpec(p))
        else if cls == "Scroll" then
          var s :- ScrollItem.Load(dump);
          Success(ScrollSpec(s))
        else
          var w :- WeaponItem.ParseWeapon(dump);
          Success(WeaponSpec(w.0, w.1, w.2))
  }

  lemma ParseItemRecord(spec: ItemSpec)
    ensures ParseItem(ItemRecord(spec)) == Success(spec)
  {
    match spec
    case FoodSpec(f) => FoodItem.DumpLoadRoundTrip(f);
    case PotionSpec(p) => PotionItem.DumpLoadRoundTrip(p);
    case ScrollSpec(s) => ScrollItem.DumpLoadRoundTrip(s);
    case WeaponSpec(name, power, held) => WeaponItem.DumpLoadRoundTrip(name, power, held);
  }

  /** One element of the dump's "effects" list. */
  function EffectRecord(e: RogueEffect): Value
  {
    Dict(map["effect" := Str(e.effect.Name()), "value" := Int(e.value), "period" := Int(e.period)])
  }

  /** `RogueEffect(Effects[eff["effect"]], eff["value"], eff["period"])`; other keys are ignored. */
  function ParseEffect(v: Value): (r: Result<RogueEffect>)
    ensures r.Success? ==>
      && v.Dict? && "effect" in v.fields && v.fields["effect"] == Str(r.value.effect.Name())
      && "value" in v.fields && v.fields["value"] == Int(r.value.value)
      && "period" in v.fields && v.fields["period"] == Int(r.value.period)
  {
    if !v.Dict? then Failure(TypeError("effect record is not a dict"))
    else
      var name :- GetStr(v.fields, "effect");
      var kind :- EffectFromName(name);
      var value :- GetInt(v.fields, "value");
      var period :- GetInt(v.fields, "period");
      Success(RogueEffect(kind, value, period))
  }

  lemma ParseEffectRecord(e: RogueEffect)
    ensures ParseEffect(EffectRecord(e)) == Success(e)
  {
    PotionItem.EffectNames(e.effect);
  }

  function EffectRecords(es: seq<RogueEffect>): (r: seq<Value>)
    ensures |r| == |es| && forall i :: 0 <= i < |es| ==> r[i] == EffectRecord(es[i])
  {
    seq(|es|, i requires 0 <= i < |es| => EffectRecord(es[i]))
  }

  function ItemRecords(specs: seq<ItemSpec>): (r: seq<Value>)
    ensures |r| == |specs| && forall i :: 0 <= i < |specs| ==> r[i] == ItemRecord(specs[i])
  {
    seq(|specs|, i requires 0 <= i < |specs| => ItemRecord(specs[i]))
  }

  /** The effects of a list, in order, or the error of the first that cannot be read. */
  function ParseEffects(vs: seq<Value>): (r: Result<seq<RogueEffect>>)
    ensures r.Success? ==> |r.value| == |vs|
  {
    if |vs| == 0 then Success([])
    else
      var init :- ParseEffects(vs[..|vs| - 1]);
      var e :- ParseEffect(vs[|vs| - 1]);
      Success(init + [e])
  }

  function ParseItems(vs: seq<Value>): (r: Result<seq<ItemSpec>>)
    ensures r.Success? ==> |r.value| == |vs|
  {
    if |vs| == 0 then Success([])
    else
      var init :- ParseItems(vs[..|vs| - 1]);
      var spec :- ParseItem(vs[|vs| - 1]);
      Success(init + [spec])
  }

  lemma {:induction false} ParseEffectRecords(es: seq<RogueEffect>)
    ensures ParseEffects(EffectRecords(es)) == Success(es)
  {
    if |es| > 0 {
      var n := |es| - 1;
      assert EffectRecords(es)[..n] == EffectRecords(es[..n]);
      ParseEffectRecords(es[..n]);
      ParseEffectRecord(es[n]);
      assert es == es[..n] + [es[n]];
    }
  }

  lemma {:induction false} ParseItemRecords(specs: seq<ItemSpec>)
    ensures ParseItems(ItemRecords(specs)) == Success(specs)
  {
    if |specs| > 0 {
      var n := |specs| - 1;
      var vs := ItemRecords(specs);
      assert vs[..n] == ItemRecords(specs[..n]);
      ParseItemRecords(specs[..n]);
      ParseItemRecord(specs[n]);
      ParseItemsSnoc(vs, specs[..n], specs[n]);
      assert specs == specs[..n] + [specs[n]];
    }
  }

  lemma ParseItemsSnoc(vs: seq<Value>, init: seq<ItemSpec>, spec: ItemSpec)
    requires |vs| > 0 && ParseItems(vs[..|vs| - 1]) == Success(init) && ParseItem(vs[|vs| - 1]) == Success(spec)
    ensures ParseItems(vs) == Success(init + [spec])
  {
  }

  /** `_dump()`: the entries in the order the dictionary lists them. */
  function Entries(s: Saved): seq<(string, Value)>
  {
    [("level", Int(s.level)), ("strength", Int(s.strength)), ("agility", Int(s.agility)),
     ("max_hp", Int(s.maxHp)), ("hp", Int(s.hp)), ("exp", Int(s.exp)), ("max_exp", Int(s.maxExp)),
     ("gold", Int(s.gold)), ("effects", List(EffectRecords(s.effects))), ("items", List(ItemRecords(s.items)))]
  }

  /** The integer an attribute entry holds; the game only ever saves integers there. */
  function IntValue(v: Value): (r: Result<int>)
    ensures r.Success? <==> v.Int?
  {
    if v.Int? then Success(v.i) else Failure(TypeError("not an integer"))
  }

  function RecordList(v: Value): (r: Result<seq<Value>>)
    ensures r.Success? <==> v.List?
  {
    if v.List? then Success(v.items) else Failure(TypeError("not a list"))
  }

  /**
   * One entry of `_load`: an attribute is replaced, effects and items are
   * appended to those already there, and an unknown key is a ValueError.
   */
  function Step(s: Saved, key: string, v: Value): (r: Result<Saved>)
    ensures key !in SaveKeys ==> r.Failure? && r.error.ValueError?
    ensures r.Success? ==> key in SaveKeys
  {
    var e :- ParseEntry(key, v);
    Success(Apply(s, e))
  }

  /** `_load(**kwargs)` over the entries in order; the first entry that fails stops it. */
  function Load(s: Saved, entries: seq<(string, Value)>): (r: Result<Saved>)
    ensures r.Success? ==> forall i :: 0 <= i < |entries| ==> entries[i].0 in SaveKeys
  {
    if |entries| == 0 then Success(s)
    else
      var s' :- Load(s, entries[..|entries| - 1]);
      var (key, v) := entries[|entries| - 1];
      Step(s', key, v)
  }

  /**
   * Loading a dump on top of a record replaces every attribute by the dumped
   * one and appends the dumped effects and items to those of the record.
   */
  lemma DumpLoadRoundTrip(base: Saved, s: Saved)
    ensures Load(base, Entries(s)) == Success(s.(effects := base.effects + s.effects, items := base.items + s.items))
  {
    var e := Entries(s);
    AttributesPrefix(base, s);
    var b := base.(level := s.level, strength := s.strength, agility := s.agility, maxHp := s.maxHp,
                   hp := s.hp, exp := s.exp, maxExp := s.maxExp, gold := s.gold);
    ParseEffectRecords(s.effects);
    var b9 := b.(effects := base.effects + s.effects);
    assert Step(b, "effects", List(EffectRecords(s.effects))) == Success(b9);
    LoadNext(base, e, 8, b, b9);
    ParseItemRecords(s.items);
    assert Step(b9, "items", List(ItemRecords(s.items))) == Success(b9.(items := base.items + s.items));
    LoadNext(base, e, 9, b9, b9.(items := base.items + s.items));
    assert e[..10] == e;
  }

  /** The eight attribute entries of a dump replace the eight attributes. */
  lemma AttributesPrefix(base: Saved, s: Saved)
    ensures Load(base, Entries(s)[..8]) == Success(base.(level := s.level, strength := s.strength,
      agility := s.agility, maxHp := s.maxHp, hp := s.hp, exp := s.exp, maxExp := s.maxExp, gold := s.gold))
  {
    assert Entries(s)[..0] == [];
    var b := base;
    for k := 0 to 8
      invariant Load(base, Entries(s)[..k]) == Success(b)
      invariant b == base.(level := if k > 0 then s.level else base.level,
                           strength := if k > 1 then s.strength else base.strength,
                           agility := if k > 2 then s.agility else base.agility,
                           maxHp := if k > 3 then s.maxHp else base.maxHp,
                           hp := if k > 4 then s.hp else base.hp,
                           exp := if k > 5 then s.exp else base.exp,
                           maxExp := if k > 6 then s.maxExp else base.maxExp,
                           gold := if k > 7 then s.gold else base.gold)
    {
      LoadAttribute(base, s, k, b);
      b := WithAttribute(b, s, k);
    }
  }

  /** The record after the attribute entry `k` of the dump of `s`. */
  function WithAttribute(b: Saved, s: Saved, k: nat): Saved
    requires k < 8
  {
    if k == 0 then b.(level := s.level)
    else if k == 1 then b.(strength := s.strength)
    else if k == 2 then b.(agility := s.agility)
    else if k == 3 then b.(maxHp := s.maxHp)
    else if k == 4 then b.(hp := s.hp)
    else if k == 5 then b.(exp := s.exp)
    else if k == 6 then b.(maxExp := s.maxExp)
    else b.(gold := s.gold)
  }

  lemma LoadAttribute(base: Saved, s: Saved, k: nat, b: Saved)
    requires k < 8 && Load(base, Entries(s)[..k]) == Success(b)
    ensures Load(base, Entries(s)[..k + 1]) == Success(WithAttribute(b, s, k))
  {
    var e := Entries(s);
    if k == 0 {
      assert e[k] == ("level", Int(s.level));
      StepAttribute(b, "level", Int(s.level));
    } else if k == 1 {
      assert e[k] == ("strength", Int(s.strength));
      StepAttribute(b, "strength", Int(s.strength));
    } else if k == 2 {
      assert e[k] == ("agility", Int(s.agility));
      StepAttribute(b, "agility", Int(s.agility));
    } else if k == 3 {
      assert e[k] == ("max_hp", Int(s.maxHp));
      StepAttribute(b, "max_hp", Int(s.maxHp));
    } else if k == 4 {
      assert e[k] == ("hp", Int(s.hp));
      StepAttribute(b, "hp", Int(s.hp));
    } else if k == 5 {
      assert e[k] == ("exp", Int(s.exp));
      StepAttribute(b, "exp", Int(s.exp));
    } else if k == 6 {
      assert e[k] == ("max_exp", Int(s.maxExp));
      StepAttribute(b, "max_exp", Int(s.maxExp));
    } else {
      assert e[k] == ("gold", Int(s.gold));
      StepAttribute(b, "gold", Int(s.gold));
    }
    LoadNext(base, e, k, b, WithAttribute(b, s, k));
  }

  lemma LoadNext(base: Saved, e: seq<(string, Value)>, k: nat, b: Saved, b': Saved)
    requires k < |e| && Load(base, e[..k]) == Success(b) && Step(b, e[k].0, e[k].1) == Success(b')
    ensures Load(base, e[..k + 1]) == Success(b')
  {
    assert e[..k + 1][..k] == e[..k];
  }

  /** The eight keys whose entries replace one attribute. */
  predicate IsAttribute(key: string)
  {
    key == "level" || key == "strength" || key == "agility" || key == "max_hp"
    || key == "hp" || key == "exp" || key == "max_exp" || key == "gold"
  }

  /** The record with the attribute named `key` replaced by `n`. */
  function SetAttribute(s: Saved, key: string, n: int): (r: Saved)
    requires IsAttribute(key)
    ensures r.effects == s.effects && r.items == s.items
  {
    if key == "level" then s.(level := n)
    else if key == "strength" then s.(strength := n)
    else if key == "agility" then s.(agility := n)
    else if key == "max_hp" then s.(maxHp := n)
    else if key == "hp" then s.(hp := n)
    else if key == "exp" then s.(exp := n)
    else if key == "max_exp" then s.(maxExp := n)
    else s.(gold := n)
  }

  /** An attribute entry holding an integer replaces that attribute; any other value is a TypeError. */
  lemma StepAttribute(s: Saved, key: string, v: Value)
    requires IsAttribute(key)
    ensures Step(s, key, v) == if v.Int? then Success(SetAttribute(s, key, v.i)) else Failure(IntValue(v).error)
  {
  }

  /** What one entry of `_load` reads as, before it is applied. */
  datatype Entry =
    | AttributeEntry(key: string, n: int)
    | EffectsEntry(es: seq<RogueEffect>)
    | ItemsEntry(specs: seq<ItemSpec>)

  /** Reading an entry: the checks of `Step`, in the same order, without the record. */
  function ParseEntry(key: string, v: Value): (r: Result<Entry>)
    ensures r.Success? && r.value.AttributeEntry? ==> IsAttribute(r.value.key) && r.value.key == key
    ensures r.Success? && r.value.EffectsEntry? ==> key == "effects"
    ensures r.Success? && r.value.ItemsEntry? ==> key == "items"
  {
    if IsAttribute(key) then var n :- IntValue(v); Success(AttributeEntry(key, n))
    else if key == "effects" then
      var vs :- RecordList(v);
      var es :- ParseEffects(vs);
      Success(EffectsEntry(es))
    else if key == "items" then
      var vs :- RecordList(v);
      var specs :- ParseItems(vs);
      Success(ItemsEntry(specs))
    else Failure(ValueError("Unknown load option " + key))
  }

  /** Applying an entry that has been read. */
  function Apply(s: Saved, e: Entry): Saved
    requires e.AttributeEntry? ==> IsAttribute(e.key)
  {
    match e
    case AttributeEntry(key, n) => SetAttribute(s, key, n)
    case EffectsEntry(es) => s.(effects := s.effects + es)
    case ItemsEntry(specs) => s.(items := s.items + specs)
  }

  /** Loading one more entry reads it and, when it reads, applies it to the record loaded so far. */
  lemma LoadAt(base: Saved, e: seq<(string, Value)>, k: nat, b: Saved)
    requires k < |e| && Load(base, e[..k]) == Success(b)
    ensures var p := ParseEntry(e[k].0, e[k].1);
      Load(base, e[..k + 1]) == if p.Success? then Success(Apply(b, p.value)) else Failure(p.error)
  {
    assert e[..k + 1][..k] == e[..k];
  }

  /** The first entry that fails decides the error: the entries after it are never read. */
  lemma {:induction false} LoadStops(base: Saved, e: seq<(string, Value)>, k: nat)
    requires k <= |e| && Load(base, e[..k]).Failure?
    ensures Load(base, e) == Load(base, e[..k])
    decreases |e| - k
  {
    if k < |e| {
      assert e[..k + 1][..k] == e[..k];
      LoadStops(base, e, k + 1);
    } else {
      assert e[..k] == e;
    }
  }

  /** A dump loaded into a record with no effects and no items gives the dumped record back. */
  lemma DumpLoadIdentity(base: Saved, s: Saved)
    requires base.effects == [] && base.items == []
    ensures Load(base, Entries(s)) == Success(s)
  {
    DumpLoadRoundTrip(base, s);
    assert base.effects + s.effects == s.effects && base.items + s.items == s.items;
    assert s.(effects := base.effects + s.effects, items := base.items + s.items) == s;
  }

  /** The effects of every list of the bag, in the order of the effect kinds: the dump's "effects". */
  function InKindOrder(b: EB.Bag, j: nat): seq<RogueEffect>
    requires EB.WellKeyed(b) && j <= |AllEffects|
  {
    if j == 0 then [] else InKindOrder(b, j - 1) + b[AllEffects[j - 1]]
  }

  /** Appending the dumped effects to empty lists, each to its kind's list, rebuilds every list. */
  lemma {:induction false} InKindOrderOfKind(b: EB.Bag, j: nat, k: EffectKind)
    requires EB.WellKeyed(b) && j <= |AllEffects|
    ensures EB.OfKind(InKindOrder(b, j), k) == if EB.KindIndex(k) < j then b[k] else []
  {
    if j > 0 {
      InKindOrderOfKind(b, j - 1, k);
      var u := AllEffects[j - 1];
      EB.KindIndexOf(j - 1);
      EB.OfKindUniform(b[u], u, k);
      EB.OfKindAppend(InKindOrder(b, j - 1), b[u], k);
      if u == k {
        assert EB.KindIndex(k) == j - 1;
      }
    }
  }
}
