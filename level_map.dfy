/**
 * The level map (src/domain/map/level_map.py): nine rooms on a 3×3 grid,
 * the corridors between them, and the character. Rooms and corridors are
 * both "places": in the source a loop over `rooms + corridors` asks each
 * in turn; here place `p` is room `p` when `p < |rooms|` and corridor
 * `p - |rooms|` otherwise, so "the first place that ..." is the least such
 * index. The map is one object whose methods update the places, the
 * doors, the enemies and the character in place.
 */
module LevelMaps {
  import opened Wrappers
  import opened RogueTypes
  import opened Items
  import opened Corridors
  import opened Rooms
  import Ch = Character
  import Lists
  import Enemies
  import EB = EffectBag
  import IL = ItemList
  import BP = Backpack
  import GoldItem
  import Stats
  import Sight
  import Moves
  import Chase
  import Spiral

  const ExitFound := Event("Вы нашли выход")
  const DoorOpened := Event("Вы открыли дверь с помощью ключа")
  const DoorLocked := Event("Дверь заперта. Найдите подходящий ключ")

  /** The event of picking up a key: its description, in the key's colour. */
  function KeyFound(k: Key): RogueEvent
  {
    RogueEvent("Вы нашли " + k.info + " ключ", k.color)
  }

  /** The whole state of one place. */
  datatype Site = RoomSite(room: Contents) | CorridorSite(corridor: Span)
  {
    function Objects(): map<Crd, Occupant>
    {
      match this
      case RoomSite(c) => c.objects
      case CorridorSite(c) => c.objects
    }

    function Items(): map<Crd, Item>
    {
      match this
      case RoomSite(c) => c.items
      case CorridorSite(c) => c.items
    }

    predicate HasCharacter()
    {
      match this
      case RoomSite(c) => c.hasCharacter
      case CorridorSite(c) => c.hasCharacter
    }

    function WithObjects(m: map<Crd, Occupant>): (s: Site)
      ensures s.Objects() == m && s.Items() == Items() && s.HasCharacter() == HasCharacter()
    {
      match this
      case RoomSite(c) => RoomSite(c.(objects := m))
      case CorridorSite(c) => CorridorSite(c.(objects := m))
    }

    function WithItems(m: map<Crd, Item>): (s: Site)
      ensures s.Items() == m && s.Objects() == Objects() && s.HasCharacter() == HasCharacter()
    {
      match this
      case RoomSite(c) => RoomSite(c.(items := m))
      case CorridorSite(c) => CorridorSite(c.(items := m))
    }

    function WithCharacter(b: bool): (s: Site)
      ensures s.Objects() == Objects() && s.Items() == Items() && s.HasCharacter() == b
    {
      match this
      case RoomSite(c) => RoomSite(c.(hasCharacter := b))
      case CorridorSite(c) => CorridorSite(c.(hasCharacter := b))
    }
  }

  /**
   * The character is in place `home` of `sites`, on cell `at`: that place
   * alone has the character flag, and the character is an object of that
   * place on that cell and nowhere else on the map.
   */
  ghost predicate Placed(sites: seq<Site>, home: nat, at: Crd)
  {
    && home < |sites|
    && (forall q :: 0 <= q < |sites| ==> (sites[q].HasCharacter() <==> q == home))
    && at in sites[home].Objects() && sites[home].Objects()[at] == Hero
    && (forall q, c :: 0 <= q < |sites| && c in sites[q].Objects() && sites[q].Objects()[c] == Hero ==> q == home && c == at)
  }

  /**
   * The end of `__move_actor` on `crd` of place `p`, for a character that
   * stood in place `home`: it leaves its old cell, stands on the new one,
   * and one more cell counts as passed.
   */
  function Entered(w: World, home: nat, p: nat, crd: Crd): World
    requires home < |w.sites| && p < |w.sites|
  {
    w.(sites := Arrived(Left(w.sites, home, w.hero.rest.crd), p, crd),
       hero := w.hero.(rest := w.hero.rest.(crd := crd)),
       record := w.record.(passedCells := w.record.passedCells + 1))
  }

  /** Taking anything but the character off a cell leaves the character placed. */
  lemma RemoveFoeKeepsPlaced(sites: seq<Site>, home: nat, at: Crd, p: nat, crd: Crd)
    requires Placed(sites, home, at) && p < |sites| && crd != at
    ensures Placed(sites[p := sites[p].WithObjects(sites[p].Objects() - {crd})], home, at)
  {
  }

  /** Placing depends only on the objects and the character flags. */
  lemma PlacedByObjects(sites: seq<Site>, other: seq<Site>, home: nat, at: Crd)
    requires Placed(sites, home, at) && |other| == |sites|
    requires SameActors(other, sites)
    ensures Placed(other, home, at)
  {
  }

  /** The events of `pick_up_item` for `item`, which was taken or for which the backpack had no room. */
  function PickUpMessages(item: Item, taken: bool): seq<RogueEvent>
  {
    if item.Gold? then GoldItem.PickUp(item.gold).0
    else if taken then PickUpEvents(item)
    else [Event(BP.FullMessage(TypeOf(item)))]
  }

  /** `__remove_character` on place `f`: the flag is cleared and the object on the character's cell goes. */
  function Left(sites: seq<Site>, f: nat, from: Crd): (r: seq<Site>)
    requires f < |sites|
    ensures |r| == |sites|
  {
    sites[f := sites[f].WithCharacter(false).WithObjects(sites[f].Objects() - {from})]
  }

  /** The character arrives on cell `to` of place `p`: the flag is set and the character is its object there. */
  function Arrived(sites: seq<Site>, p: nat, to: Crd): (r: seq<Site>)
    requires p < |sites|
    ensures |r| == |sites|
  {
    sites[p := sites[p].WithCharacter(true).WithObjects(sites[p].Objects()[to := Hero])]
  }

  /** Leaving one place and arriving anywhere keeps the character placed, now at the new cell. */
  lemma MoveKeepsPlaced(sites: seq<Site>, home: nat, from: Crd, p: nat, to: Crd)
    requires Placed(sites, home, from) && p < |sites|
    ensures Placed(Arrived(Left(sites, home, from), p, to), p, to)
  {
  }

  /** The gold of `__convert_exp_to_gold`: `randint(value // 2, value * 2)`, the raw draw taken into that range. */
  function GoldDraw(value: int, raw: nat): (g: int)
    requires value >= 0
    ensures value / 2 <= g <= value * 2
  {
    value / 2 + raw % (value * 2 - value / 2 + 1)
  }

  /** The first `n` level-up draws. */
  function Draws(ups: nat -> Ch.Ups, n: nat): (d: seq<Ch.Ups>)
    ensures |d| == n && forall i :: 0 <= i < n ==> d[i] == ups(i)
  {
    seq(n, i requires 0 <= i => ups(i))
  }

  /**
   * The rest of `__attack_enemy` once the enemy is dead: `add_experience`
   * of the character `c`, and one more defeated enemy in the statistics.
   */
  method Reward(c: Ch.Character, exp: int, goldRaw: nat, ups: seq<Ch.Ups>) returns (events: seq<RogueEvent>)
    requires c.Valid() && c.maxExp >= 1 && exp >= 0
    requires |ups| >= Ch.Climb(c.exp + exp, c.maxExp)
    requires forall i :: 0 <= i < |ups| ==> Ch.UpsInRange(ups[i])
    modifies c, c.stats
    ensures c.Valid() && c.maxExp >= 1
    ensures c.Progress() == Ch.Raised(old(c.Progress()).(exp := old(c.exp) + exp), ups)
    ensures c.Holdings() == old(c.Holdings()).(gold := old(c.gold) + GoldDraw(exp, goldRaw))
    ensures c.stats.Record() == old(c.stats.Record()).(gold := old(c.stats.gold) + GoldDraw(exp, goldRaw),
                                                       defeatedEnemies := old(c.stats.defeatedEnemies) + 1)
  {
    events := c.AddExperience(exp, GoldDraw(exp, goldRaw), ups);
    c.stats.defeatedEnemies := c.stats.defeatedEnemies + 1;
  }

  /**
   * What a fight can change on the character's side: every field of the
   * character, and the gold and defeated-enemy counts of its statistics.
   */
  datatype Ledger = Ledger(progress: Ch.Advancement, holdings: Ch.Holding, gold: int, defeated: int)

  ghost function LedgerOf(c: Ch.Character): Ledger
    reads c, c.stats
  {
    Ledger(c.Progress(), c.Holdings(), c.stats.gold, c.stats.defeatedEnemies)
  }

  /**
   * The reward for a killed enemy worth `exp`: the experience, the gold
   * drawn for it on the character and in the statistics, the level-up loop
   * on the first draws, and one more defeated enemy.
   */
  function Award(l: Ledger, exp: int, goldRaw: nat, ups: nat -> Ch.Ups): (a: Ledger)
    requires l.progress.maxExp >= 1 && exp >= 0
    ensures a.gold - l.gold == a.holdings.gold - l.holdings.gold && exp / 2 <= a.gold - l.gold <= exp * 2
    ensures a.defeated == l.defeated + 1
    ensures a.holdings == l.holdings.(gold := a.holdings.gold)
    ensures a.progress.exp < a.progress.maxExp && a.progress.maxExp >= l.progress.maxExp
    ensures a.progress.level == l.progress.level + Ch.Climb(l.progress.exp + exp, l.progress.maxExp)
  {
    var g := GoldDraw(exp, goldRaw);
    var p := l.progress.(exp := l.progress.exp + exp);
    Ledger(Ch.Raised(p, Draws(ups, Ch.Climb(p.exp, p.maxExp))), l.holdings.(gold := l.holdings.gold + g), l.gold + g, l.defeated + 1)
  }

  /**
   * What `__attack_enemy` does with the experience `exp` of a killed enemy
   * once it is off the map: the gold is drawn from `randint(exp // 2,
   * exp * 2)`, which fails on a negative count before anything is awarded,
   * and otherwise the character is rewarded with the first level-up draws.
   */
  method Settle(c: Ch.Character, exp: int, goldRaw: nat, ups: nat -> Ch.Ups) returns (r: Result<seq<RogueEvent>>)
    requires c.Valid() && c.maxExp >= 1 && exp != 0
    requires forall i: nat :: Ch.UpsInRange(ups(i))
    modifies c, c.stats
    ensures c.Valid() && c.maxExp >= 1
    ensures r.Failure? <==> exp < 0
    ensures r.Failure? ==> r.error == EmptyRange(exp / 2, exp * 2) && LedgerOf(c) == old(LedgerOf(c))
    ensures exp > 0 ==> LedgerOf(c) == Award(old(LedgerOf(c)), exp, goldRaw, ups)
  {
    if exp < 0 {
      return Failure(EmptyRange(exp / 2, exp * 2));
    }
    var gained := Reward(c, exp, goldRaw, Draws(ups, Ch.Climb(c.exp + exp, c.maxExp)));
    r := Success(gained);
  }

  /**
   * Everything a step of the character can change but the doors: the
   * places, the character's fields, its statistics and its backpack.
   */
  datatype World = World(sites: seq<Site>, hero: Ch.Snapshot, record: Stats.StatsRecord, shelves: IL.Shelves)

  /**
   * `__pick_up_item` on `crd` of place `p`: gold goes to the character and
   * its statistics; any other item goes into its compartment when that has
   * room; a taken item leaves the place, and a refused one changes nothing.
   */
  function PickedUp(w: World, p: nat, crd: Crd): (v: World)
    requires p < |w.sites| && crd in w.sites[p].Items()
    ensures |v.sites| == |w.sites| && v.hero.rest.crd == w.hero.rest.crd
  {
    var item := w.sites[p].Items()[crd];
    var gone := w.sites[p := w.sites[p].WithItems(w.sites[p].Items() - {crd})];
    if item.Gold? then
      w.(sites := gone, hero := w.hero.(rest := w.hero.rest.(gold := w.hero.rest.gold + item.gold.amount)),
         record := w.record.(gold := w.record.gold + item.gold.amount))
    else if IL.LengthOf(w.shelves, TypeOf(item)) < IL.MaxItemsPerType then
      w.(sites := gone, shelves := IL.Inserted(w.shelves, item))
    else w
  }

  /** Whether `pick_up_item` takes the item: gold always, anything else while its compartment has room. */
  predicate HasRoomFor(w: World, item: Item)
  {
    item.Gold? || IL.LengthOf(w.shelves, TypeOf(item)) < IL.MaxItemsPerType
  }

  /** `get_key` of the room at place `p`: the key on `crd` leaves it and its colour, less 3, joins the character's keys. */
  function KeyTaken(w: World, p: nat, crd: Crd): (v: World)
    requires p < |w.sites| && w.sites[p].RoomSite?
    ensures |v.sites| == |w.sites| && v.hero.rest.crd == w.hero.rest.crd
  {
    var c := w.sites[p].room;
    if crd !in c.keys then w
    else w.(sites := w.sites[p := RoomSite(c.(keys := c.keys - {crd}))],
            hero := w.hero.(rest := w.hero.rest.(keys := w.hero.rest.keys + [c.keys[crd].color - 3])))
  }

  /** The item on `crd` of place `p`, then in a room the key there. */
  function Gathered(w: World, p: nat, crd: Crd): (v: World)
    requires p < |w.sites|
    ensures |v.sites| == |w.sites| && v.hero.rest.crd == w.hero.rest.crd
  {
    var afterItem := if crd in w.sites[p].Items() then PickedUp(w, p, crd) else w;
    if afterItem.sites[p].RoomSite? then KeyTaken(afterItem, p, crd) else afterItem
  }

  /**
   * The events of stepping onto `crd` of place `p`: the exit of a room,
   * then the item there (see `PickUpMessages`), then the key of a room.
   */
  function Found(w: World, p: nat, crd: Crd): (events: seq<RogueEvent>)
    requires p < |w.sites|
  {
    var s := w.sites[p];
    (if s.RoomSite? && crd in s.room.exits then [ExitFound] else [])
    + (if crd in s.Items() then PickUpMessages(s.Items()[crd], HasRoomFor(w, s.Items()[crd])) else [])
    + (if s.RoomSite? && crd in s.room.keys then [KeyFound(s.room.keys[crd])] else [])
  }

  /** The world after the character's effect check: only the character changes, as `Ch.Refreshed` says. */
  function Rested(w: World): (v: World)
    requires EB.WellKeyed(w.hero.effects)
    ensures v.sites == w.sites && v.record == w.record && v.shelves == w.shelves && v.hero == Ch.Refreshed(w.hero)
  {
    w.(hero := Ch.Refreshed(w.hero))
  }

  /** The ledger of a character state and its statistics, as `LedgerOf` reads them off the objects. */
  function LedgerFrom(s: Ch.Snapshot, rec: Stats.StatsRecord): Ledger
  {
    Ledger(Ch.Advancement(s.rest.level, s.rest.exp, s.rest.maxExp, s.attrs.hp, s.attrs.maxHp,
                          s.rest.baseStrength, s.attrs.strength, s.rest.baseAgility, s.attrs.agility),
           Ch.Holding(s.effects, s.weaponSlot, s.color, s.rest.gold, s.rest.keys, s.rest.crd),
           rec.gold, rec.defeatedEnemies)
  }

  /**
   * The place and cell a move aims at, with the enemy standing there
   * and the locked door in front of it (or null), and that door's colour
   * and lock.
   */
  datatype Aimed = Aimed(place: nat, crd: Crd, foe: Enemies.Enemy?, door: Door?, color: int, lock: bool)

  /** The objects and the character flag of every place. */
  predicate SameActors(a: seq<Site>, b: seq<Site>)
  {
    |a| == |b| && forall q :: 0 <= q < |a| ==> a[q].Objects() == b[q].Objects() && a[q].HasCharacter() == b[q].HasCharacter()
  }

  lemma PickedUpKeepsActors(w: World, p: nat, crd: Crd)
    requires p < |w.sites| && crd in w.sites[p].Items()
    ensures SameActors(PickedUp(w, p, crd).sites, w.sites)
  {
  }

  lemma KeyTakenKeepsActors(w: World, p: nat, crd: Crd)
    requires p < |w.sites| && w.sites[p].RoomSite?
    ensures SameActors(KeyTaken(w, p, crd).sites, w.sites)
  {
  }

  /** Gathering moves no actor: every object and every character flag stays where it was. */
  lemma GatheredKeepsObjects(w: World, p: nat, crd: Crd)
    requires p < |w.sites|
    ensures SameActors(Gathered(w, p, crd).sites, w.sites)
  {
    var v := if crd in w.sites[p].Items() then PickedUp(w, p, crd) else w;
    if crd in w.sites[p].Items() {
      PickedUpKeepsActors(w, p, crd);
    }
    if v.sites[p].RoomSite? {
      KeyTakenKeepsActors(v, p, crd);
    }
  }

  /** So the character stays placed. */
  lemma GatheredKeepsPlaced(w: World, p: nat, crd: Crd, home: nat, at: Crd)
    requires p < |w.sites| && Placed(w.sites, home, at)
    ensures Placed(Gathered(w, p, crd).sites, home, at)
  {
    GatheredKeepsObjects(w, p, crd);
    PlacedByObjects(w.sites, Gathered(w, p, crd).sites, home, at);
  }

  /** `check_object_effects` on `c`, which leaves every enemy alone. */
  method Weary(c: Ch.Character, ghost foe: Enemies.Enemy?) returns (events: seq<RogueEvent>, canMove: bool)
    requires c.Valid() && (foe != null ==> foe.Valid())
    modifies c
    ensures c.Valid() && (foe != null ==> foe.Valid())
    ensures canMove <==> !EB.Drowsy(old(c.effects))
    ensures c.State() == Ch.Refreshed(old(c.State())) && events == Ch.EffectEvents(old(c.State()), c.nickname)
  {
    events, canMove := c.CheckObjectEffects();
  }

  /** `character.place(crd)` and one more passed cell in the statistics. */
  method Step(c: Ch.Character, crd: Crd)
    modifies c, c.stats
    ensures c.State() == old(c.State()).(rest := old(c.Rest()).(crd := crd)) && c.Valid() == old(c.Valid())
    ensures c.stats.Record() == old(c.stats.Record()).(passedCells := old(c.stats.passedCells) + 1)
  {
    c.Place(crd);
    c.stats.passedCells := c.stats.passedCells + 1;
  }

  /**
   * `__replace_enemy_on_map` once place `q` was found for `to`: the
   * occupant `o` becomes the object on `to` of place `q`, and then the
   * object on `from` of place `p` goes.
   */
  function Shift(sites: seq<Site>, p: nat, q: nat, from: Crd, to: Crd, o: Occupant): (r: seq<Site>)
    requires p < |sites| && q < |sites|
    ensures |r| == |sites|
  {
    var added := sites[q := sites[q].WithObjects(sites[q].Objects()[to := o])];
    added[p := added[p].WithObjects(added[p].Objects() - {from})]
  }

  /** Only the objects of the places differ between `a` and `b`. */
  ghost predicate OnlyObjects(a: seq<Site>, b: seq<Site>)
  {
    |a| == |b| && forall q :: 0 <= q < |a| ==> b[q] == a[q].WithObjects(b[q].Objects())
  }

  /** Every enemy standing in `sites` is one of `foes`. */
  ghost predicate FoesFrom(sites: seq<Site>, foes: set<Enemies.Enemy>)
  {
    forall q, c :: 0 <= q < |sites| && c in sites[q].Objects() && sites[q].Objects()[c].Foe? ==> sites[q].Objects()[c].enemy in foes
  }

  /**
   * A shift moves the occupant: `from` of place `p` is empty afterwards,
   * the occupant stands on `to` of place `q` unless that is the cell it
   * left, every other cell keeps its object, and nothing but objects changes.
   */
  lemma ShiftMoves(sites: seq<Site>, p: nat, q: nat, from: Crd, to: Crd, o: Occupant)
    requires p < |sites| && q < |sites|
    ensures var r := Shift(sites, p, q, from, to, o);
      && from !in r[p].Objects()
      && ((p, from) != (q, to) ==> to in r[q].Objects() && r[q].Objects()[to] == o)
      && (forall k, c :: 0 <= k < |sites| && (k, c) != (p, from) && (k, c) != (q, to) ==>
            (c in r[k].Objects() <==> c in sites[k].Objects()) &&
            (c in r[k].Objects() ==> r[k].Objects()[c] == sites[k].Objects()[c]))
      && OnlyObjects(sites, r)
  {
    var r := Shift(sites, p, q, from, to, o);
    forall k | 0 <= k < |sites|
      ensures r[k] == sites[k].WithObjects(r[k].Objects())
    {
      match sites[k]
      case RoomSite(_) =>
      case CorridorSite(_) =>
    }
  }

  /** Only objects changing is transitive. */
  lemma OnlyObjectsChain(a: seq<Site>, b: seq<Site>, c: seq<Site>)
    requires OnlyObjects(a, b) && OnlyObjects(b, c)
    ensures OnlyObjects(a, c)
  {
    forall q | 0 <= q < |a|
      ensures c[q] == a[q].WithObjects(c[q].Objects())
    {
      match a[q]
      case RoomSite(_) =>
      case CorridorSite(_) =>
    }
  }

  /** Shifting one of `foes` brings no other enemy onto the map. */
  lemma ShiftFoesFrom(sites: seq<Site>, p: nat, q: nat, from: Crd, to: Crd, e: Enemies.Enemy, foes: set<Enemies.Enemy>)
    requires p < |sites| && q < |sites| && FoesFrom(sites, foes) && e in foes
    ensures FoesFrom(Shift(sites, p, q, from, to, Foe(e)), foes)
  {
    ShiftMoves(sites, p, q, from, to, Foe(e));
  }

  /** One enemy's turn on the map: the places are as they were, or the enemy `e` moved off `crd` of place `p`. */
  ghost predicate Moved(s0: seq<Site>, s1: seq<Site>, p: nat, crd: Crd, e: Enemies.Enemy)
  {
    s1 == s0 || exists q: nat, to: Crd :: p < |s0| && q < |s0| && s1 == Shift(s0, p, q, crd, to, Foe(e))
  }

  /** So only objects change, and no enemy but `e` is brought onto the map. */
  lemma MovedKeeps(s0: seq<Site>, s1: seq<Site>, p: nat, crd: Crd, e: Enemies.Enemy, foes: set<Enemies.Enemy>)
    requires Moved(s0, s1, p, crd, e) && FoesFrom(s0, foes) && e in foes
    ensures OnlyObjects(s0, s1) && FoesFrom(s1, foes)
  {
    if s1 == s0 {
      forall q | 0 <= q < |s0|
        ensures s1[q] == s0[q].WithObjects(s1[q].Objects())
      {
        match s0[q]
        case RoomSite(_) =>
        case CorridorSite(_) =>
      }
    } else {
      var q: nat, to: Crd :| p < |s0| && q < |s0| && s1 == Shift(s0, p, q, crd, to, Foe(e));
      ShiftMoves(s0, p, q, crd, to, Foe(e));
      ShiftFoesFrom(s0, p, q, crd, to, e, foes);
    }
  }

  /** The cell lies in the box `(ylo, yhi, xlo, xhi)`, bounds included. */
  predicate InBox(c: Crd, box: (int, int, int, int))
  {
    box.0 <= c.0 <= box.1 && box.2 <= c.1 <= box.3
  }

  /** The draws that pass `keep`, in their order. */
  function Keep(draws: seq<Crd>, keep: Crd -> bool): (k: seq<Crd>)
    ensures forall i :: 0 <= i < |k| ==> keep(k[i])
    ensures forall c :: c in k <==> c in draws && keep(c)
  {
    if draws == [] then []
    else (if keep(draws[0]) then [draws[0]] else []) + Keep(draws[1..], keep)
  }

  /** The random values of one enemy's turn. */
  datatype Turn = Turn(
    /** The ghost's visibility draw in `is_engaged`. */
    visibility: real,
    /** The damage factor and the effect chance of `attack`. */
    u: real, chance: real,
    /** The index `choice` takes among a move's options. */
    pick: nat,
    /** The cells `get_random_crd_in_zone` draws, in order. */
    draws: seq<Crd>)

  predicate TurnInRange(t: Turn)
  {
    0.0 <= t.visibility < 1.0 && Enemies.InFactorRange(t.u) && 0.0 <= t.chance < 1.0
  }

  /** An enemy's attack: its name, damage, agility and effect. */
  type Blow = (string, int, int, Option<RogueEffect>)

  /**
   * The character in state `c` after `harm` by the blow `a`: on a hit the
   * effect applies, the damage comes off the health and the harm colour
   * shows; a miss changes nothing.
   */
  function Hurt(c: Ch.Snapshot, a: Blow, hit: bool): Ch.Snapshot
    requires EB.WellKeyed(c.effects)
  {
    if !hit then c
    else
      var at := if a.3.Some? then Ch.Applied(c.attrs, a.3.value) else c.attrs;
      c.(attrs := at.(hp := at.hp - a.1), effects := if a.3.Some? then EB.Record(c.effects, a.3.value) else c.effects,
         color := Ch.HarmColor)
  }

  /** The events of that `harm`. */
  function HurtEvents(a: Blow, nickname: string, hit: bool): seq<RogueEvent>
  {
    if !hit then [Ch.MissMessage(a.0, nickname)]
    else [Ch.HitMessage(a.0, nickname, a.1)] + (if a.3.Some? then [Ch.ApplyMessage(nickname, a.3.value)] else [])
  }

  /** One entry of the snapshot `make_rogue_move` walks: the place, the cell and the enemy on it. */
  datatype Entry = Entry(place: nat, crd: Crd, foe: Enemies.Enemy)

  /** The ValueError of a standard or diagonal move for an enemy without speed. */
  function NoSpeed(pattern: string): Error
  {
    ValueError("Enemy speed cannot be 0 for " + pattern + " move pattern")
  }

  /** `choice(options)` with the index `pick`, or nothing when there are no options. */
  function Chosen(options: seq<Crd>, pick: nat): (c: Option<Crd>)
    ensures c.None? <==> options == []
    ensures c.Some? ==> c.value in options
  {
    if options == [] then None else Some(options[pick % |options|])
  }

  /**
   * `__replace_enemy_on_map` moving enemy `e` from `crd` of place `p` to
   * `to`, `q` being the place found for `to`: when there is none (`q` past
   * the last place) nothing happens; otherwise the enemy is shifted, and
   * the removal is a KeyError exactly when `crd` was empty even after
   * the addition.
   */
  ghost predicate Replaced(s0: seq<Site>, s1: seq<Site>, q: nat, p: nat, crd: Crd, to: Crd, e: Enemies.Enemy, r: Result<()>)
    requires p < |s0|
  {
    if q >= |s0| then r.Success? && s1 == s0
    else
      && s1 == Shift(s0, p, q, crd, to, Foe(e))
      && (r.Success? <==> crd in s0[p].Objects() || (q == p && crd == to))
      && (r.Failure? ==> r.error == KeyError(CrdText(crd)))
  }

  /** A move to the chosen cell `c`, if there is one, as `Replaced` says. */
  ghost predicate Went(s0: seq<Site>, s1: seq<Site>, c: Option<Crd>, q: nat, p: nat, crd: Crd, e: Enemies.Enemy, r: Result<()>)
    requires p < |s0|
  {
    match c
    case None => r.Success? && s1 == s0
    case Some(to) => Replaced(s0, s1, q, p, crd, to, e, r)
  }

  /** Either way the move is one of `Moved`. */
  lemma WentMoved(s0: seq<Site>, s1: seq<Site>, c: Option<Crd>, q: nat, p: nat, crd: Crd, e: Enemies.Enemy, r: Result<()>)
    requires p < |s0| && Went(s0, s1, c, q, p, crd, e, r)
    ensures Moved(s0, s1, p, crd, e)
  {
    if c.Some? && q < |s0| {
      assert s1 == Shift(s0, p, q, crd, c.value, Foe(e));
    }
  }

  /**
   * The grid cell room `i` is generated in by `__generate_level_rooms`:
   * its left column, top row, height and width. The map's width and
   * height are cut in three (floor division); the cells are `i % 3` steps
   * across and `i / 3` steps down, a step one less than the cell's size,
   * so that neighbouring cells share their border line.
   */
  function GridCell(height: int, width: int, i: nat): (int, int, int, int)
  {
    var w, h := width / 3, height / 3;
    ((w - 1) * (i % 3), (h - 1) * (i / 3), h, w)
  }

  /** The room `generate_room` makes in the grid cell of room `i` from the draws `d`. */
  function GridRoom(s: Settings, height: int, width: int, i: nat, d: RoomDraws): Result<Rect>
    requires var c := GridCell(height, width, i); Fits(s, c.2, c.3) ==> RoomDrawsInRange(s, c.0, c.1, c.2, c.3, d)
  {
    var c := GridCell(height, width, i);
    GenerateRoom(s, c.0, c.1, c.2, c.3, d)
  }

  /** The draws of the nine rooms lie in the ranges of their cells. */
  predicate GridDrawsInRange(s: Settings, height: int, width: int, draws: seq<RoomDraws>)
  {
    |draws| == 9 &&
    forall i :: 0 <= i < 9 ==> var c := GridCell(height, width, i); Fits(s, c.2, c.3) ==> RoomDrawsInRange(s, c.0, c.1, c.2, c.3, draws[i])
  }

  /**
   * `__generate_level_rooms`: the nine rooms, room `i` generated in grid
   * cell `i` with identifier `i` and nothing on it; cells too small for
   * the least room are the ValueError of `generate_room`.
   */
  method GenerateLevelRooms(s: Settings, height: int, width: int, draws: seq<RoomDraws>) returns (r: Result<seq<Room>>)
    requires GridDrawsInRange(s, height, width, draws)
    ensures r.Failure? <==> !Fits(s, height / 3, width / 3)
    ensures r.Failure? ==> r.error == InsufficientSpace
    ensures r.Success? ==> |r.value| == 9 && forall i :: 0 <= i < 9 ==>
      var room := r.value[i];
      && fresh(room) && room.id == i && room.Valid()
      && GridRoom(s, height, width, i, draws[i]) == Success(Rect(room.x, room.y, room.x2, room.y2))
      && room.State() == Contents(map[], {}, map[], map[], DoorSides(i).value, {}, false, false, [], [])
    ensures r.Success? ==> forall i, j :: 0 <= i < j < 9 ==> r.value[i] != r.value[j]
  {
    var rooms: seq<Room> := [];
    for i := 0 to 9
      invariant |rooms| == i
      invariant forall k :: 0 <= k < i ==>
        var room := rooms[k];
        && fresh(room) && room.id == k && room.Valid()
        && GridRoom(s, height, width, k, draws[k]) == Success(Rect(room.x, room.y, room.x2, room.y2))
        && room.State() == Contents(map[], {}, map[], map[], DoorSides(k).value, {}, false, false, [], [])
      invariant forall k, j :: 0 <= k < j < i ==> rooms[k] != rooms[j]
      invariant i > 0 ==> Fits(s, height / 3, width / 3)
    {
      var rect := GridRoom(s, height, width, i, draws[i]);
      if rect.Failure? {
        return Failure(rect.error);
      }
      var room := new Room(i, rect.value);
      rooms := rooms + [room];
    }
    return Success(rooms);
  }

  /** The rectangles share no cell: one lies wholly left of, right of, above or below the other. */
  predicate Apart(a: Rect, b: Rect)
  {
    a.x2 < b.x || b.x2 < a.x || a.y2 < b.y || b.y2 < a.y
  }

  /**
   * Rooms of different grid cells never overlap when the margin is at
   * least one cell and rooms are at least one cell wide and high: the
   * neighbouring cells share only their border line, and each room keeps
   * the margin from it.
   */
  lemma GridRoomsApart(s: Settings, height: int, width: int, draws: seq<RoomDraws>, i: nat, j: nat)
    requires GridDrawsInRange(s, height, width, draws) && Fits(s, height / 3, width / 3)
    requires s.indent >= 1 && s.minWidth >= 1 && s.minHeight >= 1
    requires i < 9 && j < 9 && i != j
    ensures Apart(GridRoom(s, height, width, i, draws[i]).value, GridRoom(s, height, width, j, draws[j]).value)
  {
    var a, b := GridRoom(s, height, width, i, draws[i]).value, GridRoom(s, height, width, j, draws[j]).value;
    var ci, cj := GridCell(height, width, i), GridCell(height, width, j);
    GridSteps(width / 3, i % 3);
    GridSteps(width / 3, j % 3);
    GridSteps(height / 3, i / 3);
    GridSteps(height / 3, j / 3);
    if i % 3 == j % 3 {
      assert i / 3 != j / 3;
    }
  }

  /** The offset of the `k`-th of three cells of size `size`, written without multiplication. */
  lemma GridSteps(size: int, k: int)
    requires 0 <= k < 3
    ensures (size - 1) * k == if k == 0 then 0 else if k == 1 then size - 1 else 2 * size - 2
  {
  }

  class LevelMap {
    const height: int
    const width: int
    const rooms: seq<Room>
    var corridors: seq<Corridor>
    const character: Ch.Character

    /** The rooms are distinct objects, and so are the corridors. */
    ghost predicate Valid()
      reads this
    {
      && (forall i, j :: 0 <= i < |rooms| && 0 <= j < |rooms| && i != j ==> rooms[i] != rooms[j])
      && (forall i, j :: 0 <= i < |corridors| && 0 <= j < |corridors| && i != j ==> corridors[i] != corridors[j])
    }

    /** The map's parts as `__init__` gathers them, before any corridor exists. */
    constructor(height: int, width: int, rooms: seq<Room>, character: Ch.Character)
      requires forall i, j :: 0 <= i < |rooms| && 0 <= j < |rooms| && i != j ==> rooms[i] != rooms[j]
      ensures Valid()
      ensures this.height == height && this.width == width && this.rooms == rooms && this.character == character
      ensures corridors == []
    {
      this.height, this.width, this.rooms, this.character := height, width, rooms, character;
      corridors := [];
    }

    function NumPlaces(): nat
      reads this
    {
      |rooms| + |corridors|
    }

    /** The object of place `p`. */
    function Place(p: nat): object
      requires p < NumPlaces()
      reads this
    {
      if p < |rooms| then rooms[p] else corridors[p - |rooms|]
    }

    function SiteOf(p: nat): Site
      requires p < NumPlaces()
      reads this, rooms, corridors
    {
      if p < |rooms| then RoomSite(rooms[p].State()) else CorridorSite(corridors[p - |rooms|].State())
    }

    function Objects(p: nat): map<Crd, Occupant>
      requires p < NumPlaces()
      reads this, rooms, corridors
    {
      SiteOf(p).Objects()
    }

    function Items(p: nat): map<Crd, Item>
      requires p < NumPlaces()
      reads this, rooms, corridors
    {
      SiteOf(p).Items()
    }

    predicate HasCharacter(p: nat)
      requires p < NumPlaces()
      reads this, rooms, corridors
    {
      SiteOf(p).HasCharacter()
    }

    /** The doors of every corridor. */
    function CorridorDoors(): set<Door>
      reads this
    {
      set q, d | 0 <= q < |corridors| && d in corridors[q].doors.Values :: d
    }

    /** The doors of every room. */
    function RoomDoors(): set<Door>
      reads this, rooms
    {
      set i, d | 0 <= i < |rooms| && d in rooms[i].doors :: d
    }

    /** `is_in` of place `p`. */
    predicate IsIn(p: nat, crd: Crd)
      requires p < NumPlaces()
      reads this, rooms, corridors, CorridorDoors()
    {
      if p < |rooms| then rooms[p].IsIn(crd)
      else
        var c := corridors[p - |rooms|];
        assert forall d :: d in c.doors.Values ==> d in CorridorDoors();
        c.IsIn(crd)
    }

    /** `is_in_and_available_for_move` of place `p`. */
    predicate IsInAndAvailableForMove(p: nat, crd: Crd)
      requires p < NumPlaces()
      reads this, rooms, corridors, CorridorDoors()
    {
      IsIn(p, crd) && crd !in Objects(p)
    }

    /** `face_door` of place `p`: a locked door there, or null. */
    function FaceDoor(p: nat, crd: Crd): (d: Door?)
      requires p < NumPlaces()
      reads this, rooms, corridors, CorridorDoors(), RoomDoors()
      ensures d != null ==> d.lock && d in RoomDoors() + CorridorDoors()
    {
      if p < |rooms| then
        var r := rooms[p];
        assert forall d :: d in r.doors ==> d in RoomDoors();
        r.FaceDoor(crd)
      else
        var c := corridors[p - |rooms|];
        assert forall d :: d in c.doors.Values ==> d in CorridorDoors();
        c.FaceDoor(crd)
    }

    /** The enemies standing on the map. */
    function Foes(): set<Enemies.Enemy>
      reads this, rooms, corridors
    {
      set p, c | 0 <= p < NumPlaces() && c in Objects(p) && Objects(p)[c].Foe? :: Objects(p)[c].enemy
    }

    /** Every enemy on the map keeps its own invariant. */
    ghost predicate FoesValid()
      reads this, rooms, corridors, Foes()
    {
      forall p, c :: 0 <= p < NumPlaces() && c in Objects(p) && Objects(p)[c].Foe? ==> Objects(p)[c].enemy.Valid()
    }

    /** What the character's own methods need of it. */
    ghost predicate HeroReady()
      reads character, character.backpack, character.backpack.items
    {
      character.Valid() && character.backpack.Valid() && character.maxExp >= 1
    }

    /** The state of every place, in order. */
    ghost function Sites(): (s: seq<Site>)
      reads this, rooms, corridors
      ensures |s| == NumPlaces() && forall q :: 0 <= q < NumPlaces() ==> s[q] == SiteOf(q)
    {
      seq(NumPlaces(), q reads this, rooms, corridors requires 0 <= q < NumPlaces() => SiteOf(q))
    }

    /** The character stands in place `home` (see `Placed`). */
    ghost predicate PlacedAt(home: nat)
      reads this, rooms, corridors, character
    {
      Placed(Sites(), home, character.crd)
    }

    /** The map, the character and what it carries, as one value. */
    ghost function State(): (w: World)
      reads this, rooms, corridors, character, character.stats, character.backpack.items
      ensures w.sites == Sites()
    {
      World(Sites(), character.State(), character.stats.Record(), character.backpack.items.State())
    }

    method AddObjectAt(p: nat, crd: Crd, o: Occupant)
      requires Valid() && p < NumPlaces()
      modifies Place(p)
      ensures Sites() == old(Sites())[p := old(SiteOf(p)).WithObjects(old(Objects(p))[crd := o])]
    {
      if p < |rooms| {
        rooms[p].AddObject(crd, o);
      } else {
        corridors[p - |rooms|].AddObject(crd, o);
      }
    }

    /** `remove_object` of place `p`: a KeyError when nothing stands there. */
    method RemoveObjectAt(p: nat, crd: Crd) returns (r: Result<()>)
      requires Valid() && p < NumPlaces()
      modifies Place(p)
      ensures r.Success? <==> crd in old(Objects(p))
      ensures r.Failure? ==> r.error == KeyError(CrdText(crd))
      ensures Sites() == old(Sites())[p := old(SiteOf(p)).WithObjects(old(Objects(p)) - {crd})]
    {
      if p < |rooms| {
        r := rooms[p].RemoveObject(crd);
      } else {
        r := corridors[p - |rooms|].RemoveObject(crd);
      }
    }

    method AddItemAt(p: nat, crd: Crd, item: Item)
      requires Valid() && p < NumPlaces()
      modifies Place(p)
      ensures Sites() == old(Sites())[p := old(SiteOf(p)).WithItems(old(Items(p))[crd := item])]
    {
      if p < |rooms| {
        rooms[p].AddItem(crd, item);
      } else {
        corridors[p - |rooms|].AddItem(crd, item);
      }
    }

    /** `remove_item` of place `p`: a KeyError when no item lies there. */
    method RemoveItemAt(p: nat, crd: Crd) returns (r: Result<()>)
      requires Valid() && p < NumPlaces()
      modifies Place(p)
      ensures r.Success? <==> crd in old(Items(p))
      ensures Sites() == old(Sites())[p := old(SiteOf(p)).WithItems(old(Items(p)) - {crd})]
    {
      if p < |rooms| {
        r := rooms[p].RemoveItem(crd);
      } else {
        r := corridors[p - |rooms|].RemoveItem(crd);
      }
    }

    /** `place.has_character = False` and `remove_object` of the character's cell. */
    method ClearCharacterAt(p: nat, from: Crd) returns (r: Result<()>)
      requires Valid() && p < NumPlaces()
      modifies Place(p)
      ensures r.Success? <==> from in old(Objects(p))
      ensures Sites() == Left(old(Sites()), p, from)
    {
      if p < |rooms| {
        rooms[p].hasCharacter := false;
        r := rooms[p].RemoveObject(from);
      } else {
        corridors[p - |rooms|].hasCharacter := false;
        r := corridors[p - |rooms|].RemoveObject(from);
      }
    }

    /** `place.has_character = True` and `add_object` of the character on `to`. */
    method SetCharacterAt(p: nat, to: Crd)
      requires Valid() && p < NumPlaces()
      modifies Place(p)
      ensures Sites() == Arrived(old(Sites()), p, to)
    {
      if p < |rooms| {
        rooms[p].hasCharacter := true;
        rooms[p].AddObject(to, Hero);
      } else {
        corridors[p - |rooms|].hasCharacter := true;
        corridors[p - |rooms|].AddObject(to, Hero);
      }
    }

    /** The first place from `q` on with the character flag, or `NumPlaces()` when none has it. */
    function FirstWithCharacter(q: nat): (f: nat)
      requires q <= NumPlaces()
      reads this, rooms, corridors
      ensures q <= f <= NumPlaces()
      ensures forall k :: q <= k < f ==> !HasCharacter(k)
      ensures f < NumPlaces() ==> HasCharacter(f)
      decreases NumPlaces() - q
    {
      if q == NumPlaces() || HasCharacter(q) then q else FirstWithCharacter(q + 1)
    }

    /**
     * `__remove_character`: the first place with the character flag loses
     * it and, on the character's cell, its object (a KeyError when nothing
     * stands there); with no such place nothing changes.
     */
    method RemoveCharacter() returns (r: Result<()>)
      requires Valid()
      modifies rooms, corridors
      ensures var f := old(FirstWithCharacter(0));
        && (f == NumPlaces() ==> r.Success? && Sites() == old(Sites()))
        && (f < NumPlaces() ==> (r.Success? <==> character.crd in old(Objects(f))) && Sites() == Left(old(Sites()), f, character.crd))
    {
      var f := FirstWithCharacter(0);
      if f == NumPlaces() {
        return Success(());
      }
      r := ClearCharacterAt(f, character.crd);
    }

    /** The place the character is in is the first one with the flag. */
    lemma {:induction false} HomeIsFirst(home: nat, q: nat)
      requires PlacedAt(home) && q <= home
      ensures FirstWithCharacter(q) == home
      decreases home - q
    {
      if q < home {
        HomeIsFirst(home, q + 1);
      }
    }

    /** `__remove_character` and the marking of the new place: the map side of a step. */
    method Relocate(p: nat, crd: Crd, ghost home: nat)
      requires Valid() && p < NumPlaces() && PlacedAt(home)
      modifies rooms, corridors
      ensures Sites() == Arrived(Left(old(Sites()), home, character.crd), p, crd)
      ensures Placed(Sites(), p, crd)
    {
      assert FirstWithCharacter(0) == home by {
        HomeIsFirst(home, 0);
      }
      var _ := RemoveCharacter();
      SetCharacterAt(p, crd);
      MoveKeepsPlaced(old(Sites()), home, character.crd, p, crd);
    }

    /**
     * The search of `__move_character`: the first place from `q` on that
     * holds `crd` or has a locked door in front of it, or `NumPlaces()`.
     */
    function FirstReaching(q: nat, crd: Crd): (f: nat)
      requires q <= NumPlaces()
      reads this, rooms, corridors, CorridorDoors(), RoomDoors()
      ensures q <= f <= NumPlaces()
      ensures forall k :: q <= k < f ==> !IsIn(k, crd) && FaceDoor(k, crd) == null
      ensures f < NumPlaces() ==> IsIn(f, crd) || FaceDoor(f, crd) != null
      decreases NumPlaces() - q
    {
      if q == NumPlaces() || IsIn(q, crd) || FaceDoor(q, crd) != null then q else FirstReaching(q + 1, crd)
    }

    /** What a move onto `crd` of place `p` may change besides the places and the character: the enemy there, or the door in front of it. */
    function Struck(p: nat, crd: Crd): set<object>
      requires p < NumPlaces()
      reads this, rooms, corridors, CorridorDoors(), RoomDoors()
    {
      (if crd in Objects(p) && Objects(p)[crd].Foe? then {Objects(p)[crd].enemy} else {})
      + (if FaceDoor(p, crd) != null then {FaceDoor(p, crd)} else {})
    }

    /** The enemy on `crd` of place `p`, if there is one, keeps its invariant. */
    ghost predicate FoeReady(p: nat, crd: Crd)
      requires p < NumPlaces()
      reads this, rooms, corridors, FoeAt(p, crd)
    {
      FoeAt(p, crd) != null ==> FoeAt(p, crd).Valid()
    }

    /** The enemy on `crd` of place `p`, or null. */
    function FoeAt(p: nat, crd: Crd): (e: Enemies.Enemy?)
      requires p < NumPlaces()
      reads this, rooms, corridors
      ensures e != null <==> crd in Objects(p) && Objects(p)[crd].Foe?
      ensures e != null ==> e == Objects(p)[crd].enemy
    {
      if crd in Objects(p) && Objects(p)[crd].Foe? then Objects(p)[crd].enemy else null
    }

    /**
     * `move_character`: the character's effects run one turn first, and a
     * sleeping character stays put; otherwise the direction gives the
     * cell, an unknown one is a `ValueError`, and the move onto the cell
     * follows as `Steered` says, from the rested state and after the
     * events of the effect check.
     */
    method MoveCharacter(direction: string, hitTest: (int, int) -> bool, goldRaw: nat, ups: nat -> Ch.Ups, ghost home: nat)
      returns (r: Result<seq<RogueEvent>>)
      requires Valid() && HeroReady() && PlacedAt(home) && FoesValid()
      requires forall i: nat :: Ch.UpsInRange(ups(i))
      modifies rooms, corridors, character, character.stats, character.backpack.items
      modifies Touched(AimOf(character.crd, direction))
      ensures HeroReady()
      ensures EB.Drowsy(old(character.effects)) ==>
        State() == Rested(old(State())) && r == Success(Ch.EffectEvents(old(character.State()), character.nickname))
      ensures !EB.Drowsy(old(character.effects)) ==>
        Steered(direction, old(AimOf(character.crd, direction)), old(State()), Ch.EffectEvents(old(character.State()), character.nickname),
                r, goldRaw, ups, home)
    {
      ghost var a := AimOf(character.crd, direction);
      ghost var foe := if a.Some? then a.value.foe else null;
      assert foe != null ==> foe.Valid();
      ghost var w0 := State();
      var events, canMove := CheckEffects(direction, foe, home);
      if !canMove {
        return Success(events);
      }
      r := Steer(direction, events, w0, a, hitTest, goldRaw, ups, home);
    }

    /** The aim of a move in `direction` from `from`, with what stands on the cell and in front of it. */
    ghost function AimOf(from: Crd, direction: string): (a: Option<Aimed>)
      reads this, rooms, corridors, CorridorDoors(), RoomDoors()
      ensures a.Some? ==> a.value.place < NumPlaces()
    {
      var t := Sight.Step(direction, from);
      if t.Failure? then None
      else
        var p := FirstReaching(0, t.value);
        if p == NumPlaces() then None
        else
          var d := FaceDoor(p, t.value);
          Some(Aimed(p, t.value, FoeAt(p, t.value), d, if d != null then d.color else 0, d != null && d.lock))
    }

    /** What a move aimed at `a` may change besides the places and the character: the enemy there and the door in front of it. */
    function Touched(a: Option<Aimed>): set<object>
    {
      if a.None? then {}
      else (if a.value.foe != null then {a.value.foe} else {}) + (if a.value.door != null then {a.value.door} else {})
    }

    /**
     * What a move in `direction` from the state `w0`, whose effect check
     * yielded `events`, leaves behind; the present state is the one after
     * the move and `a` is where the move aimed. An unknown direction is a
     * `ValueError`, and a cell no place reaches leaves the rested state as
     * it is. Otherwise, on the aimed cell of the aimed place: an enemy is
     * attacked and the character stays put, gaining the reward of a kill;
     * a locked door unlocks with a key of its colour, spending the first
     * such key, and stays as it is without one, the character staying
     * put; and on a free cell the character walks in, gathering what lies
     * there.
     */
    ghost predicate Steered(direction: string, a: Option<Aimed>, w0: World, events: seq<RogueEvent>, r: Result<seq<RogueEvent>>,
                            goldRaw: nat, ups: nat -> Ch.Ups, home: nat)
      reads this, rooms, corridors, character, character.stats, character.backpack.items
      reads if a.Some? && a.value.foe != null then {a.value.foe} else {}
      reads if a.Some? && a.value.door != null then {a.value.door} else {}
    {
      && EB.WellKeyed(w0.hero.effects) && w0.hero.rest.maxExp >= 1 && home < |w0.sites|
      && (Sight.Step(direction, w0.hero.rest.crd).Failure? ==>
            r == Failure(Sight.InvalidDirection(direction)) && State() == Rested(w0))
      && (Sight.Step(direction, w0.hero.rest.crd).Success? && a.None? ==>
            r == Success(events) && State() == Rested(w0))
      && (a.Some? ==>
            var p, crd := a.value.place, a.value.crd;
            && p < |w0.sites| && (r.Success? ==> events <= r.value)
            && (crd in w0.sites[p].Objects() ==> Fought(a.value.foe, p, crd, w0, r, goldRaw, ups, home))
            && (crd !in w0.sites[p].Objects() && a.value.door != null ==>
                  Knocked(a.value.door, a.value.color, a.value.lock, w0, events, r, home))
            && (crd !in w0.sites[p].Objects() && a.value.door == null ==> WalkedIn(p, crd, w0, events, r, home)))
    }

    /**
     * The enemy `e` on `crd` of place `p` in `w0` was attacked: the
     * character stays put; a dead enemy leaves the place, its experience
     * becoming gold and levels, and a negative experience is the ValueError
     * of the gold draw.
     */
    ghost predicate Fought(e: Enemies.Enemy?, p: nat, crd: Crd, w0: World, r: Result<seq<RogueEvent>>,
                           goldRaw: nat, ups: nat -> Ch.Ups, home: nat)
      reads this, rooms, corridors, character, character.stats
      reads if e != null then {e} else {}
    {
      && p < |w0.sites| && crd in w0.sites[p].Objects() && EB.WellKeyed(w0.hero.effects) && w0.hero.rest.maxExp >= 1
      && e != null && w0.sites[p].Objects()[crd] == Foe(e) && e.Valid() && PlacedAt(home)
      && (e.ExpCount() == 0 ==> r.Success? && Sites() == w0.sites)
      && (e.ExpCount() != 0 ==> Sites() == w0.sites[p := w0.sites[p].WithObjects(w0.sites[p].Objects() - {crd})])
      && (r.Failure? <==> e.ExpCount() < 0)
      && (r.Failure? ==> r.error == EmptyRange(e.ExpCount() / 2, e.ExpCount() * 2))
      && var l0 := LedgerFrom(Rested(w0).hero, w0.record);
         LedgerOf(character) == if e.ExpCount() > 0 then Award(l0, e.ExpCount(), goldRaw, ups) else l0
    }

    /**
     * The locked door `d`, of colour `color` and lock `lock` before the
     * move: with a key of its colour it unlocks, takes the base colour and
     * the first such key is spent; without one it stays as it is. Either
     * way the character, rested from `w0`, stays put and no place changes.
     */
    ghost predicate Knocked(d: Door, color: int, lock: bool, w0: World, events: seq<RogueEvent>,
                            r: Result<seq<RogueEvent>>, home: nat)
      reads this, rooms, corridors, character, d
    {
      && EB.WellKeyed(w0.hero.effects)
      && PlacedAt(home) && Sites() == w0.sites
      && (color in w0.hero.rest.keys ==>
            && !d.lock && d.color == DoorBaseColor && r == Success(events + [DoorOpened])
            && character.State() == Rested(w0).hero.(rest := w0.hero.rest.(keys := Lists.RemoveFirst(w0.hero.rest.keys, color))))
      && (color !in w0.hero.rest.keys ==>
            && d.lock == lock && d.color == color && r == Success(events + [DoorLocked])
            && character.State() == Rested(w0).hero)
    }

    /** The character, rested from `w0` in place `home`, walked onto the free `crd` of place `p`, gathering what lies there. */
    ghost predicate WalkedIn(p: nat, crd: Crd, w0: World, events: seq<RogueEvent>, r: Result<seq<RogueEvent>>, home: nat)
      reads this, rooms, corridors, character, character.stats, character.backpack.items
    {
      && p < |w0.sites| && home < |w0.sites| && EB.WellKeyed(w0.hero.effects)
      && PlacedAt(p) && character.crd == crd
      && State() == Entered(Gathered(Rested(w0), p, crd), home, p, crd)
      && r == Success(events + Found(Rested(w0), p, crd))
    }

    /**
     * `move_character` after the effect check, which turned `w0` into the
     * present state and yielded `events`; `a` is where the move aims. The
     * direction gives the cell, an
     * unknown one is a `ValueError`, and the move onto the cell
     * (`MoveHero`) follows, its events after `events`.
     */
    method Steer(direction: string, events: seq<RogueEvent>, ghost w0: World, ghost a: Option<Aimed>,
                 hitTest: (int, int) -> bool, goldRaw: nat, ups: nat -> Ch.Ups, ghost home: nat)
      returns (r: Result<seq<RogueEvent>>)
      requires Valid() && HeroReady() && PlacedAt(home) && (a.Some? && a.value.foe != null ==> a.value.foe.Valid())
      requires EB.WellKeyed(w0.hero.effects) && State() == Rested(w0) && a == AimOf(character.crd, direction)
      requires forall i: nat :: Ch.UpsInRange(ups(i))
      modifies rooms, corridors, character, character.stats, character.backpack.items, Touched(a)
      ensures HeroReady()
      ensures Steered(direction, a, w0, events, r, goldRaw, ups, home)
    {
      var t := Sight.Step(direction, character.crd);
      if t.Failure? {
        return Failure(Sight.InvalidDirection(direction));
      }
      r := Advance(direction, t.value, events, w0, a, hitTest, goldRaw, ups, home);
    }

    /** `Steer` once the direction gave the cell `crd`, aimed at as `a` says. */
    method Advance(ghost direction: string, crd: Crd, events: seq<RogueEvent>, ghost w0: World, ghost a: Option<Aimed>,
                   hitTest: (int, int) -> bool, goldRaw: nat, ups: nat -> Ch.Ups, ghost home: nat)
      returns (r: Result<seq<RogueEvent>>)
      requires Valid() && HeroReady() && PlacedAt(home) && (a.Some? && a.value.foe != null ==> a.value.foe.Valid())
      requires EB.WellKeyed(w0.hero.effects) && State() == Rested(w0)
      requires Sight.Step(direction, character.crd) == Success(crd) && a == AimOf(character.crd, direction)
      requires forall i: nat :: Ch.UpsInRange(ups(i))
      modifies rooms, corridors, character, character.stats, character.backpack.items, Touched(a)
      ensures HeroReady()
      ensures Steered(direction, a, w0, events, r, goldRaw, ups, home)
    {
      assert a.Some? ==> FoeReady(a.value.place, a.value.crd);
      assert LedgerOf(character) == LedgerFrom(Rested(w0).hero, w0.record);
      var moved := MoveHero(crd, hitTest, goldRaw, ups, home);
      r := if moved.Success? then Success(events + moved.value) else moved;
      if a.None? {
        assert moved == Success([]) && events + [] == events;
      } else {
        var p, c := a.value.place, a.value.crd;
        if c in w0.sites[p].Objects() {
          assert Fought(a.value.foe, p, c, w0, r, goldRaw, ups, home);
        } else if a.value.door != null {
          assert Knocked(a.value.door, a.value.color, a.value.lock, w0, events, r, home);
        } else {
          assert WalkedIn(p, c, w0, events, r, home);
        }
      }
    }

    /**
     * `check_object_effects` from the map's side: only the character
     * changes, as `Rested` says, so the cell a move aims at and the enemy
     * there stay as they were.
     */
    method CheckEffects(ghost direction: string, ghost foe: Enemies.Enemy?, ghost home: nat) returns (events: seq<RogueEvent>, canMove: bool)
      requires Valid() && HeroReady() && PlacedAt(home) && (foe != null ==> foe.Valid())
      modifies character
      ensures foe != null ==> foe.Valid()
      ensures Valid() && HeroReady() && PlacedAt(home) && Sites() == old(Sites())
      ensures AimOf(old(character.crd), direction) == old(AimOf(character.crd, direction)) && character.crd == old(character.crd)
      ensures canMove <==> !EB.Drowsy(old(character.effects))
      ensures events == Ch.EffectEvents(old(character.State()), character.nickname)
      ensures State() == Rested(old(State()))
    {
      assert forall d :: d in RoomDoors() + CorridorDoors() ==> allocated(d);
      events, canMove := Refresh(foe, home);
    }

    /** `check_object_effects` itself: the character's effects one turn on. */
    method Refresh(ghost foe: Enemies.Enemy?, ghost home: nat) returns (events: seq<RogueEvent>, canMove: bool)
      requires Valid() && HeroReady() && PlacedAt(home) && (foe != null ==> foe.Valid())
      modifies character
      ensures Valid() && HeroReady() && PlacedAt(home) && character.crd == old(character.crd)
      ensures foe != null ==> foe.Valid()
      ensures Sites() == old(Sites())
      ensures canMove <==> !EB.Drowsy(old(character.effects))
      ensures events == Ch.EffectEvents(old(character.State()), character.nickname)
      ensures State() == Rested(old(State()))
    {
      ghost var sites := Sites();
      events, canMove := Weary(character, foe);
      assert Sites() == sites;
    }

    /**
     * `__move_character`: the first place that holds `crd` or has a locked
     * door in front of it moves the character there as `MoveActor` says;
     * when no place does, nothing happens.
     */
    method MoveHero(crd: Crd, hitTest: (int, int) -> bool, goldRaw: nat, ups: nat -> Ch.Ups, ghost home: nat)
      returns (r: Result<seq<RogueEvent>>)
      requires Valid() && HeroReady() && PlacedAt(home) && crd != character.crd
      requires FirstReaching(0, crd) < NumPlaces() ==> FoeReady(FirstReaching(0, crd), crd)
      requires forall i: nat :: Ch.UpsInRange(ups(i))
      modifies rooms, corridors, character, character.stats, character.backpack.items
      modifies if FirstReaching(0, crd) < NumPlaces() then Struck(FirstReaching(0, crd), crd) else {}
      ensures HeroReady()
      ensures old(FirstReaching(0, crd)) == old(NumPlaces()) ==> r == Success([]) && State() == old(State())
      ensures old(FirstReaching(0, crd)) < old(NumPlaces()) ==>
        var p := old(FirstReaching(0, crd));
        crd in old(Objects(p)) ==>
        var e := old(Objects(p))[crd].enemy;
        && old(Objects(p))[crd].Foe? && e.Valid() && PlacedAt(home)
        && (e.ExpCount() == 0 ==> r.Success? && Sites() == old(Sites()))
        && (e.ExpCount() != 0 ==> Sites() == old(Sites())[p := old(SiteOf(p)).WithObjects(old(Objects(p)) - {crd})])
        && (r.Failure? <==> e.ExpCount() < 0)
        && (r.Failure? ==> r.error == EmptyRange(e.ExpCount() / 2, e.ExpCount() * 2))
        && LedgerOf(character) == if e.ExpCount() > 0 then Award(old(LedgerOf(character)), e.ExpCount(), goldRaw, ups)
                                  else old(LedgerOf(character))
      ensures old(FirstReaching(0, crd)) < old(NumPlaces()) ==>
        var p := old(FirstReaching(0, crd));
        crd !in old(Objects(p)) && old(FaceDoor(p, crd)) != null ==>
        var d := old(FaceDoor(p, crd));
        && PlacedAt(home) && Sites() == old(Sites())
        && (old(d.color) in old(character.keys) ==>
              && !d.lock && d.color == DoorBaseColor && r == Success([DoorOpened])
              && character.State() == old(character.State()).(rest := old(character.Rest()).(keys := Lists.RemoveFirst(old(character.keys), old(d.color)))))
        && (old(d.color) !in old(character.keys) ==>
              && d.lock == old(d.lock) && d.color == old(d.color) && r == Success([DoorLocked])
              && character.State() == old(character.State()))
      ensures old(FirstReaching(0, crd)) < old(NumPlaces()) ==>
        var p := old(FirstReaching(0, crd));
        crd !in old(Objects(p)) && old(FaceDoor(p, crd)) == null ==>
        && PlacedAt(p) && character.crd == crd
        && State() == Entered(Gathered(old(State()), p, crd), home, p, crd)
        && r == Success(Found(old(State()), p, crd))
    {
      var f := FirstReaching(0, crd);
      if f == NumPlaces() {
        return Success([]);
      }
      assert Place(f) in rooms || Place(f) in corridors;
      r := MoveActor(f, crd, hitTest, goldRaw, ups, home);
    }

    /**
     * `__move_actor`: the character, standing in place `home`, moves onto
     * `crd` of place `p`. An enemy there is attacked and a locked door
     * there is knocked on, and in both cases the character stays put;
     * otherwise it walks in, gathering what lies there.
     */
    method MoveActor(p: nat, crd: Crd, hitTest: (int, int) -> bool, goldRaw: nat, ups: nat -> Ch.Ups, ghost home: nat)
      returns (r: Result<seq<RogueEvent>>)
      requires Valid() && p < NumPlaces() && HeroReady() && PlacedAt(home) && FoeReady(p, crd) && crd != character.crd
      requires forall i: nat :: Ch.UpsInRange(ups(i))
      modifies Place(p), rooms, corridors, character, character.stats, character.backpack.items
      modifies if crd in Objects(p) && Objects(p)[crd].Foe? then {Objects(p)[crd].enemy} else {}
      modifies if FaceDoor(p, crd) != null then {FaceDoor(p, crd)} else {}
      ensures HeroReady()
      ensures crd in old(Objects(p)) ==>
        var e := old(Objects(p))[crd].enemy;
        && old(Objects(p))[crd].Foe? && e.Valid() && PlacedAt(home)
        && (e.ExpCount() == 0 ==> r.Success? && Sites() == old(Sites()))
        && (e.ExpCount() != 0 ==> Sites() == old(Sites())[p := old(SiteOf(p)).WithObjects(old(Objects(p)) - {crd})])
        && (r.Failure? <==> e.ExpCount() < 0)
        && (r.Failure? ==> r.error == EmptyRange(e.ExpCount() / 2, e.ExpCount() * 2))
        && LedgerOf(character) == if e.ExpCount() > 0 then Award(old(LedgerOf(character)), e.ExpCount(), goldRaw, ups)
                                  else old(LedgerOf(character))
      ensures crd !in old(Objects(p)) && old(FaceDoor(p, crd)) != null ==>
        var d := old(FaceDoor(p, crd));
        && PlacedAt(home) && Sites() == old(Sites())
        && (old(d.color) in old(character.keys) ==>
              && !d.lock && d.color == DoorBaseColor && r == Success([DoorOpened])
              && character.State() == old(character.State()).(rest := old(character.Rest()).(keys := Lists.RemoveFirst(old(character.keys), old(d.color)))))
        && (old(d.color) !in old(character.keys) ==>
              && d.lock == old(d.lock) && d.color == old(d.color) && r == Success([DoorLocked])
              && character.State() == old(character.State()))
      ensures crd !in old(Objects(p)) && old(FaceDoor(p, crd)) == null ==>
        && PlacedAt(p) && character.crd == crd
        && State() == Entered(Gathered(old(State()), p, crd), home, p, crd)
        && r == Success(Found(old(State()), p, crd))
    {
      if crd in Objects(p) {
        r := Fight(p, crd, hitTest, goldRaw, ups, home);
        return;
      }
      if FaceDoor(p, crd) != null {
        r := Push(p, crd, home);
        return;
      }
      var events := Walk(p, crd, home);
      r := Success(events);
    }

    /**
     * `__move_actor` on a cell with an enemy: the attack, after which the
     * character still stands where it stood.
     */
    method Fight(p: nat, crd: Crd, hitTest: (int, int) -> bool, goldRaw: nat, ups: nat -> Ch.Ups, ghost home: nat)
      returns (r: Result<seq<RogueEvent>>)
      requires Valid() && p < NumPlaces() && HeroReady() && PlacedAt(home) && FoeReady(p, crd) && crd != character.crd
      requires crd in Objects(p)
      requires forall i: nat :: Ch.UpsInRange(ups(i))
      modifies Place(p), character, character.stats, FoeAt(p, crd)
      ensures HeroReady()
      ensures var e := old(Objects(p))[crd].enemy;
        && old(Objects(p))[crd].Foe? && e.Valid() && PlacedAt(home)
        && (e.ExpCount() == 0 ==> r.Success? && Sites() == old(Sites()))
        && (e.ExpCount() != 0 ==> Sites() == old(Sites())[p := old(SiteOf(p)).WithObjects(old(Objects(p)) - {crd})])
        && (r.Failure? <==> e.ExpCount() < 0)
        && (r.Failure? ==> r.error == EmptyRange(e.ExpCount() / 2, e.ExpCount() * 2))
        && LedgerOf(character) == if e.ExpCount() > 0 then Award(old(LedgerOf(character)), e.ExpCount(), goldRaw, ups)
                                  else old(LedgerOf(character))
    {
      assert Sites()[p] == SiteOf(p);
      var e := Objects(p)[crd].enemy;
      r := AttackEnemy(p, crd, e, hitTest, goldRaw, ups);
      RemoveFoeKeepsPlaced(old(Sites()), home, character.crd, p, crd);
    }

    /**
     * `__move_actor` on a free cell with a locked door in front of it: the
     * knock, after which the character still stands where it stood.
     */
    method Push(p: nat, crd: Crd, ghost home: nat) returns (r: Result<seq<RogueEvent>>)
      requires Valid() && p < NumPlaces() && HeroReady() && PlacedAt(home) && FaceDoor(p, crd) != null
      modifies character, FaceDoor(p, crd)
      ensures var d := old(FaceDoor(p, crd));
        && HeroReady() && PlacedAt(home) && Sites() == old(Sites())
        && (old(d.color) in old(character.keys) ==>
              && !d.lock && d.color == DoorBaseColor && r == Success([DoorOpened])
              && character.State() == old(character.State()).(rest := old(character.Rest()).(keys := Lists.RemoveFirst(old(character.keys), old(d.color)))))
        && (old(d.color) !in old(character.keys) ==>
              && d.lock == old(d.lock) && d.color == old(d.color) && r == Success([DoorLocked])
              && character.State() == old(character.State()))
    {
      var event := Knock(FaceDoor(p, crd));
      r := Success([event]);
    }

    /**
     * `__move_actor` on a free cell with no locked door: the exit, the
     * item and the key there, then the character moves in.
     */
    method Walk(p: nat, crd: Crd, ghost home: nat) returns (events: seq<RogueEvent>)
      requires Valid() && p < NumPlaces() && HeroReady() && PlacedAt(home)
      modifies Place(p), rooms, corridors, character, character.stats, character.backpack.items
      ensures HeroReady() && PlacedAt(p) && character.crd == crd
      ensures State() == Entered(Gathered(old(State()), p, crd), home, p, crd)
      ensures events == Found(old(State()), p, crd)
    {
      events := Gather(p, crd, home);
      Enter(p, crd, home);
    }

    /**
     * The end of `__move_actor`: the character leaves its place and now
     * stands on `crd` of place `p`, and one more cell is counted as passed.
     */
    method Enter(p: nat, crd: Crd, ghost home: nat)
      requires Valid() && p < NumPlaces() && PlacedAt(home) && HeroReady()
      modifies rooms, corridors, character, character.stats
      ensures PlacedAt(p) && character.crd == crd && HeroReady()
      ensures State() == Entered(old(State()), home, p, crd)
    {
      Relocate(p, crd, home);
      ghost var after := Sites();
      Step(character, crd);
      assert Sites() == after;
    }

    /**
     * `__knock_the_door`: with a key of the door's colour the door unlocks,
     * takes the base colour and the first such key is spent; without one
     * the door stays as it is.
     */
    method Knock(d: Door) returns (e: RogueEvent)
      modifies d, character
      ensures old(d.color) in old(character.keys) ==>
        && !d.lock && d.color == DoorBaseColor && e == DoorOpened
        && character.State() == old(character.State()).(rest := old(character.Rest()).(keys := Lists.RemoveFirst(old(character.keys), old(d.color))))
      ensures old(d.color) !in old(character.keys) ==>
        && d.lock == old(d.lock) && d.color == old(d.color) && e == DoorLocked
        && character.State() == old(character.State())
    {
      if d.color in character.keys {
        d.lock := false;
        character.UseKey(d.color);
        d.color := DoorBaseColor;
        return DoorOpened;
      }
      return DoorLocked;
    }

    /**
     * `__attack_enemy`: the enemy on `crd` takes the character's blow. A
     * dead one leaves the place; its experience becomes gold and levels for
     * the character, and one more enemy counts as defeated. A negative
     * experience makes the gold draw `randint(exp // 2, exp * 2)` raise
     * ValueError once the enemy has left.
     */
    method AttackEnemy(p: nat, crd: Crd, e: Enemies.Enemy, hitTest: (int, int) -> bool, goldRaw: nat, ups: nat -> Ch.Ups)
      returns (r: Result<seq<RogueEvent>>)
      requires Valid() && p < NumPlaces() && crd in Objects(p) && Objects(p)[crd] == Foe(e)
      requires e.Valid() && HeroReady()
      requires forall i: nat :: Ch.UpsInRange(ups(i))
      modifies Place(p), e, character, character.stats
      ensures HeroReady() && e.Valid() && (e.ExpCount() == 0 || !e.IsAlive())
      ensures e.ExpCount() == 0 ==> r.Success? && Sites() == old(Sites())
      ensures e.ExpCount() != 0 ==> Sites() == old(Sites())[p := old(SiteOf(p)).WithObjects(old(Objects(p)) - {crd})]
      ensures r.Failure? <==> e.ExpCount() < 0
      ensures r.Failure? ==> r.error == EmptyRange(e.ExpCount() / 2, e.ExpCount() * 2)
      ensures LedgerOf(character) == if e.ExpCount() > 0 then Award(old(LedgerOf(character)), e.ExpCount(), goldRaw, ups)
                                     else old(LedgerOf(character))
    {
      var events, exp := Slay(p, crd, e, hitTest);
      if exp == 0 {
        return Success(events);
      }
      var settled := Settle(character, exp, goldRaw, ups);
      r := if settled.Success? then Success(events + settled.value) else settled;
    }

    /**
     * The map side of `__attack_enemy`: the blow, and the enemy taken off
     * the map once it is dead. The character is as before but for the hit
     * counts of its statistics.
     */
    method Slay(p: nat, crd: Crd, e: Enemies.Enemy, hitTest: (int, int) -> bool) returns (events: seq<RogueEvent>, exp: int)
      requires Valid() && p < NumPlaces() && crd in Objects(p) && Objects(p)[crd] == Foe(e)
      requires e.Valid() && HeroReady()
      modifies Place(p), e, character.stats
      ensures HeroReady() && e.Valid() && exp == e.ExpCount() && (exp == 0 || !e.IsAlive())
      ensures exp == 0 ==> Sites() == old(Sites())
      ensures exp != 0 ==> Sites() == old(Sites())[p := old(SiteOf(p)).WithObjects(old(Objects(p)) - {crd})]
      ensures LedgerOf(character) == old(LedgerOf(character))
    {
      assert Place(p) != character && Place(p) != character.stats && Place(p) != e;
      assert Place(p) != character.backpack && Place(p) != character.backpack.items;
      events, exp := Strike(e, hitTest);
      if exp != 0 {
        var _ := RemoveObjectAt(p, crd);
      }
    }

    /**
     * The blow of `__attack_enemy`: `harm` of the enemy with the character's
     * `attack`. Only the hit counts of the statistics change.
     */
    method Strike(e: Enemies.Enemy, hitTest: (int, int) -> bool) returns (events: seq<RogueEvent>, exp: int)
      requires e.Valid()
      modifies e, character.stats
      ensures e.Valid() && exp == e.ExpCount() && (exp == 0 || !e.IsAlive())
      ensures character.stats.gold == old(character.stats.gold)
      ensures character.stats.defeatedEnemies == old(character.stats.defeatedEnemies)
    {
      var a := character.Attack();
      events, exp := e.Harm(a.0, a.1, a.2, a.3, hitTest, character.stats);
    }

    /**
     * The part of `__move_actor` between knocking and relocating: an exit
     * on `crd` of a room, then the item there and then, in a room, the key
     * there, each with its event.
     */
    method Gather(p: nat, crd: Crd, ghost home: nat) returns (events: seq<RogueEvent>)
      requires Valid() && p < NumPlaces() && HeroReady() && PlacedAt(home)
      modifies Place(p), character, character.stats, character.backpack.items
      ensures HeroReady() && PlacedAt(home)
      ensures State() == Gathered(old(State()), p, crd)
      ensures events == Found(old(State()), p, crd)
    {
      var exit := if p < |rooms| && rooms[p].IsExit(crd) then [ExitFound] else [];
      ghost var w0 := State();
      var picked := PickUpIfAny(p, crd);
      ghost var w1 := State();
      assert w1.sites[p].RoomSite? <==> p < |rooms|;
      var key := KeyIfRoom(p, crd);
      events := exit + picked + key;
      GatheredKeepsPlaced(w0, p, crd, home, character.crd);
    }

    /** The item on `crd`, if any, picked up. */
    method PickUpIfAny(p: nat, crd: Crd) returns (events: seq<RogueEvent>)
      requires Valid() && p < NumPlaces() && HeroReady()
      modifies Place(p), character, character.stats, character.backpack.items
      ensures HeroReady()
      ensures State() == if crd in old(Items(p)) then PickedUp(old(State()), p, crd) else old(State())
      ensures events == if crd in old(Items(p)) then PickUpMessages(old(Items(p))[crd], HasRoomFor(old(State()), old(Items(p))[crd])) else []
    {
      events := [];
      if crd in Items(p) {
        events := PickUpAt(p, crd);
      }
    }

    /** In a room, the key on `crd`, if any, taken. */
    method KeyIfRoom(p: nat, crd: Crd) returns (events: seq<RogueEvent>)
      requires Valid() && p < NumPlaces()
      modifies Place(p), character
      ensures State() == if p < |rooms| then KeyTaken(old(State()), p, crd) else old(State())
      ensures events == if p < |rooms| && crd in old(rooms[p].keys) then [KeyFound(old(rooms[p].keys)[crd])] else []
      ensures character.Valid() == old(character.Valid()) && character.maxExp == old(character.maxExp)
      ensures unchanged(character.backpack, character.backpack.items)
    {
      events := [];
      if p < |rooms| {
        var k := TakeKeyAt(p, crd);
        if k.Some? {
          events := [KeyFound(k.value)];
        }
      }
    }

    /** `get_key` of room `p`: a key on `crd` leaves the room and its colour, less 3, joins the character's keys. */
    method TakeKeyAt(p: nat, crd: Crd) returns (k: Option<Key>)
      requires Valid() && p < |rooms|
      modifies rooms[p], character
      ensures k.Some? <==> crd in old(rooms[p].keys)
      ensures k.Some? ==> k.value == old(rooms[p].keys)[crd]
      ensures State() == KeyTaken(old(State()), p, crd)
    {
      k := rooms[p].GetKey(crd, character);
    }

    /**
     * `__pick_up_item`: the character picks up the item on `crd`, which
     * leaves the place only when it was taken.
     */
    method PickUpAt(p: nat, crd: Crd) returns (events: seq<RogueEvent>)
      requires Valid() && p < NumPlaces() && crd in Items(p) && HeroReady()
      modifies Place(p), character, character.stats, character.backpack.items
      ensures HeroReady()
      ensures State() == PickedUp(old(State()), p, crd)
      ensures events == PickUpMessages(old(Items(p))[crd], HasRoomFor(old(State()), old(Items(p))[crd]))
    {
      assert Place(p) != character && Place(p) != character.stats;
      assert Place(p) != character.backpack && Place(p) != character.backpack.items;
      ghost var w0 := State();
      var picked;
      events, picked := character.PickUpItem(Items(p)[crd]);
      assert picked == HasRoomFor(w0, w0.sites[p].Items()[crd]);
      assert Sites() == w0.sites;
      if picked {
        var _ := RemoveItemAt(p, crd);
      }
    }

    /** `is_in_place` of the enemy moves: some place holds `crd` with no object on it. */
    predicate Free(crd: Crd)
      reads this, rooms, corridors, CorridorDoors()
    {
      exists p :: 0 <= p < NumPlaces() && IsInAndAvailableForMove(p, crd)
    }

    /** `Free` of each cell. */
    function Frees(cells: seq<Crd>): (fs: seq<bool>)
      reads this, rooms, corridors, CorridorDoors()
      ensures |fs| == |cells| && forall i :: 0 <= i < |cells| ==> fs[i] == Free(cells[i])
    {
      if cells == [] then [] else [Free(cells[0])] + Frees(cells[1..])
    }

    /** `Frees` of each line. */
    function FreesOf(lines: seq<seq<Crd>>): (fs: seq<seq<bool>>)
      reads this, rooms, corridors, CorridorDoors()
      ensures |fs| == |lines| && forall d :: 0 <= d < |lines| ==> fs[d] == Frees(lines[d])
    {
      if lines == [] then [] else [Frees(lines[0])] + FreesOf(lines[1..])
    }

    /** The options of a standard move of speed `speed` from `crd`, each probe going outward. */
    function Standard(crd: Crd, speed: nat): seq<Crd>
      reads this, rooms, corridors, CorridorDoors()
    {
      Moves.Options(Moves.Axes(crd, speed), FreesOf(Moves.Axes(crd, speed)))
    }

    /** The options of a diagonal move of speed `speed` from `crd`. */
    function Diagonal(crd: Crd, speed: nat): seq<Crd>
      reads this, rooms, corridors, CorridorDoors()
    {
      Moves.Spread(Moves.Diagonals(crd, speed), FreesOf(Moves.Diagonals(crd, speed)), speed).options
    }

    /**
     * A standard move offers exactly the cells on one of the four axes,
     * within the speed, that are free with every cell between them and the
     * enemy free too.
     */
    lemma StandardReaches(crd: Crd, speed: nat, c: Crd)
      ensures c in Standard(crd, speed) <==>
        exists d, j :: 0 <= d < 4 && 0 <= j < speed && Moves.Axes(crd, speed)[d][j] == c &&
          forall t :: 0 <= t <= j ==> Free(Moves.Axes(crd, speed)[d][t])
    {
      var lines := Moves.Axes(crd, speed);
      Moves.OptionsReached(lines, FreesOf(lines), speed, c);
    }

    /**
     * A diagonal move offers exactly the cells on one of the four
     * diagonals, within the speed, that are free with every cell between
     * them and the enemy free too.
     */
    lemma DiagonalReaches(crd: Crd, speed: nat, c: Crd)
      ensures c in Diagonal(crd, speed) <==>
        exists d, j :: 0 <= d < 4 && 0 <= j < speed && Moves.Diagonals(crd, speed)[d][j] == c &&
          forall t :: 0 <= t <= j ==> Free(Moves.Diagonals(crd, speed)[d][t])
    {
      var lines := Moves.Diagonals(crd, speed);
      Moves.SpreadReached(lines, FreesOf(lines), speed);
    }

    /** The four probes of `__make_standard_move`, left, right, up and down, each going outward. */
    method StandardOptions(crd: Crd, speed: nat) returns (options: seq<Crd>)
      ensures options == old(Standard(crd, speed))
    {
      assert forall d :: d in CorridorDoors() ==> allocated(d);
      var lines := Moves.Axes(crd, speed);
      options := Moves.Probes(lines, FreesOf(lines));
    }

    /**
     * The loop of `__make_diagonal_move`: at each distance from 1 to the
     * speed the directions down-right, up-right, up-left and down-left in
     * turn offer their cell while they are open and the cell is free, and
     * close otherwise.
     */
    method DiagonalOptions(crd: Crd, speed: nat) returns (options: seq<Crd>)
      ensures options == old(Diagonal(crd, speed))
    {
      assert forall d :: d in CorridorDoors() ==> allocated(d);
      var lines := Moves.Diagonals(crd, speed);
      options := Moves.Fanned(lines, FreesOf(lines), speed);
    }

    /** The first place from `q` on whose `is_in` holds `crd`, or `NumPlaces()` when none does. */
    function FirstIn(q: nat, crd: Crd): (f: nat)
      requires q <= NumPlaces()
      reads this, rooms, corridors, CorridorDoors()
      ensures q <= f <= NumPlaces()
      ensures forall k :: q <= k < f ==> !IsIn(k, crd)
      ensures f < NumPlaces() ==> IsIn(f, crd)
      decreases NumPlaces() - q
    {
      if q == NumPlaces() || IsIn(q, crd) then q else FirstIn(q + 1, crd)
    }

    /**
     * The place `__replace_enemy_on_map` puts an enemy of place `p` going
     * to `to` in: `p` itself when it holds `to`, else the first place that
     * does, else `NumPlaces()`.
     */
    function Dest(p: nat, to: Crd): (q: nat)
      requires p < NumPlaces()
      reads this, rooms, corridors, CorridorDoors()
      ensures q <= NumPlaces()
      ensures q < NumPlaces() ==> IsIn(q, to)
      ensures q == NumPlaces() <==> forall k :: 0 <= k < NumPlaces() ==> !IsIn(k, to)
      ensures IsIn(p, to) ==> q == p
    {
      if IsIn(p, to) then p else FirstIn(0, to)
    }

    /** `__replace_enemy_on_map`: see `Replaced`. */
    method ReplaceEnemy(p: nat, crd: Crd, to: Crd, e: Enemies.Enemy) returns (r: Result<()>)
      requires Valid() && p < NumPlaces()
      modifies rooms, corridors
      ensures Replaced(old(Sites()), Sites(), old(Dest(p, to)), p, crd, to, e, r)
    {
      var q := Dest(p, to);
      if q == NumPlaces() {
        return Success(());
      }
      assert Place(q) in rooms || Place(q) in corridors;
      AddObjectAt(q, to, Foe(e));
      r := RemoveObjectAt(p, crd);
    }

    /** Where a move to the chosen cell `c` lands: `Dest`, or `NumPlaces()` when nothing was chosen. */
    function DestOf(p: nat, c: Option<Crd>): (q: nat)
      requires p < NumPlaces()
      reads this, rooms, corridors, CorridorDoors()
      ensures q <= NumPlaces()
    {
      if c.None? then NumPlaces() else Dest(p, c.value)
    }

    /** The options of a standard move, or of a diagonal one when `diagonal` holds and `p` is a room. */
    function PatternOptions(p: nat, crd: Crd, speed: nat, diagonal: bool): seq<Crd>
      reads this, rooms, corridors, CorridorDoors()
    {
      if diagonal && p < |rooms| then Diagonal(crd, speed) else Standard(crd, speed)
    }

    /** The cell `choice` takes among those options with the index `pick`. */
    function Choice(p: nat, crd: Crd, speed: nat, diagonal: bool, pick: nat): Option<Crd>
      reads this, rooms, corridors, CorridorDoors()
    {
      Chosen(PatternOptions(p, crd, speed, diagonal), pick)
    }

    /** The place the move to that cell lands in. */
    function ChoiceDest(p: nat, crd: Crd, speed: nat, diagonal: bool, pick: nat): nat
      requires p < NumPlaces()
      reads this, rooms, corridors, CorridorDoors()
    {
      DestOf(p, Choice(p, crd, speed, diagonal, pick))
    }

    /** The move `choice` makes among `options`, if there are any. */
    method MoveAmong(p: nat, crd: Crd, e: Enemies.Enemy, options: seq<Crd>, pick: nat) returns (r: Result<()>)
      requires Valid() && p < NumPlaces()
      modifies rooms, corridors
      ensures Went(old(Sites()), Sites(), Chosen(options, pick), old(DestOf(p, Chosen(options, pick))), p, crd, e, r)
    {
      if options == [] {
        return Success(());
      }
      r := ReplaceEnemy(p, crd, options[pick % |options|], e);
    }

    /**
     * `__make_standard_move`: a speed of 0 or less is a ValueError;
     * otherwise the enemy goes to the option `pick` chooses among the
     * cells its four probes reach (`StandardReaches`), and stays when
     * there are none.
     */
    method StandardMove(p: nat, crd: Crd, e: Enemies.Enemy, pick: nat) returns (r: Result<()>)
      requires Valid() && p < NumPlaces()
      modifies rooms, corridors
      ensures e.speed <= 0 ==> r == Failure(NoSpeed("STANDARD")) && Sites() == old(Sites())
      ensures e.speed > 0 ==> Went(old(Sites()), Sites(), old(Choice(p, crd, e.speed, false, pick)), old(ChoiceDest(p, crd, e.speed, false, pick)), p, crd, e, r)
    {
      if e.speed <= 0 {
        return Failure(NoSpeed("STANDARD"));
      }
      assert forall d :: d in CorridorDoors() ==> allocated(d);
      ghost var q0 := ChoiceDest(p, crd, e.speed, false, pick);
      var options := StandardOptions(crd, e.speed);
      assert Chosen(options, pick) == old(Choice(p, crd, e.speed, false, pick));
      assert DestOf(p, Chosen(options, pick)) == q0;
      r := MoveAmong(p, crd, e, options, pick);
    }

    /**
     * `__make_diagonal_move`: a speed of 0 or less is a ValueError; in a
     * corridor the move is a standard one; in a room the enemy goes to the
     * option `pick` chooses among the cells the four diagonals reach
     * (`DiagonalReaches`), and stays when there are none.
     */
    method DiagonalMove(p: nat, crd: Crd, e: Enemies.Enemy, pick: nat) returns (r: Result<()>)
      requires Valid() && p < NumPlaces()
      modifies rooms, corridors
      ensures e.speed <= 0 ==> r == Failure(NoSpeed("DIAGONAL")) && Sites() == old(Sites())
      ensures e.speed > 0 ==> Went(old(Sites()), Sites(), old(Choice(p, crd, e.speed, true, pick)), old(ChoiceDest(p, crd, e.speed, true, pick)), p, crd, e, r)
    {
      if e.speed <= 0 {
        return Failure(NoSpeed("DIAGONAL"));
      }
      if p >= |rooms| {
        assert Choice(p, crd, e.speed, true, pick) == Choice(p, crd, e.speed, false, pick);
        r := StandardMove(p, crd, e, pick);
        return;
      }
      r := DiagonalInRoom(p, crd, e, pick);
    }

    /** The loop and the `choice` of `__make_diagonal_move` for an enemy in a room. */
    method DiagonalInRoom(p: nat, crd: Crd, e: Enemies.Enemy, pick: nat) returns (r: Result<()>)
      requires Valid() && p < |rooms| && e.speed > 0
      modifies rooms, corridors
      ensures Went(old(Sites()), Sites(), old(Choice(p, crd, e.speed, true, pick)), old(ChoiceDest(p, crd, e.speed, true, pick)), p, crd, e, r)
    {
      assert forall d :: d in CorridorDoors() ==> allocated(d);
      assert PatternOptions(p, crd, e.speed, true) == Diagonal(crd, e.speed);
      ghost var q0 := ChoiceDest(p, crd, e.speed, true, pick);
      var options := DiagonalOptions(crd, e.speed);
      assert Chosen(options, pick) == old(Choice(p, crd, e.speed, true, pick));
      assert DestOf(p, Chosen(options, pick)) == q0;
      r := MoveAmong(p, crd, e, options, pick);
    }

    /**
     * The error `get_random_crd_in_zone` of place `p` raises for a jump of
     * radius `radius` from `crd`: an empty draw range in a room, or no
     * free cell of the zone in a corridor; radius 0 raises none.
     */
    function JumpError(p: nat, crd: Crd, radius: int): Option<Error>
      requires p < NumPlaces()
      reads this, rooms, corridors
    {
      if radius == 0 then None
      else if p < |rooms| then
        var (ylo, yhi, xlo, xhi) := rooms[p].ZoneBounds(crd, radius);
        if xlo > xhi then Some(EmptyRange(xlo, xhi))
        else if ylo > yhi then Some(EmptyRange(ylo, yhi))
        else None
      else if corridors[p - |rooms|].Zone(crd, radius) == {} then Some(EmptyChoice)
      else None
    }

    /**
     * The cell can be a draw of that jump: in a room, inside the rectangle
     * (radius 0) or the clipped square; in a corridor with radius 0, a
     * path cell. A corridor's zone is chosen from, not drawn.
     */
    predicate Drawable(p: nat, crd: Crd, radius: int, c: Crd)
      requires p < NumPlaces()
      reads this, rooms, corridors
    {
      if p < |rooms| then
        InBox(c, if radius == 0 then (rooms[p].y, rooms[p].y2, rooms[p].x, rooms[p].x2) else rooms[p].ZoneBounds(crd, radius))
      else radius == 0 && c in corridors[p - |rooms|].cells
    }

    /**
     * The cell is one the jump may land on: in a room, inside it, holding
     * no object, item or key (nor the exit, with radius 0) and within the
     * radius; in a corridor, a path cell with no object or item within the
     * radius.
     */
    predicate Landing(p: nat, crd: Crd, radius: int, c: Crd)
      requires p < NumPlaces()
      reads this, rooms, corridors
    {
      if p < |rooms| then
        var room := rooms[p];
        && room.IsIn(c) && c !in room.objects && c !in room.items && c !in room.keys
        && (radius == 0 ==> c !in room.exits)
        && (radius != 0 ==> InZone(c, crd, radius))
      else
        var cor := corridors[p - |rooms|];
        c in cor.cells && c !in cor.objects && c !in cor.items && (radius != 0 ==> InZone(c, crd, radius))
    }

    /** The draw of a jumping enemy in room `p`. */
    method RoomLanding(p: nat, crd: Crd, radius: int, draws: seq<Crd>) returns (r: Result<Option<Crd>>)
      requires p < |rooms|
      ensures JumpError(p, crd, radius).Some? ==> r == Failure(JumpError(p, crd, radius).value)
      ensures JumpError(p, crd, radius).None? ==> r.Success?
      ensures r.Success? && r.value.Some? ==> Landing(p, crd, radius, r.value.value)
      ensures r.Success? && r.value.None? ==> forall c :: c in draws && Drawable(p, crd, radius, c) ==> !Landing(p, crd, radius, c)
    {
      var room := rooms[p];
      var box := if radius == 0 then (room.y, room.y2, room.x, room.x2) else room.ZoneBounds(crd, radius);
      var kept := Keep(draws, c => InBox(c, box));
      r := room.GetRandomCrdInZone(crd, radius, kept);
    }

    /** The draw or choice of a jumping enemy in corridor `p`; `None` when no drawn cell was free. */
    method CorridorLanding(p: nat, crd: Crd, radius: int, draws: seq<Crd>) returns (r: Result<Option<Crd>>)
      requires |rooms| <= p < NumPlaces()
      ensures JumpError(p, crd, radius).Some? ==> r == Failure(JumpError(p, crd, radius).value)
      ensures JumpError(p, crd, radius).None? ==> r.Success?
      ensures r.Success? && r.value.Some? ==> Landing(p, crd, radius, r.value.value)
      ensures r.Success? && r.value.None? ==> forall c :: c in draws && Drawable(p, crd, radius, c) ==> !Landing(p, crd, radius, c)
    {
      var cor := corridors[p - |rooms|];
      var cells := cor.cells;
      if radius == 0 {
        var kept := Keep(draws, c => c in cells);
        var c := cor.GetRandomCrdInZone(crd, radius, kept, crd);
        return Success(c.value);
      }
      var zone := cor.Zone(crd, radius);
      var pick := crd;
      if zone != {} {
        pick :| pick in zone;
      }
      var c := cor.GetRandomCrdInZone(crd, radius, [], pick);
      if c.Failure? {
        return Failure(c.error);
      }
      return Success(c.value);
    }

    /**
     * `__make_jump_move`: the enemy lands on a cell drawn in its own place
     * (see `Landing`), is added there and removed from `crd`; an error of
     * the draw leaves the map as it was, and so does a turn in which no
     * draw was free.
     */
    method JumpMove(p: nat, crd: Crd, e: Enemies.Enemy, draws: seq<Crd>) returns (r: Result<()>, landed: Option<Crd>)
      requires Valid() && p < NumPlaces()
      modifies rooms, corridors
      ensures old(JumpError(p, crd, e.speed)).Some? ==> r == Failure(old(JumpError(p, crd, e.speed)).value) && landed.None?
      ensures landed.None? ==> Sites() == old(Sites())
      ensures landed.None? && r.Success? ==> forall c :: c in draws && old(Drawable(p, crd, e.speed, c)) ==> !old(Landing(p, crd, e.speed, c))
      ensures landed.Some? ==> Replaced(old(Sites()), Sites(), p, p, crd, landed.value, e, r) && old(Landing(p, crd, e.speed, landed.value))
    {
      var got;
      if p < |rooms| {
        got := RoomLanding(p, crd, e.speed, draws);
      } else {
        got := CorridorLanding(p, crd, e.speed, draws);
      }
      if got.Failure? {
        return Failure(got.error), None;
      }
      if got.value.None? {
        return Success(()), None;
      }
      landed := got.value;
      assert Place(p) in rooms || Place(p) in corridors;
      AddObjectAt(p, landed.value, Foe(e));
      r := RemoveObjectAt(p, crd);
    }

    /**
     * `__casual_enemy_move`: the enemy's pattern picks the standard, the
     * diagonal or the jump move; a mimic (the item pattern) stays put.
     */
    method CasualMove(p: nat, crd: Crd, e: Enemies.Enemy, t: Turn) returns (r: Result<()>)
      requires Valid() && p < NumPlaces()
      modifies rooms, corridors
      ensures Moved(old(Sites()), Sites(), p, crd, e)
      ensures e.pattern.ItemPattern? ==> r.Success? && Sites() == old(Sites())
      ensures e.pattern.Standard? && e.speed <= 0 ==> r == Failure(NoSpeed("STANDARD")) && Sites() == old(Sites())
      ensures e.pattern.Diagonal? && e.speed <= 0 ==> r == Failure(NoSpeed("DIAGONAL")) && Sites() == old(Sites())
      ensures e.pattern.Standard? && e.speed > 0 ==>
        Went(old(Sites()), Sites(), old(Choice(p, crd, e.speed, false, t.pick)), old(ChoiceDest(p, crd, e.speed, false, t.pick)), p, crd, e, r)
      ensures e.pattern.Diagonal? && e.speed > 0 ==>
        Went(old(Sites()), Sites(), old(Choice(p, crd, e.speed, true, t.pick)), old(ChoiceDest(p, crd, e.speed, true, t.pick)), p, crd, e, r)
    {
      match e.pattern
      case Standard =>
        r := StandardMove(p, crd, e, t.pick);
        if e.speed > 0 {
          WentMoved(old(Sites()), Sites(), old(Choice(p, crd, e.speed, false, t.pick)), old(ChoiceDest(p, crd, e.speed, false, t.pick)), p, crd, e, r);
        }
      case Diagonal =>
        r := DiagonalMove(p, crd, e, t.pick);
        if e.speed > 0 {
          WentMoved(old(Sites()), Sites(), old(Choice(p, crd, e.speed, true, t.pick)), old(ChoiceDest(p, crd, e.speed, true, t.pick)), p, crd, e, r);
        }
      case Jump =>
        var landed;
        r, landed := JumpMove(p, crd, e, t.draws);
        if landed.Some? {
          assert Sites() == Shift(old(Sites()), p, p, crd, landed.value, Foe(e));
        }
      case ItemPattern =>
        r := Success(());
    }

    /** The moves the chase keeps for an enemy on `crd` (see `Chase.IntendedSound`). */
    function ChaseOptions(crd: Crd): seq<Crd>
      reads this, rooms, corridors, CorridorDoors(), character
    {
      Chase.Intended(crd, character.crd, Frees(Chase.Neighbours(crd)), 4).moves
    }

    /** The cell `choice` takes among them with the index `pick`. */
    function ChaseChoice(crd: Crd, pick: nat): Option<Crd>
      reads this, rooms, corridors, CorridorDoors(), character
    {
      Chosen(ChaseOptions(crd), pick)
    }

    /** The place the chase step lands in. */
    function ChaseDest(p: nat, crd: Crd, pick: nat): nat
      requires p < NumPlaces()
      reads this, rooms, corridors, CorridorDoors(), character
    {
      DestOf(p, ChaseChoice(crd, pick))
    }

    /** The chase step of `__engaged_enemy_move`: the enemy moves to one of the closest free neighbours, if any. */
    method ChaseStep(p: nat, crd: Crd, e: Enemies.Enemy, pick: nat) returns (r: Result<()>)
      requires Valid() && p < NumPlaces()
      modifies rooms, corridors
      ensures Went(old(Sites()), Sites(), old(ChaseChoice(crd, pick)), old(ChaseDest(p, crd, pick)), p, crd, e, r)
    {
      assert forall d :: d in CorridorDoors() ==> allocated(d);
      ghost var q0 := ChaseDest(p, crd, pick);
      var ns := Chase.Neighbours(crd);
      var best := Chase.Select(crd, character.crd, Frees(ns));
      assert Chosen(best, pick) == old(ChaseChoice(crd, pick));
      assert DestOf(p, Chosen(best, pick)) == q0;
      r := MoveAmong(p, crd, e, best, pick);
    }

    /**
     * `__engaged_enemy_move`: next to the character the enemy attacks, and
     * the character takes the blow as `Hurt` says, which decides `alive`;
     * otherwise it takes the chase step and the character is untouched.
     */
    method EngagedMove(p: nat, crd: Crd, e: Enemies.Enemy, t: Turn, hitTest: (int, int) -> bool)
      returns (r: Result<()>, events: seq<RogueEvent>, alive: bool)
      requires Valid() && p < NumPlaces() && e.Valid() && character.Valid() && TurnInRange(t)
      modifies rooms, corridors, e, character
      ensures e.Valid() && character.Valid()
      ensures Moved(old(Sites()), Sites(), p, crd, e)
      ensures old(character.crd) in Chase.Neighbours(crd) ==>
        var blow := (e.name, Enemies.Damage(old(e.strength), t.u), old(e.agility), e.AttackEffect(t.chance));
        var hit := hitTest(old(e.agility), old(character.agility));
        && r.Success? && Sites() == old(Sites())
        && character.State() == Hurt(old(character.State()), blow, hit)
        && events == HurtEvents(blow, character.nickname, hit)
        && (alive <==> character.hp > 0)
        && (e.kind == Enemies.Ogre ==> e.State() == old(e.State()).(effects := old(e.effects)[Sleep := old(e.effects)[Sleep] + [Enemies.OgreNap]]))
        && (e.kind != Enemies.Ogre ==> e.State() == old(e.State()))
      ensures old(character.crd) !in Chase.Neighbours(crd) ==>
        && Went(old(Sites()), Sites(), old(ChaseChoice(crd, t.pick)), old(ChaseDest(p, crd, t.pick)), p, crd, e, r)
        && events == [] && alive
        && character.State() == old(character.State()) && e.State() == old(e.State())
    {
      if character.crd in Chase.Neighbours(crd) {
        var blow := e.Attack(t.u, t.chance);
        events, alive := character.Harm(blow.0, blow.1, blow.2, blow.3, hitTest);
        r := Success(());
      } else {
        r := ChaseStep(p, crd, e, t.pick);
        WentMoved(old(Sites()), Sites(), old(ChaseChoice(crd, t.pick)), old(ChaseDest(p, crd, t.pick)), p, crd, e, r);
        events, alive := [], true;
      }
    }

    /**
     * A cell the line of sight from an enemy on `crd` passes: some room or
     * corridor holds it, or it is the enemy's own cell and a door of some
     * corridor.
     */
    predicate Clear(crd: Crd, c: Crd)
      reads this, rooms, corridors, CorridorDoors()
    {
      (exists q :: 0 <= q < NumPlaces() && IsIn(q, c))
      || (c == crd && exists k :: 0 <= k < |corridors| && crd in corridors[k].doors)
    }

    /** Every cell of the walk from `crd` to the character is clear. */
    ghost predicate Visible(crd: Crd)
      reads this, rooms, corridors, CorridorDoors(), character
    {
      var cells := Sight.Cells(crd, character.crd);
      forall k :: 0 <= k < |cells| ==> Clear(crd, cells[k])
    }

    /**
     * `__is_point_visible`: the Bresenham walk from `crd` to the character
     * looks at its `1 + dy + dx` cells in turn and answers false at the
     * first one that is not clear.
     */
    method IsPointVisible(crd: Crd) returns (b: bool)
      ensures b == Visible(crd)
    {
      ghost var cells := Sight.Cells(crd, character.crd);
      var ray := Sight.RayOf(crd, character.crd);
      var cur := Sight.StartOf(crd, character.crd);
      for k := 0 to 1 + ray.dy + ray.dx
        invariant cur == Sight.CursorAt(ray, Sight.StartOf(crd, character.crd), k)
        invariant forall j :: 0 <= j < k ==> Clear(crd, cells[j])
      {
        if !Clear(crd, (cur.y, cur.x)) {
          assert cells[k] == (cur.y, cur.x);
          return false;
        }
        cur := Sight.Next(ray, cur);
      }
      return true;
    }

    /**
     * The enemies of place `q`, one entry per cell an enemy stands on, in
     * some order of the cells: the part of the snapshot of
     * `make_rogue_move` for one place.
     */
    method PlaceRoster(q: nat) returns (entries: seq<Entry>)
      requires q < NumPlaces()
      ensures forall i :: 0 <= i < |entries| ==> entries[i].place == q && entries[i].crd in Objects(q) && Objects(q)[entries[i].crd] == Foe(entries[i].foe)
      ensures forall c :: c in Objects(q) && Objects(q)[c].Foe? ==> Entry(q, c, Objects(q)[c].enemy) in entries
      ensures forall i, j :: 0 <= i < j < |entries| ==> entries[i].crd != entries[j].crd
    {
      var m := Objects(q);
      var rest := m.Keys;
      entries := [];
      while rest != {}
        invariant rest <= m.Keys
        invariant forall i :: 0 <= i < |entries| ==> entries[i].place == q && entries[i].crd in m.Keys - rest && m[entries[i].crd] == Foe(entries[i].foe)
        invariant forall c :: c in m.Keys - rest && m[c].Foe? ==> Entry(q, c, m[c].enemy) in entries
        invariant forall i, j :: 0 <= i < j < |entries| ==> entries[i].crd != entries[j].crd
        decreases rest
      {
        var c :| c in rest;
        if m[c].Foe? {
          entries := entries + [Entry(q, c, m[c].enemy)];
        }
        rest := rest - {c};
      }
    }

    /**
     * The snapshot `make_rogue_move` walks: place by place, in the order
     * of the rooms and then the corridors, every enemy with its cell.
     */
    method Roster() returns (roster: seq<Entry>)
      ensures forall i :: 0 <= i < |roster| ==>
        var en := roster[i];
        en.place < NumPlaces() && en.crd in Objects(en.place) && Objects(en.place)[en.crd] == Foe(en.foe)
      ensures forall q, c :: 0 <= q < NumPlaces() && c in Objects(q) && Objects(q)[c].Foe? ==> Entry(q, c, Objects(q)[c].enemy) in roster
      ensures forall i, j :: 0 <= i < j < |roster| ==> roster[i].place <= roster[j].place
      ensures forall i, j :: 0 <= i < j < |roster| ==> (roster[i].place, roster[i].crd) != (roster[j].place, roster[j].crd)
    {
      roster := [];
      for q := 0 to NumPlaces()
        invariant forall i :: 0 <= i < |roster| ==>
          var en := roster[i];
          en.place < q && en.crd in Objects(en.place) && Objects(en.place)[en.crd] == Foe(en.foe)
        invariant forall k, c :: 0 <= k < q && c in Objects(k) && Objects(k)[c].Foe? ==> Entry(k, c, Objects(k)[c].enemy) in roster
        invariant forall i, j :: 0 <= i < j < |roster| ==> roster[i].place <= roster[j].place
        invariant forall i, j :: 0 <= i < j < |roster| ==> (roster[i].place, roster[i].crd) != (roster[j].place, roster[j].crd)
      {
        var entries := PlaceRoster(q);
        roster := roster + entries;
      }
    }

    /**
     * One pass of the loop of `make_rogue_move` for the enemy `e` on `crd`
     * of place `p`: its effects run a turn, and a sleeping enemy does
     * nothing else (`acted` is false); otherwise it acts as `Act` says.
     */
    method EnemyTurn(p: nat, crd: Crd, e: Enemies.Enemy, t: Turn, hitTest: (int, int) -> bool)
      returns (r: Result<()>, events: seq<RogueEvent>, acted: bool, engaged: Option<bool>, ghost blow: Blow)
      requires Valid() && p < NumPlaces() && e.Valid() && character.Valid() && TurnInRange(t)
      modifies rooms, corridors, e, character
      ensures e.Valid() && character.Valid()
      ensures Moved(old(Sites()), Sites(), p, crd, e)
      ensures acted <==> !EB.Drowsy(old(e.effects))
      ensures !acted ==> r.Success? && Sites() == old(Sites()) && engaged.None?
      ensures engaged.Some? <==> acted && Enemies.InReach(crd, old(character.crd), e.hostility) && (old(e.state) == Enemies.Engaged || old(Visible(crd)))
      ensures engaged.Some? && old(character.crd) in Chase.Neighbours(crd) ==>
        && blow.0 == e.name && blow.3 == e.AttackEffect(t.chance)
        && character.State() == Hurt(old(character.State()), blow, hitTest(blow.2, old(character.agility)))
        && (engaged.value <==> character.hp > 0)
      ensures !(engaged.Some? && old(character.crd) in Chase.Neighbours(crd)) ==> character.State() == old(character.State())
      ensures engaged.Some? && old(character.crd) !in Chase.Neighbours(crd) ==> engaged.value
    {
      assert forall d :: d in CorridorDoors() ==> allocated(d);
      ghost var visible, s0, c0, st := Visible(crd), Sites(), character.State(), e.state;
      ghost var at, agility := character.crd, character.agility;
      var ev, canMove := Rouse(crd, e);
      acted := canMove;
      if !canMove {
        return Success(()), ev, acted, None, ("", 0, 0, None);
      }
      var g;
      r, g, engaged, blow := Act(p, crd, e, t, hitTest, s0, c0, at, agility, st, visible);
      events := ev + g;
    }

    /**
     * The test of `make_rogue_move`: `is_engaged` (which also updates the
     * enemy's state) and then, unless the enemy was engaged already,
     * `__is_point_visible`.
     */
    method Engages(crd: Crd, e: Enemies.Enemy, draw: real) returns (chasing: bool)
      requires e.Valid() && 0.0 <= draw < 1.0
      modifies e
      ensures e.Valid()
      ensures chasing <==> Enemies.InReach(crd, character.crd, e.hostility) && (old(e.state) == Enemies.Engaged || old(Visible(crd)))
    {
      assert forall d :: d in CorridorDoors() ==> allocated(d);
      ghost var visible := Visible(crd);
      var inReach := e.IsEngaged(crd, character.crd, draw);
      chasing := inReach;
      if inReach && !e.StatusEngaged() {
        chasing := IsPointVisible(crd);
      }
    }

    /**
     * The rest of the pass for an enemy that can move: it is engaged when
     * the character is in reach and either it was engaged already or it
     * can see the character; then it takes the engaged move (`engaged` is
     * the `alive` that move reports), and else the casual move of its
     * pattern. The character is touched only by an engaged enemy next to
     * it, and then exactly as `Hurt` says for a blow of that enemy.
     */
    method Act(p: nat, crd: Crd, e: Enemies.Enemy, t: Turn, hitTest: (int, int) -> bool,
               ghost s0: seq<Site>, ghost c0: Ch.Snapshot, ghost at: Crd, ghost agility: int, ghost st: Enemies.EnemyState, ghost visible: bool)
      returns (r: Result<()>, events: seq<RogueEvent>, engaged: Option<bool>, ghost blow: Blow)
      requires Valid() && p < NumPlaces() && e.Valid() && character.Valid() && TurnInRange(t)
      requires s0 == Sites() && c0 == character.State() && at == character.crd && agility == character.agility && st == e.state && visible == Visible(crd)
      modifies rooms, corridors, e, character
      ensures e.Valid() && character.Valid()
      ensures Moved(s0, Sites(), p, crd, e)
      ensures engaged.Some? <==> Enemies.InReach(crd, at, e.hostility) && (st == Enemies.Engaged || visible)
      ensures engaged.Some? && at in Chase.Neighbours(crd) ==>
        && blow.0 == e.name && blow.3 == e.AttackEffect(t.chance)
        && character.State() == Hurt(c0, blow, hitTest(blow.2, agility))
        && (engaged.value <==> character.hp > 0)
      ensures !(engaged.Some? && at in Chase.Neighbours(crd)) ==> character.State() == c0
      ensures engaged.Some? && at !in Chase.Neighbours(crd) ==> engaged.value
    {
      engaged := None;
      blow := ("", 0, 0, None);
      events := [];
      var chasing := Engages(crd, e, t.visibility);
      if chasing {
        var alive;
        r, events, alive, blow := Pursue(p, crd, e, t, hitTest);
        engaged := Some(alive);
      } else {
        r := CasualMove(p, crd, e, t);
      }
    }

    /** `check_object_effects` of the enemy on `crd`: only the enemy changes, and its state stays. */
    method Rouse(crd: Crd, e: Enemies.Enemy) returns (events: seq<RogueEvent>, canMove: bool)
      requires e.Valid()
      modifies e
      ensures e.Valid() && e.state == old(e.state)
      ensures canMove <==> !EB.Drowsy(old(e.effects))
      ensures Visible(crd) == old(Visible(crd)) && Sites() == old(Sites())
      ensures character.State() == old(character.State()) && character.crd == old(character.crd) && character.agility == old(character.agility)
    {
      assert forall d :: d in CorridorDoors() ==> allocated(d);
      events, canMove := e.CheckObjectEffects();
      PlacesKept();
    }

    /** The places read the same when neither the map nor any of its places changed. */
    twostate lemma PlacesKept()
      requires unchanged(this) && unchanged(rooms) && unchanged(corridors)
      ensures Sites() == old(Sites())
    {
      forall q | 0 <= q < NumPlaces()
        ensures SiteOf(q) == old(SiteOf(q))
      {
        if q < |rooms| {
          assert unchanged(rooms[q]);
        } else {
          assert unchanged(corridors[q - |rooms|]);
        }
      }
    }

    /** `set_engaged_status` and the engaged move. */
    method Pursue(p: nat, crd: Crd, e: Enemies.Enemy, t: Turn, hitTest: (int, int) -> bool)
      returns (r: Result<()>, events: seq<RogueEvent>, alive: bool, ghost blow: Blow)
      requires Valid() && p < NumPlaces() && e.Valid() && character.Valid() && TurnInRange(t)
      modifies rooms, corridors, e, character
      ensures e.Valid() && character.Valid()
      ensures Moved(old(Sites()), Sites(), p, crd, e)
      ensures old(character.crd) in Chase.Neighbours(crd) ==>
        && blow.0 == e.name && blow.3 == e.AttackEffect(t.chance)
        && character.State() == Hurt(old(character.State()), blow, hitTest(blow.2, old(character.agility)))
        && (alive <==> character.hp > 0)
      ensures old(character.crd) !in Chase.Neighbours(crd) ==> character.State() == old(character.State()) && alive
    {
      e.SetEngagedStatus();
      blow := (e.name, Enemies.Damage(e.strength, t.u), e.agility, e.AttackEffect(t.chance));
      r, events, alive := EngagedMove(p, crd, e, t, hitTest);
    }

    /** The enemies on the map are those of `Foes`, and each keeps its invariant when all do. */
    lemma FoesOnMap()
      requires FoesValid()
      ensures FoesFrom(Sites(), Foes()) && forall f :: f in Foes() ==> f.Valid()
    {
      forall q, c | 0 <= q < NumPlaces() && c in Sites()[q].Objects() && Sites()[q].Objects()[c].Foe?
        ensures Sites()[q].Objects()[c].enemy in Foes()
      {
        assert Sites()[q].Objects() == Objects(q);
      }
    }

    /** The phase starts in `InPhase`, with no blow taken. */
    lemma PhaseStarts()
      requires Valid() && FoesValid() && character.Valid()
      ensures InPhase(Foes(), Sites(), character.State(), true, true, [])
    {
      FoesOnMap();
      OnlyObjectsChain(Sites(), Sites(), Sites());
    }

    /**
     * What holds throughout `make_rogue_move`, which started from places
     * `s0`, the enemies `foes`, the character in state `c0`: only objects
     * changed and only those enemies stand on the map, each keeping its
     * invariant; the character changed only by blows, whose answers are
     * `harms`; `alive` says every blow left it alive, and `curAlive`, the
     * answer of the last engaged move, is true while `alive` is.
     */
    ghost predicate InPhase(foes: set<Enemies.Enemy>, s0: seq<Site>, c0: Ch.Snapshot, alive: bool, curAlive: bool, harms: seq<bool>)
      reads this, rooms, corridors, character, foes
    {
      && Valid() && character.Valid()
      && character.Rest() == c0.rest
      && (forall f :: f in foes ==> f.Valid())
      && OnlyObjects(s0, Sites()) && FoesFrom(Sites(), foes)
      && (alive <==> forall j :: 0 <= j < |harms| ==> harms[j])
      && (curAlive || !alive)
      && (|harms| > 0 ==> (harms[|harms| - 1] <==> character.hp > 0))
      && (harms == [] ==> character.State() == c0)
    }

    /** One pass of the loop: the turn of the enemy of entry `en`, and the update of `alive`. */
    method PhaseStep(en: Entry, t: Turn, hitTest: (int, int) -> bool, ghost foes: set<Enemies.Enemy>, ghost s0: seq<Site>, ghost c0: Ch.Snapshot,
                     alive: bool, curAlive: bool, ghost harms: seq<bool>)
      returns (r: Result<()>, events: seq<RogueEvent>, alive': bool, curAlive': bool, ghost harms': seq<bool>)
      requires en.place < NumPlaces() && en.foe in foes && TurnInRange(t)
      requires InPhase(foes, s0, c0, alive, curAlive, harms)
      modifies rooms, corridors, character, en.foe
      ensures InPhase(foes, s0, c0, alive', curAlive', harms')
    {
      ghost var s1 := Sites();
      var acted, engaged;
      ghost var blow;
      r, events, acted, engaged, blow := EnemyTurn(en.place, en.crd, en.foe, t, hitTest);
      MovedKeeps(s1, Sites(), en.place, en.crd, en.foe, foes);
      OnlyObjectsChain(s0, s1, Sites());
      curAlive' := if engaged.Some? then engaged.value else curAlive;
      alive' := if acted && alive then curAlive' else alive;
      if engaged.Some? && old(character.crd) in Chase.Neighbours(en.crd) {
        harms' := harms + [engaged.value];
        assert harms'[|harms|] == engaged.value;
        assert forall j :: 0 <= j < |harms| ==> harms'[j] == harms[j];
      } else {
        harms' := harms;
      }
    }

    /** The loop of `make_rogue_move` over the entries of `roster`, each an enemy standing on the map. */
    method Phase(roster: seq<Entry>, turns: nat -> Turn, hitTest: (int, int) -> bool, ghost foes: set<Enemies.Enemy>)
      returns (r: Result<seq<RogueEvent>>, alive: bool, ghost harms: seq<bool>)
      requires forall i :: 0 <= i < |roster| ==>
        var en := roster[i];
        en.place < NumPlaces() && en.crd in Objects(en.place) && Objects(en.place)[en.crd] == Foe(en.foe)
      requires forall i :: TurnInRange(turns(i))
      requires InPhase(foes, Sites(), character.State(), true, true, [])
      modifies rooms, corridors, character, foes
      ensures InPhase(foes, old(Sites()), old(character.State()), alive, true, harms)
    {
      ghost var s0, c0 := Sites(), character.State();
      forall i | 0 <= i < |roster|
        ensures roster[i].foe in foes
      {
        var en := roster[i];
        assert s0[en.place].Objects() == Objects(en.place);
      }
      var events := [];
      alive := true;
      var curAlive := true;
      harms := [];
      for i := 0 to |roster|
        invariant InPhase(foes, s0, c0, alive, curAlive, harms)
      {
        var res, ev;
        res, ev, alive, curAlive, harms := PhaseStep(roster[i], turns(i), hitTest, foes, s0, c0, alive, curAlive, harms);
        events := events + ev;
        if res.Failure? {
          return Failure(res.error), alive, harms;
        }
      }
      r := Success(events);
    }

    /**
     * `make_rogue_move`: every enemy of the snapshot (`Roster`) takes its
     * turn (`EnemyTurn`) with its own draws `turns(i)`, and the first
     * error ends the phase. Only the objects of the places change, no
     * enemy but those on the map comes onto it, and the character changes
     * only by the blows it takes: `harms` are the answers of those blows,
     * in order. The phase reports `alive` exactly when every blow left
     * the character alive, so once false it stays false.
     */
    method MakeRogueMove(turns: nat -> Turn, hitTest: (int, int) -> bool)
      returns (r: Result<seq<RogueEvent>>, alive: bool, ghost harms: seq<bool>)
      requires Valid() && FoesValid() && character.Valid()
      requires forall i :: TurnInRange(turns(i))
      modifies rooms, corridors, character, Foes()
      ensures character.Valid() && character.Rest() == old(character.Rest())
      ensures OnlyObjects(old(Sites()), Sites()) && FoesFrom(Sites(), old(Foes()))
      ensures alive <==> forall i :: 0 <= i < |harms| ==> harms[i]
      ensures |harms| > 0 ==> (harms[|harms| - 1] <==> character.hp > 0)
      ensures harms == [] ==> character.State() == old(character.State())
    {
      PhaseStarts();
      var roster := Roster();
      r, alive, harms := Phase(roster, turns, hitTest, Foes());
    }

    /** `is_in_and_available` of place `p`: an item may be put on the cell. */
    predicate IsInAndAvailable(p: nat, crd: Crd)
      requires p < NumPlaces()
      reads this, rooms, corridors
    {
      if p < |rooms| then rooms[p].IsInAndAvailable(crd) else corridors[p - |rooms|].IsInAndAvailable(crd)
    }

    /** `place(y, x)` of `drop_item` from place `q` on: the first place that takes an item on `crd`, or `NumPlaces()`. */
    function FirstAvailable(q: nat, crd: Crd): (f: nat)
      requires q <= NumPlaces()
      reads this, rooms, corridors
      ensures q <= f <= NumPlaces()
      ensures forall k :: q <= k < f ==> !IsInAndAvailable(k, crd)
      ensures f < NumPlaces() ==> IsInAndAvailable(f, crd)
      decreases NumPlaces() - q
    {
      if q == NumPlaces() || IsInAndAvailable(q, crd) then q else FirstAvailable(q + 1, crd)
    }

    /** The loop guard of `drop_item`: the cell is not past the bottom or the right edge of the map. */
    predicate Within(cell: Crd)
      reads this
    {
      cell.0 <= height && cell.1 <= width
    }

    /**
     * The search of `drop_item` around the character, cut off after
     * `fuel` cells: the `k` cells looked at first lay within the bounds and
     * no place took any of them; then either the `k`-th cell is within
     * the bounds and `spot` is the first place taking it, or the walker
     * left the bounds, or the fuel ran out, and `spot` is None.
     */
    ghost predicate Search(fuel: nat, k: nat, spot: Option<(nat, Crd)>)
      reads this, rooms, corridors, character
    {
      var c := character.crd;
      && k <= fuel
      && (forall j :: 0 <= j < k ==> Within(Spiral.Probe(c, j)) && FirstAvailable(0, Spiral.Probe(c, j)) == NumPlaces())
      && (spot.Some? ==> k < fuel && Within(Spiral.Probe(c, k)) && spot.value == (FirstAvailable(0, Spiral.Probe(c, k)), Spiral.Probe(c, k)) && spot.value.0 < NumPlaces())
      && (spot.None? ==> k == fuel || !Within(Spiral.Probe(c, k)))
    }

    /** The spiral loop of `drop_item`, at most `fuel` cells long: see `Search`. */
    method DropSpot(fuel: nat) returns (spot: Option<(nat, Crd)>, ghost k: nat)
      ensures Search(fuel, k, spot)
    {
      var c := character.crd;
      var w := Spiral.Begin(c);
      var n := 0;
      while n < fuel && Within((w.y, w.x))
        invariant n <= fuel && w == Spiral.WalkerAt(c, n)
        invariant forall j :: 0 <= j < n ==> Within(Spiral.Probe(c, j)) && FirstAvailable(0, Spiral.Probe(c, j)) == NumPlaces()
        decreases fuel - n
      {
        assert Spiral.Probe(c, n) == (w.y, w.x);
        var q := FirstAvailable(0, (w.y, w.x));
        if q < NumPlaces() {
          return Some((q, (w.y, w.x))), n;
        }
        w := Spiral.Advance(w);
        n := n + 1;
      }
      spot, k := None, n;
    }

    /**
     * `drop_item`: no item drops nothing; otherwise the item is put on the
     * cell `Search` finds, in the place found, and nothing else changes;
     * when the search finds none the map is unchanged.
     */
    method DropItem(item: Option<Item>, fuel: nat) returns (dropped: Option<(nat, Crd)>, ghost k: nat)
      requires Valid()
      modifies rooms, corridors
      ensures item.None? ==> dropped.None?
      ensures item.Some? ==> old(allocated(dropped)) && old(Search(fuel, k, dropped))
      ensures dropped.None? ==> Sites() == old(Sites())
      ensures dropped.Some? ==> var (p, cell) := dropped.value;
        p < old(NumPlaces()) && Sites() == old(Sites())[p := old(SiteOf(p)).WithItems(old(Items(p))[cell := item.value])]
    {
      if item.None? {
        return None, 0;
      }
      dropped, k := DropSpot(fuel);
      if dropped.Some? {
        AddItemAt(dropped.value.0, dropped.value.1, item.value);
      }
    }

    /**
     * When the character stands at least one cell inside the bottom and
     * right bounds and some place takes one of its eight neighbours, an
     * item is dropped on one of the neighbours: the search looks at them
     * first.
     */
    lemma DropBeside(fuel: nat, k: nat, spot: Option<(nat, Crd)>)
      requires Search(fuel, k, spot) && fuel >= 8
      requires character.crd.0 + 1 <= height && character.crd.1 + 1 <= width
      requires exists j :: 0 <= j < 8 && FirstAvailable(0, Spiral.Ring(character.crd)[j]) < NumPlaces()
      ensures spot.Some? && spot.value.1 in Spiral.Ring(character.crd)
    {
      var c := character.crd;
      Spiral.SearchStartsAround(c);
      var j :| 0 <= j < 8 && FirstAvailable(0, Spiral.Ring(c)[j]) < NumPlaces();
      forall i | 0 <= i < 8
        ensures Within(Spiral.Probe(c, i))
      {
        assert Spiral.Probe(c, i) == Spiral.Ring(c)[i];
      }
      assert Spiral.Probe(c, j) == Spiral.Ring(c)[j];
      assert k <= j;
      assert Spiral.Probe(c, k) == Spiral.Ring(c)[k];
    }

    /** The rooms among the first `k` that do not hold the character, in order: the list `__place_exit` chooses from. */
    function Vacant(k: nat): (v: seq<nat>)
      requires k <= |rooms|
      reads this, rooms
      ensures forall i :: 0 <= i < |v| ==> v[i] < k && !rooms[v[i]].hasCharacter
      ensures forall i :: 0 <= i < k && !rooms[i].hasCharacter ==> i in v
      ensures forall i, j :: 0 <= i < j < |v| ==> v[i] < v[j]
    {
      if k == 0 then [] else Vacant(k - 1) + (if rooms[k - 1].hasCharacter then [] else [k - 1])
    }

    /**
     * `__place_exit`: `choice` takes the room of index `pick` among the
     * rooms without the character, and the exit goes on the cell `cells`
     * draws in it; when every room holds the character there is nothing to
     * choose from, the IndexError of `choice`.
     */
    method PlaceExit(pick: nat, cells: seq<Crd>) returns (r: Result<()>)
      requires Valid() && |cells| == |rooms| && forall i :: 0 <= i < |rooms| ==> rooms[i].IsIn(cells[i])
      modifies rooms
      ensures r.Failure? <==> old(Vacant(|rooms|)) == []
      ensures r.Failure? ==> r.error == EmptyChoice && Sites() == old(Sites())
      ensures r.Success? ==> var v := old(Vacant(|rooms|)); var k := v[pick % |v|];
        && !old(rooms[k].hasCharacter) && rooms[k].IsExit(cells[k])
        && Sites() == old(Sites())[k := RoomSite(old(rooms[k].State()).(exits := old(rooms[k].exits) + {cells[k]}))]
    {
      var v := Vacant(|rooms|);
      if v == [] {
        return Failure(EmptyChoice);
      }
      var k := v[pick % |v|];
      rooms[k].PlaceExit(cells[k]);
      r := Success(());
    }

    /** The character's cell is an exit of the first room that holds it: what `is_exit` answers. */
    ghost predicate OnExit()
      reads this, rooms, character
    {
      var crd := character.crd;
      exists i :: 0 <= i < |rooms| && rooms[i].IsIn(crd) && (forall j :: 0 <= j < i ==> !rooms[j].IsIn(crd)) && rooms[i].IsExit(crd)
    }

    /** `is_exit`: the rooms are asked in order, and the first holding the character's cell answers. */
    method IsExit() returns (b: bool)
      ensures b <==> OnExit()
    {
      var crd := character.crd;
      for i := 0 to |rooms|
        invariant forall j :: 0 <= j < i ==> !rooms[j].IsIn(crd)
      {
        if rooms[i].IsIn(crd) {
          return rooms[i].IsExit(crd);
        }
      }
      return false;
    }

    /**
     * When the rooms lie apart (as `GridRoomsApart` shows the generated
     * ones do) and every exit lies in its room (as `place_exit` draws it),
     * `is_exit` answers whether the character stands on any exit at all.
     */
    lemma OnAnyExit()
      requires forall i, j :: 0 <= i < j < |rooms| ==> Apart(Rect(rooms[i].x, rooms[i].y, rooms[i].x2, rooms[i].y2), Rect(rooms[j].x, rooms[j].y, rooms[j].x2, rooms[j].y2))
      requires forall i, e :: 0 <= i < |rooms| && e in rooms[i].exits ==> rooms[i].IsIn(e)
      ensures OnExit() <==> exists i :: 0 <= i < |rooms| && rooms[i].IsExit(character.crd)
    {
      var crd := character.crd;
      if i :| 0 <= i < |rooms| && rooms[i].IsExit(crd) {
        assert rooms[i].IsIn(crd);
        forall j | 0 <= j < i
          ensures !rooms[j].IsIn(crd)
        {
          assert Apart(Rect(rooms[j].x, rooms[j].y, rooms[j].x2, rooms[j].y2), Rect(rooms[i].x, rooms[i].y, rooms[i].x2, rooms[i].y2));
        }
      }
    }
  }
}
