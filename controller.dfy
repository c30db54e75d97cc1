/**
 * The game controller (src/controller/controller.py): the state machine that
 * turns a key press into a handler call, the key normalisation that maps the
 * Russian keyboard layout onto the English keys, and the step that follows
 * the rogue's move. What a handler asks of the level map or the backpack
 * (the move's events, the exit test, the size of an inventory section, the
 * item a slot returns) arrives as an `Outcome`.
 */
module Controller {
  import opened Wrappers
  import opened RogueTypes
  import opened Items
  import BP = Backpack

  /** `GameState`, with its enum values. */
  datatype GameState = Input | Inventory | Drop | DropSlot | RogueMove | Death | Win | Quit | End
  {
    function Value(): int
    {
      match this
      case Input => 1
      case Inventory => 2
      case Drop => 3
      case DropSlot => 4
      case RogueMove => 5
      case Death => 6
      case Win => 7
      case Quit => 8
      case End => 9
    }
  }

  /** `GameState(v)`: the state with enum value `v`, a ValueError for any other number. */
  function StateOf(v: int): (r: Result<GameState>)
    ensures r.Success? <==> 1 <= v <= 9
    ensures r.Success? ==> r.value.Value() == v
    ensures r.Failure? ==> r.error == ValueError(IntToString(v) + " is not a valid GameState")
  {
    if v == 1 then Success(Input)
    else if v == 2 then Success(Inventory)
    else if v == 3 then Success(Drop)
    else if v == 4 then Success(DropSlot)
    else if v == 5 then Success(RogueMove)
    else if v == 6 then Success(Death)
    else if v == 7 then Success(Win)
    else if v == 8 then Success(Quit)
    else if v == 9 then Success(End)
    else Failure(ValueError(IntToString(v) + " is not a valid GameState"))
  }

  /** `UserAction`, with its enum values. */
  datatype UserAction = Move | QuitKey | Enter | InventoryKey | Slot | DropKey | Mute
  {
    function Value(): string
    {
      match this
      case Move => "move"
      case QuitKey => "q"
      case Enter => "\n"
      case InventoryKey => "inventory"
      case Slot => "slot"
      case DropKey => "l"
      case Mute => "m"
    }
  }

  const Actions: seq<UserAction> := [Move, QuitKey, Enter, InventoryKey, Slot, DropKey, Mute]

  /** `UserAction(key)`: the action whose value is `key`, a ValueError for any other string. */
  function ActionOf(key: string): (r: Result<UserAction>)
    ensures r.Success? ==> r.value.Value() == key
    ensures r.Failure? ==> (forall i :: 0 <= i < |Actions| ==> Actions[i].Value() != key)
    ensures r.Failure? ==> r.error == ValueError("'" + key + "' is not a valid UserAction")
  {
    if key == "move" then Success(Move)
    else if key == "q" then Success(QuitKey)
    else if key == "\n" then Success(Enter)
    else if key == "inventory" then Success(InventoryKey)
    else if key == "slot" then Success(Slot)
    else if key == "l" then Success(DropKey)
    else if key == "m" then Success(Mute)
    else Failure(ValueError("'" + key + "' is not a valid UserAction"))
  }

  const MoveKeys: set<string> := {"w", "a", "s", "d"}

  /** `__inventory_mapping`: the key of each inventory section. */
  const Sections: map<string, ItemType> := map["j" := FoodType, "k" := PotionType, "e" := ScrollType, "h" := WeaponType]

  /** `str.isdigit` on decimal digits: a non-empty run of 0-9. */
  predicate IsDigits(s: string)
  {
    |s| > 0 && forall i :: 0 <= i < |s| ==> '0' <= s[i] <= '9'
  }

  /**
   * `from_key`: a movement key is MOVE, a section key is INVENTORY, a number
   * from MIN_SLOT to MAX_SLOT is SLOT, and anything else is looked up as an
   * enum value.
   */
  function FromKey(key: string): (r: Result<UserAction>)
  {
    if key in MoveKeys then Success(Move)
    else if key in Sections then Success(InventoryKey)
    else if IsDigits(key) && BP.MinSlot <= DigitsValue(key) <= BP.MaxSlot then Success(Slot)
    else ActionOf(key)
  }

  /** Every action's own value is read back as that action. */
  lemma FromKeyValues(a: UserAction)
    ensures FromKey(a.Value()) == Success(a)
  {
    match a
    case Slot =>
      assert !IsDigits("slot") by { assert !('0' <= "slot"[0] <= '9'); }
    case Move =>
      assert !IsDigits("move") by { assert !('0' <= "move"[0] <= '9'); }
    case InventoryKey =>
      assert !IsDigits("inventory") by { assert !('0' <= "inventory"[0] <= '9'); }
    case _ =>
  }

  /** The one-character keys the game reacts to, and what each means. */
  lemma KeysAccepted(c: char)
    ensures FromKey([c]).Success? <==> c in "wasdhjkeqlm\n123456789"
    ensures c in "wasd" ==> FromKey([c]) == Success(Move)
    ensures c in "hjke" ==> FromKey([c]) == Success(InventoryKey)
    ensures '1' <= c <= '9' ==> FromKey([c]) == Success(Slot)
  {
    assert DigitsValue([c]) == c as int - '0' as int by {
      assert [c][..0] == [];
    }
    if FromKey([c]).Success? && c !in "wasdhjke123456789" {
      assert ActionOf([c]).Success?;
    }
  }

  /** `str.lower` on one character: the Latin and the Russian capitals. */
  function LowerChar(c: char): (l: char)
    ensures 'A' <= c <= 'Z' || 'А' <= c <= 'Я' ==> l as int == c as int + 32
    ensures c == 'Ё' ==> l == 'ё'
    ensures !('A' <= c <= 'Z' || 'А' <= c <= 'Я' || c == 'Ё') ==> l == c
  {
    if 'A' <= c <= 'Z' || 'А' <= c <= 'Я' then (c as int + 32) as char
    else if c == 'Ё' then 'ё'
    else c
  }

  function Lower(s: string): (l: string)
    ensures |l| == |s| && forall i :: 0 <= i < |s| ==> l[i] == LowerChar(s[i])
  {
    seq(|s|, i requires 0 <= i < |s| => LowerChar(s[i]))
  }

  /** `__ru_to_en`: the key in the same place on the Russian layout. */
  const RuToEn: map<string, string> := map[
    "ц" := "w", "ф" := "a", "ы" := "s", "в" := "d", "р" := "h", "о" := "j",
    "л" := "k", "у" := "e", "й" := "q", "д" := "l", "ь" := "m"]

  /** `__normalize_input`: lower case, then the Russian key's English twin. */
  function Normalize(key: string): (k: string)
    ensures Lower(key) in RuToEn ==> k == RuToEn[Lower(key)]
    ensures Lower(key) !in RuToEn ==> k == Lower(key)
  {
    var l := Lower(key);
    if l in RuToEn then RuToEn[l] else l
  }

  /** A normalised key normalises to itself. */
  lemma NormalizeIdempotent(key: string)
    ensures Normalize(Normalize(key)) == Normalize(key)
  {
    var l := Lower(key);
    assert Lower(l) == l;
    if l in RuToEn {
      var v := RuToEn[l];
      assert v in RuToEn.Values;
      assert |v| == 1 && 'a' <= v[0] <= 'z';
      assert Lower(v) == v;
      assert v !in RuToEn by {
        assert forall u :: u in RuToEn ==> |u| == 1 && !('a' <= u[0] <= 'z');
      }
    }
  }

  /** Normalising one character gives one character. */
  lemma NormalizeOneChar(c: char)
    ensures |Normalize([c])| == 1
  {
    var l := Lower([c]);
    if l in RuToEn {
      assert RuToEn[l] in RuToEn.Values;
    }
  }

  /** A key on the Russian layout, in either case, acts as its English twin. */
  lemma RussianLayout(c: char)
    requires Lower([c]) in RuToEn
    ensures FromKey(Normalize([c])) == FromKey(RuToEn[Lower([c])])
    ensures FromKey(Normalize([c])).Success?
  {
    var v := RuToEn[Lower([c])];
    assert v in RuToEn.Values;
    assert |v| == 1 && v[0] in "wasdhjkeqlm" by {
      assert forall u :: u in RuToEn.Values ==> |u| == 1 && u[0] in "wasdhjkeqlm";
    }
    assert v == [v[0]];
    KeysAccepted(v[0]);
  }

  /** The handlers of the state machine. */
  datatype Handler =
    | DoMove | QuitConfirmation | DoEnter | DoInventory | DoDrop | DoMute
    | CloseInventory | DoSlot | DoDropSlot | DoQuit | CancelQuit

  /** `__generate_fsm`: the handler for each (state, action) pair it lists. */
  const Fsm: map<(GameState, UserAction), Handler> := map[
    (Input, Move) := DoMove,
    (Input, QuitKey) := QuitConfirmation,
    (Input, Enter) := DoEnter,
    (Input, InventoryKey) := DoInventory,
    (Input, DropKey) := DoDrop,
    (Input, Mute) := DoMute,
    (Inventory, QuitKey) := CloseInventory,
    (Inventory, Slot) := DoSlot,
    (Drop, InventoryKey) := DoInventory,
    (Drop, QuitKey) := CloseInventory,
    (DropSlot, Slot) := DoDropSlot,
    (DropSlot, QuitKey) := CloseInventory,
    (Death, QuitKey) := QuitConfirmation,
    (Quit, Enter) := DoQuit,
    (Quit, QuitKey) := CancelQuit]

  /**
   * What a handler gets back from the rest of the game: the events of the
   * level map or backpack call it makes, whether the character stands on the
   * exit, how many items the chosen inventory section holds, and whether the
   * used or dropped slot returned an item.
   */
  datatype Outcome = Outcome(events: seq<RogueEvent>, atExit: bool, contents: nat, item: bool)

  /** The controller's own fields. */
  datatype Control = Control(state: GameState, level: int, soundMuted: bool, section: Option<ItemType>)

  const WinMessage := "Поздравляем, вы прошли игру!"
  const DeathMessage := "Персонаж погиб"

  function LevelMessage(level: int): string
  {
    "Вы перешли на уровень " + IntToString(level)
  }

  function EmptyMessage(t: ItemType): string
  {
    "У вас нет предметов типа " + TypeName(t)
  }

  function MuteMessage(muted: bool): string
  {
    if muted then "Звук включен" else "Звук выключен"
  }

  /** `int(key)` of a string of decimal digits; a ValueError for anything else. */
  function SlotNumber(key: string): (r: Result<int>)
    ensures r.Success? <==> IsDigits(key)
    ensures r.Success? ==> r.value == DigitsValue(key)
  {
    if IsDigits(key) then Success(DigitsValue(key))
    else Failure(ValueError("invalid literal for int() with base 10: '" + key + "'"))
  }

  /**
   * What each handler returns and leaves in the controller's fields, given
   * the normalised key, the outcome of its calls and MAX_LEVEL.
   */
  function Apply(h: Handler, c: Control, key: string, o: Outcome, maxLevel: int): (Result<seq<RogueEvent>>, Control)
  {
    match h
    case DoMove => (Success(o.events), c.(state := RogueMove))
    case QuitConfirmation => (Success([]), c.(state := Quit))
    case DoQuit => (Success([]), c.(state := End))
    case CancelQuit => (Success([]), c.(state := Input))
    case DoEnter =>
      if o.atExit && c.level == maxLevel then (Success([Event(WinMessage)]), c.(state := Win))
      else if o.atExit then (Success([Event(LevelMessage(c.level + 1))]), c.(level := c.level + 1))
      else (Success([]), c)
    case DoInventory =>
      if key !in Sections then (Failure(KeyError(key)), c)
      else
        var turned := StateOf(c.state.Value() + 1);
        var c' := c.(section := Some(Sections[key]));
        if turned.Failure? then (Failure(turned.error), c')
        else if o.contents == 0 then (Success([Event(EmptyMessage(Sections[key]))]), c')
        else (Success([]), c'.(state := turned.value))
    case CloseInventory => (Success([]), c.(state := Input))
    case DoDrop => (Success([]), c.(state := Drop))
    case DoSlot =>
      if SlotNumber(key).Failure? then (Failure(SlotNumber(key).error), c)
      else (Success(o.events), if o.item then c.(state := RogueMove) else c)
    case DoDropSlot =>
      if SlotNumber(key).Failure? then (Failure(SlotNumber(key).error), c)
      else (Success(o.events), if o.item then c.(state := RogueMove) else c)
    case DoMute => (Success([Event(MuteMessage(c.soundMuted))]), c.(soundMuted := !c.soundMuted))
  }

  /** The table calls `__inventory` only from INPUT and DROP, and the slot handlers only on SLOT. */
  lemma FsmRows(s: GameState, a: UserAction)
    requires (s, a) in Fsm
    ensures Fsm[(s, a)] == DoInventory ==> a == InventoryKey && (s == Input || s == Drop)
    ensures Fsm[(s, a)] in {DoSlot, DoDropSlot} ==> a == Slot
  {
  }

  /** No handler fails on a one-character key. */
  lemma ShortKeyNeverFails(s: GameState, a: UserAction, k: string, c: Control, o: Outcome, maxLevel: int)
    requires |k| == 1 && FromKey(k) == Success(a) && (s, a) in Fsm && c.state == s
    ensures Apply(Fsm[(s, a)], c, k, o, maxLevel).0.Success?
  {
    var h := Fsm[(s, a)];
    FsmRows(s, a);
    if h == DoInventory {
      assert k in Sections by {
        assert k != InventoryKey.Value();
      }
      assert StateOf(c.state.Value() + 1).Success?;
    } else if h == DoSlot || h == DoDropSlot {
      assert IsDigits(k) by {
        assert k != Slot.Value();
      }
    }
  }

  /** The game ends only by confirming the quit: ENTER in the QUIT state. */
  lemma EndOnlyByConfirming(s: GameState, a: UserAction, c: Control, key: string, o: Outcome, maxLevel: int)
    requires (s, a) in Fsm && c.state == s
    ensures Apply(Fsm[(s, a)], c, key, o, maxLevel).1.state == End <==> s == Quit && a == Enter
  {
    if s == Input && a == InventoryKey && key in Sections {
      assert StateOf(c.state.Value() + 1) == Success(Inventory);
    }
    if s == Drop && a == InventoryKey && key in Sections {
      assert StateOf(c.state.Value() + 1) == Success(DropSlot);
    }
  }

  /**
   * The rogue moves only after the character acts: a move, or a used or
   * dropped slot that returned an item.
   */
  lemma RogueMovesAfterActing(s: GameState, a: UserAction, c: Control, key: string, o: Outcome, maxLevel: int)
    requires (s, a) in Fsm && c.state == s
    ensures Apply(Fsm[(s, a)], c, key, o, maxLevel).1.state == RogueMove <==>
      || (s, a) == (Input, Move)
      || ((s, a) in {(Inventory, Slot), (DropSlot, Slot)} && IsDigits(key) && o.item)
  {
    if s == Input && a == InventoryKey && key in Sections {
      assert StateOf(c.state.Value() + 1) == Success(Inventory);
    }
    if s == Drop && a == InventoryKey && key in Sections {
      assert StateOf(c.state.Value() + 1) == Success(DropSlot);
    }
  }

  /**
   * The game is won only by entering the exit of the last level, and the
   * level rises only by one, by entering an exit below it.
   */
  lemma WinAndLevelUp(s: GameState, a: UserAction, c: Control, key: string, o: Outcome, maxLevel: int)
    requires (s, a) in Fsm && c.state == s
    ensures var c' := Apply(Fsm[(s, a)], c, key, o, maxLevel).1;
      && (c'.state == Win <==> (s, a) == (Input, Enter) && o.atExit && c.level == maxLevel)
      && (c'.level != c.level <==> (s, a) == (Input, Enter) && o.atExit && c.level != maxLevel)
      && (c'.level != c.level ==> c'.level == c.level + 1)
  {
    if s == Input && a == InventoryKey && key in Sections {
      assert StateOf(c.state.Value() + 1) == Success(Inventory);
    }
    if s == Drop && a == InventoryKey && key in Sections {
      assert StateOf(c.state.Value() + 1) == Success(DropSlot);
    }
  }

  /**
   * A section key opens that section for choosing (from INPUT) or for
   * dropping (from DROP) when it holds an item, and otherwise says so and
   * stays where it was.
   */
  lemma InventoryOpens(s: GameState, key: string, c: Control, o: Outcome, maxLevel: int)
    requires s in {Input, Drop} && c.state == s && key in Sections
    ensures var out := Apply(Fsm[(s, InventoryKey)], c, key, o, maxLevel);
      var (r, c') := (out.0, out.1);
      && c'.section == Some(Sections[key])
      && (o.contents > 0 ==> r == Success([]) && c'.state == (if s == Input then Inventory else DropSlot))
      && (o.contents == 0 ==> r == Success([Event(EmptyMessage(Sections[key]))]) && c'.state == s)
  {
    assert StateOf(c.state.Value() + 1) == Success(if s == Input then Inventory else DropSlot);
  }

  /** Muting twice restores the sound setting, having announced both changes. */
  lemma MuteTwice(c: Control, key: string, o: Outcome, maxLevel: int)
    requires c.state == Input
    ensures var first := Apply(Fsm[(Input, Mute)], c, key, o, maxLevel);
      var second := Apply(Fsm[(first.1.state, Mute)], first.1, key, o, maxLevel);
      && second.1 == c
      && first.0 == Success([Event(MuteMessage(c.soundMuted))])
      && second.0 == Success([Event(MuteMessage(!c.soundMuted))])
  {
    assert (Input, Mute) in Fsm;
  }

  /** From DEATH the only key that does anything is the quit key, which asks for confirmation. */
  lemma DeathOnlyQuits(a: UserAction)
    ensures (Death, a) in Fsm <==> a == QuitKey
    ensures (Death, a) in Fsm ==> Fsm[(Death, a)] == QuitConfirmation
  {
    if (Death, a) in Fsm {
      assert a in Actions;
    }
  }

  class Controller {
    var state: GameState
    var level: int
    var soundMuted: bool
    var section: Option<ItemType>
    /** MAX_LEVEL of the settings. */
    const maxLevel: int

    function Snapshot(): Control
      reads this
    {
      Control(state, level, soundMuted, section)
    }

    /** `__init__`: the INPUT state on level 1, sound on, no section chosen. */
    constructor(maxLevel: int)
      ensures Snapshot() == Control(Input, 1, false, None) && this.maxLevel == maxLevel
    {
      state, level, soundMuted, section := Input, 1, false, None;
      this.maxLevel := maxLevel;
    }

    /** The game loop runs until DEATH, WIN or END. */
    predicate Running()
      reads this
    {
      state !in {Death, Win, End}
    }

    /** The handler `h` called with the normalised key. */
    method Handle(h: Handler, key: string, o: Outcome) returns (r: Result<seq<RogueEvent>>)
      modifies this
      ensures (r, Snapshot()) == Apply(h, old(Snapshot()), key, o, maxLevel)
    {
      match h {
        case DoMove =>
          state := RogueMove;
          r := Success(o.events);
        case QuitConfirmation =>
          state := Quit;
          r := Success([]);
        case DoQuit =>
          state := End;
          r := Success([]);
        case CancelQuit =>
          state := Input;
          r := Success([]);
        case DoEnter =>
          r := Enter(o.atExit);
        case DoInventory =>
          r := OpenInventory(key, o.contents);
        case CloseInventory =>
          state := Input;
          r := Success([]);
        case DoDrop =>
          state := Drop;
          r := Success([]);
        case DoSlot =>
          r := UseSlot(key, o.events, o.item);
        case DoDropSlot =>
          r := UseSlot(key, o.events, o.item);
        case DoMute =>
          r := Success([Event(MuteMessage(soundMuted))]);
          soundMuted := !soundMuted;
      }
    }

    /** `__enter`: the last level's exit wins the game, any other exit leads one level down. */
    method Enter(atExit: bool) returns (r: Result<seq<RogueEvent>>)
      modifies this
      ensures (r, Snapshot()) == Apply(DoEnter, old(Snapshot()), "\n", Outcome([], atExit, 0, false), maxLevel)
    {
      r := Success([]);
      if atExit && level == maxLevel {
        state := Win;
        r := Success([Event(WinMessage)]);
      } else if atExit {
        level := level + 1;
        r := Success([Event(LevelMessage(level))]);
      }
    }

    /**
     * `__inventory`: the key picks the section; the state moves one value on,
     * and back when the section is empty.
     */
    method OpenInventory(key: string, contents: nat) returns (r: Result<seq<RogueEvent>>)
      modifies this
      ensures (r, Snapshot()) == Apply(DoInventory, old(Snapshot()), key, Outcome([], false, contents, false), maxLevel)
    {
      if key !in Sections {
        return Failure(KeyError(key));
      }
      section := Some(Sections[key]);
      var turned := StateOf(state.Value() + 1);
      if turned.Failure? {
        return Failure(turned.error);
      }
      var back := state;
      state := turned.value;
      r := Success([]);
      if contents == 0 {
        r := Success([Event(EmptyMessage(Sections[key]))]);
        state := back;
      }
    }

    /** `slot` and `drop_slot`: the rogue moves when the slot gave back an item. */
    method UseSlot(key: string, events: seq<RogueEvent>, item: bool) returns (r: Result<seq<RogueEvent>>)
      modifies this
      ensures (r, Snapshot()) == Apply(DoSlot, old(Snapshot()), key, Outcome(events, false, 0, item), maxLevel)
      ensures (r, Snapshot()) == Apply(DoDropSlot, old(Snapshot()), key, Outcome(events, false, 0, item), maxLevel)
    {
      var slot := SlotNumber(key);
      if slot.Failure? {
        return Failure(slot.error);
      }
      if item {
        state := RogueMove;
      }
      r := Success(events);
    }

    /**
     * `__input_to_action`: the key is normalised and read as an action; a
     * key that names no action, or a pair the table does not list, changes
     * nothing. A one-character key never makes a handler fail.
     */
    method Step(key: char, o: Outcome) returns (events: seq<RogueEvent>)
      modifies this
      ensures var k := Normalize([key]); var a := FromKey(k);
        if a.Success? && (old(state), a.value) in Fsm then
          Apply(Fsm[(old(state), a.value)], old(Snapshot()), k, o, maxLevel) == (Success(events), Snapshot())
        else events == [] && Snapshot() == old(Snapshot())
    {
      var k := Normalize([key]);
      var a := FromKey(k);
      if a.Failure? || (state, a.value) !in Fsm {
        return [];
      }
      NormalizeOneChar(key);
      ShortKeyNeverFails(state, a.value, k, Snapshot(), o, maxLevel);
      var r := Handle(Fsm[(state, a.value)], k, o);
      events := r.value;
    }

    /**
     * The game loop after the input: a rogue move hands the turn back to
     * INPUT and then to the enemies (`__update_rogue_state`), whose events
     * are shown, and DEATH follows when the character did not survive.
     */
    method AfterInput(alive: bool, rogueEvents: seq<RogueEvent>) returns (events: seq<RogueEvent>)
      modifies this
      ensures state != RogueMove
      ensures old(state) != RogueMove ==> events == [] && Snapshot() == old(Snapshot())
      ensures old(state) == RogueMove ==>
        && Snapshot() == old(Snapshot()).(state := if alive then Input else Death)
        && events == rogueEvents + (if alive then [] else [Event(DeathMessage)])
    {
      events := [];
      if state == RogueMove {
        state := Input;
        events := rogueEvents;
        if !alive {
          state := Death;
          events := events + [Event(DeathMessage)];
        }
      }
    }
  }
}
