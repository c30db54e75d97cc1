/**
 * Keys, doors and corridors (src/domain/map/corridor.py). A corridor joins
 * two doors in the borders of two rooms: both ends are moved one cell off
 * the doors, towards each other, and then joined by a straight segment or
 * by three segments through a bend whose row (or column) is drawn between
 * the ends'. A corridor holds its path cells, its two doors, and the
 * objects and items standing on it.
 */
module Corridors {
  import opened Wrappers
  import Lists
  import opened RogueTypes
  import opened Items
  import Enemies

  /** What stands on a map cell: the character or an enemy. */
  datatype Occupant = Hero | Foe(enemy: Enemies.Enemy)

  /** The lock colours (`DoorsColor`): red, green and blue. */
  const Red := 16
  const Green := 17
  const Blue := 18

  /** A key lying on the map: its shown colour is the lock colour plus 3. */
  datatype Key = Key(color: int, info: string)

  /** `Key(color)`: the description comes from the lock colour; any other colour is a KeyError. */
  function NewKey(c: int): (r: Result<Key>)
    ensures r.Success? <==> c == Red || c == Green || c == Blue
    ensures r.Success? ==> r.value.color == c + 3
    ensures r.Failure? ==> r.error == KeyError(IntToString(c))
  {
    if c == Red then Success(Key(c + 3, "красный"))
    else if c == Green then Success(Key(c + 3, "зеленый"))
    else if c == Blue then Success(Key(c + 3, "синий"))
    else Failure(KeyError(IntToString(c)))
  }

  const DoorSymbol: string := "%"
  const DoorBaseColor := 6
  /** The corridor colour. */
  const CorridorColor := 6

  /** A door in a room's border; `room` is the id of the room it leads to. */
  class Door {
    const room: int
    const crd: Crd
    var color: int
    var lock: bool

    /** A new door is unlocked and has the base colour. */
    constructor(room: int, crd: Crd)
      ensures this.room == room && this.crd == crd && color == DoorBaseColor && !lock
      ensures IsOpen() && !IsClosed()
    {
      this.room, this.crd := room, crd;
      color, lock := DoorBaseColor, false;
    }

    predicate IsOpen()
      reads this
    {
      !lock
    }

    predicate IsClosed()
      reads this
    {
      lock
    }
  }

  function Min(a: int, b: int): int
  {
    if a < b then a else b
  }

  function Max(a: int, b: int): int
  {
    if a < b then b else a
  }

  /** The cells `(y, x)` for every row `y` from the lower of `y1`, `y2` to the higher. */
  function Column(y1: int, y2: int, x: int): set<Crd>
  {
    set y | Min(y1, y2) <= y <= Max(y1, y2) :: (y, x)
  }

  /** The cells `(y, x)` for every column `x` from the lower of `x1`, `x2` to the higher. */
  function Row(x1: int, x2: int, y: int): set<Crd>
  {
    set x | Min(x1, x2) <= x <= Max(x1, x2) :: (y, x)
  }

  predicate IsDirection(direction: string)
  {
    direction == "v" || direction == "h"
  }

  /**
   * `__shift_initials`: each end moves one cell along the corridor's axis
   * towards the other (the start down or right unless it is past the
   * finish); any direction but "v" and "h" is a ValueError.
   */
  function ShiftInitials(start: Crd, finish: Crd, direction: string): (r: Result<(Crd, Crd)>)
    ensures r.Success? <==> IsDirection(direction)
    ensures r.Failure? ==> r.error == ValueError("direction must be 'v' or 'h'")
    ensures r.Success? && direction == "v" ==>
      var step := if start.0 > finish.0 then -1 else 1;
      r.value == ((start.0 + step, start.1), (finish.0 - step, finish.1))
    ensures r.Success? && direction == "h" ==>
      var step := if start.1 > finish.1 then -1 else 1;
      r.value == ((start.0, start.1 + step), (finish.0, finish.1 - step))
  {
    var (y, x) := start;
    var (y', x') := finish;
    if direction == "v" then
      if y > y' then Success(((y - 1, x), (y' + 1, x')))
      else Success(((y + 1, x), (y' - 1, x')))
    else if direction == "h" then
      if x > x' then Success(((y, x - 1), (y', x' + 1)))
      else Success(((y, x + 1), (y', x' - 1)))
    else Failure(ValueError("direction must be 'v' or 'h'"))
  }

  /**
   * Ends at least two cells apart along the axis land strictly between the
   * doors once shifted, two cells nearer each other, with the other
   * coordinate kept.
   */
  lemma ShiftStaysBetween(start: Crd, finish: Crd, direction: string)
    requires IsDirection(direction)
    requires direction == "v" ==> Max(start.0, finish.0) - Min(start.0, finish.0) >= 2
    requires direction == "h" ==> Max(start.1, finish.1) - Min(start.1, finish.1) >= 2
    ensures var (s, f) := ShiftInitials(start, finish, direction).value;
      direction == "v" ==>
        && Min(start.0, finish.0) < s.0 < Max(start.0, finish.0)
        && Min(start.0, finish.0) < f.0 < Max(start.0, finish.0)
        && Max(s.0, f.0) - Min(s.0, f.0) == Max(start.0, finish.0) - Min(start.0, finish.0) - 2
        && s.1 == start.1 && f.1 == finish.1
    ensures var (s, f) := ShiftInitials(start, finish, direction).value;
      direction == "h" ==>
        && Min(start.1, finish.1) < s.1 < Max(start.1, finish.1)
        && Min(start.1, finish.1) < f.1 < Max(start.1, finish.1)
        && Max(s.1, f.1) - Min(s.1, f.1) == Max(start.1, finish.1) - Min(start.1, finish.1) - 2
        && s.0 == start.0 && f.0 == finish.0
  {
  }

  /** The row of the bend (vertical corridor) or its column (horizontal) must lie between the ends'. */
  predicate TurnFits(start: Crd, finish: Crd, direction: string, turn: int)
  {
    if direction == "v" then start.1 == finish.1 || Min(start.0, finish.0) <= turn <= Max(start.0, finish.0)
    else start.0 == finish.0 || Min(start.1, finish.1) <= turn <= Max(start.1, finish.1)
  }

  /**
   * `__generate_corridor`: the path between the shifted ends. Aligned ends
   * give one segment; otherwise a segment to the bend, one across at the
   * bend, and one from the bend to the finish.
   */
  function Path(start: Crd, finish: Crd, direction: string, turn: int): set<Crd>
  {
    var (y, x) := start;
    var (y', x') := finish;
    if direction == "v" then
      if x == x' then Column(y, y', x)
      else Column(y, turn, x) + Row(x, x', turn) + Column(y', turn, x')
    else if direction == "h" then
      if y == y' then Row(x, x', y)
      else Row(x, turn, y) + Column(y, y', turn) + Row(x', turn, y')
    else {}
  }

  /** Either way, the path contains both shifted ends. */
  lemma PathHasEnds(start: Crd, finish: Crd, direction: string, turn: int)
    requires IsDirection(direction) && TurnFits(start, finish, direction, turn)
    ensures start in Path(start, finish, direction, turn) && finish in Path(start, finish, direction, turn)
  {
    var (y, x) := start;
    var (y', x') := finish;
    if direction == "v" {
      if x == x' {
        assert start in Column(y, y', x) && finish in Column(y, y', x);
      } else {
        assert start in Column(y, turn, x) && finish in Column(y', turn, x');
      }
    } else {
      if y == y' {
        assert start in Row(x, x', y) && finish in Row(x, x', y);
      } else {
        assert start in Row(x, turn, y) && finish in Row(x', turn, y');
      }
    }
  }

  /**
   * The bend is where the segments meet: for a bent vertical corridor, both
   * ends of the crossing segment are on the two columns' segments.
   */
  lemma PathJoinsAtTurn(start: Crd, finish: Crd, direction: string, turn: int)
    requires IsDirection(direction) && TurnFits(start, finish, direction, turn)
    ensures direction == "v" && start.1 != finish.1 ==>
      && (turn, start.1) in Column(start.0, turn, start.1) * Row(start.1, finish.1, turn)
      && (turn, finish.1) in Column(finish.0, turn, finish.1) * Row(start.1, finish.1, turn)
    ensures direction == "h" && start.0 != finish.0 ==>
      && (start.0, turn) in Row(start.1, turn, start.0) * Column(start.0, finish.0, turn)
      && (finish.0, turn) in Row(finish.1, turn, finish.0) * Column(start.0, finish.0, turn)
  {
    if direction == "v" && start.1 != finish.1 {
      assert (turn, start.1) in Column(start.0, turn, start.1);
      assert (turn, start.1) in Row(start.1, finish.1, turn);
      assert (turn, finish.1) in Column(finish.0, turn, finish.1);
      assert (turn, finish.1) in Row(start.1, finish.1, turn);
    }
    if direction == "h" && start.0 != finish.0 {
      assert (start.0, turn) in Row(start.1, turn, start.0);
      assert (start.0, turn) in Column(start.0, finish.0, turn);
      assert (finish.0, turn) in Row(finish.1, turn, finish.0);
      assert (finish.0, turn) in Column(start.0, finish.0, turn);
    }
  }

  /** The Chebyshev zone of radius `r` around `c`. */
  predicate InZone(p: Crd, c: Crd, r: int)
  {
    c.0 - r <= p.0 <= c.0 + r && c.1 - r <= p.1 <= c.1 + r
  }

  const EmptyChoice := IndexError("Cannot choose from an empty sequence")

  /** The text of a coordinate, as a KeyError on a coordinate shows it. */
  function CrdText(c: Crd): string
  {
    Join(["(", IntToString(c.0), ", ", IntToString(c.1), ")"])
  }

  /** The fields of a corridor that its methods change, grouped. */
  datatype Span = Span(cells: set<Crd>, objects: map<Crd, Occupant>, items: map<Crd, Item>,
                       hasCharacter: bool, visited: bool)

  class Corridor {
    /** The two doors, by coordinate. */
    const doors: map<Crd, Door>
    const start: Crd
    const finish: Crd
    var cells: set<Crd>
    var objects: map<Crd, Occupant>
    var items: map<Crd, Item>
    var hasCharacter: bool
    var visited: bool

    /**
     * A corridor between two doors: its ends are the shifted door cells and
     * its cells are the path between them; nothing stands on it.
     */
    constructor(startDoor: Door, finishDoor: Door, direction: string, turn: int)
      requires IsDirection(direction)
      requires var ends := ShiftInitials(startDoor.crd, finishDoor.crd, direction).value;
        TurnFits(ends.0, ends.1, direction, turn)
      ensures doors == map[startDoor.crd := startDoor, finishDoor.crd := finishDoor]
      ensures (start, finish) == ShiftInitials(startDoor.crd, finishDoor.crd, direction).value
      ensures cells == Path(start, finish, direction, turn)
      ensures start in cells && finish in cells
      ensures objects == map[] && items == map[] && !hasCharacter && !visited
    {
      doors := map[startDoor.crd := startDoor, finishDoor.crd := finishDoor];
      var ends := ShiftInitials(startDoor.crd, finishDoor.crd, direction).value;
      start, finish := ends.0, ends.1;
      cells, objects, items := {}, map[], map[];
      hasCharacter, visited := false, false;
      new;
      GenerateCorridor(direction, turn);
      PathHasEnds(start, finish, direction, turn);
    }

    /** `__generate_corridor`: the path's segments, one builder call each. */
    method GenerateCorridor(direction: string, turn: int)
      requires cells == {}
      modifies this
      ensures cells == Path(start, finish, direction, turn)
      ensures objects == old(objects) && items == old(items) && hasCharacter == old(hasCharacter) && visited == old(visited)
    {
      var (y, x) := start;
      var (y', x') := finish;
      if direction == "v" {
        if x == x' {
          BuildVertical(y, y', x);
        } else {
          BuildVertical(y, turn, x);
          BuildHorizontal(x, x', turn);
          BuildVertical(y', turn, x');
        }
      } else if direction == "h" {
        if y == y' {
          BuildHorizontal(x, x', y);
        } else {
          BuildHorizontal(x, turn, y);
          BuildVertical(y, y', turn);
          BuildHorizontal(x', turn, y');
        }
      }
    }

    /** `__build_vertical_corridor`: exactly the column segment is added. */
    method BuildVertical(y1: int, y2: int, x: int)
      modifies this
      ensures cells == old(cells) + Column(y1, y2, x)
      ensures objects == old(objects) && items == old(items) && hasCharacter == old(hasCharacter) && visited == old(visited)
    {
      var lo, hi := Min(y1, y2), Max(y1, y2);
      ghost var c0 := cells;
      for y := lo to hi + 1
        invariant cells == c0 + set y' | lo <= y' < y :: (y', x)
        invariant objects == old(objects) && items == old(items) && hasCharacter == old(hasCharacter) && visited == old(visited)
      {
        cells := cells + {(y, x)};
      }
      assert Column(y1, y2, x) == set y' | lo <= y' < hi + 1 :: (y', x);
    }

    /** `__build_horizontal_corridor`: exactly the row segment is added. */
    method BuildHorizontal(x1: int, x2: int, y: int)
      modifies this
      ensures cells == old(cells) + Row(x1, x2, y)
      ensures objects == old(objects) && items == old(items) && hasCharacter == old(hasCharacter) && visited == old(visited)
    {
      var lo, hi := Min(x1, x2), Max(x1, x2);
      ghost var c0 := cells;
      for x := lo to hi + 1
        invariant cells == c0 + set x' | lo <= x' < x :: (y, x')
        invariant objects == old(objects) && items == old(items) && hasCharacter == old(hasCharacter) && visited == old(visited)
      {
        cells := cells + {(y, x)};
      }
      assert Row(x1, x2, y) == set x' | lo <= x' < hi + 1 :: (y, x');
    }

    function State(): Span
      reads this
    {
      Span(cells, objects, items, hasCharacter, visited)
    }

    /** `is_in`: a path cell, or the cell of an open door. */
    predicate IsIn(crd: Crd)
      reads this, doors.Values
    {
      crd in cells || (crd in doors && doors[crd].IsOpen())
    }

    /** `is_in_visible`: a path cell or a door cell, open or not. */
    predicate IsInVisible(crd: Crd)
      reads this
    {
      crd in cells || crd in doors
    }

    /** `is_in_and_available_for_move`: on the corridor and free of objects. */
    predicate IsInAndAvailableForMove(crd: Crd)
      reads this, doors.Values
    {
      IsIn(crd) && crd !in objects
    }

    /** `is_in_and_available`: a path or door cell, free of objects and items. */
    predicate IsInAndAvailable(crd: Crd)
      reads this
    {
      IsInVisible(crd) && crd !in objects && crd !in items
    }

    /** The path cells within radius `r` of `c` that hold no object and no item. */
    function Zone(c: Crd, r: int): (z: set<Crd>)
      reads this
      ensures forall p :: p in z <==> p in cells && InZone(p, c, r) && p !in objects && p !in items
    {
      set p | p in cells && InZone(p, c, r) && p !in objects && p !in items
    }

    /**
     * `get_random_crd_in_zone`: with radius 0, path cells are drawn until
     * one holds no object and no item (`None` when no draw in the list is
     * free); otherwise the draw is one of the free path cells within the
     * radius, and there must be one.
     */
    method GetRandomCrdInZone(crd: Crd, radius: int, draws: seq<Crd>, pick: Crd) returns (r: Result<Option<Crd>>)
      requires radius == 0 ==> (forall i :: 0 <= i < |draws| ==> draws[i] in cells)
      requires radius != 0 && Zone(crd, radius) != {} ==> pick in Zone(crd, radius)
      ensures r.Success? && r.value.Some? ==> r.value.value in cells && r.value.value !in objects && r.value.value !in items
      ensures radius != 0 ==> (r.Success? <==> Zone(crd, radius) != {})
      ensures radius != 0 && r.Success? ==> r.value.Some? && InZone(r.value.value, crd, radius)
      ensures radius != 0 && r.Failure? ==> r.error == EmptyChoice
      ensures radius == 0 ==> r.Success?
      ensures radius == 0 ==>
        (r.value.Some? <==> exists i :: 0 <= i < |draws| && draws[i] !in objects && draws[i] !in items)
      ensures radius == 0 && r.value.Some? ==>
        exists i :: 0 <= i < |draws| && r.value.value == draws[i] &&
          forall j :: 0 <= j < i ==> draws[j] in objects || draws[j] in items
    {
      if radius == 0 {
        var i := 0;
        while i < |draws| && (draws[i] in objects || draws[i] in items)
          invariant 0 <= i <= |draws|
          invariant forall j :: 0 <= j < i ==> draws[j] in objects || draws[j] in items
        {
          i := i + 1;
        }
        if i == |draws| {
          return Success(None);
        }
        return Success(Some(draws[i]));
      }
      if Zone(crd, radius) == {} {
        return Failure(EmptyChoice);
      }
      return Success(Some(pick));
    }

    method AddObject(crd: Crd, o: Occupant)
      modifies this
      ensures State() == old(State()).(objects := old(objects)[crd := o])
    {
      objects := objects[crd := o];
    }

    /** `remove_object`: `del` of a coordinate with no object is a KeyError. */
    method RemoveObject(crd: Crd) returns (r: Result<()>)
      modifies this
      ensures r.Success? <==> crd in old(objects)
      ensures r.Failure? ==> r.error == KeyError(CrdText(crd))
      ensures State() == old(State()).(objects := old(objects) - {crd})
    {
      if crd !in objects {
        return Failure(KeyError(CrdText(crd)));
      }
      objects := objects - {crd};
      return Success(());
    }

    function GetObject(crd: Crd): (o: Option<Occupant>)
      reads this
      ensures o.Some? <==> crd in objects
      ensures o.Some? ==> o.value == objects[crd]
    {
      Lists.Lookup(objects, crd)
    }

    method AddItem(crd: Crd, item: Item)
      modifies this
      ensures State() == old(State()).(items := old(items)[crd := item])
    {
      items := items[crd := item];
    }

    /** `remove_item`: `del` of a coordinate with no item is a KeyError. */
    method RemoveItem(crd: Crd) returns (r: Result<()>)
      modifies this
      ensures r.Success? <==> crd in old(items)
      ensures r.Failure? ==> r.error == KeyError(CrdText(crd))
      ensures State() == old(State()).(items := old(items) - {crd})
    {
      if crd !in items {
        return Failure(KeyError(CrdText(crd)));
      }
      items := items - {crd};
      return Success(());
    }

    function GetItem(crd: Crd): (o: Option<Item>)
      reads this
      ensures o.Some? <==> crd in items
      ensures o.Some? ==> o.value == items[crd]
    {
      Lists.Lookup(items, crd)
    }

    /** `face_door`: the door at `crd`, if this corridor has one there and it is locked. */
    function FaceDoor(crd: Crd): (d: Door?)
      reads this, doors.Values
      ensures d != null <==> crd in doors && doors[crd].IsClosed()
      ensures d != null ==> d == doors[crd]
    {
      if crd in doors && doors[crd].IsClosed() then doors[crd] else null
    }
  }

  /**
   * The corridor `Corridor(start_door, finish_door, direction)` builds, or
   * the ValueError of a direction other than "v" and "h".
   */
  method NewCorridor(startDoor: Door, finishDoor: Door, direction: string, turn: int) returns (r: Result<Corridor>)
    requires IsDirection(direction) ==>
      var ends := ShiftInitials(startDoor.crd, finishDoor.crd, direction).value;
      TurnFits(ends.0, ends.1, direction, turn)
    ensures r.Success? <==> IsDirection(direction)
    ensures r.Failure? ==> r.error == ValueError("direction must be 'v' or 'h'")
    ensures r.Success? ==> fresh(r.value) && r.value.cells == Path(r.value.start, r.value.finish, direction, turn)
    ensures r.Success? ==> r.value.doors == map[startDoor.crd := startDoor, finishDoor.crd := finishDoor]
    ensures r.Success? ==> r.value.objects == map[] && r.value.items == map[]
  {
    if !IsDirection(direction) {
      return Failure(ValueError("direction must be 'v' or 'h'"));
    }
    var c := new Corridor(startDoor, finishDoor, direction, turn);
    return Success(c);
  }
}
