/**
 * Rooms (src/domain/map/room.py). A level is a 3 x 3 grid of rooms with ids
 * 0..8, row by row. A room is an inclusive rectangle of cells from (y, x)
 * to (y2, x2), drawn inside its grid cell; it keeps the objects, the exit,
 * the items and the keys standing on it by coordinate, the sides of its
 * border that may still get a door, and the doors it has.
 *
 * Every `randint` is a parameter with the range the code draws from; a
 * rejection loop takes a sequence of draws and stops at the first acceptable
 * one, giving None when the sequence holds none (the unbounded search is not
 * modelled). The room sizes of the game settings are the `Settings` value.
 */
module Rooms {
  import opened Wrappers
  import opened RogueTypes
  import Lists
  import opened Items
  import opened Corridors
  import Ch = Character
  import Enemies

  const RoomSymbol: string := "."
  const RoomSymbolColor := 1
  const RoomBorderColor := 30
  const ExitSymbol: string := "⩎"
  const ExitColor := 30

  /** The room sizes of the game settings: the margin kept free in a grid cell and the least room size. */
  datatype Settings = Settings(indent: int, minHeight: int, minWidth: int)

  /** A room's corners: columns `x..x2`, rows `y..y2`, both inclusive. */
  datatype Rect = Rect(x: int, y: int, x2: int, y2: int)

  /** The four draws of `generate_room`: the room's width and height, then its left column and top row. */
  datatype RoomDraws = RoomDraws(width: int, height: int, x: int, y: int)

  /** There is room for a room in a grid cell of that height and width. */
  predicate Fits(s: Settings, height: int, width: int)
  {
    height - s.indent * 2 >= s.minHeight && width - s.indent * 2 >= s.minWidth
  }

  /** The draws lie in the ranges `generate_room` draws them from. */
  predicate RoomDrawsInRange(s: Settings, x: int, y: int, height: int, width: int, d: RoomDraws)
  {
    && s.minWidth <= d.width <= width - s.indent * 2
    && s.minHeight <= d.height <= height - s.indent * 2
    && x + s.indent <= d.x <= x + width - s.indent - d.width
    && y + s.indent <= d.y <= y + height - s.indent - d.height
  }

  const InsufficientSpace := ValueError("Unable to create room with insufficient space")

  /**
   * `generate_room`: a grid cell too small for the least room is a
   * ValueError; otherwise the room is at least the least size and lies in
   * the cell shrunk by the margin on every side.
   */
  function GenerateRoom(s: Settings, x: int, y: int, height: int, width: int, d: RoomDraws): (r: Result<Rect>)
    requires Fits(s, height, width) ==> RoomDrawsInRange(s, x, y, height, width, d)
    ensures r.Failure? <==> !Fits(s, height, width)
    ensures r.Failure? ==> r.error == InsufficientSpace
    ensures r.Success? ==> r.value.x2 - r.value.x + 1 == d.width >= s.minWidth
    ensures r.Success? ==> r.value.y2 - r.value.y + 1 == d.height >= s.minHeight
    ensures r.Success? ==> x + s.indent <= r.value.x && r.value.x2 <= x + width - 1 - s.indent
    ensures r.Success? ==> y + s.indent <= r.value.y && r.value.y2 <= y + height - 1 - s.indent
  {
    if !Fits(s, height, width) then Failure(InsufficientSpace)
    else Success(Rect(d.x, d.y, d.x + d.width - 1, d.y + d.height - 1))
  }

  /** `__doors_map`: the sides of each room of the grid that may get a door; other ids are a KeyError. */
  function DoorSides(id: int): (r: Result<seq<string>>)
    ensures r.Success? <==> 0 <= id <= 8
    ensures r.Failure? ==> r.error == KeyError(IntToString(id))
  {
    match id
    case 0 => Success(["D", "R"])
    case 1 => Success(["L", "D", "R"])
    case 2 => Success(["L", "D"])
    case 3 => Success(["U", "R", "D"])
    case 4 => Success(["U", "R", "L", "D"])
    case 5 => Success(["U", "L", "D"])
    case 6 => Success(["U", "R"])
    case 7 => Success(["L", "U", "R"])
    case 8 => Success(["L", "U"])
    case _ => Failure(KeyError(IntToString(id)))
  }

  predicate IsSide(side: string)
  {
    side == "U" || side == "D" || side == "L" || side == "R"
  }

  /** The id of the room a door on that side leads to, as `generate_door` computes it. */
  function Neighbour(id: int, side: string): int
  {
    if side == "U" then id - 3
    else if side == "D" then id + 3
    else if side == "L" then id - 1
    else id + 1
  }

  /** The side of the neighbour the door is on. */
  function Opposite(side: string): string
  {
    if side == "U" then "D"
    else if side == "D" then "U"
    else if side == "L" then "R"
    else "L"
  }

  /** A room of the grid has a neighbour on that side: not in the top row for U, and so on. */
  predicate HasNeighbour(id: int, side: string)
  {
    && 0 <= id <= 8
    && (side == "U" ==> id >= 3)
    && (side == "D" ==> id <= 5)
    && (side == "L" ==> id % 3 != 0)
    && (side == "R" ==> id % 3 != 2)
    && IsSide(side)
  }

  predicate NoDuplicates<T(==)>(s: seq<T>)
  {
    forall i, j :: 0 <= i < j < |s| ==> s[i] != s[j]
  }

  /** The door map lists exactly the sides on which a room of the 3 x 3 grid has a neighbour, each once. */
  lemma DoorSidesAreGrid(id: int, side: string)
    requires 0 <= id <= 8
    ensures side in DoorSides(id).value <==> HasNeighbour(id, side)
    ensures NoDuplicates(DoorSides(id).value)
  {
    assert 0 <= id <= 8;
    if id == 0 {} else if id == 1 {} else if id == 2 {} else if id == 3 {} else if id == 4 {}
    else if id == 5 {} else if id == 6 {} else if id == 7 {} else {}
  }

  /**
   * The door map is symmetric: the neighbour through a listed side is a
   * room of the grid and lists the opposite side, back to this room.
   */
  lemma DoorSidesSymmetric(id: int, side: string)
    requires 0 <= id <= 8 && side in DoorSides(id).value
    ensures 0 <= Neighbour(id, side) <= 8
    ensures Opposite(side) in DoorSides(Neighbour(id, side)).value
    ensures Neighbour(Neighbour(id, side), Opposite(side)) == id
  {
    DoorSidesAreGrid(id, side);
    DoorSidesAreGrid(Neighbour(id, side), Opposite(side));
  }

  /** Removing a side from a duplicate-free list leaves a duplicate-free list without it. */
  lemma {:induction false} RemoveFirstNoDuplicates(s: seq<string>, x: string)
    requires NoDuplicates(s)
    ensures NoDuplicates(Lists.RemoveFirst(s, x)) && x !in Lists.RemoveFirst(s, x)
    ensures forall y :: y in Lists.RemoveFirst(s, x) ==> y in s
  {
    if |s| > 0 {
      assert NoDuplicates(s[1..]);
      RemoveFirstNoDuplicates(s[1..], x);
      if s[0] != x {
        var t := Lists.RemoveFirst(s[1..], x);
        assert s[0] !in s[1..];
        assert s[0] !in t;
        assert Lists.RemoveFirst(s, x) == [s[0]] + t;
      }
      else {
        assert x !in s[1..];
      }
    }
  }

  /** Python's message for `randint(a, b)` with `a > b`. */
  function EmptyRange(a: int, b: int): Error
  {
    ValueError("empty range in randrange(" + IntToString(a) + ", " + IntToString(b + 1) + ")")
  }

  function UnknownSide(side: string): Error
  {
    ValueError("Unable to generate door with an unknown side " + side)
  }

  /** The room's fields, grouped. */
  datatype Contents = Contents(
    objects: map<Crd, Occupant>, exits: set<Crd>, items: map<Crd, Item>, keys: map<Crd, Key>,
    sides: seq<string>, doorsCoordinates: set<Crd>, hasCharacter: bool, visited: bool,
    doors: seq<Door>, hasKeys: seq<int>)

  class Room {
    const id: int
    const x: int
    const y: int
    const x2: int
    const y2: int
    var objects: map<Crd, Occupant>
    /** The exit cells (`__exit`); the exit itself carries no data. */
    var exits: set<Crd>
    var items: map<Crd, Item>
    var keys: map<Crd, Key>
    /** The sides still free for a door. */
    var sides: seq<string>
    var doorsCoordinates: set<Crd>
    var hasCharacter: bool
    var visited: bool
    var doors: seq<Door>
    /** The lock colours of the keys to be placed here. */
    var hasKeys: seq<int>

    /** A room of the grid whose free sides are among its door-map sides, each once. */
    ghost predicate Valid()
      reads this
    {
      && 0 <= id <= 8
      && NoDuplicates(sides)
      && forall s :: s in sides ==> s in DoorSides(id).value
    }

    function State(): Contents
      reads this
    {
      Contents(objects, exits, items, keys, sides, doorsCoordinates, hasCharacter, visited, doors, hasKeys)
    }

    /** A room with those corners, all its door-map sides free, and nothing on it. */
    constructor(id: int, r: Rect)
      requires 0 <= id <= 8
      ensures this.id == id && (x, y, x2, y2) == (r.x, r.y, r.x2, r.y2)
      ensures State() == Contents(map[], {}, map[], map[], DoorSides(id).value, {}, false, false, [], [])
      ensures Valid()
    {
      this.id := id;
      x, y, x2, y2 := r.x, r.y, r.x2, r.y2;
      objects, exits, items, keys := map[], {}, map[], map[];
      sides, doorsCoordinates := DoorSides(id).value, {};
      hasCharacter, visited := false, false;
      doors, hasKeys := [], [];
      new;
      DoorSidesAreGrid(id, "U");
    }

    /** `is_in`: inside the rectangle, both bounds of each axis included. */
    predicate IsIn(crd: Crd)
      reads this
    {
      y <= crd.0 <= y2 && x <= crd.1 <= x2
    }

    /** `is_in_and_available_for_move`: inside and free of objects. */
    predicate IsInAndAvailableForMove(crd: Crd)
      reads this
    {
      IsIn(crd) && crd !in objects
    }

    /** `is_in_and_available`: inside and free of objects and items. */
    predicate IsInAndAvailable(crd: Crd)
      reads this
    {
      IsIn(crd) && crd !in objects && crd !in items
    }

    /** The cell holds an object, the exit, an item or a key. */
    predicate Occupied(crd: Crd)
      reads this
    {
      crd in objects || crd in exits || crd in items || crd in keys
    }

    /** `add_actual_door`: a new open door to room `room` joins the room's doors. */
    method AddActualDoor(room: int, crd: Crd) returns (d: Door)
      modifies this
      ensures fresh(d) && d.room == room && d.crd == crd && d.IsOpen() && d.color == DoorBaseColor
      ensures State() == old(State()).(doors := old(doors) + [d])
    {
      d := new Door(room, crd);
      doors := doors + [d];
    }

    /**
     * `get_border_symbol`: a door cell shows the corridor; a cell of the
     * frame around the rectangle shows its wall or corner; anything else is
     * the empty string.
     */
    function GetBorderSymbol(yy: int, xx: int): (r: (string, int))
      reads this
      ensures (yy, xx) in doorsCoordinates ==> r == (" ", CorridorColor)
      ensures (yy, xx) !in doorsCoordinates ==> r.1 == RoomBorderColor
    {
      if (yy, xx) in doorsCoordinates then (" ", CorridorColor)
      else if (xx == x - 1 || xx == x2 + 1) && y <= yy <= y2 then ("║", RoomBorderColor)
      else if (yy == y - 1 || yy == y2 + 1) && x <= xx <= x2 then ("═", RoomBorderColor)
      else if yy == y - 1 && xx == x - 1 then ("╔", RoomBorderColor)
      else if xx == x - 1 && yy == y2 + 1 then ("╚", RoomBorderColor)
      else if xx == x2 + 1 && yy == y - 1 then ("╗", RoomBorderColor)
      else if xx == x2 + 1 && yy == y2 + 1 then ("╝", RoomBorderColor)
      else ("", RoomBorderColor)
    }

    /** The cell lies on the one-cell frame around the rectangle. */
    predicate OnFrame(yy: int, xx: int)
      reads this
    {
      y - 1 <= yy <= y2 + 1 && x - 1 <= xx <= x2 + 1 && !IsIn((yy, xx))
    }

    /**
     * Off the doors, a border symbol is drawn exactly on the frame, walls
     * along the sides and the four corner symbols at the corners.
     */
    lemma BorderIsFrame(yy: int, xx: int)
      requires x <= x2 && y <= y2 && (yy, xx) !in doorsCoordinates
      ensures GetBorderSymbol(yy, xx).0 != "" <==> OnFrame(yy, xx)
      ensures GetBorderSymbol(yy, xx).0 == "╔" <==> (yy, xx) == (y - 1, x - 1)
      ensures GetBorderSymbol(yy, xx).0 == "╝" <==> (yy, xx) == (y2 + 1, x2 + 1)
    {
    }

    /** `place_character`: the character stands on the drawn cell, and the room is marked as holding it and visited. */
    method PlaceCharacter(character: Ch.Character, crd: Crd)
      requires IsIn(crd)
      modifies this, character
      ensures State() == old(State()).(objects := old(objects)[crd := Hero], hasCharacter := true, visited := true)
      ensures character.State() == old(character.State()).(rest := old(character.Rest()).(crd := crd))
    {
      objects := objects[crd := Hero];
      character.Place(crd);
      hasCharacter, visited := true, true;
    }

    /** `place_exit`: the drawn cell becomes an exit. */
    method PlaceExit(crd: Crd)
      requires IsIn(crd)
      modifies this
      ensures State() == old(State()).(exits := old(exits) + {crd})
      ensures IsExit(crd)
    {
      exits := exits + {crd};
    }

    /**
     * `__allocate_coordinates`: the first drawn cell that holds no object,
     * exit, item or key; None when no draw is free.
     */
    method AllocateCoordinates(draws: seq<Crd>) returns (c: Option<Crd>)
      requires forall i :: 0 <= i < |draws| ==> IsIn(draws[i])
      ensures c.Some? <==> exists i :: 0 <= i < |draws| && !Occupied(draws[i])
      ensures c.Some? ==> IsIn(c.value) && !Occupied(c.value)
      ensures c.Some? ==> exists i :: 0 <= i < |draws| && draws[i] == c.value &&
                                     (forall j :: 0 <= j < i ==> Occupied(draws[j]))
    {
      var i := 0;
      while i < |draws| && Occupied(draws[i])
        invariant 0 <= i <= |draws|
        invariant forall j :: 0 <= j < i ==> Occupied(draws[j])
      {
        i := i + 1;
      }
      if i == |draws| {
        return None;
      }
      return Some(draws[i]);
    }

    /** The draw range of `get_random_crd_in_zone`: the square of that radius, clipped to the rectangle. */
    function ZoneBounds(crd: Crd, radius: int): (int, int, int, int)
      reads this
    {
      (Max(y, crd.0 - radius), Min(y2, crd.0 + radius), Max(x, crd.1 - radius), Min(x2, crd.1 + radius))
    }

    /**
     * `get_random_crd_in_zone`: radius 0 allocates anywhere in the room;
     * otherwise the column and then the row are drawn from the square around
     * `crd` clipped to the room (an empty range is a ValueError), until the
     * cell holds no object, item or key (the exit does not count here).
     */
    method GetRandomCrdInZone(crd: Crd, radius: int, draws: seq<Crd>) returns (r: Result<Option<Crd>>)
      requires radius == 0 ==> forall i :: 0 <= i < |draws| ==> IsIn(draws[i])
      requires radius != 0 ==> forall i :: 0 <= i < |draws| ==>
        var (ylo, yhi, xlo, xhi) := ZoneBounds(crd, radius);
        ylo <= draws[i].0 <= yhi && xlo <= draws[i].1 <= xhi
      ensures radius == 0 ==> r.Success? && (r.value.Some? ==> IsIn(r.value.value) && !Occupied(r.value.value))
      ensures radius == 0 ==> (r.value.Some? <==> exists i :: 0 <= i < |draws| && !Occupied(draws[i]))
      ensures radius != 0 ==> var (ylo, yhi, xlo, xhi) := ZoneBounds(crd, radius);
        && (r.Success? <==> xlo <= xhi && ylo <= yhi)
        && (xlo > xhi ==> r == Failure(EmptyRange(xlo, xhi)))
        && (xlo <= xhi && ylo > yhi ==> r == Failure(EmptyRange(ylo, yhi)))
      ensures radius != 0 && r.Success? && r.value.Some? ==>
        var c := r.value.value;
        && IsIn(c) && InZone(c, crd, radius)
        && c !in objects && c !in items && c !in keys
      ensures radius != 0 && r.Success? ==>
        (r.value.Some? <==> exists i :: 0 <= i < |draws| && draws[i] !in objects && draws[i] !in items && draws[i] !in keys)
    {
      if radius == 0 {
        var c := AllocateCoordinates(draws);
        return Success(c);
      }
      var (ylo, yhi, xlo, xhi) := ZoneBounds(crd, radius);
      if xlo > xhi {
        return Failure(EmptyRange(xlo, xhi));
      }
      if ylo > yhi {
        return Failure(EmptyRange(ylo, yhi));
      }
      var i := 0;
      while i < |draws| && (draws[i] in objects || draws[i] in items || draws[i] in keys)
        invariant 0 <= i <= |draws|
        invariant forall j :: 0 <= j < i ==> draws[j] in objects || draws[j] in items || draws[j] in keys
      {
        i := i + 1;
      }
      if i == |draws| {
        return Success(None);
      }
      return Success(Some(draws[i]));
    }

    /**
     * `random_door_sides`: `sample` of the free sides, as many as drawn
     * (`pick` are the indices it chooses); no free side gives none.
     */
    function RandomDoorSides(pick: seq<int>): (r: seq<string>)
      requires Valid()
      requires |sides| > 0 ==> 1 <= |pick| <= |sides| && NoDuplicates(pick)
      requires forall i :: 0 <= i < |pick| ==> 0 <= pick[i] < |sides|
      reads this
      ensures |sides| == 0 ==> r == []
      ensures |sides| > 0 ==> 1 <= |r| <= |sides|
      ensures NoDuplicates(r)
      ensures forall s :: s in r ==> s in sides
    {
      if |sides| == 0 then []
      else
        var ss := sides;
        var r := seq(|pick|, i requires 0 <= i < |pick| => ss[pick[i]]);
        assert forall i, j :: 0 <= i < j < |r| ==> r[i] != r[j] by {
          forall i, j | 0 <= i < j < |r|
            ensures r[i] != r[j]
          {
            assert pick[i] != pick[j];
          }
        }
        r
    }

    /** `__remove_side`: the side is no longer free; an absent side changes nothing. */
    method RemoveSide(side: string)
      requires Valid()
      modifies this
      ensures Valid() && side !in sides
      ensures State() == old(State()).(sides := Lists.RemoveFirst(old(sides), side))
    {
      RemoveFirstNoDuplicates(sides, side);
      sides := Lists.RemoveFirst(sides, side);
    }

    /**
     * `generate_door`: the side stops being free, and a door cell is drawn
     * one cell outside the rectangle on that side, strictly between the
     * side's corners; the result names the neighbour through that side and
     * the side of the neighbour the door is on. An unknown side, or a side
     * too short to hold a door, is a ValueError.
     */
    method GenerateDoor(side: string, draw: int) returns (r: Result<(int, string, Crd)>)
      requires Valid()
      requires (side == "U" || side == "D") && x + 1 <= x2 - 1 ==> x + 1 <= draw <= x2 - 1
      requires (side == "L" || side == "R") && y + 1 <= y2 - 1 ==> y + 1 <= draw <= y2 - 1
      modifies this
      ensures Valid() && side !in sides
      ensures r.Success? <==> IsSide(side) && (if side == "U" || side == "D" then x + 1 <= x2 - 1 else y + 1 <= y2 - 1)
      ensures !IsSide(side) ==> r == Failure(UnknownSide(side))
      ensures r.Failure? && IsSide(side) ==>
        r.error == if side == "U" || side == "D" then EmptyRange(x + 1, x2 - 1) else EmptyRange(y + 1, y2 - 1)
      ensures r.Failure? ==> State() == old(State()).(sides := Lists.RemoveFirst(old(sides), side))
      ensures r.Success? ==>
        State() == old(State()).(sides := Lists.RemoveFirst(old(sides), side), doorsCoordinates := old(doorsCoordinates) + {r.value.2})
      ensures r.Success? ==> r.value.0 == Neighbour(id, side) && r.value.1 == Opposite(side)
      ensures r.Success? ==> var c := r.value.2;
        && (x <= x2 && y <= y2 ==> OnFrame(c.0, c.1))
        && (side == "U" ==> c.0 == y - 1 && x < c.1 < x2)
        && (side == "D" ==> c.0 == y2 + 1 && x < c.1 < x2)
        && (side == "L" ==> c.1 == x - 1 && y < c.0 < y2)
        && (side == "R" ==> c.1 == x2 + 1 && y < c.0 < y2)
    {
      RemoveSide(side);
      var crd: Crd;
      if side == "U" || side == "D" {
        if x + 1 > x2 - 1 {
          return Failure(EmptyRange(x + 1, x2 - 1));
        }
        crd := (if side == "U" then y - 1 else y2 + 1, draw);
      } else if side == "L" || side == "R" {
        if y + 1 > y2 - 1 {
          return Failure(EmptyRange(y + 1, y2 - 1));
        }
        crd := (draw, if side == "L" then x - 1 else x2 + 1);
      } else {
        return Failure(UnknownSide(side));
      }
      doorsCoordinates := doorsCoordinates + {crd};
      return Success((Neighbour(id, side), Opposite(side), crd));
    }

    /** A door cell made by `generate_door` is drawn as the corridor. */
    lemma DoorShowsCorridor(c: Crd)
      requires c in doorsCoordinates
      ensures GetBorderSymbol(c.0, c.1) == (" ", CorridorColor)
    {
    }

    method AddObject(crd: Crd, o: Occupant)
      modifies this
      ensures State() == old(State()).(objects := old(objects)[crd := o])
    {
      objects := objects[crd := o];
    }

    /** `remove_object`: `del` of a coordinate with no object is a KeyError. */
    method RemoveObject(crd: Crd) returns (r: Result<()>)
      modifies this
      ensures r.Success? <==> crd in old(objects)
      ensures r.Failure? ==> r.error == KeyError(CrdText(crd))
      ensures State() == old(State()).(objects := old(objects) - {crd})
    {
      if crd !in objects {
        return Failure(KeyError(CrdText(crd)));
      }
      objects := objects - {crd};
      return Success(());
    }

    function GetObject(crd: Crd): (o: Option<Occupant>)
      reads this
      ensures o.Some? <==> crd in objects
      ensures o.Some? ==> o.value == objects[crd]
    {
      Lists.Lookup(objects, crd)
    }

    method AddItem(crd: Crd, item: Item)
      modifies this
      ensures State() == old(State()).(items := old(items)[crd := item])
    {
      items := items[crd := item];
    }

    /** `remove_item`: `del` of a coordinate with no item is a KeyError. */
    method RemoveItem(crd: Crd) returns (r: Result<()>)
      modifies this
      ensures r.Success? <==> crd in old(items)
      ensures r.Failure? ==> r.error == KeyError(CrdText(crd))
      ensures State() == old(State()).(items := old(items) - {crd})
    {
      if crd !in items {
        return Failure(KeyError(CrdText(crd)));
      }
      items := items - {crd};
      return Success(());
    }

    function GetItem(crd: Crd): (o: Option<Item>)
      reads this
      ensures o.Some? <==> crd in items
      ensures o.Some? ==> o.value == items[crd]
    {
      Lists.Lookup(items, crd)
    }

    /** `is_exit`. */
    predicate IsExit(crd: Crd)
      reads this
    {
      crd in exits
    }

    /**
     * `get_key`: a key on the cell is taken, and its lock colour (its
     * colour less 3) joins the character's keys; on any other cell nothing
     * changes.
     */
    method GetKey(crd: Crd, character: Ch.Character) returns (k: Option<Key>)
      modifies this, character
      ensures k.Some? <==> crd in old(keys)
      ensures k.Some? ==> k.value == old(keys)[crd]
      ensures k.Some? ==> State() == old(State()).(keys := old(keys) - {crd})
      ensures k.Some? ==>
        character.State() == old(character.State()).(rest := old(character.Rest()).(keys := old(character.keys) + [k.value.color - 3]))
      ensures k.None? ==> State() == old(State()) && character.State() == old(character.State())
    {
      if crd !in keys {
        return None;
      }
      var key := keys[crd];
      character.AddKey(key.color - 3);
      keys := keys - {crd};
      return Some(key);
    }

    /**
     * `face_door`: on a door coordinate, the first of the room's doors
     * there, when it is locked; otherwise null.
     */
    function FaceDoor(crd: Crd): (d: Door?)
      reads this, doors
      ensures d != null <==> crd in doorsCoordinates && FirstDoorAt(doors, crd) < |doors| && doors[FirstDoorAt(doors, crd)].IsClosed()
      ensures d != null ==> d in doors && d.crd == crd && d.IsClosed()
    {
      if crd in doorsCoordinates then
        var i := FirstDoorAt(doors, crd);
        if i < |doors| && doors[i].IsClosed() then doors[i] else null
      else null
    }

    /**
     * `generate_keys`: each lock colour in `hasKeys`, in order, becomes a
     * key on an allocated cell. A colour that is not a lock colour is the
     * KeyError of `Key`, raised before its cell is allocated; the keys
     * placed before it stay. `ok` is false when a draw sequence ran out.
     */
    method GenerateKeys(draws: seq<seq<Crd>>) returns (placed: seq<Crd>, r: Result<bool>)
      requires |draws| == |hasKeys|
      requires forall i, j :: 0 <= i < |draws| && 0 <= j < |draws[i]| ==> IsIn(draws[i][j])
      modifies this
      ensures |placed| <= |hasKeys| && NoDuplicates(placed)
      ensures r == Success(true) ==> |placed| == |hasKeys|
      ensures r.Failure? ==> |placed| < |hasKeys| && r.error == KeyError(IntToString(hasKeys[|placed|]))
      ensures forall k :: 0 <= k < |placed| ==> IsIn(placed[k]) && !old(Occupied(placed[k]))
      ensures forall k :: 0 <= k < |placed| ==> placed[k] in keys && NewKey(hasKeys[k]) == Success(keys[placed[k]])
      ensures forall c :: c in keys <==> c in old(keys) || c in placed
      ensures forall c :: c in old(keys) ==> keys[c] == old(keys)[c]
      ensures State() == old(State()).(keys := keys)
    {
      placed := [];
      var i := 0;
      while i < |hasKeys|
        invariant 0 <= i <= |hasKeys| && |placed| == i && NoDuplicates(placed)
        invariant forall k :: 0 <= k < |placed| ==> IsIn(placed[k]) && !old(Occupied(placed[k]))
        invariant forall k :: 0 <= k < |placed| ==> placed[k] in keys && NewKey(hasKeys[k]) == Success(keys[placed[k]])
        invariant forall c :: c in keys <==> c in old(keys) || c in placed
        invariant forall c :: c in old(keys) ==> keys[c] == old(keys)[c]
        invariant State() == old(State()).(keys := keys)
      {
        var key := NewKey(hasKeys[i]);
        if key.Failure? {
          return placed, Failure(key.error);
        }
        var c := AllocateCoordinates(draws[i]);
        if c.None? {
          return placed, Success(false);
        }
        keys := keys[c.value := key.value];
        placed := placed + [c.value];
        i := i + 1;
      }
      return placed, Success(true);
    }

    /**
     * `generate_enemies`: `EnemyAttempts(level)` attempts, one enemy each
     * time the creation draw `creates[i]` holds, on an allocated cell.
     * `complete` is false when a draw sequence ran out.
     */
    method GenerateEnemies(level: int, creates: seq<bool>, foes: seq<Enemies.Enemy>, draws: seq<seq<Crd>>)
      returns (placed: seq<Crd>, complete: bool)
      requires |creates| == EnemyAttempts(level) && |foes| == |creates| && |draws| == |creates|
      requires forall i, j :: 0 <= i < |draws| && 0 <= j < |draws[i]| ==> IsIn(draws[i][j])
      modifies this
      ensures complete ==> |placed| == CountTrue(creates)
      ensures |placed| <= CountTrue(creates) && NoDuplicates(placed)
      ensures forall k :: 0 <= k < |placed| ==> IsIn(placed[k]) && !old(Occupied(placed[k]))
      ensures forall c :: c in objects <==> c in old(objects) || c in placed
      ensures forall c :: c in old(objects) ==> objects[c] == old(objects)[c]
      ensures forall k :: 0 <= k < |placed| ==> objects[placed[k]].Foe?
      ensures State() == old(State()).(objects := objects)
    {
      placed, complete := [], true;
      var i := 0;
      while i < |creates|
        invariant 0 <= i <= |creates|
        invariant |placed| == CountTrue(creates[..i]) && NoDuplicates(placed)
        invariant forall k :: 0 <= k < |placed| ==> IsIn(placed[k]) && !old(Occupied(placed[k]))
        invariant forall c :: c in objects <==> c in old(objects) || c in placed
        invariant forall c :: c in old(objects) ==> objects[c] == old(objects)[c]
        invariant forall k :: 0 <= k < |placed| ==> objects[placed[k]].Foe?
        invariant State() == old(State()).(objects := objects)
      {
        CountTrueSnoc(creates[..i + 1]);
        assert creates[..i + 1][..i] == creates[..i];
        if creates[i] {
          var c := AllocateCoordinates(draws[i]);
          if c.None? {
            CountTruePrefix(creates, i);
            return placed, false;
          }
          objects := objects[c.value := Foe(foes[i])];
          placed := placed + [c.value];
        }
        i := i + 1;
      }
      assert creates[..i] == creates;
    }
  }

  /** `range(level // 4 + 2)`: the attempts `generate_enemies` makes (none for very low levels). */
  function EnemyAttempts(level: int): (n: nat)
    ensures level >= 1 ==> n >= 2
    ensures level >= 0 ==> n == level / 4 + 2
  {
    if level / 4 + 2 < 0 then 0 else level / 4 + 2
  }

  /** From level 1 to 21, two to seven attempts; each four levels add one. */
  lemma EnemyAttemptsGrow(level: int)
    requires 1 <= level <= 21
    ensures 2 <= EnemyAttempts(level) <= 7
    ensures EnemyAttempts(level + 4) == EnemyAttempts(level) + 1
  {
  }

  function CountTrue(s: seq<bool>): (n: nat)
    ensures n <= |s|
  {
    if |s| == 0 then 0 else CountTrue(s[..|s| - 1]) + (if s[|s| - 1] then 1 else 0)
  }

  lemma CountTrueSnoc(s: seq<bool>)
    requires |s| > 0
    ensures CountTrue(s) == CountTrue(s[..|s| - 1]) + (if s[|s| - 1] then 1 else 0)
  {
  }

  /** A prefix counts no more than the whole. */
  lemma {:induction false} CountTruePrefix(s: seq<bool>, i: nat)
    requires i <= |s|
    ensures CountTrue(s[..i]) <= CountTrue(s)
    decreases |s| - i
  {
    if i < |s| {
      CountTruePrefix(s, i + 1);
      assert s[..i + 1][..i] == s[..i];
    } else {
      assert s[..i] == s;
    }
  }

  /** The index of the first door at `crd`, or `|ds|` when there is none. */
  function FirstDoorAt(ds: seq<Door>, crd: Crd): (i: nat)
    ensures i <= |ds|
    ensures i < |ds| ==> ds[i].crd == crd
    ensures forall j :: 0 <= j < i ==> ds[j].crd != crd
  {
    if |ds| == 0 then 0
    else if ds[0].crd == crd then 0
    else 1 + FirstDoorAt(ds[1..], crd)
  }

  /**
   * `Room(start_x, start_y, height, width, id)`: the rectangle comes first
   * (a ValueError when the grid cell is too small), then the door-map
   * lookup (a KeyError for an id outside 0..8).
   */
  method NewRoom(s: Settings, x: int, y: int, height: int, width: int, id: int, d: RoomDraws) returns (r: Result<Room>)
    requires Fits(s, height, width) ==> RoomDrawsInRange(s, x, y, height, width, d)
    ensures r.Success? <==> Fits(s, height, width) && 0 <= id <= 8
    ensures !Fits(s, height, width) ==> r == Failure(InsufficientSpace)
    ensures Fits(s, height, width) && !(0 <= id <= 8) ==> r == Failure(KeyError(IntToString(id)))
    ensures r.Success? ==> fresh(r.value) && r.value.Valid() && r.value.id == id
    ensures r.Success? ==> var rect := GenerateRoom(s, x, y, height, width, d).value;
      (r.value.x, r.value.y, r.value.x2, r.value.y2) == (rect.x, rect.y, rect.x2, rect.y2)
    ensures r.Success? ==> r.value.State() == Contents(map[], {}, map[], map[], DoorSides(id).value, {}, false, false, [], [])
  {
    var rect :- GenerateRoom(s, x, y, height, width, d);
    if !(0 <= id <= 8) {
      return Failure(KeyError(IntToString(id)));
    }
    var room := new Room(id, rect);
    return Success(room);
  }
}
