/**
 * Locked doors and their keys (src/domain/map/keys.py). Three doors of the
 * level are locked, one per lock colour; then, three times, the rooms the
 * character can reach from its start room without passing a locked door
 * are searched, the last lock colour met on the way is chosen, its key is
 * put in one of the reachable rooms and its door is unlocked. At the end
 * the three doors are locked again.
 *
 * The search only looks at doors, so it is stated over `level`, the doors
 * of each room: `level[i]` are the doors of the room with id `i`, and a door
 * leads to the room whose id it holds. The `sample` of the locked doors is
 * given as three positions in the level's list of doors, and each `choice`
 * of a key's room as a draw taken modulo the number of reachable rooms.
 */
module LockedDoors {
  import opened Wrappers
  import opened Corridors
  import opened Rooms
  import Ch = Character

  /** `DoorsColor`, in declaration order. */
  const Colors: seq<int> := [Red, Green, Blue]

  predicate IsLockColor(c: int)
  {
    c == Red || c == Green || c == Blue
  }

  /** Every door of the level. */
  function AllDoors(level: seq<seq<Door>>): set<Door>
  {
    set i, k | 0 <= i < |level| && 0 <= k < |level[i]| :: level[i][k]
  }

  /** The index of the first door leading to room `target`, or `|ds|` when none does. */
  function FirstDoorTo(ds: seq<Door>, target: int): (i: nat)
    ensures i <= |ds|
    ensures i < |ds| ==> ds[i].room == target
    ensures forall j :: 0 <= j < i ==> ds[j].room != target
  {
    if |ds| == 0 then 0
    else if ds[0].room == target then 0
    else 1 + FirstDoorTo(ds[1..], target)
  }

  /** `get_2nd_door(room, door)`: the first door of the room `door` leads to that leads back to room `r`. */
  function SecondDoor(level: seq<seq<Door>>, r: int, d: Door): (s: Door?)
    ensures s != null ==> 0 <= d.room < |level| && s in level[d.room] && s.room == r
    ensures s == null <==> !(0 <= d.room < |level|) || (forall e :: e in level[d.room] ==> e.room != r)
  {
    if 0 <= d.room < |level| then
      var ds := level[d.room];
      var i := FirstDoorTo(ds, r);
      if i < |ds| then ds[i] else null
    else null
  }

  /**
   * The level is linked: every door leads to a room of the level and has a
   * door back, and no door belongs to two rooms or is listed twice.
   */
  ghost predicate Linked(level: seq<seq<Door>>)
  {
    DoorsLead(level) && BacksExist(level) && NoDuplicates(DoorList(level))
  }

  /** Every door has a door back. */
  ghost predicate BacksExist(level: seq<seq<Door>>)
  {
    forall i, k {:trigger SecondDoor(level, i, level[i][k])} ::
      0 <= i < |level| && 0 <= k < |level[i]| ==> SecondDoor(level, i, level[i][k]) != null
  }

  /** Every door leads to a room of the level. */
  ghost predicate DoorsLead(level: seq<seq<Door>>)
  {
    forall i, k :: 0 <= i < |level| && 0 <= k < |level[i]| ==> 0 <= level[i][k].room < |level|
  }

  /** `all_doors`: the rooms' doors, room by room. */
  function DoorList(level: seq<seq<Door>>): (ds: seq<Door>)
  {
    if |level| == 0 then [] else DoorList(level[..|level| - 1]) + level[|level| - 1]
  }

  /** The list of doors holds exactly the level's doors. */
  lemma {:induction false} DoorListIsAll(level: seq<seq<Door>>)
    ensures forall d :: d in DoorList(level) <==> d in AllDoors(level)
  {
    if |level| > 0 {
      var front := level[..|level| - 1];
      var last := level[|level| - 1];
      DoorListIsAll(front);
      forall d | d in AllDoors(level)
        ensures d in AllDoors(front) || d in last
      {
        var i, k :| 0 <= i < |level| && 0 <= k < |level[i]| && d == level[i][k];
        if i < |level| - 1 {
          assert level[i] == front[i];
        }
      }
      forall d | d in AllDoors(front)
        ensures d in AllDoors(level)
      {
        var i, k :| 0 <= i < |front| && 0 <= k < |front[i]| && d == front[i][k];
        assert front[i] == level[i];
      }
      forall d | d in last
        ensures d in AllDoors(level)
      {
        var k :| 0 <= k < |last| && d == last[k];
      }
    }
  }

  /**
   * `get_closed_door(door, get_2nd_door(room, door))`: the door itself if
   * it is locked, else the door back if that one is, else null.
   */
  function ClosedDoorOf(level: seq<seq<Door>>, r: int, d: Door): (c: Door?)
    requires d in AllDoors(level)
    reads AllDoors(level)
    ensures c != null ==> c.lock && (c == d || c == SecondDoor(level, r, d))
    ensures c == null <==> !d.lock && (SecondDoor(level, r, d) == null || !SecondDoor(level, r, d).lock)
  {
    if d.lock then d
    else
      var s := SecondDoor(level, r, d);
      if s == null then null
      else
        assert s in AllDoors(level) by {
          var k :| 0 <= k < |level[d.room]| && level[d.room][k] == s;
        }
        if s.lock then s else null
  }

  /** `get_closed_door` on its own: a missing second door is only looked at when the first is open. */
  function GetClosedDoor(d1: Door, d2: Door?): (r: Result<Door?>)
    reads d1, d2
    ensures d1.lock ==> r == Success(d1)
    ensures !d1.lock && d2 == null ==> r == Failure(AttributeError("'NoneType' object has no attribute 'is_closed'"))
    ensures !d1.lock && d2 != null ==> r == Success(if d2.lock then d2 else null)
  {
    if d1.lock then Success(d1)
    else if d2 == null then Failure(AttributeError("'NoneType' object has no attribute 'is_closed'"))
    else if d2.lock then Success(d2)
    else Success(null)
  }

  // ---------------------------------------------------------------------
  // Reachability, for any set of closed doors

  /** The passage through door `d` of room `a` is open when neither it nor the door back is closed. */
  ghost predicate Passable(level: seq<seq<Door>>, a: int, d: Door, closed: set<Door>)
  {
    d !in closed && (SecondDoor(level, a, d) == null || SecondDoor(level, a, d) !in closed)
  }

  /** One step from room `a` to room `b` through an open passage. */
  ghost predicate Step(level: seq<seq<Door>>, a: int, b: int, closed: set<Door>)
  {
    0 <= a < |level| &&
    exists k :: 0 <= k < |level[a]| && level[a][k].room == b && Passable(level, a, level[a][k], closed)
  }

  /** `p` is a walk from room to room, each step through an open passage. */
  ghost predicate IsWalk(level: seq<seq<Door>>, p: seq<int>, closed: set<Door>)
  {
    |p| >= 1 && forall t :: 0 <= t < |p| - 1 ==> Step(level, p[t], p[t + 1], closed)
  }

  ghost predicate Reachable(level: seq<seq<Door>>, from: int, to: int, closed: set<Door>)
  {
    exists p :: IsWalk(level, p, closed) && p[0] == from && p[|p| - 1] == to
  }

  /** The doors locked now. */
  function Locked(level: seq<seq<Door>>): set<Door>
    reads AllDoors(level)
  {
    set d | d in AllDoors(level) && d.lock
  }

  // ---------------------------------------------------------------------
  // The search

  predicate InRange(s: seq<int>, n: int)
  {
    forall i :: 0 <= i < |s| ==> 0 <= s[i] < n
  }

  /** `b` extends `a`. */
  predicate Grows<T(==)>(a: seq<T>, b: seq<T>)
  {
    |a| <= |b| && b[..|a|] == a
  }

  lemma GrowsKeeps<T>(a: seq<T>, b: seq<T>)
    requires Grows(a, b)
    ensures forall m :: 0 <= m < |a| ==> b[m] == a[m]
    ensures forall x :: x in a ==> x in b
  {
    forall x | x in a
      ensures x in b
    {
      var m :| 0 <= m < |a| && a[m] == x;
      assert b[m] == b[..|a|][m];
    }
  }

  lemma GrowsTrans<T>(a: seq<T>, b: seq<T>, c: seq<T>)
    requires Grows(a, b) && Grows(b, c)
    ensures Grows(a, c)
  {
    assert c[..|a|] == c[..|b|][..|a|];
  }

  /**
   * The search has dealt with door `d` of room `a`: through an open
   * passage its room is among the reachable ones, and a closed passage's
   * lock colour is among the keys.
   */
  predicate Handled(level: seq<seq<Door>>, a: int, d: Door, avail: seq<int>, keys: seq<int>)
    requires d in AllDoors(level)
    reads AllDoors(level)
  {
    var c := ClosedDoorOf(level, a, d);
    (c == null ==> d.room in avail) && (c != null ==> c.color in keys)
  }

  /** Every door of room `a` is dealt with. */
  predicate Covered(level: seq<seq<Door>>, a: int, avail: seq<int>, keys: seq<int>)
    requires 0 <= a < |level|
    reads AllDoors(level)
  {
    forall k :: 0 <= k < |level[a]| ==> DoorIn(level, a, k) && Handled(level, a, level[a][k], avail, keys)
  }

  /** The `k`-th door of room `a` is a door of the level. */
  predicate DoorIn(level: seq<seq<Door>>, a: int, k: int)
  {
    0 <= a < |level| && 0 <= k < |level[a]| && level[a][k] in AllDoors(level)
  }

  lemma DoorsIn(level: seq<seq<Door>>, a: int)
    requires 0 <= a < |level|
    ensures forall k :: 0 <= k < |level[a]| ==> DoorIn(level, a, k)
  {
  }

  lemma CoveredGrows(level: seq<seq<Door>>, a: int, avail: seq<int>, keys: seq<int>, avail': seq<int>, keys': seq<int>)
    requires 0 <= a < |level| && Covered(level, a, avail, keys)
    requires Grows(avail, avail') && Grows(keys, keys')
    ensures Covered(level, a, avail', keys')
  {
    GrowsKeeps(avail, avail');
    GrowsKeeps(keys, keys');
  }

  /** Room `avail[k]` was entered from an earlier room of `avail` through an open passage. */
  ghost predicate EnteredFrom(level: seq<seq<Door>>, avail: seq<int>, k: int)
    reads AllDoors(level)
    requires 0 <= k < |avail|
  {
    exists m :: 0 <= m < k && Step(level, avail[m], avail[k], Locked(level))
  }

  lemma EnteredFromGrows(level: seq<seq<Door>>, avail: seq<int>, avail': seq<int>, k: int)
    requires 0 <= k < |avail| && Grows(avail, avail') && EnteredFrom(level, avail, k)
    ensures EnteredFrom(level, avail', k)
  {
    GrowsKeeps(avail, avail');
    var m :| 0 <= m < k && Step(level, avail[m], avail[k], Locked(level));
    assert avail'[m] == avail[m] && avail'[k] == avail[k];
  }

  /** Key colour `c` was met at a closed passage of one of the rooms `avail[lo..]`. */
  ghost predicate MetAt(level: seq<seq<Door>>, avail: seq<int>, lo: int, c: int)
    reads AllDoors(level)
  {
    exists k, j :: 0 <= k && lo <= k < |avail| && 0 <= avail[k] < |level| && 0 <= j < |level[avail[k]]| &&
      DoorIn(level, avail[k], j) && ClosedDoorOf(level, avail[k], level[avail[k]][j]) != null &&
      ClosedDoorOf(level, avail[k], level[avail[k]][j]).color == c
  }

  lemma MetAtGrows(level: seq<seq<Door>>, avail: seq<int>, avail': seq<int>, lo: int, c: int)
    requires 0 <= lo && Grows(avail, avail') && MetAt(level, avail, lo, c)
    ensures MetAt(level, avail', lo, c)
  {
    GrowsKeeps(avail, avail');
    var k, j :| 0 <= k && lo <= k < |avail| && 0 <= avail[k] < |level| && 0 <= j < |level[avail[k]]| &&
      DoorIn(level, avail[k], j) && ClosedDoorOf(level, avail[k], level[avail[k]][j]) != null &&
      ClosedDoorOf(level, avail[k], level[avail[k]][j]).color == c;
    assert avail'[k] == avail[k];
  }

  lemma HandledGrows(level: seq<seq<Door>>, a: int, d: Door, avail: seq<int>, keys: seq<int>, avail': seq<int>, keys': seq<int>)
    requires d in AllDoors(level) && Handled(level, a, d, avail, keys)
    requires Grows(avail, avail') && Grows(keys, keys')
    ensures Handled(level, a, d, avail', keys')
  {
    GrowsKeeps(avail, avail');
    GrowsKeeps(keys, keys');
  }

  /** An open passage is a step between its two rooms. */
  lemma OpenIsStep(level: seq<seq<Door>>, a: int, j: int)
    requires 0 <= a < |level| && 0 <= j < |level[a]| && DoorIn(level, a, j)
    requires ClosedDoorOf(level, a, level[a][j]) == null
    ensures Step(level, a, level[a][j].room, Locked(level))
  {
    var d := level[a][j];
    assert Passable(level, a, d, Locked(level));
  }

  /** The search's loop invariant survives a search behind door `j`. */
  lemma AfterSearch(level: seq<seq<Door>>, r: int, j: int, avail: seq<int>, avail0: seq<int>, avail1: seq<int>,
                    keys: seq<int>, keys0: seq<int>, keys1: seq<int>)
    requires 0 <= r < |level| && 0 <= j < |level[r]|
    requires forall k :: 0 <= k < |level[r]| ==> DoorIn(level, r, k)
    requires ClosedDoorOf(level, r, level[r][j]) == null
    requires Grows(avail + [r], avail0) && Grows(keys, keys0) && InRange(avail0, |level|)
    requires forall k :: 0 <= k < j ==> Handled(level, r, level[r][k], avail0, keys0)
    requires forall k :: |avail| < k < |avail0| ==> Covered(level, avail0[k], avail0, keys0)
    requires forall k :: |avail| < k < |avail0| ==> EnteredFrom(level, avail0, k)
    requires forall n :: |keys| <= n < |keys0| ==> MetAt(level, avail0, |avail|, keys0[n])
    requires Grows(avail0, avail1) && |avail1| > |avail0| && avail1[|avail0|] == level[r][j].room
    requires InRange(avail1, |level|)
    requires Grows(keys0, keys1)
    requires forall k :: |avail0| <= k < |avail1| ==> Covered(level, avail1[k], avail1, keys1)
    requires forall k :: |avail0| < k < |avail1| ==> EnteredFrom(level, avail1, k)
    requires forall n :: |keys0| <= n < |keys1| ==> MetAt(level, avail1, |avail0|, keys1[n])
    ensures Grows(avail + [r], avail1) && Grows(keys, keys1)
    ensures forall k :: 0 <= k < j + 1 ==> Handled(level, r, level[r][k], avail1, keys1)
    ensures forall k :: |avail| < k < |avail1| ==> Covered(level, avail1[k], avail1, keys1)
    ensures forall k :: |avail| < k < |avail1| ==> EnteredFrom(level, avail1, k)
    ensures forall n :: |keys| <= n < |keys1| ==> MetAt(level, avail1, |avail|, keys1[n])
  {
    GrowsTrans(avail + [r], avail0, avail1);
    GrowsTrans(keys, keys0, keys1);
    GrowsKeeps(avail0, avail1);
    GrowsKeeps(keys0, keys1);
    GrowsKeeps(avail + [r], avail0);
    forall k | 0 <= k < j + 1
      ensures Handled(level, r, level[r][k], avail1, keys1)
    {
      if k < j {
        HandledGrows(level, r, level[r][k], avail0, keys0, avail1, keys1);
      }
    }
    forall k | |avail| < k < |avail1|
      ensures Covered(level, avail1[k], avail1, keys1)
    {
      if k < |avail0| {
        CoveredGrows(level, avail0[k], avail0, keys0, avail1, keys1);
      }
    }
    forall k | |avail| < k < |avail1|
      ensures EnteredFrom(level, avail1, k)
    {
      if k < |avail0| {
        EnteredFromGrows(level, avail0, avail1, k);
      } else if k == |avail0| {
        OpenIsStep(level, r, j);
        assert avail1[|avail|] == r;
      }
    }
    forall n | |keys| <= n < |keys1|
      ensures MetAt(level, avail1, |avail|, keys1[n])
    {
      if n < |keys0| {
        MetAtGrows(level, avail0, avail1, |avail|, keys0[n]);
      } else {
        MetAtLower(level, avail1, |avail|, |avail0|, keys1[n]);
      }
    }
  }

  /** The search's loop invariant survives a new key colour met at door `j`. */
  lemma AfterKey(level: seq<seq<Door>>, r: int, j: int, avail: seq<int>, avail0: seq<int>,
                 keys: seq<int>, keys0: seq<int>, keys1: seq<int>)
    requires 0 <= r < |level| && 0 <= j < |level[r]|
    requires forall k :: 0 <= k < |level[r]| ==> DoorIn(level, r, k)
    requires ClosedDoorOf(level, r, level[r][j]) != null
    requires keys1 == keys0 + [ClosedDoorOf(level, r, level[r][j]).color]
    requires Grows(avail + [r], avail0) && Grows(keys, keys0) && InRange(avail0, |level|)
    requires forall k :: 0 <= k < j ==> Handled(level, r, level[r][k], avail0, keys0)
    requires forall k :: |avail| < k < |avail0| ==> Covered(level, avail0[k], avail0, keys0)
    requires forall n :: |keys| <= n < |keys0| ==> MetAt(level, avail0, |avail|, keys0[n])
    ensures Grows(keys, keys1)
    ensures forall k :: 0 <= k < j + 1 ==> Handled(level, r, level[r][k], avail0, keys1)
    ensures forall k :: |avail| < k < |avail0| ==> Covered(level, avail0[k], avail0, keys1)
    ensures forall n :: |keys| <= n < |keys1| ==> MetAt(level, avail0, |avail|, keys1[n])
  {
    assert Grows(keys0, keys1);
    GrowsTrans(keys, keys0, keys1);
    GrowsKeeps(avail + [r], avail0);
    forall k | 0 <= k < j
      ensures Handled(level, r, level[r][k], avail0, keys1)
    {
      HandledGrows(level, r, level[r][k], avail0, keys0, avail0, keys1);
    }
    forall k | |avail| < k < |avail0|
      ensures Covered(level, avail0[k], avail0, keys1)
    {
      CoveredGrows(level, avail0[k], avail0, keys0, avail0, keys1);
    }
    forall n | |keys| <= n < |keys1|
      ensures MetAt(level, avail0, |avail|, keys1[n])
    {
      if n < |keys0| {
        assert keys1[n] == keys0[n];
      } else {
        assert avail0[|avail|] == r;
        assert DoorIn(level, avail0[|avail|], j);
      }
    }
  }

  lemma MetAtLower(level: seq<seq<Door>>, avail: seq<int>, lo: int, hi: int, c: int)
    requires lo <= hi && MetAt(level, avail, hi, c)
    ensures MetAt(level, avail, lo, c)
  {
  }

  /** The room ids `0..n-1`. */
  function Ids(n: nat): set<int>
  {
    Elems(seq(n, i => i))
  }

  function Elems(s: seq<int>): set<int>
  {
    set x | x in s
  }

  /** The rooms not yet searched are fewer once `r` joins the searched ones. */
  lemma MeasureShrinks(n: nat, r: int, avail: seq<int>, avail': seq<int>)
    requires 0 <= r < n && r !in avail && Grows(avail + [r], avail') && InRange(avail', n)
    ensures Ids(n) - Elems(avail') < Ids(n) - Elems(avail)
  {
    assert seq(n, i => i)[r] == r;
    assert Elems(avail') <= Ids(n) by {
      forall x | x in Elems(avail')
        ensures x in Ids(n)
      {
        assert seq(n, i => i)[x] == x;
      }
    }
    GrowsKeeps(avail + [r], avail');
    assert avail'[|avail|] == (avail + [r])[|avail|] == r;
    assert Elems(avail) <= Elems(avail');
    assert r in Elems(avail') - Elems(avail);
  }

  /** The search of room `r` has dealt with its first `j` doors (starting from `avail` and `keys`). */
  ghost predicate SearchInv(level: seq<seq<Door>>, r: int, j: int, avail: seq<int>, keys: seq<int>, avail': seq<int>, keys': seq<int>)
    reads AllDoors(level)
  {
    && 0 <= r < |level| && 0 <= j <= |level[r]|
    && (forall k :: 0 <= k < |level[r]| ==> DoorIn(level, r, k))
    && Grows(avail + [r], avail') && InRange(avail', |level|) && NoDuplicates(avail')
    && Grows(keys, keys') && NoDuplicates(keys')
    && (forall k :: 0 <= k < j ==> Handled(level, r, level[r][k], avail', keys'))
    && (forall k :: |avail| < k < |avail'| ==> Covered(level, avail'[k], avail', keys'))
    && (forall k :: |avail| < k < |avail'| ==> EnteredFrom(level, avail', k))
    && (forall n :: |keys| <= n < |keys'| ==> MetAt(level, avail', |avail|, keys'[n]))
  }

  /**
   * What `get_available_rooms(keys, available_rooms, room)` leaves in its
   * two lists: room `r` and, depth first, every room behind an open
   * passage not yet in the list are appended; the lock colour of each
   * closed passage met is appended unless already there.
   */
  method GetAvailableRooms(level: seq<seq<Door>>, r: int, keys: seq<int>, avail: seq<int>) returns (keys': seq<int>, avail': seq<int>)
    requires DoorsLead(level) && BacksExist(level)
    requires 0 <= r < |level| && r !in avail && InRange(avail, |level|) && NoDuplicates(avail) && NoDuplicates(keys)
    ensures Grows(avail, avail') && |avail'| > |avail| && avail'[|avail|] == r
    ensures InRange(avail', |level|) && NoDuplicates(avail')
    ensures Grows(keys, keys') && NoDuplicates(keys')
    ensures forall k :: |avail| <= k < |avail'| ==> Covered(level, avail'[k], avail', keys')
    ensures forall k :: |avail| < k < |avail'| ==> EnteredFrom(level, avail', k)
    ensures forall n :: |keys| <= n < |keys'| ==> MetAt(level, avail', |avail|, keys'[n])
    decreases Ids(|level|) - Elems(avail), 1
  {
    keys', avail' := keys, avail + [r];
    DoorsIn(level, r);
    for j := 0 to |level[r]|
      invariant SearchInv(level, r, j, avail, keys, avail', keys')
    {
      keys', avail' := SearchDoor(level, r, j, avail, keys, avail', keys');
    }
    SearchDone(level, r, avail, keys, avail', keys');
  }

  /** One pass of the loop over the doors of room `r`: door `j`. */
  method SearchDoor(level: seq<seq<Door>>, r: int, j: int, ghost avail: seq<int>, ghost keys: seq<int>, avail0: seq<int>, keys0: seq<int>)
    returns (keys1: seq<int>, avail1: seq<int>)
    requires DoorsLead(level) && BacksExist(level) && r !in avail && InRange(avail, |level|)
    requires 0 <= r < |level| && 0 <= j < |level[r]| && SearchInv(level, r, j, avail, keys, avail0, keys0)
    ensures SearchInv(level, r, j + 1, avail, keys, avail1, keys1)
    decreases Ids(|level|) - Elems(avail), 0
  {
    var d := level[r][j];
    var closed := ClosedPassage(level, r, j);
    if closed == null && d.room !in avail0 {
      MeasureShrinks(|level|, r, avail, avail0);
      keys1, avail1 := GetAvailableRooms(level, d.room, keys0, avail0);
      AfterSearch(level, r, j, avail, avail0, avail1, keys, keys0, keys1);
    } else if closed != null && closed.color !in keys0 {
      keys1, avail1 := keys0 + [closed.color], avail0;
      AfterKey(level, r, j, avail, avail0, keys, keys0, keys1);
    } else {
      keys1, avail1 := keys0, avail0;
      AfterSkip(level, r, j, avail, keys, avail0, keys0);
    }
  }

  /**
   * `get_closed_door(door, get_2nd_door(room, door))` for door `j` of room
   * `r`: in a linked level the door back exists, so it never raises.
   */
  method ClosedPassage(level: seq<seq<Door>>, r: int, j: int) returns (closed: Door?)
    requires BacksExist(level) && DoorIn(level, r, j)
    ensures closed == ClosedDoorOf(level, r, level[r][j])
  {
    var d := level[r][j];
    var got := GetClosedDoor(d, SecondDoor(level, r, d));
    closed := got.value;
  }

  /** A door whose passage is open to a searched room, or closed by a known colour, needs nothing. */
  lemma AfterSkip(level: seq<seq<Door>>, r: int, j: int, avail: seq<int>, keys: seq<int>, avail0: seq<int>, keys0: seq<int>)
    requires 0 <= r < |level| && 0 <= j < |level[r]| && SearchInv(level, r, j, avail, keys, avail0, keys0)
    requires var c := ClosedDoorOf(level, r, level[r][j]);
      (c == null ==> level[r][j].room in avail0) && (c != null ==> c.color in keys0)
    ensures SearchInv(level, r, j + 1, avail, keys, avail0, keys0)
  {
  }

  /** After the loop, room `r` itself is covered too. */
  lemma SearchDone(level: seq<seq<Door>>, r: int, avail: seq<int>, keys: seq<int>, avail': seq<int>, keys': seq<int>)
    requires 0 <= r < |level| && SearchInv(level, r, |level[r]|, avail, keys, avail', keys')
    ensures Grows(avail, avail') && |avail'| > |avail| && avail'[|avail|] == r
    ensures forall k :: |avail| <= k < |avail'| ==> Covered(level, avail'[k], avail', keys')
  {
    GrowsKeeps(avail + [r], avail');
    assert avail'[|avail|] == (avail + [r])[|avail|];
    assert Grows(avail, avail + [r]);
    GrowsTrans(avail, avail + [r], avail');
    assert Covered(level, r, avail', keys');
  }

  // ---------------------------------------------------------------------
  // What the search from the start room finds

  /** A door back is a door of the level. */
  lemma SecondDoorIn(level: seq<seq<Door>>, a: int, d: Door)
    requires SecondDoor(level, a, d) != null
    ensures SecondDoor(level, a, d) in AllDoors(level)
  {
    var s := SecondDoor(level, a, d);
    var k :| 0 <= k < |level[d.room]| && level[d.room][k] == s;
  }

  /** A passage is open under the current locks exactly when `get_closed_door` finds no locked door in it. */
  lemma PassableIffOpen(level: seq<seq<Door>>, a: int, k: int)
    requires DoorIn(level, a, k)
    ensures Passable(level, a, level[a][k], Locked(level)) <==> ClosedDoorOf(level, a, level[a][k]) == null
  {
    var d := level[a][k];
    if SecondDoor(level, a, d) != null {
      SecondDoorIn(level, a, d);
    }
  }

  /** Every room the search lists is reachable from its start through open passages. */
  lemma {:induction false} ListedReachable(level: seq<seq<Door>>, avail: seq<int>, k: int)
    requires 0 <= k < |avail|
    requires forall m :: 0 < m < |avail| ==> EnteredFrom(level, avail, m)
    ensures Reachable(level, avail[0], avail[k], Locked(level))
    decreases k
  {
    if k == 0 {
      assert IsWalk(level, [avail[0]], Locked(level));
    } else {
      assert EnteredFrom(level, avail, k);
      var m :| 0 <= m < k && Step(level, avail[m], avail[k], Locked(level));
      ListedReachable(level, avail, m);
      var p :| IsWalk(level, p, Locked(level)) && p[0] == avail[0] && p[|p| - 1] == avail[m];
      var q := p + [avail[k]];
      forall t | 0 <= t < |q| - 1
        ensures Step(level, q[t], q[t + 1], Locked(level))
      {
        if t + 1 < |p| {
          assert q[t] == p[t] && q[t + 1] == p[t + 1];
        } else {
          assert q[t] == p[|p| - 1] && q[t + 1] == avail[k];
        }
      }
      assert IsWalk(level, q, Locked(level));
    }
  }

  /** A walk that starts in a list closed under open passages stays in it. */
  lemma {:induction false} WalkStaysListed(level: seq<seq<Door>>, avail: seq<int>, keys: seq<int>, p: seq<int>)
    requires InRange(avail, |level|)
    requires forall k :: 0 <= k < |avail| ==> Covered(level, avail[k], avail, keys)
    requires IsWalk(level, p, Locked(level)) && p[0] in avail
    ensures p[|p| - 1] in avail
    decreases |p|
  {
    if |p| > 1 {
      var front := p[..|p| - 1];
      assert IsWalk(level, front, Locked(level)) by {
        forall t | 0 <= t < |front| - 1
          ensures Step(level, front[t], front[t + 1], Locked(level))
        {
          assert front[t] == p[t] && front[t + 1] == p[t + 1];
        }
      }
      WalkStaysListed(level, avail, keys, front);
      var a, b := p[|p| - 2], p[|p| - 1];
      assert a == front[|front| - 1];
      assert Step(level, a, b, Locked(level));
      var j :| 0 <= j < |level[a]| && level[a][j].room == b && Passable(level, a, level[a][j], Locked(level));
      var i :| 0 <= i < |avail| && avail[i] == a;
      assert Covered(level, avail[i], avail, keys);
      assert DoorIn(level, a, j) && Handled(level, a, level[a][j], avail, keys);
      PassableIffOpen(level, a, j);
    }
  }

  /**
   * `get_available_rooms(keys, rooms, start)` from empty lists: the rooms
   * listed are exactly those reachable from the start room without passing
   * a locked door, each once; every lock colour listed closes a passage out
   * of one of them, and every passage out of them that is closed has its
   * colour listed.
   */
  method SearchFromStart(level: seq<seq<Door>>, start: int) returns (keys: seq<int>, avail: seq<int>)
    requires DoorsLead(level) && BacksExist(level) && 0 <= start < |level|
    ensures |avail| >= 1 && avail[0] == start && NoDuplicates(avail) && NoDuplicates(keys) && InRange(avail, |level|)
    ensures forall b :: b in avail <==> Reachable(level, start, b, Locked(level))
    ensures forall n :: 0 <= n < |keys| ==> MetAt(level, avail, 0, keys[n])
    ensures forall k, j :: 0 <= k < |avail| && 0 <= j < |level[avail[k]]| ==>
      DoorIn(level, avail[k], j) && Handled(level, avail[k], level[avail[k]][j], avail, keys)
  {
    keys, avail := GetAvailableRooms(level, start, [], []);
    forall b | b in avail
      ensures Reachable(level, start, b, Locked(level))
    {
      var k :| 0 <= k < |avail| && avail[k] == b;
      ListedReachable(level, avail, k);
    }
    forall b | Reachable(level, start, b, Locked(level))
      ensures b in avail
    {
      var p :| IsWalk(level, p, Locked(level)) && p[0] == start && p[|p| - 1] == b;
      WalkStaysListed(level, avail, keys, p);
    }
    forall k, j | 0 <= k < |avail| && 0 <= j < |level[avail[k]]|
      ensures DoorIn(level, avail[k], j) && Handled(level, avail[k], level[avail[k]][j], avail, keys)
    {
      assert Covered(level, avail[k], avail, keys);
    }
  }

  // ---------------------------------------------------------------------
  // Locking the doors and placing the keys

  const SampleTooLarge := ValueError("Sample larger than population or is negative")
  const NoStartRoom := UnboundLocalError("cannot access local variable 'start_room' where it is not associated with a value")
  const PopEmpty := IndexError("pop from empty list")

  /** The rooms of a level hold their own ids, so no room is listed twice. */
  predicate Indexed(rooms: seq<Room>)
    reads rooms
  {
    forall i :: 0 <= i < |rooms| ==> rooms[i].id == i
  }

  /** The doors of each room. */
  function LevelOf(rooms: seq<Room>): (level: seq<seq<Door>>)
    reads rooms
    ensures |level| == |rooms| && forall i :: 0 <= i < |rooms| ==> level[i] == rooms[i].doors
  {
    seq(|rooms|, i requires 0 <= i < |rooms| reads rooms => rooms[i].doors)
  }

  /** `start_room`: the last room holding the character, if any. */
  function StartRoom(rooms: seq<Room>): (s: Option<nat>)
    reads rooms
    ensures s.Some? ==>
      s.value < |rooms| && rooms[s.value].hasCharacter && forall j :: s.value < j < |rooms| ==> !rooms[j].hasCharacter
    ensures s.None? ==> forall j :: 0 <= j < |rooms| ==> !rooms[j].hasCharacter
  {
    if |rooms| == 0 then None
    else if rooms[|rooms| - 1].hasCharacter then Some(|rooms| - 1)
    else StartRoom(rooms[..|rooms| - 1])
  }

  /** The doors still closed once the doors of the colours in `used` are unlocked. */
  function LockedFor(locked: seq<Door>, used: seq<int>): (c: set<Door>)
    requires |locked| <= |Colors|
    ensures forall m :: 0 <= m < |locked| && Colors[m] !in used ==> locked[m] in c
    ensures forall d :: d in c ==> exists m :: 0 <= m < |locked| && locked[m] == d && Colors[m] !in used
  {
    set m | 0 <= m < |locked| && Colors[m] !in used :: locked[m]
  }

  /**
   * The locks between two rounds: the `m`-th sampled door is still locked
   * in colour `Colors[m]` unless that colour's key was placed, in which case
   * it is open in the base colour; every other door is open.
   */
  ghost predicate RoundState(level: seq<seq<Door>>, locked: seq<Door>, order: seq<int>)
    reads AllDoors(level)
  {
    && |locked| == |Colors| && NoDuplicates(locked)
    && (forall m :: 0 <= m < |locked| ==> locked[m] in AllDoors(level))
    && (forall m :: 0 <= m < |locked| ==>
         if Colors[m] in order then !locked[m].lock && locked[m].color == DoorBaseColor
         else locked[m].lock && locked[m].color == Colors[m])
    && (forall d :: d in AllDoors(level) && d !in locked ==> !d.lock)
  }

  /** Between two rounds the locked doors are the sampled ones whose key was not placed yet. */
  lemma RoundLocks(level: seq<seq<Door>>, locked: seq<Door>, order: seq<int>)
    requires RoundState(level, locked, order)
    ensures Locked(level) == LockedFor(locked, order)
  {
    forall d | d in Locked(level)
      ensures d in LockedFor(locked, order)
    {
      var m :| 0 <= m < |locked| && locked[m] == d;
    }
  }

  /** A colour met in a round's search is the colour of a sampled door still locked. */
  lemma KeyIsFresh(level: seq<seq<Door>>, locked: seq<Door>, order: seq<int>, avail: seq<int>, c: int)
    requires RoundState(level, locked, order) && MetAt(level, avail, 0, c)
    ensures IsLockColor(c) && c !in order
  {
    var k, j :| 0 <= k < |avail| && 0 <= avail[k] < |level| && 0 <= j < |level[avail[k]]| &&
      DoorIn(level, avail[k], j) && ClosedDoorOf(level, avail[k], level[avail[k]][j]) != null &&
      ClosedDoorOf(level, avail[k], level[avail[k]][j]).color == c;
    var d := ClosedDoorOf(level, avail[k], level[avail[k]][j]);
    var s := SecondDoor(level, avail[k], level[avail[k]][j]);
    if s != null {
      SecondDoorIn(level, avail[k], level[avail[k]][j]);
    }
    assert d in AllDoors(level) && d.lock;
    var m :| 0 <= m < |locked| && locked[m] == d;
  }

  /** `lock_doors`: the `i`-th door gets the lock of the `i`-th colour. */
  method LockDoors(locked: seq<Door>)
    requires |locked| <= |Colors| && NoDuplicates(locked)
    modifies set d | d in locked
    ensures forall m :: 0 <= m < |locked| ==> locked[m].lock && locked[m].color == Colors[m]
  {
    for i := 0 to |locked|
      invariant forall m :: 0 <= m < i ==> locked[m].lock && locked[m].color == Colors[m]
    {
      locked[i].lock := true;
      locked[i].color := Colors[i];
    }
  }

  /** The inner loop of `generate_locked_doors`: the doors of colour `c` are unlocked and get the base colour. */
  method UnlockColor(locked: seq<Door>, c: int)
    requires NoDuplicates(locked)
    modifies set d | d in locked
    ensures forall m :: 0 <= m < |locked| ==>
      if old(locked[m].color) == c then !locked[m].lock && locked[m].color == DoorBaseColor
      else locked[m].lock == old(locked[m].lock) && locked[m].color == old(locked[m].color)
  {
    for i := 0 to |locked|
      invariant forall m :: 0 <= m < i ==>
        if old(locked[m].color) == c then !locked[m].lock && locked[m].color == DoorBaseColor
        else locked[m].lock == old(locked[m].lock) && locked[m].color == old(locked[m].color)
      invariant forall m :: i <= m < |locked| ==> locked[m].lock == old(locked[m].lock) && locked[m].color == old(locked[m].color)
    {
      if locked[i].color == c {
        locked[i].lock := false;
        locked[i].color := DoorBaseColor;
      }
    }
  }

  /** Unlocking a fresh colour's door moves the locks on to the next round. */
  method UnlockRound(ghost rooms: seq<Room>, ghost level: seq<seq<Door>>, locked: seq<Door>, ghost order: seq<int>, c: int)
    requires RoundState(level, locked, order) && IsLockColor(c) && c !in order
    modifies set d | d in locked
    ensures RoundState(level, locked, order + [c]) && unchanged(rooms)
  {
    UnlockColor(locked, c);
  }

  /**
   * A round's search: the rooms listed are those reachable through the
   * doors whose key was not placed yet, and every colour met is the colour
   * of one of those doors.
   */
  method SearchRound(level: seq<seq<Door>>, locked: seq<Door>, start: int, ghost order: seq<int>) returns (keys: seq<int>, avail: seq<int>)
    requires Linked(level) && 0 <= start < |level| && RoundState(level, locked, order)
    ensures |avail| >= 1 && InRange(avail, |level|)
    ensures forall b :: b in avail <==> Reachable(level, start, b, LockedFor(locked, order))
    ensures forall n :: 0 <= n < |keys| ==> IsLockColor(keys[n]) && keys[n] !in order
  {
    keys, avail := SearchFromStart(level, start);
    RoundLocks(level, locked, order);
    forall n | 0 <= n < |keys|
      ensures IsLockColor(keys[n]) && keys[n] !in order
    {
      KeyIsFresh(level, locked, order, avail, keys[n]);
    }
  }

  /** `place_key`, once `choice` has picked room `room`: the key joins that room's keys. */
  method PlaceKey(rooms: seq<Room>, room: int, c: int, ghost level: seq<seq<Door>>,
                  ghost before: seq<Contents>, ghost order: seq<int>, ghost keyRooms: seq<int>)
    requires Indexed(rooms) && 0 <= room < |rooms|
    requires |before| == |rooms| && |order| == |keyRooms| && Placed(rooms, before, order, keyRooms)
    modifies rooms[room]
    ensures rooms[room].State() == old(rooms[room].State()).(hasKeys := old(rooms[room].hasKeys) + [c])
    ensures Placed(rooms, before, order + [c], keyRooms + [room])
    ensures unchanged(AllDoors(level))
  {
    rooms[room].hasKeys := rooms[room].hasKeys + [c];
    forall j | 0 <= j < |rooms|
      ensures rooms[j].State() == before[j].(hasKeys := before[j].hasKeys + KeysIn(order + [c], keyRooms + [room], j))
    {
      KeysInSnoc(order, keyRooms, c, room, j);
    }
  }

  /**
   * The state after the first rounds, which placed the keys of colours
   * `order` in rooms `keyRooms`: distinct lock colours, each key in a room
   * reachable with the keys placed before it, the doors of those colours
   * unlocked and the keys added to the rooms' states `before`.
   */
  ghost predicate RoundsSoFar(rooms: seq<Room>, level: seq<seq<Door>>, locked: seq<Door>, start: int, before: seq<Contents>,
                              order: seq<int>, keyRooms: seq<int>)
    reads rooms, AllDoors(level)
  {
    && |before| == |rooms| && |order| == |keyRooms| && |locked| == |Colors| && NoDuplicates(order)
    && (forall n :: 0 <= n < |order| ==> IsLockColor(order[n]) && 0 <= keyRooms[n] < |rooms|)
    && RoundState(level, locked, order)
    && FetchableInOrder(level, start, locked, order, keyRooms)
    && Placed(rooms, before, order, keyRooms)
  }

  /**
   * One round of `generate_locked_doors`: the search from the start room,
   * `keys.pop()`, `place_key` in the `pick`-th reachable room (modulo their
   * number) and the unlocking of that key's door. Its result is the key's
   * colour and room.
   */
  method KeyRound(rooms: seq<Room>, level: seq<seq<Door>>, locked: seq<Door>, start: nat, pick: nat,
                  ghost before: seq<Contents>, ghost order: seq<int>, ghost keyRooms: seq<int>)
    returns (r: Result<(int, int)>)
    requires Indexed(rooms) && |level| == |rooms| && Linked(level) && start < |rooms|
    requires RoundsSoFar(rooms, level, locked, start, before, order, keyRooms)
    modifies rooms, set d | d in locked
    ensures r.Failure? ==> r.error == PopEmpty && RoundsSoFar(rooms, level, locked, start, before, order, keyRooms)
    ensures r.Success? ==> RoundsSoFar(rooms, level, locked, start, before, order + [r.value.0], keyRooms + [r.value.1])
  {
    var keys, avail := SearchRound(level, locked, start, order);
    if |keys| == 0 {
      return Failure(PopEmpty);
    }
    var c := keys[|keys| - 1];
    var room := avail[pick % |avail|];
    KeyPlaced(rooms, level, locked, start, c, room, before, order, keyRooms);
    r := Success((c, room));
  }

  /** The second half of a round: key `c` goes to room `room`, reachable in this round, and its door is unlocked. */
  method KeyPlaced(rooms: seq<Room>, level: seq<seq<Door>>, locked: seq<Door>, start: nat, c: int, room: int,
                   ghost before: seq<Contents>, ghost order: seq<int>, ghost keyRooms: seq<int>)
    requires Indexed(rooms) && 0 <= room < |rooms|
    requires RoundsSoFar(rooms, level, locked, start, before, order, keyRooms)
    requires IsLockColor(c) && c !in order && Reachable(level, start, room, LockedFor(locked, order))
    modifies rooms[room], set d | d in locked
    ensures RoundsSoFar(rooms, level, locked, start, before, order + [c], keyRooms + [room])
  {
    FetchableSnoc(level, start, locked, order, keyRooms, c, room);
    PlaceKey(rooms, room, c, level, before, order, keyRooms);
    UnlockRound(rooms, level, locked, order, c);
  }

  /** The keys the rounds placed in room `j`, in order. */
  function KeysIn(order: seq<int>, keyRooms: seq<int>, j: int): (ks: seq<int>)
    requires |order| == |keyRooms|
    ensures forall c :: c in ks ==> c in order
  {
    if |order| == 0 then []
    else
      var last := if keyRooms[|order| - 1] == j then [order[|order| - 1]] else [];
      KeysIn(order[..|order| - 1], keyRooms[..|order| - 1], j) + last
  }

  /** The keys placed in `order` (rooms `keyRooms`) after those before: one round more adds the last. */
  lemma KeysInSnoc(order: seq<int>, keyRooms: seq<int>, c: int, room: int, j: int)
    requires |order| == |keyRooms|
    ensures KeysIn(order + [c], keyRooms + [room], j) == KeysIn(order, keyRooms, j) + (if room == j then [c] else [])
  {
    assert (order + [c])[..|order|] == order;
    assert (keyRooms + [room])[..|order|] == keyRooms;
  }

  /** `sample(all_doors, 3)`, the draw given as the positions picked. */
  function Sampled(all: seq<Door>, sample: seq<nat>): (locked: seq<Door>)
    requires forall m :: 0 <= m < |sample| ==> sample[m] < |all|
    ensures |locked| == |sample| && forall m :: 0 <= m < |sample| ==> locked[m] == all[sample[m]]
  {
    seq(|sample|, m requires 0 <= m < |sample| => all[sample[m]])
  }

  /**
   * Every key lies in a room reachable from the start room through the
   * doors still locked when it was placed, that is with only the keys
   * placed before it.
   */
  ghost predicate FetchableInOrder(level: seq<seq<Door>>, start: int, locked: seq<Door>, order: seq<int>, keyRooms: seq<int>)
    requires |locked| == |Colors| && |order| == |keyRooms|
  {
    forall n :: 0 <= n < |order| ==> Reachable(level, start, keyRooms[n], LockedFor(locked, order[..n]))
  }

  lemma FetchableSnoc(level: seq<seq<Door>>, start: int, locked: seq<Door>, order: seq<int>, keyRooms: seq<int>, c: int, room: int)
    requires |locked| == |Colors| && |order| == |keyRooms|
    requires FetchableInOrder(level, start, locked, order, keyRooms)
    requires Reachable(level, start, room, LockedFor(locked, order))
    ensures FetchableInOrder(level, start, locked, order + [c], keyRooms + [room])
  {
    var order', keyRooms' := order + [c], keyRooms + [room];
    forall n | 0 <= n < |order'|
      ensures Reachable(level, start, keyRooms'[n], LockedFor(locked, order'[..n]))
    {
      if n < |order| {
        assert order'[..n] == order[..n] && keyRooms'[n] == keyRooms[n];
      } else {
        assert order'[..n] == order;
      }
    }
  }

  /** The rooms hold their states `before`, with the keys placed added. */
  ghost predicate Placed(rooms: seq<Room>, before: seq<Contents>, order: seq<int>, keyRooms: seq<int>)
    requires |before| == |rooms| && |order| == |keyRooms|
    reads rooms
  {
    forall j :: 0 <= j < |rooms| ==>
      rooms[j].State() == before[j].(hasKeys := before[j].hasKeys + KeysIn(order, keyRooms, j))
  }

  /** The colours of the keys placed, in order, and the rooms they were placed in. */
  datatype Placement = Placement(order: seq<int>, keyRooms: seq<int>)

  /** The state of each room. */
  function States(rooms: seq<Room>): (st: seq<Contents>)
    reads rooms
    ensures |st| == |rooms| && forall j :: 0 <= j < |rooms| ==> st[j] == rooms[j].State()
  {
    seq(|rooms|, j requires 0 <= j < |rooms| reads rooms => rooms[j].State())
  }

  /**
   * The three rounds of `generate_locked_doors`, from the sampled doors
   * locked: each places the key of a colour still locked in a room
   * reachable through the doors still locked, and unlocks that colour's
   * door; then the doors are locked again. The result lists the keys'
   * colours and rooms in the order placed.
   */
  method PlaceKeys(rooms: seq<Room>, level: seq<seq<Door>>, locked: seq<Door>, start: nat, picks: seq<nat>, ghost before: seq<Contents>)
    returns (r: Result<Placement>)
    requires Indexed(rooms) && |level| == |rooms| && Linked(level) && start < |rooms|
    requires RoundState(level, locked, []) && |picks| == |Colors|
    requires |before| == |rooms| && Placed(rooms, before, [], [])
    modifies rooms, set d | d in locked
    ensures r.Failure? ==> r.error == PopEmpty
    ensures forall j :: 0 <= j < |rooms| ==> rooms[j].doors == before[j].doors
    ensures r.Success? ==> KeysPlaced(rooms, level, locked, start, before, r.value)
  {
    var order: seq<int>, keyRooms: seq<int> := [], [];
    for i := 0 to |Colors|
      invariant |order| == i
      invariant RoundsSoFar(rooms, level, locked, start, before, order, keyRooms)
    {
      var step := KeyRound(rooms, level, locked, start, picks[i], before, order, keyRooms);
      if step.Failure? {
        PlacedKeepsDoors(rooms, before, order, keyRooms);
        return Failure(step.error);
      }
      var (c, room) := step.value;
      order, keyRooms := order + [c], keyRooms + [room];
    }
    Relock(rooms, level, locked, order);
    PlacedKeepsDoors(rooms, before, order, keyRooms);
    r := Success(Placement(order, keyRooms));
  }

  /** Placing keys leaves every room's doors as they were. */
  lemma PlacedKeepsDoors(rooms: seq<Room>, before: seq<Contents>, order: seq<int>, keyRooms: seq<int>)
    requires |before| == |rooms| && |order| == |keyRooms| && Placed(rooms, before, order, keyRooms)
    ensures forall j :: 0 <= j < |rooms| ==> rooms[j].doors == before[j].doors
  {
    forall j | 0 <= j < |rooms|
      ensures rooms[j].doors == before[j].doors
    {
      assert rooms[j].State().doors == rooms[j].doors;
    }
  }

  /** The last `lock_doors`: once every key is placed, the sampled doors are locked again and are the only locked doors. */
  method Relock(ghost rooms: seq<Room>, ghost level: seq<seq<Door>>, locked: seq<Door>, ghost order: seq<int>)
    requires RoundState(level, locked, order)
    modifies set d | d in locked
    ensures unchanged(rooms)
    ensures forall m :: 0 <= m < |Colors| ==> locked[m].lock && locked[m].color == Colors[m]
    ensures Locked(level) == LockedFor(locked, [])
  {
    LockDoors(locked);
    assert RoundState(level, locked, []);
    RoundLocks(level, locked, []);
  }

  /**
   * What `generate_locked_doors` leaves behind in a level whose doors were
   * `level` and whose rooms were in states `before`, with the character in
   * room `start`: `sample` failing on fewer than three doors; the missing
   * start room; else three keys of distinct colours, each in a room
   * reachable from the start room with only the keys placed before it,
   * each key added to its room and nothing else changed there, and the
   * three sampled doors, alone, locked in their colours.
   */
  ghost predicate Outcome(rooms: seq<Room>, level: seq<seq<Door>>, start: Option<nat>, before: seq<Contents>, sample: seq<nat>,
                          r: Result<Placement>)
    requires |before| == |rooms|
    requires |DoorList(level)| >= |Colors| ==> forall m :: 0 <= m < |sample| ==> sample[m] < |DoorList(level)|
    reads rooms, AllDoors(level)
  {
    && (|DoorList(level)| < |Colors| <==> r == Failure(SampleTooLarge))
    && (|DoorList(level)| >= |Colors| && start.None? ==> r == Failure(NoStartRoom))
    && (r.Failure? ==> r.error == SampleTooLarge || r.error == NoStartRoom || r.error == PopEmpty)
    && (r.Success? ==>
      && |DoorList(level)| >= |Colors| && start.Some? && |sample| == |Colors|
      && KeysPlaced(rooms, level, Sampled(DoorList(level), sample), start.value, before, r.value))
  }

  /**
   * After the three rounds and the last `lock_doors`: keys of three
   * distinct lock colours, each in a room reachable from the start room
   * with only the keys placed before it, each added to its room's state and
   * nothing else changed there; the sampled doors, alone, locked, each in
   * its colour.
   */
  ghost predicate KeysPlaced(rooms: seq<Room>, level: seq<seq<Door>>, locked: seq<Door>, start: int, before: seq<Contents>,
                             p: Placement)
    reads rooms, AllDoors(level)
  {
    && |before| == |rooms| && |locked| == |Colors| && (forall m :: 0 <= m < |locked| ==> locked[m] in AllDoors(level))
    && |p.order| == |Colors| == |p.keyRooms| && NoDuplicates(p.order)
    && (forall n :: 0 <= n < |p.order| ==> IsLockColor(p.order[n]) && 0 <= p.keyRooms[n] < |rooms|)
    && FetchableInOrder(level, start, locked, p.order, p.keyRooms)
    && Placed(rooms, before, p.order, p.keyRooms)
    && (forall m :: 0 <= m < |Colors| ==> locked[m].lock && locked[m].color == Colors[m])
    && Locked(level) == LockedFor(locked, [])
  }

  /**
   * What `generate_locked_doors` finds: rooms holding their ids, doors
   * leading to rooms of the level, each with a door back and none listed
   * twice, no door locked yet; a draw of three distinct positions among the
   * doors, when there are three; a draw for each round's `choice`.
   */
  ghost predicate Ready(rooms: seq<Room>, sample: seq<nat>, picks: seq<nat>)
    reads rooms, AllDoors(LevelOf(rooms))
  {
    && Indexed(rooms) && Linked(LevelOf(rooms))
    && (forall d :: d in AllDoors(LevelOf(rooms)) ==> !d.lock)
    && |sample| == |Colors| && NoDuplicates(sample)
    && (|DoorList(LevelOf(rooms))| >= |Colors| ==> forall m :: 0 <= m < |sample| ==> sample[m] < |DoorList(LevelOf(rooms))|)
    && |picks| == |Colors|
  }

  /**
   * `generate_locked_doors`: the character's keys are thrown away; three
   * doors sampled from all the level's doors are locked, one per colour;
   * three rounds each place the key of a colour still locked in a room
   * reachable from the start room through the doors not yet unlocked, so
   * the keys can be fetched in the order placed; finally the three doors
   * are locked again.
   */
  method GenerateLockedDoors(rooms: seq<Room>, character: Ch.Character, sample: seq<nat>, picks: seq<nat>)
    returns (r: Result<Placement>)
    requires Ready(rooms, sample, picks)
    modifies character, rooms, DoorList(LevelOf(rooms))
    ensures character.State() == old(character.State()).(rest := old(character.Rest()).(keys := []))
    ensures LevelOf(rooms) == old(LevelOf(rooms))
    ensures Outcome(rooms, old(LevelOf(rooms)), old(StartRoom(rooms)), old(States(rooms)), sample, r)
  {
    ghost var level, start, before := LevelOf(rooms), StartRoom(rooms), States(rooms);
    character.ClearKeys();
    assert LevelOf(rooms) == level && StartRoom(rooms) == start && States(rooms) == before;
    r := LockAndPlace(rooms, sample, picks);
  }

  /** `generate_locked_doors` once the character's keys are thrown away. */
  method LockAndPlace(rooms: seq<Room>, sample: seq<nat>, picks: seq<nat>) returns (r: Result<Placement>)
    requires Ready(rooms, sample, picks)
    modifies rooms, DoorList(LevelOf(rooms))
    ensures LevelOf(rooms) == old(LevelOf(rooms))
    ensures Outcome(rooms, old(LevelOf(rooms)), old(StartRoom(rooms)), old(States(rooms)), sample, r)
  {
    var level := LevelOf(rooms);
    var start := StartRoom(rooms);
    ghost var before := States(rooms);
    var all := DoorList(level);
    if |all| < |Colors| {
      return Failure(SampleTooLarge);
    }
    var locked := Sampled(all, sample);
    LockSample(rooms, level, locked, sample);
    if start.None? {
      return Failure(NoStartRoom);
    }
    r := PlaceKeys(rooms, level, locked, start.value, picks, before);
    assert LevelOf(rooms) == level;
  }

  /** The first `lock_doors`: the sampled doors are distinct doors of the level, and once locked the rounds can start. */
  method LockSample(rooms: seq<Room>, level: seq<seq<Door>>, locked: seq<Door>, sample: seq<nat>)
    requires NoDuplicates(DoorList(level)) && |sample| == |Colors| && NoDuplicates(sample)
    requires forall m :: 0 <= m < |sample| ==> sample[m] < |DoorList(level)|
    requires locked == Sampled(DoorList(level), sample)
    requires forall d :: d in AllDoors(level) ==> !d.lock
    modifies set d | d in locked
    ensures RoundState(level, locked, []) && unchanged(rooms)
  {
    DoorListIsAll(level);
    assert NoDuplicates(locked) by {
      forall m, n | 0 <= m < n < |locked|
        ensures locked[m] != locked[n]
      {
        assert sample[m] != sample[n];
      }
    }
    assert forall m :: 0 <= m < |locked| ==> locked[m] in AllDoors(level);
    LockDoors(locked);
  }

  /** Three keys of distinct lock colours are the lock colours in some order: every locked door's key is placed. */
  lemma EveryColorKeyed(order: seq<int>)
    requires |order| == |Colors| && NoDuplicates(order)
    requires forall n :: 0 <= n < |order| ==> IsLockColor(order[n])
    ensures multiset(order) == multiset(Colors)
  {
    var a, b, c := order[0], order[1], order[2];
    assert order == [a, b, c];
    assert multiset(Colors) == multiset{Red, Green, Blue};
    assert multiset(order) == multiset{a, b, c};
  }
}
