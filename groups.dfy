/**
 * The room groups of `__generate_doors_and_corridors`
 * (src/domain/map/level_map.py): each group is a set of room ids joined by
 * corridors. `union_groups` folds every later group that shares a room
 * into an earlier one; `check_connections` asks whether every group shares
 * a room with the first.
 */
module RoomGroups {
  import opened Wrappers
  import Rooms
  import Corridors

  /** Every room id of any group. */
  ghost function Covered(g: seq<set<int>>): set<int>
  {
    set x, k | 0 <= k < |g| && x in g[k] :: x
  }

  /** The inner loop of `union_groups` from `j` on: group `i` absorbs each later group it meets. */
  function MergeInto(g: seq<set<int>>, i: nat, j: nat): (r: seq<set<int>>)
    requires i < |g|
    ensures |r| == |g|
    decreases |g| - j
  {
    if j >= |g| then g
    else MergeInto(if g[i] * g[j] != {} then g[i := g[i] + g[j]] else g, i, j + 1)
  }

  /** The outer loop of `union_groups` from `i` on. */
  function UnionFrom(g: seq<set<int>>, i: nat): seq<set<int>>
    decreases |g| - i
  {
    if i + 1 >= |g| then g else UnionFrom(MergeInto(g, i, i + 1), i + 1)
  }

  /** `union_groups`: the two nested loops over the list of groups. */
  method UnionGroups(groups: seq<set<int>>) returns (g: seq<set<int>>)
    ensures g == UnionFrom(groups, 0)
  {
    g := groups;
    var i := 0;
    while i + 1 < |g|
      invariant |g| == |groups|
      invariant UnionFrom(g, i) == UnionFrom(groups, 0)
      decreases |g| - i
    {
      var j := i + 1;
      ghost var g0 := g;
      while j < |g|
        invariant |g| == |groups| && i < j <= |g|
        invariant MergeInto(g, i, j) == MergeInto(g0, i, i + 1)
        decreases |g| - j
      {
        if g[i] * g[j] != {} {
          g := g[i := g[i] + g[j]];
        }
        j := j + 1;
      }
      i := i + 1;
    }
  }

  /** `check_connections`: every group after the first shares a room with it (vacuous for one group or none). */
  predicate CheckConnections(g: seq<set<int>>)
  {
    forall i :: 1 <= i < |g| ==> g[0] * g[i] != {}
  }

  /**
   * The inner loop keeps the number of groups and the rooms covered, only
   * group `i` changes and only grows, and it takes in every group from `j`
   * on that meets it.
   */
  lemma {:induction false} MergeIntoGrows(g: seq<set<int>>, i: nat, j: nat)
    requires i < j
    requires i < |g|
    ensures var r := MergeInto(g, i, j);
      && |r| == |g|
      && g[i] <= r[i]
      && (forall k :: 0 <= k < |g| && k != i ==> r[k] == g[k])
      && Covered(r) == Covered(g)
      && (forall k :: j <= k < |g| && g[i] * g[k] != {} ==> g[k] <= r[i])
    decreases |g| - j
  {
    if j < |g| {
      var h := if g[i] * g[j] != {} then g[i := g[i] + g[j]] else g;
      MergeIntoGrows(h, i, j + 1);
      assert Covered(h) == Covered(g) by {
        forall x | x in Covered(g)
          ensures x in Covered(h)
        {
          var k :| 0 <= k < |g| && x in g[k];
          assert x in h[k];
        }
        forall x | x in Covered(h)
          ensures x in Covered(g)
        {
          var k :| 0 <= k < |h| && x in h[k];
          if x !in g[k] {
            assert x in g[j];
          }
        }
      }
      forall k | j <= k < |g| && g[i] * g[k] != {}
        ensures g[k] <= MergeInto(g, i, j)[i]
      {
        if k > j {
          assert h[k] == g[k];
          MeetGrows(g[i], g[k], h[i], h[k]);
        }
      }
    }
  }

  /**
   * The outer loop from `i` keeps the number of groups and the rooms
   * covered, leaves the groups before `i` alone and only grows the others.
   */
  lemma {:induction false} UnionFromGrows(g: seq<set<int>>, i: nat)
    ensures var r := UnionFrom(g, i);
      && |r| == |g|
      && (forall k :: 0 <= k < |g| ==> g[k] <= r[k])
      && (forall k :: 0 <= k < i && k < |g| ==> r[k] == g[k])
      && Covered(r) == Covered(g)
    decreases |g| - i
  {
    if i + 1 < |g| {
      MergeIntoGrows(g, i, i + 1);
      UnionFromGrows(MergeInto(g, i, i + 1), i + 1);
    }
  }

  /**
   * `union_groups` keeps the number of groups and the rooms they cover,
   * only grows each group, and the first group takes in every group that
   * shared a room with it.
   */
  lemma UnionAbsorbs(g: seq<set<int>>)
    ensures var r := UnionFrom(g, 0);
      && |r| == |g|
      && (forall k :: 0 <= k < |g| ==> g[k] <= r[k])
      && Covered(r) == Covered(g)
      && (forall k :: 1 <= k < |g| && g[0] * g[k] != {} ==> g[k] <= r[0])
  {
    UnionFromGrows(g, 0);
    if 1 < |g| {
      MergeIntoGrows(g, 0, 1);
      UnionFromGrows(MergeInto(g, 0, 1), 1);
    }
  }

  /** Groups that share a room still do once both have grown. */
  lemma MeetGrows(a: set<int>, b: set<int>, c: set<int>, d: set<int>)
    requires a * b != {} && a <= c && b <= d
    ensures c * d != {}
  {
    assert a * b <= c * d;
  }

  /** Groups connected to the first stay connected once united. */
  lemma UnionKeepsConnections(g: seq<set<int>>)
    requires CheckConnections(g)
    ensures CheckConnections(UnionFrom(g, 0))
  {
    var r := UnionFrom(g, 0);
    UnionFromGrows(g, 0);
    forall k | 1 <= k < |r|
      ensures r[0] * r[k] != {}
    {
      MeetGrows(g[0], g[k], r[0], r[k]);
    }
  }

  /** `choice` of a room of a group: any of its rooms. */
  method PickRoom(group: set<int>) returns (id: int)
    requires group != {}
    ensures id in group
  {
    if forall x :: x !in group {
      assert false;
    }
    id :| id in group;
  }

  /** The rooms that doors of room `id` on the sides `sides` lead to. */
  function Links(id: int, sides: seq<string>): set<int>
  {
    set k | 0 <= k < |sides| :: Rooms.Neighbour(id, sides[k])
  }

  /**
   * `add_connection`: every group after the first that shares no room
   * with it picks one of its rooms (`picks[i]`) and takes in the rooms
   * that room's new doors lead to, on the sides `sidesOf` draws for it;
   * the other groups stay as they are. An empty group has no room to pick
   * from: the IndexError of `choice`.
   */
  method AddConnection(groups: seq<set<int>>, sidesOf: int -> seq<string>) returns (r: Result<seq<set<int>>>, ghost picks: seq<int>)
    ensures r.Failure? <==> exists i :: 1 <= i < |groups| && groups[i] == {}
    ensures r.Failure? ==> r.error == Corridors.EmptyChoice
    ensures r.Success? ==> |r.value| == |groups| && |picks| == |groups|
    ensures r.Success? && |groups| > 0 ==> r.value[0] == groups[0]
    ensures r.Success? ==> forall i :: 1 <= i < |groups| ==>
      if groups[0] * groups[i] != {} then r.value[i] == groups[i]
      else picks[i] in groups[i] && r.value[i] == groups[i] + Links(picks[i], sidesOf(picks[i]))
  {
    picks := seq(|groups|, _ => 0);
    if |groups| <= 1 {
      return Success(groups), picks;
    }
    var g := groups;
    for i := 1 to |groups|
      invariant |g| == |groups| && |picks| == |groups| && g[0] == groups[0]
      invariant forall k :: 1 <= k < i ==> groups[k] != {}
      invariant forall k :: 1 <= k < i ==>
        if groups[0] * groups[k] != {} then g[k] == groups[k]
        else picks[k] in groups[k] && g[k] == groups[k] + Links(picks[k], sidesOf(picks[k]))
      invariant forall k :: i <= k < |groups| ==> g[k] == groups[k]
    {
      if g[i] == {} {
        return Failure(Corridors.EmptyChoice), picks;
      }
      if g[0] * g[i] == {} {
        var id := PickRoom(g[i]);
        picks := picks[i := id];
        var sides := sidesOf(id);
        ghost var g0 := g;
        assert g0[i] + Links(id, sides[..0]) == g0[i];
        assert g == g0[i := g0[i] + Links(id, sides[..0])];
        for k := 0 to |sides|
          invariant g == g0[i := g0[i] + Links(id, sides[..k])]
        {
          assert Links(id, sides[..k + 1]) == Links(id, sides[..k]) + {Rooms.Neighbour(id, sides[k])} by {
            assert forall j :: 0 <= j < k + 1 ==> sides[..k + 1][j] == if j < k then sides[..k][j] else sides[k];
          }
          g := g[i := g[i] + {Rooms.Neighbour(id, sides[k])}];
          assert g[i] == g0[i] + Links(id, sides[..k + 1]);
        }
        assert sides[..|sides|] == sides;
      }
    }
    return Success(g), picks;
  }
}
