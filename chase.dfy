/**
 * The chase step of `__engaged_enemy_move` (src/domain/map/level_map.py):
 * an engaged enemy that is not next to the character looks at its four
 * neighbours, right, left, down and up, and keeps the free ones that bring
 * it closest to the character.
 *
 * The source keeps a list `best_move` and, on finding a strictly closer
 * cell, pops ONE element before appending; earlier cells at the old
 * distance stay in the list. `AsWritten` and `SelectAsWritten` model that;
 * `Intended` and `Select` restart the list on a strictly closer cell, and
 * that is the selection `LevelMap.ChaseStep` (level_map.dfy) makes.
 */
module Chase {
  import opened RogueTypes

  /** The four moves in the source's order: right, left, down, up. */
  function Neighbours(crd: Crd): (ns: seq<Crd>)
    ensures |ns| == 4
  {
    [(crd.0, crd.1 + 1), (crd.0, crd.1 - 1), (crd.0 + 1, crd.1), (crd.0 - 1, crd.1)]
  }

  /** `abs(n) ** 2`: zero only for zero. */
  function Sq(n: int): (s: int)
    ensures s >= 0 && (s == 0 <==> n == 0)
  {
    var m := if n < 0 then -n else n;
    if m == 0 then 0
    else
      assert m * m >= m by { Grows(m); }
      m * m
  }

  lemma Grows(m: int)
    requires m > 0
    ensures m * m >= m
  {
  }

  /** The squared distance the source compares. */
  function Dist2(a: Crd, b: Crd): (d: int)
    ensures d >= 0
    ensures d == 0 <==> a == b
  {
    Sq(a.0 - b.0) + Sq(a.1 - b.1)
  }

  /** The state of the loop: the smallest distance so far and the kept cells. */
  datatype Best = Best(minDist: int, moves: seq<Crd>)

  /** Before the loop: the current distance plus 2, and no cell. */
  function Start(crd: Crd, target: Crd): Best
  {
    Best(Dist2(crd, target) + 2, [])
  }

  /** One iteration as the source writes it: a strictly closer cell pops one kept cell. */
  function StepAsWritten(b: Best, c: Crd, free: bool, target: Crd): Best
  {
    if !free then b
    else
      var d := Dist2(c, target);
      if d <= b.minDist then
        Best(d, (if d < b.minDist && |b.moves| > 0 then b.moves[..|b.moves| - 1] else b.moves) + [c])
      else b
  }

  /** The first `k` iterations as the source writes them. */
  function AsWritten(crd: Crd, target: Crd, free: seq<bool>, k: nat): Best
    requires k <= 4 && |free| == 4
  {
    if k == 0 then Start(crd, target)
    else StepAsWritten(AsWritten(crd, target, free, k - 1), Neighbours(crd)[k - 1], free[k - 1], target)
  }

  /** One iteration as intended: a strictly closer cell restarts the list, an equal one joins it. */
  function StepIntended(b: Best, c: Crd, free: bool, target: Crd): Best
  {
    if !free then b
    else
      var d := Dist2(c, target);
      if d < b.minDist then Best(d, [c])
      else if d == b.minDist then Best(d, b.moves + [c])
      else b
  }

  /** The first `k` iterations as intended. */
  function Intended(crd: Crd, target: Crd, free: seq<bool>, k: nat): Best
    requires k <= 4 && |free| == 4
  {
    if k == 0 then Start(crd, target)
    else StepIntended(Intended(crd, target, free, k - 1), Neighbours(crd)[k - 1], free[k - 1], target)
  }

  /**
   * The loop of the source: `free[i]` says whether some room or corridor
   * can take the enemy at the i-th neighbour.
   */
  method SelectAsWritten(crd: Crd, target: Crd, free: seq<bool>) returns (best: seq<Crd>)
    requires |free| == 4
    ensures best == AsWritten(crd, target, free, 4).moves
  {
    var ns := Neighbours(crd);
    var minDist := Dist2(crd, target) + 2;
    best := [];
    for i := 0 to 4
      invariant Best(minDist, best) == AsWritten(crd, target, free, i)
    {
      if free[i] {
        var d := Dist2(ns[i], target);
        if d <= minDist {
          if d < minDist && |best| > 0 {
            best := best[..|best| - 1];
          }
          minDist := d;
          best := best + [ns[i]];
        }
      }
    }
  }

  /** The corrected loop, which `LevelMap.ChaseStep` calls. */
  method Select(crd: Crd, target: Crd, free: seq<bool>) returns (best: seq<Crd>)
    requires |free| == 4
    ensures best == Intended(crd, target, free, 4).moves
  {
    var ns := Neighbours(crd);
    var minDist := Dist2(crd, target) + 2;
    best := [];
    for i := 0 to 4
      invariant Best(minDist, best) == Intended(crd, target, free, i)
    {
      if free[i] {
        var d := Dist2(ns[i], target);
        if d < minDist {
          minDist := d;
          best := [ns[i]];
        } else if d == minDist {
          best := best + [ns[i]];
        }
      }
    }
  }

  /** The i-th neighbour is free and within the current distance plus 2. */
  predicate Eligible(crd: Crd, target: Crd, free: seq<bool>, i: int)
    requires |free| == 4
  {
    0 <= i < 4 && free[i] && Dist2(Neighbours(crd)[i], target) <= Dist2(crd, target) + 2
  }

  /**
   * As written, after `k` neighbours: the smallest distance is at most the
   * current one plus 2, the last kept cell is at it, no eligible neighbour
   * is closer, and nothing is kept only when no neighbour is eligible.
   */
  lemma {:induction false} AsWrittenBound(crd: Crd, target: Crd, free: seq<bool>, k: nat)
    requires k <= 4 && |free| == 4
    ensures var b := AsWritten(crd, target, free, k);
      && b.minDist <= Dist2(crd, target) + 2
      && (|b.moves| > 0 ==> Dist2(b.moves[|b.moves| - 1], target) == b.minDist)
      && (forall i :: 0 <= i < k && Eligible(crd, target, free, i) ==> b.minDist <= Dist2(Neighbours(crd)[i], target))
      && (|b.moves| == 0 ==> b.minDist == Dist2(crd, target) + 2)
      && (|b.moves| == 0 <==> forall i :: 0 <= i < k ==> !Eligible(crd, target, free, i))
  {
    if k > 0 {
      AsWrittenBound(crd, target, free, k - 1);
      var b := AsWritten(crd, target, free, k - 1);
      var c := Neighbours(crd)[k - 1];
      var d := Dist2(c, target);
      var b' := AsWritten(crd, target, free, k);
      assert b' == StepAsWritten(b, c, free[k - 1], target);
      if free[k - 1] && d <= b.minDist {
        assert Eligible(crd, target, free, k - 1);
        assert b'.minDist == d && b'.moves[|b'.moves| - 1] == c;
      } else {
        assert b' == b;
        assert Eligible(crd, target, free, k - 1) ==> b.minDist < d;
      }
    }
  }

  /** As written, each kept cell is an eligible neighbour: `idx` names which, cell by cell. */
  lemma {:induction false} AsWrittenKept(crd: Crd, target: Crd, free: seq<bool>, k: nat) returns (idx: seq<int>)
    requires k <= 4 && |free| == 4
    ensures var moves := AsWritten(crd, target, free, k).moves;
      && |idx| == |moves|
      && forall j :: 0 <= j < |idx| ==> 0 <= idx[j] < k && Neighbours(crd)[idx[j]] == moves[j] && Eligible(crd, target, free, idx[j])
  {
    if k == 0 {
      idx := [];
    } else {
      var prev := AsWrittenKept(crd, target, free, k - 1);
      AsWrittenBound(crd, target, free, k - 1);
      var b := AsWritten(crd, target, free, k - 1);
      var c := Neighbours(crd)[k - 1];
      var d := Dist2(c, target);
      assert AsWritten(crd, target, free, k) == StepAsWritten(b, c, free[k - 1], target);
      if free[k - 1] && d <= b.minDist {
        assert Eligible(crd, target, free, k - 1);
        if d < b.minDist && |b.moves| > 0 {
          idx := prev[..|prev| - 1] + [k - 1];
        } else {
          idx := prev + [k - 1];
        }
      } else {
        idx := prev;
      }
    }
  }

  /**
   * The source's selection: every kept cell is a free neighbour within the
   * current distance plus 2; the last one kept is at least as close as
   * every free neighbour; nothing is kept exactly when no neighbour is.
   */
  lemma AsWrittenSound(crd: Crd, target: Crd, free: seq<bool>)
    requires |free| == 4
    ensures var moves := AsWritten(crd, target, free, 4).moves;
      && (forall c :: c in moves ==> exists i :: 0 <= i < 4 && Neighbours(crd)[i] == c && Eligible(crd, target, free, i))
      && (|moves| > 0 ==> forall i :: 0 <= i < 4 && free[i] ==> Dist2(moves[|moves| - 1], target) <= Dist2(Neighbours(crd)[i], target))
      && (|moves| == 0 <==> forall i :: 0 <= i < 4 ==> !Eligible(crd, target, free, i))
  {
    var moves := AsWritten(crd, target, free, 4).moves;
    var idx := AsWrittenKept(crd, target, free, 4);
    AsWrittenBound(crd, target, free, 4);
    forall c | c in moves
      ensures exists i :: 0 <= i < 4 && Neighbours(crd)[i] == c && Eligible(crd, target, free, i)
    {
      var j :| 0 <= j < |moves| && moves[j] == c;
      assert Neighbours(crd)[idx[j]] == c && Eligible(crd, target, free, idx[j]);
    }
  }

  /**
   * The discrepancy: an enemy at (0, 0) with the character at (3, 0) and
   * every neighbour free keeps (0, 1), which is farther from the character
   * (10) than the enemy already is (9), beside the closer (1, 0).
   */
  lemma AsWrittenKeepsFartherCell()
    ensures AsWritten((0, 0), (3, 0), [true, true, true, true], 4).moves == [(0, 1), (1, 0)]
    ensures Dist2((0, 1), (3, 0)) == 10 > Dist2((0, 0), (3, 0)) == 9
    ensures Intended((0, 0), (3, 0), [true, true, true, true], 4).moves == [(1, 0)]
  {
    var f := [true, true, true, true];
    assert AsWritten((0, 0), (3, 0), f, 1) == Best(10, [(0, 1)]);
    assert AsWritten((0, 0), (3, 0), f, 2) == Best(10, [(0, 1), (0, -1)]);
    assert AsWritten((0, 0), (3, 0), f, 3) == Best(4, [(0, 1), (1, 0)]);
    assert Intended((0, 0), (3, 0), f, 3) == Best(4, [(1, 0)]);
  }

  /** Every free neighbour among the first `k` is at least `m` away. */
  ghost predicate NoneCloser(crd: Crd, target: Crd, free: seq<bool>, k: nat, m: int)
    requires k <= 4 && |free| == 4
  {
    forall i :: 0 <= i < k && free[i] ==> m <= Dist2(Neighbours(crd)[i], target)
  }

  /** The free neighbours among the first `k` at distance `m`, in order. */
  function AtDist(crd: Crd, target: Crd, free: seq<bool>, k: nat, m: int): (r: seq<Crd>)
    requires k <= 4 && |free| == 4
    ensures |r| <= k
  {
    if k == 0 then []
    else AtDist(crd, target, free, k - 1, m) + (if free[k - 1] && Dist2(Neighbours(crd)[k - 1], target) == m then [Neighbours(crd)[k - 1]] else [])
  }

  lemma {:induction false} AtDistMember(crd: Crd, target: Crd, free: seq<bool>, k: nat, m: int, c: Crd)
    requires k <= 4 && |free| == 4
    ensures c in AtDist(crd, target, free, k, m) <==>
      exists i :: 0 <= i < k && Neighbours(crd)[i] == c && free[i] && Dist2(c, target) == m
  {
    if k > 0 {
      AtDistMember(crd, target, free, k - 1, m, c);
      if Neighbours(crd)[k - 1] == c && free[k - 1] && Dist2(c, target) == m {
        assert c in AtDist(crd, target, free, k, m);
      }
    }
  }

  lemma {:induction false} AtDistNone(crd: Crd, target: Crd, free: seq<bool>, k: nat, m: int, d: int)
    requires k <= 4 && |free| == 4
    requires NoneCloser(crd, target, free, k, m) && d < m
    ensures AtDist(crd, target, free, k, d) == []
  {
    if k > 0 {
      AtDistNone(crd, target, free, k - 1, m, d);
    }
  }

  /**
   * As intended, after `k` neighbours: the kept cells are, in order, the
   * free ones at the smallest distance, which is at most the current one
   * plus 2 and no farther than any free neighbour; with nothing kept it is
   * still the current one plus 2.
   */
  lemma {:induction false} IntendedExact(crd: Crd, target: Crd, free: seq<bool>, k: nat)
    requires k <= 4 && |free| == 4
    ensures var b := Intended(crd, target, free, k);
      && b.minDist <= Dist2(crd, target) + 2
      && NoneCloser(crd, target, free, k, b.minDist)
      && b.moves == AtDist(crd, target, free, k, b.minDist)
      && (|b.moves| == 0 ==> b.minDist == Dist2(crd, target) + 2)
  {
    if k > 0 {
      IntendedExact(crd, target, free, k - 1);
      var b := Intended(crd, target, free, k - 1);
      var c := Neighbours(crd)[k - 1];
      var d := Dist2(c, target);
      assert Intended(crd, target, free, k) == StepIntended(b, c, free[k - 1], target);
      if free[k - 1] && d < b.minDist {
        AtDistNone(crd, target, free, k - 1, b.minDist, d);
      }
    }
  }

  /**
   * `c` is an eligible neighbour, and no free neighbour is closer to the
   * character than it.
   */
  ghost predicate Closest(crd: Crd, target: Crd, free: seq<bool>, c: Crd)
    requires |free| == 4
  {
    && (exists i :: 0 <= i < 4 && Neighbours(crd)[i] == c && Eligible(crd, target, free, i))
    && forall j :: 0 <= j < 4 && free[j] ==> Dist2(c, target) <= Dist2(Neighbours(crd)[j], target)
  }

  /** The corrected selection keeps exactly the closest eligible neighbours. */
  lemma IntendedSound(crd: Crd, target: Crd, free: seq<bool>)
    requires |free| == 4
    ensures forall c :: c in Intended(crd, target, free, 4).moves <==> Closest(crd, target, free, c)
  {
    var b := Intended(crd, target, free, 4);
    IntendedExact(crd, target, free, 4);
    if |b.moves| > 0 {
      AtDistMember(crd, target, free, 4, b.minDist, b.moves[0]);
    }
    forall c
      ensures c in b.moves <==> Closest(crd, target, free, c)
    {
      AtDistMember(crd, target, free, 4, b.minDist, c);
      if Closest(crd, target, free, c) {
        var i :| 0 <= i < 4 && Neighbours(crd)[i] == c && Eligible(crd, target, free, i);
        assert Dist2(c, target) == b.minDist;
      }
    }
  }

  /** As intended, when some free neighbour is closer than the enemy is now, every kept cell is closer. */
  lemma IntendedApproaches(crd: Crd, target: Crd, free: seq<bool>, i: int)
    requires |free| == 4 && 0 <= i < 4 && free[i]
    requires Dist2(Neighbours(crd)[i], target) < Dist2(crd, target)
    ensures forall c :: c in Intended(crd, target, free, 4).moves ==> Dist2(c, target) < Dist2(crd, target)
  {
    IntendedSound(crd, target, free);
  }
}
