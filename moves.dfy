/**
 * The casual moves of the enemies (src/domain/map/level_map.py). A
 * standard move may choose a cell along the four axes, a diagonal move a
 * cell along the four diagonals, up to the enemy's speed. Each direction is
 * probed cell by cell, and the probe stops at the first cell that no room
 * or corridor has free; `free` gives the map's answer cell by cell.
 *
 * The source probes left and up starting from the FAR end (`range(x -
 * speed, x)`), so there a blocked far cell hides the free near ones and a
 * free far cell is offered past a blocked near one. `LeftAsWritten` and
 * `UpAsWritten` are those probe orders; `Axes` probes every direction
 * outward, as the right and down probes do.
 */
module Moves {
  import opened RogueTypes

  /** `base` moved `k` units in direction `d` (-1, 0 or 1). */
  function Off(base: int, d: int, k: int): int
  {
    if d > 0 then base + k else if d < 0 then base - k else base
  }

  /** The cells `crd + k·(dy, dx)` for `k` from 1 to `n`, nearest first. */
  function Line(crd: Crd, dy: int, dx: int, n: nat): (l: seq<Crd>)
    ensures |l| == n
    ensures forall k :: 0 <= k < n ==> l[k] == (Off(crd.0, dy, k + 1), Off(crd.1, dx, k + 1))
  {
    seq(n, k requires 0 <= k < n => (Off(crd.0, dy, k + 1), Off(crd.1, dx, k + 1)))
  }

  /** The cells of `cells` before the first one that is not free. */
  function Ahead(cells: seq<Crd>, free: seq<bool>): seq<Crd>
    requires |free| == |cells|
    decreases |cells|
  {
    if |cells| == 0 || !free[0] then [] else [cells[0]] + Ahead(cells[1..], free[1..])
  }

  /** A probe keeps the longest prefix of free cells. */
  lemma {:induction false} AheadIsFreePrefix(cells: seq<Crd>, free: seq<bool>)
    requires |free| == |cells|
    ensures var a := Ahead(cells, free);
      && |a| <= |cells| && a == cells[..|a|]
      && (forall i :: 0 <= i < |a| ==> free[i])
      && (|a| < |cells| ==> !free[|a|])
    decreases |cells|
  {
    if |cells| > 0 && free[0] {
      AheadIsFreePrefix(cells[1..], free[1..]);
      var r := Ahead(cells[1..], free[1..]);
      assert Ahead(cells, free) == [cells[0]] + r;
      assert r == cells[1..][..|r|];
      assert forall i :: 1 <= i < |r| + 1 ==> free[i] == free[1..][i - 1];
    }
  }

  /** A prefix of free cells that ends at the end or at a blocked cell is the probe's result. */
  lemma AheadUpTo(cells: seq<Crd>, free: seq<bool>, i: int)
    requires |free| == |cells| && 0 <= i <= |cells|
    requires forall j :: 0 <= j < i ==> free[j]
    requires i < |cells| ==> !free[i]
    ensures Ahead(cells, free) == cells[..i]
  {
    AheadIsFreePrefix(cells, free);
  }

  /** A cell is offered iff it lies on the line with every cell up to it free. */
  lemma AheadMembers(cells: seq<Crd>, free: seq<bool>, c: Crd)
    requires |free| == |cells|
    ensures c in Ahead(cells, free) <==>
      exists i :: 0 <= i < |cells| && cells[i] == c && forall j :: 0 <= j <= i ==> free[j]
  {
    AheadIsFreePrefix(cells, free);
    var a := Ahead(cells, free);
    if c in a {
      var i :| 0 <= i < |a| && a[i] == c;
      assert cells[i] == c;
    }
    if exists i :: 0 <= i < |cells| && cells[i] == c && forall j :: 0 <= j <= i ==> free[j] {
      var i :| 0 <= i < |cells| && cells[i] == c && forall j :: 0 <= j <= i ==> free[j];
      assert a[i] == c;
    }
  }

  /** The cell lies on one of `lines` within its first `n` cells, with every cell before it on that line free. */
  ghost predicate Reached(lines: seq<seq<Crd>>, frees: seq<seq<bool>>, n: nat, c: Crd)
    requires |frees| == |lines| && forall d :: 0 <= d < |lines| ==> |frees[d]| == |lines[d]|
  {
    exists d, j :: 0 <= d < |lines| && 0 <= j < n && j < |lines[d]| && lines[d][j] == c &&
      forall t :: 0 <= t <= j ==> frees[d][t]
  }

  /** `range(x - speed, x)`: the cells to the left, farthest first. */
  function LeftAsWritten(crd: Crd, speed: nat): (l: seq<Crd>)
    ensures |l| == speed && forall k :: 0 <= k < speed ==> l[k] == (crd.0, crd.1 - speed + k)
  {
    seq(speed, k requires 0 <= k < speed => (crd.0, crd.1 - speed + k))
  }

  /** `range(y - speed, y)`: the cells above, farthest first. */
  function UpAsWritten(crd: Crd, speed: nat): (l: seq<Crd>)
    ensures |l| == speed && forall k :: 0 <= k < speed ==> l[k] == (crd.0 - speed + k, crd.1)
  {
    seq(speed, k requires 0 <= k < speed => (crd.0 - speed + k, crd.1))
  }

  /**
   * The four probes of the standard move as the source orders them: left,
   * right, up, down. They look at the cells of the outward probes, the left
   * and up ones in reverse order.
   */
  function AxesAsWritten(crd: Crd, speed: nat): (ls: seq<seq<Crd>>)
    ensures |ls| == 4 && forall d :: 0 <= d < 4 ==> |ls[d]| == speed
    ensures ls[1] == Axes(crd, speed)[1] && ls[3] == Axes(crd, speed)[3]
    ensures forall k :: 0 <= k < speed ==>
      ls[0][k] == Axes(crd, speed)[0][speed - 1 - k] && ls[2][k] == Axes(crd, speed)[2][speed - 1 - k]
  {
    [LeftAsWritten(crd, speed), Line(crd, 0, 1, speed), UpAsWritten(crd, speed), Line(crd, 1, 0, speed)]
  }

  /** The same four probes, each going outward from the enemy. */
  function Axes(crd: Crd, speed: nat): (ls: seq<seq<Crd>>)
    ensures |ls| == 4 && forall d :: 0 <= d < 4 ==> |ls[d]| == speed
  {
    [Line(crd, 0, -1, speed), Line(crd, 0, 1, speed), Line(crd, -1, 0, speed), Line(crd, 1, 0, speed)]
  }

  /** The options of a standard move: each probe's cells, probe after probe. */
  function Options(lines: seq<seq<Crd>>, frees: seq<seq<bool>>): seq<Crd>
    requires |frees| == |lines| && forall d :: 0 <= d < |lines| ==> |frees[d]| == |lines[d]|
  {
    if |lines| == 0 then []
    else Options(lines[..|lines| - 1], frees[..|frees| - 1]) + Ahead(lines[|lines| - 1], frees[|frees| - 1])
  }

  /** One more probe appends its run to the options. */
  lemma OptionsSnoc(lines: seq<seq<Crd>>, frees: seq<seq<bool>>, d: nat)
    requires |frees| == |lines| && forall d :: 0 <= d < |lines| ==> |frees[d]| == |lines[d]|
    requires d < |lines|
    ensures Options(lines[..d + 1], frees[..d + 1]) == Options(lines[..d], frees[..d]) + Ahead(lines[d], frees[d])
  {
    assert lines[..d + 1][..d] == lines[..d] && frees[..d + 1][..d] == frees[..d];
  }

  /** The standard move offers exactly the cells its probes reach. */
  lemma {:induction false} OptionsReached(lines: seq<seq<Crd>>, frees: seq<seq<bool>>, n: nat, c: Crd)
    requires |frees| == |lines| && forall d :: 0 <= d < |lines| ==> |frees[d]| == |lines[d]| == n
    ensures c in Options(lines, frees) <==> Reached(lines, frees, n, c)
  {
    if |lines| > 0 {
      var m := |lines| - 1;
      OptionsReached(lines[..m], frees[..m], n, c);
      AheadMembers(lines[m], frees[m], c);
      if Reached(lines, frees, n, c) {
        var d, j :| 0 <= d < |lines| && 0 <= j < n && j < |lines[d]| && lines[d][j] == c &&
          forall t :: 0 <= t <= j ==> frees[d][t];
        if d < m {
          assert lines[..m][d] == lines[d] && frees[..m][d] == frees[d];
          assert Reached(lines[..m], frees[..m], n, c);
        }
      }
      if Reached(lines[..m], frees[..m], n, c) {
        var d, j :| 0 <= d < m && 0 <= j < n && j < |lines[..m][d]| && lines[..m][d][j] == c &&
          forall t :: 0 <= t <= j ==> frees[..m][d][t];
        assert lines[..m][d] == lines[d] && frees[..m][d] == frees[d];
        assert Reached(lines, frees, n, c);
      }
    }
  }

  /**
   * The source's leftward probe runs from the far end. With the enemy at
   * (5, 5) and speed 2: when (5, 3) is blocked and (5, 4) free it offers
   * nothing to the left, where the outward probe offers (5, 4); when (5, 3)
   * is free and (5, 4) blocked it offers (5, 3), past the blocked cell,
   * where the outward probe offers nothing.
   */
  lemma FarEndFirst()
    ensures LeftAsWritten((5, 5), 2) == [(5, 3), (5, 4)]
    ensures Line((5, 5), 0, -1, 2) == [(5, 4), (5, 3)]
    ensures Ahead(LeftAsWritten((5, 5), 2), [false, true]) == []
    ensures Ahead(Line((5, 5), 0, -1, 2), [true, false]) == [(5, 4)]
    ensures Ahead(LeftAsWritten((5, 5), 2), [true, false]) == [(5, 3)]
    ensures Ahead(Line((5, 5), 0, -1, 2), [false, true]) == []
  {
    assert LeftAsWritten((5, 5), 2) == [(5, 3), (5, 4)];
    assert Line((5, 5), 0, -1, 2) == [(5, 4), (5, 3)];
    assert [(5, 3), (5, 4)][1..] == [(5, 4)];
    assert [(5, 4), (5, 3)][1..] == [(5, 3)];
    assert [true, false][1..] == [false];
  }

  /** The diagonals in the source's order: down-right, up-right, up-left, down-left. */
  function Diagonals(crd: Crd, speed: nat): (ls: seq<seq<Crd>>)
    ensures |ls| == 4 && forall d :: 0 <= d < 4 ==> |ls[d]| == speed
  {
    [Line(crd, 1, 1, speed), Line(crd, -1, 1, speed), Line(crd, -1, -1, speed), Line(crd, 1, -1, speed)]
  }

  /** The diagonal move's options so far and which directions are still open. */
  datatype Fan = Fan(options: seq<Crd>, open: seq<bool>)

  /** The cell `c` when direction `d` is still open and `c` is free, else nothing. */
  function Offer(open: bool, free: bool, c: Crd): seq<Crd>
  {
    if open && free then [c] else []
  }

  /**
   * Round `i` of the diagonal loop: each direction in order adds its cell at
   * distance `i + 1` while it is open and the cell is free, and is closed
   * otherwise.
   */
  function Round(f: Fan, lines: seq<seq<Crd>>, frees: seq<seq<bool>>, i: nat): (g: Fan)
    requires |f.open| == 4 == |lines| == |frees|
    requires forall d :: 0 <= d < 4 ==> i < |lines[d]| == |frees[d]|
    ensures |g.open| == 4
  {
    Fan(f.options + Offer(f.open[0], frees[0][i], lines[0][i]) + Offer(f.open[1], frees[1][i], lines[1][i])
          + Offer(f.open[2], frees[2][i], lines[2][i]) + Offer(f.open[3], frees[3][i], lines[3][i]),
        [f.open[0] && frees[0][i], f.open[1] && frees[1][i], f.open[2] && frees[2][i], f.open[3] && frees[3][i]])
  }

  /** The loop of the diagonal move after `n` rounds. */
  function Spread(lines: seq<seq<Crd>>, frees: seq<seq<bool>>, n: nat): (f: Fan)
    requires |lines| == 4 == |frees|
    requires forall d :: 0 <= d < 4 ==> n <= |lines[d]| == |frees[d]|
    ensures |f.open| == 4
  {
    if n == 0 then Fan([], [true, true, true, true])
    else Round(Spread(lines, frees, n - 1), lines, frees, n - 1)
  }

  /** A cell added by some open direction in round `i`. */
  ghost predicate Adds(f: Fan, lines: seq<seq<Crd>>, frees: seq<seq<bool>>, i: nat, c: Crd)
    requires |f.open| == 4 == |lines| == |frees|
    requires forall d :: 0 <= d < 4 ==> i < |lines[d]| == |frees[d]|
  {
    exists d :: 0 <= d < 4 && f.open[d] && frees[d][i] && lines[d][i] == c
  }

  /** One round keeps a direction open iff its cell is free, and adds exactly the cells of the open directions. */
  lemma RoundEffect(f: Fan, lines: seq<seq<Crd>>, frees: seq<seq<bool>>, i: nat)
    requires |f.open| == 4 == |lines| == |frees|
    requires forall d :: 0 <= d < 4 ==> i < |lines[d]| == |frees[d]|
    ensures var g := Round(f, lines, frees, i);
      && (forall d :: 0 <= d < 4 ==> g.open[d] == (f.open[d] && frees[d][i]))
      && (forall c :: c in g.options <==> c in f.options || Adds(f, lines, frees, i, c))
  {
    var g := Round(f, lines, frees, i);
    forall c
      ensures c in g.options <==> c in f.options || Adds(f, lines, frees, i, c)
    {
      if Adds(f, lines, frees, i, c) {
        var d :| 0 <= d < 4 && f.open[d] && frees[d][i] && lines[d][i] == c;
        assert d == 0 || d == 1 || d == 2 || d == 3;
      }
    }
  }

  /** After `n` rounds a direction is open iff its first `n` cells are free. */
  lemma {:induction false} SpreadOpen(lines: seq<seq<Crd>>, frees: seq<seq<bool>>, n: nat)
    requires |lines| == 4 == |frees|
    requires forall d :: 0 <= d < 4 ==> n <= |lines[d]| == |frees[d]|
    ensures forall d :: 0 <= d < 4 ==> (Spread(lines, frees, n).open[d] <==> forall t :: 0 <= t < n ==> frees[d][t])
  {
    if n > 0 {
      SpreadOpen(lines, frees, n - 1);
      RoundEffect(Spread(lines, frees, n - 1), lines, frees, n - 1);
    }
  }

  /** After `n` rounds the options are exactly the cells the four diagonal probes reach. */
  lemma {:induction false} SpreadReached(lines: seq<seq<Crd>>, frees: seq<seq<bool>>, n: nat)
    requires |lines| == 4 == |frees|
    requires forall d :: 0 <= d < 4 ==> n <= |lines[d]| == |frees[d]|
    ensures forall c :: c in Spread(lines, frees, n).options <==> Reached(lines, frees, n, c)
  {
    if n > 0 {
      var f := Spread(lines, frees, n - 1);
      SpreadOpen(lines, frees, n - 1);
      SpreadReached(lines, frees, n - 1);
      forall c
        ensures c in Spread(lines, frees, n).options <==> Reached(lines, frees, n, c)
      {
        RoundReached(f, lines, frees, n, c);
      }
    }
  }

  /** Round `n - 1` extends the cells reached within `n - 1` to those reached within `n`. */
  lemma RoundReached(f: Fan, lines: seq<seq<Crd>>, frees: seq<seq<bool>>, n: nat, c: Crd)
    requires |f.open| == 4 == |lines| == |frees| && n > 0
    requires forall d :: 0 <= d < 4 ==> n <= |lines[d]| == |frees[d]|
    requires forall d :: 0 <= d < 4 ==> (f.open[d] <==> forall t :: 0 <= t < n - 1 ==> frees[d][t])
    requires c in f.options <==> Reached(lines, frees, n - 1, c)
    ensures c in Round(f, lines, frees, n - 1).options <==> Reached(lines, frees, n, c)
  {
    RoundEffect(f, lines, frees, n - 1);
    if c in Round(f, lines, frees, n - 1).options {
      if c in f.options {
        ReachedGrows(lines, frees, n - 1, c);
      } else {
        var d :| 0 <= d < 4 && f.open[d] && frees[d][n - 1] && lines[d][n - 1] == c;
        assert forall t :: 0 <= t <= n - 1 ==> frees[d][t];
      }
    }
    if Reached(lines, frees, n, c) {
      var d, j :| 0 <= d < 4 && 0 <= j < n && j < |lines[d]| && lines[d][j] == c &&
        forall t :: 0 <= t <= j ==> frees[d][t];
      if j < n - 1 {
        assert Reached(lines, frees, n - 1, c);
      } else {
        assert f.open[d];
        assert Adds(f, lines, frees, n - 1, c);
      }
    }
  }

  /** A cell reached within `n` cells is reached within `n + 1`. */
  lemma ReachedGrows(lines: seq<seq<Crd>>, frees: seq<seq<bool>>, n: nat, c: Crd)
    requires |frees| == |lines| && forall d :: 0 <= d < |lines| ==> |frees[d]| == |lines[d]|
    requires Reached(lines, frees, n, c)
    ensures Reached(lines, frees, n + 1, c)
  {
    var d, j :| 0 <= d < |lines| && 0 <= j < n && j < |lines[d]| && lines[d][j] == c &&
      forall t :: 0 <= t <= j ==> frees[d][t];
  }

  /**
   * The loop of the diagonal move over precomputed availabilities: at
   * each distance every direction still open either yields its cell or
   * closes for good.
   */
  method Fanned(lines: seq<seq<Crd>>, fs: seq<seq<bool>>, n: nat) returns (options: seq<Crd>)
    requires |lines| == 4 == |fs| && forall d :: 0 <= d < 4 ==> |lines[d]| == n == |fs[d]|
    ensures options == Spread(lines, fs, n).options
  {
    options := [];
    var dr, ur, ul, dl := true, true, true, true;
    for i := 0 to n
      invariant Fan(options, [dr, ur, ul, dl]) == Spread(lines, fs, i)
    {
      var a, b, c, d := lines[0][i], lines[1][i], lines[2][i], lines[3][i];
      var fa, fb, fc, fd := fs[0][i], fs[1][i], fs[2][i], fs[3][i];
      options := options + Offer(dr, fa, a) + Offer(ur, fb, b) + Offer(ul, fc, c) + Offer(dl, fd, d);
      dr, ur, ul, dl := dr && fa, ur && fb, ul && fc, dl && fd;
    }
  }

  /** The `while` loop of one probe: walk forward while the next cell is free. */
  method Probe(cells: seq<Crd>, free: seq<bool>) returns (run: seq<Crd>)
    requires |free| == |cells|
    ensures run == Ahead(cells, free)
  {
    run := [];
    var i := 0;
    while i < |cells| && free[i]
      invariant 0 <= i <= |cells| && run == cells[..i]
      invariant forall j :: 0 <= j < i ==> free[j]
    {
      run := run + [cells[i]];
      i := i + 1;
    }
    AheadUpTo(cells, free, i);
  }

  /** The probes of the standard move, one after the other. */
  method Probes(lines: seq<seq<Crd>>, frees: seq<seq<bool>>) returns (options: seq<Crd>)
    requires |frees| == |lines| && forall d :: 0 <= d < |lines| ==> |frees[d]| == |lines[d]|
    ensures options == Options(lines, frees)
  {
    options := [];
    for d := 0 to |lines|
      invariant options == Options(lines[..d], frees[..d])
    {
      var run := Probe(lines[d], frees[d]);
      OptionsSnoc(lines, frees, d);
      options := options + run;
    }
    assert lines[..|lines|] == lines && frees[..|frees|] == frees;
  }
}
