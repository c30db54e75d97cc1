/**
 * The integer geometry of the turn engine (src/domain/map/level_map.py):
 * the step a movement key makes, the nearness test of the map drawing and
 * the Bresenham walk of the line-of-sight test. The walk is given by its
 * cursor — the cell looked at and the error term — and the cells it looks
 * at are the cursor's first `1 + |dy| + |dx|` positions.
 */
module Sight {
  import opened Wrappers
  import opened RogueTypes

  function Abs(n: int): (a: nat)
    ensures a == n || a == -n
  {
    if n < 0 then -n else n
  }

  /** The two cells are side by side: one unit apart along exactly one axis. */
  predicate Adjacent(a: Crd, b: Crd)
  {
    (a.0 == b.0 && Abs(a.1 - b.1) == 1) || (a.1 == b.1 && Abs(a.0 - b.0) == 1)
  }

  /** The ValueError of `move_character` for a key that is not a direction. */
  function InvalidDirection(direction: string): Error
  {
    ValueError("Invalid direction " + direction)
  }

  /**
   * `move_character`'s `match`: `w` and `s` change the row, `a` and `d`
   * the column; any other direction is a ValueError.
   */
  function Step(direction: string, crd: Crd): (r: Result<Crd>)
    ensures r.Failure? <==> direction !in {"w", "s", "a", "d"}
    ensures r.Failure? ==> r.error == InvalidDirection(direction)
    ensures r.Success? ==> Adjacent(r.value, crd)
    ensures direction == "w" ==> r == Success((crd.0 - 1, crd.1))
    ensures direction == "s" ==> r == Success((crd.0 + 1, crd.1))
    ensures direction == "a" ==> r == Success((crd.0, crd.1 - 1))
    ensures direction == "d" ==> r == Success((crd.0, crd.1 + 1))
  {
    match direction
    case "w" => Success((crd.0 - 1, crd.1))
    case "s" => Success((crd.0 + 1, crd.1))
    case "a" => Success((crd.0, crd.1 - 1))
    case "d" => Success((crd.0, crd.1 + 1))
    case _ => Failure(InvalidDirection(direction))
  }

  /** The radius of `__is_character_near`. */
  const Visibility := 3

  /** `__is_character_near`: within 3 rows and within 3 columns. */
  predicate IsNear(crd: Crd, target: Crd)
  {
    Abs(crd.0 - target.0) <= Visibility && Abs(crd.1 - target.1) <= Visibility
  }

  /** The cell the walk is looking at and its error term. */
  datatype Cursor = Cursor(y: int, x: int, err: int)

  /** The fixed data of a walk: its directions and the two distances. */
  datatype Ray = Ray(yDir: int, xDir: int, dy: nat, dx: nat)

  /** The walk from `crd` toward `target`: one direction per axis (-1 when that coordinate does not grow). */
  function RayOf(crd: Crd, target: Crd): (r: Ray)
    ensures r.dy == Abs(target.0 - crd.0) && r.dx == Abs(target.1 - crd.1)
    ensures r.yDir == (if target.0 > crd.0 then 1 else -1) && r.xDir == (if target.1 > crd.1 then 1 else -1)
  {
    Ray(if target.0 > crd.0 then 1 else -1, if target.1 > crd.1 then 1 else -1,
        Abs(target.0 - crd.0), Abs(target.1 - crd.1))
  }

  /** The walk starts on `crd` with error `dx - dy`. */
  function StartOf(crd: Crd, target: Crd): Cursor
  {
    var r := RayOf(crd, target);
    Cursor(crd.0, crd.1, r.dx - r.dy)
  }

  /** One step: a positive error moves along the columns, any other along the rows. */
  function Next(r: Ray, c: Cursor): Cursor
  {
    if c.err > 0 then Cursor(c.y, c.x + r.xDir, c.err - 2 * r.dy)
    else Cursor(c.y + r.yDir, c.x, c.err + 2 * r.dx)
  }

  /** The cursor after `k` steps. */
  function CursorAt(r: Ray, c: Cursor, k: nat): Cursor
  {
    if k == 0 then c else Next(r, CursorAt(r, c, k - 1))
  }

  /** The cells the walk looks at: `1 + dy + dx` of them. */
  function Cells(crd: Crd, target: Crd): (cells: seq<Crd>)
  {
    var r, c := RayOf(crd, target), StartOf(crd, target);
    seq(1 + r.dy + r.dx, k requires 0 <= k => (CursorAt(r, c, k).y, CursorAt(r, c, k).x))
  }

  /** `base` moved `n` units in direction `dir`. */
  function Moved(base: int, dir: int, n: int): int
  {
    if dir == 1 then base + n else base - n
  }

  /**
   * `a` times `b`, by repeated addition: the walk's invariant is stated
   * with it so that every step of its proof is linear arithmetic.
   */
  function Mul(a: nat, b: int): int
  {
    if a == 0 then 0 else Mul(a - 1, b) + b
  }

  lemma {:induction false} MulIsProduct(a: nat, b: int)
    ensures Mul(a, b) == a * b
  {
    if a > 0 {
      MulIsProduct(a - 1, b);
    }
  }

  lemma {:induction false} MulZero(a: nat)
    ensures Mul(a, 0) == 0
  {
    if a > 0 {
      MulZero(a - 1);
    }
  }

  lemma {:induction false} MulSucc(a: nat, b: int)
    ensures Mul(a, b + 1) == Mul(a, b) + a
  {
    if a > 0 {
      MulSucc(a - 1, b);
    }
  }

  lemma {:induction false} MulMono(a: nat, b: int, c: int)
    requires b <= c
    ensures Mul(a, b) <= Mul(a, c)
  {
    if a > 0 {
      MulMono(a - 1, b, c);
    }
  }

  lemma {:induction false} MulSwap(a: nat, b: nat)
    ensures Mul(a, b) == Mul(b, a)
  {
    if a == 0 {
      MulZero(b);
    } else {
      MulSwap(a - 1, b);
      MulSucc(b, a - 1);
    }
  }

  /** With every column step made and a row step still to make, the error cannot be positive. */
  lemma ColumnsDone(dx: nat, dy: nat, ky: int)
    requires 0 <= ky < dy
    ensures dx - dy + 2 * Mul(dx, ky) - 2 * Mul(dy, dx) <= -(dx + dy)
  {
    MulMono(dx, ky, dy - 1);
    MulSucc(dx, dy - 1);
    MulSwap(dx, dy);
  }

  /** With every row step made and a column step still to make, the error is positive. */
  lemma RowsDone(dx: nat, dy: nat, kx: int)
    requires 0 <= kx < dx
    ensures dx - dy + 2 * Mul(dx, dy) - 2 * Mul(dy, kx) >= dx + dy
  {
    MulMono(dy, kx, dx - 1);
    MulSucc(dy, dx - 1);
    MulSwap(dx, dy);
  }

  /**
   * The step invariant: after `k <= dx + dy` steps the walk has made `kx`
   * column steps and `ky` row steps toward the target, `kx + ky == k`,
   * neither count past its distance, and the error term is
   * `dx - dy + 2·dx·ky - 2·dy·kx`.
   */
  ghost predicate WalkedAt(crd: Crd, target: Crd, k: nat, kx: int, ky: int)
  {
    var r := RayOf(crd, target);
    var c := CursorAt(r, StartOf(crd, target), k);
    && 0 <= kx <= r.dx && 0 <= ky <= r.dy && kx + ky == k
    && c.x == Moved(crd.1, r.xDir, kx) && c.y == Moved(crd.0, r.yDir, ky)
    && c.err == r.dx - r.dy + 2 * Mul(r.dx, ky) - 2 * Mul(r.dy, kx)
  }

  lemma {:induction false} Walked(crd: Crd, target: Crd, k: nat) returns (kx: int, ky: int)
    requires k <= RayOf(crd, target).dx + RayOf(crd, target).dy
    ensures WalkedAt(crd, target, k, kx, ky)
  {
    var r, s := RayOf(crd, target), StartOf(crd, target);
    if k == 0 {
      kx, ky := 0, 0;
      MulZero(RayOf(crd, target).dx);
      MulZero(RayOf(crd, target).dy);
    } else {
      var px, py := Walked(crd, target, k - 1);
      var c := CursorAt(r, s, k - 1);
      var dx, dy := r.dx, r.dy;
      assert c.err == dx - dy + 2 * Mul(dx, py) - 2 * Mul(dy, px);
      if c.err > 0 {
        if px == dx {
          ColumnsDone(dx, dy, py);
          assert false;
        }
        kx, ky := px + 1, py;
        MulSucc(dy, px);
      } else {
        if py == dy {
          RowsDone(dx, dy, px);
          assert false;
        }
        kx, ky := px, py + 1;
        MulSucc(dx, py);
      }
    }
  }

  /** How far `v` is from `base + dir·n` when it is `n - m` units short of it. */
  lemma {:induction false} MovedGap(base: int, dir: int, n: int, m: int)
    requires 0 <= m <= n
    requires dir == 1 || dir == -1
    ensures Abs(Moved(base, dir, n) - Moved(base, dir, m)) == n - m
  {
  }

  /** One step of the walk moves one unit along one axis, and toward the target on both. */
  lemma StepWalks(crd: Crd, target: Crd, k: nat)
    requires k < RayOf(crd, target).dx + RayOf(crd, target).dy
    ensures var r, s := RayOf(crd, target), StartOf(crd, target);
      var a, b := CursorAt(r, s, k), CursorAt(r, s, k + 1);
      Adjacent((a.y, a.x), (b.y, b.x)) && Toward((a.y, a.x), (b.y, b.x), target)
  {
    var r, s := RayOf(crd, target), StartOf(crd, target);
    var a, b := CursorAt(r, s, k), CursorAt(r, s, k + 1);
    assert b == Next(r, a);
    var kx0, ky0 := Walked(crd, target, k);
    var kx1, ky1 := Walked(crd, target, k + 1);
    assert target.1 == Moved(crd.1, r.xDir, r.dx) && target.0 == Moved(crd.0, r.yDir, r.dy);
    MovedGap(crd.1, r.xDir, r.dx, kx0);
    MovedGap(crd.1, r.xDir, r.dx, kx1);
    MovedGap(crd.0, r.yDir, r.dy, ky0);
    MovedGap(crd.0, r.yDir, r.dy, ky1);
    if a.err > 0 {
      assert kx1 == kx0 + 1 && ky1 == ky0;
    } else {
      assert ky1 == ky0 + 1 && kx1 == kx0;
    }
  }

  /** After `dx + dy` steps the walk stands on the target. */
  lemma WalkEnds(crd: Crd, target: Crd)
    ensures var r := RayOf(crd, target);
      var c := CursorAt(r, StartOf(crd, target), r.dx + r.dy);
      (c.y, c.x) == target
  {
    var r := RayOf(crd, target);
    var kx, ky := Walked(crd, target, r.dx + r.dy);
    assert target.1 == Moved(crd.1, r.xDir, r.dx) && target.0 == Moved(crd.0, r.yDir, r.dy);
  }

  /**
   * The walk looks at `1 + |dy| + |dx|` cells, the first being `crd` and
   * the last the target; each step moves one unit along exactly one axis,
   * toward the target.
   */
  lemma CellsWalk(crd: Crd, target: Crd)
    ensures var cells := Cells(crd, target);
      && |cells| == 1 + Abs(target.0 - crd.0) + Abs(target.1 - crd.1)
      && cells[0] == crd && cells[|cells| - 1] == target
      && forall k :: 0 <= k < |cells| - 1 ==> Adjacent(cells[k], cells[k + 1]) && Toward(cells[k], cells[k + 1], target)
  {
    var r, s := RayOf(crd, target), StartOf(crd, target);
    var cells := Cells(crd, target);
    var n := r.dx + r.dy;
    WalkEnds(crd, target);
    assert cells[n] == (CursorAt(r, s, n).y, CursorAt(r, s, n).x);
    forall k | 0 <= k < |cells| - 1
      ensures Adjacent(cells[k], cells[k + 1]) && Toward(cells[k], cells[k + 1], target)
    {
      StepWalks(crd, target, k);
      assert cells[k] == (CursorAt(r, s, k).y, CursorAt(r, s, k).x);
      assert cells[k + 1] == (CursorAt(r, s, k + 1).y, CursorAt(r, s, k + 1).x);
    }
  }

  /** Going from `a` to `b` comes no farther from `target` on either axis. */
  predicate Toward(a: Crd, b: Crd, target: Crd)
  {
    Abs(target.0 - b.0) <= Abs(target.0 - a.0) && Abs(target.1 - b.1) <= Abs(target.1 - a.1)
  }

  /**
   * How nearness bounds the line of sight the map drawing tests next: a
   * near cell's walk looks at no more than 7 cells, and a cell whose walk
   * looks at no more than 4 is near. Nearness is symmetric.
   */
  lemma NearWalk(crd: Crd, target: Crd)
    ensures IsNear(crd, target) ==> |Cells(crd, target)| <= 7
    ensures |Cells(crd, target)| <= 4 ==> IsNear(crd, target)
    ensures IsNear(crd, target) == IsNear(target, crd)
  {
    CellsWalk(crd, target);
  }
}
