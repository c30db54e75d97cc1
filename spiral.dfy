/**
 * The search path of `drop_item` (src/domain/map/level_map.py): starting at
 * the cell up and to the left of the character, a walker goes right, down,
 * left and up, turning when its step count reaches the current segment
 * length, which grows as it winds outward.
 */
module Spiral {
  import opened RogueTypes

  /** The loop's variables: the cell, the steps taken on this segment, its length and the direction. */
  datatype Walker = Walker(y: int, x: int, step: int, turn: int, dir: int)

  /** `y, x = y_c - 1, x_c - 1`, `step = 0`, `turn = 2`, `direction = 0`. */
  function Begin(c: Crd): Walker
  {
    Walker(c.0 - 1, c.1 - 1, 0, 2, 0)
  }

  /**
   * The rest of one iteration after the cell was refused: at the end of a
   * segment the direction turns (3 wraps to 0) and the length grows on
   * turning to up, or to down after the first ring; then one cell in the
   * direction and one more step.
   */
  function Advance(w: Walker): Walker
  {
    var t := if w.step == w.turn then
        (if w.dir == 3 then w.(dir := 0, step := 0)
         else w.(dir := w.dir + 1, step := 0,
                 turn := if w.dir + 1 == 3 || (w.dir + 1 == 1 && w.turn > 2) then w.turn + 1 else w.turn))
      else w;
    var m := if t.dir == 0 then t.(x := t.x + 1)
      else if t.dir == 1 then t.(y := t.y + 1)
      else if t.dir == 2 then t.(x := t.x - 1)
      else if t.dir == 3 then t.(y := t.y - 1)
      else t;
    m.(step := m.step + 1)
  }

  /** The walker before the `k`-th cell is looked at. */
  function WalkerAt(c: Crd, k: nat): Walker
  {
    if k == 0 then Begin(c) else Advance(WalkerAt(c, k - 1))
  }

  /** The `k`-th cell the search looks at. */
  function Probe(c: Crd, k: nat): Crd
  {
    (WalkerAt(c, k).y, WalkerAt(c, k).x)
  }

  /** The direction always names one of the four moves, and the segment never shrinks below 2. */
  lemma {:induction false} WalkerTurns(c: Crd, k: nat)
    ensures 0 <= WalkerAt(c, k).dir <= 3 && WalkerAt(c, k).turn >= 2
    ensures 1 <= WalkerAt(c, k).step <= WalkerAt(c, k).turn || k == 0
  {
    if k > 0 {
      WalkerTurns(c, k - 1);
    }
  }

  /** Consecutive cells of the search are side by side. */
  lemma SearchSteps(c: Crd, k: nat)
    ensures var a, b := Probe(c, k), Probe(c, k + 1);
      (a.0 == b.0 && (b.1 == a.1 + 1 || b.1 == a.1 - 1)) || (a.1 == b.1 && (b.0 == a.0 + 1 || b.0 == a.0 - 1))
  {
    WalkerTurns(c, k);
  }

  /** The eight neighbours of `c`, clockwise from the top-left corner. */
  function Ring(c: Crd): (r: seq<Crd>)
    ensures |r| == 8
    ensures forall i :: 0 <= i < 8 ==> c.0 - 1 <= r[i].0 <= c.0 + 1 && c.1 - 1 <= r[i].1 <= c.1 + 1 && r[i] != c
    ensures forall i, j :: 0 <= i < j < 8 ==> r[i] != r[j]
  {
    [(c.0 - 1, c.1 - 1), (c.0 - 1, c.1), (c.0 - 1, c.1 + 1), (c.0, c.1 + 1),
     (c.0 + 1, c.1 + 1), (c.0 + 1, c.1), (c.0 + 1, c.1 - 1), (c.0, c.1 - 1)]
  }

  /**
   * The first eight cells looked at are the character's eight neighbours,
   * clockwise from the top-left one, which the ninth looks at again.
   */
  lemma SearchStartsAround(c: Crd)
    ensures forall k :: 0 <= k < 8 ==> Probe(c, k) == Ring(c)[k]
    ensures Probe(c, 8) == Probe(c, 0)
  {
    assert WalkerAt(c, 1) == Walker(c.0 - 1, c.1, 1, 2, 0);
    assert WalkerAt(c, 2) == Walker(c.0 - 1, c.1 + 1, 2, 2, 0);
    assert WalkerAt(c, 3) == Walker(c.0, c.1 + 1, 1, 2, 1);
    assert WalkerAt(c, 4) == Walker(c.0 + 1, c.1 + 1, 2, 2, 1);
    assert WalkerAt(c, 5) == Walker(c.0 + 1, c.1, 1, 2, 2);
    assert WalkerAt(c, 6) == Walker(c.0 + 1, c.1 - 1, 2, 2, 2);
    assert WalkerAt(c, 7) == Walker(c.0, c.1 - 1, 1, 3, 3);
    assert WalkerAt(c, 8) == Walker(c.0 - 1, c.1 - 1, 2, 3, 3);
  }
}
