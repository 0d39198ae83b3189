/**
 * The collision-constrained mover of a drag gesture: the X move is checked
 * with Y held at its last accepted value, then the Y move is checked with X
 * at its (possibly just updated) accepted value. Each axis advances only
 * when the block would stay clear of every other block.
 */
module Mover {
  import opened Geometry

  /** An accepted position of the moving block. */
  datatype Pos = Pos(x: real, y: real)

  /** The moving block, `w` by `h`, is clear of every other block at `p`. */
  predicate ClearAt(p: Pos, w: int, h: int, others: seq<Rect>) {
    SeparatedFromAll(Place(p.x, p.y, w, h), others)
  }

  /**
   * One mover step from the last accepted position `last` towards the
   * snapped candidate `cand`. The result is either `last` itself or a
   * position found clear, so a clear start stays clear; each axis either
   * takes the candidate's value or keeps the last accepted one.
   */
  function Step(cand: Pos, last: Pos, w: int, h: int, others: seq<Rect>): (r: Pos)
    ensures r == last || ClearAt(r, w, h, others)
    ensures ClearAt(last, w, h, others) ==> ClearAt(r, w, h, others)
    ensures (r.x == cand.x || r.x == last.x) && (r.y == cand.y || r.y == last.y)
    ensures r.x == cand.x <== ClearAt(Pos(cand.x, last.y), w, h, others)
    ensures r.x == last.x <== !ClearAt(Pos(cand.x, last.y), w, h, others)
    ensures r.y == cand.y <== ClearAt(Pos(r.x, cand.y), w, h, others)
    ensures r.y == last.y <== !ClearAt(Pos(r.x, cand.y), w, h, others)
  {
    var x := if ClearAt(Pos(cand.x, last.y), w, h, others) then cand.x else last.x;
    var y := if ClearAt(Pos(x, cand.y), w, h, others) then cand.y else last.y;
    Pos(x, y)
  }

  /**
   * The collision tests of the move handler: each a scan of the other
   * blocks that stops at the first collision.
   */
  method MoveStep(cand: Pos, last: Pos, w: int, h: int, others: seq<Rect>) returns (r: Pos)
    ensures r == Step(cand, last, w, h, others)
  {
    var lastValidX, lastValidY := last.x, last.y;
    // test X movement with Y at its last accepted value
    var xValid := ClearOfAll(Place(cand.x, lastValidY, w, h), others);
    if xValid { lastValidX := cand.x; }
    // test Y movement with X at its (possibly updated) accepted value
    var yValid := ClearOfAll(Place(lastValidX, cand.y, w, h), others);
    if yValid { lastValidY := cand.y; }
    r := Pos(lastValidX, lastValidY);
  }

  /**
   * A mover with both tests on the previous frame's values (Y checked
   * against the old X). The code checks Y against the X it has just
   * accepted instead; this variant exists only to show why that order
   * matters.
   */
  function StepBothOld(cand: Pos, last: Pos, w: int, h: int, others: seq<Rect>): Pos {
    var x := if ClearAt(Pos(cand.x, last.y), w, h, others) then cand.x else last.x;
    var y := if ClearAt(Pos(last.x, cand.y), w, h, others) then cand.y else last.y;
    Pos(x, y)
  }

  /**
   * Testing both axes against the previous frame is unsafe: a diagonal move
   * past a block's corner passes both one-axis tests and lands on the block.
   * The order used by the code refuses the Y part of the same move.
   */
  lemma BothOldOrderCollides()
    ensures var others := [Rect(100, 100, 100, 100)];
            var last, cand := Pos(0.0, 0.0), Pos(100.0, 100.0);
            ClearAt(last, 50, 50, others) &&
            !ClearAt(StepBothOld(cand, last, 50, 50, others), 50, 50, others) &&
            Step(cand, last, 50, 50, others) == Pos(100.0, 0.0)
  {
    var others := [Rect(100, 100, 100, 100)];
    assert !Separated(Place(100.0, 100.0, 50, 50), others[0].ToBox());
    assert Separated(Place(100.0, 0.0, 50, 50), others[0].ToBox());
  }

  /**
   * Two blocks 40 apart on one row: dragging the left one (at x 0) to x 285
   * is refused on X, since it would overlap the block at x 300.
   */
  lemma DragIntoNeighbourRefused()
    ensures var others := [Rect(300, 0, 260, 100)];
            Step(Pos(285.0, 0.0), Pos(0.0, 0.0), 260, 100, others) == Pos(0.0, 0.0)
  {
    var others := [Rect(300, 0, 260, 100)];
    assert !Separated(Place(285.0, 0.0, 260, 100), others[0].ToBox());
  }
}
