/**
 * The free-space placer: a row-major first-fit scan for a new block over
 * the lattice x = col * (w + MIN_GAP), y = row * (h + MIN_GAP), keeping
 * x + w within the usable width of the canvas.
 */
module Placer {
  import opened Geometry

  /** Horizontal and vertical distance between neighbouring lattice points. */
  function StepX(w: int): int { w + MIN_GAP }
  function StepY(h: int): int { h + MIN_GAP }

  /** Column `col` of a row is scanned: it starts at or right of 0 and the block ends within `maxW`. */
  predicate InRow(col: int, w: int, maxW: int) {
    0 <= col && col * StepX(w) + w <= maxW
  }

  /** The lattice point (col, row) is clear of every other block. */
  predicate FitsAt(col: int, row: int, w: int, h: int, others: seq<Rect>) {
    SeparatedFromAll(Place((col * StepX(w)) as real, (row * StepY(h)) as real, w, h), others)
  }

  /**
   * (col, row) is the first fitting lattice point in row-major order: it
   * fits, lies in its row, and every point scanned before it collides.
   */
  ghost predicate FirstFit(col: int, row: int, w: int, h: int, maxW: int, others: seq<Rect>) {
    0 <= row && InRow(col, w, maxW) && FitsAt(col, row, w, h, others) &&
    (forall r, c :: 0 <= r < row && InRow(c, w, maxW) ==> !FitsAt(c, r, w, h, others)) &&
    (forall c :: 0 <= c < col ==> !FitsAt(c, row, w, h, others))
  }

  /** The lowest bottom edge of the other blocks plus MIN_GAP (0 when there are none). */
  function BottomLine(others: seq<Rect>): (r: int)
    ensures r >= 0
    ensures forall i :: 0 <= i < |others| ==> others[i].y + others[i].h + MIN_GAP <= r
  {
    if others == [] then 0
    else
      var rest := BottomLine(others[1..]);
      var b := others[0].y + others[0].h + MIN_GAP;
      assert forall i :: 1 <= i < |others| ==> others[i] == others[1..][i - 1];
      if b > rest then b else rest
  }

  /** Below every other block, the first column of any row is free. */
  lemma {:induction false} FreeBelow(row: int, w: int, h: int, others: seq<Rect>)
    requires 0 <= h && row * StepY(h) >= BottomLine(others)
    ensures FitsAt(0, row, w, h, others)
  {
    var b := Place(0.0, (row * StepY(h)) as real, w, h);
    forall i | 0 <= i < |others|
      ensures Separated(b, others[i].ToBox())
    {
      assert b.y >= others[i].ToBox().y + others[i].ToBox().h + MIN_GAP as real;
    }
  }

  /** Columns are scanned left to right, so a column past the row's end stays past it. */
  lemma {:induction false} PastRowEnd(c: int, col: int, w: int, maxW: int)
    requires 0 <= w && 0 <= c && col * StepX(w) + w > maxW && InRow(c, w, maxW)
    ensures c < col
  {
    assert c * StepX(w) - col * StepX(w) == (c - col) * StepX(w);
  }

  /**
   * The scan of the add-category handler. Given a block no wider than the
   * canvas it terminates and yields the first lattice point, in row-major
   * order, at which the block is clear of every other block.
   */
  method FindFreeSpot(w: int, h: int, maxW: int, others: seq<Rect>)
    returns (x: int, y: int, ghost col: int, ghost row: int)
    requires 0 <= w <= maxW && 0 <= h
    ensures FirstFit(col, row, w, h, maxW, others)
    ensures x == col * StepX(w) && y == row * StepY(h) && 0 <= x && 0 <= y
    ensures x + w <= maxW && SeparatedFromAll(Place(x as real, y as real, w, h), others)
  {
    ghost var floor := BottomLine(others);
    y, row := 0, 0;
    while true
      invariant 0 <= row && y == row * StepY(h)
      invariant forall r, c :: 0 <= r < row && InRow(c, w, maxW) ==> !FitsAt(c, r, w, h, others)
      decreases floor - y
    {
      x, col := 0, 0;
      while x + w <= maxW
        invariant 0 <= col && x == col * StepX(w)
        invariant forall c :: 0 <= c < col ==> !FitsAt(c, row, w, h, others)
        decreases maxW - x
      {
        var ok := ClearOfAll(Place(x as real, y as real, w, h), others);
        if ok {
          return;
        }
        x, col := x + StepX(w), col + 1;
      }
      forall r, c | 0 <= r < row + 1 && InRow(c, w, maxW)
        ensures !FitsAt(c, r, w, h, others)
      {
        if r == row { PastRowEnd(c, col, w, maxW); }
      }
      if y >= floor {
        FreeBelow(row, w, h, others);
        assert false;
      }
      y, row := y + StepY(h), row + 1;
    }
  }

  /** The first fit is unique: the scan order determines the placement. */
  lemma FirstFitUnique(c1: int, r1: int, c2: int, r2: int, w: int, h: int, maxW: int, others: seq<Rect>)
    requires FirstFit(c1, r1, w, h, maxW, others) && FirstFit(c2, r2, w, h, maxW, others)
    ensures c1 == c2 && r1 == r2
  {
  }

  /**
   * A 260 by 100 block beside an existing block at the origin on a 600
   * wide canvas goes to (280, 0), the next column of the first row.
   */
  lemma PlaceBesideFirstBlock(col: int, row: int)
    requires FirstFit(col, row, 260, 100, 600, [Rect(0, 0, 260, 100)])
    ensures col * StepX(260) == 280 && row * StepY(100) == 0
  {
    var others := [Rect(0, 0, 260, 100)];
    assert FitsAt(1, 0, 260, 100, others) by {
      assert Separated(Place(280.0, 0.0, 260, 100), others[0].ToBox());
    }
    assert InRow(1, 260, 600);
    assert !FitsAt(0, 0, 260, 100, others) by {
      assert !Separated(Place(0.0, 0.0, 260, 100), others[0].ToBox());
    }
  }
}
