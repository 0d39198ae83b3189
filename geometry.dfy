/** Basic shared types: an optional value. */
module Options {
  datatype Option<+T> = None | Some(value: T)
}

/**
 * Geometry primitives of the canvas layout engine: measured blocks,
 * boxes on the real plane, and the one clearance test that the drag
 * mover and the free-space placer both use.
 */
module Geometry {

  /** Minimum clear distance between two category blocks, in pixels. */
  const MIN_GAP: int := 20
  /** Alignment snapping fires when an edge is closer than this. */
  const SNAP_TOLERANCE: int := 10
  /** Equal-spacing snapping fires when the two gaps differ by less than this. */
  const SPACING_TOLERANCE: int := 5
  /** Width given to a new category, and to a stored one without a width. */
  const DEFAULT_WIDTH: int := 260
  /** A resize never makes a block narrower than this. */
  const MIN_WIDTH: int := 80

  /** The two axes of the canvas; snapping is the same rule on each. */
  datatype Axis = X | Y

  /**
   * A block as measured on the page: left and top are read back with
   * parseInt, width and height are rendered sizes, so all are integers.
   */
  datatype Rect = Rect(x: int, y: int, w: int, h: int) {
    /** Leading edge on axis `a` (left or top). */
    function Lo(a: Axis): int { if a == X then x else y }
    /** Extent on axis `a` (width or height). */
    function Size(a: Axis): int { if a == X then w else h }
    /** Trailing edge on axis `a` (right or bottom). */
    function Hi(a: Axis): int { Lo(a) + Size(a) }
    function ToBox(): Box { Box(x as real, y as real, w as real, h as real) }
  }

  /** An axis-aligned box whose corner may sit on a half pixel. */
  datatype Box = Box(x: real, y: real, w: real, h: real)

  /** The box of a `w` by `h` block whose top-left corner is at (x, y). */
  function Place(x: real, y: real, w: int, h: int): Box {
    Box(x, y, w as real, h as real)
  }

  /**
   * Two blocks do not collide when there are at least MIN_GAP pixels of
   * clearance between them along X, or along Y (either axis alone is
   * enough; both bounds are inclusive).
   */
  predicate Separated(a: Box, b: Box) {
    var g := MIN_GAP as real;
    (a.x + a.w + g <= b.x || a.x >= b.x + b.w + g) ||
    (a.y + a.h + g <= b.y || a.y >= b.y + b.h + g)
  }

  /** `b` collides with none of `others`. */
  predicate SeparatedFromAll(b: Box, others: seq<Rect>) {
    forall i :: 0 <= i < |others| ==> Separated(b, others[i].ToBox())
  }

  /** Signed clear distance between `a` and `b` along X (negative when the spans overlap). */
  function GapX(a: Box, b: Box): real {
    if b.x - (a.x + a.w) >= a.x - (b.x + b.w) then b.x - (a.x + a.w) else a.x - (b.x + b.w)
  }

  /** Signed clear distance between `a` and `b` along Y. */
  function GapY(a: Box, b: Box): real {
    if b.y - (a.y + a.h) >= a.y - (b.y + b.h) then b.y - (a.y + a.h) else a.y - (b.y + b.h)
  }

  /**
   * The separation test means: the larger one-sided clearance on X, or the
   * one on Y, reaches MIN_GAP; and it does not depend on which of the two
   * blocks is the moving one.
   */
  lemma SeparatedMeaning(a: Box, b: Box)
    ensures Separated(a, b) <==> (GapX(a, b) >= MIN_GAP as real || GapY(a, b) >= MIN_GAP as real)
    ensures Separated(a, b) <==> Separated(b, a)
  {
  }

  /**
   * The clearance loop of the drag mover and of the free-space placer:
   * scan the other blocks and stop at the first one that collides.
   */
  method ClearOfAll(b: Box, others: seq<Rect>) returns (ok: bool)
    ensures ok <==> SeparatedFromAll(b, others)
  {
    ok := true;
    var i := 0;
    while i < |others|
      invariant 0 <= i <= |others|
      invariant ok && forall j :: 0 <= j < i ==> Separated(b, others[j].ToBox())
    {
      var o := others[i].ToBox();
      var g := MIN_GAP as real;
      var noHoriz := b.x + b.w + g <= o.x || b.x >= o.x + o.w + g;
      var noVert := b.y + b.h + g <= o.y || b.y >= o.y + o.h + g;
      if !(noHoriz || noVert) {
        ok := false;
        break;
      }
      i := i + 1;
    }
  }
}
