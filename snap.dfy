/**
 * The snap engine of a drag gesture: for a candidate position of the
 * moving block it computes the alignment snap (to another block's leading
 * edge), then the equal-spacing snap (centring between the nearest
 * neighbours), per axis, and the advisory guide lines to draw.
 */
module SnapEngine {
  import opened Options
  import opened Geometry

  datatype Orientation = Horizontal | Vertical
  datatype GuideKind = Alignment | Spacing
  /** A guide line to draw: horizontal guides sit at a y offset, vertical ones at an x offset. */
  datatype Guide = Guide(orientation: Orientation, offset: real, kind: GuideKind)

  /** A fired equal-spacing snap: the trailing edge of the nearest block before, and the leading edge of the nearest block after. */
  datatype Gaps = Gaps(lead: int, trail: int)

  datatype SnapResult = SnapResult(x: real, y: real, guides: seq<Guide>)

  function Abs(v: real): real { if v < 0.0 then -v else v }

  /** A pointer-derived coordinate is never left of or above the canvas. */
  function Clamp(v: real): (r: real)
    ensures r >= 0.0 && r >= v
    ensures v >= 0.0 ==> r == v
    ensures v < 0.0 ==> r == 0.0
  {
    if v < 0.0 then 0.0 else v
  }

  /** Edge `v` is close enough to candidate `c` to align with it. */
  predicate Near(c: real, v: int) {
    Abs(c - v as real) < SNAP_TOLERANCE as real
  }

  /**
   * The alignment snap on axis `a`: the leading edge of the LAST block, in
   * array order, whose leading edge is within tolerance of `c` (a later
   * match overrides an earlier one, whatever the distance); None when no
   * block is near.
   */
  function Aligned(c: real, others: seq<Rect>, a: Axis): (r: Option<int>)
    ensures r.None? <==> forall i :: 0 <= i < |others| ==> !Near(c, others[i].Lo(a))
    ensures r.Some? ==> Near(c, r.value)
    ensures r.Some? ==> exists k :: 0 <= k < |others| && r.value == others[k].Lo(a) &&
                                    forall j :: k < j < |others| ==> !Near(c, others[j].Lo(a))
  {
    if others == [] then None
    else
      var last := others[|others| - 1];
      if Near(c, last.Lo(a)) then Some(last.Lo(a))
      else
        var r := Aligned(c, others[..|others| - 1], a);
        assert forall i :: 0 <= i < |others| - 1 ==> others[..|others| - 1][i] == others[i];
        r
  }

  /**
   * The forEach of the move handler: one pass over the other blocks,
   * overwriting the vertical and the horizontal snap value at each match.
   */
  method AlignmentScan(candX: real, candY: real, others: seq<Rect>) returns (snapX: Option<int>, snapY: Option<int>)
    ensures snapX == Aligned(candX, others, X)
    ensures snapY == Aligned(candY, others, Y)
  {
    snapX, snapY := None, None;
    for i := 0 to |others|
      invariant snapX == Aligned(candX, others[..i], X)
      invariant snapY == Aligned(candY, others[..i], Y)
    {
      var o := others[i];
      assert others[..i + 1][..i] == others[..i];
      if Abs(candY - o.y as real) < SNAP_TOLERANCE as real { snapY := Some(o.y); }
      if Abs(candX - o.x as real) < SNAP_TOLERANCE as real { snapX := Some(o.x); }
    }
    assert others[..|others|] == others;
  }

  /** The blocks lying wholly before `c` on axis `a` (the filter for "lefts" / "tops"), in order. */
  function Before(others: seq<Rect>, c: real, a: Axis): (r: seq<Rect>)
    ensures forall o :: o in r <==> o in others && o.Hi(a) as real <= c
  {
    if others == [] then []
    else
      var rest := Before(others[1..], c, a);
      assert forall o :: o in others <==> o == others[0] || o in others[1..];
      if others[0].Hi(a) as real <= c then [others[0]] + rest else rest
  }

  /** The blocks lying wholly after a block of extent `size` at `c` ("rights" / "bottoms"), in order. */
  function After(others: seq<Rect>, c: real, size: int, a: Axis): (r: seq<Rect>)
    ensures forall o :: o in r <==> o in others && o.Lo(a) as real >= c + size as real
  {
    if others == [] then []
    else
      var rest := After(others[1..], c, size, a);
      assert forall o :: o in others <==> o == others[0] || o in others[1..];
      if others[0].Lo(a) as real >= c + size as real then [others[0]] + rest else rest
  }

  /**
   * The left fold `reduce((p, q) => p.Hi > q.Hi ? p : q)`: a block with the
   * greatest trailing edge, the later one on ties.
   */
  function LastFarthest(s: seq<Rect>, a: Axis): (r: Rect)
    requires |s| > 0
    ensures r in s && forall o :: o in s ==> o.Hi(a) <= r.Hi(a)
    ensures exists k :: 0 <= k < |s| && s[k] == r && forall j :: k < j < |s| ==> s[j].Hi(a) < r.Hi(a)
  {
    if |s| == 1 then s[0]
    else
      var p := LastFarthest(s[..|s| - 1], a);
      var q := s[|s| - 1];
      assert forall o :: o in s <==> o in s[..|s| - 1] || o == q;
      assert forall j :: 0 <= j < |s| - 1 ==> s[..|s| - 1][j] == s[j];
      if p.Hi(a) > q.Hi(a) then p else q
  }

  /**
   * The left fold `reduce((p, q) => p.Lo < q.Lo ? p : q)`: a block with the
   * smallest leading edge, the later one on ties.
   */
  function LastClosest(s: seq<Rect>, a: Axis): (r: Rect)
    requires |s| > 0
    ensures r in s && forall o :: o in s ==> r.Lo(a) <= o.Lo(a)
    ensures exists k :: 0 <= k < |s| && s[k] == r && forall j :: k < j < |s| ==> r.Lo(a) < s[j].Lo(a)
  {
    if |s| == 1 then s[0]
    else
      var p := LastClosest(s[..|s| - 1], a);
      var q := s[|s| - 1];
      assert forall o :: o in s <==> o in s[..|s| - 1] || o == q;
      assert forall j :: 0 <= j < |s| - 1 ==> s[..|s| - 1][j] == s[j];
      if p.Lo(a) < q.Lo(a) then p else q
  }

  /** `v` is the trailing edge of the nearest block wholly before `c`. */
  ghost predicate NearestLead(v: int, c: real, others: seq<Rect>, a: Axis) {
    (exists o :: o in others && o.Hi(a) == v && o.Hi(a) as real <= c) &&
    forall o :: o in others && o.Hi(a) as real <= c ==> o.Hi(a) <= v
  }

  /** `v` is the leading edge of the nearest block wholly after a `size`-long block at `c`. */
  ghost predicate NearestTrail(v: int, c: real, size: int, others: seq<Rect>, a: Axis) {
    (exists o :: o in others && o.Lo(a) == v && o.Lo(a) as real >= c + size as real) &&
    forall o :: o in others && o.Lo(a) as real >= c + size as real ==> v <= o.Lo(a)
  }

  /** Gap between the moving block at `c` and the block before, and the one after. */
  function GapBefore(c: real, g: Gaps): real { c - g.lead as real }
  function GapAfter(c: real, size: int, g: Gaps): real { g.trail as real - (c + size as real) }

  /**
   * The equal-spacing test on axis `a`: it fires exactly when some block
   * lies wholly before and some wholly after the moving block, and the
   * gaps to the nearest of each differ by less than SPACING_TOLERANCE.
   */
  function SpacingSnap(c: real, size: int, others: seq<Rect>, a: Axis): (r: Option<Gaps>)
    ensures r.Some? ==> NearestLead(r.value.lead, c, others, a) &&
                        NearestTrail(r.value.trail, c, size, others, a) &&
                        Abs(GapBefore(c, r.value) - GapAfter(c, size, r.value)) < SPACING_TOLERANCE as real
    ensures r.None? ==> forall lead, trail ::
                          NearestLead(lead, c, others, a) && NearestTrail(trail, c, size, others, a) ==>
                          Abs(GapBefore(c, Gaps(lead, trail)) - GapAfter(c, size, Gaps(lead, trail))) >= SPACING_TOLERANCE as real
  {
    var lefts := Before(others, c, a);
    var rights := After(others, c, size, a);
    if |lefts| > 0 && |rights| > 0 then
      var g := Gaps(LastFarthest(lefts, a).Hi(a), LastClosest(rights, a).Lo(a));
      if Abs(GapBefore(c, g) - GapAfter(c, size, g)) < SPACING_TOLERANCE as real then Some(g) else None
    else None
  }

  /**
   * The coordinate after the equal-spacing step: unchanged when the step
   * does not fire; otherwise the block sits with equal, non-negative gaps
   * on both sides, having moved by exactly half the old gap difference
   * (so by less than half the spacing tolerance).
   */
  function Respaced(c: real, size: int, others: seq<Rect>, a: Axis): (r: real)
    ensures SpacingSnap(c, size, others, a).None? ==> r == c
    ensures SpacingSnap(c, size, others, a).Some? ==>
              var g := SpacingSnap(c, size, others, a).value;
              GapBefore(r, g) == GapAfter(r, size, g) >= 0.0 &&
              r - c == (GapAfter(c, size, g) - GapBefore(c, g)) / 2.0 &&
              Abs(r - c) < SPACING_TOLERANCE as real / 2.0
  {
    match SpacingSnap(c, size, others, a)
    case None => c
    case Some(g) => g.lead as real + (g.trail as real - g.lead as real - size as real) / 2.0
  }

  /**
   * With one block wholly before `c` and one wholly after, the spacing
   * step measures the gaps to exactly those two.
   */
  lemma {:induction false} BetweenTwo(l: Rect, q: Rect, c: real, size: int, a: Axis)
    requires l.Hi(a) as real <= c && (l.Lo(a) as real) < c + size as real
    requires q.Lo(a) as real >= c + size as real && (q.Hi(a) as real) > c
    ensures Before([l, q], c, a) == [l] && After([l, q], c, size, a) == [q]
    ensures LastFarthest([l], a) == l && LastClosest([q], a) == q
  {
    assert [l, q][1..] == [q];
    assert Before([q], c, a) == [] by { assert [q][1..] == []; }
    assert After([l, q][1..], c, size, a) == [q] by { assert [q][1..] == []; }
  }

  /**
   * A block 100 wide between blocks ending at 100 and starting at 318,
   * dropped at 158 (gaps 58 and 60), is recentred to 159 (gaps 59 and 59);
   * dropped at 150 (gaps 50 and 68) it stays put.
   */
  lemma RecentreBetweenNeighbours()
    ensures var others := [Rect(0, 0, 100, 100), Rect(318, 0, 100, 100)];
            Respaced(158.0, 100, others, X) == 159.0 &&
            Respaced(150.0, 100, others, X) == 150.0
  {
    var l, q := Rect(0, 0, 100, 100), Rect(318, 0, 100, 100);
    BetweenTwo(l, q, 158.0, 100, X);
    BetweenTwo(l, q, 150.0, 100, X);
    assert SpacingSnap(158.0, 100, [l, q], X) == Some(Gaps(100, 318));
    assert SpacingSnap(150.0, 100, [l, q], X) == None;
  }

  /**
   * The coordinate after the alignment step: unchanged when no block
   * aligns, and never moved by SNAP_TOLERANCE or more.
   */
  function AlignedPos(c: real, others: seq<Rect>, a: Axis): (r: real)
    ensures Abs(r - c) < SNAP_TOLERANCE as real
    ensures (forall i :: 0 <= i < |others| ==> !Near(c, others[i].Lo(a))) ==> r == c
  {
    match Aligned(c, others, a)
    case None => c
    case Some(v) => v as real
  }

  /** The final coordinate on axis `a`: alignment first, then spacing on the aligned value. */
  function SnapAxis(c: real, size: int, others: seq<Rect>, a: Axis): real {
    Respaced(AlignedPos(c, others, a), size, others, a)
  }

  /** Block `v` sits with equal gaps between some block wholly before it and some wholly after it. */
  ghost predicate EquallySpaced(v: real, size: int, others: seq<Rect>, a: Axis) {
    exists l, q :: l in others && q in others &&
                   l.Hi(a) as real <= v && q.Lo(a) as real >= v + size as real &&
                   v - l.Hi(a) as real == q.Lo(a) as real - (v + size as real)
  }

  /**
   * One axis of the snap: the coordinate is the candidate itself, another
   * block's leading edge within the alignment tolerance, or a position
   * centred between two blocks.
   */
  lemma SnapAxisOutcome(c: real, size: int, others: seq<Rect>, a: Axis)
    ensures var v := SnapAxis(c, size, others, a);
            v == c ||
            (exists e: int :: v == e as real && Near(c, e) && exists o :: o in others && o.Lo(a) == e) ||
            EquallySpaced(v, size, others, a)
  {
    var p := AlignedPos(c, others, a);
    var v := SnapAxis(c, size, others, a);
    var sp := SpacingSnap(p, size, others, a);
    if sp.Some? {
      var g := sp.value;
      var l :| l in others && l.Hi(a) == g.lead && l.Hi(a) as real <= p;
      var q :| q in others && q.Lo(a) == g.trail && q.Lo(a) as real >= p + size as real;
      assert l.Hi(a) as real <= v && q.Lo(a) as real >= v + size as real;
      assert EquallySpaced(v, size, others, a);
    } else if Aligned(c, others, a).Some? {
      var e := Aligned(c, others, a).value;
      var k :| 0 <= k < |others| && e == others[k].Lo(a);
      assert others[k] in others;
      assert v == e as real && Near(c, e);
    }
  }

  /** Every other block lies at or right of and at or below the canvas origin. */
  predicate OnCanvas(others: seq<Rect>) {
    forall o :: o in others ==> o.x >= 0 && o.y >= 0 && o.Hi(X) >= 0 && o.Hi(Y) >= 0
  }

  /**
   * Snapping keeps a non-negative coordinate non-negative when the other
   * blocks lie on the canvas: an alignment goes to another block's leading
   * edge, and a recentred block sits after the trailing edge of the block
   * before it.
   */
  lemma SnapAxisNonNegative(c: real, size: int, others: seq<Rect>, a: Axis)
    requires c >= 0.0 && OnCanvas(others)
    ensures SnapAxis(c, size, others, a) >= 0.0
  {
    var p := AlignedPos(c, others, a);
    if Aligned(c, others, a).Some? {
      AlignedIsEdge(c, others, a);
    }
    assert p >= 0.0;
    var sp := SpacingSnap(p, size, others, a);
    if sp.Some? {
      var l :| l in others && l.Hi(a) == sp.value.lead && l.Hi(a) as real <= p;
      assert sp.value.lead >= 0;
    }
  }

  /** Alignment guide for one axis: a horizontal line for a y snap, a vertical one for an x snap. */
  function AlignmentGuides(s: Option<int>, o: Orientation): (r: seq<Guide>)
    ensures |r| == if s.Some? then 1 else 0
    ensures forall g :: g in r ==> g.kind == Alignment && g.orientation == o && s.Some? && g.offset == s.value as real
  {
    match s
    case None => []
    case Some(v) => [Guide(o, v as real, Alignment)]
  }

  /**
   * Spacing guides for one axis: none without a spacing snap; otherwise
   * two, at the near block's trailing edge and then at the far block's
   * leading edge.
   */
  function SpacingGuides(s: Option<Gaps>, o: Orientation): (r: seq<Guide>)
    ensures |r| <= 2 && (r == [] <==> s.None?)
    ensures forall g :: g in r ==> g.kind == Spacing && g.orientation == o
    ensures s.Some? ==> |r| == 2 && r[0].offset == s.value.lead as real && r[1].offset == s.value.trail as real
  {
    match s
    case None => []
    case Some(g) => [Guide(o, g.lead as real, Spacing), Guide(o, g.trail as real, Spacing)]
  }

  /** Some other block's leading edge on the axis a guide of orientation `o` marks. */
  ghost predicate IsBlockEdge(v: real, o: Orientation, others: seq<Rect>) {
    exists b :: b in others && (if o == Horizontal then b.y else b.x) as real == v
  }

  /** An alignment snap value is the leading edge of one of the other blocks. */
  lemma AlignedIsEdge(c: real, others: seq<Rect>, a: Axis)
    requires Aligned(c, others, a).Some?
    ensures exists b :: b in others && b.Lo(a) == Aligned(c, others, a).value
  {
    var k :| 0 <= k < |others| && Aligned(c, others, a).value == others[k].Lo(a);
    assert others[k] in others;
  }

  /** The place of a guide in drawing order: y alignment, x alignment, x spacing, y spacing. */
  function Rank(g: Guide): int {
    match (g.kind, g.orientation)
    case (Alignment, Horizontal) => 0
    case (Alignment, Vertical) => 1
    case (Spacing, Vertical) => 2
    case (Spacing, Horizontal) => 3
  }

  /** The guides are in drawing order. */
  predicate InDrawingOrder(r: seq<Guide>) {
    forall i, j :: 0 <= i < j < |r| ==> Rank(r[i]) <= Rank(r[j])
  }

  /** Two lists in drawing order, every guide of the first ranked no later than any of the second, concatenate in drawing order. */
  lemma {:induction false} OrderedConcat(a: seq<Guide>, b: seq<Guide>)
    requires InDrawingOrder(a) && InDrawingOrder(b)
    requires forall g, k :: g in a && k in b ==> Rank(g) <= Rank(k)
    ensures InDrawingOrder(a + b)
  {
    var r := a + b;
    forall i, j | 0 <= i < j < |r|
      ensures Rank(r[i]) <= Rank(r[j])
    {
      if j < |a| {
        assert r[i] == a[i] && r[j] == a[j];
      } else if i >= |a| {
        assert r[i] == b[i - |a|] && r[j] == b[j - |a|];
      } else {
        assert r[i] == a[i] && r[j] == b[j - |a|];
        assert r[i] in a && r[j] in b;
      }
    }
  }

  /** The alignment guides of one move: y first, then x, each at the snapped value of its axis. */
  function AlignmentPart(ay: Option<int>, ax: Option<int>): (r: seq<Guide>)
    ensures |r| == (if ay.Some? then 1 else 0) + (if ax.Some? then 1 else 0) && InDrawingOrder(r)
    ensures forall g :: g in r ==>
              g.kind == Alignment &&
              ((g.orientation == Horizontal && ay.Some? && g.offset == ay.value as real) ||
               (g.orientation == Vertical && ax.Some? && g.offset == ax.value as real))
    ensures ay.Some? ==> Guide(Horizontal, ay.value as real, Alignment) in r
    ensures ax.Some? ==> Guide(Vertical, ax.value as real, Alignment) in r
  {
    var gy, gx := AlignmentGuides(ay, Horizontal), AlignmentGuides(ax, Vertical);
    assert forall g :: g in gy ==> Rank(g) == 0;
    assert forall g :: g in gx ==> Rank(g) == 1;
    OrderedConcat(gy, gx);
    gy + gx
  }

  /** Vertical spacing guides followed by horizontal ones are in drawing order. */
  lemma SpacingPartOrdered(hx: seq<Guide>, hy: seq<Guide>)
    requires forall g :: g in hx ==> g.kind == Spacing && g.orientation == Vertical
    requires forall g :: g in hy ==> g.kind == Spacing && g.orientation == Horizontal
    ensures InDrawingOrder(hx + hy)
  {
    assert forall g :: g in hx ==> Rank(g) == 2;
    assert forall g :: g in hy ==> Rank(g) == 3;
    OrderedConcat(hx, hy);
  }

  /** The spacing guides of one move: x first, then y, each at a reference edge of its axis. */
  function SpacingPart(sx: Option<Gaps>, sy: Option<Gaps>): (r: seq<Guide>)
    ensures |r| == (if sx.Some? then 2 else 0) + (if sy.Some? then 2 else 0) && InDrawingOrder(r)
    ensures forall g :: g in r ==>
              g.kind == Spacing &&
              ((g.orientation == Vertical && sx.Some? && (g.offset == sx.value.lead as real || g.offset == sx.value.trail as real)) ||
               (g.orientation == Horizontal && sy.Some? && (g.offset == sy.value.lead as real || g.offset == sy.value.trail as real)))
    ensures sx.Some? ==> Guide(Vertical, sx.value.lead as real, Spacing) in r && Guide(Vertical, sx.value.trail as real, Spacing) in r
    ensures sy.Some? ==> Guide(Horizontal, sy.value.lead as real, Spacing) in r && Guide(Horizontal, sy.value.trail as real, Spacing) in r
  {
    var hx, hy := SpacingGuides(sx, Vertical), SpacingGuides(sy, Horizontal);
    SpacingPartOrdered(hx, hy);
    hx + hy
  }

  /**
   * The guides of one move from the four snap outcomes: at most six, in
   * drawing order (y alignment, x alignment, x spacing, y spacing); each
   * alignment guide marks the snapped value of its own axis and each
   * spacing guide one of the two reference edges of its axis; and every
   * snap that fired is drawn.
   */
  function GuideList(ay: Option<int>, ax: Option<int>, sx: Option<Gaps>, sy: Option<Gaps>): (r: seq<Guide>)
    ensures |r| == (if ay.Some? then 1 else 0) + (if ax.Some? then 1 else 0) +
                   (if sx.Some? then 2 else 0) + (if sy.Some? then 2 else 0)
    ensures |r| <= 6 && InDrawingOrder(r)
    ensures forall g :: g in r && g.kind == Alignment ==>
              (g.orientation == Horizontal && ay.Some? && g.offset == ay.value as real) ||
              (g.orientation == Vertical && ax.Some? && g.offset == ax.value as real)
    ensures forall g :: g in r && g.kind == Spacing && g.orientation == Vertical ==>
              sx.Some? && (g.offset == sx.value.lead as real || g.offset == sx.value.trail as real)
    ensures forall g :: g in r && g.kind == Spacing && g.orientation == Horizontal ==>
              sy.Some? && (g.offset == sy.value.lead as real || g.offset == sy.value.trail as real)
    ensures ay.Some? ==> Guide(Horizontal, ay.value as real, Alignment) in r
    ensures ax.Some? ==> Guide(Vertical, ax.value as real, Alignment) in r
    ensures sx.Some? ==> Guide(Vertical, sx.value.lead as real, Spacing) in r && Guide(Vertical, sx.value.trail as real, Spacing) in r
    ensures sy.Some? ==> Guide(Horizontal, sy.value.lead as real, Spacing) in r && Guide(Horizontal, sy.value.trail as real, Spacing) in r
  {
    var a, b := AlignmentPart(ay, ax), SpacingPart(sx, sy);
    OrderedConcat(a, b);
    a + b
  }

  /** `v` is the trailing edge of the nearest block before, or the leading edge of the nearest block after, a block at `p`. */
  ghost predicate SpacingEdge(v: real, p: real, size: int, others: seq<Rect>, a: Axis) {
    exists e: int :: e as real == v && (NearestLead(e, p, others, a) || NearestTrail(e, p, size, others, a))
  }

  /** The two reference edges of a spacing snap are edges of the nearest blocks before and after. */
  lemma SpacingSnapEdges(p: real, size: int, others: seq<Rect>, a: Axis)
    requires SpacingSnap(p, size, others, a).Some?
    ensures var g := SpacingSnap(p, size, others, a).value;
            SpacingEdge(g.lead as real, p, size, others, a) && SpacingEdge(g.trail as real, p, size, others, a)
  {
    var g := SpacingSnap(p, size, others, a).value;
    assert NearestLead(g.lead, p, others, a);
    assert NearestTrail(g.trail, p, size, others, a);
  }

  /**
   * The guides of one move, in drawing order (y alignment, x alignment,
   * x spacing, y spacing): at most six, and every alignment guide runs
   * along another block's leading edge.
   */
  function SnapGuides(candX: real, candY: real, w: int, h: int, others: seq<Rect>): (r: seq<Guide>)
    ensures |r| <= 6 && InDrawingOrder(r)
    ensures forall g :: g in r && g.kind == Alignment ==> IsBlockEdge(g.offset, g.orientation, others)
  {
    var ax := Aligned(candX, others, X);
    var ay := Aligned(candY, others, Y);
    assert ay.Some? ==> IsBlockEdge(ay.value as real, Horizontal, others) by {
      if ay.Some? { AlignedIsEdge(candY, others, Y); }
    }
    assert ax.Some? ==> IsBlockEdge(ax.value as real, Vertical, others) by {
      if ax.Some? { AlignedIsEdge(candX, others, X); }
    }
    GuideList(ay, ax, SpacingSnap(AlignedPos(candX, others, X), w, others, X),
              SpacingSnap(AlignedPos(candY, others, Y), h, others, Y))
  }

  /**
   * Every spacing guide of a move runs along an edge of the nearest block
   * before or after the aligned candidate on its own axis.
   */
  lemma SpacingGuidesAtNearestEdges(candX: real, candY: real, w: int, h: int, others: seq<Rect>)
    ensures forall g :: g in SnapGuides(candX, candY, w, h, others) && g.kind == Spacing && g.orientation == Vertical ==>
              SpacingEdge(g.offset, AlignedPos(candX, others, X), w, others, X)
    ensures forall g :: g in SnapGuides(candX, candY, w, h, others) && g.kind == Spacing && g.orientation == Horizontal ==>
              SpacingEdge(g.offset, AlignedPos(candY, others, Y), h, others, Y)
  {
    var px, py := AlignedPos(candX, others, X), AlignedPos(candY, others, Y);
    var sx, sy := SpacingSnap(px, w, others, X), SpacingSnap(py, h, others, Y);
    var r := GuideList(Aligned(candY, others, Y), Aligned(candX, others, X), sx, sy);
    assert SnapGuides(candX, candY, w, h, others) == r;
    if sx.Some? { SpacingSnapEdges(px, w, others, X); }
    if sy.Some? { SpacingSnapEdges(py, h, others, Y); }
  }

  /** The whole snap step for a clamped candidate: each axis snapped, and the guides to draw. */
  function Snap(candX: real, candY: real, w: int, h: int, others: seq<Rect>): SnapResult {
    SnapResult(SnapAxis(candX, w, others, X), SnapAxis(candY, h, others, Y), SnapGuides(candX, candY, w, h, others))
  }

  /**
   * The snapping part of the move handler: the alignment forEach, then the
   * spacing step on X and on Y, collecting the guides to draw.
   */
  method SnapCandidate(candX: real, candY: real, w: int, h: int, others: seq<Rect>)
    returns (x: real, y: real, guides: seq<Guide>)
    ensures SnapResult(x, y, guides) == Snap(candX, candY, w, h, others)
  {
    x, y := candX, candY;
    var snapX, snapY := AlignmentScan(candX, candY, others);
    if snapY.Some? { y := snapY.value as real; }
    if snapX.Some? { x := snapX.value as real; }
    assert x == AlignedPos(candX, others, X) && y == AlignedPos(candY, others, Y);
    var spX := SpacingSnap(x, w, others, X);
    if spX.Some? { x := Respaced(x, w, others, X); }
    var spY := SpacingSnap(y, h, others, Y);
    if spY.Some? { y := Respaced(y, h, others, Y); }
    assert x == SnapAxis(candX, w, others, X) && y == SnapAxis(candY, h, others, Y);
    guides := GuideList(snapY, snapX, spX, spY);
  }
}
