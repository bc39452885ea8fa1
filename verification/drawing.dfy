/** The integer geometry primitives of System.Drawing that the control
    delegates to: Point, Size and Rectangle, with Rectangle's Contains,
    Inflate, Intersect, IntersectsWith, IsEmpty and Offset written out as the
    .NET type defines them. Coordinates are unbounded integers: the 32-bit
    overflow of `X + Width` and friends is not modelled. */
module Drawing {

  /** System.Drawing.Point: a position or a translation vector. */
  datatype Point = Point(x: int, y: int)

  /** System.Drawing.Size: a width and a height (either may be negative). */
  datatype Size = Size(width: int, height: int)

  /** System.Drawing.Rectangle. Only the four fields are stored; Right and
      Bottom are always derived from them. */
  datatype Rect = Rect(x: int, y: int, width: int, height: int) {

    function Right(): int { x + width }

    function Bottom(): int { y + height }

    function Location(): Point { Point(x, y) }

    /** Rectangle.Size. */
    function Extent(): Size { Size(width, height) }
  }

  /** Rectangle.Empty, the all-zero rectangle. */
  const Empty: Rect := Rect(0, 0, 0, 0)

  /** Rectangle.Contains(x, y): half-open on the right and bottom edges. */
  predicate Contains(r: Rect, px: int, py: int) {
    r.x <= px < r.x + r.width && r.y <= py < r.y + r.height
  }

  /** `inner` lies inside `outer` edge by edge (Rectangle.Contains(Rectangle)). */
  predicate Within(inner: Rect, outer: Rect) {
    outer.x <= inner.x && inner.Right() <= outer.Right() &&
    outer.y <= inner.y && inner.Bottom() <= outer.Bottom()
  }

  /** Some point lies in both rectangles. */
  ghost predicate SharePoint(a: Rect, b: Rect) {
    exists px, py :: Contains(a, px, py) && Contains(b, px, py)
  }

  /** Both sides are strictly positive, so the rectangle covers some point. */
  predicate Proper(r: Rect) {
    r.width > 0 && r.height > 0
  }

  /** Rectangle.IsEmpty: all four fields are zero. A rectangle with a zero or
      negative side but a non-zero field is NOT empty in this sense. */
  predicate IsEmpty(r: Rect)
    ensures IsEmpty(r) <==> r == Empty
  {
    r.x == 0 && r.y == 0 && r.width == 0 && r.height == 0
  }

  /** Rectangle.Inflate(w, h): every edge moves outward by w horizontally and
      h vertically, so the size grows by twice that and the centre stays. */
  function Inflate(r: Rect, w: int, h: int): (s: Rect)
    ensures s.x == r.x - w && s.Right() == r.Right() + w
    ensures s.y == r.y - h && s.Bottom() == r.Bottom() + h
    ensures 2 * s.x + s.width == 2 * r.x + r.width
    ensures 2 * s.y + s.height == 2 * r.y + r.height
  {
    Rect(r.x - w, r.y - h, r.width + 2 * w, r.height + 2 * h)
  }

  /** Rectangle.Offset(Point): translate by the vector, keeping the size. */
  function Offset(r: Rect, p: Point): (s: Rect)
    ensures s.Extent() == r.Extent()
    ensures s.x == r.x + p.x && s.Right() == r.Right() + p.x
    ensures s.y == r.y + p.y && s.Bottom() == r.Bottom() + p.y
  {
    Rect(r.x + p.x, r.y + p.y, r.width, r.height)
  }

  function Max(a: int, b: int): int { if a < b then b else a }

  function Min(a: int, b: int): int { if a < b then a else b }

  /** Rectangle.Intersect(a, b): the overlap of the two rectangles, computed
      from the larger left/top and smaller right/bottom edges, or Empty when
      those edges cross. A zero-width or zero-height overlap along a shared
      edge is kept (it is not replaced by Empty). */
  function Intersect(a: Rect, b: Rect): (s: Rect)
    ensures s.width >= 0 && s.height >= 0
    ensures Apart(a, b) ==> s == Empty
  {
    var x1 := Max(a.x, b.x);
    var x2 := Min(a.x + a.width, b.x + b.width);
    var y1 := Max(a.y, b.y);
    var y2 := Min(a.y + a.height, b.y + b.height);
    if x2 >= x1 && y2 >= y1 then Rect(x1, y1, x2 - x1, y2 - y1) else Empty
  }

  /** The larger left edge lies beyond the smaller right edge, or likewise
      vertically: the rectangles do not even touch, and Intersect gives Empty. */
  predicate Apart(a: Rect, b: Rect) {
    Min(a.x + a.width, b.x + b.width) < Max(a.x, b.x) ||
    Min(a.y + a.height, b.y + b.height) < Max(a.y, b.y)
  }

  /** Rectangle.IntersectsWith: strict overlap on both axes. */
  predicate IntersectsWith(a: Rect, b: Rect) {
    b.x < a.x + a.width && a.x < b.x + b.width &&
    b.y < a.y + a.height && a.y < b.y + b.height
  }

  // ----- Properties of the primitives -----

  /** Contains is half-open: the left/top edges belong to the rectangle, the
      right/bottom edges do not, and the top-left corner is inside exactly
      when both sides are positive. */
  lemma ContainsHalfOpen(r: Rect, px: int, py: int)
    ensures !Contains(r, r.Right(), py) && !Contains(r, px, r.Bottom())
    ensures Contains(r, r.x, r.y) <==> Proper(r)
  {
  }

  /** An empty rectangle contains no point. */
  lemma EmptyContainsNothing(r: Rect, px: int, py: int)
    requires IsEmpty(r)
    ensures !Contains(r, px, py)
  {
  }

  /** IsEmpty is not "some side is non-positive": a rectangle can hold no point
      and still not be empty, and a lone zero-size rectangle away from the
      origin is not empty either. */
  lemma IsEmptyIsNotDegenerate()
    ensures !IsEmpty(Rect(0, 0, -1, 5)) && !Proper(Rect(0, 0, -1, 5))
    ensures !IsEmpty(Rect(3, 4, 0, 0))
  {
  }

  /** Inflating by (w, h) and then by (-w, -h) restores the rectangle. */
  lemma InflateInverse(r: Rect, w: int, h: int)
    ensures Inflate(Inflate(r, w, h), -w, -h) == r
  {
  }

  /** Inflating by non-negative amounts only adds points. */
  lemma InflateGrows(r: Rect, w: int, h: int, px: int, py: int)
    requires w >= 0 && h >= 0
    requires Contains(r, px, py)
    ensures Contains(Inflate(r, w, h), px, py)
  {
  }

  /** Offsetting by p and then by -p restores the rectangle. */
  lemma OffsetInverse(r: Rect, p: Point)
    ensures Offset(Offset(r, p), Point(-p.x, -p.y)) == r
  {
  }

  /** Offset moves the contained points along with the rectangle. */
  lemma OffsetTranslatesPoints(r: Rect, p: Point, px: int, py: int)
    ensures Contains(Offset(r, p), px + p.x, py + p.y) <==> Contains(r, px, py)
  {
  }

  /** Unless the rectangles are apart, the intersection lies within both;
      when they are apart it is Empty. */
  lemma IntersectWithinBoth(a: Rect, b: Rect)
    ensures var s := Intersect(a, b);
            !Apart(a, b) ==> Within(s, a) && Within(s, b)
  {
  }

  /** A point lies in the intersection exactly when it lies in both
      rectangles, the disjoint case (Empty) included. */
  lemma IntersectContainsBoth(a: Rect, b: Rect, px: int, py: int)
    ensures Contains(Intersect(a, b), px, py) <==> Contains(a, px, py) && Contains(b, px, py)
  {
  }

  /** Intersect is symmetric in its two arguments. */
  lemma IntersectCommutes(a: Rect, b: Rect)
    ensures Intersect(a, b) == Intersect(b, a)
  {
  }

  /** Intersecting a second time with the same rectangle changes nothing. */
  lemma IntersectIdempotent(a: Rect, b: Rect)
    ensures Intersect(Intersect(a, b), b) == Intersect(a, b)
  {
  }

  /** Intersect is the largest rectangle inside both: any non-negative
      rectangle lying within a and within b lies within their intersection. */
  lemma IntersectIsGreatest(a: Rect, b: Rect, t: Rect)
    requires t.width >= 0 && t.height >= 0
    requires Within(t, a) && Within(t, b)
    ensures Within(t, Intersect(a, b))
  {
    var x1, x2 := Max(a.x, b.x), Min(a.x + a.width, b.x + b.width);
    var y1, y2 := Max(a.y, b.y), Min(a.y + a.height, b.y + b.height);
    assert x1 <= t.x <= t.x + t.width <= x2;
    assert y1 <= t.y <= t.y + t.height <= y2;
    assert Intersect(a, b) == Rect(x1, y1, x2 - x1, y2 - y1);
  }

  /** The properties above single out Intersect: a rectangle with
      non-negative sides that is Empty when the arguments are apart, lies
      within both otherwise, and contains every non-negative rectangle that
      lies within both, IS their intersection. */
  lemma IntersectCharacterised(a: Rect, b: Rect, s: Rect)
    requires s.width >= 0 && s.height >= 0
    requires Apart(a, b) ==> IsEmpty(s)
    requires !Apart(a, b) ==> Within(s, a) && Within(s, b)
    requires forall t: Rect | t.width >= 0 && t.height >= 0 ::
               Within(t, a) && Within(t, b) ==> Within(t, s)
    ensures s == Intersect(a, b)
  {
    var x1, x2 := Max(a.x, b.x), Min(a.x + a.width, b.x + b.width);
    var y1, y2 := Max(a.y, b.y), Min(a.y + a.height, b.y + b.height);
    if !Apart(a, b) {
      var i := Rect(x1, y1, x2 - x1, y2 - y1);
      assert Intersect(a, b) == i;
      assert Within(i, a) && Within(i, b);
      assert Within(i, s);
      assert s.x == x1 && s.x + s.width == x2;
      assert s.y == y1 && s.y + s.height == y2;
    }
  }

  /** Rectangles that are apart meet in Empty. */
  lemma IntersectApart()
    ensures Intersect(Rect(0, 0, 10, 10), Rect(20, 0, 10, 10)) == Empty
  {
    assert Apart(Rect(0, 0, 10, 10), Rect(20, 0, 10, 10));
  }

  /** Rectangles that only touch along an edge meet in a zero-width
      rectangle on that edge, not in Empty. */
  lemma IntersectTouching()
    ensures Intersect(Rect(0, 0, 10, 10), Rect(10, 0, 10, 10)) == Rect(10, 0, 0, 10)
  {
    assert Max(0, 10) == 10 && Min(10, 20) == 10;
  }

  /** IntersectsWith is symmetric. */
  lemma IntersectsWithCommutes(a: Rect, b: Rect)
    ensures IntersectsWith(a, b) <==> IntersectsWith(b, a)
  {
  }

  /** A shared point implies IntersectsWith, and for rectangles with positive
      sides IntersectsWith implies a shared point. */
  lemma IntersectsWithSharedPoint(a: Rect, b: Rect)
    ensures SharePoint(a, b) <==> IntersectsWith(a, b) && Proper(a) && Proper(b)
  {
    if IntersectsWith(a, b) && Proper(a) && Proper(b) {
      var px, py := Max(a.x, b.x), Max(a.y, b.y);
      assert Contains(a, px, py) && Contains(b, px, py);
    }
  }

  /** IntersectsWith on a degenerate rectangle can hold without a shared
      point: a zero-width rectangle crossing another one. */
  lemma IntersectsWithDegenerate()
    ensures IntersectsWith(Rect(5, 0, 0, 10), Rect(0, 0, 10, 10))
    ensures !SharePoint(Rect(5, 0, 0, 10), Rect(0, 0, 10, 10))
  {
  }

  /** Two proper rectangles that intersect have a proper intersection. */
  lemma IntersectsWithMeansProperIntersect(a: Rect, b: Rect)
    requires Proper(a) && Proper(b)
    ensures IntersectsWith(a, b) <==> Proper(Intersect(a, b))
  {
  }
}
