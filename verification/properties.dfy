/** Properties relating several ControlBase calls: sequences of geometric
    changes and their paint log, the bulk setters against the property
    setters, and the two places where the source departs from its evident
    intent. */
module ControlProperties {
  import opened Wrappers
  import Drawing
  import opened ControlBase

  /** Every geometric mutation ControlBase offers, as a value. */
  datatype GeometryOp =
    | SetLeft(left: int)
    | SetTop(top: int)
    | SetWidth(width: int)
    | SetHeight(height: int)
    | SetRectangle(rect: Drawing.Rect)
    | SetSizeProperty(size: Drawing.Size)
    | SetLocationProperty(location: Drawing.Point)
    | Bounds(l: int, t: int, w: int, h: int)
    | Resize(w: int, h: int)
    | MoveTo(l: int, t: int)
    | Grow(dw: int, dh: int)
    | Clip(clip: Drawing.Rect)
    | Shift(delta: Drawing.Point)

  /** Performs one mutation on the control. */
  function Apply(c: Control, op: GeometryOp): (r: Control)
    ensures Repainted(c, r)
  {
    match op
    case SetLeft(v) => AssignLeft(c, v)
    case SetTop(v) => AssignTop(c, v)
    case SetWidth(v) => AssignWidth(c, v)
    case SetHeight(v) => AssignHeight(c, v)
    case SetRectangle(rect) => AssignRectangle(c, rect)
    case SetSizeProperty(s) => AssignSize(c, s)
    case SetLocationProperty(p) => AssignLocation(c, p)
    case Bounds(l, t, w, h) => SetBounds(c, l, t, w, h)
    case Resize(w, h) => SetSize(c, w, h)
    case MoveTo(l, t) => SetLocation(c, l, t)
    case Grow(dw, dh) => Inflate(c, dw, dh)
    case Clip(rect) => Intersect(c, rect)
    case Shift(p) => Offset(c, p)
  }

  /** Performs the mutations in order. There is no batching: with a painter
      attached each mutation adds exactly one paint, and the earlier log is
      kept as it was; without one the log does not grow. */
  function ApplyAll(c: Control, ops: seq<GeometryOp>): (r: Control)
    ensures r.painter == c.painter
    ensures |r.paints| == |c.paints| + (if c.painter.Some? then |ops| else 0)
    ensures r.paints[..|c.paints|] == c.paints
    decreases |ops|
  {
    if |ops| == 0 then c
    else ApplyAll(Apply(c, ops[0]), ops[1..])
  }

  /** With a painter attached and at least one mutation, the last paint saw
      the final rectangle: the state is updated before the painter is called. */
  lemma {:induction false} LastPaintSeesFinalState(c: Control, ops: seq<GeometryOp>)
    requires c.painter.Some? && |ops| > 0
    ensures var r := ApplyAll(c, ops);
            r.paints[|r.paints| - 1] == PaintEvent(c.painter.value, r.bounds)
    decreases |ops|
  {
    var next := Apply(c, ops[0]);
    if |ops| > 1 {
      LastPaintSeesFinalState(next, ops[1..]);
    } else {
      assert ApplyAll(next, ops[1..]) == next;
    }
  }

  /** Without a painter a whole sequence of mutations paints nothing. */
  lemma NoPainterNoPaint(c: Control, ops: seq<GeometryOp>)
    requires c.painter == None
    ensures ApplyAll(c, ops).paints == c.paints
  {
  }

  /** SetBounds reaches the same rectangle as the four single setters, with
      one paint where the four setters make four. */
  lemma SetBoundsIsOnePaintNotFour(c: Control, l: int, t: int, w: int, h: int)
    requires c.painter.Some?
    ensures var four := AssignHeight(AssignWidth(AssignTop(AssignLeft(c, l), t), w), h);
            var one := SetBounds(c, l, t, w, h);
            four.bounds == one.bounds && |four.paints| == |one.paints| + 3
  {
  }

  /** SetBounds is the Rectangle setter with the rectangle spelled out. */
  lemma SetBoundsIsAssignRectangle(c: Control, l: int, t: int, w: int, h: int)
    ensures SetBounds(c, l, t, w, h) == AssignRectangle(c, Drawing.Rect(l, t, w, h))
  {
  }

  /** SetSize is the Size setter. */
  lemma SetSizeIsAssignSize(c: Control, w: int, h: int)
    ensures SetSize(c, w, h) == AssignSize(c, Drawing.Size(w, h))
  {
  }

  /** SetLocation as written does not depend on `top` at all, and differs
      from the evident intent whenever `top` is not the current Height. */
  lemma SetLocationIgnoresTop(c: Control, left: int, top: int, other: int)
    ensures SetLocation(c, left, top) == SetLocation(c, left, other)
    ensures top != Height(c) ==> SetLocation(c, left, top) != SetLocationIntended(c, left, top)
  {
  }

  /** The corrected SetLocation is the Location setter. */
  lemma SetLocationIntendedIsAssignLocation(c: Control, left: int, top: int)
    ensures SetLocationIntended(c, left, top) == AssignLocation(c, Drawing.Point(left, top))
  {
  }

  /** A control of height 40 moved with SetLocation(20, 99) ends up at y = 40. */
  lemma SetLocationDefectScenario()
    ensures var c := SetBounds(New(), 0, 0, 10, 40);
            LocationOf(SetLocation(c, 20, 99)) == Drawing.Point(20, 40)
  {
  }

  /** SetBounds(0, 0, 100, 50) then Inflate(5, 5) ends at (-5, -5, 110, 60)
      with two paints, each seeing the rectangle of its own step. */
  lemma SetBoundsInflateScenario(p: PainterRef)
    ensures var c := SetBounds(AssignPainter(New(), Some(p)), 0, 0, 100, 50);
            var r := Inflate(c, 5, 5);
            && r.bounds == Drawing.Rect(-5, -5, 110, 60)
            && r.paints == [PaintEvent(p, Drawing.Rect(0, 0, 100, 50)), PaintEvent(p, r.bounds)]
  {
  }

  /** Intersecting twice with the same rectangle leaves the rectangle of the
      first intersection, but paints once per call. */
  lemma IntersectTwice(c: Control, rect: Drawing.Rect)
    ensures var once := Intersect(c, rect);
            var twice := Intersect(once, rect);
            && twice.bounds == once.bounds
            && |twice.paints| == |c.paints| + (if c.painter.Some? then 2 else 0)
  {
    Drawing.IntersectIdempotent(c.bounds, rect);
  }

  /** Inflate by (-w, -h) undoes Inflate by (w, h) on the rectangle; the two
      paints remain in the log. */
  lemma InflateUndone(c: Control, w: int, h: int)
    ensures Inflate(Inflate(c, w, h), -w, -h).bounds == c.bounds
  {
    Drawing.InflateInverse(c.bounds, w, h);
  }

  /** Offset by -p undoes Offset by p on the rectangle. */
  lemma OffsetUndone(c: Control, p: Drawing.Point)
    ensures Offset(Offset(c, p), Drawing.Point(-p.x, -p.y)).bounds == c.bounds
  {
    Drawing.OffsetInverse(c.bounds, p);
  }

  /** A failed SetPainter leaves the control, painter included, as it was. */
  lemma SetPainterNullKeepsPainter(c: Control)
    ensures After(c, SetPainter(c, None)) == c
  {
  }

  /** The obsolete Paint(painter) as written ignores which painter it is given,
      and with no painter attached it paints nothing though it succeeds; the
      intended version paints once through the argument. */
  lemma PaintWithIgnoresArgument(c: Control, p: PainterRef, q: PainterRef)
    ensures PaintWith(c, Some(p)) == PaintWith(c, Some(q))
    ensures c.painter == None ==> PaintWith(c, Some(p)) == Success(c)
    ensures c.painter == None ==> |PaintWithIntended(c, Some(p)).value.paints| == |c.paints| + 1
  {
  }

  /** Paint() without a painter throws and paints nothing; after SetPainter
      it paints exactly once. */
  lemma PaintAfterSetPainter(c: Control, p: PainterRef)
    ensures c.painter == None ==> After(c, Paint(c)) == c
    ensures var d := After(c, SetPainter(c, Some(p)));
            Paint(d) == Success(d.(paints := d.paints + [PaintEvent(p, d.bounds)]))
  {
  }
}
