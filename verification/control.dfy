/** ControlBase: a control whose whole geometry is one rectangle, with an
    optional painter that is called after every geometric change.

    The painter itself (IPaint) is opaque; a call `Painter.Paint(this)` is
    recorded as a PaintEvent naming the painter and holding a snapshot of the
    rectangle at the moment of the call. A C# exception becomes a `Failure`;
    the caller's control is then left exactly as it was. */
module ControlBase {
  import opened Wrappers
  import Drawing

  /** The identity of an IPaint object. */
  datatype PainterRef = PainterRef(id: nat)

  /** One call of `Paint(this)` on a painter, with the rectangle it saw. */
  datatype PaintEvent = PaintEvent(painter: PainterRef, snapshot: Drawing.Rect)

  /** The exceptions ControlBase throws, one per throwing call site. */
  datatype Error =
    | NullPainterInjected   // SetPainter(null)
    | NullPainterArgument   // Paint(null), the obsolete overload
    | NoPainterAttached     // Paint() while Painter is null

  /** The control's state: the rectangle `Papa`, the `Painter` property and
      the log of paint calls made so far. */
  datatype Control = Control(
    bounds: Drawing.Rect,
    painter: Option<PainterRef>,
    paints: seq<PaintEvent>)

  /** `Painter?.Paint(this)` took place between `c` and `r`: one paint event
      with the post-change rectangle when a painter is attached, nothing
      otherwise; the painter itself is left alone. */
  predicate Repainted(c: Control, r: Control) {
    && r.painter == c.painter
    && (match c.painter
        case Some(p) => r.paints == c.paints + [PaintEvent(p, r.bounds)]
        case None => r.paints == c.paints)
  }

  /** A freshly constructed control: `Papa = Rectangle.Empty`, no painter,
      nothing painted. */
  function New(): (c: Control)
    ensures Drawing.IsEmpty(c.bounds) && c.painter == None && c.paints == []
  {
    Control(Drawing.Empty, None, [])
  }

  /** `Painter?.Paint(this)` after `c.bounds` has been replaced by `b`. */
  function Repaint(c: Control, b: Drawing.Rect): (r: Control)
    ensures r.bounds == b
    ensures Repainted(c, r)
  {
    var next := c.(bounds := b);
    match c.painter
    case Some(p) => next.(paints := c.paints + [PaintEvent(p, b)])
    case None => next
  }

  // ----- Getters: every positional view reads the one rectangle -----

  function Left(c: Control): int { c.bounds.x }

  function Top(c: Control): int { c.bounds.y }

  function Width(c: Control): int { c.bounds.width }

  function Height(c: Control): int { c.bounds.height }

  /** Right is derived, never stored. */
  function Right(c: Control): (r: int)
    ensures r == Left(c) + Width(c)
  {
    c.bounds.Right()
  }

  /** Bottom is derived, never stored. */
  function Bottom(c: Control): (r: int)
    ensures r == Top(c) + Height(c)
  {
    c.bounds.Bottom()
  }

  /** The Size property's getter. */
  function SizeOf(c: Control): (s: Drawing.Size)
    ensures s.width == Width(c) && s.height == Height(c)
  {
    c.bounds.Extent()
  }

  /** The Location property's getter. */
  function LocationOf(c: Control): (p: Drawing.Point)
    ensures p.x == Left(c) && p.y == Top(c)
  {
    c.bounds.Location()
  }

  // ----- Property setters: write, then repaint once -----

  /** `Left = v`. */
  function AssignLeft(c: Control, v: int): (r: Control)
    ensures Left(r) == v && Top(r) == Top(c)
    ensures Width(r) == Width(c) && Height(r) == Height(c)
    ensures Repainted(c, r)
  {
    Repaint(c, c.bounds.(x := v))
  }

  /** `Top = v`. */
  function AssignTop(c: Control, v: int): (r: Control)
    ensures Top(r) == v && Left(r) == Left(c)
    ensures Width(r) == Width(c) && Height(r) == Height(c)
    ensures Repainted(c, r)
  {
    Repaint(c, c.bounds.(y := v))
  }

  /** `Width = v`: the left edge stays, the right edge follows. */
  function AssignWidth(c: Control, v: int): (r: Control)
    ensures Width(r) == v && Left(r) == Left(c)
    ensures Top(r) == Top(c) && Height(r) == Height(c)
    ensures Right(r) == Left(c) + v
    ensures Repainted(c, r)
  {
    Repaint(c, c.bounds.(width := v))
  }

  /** `Height = v`: the top edge stays, the bottom edge follows. */
  function AssignHeight(c: Control, v: int): (r: Control)
    ensures Height(r) == v && Left(r) == Left(c)
    ensures Top(r) == Top(c) && Width(r) == Width(c)
    ensures Bottom(r) == Top(c) + v
    ensures Repainted(c, r)
  {
    Repaint(c, c.bounds.(height := v))
  }

  /** `Rectangle = rect`: the whole rectangle is replaced, one repaint. */
  function AssignRectangle(c: Control, rect: Drawing.Rect): (r: Control)
    ensures Left(r) == rect.x && Top(r) == rect.y
    ensures Right(r) == rect.Right() && Bottom(r) == rect.Bottom()
    ensures Repainted(c, r)
  {
    Repaint(c, rect)
  }

  /** `Size = s`: width and height change, the location stays. */
  function AssignSize(c: Control, s: Drawing.Size): (r: Control)
    ensures SizeOf(r) == s && LocationOf(r) == LocationOf(c)
    ensures Repainted(c, r)
  {
    Repaint(c, c.bounds.(width := s.width, height := s.height))
  }

  /** `Location = p`: the position changes, the size stays. */
  function AssignLocation(c: Control, p: Drawing.Point): (r: Control)
    ensures LocationOf(r) == p && SizeOf(r) == SizeOf(c)
    ensures Repainted(c, r)
  {
    Repaint(c, c.bounds.(x := p.x, y := p.y))
  }

  // ----- Bulk setters -----

  /** SetBounds: all four fields at once, with a single repaint. */
  function SetBounds(c: Control, left: int, top: int, width: int, height: int): (r: Control)
    ensures LocationOf(r) == Drawing.Point(left, top)
    ensures SizeOf(r) == Drawing.Size(width, height)
    ensures Right(r) == left + width && Bottom(r) == top + height
    ensures Repainted(c, r)
  {
    Repaint(c, Drawing.Rect(left, top, width, height))
  }

  /** SetSize: width and height, location unchanged, one repaint. */
  function SetSize(c: Control, width: int, height: int): (r: Control)
    ensures Left(r) == Left(c) && Top(r) == Top(c)
    ensures Width(r) == width && Height(r) == height
    ensures Repainted(c, r)
  {
    Repaint(c, c.bounds.(width := width, height := height))
  }

  /** SetLocation as the source writes it: X becomes `left`, but Y becomes the
      control's current Height and `top` is ignored. */
  function SetLocation(c: Control, left: int, top: int): (r: Control)
    ensures Left(r) == left && Top(r) == Height(c)
    ensures SizeOf(r) == SizeOf(c)
    ensures Repainted(c, r)
  {
    Repaint(c, c.bounds.(x := left, y := c.bounds.height))
  }

  /** SetLocation as evidently intended: the same effect as `Location = (left, top)`. */
  function SetLocationIntended(c: Control, left: int, top: int): (r: Control)
    ensures LocationOf(r) == Drawing.Point(left, top) && SizeOf(r) == SizeOf(c)
    ensures Repainted(c, r)
  {
    Repaint(c, c.bounds.(x := left, y := top))
  }

  // ----- Rectangle relations -----

  /** Contains(x, y): half-open containment, left/top edge in, right/bottom out. */
  function Contains(c: Control, x: int, y: int): (b: bool)
    ensures b <==> Left(c) <= x < Right(c) && Top(c) <= y < Bottom(c)
  {
    Drawing.Contains(c.bounds, x, y)
  }

  /** IntersectsWith(rect): strict overlap with the control's rectangle. */
  function IntersectsWith(c: Control, rect: Drawing.Rect): (b: bool)
    ensures b <==> (rect.x < Right(c) && Left(c) < rect.Right() &&
                    rect.y < Bottom(c) && Top(c) < rect.Bottom())
  {
    Drawing.IntersectsWith(c.bounds, rect)
  }

  /** IsEmpty(): the rectangle is Rectangle.Empty, all four fields zero. */
  function IsEmpty(c: Control): (b: bool)
    ensures b <==> Left(c) == 0 && Top(c) == 0 && Width(c) == 0 && Height(c) == 0
  {
    Drawing.IsEmpty(c.bounds)
  }

  /** Inflate(w, h): each edge moves outward, then one repaint. */
  function Inflate(c: Control, w: int, h: int): (r: Control)
    ensures Left(r) == Left(c) - w && Right(r) == Right(c) + w
    ensures Top(r) == Top(c) - h && Bottom(r) == Bottom(c) + h
    ensures Repainted(c, r)
  {
    Repaint(c, Drawing.Inflate(c.bounds, w, h))
  }

  /** Intersect(rect): the rectangle becomes the largest rectangle inside
      both the old one and `rect` (Empty when they are apart), then one
      repaint. The clauses below determine the new rectangle completely,
      a zero-width or zero-height overlap along a shared edge included. */
  function Intersect(c: Control, rect: Drawing.Rect): (r: Control)
    ensures Width(r) >= 0 && Height(r) >= 0
    ensures Drawing.Apart(c.bounds, rect) ==> IsEmpty(r)
    ensures !Drawing.Apart(c.bounds, rect) ==>
              Drawing.Within(r.bounds, c.bounds) && Drawing.Within(r.bounds, rect)
    ensures forall t: Drawing.Rect | t.width >= 0 && t.height >= 0 ::
              Drawing.Within(t, c.bounds) && Drawing.Within(t, rect) ==> Drawing.Within(t, r.bounds)
    ensures forall x, y :: Contains(r, x, y) <==> Contains(c, x, y) && Drawing.Contains(rect, x, y)
    ensures Repainted(c, r)
  {
    Drawing.IntersectWithinBoth(c.bounds, rect);
    var r := Repaint(c, Drawing.Intersect(c.bounds, rect));
    forall t: Drawing.Rect | t.width >= 0 && t.height >= 0
      ensures Drawing.Within(t, c.bounds) && Drawing.Within(t, rect) ==> Drawing.Within(t, r.bounds)
    {
      if Drawing.Within(t, c.bounds) && Drawing.Within(t, rect) {
        Drawing.IntersectIsGreatest(c.bounds, rect, t);
      }
    }
    forall x, y ensures Contains(r, x, y) <==> Contains(c, x, y) && Drawing.Contains(rect, x, y) {
      Drawing.IntersectContainsBoth(c.bounds, rect, x, y);
    }
    r
  }

  /** Offset(p): translate by p, size unchanged, then one repaint. */
  function Offset(c: Control, p: Drawing.Point): (r: Control)
    ensures LocationOf(r) == Drawing.Point(Left(c) + p.x, Top(c) + p.y)
    ensures SizeOf(r) == SizeOf(c)
    ensures Repainted(c, r)
  {
    Repaint(c, Drawing.Offset(c.bounds, p))
  }

  // ----- Painter -----

  /** The `Painter` auto-property setter: stores any reference, null included,
      and paints nothing. */
  function AssignPainter(c: Control, p: Option<PainterRef>): (r: Control)
    ensures r.painter == p && r.bounds == c.bounds && r.paints == c.paints
  {
    c.(painter := p)
  }

  /** SetPainter: rejects null, otherwise replaces the painter without painting. */
  function SetPainter(c: Control, p: Option<PainterRef>): (r: Result<Control, Error>)
    ensures r.Failure? <==> p == None
    ensures r.Failure? ==> r.error == NullPainterInjected
    ensures r.Success? ==> r.value.painter == p && r.value.bounds == c.bounds && r.value.paints == c.paints
  {
    match p
    case None => Failure(NullPainterInjected)
    case Some(_) => Success(c.(painter := p))
  }

  /** The obsolete Paint(painter) as the source writes it: throws on a null
      argument, otherwise paints through the ATTACHED painter (if any) and
      never through the argument. */
  function PaintWith(c: Control, p: Option<PainterRef>): (r: Result<Control, Error>)
    ensures r.Failure? <==> p == None
    ensures r.Failure? ==> r.error == NullPainterArgument
    ensures r.Success? ==> r.value.bounds == c.bounds && Repainted(c, r.value)
  {
    match p
    case None => Failure(NullPainterArgument)
    case Some(_) => Success(Repaint(c, c.bounds))
  }

  /** Paint(painter) as evidently intended: paint once through the argument,
      leaving the attached painter in place. */
  function PaintWithIntended(c: Control, p: Option<PainterRef>): (r: Result<Control, Error>)
    ensures r.Failure? <==> p == None
    ensures r.Failure? ==> r.error == NullPainterArgument
    ensures r.Success? ==> && r.value.bounds == c.bounds && r.value.painter == c.painter
                           && r.value.paints == c.paints + [PaintEvent(p.value, c.bounds)]
  {
    match p
    case None => Failure(NullPainterArgument)
    case Some(q) => Success(c.(paints := c.paints + [PaintEvent(q, c.bounds)]))
  }

  /** Paint(): throws when no painter is attached, otherwise paints exactly once. */
  function Paint(c: Control): (r: Result<Control, Error>)
    ensures r.Failure? <==> c.painter == None
    ensures r.Failure? ==> r.error == NoPainterAttached
    ensures r.Success? ==> && r.value.bounds == c.bounds && r.value.painter == c.painter
                           && r.value.paints == c.paints + [PaintEvent(c.painter.value, c.bounds)]
  {
    match c.painter
    case None => Failure(NoPainterAttached)
    case Some(_) => Success(Repaint(c, c.bounds))
  }

  /** The control a caller holds after an operation: the new one, or the old
      one unchanged when the operation threw. */
  function After(c: Control, r: Result<Control, Error>): Control {
    match r
    case Success(next) => next
    case Failure(_) => c
  }
}
