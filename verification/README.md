# ControlBase geometry and repaint, in Dafny

This project models the geometry-and-repaint core of `ControlBase`, the base
class of the LeonDirectUI "direct UI" controls. A control keeps its whole
geometry in one `System.Drawing.Rectangle` field (`Papa`, initially
`Rectangle.Empty`). Every positional property (Left, Top, Width, Height,
Rectangle, Size, Location, and the derived Right and Bottom) is a view of that
one rectangle. Every geometric mutation ends with `Painter?.Paint(this)`: one
repaint when a painter is attached, nothing otherwise. `SetPainter` throws
on a null painter and `Paint()` throws when no painter is attached. The
obsolete `Paint(IPaint)` throws on a null argument, whether or not a painter
is attached; otherwise it paints through the attached painter if there is
one, and silently does nothing if there is none.

Files:

- `wrappers.dfy`: `Option` (a nullable reference) and `Result` (an operation
  that completes or throws).
- `drawing.dfy`: module `Drawing`. `Point`, `Size` and `Rect` with the
  `System.Drawing.Rectangle` operations the control delegates to (`Contains`,
  `Inflate`, `Intersect`, `IntersectsWith`, `IsEmpty`, `Offset`), written out
  as the .NET type defines them, and their algebra (inverses, idempotence,
  greatest-overlap, shared points).
- `control.dfy`: module `ControlBase`. The control state is a value of type
  `Control`: the rectangle, the painter reference (`None` is null), and a
  log of paint calls. Each log entry names the painter and holds a snapshot
  of the rectangle at the moment of the call. So the log shows that the
  mutation is visible before painting. Every C# member is a pure function
  from the old state to the new state, or to a `Failure` carrying the
  exception. After a failure the caller still holds the old state.
- `properties.dfy`: module `ControlProperties`. Sequences of mutations and
  their paint log, the bulk setters against the property setters, and the
  two departures from evident intent listed under Findings.

Two facts about the code are easy to misread:

- `IsEmpty()` delegates to `Rectangle.IsEmpty`, which holds only when all
  four fields are zero. It does not mean "width <= 0 or height <= 0"
  (`Drawing.IsEmptyIsNotDegenerate`).
- The obsolete `Paint(IPaint)` checks its argument for null and then paints
  through the attached `Painter`. It does not paint through the argument.

## Model

| member | source | states |
|---|---|---|
| `ControlBase.New` | LeonDirectUI/DUIControl/ControlBase.cs:97 | a new control has the all-zero rectangle, no painter and an empty paint log |
| `ControlBase.Repaint` | LeonDirectUI/DUIControl/ControlBase.cs:108 | `Painter?.Paint(this)` after a change: one event with the new rectangle if a painter is attached, none otherwise; the painter is kept |
| `ControlBase.Right` | LeonDirectUI/DUIControl/ControlBase.cs:154 | Right is always Left + Width, read from the rectangle |
| `ControlBase.Bottom` | LeonDirectUI/DUIControl/ControlBase.cs:159 | Bottom is always Top + Height, read from the rectangle |
| `ControlBase.SizeOf` | LeonDirectUI/DUIControl/ControlBase.cs:177-179 | the Size getter reports exactly Width and Height |
| `ControlBase.LocationOf` | LeonDirectUI/DUIControl/ControlBase.cs:190-192 | the Location getter reports exactly Left and Top |
| `ControlBase.AssignLeft` | LeonDirectUI/DUIControl/ControlBase.cs:102-110 | setting Left changes only Left; Top, Width, Height and the painter stay; one paint iff a painter is attached |
| `ControlBase.AssignTop` | LeonDirectUI/DUIControl/ControlBase.cs:115-123 | setting Top changes only Top; the other three fields and the painter stay; one paint iff a painter is attached |
| `ControlBase.AssignWidth` | LeonDirectUI/DUIControl/ControlBase.cs:128-136 | setting Width changes only Width, so Right moves to Left + the new width; one paint iff a painter is attached |
| `ControlBase.AssignHeight` | LeonDirectUI/DUIControl/ControlBase.cs:141-149 | setting Height changes only Height, so Bottom moves to Top + the new height; one paint iff a painter is attached |
| `ControlBase.AssignRectangle` | LeonDirectUI/DUIControl/ControlBase.cs:164-172 | setting Rectangle replaces all four edges with the given rectangle's; one paint iff a painter is attached |
| `ControlBase.AssignSize` | LeonDirectUI/DUIControl/ControlBase.cs:177-185 | setting Size makes the Size getter return it and keeps the Location; one paint iff a painter is attached |
| `ControlBase.AssignLocation` | LeonDirectUI/DUIControl/ControlBase.cs:190-198 | setting Location makes the Location getter return it and keeps the Size; one paint iff a painter is attached |
| `ControlBase.SetBounds` | LeonDirectUI/DUIControl/ControlBase.cs:207-215 | afterwards the location is (left, top), the size is (width, height), Right = left + width, Bottom = top + height; a single paint |
| `ControlBase.SetSize` | LeonDirectUI/DUIControl/ControlBase.cs:222-228 | width and height become the arguments, Left and Top are unchanged; a single paint |
| `ControlBase.SetLocation` | LeonDirectUI/DUIControl/ControlBase.cs:235-241 | as written: Left becomes `left`, Top becomes the previous Height whatever `top` is, the size is unchanged; one paint |
| `ControlBase.SetLocationIntended` | LeonDirectUI/DUIControl/ControlBase.cs:235-241 | corrected: the location becomes (left, top), the size is unchanged; one paint |
| `ControlBase.Contains` | LeonDirectUI/DUIControl/ControlBase.cs:253 | true exactly when Left <= x < Right and Top <= y < Bottom (half-open); a query, the state is not changed |
| `ControlBase.IntersectsWith` | LeonDirectUI/DUIControl/ControlBase.cs:281 | true exactly when the two rectangles overlap strictly on both axes; a query, the state is not changed |
| `ControlBase.IsEmpty` | LeonDirectUI/DUIControl/ControlBase.cs:287 | true exactly when all four fields are zero |
| `ControlBase.Inflate` | LeonDirectUI/DUIControl/ControlBase.cs:260-264 | Left and Top move out by w and h, Right and Bottom move out by w and h; one paint that sees the inflated rectangle |
| `ControlBase.Intersect` | LeonDirectUI/DUIControl/ControlBase.cs:270-274 | the new rectangle has non-negative sides; it is Empty when the old one and the argument are apart; otherwise it lies within both; it contains every non-negative rectangle lying within both; it contains exactly the points both contain; one paint |
| `ControlBase.Offset` | LeonDirectUI/DUIControl/ControlBase.cs:293-297 | the location moves by the vector and the size is kept; one paint that sees the moved rectangle |
| `ControlBase.AssignPainter` | LeonDirectUI/DUIControl/ControlBase.cs:22 | the Painter property setter stores any reference, null included, and neither paints nor moves the rectangle |
| `ControlBase.SetPainter` | LeonDirectUI/DUIControl/ControlBase.cs:307-310 | fails exactly on null; otherwise the painter is replaced and the rectangle and paint log are kept |
| `ControlBase.PaintWith` | LeonDirectUI/DUIControl/ControlBase.cs:317-322 | as written: fails exactly on a null argument; otherwise paints through the attached painter, if any |
| `ControlBase.PaintWithIntended` | LeonDirectUI/DUIControl/ControlBase.cs:317-322 | corrected: fails exactly on a null argument; otherwise paints once through the argument and keeps the attached painter |
| `ControlBase.Paint` | LeonDirectUI/DUIControl/ControlBase.cs:327-332 | fails exactly when no painter is attached; otherwise logs exactly one paint of the current rectangle and changes nothing else |
| `Drawing.IsEmpty` | LeonDirectUI/DUIControl/ControlBase.cs:287 | Rectangle.IsEmpty holds exactly for Rectangle.Empty |
| `Drawing.Inflate` | LeonDirectUI/DUIControl/ControlBase.cs:262 | each edge moves outward by the amount on its axis and the centre is kept |
| `Drawing.Offset` | LeonDirectUI/DUIControl/ControlBase.cs:295 | translation: the size is kept and every edge moves by the vector |
| `Drawing.Intersect` | LeonDirectUI/DUIControl/ControlBase.cs:272 | the result never has a negative side, and is Empty whenever the larger left (top) edge lies beyond the smaller right (bottom) edge |
| `Drawing.IntersectWithinBoth` | LeonDirectUI/DUIControl/ControlBase.cs:272 | unless the arguments are apart, the intersection lies within both |
| `Drawing.IntersectContainsBoth` | LeonDirectUI/DUIControl/ControlBase.cs:272 | a point is in the intersection iff it is in both arguments, the disjoint case included |
| `Drawing.ContainsHalfOpen` | LeonDirectUI/DUIControl/ControlBase.cs:253 | the right and bottom edges are outside; the top-left corner is inside iff both sides are positive |
| `Drawing.EmptyContainsNothing` | LeonDirectUI/DUIControl/ControlBase.cs:287 | an empty rectangle contains no point |
| `Drawing.IsEmptyIsNotDegenerate` | LeonDirectUI/DUIControl/ControlBase.cs:287 | a rectangle with a negative side, or a zero-size one away from the origin, is not empty |
| `Drawing.InflateInverse` | LeonDirectUI/DUIControl/ControlBase.cs:262 | inflating by (-w, -h) undoes inflating by (w, h) |
| `Drawing.InflateGrows` | LeonDirectUI/DUIControl/ControlBase.cs:262 | inflating by non-negative amounts keeps every contained point |
| `Drawing.OffsetInverse` | LeonDirectUI/DUIControl/ControlBase.cs:295 | offsetting by -p undoes offsetting by p |
| `Drawing.OffsetTranslatesPoints` | LeonDirectUI/DUIControl/ControlBase.cs:295 | a point is in the offset rectangle iff the point moved back is in the original |
| `Drawing.IntersectCommutes` | LeonDirectUI/DUIControl/ControlBase.cs:272 | the intersection does not depend on argument order |
| `Drawing.IntersectIdempotent` | LeonDirectUI/DUIControl/ControlBase.cs:272 | intersecting again with the same rectangle changes nothing, the disjoint (Empty) case included |
| `Drawing.IntersectIsGreatest` | LeonDirectUI/DUIControl/ControlBase.cs:272 | every non-negative rectangle within both arguments lies within their intersection |
| `Drawing.IntersectCharacterised` | LeonDirectUI/DUIControl/ControlBase.cs:272 | any rectangle with the properties of `ControlBase.Intersect`'s contract (non-negative, Empty when apart, within both otherwise, greatest) equals the intersection |
| `Drawing.IntersectApart` | LeonDirectUI/DUIControl/ControlBase.cs:272 | (0,0,10,10) and (20,0,10,10) intersect in Empty |
| `Drawing.IntersectTouching` | LeonDirectUI/DUIControl/ControlBase.cs:272 | (0,0,10,10) and (10,0,10,10), which only touch, intersect in (10,0,0,10), not in Empty |
| `Drawing.IntersectsWithCommutes` | LeonDirectUI/DUIControl/ControlBase.cs:281 | IntersectsWith is symmetric |
| `Drawing.IntersectsWithSharedPoint` | LeonDirectUI/DUIControl/ControlBase.cs:281 | two rectangles share a point iff they intersect and both have positive sides |
| `Drawing.IntersectsWithDegenerate` | LeonDirectUI/DUIControl/ControlBase.cs:281 | a zero-width rectangle can intersect another without sharing a point |
| `Drawing.IntersectsWithMeansProperIntersect` | LeonDirectUI/DUIControl/ControlBase.cs:272-281 | for rectangles with positive sides, IntersectsWith holds iff Intersect has positive sides |
| `ControlProperties.Apply` | LeonDirectUI/DUIControl/ControlBase.cs:102-297 | every geometric mutation repaints exactly once iff a painter is attached, with the post-change rectangle |
| `ControlProperties.ApplyAll` | LeonDirectUI/DUIControl/ControlBase.cs:102-297 | a sequence of mutations keeps the painter and the earlier log and adds one paint per mutation iff a painter is attached (no batching) |
| `ControlProperties.LastPaintSeesFinalState` | LeonDirectUI/DUIControl/ControlBase.cs:102-297 | after mutations with a painter attached, the last paint saw the final rectangle |
| `ControlProperties.NoPainterNoPaint` | LeonDirectUI/DUIControl/ControlBase.cs:108 | without a painter no sequence of mutations paints anything |
| `ControlProperties.SetBoundsIsOnePaintNotFour` | LeonDirectUI/DUIControl/ControlBase.cs:207-215 | SetBounds reaches the rectangle of the four single setters with one paint instead of four |
| `ControlProperties.SetBoundsIsAssignRectangle` | LeonDirectUI/DUIControl/ControlBase.cs:164-215 | SetBounds has the same effect as setting Rectangle |
| `ControlProperties.SetSizeIsAssignSize` | LeonDirectUI/DUIControl/ControlBase.cs:177-228 | SetSize has the same effect as setting Size |
| `ControlProperties.SetLocationIgnoresTop` | LeonDirectUI/DUIControl/ControlBase.cs:235-241 | SetLocation's result does not depend on `top`, and differs from the corrected version whenever `top` is not the current Height |
| `ControlProperties.SetLocationIntendedIsAssignLocation` | LeonDirectUI/DUIControl/ControlBase.cs:190-241 | the corrected SetLocation has the same effect as setting Location |
| `ControlProperties.SetLocationDefectScenario` | LeonDirectUI/DUIControl/ControlBase.cs:235-241 | a control of height 40 given SetLocation(20, 99) lands at (20, 40) |
| `ControlProperties.SetBoundsInflateScenario` | LeonDirectUI/DUIControl/ControlBase.cs:207-264 | SetBounds(0,0,100,50) then Inflate(5,5) gives (-5,-5,110,60) and two paints, each seeing its own step's rectangle |
| `ControlProperties.IntersectTwice` | LeonDirectUI/DUIControl/ControlBase.cs:270-274 | a second Intersect with the same rectangle keeps the rectangle but paints again |
| `ControlProperties.InflateUndone` | LeonDirectUI/DUIControl/ControlBase.cs:260-264 | Inflate(-w, -h) restores the rectangle before Inflate(w, h) |
| `ControlProperties.OffsetUndone` | LeonDirectUI/DUIControl/ControlBase.cs:293-297 | Offset(-p) restores the rectangle before Offset(p) |
| `ControlProperties.SetPainterNullKeepsPainter` | LeonDirectUI/DUIControl/ControlBase.cs:307-310 | after a rejected SetPainter(null) the control, painter included, is unchanged |
| `ControlProperties.PaintWithIgnoresArgument` | LeonDirectUI/DUIControl/ControlBase.cs:317-322 | the obsolete Paint(p) behaves the same for every non-null p, and paints nothing when no painter is attached |
| `ControlProperties.PaintAfterSetPainter` | LeonDirectUI/DUIControl/ControlBase.cs:307-332 | Paint() without a painter fails and changes nothing; after SetPainter(p) it logs exactly one paint by p |

## Left out

- Display and identity attributes (`Name`, `Enabled`, `Visible`, `Text`,
  `TextAlign`, `Font`, `ForeColor`, `Image`, `ImageAlign`, `BackgroundImage`,
  `BackgroundImageLayout`): plain storage of opaque WinForms/GDI+ values, with
  no logic and no repaint. The `Control` record does not carry them, so no
  geometric operation can touch them.
- The rendering done by `IPaint` implementations: that interface and its
  implementations are not part of this model. A paint call is only an event
  in the log. The model therefore assumes the painter returns normally and
  does not call back into the control. In C#, an exception thrown by the
  painter would reach the caller after the rectangle was already changed. A
  painter that set a geometry property would recurse. A painter that called
  `SetPainter` would replace the painter, which `Repainted` says is kept.
- 32-bit wrap-around: coordinates are unbounded integers, so `X + Width`,
  `Inflate` and `Offset` never overflow here, unlike C#'s unchecked `int`.
- Exception message text, the `[Obsolete]` attribute, `virtual` overriding by
  subclasses and the `IPaintable` interface.
- Thread safety: the class assumes single-threaded UI use.
- The getters `Left`, `Top`, `Width`, `Height` and `Rectangle` (lines
  102-166) are plain field reads. They are helpers in the model and have no
  row of their own; the setters' rows state what they read back.
- `Drawing.Contains` and `Drawing.IntersectsWith` are the definitions of
  `Rectangle.Contains(int, int)` and `Rectangle.IntersectsWith`, which lines
  253 and 281 call. They have no contract of their own. Their properties
  are stated by `ControlBase.Contains`, `ControlBase.IntersectsWith`,
  `Drawing.ContainsHalfOpen`, `Drawing.IntersectsWithSharedPoint` and the
  other lemmas in the table.
- `ControlBase.After` is a helper with no contract of its own. It is the
  control the caller holds after a call: the new one on success, the old
  one unchanged when the call threw (lines 309, 319 and 329 throw before
  changing anything). `ControlProperties.SetPainterNullKeepsPainter` and
  `ControlProperties.PaintAfterSetPainter` state what it gives.

## Findings

| source | as written | input that shows it | evidently intended | confidence | as-written member | corrected member |
|---|---|---|---|---|---|---|
| LeonDirectUI/DUIControl/ControlBase.cs:238 | `SetLocation` writes the current Height into Y and ignores `top` | a control of height 40, `SetLocation(20, 99)`: Y becomes 40, not 99 | Y becomes `top`, as with the Location setter | high, not executed | `ControlProperties.SetLocationIgnoresTop` | `ControlProperties.SetLocationIntendedIsAssignLocation` |
| LeonDirectUI/DUIControl/ControlBase.cs:321 | the obsolete `Paint(painter)` checks `painter` for null, then paints through the attached `Painter` | no painter attached, `Paint(p)` with a non-null `p`: succeeds and paints nothing | paint once through the argument, leaving the attached painter in place | medium, not executed | `ControlProperties.PaintWithIgnoresArgument` | `ControlBase.PaintWithIntended` |

The rest of the model keeps the source's behaviour: `ControlProperties.Apply`
uses `SetLocation` as written. The corrected members stand beside the
as-written ones.
