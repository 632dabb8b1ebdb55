/**
 * Core Graphics values used by the matched transition: points, sizes,
 * rectangles and the scale-and-translate affine transforms that map one
 * rectangle onto another. `CGFloat` is modelled as `real`, so all the
 * arithmetic below is exact.
 */
module Graphics {

  datatype Point = Point(x: real, y: real)

  datatype Size = Size(width: real, height: real)

  /** A `CGRect`: an origin and a size whose components may be negative. */
  datatype Rect = Rect(origin: Point, size: Size)

  function Abs(x: real): real {
    if x < 0.0 then -x else x
  }

  /** `CGRect.width` and `.height` report the size of the standardized rectangle. */
  function Width(r: Rect): real {
    Abs(r.size.width)
  }

  function Height(r: Rect): real {
    Abs(r.size.height)
  }

  /** The smaller and larger x (and y) edges of the standardized rectangle. */
  function MinX(r: Rect): real {
    if r.size.width < 0.0 then r.origin.x + r.size.width else r.origin.x
  }

  function MaxX(r: Rect): real {
    if r.size.width < 0.0 then r.origin.x else r.origin.x + r.size.width
  }

  function MinY(r: Rect): real {
    if r.size.height < 0.0 then r.origin.y + r.size.height else r.origin.y
  }

  function MaxY(r: Rect): real {
    if r.size.height < 0.0 then r.origin.y else r.origin.y + r.size.height
  }

  function MidX(r: Rect): real {
    r.origin.x + r.size.width / 2.0
  }

  function MidY(r: Rect): real {
    r.origin.y + r.size.height / 2.0
  }

  /** `CGRect.center`: the point halfway between the edges, whatever the signs of the size. */
  function Center(r: Rect): (c: Point)
    ensures MinX(r) <= c.x <= MaxX(r) && c.x - MinX(r) == MaxX(r) - c.x
    ensures MinY(r) <= c.y <= MaxY(r) && c.y - MinY(r) == MaxY(r) - c.y
  {
    Point(MidX(r), MidY(r))
  }

  /** A rectangle the scale ratios can be computed from (no division by zero). */
  predicate NonDegenerate(r: Rect) {
    r.size.width != 0.0 && r.size.height != 0.0
  }

  /** A rectangle whose size is not negative, as UIKit reports converted frames. */
  predicate IsStandard(r: Rect) {
    r.size.width >= 0.0 && r.size.height >= 0.0
  }

  /** A `CGAffineTransform` [a b 0; c d 0; tx ty 1]. */
  datatype Transform = Transform(a: real, b: real, c: real, d: real, tx: real, ty: real)

  const Identity := Transform(1.0, 0.0, 0.0, 1.0, 0.0, 0.0)

  /** No rotation and no shear: the only transforms this system produces. */
  predicate IsScaleTranslate(t: Transform) {
    t.b == 0.0 && t.c == 0.0
  }

  /**
   * `t` takes `from` onto `to` when applied about the centre of `from`:
   * it scales the standardized size of `from` to that of `to` and moves
   * the centre of `from` onto the centre of `to`.
   */
  predicate MapsOnto(t: Transform, from: Rect, to: Rect) {
    && IsScaleTranslate(t)
    && t.a * Width(from) == Width(to)
    && t.d * Height(from) == Height(to)
    && Center(from).x + t.tx == Center(to).x
    && Center(from).y + t.ty == Center(to).y
  }

  /** `makeCGAffineTransform(from:to:)`. */
  function MakeAffineTransform(from: Rect, to: Rect): (t: Transform)
    requires NonDegenerate(from)
    ensures MapsOnto(t, from, to)
  {
    Transform(
      Width(to) / Width(from),
      0.0,
      0.0,
      Height(to) / Height(from),
      MidX(to) - MidX(from),
      MidY(to) - MidY(from))
  }

  /**
   * The rectangle that a view whose untransformed frame is `r` occupies
   * once `t` is applied about its centre (UIKit's default anchor point).
   */
  function Applied(t: Transform, r: Rect): Rect
    requires IsScaleTranslate(t)
  {
    var size := Size(t.a * r.size.width, t.d * r.size.height);
    var center := Point(MidX(r) + t.tx, MidY(r) + t.ty);
    Rect(Point(center.x - size.width / 2.0, center.y - size.height / 2.0), size)
  }

  lemma AbsNonZero(x: real)
    requires x != 0.0
    ensures Abs(x) > 0.0
  {
  }

  /** A scale factor that takes a non-zero extent `w` to `z` is the ratio `z / w`. */
  lemma ScaleIsRatio(x: real, w: real, z: real)
    requires w != 0.0 && x * w == z
    ensures x == z / w
  {
  }

  /** `MakeAffineTransform(from, to)` is the one and only transform taking `from` onto `to`. */
  lemma MakeAffineTransformIsUnique(t: Transform, from: Rect, to: Rect)
    requires NonDegenerate(from)
    ensures MapsOnto(t, from, to) <==> t == MakeAffineTransform(from, to)
  {
    if MapsOnto(t, from, to) {
      AbsNonZero(from.size.width);
      AbsNonZero(from.size.height);
      ScaleIsRatio(t.a, Width(from), Width(to));
      ScaleIsRatio(t.d, Height(from), Height(to));
    }
  }

  /** Mapping a rectangle onto itself is the identity. */
  lemma MakeAffineTransformOfSelfIsIdentity(r: Rect)
    requires NonDegenerate(r)
    ensures MakeAffineTransform(r, r) == Identity
  {
    assert MapsOnto(Identity, r, r);
    MakeAffineTransformIsUnique(Identity, r, r);
  }

  /**
   * Swapping the arguments gives the inverse: reciprocal scales and
   * negated translations.
   */
  lemma MakeAffineTransformSwappedIsInverse(from: Rect, to: Rect)
    requires NonDegenerate(from) && NonDegenerate(to)
    ensures var f, g := MakeAffineTransform(from, to), MakeAffineTransform(to, from);
      && f.a * g.a == 1.0 && f.d * g.d == 1.0
      && g.tx == -f.tx && g.ty == -f.ty
  {
    AbsNonZero(from.size.width);
    AbsNonZero(from.size.height);
    AbsNonZero(to.size.width);
    AbsNonZero(to.size.height);
    var f, g := MakeAffineTransform(from, to), MakeAffineTransform(to, from);
    assert f.a * g.a == (Width(to) / Width(from)) * (Width(from) / Width(to));
    assert f.d * g.d == (Height(to) / Height(from)) * (Height(from) / Height(to));
  }

  lemma AppliedIdentity(r: Rect)
    ensures Applied(Identity, r) == r
  {
  }

  /**
   * A view laid out at the untransformed frame `from` and given
   * `MakeAffineTransform(from, to)` appears exactly at `to`.
   */
  lemma AppliedMakeAffineTransformReachesTarget(from: Rect, to: Rect)
    requires NonDegenerate(from) && IsStandard(from) && IsStandard(to)
    ensures Applied(MakeAffineTransform(from, to), from) == to
  {
    var t := MakeAffineTransform(from, to);
    assert t.a * from.size.width == to.size.width;
    assert t.d * from.size.height == to.size.height;
  }

  /** Going from `from` to `to` and back with the swapped transform returns to `from`. */
  lemma RoundTripReturnsToSource(from: Rect, to: Rect)
    requires NonDegenerate(from) && NonDegenerate(to) && IsStandard(from) && IsStandard(to)
    ensures Applied(MakeAffineTransform(to, from), Applied(MakeAffineTransform(from, to), from)) == from
  {
    AppliedMakeAffineTransformReachesTarget(from, to);
    AppliedMakeAffineTransformReachesTarget(to, from);
  }

  /** The worked example: a 20x20 square at the origin onto a 40x40 square at (100, 50). */
  lemma MakeAffineTransformExample()
    ensures MakeAffineTransform(Rect(Point(0.0, 0.0), Size(20.0, 20.0)), Rect(Point(100.0, 50.0), Size(40.0, 40.0)))
         == Transform(2.0, 0.0, 0.0, 2.0, 110.0, 60.0)
  {
  }
}
