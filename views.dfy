/**
 * The part of a `UIView` the transition reads and writes: its place in the
 * view tree, its bounds size, centre and transform, and the keys of the
 * animations attached to its layer. UIKit's own geometry (`convert(_:to:)`)
 * is a parameter: a function of the view's layout geometry.
 */
module Views {
  import opened Graphics

  /** The key prefix UIKit gives to animations driven by a `UIViewPropertyAnimator`. */
  const PacingKeyPrefix: string := "UIPacingAnimationForAnimatorsKey"

  /** `String.hasPrefix`, character by character. */
  function HasPrefix(s: string, prefix: string): (r: bool)
    ensures r <==> prefix <= s
  {
    if |prefix| == 0 then true
    else if |s| == 0 then false
    else s[0] == prefix[0] && HasPrefix(s[1..], prefix[1..])
  }

  /**
   * The animation-key search behind `isAnimatingByPropertyAnimator`: some
   * key starts with `PacingKeyPrefix`. A layer without animation keys
   * (`animationKeys()` returning nil) is the empty sequence.
   */
  function HasPacingAnimation(keys: seq<string>): (r: bool)
    ensures r <==> exists i :: 0 <= i < |keys| && PacingKeyPrefix <= keys[i]
  {
    if |keys| == 0 then false
    else if HasPrefix(keys[0], PacingKeyPrefix) then true
    else
      var rest := HasPacingAnimation(keys[1..]);
      assert forall i :: 1 <= i < |keys| ==> keys[i] == keys[1..][i - 1];
      rest
  }

  /** The layout geometry of a view: bounds size, centre in its superview, transform. */
  datatype Layout = Layout(boundsSize: Size, center: Point, transform: Transform)

  /** The layout of a view created with a zero frame. */
  const ZeroLayout := Layout(Size(0.0, 0.0), Point(0.0, 0.0), Identity)

  /** The frame of a view in its superview's space while its transform is the identity. */
  function UntransformedFrame(l: Layout): (r: Rect)
    ensures Center(r) == l.center && r.size == l.boundsSize
  {
    Rect(Point(l.center.x - l.boundsSize.width / 2.0, l.center.y - l.boundsSize.height / 2.0), l.boundsSize)
  }

  /** Where a view with layout `l` appears in its superview's space. */
  function VisualFrame(l: Layout): Rect
    requires IsScaleTranslate(l.transform)
  {
    Applied(l.transform, UntransformedFrame(l))
  }

  /**
   * UIKit's `convert(bounds, to: space)` for a view with layout `l` and
   * superview `superview`; the rest of the view tree does not change while
   * this model runs, so it is not an argument.
   */
  type Convert = (Layout, View?, View) -> Rect

  class View {
    /** The view's dynamic class, as `String(reflecting:)` names it. */
    const typeName: string
    var superview: View?
    var boundsSize: Size
    var center: Point
    var transform: Transform
    var animationKeys: seq<string>

    /** A new, detached view of class `typeName` with a zero frame. */
    constructor (typeName: string)
      ensures this.typeName == typeName && superview == null && animationKeys == []
      ensures Geometry() == ZeroLayout
    {
      this.typeName := typeName;
      superview := null;
      boundsSize := Size(0.0, 0.0);
      center := Point(0.0, 0.0);
      transform := Identity;
      animationKeys := [];
    }

    function Geometry(): Layout
      reads this
    {
      Layout(boundsSize, center, transform)
    }

    /** `isAnimatingByPropertyAnimator`. */
    predicate IsAnimatingByPropertyAnimator()
      reads this
    {
      HasPacingAnimation(animationKeys)
    }

    /** The frame measured in `space` with the view's transform set to the identity. */
    function FrameIgnoringTransform(space: View, convert: Convert): Rect
      reads this
    {
      convert(Geometry().(transform := Identity), superview, space)
    }

    /**
     * `relativeFrameWithoutTransforming(in:)`: save the transform, set it to
     * the identity, measure, restore. The result depends on the bounds and
     * centre only, and the view is left exactly as it was.
     */
    method RelativeFrameWithoutTransforming(space: View, convert: Convert) returns (r: Rect)
      modifies this
      ensures r == convert(Layout(old(boundsSize), old(center), Identity), old(superview), space)
      ensures unchanged(this)
    {
      var currentTransform := transform;
      transform := Identity;
      r := convert(Geometry(), superview, space);
      transform := currentTransform;
    }

    /**
     * `frame.size = s` while the transform is the identity: the origin of
     * the frame stays, so the centre moves with the new size.
     */
    method SetFrameSize(s: Size)
      modifies this
      ensures boundsSize == s
      ensures UntransformedFrame(Geometry()) == Rect(UntransformedFrame(old(Geometry())).origin, s)
      ensures transform == old(transform) && superview == old(superview) && animationKeys == old(animationKeys)
    {
      var origin := UntransformedFrame(Geometry()).origin;
      boundsSize := s;
      center := Center(Rect(origin, s));
    }
  }
}
