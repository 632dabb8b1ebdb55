/**
 * The transition set-up rules of the `UIViewPropertyAnimator` extension.
 * The animator is an object that records, for every animation block added
 * to it, the view the block changes and the end state it commits, and for
 * every completion block the snapshot it may remove. Interpolation, timing
 * and scrubbing belong to UIKit and are not modelled: `Commit` applies a
 * recorded end state and `RunSnapshotCompletion` runs a completion block.
 */
module Animator {
  import opened Graphics
  import opened Views
  import opened SnapshotCache

  /** `UIViewPropertyAnimator.MovingMode`. */
  datatype MovingMode = CenterMode | FrameMode | TransformMode

  /** The end state an animation block assigns to one view. */
  datatype Target =
    | TargetCenter(center: Point)
    | TargetFrame(frame: Rect)
    | TargetTransform(transform: Transform)

  /** An animation block: the view it changes and how, or a block that changes nothing. */
  datatype Animation = Animate(view: View, target: Target) | NoAnimation

  /** A completion block that removes `snapshot` from its superview once nothing animates it. */
  datatype Completion = RemoveWhenIdle(snapshot: View)

  /** The layout of a view once an animation block has committed `target` (`frame = r` with an identity transform). */
  function ApplyTarget(l: Layout, target: Target): Layout {
    match target
    case TargetCenter(p) => l.(center := p)
    case TargetFrame(r) => l.(boundsSize := r.size, center := Center(r))
    case TargetTransform(t) => l.(transform := t)
  }

  // ---------------------------------------------------------------------
  // Snapshot path: what `addSnapshotMovingAnimation(snapshotView:...)` sets
  // up, as functions of the two measured frames.
  // ---------------------------------------------------------------------

  /** Preparation computes `makeCGAffineTransform(from, to)`. */
  predicate PreparationMakesTransform(mode: MovingMode, isReversed: bool, inContainer: bool) {
    mode == TransformMode && isReversed && !inContainer
  }

  /** The animation block computes `makeCGAffineTransform(from, to)`. */
  predicate TargetMakesTransform(mode: MovingMode, isReversed: bool) {
    mode == TransformMode && !isReversed
  }

  /**
   * The snapshot's layout after preparation, given whether it was already
   * a subview of the container and its layout `l` before.
   */
  function PreparedLayout(mode: MovingMode, isReversed: bool, inContainer: bool, l: Layout, from: Rect, to: Rect): Layout
    requires PreparationMakesTransform(mode, isReversed, inContainer) ==> NonDegenerate(from)
  {
    match mode
    case CenterMode =>
      if inContainer then l
      else l.(boundsSize := from.size, center := if isReversed then Center(to) else Center(from))
    case FrameMode =>
      if inContainer then l
      else
        var f := if isReversed then to else from;
        l.(boundsSize := f.size, center := Center(f))
    case TransformMode =>
      var t := if inContainer then l.transform
               else if isReversed then MakeAffineTransform(from, to)
               else Identity;
      Layout(from.size, Center(from), t)
  }

  /** The end state the snapshot's animation block commits. */
  function SnapshotTarget(mode: MovingMode, isReversed: bool, from: Rect, to: Rect): Target
    requires TargetMakesTransform(mode, isReversed) ==> NonDegenerate(from)
  {
    match mode
    case CenterMode => TargetCenter(if isReversed then Center(from) else Center(to))
    case FrameMode => TargetFrame(if isReversed then from else to)
    case TransformMode => TargetTransform(if isReversed then Identity else MakeAffineTransform(from, to))
  }

  // ---------------------------------------------------------------------
  // Concrete path: what `addMovingAnimation` sets up (the `.transform`
  // branch, the only one its fixed `_movingMode` reaches).
  // ---------------------------------------------------------------------

  /** The pre-step applies: the source is `toView`, it is not animating, and the call is not reversed. */
  predicate PreStepApplies(sourceIsTo: bool, toIsAnimating: bool, isReversed: bool) {
    sourceIsTo && !toIsAnimating && !isReversed
  }

  /** `toView`'s transform after the pre-step, from its transform `current` before. */
  function PreStepTransform(sourceIsTo: bool, toIsAnimating: bool, isReversed: bool, current: Transform, from: Rect, to: Rect): Transform
    requires PreStepApplies(sourceIsTo, toIsAnimating, isReversed) ==> NonDegenerate(to)
  {
    if PreStepApplies(sourceIsTo, toIsAnimating, isReversed) then MakeAffineTransform(to, from) else current
  }

  /** The frames a transform is computed from in `addMovingAnimation`'s animation block are non-degenerate. */
  predicate MovingTargetDefined(sourceIsFrom: bool, sourceIsTo: bool, isReversed: bool, from: Rect, to: Rect) {
    && (sourceIsFrom && !isReversed ==> NonDegenerate(from))
    && (!sourceIsFrom && sourceIsTo && isReversed ==> NonDegenerate(to))
  }

  /** The animation block of `addMovingAnimation`. */
  function MovingAnimation(fromView: View, toView: View, sourceView: View, isReversed: bool, from: Rect, to: Rect): Animation
    requires MovingTargetDefined(sourceView == fromView, sourceView == toView, isReversed, from, to)
  {
    if sourceView == fromView then
      Animate(fromView, TargetTransform(if isReversed then Identity else MakeAffineTransform(from, to)))
    else if sourceView == toView then
      Animate(toView, TargetTransform(if isReversed then MakeAffineTransform(to, from) else Identity))
    else
      // assertionFailure("sourceView must be either fromView or toView.")
      NoAnimation
  }

  // ---------------------------------------------------------------------
  // The debug check on the snapshot's identity
  // ---------------------------------------------------------------------

  /** The check `snapshotView !== fromView || snapshotView !== toView` as the code states it. */
  predicate SelfIdentityCheckAsWritten(snapshot: View, fromView: View, toView: View) {
    snapshot != fromView || snapshot != toView
  }

  /** What the check's message asks for: a snapshot that is neither endpoint. */
  predicate SnapshotIsDistinct(snapshot: View, fromView: View, toView: View) {
    snapshot != fromView && snapshot != toView
  }

  /**
   * The check as written lets through a snapshot that is `fromView` itself
   * (or `toView` itself) whenever the two endpoints differ; only a snapshot
   * equal to both endpoints fails it.
   */
  lemma SelfIdentityCheckAdmitsEndpoint(snapshot: View, other: View)
    requires snapshot != other
    ensures SelfIdentityCheckAsWritten(snapshot, snapshot, other) && !SnapshotIsDistinct(snapshot, snapshot, other)
    ensures SelfIdentityCheckAsWritten(snapshot, other, snapshot) && !SnapshotIsDistinct(snapshot, other, snapshot)
  {
  }

  // ---------------------------------------------------------------------
  // The animator
  // ---------------------------------------------------------------------

  class PropertyAnimator {
    var animations: seq<Animation>
    var completions: seq<Completion>

    constructor ()
      ensures animations == [] && completions == []
    {
      animations := [];
      completions := [];
    }

    /**
     * `addSnapshotMovingAnimation(snapshotView:from:to:isReversed:in:movingMode:)`.
     * Measures both endpoints without their transforms, prepares the
     * snapshot, records the animation block and the completion block, and
     * returns the snapshot.
     */
    method AddSnapshotMovingAnimation(
      snapshot: View, fromView: View, toView: View, isReversed: bool, container: View, mode: MovingMode, convert: Convert)
      returns (r: View)
      requires var from := fromView.FrameIgnoringTransform(container, convert);
        && (PreparationMakesTransform(mode, isReversed, snapshot.superview == container) ==> NonDegenerate(from))
        && (TargetMakesTransform(mode, isReversed) ==> NonDegenerate(from))
      modifies this, snapshot, fromView, toView
      ensures r == snapshot
      ensures var from := old(fromView.FrameIgnoringTransform(container, convert));
        var to := old(toView.FrameIgnoringTransform(container, convert));
        && snapshot.Geometry() == PreparedLayout(mode, isReversed, old(snapshot.superview) == container, old(snapshot.Geometry()), from, to)
        && animations == old(animations) + [Animate(snapshot, SnapshotTarget(mode, isReversed, from, to))]
      ensures snapshot.superview == container && snapshot.animationKeys == old(snapshot.animationKeys)
      ensures completions == old(completions) + [RemoveWhenIdle(snapshot)]
      ensures fromView != snapshot ==> unchanged(fromView)
      ensures toView != snapshot ==> unchanged(toView)
      ensures SnapshotIsDistinct(snapshot, fromView, toView) ==> unchanged(fromView, toView)
    {
      // assert(snapshotView !== fromView || snapshotView !== toView) in debug builds
      var from := fromView.RelativeFrameWithoutTransforming(container, convert);
      var to := toView.RelativeFrameWithoutTransforming(container, convert);

      match mode {
        case CenterMode =>
          if snapshot.superview != container {
            snapshot.superview := container;
            snapshot.SetFrameSize(from.size);
            if isReversed {
              snapshot.center := Center(to);
            } else {
              snapshot.center := Center(from);
            }
          }
          animations := animations + [Animate(snapshot, TargetCenter(if isReversed then Center(from) else Center(to)))];
        case FrameMode =>
          if snapshot.superview != container {
            snapshot.superview := container;
            var f := if isReversed then to else from;
            snapshot.boundsSize := f.size;
            snapshot.center := Point(MidX(f), MidY(f));
          }
          animations := animations + [Animate(snapshot, TargetFrame(if isReversed then from else to))];
        case TransformMode =>
          if snapshot.superview != container {
            snapshot.superview := container;
            if isReversed {
              snapshot.transform := MakeAffineTransform(from, to);
            } else {
              snapshot.transform := Identity;
            }
          }
          snapshot.boundsSize := from.size;
          snapshot.center := Point(MidX(from), MidY(from));
          var target := if isReversed then Identity else MakeAffineTransform(from, to);
          animations := animations + [Animate(snapshot, TargetTransform(target))];
      }

      completions := completions + [RemoveWhenIdle(snapshot)];
      r := snapshot;
    }

    /**
     * The convenience `addSnapshotMovingAnimation(makeSnapshotViewIfNeeded:...)`:
     * fetch the snapshot for (fromView, toView, container, class) from the
     * storage, creating it if needed, then set up its animation.
     */
    method AddCachedSnapshotMovingAnimation(
      storage: SnapshotStorage, typeName: string,
      fromView: View, toView: View, isReversed: bool, container: View, mode: MovingMode, convert: Convert)
      returns (r: View)
      requires var key := Key(fromView, toView, container, typeName);
        var inContainer := storage.IsHit(key) && storage.entries[key].superview == container;
        TargetMakesTransform(mode, isReversed) || PreparationMakesTransform(mode, isReversed, inContainer)
        ==> NonDegenerate(fromView.FrameIgnoringTransform(container, convert))
      modifies this, storage, storage.live, fromView, toView
      ensures var key := Key(fromView, toView, container, typeName);
        var from := old(fromView.FrameIgnoringTransform(container, convert));
        var to := old(toView.FrameIgnoringTransform(container, convert));
        && (old(storage.IsHit(key)) ==>
              && r == old(storage.entries[key])
              && storage.entries == old(storage.entries) && storage.live == old(storage.live)
              && storage.makeCount == old(storage.makeCount)
              && r.Geometry() == PreparedLayout(mode, isReversed, old(r.superview) == container, old(r.Geometry()), from, to))
        && (!old(storage.IsHit(key)) ==>
              && fresh(r) && r.typeName == typeName
              && storage.entries == old(storage.entries)[key := r] && storage.live == old(storage.live) + {r}
              && storage.makeCount == old(storage.makeCount) + 1
              && r.Geometry() == PreparedLayout(mode, isReversed, false, ZeroLayout, from, to))
        && animations == old(animations) + [Animate(r, SnapshotTarget(mode, isReversed, from, to))]
      ensures r in storage.live && r.superview == container
      ensures r.animationKeys == if old(storage.IsHit(Key(fromView, toView, container, typeName))) then old(r.animationKeys) else []
      ensures completions == old(completions) + [RemoveWhenIdle(r)]
      ensures storage.IsHit(Key(fromView, toView, container, typeName)) && storage.Object(Key(fromView, toView, container, typeName)) == Some(r)
      ensures fromView != r ==> unchanged(fromView)
      ensures toView != r ==> unchanged(toView)
      ensures SnapshotIsDistinct(r, fromView, toView) ==> unchanged(fromView, toView)
      ensures forall w :: w in old(storage.live) && w != r ==> unchanged(w)
      ensures old(storage.Valid()) ==> storage.Valid()
    {
      var view := storage.MakeSnapshotViewIfNeeded(fromView, toView, container, typeName);
      r := AddSnapshotMovingAnimation(view, fromView, toView, isReversed, container, mode, convert);
    }

    /**
     * `addMovingAnimation(from:to:sourceView:isReversed:in:)`: no snapshot;
     * the source view's own transform is animated.
     */
    method AddMovingAnimation(fromView: View, toView: View, sourceView: View, isReversed: bool, container: View, convert: Convert)
      requires var from := fromView.FrameIgnoringTransform(container, convert);
        var to := toView.FrameIgnoringTransform(container, convert);
        && (PreStepApplies(sourceView == toView, toView.IsAnimatingByPropertyAnimator(), isReversed) ==> NonDegenerate(to))
        && MovingTargetDefined(sourceView == fromView, sourceView == toView, isReversed, from, to)
      modifies this, fromView, toView
      ensures var from := old(fromView.FrameIgnoringTransform(container, convert));
        var to := old(toView.FrameIgnoringTransform(container, convert));
        && toView.transform
           == PreStepTransform(sourceView == toView, old(toView.IsAnimatingByPropertyAnimator()), isReversed, old(toView.transform), from, to)
        && animations == old(animations) + [MovingAnimation(fromView, toView, sourceView, isReversed, from, to)]
      ensures !PreStepApplies(sourceView == toView, old(toView.IsAnimatingByPropertyAnimator()), isReversed)
        ==> toView.transform == old(toView.transform)
      ensures toView.Geometry() == old(toView.Geometry()).(transform := toView.transform)
      ensures toView.superview == old(toView.superview) && toView.animationKeys == old(toView.animationKeys)
      ensures fromView != toView ==> unchanged(fromView)
      ensures completions == old(completions)
    {
      var from := fromView.RelativeFrameWithoutTransforming(container, convert);
      var to := toView.RelativeFrameWithoutTransforming(container, convert);

      if toView == sourceView {
        if !toView.IsAnimatingByPropertyAnimator() {
          if !isReversed {
            toView.transform := MakeAffineTransform(to, from);
          }
        }
      }

      var animation: Animation;
      if fromView == sourceView {
        animation := Animate(fromView, TargetTransform(if isReversed then Identity else MakeAffineTransform(from, to)));
      } else if toView == sourceView {
        animation := Animate(toView, TargetTransform(if isReversed then MakeAffineTransform(to, from) else Identity));
      } else {
        // assertionFailure("sourceView must be either fromView or toView.")
        animation := NoAnimation;
      }
      animations := animations + [animation];
    }
  }

  /** The animator drives an animation block to its end: the view takes the recorded end state. */
  method Commit(animation: Animation)
    modifies if animation.Animate? then {animation.view} else {}
    ensures animation.Animate? ==>
      && animation.view.Geometry() == ApplyTarget(old(animation.view.Geometry()), animation.target)
      && animation.view.superview == old(animation.view.superview)
      && animation.view.animationKeys == old(animation.view.animationKeys)
  {
    if animation.Animate? {
      var v := animation.view;
      match animation.target
      case TargetCenter(p) =>
        v.center := p;
      case TargetFrame(f) =>
        v.boundsSize := f.size;
        v.center := Center(f);
      case TargetTransform(t) =>
        v.transform := t;
    }
  }

  /** The completion block removes the snapshot exactly when it is still alive and no animator drives it. */
  predicate RemovesSnapshot(isAlive: bool, animationKeys: seq<string>) {
    isAlive && !HasPacingAnimation(animationKeys)
  }

  /**
   * The completion block of `addSnapshotMovingAnimation`, run when the
   * animation settles; `live` is the set of views not yet deallocated (the
   * block holds the snapshot weakly).
   */
  method RunSnapshotCompletion(completion: Completion, live: set<View>)
    modifies completion.snapshot
    ensures var s := completion.snapshot;
      && s.superview == (if old(RemovesSnapshot(s in live, s.animationKeys)) then null else old(s.superview))
      && s.Geometry() == old(s.Geometry()) && s.animationKeys == old(s.animationKeys)
    ensures old(completion.snapshot.superview) == null ==> unchanged(completion.snapshot)
  {
    var s := completion.snapshot;
    if s in live {
      if !s.IsAnimatingByPropertyAnimator() {
        s.superview := null;
      }
    }
  }

  /**
   * One whole snapshot transition: the snapshot is set up, its animation
   * block is driven to its end and its completion block runs. When the
   * snapshot is neither endpoint both endpoints come through untouched;
   * when it is one of them (which the check as written lets through), that
   * endpoint is the view the completion block removes from its superview.
   */
  method RunSnapshotTransition(
    animator: PropertyAnimator, snapshot: View, fromView: View, toView: View,
    isReversed: bool, container: View, mode: MovingMode, convert: Convert, live: set<View>)
    requires var from := fromView.FrameIgnoringTransform(container, convert);
      && (PreparationMakesTransform(mode, isReversed, snapshot.superview == container) ==> NonDegenerate(from))
      && (TargetMakesTransform(mode, isReversed) ==> NonDegenerate(from))
    modifies animator, snapshot, fromView, toView
    ensures fromView != snapshot ==> unchanged(fromView)
    ensures toView != snapshot ==> unchanged(toView)
    ensures SnapshotIsDistinct(snapshot, fromView, toView) ==> unchanged(fromView, toView)
    ensures snapshot.superview == (if RemovesSnapshot(snapshot in live, old(snapshot.animationKeys)) then null else container)
    ensures snapshot.Geometry()
         == ApplyTarget(
              PreparedLayout(mode, isReversed, old(snapshot.superview) == container, old(snapshot.Geometry()),
                old(fromView.FrameIgnoringTransform(container, convert)), old(toView.FrameIgnoringTransform(container, convert))),
              SnapshotTarget(mode, isReversed,
                old(fromView.FrameIgnoringTransform(container, convert)), old(toView.FrameIgnoringTransform(container, convert))))
  {
    var r := animator.AddSnapshotMovingAnimation(snapshot, fromView, toView, isReversed, container, mode, convert);
    Commit(animator.animations[|animator.animations| - 1]);
    RunSnapshotCompletion(animator.completions[|animator.completions| - 1], live);
  }

  // ---------------------------------------------------------------------
  // Properties of the set-up rules
  // ---------------------------------------------------------------------

  /**
   * In `.transform` mode a snapshot that is not yet in the container
   * appears, after preparation, exactly at the frame the call starts from
   * (`to` when reversed, `from` otherwise), and its animation block ends it
   * exactly at the other one.
   */
  lemma {:induction false} TransformModeMovesBetweenEndpoints(isReversed: bool, l: Layout, from: Rect, to: Rect)
    requires NonDegenerate(from) && IsStandard(from) && IsStandard(to)
    ensures var start := PreparedLayout(TransformMode, isReversed, false, l, from, to);
      var end := ApplyTarget(start, SnapshotTarget(TransformMode, isReversed, from, to));
      && IsScaleTranslate(start.transform) && IsScaleTranslate(end.transform)
      && VisualFrame(start) == (if isReversed then to else from)
      && VisualFrame(end) == (if isReversed then from else to)
  {
    var start := PreparedLayout(TransformMode, isReversed, false, l, from, to);
    var end := ApplyTarget(start, SnapshotTarget(TransformMode, isReversed, from, to));
    assert UntransformedFrame(start) == from;
    assert UntransformedFrame(end) == from;
    AppliedIdentity(from);
    AppliedMakeAffineTransformReachesTarget(from, to);
  }

  /**
   * In `.frame` mode (which never touches the transform) a snapshot without
   * a transform that is not yet in the container starts exactly at the
   * frame the call starts from and its block ends it exactly at the other.
   */
  lemma {:induction false} FrameModeMovesBetweenEndpoints(isReversed: bool, l: Layout, from: Rect, to: Rect)
    requires l.transform == Identity
    ensures var start := PreparedLayout(FrameMode, isReversed, false, l, from, to);
      var end := ApplyTarget(start, SnapshotTarget(FrameMode, isReversed, from, to));
      && start.transform == Identity && end.transform == Identity
      && VisualFrame(start) == (if isReversed then to else from)
      && VisualFrame(end) == (if isReversed then from else to)
  {
    var start := PreparedLayout(FrameMode, isReversed, false, l, from, to);
    var end := ApplyTarget(start, SnapshotTarget(FrameMode, isReversed, from, to));
    AppliedIdentity(UntransformedFrame(start));
    AppliedIdentity(UntransformedFrame(end));
    assert UntransformedFrame(start) == (if isReversed then to else from);
    assert UntransformedFrame(end) == (if isReversed then from else to);
  }

  /**
   * In `.center` mode a snapshot without a transform that is not yet in
   * the container starts centred on the endpoint the call starts from and
   * its block centres it on the other one, keeping the size of `from`
   * throughout.
   */
  lemma {:induction false} CenterModeMovesBetweenEndpoints(isReversed: bool, l: Layout, from: Rect, to: Rect)
    requires l.transform == Identity
    ensures var start := PreparedLayout(CenterMode, isReversed, false, l, from, to);
      var end := ApplyTarget(start, SnapshotTarget(CenterMode, isReversed, from, to));
      && start.transform == Identity && end.transform == Identity
      && Center(VisualFrame(start)) == Center(if isReversed then to else from)
      && Center(VisualFrame(end)) == Center(if isReversed then from else to)
      && VisualFrame(start).size == from.size == VisualFrame(end).size
  {
    var start := PreparedLayout(CenterMode, isReversed, false, l, from, to);
    var end := ApplyTarget(start, SnapshotTarget(CenterMode, isReversed, from, to));
    AppliedIdentity(UntransformedFrame(start));
    AppliedIdentity(UntransformedFrame(end));
  }

  /**
   * A snapshot already in the container (an interrupted or overlapping
   * transition reusing it) is not re-prepared in `.center` and `.frame`
   * modes, and keeps its current transform in `.transform` mode, so the new
   * animation continues from where it is.
   */
  lemma SnapshotInContainerIsNotReset(mode: MovingMode, isReversed: bool, l: Layout, from: Rect, to: Rect)
    ensures var prepared := PreparedLayout(mode, isReversed, true, l, from, to);
      && prepared.transform == l.transform
      && (mode != TransformMode ==> prepared == l)
      && (mode == TransformMode ==> UntransformedFrame(prepared) == from)
  {
  }

  /**
   * The concrete path moves the source view towards `to` when playing
   * forward and towards `from` when reversed: the transform its block
   * commits, applied to the source's own untransformed frame, lands there.
   */
  lemma {:induction false} MovingAnimationEndsAtEndpoint(
    fromView: View, toView: View, sourceView: View, isReversed: bool, from: Rect, to: Rect)
    requires sourceView == fromView || sourceView == toView
    requires MovingTargetDefined(sourceView == fromView, sourceView == toView, isReversed, from, to)
    requires IsStandard(from) && IsStandard(to)
    ensures var animation := MovingAnimation(fromView, toView, sourceView, isReversed, from, to);
      var own := if sourceView == fromView then from else to;
      && animation.Animate? && animation.view == sourceView && animation.target.TargetTransform?
      && IsScaleTranslate(animation.target.transform)
      && Applied(animation.target.transform, own) == (if isReversed then from else to)
  {
    AppliedIdentity(from);
    AppliedIdentity(to);
    if sourceView == fromView && !isReversed {
      AppliedMakeAffineTransformReachesTarget(from, to);
    } else if sourceView != fromView && isReversed {
      AppliedMakeAffineTransformReachesTarget(to, from);
    }
  }

  /**
   * The pre-step places `toView` visually at `from`, so the forward
   * animation back to the identity plays from the source position.
   */
  lemma {:induction false} PreStepStartsAtSource(current: Transform, from: Rect, to: Rect)
    requires NonDegenerate(to) && IsStandard(from) && IsStandard(to)
    ensures var t := PreStepTransform(true, false, false, current, from, to);
      IsScaleTranslate(t) && Applied(t, to) == from
  {
    AppliedMakeAffineTransformReachesTarget(to, from);
  }

  /**
   * The worked example: from {0, 0, 20, 20} to {100, 50, 40, 40} in
   * `.transform` mode. Forward, the snapshot starts at the identity and its
   * block commits {a: 2, d: 2, tx: 110, ty: 60}; reversed, it starts there
   * and its block commits the identity.
   */
  lemma TransformModeExample(l: Layout)
    ensures var from, to := Rect(Point(0.0, 0.0), Size(20.0, 20.0)), Rect(Point(100.0, 50.0), Size(40.0, 40.0));
      var t := Transform(2.0, 0.0, 0.0, 2.0, 110.0, 60.0);
      && PreparedLayout(TransformMode, false, false, l, from, to).transform == Identity
      && SnapshotTarget(TransformMode, false, from, to) == TargetTransform(t)
      && PreparedLayout(TransformMode, true, false, l, from, to).transform == t
      && SnapshotTarget(TransformMode, true, from, to) == TargetTransform(Identity)
  {
    MakeAffineTransformExample();
  }
}
