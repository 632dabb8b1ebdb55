# MatchedTransition in Dafny

A model of the matched ("shared element") transition engine of MatchedTransition,
the `UIViewPropertyAnimator` extension in `MatchedTransition/MatchedTransitionAnimator.swift`.
It animates between a *from* view and a *to* view. It can use a snapshot view placed in a
container, or it can animate the source view itself. The model has four modules:

- `Graphics` (graphics.dfy): `CGRect`, `CGAffineTransform` and `makeCGAffineTransform(from:to:)`.
  `CGFloat` is `real`, so the arithmetic is exact. `width` and `height` are the standardized
  (absolute) sizes, as in Core Graphics. A transform is applied about the view's centre, which
  is UIKit's default anchor point (`Applied`).
- `Views` (views.dfy): a `View` class. Its fields are the superview, the bounds size, the centre,
  the transform, the layer's animation keys, and a constant class name. The module also holds
  the `isAnimatingByPropertyAnimator` key search and the save / identity / measure / restore
  measurement `relativeFrameWithoutTransforming`. UIKit's `convert(bounds, to:)` is a function
  parameter (`Convert`). It receives the view's layout with the identity transform, plus its
  superview.
- `SnapshotCache` (snapshot_cache.dfy): the global `_snapshotStorage`. The storage is an object
  passed in explicitly. Its key is (from view, to view, container view, snapshot class name),
  compared by object identity. Weak values are a map plus the set of views still alive. A ghost
  counter counts calls to `make`.
- `Animator` (animator.dfy): a `PropertyAnimator` class that records each animation block and
  each completion block. An animation block is the view it changes plus the end state it
  commits. A completion block is the snapshot it may remove. Pure functions give the layout
  after preparation (`PreparedLayout`), the end state of a snapshot block (`SnapshotTarget`),
  and the concrete path's pre-step and block (`PreStepTransform`, `MovingAnimation`).
  The methods are proved against these functions, and lemmas state where the views start and
  end.

## Model

| member | source | states |
|---|---|---|
| `Graphics.Center` | MatchedTransition/MatchedTransitionAnimator.swift:419-421 | the centre lies between the standardized edges and is equally far from both, in x and in y |
| `Graphics.MakeAffineTransform` | MatchedTransition/MatchedTransitionAnimator.swift:403-413 | for a source with non-zero size, the result has b = c = 0, scales the source's width and height to the target's, and moves the source's centre onto the target's centre |
| `Graphics.MakeAffineTransformIsUnique` | MatchedTransition/MatchedTransitionAnimator.swift:403-413 | a transform maps `from` onto `to` (no shear, sizes scaled, centres matched) if and only if it equals `makeCGAffineTransform(from, to)` |
| `Graphics.MakeAffineTransformOfSelfIsIdentity` | MatchedTransition/MatchedTransitionAnimator.swift:403-413 | mapping a non-degenerate rect onto itself gives the identity |
| `Graphics.MakeAffineTransformSwappedIsInverse` | MatchedTransition/MatchedTransitionAnimator.swift:403-413 | swapping the arguments gives reciprocal a and d and negated tx and ty |
| `Graphics.AppliedMakeAffineTransformReachesTarget` | MatchedTransition/MatchedTransitionAnimator.swift:403-413 | a view whose untransformed frame is `from`, given `make(from, to)`, appears exactly at `to` |
| `Graphics.RoundTripReturnsToSource` | MatchedTransition/MatchedTransitionAnimator.swift:403-413 | applying `make(from, to)` and then `make(to, from)` returns the frame to `from` |
| `Graphics.MakeAffineTransformExample` | MatchedTransition/MatchedTransitionAnimator.swift:403-413 | from {0,0,20,20} to {100,50,40,40} gives a = d = 2, b = c = 0, tx = 110, ty = 60 |
| `Views.HasPrefix` | MatchedTransition/MatchedTransitionAnimator.swift:52 | the character-by-character prefix test agrees with sequence prefix |
| `Views.HasPacingAnimation` | MatchedTransition/MatchedTransitionAnimator.swift:50-54 | true exactly when some animation key starts with "UIPacingAnimationForAnimatorsKey" (no keys: false) |
| `Views.View.RelativeFrameWithoutTransforming` | MatchedTransition/MatchedTransitionAnimator.swift:59-65 | the result is `convert` of the view's bounds size and centre with the identity transform, so it does not depend on the transform on entry; the view, transform included, is left exactly as it was |
| `Views.View.SetFrameSize` | MatchedTransition/MatchedTransitionAnimator.swift:134 | `frame.size = s` keeps the frame origin: the untransformed frame becomes the old origin with size `s`; transform, superview and keys are unchanged |
| `SnapshotCache.SnapshotStorage.constructor` | MatchedTransition/MatchedTransitionAnimator.swift:17 | the storage starts empty, with no call to `make` yet |
| `SnapshotCache.SnapshotStorage.MakeSnapshotViewIfNeeded` | MatchedTransition/MatchedTransitionAnimator.swift:19-46 | a live entry of the requested class is returned, with storage and `make` count unchanged; a missing or expired entry, or one that fails the cast, calls `make` once and overwrites the key with the fresh view; the result is always live and of the requested class, and a lookup of the key afterwards finds it; stored entries keep their class |
| `SnapshotCache.SnapshotStorage.MakeAndStore` | MatchedTransition/MatchedTransitionAnimator.swift:30-34 | one call to `make`; its fresh view is stored under the key and returned; afterwards `object(forKey:)` finds it under that key, and the lookup of every other key is unchanged |
| `SnapshotCache.SnapshotStorage.Release` | MatchedTransition/MatchedTransitionAnimator.swift:17 | a deallocated view leaves the live set; the table keeps its entries, but `object(forKey:)` now returns nil for every key that held the view, and the lookup of every other key is unchanged |
| `SnapshotCache.SnapshotStorage.LiveEntryCasts` | MatchedTransition/MatchedTransitionAnimator.swift:36-43 | in a storage whose entries it made itself, every live entry casts to the class its key names, so the failed-cast branch is never taken |
| `SnapshotCache.RequestReleaseRequest` | MatchedTransition/MatchedTransitionAnimator.swift:26-45 | two requests for one key give the same view; after it is released, a third request gives a new view; `make` runs once more than it did before the first request, or twice if the first request missed |
| `Animator.PropertyAnimator.AddSnapshotMovingAnimation` | MatchedTransition/MatchedTransitionAnimator.swift:107-287 | both endpoints are measured without transforms and then left unchanged unless one is the snapshot; the snapshot ends up in the container with the layout `PreparedLayout` gives for its mode, direction and former membership; exactly one animation block (`SnapshotTarget`) and one completion block are recorded; the snapshot is returned |
| `Animator.PropertyAnimator.AddCachedSnapshotMovingAnimation` | MatchedTransition/MatchedTransitionAnimator.swift:77-104 | the snapshot comes from the storage: the live entry without calling `make`, leaving the table and the live set as they were, or a fresh view made once, stored under the key and added to the live set; it is then prepared and animated as above, starting from a zero frame when fresh; afterwards the key finds it; the snapshot keeps its animation keys on a hit and has none when fresh; `fromView` and `toView` are unchanged unless one of them is the snapshot, and so is every other live view |
| `Animator.PropertyAnimator.AddMovingAnimation` | MatchedTransition/MatchedTransitionAnimator.swift:289-401 | `toView`'s transform becomes `make(to, from)` only when it is the source, is not animating, and the call is not reversed; otherwise it is unchanged; one block is recorded: `fromView` to identity or `make(from, to)`, `toView` to `make(to, from)` or identity, or no change for any other source; no completion block is added |
| `Animator.Commit` | MatchedTransition/MatchedTransitionAnimator.swift:154-272 | when the controller commits an animation block, the view takes the block's centre, frame or transform, and nothing else about it changes |
| `Animator.RunSnapshotTransition` | MatchedTransition/MatchedTransitionAnimator.swift:107-287 | over a whole snapshot transition (set-up, block committed, completion run), the snapshot ends at the block's end state applied to its prepared layout and is removed exactly when it is alive and not animating; every endpoint that is not the snapshot is untouched (both, when the snapshot is neither), and an endpoint that is the snapshot is the view removed |
| `Animator.RunSnapshotCompletion` | MatchedTransition/MatchedTransitionAnimator.swift:276-284 | the snapshot leaves its superview exactly when it is still alive and no key starts with the pacing prefix; otherwise it is untouched; on an already removed snapshot the block changes nothing |
| `Animator.TransformModeMovesBetweenEndpoints` | MatchedTransition/MatchedTransitionAnimator.swift:229-272 | in `.transform` mode, a snapshot not yet in the container is shown exactly at `to` after preparation when reversed, and at `from` otherwise; its block ends it exactly at the other frame |
| `Animator.FrameModeMovesBetweenEndpoints` | MatchedTransition/MatchedTransitionAnimator.swift:172-227 | in `.frame` mode, a snapshot not yet in the container starts exactly at `to` when reversed and at `from` otherwise; its block ends it exactly at the other frame; its transform stays the identity |
| `Animator.CenterModeMovesBetweenEndpoints` | MatchedTransition/MatchedTransitionAnimator.swift:125-170 | in `.center` mode, a snapshot not yet in the container starts centred on `to` when reversed and on `from` otherwise; its block centres it on the other frame; its size stays `from`'s throughout |
| `Animator.SnapshotInContainerIsNotReset` | MatchedTransition/MatchedTransitionAnimator.swift:124-256 | a snapshot already in the container keeps its transform; in `.center` and `.frame` modes its layout is untouched, and in `.transform` mode its untransformed frame is reset to `from` |
| `Animator.MovingAnimationEndsAtEndpoint` | MatchedTransition/MatchedTransitionAnimator.swift:365-397 | when the source is `fromView` or `toView`, and the frame a transform is divided by (only on the paths that divide) is non-degenerate, the block animates that view's transform, and its end transform places it at `to` when playing forward and at `from` when reversed |
| `Animator.PreStepStartsAtSource` | MatchedTransition/MatchedTransitionAnimator.swift:354-363 | the pre-step transform shows `toView` exactly at the `from` frame |
| `Animator.TransformModeExample` | MatchedTransition/MatchedTransitionAnimator.swift:229-272 | from {0,0,20,20} to {100,50,40,40}: playing forward, the snapshot starts at identity and its block commits {2,0,0,2,110,60}; reversed, it starts at that transform and the block commits identity |
| `Animator.SelfIdentityCheckAdmitsEndpoint` | MatchedTransition/MatchedTransitionAnimator.swift:116-119 | the check as written passes a snapshot that is `fromView` (or `toView`) whenever the two endpoints differ |

## Left out

- Interpolation, timing, scrubbing, `startAnimation`, pausing and reversal belong to `UIViewPropertyAnimator`. Only the recorded end state (`Commit`) and the completion rule are modelled.
- `convert(_:to:)` is a function parameter of the view's layout and superview. The rest of the view tree (ancestors' geometry, the bounds origin) is fixed while the model runs and is not represented.
- `addSubview` and `removeFromSuperview` are modelled as assignments to the child's `superview` field. The container's own `subviews` list is not represented.
- The debug-only checks do not change what a release build does, so they are comments: `assertionFailure` at lines 41, 306, 342, 350 and 394; the `subviews.contains` and `isDescendant` assertions at lines 157-158, 163-164, 215-216 and 221-222; and the identity check at lines 116-119 (see Findings).
- The `.center` and `.frame` branches of `addMovingAnimation` (lines 302-352) are not modelled. `_movingMode` is fixed to `.transform` at line 300, so they are unreachable. The commented-out `Key` struct (lines 8-15) is not modelled either.
- The storage key is a string built from `ObjectIdentifier` values and a type name. It is modelled as a tuple of object references and a class name. Reuse of an identifier after a view is deallocated is not modelled.
- The `as? SnapshotView` cast is modelled as exact equality of class names. Subclasses are not modelled.
- `make` is modelled as the creation of a fresh, detached view of the requested class with a zero frame. Any other set-up the closure performs is not modelled.
- Weak references: deallocation is an explicit `Release` that removes the view from the live set. NSMapTable's own purging of expired entries is not modelled; they simply read as absent.
- `Graphics.MakeAffineTransform`, `Animator.PropertyAnimator.AddSnapshotMovingAnimation`, `Animator.PropertyAnimator.AddCachedSnapshotMovingAnimation` and `Animator.PropertyAnimator.AddMovingAnimation` require a non-zero width and height for each frame that a transform is divided by, and only on the paths where that division happens (for the cached overload, whether the snapshot is already in the container is decided from the storage's live entry for the key). With `CGFloat`, a zero size gives infinities or NaN rather than an error; `real` division cannot express that.
- `Graphics.AppliedMakeAffineTransformReachesTarget`, `Graphics.RoundTripReturnsToSource`, `Animator.TransformModeMovesBetweenEndpoints`, `Animator.MovingAnimationEndsAtEndpoint` and `Animator.PreStepStartsAtSource` assume standardized (non-negative) frames, which is how UIKit reports converted frames. For negative sizes, `width` and `height` are absolute values, so a scaled size matches only in magnitude.
- `Animator.FrameModeMovesBetweenEndpoints` and `Animator.CenterModeMovesBetweenEndpoints` assume the snapshot has no transform. Those modes never set one, but the storage key does not include the moving mode (lines 26-28): a snapshot still alive after a `.transform` transition keeps `make(from, to)` when a `.center` or `.frame` request for the same views reuses it, and then it appears scaled about its centre.
- The snapshot path sets `frame` only through `frame = r` (lines 217, 223) and `frame.size = s` (line 134). These are modelled as if the transform were the identity, which is the only case UIKit defines.
- `MatchedTransition/AnimationDebugging.swift` (the slow-motion factor for debugging), the demo app and `Package.swift` are not part of this model.
- Concatenating `make(from, to)` = (a, 0, 0, d, tx, ty) and then `make(to, from)` as matrices gives the scales 1 and the translation (tx/a − tx, ty/d − ty). So the matrix product is the identity only when, on each axis, the scale is 1 or the two centres coincide; UIKit applies transforms about the view's centre, so this product is not what moves the view. What is proved instead is that the scales are reciprocal, the translations are negated, and applying one after the other returns the frame to `from`.
- `relativeFrameWithoutTransforming` neither hides the view nor disables implicit animations while it measures, so the model does neither.
- `Views.HasPrefix` compares characters one by one. Swift's `hasPrefix` compares grapheme clusters under canonical equivalence, so a key that continues the pacing prefix with a combining mark has the prefix here but not in Swift. UIKit's animation keys are ASCII, where the two agree.
- Threading is not modelled: all calls are on the main thread, one at a time.

## Findings

| source | as written | input that shows it | evidently intended | confidence | as-written member | corrected member |
|---|---|---|---|---|---|---|
| MatchedTransition/MatchedTransitionAnimator.swift:116-119 | `snapshotView !== fromView \|\| snapshotView !== toView` fails only when the snapshot is both endpoints | `snapshotView === fromView` with a different `toView`: the check passes. The snapshot path then prepares, moves and finally removes `fromView` itself from its superview | `snapshotView !== fromView && snapshotView !== toView`, as the message ("another instance from fromView and toView") says | medium, not executed | `Animator.SelfIdentityCheckAdmitsEndpoint` (and `Animator.RunSnapshotTransition`, whose removal clause then applies to the endpoint itself) | `Animator.RunSnapshotTransition`, which proves both endpoints untouched over the whole transition when `SnapshotIsDistinct` holds (as do `Animator.PropertyAnimator.AddSnapshotMovingAnimation` and `Animator.PropertyAnimator.AddCachedSnapshotMovingAnimation` for the set-up) |
