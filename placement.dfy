/**
 * The placement and anchor lifecycle of the AR painting viewer, as pure
 * transitions on the page's state.
 *
 * The page keeps its state in module-level variables that event handlers and
 * the per-frame render callback reassign. `PageState` is a snapshot of all of
 * them, and each handler is a function from the snapshot before it ran to the
 * snapshot after. The class `Session.ArSession` holds the same variables as
 * fields and is proved to follow these functions.
 *
 * The anchor part of the snapshot also records what the platform has done
 * with anchors: which createAnchor requests are still outstanding, which
 * anchors their promises resolved with, and how often `delete()` was called
 * on each. The invariant `Inv` then says that the request-id guard works:
 * no anchor is installed from a stale request, and every anchor the page
 * receives is deleted exactly once unless it is the active one.
 */
module Placement {
  import opened Geometry
  import opened Stability

  datatype Option<T> = None | Some(value: T)

  /** `placementMode`: 'none', 'surface-hit', 'surface-no-anchor', 'anchor' and 'manual-fallback'. */
  datatype Mode = Unplaced | SurfaceHit | SurfaceNoAnchor | Anchored | ManualFallback

  /** An XRAnchor as the page sees it: an opaque handle, and whether it offers `delete()`. */
  datatype Anchor = Anchor(handle: nat, hasDelete: bool)

  /**
   * An XRHitTestResult: its pose in the reference space (absent when the
   * platform gives none) and whether it offers `createAnchor()`.
   */
  datatype HitResult = HitResult(pose: Option<Pose>, hasCreateAnchor: bool)

  /**
   * What one XR frame tells the page: the hit-test results, best first, and
   * the pose of the active anchor's space (absent when it is not tracked).
   */
  datatype XrFrame = XrFrame(hitTestResults: seq<HitResult>, anchorPose: Option<Pose>)

  /** The camera's world position, world orientation and world forward direction. */
  datatype Viewer = Viewer(position: Vec3, orientation: Quat, forward: Vec3)

  /** MANUAL_PLACE_DISTANCE_METERS */
  const ManualPlaceDistance: real := 1.2
  /** RETICLE_SMOOTHING */
  const ReticleSmoothing: real := 0.22
  /** ANCHOR_POSITION_SMOOTHING */
  const AnchorPositionSmoothing: real := 0.18

  /** `Number(scaleRange.value) / 100`: the slider is in percent. */
  function ScaleFromUi(percent: real): real
  {
    percent / 100.0
  }

  /** Where the fallback puts the painting: 1.2 m along the viewer's forward direction. */
  function FallbackPosition(viewer: Viewer): Vec3
  {
    Add(viewer.position, Times(viewer.forward, ManualPlaceDistance))
  }

  /** The anchors `delete()` is called on by `if (x && typeof x.delete === 'function') x.delete()`. */
  function Released(anchor: Option<Anchor>): multiset<Anchor>
  {
    if anchor.Some? && anchor.value.hasDelete then multiset{anchor.value} else multiset{}
  }

  /** Whether an XR session is running (`renderer.xr.getSession()` is non-null) and the hit-test source. */
  datatype XrLink = XrLink(sessionActive: bool, hitTestSourceRequested: bool, hitTestSource: bool)

  /**
   * The painting: the slider's value in percent, the lock, the mode, the
   * locked pose, and the visibility of the painting and the transform its
   * matrix is composed from.
   */
  datatype PaintingState = PaintingState(
    scalePercent: real,
    placementLocked: bool,
    placementMode: Mode,
    hasLockedPlacementPose: bool,
    lockedPlacement: Pose,
    paintingVisible: bool,
    painting: Transform)

  /** The last hit and the surface-stability tracking. */
  datatype SurfaceTracking = SurfaceTracking(
    lastHitResult: Option<HitResult>,
    surfaceDetected: bool,
    surfaceStability: StabilityClass,
    surfaceStabilityScore: real,
    hasPreviousRawPose: bool,
    previousRawReticle: Pose)

  /**
   * The smoothed reticle pose, and what is drawn from it: the reticle and the
   * surface highlight (the patch and its frame, which are always shown and
   * hidden together).
   */
  datatype ReticleDisplay = ReticleDisplay(
    hasSmoothedReticlePose: bool,
    smoothedReticle: Pose,
    reticleVisible: bool,
    reticle: Pose,
    highlightVisible: bool)

  /**
   * The active anchor and the request counter, and what the platform has
   * done with anchors: the requests still outstanding, the anchors their
   * promises resolved with, and one element per call of `delete()`.
   */
  datatype AnchorBook = AnchorBook(
    activeAnchor: Option<Anchor>,
    anchorRequestId: nat,
    pendingRequests: set<nat>,
    deliveredAnchors: set<Anchor>,
    deletedAnchors: multiset<Anchor>)

  /** All the page's variables. */
  datatype PageState = PageState(
    xr: XrLink,
    placement: PaintingState,
    tracking: SurfaceTracking,
    display: ReticleDisplay,
    anchors: AnchorBook)

  /** The state the page starts in: the initial values of its variables, then `init()`'s `applyScaleFromUi()`. */
  function Initial(scalePercent: real): PageState
  {
    PageState(
      XrLink(false, false, false),
      PaintingState(scalePercent, false, Unplaced, false, IdentityPose, false,
                    Transform(Origin, Identity, ScaleFromUi(scalePercent))),
      SurfaceTracking(None, false, Unknown, 0.0, false, IdentityPose),
      ReticleDisplay(false, IdentityPose, false, IdentityPose, false),
      AnchorBook(None, 0, {}, {}, multiset{}))
  }

  // ---------------------------------------------------------------------
  // The invariant
  // ---------------------------------------------------------------------

  /**
   * The running score stays in [0, 1]; the class is 'unknown' exactly when
   * there is no previous raw pose (and the score is then 0), and otherwise it
   * is the classification of the score.
   */
  ghost predicate StabilityAgrees(t: SurfaceTracking)
  {
    && 0.0 <= t.surfaceStabilityScore <= 1.0
    && (t.surfaceStability == Unknown <==> !t.hasPreviousRawPose)
    && (!t.hasPreviousRawPose ==> t.surfaceStabilityScore == 0.0)
    && (t.hasPreviousRawPose ==> t.surfaceStability == Classify(t.surfaceStabilityScore))
  }

  /** How often `delete()` must have been called on a delivered anchor: never on the active one. */
  function ExpectedDeletions(active: Option<Anchor>, a: Anchor): nat
  {
    if active == Some(a) || !a.hasDelete then 0 else 1
  }

  /**
   * Outstanding request ids were all issued (they lie in 1..anchorRequestId),
   * the active anchor is one the platform delivered, `delete()` was only
   * called on delivered anchors, and every delivered anchor that offers
   * `delete()` and is not active was deleted exactly once.
   */
  ghost predicate AnchorsAccounted(b: AnchorBook)
  {
    && (forall id :: id in b.pendingRequests ==> 0 < id <= b.anchorRequestId)
    && (b.activeAnchor.Some? ==> b.activeAnchor.value in b.deliveredAnchors)
    && (forall a :: a in b.deletedAnchors ==> a in b.deliveredAnchors)
    && (forall a :: a in b.deliveredAnchors ==> b.deletedAnchors[a] == ExpectedDeletions(b.activeAnchor, a))
  }

  /**
   * Only a locked placement can have a current (not yet superseded) anchor
   * request, an active anchor, or a locked pose.
   */
  ghost predicate LockCovers(p: PaintingState, b: AnchorBook)
  {
    && (b.anchorRequestId in b.pendingRequests ==> p.placementLocked)
    && (b.activeAnchor.Some? ==> p.placementLocked)
    && (p.hasLockedPlacementPose ==> p.placementLocked)
  }

  /**
   * The slider value and the painting's scale are positive. This is what
   * lets `applyScaleFromUi()` recover the orientation from the painting's
   * matrix; it holds as long as the slider never reports 0 or less.
   */
  predicate ScalePositive(p: PaintingState)
  {
    0.0 < p.scalePercent && 0.0 < p.painting.scale
  }

  /** Whether an event keeps the slider positive (every event but a slider value of 0 or less). */
  predicate KeepsSliderPositive(e: Event)
  {
    e.ScaleInput? ==> 0.0 < e.percent
  }

  /** The invariant of the page. */
  ghost predicate Inv(s: PageState)
  {
    StabilityAgrees(s.tracking) && AnchorsAccounted(s.anchors) && LockCovers(s.placement, s.anchors)
  }

  // ---------------------------------------------------------------------
  // The handlers
  // ---------------------------------------------------------------------

  /**
   * `clearActiveAnchor()`: a new request id, so that every outstanding
   * request is stale, and the active anchor (if any) deleted and dropped.
   */
  function ClearActiveAnchor(b: AnchorBook): AnchorBook
  {
    b.(anchorRequestId := b.anchorRequestId + 1,
       deletedAnchors := b.deletedAnchors + Released(b.activeAnchor),
       activeAnchor := None)
  }

  /**
   * The resets shared by the session handlers, "place again" and a frame
   * without a hit: no last hit, no detected surface, and the stability
   * tracking back to 'unknown' with no previous raw pose.
   */
  function SurfaceLost(t: SurfaceTracking): SurfaceTracking
  {
    t.(lastHitResult := None, surfaceDetected := false,
       surfaceStability := Unknown, surfaceStabilityScore := 0.0, hasPreviousRawPose := false)
  }

  /** The 'sessionstart' handler. */
  function SessionStarted(s: PageState): PageState
  {
    s.(xr := s.xr.(sessionActive := true),
       anchors := ClearActiveAnchor(s.anchors),
       tracking := SurfaceLost(s.tracking),
       display := s.display.(hasSmoothedReticlePose := false, highlightVisible := false),
       placement := s.placement.(hasLockedPlacementPose := false, placementMode := Unplaced,
                                 placementLocked := false, paintingVisible := false))
  }

  /**
   * The 'sessionend' handler. As written it leaves `placementLocked`, the
   * painting's visibility and the reticle alone.
   */
  function SessionEnded(s: PageState): PageState
  {
    s.(xr := XrLink(false, false, false),
       anchors := ClearActiveAnchor(s.anchors),
       tracking := SurfaceLost(s.tracking),
       display := s.display.(hasSmoothedReticlePose := false, highlightVisible := false),
       placement := s.placement.(hasLockedPlacementPose := false, placementMode := Unplaced))
  }

  /**
   * The "place again" button. As written it keeps `hasSmoothedReticlePose`,
   * so the first hit after it is blended with the old smoothed pose.
   */
  function PlacedAgain(s: PageState): PageState
  {
    s.(anchors := ClearActiveAnchor(s.anchors),
       tracking := SurfaceLost(s.tracking),
       display := s.display.(highlightVisible := false),
       placement := s.placement.(hasLockedPlacementPose := false, placementMode := Unplaced,
                                 placementLocked := false, paintingVisible := false))
  }

  /** `applyScaleFromUi()`: the painting keeps its position and orientation and takes the slider's scale. */
  function ScaleApplied(p: PaintingState): PaintingState
  {
    p.(painting := p.painting.(scale := ScaleFromUi(p.scalePercent)))
  }

  /** The scale slider's 'input' event: a new slider value, then `applyScaleFromUi()`. */
  function ScaleChanged(s: PageState, percent: real): PageState
  {
    s.(placement := ScaleApplied(s.placement.(scalePercent := percent)))
  }

  /**
   * `tryCreateAnchorFromHitResult()`: with a last hit result that offers
   * `createAnchor()`, the next request id is taken and that request is left
   * outstanding (its id is returned, as the promise captures it); otherwise
   * the mode becomes 'surface-no-anchor'.
   */
  function TryCreateAnchor(s: PageState): (PageState, Option<nat>)
  {
    var hit := s.tracking.lastHitResult;
    if hit.None? || !hit.value.hasCreateAnchor then
      (s.(placement := s.placement.(placementMode := SurfaceNoAnchor)), None)
    else
      var requestId := s.anchors.anchorRequestId + 1;
      (s.(anchors := s.anchors.(anchorRequestId := requestId,
                                pendingRequests := s.anchors.pendingRequests + {requestId})),
       Some(requestId))
  }

  /**
   * `placePaintingFromReticle()`: the painting and the locked pose take the
   * reticle's pose (its matrix has scale 1), the slider's scale is applied,
   * and an anchor is tried.
   */
  function PlacedFromReticle(s: PageState): (PageState, Option<nat>)
  {
    var reticle := s.display.reticle;
    var placed := s.placement.(
      placementMode := SurfaceHit,
      paintingVisible := true,
      painting := Transform(reticle.position, reticle.orientation, 1.0),
      lockedPlacement := reticle,
      hasLockedPlacementPose := true);
    TryCreateAnchor(s.(placement := ScaleApplied(placed)))
  }

  /**
   * `placePaintingInFrontOfCamera()`: the painting and the locked pose are
   * put 1.2 m in front of the viewer with the viewer's orientation and the
   * slider's scale. Anchors are not touched.
   */
  function PlacedInFront(p: PaintingState, viewer: Viewer): PaintingState
  {
    var position := FallbackPosition(viewer);
    p.(placementMode := ManualFallback,
       paintingVisible := true,
       painting := Transform(position, viewer.orientation, ScaleFromUi(p.scalePercent)),
       lockedPlacement := Pose(position, viewer.orientation),
       hasLockedPlacementPose := true)
  }

  /**
   * `placePaintingNow()`, which the XR 'select' event calls directly: from
   * the reticle when it is visible, in front of the camera otherwise, and
   * the placement is locked either way.
   */
  function PlacedNow(s: PageState, viewer: Viewer): (PageState, Option<nat>)
  {
    if s.display.reticleVisible then
      var (placed, request) := PlacedFromReticle(s);
      (placed.(placement := placed.placement.(placementLocked := true)), request)
    else
      (s.(placement := PlacedInFront(s.placement, viewer).(placementLocked := true)), None)
  }

  /** The "place now" button: without a session it only reports, otherwise it is `placePaintingNow()`. */
  function PlaceNowPressed(s: PageState, viewer: Viewer): (PageState, Option<nat>)
  {
    if !s.xr.sessionActive then (s, None) else PlacedNow(s, viewer)
  }

  /**
   * The createAnchor promise of request `requestId` resolves with `anchor`
   * (absent for a null result), as far as the anchors are concerned. A stale
   * request or a null result only deletes the anchor it got; the current
   * request with a real anchor runs `clearActiveAnchor()` and installs it.
   */
  function AnchorResolved(b: AnchorBook, requestId: nat, anchor: Option<Anchor>): AnchorBook
  {
    var settled := b.(
      pendingRequests := b.pendingRequests - {requestId},
      deliveredAnchors := if anchor.Some? then b.deliveredAnchors + {anchor.value} else b.deliveredAnchors);
    if requestId != b.anchorRequestId || anchor.None? then
      settled.(deletedAnchors := settled.deletedAnchors + Released(anchor))
    else
      ClearActiveAnchor(settled).(activeAnchor := anchor)
  }

  /** The resolution handler: the anchors as above, and the mode 'anchor' once one is installed. */
  function Resolved(s: PageState, requestId: nat, anchor: Option<Anchor>): PageState
  {
    var installs := requestId == s.anchors.anchorRequestId && anchor.Some?;
    s.(anchors := AnchorResolved(s.anchors, requestId, anchor),
       placement := if installs then s.placement.(placementMode := Anchored) else s.placement)
  }

  /** The createAnchor promise of request `requestId` rejects: the handler does not compare the id. */
  function Rejected(s: PageState, requestId: nat): PageState
  {
    s.(anchors := s.anchors.(pendingRequests := s.anchors.pendingRequests - {requestId}),
       placement := s.placement.(placementMode := SurfaceNoAnchor))
  }

  /** The requestHitTestSource promise resolves (the callback does not check that the session is still on). */
  function HitTestSourceReady(s: PageState): PageState
  {
    s.(xr := s.xr.(hitTestSource := true))
  }

  /**
   * `updateSurfaceStability()` on a raw pose: the first sample after a gap
   * sets the score to 1 and the class to 'good'; later samples blend the
   * score toward the instant score of the position and angle deltas from the
   * previous raw pose, and classify it.
   */
  function StabilityUpdated(m: Metrics, t: SurfaceTracking, raw: Pose): SurfaceTracking
  {
    if !t.hasPreviousRawPose then
      t.(previousRawReticle := raw, hasPreviousRawPose := true,
         surfaceStabilityScore := 1.0, surfaceStability := Good)
    else
      var previous := t.previousRawReticle;
      var instant := InstantScore(m.distance(raw.position, previous.position),
                                  m.angle(raw.orientation, previous.orientation));
      var score := BlendScore(t.surfaceStabilityScore, instant);
      t.(previousRawReticle := raw, surfaceStabilityScore := score, surfaceStability := Classify(score))
  }

  /**
   * The reticle after a hit with raw pose `raw`: the smoothed pose is the
   * raw pose on the first sample after a gap and otherwise one smoothing
   * step toward it, and the reticle and the highlight show it.
   */
  function ReticleShown(m: Metrics, d: ReticleDisplay, raw: Pose): ReticleDisplay
  {
    var smoothed := if d.hasSmoothedReticlePose then SmoothPose(m, d.smoothedReticle, raw, ReticleSmoothing) else raw;
    ReticleDisplay(true, smoothed, true, smoothed, true)
  }

  /**
   * A render tick with a hit while unlocked. The hit becomes `lastHitResult`;
   * when it has a pose, the surface is detected, the stability is updated
   * and the reticle is shown.
   */
  function HitFrame(m: Metrics, s: PageState, hit: HitResult): PageState
  {
    var withHit := s.tracking.(lastHitResult := Some(hit));
    if hit.pose.None? then s.(tracking := withHit)
    else
      s.(tracking := StabilityUpdated(m, withHit.(surfaceDetected := true), hit.pose.value),
         display := ReticleShown(m, s.display, hit.pose.value))
  }

  /**
   * A render tick without a hit while unlocked: the reticle and the highlight
   * are hidden and all continuity is dropped (last hit, detection, stability,
   * previous raw pose, smoothed pose), so that the next hit starts afresh.
   */
  function NoHitFrame(s: PageState): PageState
  {
    s.(tracking := SurfaceLost(s.tracking),
       display := s.display.(reticleVisible := false, highlightVisible := false, hasSmoothedReticlePose := false))
  }

  /**
   * The painting during a locked frame. With an active anchor whose pose is
   * known and a locked pose, the locked position moves 0.18 of the way
   * toward the anchor's position, the locked orientation is kept, and the
   * painting is recomposed from them with the slider's current scale.
   */
  function FollowedAnchor(p: PaintingState, anchored: bool, anchorPose: Option<Pose>): PaintingState
  {
    if anchored && anchorPose.Some? && p.hasLockedPlacementPose then
      var position := LerpVec(p.lockedPlacement.position, anchorPose.value.position, AnchorPositionSmoothing);
      var orientation := p.lockedPlacement.orientation;
      p.(lockedPlacement := Pose(position, orientation),
         painting := Transform(position, orientation, ScaleFromUi(p.scalePercent)))
    else
      p
  }

  /** A render tick while locked: the reticle and the highlight are hidden, and the painting follows its anchor. */
  function LockedFrame(s: PageState, anchorPose: Option<Pose>): PageState
  {
    s.(display := s.display.(reticleVisible := false, highlightVisible := false),
       placement := FollowedAnchor(s.placement, s.anchors.activeAnchor.Some?, anchorPose))
  }

  /**
   * One call of `render()`. Without an XR frame or a session nothing
   * changes. Otherwise the hit-test source is marked as requested, and then
   * the tick is a hit frame (on the first result) or a no-hit frame when
   * unlocked with a source, a locked frame when locked, and nothing more when
   * unlocked without a source yet.
   */
  function Rendered(m: Metrics, s: PageState, frame: Option<XrFrame>): PageState
  {
    if frame.None? || !s.xr.sessionActive then s
    else
      var requested := s.(xr := s.xr.(hitTestSourceRequested := true));
      var results := frame.value.hitTestResults;
      if s.xr.hitTestSource && !s.placement.placementLocked then
        if |results| > 0 then HitFrame(m, requested, results[0]) else NoHitFrame(requested)
      else if s.placement.placementLocked then
        LockedFrame(requested, frame.value.anchorPose)
      else
        requested
  }

  // ---------------------------------------------------------------------
  // Sequences of events
  // ---------------------------------------------------------------------

  /**
   * Everything that can happen to the page: the session events, the buttons
   * and the slider, the XR 'select' event, the settling of a createAnchor
   * promise, the arrival of the hit-test source, and a render tick.
   */
  datatype Event =
    | SessionStart
    | SessionEnd
    | PlaceAgainClick
    | ScaleInput(percent: real)
    | Select(viewer: Viewer)
    | PlaceNowClick(viewer: Viewer)
    | AnchorResolve(requestId: nat, anchor: Option<Anchor>)
    | AnchorReject(requestId: nat)
    | HitTestSourceResolve
    | RenderTick(frame: Option<XrFrame>)

  /** The state after one event. */
  function Step(m: Metrics, s: PageState, e: Event): PageState
  {
    match e
    case SessionStart => SessionStarted(s)
    case SessionEnd => SessionEnded(s)
    case PlaceAgainClick => PlacedAgain(s)
    case ScaleInput(percent) => ScaleChanged(s, percent)
    case Select(viewer) => PlacedNow(s, viewer).0
    case PlaceNowClick(viewer) => PlaceNowPressed(s, viewer).0
    case AnchorResolve(requestId, anchor) => Resolved(s, requestId, anchor)
    case AnchorReject(requestId) => Rejected(s, requestId)
    case HitTestSourceResolve => HitTestSourceReady(s)
    case RenderTick(frame) => Rendered(m, s, frame)
  }

  /** The state after a sequence of events, first to last. */
  function Run(m: Metrics, s: PageState, es: seq<Event>): PageState
    decreases |es|
  {
    if |es| == 0 then s else Run(m, Step(m, s, es[0]), es[1..])
  }
}
