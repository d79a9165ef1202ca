/**
 * The page's variables as one object whose handlers update them in place.
 *
 * The variables are grouped as in `Placement.PageState`: the XR link, the
 * painting, the surface tracking and the reticle display are each one field
 * holding a record, and the anchor bookkeeping is spread over the two
 * variables the page has (`activeAnchor`, `anchorRequestId`) and three ghost
 * fields recording what the platform has done. Each method performs the
 * assignments of the code it models in the same order and is proved to end
 * in the state the matching transition of `Placement` describes; each event
 * handler is also proved to keep `Valid()`. The properties of the
 * transitions are the lemmas of `Lifecycle`.
 */
module Session {
  import opened Geometry
  import opened Stability
  import opened Placement
  import opened Lifecycle

  class ArSession {
    /** `distanceTo`, `angleTo` and `slerp`, as the page's three.js provides them. */
    const metrics: Metrics

    var xr: XrLink
    var placement: PaintingState
    var tracking: SurfaceTracking
    var display: ReticleDisplay
    var activeAnchor: Option<Anchor>
    var anchorRequestId: nat
    /** The createAnchor requests whose promises have not settled yet. */
    ghost var pendingRequests: set<nat>
    /** Every anchor a createAnchor promise has resolved with. */
    ghost var deliveredAnchors: set<Anchor>
    /** One element per call of `delete()` on an anchor. */
    ghost var deletedAnchors: multiset<Anchor>

    /** The object's variables as a `PageState` snapshot. */
    ghost function State(): PageState
      reads this
    {
      PageState(xr, placement, tracking, display,
        AnchorBook(activeAnchor, anchorRequestId, pendingRequests, deliveredAnchors, deletedAnchors))
    }

    ghost predicate Valid()
      reads this
    {
      Lawful(metrics) && Inv(State())
    }

    /** The page's initial variables, then `init()`'s call of `applyScaleFromUi()`. */
    constructor (metrics: Metrics, scalePercent: real)
      requires Lawful(metrics)
      ensures Valid()
      ensures State() == Initial(scalePercent)
    {
      this.metrics := metrics;
      xr := XrLink(false, false, false);
      placement := PaintingState(scalePercent, false, Unplaced, false, IdentityPose, false,
                                 Transform(Origin, Identity, 1.0));
      tracking := SurfaceTracking(None, false, Unknown, 0.0, false, IdentityPose);
      display := ReticleDisplay(false, IdentityPose, false, IdentityPose, false);
      activeAnchor := None;
      anchorRequestId := 0;
      pendingRequests := {};
      deliveredAnchors := {};
      deletedAnchors := multiset{};
      new;
      ApplyScaleFromUi();
      InitialSatisfiesInv(scalePercent);
    }

    /**
     * `clearActiveAnchor()`.
     *
     * An internal step of a handler, not an event of its own: it does not
     * promise `Valid()`, and is only called by the handlers that do.
     */
    method ClearActiveAnchor()
      modifies this
      ensures State() == old(State()).(anchors := Placement.ClearActiveAnchor(old(State()).anchors))
    {
      anchorRequestId := anchorRequestId + 1;
      if activeAnchor.Some? && activeAnchor.value.hasDelete {
        deletedAnchors := deletedAnchors + multiset{activeAnchor.value};
      }
      activeAnchor := None;
    }

    /** The 'sessionstart' handler. */
    method SessionStart()
      requires Valid()
      modifies this
      ensures Valid()
      ensures State() == SessionStarted(old(State()))
    {
      SessionStartedKeepsInv(State());
      ClearActiveAnchor();
      tracking := tracking.(lastHitResult := None);
      display := display.(hasSmoothedReticlePose := false);
      placement := placement.(hasLockedPlacementPose := false, placementMode := Unplaced);
      tracking := tracking.(surfaceDetected := false, surfaceStability := Unknown,
                            surfaceStabilityScore := 0.0, hasPreviousRawPose := false);
      placement := placement.(placementLocked := false, paintingVisible := false);
      display := display.(highlightVisible := false);
      xr := xr.(sessionActive := true);
    }

    /** The 'sessionend' handler, which also forgets the hit-test source. */
    method SessionEnd()
      requires Valid()
      modifies this
      ensures Valid()
      ensures State() == SessionEnded(old(State()))
    {
      SessionEndedKeepsInv(State());
      ClearActiveAnchor();
      tracking := tracking.(lastHitResult := None);
      display := display.(hasSmoothedReticlePose := false);
      placement := placement.(hasLockedPlacementPose := false, placementMode := Unplaced);
      tracking := tracking.(surfaceDetected := false, surfaceStability := Unknown,
                            surfaceStabilityScore := 0.0, hasPreviousRawPose := false);
      xr := XrLink(false, false, false);
      display := display.(highlightVisible := false);
    }

    /** The "place again" button. */
    method PlaceAgain()
      requires Valid()
      modifies this
      ensures Valid()
      ensures State() == PlacedAgain(old(State()))
    {
      PlacedAgainKeepsInv(State());
      ClearActiveAnchor();
      tracking := tracking.(lastHitResult := None);
      placement := placement.(hasLockedPlacementPose := false, placementMode := Unplaced);
      tracking := tracking.(surfaceDetected := false, surfaceStability := Unknown,
                            surfaceStabilityScore := 0.0, hasPreviousRawPose := false);
      placement := placement.(placementLocked := false, paintingVisible := false);
      display := display.(highlightVisible := false);
    }

    /**
     * `applyScaleFromUi()`: the painting's position and orientation are kept,
     * its scale replaced.
     *
     * An internal step of a handler, not an event of its own: it does not
     * promise `Valid()`, and is only called by the handlers that do.
     */
    method ApplyScaleFromUi()
      modifies this
      ensures State() == old(State()).(placement := ScaleApplied(old(State()).placement))
    {
      var scale := ScaleFromUi(placement.scalePercent);
      var position, orientation := placement.painting.position, placement.painting.orientation;
      placement := placement.(painting := Transform(position, orientation, scale));
    }

    /** The scale slider's 'input' event with the slider now at `percent`. */
    method ScaleInput(percent: real)
      requires Valid()
      modifies this
      ensures Valid()
      ensures State() == ScaleChanged(old(State()), percent)
    {
      ScaleChangedKeepsInv(State(), percent);
      placement := placement.(scalePercent := percent);
      ApplyScaleFromUi();
    }

    /**
     * `tryCreateAnchorFromHitResult()`. The id of the request it leaves
     * outstanding is returned: the promise it starts is settled later by
     * `ResolveAnchor` or `RejectAnchor` with that id.
     *
     * An internal step of a handler, not an event of its own: it does not
     * promise `Valid()` (called alone it would leave a current request on
     * an unlocked placement), and is only called by the handlers that do.
     */
    method TryCreateAnchorFromHitResult() returns (request: Option<nat>)
      modifies this
      ensures (State(), request) == TryCreateAnchor(old(State()))
    {
      if tracking.lastHitResult.None? || !tracking.lastHitResult.value.hasCreateAnchor {
        placement := placement.(placementMode := SurfaceNoAnchor);
        return None;
      }
      anchorRequestId := anchorRequestId + 1;
      var requestId := anchorRequestId;
      pendingRequests := pendingRequests + {requestId};
      request := Some(requestId);
    }

    /**
     * `placePaintingFromReticle()`.
     *
     * An internal step of a handler, not an event of its own: it does not
     * promise `Valid()`, and is only called by the handlers that do.
     */
    method PlacePaintingFromReticle() returns (request: Option<nat>)
      modifies this
      ensures (State(), request) == PlacedFromReticle(old(State()))
    {
      placement := placement.(placementMode := SurfaceHit, paintingVisible := true);
      placement := placement.(painting := Transform(display.reticle.position, display.reticle.orientation, 1.0));
      placement := placement.(lockedPlacement := Pose(placement.painting.position, placement.painting.orientation),
                              hasLockedPlacementPose := true);
      ApplyScaleFromUi();
      request := TryCreateAnchorFromHitResult();
    }

    /**
     * `placePaintingInFrontOfCamera()`, with the camera's pose and forward
     * direction as `viewer`.
     *
     * An internal step of a handler, not an event of its own: it does not
     * promise `Valid()`, and is only called by the handlers that do.
     */
    method PlacePaintingInFrontOfCamera(viewer: Viewer)
      modifies this
      ensures State() == old(State()).(placement := PlacedInFront(old(State()).placement, viewer))
    {
      var targetScale := ScaleFromUi(placement.scalePercent);
      var placementPosition := Add(viewer.position, Times(viewer.forward, ManualPlaceDistance));
      placement := placement.(placementMode := ManualFallback, paintingVisible := true);
      placement := placement.(painting := Transform(placementPosition, viewer.orientation, targetScale));
      placement := placement.(lockedPlacement := Pose(placementPosition, viewer.orientation),
                              hasLockedPlacementPose := true);
    }

    /** `placePaintingNow()`, which the XR 'select' event calls directly. */
    method PlacePaintingNow(viewer: Viewer) returns (request: Option<nat>)
      requires Valid()
      modifies this
      ensures Valid()
      ensures (State(), request) == PlacedNow(old(State()), viewer)
      ensures request.Some? ==> request.value == anchorRequestId && request.value !in old(pendingRequests)
    {
      PlacedNowKeepsInv(State(), viewer);
      if display.reticleVisible {
        request := PlacePaintingFromReticle();
        placement := placement.(placementLocked := true);
        return;
      }
      PlacePaintingInFrontOfCamera(viewer);
      placement := placement.(placementLocked := true);
      request := None;
    }

    /** The "place now" button: nothing without a session, `placePaintingNow()` with one. */
    method PlaceNowClick(viewer: Viewer) returns (request: Option<nat>)
      requires Valid()
      modifies this
      ensures Valid()
      ensures (State(), request) == PlaceNowPressed(old(State()), viewer)
    {
      if !xr.sessionActive {
        return None;
      }
      request := PlacePaintingNow(viewer);
    }

    /**
     * The promise of request `requestId` resolves with `anchor` (absent for
     * null). The platform settles only outstanding requests, and never hands
     * the same anchor over twice.
     */
    method ResolveAnchor(requestId: nat, anchor: Option<Anchor>)
      requires Valid()
      requires requestId in pendingRequests
      requires anchor.Some? ==> anchor.value !in deliveredAnchors
      modifies this
      ensures Valid()
      ensures State() == Resolved(old(State()), requestId, anchor)
    {
      ResolvedKeepsInv(State(), requestId, anchor);
      ghost var resolved := AnchorResolved(State().anchors, requestId, anchor);
      pendingRequests := pendingRequests - {requestId};
      if anchor.Some? {
        deliveredAnchors := deliveredAnchors + {anchor.value};
      }
      if requestId != anchorRequestId || anchor.None? {
        if anchor.Some? && anchor.value.hasDelete {
          deletedAnchors := deletedAnchors + multiset{anchor.value};
        }
        assert State().anchors == resolved;
        return;
      }
      ClearActiveAnchor();
      activeAnchor := anchor;
      placement := placement.(placementMode := Anchored);
      assert State().anchors == resolved;
    }

    /** The promise of request `requestId` rejects. */
    method RejectAnchor(requestId: nat)
      requires Valid()
      modifies this
      ensures Valid()
      ensures State() == Rejected(old(State()), requestId)
    {
      RejectedKeepsInv(State(), requestId);
      pendingRequests := pendingRequests - {requestId};
      placement := placement.(placementMode := SurfaceNoAnchor);
    }

    /** The requestHitTestSource promise resolves. */
    method HitTestSourceResolved()
      requires Valid()
      modifies this
      ensures Valid()
      ensures State() == HitTestSourceReady(old(State()))
    {
      HitTestSourceReadyKeepsInv(State());
      xr := xr.(hitTestSource := true);
    }

    /**
     * `updateSurfaceStability()` on the raw reticle pose `raw`.
     *
     * An internal step of a handler, not an event of its own: it does not
     * promise `Valid()`, and is only called by the handlers that do.
     */
    method UpdateSurfaceStability(raw: Pose)
      modifies this
      ensures State() == old(State()).(tracking := StabilityUpdated(metrics, old(tracking), raw))
    {
      if !tracking.hasPreviousRawPose {
        tracking := tracking.(previousRawReticle := raw, hasPreviousRawPose := true);
        tracking := tracking.(surfaceStabilityScore := 1.0, surfaceStability := Good);
        return;
      }
      var positionDelta := metrics.distance(raw.position, tracking.previousRawReticle.position);
      var angleDelta := metrics.angle(raw.orientation, tracking.previousRawReticle.orientation);
      tracking := tracking.(previousRawReticle := raw);
      var instantScore := InstantScore(positionDelta, angleDelta);
      tracking := tracking.(surfaceStabilityScore := BlendScore(tracking.surfaceStabilityScore, instantScore));
      if tracking.surfaceStabilityScore >= GoodThreshold {
        tracking := tracking.(surfaceStability := Good);
      } else if tracking.surfaceStabilityScore >= MediumThreshold {
        tracking := tracking.(surfaceStability := Medium);
      } else {
        tracking := tracking.(surfaceStability := Poor);
      }
    }

    /**
     * The branch of `render()` for an unlocked frame whose first hit-test
     * result is `hit`.
     *
     * An internal step of a handler, not an event of its own: it does not
     * promise `Valid()`, and is only called by the handlers that do.
     */
    method RenderHit(hit: HitResult)
      modifies this
      ensures State() == HitFrame(metrics, old(State()), hit)
    {
      tracking := tracking.(lastHitResult := Some(hit));
      if hit.pose.Some? {
        var raw := hit.pose.value;
        tracking := tracking.(surfaceDetected := true);
        UpdateSurfaceStability(raw);
        if !display.hasSmoothedReticlePose {
          display := display.(smoothedReticle := raw, hasSmoothedReticlePose := true);
        } else {
          var smoothed := display.smoothedReticle;
          var position := LerpVec(smoothed.position, raw.position, ReticleSmoothing);
          var orientation := metrics.slerp(smoothed.orientation, raw.orientation, ReticleSmoothing);
          display := display.(smoothedReticle := Pose(position, orientation));
        }
        display := display.(reticleVisible := true, reticle := display.smoothedReticle, highlightVisible := true);
      }
    }

    /**
     * The branch of `render()` for an unlocked frame without hit-test results.
     *
     * An internal step of a handler, not an event of its own: it does not
     * promise `Valid()`, and is only called by the handlers that do.
     */
    method RenderNoHit()
      modifies this
      ensures State() == NoHitFrame(old(State()))
    {
      display := display.(reticleVisible := false, highlightVisible := false);
      tracking := tracking.(lastHitResult := None, surfaceDetected := false);
      tracking := tracking.(surfaceStability := Unknown, surfaceStabilityScore := 0.0, hasPreviousRawPose := false);
      display := display.(hasSmoothedReticlePose := false);
    }

    /**
     * The branch of `render()` for a locked frame, with the pose the frame
     * gives the active anchor's space.
     *
     * An internal step of a handler, not an event of its own: it does not
     * promise `Valid()`, and is only called by the handlers that do.
     */
    method RenderLocked(anchorPose: Option<Pose>)
      modifies this
      ensures State() == LockedFrame(old(State()), anchorPose)
    {
      display := display.(reticleVisible := false, highlightVisible := false);
      if activeAnchor.Some? {
        if anchorPose.Some? && placement.hasLockedPlacementPose {
          var currentScale := ScaleFromUi(placement.scalePercent);
          var locked := placement.lockedPlacement;
          var position := LerpVec(locked.position, anchorPose.value.position, AnchorPositionSmoothing);
          placement := placement.(lockedPlacement := Pose(position, locked.orientation));
          placement := placement.(painting := Transform(position, locked.orientation, currentScale));
        }
      }
    }

    /** `render()` with the XR frame of this tick, if any. */
    method Render(frame: Option<XrFrame>)
      requires Valid()
      modifies this
      ensures Valid()
      ensures State() == Rendered(metrics, old(State()), frame)
    {
      RenderedKeepsInv(metrics, State(), frame);
      if frame.Some? && xr.sessionActive {
        if !xr.hitTestSourceRequested {
          xr := xr.(hitTestSourceRequested := true);
        }
        if xr.hitTestSource && !placement.placementLocked {
          var hitTestResults := frame.value.hitTestResults;
          if |hitTestResults| > 0 {
            RenderHit(hitTestResults[0]);
          } else {
            RenderNoHit();
          }
        } else if placement.placementLocked {
          RenderLocked(frame.value.anchorPose);
        }
      }
    }
  }
}
