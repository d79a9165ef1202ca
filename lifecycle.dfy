/**
 * What the placement handlers promise: every handler keeps the page
 * invariant, the request-id guard discards stale and null anchor results,
 * resets make every outstanding request stale, and repeated frames converge
 * (the reticle toward a still hit, the locked placement toward its anchor).
 */
module Lifecycle {
  import opened Geometry
  import opened Stability
  import opened Placement

  // ---------------------------------------------------------------------
  // The invariant holds initially and every handler keeps it
  // ---------------------------------------------------------------------

  lemma InitialSatisfiesInv(scalePercent: real)
    ensures Inv(Initial(scalePercent))
  {
  }

  /**
   * `clearActiveAnchor()` keeps the anchor bookkeeping, deletes the active
   * anchor once, and leaves no outstanding request current.
   */
  lemma ClearActiveAnchorAccounts(b: AnchorBook)
    requires AnchorsAccounted(b)
    ensures AnchorsAccounted(ClearActiveAnchor(b))
    ensures forall id :: id in b.pendingRequests ==> id < ClearActiveAnchor(b).anchorRequestId
  {
    var r := ClearActiveAnchor(b);
    forall a | a in r.deliveredAnchors
      ensures r.deletedAnchors[a] == ExpectedDeletions(r.activeAnchor, a)
    {
      if b.activeAnchor == Some(a) {
        assert b.deletedAnchors[a] == 0;
      }
    }
  }

  /** After a session starts, the invariant holds and no outstanding anchor request is current. */
  lemma SessionStartedKeepsInv(s: PageState)
    requires Inv(s)
    ensures Inv(SessionStarted(s))
    ensures SessionStarted(s).anchors.anchorRequestId !in SessionStarted(s).anchors.pendingRequests
  {
    ClearActiveAnchorAccounts(s.anchors);
  }

  /**
   * After a session ends, the invariant holds and no outstanding anchor
   * request is current, though the placement may stay locked.
   */
  lemma SessionEndedKeepsInv(s: PageState)
    requires Inv(s)
    ensures Inv(SessionEnded(s))
    ensures SessionEnded(s).anchors.anchorRequestId !in SessionEnded(s).anchors.pendingRequests
  {
    ClearActiveAnchorAccounts(s.anchors);
  }

  /** After "place again", the invariant holds and no outstanding anchor request is current. */
  lemma PlacedAgainKeepsInv(s: PageState)
    requires Inv(s)
    ensures Inv(PlacedAgain(s))
    ensures PlacedAgain(s).anchors.anchorRequestId !in PlacedAgain(s).anchors.pendingRequests
  {
    ClearActiveAnchorAccounts(s.anchors);
  }

  lemma ScaleChangedKeepsInv(s: PageState, percent: real)
    requires Inv(s)
    ensures Inv(ScaleChanged(s, percent))
  {
  }

  /**
   * Placing keeps the invariant. A request, when one is made, is the new
   * current id and was not outstanding before.
   */
  lemma PlacedNowKeepsInv(s: PageState, viewer: Viewer)
    requires Inv(s)
    ensures Inv(PlacedNow(s, viewer).0)
    ensures PlacedNow(s, viewer).1.Some? ==>
      && PlacedNow(s, viewer).1.value == PlacedNow(s, viewer).0.anchors.anchorRequestId
      && PlacedNow(s, viewer).1.value !in s.anchors.pendingRequests
  {
    var (r, request) := PlacedNow(s, viewer);
    if request.Some? {
      assert r.anchors.anchorRequestId == s.anchors.anchorRequestId + 1;
      assert r.anchors.pendingRequests == s.anchors.pendingRequests + {r.anchors.anchorRequestId};
    }
  }

  lemma PlaceNowPressedKeepsInv(s: PageState, viewer: Viewer)
    requires Inv(s)
    ensures Inv(PlaceNowPressed(s, viewer).0)
  {
    if s.xr.sessionActive {
      PlacedNowKeepsInv(s, viewer);
    }
  }

  /**
   * A settled request keeps the anchor bookkeeping, provided the platform
   * settles only outstanding requests and resolves each with an anchor it
   * has not handed over before.
   */
  lemma AnchorResolvedAccounts(b: AnchorBook, requestId: nat, anchor: Option<Anchor>)
    requires AnchorsAccounted(b)
    requires requestId in b.pendingRequests
    requires anchor.Some? ==> anchor.value !in b.deliveredAnchors
    ensures AnchorsAccounted(AnchorResolved(b, requestId, anchor))
  {
    var r := AnchorResolved(b, requestId, anchor);
    if requestId != b.anchorRequestId || anchor.None? {
      forall a | a in r.deliveredAnchors
        ensures r.deletedAnchors[a] == ExpectedDeletions(r.activeAnchor, a)
      {
        if anchor == Some(a) {
          assert b.deletedAnchors[a] == 0;
        }
      }
    } else {
      var installed := anchor.value;
      assert r.deliveredAnchors == b.deliveredAnchors + {installed};
      assert r.deletedAnchors == b.deletedAnchors + Released(b.activeAnchor);
      forall a | a in r.deliveredAnchors
        ensures r.deletedAnchors[a] == ExpectedDeletions(r.activeAnchor, a)
      {
        if a == installed {
          assert b.deletedAnchors[a] == 0;
        } else if b.activeAnchor == Some(a) {
          assert b.deletedAnchors[a] == 0;
        }
      }
    }
  }

  /** The resolution handler keeps the invariant under the same assumptions on the platform. */
  lemma ResolvedKeepsInv(s: PageState, requestId: nat, anchor: Option<Anchor>)
    requires Inv(s)
    requires requestId in s.anchors.pendingRequests
    requires anchor.Some? ==> anchor.value !in s.anchors.deliveredAnchors
    ensures Inv(Resolved(s, requestId, anchor))
  {
    AnchorResolvedAccounts(s.anchors, requestId, anchor);
  }

  lemma RejectedKeepsInv(s: PageState, requestId: nat)
    requires Inv(s)
    ensures Inv(Rejected(s, requestId))
  {
  }

  lemma HitTestSourceReadyKeepsInv(s: PageState)
    requires Inv(s)
    ensures Inv(HitTestSourceReady(s))
  {
  }

  /**
   * A stability update keeps the score in [0, 1] and the class in step with
   * it: the instant score lies in [0, 1] because distances and angles are
   * never negative.
   */
  lemma StabilityUpdatedAgrees(m: Metrics, t: SurfaceTracking, raw: Pose)
    requires Lawful(m)
    requires StabilityAgrees(t)
    ensures StabilityAgrees(StabilityUpdated(m, t, raw))
    ensures StabilityUpdated(m, t, raw).surfaceStability != Unknown
  {
    if t.hasPreviousRawPose {
      var previous := t.previousRawReticle;
      assert m.distance(raw.position, previous.position) >= 0.0;
      assert m.angle(raw.orientation, previous.orientation) >= 0.0;
    }
  }

  /** A hit frame keeps the invariant: it touches only the hit, the stability tracking and the reticle. */
  lemma HitFrameKeepsInv(m: Metrics, s: PageState, hit: HitResult)
    requires Lawful(m)
    requires Inv(s)
    ensures Inv(HitFrame(m, s, hit))
  {
    if hit.pose.Some? {
      StabilityUpdatedAgrees(m, s.tracking.(lastHitResult := Some(hit), surfaceDetected := true), hit.pose.value);
    }
  }

  lemma NoHitFrameKeepsInv(s: PageState)
    requires Inv(s)
    ensures Inv(NoHitFrame(s))
  {
  }

  lemma LockedFrameKeepsInv(s: PageState, anchorPose: Option<Pose>)
    requires Inv(s)
    ensures Inv(LockedFrame(s, anchorPose))
  {
  }

  /** A render tick keeps the invariant. */
  lemma RenderedKeepsInv(m: Metrics, s: PageState, frame: Option<XrFrame>)
    requires Lawful(m)
    requires Inv(s)
    ensures Inv(Rendered(m, s, frame))
  {
    if frame.Some? && s.xr.sessionActive {
      var requested := s.(xr := s.xr.(hitTestSourceRequested := true));
      var results := frame.value.hitTestResults;
      if s.xr.hitTestSource && !s.placement.placementLocked {
        if |results| > 0 {
          HitFrameKeepsInv(m, requested, results[0]);
        } else {
          NoHitFrameKeepsInv(requested);
        }
      } else if s.placement.placementLocked {
        LockedFrameKeepsInv(requested, frame.value.anchorPose);
      }
    }
  }

  // ---------------------------------------------------------------------
  // Anchors
  // ---------------------------------------------------------------------

  /**
   * `clearActiveAnchor()` moves the request id on, so that every request
   * issued before it is stale; it deletes the active anchor (when it offers
   * `delete()`) and leaves no active anchor.
   */
  lemma ClearActiveAnchorSupersedes(b: AnchorBook)
    ensures ClearActiveAnchor(b).anchorRequestId > b.anchorRequestId
    ensures ClearActiveAnchor(b).activeAnchor == None
    ensures ClearActiveAnchor(b).deletedAnchors == b.deletedAnchors + Released(b.activeAnchor)
    ensures ClearActiveAnchor(b).pendingRequests == b.pendingRequests
  {
  }

  /**
   * Without a last hit result offering `createAnchor()`, no request is made,
   * no request id is used up, and the mode becomes 'surface-no-anchor'.
   */
  lemma NoAnchorWithoutCreateAnchor(s: PageState)
    requires s.tracking.lastHitResult.None? || !s.tracking.lastHitResult.value.hasCreateAnchor
    ensures TryCreateAnchor(s).1 == None
    ensures TryCreateAnchor(s).0 == s.(placement := s.placement.(placementMode := SurfaceNoAnchor))
  {
  }

  /**
   * With one, a request is made under the next id, which becomes current
   * and outstanding; the mode is left as it was until the promise settles.
   */
  lemma AnchorRequested(s: PageState)
    requires s.tracking.lastHitResult.Some? && s.tracking.lastHitResult.value.hasCreateAnchor
    ensures TryCreateAnchor(s).1 == Some(s.anchors.anchorRequestId + 1)
    ensures TryCreateAnchor(s).0.anchors.anchorRequestId == s.anchors.anchorRequestId + 1
    ensures TryCreateAnchor(s).0.anchors.pendingRequests == s.anchors.pendingRequests + {s.anchors.anchorRequestId + 1}
    ensures TryCreateAnchor(s).0.placement == s.placement
  {
  }

  /** Under the invariant no anchor is deleted twice, and the active anchor is not deleted at all. */
  lemma DeletedAtMostOnce(s: PageState, a: Anchor)
    requires Inv(s)
    ensures s.anchors.deletedAnchors[a] <= 1
    ensures s.anchors.activeAnchor == Some(a) ==> s.anchors.deletedAnchors[a] == 0
  {
    if a !in s.anchors.deliveredAnchors {
      assert a !in s.anchors.deletedAnchors;
    }
  }

  /**
   * A stale or null result changes neither the active anchor, nor the
   * request id, nor the mode; a stale anchor that offers `delete()` is
   * deleted on the spot.
   */
  lemma DiscardedResolution(s: PageState, requestId: nat, anchor: Option<Anchor>)
    requires requestId != s.anchors.anchorRequestId || anchor.None?
    ensures Resolved(s, requestId, anchor).anchors.activeAnchor == s.anchors.activeAnchor
    ensures Resolved(s, requestId, anchor).anchors.anchorRequestId == s.anchors.anchorRequestId
    ensures Resolved(s, requestId, anchor).anchors.deletedAnchors == s.anchors.deletedAnchors + Released(anchor)
    ensures Resolved(s, requestId, anchor).placement == s.placement
  {
  }

  /**
   * The current request with a real anchor installs it and sets the mode to
   * 'anchor'; the anchor it replaces is deleted, and the request id moves
   * on, so every other outstanding request is now stale.
   */
  lemma InstalledResolution(s: PageState, anchor: Anchor)
    ensures Resolved(s, s.anchors.anchorRequestId, Some(anchor)).anchors.activeAnchor == Some(anchor)
    ensures Resolved(s, s.anchors.anchorRequestId, Some(anchor)).placement.placementMode == Anchored
    ensures Resolved(s, s.anchors.anchorRequestId, Some(anchor)).anchors.anchorRequestId == s.anchors.anchorRequestId + 1
    ensures Resolved(s, s.anchors.anchorRequestId, Some(anchor)).anchors.deletedAnchors
         == s.anchors.deletedAnchors + Released(s.anchors.activeAnchor)
  {
  }

  /** No event lowers the request id. */
  lemma StepNeverLowersRequestId(m: Metrics, s: PageState, e: Event)
    ensures Step(m, s, e).anchors.anchorRequestId >= s.anchors.anchorRequestId
  {
  }

  /** Nor does any sequence of events. */
  lemma {:induction false} RunNeverLowersRequestId(m: Metrics, s: PageState, es: seq<Event>)
    ensures Run(m, s, es).anchors.anchorRequestId >= s.anchors.anchorRequestId
    decreases |es|
  {
    if |es| > 0 {
      StepNeverLowersRequestId(m, s, es[0]);
      RunNeverLowersRequestId(m, Step(m, s, es[0]), es[1..]);
    }
  }

  /** Starting with a positive slider value gives a positive painting scale. */
  lemma InitialScalePositive(scalePercent: real)
    requires 0.0 < scalePercent
    ensures ScalePositive(Initial(scalePercent).placement)
  {
  }

  /**
   * No event but a slider value of 0 or less makes the scale non-positive:
   * every handler that sets the painting's scale takes it from the slider.
   */
  lemma StepKeepsScalePositive(m: Metrics, s: PageState, e: Event)
    requires ScalePositive(s.placement)
    requires KeepsSliderPositive(e)
    ensures ScalePositive(Step(m, s, e).placement)
  {
  }

  /** Nor does any sequence of such events. */
  lemma {:induction false} RunKeepsScalePositive(m: Metrics, s: PageState, es: seq<Event>)
    requires ScalePositive(s.placement)
    requires forall i :: 0 <= i < |es| ==> KeepsSliderPositive(es[i])
    ensures ScalePositive(Run(m, s, es).placement)
    decreases |es|
  {
    if |es| > 0 {
      StepKeepsScalePositive(m, s, es[0]);
      RunKeepsScalePositive(m, Step(m, s, es[0]), es[1..]);
    }
  }

  /**
   * A request whose id is below the current one stays stale whatever happens
   * next: when it finally resolves, the active anchor and the mode are left
   * as they are, and its anchor is deleted if it offers `delete()`.
   */
  lemma StaleStaysStale(m: Metrics, s: PageState, es: seq<Event>, requestId: nat, anchor: Option<Anchor>)
    requires requestId < s.anchors.anchorRequestId
    ensures var t := Run(m, s, es);
      && Resolved(t, requestId, anchor).anchors.activeAnchor == t.anchors.activeAnchor
      && Resolved(t, requestId, anchor).placement == t.placement
      && Resolved(t, requestId, anchor).anchors.deletedAnchors == t.anchors.deletedAnchors + Released(anchor)
  {
    RunNeverLowersRequestId(m, s, es);
  }

  /**
   * A request that was outstanding when "place again" was pressed can never
   * install its anchor, whatever events follow: when it resolves, the active
   * anchor and the mode stay as they are, and its anchor is deleted.
   */
  lemma RequestBeforePlaceAgainIsStale(m: Metrics, s: PageState, es: seq<Event>, requestId: nat, anchor: Option<Anchor>)
    requires AnchorsAccounted(s.anchors)
    requires requestId in s.anchors.pendingRequests
    ensures var t := Run(m, PlacedAgain(s), es);
      && Resolved(t, requestId, anchor).anchors.activeAnchor == t.anchors.activeAnchor
      && Resolved(t, requestId, anchor).placement == t.placement
      && Resolved(t, requestId, anchor).anchors.deletedAnchors == t.anchors.deletedAnchors + Released(anchor)
  {
    StaleStaysStale(m, PlacedAgain(s), es, requestId, anchor);
  }

  /** The same holds for a request outstanding when a session starts. */
  lemma RequestBeforeSessionStartIsStale(m: Metrics, s: PageState, es: seq<Event>, requestId: nat, anchor: Option<Anchor>)
    requires AnchorsAccounted(s.anchors)
    requires requestId in s.anchors.pendingRequests
    ensures var t := Run(m, SessionStarted(s), es);
      && Resolved(t, requestId, anchor).anchors.activeAnchor == t.anchors.activeAnchor
      && Resolved(t, requestId, anchor).placement == t.placement
      && Resolved(t, requestId, anchor).anchors.deletedAnchors == t.anchors.deletedAnchors + Released(anchor)
  {
    StaleStaysStale(m, SessionStarted(s), es, requestId, anchor);
  }

  /** And for a request outstanding when a session ends. */
  lemma RequestBeforeSessionEndIsStale(m: Metrics, s: PageState, es: seq<Event>, requestId: nat, anchor: Option<Anchor>)
    requires AnchorsAccounted(s.anchors)
    requires requestId in s.anchors.pendingRequests
    ensures var t := Run(m, SessionEnded(s), es);
      && Resolved(t, requestId, anchor).anchors.activeAnchor == t.anchors.activeAnchor
      && Resolved(t, requestId, anchor).placement == t.placement
      && Resolved(t, requestId, anchor).anchors.deletedAnchors == t.anchors.deletedAnchors + Released(anchor)
  {
    StaleStaysStale(m, SessionEnded(s), es, requestId, anchor);
  }

  /** As written, a rejection sets 'surface-no-anchor' even when it is stale and an anchor is active. */
  lemma StaleRejectionOverridesMode(s: PageState, requestId: nat)
    requires s.placement.placementMode == Anchored && requestId != s.anchors.anchorRequestId
    ensures Rejected(s, requestId).placement.placementMode == SurfaceNoAnchor
    ensures Rejected(s, requestId).anchors.activeAnchor == s.anchors.activeAnchor
  {
  }

  // ---------------------------------------------------------------------
  // Placing
  // ---------------------------------------------------------------------

  /**
   * Moving the scale slider keeps the painting's position and orientation
   * and gives it the slider's value divided by 100 as its scale; nothing
   * else changes.
   */
  lemma ScaleChangeKeepsPose(s: PageState, percent: real)
    ensures var r := ScaleChanged(s, percent);
      && r.placement.painting == Transform(s.placement.painting.position, s.placement.painting.orientation, percent / 100.0)
      && r == s.(placement := s.placement.(scalePercent := percent, painting := r.placement.painting))
  {
  }

  /** Without a session, the "place now" button changes nothing. */
  lemma PlaceNowWithoutSession(s: PageState, viewer: Viewer)
    requires !s.xr.sessionActive
    ensures PlaceNowPressed(s, viewer) == (s, None)
  {
  }

  /**
   * Placing from the visible reticle locks the painting at the reticle's
   * pose with the slider's scale, and asks for an anchor exactly when the
   * last hit offers `createAnchor()`.
   */
  lemma PlacedAtReticle(s: PageState, viewer: Viewer)
    requires s.display.reticleVisible
    ensures var (r, request) := PlacedNow(s, viewer);
      var reticle := s.display.reticle;
      && r.placement.placementLocked && r.placement.paintingVisible && r.placement.hasLockedPlacementPose
      && r.placement.lockedPlacement == reticle
      && r.placement.painting == Transform(reticle.position, reticle.orientation, ScaleFromUi(s.placement.scalePercent))
      && (request.Some? <==> s.tracking.lastHitResult.Some? && s.tracking.lastHitResult.value.hasCreateAnchor)
      && r.placement.placementMode == (if request.Some? then SurfaceHit else SurfaceNoAnchor)
  {
  }

  /**
   * Without a visible reticle the painting is locked 1.2 m in front of the
   * viewer, no anchor is asked for, and (as written) an anchor that is
   * already active stays active.
   */
  lemma PlacedInFrontOfViewer(s: PageState, viewer: Viewer)
    requires !s.display.reticleVisible
    ensures var (r, request) := PlacedNow(s, viewer);
      && request == None
      && r.placement.placementLocked && r.placement.paintingVisible && r.placement.hasLockedPlacementPose
      && r.placement.placementMode == ManualFallback
      && r.placement.lockedPlacement == Pose(FallbackPosition(viewer), viewer.orientation)
      && r.placement.painting == Transform(FallbackPosition(viewer), viewer.orientation, ScaleFromUi(s.placement.scalePercent))
      && r.anchors == s.anchors
  {
  }

  /**
   * Because the fallback keeps the active anchor, the next locked frame pulls
   * the fallback placement 0.18 of the way toward that anchor's pose.
   */
  lemma FallbackDriftsTowardOldAnchor(s: PageState, viewer: Viewer, anchorPose: Pose)
    requires !s.display.reticleVisible && s.anchors.activeAnchor.Some?
    ensures LockedFrame(PlacedNow(s, viewer).0, Some(anchorPose)).placement.lockedPlacement.position
         == LerpVec(FallbackPosition(viewer), anchorPose.position, AnchorPositionSmoothing)
  {
  }

  /**
   * A placement that makes no request (the fallback, or a reticle placement
   * whose last hit lacks `createAnchor()`) leaves the request id alone. So an
   * earlier request that is still current stays current: when it resolves
   * with an anchor, that anchor is installed and the mode becomes 'anchor',
   * over 'manual-fallback' or 'surface-no-anchor'.
   */
  lemma PlacementWithoutRequestKeepsEarlierRequest(s: PageState, viewer: Viewer, anchor: Anchor)
    requires PlacedNow(s, viewer).1.None?
    ensures PlacedNow(s, viewer).0.anchors.anchorRequestId == s.anchors.anchorRequestId
    ensures var r := Resolved(PlacedNow(s, viewer).0, s.anchors.anchorRequestId, Some(anchor));
      && r.anchors.activeAnchor == Some(anchor)
      && r.placement.placementMode == Anchored
  {
    if s.display.reticleVisible {
      var reticle := s.display.reticle;
      var placed := s.placement.(
        placementMode := SurfaceHit,
        paintingVisible := true,
        painting := Transform(reticle.position, reticle.orientation, 1.0),
        lockedPlacement := reticle,
        hasLockedPlacementPose := true);
      assert PlacedFromReticle(s) == TryCreateAnchor(s.(placement := ScaleApplied(placed)));
    }
  }

  // ---------------------------------------------------------------------
  // The reticle and the stability score
  // ---------------------------------------------------------------------

  /**
   * After a frame without a hit, the next hit starts afresh: the reticle is
   * shown exactly at the raw pose, and the score is 1 and 'good'.
   */
  lemma HitAfterGapStartsAfresh(m: Metrics, s: PageState, hit: HitResult)
    requires hit.pose.Some?
    ensures var r := HitFrame(m, NoHitFrame(s), hit);
      && r.display.reticleVisible && r.display.highlightVisible && r.tracking.surfaceDetected
      && r.display.reticle == hit.pose.value && r.display.smoothedReticle == hit.pose.value
      && r.tracking.surfaceStabilityScore == 1.0 && r.tracking.surfaceStability == Good
      && r.tracking.lastHitResult == Some(hit)
  {
  }

  /**
   * "Place again" keeps the smoothed pose, so the first hit after it shows
   * the reticle one smoothing step from the old smoothed pose rather than at
   * the new raw pose, although the score starts afresh.
   */
  lemma HitAfterPlaceAgainBlends(m: Metrics, s: PageState, hit: HitResult)
    requires s.display.hasSmoothedReticlePose && hit.pose.Some?
    ensures HitFrame(m, PlacedAgain(s), hit).display.reticle
         == SmoothPose(m, s.display.smoothedReticle, hit.pose.value, ReticleSmoothing)
    ensures HitFrame(m, PlacedAgain(s), hit).tracking.surfaceStabilityScore == 1.0
  {
  }

  /** `n` hit frames in a row with the same hit. */
  function HitFrames(m: Metrics, s: PageState, hit: HitResult, n: nat): PageState
  {
    if n == 0 then s else HitFrame(m, HitFrames(m, s, hit, n - 1), hit)
  }

  /**
   * Under a hit that does not move, the smoothed position follows the raw
   * position by repeated lerps, and the score climbs as `SteadyScore`.
   */
  lemma {:induction false} StillHitsFollow(m: Metrics, s: PageState, hit: HitResult, n: nat)
    requires Lawful(m)
    requires hit.pose.Some? && Unit(hit.pose.value.orientation)
    requires s.display.hasSmoothedReticlePose && s.tracking.hasPreviousRawPose
    requires s.tracking.previousRawReticle == hit.pose.value
    ensures var r := HitFrames(m, s, hit, n);
      && r.display.hasSmoothedReticlePose && r.tracking.hasPreviousRawPose
      && r.tracking.previousRawReticle == hit.pose.value
      && r.display.smoothedReticle.position
         == Follow(s.display.smoothedReticle.position, hit.pose.value.position, ReticleSmoothing, n)
      && r.tracking.surfaceStabilityScore == SteadyScore(s.tracking.surfaceStabilityScore, n)
  {
    if n > 0 {
      StillHitsFollow(m, s, hit, n - 1);
      var p := HitFrames(m, s, hit, n - 1);
      var raw := hit.pose.value;
      assert m.distance(raw.position, raw.position) == 0.0;
      assert m.angle(raw.orientation, raw.orientation) == 0.0;
      assert InstantScore(0.0, 0.0) == 1.0;
      var tracked := StabilityUpdated(m, p.tracking.(lastHitResult := Some(hit), surfaceDetected := true), raw);
      assert tracked.surfaceStabilityScore == BlendScore(p.tracking.surfaceStabilityScore, 1.0);
    }
  }

  /**
   * Under a hit that does not move, the reticle's distance to the raw
   * position shrinks by the factor 0.78 per frame and never overshoots, and
   * after five frames the surface is 'good' whatever the score was.
   */
  lemma StillHitsSettle(m: Metrics, s: PageState, hit: HitResult, n: nat)
    requires Lawful(m)
    requires StabilityAgrees(s.tracking)
    requires hit.pose.Some? && Unit(hit.pose.value.orientation)
    requires s.display.hasSmoothedReticlePose && s.tracking.hasPreviousRawPose
    requires s.tracking.previousRawReticle == hit.pose.value
    ensures var r := HitFrames(m, s, hit, n);
      var start, target := s.display.smoothedReticle.position, hit.pose.value.position;
      && Sub(r.display.smoothedReticle.position, target) == Times(Sub(start, target), Pow(1.0 - ReticleSmoothing, n))
      && InBox(start, target, r.display.smoothedReticle.position)
      && (n >= 5 ==> Classify(r.tracking.surfaceStabilityScore) == Good)
  {
    StillHitsFollow(m, s, hit, n);
    FollowGap(s.display.smoothedReticle.position, hit.pose.value.position, ReticleSmoothing, n);
    FollowStaysInBox(s.display.smoothedReticle.position, hit.pose.value.position, ReticleSmoothing, n);
    if n >= 5 {
      SteadyScoreTurnsGood(s.tracking.surfaceStabilityScore, n);
    }
  }

  // ---------------------------------------------------------------------
  // Locked frames
  // ---------------------------------------------------------------------

  /** `n` locked frames in a row with the same anchor pose. */
  function LockedFrames(s: PageState, anchorPose: Option<Pose>, n: nat): PageState
  {
    if n == 0 then s else LockedFrame(LockedFrames(s, anchorPose, n - 1), anchorPose)
  }

  /**
   * With an active anchor at a fixed pose, the locked position follows the
   * anchor's position by repeated lerps by 0.18, the locked orientation never
   * changes, and the painting is composed from the locked pose with the
   * slider's scale.
   */
  lemma {:induction false} AnchoredPlacementFollows(s: PageState, anchorPose: Pose, n: nat)
    requires s.anchors.activeAnchor.Some? && s.placement.hasLockedPlacementPose
    ensures var r := LockedFrames(s, Some(anchorPose), n);
      var p := s.placement;
      && r.anchors == s.anchors && r.placement.hasLockedPlacementPose && r.placement.scalePercent == p.scalePercent
      && r.placement.lockedPlacement
         == Pose(Follow(p.lockedPlacement.position, anchorPose.position, AnchorPositionSmoothing, n), p.lockedPlacement.orientation)
      && (n > 0 ==> r.placement.painting
                    == Transform(r.placement.lockedPlacement.position, p.lockedPlacement.orientation, ScaleFromUi(p.scalePercent)))
  {
    if n > 0 {
      AnchoredPlacementFollows(s, anchorPose, n - 1);
    }
  }

  /** The painting closes its distance to the anchor by the factor 0.82 per frame, without overshooting. */
  lemma AnchoredPlacementSettles(s: PageState, anchorPose: Pose, n: nat)
    requires s.anchors.activeAnchor.Some? && s.placement.hasLockedPlacementPose
    ensures var r := LockedFrames(s, Some(anchorPose), n);
      var start, target := s.placement.lockedPlacement.position, anchorPose.position;
      && Sub(r.placement.lockedPlacement.position, target) == Times(Sub(start, target), Pow(1.0 - AnchorPositionSmoothing, n))
      && InBox(start, target, r.placement.lockedPlacement.position)
  {
    AnchoredPlacementFollows(s, anchorPose, n);
    FollowGap(s.placement.lockedPlacement.position, anchorPose.position, AnchorPositionSmoothing, n);
    FollowStaysInBox(s.placement.lockedPlacement.position, anchorPose.position, AnchorPositionSmoothing, n);
  }

  /** Without an active anchor, locked frames leave the placement and the painting where they are. */
  lemma UnanchoredPlacementStays(s: PageState, anchorPose: Option<Pose>)
    requires s.anchors.activeAnchor.None?
    ensures LockedFrame(s, anchorPose).placement == s.placement
  {
  }

  /**
   * While locked, a render tick is a locked frame: hits are ignored, and the
   * last hit, the stability tracking and the smoothed pose are kept.
   */
  lemma LockedRenderIgnoresHits(m: Metrics, s: PageState, frame: XrFrame)
    requires s.xr.sessionActive && s.placement.placementLocked
    ensures var r := Rendered(m, s, Some(frame));
      && r.tracking == s.tracking && r.anchors == s.anchors
      && r.display.smoothedReticle == s.display.smoothedReticle
      && !r.display.reticleVisible && !r.display.highlightVisible
  {
  }

  /** Without a frame or a session, a render tick changes nothing. */
  lemma IdleRenderChangesNothing(m: Metrics, s: PageState, frame: Option<XrFrame>)
    requires frame.None? || !s.xr.sessionActive
    ensures Rendered(m, s, frame) == s
  {
  }
}
