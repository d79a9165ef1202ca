# AR painting viewer: placement and anchor lifecycle

This project models the core of a WebXR viewer (`app.js`) that finds a wall
through hit-testing and hangs a framed painting on it. Each frame, the page
smooths the raw hit pose into a reticle. It also scores how steady the
surface is, from the position and angle deltas between consecutive raw
poses, and classifies that score as good, medium or poor. When the user
places the painting, the page locks it at the reticle, or 1.2 m in front of
the camera when there is no reticle. When it places from the reticle and the
last hit offers `createAnchor()`, it asks the platform for an anchor. While
the placement is locked, the painting is pulled toward the active anchor's
pose frame by frame. The anchor request is asynchronous, and a counter
(`anchorRequestId`) guards it. A promise that resolves after the page has
moved on (a newer anchor request, "place again", a session restart or a
session end) is stale: its anchor is deleted and never installed. No event
lowers the counter, so a stale request stays stale.

The model has five modules, one per file:

- `Geometry` (`geometry.dfy`): vectors, quaternions, poses and transforms,
  and `Vector3.lerp`. Also `Pow`, and `Follow`, which is repeated lerping
  toward a fixed target. `distanceTo`, `angleTo` and `slerp` are parameters
  (`Metrics`). The only laws assumed about them are those in `Lawful`:
  distances and angles are never negative, a point is at distance 0 from
  itself, and a unit quaternion is at angle 0 from itself and is unchanged
  when slerped toward itself.
- `Stability` (`stability.dfy`): the arithmetic of `updateSurfaceStability`
  as pure functions. That is the capped normalisation, the instant score,
  the 0.22 blend and the 0.68 / 0.42 thresholds. The module also proves
  what repeated frames do to the score.
- `Placement` (`placement.dfy`): a `PageState` snapshot of the page's
  variables, and one transition function per handler. An `Event` datatype
  with `Step` and `Run` covers any sequence of events. It also holds the
  invariant `Inv`:
  - The running score lies in [0, 1], and its class agrees with it.
  - Outstanding anchor requests have ids in `1..anchorRequestId`.
  - Every anchor the platform delivers is deleted exactly once, unless it
    is the active anchor or does not offer `delete()`.
  - Only a locked placement has an active anchor, a current request or a
    locked pose.
- `Lifecycle` (`lifecycle.dfy`): the lemmas. Every handler keeps `Inv`.
  The request-id guard discards stale and null results. Resets make every
  outstanding request stale for good, whatever events follow. Still hits make the reticle converge and the
  score turn good. A locked painting converges on its anchor.
- `Session` (`session.dfy`): the class `ArSession`. Its methods update the
  page's variables in place, in the order the code does. Each method is
  proved to end in the state the matching transition describes. Each event
  handler is also proved to keep `Inv`. The helper methods for steps inside
  a handler (`ClearActiveAnchor`, `ApplyScaleFromUi`, the placing steps,
  `UpdateSurfaceStability` and the three branches of `render`) are not
  events and do not promise it.

In `ArSession`, the page's module-level variables are grouped into a few
record-valued fields: the XR link, the painting, the surface tracking and
the reticle display. `activeAnchor` and `anchorRequestId` are fields of
their own. Three ghost fields record what the platform has done with
anchors: the outstanding requests, the delivered anchors, and the multiset
of `delete()` calls. The asynchronous `createAnchor()` is split into two
events:
- `TryCreateAnchorFromHitResult`, which returns the captured request id;
- a later `ResolveAnchor(id, anchorOrNull)` or `RejectAnchor(id)`.

The following behaviours of the code are modelled as written:
- A rejection does not compare request ids, so a stale rejection still sets
  the mode to 'surface-no-anchor' (`Lifecycle.StaleRejectionOverridesMode`).
- 'sessionend' neither unlocks the placement nor hides the painting or the
  reticle.
- "Place again" does not reset `hasSmoothedReticlePose`. So the first hit
  after it shows the reticle one 0.22 step from the old smoothed pose, not
  at the new raw pose, and placing then locks there
  (`Lifecycle.HitAfterPlaceAgainBlends`). After a frame without a hit, by
  contrast, the next hit starts afresh at the raw pose
  (`Lifecycle.HitAfterGapStartsAfresh`).
- The fallback placement keeps an active anchor, and the next locked frame
  pulls the fallback pose toward it (`Lifecycle.FallbackDriftsTowardOldAnchor`).
- A placement that makes no anchor request does not take a request id. This
  covers the fallback, and a reticle placement whose last hit lacks
  `createAnchor()`. An earlier request that is still current can therefore
  install its anchor afterwards and set the mode to 'anchor' over
  'manual-fallback' or 'surface-no-anchor'
  (`Lifecycle.PlacementWithoutRequestKeepsEarlierRequest`).
- 'sessionstart' does not hide the reticle.
- A position delta of 1.8 × 8 mm or more zeroes the instant score whatever
  the angle, because 0.62 × 1.8 > 1 (`Stability.InstantScore`). The running
  score still keeps at least 0.78 of its value (`Stability.BlendScore`).

## Model

| member | source | states |
|---|---|---|
| Geometry.Lerp | app.js:493 | one coordinate of `lerp(target, t)`: the remaining gap to the target is the old gap times 1 - t; for t in [0, 1] the result lies between the ends; t = 0 and t = 1 give the ends |
| Geometry.LerpVec | app.js:536 | `Vector3.lerp`: the gap vector is scaled by 1 - t, the result stays in the box spanned by the ends, and lerping a point toward itself keeps it |
| Geometry.SmoothPose | app.js:492-495 | one reticle smoothing step: the position gap to the raw pose shrinks by 1 - alpha without overshooting, and a raw pose already reached is a fixed point |
| Geometry.FollowGap | app.js:493 | after n lerps by alpha toward a fixed target, the gap is the initial gap times (1 - alpha)^n |
| Geometry.FollowStaysInBox | app.js:536 | repeated lerps with a factor in [0, 1] never leave the box between start and target |
| Stability.Normalize | app.js:394-395 | `min(delta / ref, 1.8)` is at most 1.8, non-negative for non-negative deltas, equals 1.8 exactly when delta >= 1.8 * ref, and is the delta in units of ref below the cap |
| Stability.InstantScore | app.js:396 | the instant score is in [0, 1] for non-negative deltas, is 1 exactly when both deltas are 0, and is 0 whenever the position delta is at least 1.8 references |
| Stability.AngleOutliersScoreAlike | app.js:395-396 | two angle deltas past the cap give the same instant score |
| Stability.InstantScoreAntitone | app.js:394-396 | larger deltas never give a higher instant score |
| Stability.BlendScore | app.js:398 | the blend moves the score 0.22 of the way to the instant score: it stays between them, stays in [0, 1], and keeps at least 0.78 of the old score |
| Stability.Classify | app.js:400-406 | good iff score >= 0.68, medium iff 0.42 <= score < 0.68, poor iff score < 0.42, never unknown |
| Stability.ClassifyMonotone | app.js:400-406 | a higher score never gets a worse class |
| Stability.SteadyScoreGap | app.js:398 | under still frames the shortfall from 1 after n frames is 0.78^n times the initial shortfall |
| Stability.SteadyScoreRises | app.js:398 | under still frames a score in [0, 1] rises monotonically and stays at most 1 |
| Stability.SteadyScoreTurnsGood | app.js:396-406 | five still frames make any score in [0, 1] good |
| Stability.FourSteadyFramesFromZeroAreMedium | app.js:398-406 | four still frames from a score of 0 reach only medium |
| Placement.Initial | app.js:27-41 | the page's initial variables, then `init()`'s call of `applyScaleFromUi()` (app.js:104) |
| Placement.FallbackPosition | app.js:238 | the fallback position: 1.2 m along the viewer's forward direction |
| Placement.Released | app.js:275-277 | the anchors `delete()` is called on: the anchor, when there is one and it offers `delete()` |
| Placement.ScaleApplied | app.js:421-440 | `applyScaleFromUi`: the painting keeps its position and orientation and takes the slider's value / 100 as its scale |
| Placement.ClearActiveAnchor | app.js:291-297 | `clearActiveAnchor`: the next request id, the active anchor deleted if it offers `delete()`, no active anchor (its properties: `Lifecycle.ClearActiveAnchorSupersedes`) |
| Placement.SessionStarted | app.js:133-148 | the 'sessionstart' handler on the page's variables |
| Placement.SessionEnded | app.js:150-165 | the 'sessionend' handler, which keeps the lock and the painting's visibility |
| Placement.PlacedAgain | app.js:180-194 | the "place again" handler, which keeps the smoothed reticle pose |
| Placement.ScaleChanged | app.js:209-211 | the slider's 'input' event: new slider value, then `applyScaleFromUi` |
| Placement.TryCreateAnchor | app.js:265-272 | `tryCreateAnchorFromHitResult` up to the promise: 'surface-no-anchor' without `createAnchor`, otherwise the next id taken and left outstanding |
| Placement.PlacedFromReticle | app.js:216-226 | `placePaintingFromReticle` |
| Placement.PlacedInFront | app.js:228-250 | `placePaintingInFrontOfCamera` |
| Placement.PlacedNow | app.js:252-263 | `placePaintingNow`, also the 'select' handler at app.js:167-169 |
| Placement.PlaceNowPressed | app.js:171-178 | the "place now" button |
| Placement.AnchorResolved | app.js:273-283 | the anchor side of the resolution handler: a stale or null result only deletes its anchor; the current request runs the clear and installs its anchor |
| Placement.Resolved | app.js:273-284 | the resolution handler, with the mode 'anchor' once installed |
| Placement.Rejected | app.js:285-288 | the rejection handler, which does not compare ids |
| Placement.HitTestSourceReady | app.js:461-463 | the hit-test source arriving |
| Placement.StabilityUpdated | app.js:379-407 | `updateSurfaceStability` on a raw pose |
| Placement.ReticleShown | app.js:488-505 | the smoothed pose (raw on a fresh start, one smoothing step otherwise) shown by the reticle and the highlight |
| Placement.HitFrame | app.js:474-513 | the hit branch of `render` |
| Placement.NoHitFrame | app.js:514-525 | the no-hit branch of `render` |
| Placement.FollowedAnchor | app.js:530-545 | the painting following its anchor during a locked frame |
| Placement.LockedFrame | app.js:526-547 | the locked branch of `render` |
| Placement.Rendered | app.js:452-548 | one call of `render` |
| Placement.Step | app.js:133-211 | the page's listeners dispatched on one event (also the resolution and rejection at app.js:273-288, the hit-test source at app.js:461-463 and the render tick at app.js:452) |
| Placement.Run | app.js:133-211 | the listeners applied to a sequence of events, first to last |
| Lifecycle.InitialSatisfiesInv | app.js:27-41 | the initial variables satisfy the invariant |
| Lifecycle.ClearActiveAnchorAccounts | app.js:291-297 | `clearActiveAnchor` keeps the anchor accounting, and every outstanding request id is below the new current id |
| Lifecycle.ClearActiveAnchorSupersedes | app.js:291-297 | `clearActiveAnchor` strictly increases the request id, deletes the active anchor if it offers `delete()`, and leaves no active anchor |
| Lifecycle.SessionStartedKeepsInv | app.js:133-148 | 'sessionstart' keeps the invariant and leaves no outstanding request current |
| Lifecycle.SessionEndedKeepsInv | app.js:150-165 | 'sessionend' keeps the invariant and leaves no outstanding request current |
| Lifecycle.PlacedAgainKeepsInv | app.js:180-194 | "place again" keeps the invariant and leaves no outstanding request current |
| Lifecycle.ScaleChangedKeepsInv | app.js:209-211 | a scale change keeps the invariant |
| Lifecycle.PlacedNowKeepsInv | app.js:252-263 | placing keeps the invariant; a request it makes has the new current id and was not outstanding before |
| Lifecycle.PlaceNowPressedKeepsInv | app.js:171-178 | the "place now" button keeps the invariant |
| Lifecycle.AnchorResolvedAccounts | app.js:273-283 | settling an outstanding request with a fresh anchor or null keeps the anchor accounting: every delivered anchor is deleted once unless active |
| Lifecycle.ResolvedKeepsInv | app.js:273-284 | the resolution handler keeps the invariant |
| Lifecycle.RejectedKeepsInv | app.js:285-288 | the rejection handler keeps the invariant |
| Lifecycle.HitTestSourceReadyKeepsInv | app.js:461-463 | a hit-test source arriving keeps the invariant |
| Lifecycle.StabilityUpdatedAgrees | app.js:379-407 | a stability update keeps the score in [0, 1] and the class equal to its classification, and the class is never unknown after it |
| Lifecycle.HitFrameKeepsInv | app.js:474-513 | a hit frame keeps the invariant |
| Lifecycle.NoHitFrameKeepsInv | app.js:514-525 | a no-hit frame keeps the invariant |
| Lifecycle.LockedFrameKeepsInv | app.js:526-547 | a locked frame keeps the invariant |
| Lifecycle.RenderedKeepsInv | app.js:452-548 | every render tick keeps the invariant |
| Lifecycle.NoAnchorWithoutCreateAnchor | app.js:265-270 | without a last hit offering `createAnchor`, no request is made, no id is used, and the mode becomes 'surface-no-anchor' |
| Lifecycle.AnchorRequested | app.js:272-273 | with one, a request is made under the next id, which becomes current and outstanding |
| Lifecycle.DeletedAtMostOnce | app.js:274-283 | no anchor is ever deleted twice, and the active anchor is never deleted |
| Lifecycle.DiscardedResolution | app.js:274-279 | a stale or null result leaves the active anchor, the request id and the mode unchanged, and deletes a stale anchor that offers `delete()` |
| Lifecycle.InstalledResolution | app.js:281-283 | the current request with a real anchor deletes the previous active anchor, installs the new one, moves the request id on and sets the mode to 'anchor' |
| Lifecycle.RequestBeforePlaceAgainIsStale | app.js:180-194 | a request outstanding when "place again" is pressed, resolving after any sequence of events, leaves the active anchor and the mode as they are; its anchor is deleted if it offers `delete()` |
| Lifecycle.RequestBeforeSessionStartIsStale | app.js:133-148 | the same for a request outstanding when a session starts |
| Lifecycle.RequestBeforeSessionEndIsStale | app.js:150-165 | the same for a request outstanding when a session ends |
| Lifecycle.StepNeverLowersRequestId | app.js:265-297 | no event lowers `anchorRequestId`: the code only ever increments it |
| Lifecycle.RunNeverLowersRequestId | app.js:265-297 | no sequence of events lowers `anchorRequestId` |
| Lifecycle.StaleStaysStale | app.js:272-279 | a request whose id is below the current one, resolving after any sequence of events, changes neither the active anchor nor the mode, and its anchor is deleted if it offers `delete()` |
| Lifecycle.StaleRejectionOverridesMode | app.js:285-288 | a stale rejection sets 'surface-no-anchor' even while an anchor is active, and keeps that anchor |
| Lifecycle.InitialScalePositive | app.js:104 | a positive slider value at start-up gives a positive slider value and a positive painting scale |
| Lifecycle.StepKeepsScalePositive | app.js:421-440 | no event except a slider value of 0 or less makes the slider value or the painting's scale non-positive |
| Lifecycle.RunKeepsScalePositive | app.js:421-440 | nor does any sequence of such events |
| Lifecycle.ScaleChangeKeepsPose | app.js:421-440 | a scale change keeps the painting's position and orientation, sets its scale to value / 100, and changes nothing else |
| Lifecycle.PlaceNowWithoutSession | app.js:171-178 | without a session the "place now" button changes nothing |
| Lifecycle.PlacedAtReticle | app.js:216-226 | with the reticle visible, placing locks the painting at the reticle's pose with the slider's scale, and asks for an anchor exactly when the last hit offers `createAnchor` |
| Lifecycle.PlacedInFrontOfViewer | app.js:228-250 | without a reticle, placing locks the painting 1.2 m along the camera's forward direction with the camera's orientation, in mode 'manual-fallback', with no request and the anchors untouched |
| Lifecycle.FallbackDriftsTowardOldAnchor | app.js:530-536 | after a fallback placement with an anchor still active, the next locked frame lerps the fallback position 0.18 toward that anchor |
| Lifecycle.PlacementWithoutRequestKeepsEarlierRequest | app.js:228-270 | a placement that makes no request leaves the request id alone, so a still-current earlier request that resolves with an anchor installs it and sets the mode to 'anchor' |
| Lifecycle.HitAfterGapStartsAfresh | app.js:380-386 | after a no-hit frame, the next hit shows the reticle exactly at the raw pose, with score 1 and class good |
| Lifecycle.HitAfterPlaceAgainBlends | app.js:488-494 | after "place again", the first hit shows the reticle one smoothing step from the old smoothed pose, while the score restarts at 1 |
| Lifecycle.StillHitsFollow | app.js:481-498 | under a still hit, the smoothed position after n frames is n lerps by 0.22 toward the raw position, and the score follows the still-frame score |
| Lifecycle.StillHitsSettle | app.js:481-498 | under a still hit, the reticle's gap to the raw position is the initial gap times 0.78^n without overshooting, and after five frames the surface is good |
| Lifecycle.AnchoredPlacementFollows | app.js:530-544 | with an active anchor at a fixed pose, the locked position after n frames is n lerps by 0.18 toward it, the orientation never changes, and the painting is recomposed with the current scale |
| Lifecycle.AnchoredPlacementSettles | app.js:536 | the locked position's gap to the anchor is the initial gap times 0.82^n, without overshooting |
| Lifecycle.UnanchoredPlacementStays | app.js:530 | without an active anchor, locked frames leave the placement and the painting alone |
| Lifecycle.LockedRenderIgnoresHits | app.js:526-529 | while locked, a render tick ignores hits, keeps the tracking and smoothed pose, and hides the reticle |
| Lifecycle.IdleRenderChangesNothing | app.js:456 | without a frame or a session, a render tick changes nothing |
| Session.ArSession.constructor | app.js:27-41 | the page's initial variables with the slider's scale applied, satisfying the invariant |
| Session.ArSession.ClearActiveAnchor | app.js:291-297 | the new state is `clearActiveAnchor` applied to the anchors, with nothing else changed |
| Session.ArSession.SessionStart | app.js:133-148 | the new state is the 'sessionstart' transition of the old, and the invariant is kept |
| Session.ArSession.SessionEnd | app.js:150-165 | the new state is the 'sessionend' transition of the old, and the invariant is kept |
| Session.ArSession.PlaceAgain | app.js:180-194 | the new state is the "place again" transition of the old, and the invariant is kept |
| Session.ArSession.ApplyScaleFromUi | app.js:421-440 | only the painting's scale changes, to the slider's value / 100 |
| Session.ArSession.ScaleInput | app.js:209-211 | the slider's new value and then its scale applied, keeping the invariant |
| Session.ArSession.TryCreateAnchorFromHitResult | app.js:265-272 | the new state and the returned request id are those of the anchor-request transition |
| Session.ArSession.PlacePaintingFromReticle | app.js:216-226 | the new state and request are those of placing from the reticle |
| Session.ArSession.PlacePaintingInFrontOfCamera | app.js:228-250 | only the painting changes, to the fallback placement in front of the viewer |
| Session.ArSession.PlacePaintingNow | app.js:252-263 | the new state and request are those of `placePaintingNow`, the invariant is kept, and a request has the new current id and was not outstanding |
| Session.ArSession.PlaceNowClick | app.js:171-178 | nothing without a session, `placePaintingNow` with one, keeping the invariant |
| Session.ArSession.ResolveAnchor | app.js:273-284 | the new state is that of the resolution handler, and the invariant is kept |
| Session.ArSession.RejectAnchor | app.js:285-288 | the new state is that of the rejection handler, and the invariant is kept |
| Session.ArSession.HitTestSourceResolved | app.js:461-463 | only the hit-test source becomes available, keeping the invariant |
| Session.ArSession.UpdateSurfaceStability | app.js:379-407 | only the tracking changes, to the stability update of the raw pose |
| Session.ArSession.RenderHit | app.js:474-513 | the new state is the hit-frame transition of the old |
| Session.ArSession.RenderNoHit | app.js:514-525 | the new state is the no-hit-frame transition of the old |
| Session.ArSession.RenderLocked | app.js:526-547 | the new state is the locked-frame transition of the old |
| Session.ArSession.Render | app.js:452-548 | the new state is the render transition of the old, and the invariant is kept |

## Left out

- Scene, mesh, texture and material construction, the final `renderer.render` call, and `applySurfaceDebugColor`: rendering only. The stability class that `applySurfaceDebugColor` turns into a colour is still modelled.
- Status and diagnostics text, `updateDiagnostics`, the panel and diagnostics toggles, window resizing, and `frameCounter` / `hitFrameCounter`: user interface only.
- WebXR bootstrapping (support check, AR button) and the requests for the viewer reference space and the hit-test source: platform calls. Their results enter as events: `HitTestSourceResolved`, and the `XrFrame` and `Viewer` values passed to `Render` and to placing.
- Floating point: numbers are exact reals. `distanceTo`, `angleTo` and `slerp` are abstract, constrained only by `Lawful`. Its laws for a quaternion against itself hold only for unit quaternions, so `Lifecycle.StillHitsFollow` and `Lifecycle.StillHitsSettle` assume that the hit pose's orientation is a unit quaternion, as a rotation decomposed from a pose matrix is.
- Matrix compose and decompose: a pose is kept as its position and orientation. The model relies on decomposing a composed matrix giving back its parts, and on hit and reticle matrices having scale 1.
- Lifecycle.ScaleChangeKeepsPose: assumes a positive slider value. With a value of 0, `decompose` divides by a zero scale and the orientation comes back as NaN; with a negative value, `decompose` flips the x scale and the orientation comes back turned 180° about x. The slider's range is set outside `app.js`, so nothing in it rules these out. The model keeps the orientation for every value; `Lifecycle.RunKeepsScalePositive` states when the scale stays positive.
- Placement.ClearActiveAnchor, Placement.TryCreateAnchor: `anchorRequestId` is a JavaScript number, so `+= 1` and `++` stop changing it at 2^53. The model takes request ids as unbounded (`nat`), so `Lifecycle.ClearActiveAnchorSupersedes`, `Lifecycle.RunNeverLowersRequestId` and the stale-request lemmas assume fewer than 2^53 requests.
- Session.ArSession: the page's variables are grouped into record-valued fields (`xr`, `placement`, `tracking`, `display`) rather than one field per variable. The two highlight meshes, whose visibility always changes together, are one flag.
- Session.ArSession.ResolveAnchor: assumes the platform settles only outstanding requests and never hands over the same anchor twice, which the page does not check.
- The second 'end' listener that `render` installs is not a separate event: it resets the same two variables that 'sessionend' resets.
- The `.catch` also catches exceptions thrown inside the resolution handler (for instance by `delete()`). The model treats resolution and rejection as separate, non-failing events.
- The early return of `applyScaleFromUi` before the painting exists: the model starts after `init()` has created it.
