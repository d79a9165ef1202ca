/**
 * The surface-stability scorer: consecutive raw hit poses are turned into a
 * per-frame ("instant") score from their position and angle deltas, the
 * running score is blended toward it, and the running score is classified
 * as good, medium or poor. The class that holds the running score and calls
 * these functions frame by frame is `Session.ArSession`.
 */
module Stability {
  import opened Geometry

  /** `surfaceStability`: 'unknown', 'good', 'medium' or 'poor'. */
  datatype StabilityClass = Unknown | Good | Medium | Poor

  /** STABILITY_POSITION_REF_METERS: the position delta that counts as one unit of jitter. */
  const PositionRef: real := 0.008
  /** STABILITY_ANGLE_REF_RAD: the angle delta that counts as one unit of jitter. */
  const AngleRef: real := 0.09
  /** The cap on a normalised delta, so that one outlier frame weighs at most this much. */
  const MaxNormalized: real := 1.8
  const PositionWeight: real := 0.62
  const AngleWeight: real := 0.38
  /** The factor the running score is lerped by toward the instant score. */
  const ScoreSmoothing: real := 0.22
  const GoodThreshold: real := 0.68
  const MediumThreshold: real := 0.42

  /**
   * `Math.min(delta / reference, 1.8)`: a delta in units of the reference,
   * capped. The cap is reached exactly when the delta is at least 1.8
   * references; below it the result is the delta measured in references.
   */
  function Normalize(delta: real, reference: real): (r: real)
    requires reference > 0.0
    ensures r <= MaxNormalized
    ensures 0.0 <= delta ==> 0.0 <= r
    ensures r == MaxNormalized <==> delta >= MaxNormalized * reference
    ensures r < MaxNormalized ==> r * reference == delta
  {
    var q := delta / reference;
    assert q * reference == delta;
    assert q < MaxNormalized <==> delta < MaxNormalized * reference;
    if q < MaxNormalized then q else MaxNormalized
  }

  /**
   * The score of one frame: `max(0, 1 - (0.62 * normalisedPosition + 0.38 * normalisedAngle))`.
   * For deltas that are distances and angles it lies in [0, 1] and is 1
   * exactly when the pose did not move at all; a position jump of 1.8
   * references or more zeroes it whatever the angle.
   */
  function InstantScore(positionDelta: real, angleDelta: real): (r: real)
    ensures 0.0 <= r
    ensures 0.0 <= positionDelta && 0.0 <= angleDelta ==> r <= 1.0
    ensures 0.0 <= positionDelta && 0.0 <= angleDelta ==> (r == 1.0 <==> positionDelta == 0.0 && angleDelta == 0.0)
    ensures positionDelta >= MaxNormalized * PositionRef && 0.0 <= angleDelta ==> r == 0.0
  {
    var weighted := PositionWeight * Normalize(positionDelta, PositionRef) + AngleWeight * Normalize(angleDelta, AngleRef);
    if 1.0 - weighted > 0.0 then 1.0 - weighted else 0.0
  }

  /**
   * Once an angle delta is past the cap, how far past makes no difference:
   * one outlier frame weighs no more than 1.8 references.
   */
  lemma AngleOutliersScoreAlike(positionDelta: real, angle1: real, angle2: real)
    requires angle1 >= MaxNormalized * AngleRef && angle2 >= MaxNormalized * AngleRef
    ensures InstantScore(positionDelta, angle1) == InstantScore(positionDelta, angle2)
  {
    assert Normalize(angle1, AngleRef) == MaxNormalized == Normalize(angle2, AngleRef);
  }

  /** The larger the deltas, the lower (or equal) the instant score. */
  lemma InstantScoreAntitone(position1: real, angle1: real, position2: real, angle2: real)
    requires 0.0 <= position1 <= position2 && 0.0 <= angle1 <= angle2
    ensures InstantScore(position2, angle2) <= InstantScore(position1, angle1)
  {
    NormalizeMonotone(position1, position2, PositionRef);
    NormalizeMonotone(angle1, angle2, AngleRef);
  }

  lemma NormalizeMonotone(d1: real, d2: real, reference: real)
    requires reference > 0.0 && d1 <= d2
    ensures Normalize(d1, reference) <= Normalize(d2, reference)
  {
    assert d1 / reference <= d2 / reference by {
      assert (d2 / reference - d1 / reference) * reference == d2 - d1;
    }
  }

  /**
   * `THREE.MathUtils.lerp(previous, instant, 0.22)`. The gap to the instant
   * score shrinks by the factor 0.78, the result lies between the two
   * scores (so it stays in [0, 1] when both do), and a single frame can at
   * most pull the running score down to 0.78 of what it was.
   */
  function BlendScore(previous: real, instant: real): (r: real)
    ensures r - instant == (1.0 - ScoreSmoothing) * (previous - instant)
    ensures Between(previous, instant, r)
    ensures 0.0 <= previous <= 1.0 && 0.0 <= instant <= 1.0 ==> 0.0 <= r <= 1.0
    ensures 0.0 <= instant ==> r >= (1.0 - ScoreSmoothing) * previous
  {
    (1.0 - ScoreSmoothing) * previous + ScoreSmoothing * instant
  }

  /**
   * The three-way classification of a running score: good from 0.68 up,
   * medium from 0.42 up to 0.68, poor below 0.42. It never yields 'unknown'.
   */
  function Classify(score: real): (r: StabilityClass)
    ensures r != Unknown
    ensures r == Good <==> score >= GoodThreshold
    ensures r == Medium <==> MediumThreshold <= score < GoodThreshold
    ensures r == Poor <==> score < MediumThreshold
  {
    if score >= GoodThreshold then Good
    else if score >= MediumThreshold then Medium
    else Poor
  }

  /** The order of the classes: poor < medium < good ('unknown' below them all). */
  function Rank(c: StabilityClass): int
  {
    match c
    case Unknown => -1
    case Poor => 0
    case Medium => 1
    case Good => 2
  }

  /** A higher score never gets a worse class. */
  lemma ClassifyMonotone(s1: real, s2: real)
    requires s1 <= s2
    ensures Rank(Classify(s1)) <= Rank(Classify(s2))
  {
  }

  /** The running score after `n` frames whose instant score is 1 (a pose that does not move). */
  function SteadyScore(start: real, n: nat): real
  {
    if n == 0 then start else BlendScore(SteadyScore(start, n - 1), 1.0)
  }

  /** Under a still pose the shortfall from 1 shrinks by 0.78 per frame. */
  lemma {:induction false} SteadyScoreGap(start: real, n: nat)
    ensures 1.0 - SteadyScore(start, n) == Pow(1.0 - ScoreSmoothing, n) * (1.0 - start)
  {
    if n > 0 {
      SteadyScoreGap(start, n - 1);
      var k := Pow(1.0 - ScoreSmoothing, n - 1);
      var p := SteadyScore(start, n - 1);
      assert 1.0 - SteadyScore(start, n) == (1.0 - ScoreSmoothing) * (1.0 - p);
      assert Pow(1.0 - ScoreSmoothing, n) == (1.0 - ScoreSmoothing) * k;
    }
  }

  /** Under a still pose the running score rises monotonically and never passes 1. */
  lemma SteadyScoreRises(start: real, n: nat)
    requires 0.0 <= start <= 1.0
    ensures start <= SteadyScore(start, n) <= SteadyScore(start, n + 1) <= 1.0
  {
    SteadyScoreGap(start, n);
    SteadyScoreGap(start, n + 1);
    PowAntitone(1.0 - ScoreSmoothing, 0, n);
    PowAntitone(1.0 - ScoreSmoothing, n, n + 1);
    var kn, kn1 := Pow(1.0 - ScoreSmoothing, n), Pow(1.0 - ScoreSmoothing, n + 1);
    NonNegativeProduct(1.0 - kn, 1.0 - start);
    NonNegativeProduct(kn - kn1, 1.0 - start);
    NonNegativeProduct(kn1, 1.0 - start);
    assert (1.0 - start) - kn * (1.0 - start) == (1.0 - kn) * (1.0 - start);
    assert kn * (1.0 - start) - kn1 * (1.0 - start) == (kn - kn1) * (1.0 - start);
  }

  /** Five frames of a still pose make any score in [0, 1] good. */
  lemma SteadyScoreTurnsGood(start: real, n: nat)
    requires 0.0 <= start <= 1.0
    requires n >= 5
    ensures Classify(SteadyScore(start, n)) == Good
  {
    SteadyScoreGap(start, n);
    PowAntitone(1.0 - ScoreSmoothing, 5, n);
    var k := Pow(1.0 - ScoreSmoothing, n);
    assert Pow(0.78, 5) == 0.78 * Pow(0.78, 4) == 0.78 * 0.78 * 0.78 * 0.78 * 0.78;
    NonNegativeProduct(0.3 - k, 1.0 - start);
    NonNegativeProduct(k, start);
    assert k * (1.0 - start) <= 0.3 by {
      assert 0.3 - k * (1.0 - start) == (0.3 - k) * (1.0 - start) + 0.3 * start;
    }
  }

  /** Four are not always enough: from a score of 0, four still frames reach only 'medium'. */
  lemma FourSteadyFramesFromZeroAreMedium()
    ensures Classify(SteadyScore(0.0, 4)) == Medium
  {
    SteadyScoreGap(0.0, 4);
    assert Pow(1.0 - ScoreSmoothing, 4) == 0.78 * 0.78 * 0.78 * 0.78;
  }
}
