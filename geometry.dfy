/**
 * Vectors, quaternions and poses as the viewer holds them (three.js Vector3,
 * Quaternion and decomposed Matrix4), the linear interpolation the placement
 * code applies to positions, and the geometric primitives it uses without
 * depending on how they are computed.
 */
module Geometry {

  /** A three.js Vector3. */
  datatype Vec3 = Vec3(x: real, y: real, z: real)

  /** A three.js Quaternion. */
  datatype Quat = Quat(x: real, y: real, z: real, w: real)

  /** The position and orientation of a decomposed pose matrix (its scale dropped). */
  datatype Pose = Pose(position: Vec3, orientation: Quat)

  /** The position, orientation and uniform scale an object's matrix is composed from. */
  datatype Transform = Transform(position: Vec3, orientation: Quat, scale: real)

  /** `new Vector3()`, `new Quaternion()`, and the identity matrix decomposed. */
  const Origin := Vec3(0.0, 0.0, 0.0)
  const Identity := Quat(0.0, 0.0, 0.0, 1.0)
  const IdentityPose := Pose(Origin, Identity)

  function Add(a: Vec3, b: Vec3): Vec3 { Vec3(a.x + b.x, a.y + b.y, a.z + b.z) }

  function Sub(a: Vec3, b: Vec3): Vec3 { Vec3(a.x - b.x, a.y - b.y, a.z - b.z) }

  function Times(a: Vec3, k: real): Vec3 { Vec3(a.x * k, a.y * k, a.z * k) }

  predicate Between(a: real, b: real, r: real)
  {
    (a <= r <= b) || (b <= r <= a)
  }

  /** Every coordinate of `r` lies between the matching coordinates of `a` and `b`. */
  predicate InBox(a: Vec3, b: Vec3, r: Vec3)
  {
    Between(a.x, b.x, r.x) && Between(a.y, b.y, r.y) && Between(a.z, b.z, r.z)
  }

  /**
   * One coordinate of `Vector3.lerp(target, t)`: `a + (b - a) * t`. What is
   * left of the distance to the target is the old distance times `1 - t`, and
   * for `t` in [0, 1] the result stays between the two ends.
   */
  function Lerp(a: real, b: real, t: real): (r: real)
    ensures r - b == (a - b) * (1.0 - t)
    ensures 0.0 <= t <= 1.0 ==> Between(a, b, r)
    ensures t == 0.0 ==> r == a
    ensures t == 1.0 ==> r == b
  {
    var r := a + (b - a) * t;
    assert r - b == (a - b) * (1.0 - t);
    ScaledGapBetween(a, b, 1.0 - t, r);
    r
  }

  /** `a.lerp(b, t)` on a Vector3. */
  function LerpVec(a: Vec3, b: Vec3, t: real): (r: Vec3)
    ensures Sub(r, b) == Times(Sub(a, b), 1.0 - t)
    ensures 0.0 <= t <= 1.0 ==> InBox(a, b, r)
    ensures a == b ==> r == a
    ensures t == 1.0 ==> r == b
  {
    Vec3(Lerp(a.x, b.x, t), Lerp(a.y, b.y, t), Lerp(a.z, b.z, t))
  }

  /** `b` raised to the power `n`. */
  function Pow(b: real, n: nat): real
  {
    if n == 0 then 1.0 else b * Pow(b, n - 1)
  }

  lemma {:induction false} PowInUnitInterval(b: real, n: nat)
    requires 0.0 <= b <= 1.0
    ensures 0.0 <= Pow(b, n + 1) <= Pow(b, n) <= 1.0
  {
    if n > 0 {
      PowInUnitInterval(b, n - 1);
    }
    var p := Pow(b, n);
    assert Pow(b, n + 1) == b * p;
    NonNegativeProduct(b, p);
    NonNegativeProduct(1.0 - b, p);
    assert p - b * p == (1.0 - b) * p;
  }

  lemma {:induction false} PowAntitone(b: real, m: nat, n: nat)
    requires 0.0 <= b <= 1.0
    requires m <= n
    ensures 0.0 <= Pow(b, n) <= Pow(b, m) <= 1.0
  {
    if m == n {
      PowInUnitInterval(b, n);
    } else {
      PowAntitone(b, m, n - 1);
      PowInUnitInterval(b, n - 1);
    }
  }

  /**
   * The primitives the placement code calls on three.js objects:
   * `Vector3.distanceTo`, `Quaternion.angleTo` and `Quaternion.slerp`.
   * They are parameters of the model, constrained only by `Lawful`.
   */
  datatype Metrics = Metrics(
    distance: (Vec3, Vec3) -> real,
    angle: (Quat, Quat) -> real,
    slerp: (Quat, Quat, real) -> Quat)

  /** A quaternion of norm 1, as every rotation decomposed from a pose matrix is. */
  predicate Unit(q: Quat)
  {
    q.x * q.x + q.y * q.y + q.z * q.z + q.w * q.w == 1.0
  }

  /**
   * What the placement code relies on: distances and angles are never
   * negative, a point is at distance 0 from itself, and a unit quaternion is
   * at angle 0 from itself and is left where it is when slerped toward
   * itself. (For quaternions of another norm, `angleTo` and `slerp` do not
   * behave so: the zero quaternion is at angle pi from itself.)
   */
  ghost predicate Lawful(m: Metrics)
  {
    && (forall a: Vec3, b: Vec3 :: m.distance(a, b) >= 0.0)
    && (forall a: Vec3 :: m.distance(a, a) == 0.0)
    && (forall p: Quat, q: Quat :: m.angle(p, q) >= 0.0)
    && (forall q: Quat :: Unit(q) ==> m.angle(q, q) == 0.0)
    && (forall q: Quat, t: real :: Unit(q) ==> m.slerp(q, q, t) == q)
  }

  /**
   * One step of the reticle smoother: the position is lerped and the
   * orientation slerped toward the raw sample by `alpha`. A sample that is
   * already reached (with a unit orientation) is a fixed point, and the
   * position never overshoots.
   */
  function SmoothPose(m: Metrics, current: Pose, raw: Pose, alpha: real): (r: Pose)
    ensures Lawful(m) && current == raw && Unit(raw.orientation) ==> r == raw
    ensures 0.0 <= alpha <= 1.0 ==> InBox(current.position, raw.position, r.position)
    ensures Sub(r.position, raw.position) == Times(Sub(current.position, raw.position), 1.0 - alpha)
  {
    Pose(LerpVec(current.position, raw.position, alpha), m.slerp(current.orientation, raw.orientation, alpha))
  }

  /** The position reached after `n` lerps by `alpha` toward a fixed `target`. */
  function Follow(start: Vec3, target: Vec3, alpha: real, n: nat): Vec3
  {
    if n == 0 then start else LerpVec(Follow(start, target, alpha, n - 1), target, alpha)
  }

  /** One coordinate of `Follow`. */
  function FollowCoord(a: real, b: real, alpha: real, n: nat): real
  {
    if n == 0 then a else Lerp(FollowCoord(a, b, alpha, n - 1), b, alpha)
  }

  lemma {:induction false} FollowByCoordinates(start: Vec3, target: Vec3, alpha: real, n: nat)
    ensures Follow(start, target, alpha, n) == Vec3(
      FollowCoord(start.x, target.x, alpha, n),
      FollowCoord(start.y, target.y, alpha, n),
      FollowCoord(start.z, target.z, alpha, n))
  {
    if n > 0 {
      FollowByCoordinates(start, target, alpha, n - 1);
    }
  }

  lemma {:induction false} FollowCoordGap(a: real, b: real, alpha: real, n: nat)
    ensures FollowCoord(a, b, alpha, n) - b == (a - b) * Pow(1.0 - alpha, n)
  {
    if n > 0 {
      FollowCoordGap(a, b, alpha, n - 1);
      var k := Pow(1.0 - alpha, n - 1);
      var p := FollowCoord(a, b, alpha, n - 1);
      assert FollowCoord(a, b, alpha, n) - b == (p - b) * (1.0 - alpha);
      assert Pow(1.0 - alpha, n) == (1.0 - alpha) * k;
    }
  }

  /**
   * Repeated lerping toward a fixed target closes the gap geometrically:
   * after `n` steps it is the initial gap times `(1 - alpha)^n`.
   */
  lemma FollowGap(start: Vec3, target: Vec3, alpha: real, n: nat)
    ensures Sub(Follow(start, target, alpha, n), target) == Times(Sub(start, target), Pow(1.0 - alpha, n))
  {
    FollowByCoordinates(start, target, alpha, n);
    FollowCoordGap(start.x, target.x, alpha, n);
    FollowCoordGap(start.y, target.y, alpha, n);
    FollowCoordGap(start.z, target.z, alpha, n);
  }

  /** With a factor in [0, 1], following never moves away from the target. */
  lemma FollowCoordBetween(a: real, b: real, alpha: real, n: nat)
    requires 0.0 <= alpha <= 1.0
    ensures Between(a, b, FollowCoord(a, b, alpha, n))
  {
    PowAntitone(1.0 - alpha, 0, n);
    FollowCoordGap(a, b, alpha, n);
    ScaledGapBetween(a, b, Pow(1.0 - alpha, n), FollowCoord(a, b, alpha, n));
  }

  lemma FollowStaysInBox(start: Vec3, target: Vec3, alpha: real, n: nat)
    requires 0.0 <= alpha <= 1.0
    ensures InBox(start, target, Follow(start, target, alpha, n))
  {
    FollowByCoordinates(start, target, alpha, n);
    FollowCoordBetween(start.x, target.x, alpha, n);
    FollowCoordBetween(start.y, target.y, alpha, n);
    FollowCoordBetween(start.z, target.z, alpha, n);
  }

  lemma NonNegativeProduct(x: real, y: real)
    requires 0.0 <= x && 0.0 <= y
    ensures 0.0 <= x * y
  {
  }

  /** If what is left of the gap to `b` is a fraction `k` of the whole, `r` lies between `a` and `b`. */
  lemma ScaledGapBetween(a: real, b: real, k: real, r: real)
    requires r - b == (a - b) * k
    ensures 0.0 <= k <= 1.0 ==> Between(a, b, r)
  {
    if k < 0.0 || 1.0 < k {
    } else if a <= b {
      NonNegativeProduct(b - a, k);
      NonNegativeProduct(b - a, 1.0 - k);
      assert (b - a) - (b - a) * k == (b - a) * (1.0 - k);
      assert (a - b) * k == -((b - a) * k);
    } else {
      NonNegativeProduct(a - b, k);
      NonNegativeProduct(a - b, 1.0 - k);
      assert (a - b) - (a - b) * k == (a - b) * (1.0 - k);
    }
  }
}
