/** Value types shared by every component, and the engine's small numeric
    helpers the scripts lean on: Mathf.Clamp, Mathf.Clamp01, Mathf.Max,
    Vector3.Lerp and the result range of Random.Range(int, int). */
module Common {

  datatype Option<+T> = None | Some(value: T)

  datatype Vec2 = Vec2(x: real, y: real)

  datatype Vec3 = Vec3(x: real, y: real, z: real) {
    function Plus(o: Vec3): Vec3 { Vec3(x + o.x, y + o.y, z + o.z) }
    function Minus(o: Vec3): Vec3 { Vec3(x - o.x, y - o.y, z - o.z) }
    function Times(k: real): Vec3 { Vec3(x * k, y * k, z * k) }
  }

  const Zero: Vec3 := Vec3(0.0, 0.0, 0.0)
  const Up: Vec3 := Vec3(0.0, 1.0, 0.0)

  /** A rotation as the engine stores it. Quaternion composition, Slerp and
      the Euler/quaternion conversion are not modelled; only which value is
      assigned where. */
  datatype Orientation = Quat(qw: real, qx: real, qy: real, qz: real) | Euler(angles: Vec3)

  /** Mathf.Clamp: tests the lower bound first, so with lo > hi every value
      below lo yields lo and every other value yields hi. */
  function Clamp(v: real, lo: real, hi: real): (r: real)
    ensures lo <= hi ==> lo <= r <= hi
    ensures lo <= v <= hi ==> r == v
    ensures r == v || r == lo || r == hi
  {
    if v < lo then lo else if v > hi then hi else v
  }

  /** Mathf.Clamp on ints, same order of tests. */
  function ClampInt(v: int, lo: int, hi: int): (r: int)
    ensures lo <= hi ==> lo <= r <= hi
    ensures lo <= v <= hi ==> r == v
    ensures r == v || r == lo || r == hi
  {
    if v < lo then lo else if v > hi then hi else v
  }

  /** Mathf.Clamp01. */
  function Clamp01(t: real): (r: real)
    ensures 0.0 <= r <= 1.0
    ensures 0.0 <= t <= 1.0 ==> r == t
  {
    Clamp(t, 0.0, 1.0)
  }

  /** Mathf.Max on two floats. */
  function Max(a: real, b: real): (r: real)
    ensures r >= a && r >= b
    ensures r == a || r == b
  {
    if a > b then a else b
  }

  /** True when v lies on the closed segment between a and b, in either order. */
  predicate Between(v: real, a: real, b: real) {
    (a <= v <= b) || (b <= v <= a)
  }

  lemma ScaledStepBetween(a: real, b: real, c: real)
    requires 0.0 <= c <= 1.0
    ensures Between(a + (b - a) * c, a, b)
  {
    var d := if a <= b then b - a else a - b;
    assert d * c >= 0.0;
    assert d * (1.0 - c) >= 0.0;
    assert d * c + d * (1.0 - c) == d;
  }

  /** Mathf.Lerp / one component of Vector3.Lerp: t is clamped to [0, 1]. */
  function Lerp(a: real, b: real, t: real): (r: real)
    ensures Between(r, a, b)
    ensures t <= 0.0 ==> r == a
    ensures t >= 1.0 ==> r == b
  {
    ScaledStepBetween(a, b, Clamp01(t));
    a + (b - a) * Clamp01(t)
  }

  /** Vector3.Lerp: componentwise, with the same clamped t on every axis. */
  function LerpVec(a: Vec3, b: Vec3, t: real): (r: Vec3)
    ensures Between(r.x, a.x, b.x) && Between(r.y, a.y, b.y) && Between(r.z, a.z, b.z)
    ensures t >= 1.0 ==> r == b
    ensures t <= 0.0 ==> r == a
  {
    Vec3(Lerp(a.x, b.x, t), Lerp(a.y, b.y, t), Lerp(a.z, b.z, t))
  }

  /** The values UnityEngine.Random.Range(lo, hi) on ints can return: lo
      inclusive, hi exclusive, and lo itself when the range is empty. */
  predicate RangeDraw(d: int, lo: int, hi: int) {
    if lo < hi then lo <= d < hi else d == lo
  }

  /** The values UnityEngine.Random.value can return. */
  predicate UnitDraw(u: real) {
    0.0 <= u <= 1.0
  }
}

/** The Rigidbody state the scripts read and write: only flags, velocities
    and position, no simulation. */
module Physics {
  import opened Common

  /** RigidbodyConstraints is a flag set; these are its bit values. */
  const ConstraintsNone: int := 0
  const FreezeRotation: int := 112

  datatype Body = Body(
    useGravity: bool,
    isKinematic: bool,
    constraints: int,
    linearVelocity: Vec3,
    angularVelocity: Vec3,
    position: Vec3)

  /** A Rigidbody added with AddComponent: the engine's defaults. */
  function FreshBody(position: Vec3): (b: Body)
    ensures b.useGravity && !b.isKinematic && b.constraints == ConstraintsNone
    ensures b.linearVelocity == Zero && b.angularVelocity == Zero && b.position == position
  {
    Body(true, false, ConstraintsNone, Zero, Zero, position)
  }
}
