/** The camera animator at the top of `render`: a parameter `animation` that
    advances by 0.005 per frame and a mode `animationType` that alternates
    between a linear sweep (mode 0) and an orbit (mode 1) every time the
    parameter passes 1.

    The parameter is an exact real here: it reaches exactly 1 on frame 200
    and first exceeds it on frame 201. The JavaScript double accumulates
    rounding error and first exceeds 1 on frame 200; that double sum is not
    modelled.
 */
module Camera {
  import opened Geometry

  const Step: real := 0.005

  datatype CameraState = CameraState(animation: real, animationType: int)

  /** The state `init` sets up. */
  const Initial: CameraState := CameraState(0.0, 0)

  /** JavaScript's `%` on integers: the remainder truncated toward zero, so
      its sign follows the dividend. */
  function JsRem(a: int, b: int): (r: int)
    requires b > 0
    ensures a >= 0 ==> 0 <= r < b
    ensures a < 0 ==> -b < r <= 0
  {
    if a >= 0 then a % b else -((-a) % b)
  }

  /** The truncated remainder differs from the dividend by a multiple of the
      divisor, and agrees with the mathematical remainder when the dividend
      is non-negative. */
  lemma JsRemCongruent(a: int, b: int)
    requires b > 0
    ensures (a - JsRem(a, b)) % b == 0
    ensures a >= 0 ==> JsRem(a, b) == a % b
  {
    var q, r := (if a >= 0 then a else -a) / b, (if a >= 0 then a else -a) % b;
    var m := q * b;
    if a >= 0 {
      assert a - JsRem(a, b) == m;
      DivModUnique(m, b, q, 0);
    } else {
      assert a - JsRem(a, b) == -m;
      assert -m == (-q) * b;
      DivModUnique(-m, b, -q, 0);
    }
  }

  /** Reachable states: mode 0 or 1, parameter in `[0, 1]`. */
  predicate Valid(s: CameraState)
  {
    (s.animationType == 0 || s.animationType == 1) && 0.0 <= s.animation <= 1.0
  }

  /** Whether this tick passes the end of the current sweep. */
  predicate Wraps(s: CameraState)
  {
    s.animation + Step > 1.0
  }

  /** One frame's update: `animation += 0.005`; past 1 it restarts at 0 and
      `animationType++; animationType %= 2`. From a reachable state it
      reaches a reachable state, and the mode changes exactly on the ticks
      that wrap, flipping between 0 and 1. */
  function Tick(s: CameraState): (r: CameraState)
    ensures Wraps(s) ==> r.animation == 0.0
    ensures !Wraps(s) ==> r.animation == s.animation + Step
    ensures Valid(s) ==> Valid(r)
    ensures Valid(s) ==> (r.animationType != s.animationType <==> Wraps(s))
    ensures Valid(s) && Wraps(s) ==> r.animationType == 1 - s.animationType
  {
    var a := s.animation + Step;
    if a > 1.0 then CameraState(0.0, JsRem(s.animationType + 1, 2))
    else CameraState(a, s.animationType)
  }

  /** The state after `k` frames. */
  function Ticks(s: CameraState, k: nat): CameraState
  {
    if k == 0 then s else Tick(Ticks(s, k - 1))
  }

  /** How many of the first `k` frames wrap. */
  function WrapCount(s: CameraState, k: nat): nat
  {
    if k == 0 then 0
    else WrapCount(s, k - 1) + (if Wraps(Ticks(s, k - 1)) then 1 else 0)
  }

  lemma {:induction false} TicksValid(s: CameraState, k: nat)
    requires Valid(s)
    ensures Valid(Ticks(s, k))
  {
    if k > 0 {
      TicksValid(s, k - 1);
    }
  }

  /** Every state the animation reaches from the one `init` sets up is valid. */
  lemma InitialTicksValid(k: nat)
    ensures Valid(Ticks(Initial, k))
  {
    TicksValid(Initial, k);
  }

  /** After any number of frames the mode is the starting mode flipped once
      per wrap: it is the parity of the wrap count. */
  lemma {:induction false} ModeParity(s: CameraState, k: nat)
    requires Valid(s)
    ensures Ticks(s, k).animationType == (s.animationType + WrapCount(s, k)) % 2
  {
    if k > 0 {
      ModeParity(s, k - 1);
      TicksValid(s, k - 1);
    }
  }

  /** Linear sweep along x at height 8, 6 units in front of the scene; the
      parameter is recovered from the eye's x coordinate. */
  function SweepEye(a: real): (e: Vec3)
    ensures e.y == 8.0 && e.z == 6.0
    ensures (e.x + 6.0) / 12.0 == a
  {
    Vec3(-6.0 + a * 12.0, 8.0, 6.0)
  }

  /** Orbit of radius 10 around the vertical axis through the half-turn
      `pi * a`, descending from height 5 to 0 as the parameter runs over
      `[0, 1]`. */
  function OrbitEye(t: Trig, a: real): (e: Vec3)
    ensures 0.0 <= a <= 1.0 ==> 0.0 <= e.y <= 5.0
  {
    var angle := OrbitAngle(t, a);
    Vec3(t.sin(angle) * 10.0, (1.0 - a) * 5.0, t.cos(angle) * 10.0)
  }

  /** `Math.PI * animation`: half a turn over one sweep. */
  function OrbitAngle(t: Trig, a: real): real
  {
    t.pi * a
  }

  /** The eye position: the sweep when the mode is exactly 0, the orbit for
      any other mode. From a reachable state the sweep eye stays on the
      segment from `(-6, 8, 6)` to `(6, 8, 6)` and the orbit eye between
      heights 0 and 5; in mode 0 the eye's x determines the parameter. */
  function Eye(t: Trig, s: CameraState): (e: Vec3)
    ensures Valid(s) && s.animationType == 0 ==> -6.0 <= e.x <= 6.0 && e.y == 8.0 && e.z == 6.0
    ensures Valid(s) && s.animationType != 0 ==> 0.0 <= e.y <= 5.0
    ensures s.animationType == 0 ==> (e.x + 6.0) / 12.0 == s.animation
  {
    if s.animationType == 0 then SweepEye(s.animation) else OrbitEye(t, s.animation)
  }

  /** A larger parameter is further along the sweep. */
  lemma SweepMonotone(a: real, b: real)
    requires a < b
    ensures SweepEye(a).x < SweepEye(b).x
  {
  }

  /** The orbit stays on the circle of radius 10 when `sin^2 + cos^2 = 1`. */
  lemma OrbitRadius(t: Trig, a: real)
    requires t.sin(OrbitAngle(t, a)) * t.sin(OrbitAngle(t, a))
           + t.cos(OrbitAngle(t, a)) * t.cos(OrbitAngle(t, a)) == 1.0
    ensures OrbitEye(t, a).x * OrbitEye(t, a).x + OrbitEye(t, a).z * OrbitEye(t, a).z == 100.0
  {
    ScaledCircle(t.sin(OrbitAngle(t, a)), t.cos(OrbitAngle(t, a)), 10.0);
  }

  lemma ScaledCircle(s: real, c: real, k: real)
    requires s * s + c * c == 1.0
    ensures (s * k) * (s * k) + (c * k) * (c * k) == k * k
  {
    assert (s * k) * (s * k) + (c * k) * (c * k) == (s * s + c * c) * (k * k);
  }

  /** One frame of `render`'s camera part: tick first, then place the eye
      from the new state. From a reachable state the frame reaches a
      reachable state, switches mode exactly when the parameter passes 1,
      and keeps the eye within the sweep segment or the orbit's heights. */
  function Frame(t: Trig, s: CameraState): (r: (CameraState, Vec3))
    ensures r.0 == Tick(s) && r.1 == Eye(t, r.0)
    ensures Valid(s) ==> Valid(r.0)
    ensures Valid(s) ==> (r.0.animationType != s.animationType <==> Wraps(s))
    ensures Valid(s) && r.0.animationType == 0 ==> -6.0 <= r.1.x <= 6.0 && r.1.y == 8.0
    ensures Valid(s) && r.0.animationType != 0 ==> 0.0 <= r.1.y <= 5.0
  {
    var s' := Tick(s);
    (s', Eye(t, s'))
  }
}
