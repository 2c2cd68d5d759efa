/**
 * The point-on-circle step shared by the Polyline, Arc and Circle constructors:
 * (cx + r cos θ, cy + r sin θ).
 */
module Sampling {
  import opened CMath
  import opened Vec

  function PointOnCircle(center: Vec2, radius: real, theta: real, m: MathLib): Vec2
  {
    Vec2(center.x + radius * m.cos(theta), center.y + radius * m.sin(theta))
  }

  /** Given cos² + sin² = 1, every sampled point lies at distance |radius| from the centre. */
  lemma OnCircle(center: Vec2, radius: real, theta: real, m: MathLib)
    requires PythagoreanLaw(m)
    ensures SqDist(PointOnCircle(center, radius, theta, m), center) == radius * radius
  {
    var c, s := m.cos(theta), m.sin(theta);
    assert c * c + s * s == 1.0;
    var rc, rs := radius * c, radius * s;
    assert PointOnCircle(center, radius, theta, m).Minus(center) == Vec2(rc, rs);
    calc {
      rc * rc + rs * rs;
      radius * radius * (c * c + s * s);
      radius * radius;
    }
  }

  /** Given cos 0 = 1 and sin 0 = 0, angle 0 gives the point (cx + r, cy). */
  lemma AtZeroAngle(center: Vec2, radius: real, m: MathLib)
    requires ZeroAngleLaw(m)
    ensures PointOnCircle(center, radius, 0.0, m) == Vec2(center.x + radius, center.y)
  {
  }
}
