/**
 * The Circle entity (src/Entities/Circle.cpp): a closed loop of `segments` points
 * at the uniform angle step 2π / segments.
 */
module CircleEntity {
  import opened CMath
  import opened Vec
  import opened Sampling

  /** Angle of sample `i`: i * step, with step = 2π / segments. */
  function SampleAngle(segments: int, i: int, m: MathLib): (a: real)
    requires 0 < segments
    ensures segments as real * a == i as real * (2.0 * m.pi)
  {
    var n, turn := segments as real, 2.0 * m.pi;
    AngleOfSample(i as real, n, turn, turn / n);
    i as real * (turn / n)
  }

  /** Helper: with step = total / n, n * (i * step) == i * total. */
  lemma AngleOfSample(i: real, n: real, total: real, step: real)
    requires n != 0.0 && step == total / n
    ensures n * (i * step) == i * total
  {
    assert n * step == total;
    assert n * (i * step) == i * (n * step);
  }

  function CirclePoint(center: Vec2, radius: real, segments: int, i: int, m: MathLib): Vec2
    requires 0 < segments
  {
    PointOnCircle(center, radius, SampleAngle(segments, i, m), m)
  }

  /** The flat buffer x0, y0, ..., of samples 0 .. count-1, in the order the loop pushes them. */
  function Samples(center: Vec2, radius: real, segments: int, count: nat, m: MathLib): (s: seq<real>)
    requires 0 < segments
    ensures |s| == 2 * count
  {
    if count == 0 then []
    else
      var p := CirclePoint(center, radius, segments, count - 1, m);
      Samples(center, radius, segments, count - 1, m) + [p.x, p.y]
  }

  /** Everything the constructor stores: no samples unless segments > 0. */
  function CircleVertices(center: Vec2, radius: real, segments: int, m: MathLib): seq<real>
  {
    if segments <= 0 then [] else Samples(center, radius, segments, segments, m)
  }

  class Circle {
    var closed: bool
    var vertices: seq<real>

    /**
     * Marks the entity closed and samples the circle.  A negative `segments` makes
     * the source's `reserve` throw, so it is excluded; with zero segments the step
     * divides by zero but the loop never reads it.
     */
    constructor(cx: real, cy: real, radius: real, segments: int, m: MathLib)
      requires 0 <= segments
      ensures closed
      ensures vertices == CircleVertices(Vec2(cx, cy), radius, segments, m)
    {
      closed := true;
      var verts: seq<real> := [];
      if 0 < segments {
        var step := 2.0 * m.pi / segments as real;
        var i := 0;
        while i < segments
          invariant 0 <= i <= segments
          invariant verts == Samples(Vec2(cx, cy), radius, segments, i, m)
        {
          var angle := i as real * step;
          assert angle == SampleAngle(segments, i, m);
          var x := cx + radius * m.cos(angle);
          var y := cy + radius * m.sin(angle);
          assert Vec2(x, y) == CirclePoint(Vec2(cx, cy), radius, segments, i, m);
          verts := verts + [x, y];
          i := i + 1;
        }
      }
      vertices := verts;
    }
  }

  // ---------------------------------------------------------------------------
  // Properties

  /** Exactly `segments` points are produced (none for segments <= 0). */
  lemma CircleLength(center: Vec2, radius: real, segments: int, m: MathLib)
    ensures |CircleVertices(center, radius, segments, m)| == if segments <= 0 then 0 else 2 * segments
  {
  }

  /** Point `k` of the buffer is the sample at angle k * 2π / segments. */
  lemma {:induction false} SamplesAt(center: Vec2, radius: real, segments: int, count: nat, k: nat, m: MathLib)
    requires 0 < segments && k < count
    ensures PointAt(Samples(center, radius, segments, count, m), k) == CirclePoint(center, radius, segments, k, m)
  {
    var s := Samples(center, radius, segments, count, m);
    var prev := Samples(center, radius, segments, count - 1, m);
    if k < count - 1 {
      SamplesAt(center, radius, segments, count - 1, k, m);
      assert s[2 * k] == prev[2 * k] && s[2 * k + 1] == prev[2 * k + 1];
    }
  }

  lemma CirclePointAt(center: Vec2, radius: real, segments: int, k: nat, m: MathLib)
    requires 0 < segments && k < segments
    ensures k < |CircleVertices(center, radius, segments, m)| / 2
    ensures PointAt(CircleVertices(center, radius, segments, m), k) == CirclePoint(center, radius, segments, k, m)
  {
    SamplesAt(center, radius, segments, segments, k, m);
  }

  /** All sample angles lie in [0, 2π): the start point is not repeated at the end of the loop. */
  lemma AnglesBelowFullTurn(segments: int, i: int, m: MathLib)
    requires 0 < segments && 0 <= i < segments && 0.0 < m.pi
    ensures 0.0 <= SampleAngle(segments, i, m) < 2.0 * m.pi
  {
    var n, turn := segments as real, 2.0 * m.pi;
    FractionOfWhole(i as real, n, turn, turn / n);
  }

  /** Helper: with 0 <= i < n and step = total / n (total > 0), 0 <= i * step < total. */
  lemma FractionOfWhole(i: real, n: real, total: real, step: real)
    requires 0.0 <= i < n && 0.0 < total && step == total / n
    ensures 0.0 <= i * step < total
  {
    assert 0.0 < step;
    var part, whole := i * step, n * step;
    assert whole == total;
    assert part < whole;
  }

  /** Point 0 is (cx + radius, cy). */
  lemma FirstPoint(center: Vec2, radius: real, segments: int, m: MathLib)
    requires 0 < segments && ZeroAngleLaw(m)
    ensures PointAt(CircleVertices(center, radius, segments, m), 0) == Vec2(center.x + radius, center.y)
  {
    CirclePointAt(center, radius, segments, 0, m);
    AtZeroAngle(center, radius, m);
  }

  /** Every point is at distance |radius| from the centre. */
  lemma PointsOnCircle(center: Vec2, radius: real, segments: int, k: nat, m: MathLib)
    requires 0 < segments && k < segments && PythagoreanLaw(m)
    ensures k < |CircleVertices(center, radius, segments, m)| / 2
    ensures SqDist(PointAt(CircleVertices(center, radius, segments, m), k), center) == radius * radius
  {
    CirclePointAt(center, radius, segments, k, m);
    OnCircle(center, radius, SampleAngle(segments, k, m), m);
  }
}
