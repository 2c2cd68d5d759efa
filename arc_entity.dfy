/**
 * The Arc entity (src/Entities/Arc.cpp): an open strip of segments + 1 points from
 * the start angle to the end angle, the end wrapped by one turn when it lies below
 * the start.
 */
module ArcEntity {
  import opened CMath
  import opened Vec
  import opened Sampling

  /** The end angle after the wrap: one full turn is added when it lies below the start. */
  function WrappedEnd(startAngle: real, endAngle: real, m: MathLib): (e: real)
    ensures e == endAngle || e == endAngle + 2.0 * m.pi
    ensures startAngle - 2.0 * m.pi <= endAngle ==> startAngle <= e
  {
    if endAngle < startAngle then endAngle + 2.0 * m.pi else endAngle
  }

  /** The angle between samples: `segments` steps cover the wrapped range exactly. */
  function ArcStep(startAngle: real, endAngle: real, segments: int, m: MathLib): (step: real)
    requires segments != 0
    ensures segments as real * step == WrappedEnd(startAngle, endAngle, m) - startAngle
  {
    var range, n := WrappedEnd(startAngle, endAngle, m) - startAngle, segments as real;
    QuotientTimesDivisor(range, n, range / n);
    range / n
  }

  function ArcAngle(startAngle: real, step: real, i: int): real
  {
    startAngle + i as real * step
  }

  /** The flat buffer of samples 0 .. count-1 at angles start + i * step. */
  function ArcSamples(center: Vec2, radius: real, startAngle: real, step: real, count: nat, m: MathLib): (s: seq<real>)
    ensures |s| == 2 * count
  {
    if count == 0 then []
    else
      var p := PointOnCircle(center, radius, ArcAngle(startAngle, step, count - 1), m);
      ArcSamples(center, radius, startAngle, step, count - 1, m) + [p.x, p.y]
  }

  /** Everything the constructor stores: segments + 1 samples, none when segments is -1. */
  function ArcVertices(center: Vec2, radius: real, startAngle: real, endAngle: real, segments: int, m: MathLib): seq<real>
    requires 0 < segments || segments == -1
  {
    if segments < 0 then []
    else ArcSamples(center, radius, startAngle, ArcStep(startAngle, endAngle, segments, m), segments + 1, m)
  }

  class Arc {
    var vertices: seq<real>

    /**
     * Samples the arc.  Zero segments divides the range by zero (the one point produced
     * is not a number) and a count below -1 makes the source's `reserve` throw, so both
     * are excluded; -1 reserves nothing and produces no point.
     */
    constructor(cx: real, cy: real, radius: real, startAngle: real, endAngle: real, segments: int, m: MathLib)
      requires 0 < segments || segments == -1
      ensures vertices == ArcVertices(Vec2(cx, cy), radius, startAngle, endAngle, segments, m)
    {
      var end := endAngle;
      if end < startAngle {
        end := end + 2.0 * m.pi;
      }
      var angleRange := end - startAngle;
      var step := angleRange / segments as real;
      var verts: seq<real> := [];
      var i := 0;
      while i <= segments
        invariant 0 <= i <= segments + 1 || (segments == -1 && i == 0)
        invariant verts == ArcSamples(Vec2(cx, cy), radius, startAngle, step, i, m)
      {
        var angle := startAngle + i as real * step;
        assert angle == ArcAngle(startAngle, step, i);
        var x := cx + radius * m.cos(angle);
        var y := cy + radius * m.sin(angle);
        assert Vec2(x, y) == PointOnCircle(Vec2(cx, cy), radius, angle, m);
        verts := verts + [x, y];
        i := i + 1;
      }
      vertices := verts;
    }
  }

  // ---------------------------------------------------------------------------
  // Properties

  /** segments + 1 points for a positive count, none for -1. */
  lemma ArcLength(center: Vec2, radius: real, startAngle: real, endAngle: real, segments: int, m: MathLib)
    requires 0 < segments || segments == -1
    ensures |ArcVertices(center, radius, startAngle, endAngle, segments, m)| == if segments < 0 then 0 else 2 * (segments + 1)
  {
  }

  /** Point `k` of the buffer is the sample at angle start + k * step. */
  lemma {:induction false} ArcSamplesAt(center: Vec2, radius: real, startAngle: real, step: real, count: nat, k: nat, m: MathLib)
    requires k < count
    ensures PointAt(ArcSamples(center, radius, startAngle, step, count, m), k)
         == PointOnCircle(center, radius, ArcAngle(startAngle, step, k), m)
  {
    var s := ArcSamples(center, radius, startAngle, step, count, m);
    var prev := ArcSamples(center, radius, startAngle, step, count - 1, m);
    if k < count - 1 {
      ArcSamplesAt(center, radius, startAngle, step, count - 1, k, m);
      assert s[2 * k] == prev[2 * k] && s[2 * k + 1] == prev[2 * k + 1];
    }
  }

  /**
   * The wrap: the end is moved up by a full turn exactly when it lies below the start,
   * and then (for an end no more than one turn below the start) the swept range is
   * between 0 and one turn.
   */
  lemma WrapRange(startAngle: real, endAngle: real, m: MathLib)
    requires 0.0 < m.pi
    ensures endAngle < startAngle <==> WrappedEnd(startAngle, endAngle, m) == endAngle + 2.0 * m.pi
    ensures startAngle - 2.0 * m.pi <= endAngle < startAngle + 2.0 * m.pi ==>
              0.0 <= WrappedEnd(startAngle, endAngle, m) - startAngle < 2.0 * m.pi
  {
  }

  /** The first point sits at the start angle and the last at the (wrapped) end angle. */
  lemma EndAngles(startAngle: real, endAngle: real, segments: int, m: MathLib)
    requires 0 < segments
    ensures ArcAngle(startAngle, ArcStep(startAngle, endAngle, segments, m), 0) == startAngle
    ensures ArcAngle(startAngle, ArcStep(startAngle, endAngle, segments, m), segments) == WrappedEnd(startAngle, endAngle, m)
  {
    var step := ArcStep(startAngle, endAngle, segments, m);
    assert ArcAngle(startAngle, step, segments) == startAngle + segments as real * step;
  }

  /** Helper: a quotient times its divisor gives back the dividend. */
  lemma QuotientTimesDivisor(x: real, d: real, q: real)
    requires d != 0.0 && q == x / d
    ensures d * q == x
  {
  }

  /** With a non-negative range the sample angles increase with the index. */
  lemma ArcAnglesMonotone(startAngle: real, endAngle: real, segments: int, i: int, j: int, m: MathLib)
    requires 0 < segments && i <= j
    requires startAngle <= WrappedEnd(startAngle, endAngle, m)
    ensures ArcAngle(startAngle, ArcStep(startAngle, endAngle, segments, m), i)
         <= ArcAngle(startAngle, ArcStep(startAngle, endAngle, segments, m), j)
  {
    var step := ArcStep(startAngle, endAngle, segments, m);
    assert 0.0 <= step;
    var d := (j - i) as real;
    assert 0.0 <= d * step;
    assert j as real * step == i as real * step + d * step;
  }

  /** Every point of the strip lies on the circle. */
  lemma ArcOnCircle(center: Vec2, radius: real, startAngle: real, endAngle: real, segments: int, k: nat, m: MathLib)
    requires 0 < segments && k <= segments && PythagoreanLaw(m)
    ensures k < |ArcVertices(center, radius, startAngle, endAngle, segments, m)| / 2
    ensures SqDist(PointAt(ArcVertices(center, radius, startAngle, endAngle, segments, m), k), center) == radius * radius
  {
    var step := ArcStep(startAngle, endAngle, segments, m);
    ArcSamplesAt(center, radius, startAngle, step, segments + 1, k, m);
    OnCircle(center, radius, ArcAngle(startAngle, step, k), m);
  }

  /** The first and last points are the circle points at the start and the wrapped end angle. */
  lemma ArcEndPoints(center: Vec2, radius: real, startAngle: real, endAngle: real, segments: int, m: MathLib)
    requires 0 < segments
    ensures PointAt(ArcVertices(center, radius, startAngle, endAngle, segments, m), 0)
         == PointOnCircle(center, radius, startAngle, m)
    ensures PointAt(ArcVertices(center, radius, startAngle, endAngle, segments, m), segments)
         == PointOnCircle(center, radius, WrappedEnd(startAngle, endAngle, m), m)
  {
    var step := ArcStep(startAngle, endAngle, segments, m);
    ArcSamplesAt(center, radius, startAngle, step, segments + 1, 0, m);
    ArcSamplesAt(center, radius, startAngle, step, segments + 1, segments, m);
    EndAngles(startAngle, endAngle, segments, m);
  }
}
