/**
 * MathHelper (include/MathHelper.h, src/MathHelper.cpp): the shared tolerance, the
 * bulge-to-centre construction and the straight segment-segment solver.
 */
module MathHelper {
  import opened CMath
  import opened Vec
  import opened Wrappers

  /** The one tolerance of the geometry code (1e-6f; its float rounding is not modelled). */
  const EPSILON: real := 0.000001

  /**
   * A value counts as zero when it lies within EPSILON of 0, boundary included
   * (SegmentIntersect's parallel test below is strict instead).
   */
  predicate IsZero(v: real): (z: bool)
    ensures z <==> -EPSILON <= v <= EPSILON
  {
    Abs(v) <= EPSILON
  }

  // ---------------------------------------------------------------------------
  // Bulge geometry

  /** glm::normalize of a non-zero vector (its properties: NormalizeFacts). */
  function Normalize(v: Vec2, m: MathLib): (u: Vec2)
    requires SqrtLaw(m) && v != Origin
    ensures SqLen(u) == 1.0
    ensures Cross(v, u) == 0.0 && 0.0 < Dot(v, u)
  {
    var len := m.sqrt(SqLen(v));
    NormalizeFacts(v, len, m);
    v.Scale(1.0 / len)
  }

  lemma NormalizeFacts(v: Vec2, len: real, m: MathLib)
    requires SqrtLaw(m) && v != Origin && len == m.sqrt(SqLen(v))
    ensures 0.0 < len
    ensures SqLen(v.Scale(1.0 / len)) == 1.0
    ensures Cross(v, v.Scale(1.0 / len)) == 0.0 && 0.0 < Dot(v, v.Scale(1.0 / len))
  {
    var sq := SqLen(v);
    SqLenPositive(v);
    SqrtPositive(m, sq);
    assert len * len == sq;
    var k := 1.0 / len;
    var u := v.Scale(k);
    assert SqLen(u) == k * k * sq;
    assert k * k * sq == (sq / len) / len;
    assert sq / len == len;
    assert Dot(v, u) == k * sq;
    ProductPositive(k, sq, k * sq);
  }

  /**
   * The centre of the arc a bulge describes, as the header computes it: on the
   * perpendicular bisector of the chord, at signed offset h = chordLen / (4 * bulge)
   * along the left normal.  With a zero bulge it is the chord midpoint.
   * (A zero-length chord with a non-zero bulge normalises a zero vector, which
   * yields NaN in the source; callers must not ask for it.)
   */
  function CenterFromBulge(p1: Vec2, p2: Vec2, bulge: real, m: MathLib): (c: Vec2)
    requires SqrtLaw(m)
    requires !IsZero(bulge) ==> p1 != p2
    ensures IsZero(bulge) ==> c == Midpoint(p1, p2)
  {
    if IsZero(bulge) then
      Midpoint(p1, p2)
    else
      var chord := p2.Minus(p1);
      var chordLen := m.sqrt(SqLen(chord));
      var h := chordLen / (4.0 * bulge);
      var mid := Midpoint(p1, p2);
      var perp := Normalize(Vec2(-chord.y, chord.x), m);
      mid.Plus(perp.Scale(h))
  }

  /**
   * For a non-zero bulge the centre lies on the chord's perpendicular bisector
   * (its offset from the midpoint is orthogonal to the chord), on the left of the
   * chord with signed area |chord|² / (4 bulge).
   */
  lemma CenterOnBisector(p1: Vec2, p2: Vec2, bulge: real, m: MathLib)
    requires SqrtLaw(m) && !IsZero(bulge) && p1 != p2
    ensures Dot(p2.Minus(p1), CenterFromBulge(p1, p2, bulge, m).Minus(Midpoint(p1, p2))) == 0.0
    ensures Cross(p2.Minus(p1), CenterFromBulge(p1, p2, bulge, m).Minus(Midpoint(p1, p2)))
         == SqLen(p2.Minus(p1)) / (4.0 * bulge)
  {
    var chord := p2.Minus(p1);
    DifferenceNonZero(p2, p1);
    var chordLen := m.sqrt(SqLen(chord));
    var h := chordLen / (4.0 * bulge);
    var perp := Normalize(Vec2(-chord.y, chord.x), m);
    CenterOffsetFacts(p1, p2, bulge, chordLen, h, perp, m);
  }

  /** The normalised left normal of a chord is a unit vector orthogonal to the chord, turned to its left. */
  lemma PerpendicularUnit(p1: Vec2, p2: Vec2, m: MathLib)
    requires SqrtLaw(m) && p1 != p2
    ensures SqLen(Normalize(Vec2(-(p2.Minus(p1)).y, (p2.Minus(p1)).x), m)) == 1.0
    ensures Dot(p2.Minus(p1), Normalize(Vec2(-(p2.Minus(p1)).y, (p2.Minus(p1)).x), m)) == 0.0
    ensures 0.0 < Cross(p2.Minus(p1), Normalize(Vec2(-(p2.Minus(p1)).y, (p2.Minus(p1)).x), m))
  {
    var chord := p2.Minus(p1);
    var n := Vec2(-chord.y, chord.x);
    DifferenceNonZero(p2, p1);
    assert n != Origin;
    var len := m.sqrt(SqLen(n));
    NormalizeFacts(n, len, m);
    var k := 1.0 / len;
    LeftNormalScaled(chord, k);
    assert SqLen(n) == SqLen(chord);
    SqLenPositive(chord);
    ProductPositive(1.0 / len, SqLen(chord), k * SqLen(chord));
  }

  lemma CenterOffsetFacts(p1: Vec2, p2: Vec2, bulge: real, chordLen: real, h: real, perp: Vec2, m: MathLib)
    requires SqrtLaw(m) && !IsZero(bulge) && p1 != p2
    requires chordLen == m.sqrt(SqLen(p2.Minus(p1)))
    requires h == chordLen / (4.0 * bulge)
    requires perp == Normalize(Vec2(-(p2.Minus(p1)).y, (p2.Minus(p1)).x), m)
    ensures Dot(p2.Minus(p1), Midpoint(p1, p2).Plus(perp.Scale(h)).Minus(Midpoint(p1, p2))) == 0.0
    ensures Cross(p2.Minus(p1), Midpoint(p1, p2).Plus(perp.Scale(h)).Minus(Midpoint(p1, p2)))
         == SqLen(p2.Minus(p1)) / (4.0 * bulge)
  {
    var chord := p2.Minus(p1);
    var n := Vec2(-chord.y, chord.x);
    var sq := SqLen(chord);
    assert SqLen(n) == sq;
    DifferenceNonZero(p2, p1);
    SqLenPositive(chord);
    SqrtPositive(m, sq);
    var k := 1.0 / chordLen;
    assert perp == n.Scale(k);
    var mid := Midpoint(p1, p2);
    var j := h * k;
    OffsetAlongNormal(mid, n, k, h);
    LeftNormalScaled(chord, j);
    ScaleOfRatio(chordLen, 4.0 * bulge, h, k);
    ReciprocalTimes(j, 4.0 * bulge, sq);
  }

  lemma OffsetAlongNormal(mid: Vec2, n: Vec2, k: real, h: real)
    ensures mid.Plus(n.Scale(k).Scale(h)).Minus(mid) == n.Scale(h * k)
  {
    assert h * (k * n.x) == (h * k) * n.x;
    assert h * (k * n.y) == (h * k) * n.y;
  }

  lemma ReciprocalTimes(j: real, d: real, x: real)
    requires d != 0.0 && j == 1.0 / d
    ensures j * x == x / d
  {
  }

  lemma LeftNormalScaled(v: Vec2, j: real)
    ensures Dot(v, Vec2(-v.y, v.x).Scale(j)) == 0.0
    ensures Cross(v, Vec2(-v.y, v.x).Scale(j)) == j * SqLen(v)
  {
  }

  lemma ScaleOfRatio(len: real, d: real, h: real, k: real)
    requires len != 0.0 && d != 0.0 && h == len / d && k == 1.0 / len
    ensures h * k == 1.0 / d
  {
  }

  /** The centre is equally far from both chord ends. */
  lemma CenterEquidistant(p1: Vec2, p2: Vec2, bulge: real, m: MathLib)
    requires SqrtLaw(m)
    requires !IsZero(bulge) ==> p1 != p2
    ensures SqDist(CenterFromBulge(p1, p2, bulge, m), p1) == SqDist(CenterFromBulge(p1, p2, bulge, m), p2)
  {
    var c := CenterFromBulge(p1, p2, bulge, m);
    var chord := p2.Minus(p1);
    var off := c.Minus(Midpoint(p1, p2));
    var half := chord.Scale(0.5);
    if !IsZero(bulge) {
      CenterOnBisector(p1, p2, bulge, m);
    }
    assert c.Minus(p1) == off.Plus(half);
    assert c.Minus(p2) == off.Minus(half);
    SqLenSumMinusDiff(off, half);
    DotScaled(chord, off, 0.5);
  }

  /**
   * The centre's distance from the chord midpoint is chordLen / (4 |bulge|), stated
   * squared, and it lies to the left of the chord (p1 to p2) exactly when the bulge
   * is positive.
   */
  lemma {:induction false} CenterOffset(p1: Vec2, p2: Vec2, bulge: real, m: MathLib)
    requires SqrtLaw(m) && !IsZero(bulge) && p1 != p2
    ensures SqLen(CenterFromBulge(p1, p2, bulge, m).Minus(Midpoint(p1, p2)))
         == SqLen(p2.Minus(p1)) / (16.0 * bulge * bulge)
    ensures 0.0 < bulge <==> 0.0 < Cross(p2.Minus(p1), CenterFromBulge(p1, p2, bulge, m).Minus(Midpoint(p1, p2)))
  {
    var c := CenterFromBulge(p1, p2, bulge, m);
    var chord := p2.Minus(p1);
    var off := c.Minus(Midpoint(p1, p2));
    CenterOnBisector(p1, p2, bulge, m);
    Lagrange(chord, off);
    DifferenceNonZero(p2, p1);
    SqLenPositive(chord);
    OffsetFromCross(SqLen(chord), SqLen(off), Cross(chord, off), bulge);
  }

  /**
   * The scalar core of CenterOffset: with sq = |chord|^2 > 0, a perpendicular offset
   * whose cross product with the chord is cr = sq / (4 bulge) has squared length
   * sq / (16 bulge^2), and cr has the sign of bulge.
   */
  lemma OffsetFromCross(sq: real, soff: real, cr: real, bulge: real)
    requires 0.0 < sq && bulge != 0.0
    requires sq * soff == cr * cr
    requires cr == sq / (4.0 * bulge)
    ensures soff == sq / (16.0 * bulge * bulge)
    ensures 0.0 < bulge <==> 0.0 < cr
  {
    var d := 4.0 * bulge;
    SquareOfRatio(sq, d, cr);
    assert soff == (cr * cr) / sq;
    var dd := d * d;
    assert dd == 16.0 * bulge * bulge;
    if 0.0 < bulge {
      ProductPositive(sq, 1.0 / d, cr);
    } else {
      ProductPositive(sq, -1.0 / d, -cr);
    }
  }

  lemma SquareOfRatio(n: real, d: real, q: real)
    requires d != 0.0 && n != 0.0 && q == n / d
    ensures q * q == (n * n) / (d * d)
    ensures (q * q) / n == n / (d * d)
  {
  }

  // ---------------------------------------------------------------------------
  // Straight segment intersection

  /** What SegmentIntersect writes to its out-parameters on success. */
  datatype SegmentHit = SegmentHit(tA: real, tB: real, point: Vec2)

  /** std::clamp(t, 0, 1) */
  function Clamp01(t: real): (r: real)
    ensures 0.0 <= r <= 1.0
    ensures 0.0 <= t <= 1.0 ==> r == t
    ensures t < 0.0 ==> r == 0.0
    ensures 1.0 < t ==> r == 1.0
  {
    if t < 0.0 then 0.0 else if 1.0 < t then 1.0 else t
  }

  /** The accepted parameter window [-EPSILON, 1 + EPSILON]. */
  predicate InWindow(t: real)
  {
    -EPSILON <= t <= 1.0 + EPSILON
  }

  /**
   * Intersection of segment a1-a2 with segment b1-b2.  None when the direction
   * vectors are (nearly) parallel or either parameter falls outside the window;
   * otherwise both parameters clamped into [0, 1] and the point on segment A.
   */
  function SegmentIntersect(a1: Vec2, a2: Vec2, b1: Vec2, b2: Vec2): (r: Option<SegmentHit>)
    ensures Abs(Cross(a2.Minus(a1), b2.Minus(b1))) < EPSILON ==> r == None
    ensures r.Some? ==> 0.0 <= r.value.tA <= 1.0 && 0.0 <= r.value.tB <= 1.0
    ensures r.Some? ==> r.value.point == a1.Plus(a2.Minus(a1).Scale(r.value.tA))
  {
    var dA := a2.Minus(a1);
    var dB := b2.Minus(b1);
    var cross := Cross(dA, dB);
    if Abs(cross) < EPSILON then
      None
    else
      var diff := b1.Minus(a1);
      var tA := Cross(diff, dB) / cross;
      var tB := Cross(diff, dA) / cross;
      if tA < -EPSILON || tA > 1.0 + EPSILON || tB < -EPSILON || tB > 1.0 + EPSILON then
        None
      else
        var cA := Clamp01(tA);
        var cB := Clamp01(tB);
        Some(SegmentHit(cA, cB, a1.Plus(dA.Scale(cA))))
  }

  /** a1 + s*(a2-a1) == b1 + t*(b2-b1): the lines through the two segments meet at (s, t). */
  predicate MeetAt(a1: Vec2, a2: Vec2, b1: Vec2, b2: Vec2, s: real, t: real)
  {
    a1.Plus(a2.Minus(a1).Scale(s)) == b1.Plus(b2.Minus(b1).Scale(t))
  }

  /** Two non-parallel lines always meet, at the parameters Cramer's rule gives. */
  lemma LinesMeet(a1: Vec2, a2: Vec2, b1: Vec2, b2: Vec2)
    requires Cross(a2.Minus(a1), b2.Minus(b1)) != 0.0
    ensures MeetAt(a1, a2, b1, b2,
                   Cross(b1.Minus(a1), b2.Minus(b1)) / Cross(a2.Minus(a1), b2.Minus(b1)),
                   Cross(b1.Minus(a1), a2.Minus(a1)) / Cross(a2.Minus(a1), b2.Minus(b1)))
  {
    var dA, dB, d := a2.Minus(a1), b2.Minus(b1), b1.Minus(a1);
    var c := Cross(dA, dB);
    var s := Cross(d, dB) / c;
    var t := Cross(d, dA) / c;
    CramerSolves(dA.x, dA.y, dB.x, dB.y, d.x, d.y, c, s, t);
  }

  lemma CramerSolves(ux: real, uy: real, vx: real, vy: real, dx: real, dy: real, c: real, s: real, t: real)
    requires c == ux * vy - uy * vx && c != 0.0
    requires s == (dx * vy - dy * vx) / c && t == (dx * uy - dy * ux) / c
    ensures s * ux - t * vx == dx && s * uy - t * vy == dy
  {
    var p, q := dx * vy - dy * vx, dx * uy - dy * ux;
    assert s * ux - t * vx == (p * ux - q * vx) / c;
    assert p * ux - q * vx == dx * c;
    assert s * uy - t * vy == (p * uy - q * vy) / c;
    assert p * uy - q * vy == dy * c;
  }

  /** ... and they meet nowhere else. */
  lemma MeetingIsUnique(a1: Vec2, a2: Vec2, b1: Vec2, b2: Vec2, s: real, t: real)
    requires Cross(a2.Minus(a1), b2.Minus(b1)) != 0.0
    requires MeetAt(a1, a2, b1, b2, s, t)
    ensures s == Cross(b1.Minus(a1), b2.Minus(b1)) / Cross(a2.Minus(a1), b2.Minus(b1))
    ensures t == Cross(b1.Minus(a1), a2.Minus(a1)) / Cross(a2.Minus(a1), b2.Minus(b1))
  {
    var dA, dB, d := a2.Minus(a1), b2.Minus(b1), b1.Minus(a1);
    var c := Cross(dA, dB);
    assert d == dA.Scale(s).Minus(dB.Scale(t));
    assert Cross(d, dB) == s * c;
    assert Cross(d, dA) == t * c;
  }

  /**
   * SegmentIntersect against the geometry: when the (non-parallel) lines meet at
   * parameters (s, t), a hit is reported exactly when both lie in the window, and it
   * carries the clamped parameters and the clamped point on A.
   */
  lemma SegmentIntersectMeeting(a1: Vec2, a2: Vec2, b1: Vec2, b2: Vec2, s: real, t: real)
    requires EPSILON <= Abs(Cross(a2.Minus(a1), b2.Minus(b1)))
    requires MeetAt(a1, a2, b1, b2, s, t)
    ensures SegmentIntersect(a1, a2, b1, b2).Some? <==> InWindow(s) && InWindow(t)
    ensures SegmentIntersect(a1, a2, b1, b2).Some? ==>
      SegmentIntersect(a1, a2, b1, b2).value
        == SegmentHit(Clamp01(s), Clamp01(t), a1.Plus(a2.Minus(a1).Scale(Clamp01(s))))
  {
    MeetingIsUnique(a1, a2, b1, b2, s, t);
  }

  /**
   * Two segments that properly cross (both parameters in [0, 1]) are found, and the
   * reported point lies on both segments.
   */
  lemma CrossingFound(a1: Vec2, a2: Vec2, b1: Vec2, b2: Vec2, s: real, t: real)
    requires EPSILON <= Abs(Cross(a2.Minus(a1), b2.Minus(b1)))
    requires MeetAt(a1, a2, b1, b2, s, t) && 0.0 <= s <= 1.0 && 0.0 <= t <= 1.0
    ensures SegmentIntersect(a1, a2, b1, b2) == Some(SegmentHit(s, t, a1.Plus(a2.Minus(a1).Scale(s))))
    ensures SegmentIntersect(a1, a2, b1, b2).value.point == b1.Plus(b2.Minus(b1).Scale(t))
  {
    SegmentIntersectMeeting(a1, a2, b1, b2, s, t);
  }

  /**
   * The parallel test compares the raw cross product of the two direction vectors with
   * EPSILON, so it also rejects short segments that do cross: a segment of length
   * h <= 0.0009 along the x axis and one of the same length crossing it at right angles
   * meet at both midpoints, yet no hit is reported.
   */
  lemma ShortCrossingMissed(h: real)
    requires 0.0 < h <= 0.0009
    ensures MeetAt(Origin, Vec2(h, 0.0), Vec2(h / 2.0, -h / 2.0), Vec2(h / 2.0, h / 2.0), 0.5, 0.5)
    ensures SegmentIntersect(Origin, Vec2(h, 0.0), Vec2(h / 2.0, -h / 2.0), Vec2(h / 2.0, h / 2.0)) == None
  {
    var dA, dB := Vec2(h, 0.0).Minus(Origin), Vec2(h / 2.0, h / 2.0).Minus(Vec2(h / 2.0, -h / 2.0));
    assert Abs(Cross(dA, dB)) < EPSILON by {
      assert dA == Vec2(h, 0.0) && dB == Vec2(0.0, h);
      assert Cross(dA, dB) == h * h;
      assert h * h <= 0.0009 * h <= 0.0009 * 0.0009;
    }
    assert MeetAt(Origin, Vec2(h, 0.0), Vec2(h / 2.0, -h / 2.0), Vec2(h / 2.0, h / 2.0), 0.5, 0.5) by {
      assert dA.Scale(0.5) == Vec2(h / 2.0, 0.0) && dB.Scale(0.5) == Vec2(0.0, h / 2.0);
    }
  }

  /** A zero-length segment never intersects anything. */
  lemma DegenerateSegmentMisses(a1: Vec2, a2: Vec2, b1: Vec2, b2: Vec2)
    requires a1 == a2 || b1 == b2
    ensures SegmentIntersect(a1, a2, b1, b2) == None
  {
  }
}
