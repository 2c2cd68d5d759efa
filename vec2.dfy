/** The part of glm::vec2 the geometry code uses, over exact reals. */
module Vec {
  datatype Vec2 = Vec2(x: real, y: real) {
    function Plus(o: Vec2): Vec2 { Vec2(x + o.x, y + o.y) }
    function Minus(o: Vec2): Vec2 { Vec2(x - o.x, y - o.y) }
    function Scale(k: real): Vec2 { Vec2(k * x, k * y) }
  }

  const Origin: Vec2 := Vec2(0.0, 0.0)

  function Abs(r: real): real { if r < 0.0 then -r else r }

  /** The 2D cross product (determinant of the two column vectors). */
  function Cross(u: Vec2, v: Vec2): real { u.x * v.y - u.y * v.x }

  function Dot(u: Vec2, v: Vec2): real { u.x * v.x + u.y * v.y }

  /** Squared Euclidean length. */
  function SqLen(v: Vec2): real { Dot(v, v) }

  /** Squared Euclidean distance. */
  function SqDist(p: Vec2, q: Vec2): real { SqLen(p.Minus(q)) }

  function Midpoint(p: Vec2, q: Vec2): Vec2 { p.Plus(q).Scale(0.5) }

  /** Point `k` of a flat coordinate buffer x0, y0, x1, y1, ... */
  function PointAt(coords: seq<real>, k: nat): Vec2
    requires k < |coords| / 2
  {
    Vec2(coords[2 * k], coords[2 * k + 1])
  }

  /** Points of a prefix buffer are points of the longer buffer. */
  lemma PointAtPrefix(short: seq<real>, long: seq<real>, k: nat)
    requires short <= long && 2 * k + 1 < |short|
    ensures k < |short| / 2 && k < |long| / 2
    ensures PointAt(long, k) == PointAt(short, k)
  {
    assert long[2 * k] == short[2 * k] && long[2 * k + 1] == short[2 * k + 1];
  }

  /** After a buffer of `pts` whole points, the points of the appended buffer follow on. */
  lemma PointAtAppend(front: seq<real>, back: seq<real>, pts: nat, k: nat)
    requires |front| == 2 * pts && 2 * k + 1 < |back|
    ensures k < |back| / 2 && pts + k < |front + back| / 2
    ensures PointAt(front + back, pts + k) == PointAt(back, k)
  {
    assert (front + back)[2 * (pts + k)] == back[2 * k];
    assert (front + back)[2 * (pts + k) + 1] == back[2 * k + 1];
  }

  lemma SqLenNonNegative(v: Vec2)
    ensures 0.0 <= SqLen(v)
  {
    var xx, yy := v.x * v.x, v.y * v.y;
    SquareNonNegative(v.x, xx);
    SquareNonNegative(v.y, yy);
  }

  /** Distinct points have a non-zero difference. */
  lemma DifferenceNonZero(p: Vec2, q: Vec2)
    requires p != q
    ensures p.Minus(q) != Origin
  {
  }

  lemma SqLenPositive(v: Vec2)
    requires v != Origin
    ensures 0.0 < SqLen(v)
  {
    var xx, yy := v.x * v.x, v.y * v.y;
    SquareNonNegative(v.x, xx);
    SquareNonNegative(v.y, yy);
  }

  /* Facts about a product are stated over a named result `p`: the solver rewrites
     `0.0 < a * a` into `a != 0.0`, which would make them useless to callers. */
  lemma ProductPositive(a: real, b: real, p: real)
    requires 0.0 < a && 0.0 < b && p == a * b
    ensures 0.0 < p
  {
  }

  lemma SquareNonNegative(a: real, s: real)
    requires s == a * a
    ensures 0.0 <= s
    ensures a != 0.0 ==> 0.0 < s
  {
    if a < 0.0 {
      ProductPositive(-a, -a, s);
    } else if 0.0 < a {
      ProductPositive(a, a, s);
    }
  }

  /** |o + h|² - |o - h|² = 4 o·h. */
  lemma SqLenSumMinusDiff(o: Vec2, h: Vec2)
    ensures SqLen(o.Plus(h)) - SqLen(o.Minus(h)) == 4.0 * Dot(o, h)
  {
  }

  lemma DotScaled(u: Vec2, v: Vec2, k: real)
    ensures Dot(v, u.Scale(k)) == k * Dot(u, v)
  {
  }

  /** Lagrange's identity in the plane: |u|²|v|² = (u·v)² + (u×v)². */
  lemma Lagrange(u: Vec2, v: Vec2)
    ensures SqLen(u) * SqLen(v) == Dot(u, v) * Dot(u, v) + Cross(u, v) * Cross(u, v)
  {
  }
}
