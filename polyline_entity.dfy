/**
 * The Polyline entity (src/Entities/Polyline.cpp): an LWPOLYLINE's vertex list,
 * each vertex carrying the bulge of the edge that leaves it (DXF group code 42),
 * flattened into a point buffer.  A vertex is emitted as it is; an edge with a
 * non-zero bulge and a next vertex also emits the 15 interior points of a 16-way
 * subdivision of its arc.
 */
module PolylineEntity {
  import opened Wrappers
  import opened CMath
  import opened Vec
  import opened MathHelper
  import opened Sampling

  /** One entry of the DXF vertex list, as read from the file. */
  datatype DxfVertex = DxfVertex(x: real, y: real, bulge: real)

  /** The loader's LWPOLYLINE record: a list of possibly-null vertices and the flag word. */
  datatype LwPolyline = LwPolyline(vertlist: seq<Option<DxfVertex>>, flags: int)

  /** A stored vertex: its position and the bulge of the edge to the next vertex. */
  datatype PolylineVertex = PolylineVertex(position: Vec2, bulge: real)

  /** The arc of one bulged edge: centre, radius, start angle and (direction-fixed) end angle. */
  datatype ArcSweep = ArcSweep(center: Vec2, radius: real, angle1: real, angle2: real)

  /** Number of sub-segments per arc edge; the interior points are s = 1 .. ArcSegments - 1. */
  const ArcSegments: nat := 16

  // ---------------------------------------------------------------------------
  // Vertex capture and the closed flag

  function ToPlyVertex(v: DxfVertex): PolylineVertex
  {
    PolylineVertex(Vec2(v.x, v.y), v.bulge)
  }

  /** The non-null entries of the vertex list, converted, in list order. */
  function Capture(vs: seq<Option<DxfVertex>>): (r: seq<PolylineVertex>)
    ensures |r| <= |vs|
  {
    if vs == [] then []
    else
      var rest := Capture(vs[..|vs| - 1]);
      match vs[|vs| - 1]
      case None => rest
      case Some(v) => rest + [ToPlyVertex(v)]
  }

  /** Bit 0 of the flag word (the closed flag); `%` on int is Euclidean, like bit 0 in two's complement. */
  predicate IsClosed(flags: int): (c: bool)
    ensures c <==> flags != 2 * (flags / 2)
  {
    flags % 2 == 1
  }

  // ---------------------------------------------------------------------------
  // Edges

  /** The vertex an edge from vertex `i` runs to: i + 1, or 0 after the last vertex of a closed polyline of two or more. */
  function NextIndex(i: nat, n: nat, closed: bool): (r: Option<nat>)
    requires i < n
    ensures r.Some? ==> r.value < n && r.value != i
    ensures r.None? <==> i == n - 1 && (!closed || n == 1)
  {
    if i + 1 < n then Some(i + 1)
    else if closed && n > 1 then Some(0)
    else None
  }

  /** Whether the edge leaving vertex `i` is drawn as an arc. */
  predicate EmitsArc(vs: seq<PolylineVertex>, closed: bool, i: nat)
    requires i < |vs|
  {
    !IsZero(vs[i].bulge) && NextIndex(i, |vs|, closed).Some?
  }

  function NextVertex(vs: seq<PolylineVertex>, closed: bool, i: nat): PolylineVertex
    requires i < |vs| && NextIndex(i, |vs|, closed).Some?
  {
    vs[NextIndex(i, |vs|, closed).value]
  }

  /** Every arc edge joins two distinct points (otherwise the centre computation normalises a zero vector). */
  ghost predicate ArcChordsDistinct(vs: seq<PolylineVertex>, closed: bool)
  {
    forall i: nat :: i < |vs| && EmitsArc(vs, closed, i) ==> vs[i].position != NextVertex(vs, closed, i).position
  }

  // ---------------------------------------------------------------------------
  // Arc geometry of one edge

  /** The end-angle correction: a clockwise arc (bulge < 0) ends below its start, a counter-clockwise one above. */
  function FixDirection(angle1: real, angle2: real, bulge: real, m: MathLib): (a: real)
    ensures a == angle2 || a == angle2 - 2.0 * m.pi || a == angle2 + 2.0 * m.pi
    ensures bulge == 0.0 ==> a == angle2
  {
    var a2 := if bulge < 0.0 && angle2 > angle1 then angle2 - 2.0 * m.pi else angle2;
    if bulge > 0.0 && a2 < angle1 then a2 + 2.0 * m.pi else a2
  }

  /** The sweep of a bulged edge from p1 to p2: centre, radius and the two end angles. */
  function BulgeArc(p1: Vec2, p2: Vec2, bulge: real, m: MathLib): (sw: ArcSweep)
    requires SqrtLaw(m)
    requires !IsZero(bulge) ==> p1 != p2
    ensures sw.center == CenterFromBulge(p1, p2, bulge, m)
    ensures 0.0 <= sw.radius && sw.radius * sw.radius == SqDist(sw.center, p1)
  {
    var center := CenterFromBulge(p1, p2, bulge, m);
    SqLenNonNegative(center.Minus(p1));
    var angle1 := m.atan2(p1.y - center.y, p1.x - center.x);
    var angle2 := m.atan2(p2.y - center.y, p2.x - center.x);
    ArcSweep(center, m.sqrt(SqDist(center, p1)), angle1, FixDirection(angle1, angle2, bulge, m))
  }

  /** The interpolation parameter of step `s`: s / 16. */
  function Fraction(s: int): real
  {
    s as real / ArcSegments as real
  }

  /** Linear interpolation from a1 (t = 0) to a2 (t = 1). */
  function Lerp(a1: real, a2: real, t: real): real
  {
    a1 + t * (a2 - a1)
  }

  /** Angle of interpolation step `s`: angle1 + (s / 16) * (angle2 - angle1). */
  function SweepAngle(sw: ArcSweep, s: int): real
  {
    Lerp(sw.angle1, sw.angle2, Fraction(s))
  }

  /** Interpolated point `s` of a sweep: on its circle at SweepAngle(s). */
  function ArcPoint(sw: ArcSweep, s: int, m: MathLib): Vec2
  {
    PointOnCircle(sw.center, sw.radius, SweepAngle(sw, s), m)
  }

  /** The flat buffer of interpolated points s = 1 .. count. */
  function ArcInterior(sw: ArcSweep, m: MathLib, count: nat): (r: seq<real>)
    ensures |r| == 2 * count
  {
    if count == 0 then []
    else
      var p := ArcPoint(sw, count, m);
      ArcInterior(sw, m, count - 1) + [p.x, p.y]
  }

  function EdgeArc(vs: seq<PolylineVertex>, closed: bool, i: nat, m: MathLib): ArcSweep
    requires SqrtLaw(m) && ArcChordsDistinct(vs, closed)
    requires i < |vs| && EmitsArc(vs, closed, i)
  {
    BulgeArc(vs[i].position, NextVertex(vs, closed, i).position, vs[i].bulge, m)
  }

  // ---------------------------------------------------------------------------
  // The flattened buffer

  /** What one iteration of the output loop pushes for vertex `i`. */
  function EdgeCoords(vs: seq<PolylineVertex>, closed: bool, i: nat, m: MathLib): seq<real>
    requires SqrtLaw(m) && ArcChordsDistinct(vs, closed) && i < |vs|
  {
    [vs[i].position.x, vs[i].position.y]
      + if EmitsArc(vs, closed, i) then ArcInterior(EdgeArc(vs, closed, i, m), m, ArcSegments - 1) else []
  }

  /** Number of arc edges among the edges leaving vertices 0 .. count-1. */
  function ArcEdgeCount(vs: seq<PolylineVertex>, closed: bool, count: nat): (k: nat)
    requires count <= |vs|
    ensures k <= count
  {
    if count == 0 then 0
    else ArcEdgeCount(vs, closed, count - 1) + if EmitsArc(vs, closed, count - 1) then 1 else 0
  }

  /** The buffer after `count` iterations: each vertex followed by its edge's interior arc points. */
  function Flatten(vs: seq<PolylineVertex>, closed: bool, m: MathLib, count: nat): (r: seq<real>)
    requires SqrtLaw(m) && ArcChordsDistinct(vs, closed) && count <= |vs|
    ensures |r| == 2 * (count + (ArcSegments - 1) * ArcEdgeCount(vs, closed, count))
  {
    if count == 0 then [] else Flatten(vs, closed, m, count - 1) + EdgeCoords(vs, closed, count - 1, m)
  }

  function PolylineCoords(vs: seq<PolylineVertex>, closed: bool, m: MathLib): seq<real>
    requires SqrtLaw(m) && ArcChordsDistinct(vs, closed)
  {
    Flatten(vs, closed, m, |vs|)
  }

  /** Index, in points, at which vertex `i` is written. */
  function VertexSlot(vs: seq<PolylineVertex>, closed: bool, i: nat): nat
    requires i <= |vs|
  {
    i + (ArcSegments - 1) * ArcEdgeCount(vs, closed, i)
  }

  // ---------------------------------------------------------------------------
  // The entity

  class Polyline {
    var plyVertices: seq<PolylineVertex>
    var closed: bool
    var vertices: seq<real>

    /**
     * Captures the non-null vertices, reads the closed flag, then emits every vertex
     * followed by the interior points of its arc edge, if any.
     */
    constructor(plydata: LwPolyline, m: MathLib)
      requires SqrtLaw(m)
      requires ArcChordsDistinct(Capture(plydata.vertlist), IsClosed(plydata.flags))
      ensures plyVertices == Capture(plydata.vertlist)
      ensures closed == IsClosed(plydata.flags)
      ensures vertices == PolylineCoords(plyVertices, closed, m)
    {
      var ply := CaptureVertices(plydata.vertlist);
      var isClosed := plydata.flags % 2 == 1;
      var verts := FlattenVertices(ply, isClosed, m);
      plyVertices := ply;
      closed := isClosed;
      vertices := verts;
    }
  }

  /** The constructor's first loop: keep the non-null entries, converted, in order. */
  method CaptureVertices(vertlist: seq<Option<DxfVertex>>) returns (ply: seq<PolylineVertex>)
    ensures ply == Capture(vertlist)
  {
    ply := [];
    var k := 0;
    while k < |vertlist|
      invariant 0 <= k <= |vertlist|
      invariant ply == Capture(vertlist[..k])
    {
      assert vertlist[..k + 1][..k] == vertlist[..k];
      var vertPtr := vertlist[k];
      if vertPtr.Some? {
        ply := ply + [PolylineVertex(Vec2(vertPtr.value.x, vertPtr.value.y), vertPtr.value.bulge)];
      }
      k := k + 1;
    }
    assert vertlist[..k] == vertlist;
  }

  /** The constructor's second loop: every vertex, followed by the interior points of its arc edge. */
  method FlattenVertices(ply: seq<PolylineVertex>, isClosed: bool, m: MathLib) returns (verts: seq<real>)
    requires SqrtLaw(m) && ArcChordsDistinct(ply, isClosed)
    ensures verts == PolylineCoords(ply, isClosed, m)
  {
    verts := [];
    var i := 0;
    while i < |ply|
      invariant 0 <= i <= |ply|
      invariant verts == Flatten(ply, isClosed, m, i)
    {
      var edge := EmitEdge(ply, isClosed, i, m);
      verts := verts + edge;
      i := i + 1;
    }
    assert i == |ply|;
  }

  /** One iteration of the second loop: the vertex, then, when its edge is a bulged one with a next vertex, the arc points. */
  method EmitEdge(ply: seq<PolylineVertex>, isClosed: bool, i: nat, m: MathLib) returns (edge: seq<real>)
    requires SqrtLaw(m) && ArcChordsDistinct(ply, isClosed) && i < |ply|
    ensures edge == EdgeCoords(ply, isClosed, i, m)
  {
    var vertCount := |ply|;
    var v1 := ply[i];
    edge := [v1.position.x, v1.position.y];
    var nextIdx := i + 1;
    var hasNext := nextIdx < vertCount;
    if !hasNext && isClosed && vertCount > 1 {
      nextIdx := 0;
      hasNext := true;
    }
    assert hasNext <==> NextIndex(i, vertCount, isClosed).Some?;
    if !IsZero(v1.bulge) && hasNext {
      assert EmitsArc(ply, isClosed, i) && NextVertex(ply, isClosed, i) == ply[nextIdx];
      var v2 := ply[nextIdx];
      var arc := InterpolateArc(v1.position, v2.position, v1.bulge, m);
      edge := edge + arc;
    }
  }

  /** The arc part of one iteration: centre, angles, direction fix, radius, then the 15 interior points. */
  method InterpolateArc(p1: Vec2, p2: Vec2, bulge: real, m: MathLib) returns (pts: seq<real>)
    requires SqrtLaw(m) && !IsZero(bulge) && p1 != p2
    ensures pts == ArcInterior(BulgeArc(p1, p2, bulge, m), m, ArcSegments - 1)
  {
    var center := CenterFromBulge(p1, p2, bulge, m);
    var angle1 := m.atan2(p1.y - center.y, p1.x - center.x);
    var angle2 := m.atan2(p2.y - center.y, p2.x - center.x);
    if bulge < 0.0 && angle2 > angle1 {
      angle2 := angle2 - 2.0 * m.pi;
    }
    if bulge > 0.0 && angle2 < angle1 {
      angle2 := angle2 + 2.0 * m.pi;
    }
    var radius := m.sqrt(SqDist(center, p1));
    assert ArcSweep(center, radius, angle1, angle2) == BulgeArc(p1, p2, bulge, m);
    pts := SampleSweep(center, radius, angle1, angle2, m);
  }

  /** The sampling loop: points at angle1 + (s / 16) * (angle2 - angle1) for s = 1 .. 15. */
  method SampleSweep(center: Vec2, radius: real, angle1: real, angle2: real, m: MathLib) returns (pts: seq<real>)
    ensures pts == ArcInterior(ArcSweep(center, radius, angle1, angle2), m, ArcSegments - 1)
  {
    ghost var sw := ArcSweep(center, radius, angle1, angle2);
    pts := [];
    var s := 1;
    while s < ArcSegments
      invariant 1 <= s <= ArcSegments
      invariant pts == ArcInterior(sw, m, s - 1)
    {
      var t := s as real / ArcSegments as real;
      assert t == Fraction(s);
      var theta := angle1 + t * (angle2 - angle1);
      assert theta == Lerp(angle1, angle2, t);
      var x := center.x + radius * m.cos(theta);
      var y := center.y + radius * m.sin(theta);
      assert Vec2(x, y) == ArcPoint(sw, s, m);
      pts := pts + [x, y];
      s := s + 1;
    }
  }

  // ---------------------------------------------------------------------------
  // Properties of vertex capture and the flag

  /** Capture distributes over concatenation: the kept vertices keep their relative order. */
  lemma {:induction false} CaptureAppend(a: seq<Option<DxfVertex>>, b: seq<Option<DxfVertex>>)
    ensures Capture(a + b) == Capture(a) + Capture(b)
    decreases |b|
  {
    if b == [] {
      assert a + b == a;
    } else {
      var b' := b[..|b| - 1];
      assert (a + b)[..|a + b| - 1] == a + b';
      CaptureAppend(a, b');
    }
  }

  /** A null entry contributes nothing and a present entry contributes exactly its vertex. */
  lemma CaptureSingle(e: Option<DxfVertex>)
    ensures Capture([e]) == match e case None => [] case Some(v) => [ToPlyVertex(v)]
  {
    assert [e][..0] == [];
  }

  /** A stored vertex comes from a non-null entry of the list, and every non-null entry is stored. */
  lemma {:induction false} CaptureMembership(vs: seq<Option<DxfVertex>>, v: DxfVertex)
    ensures ToPlyVertex(v) in Capture(vs) <==> Some(v) in vs
  {
    if vs != [] {
      var front := vs[..|vs| - 1];
      CaptureMembership(front, v);
      assert vs == front + [vs[|vs| - 1]];
    }
  }

  /** Without null entries every vertex is stored, at its own index. */
  lemma {:induction false} CaptureAllPresent(vs: seq<Option<DxfVertex>>)
    requires forall k :: 0 <= k < |vs| ==> vs[k].Some?
    ensures |Capture(vs)| == |vs|
    ensures forall k :: 0 <= k < |vs| ==> Capture(vs)[k] == ToPlyVertex(vs[k].value)
  {
    if vs != [] {
      var front := vs[..|vs| - 1];
      CaptureAllPresent(front);
    }
  }

  /** Only bit 0 of the flag word matters: adding any even number does not change the result. */
  lemma ClosedFlagBit(flags: int, others: int)
    ensures IsClosed(flags + 2 * others) == IsClosed(flags)
    ensures IsClosed(1) && !IsClosed(0) && IsClosed(-1)
  {
    var q := flags / 2;
    assert flags == 2 * q + flags % 2;
    assert flags + 2 * others == 2 * (q + others) + flags % 2;
  }

  // ---------------------------------------------------------------------------
  // Properties of the edge rule

  /** The next index, when there is one, is (i + 1) mod n. */
  lemma NextIndexWraps(i: nat, n: nat, closed: bool)
    requires i < n
    ensures NextIndex(i, n, closed).Some? ==> NextIndex(i, n, closed).value == (i + 1) % n
  {
  }

  /** The last vertex of an open polyline never emits arc points, whatever its bulge. */
  lemma OpenLastVertexNoArc(vs: seq<PolylineVertex>)
    requires |vs| > 0
    ensures !EmitsArc(vs, false, |vs| - 1)
  {
  }

  // ---------------------------------------------------------------------------
  // Properties of the flattened buffer

  /** The whole buffer holds 2 * (n + 15 k) floats for n vertices of which k emit an arc. */
  lemma PolylineLength(vs: seq<PolylineVertex>, closed: bool, m: MathLib)
    requires SqrtLaw(m) && ArcChordsDistinct(vs, closed)
    ensures |PolylineCoords(vs, closed, m)| == 2 * (|vs| + 15 * ArcEdgeCount(vs, closed, |vs|))
  {
  }

  /** The buffer after fewer iterations is a prefix of the buffer after more. */
  lemma {:induction false} FlattenPrefix(vs: seq<PolylineVertex>, closed: bool, m: MathLib, c1: nat, c2: nat)
    requires SqrtLaw(m) && ArcChordsDistinct(vs, closed) && c1 <= c2 <= |vs|
    ensures Flatten(vs, closed, m, c1) <= Flatten(vs, closed, m, c2)
    decreases c2
  {
    if c1 < c2 {
      FlattenPrefix(vs, closed, m, c1, c2 - 1);
    }
  }

  /** Vertex `i` is written at point index VertexSlot(i), so the vertices appear in order. */
  lemma VertexInOutput(vs: seq<PolylineVertex>, closed: bool, m: MathLib, i: nat)
    requires SqrtLaw(m) && ArcChordsDistinct(vs, closed) && i < |vs|
    ensures VertexSlot(vs, closed, i) < |PolylineCoords(vs, closed, m)| / 2
    ensures PointAt(PolylineCoords(vs, closed, m), VertexSlot(vs, closed, i)) == vs[i].position
  {
    var before := Flatten(vs, closed, m, i);
    var edge := EdgeCoords(vs, closed, i, m);
    var upto := Flatten(vs, closed, m, i + 1);
    assert upto == before + edge;
    FlattenPrefix(vs, closed, m, i + 1, |vs|);
    var slot := VertexSlot(vs, closed, i);
    assert |before| == 2 * slot;
    PointAtAppend(before, edge, slot, 0);
    PointAtPrefix(upto, PolylineCoords(vs, closed, m), slot);
  }

  /** Successive vertices are written at strictly increasing slots, 1 or 16 points apart. */
  lemma VertexSlotStep(vs: seq<PolylineVertex>, closed: bool, i: nat)
    requires i < |vs|
    ensures VertexSlot(vs, closed, i + 1) == VertexSlot(vs, closed, i) + if EmitsArc(vs, closed, i) then 16 else 1
  {
  }

  /** Interpolated point s (1 <= s <= count) of a sweep is the circle point at SweepAngle(s). */
  lemma {:induction false} ArcInteriorAt(sw: ArcSweep, m: MathLib, count: nat, s: nat)
    requires 1 <= s <= count
    ensures PointAt(ArcInterior(sw, m, count), s - 1) == ArcPoint(sw, s, m)
  {
    var r := ArcInterior(sw, m, count);
    var prev := ArcInterior(sw, m, count - 1);
    if s < count {
      ArcInteriorAt(sw, m, count - 1, s);
      assert r[2 * (s - 1)] == prev[2 * (s - 1)] && r[2 * (s - 1) + 1] == prev[2 * (s - 1) + 1];
    }
  }

  /** On an arc edge, the s-th point after vertex `i` (1 <= s <= 15) is the edge's arc at step s. */
  lemma ArcPointInOutput(vs: seq<PolylineVertex>, closed: bool, m: MathLib, i: nat, s: nat)
    requires SqrtLaw(m) && ArcChordsDistinct(vs, closed) && i < |vs| && EmitsArc(vs, closed, i)
    requires 1 <= s < ArcSegments
    ensures VertexSlot(vs, closed, i) + s < |PolylineCoords(vs, closed, m)| / 2
    ensures PointAt(PolylineCoords(vs, closed, m), VertexSlot(vs, closed, i) + s)
         == ArcPoint(EdgeArc(vs, closed, i, m), s, m)
  {
    ArcPointInEdge(vs, closed, m, i, s);
    FlattenPrefix(vs, closed, m, i + 1, |vs|);
    PointAtPrefix(Flatten(vs, closed, m, i + 1), PolylineCoords(vs, closed, m), VertexSlot(vs, closed, i) + s);
  }

  /** ArcPointInOutput for the buffer as it stands after iteration `i`. */
  lemma ArcPointInEdge(vs: seq<PolylineVertex>, closed: bool, m: MathLib, i: nat, s: nat)
    requires SqrtLaw(m) && ArcChordsDistinct(vs, closed) && i < |vs| && EmitsArc(vs, closed, i)
    requires 1 <= s < ArcSegments
    ensures 2 * (VertexSlot(vs, closed, i) + s) + 1 < |Flatten(vs, closed, m, i + 1)|
    ensures PointAt(Flatten(vs, closed, m, i + 1), VertexSlot(vs, closed, i) + s)
         == ArcPoint(EdgeArc(vs, closed, i, m), s, m)
  {
    var sw := EdgeArc(vs, closed, i, m);
    var front := Flatten(vs, closed, m, i) + [vs[i].position.x, vs[i].position.y];
    var inner := ArcInterior(sw, m, ArcSegments - 1);
    assert Flatten(vs, closed, m, i + 1) == front + inner;
    ArcInteriorAt(sw, m, ArcSegments - 1, s);
    PointAtAppend(front, inner, VertexSlot(vs, closed, i) + 1, s - 1);
  }

  // ---------------------------------------------------------------------------
  // Properties of the arc of one edge

  /**
   * With both raw angles in (-pi, pi], the corrected end angle runs counter-clockwise
   * from the start for a positive bulge and clockwise for a negative one, by less than
   * a full turn; with a zero bulge it is left alone.
   */
  lemma DirectionFixed(angle1: real, angle2: real, bulge: real, m: MathLib)
    requires 0.0 < m.pi && -m.pi < angle1 <= m.pi && -m.pi < angle2 <= m.pi
    ensures 0.0 < bulge ==> angle1 <= FixDirection(angle1, angle2, bulge, m) < angle1 + 2.0 * m.pi
    ensures bulge < 0.0 ==> angle1 - 2.0 * m.pi < FixDirection(angle1, angle2, bulge, m) <= angle1
  {
  }

  /** The sweep of an edge's arc has the sign of its bulge, given the range of atan2. */
  lemma SweepFollowsBulge(p1: Vec2, p2: Vec2, bulge: real, m: MathLib)
    requires SqrtLaw(m) && Atan2Range(m) && !IsZero(bulge) && p1 != p2
    ensures 0.0 < bulge ==> BulgeArc(p1, p2, bulge, m).angle1 <= BulgeArc(p1, p2, bulge, m).angle2
    ensures bulge < 0.0 ==> BulgeArc(p1, p2, bulge, m).angle2 <= BulgeArc(p1, p2, bulge, m).angle1
    ensures Abs(BulgeArc(p1, p2, bulge, m).angle2 - BulgeArc(p1, p2, bulge, m).angle1) < 2.0 * m.pi
  {
    var center := CenterFromBulge(p1, p2, bulge, m);
    var a1 := m.atan2(p1.y - center.y, p1.x - center.x);
    var a2 := m.atan2(p2.y - center.y, p2.x - center.x);
    DirectionFixed(a1, a2, bulge, m);
  }

  /**
   * Interpolated angles run monotonically from angle1 (s = 0) to angle2 (s = 16):
   * the difference between steps s and t is (t - s) / 16 of the sweep.
   */
  lemma SweepAnglesMonotone(sw: ArcSweep, s: int, t: int)
    requires 0 <= s <= t <= ArcSegments
    ensures SweepAngle(sw, 0) == sw.angle1 && SweepAngle(sw, ArcSegments) == sw.angle2
    ensures sw.angle1 <= sw.angle2 ==> sw.angle1 <= SweepAngle(sw, s) <= SweepAngle(sw, t) <= sw.angle2
    ensures sw.angle2 <= sw.angle1 ==> sw.angle2 <= SweepAngle(sw, t) <= SweepAngle(sw, s) <= sw.angle1
  {
    var d := sw.angle2 - sw.angle1;
    var fs, ft := Fraction(s), Fraction(t);
    FractionRange(s, t);
    var ps, pt := fs * d, ft * d;
    assert SweepAngle(sw, s) == sw.angle1 + ps;
    assert SweepAngle(sw, t) == sw.angle1 + pt;
    if 0.0 <= d {
      ScaledFractionsOrdered(fs, ft, d, ps, pt);
    } else {
      var ns, nt := fs * -d, ft * -d;
      ScaledFractionsOrdered(fs, ft, -d, ns, nt);
      NegatedProduct(fs, d, ps, ns);
      NegatedProduct(ft, d, pt, nt);
    }
  }

  lemma NegatedProduct(a: real, d: real, p: real, q: real)
    requires p == a * d && q == a * -d
    ensures q == -p
  {
  }

  lemma FractionRange(s: int, t: int)
    requires 0 <= s <= t <= ArcSegments
    ensures 0.0 <= Fraction(s) <= Fraction(t) <= 1.0
    ensures Fraction(0) == 0.0 && Fraction(ArcSegments) == 1.0
  {
  }

  /** 0 <= a <= b <= 1 and 0 <= d give 0 <= a d <= b d <= d. */
  lemma ScaledFractionsOrdered(a: real, b: real, d: real, ad: real, bd: real)
    requires 0.0 <= a <= b <= 1.0 && 0.0 <= d && ad == a * d && bd == b * d
    ensures 0.0 <= ad <= bd <= d
  {
    assert bd - ad == (b - a) * d;
    assert d - bd == (1.0 - b) * d;
  }

  /** The centre is as far from the second chord end as from the first, so the radius reaches both. */
  lemma RadiusReachesBothEnds(p1: Vec2, p2: Vec2, bulge: real, m: MathLib)
    requires SqrtLaw(m) && !IsZero(bulge) && p1 != p2
    ensures SqDist(BulgeArc(p1, p2, bulge, m).center, p1) == SqDist(BulgeArc(p1, p2, bulge, m).center, p2)
  {
    CenterEquidistant(p1, p2, bulge, m);
  }

  /** Every interpolated point of an arc edge lies on the circle through both chord endpoints. */
  lemma InterpolatedOnCircle(vs: seq<PolylineVertex>, closed: bool, m: MathLib, i: nat, s: nat)
    requires SqrtLaw(m) && PythagoreanLaw(m) && ArcChordsDistinct(vs, closed)
    requires i < |vs| && EmitsArc(vs, closed, i) && 1 <= s < ArcSegments
    ensures VertexSlot(vs, closed, i) + s < |PolylineCoords(vs, closed, m)| / 2
    ensures SqDist(PointAt(PolylineCoords(vs, closed, m), VertexSlot(vs, closed, i) + s), EdgeArc(vs, closed, i, m).center)
         == SqDist(EdgeArc(vs, closed, i, m).center, vs[i].position)
    ensures SqDist(EdgeArc(vs, closed, i, m).center, vs[i].position)
         == SqDist(EdgeArc(vs, closed, i, m).center, NextVertex(vs, closed, i).position)
  {
    var sw := EdgeArc(vs, closed, i, m);
    ArcPointInOutput(vs, closed, m, i, s);
    OnCircle(sw.center, sw.radius, SweepAngle(sw, s), m);
    RadiusReachesBothEnds(vs[i].position, NextVertex(vs, closed, i).position, vs[i].bulge, m);
  }
}
