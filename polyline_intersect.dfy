/**
 * MathHelper::PolylineIntersect (src/MathHelper.cpp): every segment of one flat
 * polyline against every segment of another, results sorted along polyline A.
 */
module PolylineIntersection {
  import opened Vec
  import opened Wrappers
  import opened MathHelper

  /** One intersection: the point, and segment index plus parameter on each polyline. */
  datatype IntersectResult = IntersectResult(
    point: Vec2, segIndexA: nat, paramA: real, segIndexB: nat, paramB: real)

  /** A flat coordinate buffer x0, y0, x1, y1, ... and its closed flag. */
  datatype FlatPolyline = FlatPolyline(coords: seq<real>, closed: bool) {
    /** The number of whole points; a trailing odd coordinate is ignored. */
    function PointCount(): nat { |coords| / 2 }

    function SegmentCount(): nat
      requires 2 <= PointCount()
    {
      if closed then PointCount() else PointCount() - 1
    }

    /**
     * Segment `i` runs from point `i` to point `(i + 1) mod PointCount()`; as i + 1 never
     * exceeds PointCount(), the remainder only wraps the closing segment back to 0.
     */
    function SegmentEnd(i: nat): (k: nat)
      requires 2 <= PointCount() && i < SegmentCount()
      ensures k < PointCount()
      ensures k == (i + 1) % PointCount()
      ensures k == i + 1 || (closed && i == PointCount() - 1 && k == 0)
    {
      if i + 1 == PointCount() then 0 else i + 1
    }
  }

  /** The order the results are sorted by: segment index on A, then parameter on A. */
  predicate OrderedOnA(r: IntersectResult, s: IntersectResult)
  {
    r.segIndexA < s.segIndexA || (r.segIndexA == s.segIndexA && r.paramA <= s.paramA)
  }

  predicate SortedOnA(rs: seq<IntersectResult>)
  {
    forall k, l :: 0 <= k < l < |rs| ==> OrderedOnA(rs[k], rs[l])
  }

  /**
   * A test of segment (a1, a2) against segment (b1, b2).  The scan below is written
   * over any such test so that its loops can be checked without unfolding the
   * arithmetic of the test; PolylineIntersect runs it with SegmentIntersect.
   */
  type SegmentTest = (Vec2, Vec2, Vec2, Vec2) -> Option<SegmentHit>

  /** The result of testing segment `i` of `a` against segment `j` of `b`. */
  function PairHit(a: FlatPolyline, b: FlatPolyline, test: SegmentTest, i: nat, j: nat)
    : (r: Option<IntersectResult>)
    requires 2 <= a.PointCount() && 2 <= b.PointCount()
    requires i < a.SegmentCount() && j < b.SegmentCount()
    ensures r.Some? ==> r.value.segIndexA == i && r.value.segIndexB == j
  {
    var a1, a2 := PointAt(a.coords, i), PointAt(a.coords, a.SegmentEnd(i));
    var b1, b2 := PointAt(b.coords, j), PointAt(b.coords, b.SegmentEnd(j));
    match test(a1, a2, b1, b2)
    case None => None
    case Some(h) => Some(IntersectResult(h.point, i, h.tA, j, h.tB))
  }

  /** Hits of segment `i` of `a` against segments 0 .. j-1 of `b`, in scan order. */
  function RowHits(a: FlatPolyline, b: FlatPolyline, test: SegmentTest, i: nat, j: nat)
    : seq<IntersectResult>
    requires 2 <= a.PointCount() && 2 <= b.PointCount()
    requires i < a.SegmentCount() && j <= b.SegmentCount()
  {
    if j == 0 then []
    else
      match PairHit(a, b, test, i, j - 1)
      case None => RowHits(a, b, test, i, j - 1)
      case Some(r) => RowHits(a, b, test, i, j - 1) + [r]
  }

  /** Hits of segments 0 .. i-1 of `a` against all of `b`, in scan order. */
  function ScanHits(a: FlatPolyline, b: FlatPolyline, test: SegmentTest, i: nat): seq<IntersectResult>
    requires 2 <= a.PointCount() && 2 <= b.PointCount()
    requires i <= a.SegmentCount()
  {
    if i == 0 then [] else ScanHits(a, b, test, i - 1) + RowHits(a, b, test, i - 1, b.SegmentCount())
  }

  /** Every hit, in the order the nested loops push them. */
  function Hits(a: FlatPolyline, b: FlatPolyline, test: SegmentTest): seq<IntersectResult>
  {
    if a.PointCount() < 2 || b.PointCount() < 2 then [] else ScanHits(a, b, test, a.SegmentCount())
  }

  /**
   * Tests every segment of A against every segment of B and sorts the hits.  The
   * result is a permutation of the hits SegmentIntersect reports, ordered by
   * (segIndexA, paramA); the order among ties is not fixed, as with std::sort.
   */
  method PolylineIntersect(vertsA: seq<real>, closedA: bool, vertsB: seq<real>, closedB: bool)
    returns (results: seq<IntersectResult>)
    ensures SortedOnA(results)
    ensures multiset(results) ==
      multiset(Hits(FlatPolyline(vertsA, closedA), FlatPolyline(vertsB, closedB), SegmentIntersect))
  {
    var a, b := FlatPolyline(vertsA, closedA), FlatPolyline(vertsB, closedB);
    results := [];
    if a.PointCount() < 2 || b.PointCount() < 2 {
      return;
    }
    results := Scan(a, b, SegmentIntersect);
    results := SortedCopy(results);
  }

  /** The two nested loops of the scan, pushing hits in (segIndexA, segIndexB) order. */
  method Scan(a: FlatPolyline, b: FlatPolyline, test: SegmentTest) returns (results: seq<IntersectResult>)
    requires 2 <= a.PointCount() && 2 <= b.PointCount()
    ensures results == Hits(a, b, test)
  {
    var segsA := a.SegmentCount();
    results := [];
    var i: nat := 0;
    while i < segsA
      invariant i <= segsA
      invariant results == ScanHits(a, b, test, i)
    {
      var row := ScanRow(a, b, test, i);
      ScanHitsStep(a, b, test, i);
      results := results + row;
      i := i + 1;
    }
    assert Hits(a, b, test) == ScanHits(a, b, test, segsA);
  }

  /** One step of the outer loop: the scan grows by row `i`. */
  lemma ScanHitsStep(a: FlatPolyline, b: FlatPolyline, test: SegmentTest, i: nat)
    requires 2 <= a.PointCount() && 2 <= b.PointCount() && i < a.SegmentCount()
    ensures ScanHits(a, b, test, i + 1) == ScanHits(a, b, test, i) + RowHits(a, b, test, i, b.SegmentCount())
  {
  }

  /** One pass of the outer loop: segment `i` of `a` against every segment of `b`. */
  method ScanRow(a: FlatPolyline, b: FlatPolyline, test: SegmentTest, i: nat)
    returns (row: seq<IntersectResult>)
    requires 2 <= a.PointCount() && 2 <= b.PointCount() && i < a.SegmentCount()
    ensures row == RowHits(a, b, test, i, b.SegmentCount())
  {
    var segsB := b.SegmentCount();
    row := [];
    var j: nat := 0;
    while j < segsB
      invariant j <= segsB
      invariant row == RowHits(a, b, test, i, j)
    {
      var hit := TestPair(a, b, test, i, j);
      if hit.Some? {
        row := row + [hit.value];
      }
      j := j + 1;
    }
  }

  /** The body of the inner loop: segment `i` of `a` against segment `j` of `b`. */
  method TestPair(a: FlatPolyline, b: FlatPolyline, test: SegmentTest, i: nat, j: nat)
    returns (hit: Option<IntersectResult>)
    requires 2 <= a.PointCount() && 2 <= b.PointCount()
    requires i < a.SegmentCount() && j < b.SegmentCount()
    ensures hit == PairHit(a, b, test, i, j)
  {
    var a1, a2 := SegmentPoints(a, i);
    var b1, b2 := SegmentPoints(b, j);
    var h := test(a1, a2, b1, b2);
    if h.Some? {
      hit := Some(IntersectResult(h.value.point, i, h.value.tA, j, h.value.tB));
    } else {
      hit := None;
    }
  }

  /** The two end points of segment `i`, read from the coordinate buffer. */
  method SegmentPoints(p: FlatPolyline, i: nat) returns (p1: Vec2, p2: Vec2)
    requires 2 <= p.PointCount() && i < p.SegmentCount()
    ensures p1 == PointAt(p.coords, i) && p2 == PointAt(p.coords, p.SegmentEnd(i))
  {
    var i2 := p.SegmentEnd(i);
    p1 := Vec2(p.coords[2 * i], p.coords[2 * i + 1]);
    p2 := Vec2(p.coords[2 * i2], p.coords[2 * i2 + 1]);
  }

  /** Copies the hits into a buffer and sorts it in place, as std::sort on the result vector. */
  method SortedCopy(rs: seq<IntersectResult>) returns (sorted: seq<IntersectResult>)
    ensures SortedOnA(sorted)
    ensures multiset(sorted) == multiset(rs)
  {
    var buffer := new IntersectResult[|rs|](k requires 0 <= k < |rs| => rs[k]);
    assert buffer[..] == rs;
    SortOnA(buffer);
    sorted := buffer[..];
  }

  /** The comparator of the source's sort: strictly before in (segIndexA, paramA). */
  predicate Before(r: IntersectResult, s: IntersectResult)
  {
    r.segIndexA < s.segIndexA || (r.segIndexA == s.segIndexA && r.paramA < s.paramA)
  }

  /** In-place insertion sort with the source's comparator. */
  method SortOnA(buffer: array<IntersectResult>)
    modifies buffer
    ensures SortedOnA(buffer[..])
    ensures multiset(buffer[..]) == multiset(old(buffer[..]))
  {
    var i := 0;
    while i < buffer.Length
      invariant 0 <= i <= buffer.Length
      invariant forall k, l :: 0 <= k < l < i ==> OrderedOnA(buffer[k], buffer[l])
      invariant multiset(buffer[..]) == multiset(old(buffer[..]))
    {
      var j := i;
      while 0 < j && Before(buffer[j], buffer[j - 1])
        invariant 0 <= j <= i
        invariant forall k, l :: 0 <= k < l <= i && l != j ==> OrderedOnA(buffer[k], buffer[l])
        invariant multiset(buffer[..]) == multiset(old(buffer[..]))
      {
        buffer[j - 1], buffer[j] := buffer[j], buffer[j - 1];
        j := j - 1;
      }
      i := i + 1;
    }
  }

  // ---------------------------------------------------------------------------
  // What the scan collects

  /** Lexicographic order on the pair (segIndexA, segIndexB): the order of the nested loops. */
  predicate ScannedBefore(r: IntersectResult, s: IntersectResult)
  {
    r.segIndexA < s.segIndexA || (r.segIndexA == s.segIndexA && r.segIndexB < s.segIndexB)
  }

  /** Membership in one row: exactly the successful pairs (i, j') with j' < j. */
  lemma {:induction false} RowHitsMembership(a: FlatPolyline, b: FlatPolyline, test: SegmentTest, i: nat, j: nat, r: IntersectResult)
    requires 2 <= a.PointCount() && 2 <= b.PointCount()
    requires i < a.SegmentCount() && j <= b.SegmentCount()
    ensures r in RowHits(a, b, test, i, j) <==>
      r.segIndexA == i && r.segIndexB < j && PairHit(a, b, test, i, r.segIndexB) == Some(r)
  {
    if j > 0 {
      RowHitsMembership(a, b, test, i, j - 1, r);
    }
  }

  /** Membership in the first i rows. */
  lemma {:induction false} ScanHitsMembership(a: FlatPolyline, b: FlatPolyline, test: SegmentTest, i: nat, r: IntersectResult)
    requires 2 <= a.PointCount() && 2 <= b.PointCount()
    requires i <= a.SegmentCount()
    ensures r in ScanHits(a, b, test, i) <==>
      r.segIndexA < i && r.segIndexB < b.SegmentCount()
      && PairHit(a, b, test, r.segIndexA, r.segIndexB) == Some(r)
  {
    if i > 0 {
      ScanHitsMembership(a, b, test, i - 1, r);
      RowHitsMembership(a, b, test, i - 1, b.SegmentCount(), r);
      ScanHitsStep(a, b, test, i - 1);
    }
  }

  /**
   * The scan finds exactly the segment pairs that SegmentIntersect accepts: a result
   * is collected iff its indices name a segment of each polyline and testing that
   * pair yields it.  Polylines with fewer than two points yield nothing.
   */
  lemma HitsMembership(a: FlatPolyline, b: FlatPolyline, test: SegmentTest, r: IntersectResult)
    ensures r in Hits(a, b, test) <==>
      2 <= a.PointCount() && 2 <= b.PointCount()
      && r.segIndexA < a.SegmentCount() && r.segIndexB < b.SegmentCount()
      && PairHit(a, b, test, r.segIndexA, r.segIndexB) == Some(r)
  {
    if 2 <= a.PointCount() && 2 <= b.PointCount() {
      ScanHitsMembership(a, b, test, a.SegmentCount(), r);
    }
  }

  /** Strictly increasing in (segIndexA, segIndexB). */
  predicate InScanOrder(rs: seq<IntersectResult>)
  {
    forall k, l :: 0 <= k < l < |rs| ==> ScannedBefore(rs[k], rs[l])
  }

  /** Two runs in scan order, the first wholly before the second, join into one. */
  lemma JoinInScanOrder(p: seq<IntersectResult>, q: seq<IntersectResult>)
    requires InScanOrder(p) && InScanOrder(q)
    requires forall k, l :: 0 <= k < |p| && 0 <= l < |q| ==> ScannedBefore(p[k], q[l])
    ensures InScanOrder(p + q)
  {
    var pq := p + q;
    forall k, l | 0 <= k < l < |pq| ensures ScannedBefore(pq[k], pq[l]) {
      if l < |p| {
        assert pq[k] == p[k] && pq[l] == p[l];
      } else if k < |p| {
        assert pq[k] == p[k] && pq[l] == q[l - |p|];
      } else {
        assert pq[k] == q[k - |p|] && pq[l] == q[l - |p|];
      }
    }
  }

  /** Rows are collected in increasing segIndexB, all with segIndexA == i. */
  lemma {:induction false} RowHitsOrdered(a: FlatPolyline, b: FlatPolyline, test: SegmentTest, i: nat, j: nat)
    requires 2 <= a.PointCount() && 2 <= b.PointCount()
    requires i < a.SegmentCount() && j <= b.SegmentCount()
    ensures forall k :: 0 <= k < |RowHits(a, b, test, i, j)| ==>
      RowHits(a, b, test, i, j)[k].segIndexA == i && RowHits(a, b, test, i, j)[k].segIndexB < j
    ensures InScanOrder(RowHits(a, b, test, i, j))
  {
    if j > 0 {
      RowHitsOrdered(a, b, test, i, j - 1);
      var prev := RowHits(a, b, test, i, j - 1);
      var row := RowHits(a, b, test, i, j);
      match PairHit(a, b, test, i, j - 1)
      case None =>
      case Some(r) =>
        assert row == prev + [r];
        JoinInScanOrder(prev, [r]);
        forall k | 0 <= k < |row| ensures row[k].segIndexA == i && row[k].segIndexB < j {
          if k < |prev| {
            assert row[k] == prev[k];
          }
        }
    }
  }

  lemma {:induction false} ScanHitsOrdered(a: FlatPolyline, b: FlatPolyline, test: SegmentTest, i: nat)
    requires 2 <= a.PointCount() && 2 <= b.PointCount()
    requires i <= a.SegmentCount()
    ensures forall k :: 0 <= k < |ScanHits(a, b, test, i)| ==> ScanHits(a, b, test, i)[k].segIndexA < i
    ensures InScanOrder(ScanHits(a, b, test, i))
  {
    if i > 0 {
      ScanHitsOrdered(a, b, test, i - 1);
      RowHitsOrdered(a, b, test, i - 1, b.SegmentCount());
      var prev := ScanHits(a, b, test, i - 1);
      var row := RowHits(a, b, test, i - 1, b.SegmentCount());
      var scan := ScanHits(a, b, test, i);
      assert scan == prev + row;
      forall k, l | 0 <= k < |prev| && 0 <= l < |row| ensures ScannedBefore(prev[k], row[l]) {
        assert prev[k].segIndexA < i - 1 == row[l].segIndexA;
      }
      JoinInScanOrder(prev, row);
      forall k | 0 <= k < |scan| ensures scan[k].segIndexA < i {
        if k < |prev| {
          assert scan[k] == prev[k];
        } else {
          assert scan[k] == row[k - |prev|];
        }
      }
    }
  }

  /**
   * Before sorting, the hits come in strictly increasing (segIndexA, segIndexB)
   * order, so no segment pair contributes more than one result.
   */
  lemma HitsOnePerPair(a: FlatPolyline, b: FlatPolyline, test: SegmentTest)
    ensures InScanOrder(Hits(a, b, test))
  {
    if 2 <= a.PointCount() && 2 <= b.PointCount() {
      ScanHitsOrdered(a, b, test, a.SegmentCount());
    }
  }

  /** With SegmentIntersect as the test, every hit has both parameters in [0, 1]. */
  lemma PairHitParams(a: FlatPolyline, b: FlatPolyline, i: nat, j: nat)
    requires 2 <= a.PointCount() && 2 <= b.PointCount()
    requires i < a.SegmentCount() && j < b.SegmentCount()
    ensures var r := PairHit(a, b, SegmentIntersect, i, j);
      r.Some? ==> 0.0 <= r.value.paramA <= 1.0 && 0.0 <= r.value.paramB <= 1.0
  {
    var a1, a2 := PointAt(a.coords, i), PointAt(a.coords, a.SegmentEnd(i));
    var b1, b2 := PointAt(b.coords, j), PointAt(b.coords, b.SegmentEnd(j));
    var h := SegmentIntersect(a1, a2, b1, b2);
  }

  /** With SegmentIntersect as the test, a reported point lies on segment `i` of `a`, at paramA. */
  lemma PairHitOnSegmentA(a: FlatPolyline, b: FlatPolyline, i: nat, j: nat)
    requires 2 <= a.PointCount() && 2 <= b.PointCount()
    requires i < a.SegmentCount() && j < b.SegmentCount()
    ensures var r := PairHit(a, b, SegmentIntersect, i, j);
      r.Some? ==> r.value.point == PointAt(a.coords, i).Plus(
        PointAt(a.coords, a.SegmentEnd(i)).Minus(PointAt(a.coords, i)).Scale(r.value.paramA))
  {
    var a1, a2 := PointAt(a.coords, i), PointAt(a.coords, a.SegmentEnd(i));
    var b1, b2 := PointAt(b.coords, j), PointAt(b.coords, b.SegmentEnd(j));
    var h := SegmentIntersect(a1, a2, b1, b2);
  }
}
