/**
 * Band coverage (calculate_band_coverage): how many vertices carry a band,
 * and the area of the faces that touch it. Triangle areas are taken as given
 * non-negative reals, one per face; the mesh area is their sum.
 */
module BandCoverage {
  import opened Numerics
  import opened DominantBands

  /** A triangle, as three vertex indices. */
  datatype Face = Face(v1: nat, v2: nat, v3: nat)

  predicate FaceIn(f: Face, numVertices: nat)
  {
    f.v1 < numVertices && f.v2 < numVertices && f.v3 < numVertices
  }

  /** Every face refers to existing vertices (guaranteed by the mesh loader). */
  predicate ValidFaces(faces: seq<Face>, numVertices: nat)
  {
    forall k :: 0 <= k < |faces| ==> FaceIn(faces[k], numVertices)
  }

  /** `any(band_vertices[face])`: at least one corner of the face carries the band. */
  predicate Touches(labels: seq<int>, f: Face, band: int)
    requires FaceIn(f, |labels|)
  {
    labels[f.v1] == band || labels[f.v2] == band || labels[f.v3] == band
  }

  /** Sum of the areas of the faces that touch `band`. */
  function CoveredArea(labels: seq<int>, faces: seq<Face>, areas: seq<NonNeg>, band: int): real
    requires |areas| == |faces| && ValidFaces(faces, |labels|)
  {
    if |faces| == 0 then 0.0
    else
      var n := |faces|;
      CoveredArea(labels, faces[..n - 1], areas[..n - 1], band)
        + (if Touches(labels, faces[n - 1], band) then areas[n - 1] else 0.0)
  }

  /** The four numbers the analysis reports for one band. */
  datatype Coverage = Coverage(vertices: nat, vertexPct: Num, area: real, areaPct: Num)

  /**
   * What calculate_band_coverage returns: the vertex count, the count over the
   * number of vertices times 100, the covered area, and the covered area over
   * the mesh area times 100, both divisions as NumPy performs them.
   */
  function CoverageOf(labels: seq<int>, faces: seq<Face>, areas: seq<NonNeg>, band: int): Coverage
    requires |areas| == |faces| && ValidFaces(faces, |labels|)
  {
    var count := Count(labels, band);
    var area := CoveredArea(labels, faces, areas, band);
    Coverage(count, Percent(NumpyDiv(count as real, |labels| as real)),
             area, Percent(NumpyDiv(area, Sum(areas))))
  }

  /** The covered area is never negative and never exceeds the mesh area. */
  lemma {:induction false} CoveredAreaBounds(labels: seq<int>, faces: seq<Face>, areas: seq<NonNeg>, band: int)
    requires |areas| == |faces| && ValidFaces(faces, |labels|)
    ensures 0.0 <= CoveredArea(labels, faces, areas, band) <= Sum(areas)
  {
    if |faces| > 0 {
      var n := |faces|;
      CoveredAreaBounds(labels, faces[..n - 1], areas[..n - 1], band);
    }
  }

  /** A band no vertex carries covers no area. */
  lemma {:induction false} CoveredAreaAbsent(labels: seq<int>, faces: seq<Face>, areas: seq<NonNeg>, band: int)
    requires |areas| == |faces| && ValidFaces(faces, |labels|)
    requires Count(labels, band) == 0
    ensures CoveredArea(labels, faces, areas, band) == 0.0
  {
    if |faces| > 0 {
      var n := |faces|;
      CoveredAreaAbsent(labels, faces[..n - 1], areas[..n - 1], band);
    }
  }

  /** A band every vertex carries covers the whole mesh. */
  lemma {:induction false} CoveredAreaFull(labels: seq<int>, faces: seq<Face>, areas: seq<NonNeg>, band: int)
    requires |areas| == |faces| && ValidFaces(faces, |labels|)
    requires forall i :: 0 <= i < |labels| ==> labels[i] == band
    ensures CoveredArea(labels, faces, areas, band) == Sum(areas)
  {
    if |faces| > 0 {
      var n := |faces|;
      CoveredAreaFull(labels, faces[..n - 1], areas[..n - 1], band);
    }
  }

  /** Area of the faces touching both bands. */
  function SharedArea(labels: seq<int>, faces: seq<Face>, areas: seq<NonNeg>, b1: int, b2: int): real
    requires |areas| == |faces| && ValidFaces(faces, |labels|)
  {
    if |faces| == 0 then 0.0
    else
      var n := |faces|;
      SharedArea(labels, faces[..n - 1], areas[..n - 1], b1, b2)
        + (if Touches(labels, faces[n - 1], b1) && Touches(labels, faces[n - 1], b2) then areas[n - 1] else 0.0)
  }

  /** Area of the faces touching at least one of two bands. */
  function UnionArea(labels: seq<int>, faces: seq<Face>, areas: seq<NonNeg>, b1: int, b2: int): real
    requires |areas| == |faces| && ValidFaces(faces, |labels|)
  {
    if |faces| == 0 then 0.0
    else
      var n := |faces|;
      UnionArea(labels, faces[..n - 1], areas[..n - 1], b1, b2)
        + (if Touches(labels, faces[n - 1], b1) || Touches(labels, faces[n - 1], b2) then areas[n - 1] else 0.0)
  }

  /**
   * Attribution overlaps: a face whose corners carry two bands is counted in
   * full toward each, so the two covered areas add up to the area touched by
   * either band plus, a second time, the area touched by both.
   */
  lemma {:induction false} CoveredAreaOverlap(labels: seq<int>, faces: seq<Face>, areas: seq<NonNeg>, b1: int, b2: int)
    requires |areas| == |faces| && ValidFaces(faces, |labels|)
    ensures CoveredArea(labels, faces, areas, b1) + CoveredArea(labels, faces, areas, b2)
         == UnionArea(labels, faces, areas, b1, b2) + SharedArea(labels, faces, areas, b1, b2)
  {
    if |faces| > 0 {
      var n := |faces|;
      CoveredAreaOverlap(labels, faces[..n - 1], areas[..n - 1], b1, b2);
    }
  }

  /**
   * A band no vertex carries is reported as 0 vertices, 0 %, no area and
   * 0 % of the area; on a mesh of zero area the last is NaN, as nothing
   * guards that division.
   */
  lemma AbsentCoverage(labels: seq<int>, faces: seq<Face>, areas: seq<NonNeg>, band: int)
    requires |areas| == |faces| && ValidFaces(faces, |labels|)
    requires |labels| > 0 && Count(labels, band) == 0
    ensures CoverageOf(labels, faces, areas, band).vertices == 0
    ensures CoverageOf(labels, faces, areas, band).vertexPct == Fin(0.0)
    ensures CoverageOf(labels, faces, areas, band).area == 0.0
    ensures Sum(areas) > 0.0 ==> CoverageOf(labels, faces, areas, band).areaPct == Fin(0.0)
    ensures Sum(areas) == 0.0 ==> CoverageOf(labels, faces, areas, band).areaPct == NaN
  {
    CoveredAreaAbsent(labels, faces, areas, band);
    ZeroPercent(|labels| as real);
    ZeroPercent(Sum(areas));
  }

  /**
   * A band carried by every vertex of a mesh of positive area covers all of
   * it: every vertex, 100 % of them, the whole area, 100 % of it.
   */
  lemma FullCoverage(labels: seq<int>, faces: seq<Face>, areas: seq<NonNeg>, band: int)
    requires |areas| == |faces| && ValidFaces(faces, |labels|)
    requires |labels| > 0 && Sum(areas) > 0.0
    requires forall i :: 0 <= i < |labels| ==> labels[i] == band
    ensures CoverageOf(labels, faces, areas, band) == Coverage(|labels|, Fin(100.0), Sum(areas), Fin(100.0))
  {
    CountAll(labels, band);
    CoveredAreaFull(labels, faces, areas, band);
    WholePercent(|labels| as real);
    WholePercent(Sum(areas));
  }

  /**
   * The ranges of the four reported figures: percentages in [0, 100] when
   * their divisor is positive and NaN when it is zero, since NumPy does not
   * raise on 0/0.
   */
  lemma CoverageBounds(labels: seq<int>, faces: seq<Face>, areas: seq<NonNeg>, band: int)
    requires |areas| == |faces| && ValidFaces(faces, |labels|)
    ensures var c := CoverageOf(labels, faces, areas, band);
      && (|labels| > 0 ==> c.vertexPct.Fin? && 0.0 <= c.vertexPct.v <= 100.0)
      && (|labels| == 0 ==> c.vertexPct == NaN)
      && 0.0 <= c.area <= Sum(areas)
      && (Sum(areas) > 0.0 ==> c.areaPct.Fin? && 0.0 <= c.areaPct.v <= 100.0)
      && (Sum(areas) == 0.0 ==> c.areaPct == NaN)
      && (Count(labels, band) == 0 ==> c.vertices == 0 && c.area == 0.0)
  {
    var count := Count(labels, band);
    var area := CoveredArea(labels, faces, areas, band);
    CoveredAreaBounds(labels, faces, areas, band);
    if |labels| > 0 {
      PercentBounds(count as real, |labels| as real);
    } else {
      ZeroPercent(0.0);
    }
    if Sum(areas) > 0.0 {
      PercentBounds(area, Sum(areas));
    } else if Sum(areas) == 0.0 {
      ZeroPercent(0.0);
    }
    if count == 0 {
      CoveredAreaAbsent(labels, faces, areas, band);
    }
  }

  /**
   * calculate_band_coverage: counts the band's vertices, then walks the faces
   * adding the area of each face that touches the band.
   */
  method CalculateBandCoverage(labels: seq<int>, faces: seq<Face>, areas: seq<NonNeg>, band: int)
    returns (c: Coverage)
    requires |areas| == |faces| && ValidFaces(faces, |labels|)
    ensures c == CoverageOf(labels, faces, areas, band)
    ensures |labels| > 0 ==> c.vertexPct.Fin? && 0.0 <= c.vertexPct.v <= 100.0
    ensures |labels| == 0 ==> c.vertexPct == NaN
    ensures 0.0 <= c.area <= Sum(areas)
    ensures Sum(areas) > 0.0 ==> c.areaPct.Fin? && 0.0 <= c.areaPct.v <= 100.0
    ensures Sum(areas) == 0.0 ==> c.areaPct == NaN
    ensures Count(labels, band) == 0 ==> c.vertices == 0 && c.area == 0.0
  {
    var numVertices := Count(labels, band);
    var vertexPct := Percent(NumpyDiv(numVertices as real, |labels| as real));
    var totalArea := 0.0;
    var k := 0;
    while k < |faces|
      invariant 0 <= k <= |faces|
      invariant totalArea == CoveredArea(labels, faces[..k], areas[..k], band)
    {
      assert faces[..k + 1][..k] == faces[..k] && areas[..k + 1][..k] == areas[..k];
      if Touches(labels, faces[k], band) {
        totalArea := totalArea + areas[k];
      }
      k := k + 1;
    }
    assert faces[..k] == faces && areas[..k] == areas;
    var areaPct := Percent(NumpyDiv(totalArea, Sum(areas)));
    c := Coverage(numVertices, vertexPct, totalArea, areaPct);
    CoverageBounds(labels, faces, areas, band);
  }
}
