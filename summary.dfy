/**
 * The band summaries that process_single_file derives from the grouped power
 * spectrum and the coverage analysis: the power distribution in percent, the
 * analyzed folding power, and the figures kept for bands 4, 5 and 6.
 */
module BandSummary {
  import opened Numerics
  import opened DominantBands
  import opened BandCoverage

  /**
   * Each band's share of the total power in percent, or all zeros when the
   * total is not positive.
   */
  function PowerDistribution(spectrum: seq<real>): (pct: seq<real>)
    ensures |pct| == |spectrum|
    ensures Sum(spectrum) > 0.0 ==> forall i :: 0 <= i < |pct| ==> pct[i] * Sum(spectrum) == 100.0 * spectrum[i]
    ensures Sum(spectrum) <= 0.0 ==> forall i :: 0 <= i < |pct| ==> pct[i] == 0.0
  {
    var total := Sum(spectrum);
    if total > 0.0 then seq(|spectrum|, i requires 0 <= i < |spectrum| => spectrum[i] / total * 100.0)
    else seq(|spectrum|, i => 0.0)
  }

  /** With positive total power the percentages add up to 100. */
  lemma PowerDistributionTotal(spectrum: seq<real>)
    requires Sum(spectrum) > 0.0
    ensures Sum(PowerDistribution(spectrum)) == 100.0
  {
    var total := Sum(spectrum);
    var pct := PowerDistribution(spectrum);
    assert forall i :: 0 <= i < |pct| ==> pct[i] == spectrum[i] * (100.0 / total);
    SumScaled(spectrum, pct, 100.0 / total);
  }

  /** For a spectrum of non-negative powers every percentage lies in [0, 100]. */
  lemma PowerDistributionBounds(spectrum: seq<real>, i: nat)
    requires forall j :: 0 <= j < |spectrum| ==> spectrum[j] >= 0.0
    requires i < |spectrum|
    ensures 0.0 <= PowerDistribution(spectrum)[i] <= 100.0
  {
    var total := Sum(spectrum);
    if total > 0.0 {
      ElementAtMostSum(spectrum, i);
      FractionBounds(spectrum[i], total);
      assert PowerDistribution(spectrum)[i] == NumpyDiv(spectrum[i], total).v * 100.0;
    }
  }

  /** Analyzed folding power: the total power of every band but band 0. */
  function AnalyzeFoldingPower(spectrum: seq<real>): (afp: real)
    ensures |spectrum| == 0 ==> afp == 0.0
    ensures |spectrum| > 0 ==> afp + spectrum[0] == Sum(spectrum)
  {
    if |spectrum| == 0 then 0.0
    else
      SumFront(spectrum);
      Sum(spectrum[1..])
  }

  /** The bands whose coverage and power the summary reports. */
  const ReportedBands: seq<int> := [4, 5, 6]

  /** The figures written for a band above the highest label. */
  const ZeroCoverage := Coverage(0, Fin(0.0), 0.0, Fin(0.0))

  /** What the summary keeps for one reported band. */
  function ReportedCoverage(labels: seq<int>, faces: seq<Face>, areas: seq<NonNeg>, band: int): Coverage
    requires |labels| > 0 && |areas| == |faces| && ValidFaces(faces, |labels|)
  {
    if band <= MaxLabel(labels) then CoverageOf(labels, faces, areas, band) else ZeroCoverage
  }

  /**
   * Filling in zeros for a band above the highest label agrees with what
   * calculate_band_coverage would have reported, except on a mesh of zero
   * area, where that would have been NaN percent.
   */
  lemma ZeroFillAgrees(labels: seq<int>, faces: seq<Face>, areas: seq<NonNeg>, band: int)
    requires |labels| > 0 && |areas| == |faces| && ValidFaces(faces, |labels|)
    requires band > MaxLabel(labels)
    ensures Sum(areas) > 0.0 ==> ReportedCoverage(labels, faces, areas, band) == CoverageOf(labels, faces, areas, band)
    ensures Sum(areas) == 0.0 ==> CoverageOf(labels, faces, areas, band).areaPct == NaN
  {
    AboveMaxAbsent(labels, band);
    AbsentCoverage(labels, faces, areas, band);
    var c := CoverageOf(labels, faces, areas, band);
    if Sum(areas) > 0.0 {
      assert c == Coverage(c.vertices, c.vertexPct, c.area, c.areaPct);
    }
  }

  /**
   * The coverage loop over bands 4, 5 and 6: the analysis of the band when it
   * does not exceed the highest label, zeros otherwise. The four parallel
   * lists of the summary are kept as one list of Coverage records.
   */
  method CoverageOfReportedBands(labels: seq<int>, faces: seq<Face>, areas: seq<NonNeg>)
    returns (coverages: seq<Coverage>)
    requires |labels| > 0 && |areas| == |faces| && ValidFaces(faces, |labels|)
    ensures |coverages| == |ReportedBands|
    ensures forall k :: 0 <= k < |ReportedBands| ==>
      coverages[k] == ReportedCoverage(labels, faces, areas, ReportedBands[k])
    ensures forall k :: 0 <= k < |ReportedBands| ==>
      coverages[k].vertices == Count(labels, ReportedBands[k]) && coverages[k].area <= Sum(areas)
  {
    var maxBand := MaxLabel(labels);
    coverages := [];
    var k := 0;
    while k < |ReportedBands|
      invariant 0 <= k <= |ReportedBands|
      invariant |coverages| == k
      invariant forall j :: 0 <= j < k ==> coverages[j] == ReportedCoverage(labels, faces, areas, ReportedBands[j])
      invariant forall j :: 0 <= j < k ==>
        coverages[j].vertices == Count(labels, ReportedBands[j]) && coverages[j].area <= Sum(areas)
    {
      var band := ReportedBands[k];
      var c;
      if band <= maxBand {
        c := CalculateBandCoverage(labels, faces, areas, band);
      } else {
        c := ZeroCoverage;
        AboveMaxAbsent(labels, band);
        SumNonNeg(areas);
      }
      coverages := coverages + [c];
      k := k + 1;
    }
  }

  /**
   * The power loop over bands 4, 5 and 6: the band's power and its ratio to
   * the analyzed folding power (a NumPy division) when the spectrum has that
   * band, zeros otherwise.
   */
  method PowerOfReportedBands(spectrum: seq<real>, afp: real) returns (powers: seq<real>, relPowers: seq<Num>)
    ensures |powers| == |ReportedBands| && |relPowers| == |ReportedBands|
    ensures forall k :: 0 <= k < |ReportedBands| && ReportedBands[k] < |spectrum| ==>
      powers[k] == spectrum[ReportedBands[k]] && relPowers[k] == NumpyDiv(spectrum[ReportedBands[k]], afp)
    ensures forall k :: 0 <= k < |ReportedBands| && ReportedBands[k] >= |spectrum| ==>
      powers[k] == 0.0 && relPowers[k] == Fin(0.0)
  {
    powers, relPowers := [], [];
    var k := 0;
    while k < |ReportedBands|
      invariant 0 <= k <= |ReportedBands|
      invariant |powers| == k && |relPowers| == k
      invariant forall j :: 0 <= j < k && ReportedBands[j] < |spectrum| ==>
        powers[j] == spectrum[ReportedBands[j]] && relPowers[j] == NumpyDiv(spectrum[ReportedBands[j]], afp)
      invariant forall j :: 0 <= j < k && ReportedBands[j] >= |spectrum| ==>
        powers[j] == 0.0 && relPowers[j] == Fin(0.0)
    {
      var band := ReportedBands[k];
      if band < |spectrum| {
        powers := powers + [spectrum[band]];
        relPowers := relPowers + [NumpyDiv(spectrum[band], afp)];
      } else {
        powers := powers + [0.0];
        relPowers := relPowers + [Fin(0.0)];
      }
      k := k + 1;
    }
  }

  /**
   * For non-negative powers and a positive analyzed folding power, the
   * relative power of any band other than 0 is a fraction in [0, 1].
   */
  lemma RelativePowerBounds(spectrum: seq<real>, band: nat)
    requires forall j :: 0 <= j < |spectrum| ==> spectrum[j] >= 0.0
    requires 1 <= band < |spectrum| && AnalyzeFoldingPower(spectrum) > 0.0
    ensures var q := NumpyDiv(spectrum[band], AnalyzeFoldingPower(spectrum));
      q.Fin? && 0.0 <= q.v <= 1.0
  {
    var afp := AnalyzeFoldingPower(spectrum);
    ElementAtMostSum(spectrum[1..], band - 1);
    FractionBounds(spectrum[band], afp);
  }
}
