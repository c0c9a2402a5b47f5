/**
 * process_single_file: one surface file in, one result record or nothing
 * out. Loading the mesh, the eigen-decomposition, the spectrum and the local
 * dominance map are done by the surface-analysis library; their outputs are
 * the inputs here.
 */
module SpangyAnalysis {
  import opened Wrappers
  import opened Numerics
  import opened DominantBands
  import opened BandParcels
  import opened BandCoverage
  import opened BandWavelength
  import opened Gyrification
  import opened SubjectNaming
  import opened BandSummary
  import opened ResultRecord

  /** One row of the covariate table: participant_session and scan_age. */
  datatype AgeRow = AgeRow(participantSession: string, scanAge: real)

  /** The scan age of the first row for `key`, or None when no row matches. */
  function LookupAge(table: seq<AgeRow>, key: string): (age: Option<real>)
    ensures age.None? <==> forall i :: 0 <= i < |table| ==> table[i].participantSession != key
    ensures age.Some? ==>
      exists i :: && 0 <= i < |table| && table[i].participantSession == key
                  && table[i].scanAge == age.value
                  && (forall j :: 0 <= j < i ==> table[j].participantSession != key)
  {
    if |table| == 0 then None
    else if table[0].participantSession == key then Some(table[0].scanAge)
    else
      var rest := LookupAge(table[1..], key);
      if rest.Some? then
        ghost var i :| 0 <= i < |table[1..]| && table[1..][i].participantSession == key
          && table[1..][i].scanAge == rest.value
          && forall j :: 0 <= j < i ==> table[1..][j].participantSession != key;
        assert table[i + 1] == table[1..][i];
        assert forall j :: 1 <= j < i + 1 ==> table[j] == table[1..][j - 1];
        rest
      else rest
  }

  /** The mesh as the geometry library sees it. */
  datatype Surface = Surface(
    faces: seq<Face>,
    faceAreas: seq<NonNeg>, // half the cross-product norm of each face
    volume: real,
    hullArea: NonNeg)       // area of the convex hull

  /** mesh.area: the sum of the face areas. */
  function MeshArea(surface: Surface): NonNeg
  {
    SumNonNeg(surface.faceAreas);
    Sum(surface.faceAreas)
  }

  /** The outputs of the spectral decomposition and of the local dominance map. */
  datatype Spectral = Spectral(
    freqs: seq<NonNeg>,      // sqrt(eigVal / (2 pi)) per eigenvalue
    groups: seq<seq<nat>>,   // eigenvalue indices of each band
    spectrum: seq<real>,     // grouped power spectrum, one entry per band
    labels: seq<int>)        // dominant band of each vertex

  /** What the mesh loader and the decomposition guarantee of their outputs. */
  predicate Consistent(surface: Surface, spectral: Spectral)
  {
    && |surface.faceAreas| == |surface.faces|
    && ValidFaces(surface.faces, |spectral.labels|)
    && (forall g :: 0 <= g < |spectral.groups| ==> ValidGroup(spectral.freqs, spectral.groups[g]))
    && |spectral.spectrum| == |spectral.groups|
  }

  /**
   * The mesh test: the file looked up in the surface directory is the listed
   * name with the smoothing marker removed, not the listed name itself.
   */
  predicate MeshFound(filename: string, meshDir: set<string>)
  {
    RemoveAll(filename, SmoothingMarker) in meshDir
  }

  /**
   * The cases in which the analysis returns None, in the order it meets them:
   * an IndexError from the name split, caught by the outer handler; no table
   * row for the subject, caught by the inner bare except, which returns None
   * itself; no mesh file under the stripped name, an explicit return of None
   * without an exception; a zero hull area (ZeroDivisionError) and an empty
   * label array (np.max raises ValueError), both caught by the outer handler.
   */
  predicate Skipped(filename: string, table: seq<AgeRow>, meshDir: set<string>, surface: Surface, spectral: Spectral)
  {
    || DeriveIds(filename).Failure?
    || LookupAge(table, DeriveIds(filename).value.baseParticipantSession).None?
    || !MeshFound(filename, meshDir)
    || surface.hullArea == 0.0
    || |spectral.labels| == 0
  }

  /**
   * A listed name carrying the smoothing marker passes the mesh test exactly
   * when the unmarked name is in the directory, whether or not the listed
   * file itself is; when it is absent the file is skipped.
   */
  lemma SmoothedNameNeedsUnmarkedMesh(x: string, table: seq<AgeRow>, meshDir: set<string>,
                                      surface: Surface, spectral: Spectral)
    requires forall i: nat :: !MatchAt(x, SmoothingMarker, i)
    ensures MeshFound(SmoothingMarker + x, meshDir) <==> x in meshDir
    ensures x !in meshDir ==> Skipped(SmoothingMarker + x, table, meshDir, surface, spectral)
  {
    RemoveAllDeletesOccurrence("", SmoothingMarker, x);
    assert "" + SmoothingMarker + x == SmoothingMarker + x;
    RemoveAllNoMatch(x, SmoothingMarker);
  }

  /** One wavelength per eigenvalue group. */
  function Wavelengths(spectral: Spectral): seq<real>
    requires forall g :: 0 <= g < |spectral.groups| ==> ValidGroup(spectral.freqs, spectral.groups[g])
  {
    seq(|spectral.groups|, g requires 0 <= g < |spectral.groups| => Wavelength(spectral.freqs, spectral.groups[g]))
  }

  /** One parcel count per band 0..levels-1. */
  function ParcelCounts(labels: seq<int>, levels: nat): seq<nat>
  {
    seq(levels, b requires 0 <= b < levels => RunCount(labels, b))
  }

  /** The coverage figures kept for bands 4, 5 and 6. */
  function ReportedCoverages(surface: Surface, labels: seq<int>): seq<Coverage>
    requires |labels| > 0 && |surface.faceAreas| == |surface.faces| && ValidFaces(surface.faces, |labels|)
  {
    seq(|ReportedBands|, k requires 0 <= k < |ReportedBands| =>
      ReportedCoverage(labels, surface.faces, surface.faceAreas, ReportedBands[k]))
  }

  /** The relative powers kept for bands 4, 5 and 6. */
  function ReportedRelativePowers(spectrum: seq<real>, afp: real): seq<Num>
  {
    seq(|ReportedBands|, k requires 0 <= k < |ReportedBands| =>
      if ReportedBands[k] < |spectrum| then NumpyDiv(spectrum[ReportedBands[k]], afp) else Fin(0.0))
  }

  /** The measures of a file that passed every check. */
  function MeasuresOf(participantSession: string, age: real, surface: Surface, spectral: Spectral,
                      totalMeanCurvature: real, clock: real, gyrification: (real, NonNeg)): (m: Measures)
    requires Consistent(surface, spectral) && |spectral.labels| > 0
    ensures WellFormed(m)
  {
    var afp := AnalyzeFoldingPower(spectral.spectrum);
    Measures(participantSession, age, totalMeanCurvature, gyrification.0, gyrification.1,
             surface.volume, MeshArea(surface), afp, clock,
             ReportedRelativePowers(spectral.spectrum, afp), ReportedCoverages(surface, spectral.labels))
  }

  /**
   * The record of a file that passed every check: the literal part (with
   * band 6's vertex count under its own key), then the four columns of every
   * band.
   */
  function FileRecord(participantSession: string, age: real, surface: Surface, spectral: Spectral,
                      totalMeanCurvature: real, clock: real, gyrification: (real, NonNeg)): Record
    requires Consistent(surface, spectral) && |spectral.labels| > 0
  {
    var spectrum := spectral.spectrum;
    var levels := |spectral.groups|;
    FixedFields(MeasuresOf(participantSession, age, surface, spectral, totalMeanCurvature, clock, gyrification))
      + BandFields(spectrum, PowerDistribution(spectrum), Wavelengths(spectral), ParcelCounts(spectral.labels, levels), levels)
  }

  /** The identifying and whole-brain columns of the record. */
  lemma FileRecordIdentity(participantSession: string, age: real, surface: Surface, spectral: Spectral,
                           totalMeanCurvature: real, clock: real, gyrification: (real, NonNeg))
    requires Consistent(surface, spectral) && |spectral.labels| > 0
    ensures var r := FileRecord(participantSession, age, surface, spectral, totalMeanCurvature, clock, gyrification);
      && "participant_session" in r && r["participant_session"] == Text(participantSession)
      && "gestational_age" in r && r["gestational_age"] == Float(Fin(age))
      && "gyrification_index" in r && r["gyrification_index"] == Float(Fin(gyrification.0))
      && "hull_area" in r && r["hull_area"] == Float(Fin(gyrification.1))
      && "analyze_folding_power" in r
      && r["analyze_folding_power"] == Float(Fin(AnalyzeFoldingPower(spectral.spectrum)))
  {
    var m := MeasuresOf(participantSession, age, surface, spectral, totalMeanCurvature, clock, gyrification);
    var levels := |spectral.groups|;
    var pct, ws, ps := PowerDistribution(spectral.spectrum), Wavelengths(spectral), ParcelCounts(spectral.labels, levels);
    BandFieldsKeys(spectral.spectrum, pct, ws, ps, levels);
    ExtendedIdentity(m, BandFields(spectral.spectrum, pct, ws, ps, levels));
  }

  /**
   * The vertex counts of bands 4, 5 and 6: the band's count when it does not
   * exceed the highest label, 0 otherwise.
   */
  lemma FileRecordVertexCounts(participantSession: string, age: real, surface: Surface, spectral: Spectral,
                           totalMeanCurvature: real, clock: real, gyrification: (real, NonNeg))
    requires Consistent(surface, spectral) && |spectral.labels| > 0
    ensures var r := FileRecord(participantSession, age, surface, spectral, totalMeanCurvature, clock, gyrification);
      var labels := spectral.labels;
      && "B4_number_of_vertices" in r
      && r["B4_number_of_vertices"] == Int(if 4 <= MaxLabel(labels) then Count(labels, 4) else 0)
      && "B5_number_of_vertices" in r
      && r["B5_number_of_vertices"] == Int(if 5 <= MaxLabel(labels) then Count(labels, 5) else 0)
      && "B6_number_of_vertices" in r
      && r["B6_number_of_vertices"] == Int(if 6 <= MaxLabel(labels) then Count(labels, 6) else 0)
  {
    var m := MeasuresOf(participantSession, age, surface, spectral, totalMeanCurvature, clock, gyrification);
    var levels := |spectral.groups|;
    var pct, ws, ps := PowerDistribution(spectral.spectrum), Wavelengths(spectral), ParcelCounts(spectral.labels, levels);
    BandFieldsKeys(spectral.spectrum, pct, ws, ps, levels);
    ExtendedVertexCounts(m, BandFields(spectral.spectrum, pct, ws, ps, levels));
    MeasuredVertexCounts(participantSession, age, surface, spectral, totalMeanCurvature, clock, gyrification);
  }

  lemma MeasuredVertexCounts(participantSession: string, age: real, surface: Surface, spectral: Spectral,
                             totalMeanCurvature: real, clock: real, gyrification: (real, NonNeg))
    requires Consistent(surface, spectral) && |spectral.labels| > 0
    ensures var m := MeasuresOf(participantSession, age, surface, spectral, totalMeanCurvature, clock, gyrification);
      var labels := spectral.labels;
      && m.coverages[0].vertices == (if 4 <= MaxLabel(labels) then Count(labels, 4) else 0)
      && m.coverages[1].vertices == (if 5 <= MaxLabel(labels) then Count(labels, 5) else 0)
      && m.coverages[2].vertices == (if 6 <= MaxLabel(labels) then Count(labels, 6) else 0)
  {
  }

  /**
   * The relative powers of bands 4, 5 and 6: the band's power over the
   * analyzed folding power (a NumPy division) when the spectrum has the band,
   * 0 otherwise.
   */
  lemma FileRecordRelativePowers(participantSession: string, age: real, surface: Surface, spectral: Spectral,
                           totalMeanCurvature: real, clock: real, gyrification: (real, NonNeg))
    requires Consistent(surface, spectral) && |spectral.labels| > 0
    ensures var r := FileRecord(participantSession, age, surface, spectral, totalMeanCurvature, clock, gyrification);
      var s, afp := spectral.spectrum, AnalyzeFoldingPower(spectral.spectrum);
      && "B4_band_relative_power" in r
      && r["B4_band_relative_power"] == Float(if 4 < |s| then NumpyDiv(s[4], afp) else Fin(0.0))
      && "B5_band_relative_power" in r
      && r["B5_band_relative_power"] == Float(if 5 < |s| then NumpyDiv(s[5], afp) else Fin(0.0))
      && "B6_band_relative_power" in r
      && r["B6_band_relative_power"] == Float(if 6 < |s| then NumpyDiv(s[6], afp) else Fin(0.0))
  {
    var m := MeasuresOf(participantSession, age, surface, spectral, totalMeanCurvature, clock, gyrification);
    var levels := |spectral.groups|;
    var pct, ws, ps := PowerDistribution(spectral.spectrum), Wavelengths(spectral), ParcelCounts(spectral.labels, levels);
    BandFieldsKeys(spectral.spectrum, pct, ws, ps, levels);
    ExtendedRelativePowers(m, BandFields(spectral.spectrum, pct, ws, ps, levels));
    MeasuredRelativePowers(participantSession, age, surface, spectral, totalMeanCurvature, clock, gyrification);
  }

  lemma MeasuredRelativePowers(participantSession: string, age: real, surface: Surface, spectral: Spectral,
                               totalMeanCurvature: real, clock: real, gyrification: (real, NonNeg))
    requires Consistent(surface, spectral) && |spectral.labels| > 0
    ensures var m := MeasuresOf(participantSession, age, surface, spectral, totalMeanCurvature, clock, gyrification);
      var s, afp := spectral.spectrum, AnalyzeFoldingPower(spectral.spectrum);
      && m.relPowers[0] == (if 4 < |s| then NumpyDiv(s[4], afp) else Fin(0.0))
      && m.relPowers[1] == (if 5 < |s| then NumpyDiv(s[5], afp) else Fin(0.0))
      && m.relPowers[2] == (if 6 < |s| then NumpyDiv(s[6], afp) else Fin(0.0))
  {
  }

  /**
   * Every band 0..levels-1 has its power, its share of the total power, its
   * wavelength and its parcel count.
   */
  lemma FileRecordBands(participantSession: string, age: real, surface: Surface, spectral: Spectral,
                           totalMeanCurvature: real, clock: real, gyrification: (real, NonNeg))
    requires Consistent(surface, spectral) && |spectral.labels| > 0
    ensures var r := FileRecord(participantSession, age, surface, spectral, totalMeanCurvature, clock, gyrification);
      forall b: nat :: b < |spectral.groups| ==>
        && BandKey(PowerPrefix, b) in r
        && r[BandKey(PowerPrefix, b)] == Float(Fin(spectral.spectrum[b]))
        && BandKey(PowerPctPrefix, b) in r
        && r[BandKey(PowerPctPrefix, b)] == Float(Fin(PowerDistribution(spectral.spectrum)[b]))
        && BandKey(WavelengthPrefix, b) in r
        && r[BandKey(WavelengthPrefix, b)] == Float(Fin(Wavelength(spectral.freqs, spectral.groups[b])))
        && BandKey(ParcelsPrefix, b) in r
        && r[BandKey(ParcelsPrefix, b)] == Int(RunCount(spectral.labels, b))
  {
    var m := MeasuresOf(participantSession, age, surface, spectral, totalMeanCurvature, clock, gyrification);
    FixedKeysAreNotBandKeys(m);
    BandColumns(FixedFields(m), spectral);
  }

  /** The band columns over any literal part whose keys do not start with 'b'. */
  lemma BandColumns(fixed: Record, spectral: Spectral)
    requires forall k :: k in fixed ==> |k| > 0 && k[0] != 'b'
    requires forall g :: 0 <= g < |spectral.groups| ==> ValidGroup(spectral.freqs, spectral.groups[g])
    requires |spectral.spectrum| == |spectral.groups|
    ensures var levels := |spectral.groups|;
      var r := fixed + BandFields(spectral.spectrum, PowerDistribution(spectral.spectrum), Wavelengths(spectral),
                                  ParcelCounts(spectral.labels, levels), levels);
      forall b: nat :: b < levels ==>
        && BandKey(PowerPrefix, b) in r
        && r[BandKey(PowerPrefix, b)] == Float(Fin(spectral.spectrum[b]))
        && BandKey(PowerPctPrefix, b) in r
        && r[BandKey(PowerPctPrefix, b)] == Float(Fin(PowerDistribution(spectral.spectrum)[b]))
        && BandKey(WavelengthPrefix, b) in r
        && r[BandKey(WavelengthPrefix, b)] == Float(Fin(Wavelength(spectral.freqs, spectral.groups[b])))
        && BandKey(ParcelsPrefix, b) in r
        && r[BandKey(ParcelsPrefix, b)] == Int(RunCount(spectral.labels, b))
  {
    var levels := |spectral.groups|;
    RecordColumns(fixed, spectral.spectrum, PowerDistribution(spectral.spectrum), Wavelengths(spectral),
                  ParcelCounts(spectral.labels, levels), levels);
  }

  /**
   * The analysis of one file; the cases in which it returns None are those of
   * `Skipped`. `meshDir` is the set of names in the surface directory,
   * `surface` the mesh loaded from the stripped name, and `clock` the
   * measured processing time.
   */
  method ProcessSingleFile(filename: string, table: seq<AgeRow>, meshDir: set<string>,
                           surface: Surface, spectral: Spectral, totalMeanCurvature: real, clock: real)
    returns (result: Option<Record>)
    requires Consistent(surface, spectral)
    ensures result.None? <==> Skipped(filename, table, meshDir, surface, spectral)
    ensures result.Some? ==>
      var ids := DeriveIds(filename).value;
      result.value == FileRecord(ids.participantSession, LookupAge(table, ids.baseParticipantSession).value,
                                 surface, spectral, totalMeanCurvature, clock,
                                 GyrificationIndex(MeshArea(surface), surface.hullArea).value)
  {
    var ids := DeriveIds(filename);
    if ids.Failure? {
      return None;
    }
    var age := LookupAge(table, ids.value.baseParticipantSession);
    if age.None? || ids.value.name !in meshDir {
      return None;
    }
    var gyrification := GyrificationIndex(MeshArea(surface), surface.hullArea);
    if gyrification.Failure? || |spectral.labels| == 0 {
      return None;
    }
    var record := AssembleRecord(ids.value.participantSession, age.value, surface, spectral,
                                 totalMeanCurvature, clock, gyrification.value);
    result := Some(record);
  }

  /**
   * The measures of a file that passed every check, computed by the band
   * analyses, and the record built from them: the literal part, then the
   * loop adding the four columns of every band.
   */
  method AssembleRecord(participantSession: string, age: real, surface: Surface, spectral: Spectral,
                        totalMeanCurvature: real, clock: real, gyrification: (real, NonNeg))
    returns (record: Record)
    requires Consistent(surface, spectral) && |spectral.labels| > 0
    ensures record == FileRecord(participantSession, age, surface, spectral, totalMeanCurvature, clock, gyrification)
  {
    var labels, spectrum := spectral.labels, spectral.spectrum;
    var levels := |spectral.groups|;
    var powerPct := PowerDistribution(spectrum);
    var wavelengths := BandWavelengths(spectral.freqs, spectral.groups);
    var surfaceArea := MeshArea(surface);
    var afp := AnalyzeFoldingPower(spectrum);
    var parcels := ParcelsPerBand(labels, levels);
    var coverages := CoverageOfReportedBands(labels, surface.faces, surface.faceAreas);
    var powers, relPowers := PowerOfReportedBands(spectrum, afp);
    assert wavelengths == Wavelengths(spectral);
    assert parcels == ParcelCounts(labels, levels);
    assert coverages == ReportedCoverages(surface, labels);
    assert relPowers == ReportedRelativePowers(spectrum, afp);
    var measures := Measures(participantSession, age, totalMeanCurvature,
                             gyrification.0, gyrification.1, surface.volume, surfaceArea,
                             afp, clock, relPowers, coverages);
    assert measures == MeasuresOf(participantSession, age, surface, spectral, totalMeanCurvature, clock, gyrification);
    record := AddBandFields(FixedFields(measures), spectrum, powerPct, wavelengths, parcels, levels);
  }
}
