/**
 * The per-file result record of process_single_file: a dictionary from
 * column names to values, built as one literal and then extended, band by
 * band, with four keys per band.
 */
module ResultRecord {
  import opened Numerics
  import opened BandCoverage

  /** A cell of the record. */
  datatype Value = Text(s: string) | Int(n: int) | Float(x: Num)

  type Record = map<string, Value>

  function DigitChar(d: nat): (c: char)
    requires d < 10
  {
    "0123456789"[d]
  }

  /** f'{n}' for a non-negative integer: its decimal digits, most significant first. */
  function Decimal(n: nat): (s: string)
    ensures |s| >= 1
    ensures n < 10 <==> |s| == 1
    ensures s[|s| - 1] == DigitChar(n % 10)
  {
    if n < 10 then [DigitChar(n)] else Decimal(n / 10) + [DigitChar(n % 10)]
  }

  /** Different numbers print differently, so per-band keys never clash. */
  lemma {:induction false} DecimalInjective(m: nat, n: nat)
    requires Decimal(m) == Decimal(n)
    ensures m == n
  {
    if m >= 10 {
      var sm, sn := Decimal(m), Decimal(n);
      assert sm[..|sm| - 1] == Decimal(m / 10);
      assert sn[..|sn| - 1] == Decimal(n / 10);
      DecimalInjective(m / 10, n / 10);
      assert "0123456789"[m % 10] == "0123456789"[n % 10];
    } else {
      assert "0123456789"[m] == "0123456789"[n];
    }
  }

  const PowerPrefix := "band_power_B"
  const PowerPctPrefix := "band_power_pct_B"
  const WavelengthPrefix := "band_wavelength_B"
  const ParcelsPrefix := "band_parcels_B"

  /** The column of band `i` under one of the four per-band prefixes. */
  function BandKey(prefix: string, i: nat): string
  {
    prefix + Decimal(i)
  }

  predicate IsBandPrefix(p: string)
  {
    p == PowerPrefix || p == PowerPctPrefix || p == WavelengthPrefix || p == ParcelsPrefix
  }

  lemma DifferAt(p: string, q: string, x: string, y: string, k: nat)
    requires k < |p| && k < |q| && p[k] != q[k]
    ensures p + x != q + y
  {
    assert (p + x)[k] == p[k] && (q + y)[k] == q[k];
  }

  /** Two per-band keys coincide only for the same prefix and the same band. */
  lemma BandKeyInjective(p: string, q: string, i: nat, j: nat)
    requires IsBandPrefix(p) && IsBandPrefix(q)
    requires BandKey(p, i) == BandKey(q, j)
    ensures p == q && i == j
  {
    if p != q {
      var k := if (p == WavelengthPrefix || q == WavelengthPrefix) then 5
               else if (p == ParcelsPrefix || q == ParcelsPrefix) then 6
               else 11;
      DifferAt(p, q, Decimal(i), Decimal(j), k);
    } else {
      assert Decimal(i) == BandKey(p, i)[|p|..];
      assert Decimal(j) == BandKey(q, j)[|q|..];
      DecimalInjective(i, j);
    }
  }

  /** Whole-brain measures and the band 4/5/6 figures that go into the literal part of the record. */
  datatype Measures = Measures(
    participantSession: string,
    gestationalAge: real,
    totalMeanCurvature: real,
    gyrificationIndex: real,
    hullArea: real,
    volume: real,
    surfaceArea: real,
    afp: real,
    processingTime: real,
    relPowers: seq<Num>,       // bands 4, 5, 6
    coverages: seq<Coverage>)  // bands 4, 5, 6

  predicate WellFormed(m: Measures)
  {
    |m.relPowers| == 3 && |m.coverages| == 3
  }

  /** np.floor(x / unit): volume in mL from mm^3, area in cm^2 from mm^2. */
  function FloorDiv(x: real, unit: real): real
    requires unit > 0.0
  {
    (x / unit).Floor as real
  }

  /**
   * The record literal as written: band 6's vertex count is entered under
   * the key B5_number_of_vertices a second time, so it replaces band 5's and
   * no B6_number_of_vertices column exists.
   */
  function FixedFieldsAsWritten(m: Measures): Record
    requires WellFormed(m)
  {
    map[
      "participant_session" := Text(m.participantSession),
      "gestational_age" := Float(Fin(m.gestationalAge)),
      "total_mean_curvature" := Float(Fin(m.totalMeanCurvature)),
      "gyrification_index" := Float(Fin(m.gyrificationIndex)),
      "hull_area" := Float(Fin(m.hullArea)),
      "volume_ml" := Float(Fin(FloorDiv(m.volume, 1000.0))),
      "surface_area_cm2" := Float(Fin(FloorDiv(m.surfaceArea, 100.0))),
      "analyze_folding_power" := Float(Fin(m.afp)),
      "processing_time" := Float(Fin(m.processingTime)),
      "B4_band_relative_power" := Float(m.relPowers[0]),
      "B5_band_relative_power" := Float(m.relPowers[1]),
      "B6_band_relative_power" := Float(m.relPowers[2]),
      "B4_number_of_vertices" := Int(m.coverages[0].vertices),
      "B5_number_of_vertices" := Int(m.coverages[1].vertices),
      "B5_number_of_vertices" := Int(m.coverages[2].vertices),
      "B4_vertex_percentage" := Float(m.coverages[0].vertexPct),
      "B5_vertex_percentage" := Float(m.coverages[1].vertexPct),
      "B6_vertex_percentage" := Float(m.coverages[2].vertexPct),
      "B4_surface_area" := Float(Fin(m.coverages[0].area)),
      "B5_surface_area" := Float(Fin(m.coverages[1].area)),
      "B6_surface_area" := Float(Fin(m.coverages[2].area)),
      "B4_surface_area_percentage" := Float(m.coverages[0].areaPct),
      "B5_surface_area_percentage" := Float(m.coverages[1].areaPct),
      "B6_surface_area_percentage" := Float(m.coverages[2].areaPct)
    ]
  }

  /**
   * The duplicate key as written: whatever bands 5 and 6 hold, the column
   * named for band 5 reports band 6's count and band 6 has no column.
   */
  lemma AsWrittenLosesBand5Count(m: Measures)
    requires WellFormed(m)
    ensures FixedFieldsAsWritten(m)["B5_number_of_vertices"] == Int(m.coverages[2].vertices)
    ensures "B6_number_of_vertices" !in FixedFieldsAsWritten(m)
    ensures m.coverages[1].vertices != m.coverages[2].vertices ==>
      FixedFieldsAsWritten(m)["B5_number_of_vertices"] != Int(m.coverages[1].vertices)
  {
  }

  /** The record literal with band 6's count under its own key. */
  function FixedFields(m: Measures): Record
    requires WellFormed(m)
  {
    FixedFieldsAsWritten(m)["B5_number_of_vertices" := Int(m.coverages[1].vertices)]
                           ["B6_number_of_vertices" := Int(m.coverages[2].vertices)]
  }

  /**
   * In the corrected literal each of bands 4, 5 and 6 reports its own vertex
   * count, and the columns are those of the literal as written plus
   * B6_number_of_vertices.
   */
  lemma FixedFieldsReportEachBand(m: Measures)
    requires WellFormed(m)
    ensures "B4_number_of_vertices" in FixedFields(m)
    ensures FixedFields(m)["B4_number_of_vertices"] == Int(m.coverages[0].vertices)
    ensures "B5_number_of_vertices" in FixedFields(m)
    ensures FixedFields(m)["B5_number_of_vertices"] == Int(m.coverages[1].vertices)
    ensures "B6_number_of_vertices" in FixedFields(m)
    ensures FixedFields(m)["B6_number_of_vertices"] == Int(m.coverages[2].vertices)
    ensures FixedFields(m).Keys == FixedFieldsAsWritten(m).Keys + {"B6_number_of_vertices"}
  {
  }

  /** Per-band columns are outside the literal part: none of its keys starts with 'b'. */
  lemma FixedKeysAreNotBandKeys(m: Measures)
    requires WellFormed(m)
    ensures forall k :: k in FixedFields(m) ==> |k| > 0 && k[0] != 'b'
  {
  }

  /** The four columns of each band 0..levels-1. */
  function BandFields(spectrum: seq<real>, pct: seq<real>, wavelengths: seq<real>, parcels: seq<nat>, levels: nat): Record
    requires levels <= |spectrum| && levels <= |pct| && levels <= |wavelengths| && levels <= |parcels|
  {
    if levels == 0 then map[]
    else
      var i := levels - 1;
      BandFields(spectrum, pct, wavelengths, parcels, i)
        [BandKey(PowerPrefix, i) := Float(Fin(spectrum[i]))]
        [BandKey(PowerPctPrefix, i) := Float(Fin(pct[i]))]
        [BandKey(WavelengthPrefix, i) := Float(Fin(wavelengths[i]))]
        [BandKey(ParcelsPrefix, i) := Int(parcels[i])]
  }

  /** Every per-band key starts with 'b'. */
  lemma {:induction false} BandFieldsKeys(spectrum: seq<real>, pct: seq<real>, wavelengths: seq<real>, parcels: seq<nat>, levels: nat)
    requires levels <= |spectrum| && levels <= |pct| && levels <= |wavelengths| && levels <= |parcels|
    ensures forall k :: k in BandFields(spectrum, pct, wavelengths, parcels, levels) ==> |k| > 0 && k[0] == 'b'
  {
    if levels > 0 {
      BandFieldsKeys(spectrum, pct, wavelengths, parcels, levels - 1);
      BandKeyHead(PowerPrefix, levels - 1);
      BandKeyHead(PowerPctPrefix, levels - 1);
      BandKeyHead(WavelengthPrefix, levels - 1);
      BandKeyHead(ParcelsPrefix, levels - 1);
    }
  }

  lemma BandKeyHead(p: string, i: nat)
    requires IsBandPrefix(p)
    ensures |BandKey(p, i)| > 0 && BandKey(p, i)[0] == 'b'
  {
    assert BandKey(p, i)[0] == p[0];
  }

  /** `k` is none of the four columns of band `n`. */
  predicate NotKeyOf(k: string, n: nat)
  {
    && k != BandKey(PowerPrefix, n) && k != BandKey(PowerPctPrefix, n)
    && k != BandKey(WavelengthPrefix, n) && k != BandKey(ParcelsPrefix, n)
  }

  /** A column of band i is no column of any other band n. */
  lemma OtherBandKey(p: string, i: nat, n: nat)
    requires IsBandPrefix(p) && i != n
    ensures NotKeyOf(BandKey(p, i), n)
  {
    if BandKey(p, i) == BandKey(PowerPrefix, n) { BandKeyInjective(p, PowerPrefix, i, n); }
    if BandKey(p, i) == BandKey(PowerPctPrefix, n) { BandKeyInjective(p, PowerPctPrefix, i, n); }
    if BandKey(p, i) == BandKey(WavelengthPrefix, n) { BandKeyInjective(p, WavelengthPrefix, i, n); }
    if BandKey(p, i) == BandKey(ParcelsPrefix, n) { BandKeyInjective(p, ParcelsPrefix, i, n); }
  }

  /** Adding the last band leaves every column that is not one of its own as it was. */
  lemma BandFieldsFrame(spectrum: seq<real>, pct: seq<real>, wavelengths: seq<real>, parcels: seq<nat>,
                        levels: nat, k: string)
    requires levels <= |spectrum| && levels <= |pct| && levels <= |wavelengths| && levels <= |parcels|
    requires levels > 0 && NotKeyOf(k, levels - 1)
    ensures var f, g := BandFields(spectrum, pct, wavelengths, parcels, levels),
                        BandFields(spectrum, pct, wavelengths, parcels, levels - 1);
      (k in f <==> k in g) && (k in g ==> f[k] == g[k])
  {
  }

  /**
   * Band i's power, power percentage, wavelength and parcel count each sit
   * under that band's own key: no later band overwrites them.
   */
  lemma {:induction false} BandFieldsAt(spectrum: seq<real>, pct: seq<real>, wavelengths: seq<real>, parcels: seq<nat>,
                                        levels: nat, i: nat)
    requires levels <= |spectrum| && levels <= |pct| && levels <= |wavelengths| && levels <= |parcels|
    requires i < levels
    ensures var f := BandFields(spectrum, pct, wavelengths, parcels, levels);
      && BandKey(PowerPrefix, i) in f && f[BandKey(PowerPrefix, i)] == Float(Fin(spectrum[i]))
      && BandKey(PowerPctPrefix, i) in f && f[BandKey(PowerPctPrefix, i)] == Float(Fin(pct[i]))
      && BandKey(WavelengthPrefix, i) in f && f[BandKey(WavelengthPrefix, i)] == Float(Fin(wavelengths[i]))
      && BandKey(ParcelsPrefix, i) in f && f[BandKey(ParcelsPrefix, i)] == Int(parcels[i])
  {
    var n := levels - 1;
    if i == n {
      BandFieldsLast(spectrum, pct, wavelengths, parcels, levels);
    } else {
      BandFieldsAt(spectrum, pct, wavelengths, parcels, n, i);
      OtherBandKey(PowerPrefix, i, n);
      OtherBandKey(PowerPctPrefix, i, n);
      OtherBandKey(WavelengthPrefix, i, n);
      OtherBandKey(ParcelsPrefix, i, n);
      BandFieldsFrame(spectrum, pct, wavelengths, parcels, levels, BandKey(PowerPrefix, i));
      BandFieldsFrame(spectrum, pct, wavelengths, parcels, levels, BandKey(PowerPctPrefix, i));
      BandFieldsFrame(spectrum, pct, wavelengths, parcels, levels, BandKey(WavelengthPrefix, i));
      BandFieldsFrame(spectrum, pct, wavelengths, parcels, levels, BandKey(ParcelsPrefix, i));
    }
  }

  /** The last band added holds its own four values. */
  lemma BandFieldsLast(spectrum: seq<real>, pct: seq<real>, wavelengths: seq<real>, parcels: seq<nat>, levels: nat)
    requires levels <= |spectrum| && levels <= |pct| && levels <= |wavelengths| && levels <= |parcels|
    requires levels > 0
    ensures var f, n := BandFields(spectrum, pct, wavelengths, parcels, levels), levels - 1;
      && BandKey(PowerPrefix, n) in f && f[BandKey(PowerPrefix, n)] == Float(Fin(spectrum[n]))
      && BandKey(PowerPctPrefix, n) in f && f[BandKey(PowerPctPrefix, n)] == Float(Fin(pct[n]))
      && BandKey(WavelengthPrefix, n) in f && f[BandKey(WavelengthPrefix, n)] == Float(Fin(wavelengths[n]))
      && BandKey(ParcelsPrefix, n) in f && f[BandKey(ParcelsPrefix, n)] == Int(parcels[n])
  {
    SameBandKeysDistinct(levels - 1);
  }

  /** The four columns of one band are four different keys. */
  lemma SameBandKeysDistinct(n: nat)
    ensures BandKey(PowerPrefix, n) != BandKey(PowerPctPrefix, n)
    ensures BandKey(PowerPrefix, n) != BandKey(WavelengthPrefix, n)
    ensures BandKey(PowerPrefix, n) != BandKey(ParcelsPrefix, n)
    ensures BandKey(PowerPctPrefix, n) != BandKey(WavelengthPrefix, n)
    ensures BandKey(PowerPctPrefix, n) != BandKey(ParcelsPrefix, n)
    ensures BandKey(WavelengthPrefix, n) != BandKey(ParcelsPrefix, n)
  {
    if BandKey(PowerPrefix, n) == BandKey(PowerPctPrefix, n) { BandKeyInjective(PowerPrefix, PowerPctPrefix, n, n); }
    if BandKey(PowerPrefix, n) == BandKey(WavelengthPrefix, n) { BandKeyInjective(PowerPrefix, WavelengthPrefix, n, n); }
    if BandKey(PowerPrefix, n) == BandKey(ParcelsPrefix, n) { BandKeyInjective(PowerPrefix, ParcelsPrefix, n, n); }
    if BandKey(PowerPctPrefix, n) == BandKey(WavelengthPrefix, n) { BandKeyInjective(PowerPctPrefix, WavelengthPrefix, n, n); }
    if BandKey(PowerPctPrefix, n) == BandKey(ParcelsPrefix, n) { BandKeyInjective(PowerPctPrefix, ParcelsPrefix, n, n); }
    if BandKey(WavelengthPrefix, n) == BandKey(ParcelsPrefix, n) { BandKeyInjective(WavelengthPrefix, ParcelsPrefix, n, n); }
  }

  /**
   * The finished record: the columns of a literal whose keys do not start
   * with 'b' keep their values, and every band 0..levels-1 has its power,
   * percentage, wavelength and parcel count.
   */
  lemma RecordColumns(fixed: Record, spectrum: seq<real>, pct: seq<real>, wavelengths: seq<real>,
                      parcels: seq<nat>, levels: nat)
    requires forall k :: k in fixed ==> |k| > 0 && k[0] != 'b'
    requires levels <= |spectrum| && levels <= |pct| && levels <= |wavelengths| && levels <= |parcels|
    ensures var r := fixed + BandFields(spectrum, pct, wavelengths, parcels, levels);
      && (forall k :: k in fixed ==> k in r && r[k] == fixed[k])
      && (forall b: nat :: b < levels ==>
            && BandKey(PowerPrefix, b) in r && r[BandKey(PowerPrefix, b)] == Float(Fin(spectrum[b]))
            && BandKey(PowerPctPrefix, b) in r && r[BandKey(PowerPctPrefix, b)] == Float(Fin(pct[b]))
            && BandKey(WavelengthPrefix, b) in r && r[BandKey(WavelengthPrefix, b)] == Float(Fin(wavelengths[b]))
            && BandKey(ParcelsPrefix, b) in r && r[BandKey(ParcelsPrefix, b)] == Int(parcels[b]))
  {
    BandFieldsKeys(spectrum, pct, wavelengths, parcels, levels);
    forall b: nat | b < levels {
      BandFieldsAt(spectrum, pct, wavelengths, parcels, levels, b);
    }
  }

  /** The identifying columns of the literal. */
  lemma FixedFieldsIdentity(m: Measures)
    requires WellFormed(m)
    ensures "participant_session" in FixedFields(m)
    ensures FixedFields(m)["participant_session"] == Text(m.participantSession)
    ensures "gestational_age" in FixedFields(m)
    ensures FixedFields(m)["gestational_age"] == Float(Fin(m.gestationalAge))
    ensures "gyrification_index" in FixedFields(m)
    ensures FixedFields(m)["gyrification_index"] == Float(Fin(m.gyrificationIndex))
  {
    SessionColumn(m);
    AgeColumn(m);
    IndexColumn(m);
  }

  lemma SessionColumn(m: Measures)
    requires WellFormed(m)
    ensures "participant_session" in FixedFields(m)
    ensures FixedFields(m)["participant_session"] == Text(m.participantSession)
  {
  }

  lemma AgeColumn(m: Measures)
    requires WellFormed(m)
    ensures "gestational_age" in FixedFields(m)
    ensures FixedFields(m)["gestational_age"] == Float(Fin(m.gestationalAge))
  {
  }

  lemma HullColumn(m: Measures)
    requires WellFormed(m)
    ensures "hull_area" in FixedFields(m)
    ensures FixedFields(m)["hull_area"] == Float(Fin(m.hullArea))
  {
  }

  lemma FoldingPowerColumn(m: Measures)
    requires WellFormed(m)
    ensures "analyze_folding_power" in FixedFields(m)
    ensures FixedFields(m)["analyze_folding_power"] == Float(Fin(m.afp))
  {
  }

  /** The relative powers of bands 4, 5 and 6, each under its own key. */
  lemma RelativePowerColumns(m: Measures)
    requires WellFormed(m)
    ensures "B4_band_relative_power" in FixedFields(m)
    ensures FixedFields(m)["B4_band_relative_power"] == Float(m.relPowers[0])
    ensures "B5_band_relative_power" in FixedFields(m)
    ensures FixedFields(m)["B5_band_relative_power"] == Float(m.relPowers[1])
    ensures "B6_band_relative_power" in FixedFields(m)
    ensures FixedFields(m)["B6_band_relative_power"] == Float(m.relPowers[2])
  {
  }

  /** The vertex counts of bands 4, 5 and 6, each under its own key. */
  lemma VertexCountColumns(m: Measures)
    requires WellFormed(m)
    ensures "B4_number_of_vertices" in FixedFields(m)
    ensures FixedFields(m)["B4_number_of_vertices"] == Int(m.coverages[0].vertices)
    ensures "B5_number_of_vertices" in FixedFields(m)
    ensures FixedFields(m)["B5_number_of_vertices"] == Int(m.coverages[1].vertices)
    ensures "B6_number_of_vertices" in FixedFields(m)
    ensures FixedFields(m)["B6_number_of_vertices"] == Int(m.coverages[2].vertices)
  {
  }

  /** Band columns added after the literal leave its vertex counts as they were. */
  lemma ExtendedVertexCounts(m: Measures, bands: Record)
    requires WellFormed(m)
    requires forall j :: j in bands ==> |j| > 0 && j[0] == 'b'
    ensures var r := FixedFields(m) + bands;
      && "B4_number_of_vertices" in r && r["B4_number_of_vertices"] == Int(m.coverages[0].vertices)
      && "B5_number_of_vertices" in r && r["B5_number_of_vertices"] == Int(m.coverages[1].vertices)
      && "B6_number_of_vertices" in r && r["B6_number_of_vertices"] == Int(m.coverages[2].vertices)
  {
    VertexCountColumns(m);
    LiteralColumn(FixedFields(m), bands, "B4_number_of_vertices");
    LiteralColumn(FixedFields(m), bands, "B5_number_of_vertices");
    LiteralColumn(FixedFields(m), bands, "B6_number_of_vertices");
  }

  /** Band columns added after the literal leave its relative powers as they were. */
  lemma ExtendedRelativePowers(m: Measures, bands: Record)
    requires WellFormed(m)
    requires forall j :: j in bands ==> |j| > 0 && j[0] == 'b'
    ensures var r := FixedFields(m) + bands;
      && "B4_band_relative_power" in r && r["B4_band_relative_power"] == Float(m.relPowers[0])
      && "B5_band_relative_power" in r && r["B5_band_relative_power"] == Float(m.relPowers[1])
      && "B6_band_relative_power" in r && r["B6_band_relative_power"] == Float(m.relPowers[2])
  {
    RelativePowerColumns(m);
    LiteralColumn(FixedFields(m), bands, "B4_band_relative_power");
    LiteralColumn(FixedFields(m), bands, "B5_band_relative_power");
    LiteralColumn(FixedFields(m), bands, "B6_band_relative_power");
  }

  /** Band columns added after the literal leave its identifying and whole-brain columns as they were. */
  lemma ExtendedIdentity(m: Measures, bands: Record)
    requires WellFormed(m)
    requires forall j :: j in bands ==> |j| > 0 && j[0] == 'b'
    ensures var r := FixedFields(m) + bands;
      && "participant_session" in r && r["participant_session"] == Text(m.participantSession)
      && "gestational_age" in r && r["gestational_age"] == Float(Fin(m.gestationalAge))
      && "gyrification_index" in r && r["gyrification_index"] == Float(Fin(m.gyrificationIndex))
      && "hull_area" in r && r["hull_area"] == Float(Fin(m.hullArea))
      && "analyze_folding_power" in r && r["analyze_folding_power"] == Float(Fin(m.afp))
  {
    FixedFieldsIdentity(m);
    HullColumn(m);
    FoldingPowerColumn(m);
    LiteralColumn(FixedFields(m), bands, "participant_session");
    LiteralColumn(FixedFields(m), bands, "gestational_age");
    LiteralColumn(FixedFields(m), bands, "gyrification_index");
    LiteralColumn(FixedFields(m), bands, "hull_area");
    LiteralColumn(FixedFields(m), bands, "analyze_folding_power");
  }

  /** A column of the literal survives the band loop unchanged. */
  lemma LiteralColumn(fixed: Record, bands: Record, k: string)
    requires k in fixed && |k| > 0 && k[0] != 'b'
    requires forall j :: j in bands ==> |j| > 0 && j[0] == 'b'
    ensures k in fixed + bands && (fixed + bands)[k] == fixed[k]
  {
  }

  lemma IndexColumn(m: Measures)
    requires WellFormed(m)
    ensures "gyrification_index" in FixedFields(m)
    ensures FixedFields(m)["gyrification_index"] == Float(Fin(m.gyrificationIndex))
  {
  }

  /** Updating a union on the right is updating its right operand. */
  lemma UnionUpdate(a: Record, b: Record, k: string, v: Value)
    ensures (a + b)[k := v] == a + b[k := v]
  {
  }

  /** One pass of the band loop adds band i's four columns on top of the record. */
  lemma AddBandStep(record: Record, spectrum: seq<real>, pct: seq<real>, wavelengths: seq<real>,
                    parcels: seq<nat>, i: nat)
    requires i < |spectrum| && i < |pct| && i < |wavelengths| && i < |parcels|
    ensures (record + BandFields(spectrum, pct, wavelengths, parcels, i))
              [BandKey(PowerPrefix, i) := Float(Fin(spectrum[i]))]
              [BandKey(PowerPctPrefix, i) := Float(Fin(pct[i]))]
              [BandKey(WavelengthPrefix, i) := Float(Fin(wavelengths[i]))]
              [BandKey(ParcelsPrefix, i) := Int(parcels[i])]
            == record + BandFields(spectrum, pct, wavelengths, parcels, i + 1)
  {
    var f := BandFields(spectrum, pct, wavelengths, parcels, i);
    var k1, k2 := BandKey(PowerPrefix, i), BandKey(PowerPctPrefix, i);
    var k3, k4 := BandKey(WavelengthPrefix, i), BandKey(ParcelsPrefix, i);
    var v1, v2 := Float(Fin(spectrum[i])), Float(Fin(pct[i]));
    var v3, v4 := Float(Fin(wavelengths[i])), Int(parcels[i]);
    UnionUpdate(record, f, k1, v1);
    UnionUpdate(record, f[k1 := v1], k2, v2);
    UnionUpdate(record, f[k1 := v1][k2 := v2], k3, v3);
    UnionUpdate(record, f[k1 := v1][k2 := v2][k3 := v3], k4, v4);
  }

  /**
   * The `for i in range(levels)` loop that extends the record with the four
   * columns of every band; a per-band key already present is overwritten.
   */
  method AddBandFields(record: Record, spectrum: seq<real>, pct: seq<real>, wavelengths: seq<real>,
                       parcels: seq<nat>, levels: nat) returns (result: Record)
    requires levels <= |spectrum| && levels <= |pct| && levels <= |wavelengths| && levels <= |parcels|
    ensures result == record + BandFields(spectrum, pct, wavelengths, parcels, levels)
  {
    result := record;
    var i := 0;
    while i < levels
      invariant 0 <= i <= levels
      invariant result == record + BandFields(spectrum, pct, wavelengths, parcels, i)
    {
      AddBandStep(record, spectrum, pct, wavelengths, parcels, i);
      result := result[BandKey(PowerPrefix, i) := Float(Fin(spectrum[i]))];
      result := result[BandKey(PowerPctPrefix, i) := Float(Fin(pct[i]))];
      result := result[BandKey(WavelengthPrefix, i) := Float(Fin(wavelengths[i]))];
      result := result[BandKey(ParcelsPrefix, i) := Int(parcels[i])];
      i := i + 1;
    }
  }
}
