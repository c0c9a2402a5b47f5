/**
 * Band wavelength (calculate_band_wavelength). The frequency of eigenvalue k,
 * sqrt(eigVal[k] / (2 pi)), is taken as a given non-negative real `freqs[k]`;
 * a band's wavelength is the reciprocal of the mean frequency of its group.
 */
module BandWavelength {
  import opened Numerics

  /** Every index of the group names an eigenvalue. */
  predicate ValidGroup(freqs: seq<NonNeg>, group: seq<nat>)
  {
    forall k :: 0 <= k < |group| ==> group[k] < |freqs|
  }

  /** Sum of the frequencies the group selects (`eigVal[indices]` then np.mean's sum). */
  function GroupSum(freqs: seq<NonNeg>, group: seq<nat>): real
    requires ValidGroup(freqs, group)
  {
    if |group| == 0 then 0.0
    else GroupSum(freqs, group[..|group| - 1]) + freqs[group[|group| - 1]]
  }

  function MeanFrequency(freqs: seq<NonNeg>, group: seq<nat>): real
    requires ValidGroup(freqs, group) && |group| > 0
  {
    GroupSum(freqs, group) / |group| as real
  }

  /**
   * The wavelength of one band: 0 for an empty group, otherwise the reciprocal
   * of the mean frequency, or 0 when that mean is not positive.
   */
  function Wavelength(freqs: seq<NonNeg>, group: seq<nat>): (w: real)
    requires ValidGroup(freqs, group)
    ensures w >= 0.0
    ensures |group| == 0 ==> w == 0.0
    ensures w > 0.0 <==> |group| > 0 && MeanFrequency(freqs, group) > 0.0
    ensures w > 0.0 ==> w * MeanFrequency(freqs, group) == 1.0
  {
    if |group| == 0 then 0.0
    else
      var mean := MeanFrequency(freqs, group);
      if mean > 0.0 then 1.0 / mean else 0.0
  }

  /** The group's frequency sum is zero iff every frequency it selects is zero. */
  lemma {:induction false} GroupSumZero(freqs: seq<NonNeg>, group: seq<nat>)
    requires ValidGroup(freqs, group)
    ensures GroupSum(freqs, group) >= 0.0
    ensures GroupSum(freqs, group) == 0.0 <==> forall k :: 0 <= k < |group| ==> freqs[group[k]] == 0.0
  {
    if |group| > 0 {
      var n := |group|;
      GroupSumZero(freqs, group[..n - 1]);
      assert forall k :: 0 <= k < n - 1 ==> group[..n - 1][k] == group[k];
    }
  }

  /** A non-empty band has wavelength 0 exactly when all its eigenvalues have frequency 0. */
  lemma WavelengthZero(freqs: seq<NonNeg>, group: seq<nat>)
    requires ValidGroup(freqs, group) && |group| > 0
    ensures Wavelength(freqs, group) == 0.0 <==> forall k :: 0 <= k < |group| ==> freqs[group[k]] == 0.0
  {
    GroupSumZero(freqs, group);
  }

  /** A group whose frequencies are all f > 0 has wavelength 1/f. */
  lemma {:induction false} UniformGroup(freqs: seq<NonNeg>, group: seq<nat>, f: real)
    requires ValidGroup(freqs, group) && |group| > 0 && f > 0.0
    requires forall k :: 0 <= k < |group| ==> freqs[group[k]] == f
    ensures GroupSum(freqs, group) == |group| as real * f
    ensures Wavelength(freqs, group) == 1.0 / f
  {
    var n := |group|;
    if n > 1 {
      assert forall k :: 0 <= k < n - 1 ==> group[..n - 1][k] == group[k];
      UniformGroup(freqs, group[..n - 1], f);
    }
    var m := n as real;
    calc {
      MeanFrequency(freqs, group);
      GroupSum(freqs, group) / m;
      (m * f) / m;
      f;
    }
  }

  /** calculate_band_wavelength: one wavelength per group, in group order. */
  method BandWavelengths(freqs: seq<NonNeg>, groups: seq<seq<nat>>) returns (wavelengths: seq<real>)
    requires forall g :: 0 <= g < |groups| ==> ValidGroup(freqs, groups[g])
    ensures |wavelengths| == |groups|
    ensures forall g :: 0 <= g < |groups| ==> wavelengths[g] == Wavelength(freqs, groups[g])
  {
    wavelengths := [];
    var g := 0;
    while g < |groups|
      invariant 0 <= g <= |groups|
      invariant |wavelengths| == g
      invariant forall h :: 0 <= h < g ==> wavelengths[h] == Wavelength(freqs, groups[h])
    {
      var indices := groups[g];
      if |indices| == 0 {
        wavelengths := wavelengths + [0.0];
      } else {
        var mean := MeanFrequency(freqs, indices);
        var avgWavelength := if mean > 0.0 then 1.0 / mean else 0.0;
        wavelengths := wavelengths + [avgWavelength];
      }
      g := g + 1;
    }
  }
}
