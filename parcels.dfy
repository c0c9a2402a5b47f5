/**
 * Parcel counting per band (calculate_parcels_per_band). The label mask of a
 * band is handed to a one-dimensional connected-component labeller, so a
 * "parcel" is a maximal run of consecutive array positions carrying the band,
 * in storage order; mesh adjacency plays no part.
 */
module BandParcels {
  import opened DominantBands

  /** Position `i` opens a run of `band`: it carries the band and its predecessor does not. */
  predicate IsRunStart(labels: seq<int>, band: int, i: nat)
    requires i < |labels|
  {
    labels[i] == band && (i == 0 || labels[i - 1] != band)
  }

  /** The number of components the labeller reports for the mask of `band`. */
  function RunCount(labels: seq<int>, band: int): nat
  {
    if |labels| == 0 then 0
    else RunCount(labels[..|labels| - 1], band) + (if IsRunStart(labels, band, |labels| - 1) then 1 else 0)
  }

  /**
   * The labelled array of the component labeller: 0 off the mask, and on the
   * mask the 1-based number of the run the position belongs to, runs being
   * numbered in scan order.
   */
  function ComponentIds(labels: seq<int>, band: int): (ids: seq<nat>)
    ensures |ids| == |labels|
  {
    if |labels| == 0 then []
    else
      var n := |labels|;
      var prefix := ComponentIds(labels[..n - 1], band);
      prefix + [if labels[n - 1] != band then 0
                else if n > 1 && labels[n - 2] == band then prefix[n - 2]
                else RunCount(labels[..n - 1], band) + 1]
  }

  /** Positions `i..j` all carry `band`: they are connected in one dimension. */
  predicate Connected(labels: seq<int>, band: int, i: nat, j: nat)
    requires i <= j < |labels|
  {
    forall k :: i <= k <= j ==> labels[k] == band
  }

  /** The labelled array marks exactly the mask, with ids in 1..RunCount(labels, band). */
  lemma {:induction false} ComponentIdsRange(labels: seq<int>, band: int)
    ensures var ids := ComponentIds(labels, band);
      forall i :: 0 <= i < |labels| ==>
        && (ids[i] == 0 <==> labels[i] != band)
        && (labels[i] == band ==> ids[i] <= RunCount(labels, band))
  {
    if |labels| > 0 {
      var n := |labels|;
      var pre := labels[..n - 1];
      ComponentIdsRange(pre, band);
      var ids := ComponentIds(labels, band);
      assert forall i :: 0 <= i < n - 1 ==> ids[i] == ComponentIds(pre, band)[i] && labels[i] == pre[i];
    }
  }

  /**
   * Two positions on the mask share an id iff every position between them
   * carries the band: the ids are the one-dimensional connected components.
   */
  lemma {:induction false} ComponentIdsConnected(labels: seq<int>, band: int, i: nat, j: nat)
    requires i <= j < |labels| && labels[i] == band && labels[j] == band
    ensures var ids := ComponentIds(labels, band);
      ids[i] == ids[j] <==> Connected(labels, band, i, j)
  {
    var n := |labels|;
    var pre := labels[..n - 1];
    var ids := ComponentIds(labels, band);
    var pids := ComponentIds(pre, band);
    assert ids[..n - 1] == pids;
    if j < n - 1 {
      ComponentIdsConnected(pre, band, i, j);
      assert Connected(labels, band, i, j) == Connected(pre, band, i, j);
    } else if i < j {
      if labels[n - 2] == band {
        assert ids[j] == pids[n - 2];
        assert Connected(pre, band, i, n - 2) <==> Connected(labels, band, i, j);
        if i < n - 2 {
          ComponentIdsConnected(pre, band, i, n - 2);
        }
      } else {
        ComponentIdsRange(pre, band);
        assert ids[j] == RunCount(pre, band) + 1;
        assert ids[i] == pids[i] <= RunCount(pre, band);
        assert !Connected(labels, band, i, j) by { assert labels[n - 2] != band; }
      }
    }
  }

  /** Every id 1..RunCount(labels, band) labels some position: no component is counted twice or skipped. */
  lemma {:induction false} ComponentIdsOnto(labels: seq<int>, band: int)
    ensures forall c: nat :: 1 <= c <= RunCount(labels, band) ==> c in ComponentIds(labels, band)
  {
    if |labels| > 0 {
      var n := |labels|;
      var pre := labels[..n - 1];
      ComponentIdsOnto(pre, band);
      var ids := ComponentIds(labels, band);
      var pids := ComponentIds(pre, band);
      assert ids[..n - 1] == pids;
      forall c: nat | 1 <= c <= RunCount(labels, band)
        ensures c in ids
      {
        if c <= RunCount(pre, band) {
          assert c in pids;
          var i :| 0 <= i < |pids| && pids[i] == c;
          assert ids[i] == c;
        } else {
          assert ids[n - 1] == c;
        }
      }
    }
  }

  /** A band that occurs has at least one parcel and never more parcels than vertices. */
  lemma {:induction false} RunCountBounds(labels: seq<int>, band: int)
    ensures RunCount(labels, band) <= Count(labels, band)
    ensures RunCount(labels, band) == 0 <==> Count(labels, band) == 0
  {
    if |labels| > 0 {
      var n := |labels|;
      var pre := labels[..n - 1];
      RunCountBounds(pre, band);
      assert forall i :: 0 <= i < n - 1 ==> pre[i] == labels[i];
    }
  }

  /**
   * The count depends only on where `band` occurs: two arrays with the same
   * mask for `band` have the same number of parcels. In particular, for a
   * band b >= 0 the negative (sulcal) labels are never told apart.
   */
  lemma {:induction false} RunCountDependsOnMask(l1: seq<int>, l2: seq<int>, band: int)
    requires |l1| == |l2|
    requires forall i :: 0 <= i < |l1| ==> (l1[i] == band <==> l2[i] == band)
    ensures RunCount(l1, band) == RunCount(l2, band)
  {
    if |l1| > 0 {
      var n := |l1|;
      RunCountDependsOnMask(l1[..n - 1], l2[..n - 1], band);
    }
  }

  /** Storage order matters: the same multiset of labels yields two parcels or one. */
  lemma StorageOrderMatters()
    ensures RunCount([1, 0, 1], 1) == 2
    ensures RunCount([1, 1, 0], 1) == 1
  {
    assert [1, 0, 1][..2] == [1, 0];
    assert [1, 0][..1] == [1];
    assert [1, 1, 0][..2] == [1, 1];
    assert [1, 1][..1] == [1];
  }

  /**
   * calculate_parcels_per_band: one entry per band 0..levels-1, the band's
   * run count, short-cut to 0 when the band's mask is empty.
   */
  method ParcelsPerBand(labels: seq<int>, levels: nat) returns (parcels: seq<nat>)
    ensures |parcels| == levels
    ensures forall b :: 0 <= b < levels ==> parcels[b] == RunCount(labels, b)
    ensures forall b :: 0 <= b < levels ==> (parcels[b] == 0 <==> Count(labels, b) == 0)
    ensures forall b :: 0 <= b < levels ==> parcels[b] <= Count(labels, b)
  {
    parcels := [];
    var i := 0;
    while i < levels
      invariant 0 <= i <= levels
      invariant |parcels| == i
      invariant forall b :: 0 <= b < i ==> parcels[b] == RunCount(labels, b)
      invariant forall b :: 0 <= b < i ==> (parcels[b] == 0 <==> Count(labels, b) == 0)
      invariant forall b :: 0 <= b < i ==> parcels[b] <= Count(labels, b)
    {
      RunCountBounds(labels, i);
      if Count(labels, i) == 0 {
        parcels := parcels + [0];
      } else {
        var numParcels := RunCount(labels, i);
        parcels := parcels + [numParcels];
      }
      i := i + 1;
    }
  }
}
