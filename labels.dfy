/**
 * The per-vertex dominant-band label array produced by the local dominance map:
 * one signed band index per vertex (negative for sulcal, positive for gyral).
 */
module DominantBands {

  /** Number of vertices labelled `band`: np.sum of the mask `labels == band`. */
  function Count(labels: seq<int>, band: int): (n: nat)
    ensures n <= |labels|
    ensures n == 0 <==> forall i :: 0 <= i < |labels| ==> labels[i] != band
  {
    if |labels| == 0 then 0
    else Count(labels[..|labels| - 1], band) + (if labels[|labels| - 1] == band then 1 else 0)
  }

  /** np.max of a non-empty label array. */
  function MaxLabel(labels: seq<int>): (m: int)
    requires |labels| > 0
    ensures exists i :: 0 <= i < |labels| && labels[i] == m
    ensures forall i :: 0 <= i < |labels| ==> labels[i] <= m
  {
    if |labels| == 1 then labels[0]
    else
      var m := MaxLabel(labels[..|labels| - 1]);
      assert labels[..|labels| - 1][0] == labels[0];
      if labels[|labels| - 1] > m then labels[|labels| - 1] else m
  }

  /** When every vertex carries `band`, the whole array is counted. */
  lemma {:induction false} CountAll(labels: seq<int>, band: int)
    requires forall i :: 0 <= i < |labels| ==> labels[i] == band
    ensures Count(labels, band) == |labels|
  {
    if |labels| > 0 {
      CountAll(labels[..|labels| - 1], band);
    }
  }

  /** No vertex carries a band above the maximum label. */
  lemma AboveMaxAbsent(labels: seq<int>, band: int)
    requires |labels| > 0 && band > MaxLabel(labels)
    ensures Count(labels, band) == 0
  {
  }
}
