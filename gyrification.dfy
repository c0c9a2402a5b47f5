/**
 * Gyrification index (get_gyrification_index): mesh area over the area of
 * its convex hull. The hull and both areas come from the geometry library and
 * are taken as given non-negative reals.
 */
module Gyrification {
  import opened Numerics
  import opened Wrappers

  /**
   * The pair (index, hull area). The division is a Python float division, so
   * a zero hull area raises ZeroDivisionError instead of yielding infinity.
   */
  function GyrificationIndex(meshArea: NonNeg, hullArea: NonNeg): (r: Result<(real, NonNeg)>)
    ensures r.Failure? <==> hullArea == 0.0
    ensures r.Failure? ==> r.error == ZeroDivision
    ensures r.Success? ==> r.value.1 == hullArea && r.value.0 * hullArea == meshArea
    ensures r.Success? ==> r.value.0 >= 0.0
    ensures r.Success? ==> (r.value.0 >= 1.0 <==> meshArea >= hullArea)
  {
    if hullArea == 0.0 then Failure(ZeroDivision)
    else
      var index := meshArea / hullArea;
      assert index * hullArea == meshArea;
      assert index >= 1.0 <==> index * hullArea >= 1.0 * hullArea;
      Success((index, hullArea))
  }
}
