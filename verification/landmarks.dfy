/** The nearest-landmark search (`find_closest_roi`): a linear scan over the nucleus
    regions for the centroid closest to a point.

    Distances are compared squared: the square root is monotone, so the scan picks the same
    landmark, and the reported distance is the square of the one the script reports. */
module Landmarks {
  import opened Wrappers

  /** A nucleus region, reduced to the contour centroid the search reads. */
  datatype Landmark = Landmark(cx: real, cy: real)

  /** The position of the chosen landmark in the list, and its squared distance. */
  datatype Match = Match(index: nat, sqDist: real)

  /** The largest finite double, the scan's initial "best distance" (`sys.float_info.max`). */
  const FloatMax: real := 179769313486231570814527423731704356798070567525844996598917476803157260780028538760589558632766878171540458953514382464234321326889464182768467546703537516986049910576551282076245490090389328944075868508455133942304583236903222948165808559332123348274797826204144723168738177180919299881250404026184124858368.0

  /** The initial best distance, squared. */
  const Sentinel: real := FloatMax * FloatMax

  function SqDist(x: real, y: real, l: Landmark): real
  {
    (l.cx - x) * (l.cx - x) + (l.cy - y) * (l.cy - y)
  }

  /** `k` is the first of the landmarks nearest to (x, y). */
  predicate FirstNearest(x: real, y: real, ls: seq<Landmark>, k: nat)
  {
    && k < |ls|
    && (forall j :: 0 <= j < |ls| ==> SqDist(x, y, ls[k]) <= SqDist(x, y, ls[j]))
    && (forall j :: 0 <= j < k ==> SqDist(x, y, ls[k]) < SqDist(x, y, ls[j]))
  }

  /** Some landmark lies closer than the initial best distance. */
  predicate InRange(x: real, y: real, ls: seq<Landmark>)
  {
    exists j :: 0 <= j < |ls| && SqDist(x, y, ls[j]) < Sentinel
  }

  /** The loop state after looking at the first `idx` landmarks: `minIdx` is still -1 while
      none has beaten the sentinel, and otherwise the first nearest one seen so far. */
  predicate ScanState(x: real, y: real, ls: seq<Landmark>, idx: nat, minDist: real, minIdx: int)
  {
    && idx <= |ls|
    && (minIdx == -1 ==>
          minDist == Sentinel && forall j :: 0 <= j < idx ==> Sentinel <= SqDist(x, y, ls[j]))
    && (minIdx != -1 ==>
          && 0 <= minIdx < idx
          && minDist == SqDist(x, y, ls[minIdx])
          && minDist < Sentinel
          && (forall j :: 0 <= j < idx ==> minDist <= SqDist(x, y, ls[j]))
          && (forall j :: 0 <= j < minIdx ==> minDist < SqDist(x, y, ls[j])))
  }

  /** The loop of `find_closest_roi` from index `idx` on: a landmark replaces the best one
      only when it is strictly closer. Returns the final (distance, index) pair. */
  function Scan(x: real, y: real, ls: seq<Landmark>, idx: nat, minDist: real, minIdx: int): (r: (real, int))
    requires ScanState(x, y, ls, idx, minDist, minIdx)
    ensures ScanState(x, y, ls, |ls|, r.0, r.1)
    decreases |ls| - idx
  {
    if idx == |ls| then (minDist, minIdx)
    else
      var d := SqDist(x, y, ls[idx]);
      if d < minDist then Scan(x, y, ls, idx + 1, d, idx)
      else Scan(x, y, ls, idx + 1, minDist, minIdx)
  }

  /** `find_closest_roi(x, y, roi_list)`. No landmarks gives `None`. Otherwise the result is
      the first nearest landmark with its squared distance, unless no landmark beats the
      sentinel: then the index stays -1, which Python reads as the last landmark, and the
      distance stays the sentinel. */
  function FindClosest(x: real, y: real, ls: seq<Landmark>): (r: Option<Match>)
    ensures r.None? <==> |ls| == 0
    ensures r.Some? ==> r.value.index < |ls|
    ensures r.Some? && InRange(x, y, ls) ==>
              FirstNearest(x, y, ls, r.value.index) && r.value.sqDist == SqDist(x, y, ls[r.value.index])
    ensures r.Some? && !InRange(x, y, ls) ==> r.value.index == |ls| - 1 && r.value.sqDist == Sentinel
  {
    if |ls| == 0 then None
    else
      var best := Scan(x, y, ls, 0, Sentinel, -1);
      Some(Match(if best.1 == -1 then |ls| - 1 else best.1, best.0))
  }

  /** Whichever case applies, the reported squared distance is never above any landmark's. */
  lemma FindClosestIsMinimal(x: real, y: real, ls: seq<Landmark>, j: nat)
    requires j < |ls|
    ensures FindClosest(x, y, ls).Some?
    ensures FindClosest(x, y, ls).value.sqDist <= SqDist(x, y, ls[j])
  {
    var r := FindClosest(x, y, ls);
    if !InRange(x, y, ls) {
      assert !(SqDist(x, y, ls[j]) < Sentinel);
    }
  }
}
