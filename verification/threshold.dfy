/** The threshold window search (`get_thresholded_idx`): the first and the last sample of
    the smoothed profile reaching a fraction of its peak, found by two independent scans. */
module Threshold {
  import opened Seqs

  /** `maxvalue`: the peak of the series, or -1 when the series is empty. */
  function MaxValue(values: seq<real>): real
  {
    if |values| > 0 then Max(values) else -1.0
  }

  /** The forward scan from index `i`: the first index whose value reaches `tv`, or -1. */
  function FirstFrom(values: seq<real>, tv: real, i: nat): (r: int)
    requires i <= |values|
    ensures r == -1 <==> forall j :: i <= j < |values| ==> values[j] < tv
    ensures r != -1 ==> i <= r < |values| && values[r] >= tv
    ensures r != -1 ==> forall j :: i <= j < r ==> values[j] < tv
    decreases |values| - i
  {
    if i == |values| then -1
    else if values[i] >= tv then i
    else FirstFrom(values, tv, i + 1)
  }

  /** The backward scan over indices `n - 1` down to 0: the last index whose value reaches
      `tv`, or -1. */
  function LastBefore(values: seq<real>, tv: real, n: nat): (r: int)
    requires n <= |values|
    ensures r == -1 <==> forall j :: 0 <= j < n ==> values[j] < tv
    ensures r != -1 ==> 0 <= r < n && values[r] >= tv
    ensures r != -1 ==> forall j :: r < j < n ==> values[j] < tv
  {
    if n == 0 then -1
    else if values[n - 1] >= tv then n - 1
    else LastBefore(values, tv, n - 1)
  }

  /** The result triple of `get_thresholded_idx`. */
  datatype Window = Window(first: int, last: int, thresholdValue: real)

  /** `get_thresholded_idx(values, threshold)`: the threshold value is the fraction of the
      peak; `first` is the least and `last` the greatest index reaching it, both -1 when no
      sample reaches it. */
  function ThresholdedIdx(values: seq<real>, threshold: real): (r: Window)
    ensures r.thresholdValue == threshold * MaxValue(values)
    ensures r.first == -1 <==> forall i :: 0 <= i < |values| ==> values[i] < r.thresholdValue
    ensures r.first == -1 <==> r.last == -1
    ensures r.first != -1 ==> 0 <= r.first <= r.last < |values|
    ensures r.first != -1 ==> values[r.first] >= r.thresholdValue && values[r.last] >= r.thresholdValue
    ensures r.first != -1 ==> forall i :: 0 <= i < r.first ==> values[i] < r.thresholdValue
    ensures r.first != -1 ==> forall i :: r.last < i < |values| ==> values[i] < r.thresholdValue
  {
    var tv := threshold * MaxValue(values);
    Window(FirstFrom(values, tv, 0), LastBefore(values, tv, |values|), tv)
  }

  /** `get_thresholded_idx` as written: the peak, the threshold value, then the two scans. */
  method GetThresholdedIdx(values: seq<real>, threshold: real) returns (firstidx: int, lastidx: int, thresholdValue: real)
    ensures Window(firstidx, lastidx, thresholdValue) == ThresholdedIdx(values, threshold)
  {
    var maxvalue := -1.0;
    if |values| > 0 {
      maxvalue := Max(values);
    }
    thresholdValue := threshold * maxvalue;
    assert thresholdValue == ThresholdedIdx(values, threshold).thresholdValue;
    firstidx := ScanForward(values, thresholdValue);
    lastidx := ScanBackward(values, thresholdValue);
  }

  /** The first loop: walks forward and leaves at the first value reaching `tv`. */
  method ScanForward(values: seq<real>, tv: real) returns (firstidx: int)
    ensures firstidx == FirstFrom(values, tv, 0)
  {
    firstidx := -1;
    var i := 0;
    while i < |values|
      invariant 0 <= i <= |values|
      invariant firstidx == -1
      invariant FirstFrom(values, tv, 0) == FirstFrom(values, tv, i)
    {
      if firstidx == -1 && values[i] >= tv {
        firstidx := i;
        break;
      }
      i := i + 1;
    }
  }

  /** The second loop: walks back from the end and leaves at the first value reaching
      `tv`. */
  method ScanBackward(values: seq<real>, tv: real) returns (lastidx: int)
    ensures lastidx == LastBefore(values, tv, |values|)
  {
    lastidx := -1;
    var k := |values| - 1;
    while k >= 0
      invariant -1 <= k < |values|
      invariant lastidx == -1
      invariant LastBefore(values, tv, |values|) == LastBefore(values, tv, k + 1)
    {
      if lastidx == -1 && values[k] >= tv {
        lastidx := k;
        break;
      }
      k := k - 1;
    }
  }

  /** An empty series leaves the peak at -1: nothing is found and the threshold value is
      minus the fraction. */
  lemma EmptySeries(threshold: real)
    ensures ThresholdedIdx([], threshold) == Window(-1, -1, -threshold)
  {
  }

  /** A non-empty series with a non-negative peak and a fraction between 0 and 1 always has
      a window: the peak itself reaches the threshold. */
  lemma WindowFound(values: seq<real>, threshold: real)
    requires |values| > 0 && 0.0 <= threshold <= 1.0 && Max(values) >= 0.0
    ensures ThresholdedIdx(values, threshold).first != -1
  {
    var k :| 0 <= k < |values| && values[k] == Max(values);
    PeakReached(values, threshold, k);
  }

  /** The peak sample reaches any fraction between 0 and 1 of a non-negative peak. */
  lemma PeakReached(values: seq<real>, threshold: real, k: nat)
    requires k < |values| && values[k] == MaxValue(values) && values[k] >= 0.0 && 0.0 <= threshold <= 1.0
    ensures ThresholdedIdx(values, threshold).first != -1
  {
    FractionOfPeak(threshold, MaxValue(values));
    ReachedSample(values, threshold, k);
  }

  /** A sample reaching the threshold value makes the window non-empty. */
  lemma ReachedSample(values: seq<real>, threshold: real, k: nat)
    requires k < |values| && values[k] >= threshold * MaxValue(values)
    ensures ThresholdedIdx(values, threshold).first != -1
  {
  }

  /** A fraction between 0 and 1 of a non-negative peak does not exceed the peak. */
  lemma FractionOfPeak(t: real, m: real)
    requires 0.0 <= t <= 1.0 && m >= 0.0
    ensures t * m <= m
  {
    assert (1.0 - t) * m >= 0.0;
  }

  /** An all-zero series has threshold value 0 whatever the fraction, so the window is the
      whole series rather than "not found". */
  lemma {:induction false} AllZeroSeries(values: seq<real>, threshold: real)
    requires |values| > 0
    requires forall i :: 0 <= i < |values| ==> values[i] == 0.0
    ensures ThresholdedIdx(values, threshold) == Window(0, |values| - 1, 0.0)
  {
    assert Max(values) == 0.0;
  }
}
