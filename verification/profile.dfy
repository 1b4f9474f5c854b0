/** Assembly of the intensity profile in `create_plot`: one distance per column of the
    strip, the trailing-zero cut, the rolling average of what is kept, and the trim of the
    smoothed series to the window that reaches the threshold. Drawing the plot and filling
    the results table only display these series. */
module Profile {
  import opened Wrappers
  import opened Seqs
  import Aggregation
  import opened Smoothing
  import opened Threshold

  /** `x_values`: column `i` lies at distance `i * x_inc` along the strip. */
  function Distances(n: nat, xInc: real): (r: seq<real>)
    ensures |r| == n
    ensures forall i :: 0 <= i < n ==> r[i] == i as real * xInc
  {
    seq(n, i => i as real * xInc)
  }

  /** With a positive pixel width the distances increase strictly. */
  lemma DistancesIncrease(n: nat, xInc: real)
    requires xInc > 0.0
    ensures forall i, j :: 0 <= i < j < n ==> Distances(n, xInc)[i] < Distances(n, xInc)[j]
  {
    var d := Distances(n, xInc);
    forall i, j | 0 <= i < j < n
      ensures d[i] < d[j]
    {
      assert d[j] - d[i] == (j - i) as real * xInc;
    }
  }

  /** The index of the last non-zero sample among the first `n`, or -1 when they are all
      zero. */
  function LastNonZero(s: seq<real>, n: nat): (r: int)
    requires n <= |s|
    ensures -1 <= r < n
    ensures r >= 0 ==> s[r] != 0.0
    ensures forall j :: r < j < n ==> s[j] == 0.0
  {
    if n == 0 then -1
    else if s[n - 1] != 0.0 then n - 1
    else LastNonZero(s, n - 1)
  }

  /** The backward scan of `create_plot` as written: every trailing zero moves `lastindex`
      to the index before it, and the first non-zero sample from the end stops the scan. */
  method TrailingScan(intensity: seq<real>) returns (lastindex: int)
    ensures lastindex == LastNonZero(intensity, |intensity|)
  {
    var n := |intensity|;
    lastindex := n - 1;
    var i := 1;
    while i <= n
      invariant 1 <= i <= n + 1
      invariant lastindex == n - i
      invariant forall j :: n - i < j < n ==> intensity[j] == 0.0
    {
      var index := n - i;
      if intensity[index] == 0.0 {
        lastindex := index - 1;
      } else {
        break;
      }
      i := i + 1;
    }
  }

  /** The number of samples `range(lastindex)` keeps for smoothing. The range stops before
      `lastindex`, so besides the trailing zeros the last non-zero sample is dropped too:
      the sample right after the kept prefix is that last non-zero one, and only zeros
      follow it. A series that is all zero keeps nothing. */
  function Cut(intensity: seq<real>): (c: nat)
    ensures c <= |intensity|
    ensures c > 0 ==> c < |intensity| && intensity[c] != 0.0
    ensures forall j :: c < j < |intensity| ==> intensity[j] == 0.0
  {
    var lastindex := LastNonZero(intensity, |intensity|);
    if lastindex > 0 then lastindex else 0
  }

  /** A distance series and the intensity series that goes with it. */
  datatype Series = Series(x: seq<real>, y: seq<real>)

  /** The series `create_plot` builds: the raw profile, its rolling average, the trimmed
      rolling average when the threshold is reached, and the threshold intensity. */
  datatype Plotted = Plotted(raw: Series, smoothed: Series, trimmed: Option<Series>, thresholdIntensity: real)

  /** Some value of the series reaches the threshold intensity `tv`. */
  predicate Reaches(s: seq<real>, tv: real)
  {
    exists k :: 0 <= k < |s| && s[k] >= tv
  }

  /** `average_x`, `average_y`: the rolling average of the kept prefix of the profile. The
      k-th smoothed point is the mean of kept points k to k + average - 1, so there are
      `Cut - average + 1` of them, or none when fewer points are kept. */
  function SmoothKept(intensity: seq<real>, average: nat, xInc: real): (r: Result<Series>)
    ensures r.Err? <==> average == 0
    ensures r.Ok? ==> |r.value.x| == |r.value.y|
                      == if average <= Cut(intensity) then Cut(intensity) - average + 1 else 0
    ensures r.Ok? ==> forall k :: 0 <= k < |r.value.y| ==>
              && k + average <= Cut(intensity)
              && r.value.x[k] == Sum(Distances(|intensity|, xInc)[k..k + average]) / average as real
              && r.value.y[k] == Sum(intensity[k..k + average]) / average as real
  {
    var c := Cut(intensity);
    var distances := Distances(|intensity|, xInc);
    var averaged := RollingAverage(distances[..c], intensity[..c], average);
    if averaged.Err? then Err(ZeroWindow)
    else
      KeptMeans(distances, c, average);
      KeptMeans(intensity, c, average);
      Ok(Series(averaged.value.x, averaged.value.y))
  }

  /** Smoothing the first `c` values: every window lies inside the prefix, so its mean is
      that of the same run of the whole series. */
  lemma KeptMeans(s: seq<real>, c: nat, w: nat)
    requires c <= |s| && w > 0
    ensures Smooth(s[..c], w).Ok?
    ensures forall k :: 0 <= k < |Smooth(s[..c], w).value| ==>
              k + w <= c && Smooth(s[..c], w).value[k] == Sum(s[k..k + w]) / w as real
  {
    var r := Smooth(s[..c], w).value;
    forall k | 0 <= k < |r|
      ensures k + w <= c && r[k] == Sum(s[k..k + w]) / w as real
    {
      assert s[..c][k..k + w] == s[k..k + w];
    }
  }

  /** The total distance of the columns k to k + w - 1. */
  function RunTotal(k: nat, w: nat, xInc: real): real
  {
    (w as real * k as real + w as real * (w as real - 1.0) / 2.0) * xInc
  }

  /** The distances of a run of columns add up to `RunTotal`. */
  lemma {:induction false} SumOfDistances(n: nat, xInc: real, k: nat, w: nat)
    requires k + w <= n
    ensures Sum(Distances(n, xInc)[k..k + w]) == RunTotal(k, w, xInc)
  {
    if w > 0 {
      var d := Distances(n, xInc);
      var run := d[k..k + w];
      assert run[..w - 1] == d[k..k + w - 1];
      assert run[w - 1] == (k + w - 1) as real * xInc;
      SumOfDistances(n, xInc, k, w - 1);
      var a := w as real;
      var b := k as real;
      assert (a - 1.0) * b + (a - 1.0) * (a - 2.0) / 2.0 + (b + a - 1.0) == a * b + a * (a - 1.0) / 2.0;
    }
  }

  /** The mean distance of a run of `w` columns starting at column `k` is the distance of
      its centre, `(w - 1) / 2` columns past `k`. */
  lemma CentreOfRun(k: nat, w: nat, xInc: real)
    requires w > 0
    ensures RunTotal(k, w, xInc) / w as real == (k as real + (w as real - 1.0) / 2.0) * xInc
  {
    var a := w as real;
    var centre := (k as real + (a - 1.0) / 2.0) * xInc;
    assert RunTotal(k, w, xInc) == a * centre;
    assert a * centre / a == centre;
  }

  /** Each smoothed distance is the distance of the centre of its window: the k-th lies
      `(average - 1) / 2` columns past column k. */
  lemma SmoothedDistances(intensity: seq<real>, average: nat, xInc: real)
    requires average > 0
    ensures SmoothKept(intensity, average, xInc).Ok?
    ensures forall k :: 0 <= k < |SmoothKept(intensity, average, xInc).value.x| ==>
              SmoothKept(intensity, average, xInc).value.x[k] == (k as real + (average as real - 1.0) / 2.0) * xInc
  {
    var s := SmoothKept(intensity, average, xInc).value;
    forall k | 0 <= k < |s.x|
      ensures s.x[k] == (k as real + (average as real - 1.0) / 2.0) * xInc
    {
      assert average > 0 && k + average <= Cut(intensity);
      SumOfDistances(|intensity|, xInc, k, average);
      CentreOfRun(k, average, xInc);
    }
  }

  /** `t` is `s` cut to the closed index window `first..last`, whose ends reach `tv` while
      every value outside the window stays below it. */
  predicate TrimmedAt(s: Series, t: Series, first: int, last: int, tv: real)
  {
    && |s.x| == |s.y|
    && 0 <= first <= last < |s.y|
    && t == Series(s.x[first..last + 1], s.y[first..last + 1])
    && s.y[first] >= tv && s.y[last] >= tv
    && (forall i :: 0 <= i < first ==> s.y[i] < tv)
    && (forall i :: last < i < |s.y| ==> s.y[i] < tv)
  }

  /** `trim_x`, `trim_y`: built only when both thresholded indices were found, that is
      when some smoothed value reaches the threshold intensity. */
  function Trim(s: Series, threshold: real): (r: Option<Series>)
    requires |s.x| == |s.y|
    ensures r.Some? <==> Reaches(s.y, ThresholdedIdx(s.y, threshold).thresholdValue)
    ensures r.Some? ==> TrimmedAt(s, r.value, ThresholdedIdx(s.y, threshold).first,
                                  ThresholdedIdx(s.y, threshold).last, ThresholdedIdx(s.y, threshold).thresholdValue)
  {
    var w := ThresholdedIdx(s.y, threshold);
    if w.first != -1 then
      var t := Series(s.x[w.first..w.last + 1], s.y[w.first..w.last + 1]);
      assert s.y[w.first] >= w.thresholdValue;
      assert TrimmedAt(s, t, w.first, w.last, w.thresholdValue);
      Some(t)
    else
      None
  }

  /** The profile of a column-intensity series: `average` is the rolling window,
      `threshold` the fraction of the smoothed peak, `xInc` the pixel width. The raw series
      pairs every column with its distance; the smoothed series is the rolling average of
      the kept prefix; the trimmed series exists exactly when some smoothed value reaches
      the threshold intensity, and it runs from the first to the last such value. */
  function Assemble(intensity: seq<real>, average: nat, threshold: real, xInc: real): (r: Result<Plotted>)
    ensures r.Err? <==> average == 0
    ensures r.Ok? ==> r.value.raw == Series(Distances(|intensity|, xInc), intensity)
    ensures r.Ok? ==> SmoothKept(intensity, average, xInc) == Ok(r.value.smoothed)
    ensures r.Ok? ==> r.value.thresholdIntensity == ThresholdedIdx(r.value.smoothed.y, threshold).thresholdValue
    ensures r.Ok? ==> (r.value.trimmed.Some? <==> Reaches(r.value.smoothed.y, r.value.thresholdIntensity))
    ensures r.Ok? && r.value.trimmed.Some? ==>
              TrimmedAt(r.value.smoothed, r.value.trimmed.value, ThresholdedIdx(r.value.smoothed.y, threshold).first,
                        ThresholdedIdx(r.value.smoothed.y, threshold).last, r.value.thresholdIntensity)
  {
    var smoothed := SmoothKept(intensity, average, xInc);
    if smoothed.Err? then Err(ZeroWindow)
    else
      var s := smoothed.value;
      Ok(Plotted(Series(Distances(|intensity|, xInc), intensity), s, Trim(s, threshold), ThresholdedIdx(s.y, threshold).thresholdValue))
  }

  /** The series part of `create_plot(imp, method, average, threshold)`: the column
      intensities of the strip, then `Assemble`. A failing column aggregate fails first;
      otherwise only a window of 0 fails. */
  function CreatePlot(strip: Aggregation.Strip, methodName: string, average: nat, threshold: real, xInc: real): (r: Result<Plotted>)
    requires strip.Valid()
    ensures r.Err? <==> Aggregation.CrossSectionIntensity(strip, methodName).Err? || average == 0
    ensures r.Err? ==> r.fault == if Aggregation.CrossSectionIntensity(strip, methodName).Err? then EmptyColumn else ZeroWindow
    ensures r.Ok? ==> |r.value.raw.x| == |r.value.raw.y| == strip.width
    ensures r.Ok? ==> r.value.raw.y == Aggregation.CrossSectionIntensity(strip, methodName).value
    ensures r.Ok? ==> r == Assemble(Aggregation.CrossSectionIntensity(strip, methodName).value, average, threshold, xInc)
  {
    var intensity := Aggregation.CrossSectionIntensity(strip, methodName);
    if intensity.Err? then Err(EmptyColumn)
    else Assemble(intensity.value, average, threshold, xInc)
  }
}
