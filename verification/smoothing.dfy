/** Boxcar smoothing (`rolling_seq`, `rolling_average`): a window of fixed width slides over
    the series one element at a time, and each window is replaced by its mean. */
module Smoothing {
  import opened Wrappers
  import opened Seqs

  /** Python's `t[1:]` on a tuple: empty when the tuple is empty. */
  function Drop1<T>(t: seq<T>): (r: seq<T>)
    ensures |t| > 0 ==> r == t[1..]
    ensures |t| == 0 ==> r == []
  {
    if |t| == 0 then [] else t[1..]
  }

  /** The generator's loop: every remaining element drops the oldest element of the current
      window, appends itself and yields the new window. */
  function Shift<T>(current: seq<T>, rest: seq<T>): (r: seq<seq<T>>)
    ensures |r| == |rest|
    decreases |rest|
  {
    if |rest| == 0 then []
    else
      var next := Drop1(current) + [rest[0]];
      [next] + Shift(next, rest[1..])
  }

  /** `rolling_seq(seq, window)`: the first `window` elements are yielded only when there
      are that many; the loop then shifts once per remaining element. */
  function RollingSeq<T>(s: seq<T>, window: nat): seq<seq<T>>
  {
    var k := if window <= |s| then window else |s|;
    var first := s[..k];
    (if |first| == window then [first] else []) + Shift(first, s[k..])
  }

  /** The windows the loop yields after a full first window `current`: the k-th is the run
      of `|current|` elements of `current + rest` starting at k + 1. */
  lemma {:induction false} ShiftWindows<T>(current: seq<T>, rest: seq<T>)
    requires |current| >= 1
    ensures forall k :: 0 <= k < |rest| ==> Shift(current, rest)[k] == (current + rest)[k + 1..k + 1 + |current|]
    decreases |rest|
  {
    if |rest| > 0 {
      var all := current + rest;
      var next := Drop1(current) + [rest[0]];
      assert next == all[1..1 + |current|] by {
        assert |next| == |current|;
        assert forall i :: 0 <= i < |next| ==> next[i] == all[1 + i];
      }
      assert next + rest[1..] == all[1..];
      ShiftWindows(next, rest[1..]);
      var tail := Shift(next, rest[1..]);
      var shifted := Shift(current, rest);
      assert shifted == [next] + tail;
      forall k | 0 < k < |shifted|
        ensures shifted[k] == all[k + 1..k + 1 + |current|]
      {
        assert shifted[k] == tail[k - 1];
        assert tail[k - 1] == all[1..][k..k + |current|];
        assert all[1..][k..k + |current|] == all[k + 1..k + 1 + |current|];
      }
    }
  }

  /** For a window of at least 1 the generator yields every run of `window` consecutive
      elements in order: `max(0, n - window + 1)` windows, the k-th holding elements k to
      k + window - 1. */
  lemma RollingSeqWindows<T>(s: seq<T>, window: nat)
    requires window >= 1
    ensures |RollingSeq(s, window)| == if window <= |s| then |s| - window + 1 else 0
    ensures forall k :: 0 <= k < |RollingSeq(s, window)| ==> RollingSeq(s, window)[k] == s[k..k + window]
  {
    if window <= |s| {
      ShiftWindows(s[..window], s[window..]);
      assert s[..window] + s[window..] == s;
      var tail := Shift(s[..window], s[window..]);
      var r := RollingSeq(s, window);
      assert r == [s[..window]] + tail;
      forall k | 0 < k < |r|
        ensures r[k] == s[k..k + window]
      {
        assert r[k] == tail[k - 1];
        assert tail[k - 1] == (s[..window] + s[window..])[k..k + window];
      }
    }
  }

  /** A window of 0 yields the empty tuple first, then every element on its own. */
  lemma RollingSeqZero<T>(s: seq<T>)
    ensures |RollingSeq(s, 0)| == |s| + 1
    ensures RollingSeq(s, 0)[0] == []
    ensures forall k :: 0 <= k < |s| ==> RollingSeq(s, 0)[k + 1] == [s[k]]
  {
    ShiftSingletons(s, []);
  }

  lemma {:induction false} ShiftSingletons<T>(s: seq<T>, current: seq<T>)
    requires |current| <= 1
    ensures forall k :: 0 <= k < |s| ==> Shift(current, s)[k] == [s[k]]
    decreases |s|
  {
    if |s| > 0 {
      ShiftSingletons(s[1..], [s[0]]);
    }
  }

  /** The mean of each window in turn (`sum(elements)/len(elements)`); the first empty
      window divides by zero. */
  function MeanOfEach(ws: seq<seq<real>>): (r: Result<seq<real>>)
    ensures r.Err? <==> exists k :: 0 <= k < |ws| && |ws[k]| == 0
    ensures r.Ok? ==> |r.value| == |ws|
    ensures r.Ok? ==> forall k :: 0 <= k < |ws| ==> r.value[k] == Sum(ws[k]) / |ws[k]| as real
  {
    if |ws| == 0 then Ok([])
    else if |ws[0]| == 0 then Err(ZeroWindow)
    else
      var rest := MeanOfEach(ws[1..]);
      assert forall k :: 0 < k < |ws| ==> ws[1..][k - 1] == ws[k];
      if rest.Ok? then Ok([Sum(ws[0]) / |ws[0]| as real] + rest.value) else Err(ZeroWindow)
  }

  lemma SumSingleton(a: real)
    ensures Sum([a]) == a
  {
    assert [a][..0] == [];
  }

  /** One smoothed series: the mean of every window in turn. */
  function Smooth(s: seq<real>, window: nat): (r: Result<seq<real>>)
    ensures r.Err? <==> window == 0
    ensures r.Ok? ==> |r.value| == (if window <= |s| then |s| - window + 1 else 0)
    ensures r.Ok? ==> forall k :: 0 <= k < |r.value| ==> r.value[k] == Sum(s[k..k + window]) / window as real
  {
    if window == 0 then
      RollingSeqZero(s);
      assert |RollingSeq(s, 0)[0]| == 0;
      MeanOfEach(RollingSeq(s, window))
    else
      RollingSeqWindows(s, window);
      MeanOfEach(RollingSeq(s, window))
  }

  /** The smoothed distance and intensity series. */
  datatype Smoothed = Smoothed(x: seq<real>, y: seq<real>)

  /** `rolling_average(x, y, window)`: both series smoothed with the same window, so
      series of equal length stay of equal length. A window of 0 always fails, as the first
      window is the empty tuple. */
  function RollingAverage(x: seq<real>, y: seq<real>, window: nat): (r: Result<Smoothed>)
    ensures r.Err? <==> window == 0
    ensures r.Ok? ==> Smooth(x, window) == Ok(r.value.x) && Smooth(y, window) == Ok(r.value.y)
    ensures r.Ok? && |x| == |y| ==> |r.value.x| == |r.value.y|
  {
    var mx := Smooth(x, window);
    var my := Smooth(y, window);
    if mx.Ok? && my.Ok? then Ok(Smoothed(mx.value, my.value)) else Err(ZeroWindow)
  }

  /** A window of 1 leaves a series unchanged. */
  lemma SmoothWindowOne(s: seq<real>)
    ensures Smooth(s, 1) == Ok(s)
  {
    var r := Smooth(s, 1).value;
    forall k | 0 <= k < |s|
      ensures r[k] == s[k]
    {
      assert s[k..k + 1] == [s[k]];
      SumSingleton(s[k]);
    }
    assert r == s;
  }

  /** A window of 1 leaves both series unchanged. */
  lemma WindowOneIsIdentity(x: seq<real>, y: seq<real>)
    ensures RollingAverage(x, y, 1) == Ok(Smoothed(x, y))
  {
    SmoothWindowOne(x);
    SmoothWindowOne(y);
  }
}
