/** Worked cases of the analysis, each stated against the model. Most lemmas take their
    literal inputs as parameters fixed by a `requires`: a literal written into an `ensures`
    lets the verifier unfold the recursive definitions on it eagerly, which costs far more
    than the proof itself. */
module Examples {
  import opened Wrappers
  import opened Geometry
  import opened Seqs
  import opened Landmarks
  import opened PathSelection
  import Aggregation
  import opened Smoothing
  import opened Threshold
  import opened Profile

  /** A window of 2 over 1..5: four points, each the mean of two neighbours. */
  lemma RollingAverageOfFive(s: seq<real>)
    requires s == [1.0, 2.0, 3.0, 4.0, 5.0]
    ensures Smooth(s, 2) == Ok([1.5, 2.5, 3.5, 4.5])
  {
    var r := Smooth(s, 2);
    assert r.Ok? && |r.value| == 4;
    forall k | 0 <= k < 4
      ensures r.value[k] == k as real + 1.5
    {
      assert r.value[k] == Sum(s[k..k + 2]) / 2.0;
      PairMean(s, k);
    }
    assert r.value == [1.5, 2.5, 3.5, 4.5] by {
      assert r.value[0] == 1.5 && r.value[1] == 2.5 && r.value[2] == 3.5 && r.value[3] == 4.5;
    }
  }

  lemma PairMean(s: seq<real>, k: nat)
    requires s == [1.0, 2.0, 3.0, 4.0, 5.0] && k < 4
    ensures Sum(s[k..k + 2]) / 2.0 == k as real + 1.5
  {
    assert s[k] == k as real + 1.0 && s[k + 1] == k as real + 2.0;
    PairSum(s[k..k + 2]);
  }

  lemma PairSum(w: seq<real>)
    requires |w| == 2
    ensures Sum(w) == w[0] + w[1]
  {
    assert w[..1] == [w[0]];
    SumSingleton(w[0]);
  }

  /** An even count averages the two middle values; an odd count takes the middle one. */
  lemma MedianExamples()
    ensures Aggregation.MedianOf([5.0, 3.0, 1.0, 4.0]) == Ok(3.5)
    ensures Aggregation.MedianOf([5.0, 3.0, 1.0]) == Ok(3.0)
  {
    MedianOfFour([5.0, 3.0, 1.0, 4.0], [1.0, 3.0, 4.0, 5.0]);
    MedianOfThree([5.0, 3.0, 1.0], [1.0, 3.0, 5.0]);
  }

  lemma MedianOfFour(s: seq<real>, sorted: seq<real>)
    requires s == [5.0, 3.0, 1.0, 4.0] && sorted == [1.0, 3.0, 4.0, 5.0]
    ensures Aggregation.MedianOf(s) == Ok(3.5)
  {
    assert multiset(sorted) == multiset(s) by {
      assert sorted == [s[2], s[1], s[3], s[0]];
    }
    assert Sorted(sorted) by {
      assert sorted[0] <= sorted[1] <= sorted[2] <= sorted[3];
    }
    assert Aggregation.MedianOf(s) == Ok((sorted[1] + sorted[2]) / 2.0) by {
      Aggregation.MedianOfSorted(s, sorted);
    }
  }

  lemma MedianOfThree(s: seq<real>, sorted: seq<real>)
    requires s == [5.0, 3.0, 1.0] && sorted == [1.0, 3.0, 5.0]
    ensures Aggregation.MedianOf(s) == Ok(3.0)
  {
    assert multiset(sorted) == multiset(s) by {
      assert sorted == [s[2], s[1], s[0]];
    }
    assert Sorted(sorted) by {
      assert sorted[0] <= sorted[1] <= sorted[2];
    }
    Aggregation.MedianOfSorted(s, sorted);
  }

  /** A single peak at half height: the window runs over the three samples around the
      peak. */
  lemma ThresholdOfPeak(v: seq<real>)
    requires v == [0.0, 1.0, 5.0, 9.0, 5.0, 1.0, 0.0]
    ensures ThresholdedIdx(v, 0.5) == Window(2, 4, 4.5)
  {
    var w := ThresholdedIdx(v, 0.5);
    assert w.thresholdValue == 4.5 by {
      assert Max(v) == 9.0 by {
        assert v[3] == 9.0;
        assert Max(v) in v;
      }
    }
    assert w.first == 2 by {
      assert v[0] < 4.5 && v[1] < 4.5 && v[2] >= 4.5;
    }
    assert w.last == 4 by {
      assert v[6] < 4.5 && v[5] < 4.5 && v[4] >= 4.5;
    }
  }

  /** The trimmed series of that peak: the samples at distances 2, 3 and 4. */
  lemma TrimOfPeak(d: seq<real>, v: seq<real>)
    requires d == [0.0, 1.0, 2.0, 3.0, 4.0, 5.0, 6.0] && v == [0.0, 1.0, 5.0, 9.0, 5.0, 1.0, 0.0]
    ensures Trim(Series(d, v), 0.5) == Some(Series([2.0, 3.0, 4.0], [5.0, 9.0, 5.0]))
  {
    ThresholdOfPeak(v);
    assert d[2..5] == [2.0, 3.0, 4.0];
    assert v[2..5] == [5.0, 9.0, 5.0];
  }

  /** Samples after the last non-zero one are cut together with it. */
  lemma CutOfTrailingZeros()
    ensures Cut([3.0, 2.0, 1.0, 0.0, 0.0]) == 2
    ensures Cut([0.0, 0.0, 0.0]) == 0
    ensures Cut([]) == 0
  {
    var s := [3.0, 2.0, 1.0, 0.0, 0.0];
    assert s[2] != 0.0;
  }

  /** A centerline from (0,0) to (2,0) between nuclei at x = -2 and x = 3: its last point is
      nearer to its nucleus (distance 1) than its first (distance 2), so it is turned round
      and takes the second nucleus. */
  lemma OrientationExample()
    ensures SelectPath([[Point(0, 0, 0), Point(1, 0, 0), Point(2, 0, 0)]], [Landmark(-2.0, 0.0), Landmark(3.0, 0.0)])
            == Ok(Selection([Point(2, 0, 0), Point(1, 0, 0), Point(0, 0, 0)], 1))
  {
    var path := [Point(0, 0, 0), Point(1, 0, 0), Point(2, 0, 0)];
    var ls := [Landmark(-2.0, 0.0), Landmark(3.0, 0.0)];
    assert FindClosest(0.0, 0.0, ls) == Some(Match(0, 4.0)) by {
      assert InRange(0.0, 0.0, ls) by {
        assert SqDist(0.0, 0.0, ls[0]) < Sentinel;
      }
      assert FirstNearest(0.0, 0.0, ls, 0);
    }
    assert FindClosest(2.0, 0.0, ls) == Some(Match(1, 1.0)) by {
      assert InRange(2.0, 0.0, ls) by {
        assert SqDist(2.0, 0.0, ls[1]) < Sentinel;
      }
      assert FirstNearest(2.0, 0.0, ls, 1);
    }
    assert Reverse(path) == [Point(2, 0, 0), Point(1, 0, 0), Point(0, 0, 0)];
  }
}
