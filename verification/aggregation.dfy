/** Column aggregation of a straightened strip (`median`, `cross_section_intensity`): each
    column of the height x width strip becomes one intensity value, by mean, median or sum. */
module Aggregation {
  import opened Wrappers
  import opened Seqs

  /** The straightened strip: `rows[y][col]` is the pixel value at row `y`, column `col`. */
  datatype Strip = Strip(height: nat, width: nat, rows: seq<seq<real>>)
  {
    predicate Valid()
    {
      |rows| == height && forall y :: 0 <= y < height ==> |rows[y]| == width
    }
  }

  datatype Method = Mean | Median | Sum

  /** `str.lower()` on ASCII letters. */
  function LowerChar(c: char): char
  {
    if 'A' <= c <= 'Z' then (c as int - 'A' as int + 'a' as int) as char else c
  }

  function Lower(s: string): (r: string)
    ensures |r| == |s|
    ensures forall i :: 0 <= i < |s| ==> r[i] == LowerChar(s[i])
  {
    if |s| == 0 then "" else [LowerChar(s[0])] + Lower(s[1..])
  }

  /** The method chosen by name, ignoring case; any unrecognised name means the mean. */
  function ParseMethod(name: string): (m: Method)
    ensures m == Median <==> Lower(name) == "median"
    ensures m == Sum <==> Lower(name) == "sum"
  {
    var lowered := Lower(name);
    if lowered == "median" then Median
    else if lowered == "sum" then Sum
    else Mean
  }

  /** Names that differ only in the case of their letters choose the same method. */
  lemma ParseMethodIgnoresCase(a: string, b: string)
    requires |a| == |b|
    requires forall i :: 0 <= i < |a| ==> LowerChar(a[i]) == LowerChar(b[i])
    ensures ParseMethod(a) == ParseMethod(b)
  {
    assert Lower(a) == Lower(b);
  }

  /** The values of column `col`, top to bottom. */
  function Column(strip: Strip, col: nat): (c: seq<real>)
    requires strip.Valid() && col < strip.width
    ensures |c| == strip.height
    ensures forall y :: 0 <= y < strip.height ==> c[y] == strip.rows[y][col]
  {
    seq(strip.height, y requires 0 <= y < strip.height => strip.rows[y][col])
  }

  /** The middle value of a sorted non-empty sequence, or the mean of the two middle
      values when the count is even. */
  function Middle(sorted: seq<real>): real
    requires |sorted| > 0
  {
    var middle := |sorted| / 2;
    if |sorted| % 2 == 0 then (sorted[middle - 1] + sorted[middle]) / 2.0 else sorted[middle]
  }

  /** `median`: the middle of the sorted values. An empty list makes the script index
      position -1 of an empty list. The median lies between the least and the greatest
      value, and is one of the values when the count is odd. */
  function MedianOf(s: seq<real>): (r: Result<real>)
    ensures r.Ok? <==> |s| > 0
    ensures r.Ok? && |s| % 2 == 1 ==> r.value in s
    ensures r.Ok? ==> exists i :: 0 <= i < |s| && s[i] <= r.value
    ensures r.Ok? ==> exists i :: 0 <= i < |s| && r.value <= s[i]
  {
    if |s| == 0 then Err(EmptyColumn)
    else
      var sorted := Sort(s);
      MiddleBounds(sorted);
      assert sorted[0] in multiset(s) && sorted[|s| - 1] in multiset(s);
      assert |s| % 2 == 1 ==> sorted[|s| / 2] in multiset(s);
      Ok(Middle(sorted))
  }

  /** The middle of an ascending sequence lies between its ends, and is its middle element
      for an odd length. */
  lemma MiddleBounds(t: seq<real>)
    requires Sorted(t) && |t| > 0
    ensures t[0] <= Middle(t) <= t[|t| - 1]
    ensures |t| % 2 == 1 ==> Middle(t) == t[|t| / 2]
  {
    var middle := |t| / 2;
    if |t| % 2 == 0 {
      assert t[0] <= t[middle - 1] <= t[middle] <= t[|t| - 1];
    } else {
      assert t[0] <= t[middle] <= t[|t| - 1];
    }
  }

  /** The median depends only on which values the column holds, not on their order. */
  lemma MedianIgnoresOrder(a: seq<real>, b: seq<real>)
    requires multiset(a) == multiset(b)
    ensures MedianOf(a) == MedianOf(b)
  {
    SortedUnique(Sort(a), Sort(b));
    assert |a| == |multiset(a)| == |b|;
  }

  /** The median is the middle of any ascending arrangement of the values: the middle
      value for an odd count, the mean of the two middle values for an even count. */
  lemma MedianOfSorted(s: seq<real>, sorted: seq<real>)
    requires Sorted(sorted) && multiset(sorted) == multiset(s) && |s| > 0
    ensures |sorted| == |s|
    ensures |s| % 2 == 1 ==> MedianOf(s) == Ok(sorted[|s| / 2])
    ensures |s| % 2 == 0 ==> MedianOf(s) == Ok((sorted[|s| / 2 - 1] + sorted[|s| / 2]) / 2.0)
  {
    MedianIsMiddle(s, sorted);
    if |s| % 2 == 1 {
      assert Middle(sorted) == sorted[|s| / 2] by { MiddleValue(sorted); }
    } else {
      assert Middle(sorted) == (sorted[|s| / 2 - 1] + sorted[|s| / 2]) / 2.0 by { MiddleValue(sorted); }
    }
  }

  /** Any ascending arrangement of the values is the one `Sort` produces. */
  lemma MedianIsMiddle(s: seq<real>, sorted: seq<real>)
    requires Sorted(sorted) && multiset(sorted) == multiset(s) && |s| > 0
    ensures |sorted| == |s|
    ensures MedianOf(s) == Ok(Middle(sorted))
  {
    SortedUnique(Sort(s), sorted);
  }

  /** The middle of a sequence by the parity of its length. */
  lemma MiddleValue(t: seq<real>)
    requires |t| > 0
    ensures |t| % 2 == 1 ==> Middle(t) == t[|t| / 2]
    ensures |t| % 2 == 0 ==> Middle(t) == (t[|t| / 2 - 1] + t[|t| / 2]) / 2.0
  {
  }

  /** The aggregate of one column by the given method. */
  function Aggregate(m: Method, column: seq<real>): (r: Result<real>)
    ensures r.Err? <==> |column| == 0 && m != Sum
  {
    match m
    case Median => MedianOf(column)
    case Sum => Ok(Seqs.Sum(column))
    case Mean => if |column| == 0 then Err(EmptyColumn) else Ok(Seqs.Sum(column) / |column| as real)
  }

  /** A uniform column of value `c` aggregates to `c` by mean and by median, and to
      `height * c` by sum. */
  lemma UniformColumn(column: seq<real>, c: real)
    requires |column| > 0
    requires forall i :: 0 <= i < |column| ==> column[i] == c
    ensures Aggregate(Mean, column) == Ok(c)
    ensures Aggregate(Median, column) == Ok(c)
    ensures Aggregate(Sum, column) == Ok(|column| as real * c)
  {
    UniformMean(column, c);
    UniformMedian(column, c);
  }

  lemma UniformMean(column: seq<real>, c: real)
    requires |column| > 0
    requires forall i :: 0 <= i < |column| ==> column[i] == c
    ensures Seqs.Sum(column) == |column| as real * c
    ensures Seqs.Sum(column) / |column| as real == c
  {
    var n := |column| as real;
    SumConstant(column, c);
    assert (n * c) / n == c;
  }

  lemma UniformMedian(column: seq<real>, c: real)
    requires |column| > 0
    requires forall i :: 0 <= i < |column| ==> column[i] == c
    ensures MedianOf(column) == Ok(c)
  {
    assert Sorted(column);
    MedianOfSorted(column, column);
    assert column[|column| / 2] == c;
  }

  /** Applies `Aggregate` to the columns from `col` on, stopping at the first failure. */
  function AggregateFrom(strip: Strip, m: Method, col: nat): (r: Result<seq<real>>)
    requires strip.Valid() && col <= strip.width
    ensures r.Err? <==> col < strip.width && strip.height == 0 && m != Sum
    ensures r.Ok? ==> |r.value| == strip.width - col
    ensures r.Ok? ==> forall k :: 0 <= k < |r.value| ==> Aggregate(m, Column(strip, col + k)) == Ok(r.value[k])
    decreases strip.width - col
  {
    if col == strip.width then Ok([])
    else
      var head := Aggregate(m, Column(strip, col));
      var tail := AggregateFrom(strip, m, col + 1);
      if head.Ok? && tail.Ok? then Ok([head.value] + tail.value) else Err(EmptyColumn)
  }

  /** `cross_section_intensity(imp, method)`: one value per column, the aggregate of that
      column by the method the name selects. A strip of height 0 has nothing to average
      or take the median of, so those methods fail as soon as there is a column. */
  function CrossSectionIntensity(strip: Strip, methodName: string): (r: Result<seq<real>>)
    requires strip.Valid()
    ensures r.Err? <==> strip.width > 0 && strip.height == 0 && ParseMethod(methodName) != Sum
    ensures r.Ok? ==> |r.value| == strip.width
    ensures r.Ok? ==> forall col :: 0 <= col < strip.width ==>
              Aggregate(ParseMethod(methodName), Column(strip, col)) == Ok(r.value[col])
  {
    AggregateFrom(strip, ParseMethod(methodName), 0)
  }

  /** Per column, by sum and mean: the column sum, or the column sum over the height. */
  lemma CrossSectionSumMean(strip: Strip, methodName: string, col: nat)
    requires strip.Valid() && col < strip.width
    requires CrossSectionIntensity(strip, methodName).Ok?
    ensures var v := CrossSectionIntensity(strip, methodName).value[col];
            && (ParseMethod(methodName) == Sum ==> v == Seqs.Sum(Column(strip, col)))
            && (ParseMethod(methodName) == Mean ==> v == Seqs.Sum(Column(strip, col)) / strip.height as real)
  {
    assert Aggregate(ParseMethod(methodName), Column(strip, col))
        == Ok(CrossSectionIntensity(strip, methodName).value[col]);
  }

  /** Per column, by median: the middle of the column's values in ascending order, or the
      mean of the two middle ones for an even height. */
  lemma CrossSectionMedian(strip: Strip, methodName: string, col: nat, sorted: seq<real>)
    requires strip.Valid() && col < strip.width && strip.height > 0
    requires ParseMethod(methodName) == Median
    requires Sorted(sorted) && multiset(sorted) == multiset(Column(strip, col))
    ensures CrossSectionIntensity(strip, methodName).Ok?
    ensures |sorted| == strip.height
    ensures var v := CrossSectionIntensity(strip, methodName).value[col];
            && (strip.height % 2 == 1 ==> v == sorted[strip.height / 2])
            && (strip.height % 2 == 0 ==> v == (sorted[strip.height / 2 - 1] + sorted[strip.height / 2]) / 2.0)
  {
    var r := CrossSectionIntensity(strip, methodName);
    assert r.Ok?;
    var column := Column(strip, col);
    assert MedianOf(column) == Ok(r.value[col]) by {
      assert Aggregate(Median, column) == Ok(r.value[col]);
    }
    MedianOfSorted(column, sorted);
  }
}
