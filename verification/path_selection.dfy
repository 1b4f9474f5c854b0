/** Path selection and orientation (`create_skeleton`, after the pruning loop): the
    longest of the skeletonizer's shortest paths becomes the centerline, and it is turned
    round when its last point lies strictly nearer to a different nucleus than its first. */
module PathSelection {
  import opened Wrappers
  import opened Geometry
  import opened Seqs
  import opened Landmarks

  /** The oriented centerline and the index of the nucleus associated with it. */
  datatype Selection = Selection(points: seq<Point>, nucleus: nat)

  /** `b_length.index(max(b_length))`: the first path of maximal point count. */
  function LongestIndex(paths: seq<seq<Point>>): (k: nat)
    requires |paths| > 0
    ensures k < |paths|
    ensures forall j :: 0 <= j < |paths| ==> |paths[j]| <= |paths[k]|
    ensures forall j :: 0 <= j < k ==> |paths[j]| < |paths[k]|
  {
    if |paths| == 1 then 0
    else
      var k := LongestIndex(paths[..|paths| - 1]);
      assert forall j :: 0 <= j < |paths| - 1 ==> paths[..|paths| - 1][j] == paths[j];
      if |paths[|paths| - 1]| > |paths[k]| then |paths| - 1 else k
  }

  /** The nearest nucleus to a centerline point, by its x and y coordinates. */
  function ClosestTo(p: Point, ls: seq<Landmark>): Option<Match>
  {
    FindClosest(p.x as real, p.y as real, ls)
  }

  /** Selects and orients the centerline. No shortest path gives `NoShortestPath` (the
      script returns early); an empty longest path or an empty nucleus list make the script
      raise, given here as `EmptyCenterline` and `NoLandmarks`. */
  function SelectPath(paths: seq<seq<Point>>, ls: seq<Landmark>): (r: Result<Selection>)
    ensures r == Err(NoShortestPath) <==> |paths| == 0
    ensures r == Err(EmptyCenterline) <==> |paths| > 0 && forall j :: 0 <= j < |paths| ==> |paths[j]| == 0
    ensures r == Err(NoLandmarks) <==> (exists j :: 0 <= j < |paths| && |paths[j]| > 0) && |ls| == 0
    ensures r.Ok? ==>
              && |r.value.points| == |paths[LongestIndex(paths)]|
              && multiset(r.value.points) == multiset(paths[LongestIndex(paths)])
              && r.value.nucleus < |ls|
  {
    if |paths| == 0 then Err(NoShortestPath)
    else
      var points := paths[LongestIndex(paths)];
      if |points| == 0 then Err(EmptyCenterline)
      else if |ls| == 0 then Err(NoLandmarks)
      else
        var c1 := ClosestTo(points[0], ls).value;
        var c2 := ClosestTo(points[|points| - 1], ls).value;
        ReversePermutes(points);
        if c1.index != c2.index && c2.sqDist < c1.sqDist then Ok(Selection(Reverse(points), c2.index))
        else Ok(Selection(points, c1.index))
  }

  /** The orientation rule: the path is reversed, and takes the nucleus of its last point,
      exactly when the two end-points have different nearest nuclei and the last one is
      strictly closer to its nucleus; otherwise it keeps its direction and the nucleus of its
      first point. */
  lemma SelectPathOrientation(paths: seq<seq<Point>>, ls: seq<Landmark>)
    requires |paths| > 0 && |paths[LongestIndex(paths)]| > 0 && |ls| > 0
    ensures var path := paths[LongestIndex(paths)];
            var c1 := ClosestTo(path[0], ls).value;
            var c2 := ClosestTo(path[|path| - 1], ls).value;
            var r := SelectPath(paths, ls);
            && r.Ok?
            && (c1.index != c2.index && c2.sqDist < c1.sqDist ==> r.value == Selection(Reverse(path), c2.index))
            && (!(c1.index != c2.index && c2.sqDist < c1.sqDist) ==> r.value == Selection(path, c1.index))
  {
  }

  /** In both branches the associated nucleus is the nearest one to the first point of the
      oriented centerline. */
  lemma {:induction false} NucleusNearestToStart(paths: seq<seq<Point>>, ls: seq<Landmark>)
    requires |paths| > 0 && |paths[LongestIndex(paths)]| > 0 && |ls| > 0
    ensures SelectPath(paths, ls).Ok?
    ensures var s := SelectPath(paths, ls).value;
            |s.points| > 0 && s.nucleus == ClosestTo(s.points[0], ls).value.index
  {
    var path := paths[LongestIndex(paths)];
    var s := SelectPath(paths, ls).value;
    if s.points != path {
      assert s.points == Reverse(path);
      assert s.points[0] == path[|path| - 1];
    }
  }
}
