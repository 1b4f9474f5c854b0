/** Branch pruning (`create_skeleton`, the loop over the skeleton graphs): every branch
    shorter than the minimum length that ends in a skeleton end-point is erased from a copy
    of the skeleton image, together with the end-point vertices it touches. */
module Pruning {
  import opened Geometry

  /** The voxel values of the skeleton image copy, keyed by coordinate. A coordinate that
      is not a key lies outside the image. */
  type Mask = map<Point, nat>

  /** One skeleton branch as the pruning loop reads it: the first point of each of its two
      vertices, its slab points and its length. */
  datatype Edge = Edge(v1: Point, v2: Point, slabs: seq<Point>, length: real)

  /** The edges of one connected skeleton; the skeletonizer yields one graph per skeleton. */
  type Graph = seq<Edge>

  /** The pruning condition: a vertex of `e` is an end-point and `e` is shorter than the minimum. */
  predicate ShortEndBranch(e: Edge, endPoints: set<Point>, minBranchLength: real)
  {
    (e.v1 in endPoints || e.v2 in endPoints) && e.length < minBranchLength
  }

  /** The voxels erasing `e` clears: its slab points, and each vertex that is an end-point. */
  predicate Covers(e: Edge, endPoints: set<Point>, p: Point)
  {
    p in e.slabs || (p == e.v1 && e.v1 in endPoints) || (p == e.v2 && e.v2 in endPoints)
  }

  predicate ErasedBy(e: Edge, endPoints: set<Point>, minBranchLength: real, p: Point)
  {
    ShortEndBranch(e, endPoints, minBranchLength) && Covers(e, endPoints, p)
  }

  predicate ErasedInGraph(g: Graph, endPoints: set<Point>, minBranchLength: real, p: Point)
  {
    exists e :: e in g && ErasedBy(e, endPoints, minBranchLength, p)
  }

  /** Reference definition of the pruned set: some short end branch of some graph covers `p`. */
  predicate Erased(graphs: seq<Graph>, endPoints: set<Point>, minBranchLength: real, p: Point)
  {
    exists g :: g in graphs && ErasedInGraph(g, endPoints, minBranchLength, p)
  }

  /** `ImageStack.setVoxel`: writes inside the image, ignores coordinates outside it. */
  function SetVoxel(m: Mask, p: Point, v: nat): Mask
  {
    if p in m then m[p := v] else m
  }

  /** Clears the slab points of a branch one after the other. */
  function ClearSlabs(m: Mask, slabs: seq<Point>): (r: Mask)
    ensures r.Keys == m.Keys
    ensures forall p :: p in m ==> r[p] == if p in slabs then 0 else m[p]
  {
    if |slabs| == 0 then m
    else
      assert slabs == [slabs[0]] + slabs[1..];
      ClearSlabs(SetVoxel(m, slabs[0], 0), slabs[1..])
  }

  /** The body of the loop over edges: tests one edge and erases it when it qualifies. */
  function PruneEdge(m: Mask, e: Edge, endPoints: set<Point>, minBranchLength: real): (r: Mask)
    ensures r.Keys == m.Keys
    ensures forall p :: p in m ==> r[p] == if ErasedBy(e, endPoints, minBranchLength, p) then 0 else m[p]
  {
    var v1End := e.v1 in endPoints;
    var v2End := e.v2 in endPoints;
    if (v1End || v2End) && e.length < minBranchLength then
      var m1 := if v1End then SetVoxel(m, e.v1, 0) else m;
      var m2 := if v2End then SetVoxel(m1, e.v2, 0) else m1;
      ClearSlabs(m2, e.slabs)
    else m
  }

  /** The loop over the edges of one graph, in order. */
  function PruneGraph(m: Mask, g: Graph, endPoints: set<Point>, minBranchLength: real): (r: Mask)
    ensures r.Keys == m.Keys
    ensures forall p :: p in m ==> r[p] == if ErasedInGraph(g, endPoints, minBranchLength, p) then 0 else m[p]
  {
    if |g| == 0 then m
    else
      assert g == [g[0]] + g[1..];
      PruneGraph(PruneEdge(m, g[0], endPoints, minBranchLength), g[1..], endPoints, minBranchLength)
  }

  /** The whole pruning loop over all graphs. The mask shrinks: a voxel becomes 0 exactly
      when a short end branch covers it, every other voxel keeps its value. */
  function Prune(m: Mask, graphs: seq<Graph>, endPoints: set<Point>, minBranchLength: real): (r: Mask)
    ensures r.Keys == m.Keys
    ensures forall p :: p in m ==> r[p] == if Erased(graphs, endPoints, minBranchLength, p) then 0 else m[p]
    ensures forall p :: p in m ==> r[p] <= m[p]
  {
    if |graphs| == 0 then m
    else
      assert graphs == [graphs[0]] + graphs[1..];
      Prune(PruneGraph(m, graphs[0], endPoints, minBranchLength), graphs[1..], endPoints, minBranchLength)
  }

  /** Pruning the pruned mask again with the same graphs removes nothing more. */
  lemma PruneIdempotent(m: Mask, graphs: seq<Graph>, endPoints: set<Point>, minBranchLength: real)
    ensures Prune(Prune(m, graphs, endPoints, minBranchLength), graphs, endPoints, minBranchLength)
         == Prune(m, graphs, endPoints, minBranchLength)
  {
    var once := Prune(m, graphs, endPoints, minBranchLength);
    var twice := Prune(once, graphs, endPoints, minBranchLength);
    assert twice.Keys == once.Keys;
    forall p | p in once
      ensures twice[p] == once[p]
    {
    }
  }

  /** Branches that touch no end-point, or are long enough, are never pruned: with no short
      end branch anywhere, the mask comes back unchanged. */
  lemma PruneKeepsWithoutShortEndBranches(m: Mask, graphs: seq<Graph>, endPoints: set<Point>, minBranchLength: real)
    requires forall g, e :: g in graphs && e in g ==> !ShortEndBranch(e, endPoints, minBranchLength)
    ensures Prune(m, graphs, endPoints, minBranchLength) == m
  {
    var r := Prune(m, graphs, endPoints, minBranchLength);
    forall p | p in m
      ensures r[p] == m[p]
    {
      assert !Erased(graphs, endPoints, minBranchLength, p);
    }
  }

  /** Erasing a qualifying branch clears all its slab points and exactly those of its
      vertices that are end-points. */
  lemma PruneClearsShortEndBranch(m: Mask, graphs: seq<Graph>, endPoints: set<Point>, minBranchLength: real,
                                  g: Graph, e: Edge)
    requires g in graphs && e in g
    requires ShortEndBranch(e, endPoints, minBranchLength)
    ensures forall p :: p in m && p in e.slabs ==> Prune(m, graphs, endPoints, minBranchLength)[p] == 0
    ensures e.v1 in m && e.v1 in endPoints ==> Prune(m, graphs, endPoints, minBranchLength)[e.v1] == 0
    ensures e.v2 in m && e.v2 in endPoints ==> Prune(m, graphs, endPoints, minBranchLength)[e.v2] == 0
  {
    var r := Prune(m, graphs, endPoints, minBranchLength);
    forall p | p in m && Covers(e, endPoints, p)
      ensures r[p] == 0
    {
      assert ErasedInGraph(g, endPoints, minBranchLength, p);
      assert Erased(graphs, endPoints, minBranchLength, p);
    }
  }
}
