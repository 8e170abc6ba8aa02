/**
  Clustering the boxes several views of one frame agree on: greedy, seeded by the highest score,
  then a score-weighted average per cluster.
 */
module Clusters {
  import opened Boxes
  import opened Sorting

  // A box and the view it came from.
  datatype Tagged = Tagged(view: nat, box: Box)

  datatype Cluster = Cluster(seed: Box, seen: set<nat>, scores: seq<real>, members: seq<Tagged>)

  // ---------- The steps ----------

  function Tag(view: nat, boxes: seq<Box>): (r: seq<Tagged>)
    ensures |r| == |boxes| && forall k :: 0 <= k < |r| ==> r[k] == Tagged(view, boxes[k])
  {
    seq(|boxes|, k requires 0 <= k < |boxes| => Tagged(view, boxes[k]))
  }

  // The boxes of the first `n` views, view by view.
  function Flat(views: seq<seq<Box>>, n: nat): seq<Tagged>
    requires n <= |views|
  {
    if n == 0 then [] else Flat(views, n - 1) + Tag(n - 1, views[n - 1])
  }

  function ByScore(): (Tagged, Tagged) -> bool {
    (a: Tagged, b: Tagged) => a.box.score >= b.box.score
  }

  function Joined(c: Cluster, t: Tagged): Cluster {
    c.(seen := c.seen + {t.view}, scores := c.scores + [t.box.score], members := c.members + [t])
  }

  function Seeded(t: Tagged): Cluster {
    Cluster(t.box, {t.view}, [t.box.score], [t])
  }

  // Into the first cluster whose seed it matches, else a cluster of its own.
  function Place(clusters: seq<Cluster>, t: Tagged, matchIou: real): seq<Cluster> {
    if clusters == [] then [Seeded(t)]
    else if Iou(clusters[0].seed, t.box) >= matchIou then [Joined(clusters[0], t)] + clusters[1..]
    else [clusters[0]] + Place(clusters[1..], t, matchIou)
  }

  function Grow(flat: seq<Tagged>, matchIou: real): seq<Cluster> {
    if flat == [] then [] else Place(Grow(flat[..|flat| - 1], matchIou), flat[|flat| - 1], matchIou)
  }

  function Weight(b: Box): (w: real)
    ensures w > 0.0 && w >= b.score
  {
    Max(b.score, 0.000001)
  }

  datatype Side = Left | Top | Right | Bottom

  function Coord(b: Box, side: Side): real {
    match side
    case Left => b.x1
    case Top => b.y1
    case Right => b.x2
    case Bottom => b.y2
  }

  function TotalWeight(members: seq<Tagged>): real {
    if members == [] then 0.0
    else TotalWeight(members[..|members| - 1]) + Weight(members[|members| - 1].box)
  }

  function WeightedSum(members: seq<Tagged>, side: Side): real {
    if members == [] then 0.0
    else WeightedSum(members[..|members| - 1], side)
         + Coord(members[|members| - 1].box, side) * Weight(members[|members| - 1].box)
  }

  function Sum(xs: seq<real>): real {
    if xs == [] then 0.0 else Sum(xs[..|xs| - 1]) + xs[|xs| - 1]
  }

  lemma {:induction false} TotalWeightPositive(members: seq<Tagged>)
    ensures members != [] ==> TotalWeight(members) > 0.0
    ensures TotalWeight(members) >= 0.0
  {
    if members == [] {
    } else {
      TotalWeightPositive(members[..|members| - 1]);
    }
  }

  function Average(members: seq<Tagged>, side: Side): real
    requires members != []
  {
    TotalWeightPositive(members);
    WeightedSum(members, side) / TotalWeight(members)
  }

  function RealGeq(): (real, real) -> bool {
    (a: real, b: real) => a >= b
  }

  function Merged(c: Cluster): Box
    requires c.members != [] && c.scores != []
  {
    Box(Average(c.members, Left), Average(c.members, Top), Average(c.members, Right), Average(c.members, Bottom),
        Sum(c.scores) / |c.scores| as real, |c.seen|, SortDesc(c.scores, RealGeq()))
  }

  function ByVotes(): (Box, Box) -> bool {
    (a: Box, b: Box) => a.votes > b.votes || (a.votes == b.votes && a.score >= b.score)
  }

  predicate NonEmpty(clusters: seq<Cluster>) {
    forall i :: 0 <= i < |clusters| ==> clusters[i].members != [] && clusters[i].scores != []
  }

  function MergedAll(clusters: seq<Cluster>): seq<Box>
    requires NonEmpty(clusters)
  {
    seq(|clusters|, i requires 0 <= i < |clusters| => Merged(clusters[i]))
  }

  lemma {:induction false} PlaceNonEmpty(clusters: seq<Cluster>, t: Tagged, matchIou: real)
    requires NonEmpty(clusters)
    ensures NonEmpty(Place(clusters, t, matchIou))
  {
    if clusters == [] {
    } else {
      PlaceNonEmpty(clusters[1..], t, matchIou);
    }
  }

  lemma {:induction false} GrowNonEmpty(flat: seq<Tagged>, matchIou: real)
    ensures NonEmpty(Grow(flat, matchIou))
  {
    if flat == [] {
    } else {
      GrowNonEmpty(flat[..|flat| - 1], matchIou);
      PlaceNonEmpty(Grow(flat[..|flat| - 1], matchIou), flat[|flat| - 1], matchIou);
    }
  }

  function Clustered(views: seq<seq<Box>>, matchIou: real): (r: seq<Cluster>)
    ensures NonEmpty(r)
  {
    GrowNonEmpty(SortDesc(Flat(views, |views|), ByScore()), matchIou);
    Grow(SortDesc(Flat(views, |views|), ByScore()), matchIou)
  }

  function ClusterVotes(views: seq<seq<Box>>, matchIou: real): seq<Box> {
    SortDesc(MergedAll(Clustered(views, matchIou)), ByVotes())
  }

  // ---------- The loops ----------

  method ClusterViews(views: seq<seq<Box>>, matchIou: real) returns (merged: seq<Box>)
    ensures merged == ClusterVotes(views, matchIou)
  {
    var flat: seq<Tagged> := [];
    for i := 0 to |views|
      invariant flat == Flat(views, i)
    {
      flat := flat + Tag(i, views[i]);
    }
    flat := SortDesc(flat, ByScore());
    var clusters := GrowClusters(flat, matchIou);
    GrowNonEmpty(flat, matchIou);
    merged := MergeClusters(clusters);
    merged := SortDesc(merged, ByVotes());
  }

  method GrowClusters(flat: seq<Tagged>, matchIou: real) returns (clusters: seq<Cluster>)
    ensures clusters == Grow(flat, matchIou)
  {
    clusters := [];
    for n := 0 to |flat|
      invariant clusters == Grow(flat[..n], matchIou)
    {
      assert flat[..n + 1][..n] == flat[..n];
      clusters := PlaceInFirst(clusters, flat[n], matchIou);
    }
    assert flat[..|flat|] == flat;
  }

  method PlaceInFirst(clusters: seq<Cluster>, t: Tagged, matchIou: real) returns (placed: seq<Cluster>)
    ensures placed == Place(clusters, t, matchIou)
  {
    var k := 0;
    while k < |clusters|
      invariant k <= |clusters|
      invariant forall j :: 0 <= j < k ==> Iou(clusters[j].seed, t.box) < matchIou
    {
      if Iou(clusters[k].seed, t.box) >= matchIou {
        PlaceAt(clusters, t, matchIou, k);
        return clusters[k := Joined(clusters[k], t)];
      }
      k := k + 1;
    }
    PlaceAt(clusters, t, matchIou, k);
    placed := clusters + [Seeded(t)];
  }

  // Where a box goes: the first cluster whose seed it matches, or the end.
  lemma {:induction false} PlaceAt(clusters: seq<Cluster>, t: Tagged, matchIou: real, k: nat)
    requires k <= |clusters| && forall j :: 0 <= j < k ==> Iou(clusters[j].seed, t.box) < matchIou
    ensures k < |clusters| && Iou(clusters[k].seed, t.box) >= matchIou ==>
              Place(clusters, t, matchIou) == clusters[k := Joined(clusters[k], t)]
    ensures k == |clusters| ==> Place(clusters, t, matchIou) == clusters + [Seeded(t)]
  {
    if k == 0 {
    } else {
      assert forall j :: 0 <= j < k - 1 ==> clusters[1..][j] == clusters[j + 1];
      PlaceAt(clusters[1..], t, matchIou, k - 1);
    }
  }

  method MergeClusters(clusters: seq<Cluster>) returns (merged: seq<Box>)
    requires NonEmpty(clusters)
    ensures merged == MergedAll(clusters)
  {
    merged := [];
    for k := 0 to |clusters|
      invariant merged == MergedAll(clusters)[..k]
    {
      var average := MergeCluster(clusters[k]);
      merged := merged + [average];
    }
  }

  method MergeCluster(c: Cluster) returns (average: Box)
    requires c.members != [] && c.scores != []
    ensures average == Merged(c)
  {
    var total, x1, y1, x2, y2 := 0.0, 0.0, 0.0, 0.0, 0.0;
    for i := 0 to |c.members|
      invariant total == TotalWeight(c.members[..i])
      invariant x1 == WeightedSum(c.members[..i], Left) && y1 == WeightedSum(c.members[..i], Top)
      invariant x2 == WeightedSum(c.members[..i], Right) && y2 == WeightedSum(c.members[..i], Bottom)
    {
      assert c.members[..i + 1][..i] == c.members[..i];
      var m := c.members[i].box;
      total := total + Weight(m);
      x1, y1 := x1 + m.x1 * Weight(m), y1 + m.y1 * Weight(m);
      x2, y2 := x2 + m.x2 * Weight(m), y2 + m.y2 * Weight(m);
    }
    assert c.members[..|c.members|] == c.members;
    TotalWeightPositive(c.members);
    average := Box(x1 / total, y1 / total, x2 / total, y2 / total,
                   Sum(c.scores) / |c.scores| as real, |c.seen|, SortDesc(c.scores, RealGeq()));
  }
}
