/** What the clusters are: a greedy partition of the boxes, whatever the order of the views. */
module ClusterProofs {
  import opened Boxes
  import opened Sets
  import opened Sorting
  import opened Clusters

  // ---------- A greedy partition ----------

  function ViewsOf(members: seq<Tagged>): set<nat> {
    set i | 0 <= i < |members| :: members[i].view
  }

  function ScoresOf(members: seq<Tagged>): seq<real> {
    seq(|members|, i requires 0 <= i < |members| => members[i].box.score)
  }

  // One cluster after the clusters with these seeds: led by its seed, which has the top score; its
  // other members match the seed, and no member matches an earlier seed.
  predicate GreedyCluster(c: Cluster, earlier: seq<Cluster>, matchIou: real) {
    && c.members != [] && c.members[0].box == c.seed
    && c.seen == ViewsOf(c.members) && c.scores == ScoresOf(c.members)
    && (forall i :: 0 <= i < |c.members| ==> c.members[i].box.score <= c.seed.score)
    && (forall i :: 0 < i < |c.members| ==> Iou(c.seed, c.members[i].box) >= matchIou)
    && (forall i, j :: 0 <= i < |c.members| && 0 <= j < |earlier| ==> Iou(earlier[j].seed, c.members[i].box) < matchIou)
  }

  predicate Greedy(clusters: seq<Cluster>, matchIou: real) {
    forall i :: 0 <= i < |clusters| ==> GreedyCluster(clusters[i], clusters[..i], matchIou)
  }

  function AllMembers(clusters: seq<Cluster>): multiset<Tagged> {
    if clusters == [] then multiset{}
    else AllMembers(clusters[..|clusters| - 1]) + multiset(clusters[|clusters| - 1].members)
  }

  lemma {:induction false} MembersAfterJoin(clusters: seq<Cluster>, k: nat, t: Tagged)
    requires k < |clusters|
    ensures AllMembers(clusters[k := Joined(clusters[k], t)]) == AllMembers(clusters) + multiset{t}
  {
    var n := |clusters| - 1;
    var after := clusters[k := Joined(clusters[k], t)];
    if k == n {
      assert after[..n] == clusters[..n];
    } else {
      assert after[..n] == clusters[..n][k := Joined(clusters[k], t)];
      MembersAfterJoin(clusters[..n], k, t);
    }
  }

  lemma PlaceIndex(clusters: seq<Cluster>, t: Tagged, matchIou: real) returns (k: nat)
    ensures k <= |clusters| && forall j :: 0 <= j < k ==> Iou(clusters[j].seed, t.box) < matchIou
    ensures k < |clusters| ==> Iou(clusters[k].seed, t.box) >= matchIou &&
                               Place(clusters, t, matchIou) == clusters[k := Joined(clusters[k], t)]
    ensures k == |clusters| ==> Place(clusters, t, matchIou) == clusters + [Seeded(t)]
  {
    k := 0;
    while k < |clusters| && Iou(clusters[k].seed, t.box) < matchIou
      invariant k <= |clusters| && forall j :: 0 <= j < k ==> Iou(clusters[j].seed, t.box) < matchIou
    {
      k := k + 1;
    }
    PlaceAt(clusters, t, matchIou, k);
  }

  lemma JoinedGreedy(c: Cluster, earlier: seq<Cluster>, t: Tagged, matchIou: real)
    requires GreedyCluster(c, earlier, matchIou) && t.box.score <= c.seed.score && Iou(c.seed, t.box) >= matchIou
    requires forall j :: 0 <= j < |earlier| ==> Iou(earlier[j].seed, t.box) < matchIou
    ensures GreedyCluster(Joined(c, t), earlier, matchIou)
  {
    var c' := Joined(c, t);
    assert forall i :: 0 <= i < |c.members| ==> c'.members[i] == c.members[i];
    assert c'.members[|c.members|] == t;
    forall v ensures v in c'.seen <==> v in ViewsOf(c'.members) {
      if v in ViewsOf(c.members) {
        var i :| 0 <= i < |c.members| && c.members[i].view == v;
        assert c'.members[i].view == v;
      }
    }
  }

  lemma SeedsOnly(c: Cluster, a: seq<Cluster>, b: seq<Cluster>, matchIou: real)
    requires GreedyCluster(c, a, matchIou) && |a| == |b| && forall j :: 0 <= j < |a| ==> a[j].seed == b[j].seed
    ensures GreedyCluster(c, b, matchIou)
  {
  }

  lemma JoinKeepsGreedy(clusters: seq<Cluster>, k: nat, t: Tagged, matchIou: real)
    requires Greedy(clusters, matchIou) && k < |clusters|
    requires t.box.score <= clusters[k].seed.score && Iou(clusters[k].seed, t.box) >= matchIou
    requires forall j :: 0 <= j < k ==> Iou(clusters[j].seed, t.box) < matchIou
    ensures Greedy(clusters[k := Joined(clusters[k], t)], matchIou)
  {
    var after := clusters[k := Joined(clusters[k], t)];
    JoinedGreedy(clusters[k], clusters[..k], t, matchIou);
    forall i | 0 <= i < |after| ensures GreedyCluster(after[i], after[..i], matchIou) {
      SeedsOnly(after[i], clusters[..i], after[..i], matchIou);
    }
  }

  lemma {:induction false} SeedKeepsGreedy(clusters: seq<Cluster>, t: Tagged, matchIou: real)
    requires Greedy(clusters, matchIou) && forall j :: 0 <= j < |clusters| ==> Iou(clusters[j].seed, t.box) < matchIou
    ensures Greedy(clusters + [Seeded(t)], matchIou)
    ensures AllMembers(clusters + [Seeded(t)]) == AllMembers(clusters) + multiset{t}
  {
    var after := clusters + [Seeded(t)];
    assert after[..|clusters|] == clusters;
    forall i | 0 <= i < |after| ensures GreedyCluster(after[i], after[..i], matchIou) {
      assert i < |clusters| ==> after[..i] == clusters[..i];
    }
  }

  lemma {:induction false} PlaceGreedy(clusters: seq<Cluster>, t: Tagged, matchIou: real)
    requires Greedy(clusters, matchIou)
    requires forall i :: 0 <= i < |clusters| ==> t.box.score <= clusters[i].seed.score
    ensures Greedy(Place(clusters, t, matchIou), matchIou)
    ensures AllMembers(Place(clusters, t, matchIou)) == AllMembers(clusters) + multiset{t}
  {
    var k := PlaceIndex(clusters, t, matchIou);
    if k < |clusters| {
      MembersAfterJoin(clusters, k, t);
      JoinKeepsGreedy(clusters, k, t, matchIou);
    } else {
      SeedKeepsGreedy(clusters, t, matchIou);
    }
  }

  lemma DescendsTo(init: seq<Tagged>, t: Tagged)
    requires Descends(init + [t], ByScore())
    ensures Descends(init, ByScore())
    ensures forall i :: 0 <= i < |init| ==> t.box.score <= init[i].box.score
  {
    var flat := init + [t];
    assert forall i :: 0 <= i < |init| ==> flat[i] == init[i];
    assert forall i :: 0 <= i < |init| ==> ByScore()(flat[i], flat[|init|]);
  }

  lemma {:induction false} GrowGreedy(flat: seq<Tagged>, matchIou: real)
    requires Descends(flat, ByScore())
    ensures Greedy(Grow(flat, matchIou), matchIou) && AllMembers(Grow(flat, matchIou)) == multiset(flat)
  {
    if flat == [] {
    } else {
      var init, t := flat[..|flat| - 1], flat[|flat| - 1];
      assert flat == init + [t];
      DescendsTo(init, t);
      GrowGreedy(init, matchIou);
      SeedsAreHigher(Grow(init, matchIou), init, t, matchIou);
      PlaceGreedy(Grow(init, matchIou), t, matchIou);
    }
  }

  lemma {:induction false} SeedsAreHigher(clusters: seq<Cluster>, before: seq<Tagged>, t: Tagged, matchIou: real)
    requires Greedy(clusters, matchIou) && AllMembers(clusters) == multiset(before)
    requires forall i :: 0 <= i < |before| ==> t.box.score <= before[i].box.score
    ensures forall i :: 0 <= i < |clusters| ==> t.box.score <= clusters[i].seed.score
  {
    forall i | 0 <= i < |clusters| ensures t.box.score <= clusters[i].seed.score {
      assert GreedyCluster(clusters[i], clusters[..i], matchIou);
      MemberOf(clusters, i, clusters[i].members[0]);
      assert clusters[i].members[0] in before;
    }
  }

  lemma {:induction false} MemberOf(clusters: seq<Cluster>, i: nat, t: Tagged)
    requires i < |clusters| && t in clusters[i].members
    ensures t in AllMembers(clusters)
  {
    if i < |clusters| - 1 {
      MemberOf(clusters[..|clusters| - 1], i, t);
    }
  }

  lemma ByScoreTotal()
    ensures Total(ByScore())
  {
  }

  lemma {:induction false} FlatMembers(views: seq<seq<Box>>, n: nat, t: Tagged)
    requires n <= |views|
    ensures t in Flat(views, n) <==> t.view < n && t.box in views[t.view]
  {
    if n == 0 {
    } else {
      FlatMembers(views, n - 1, t);
      if t.view == n - 1 && t.box in views[n - 1] {
        var k :| 0 <= k < |views[n - 1]| && views[n - 1][k] == t.box;
        assert Tag(n - 1, views[n - 1])[k] == t;
      }
    }
  }

  // Every box is in exactly one cluster; each cluster's seed leads it with the top score; every
  // other member matches its own seed; no member, and so no later seed, matches an earlier seed.
  lemma {:induction false} ClustersAreAGreedyPartition(views: seq<seq<Box>>, matchIou: real)
    ensures Greedy(Clustered(views, matchIou), matchIou)
    ensures AllMembers(Clustered(views, matchIou)) == multiset(Flat(views, |views|))
    ensures forall i, j :: 0 <= j < i < |Clustered(views, matchIou)| ==>
              Iou(Clustered(views, matchIou)[j].seed, Clustered(views, matchIou)[i].seed) < matchIou
  {
    ByScoreTotal();
    SortFacts(Flat(views, |views|), ByScore());
    GrowGreedy(SortDesc(Flat(views, |views|), ByScore()), matchIou);
    var clusters := Clustered(views, matchIou);
    forall i, j | 0 <= j < i < |clusters| ensures Iou(clusters[j].seed, clusters[i].seed) < matchIou {
      assert GreedyCluster(clusters[i], clusters[..i], matchIou);
      assert clusters[..i][j] == clusters[j] && clusters[i].members[0].box == clusters[i].seed;
    }
  }

  // ---------- The merged box ----------

  lemma {:induction false} WeightedSumAtLeast(members: seq<Tagged>, side: Side, lo: real)
    requires forall i :: 0 <= i < |members| ==> lo <= Coord(members[i].box, side)
    ensures lo * TotalWeight(members) <= WeightedSum(members, side)
  {
    if members == [] {
    } else {
      var init, m := members[..|members| - 1], members[|members| - 1].box;
      WeightedSumAtLeast(init, side, lo);
      OneMoreAtLeast(lo, TotalWeight(init), WeightedSum(init, side), Weight(m), Coord(m, side),
                     TotalWeight(members), WeightedSum(members, side));
    }
  }

  lemma {:induction false} WeightedSumAtMost(members: seq<Tagged>, side: Side, hi: real)
    requires forall i :: 0 <= i < |members| ==> Coord(members[i].box, side) <= hi
    ensures WeightedSum(members, side) <= hi * TotalWeight(members)
  {
    if members == [] {
    } else {
      var init, m := members[..|members| - 1], members[|members| - 1].box;
      WeightedSumAtMost(init, side, hi);
      OneMoreAtMost(hi, TotalWeight(init), WeightedSum(init, side), Weight(m), Coord(m, side),
                    TotalWeight(members), WeightedSum(members, side));
    }
  }

  lemma OneMoreAtLeast(lo: real, total: real, sum: real, w: real, x: real, total': real, sum': real)
    requires lo * total <= sum && lo <= x && w > 0.0 && total' == total + w && sum' == sum + x * w
    ensures lo * total' <= sum'
  {
    Distributes(lo, total, w);
    ScaledOrder(lo, x, w);
  }

  lemma OneMoreAtMost(hi: real, total: real, sum: real, w: real, x: real, total': real, sum': real)
    requires sum <= hi * total && x <= hi && w > 0.0 && total' == total + w && sum' == sum + x * w
    ensures sum' <= hi * total'
  {
    Distributes(hi, total, w);
    ScaledOrder(x, hi, w);
  }

  lemma Distributes(x: real, a: real, b: real)
    ensures x * (a + b) == x * a + x * b
  {
  }

  lemma ScaledStrictly(a: real, b: real, d: real)
    requires a < b && d > 0.0
    ensures a * d < b * d
  {
  }

  lemma QuotientBetween(n: real, d: real, lo: real, hi: real)
    requires d > 0.0 && lo * d <= n <= hi * d
    ensures lo <= n / d <= hi
  {
    var q := n / d;
    assert q * d == n;
    if q < lo {
      ScaledStrictly(q, lo, d);
    }
    if q > hi {
      ScaledStrictly(hi, q, d);
    }
  }

  lemma {:induction false} SumBetween(xs: seq<real>, lo: real, hi: real)
    requires forall i :: 0 <= i < |xs| ==> lo <= xs[i] <= hi
    ensures lo * |xs| as real <= Sum(xs) <= hi * |xs| as real
  {
    if xs == [] {
    } else {
      SumBetween(xs[..|xs| - 1], lo, hi);
      Distributes(lo, (|xs| - 1) as real, 1.0);
      Distributes(hi, (|xs| - 1) as real, 1.0);
    }
  }

  // Each coordinate, and the score, lies within any bounds its members respect.
  lemma MergedWithinMembers(c: Cluster, side: Side, lo: real, hi: real)
    requires c.members != [] && c.scores != []
    requires forall i :: 0 <= i < |c.members| ==> lo <= Coord(c.members[i].box, side) <= hi
    ensures lo <= Coord(Merged(c), side) <= hi
  {
    TotalWeightPositive(c.members);
    WeightedSumAtLeast(c.members, side, lo);
    WeightedSumAtMost(c.members, side, hi);
    QuotientBetween(WeightedSum(c.members, side), TotalWeight(c.members), lo, hi);
  }

  lemma MergedScoreWithinMembers(c: Cluster, lo: real, hi: real)
    requires c.members != [] && c.scores == ScoresOf(c.members)
    requires forall i :: 0 <= i < |c.members| ==> lo <= c.members[i].box.score <= hi
    ensures lo <= Merged(c).score <= hi
  {
    SumBetween(c.scores, lo, hi);
    QuotientBetween(Sum(c.scores), |c.scores| as real, lo, hi);
  }

  // A cluster's votes are the distinct views among its members: at least one, at most all.
  lemma VotesCountViews(views: seq<seq<Box>>, matchIou: real, i: nat)
    requires i < |Clustered(views, matchIou)|
    ensures var c := Clustered(views, matchIou)[i];
            Merged(c).votes == |ViewsOf(c.members)| && 1 <= Merged(c).votes <= |views|
  {
    ClustersAreAGreedyPartition(views, matchIou);
    var clusters := Clustered(views, matchIou);
    var c := clusters[i];
    assert GreedyCluster(c, clusters[..i], matchIou);
    assert c.members[0].view in c.seen;
    forall v | v in c.seen ensures v < |views| {
      var k :| 0 <= k < |c.members| && c.members[k].view == v;
      MemberOf(clusters, i, c.members[k]);
      assert c.members[k] in Flat(views, |views|);
      FlatMembers(views, |views|, c.members[k]);
    }
    SmallSet(c.seen, |views|);
    assert c.seen != {};
  }
}
