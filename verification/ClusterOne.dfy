/** With a match threshold that every overlap reaches, all boxes make one cluster, in any order. */
module ClusterOne {
  import opened Boxes
  import opened Sets
  import opened Sorting
  import opened Clusters
  import opened ClusterProofs
  import opened ClusterOrder

  // ---------- Sums over permuted sequences ----------

  function SumOf<T>(s: seq<T>, f: T -> real): real {
    if s == [] then 0.0 else SumOf(s[..|s| - 1], f) + f(s[|s| - 1])
  }

  function WithoutAt<T>(s: seq<T>, k: nat): seq<T>
    requires k < |s|
  {
    s[..k] + s[k + 1..]
  }

  lemma {:induction false} SumWithoutAt<T>(s: seq<T>, k: nat, f: T -> real)
    requires k < |s|
    ensures SumOf(s, f) == SumOf(WithoutAt(s, k), f) + f(s[k])
  {
    var n := |s| - 1;
    if k == n {
      assert WithoutAt(s, k) == s[..n];
    } else {
      SumWithoutAt(s[..n], k, f);
      var w := WithoutAt(s, k);
      assert w[..|w| - 1] == WithoutAt(s[..n], k) && w[|w| - 1] == s[n];
    }
  }

  lemma WithoutAtElements<T>(s: seq<T>, k: nat)
    requires k < |s|
    ensures multiset(s) == multiset(WithoutAt(s, k)) + multiset{s[k]}
  {
    assert s == s[..k] + [s[k]] + s[k + 1..];
  }

  lemma LastElsewhere<T>(a: seq<T>, b: seq<T>) returns (k: nat)
    requires a != [] && multiset(a) == multiset(b)
    ensures k < |b| && b[k] == a[|a| - 1] && multiset(a[..|a| - 1]) == multiset(WithoutAt(b, k))
  {
    var n := |a| - 1;
    assert a[n] in multiset(a) && a[n] in multiset(b);
    k :| 0 <= k < |b| && b[k] == a[n];
    WithoutAtElements(a, n);
    WithoutAtElements(b, k);
    assert WithoutAt(a, n) == a[..n];
    assert multiset(a[..n]) == multiset(a) - multiset{a[n]};
    assert multiset(WithoutAt(b, k)) == multiset(b) - multiset{b[k]};
  }

  lemma {:induction false} SumPermuted<T>(a: seq<T>, b: seq<T>, f: T -> real)
    requires multiset(a) == multiset(b)
    ensures SumOf(a, f) == SumOf(b, f)
  {
    if a == [] {
      assert |multiset(b)| == 0;
    } else {
      var k := LastElsewhere(a, b);
      SumWithoutAt(b, k, f);
      SumPermuted(a[..|a| - 1], WithoutAt(b, k), f);
    }
  }

  lemma {:induction false} ScoresPermuted(a: seq<Tagged>, b: seq<Tagged>)
    requires multiset(a) == multiset(b)
    ensures multiset(ScoresOf(a)) == multiset(ScoresOf(b))
  {
    if a == [] {
      assert |multiset(b)| == 0;
    } else {
      var n := |a| - 1;
      var k := LastElsewhere(a, b);
      ScoresPermuted(a[..n], WithoutAt(b, k));
      WithoutAtElements(ScoresOf(a), n);
      WithoutAtElements(ScoresOf(b), k);
      assert WithoutAt(ScoresOf(a), n) == ScoresOf(a[..n]);
      assert WithoutAt(ScoresOf(b), k) == ScoresOf(WithoutAt(b, k));
    }
  }

  function BoxWeight(): Tagged -> real {
    (t: Tagged) => Weight(t.box)
  }

  function SideWeight(side: Side): Tagged -> real {
    (t: Tagged) => Coord(t.box, side) * Weight(t.box)
  }

  function Itself(): real -> real {
    (x: real) => x
  }

  lemma {:induction false} WeightsAreSums(members: seq<Tagged>, side: Side)
    ensures TotalWeight(members) == SumOf(members, BoxWeight())
    ensures WeightedSum(members, side) == SumOf(members, SideWeight(side))
  {
    if members == [] {
    } else {
      WeightsAreSums(members[..|members| - 1], side);
    }
  }

  lemma {:induction false} SumIsSum(xs: seq<real>)
    ensures Sum(xs) == SumOf(xs, Itself())
  {
    if xs == [] {
    } else {
      SumIsSum(xs[..|xs| - 1]);
    }
  }

  lemma AveragePermuted(a: seq<Tagged>, b: seq<Tagged>, side: Side)
    requires a != [] && b != [] && multiset(a) == multiset(b)
    ensures Average(a, side) == Average(b, side)
  {
    WeightsAreSums(a, side);
    WeightsAreSums(b, side);
    SumPermuted(a, b, BoxWeight());
    SumPermuted(a, b, SideWeight(side));
  }

  lemma {:induction false} DescendingUnique(a: seq<real>, b: seq<real>)
    requires Descends(a, RealGeq()) && Descends(b, RealGeq()) && multiset(a) == multiset(b)
    ensures a == b
  {
    if a == [] {
      assert |multiset(b)| == 0;
    } else {
      assert |multiset(a)| == |a| && |multiset(b)| == |b|;
      FirstIsGreatest(a, b);
      FirstIsGreatest(b, a);
      DescendingTail(a);
      DescendingTail(b);
      DescendingUnique(a[1..], b[1..]);
    }
  }

  lemma DescendingTail(a: seq<real>)
    requires a != [] && Descends(a, RealGeq())
    ensures a == [a[0]] + a[1..]
    ensures Descends(a[1..], RealGeq()) && multiset(a[1..]) == multiset(a) - multiset{a[0]}
  {
    assert a == [a[0]] + a[1..];
  }

  lemma FirstIsGreatest(a: seq<real>, b: seq<real>)
    requires a != [] && b != [] && Descends(a, RealGeq()) && multiset(a) == multiset(b)
    ensures a[0] >= b[0]
  {
    assert b[0] in multiset(a);
    var k :| 0 <= k < |a| && a[k] == b[0];
    assert k > 0 ==> RealGeq()(a[0], a[k]);
  }

  lemma {:induction false} SortPermuted(a: seq<real>, b: seq<real>)
    requires multiset(a) == multiset(b)
    ensures SortDesc(a, RealGeq()) == SortDesc(b, RealGeq())
  {
    assert Total(RealGeq());
    SortFacts(a, RealGeq());
    SortFacts(b, RealGeq());
    DescendingUnique(SortDesc(a, RealGeq()), SortDesc(b, RealGeq()));
  }

  // ---------- The boxes of rearranged views ----------

  lemma {:induction false} TagCount(view: nat, boxes: seq<Box>, t: Tagged)
    ensures multiset(Tag(view, boxes))[t] == if t.view == view then multiset(boxes)[t.box] else 0
  {
    if boxes == [] {
    } else {
      var n := |boxes| - 1;
      TagCount(view, boxes[..n], t);
      assert Tag(view, boxes) == Tag(view, boxes[..n]) + [Tagged(view, boxes[n])];
      assert boxes == boxes[..n] + [boxes[n]];
    }
  }

  lemma CountInBoth(a: seq<Tagged>, b: seq<Tagged>, t: Tagged)
    ensures multiset(a + b)[t] == multiset(a)[t] + multiset(b)[t]
  {
  }

  lemma {:induction false} FlatCount(views: seq<seq<Box>>, n: nat, t: Tagged)
    requires n <= |views|
    ensures multiset(Flat(views, n))[t] == if t.view < n then multiset(views[t.view])[t.box] else 0
  {
    if n == 0 {
    } else {
      FlatCount(views, n - 1, t);
      TagCount(n - 1, views[n - 1], t);
      var early, late := Flat(views, n - 1), Tag(n - 1, views[n - 1]);
      assert Flat(views, n) == early + late;
      CountInBoth(early, late, t);
    }
  }

  lemma RenamedSnoc(init: seq<Tagged>, last: Tagged, p: seq<nat>)
    requires forall t :: t in init + [last] ==> t.view < |p|
    ensures forall t :: t in init ==> t.view < |p|
    ensures last.view < |p| && RenamedAll(init + [last], p) == RenamedAll(init, p) + [Renamed(last, p)]
  {
    assert forall t :: t in init ==> t in init + [last];
    assert last in init + [last];
  }

  lemma {:induction false} RenamedCount(s: seq<Tagged>, p: seq<nat>, i: nat, b: Box)
    requires (forall t :: t in s ==> t.view < |p|) && i < |p| && NoRepeats(p)
    ensures multiset(RenamedAll(s, p))[Tagged(p[i], b)] == multiset(s)[Tagged(i, b)]
  {
    if s == [] {
    } else {
      var init, last := s[..|s| - 1], s[|s| - 1];
      assert s == init + [last];
      RenamedSnoc(init, last, p);
      RenamedCount(init, p, i, b);
      CountInBoth(init, [last], Tagged(i, b));
      CountInBoth(RenamedAll(init, p), [Renamed(last, p)], Tagged(p[i], b));
      assert Renamed(last, p) == Tagged(p[i], b) <==> last == Tagged(i, b);
    }
  }

  lemma {:induction false} RenamedMembers(before: seq<seq<Box>>, after: seq<seq<Box>>, p: seq<nat>, s: seq<Tagged>,
                                          s': seq<Tagged>)
    requires Rearranged(before, after, p) && forall t :: t in s' ==> t.view < |p|
    requires multiset(s) == multiset(Flat(before, |before|)) && multiset(s') == multiset(Flat(after, |after|))
    ensures multiset(RenamedAll(s', p)) == multiset(s)
  {
    forall t: Tagged ensures multiset(RenamedAll(s', p))[t] == multiset(s)[t] {
      FlatCount(before, |before|, t);
      if t.view < |p| {
        Onto(p, t.view);
        var i :| 0 <= i < |p| && p[i] == t.view;
        RenamedCount(s', p, i, t.box);
        FlatCount(after, |after|, Tagged(i, t.box));
      } else {
        assert t !in RenamedAll(s', p);
      }
    }
  }

  // ---------- One cluster ----------

  lemma AtMostOne(views: seq<seq<Box>>, matchIou: real)
    requires matchIou <= 0.0
    ensures |Clustered(views, matchIou)| <= 1
  {
    var clusters := Clustered(views, matchIou);
    ClustersAreAGreedyPartition(views, matchIou);
    if |clusters| > 1 {
      IouIsAFraction(clusters[0].seed, clusters[1].seed);
    }
  }

  // What the one cluster holds.
  lemma {:induction false} OneCluster(views: seq<seq<Box>>, matchIou: real)
    requires matchIou <= 0.0
    ensures Clustered(views, matchIou) == [] <==> Flat(views, |views|) == []
    ensures Clustered(views, matchIou) != [] ==>
              |Clustered(views, matchIou)| == 1 &&
              var c := Clustered(views, matchIou)[0];
              && multiset(c.members) == multiset(Flat(views, |views|))
              && c.seen == ViewsOf(c.members) && c.scores == ScoresOf(c.members)
  {
    var clusters := Clustered(views, matchIou);
    ClustersAreAGreedyPartition(views, matchIou);
    AtMostOne(views, matchIou);
    assert |multiset(Flat(views, |views|))| == |Flat(views, |views|)|;
    if clusters != [] {
      assert GreedyCluster(clusters[0], clusters[..0], matchIou);
      assert AllMembers(clusters[..0]) == multiset{};
      assert clusters[0].members[0] in AllMembers(clusters);
    }
  }

  lemma SeenRenamed(s: seq<Tagged>, s': seq<Tagged>, p: seq<nat>)
    requires (forall t :: t in s' ==> t.view < |p|) && multiset(RenamedAll(s', p)) == multiset(s)
    requires NoRepeats(p)
    ensures |ViewsOf(s')| == |ViewsOf(s)|
  {
    ImageSize(ViewsOf(s'), p);
    var image := set v | v in ViewsOf(s') && v < |p| :: p[v];
    forall v ensures v in image <==> v in ViewsOf(s) {
      if v in image {
        var k :| 0 <= k < |s'| && p[s'[k].view] == v;
        assert RenamedAll(s', p)[k] in multiset(s);
      }
      if v in ViewsOf(s) {
        var k :| 0 <= k < |s| && s[k].view == v;
        assert s[k] in multiset(RenamedAll(s', p));
        var l :| 0 <= l < |s'| && RenamedAll(s', p)[l] == s[k];
        assert s'[l].view in ViewsOf(s');
      }
    }
    assert image == ViewsOf(s);
  }

  lemma MergedPermuted(c: Cluster, d: Cluster, p: seq<nat>)
    requires c.members != [] && d.members != [] && c.scores == ScoresOf(c.members) && d.scores == ScoresOf(d.members)
    requires c.seen == ViewsOf(c.members) && d.seen == ViewsOf(d.members)
    requires (forall t :: t in d.members ==> t.view < |p|) && NoRepeats(p)
    requires multiset(RenamedAll(d.members, p)) == multiset(c.members)
    ensures Merged(d) == Merged(c)
  {
    var e := RenamedAll(d.members, p);
    SeenRenamed(c.members, d.members, p);
    forall side ensures Average(d.members, side) == Average(c.members, side) {
      WeightsSame(d.members, e, side);
      AveragePermuted(e, c.members, side);
    }
    assert ScoresOf(e) == ScoresOf(d.members);
    ScoresPermuted(e, c.members);
    assert |multiset(c.scores)| == |c.scores| && |multiset(d.scores)| == |d.scores|;
    SumIsSum(c.scores);
    SumIsSum(d.scores);
    SumPermuted(d.scores, c.scores, Itself());
    SortPermuted(d.scores, c.scores);
  }

  lemma OneClusterInAnyOrder(before: seq<seq<Box>>, after: seq<seq<Box>>, p: seq<nat>, matchIou: real)
    requires matchIou <= 0.0 && Rearranged(before, after, p)
    ensures ClusterVotes(after, matchIou) == ClusterVotes(before, matchIou)
  {
    var cs, ds := Clustered(before, matchIou), Clustered(after, matchIou);
    var s, s' := Flat(before, |before|), Flat(after, |after|);
    OneCluster(before, matchIou);
    OneCluster(after, matchIou);
    forall t | t in s' ensures t.view < |p| {
      FlatMembers(after, |after|, t);
    }
    RenamedMembers(before, after, p, s, s');
    assert |multiset(s)| == |s| && |multiset(RenamedAll(s', p))| == |s'|;
    if cs != [] {
      assert forall t :: t in ds[0].members ==> t in multiset(s');
      RenamedMembers(before, after, p, cs[0].members, ds[0].members);
      MergedPermuted(cs[0], ds[0], p);
    }
  }
}
