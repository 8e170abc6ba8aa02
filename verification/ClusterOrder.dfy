/** The order of the views, and of the boxes in a view, does not change the clusters. */
module ClusterOrder {
  import opened Boxes
  import opened Sets
  import opened Sorting
  import opened Clusters
  import opened ClusterProofs

  // No two boxes, of one view or of two, have the same key.
  predicate DistinctBy(views: seq<seq<Box>>, key: Box -> real) {
    forall i, k, j, l ::
      0 <= i < |views| && 0 <= k < |views[i]| && 0 <= j < |views| && 0 <= l < |views[j]| && (i != j || k != l) ==>
        key(views[i][k]) != key(views[j][l])
  }

  function BoxScore(): Box -> real {
    (b: Box) => b.score
  }

  predicate DistinctScores(views: seq<seq<Box>>) {
    DistinctBy(views, BoxScore())
  }

  // View i of `after` is view p[i] of `before` with its boxes in some order.
  ghost predicate Rearranged(before: seq<seq<Box>>, after: seq<seq<Box>>, p: seq<nat>) {
    && |before| == |after| == |p|
    && (forall i :: 0 <= i < |p| ==> p[i] < |before| && multiset(after[i]) == multiset(before[p[i]]))
    && NoRepeats(p)
  }

  // Positions a permutation of views never leaves out.
  lemma Onto(p: seq<nat>, v: nat)
    requires v < |p| && (forall i :: 0 <= i < |p| ==> p[i] < |p|) && NoRepeats(p)
    ensures exists i :: 0 <= i < |p| && p[i] == v
  {
    var all := UpTo(|p|);
    ImageSize(all, p);
    var image := set i | i in all && i < |p| :: p[i];
    if v !in image {
      assert image <= all - {v};
      SubsetSize(image, all - {v});
    }
  }

  // ---------- No two elements with one score ----------

  ghost predicate NoTwins<T>(s: seq<T>, score: T -> real) {
    forall i, j :: 0 <= i < j < |s| ==> score(s[i]) != score(s[j])
  }

  lemma TwiceIn<T>(s: seq<T>, i: nat, j: nat)
    requires i < j < |s| && s[i] == s[j]
    ensures multiset(s)[s[i]] >= 2
  {
    assert s == s[..i] + [s[i]] + s[i + 1..j] + [s[j]] + s[j + 1..];
  }

  lemma {:induction false} OnceIn<T>(s: seq<T>, score: T -> real, x: T)
    requires NoTwins(s, score)
    ensures multiset(s)[x] <= 1
  {
    if s == [] {
    } else {
      OnceIn(s[1..], score, x);
      assert s == [s[0]] + s[1..];
      forall k | 0 <= k < |s[1..]| ensures s[1..][k] != s[0] {
        assert score(s[0]) != score(s[k + 1]);
      }
    }
  }

  lemma NoTwinsPermuted<T>(a: seq<T>, b: seq<T>, score: T -> real)
    requires NoTwins(a, score) && multiset(a) == multiset(b)
    ensures NoTwins(b, score)
  {
    forall i, j | 0 <= i < j < |b| ensures score(b[i]) != score(b[j]) {
      assert b[i] in multiset(a) && b[j] in multiset(a);
      var k :| 0 <= k < |a| && a[k] == b[i];
      var l :| 0 <= l < |a| && a[l] == b[j];
      if b[i] == b[j] {
        TwiceIn(b, i, j);
        OnceIn(a, score, b[i]);
      }
    }
  }

  function OfTagged(key: Box -> real): Tagged -> real {
    (t: Tagged) => key(t.box)
  }

  lemma ViewNoTwins(views: seq<seq<Box>>, i: nat, key: Box -> real)
    requires DistinctBy(views, key) && i < |views|
    ensures NoTwins(views[i], key)
  {
  }

  lemma RearrangedDistinct(before: seq<seq<Box>>, after: seq<seq<Box>>, p: seq<nat>, key: Box -> real)
    requires DistinctBy(before, key) && Rearranged(before, after, p)
    ensures DistinctBy(after, key)
  {
    forall i, k, j, l | 0 <= i < |after| && 0 <= k < |after[i]| && 0 <= j < |after| && 0 <= l < |after[j]| &&
        (i != j || k != l)
      ensures key(after[i][k]) != key(after[j][l])
    {
      if i == j {
        ViewNoTwins(before, p[i], key);
        NoTwinsPermuted(before[p[i]], after[i], key);
      } else {
        assert after[i][k] in multiset(before[p[i]]) && after[j][l] in multiset(before[p[j]]);
        var k' :| 0 <= k' < |before[p[i]]| && before[p[i]][k'] == after[i][k];
        var l' :| 0 <= l' < |before[p[j]]| && before[p[j]][l'] == after[j][l];
        assert p[i] != p[j];
      }
    }
  }

  lemma {:induction false} FlatNoTwins(views: seq<seq<Box>>, n: nat, key: Box -> real)
    requires DistinctBy(views, key) && n <= |views|
    ensures NoTwins(Flat(views, n), OfTagged(key))
  {
    if n == 0 {
    } else {
      FlatNoTwins(views, n - 1, key);
      var early, late := Flat(views, n - 1), Tag(n - 1, views[n - 1]);
      forall i, j | 0 <= i < |early| && 0 <= j < |late| ensures key(early[i].box) != key(late[j].box) {
        FlatMembers(views, n - 1, early[i]);
        var k :| 0 <= k < |views[early[i].view]| && views[early[i].view][k] == early[i].box;
      }
    }
  }

  // Sorting keeps the keys apart.
  lemma {:induction false} SortedNoTwins(views: seq<seq<Box>>, key: Box -> real)
    requires DistinctBy(views, key)
    ensures NoTwins(SortDesc(Flat(views, |views|), ByScore()), OfTagged(key))
  {
    ByScoreTotal();
    SortFacts(Flat(views, |views|), ByScore());
    FlatNoTwins(views, |views|, key);
    NoTwinsPermuted(Flat(views, |views|), SortDesc(Flat(views, |views|), ByScore()), OfTagged(key));
  }

  predicate StrictlyDescends(s: seq<Tagged>) {
    forall i, j :: 0 <= i < j < |s| ==> s[i].box.score > s[j].box.score
  }

  lemma HasElements(s: seq<Tagged>)
    ensures s == [] <==> Elements(s) == {}
  {
    if s != [] {
      assert s[0] in Elements(s);
    }
  }

  // Two strictly descending lists with the same elements are the same list.
  lemma {:induction false} SortedUnique(a: seq<Tagged>, b: seq<Tagged>)
    requires StrictlyDescends(a) && StrictlyDescends(b) && Elements(a) == Elements(b)
    ensures a == b
  {
    HasElements(a);
    HasElements(b);
    if a == [] {
    } else {
      assert a[0] in Elements(a) && b[0] in Elements(b);
      assert a[0] == b[0];
      assert Elements(a[1..]) == Elements(a) - {a[0]} by {
        assert a == [a[0]] + a[1..];
      }
      assert Elements(b[1..]) == Elements(b) - {b[0]} by {
        assert b == [b[0]] + b[1..];
      }
      SortedUnique(a[1..], b[1..]);
    }
  }

  // ---------- Renaming the views ----------

  predicate Within(views: set<nat>, p: seq<nat>) {
    forall v :: v in views ==> v < |p|
  }

  function Renamed(t: Tagged, p: seq<nat>): Tagged
    requires t.view < |p|
  {
    t.(view := p[t.view])
  }

  function RenamedAll(s: seq<Tagged>, p: seq<nat>): (r: seq<Tagged>)
    requires forall t :: t in s ==> t.view < |p|
    ensures |r| == |s| && forall k :: 0 <= k < |s| ==> s[k].view < |p| && r[k] == Renamed(s[k], p)
  {
    seq(|s|, k requires 0 <= k < |s| => assert s[k] in s; Renamed(s[k], p))
  }

  // The same cluster but for the names of its views.
  ghost predicate SameCluster(c: Cluster, d: Cluster, p: seq<nat>) {
    && c.seed == d.seed && c.scores == d.scores && |c.members| == |d.members|
    && (forall i :: 0 <= i < |c.members| ==> c.members[i].box == d.members[i].box)
    && Within(c.seen, p) && d.seen == set v | v in c.seen && v < |p| :: p[v]
  }

  ghost predicate SameClusters(cs: seq<Cluster>, ds: seq<Cluster>, p: seq<nat>) {
    |cs| == |ds| && forall i :: 0 <= i < |cs| ==> SameCluster(cs[i], ds[i], p)
  }

  lemma JoinSame(c: Cluster, d: Cluster, t: Tagged, p: seq<nat>)
    requires SameCluster(c, d, p) && t.view < |p|
    ensures SameCluster(Joined(c, t), Joined(d, Renamed(t, p)), p)
  {
    assert Joined(c, t).seen == c.seen + {t.view};
    forall x ensures x in Joined(d, Renamed(t, p)).seen <==>
                     x in set v | v in c.seen + {t.view} && v < |p| :: p[v] {
    }
  }

  lemma {:induction false} PlaceSame(cs: seq<Cluster>, ds: seq<Cluster>, t: Tagged, matchIou: real, p: seq<nat>)
    requires SameClusters(cs, ds, p) && t.view < |p|
    ensures SameClusters(Place(cs, t, matchIou), Place(ds, Renamed(t, p), matchIou), p)
  {
    var k := PlaceIndex(cs, t, matchIou);
    PlaceAt(ds, Renamed(t, p), matchIou, k);
    if k < |cs| {
      JoinSame(cs[k], ds[k], t, p);
    } else {
      assert Renamed(t, p).view in (set v | v in {t.view} && v < |p| :: p[v]);
      assert SameCluster(Seeded(t), Seeded(Renamed(t, p)), p);
    }
  }

  lemma {:induction false} GrowSame(flat: seq<Tagged>, matchIou: real, p: seq<nat>)
    requires forall t :: t in flat ==> t.view < |p|
    ensures SameClusters(Grow(flat, matchIou), Grow(RenamedAll(flat, p), matchIou), p)
  {
    if flat == [] {
    } else {
      var init := flat[..|flat| - 1];
      assert forall t :: t in init ==> t in flat;
      GrowSame(init, matchIou, p);
      assert RenamedAll(flat, p)[..|flat| - 1] == RenamedAll(init, p);
      assert flat[|flat| - 1] in flat;
      PlaceSame(Grow(init, matchIou), Grow(RenamedAll(init, p), matchIou), flat[|flat| - 1], matchIou, p);
    }
  }

  lemma {:induction false} ImageSize(s: set<nat>, p: seq<nat>)
    requires Within(s, p) && NoRepeats(p)
    ensures |set v | v in s && v < |p| :: p[v]| == |s|
  {
    var image := set v | v in s && v < |p| :: p[v];
    if s != {} {
      var x :| x in s;
      ImageSize(s - {x}, p);
      var rest := set v | v in s - {x} && v < |p| :: p[v];
      assert image == rest + {p[x]};
      assert p[x] !in rest;
    }
  }

  lemma {:induction false} WeightsSame(a: seq<Tagged>, b: seq<Tagged>, side: Side)
    requires |a| == |b| && forall i :: 0 <= i < |a| ==> a[i].box == b[i].box
    ensures TotalWeight(a) == TotalWeight(b) && WeightedSum(a, side) == WeightedSum(b, side)
  {
    if a == [] {
    } else {
      WeightsSame(a[..|a| - 1], b[..|b| - 1], side);
    }
  }

  lemma MergedSame(c: Cluster, d: Cluster, p: seq<nat>)
    requires SameCluster(c, d, p) && c.members != [] && c.scores != []
    requires NoRepeats(p)
    ensures Merged(c) == Merged(d)
  {
    ImageSize(c.seen, p);
    WeightsSame(c.members, d.members, Left);
    WeightsSame(c.members, d.members, Top);
    WeightsSame(c.members, d.members, Right);
    WeightsSame(c.members, d.members, Bottom);
  }

  // ---------- The order does not matter ----------

  lemma {:induction false} SortedStrictly(views: seq<seq<Box>>)
    requires DistinctScores(views)
    ensures StrictlyDescends(SortDesc(Flat(views, |views|), ByScore()))
    ensures forall t :: t in SortDesc(Flat(views, |views|), ByScore()) <==> t.view < |views| && t.box in views[t.view]
  {
    var flat := Flat(views, |views|);
    var sorted := SortDesc(flat, ByScore());
    ByScoreTotal();
    SortFacts(flat, ByScore());
    SortedNoTwins(views, BoxScore());
    forall i, j | 0 <= i < j < |sorted| ensures sorted[i].box.score > sorted[j].box.score {
      assert ByScore()(sorted[i], sorted[j]) && OfTagged(BoxScore())(sorted[i]) != OfTagged(BoxScore())(sorted[j]);
    }
    forall t ensures t in sorted <==> t.view < |views| && t.box in views[t.view] {
      FlatMembers(views, |views|, t);
    }
  }

  lemma SameElements(before: seq<seq<Box>>, after: seq<seq<Box>>, p: seq<nat>, s: seq<Tagged>, s': seq<Tagged>)
    requires Rearranged(before, after, p)
    requires forall t :: t in s <==> t.view < |before| && t.box in before[t.view]
    requires forall t :: t in s' <==> t.view < |after| && t.box in after[t.view]
    ensures Elements(RenamedAll(s', p)) == Elements(s)
  {
    forall t ensures t in RenamedAll(s', p) <==> t in s {
      if t in RenamedAll(s', p) {
        var k :| 0 <= k < |s'| && RenamedAll(s', p)[k] == t;
        assert s'[k] in s';
        assert t.box in multiset(before[t.view]);
      }
      if t in s {
        Onto(p, t.view);
        var i :| 0 <= i < |p| && p[i] == t.view;
        assert t.box in multiset(after[i]);
        var t' := Tagged(i, t.box);
        assert t' in s';
        var k :| 0 <= k < |s'| && s'[k] == t';
        assert RenamedAll(s', p)[k] == t;
      }
    }
  }

  // When all scores are distinct, permuting the views, and the boxes inside each view, leaves the
  // merged boxes and their order exactly the same.
  lemma OrderDoesNotMatter(before: seq<seq<Box>>, after: seq<seq<Box>>, p: seq<nat>, matchIou: real)
    requires DistinctScores(before) && Rearranged(before, after, p)
    ensures ClusterVotes(after, matchIou) == ClusterVotes(before, matchIou)
  {
    RearrangedDistinct(before, after, p, BoxScore());
    SortedStrictly(before);
    SortedStrictly(after);
    var s, s' := SortDesc(Flat(before, |before|), ByScore()), SortDesc(Flat(after, |after|), ByScore());
    SameElements(before, after, p, s, s');
    SortedUnique(RenamedAll(s', p), s);
    GrowSame(s', matchIou, p);
    MergedAllSame(Clustered(after, matchIou), Clustered(before, matchIou), p);
  }

  lemma MergedAllSame(cs: seq<Cluster>, ds: seq<Cluster>, p: seq<nat>)
    requires SameClusters(cs, ds, p) && NonEmpty(cs) && NonEmpty(ds)
    requires NoRepeats(p)
    ensures MergedAll(cs) == MergedAll(ds)
  {
    forall i | 0 <= i < |cs| ensures Merged(cs[i]) == Merged(ds[i]) {
      MergedSame(cs[i], ds[i], p);
    }
  }

  // ---------- With equal scores it can matter ----------

  // A row of boxes of one height, each overlapping the next by a third.
  function RowBox(x: real): Box {
    Plain(x, 0.0, x + 2.0, 1.0, 0.5)
  }

  lemma RowIou(x: real, y: real, shared: real)
    requires shared == (if x < y then 2.0 - (y - x) else 2.0 - (x - y)) && shared >= 0.0
    ensures Iou(RowBox(x), RowBox(y)) == shared / (4.0 - shared)
  {
    var a, b := RowBox(x), RowBox(y);
    assert Shared(a.x1, a.x2, b.x1, b.x2) == shared && Shared(a.y1, a.y2, b.y1, b.y2) == 1.0;
    assert Inter(a, b) == shared * 1.0 == shared;
    assert Area(a) == 2.0 * 1.0 == 2.0 && Area(b) == 2.0 * 1.0 == 2.0;
  }

  lemma RowOverlaps()
    ensures Iou(RowBox(0.0), RowBox(1.0)) >= 0.3 && Iou(RowBox(1.0), RowBox(0.0)) >= 0.3
    ensures Iou(RowBox(1.0), RowBox(2.0)) >= 0.3 && Iou(RowBox(0.0), RowBox(2.0)) < 0.3
  {
    RowIou(0.0, 1.0, 1.0);
    RowIou(1.0, 0.0, 1.0);
    RowIou(1.0, 2.0, 1.0);
    RowIou(0.0, 2.0, 0.0);
  }

  lemma ThreeInOrder(a: Box, b: Box, c: Box)
    requires a.score == b.score == c.score
    ensures SortDesc(Flat([[a], [b], [c]], 3), ByScore()) == [Tagged(0, a), Tagged(1, b), Tagged(2, c)]
  {
    var views := [[a], [b], [c]];
    assert Flat(views, 1) == [Tagged(0, a)];
    assert Flat(views, 2) == [Tagged(0, a), Tagged(1, b)];
    assert Flat(views, 3) == [Tagged(0, a), Tagged(1, b), Tagged(2, c)];
    var flat := Flat(views, 3);
    assert flat[1..] == [Tagged(1, b), Tagged(2, c)] && flat[1..][1..] == [Tagged(2, c)];
    assert SortDesc([Tagged(2, c)], ByScore()) == [Tagged(2, c)];
    assert SortDesc(flat[1..], ByScore()) == [Tagged(1, b), Tagged(2, c)];
  }

  lemma {:induction false} GrowThree(a: Tagged, b: Tagged, c: Tagged, matchIou: real)
    ensures Grow([a, b, c], matchIou) == Place(Place([Seeded(a)], b, matchIou), c, matchIou)
  {
    assert [a, b, c][..2] == [a, b] && [a, b][..1] == [a] && [a][..0] == [];
    assert Grow([a], matchIou) == [Seeded(a)];
  }

  // The second of three matches the first: the third matches the first as well or is left alone.
  lemma {:induction false} PlaceThree(a: Tagged, b: Tagged, c: Tagged, matchIou: real)
    requires Iou(a.box, b.box) >= matchIou
    ensures |Grow([a, b, c], matchIou)| == if Iou(a.box, c.box) >= matchIou then 1 else 2
  {
    GrowThree(a, b, c, matchIou);
    var pair := [Joined(Seeded(a), b)];
    assert Place([Seeded(a)], b, matchIou) == pair;
    PlaceAt(pair, c, matchIou, if Iou(a.box, c.box) >= matchIou then 0 else 1);
  }

  lemma VotesOfThree(a: Box, b: Box, c: Box, matchIou: real)
    requires a.score == b.score == c.score && Iou(a, b) >= matchIou
    ensures |ClusterVotes([[a], [b], [c]], matchIou)| == if Iou(a, c) >= matchIou then 1 else 2
  {
    ThreeInOrder(a, b, c);
    PlaceThree(Tagged(0, a), Tagged(1, b), Tagged(2, c), matchIou);
  }

  // Three equally sure boxes in a row: seen from the left they make two clusters, seen from the
  // middle one.
  lemma TiesDependOnOrder()
    ensures var a, b, c := RowBox(0.0), RowBox(1.0), RowBox(2.0);
            && Rearranged([[a], [b], [c]], [[b], [a], [c]], [1, 0, 2])
            && |ClusterVotes([[a], [b], [c]], 0.3)| == 2 && |ClusterVotes([[b], [a], [c]], 0.3)| == 1
  {
    var a, b, c := RowBox(0.0), RowBox(1.0), RowBox(2.0);
    RowOverlaps();
    VotesOfThree(a, b, c, 0.3);
    VotesOfThree(b, a, c, 0.3);
  }
}
