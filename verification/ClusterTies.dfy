/** For which scores the order of the views never matters: the scores fixed, the boxes free. */
module ClusterTies {
  import opened Boxes
  import opened Sorting
  import opened Clusters
  import opened ClusterProofs
  import opened ClusterOrder
  import opened ClusterOne

  predicate HasScores(views: seq<seq<Box>>, scores: seq<seq<real>>) {
    && |views| == |scores|
    && (forall i :: 0 <= i < |views| ==> |views[i]| == |scores[i]|)
    && forall i, k :: 0 <= i < |views| && 0 <= k < |views[i]| ==> views[i][k].score == scores[i][k]
  }

  // Two places of the table, the first earlier, with one score.
  predicate Tied(scores: seq<seq<real>>, i: nat, k: nat, j: nat, l: nat) {
    && i < |scores| && k < |scores[i]| && j < |scores| && l < |scores[j]|
    && (i < j || (i == j && k < l)) && scores[i][k] == scores[j][l]
  }

  ghost predicate NoTies(scores: seq<seq<real>>) {
    forall i: nat, k: nat, j: nat, l: nat :: !Tied(scores, i, k, j, l)
  }

  // ---------- Boxes that never touch ----------

  // The n-th of a row of unit boxes with gaps between them.
  function At(n: nat, score: real): Box {
    Plain(2.0 * n as real, 0.0, 2.0 * n as real + 1.0, 1.0, score)
  }

  function LeftEdge(): Box -> real {
    (b: Box) => b.x1
  }

  lemma Apart(a: nat, b: nat, s: real, t: real)
    requires a != b
    ensures Iou(At(a, s), At(b, t)) == 0.0 && At(a, s).x1 != At(b, t).x1
  {
    var x, y := At(a, s), At(b, t);
    if a < b {
      assert a as real + 1.0 <= b as real;
    } else {
      assert b as real + 1.0 <= a as real;
    }
    assert Shared(x.x1, x.x2, y.x1, y.x2) == 0.0;
    assert Inter(x, y) == 0.0;
  }

  function Offset(scores: seq<seq<real>>, i: nat): nat
    requires i <= |scores|
  {
    if i == 0 then 0 else Offset(scores, i - 1) + |scores[i - 1]|
  }

  lemma {:induction false} OffsetsGrow(scores: seq<seq<real>>, i: nat, j: nat)
    requires i < j <= |scores|
    ensures Offset(scores, i) + |scores[i]| <= Offset(scores, j)
  {
    if j == i + 1 {
    } else {
      OffsetsGrow(scores, i, j - 1);
    }
  }

  // A box for every score of the table, in a row.
  function InARow(scores: seq<seq<real>>): (views: seq<seq<Box>>)
    ensures HasScores(views, scores)
    ensures forall i, k :: 0 <= i < |views| && 0 <= k < |views[i]| ==>
              views[i][k] == At(Offset(scores, i) + k, scores[i][k])
  {
    seq(|scores|, i requires 0 <= i < |scores| =>
      seq(|scores[i]|, k requires 0 <= k < |scores[i]| => At(Offset(scores, i) + k, scores[i][k])))
  }

  lemma {:induction false} PlacesDiffer(scores: seq<seq<real>>, i: nat, k: nat, j: nat, l: nat)
    requires i < |scores| && k < |scores[i]| && j < |scores| && l < |scores[j]| && (i != j || k != l)
    ensures Offset(scores, i) + k != Offset(scores, j) + l
  {
    if i < j {
      OffsetsGrow(scores, i, j);
    } else if j < i {
      OffsetsGrow(scores, j, i);
    }
  }

  lemma RowDistinct(scores: seq<seq<real>>)
    ensures DistinctBy(InARow(scores), LeftEdge())
  {
    var views := InARow(scores);
    forall i: nat, k: nat, j: nat, l: nat |
      i < |views| && k < |views[i]| && j < |views| && l < |views[j]| && (i != j || k != l)
      ensures LeftEdge()(views[i][k]) != LeftEdge()(views[j][l])
    {
      PlacesDiffer(scores, i, k, j, l);
      Apart(Offset(scores, i) + k, Offset(scores, j) + l, scores[i][k], scores[j][l]);
    }
  }

  ghost predicate InSomePlace(b: Box) {
    exists n: nat :: b == At(n, b.score)
  }

  // ---------- Clusters of one ----------

  predicate NoneMatch(s: seq<Tagged>, matchIou: real) {
    forall i, j :: 0 <= i < j < |s| ==> Iou(s[i].box, s[j].box) < matchIou
  }

  lemma PlacesDoNotMatch(s: seq<Tagged>, matchIou: real)
    requires matchIou > 0.0 && NoTwins(s, OfTagged(LeftEdge())) && forall t :: t in s ==> InSomePlace(t.box)
    ensures NoneMatch(s, matchIou)
  {
    forall i, j | 0 <= i < j < |s| ensures Iou(s[i].box, s[j].box) < matchIou {
      assert s[i] in s && s[j] in s;
      var a: nat :| s[i].box == At(a, s[i].box.score);
      var b: nat :| s[j].box == At(b, s[j].box.score);
      assert OfTagged(LeftEdge())(s[i]) != OfTagged(LeftEdge())(s[j]);
      Apart(a, b, s[i].box.score, s[j].box.score);
    }
  }

  function Singles(s: seq<Tagged>): (r: seq<Cluster>)
    ensures |r| == |s| && forall k :: 0 <= k < |r| ==> r[k] == Seeded(s[k])
  {
    seq(|s|, k requires 0 <= k < |s| => Seeded(s[k]))
  }

  lemma {:induction false} GrowApart(s: seq<Tagged>, matchIou: real)
    requires NoneMatch(s, matchIou)
    ensures Grow(s, matchIou) == Singles(s)
  {
    if s == [] {
    } else {
      var n := |s| - 1;
      GrowApart(s[..n], matchIou);
      PlaceAt(Singles(s[..n]), s[n], matchIou, n);
      assert Singles(s) == Singles(s[..n]) + [Seeded(s[n])];
    }
  }

  lemma OneQuotient(x: real, w: real)
    requires w > 0.0
    ensures (0.0 + x * w) / (0.0 + w) == x
  {
  }

  lemma MergedSingle(t: Tagged)
    ensures var m := Merged(Seeded(t));
            m.x1 == t.box.x1 && m.score == t.box.score && m.votes == 1
  {
    assert [t][..0] == [] && [t.box.score][..0] == [];
    assert WeightedSum([t], Left) == 0.0 + Coord(t.box, Left) * Weight(t.box);
    assert TotalWeight([t]) == 0.0 + Weight(t.box);
    OneQuotient(t.box.x1, Weight(t.box));
    assert Sum([t.box.score]) == 0.0 + t.box.score;
  }

  lemma SinglesNonEmpty(s: seq<Tagged>)
    ensures NonEmpty(Singles(s))
  {
  }

  lemma SinglesDescend(s: seq<Tagged>)
    requires Descends(s, ByScore())
    ensures NonEmpty(Singles(s)) && Descends(MergedAll(Singles(s)), ByVotes())
  {
    SinglesNonEmpty(s);
    var all := MergedAll(Singles(s));
    forall i, j | 0 <= i < j < |all| ensures ByVotes()(all[i], all[j]) {
      MergedSingle(s[i]);
      MergedSingle(s[j]);
      assert ByScore()(s[i], s[j]);
    }
  }

  // Boxes that do not match come out one by one, sorted by score.
  lemma {:induction false} VotesOfApart(views: seq<seq<Box>>, matchIou: real)
    requires NoneMatch(SortDesc(Flat(views, |views|), ByScore()), matchIou)
    ensures var s := SortDesc(Flat(views, |views|), ByScore());
            && |ClusterVotes(views, matchIou)| == |s|
            && forall k :: 0 <= k < |s| ==> ClusterVotes(views, matchIou)[k].x1 == s[k].box.x1
  {
    var s := SortDesc(Flat(views, |views|), ByScore());
    ByScoreTotal();
    SortFacts(Flat(views, |views|), ByScore());
    GrowApart(s, matchIou);
    SinglesDescend(s);
    SortOfSorted(MergedAll(Singles(s)), ByVotes());
    forall k | 0 <= k < |s| ensures MergedAll(Singles(s))[k].x1 == s[k].box.x1 {
      MergedSingle(s[k]);
    }
  }

  // ---------- Swapping a tied pair ----------

  lemma {:induction false} BeforeInFlat(views: seq<seq<Box>>, n: nat, i: nat, k: nat, j: nat, l: nat)
    requires i < n <= |views| && j < n && k < |views[i]| && l < |views[j]| && (i < j || (i == j && k < l))
    ensures Before(Flat(views, n), Tagged(i, views[i][k]), Tagged(j, views[j][l]))
  {
    var x, y := Tagged(i, views[i][k]), Tagged(j, views[j][l]);
    var early, late := Flat(views, n - 1), Tag(n - 1, views[n - 1]);
    var flat := early + late;
    if j < n - 1 {
      BeforeInFlat(views, n - 1, i, k, j, l);
      var a, b :| 0 <= a < b < |early| && early[a] == x && early[b] == y;
      assert flat[a] == x && flat[b] == y;
    } else if i < n - 1 {
      FlatMembers(views, n - 1, x);
      var a :| 0 <= a < |early| && early[a] == x;
      assert flat[a] == x && flat[|early| + l] == y;
    } else {
      assert flat[|early| + k] == x && flat[|early| + l] == y;
    }
  }

  lemma PartsElements(a: seq<Box>, x: Box, b: seq<Box>, y: Box, c: seq<Box>)
    ensures multiset(a + [x] + b + [y] + c) == multiset(a + b + c) + multiset{x, y}
  {
  }

  lemma SwapKeepsBoxes(s: seq<Box>, k: nat, l: nat)
    requires k < l < |s|
    ensures multiset(s[k := s[l]][l := s[k]]) == multiset(s)
  {
    var a, b, c := s[..k], s[k + 1..l], s[l + 1..];
    assert s == a + [s[k]] + b + [s[l]] + c;
    assert s[k := s[l]][l := s[k]] == a + [s[l]] + b + [s[k]] + c;
    PartsElements(a, s[k], b, s[l], c);
    PartsElements(a, s[l], b, s[k], c);
  }

  function Swapped(views: seq<seq<Box>>, i: nat, k: nat, j: nat, l: nat): (after: seq<seq<Box>>)
    requires i < |views| && k < |views[i]| && j < |views| && l < |views[j]|
    ensures |after| == |views|
  {
    if i == j then views[i := views[i][k := views[i][l]][l := views[i][k]]] else views[i := views[j]][j := views[i]]
  }

  function SwappedViews(n: nat, i: nat, j: nat): (p: seq<nat>)
    ensures |p| == n && forall v :: 0 <= v < n ==> p[v] == if v == i then j else if v == j then i else v
  {
    seq(n, v => if v == i then j else if v == j then i else v)
  }

  lemma SwappedRearranges(views: seq<seq<Box>>, i: nat, k: nat, j: nat, l: nat)
    requires i < |views| && k < |views[i]| && j < |views| && l < |views[j]| && (i < j || (i == j && k < l))
    ensures Rearranged(views, Swapped(views, i, k, j, l), SwappedViews(|views|, i, j))
  {
    if i == j {
      SwapKeepsBoxes(views[i], k, l);
    }
  }

  // The second of the pair comes first after the swap.
  lemma SwappedOrder(views: seq<seq<Box>>, i: nat, k: nat, j: nat, l: nat)
    requires i < |views| && k < |views[i]| && j < |views| && l < |views[j]| && (i < j || (i == j && k < l))
    ensures var after := Swapped(views, i, k, j, l);
            Before(Flat(after, |after|), Tagged(i, views[j][l]), Tagged(j, views[i][k]))
  {
    var after := Swapped(views, i, k, j, l);
    if i == j {
      BeforeInFlat(after, |after|, i, k, i, l);
    } else {
      BeforeInFlat(after, |after|, i, l, j, k);
    }
  }

  lemma {:induction false} SortedPlaces(views: seq<seq<Box>>, matchIou: real)
    requires matchIou > 0.0 && DistinctBy(views, LeftEdge())
    requires forall i, k :: 0 <= i < |views| && 0 <= k < |views[i]| ==> InSomePlace(views[i][k])
    ensures NoneMatch(SortDesc(Flat(views, |views|), ByScore()), matchIou)
  {
    var flat := Flat(views, |views|);
    var s := SortDesc(flat, ByScore());
    ByScoreTotal();
    SortFacts(flat, ByScore());
    SortedNoTwins(views, LeftEdge());
    forall t | t in s ensures InSomePlace(t.box) {
      FlatMembers(views, |views|, t);
      var k :| 0 <= k < |views[t.view]| && views[t.view][k] == t.box;
    }
    PlacesDoNotMatch(s, matchIou);
  }

  lemma RearrangedPlaces(before: seq<seq<Box>>, after: seq<seq<Box>>, p: seq<nat>)
    requires Rearranged(before, after, p)
    requires forall i, k :: 0 <= i < |before| && 0 <= k < |before[i]| ==> InSomePlace(before[i][k])
    ensures forall i, k :: 0 <= i < |after| && 0 <= k < |after[i]| ==> InSomePlace(after[i][k])
  {
    forall i, k | 0 <= i < |after| && 0 <= k < |after[i]| ensures InSomePlace(after[i][k]) {
      assert after[i][k] in multiset(before[p[i]]);
      var l :| 0 <= l < |before[p[i]]| && before[p[i]][l] == after[i][k];
    }
  }

  lemma SamePlace(t: seq<Tagged>, m: nat, n: nat)
    requires NoTwins(t, OfTagged(LeftEdge())) && m < |t| && n < |t| && t[m].box.x1 == t[n].box.x1
    ensures m == n
  {
    assert OfTagged(LeftEdge())(t[m]) == OfTagged(LeftEdge())(t[n]);
  }

  // Two lists of boxes that agree on the left edges cannot hold two boxes in opposite order.
  lemma OppositeOrders(s: seq<Tagged>, t: seq<Tagged>, a: Box, b: Box, v: nat, w: nat, v': nat, w': nat)
    requires |s| == |t| && NoTwins(t, OfTagged(LeftEdge()))
    requires Before(s, Tagged(v, a), Tagged(w, b)) && Before(t, Tagged(v', b), Tagged(w', a))
    ensures exists k :: 0 <= k < |s| && s[k].box.x1 != t[k].box.x1
  {
    var m, n :| 0 <= m < n < |s| && s[m] == Tagged(v, a) && s[n] == Tagged(w, b);
    var m', n' :| 0 <= m' < n' < |t| && t[m'] == Tagged(v', b) && t[n'] == Tagged(w', a);
    if s[m].box.x1 == t[m].box.x1 {
      SamePlace(t, m, n');
      assert OfTagged(LeftEdge())(t[m']) != OfTagged(LeftEdge())(t[n]);
    }
  }

  // Boxes in places come out one by one, and no two of them are in one place.
  lemma {:induction false} VotesInPlaces(views: seq<seq<Box>>, matchIou: real)
    requires matchIou > 0.0 && DistinctBy(views, LeftEdge())
    requires forall i, k :: 0 <= i < |views| && 0 <= k < |views[i]| ==> InSomePlace(views[i][k])
    ensures var s := SortDesc(Flat(views, |views|), ByScore());
            && NoTwins(s, OfTagged(LeftEdge())) && |ClusterVotes(views, matchIou)| == |s|
            && forall k :: 0 <= k < |s| ==> ClusterVotes(views, matchIou)[k].x1 == s[k].box.x1
  {
    SortedPlaces(views, matchIou);
    VotesOfApart(views, matchIou);
    SortedNoTwins(views, LeftEdge());
  }

  lemma {:induction false} SwapChangesList(before: seq<seq<Box>>, i: nat, k: nat, j: nat, l: nat, matchIou: real)
    requires matchIou > 0.0 && DistinctBy(before, LeftEdge())
    requires forall i, k :: 0 <= i < |before| && 0 <= k < |before[i]| ==> InSomePlace(before[i][k])
    requires i < |before| && k < |before[i]| && j < |before| && l < |before[j]| && (i < j || (i == j && k < l))
    requires before[i][k].score == before[j][l].score
    ensures ClusterVotes(Swapped(before, i, k, j, l), matchIou) != ClusterVotes(before, matchIou)
  {
    var after, p := Swapped(before, i, k, j, l), SwappedViews(|before|, i, j);
    SwappedRearranges(before, i, k, j, l);
    RearrangedDistinct(before, after, p, LeftEdge());
    RearrangedPlaces(before, after, p);
    VotesInPlaces(before, matchIou);
    VotesInPlaces(after, matchIou);
    TieSorts(before, i, k, j, l);
    var s, t := SortDesc(Flat(before, |before|), ByScore()), SortDesc(Flat(after, |after|), ByScore());
    if |s| == |t| {
      OppositeOrders(s, t, before[i][k], before[j][l], i, j, i, j);
    }
  }

  // Sorting keeps the tied pair in the order of the views, before and after the swap.
  lemma {:induction false} TieSorts(views: seq<seq<Box>>, i: nat, k: nat, j: nat, l: nat)
    requires i < |views| && k < |views[i]| && j < |views| && l < |views[j]| && (i < j || (i == j && k < l))
    requires views[i][k].score == views[j][l].score
    ensures var after := Swapped(views, i, k, j, l);
            && Before(SortDesc(Flat(views, |views|), ByScore()), Tagged(i, views[i][k]), Tagged(j, views[j][l]))
            && Before(SortDesc(Flat(after, |after|), ByScore()), Tagged(i, views[j][l]), Tagged(j, views[i][k]))
  {
    var after := Swapped(views, i, k, j, l);
    ByScoreTotal();
    BeforeInFlat(views, |views|, i, k, j, l);
    SortIsStable(Flat(views, |views|), Tagged(i, views[i][k]), Tagged(j, views[j][l]), ByScore());
    SwappedOrder(views, i, k, j, l);
    SortIsStable(Flat(after, |after|), Tagged(i, views[j][l]), Tagged(j, views[i][k]), ByScore());
  }

  lemma TieChangesList(scores: seq<seq<real>>, i: nat, k: nat, j: nat, l: nat, matchIou: real)
    requires matchIou > 0.0 && Tied(scores, i, k, j, l)
    ensures var before := InARow(scores);
            ClusterVotes(Swapped(before, i, k, j, l), matchIou) != ClusterVotes(before, matchIou)
  {
    RowDistinct(scores);
    SwapChangesList(InARow(scores), i, k, j, l, matchIou);
  }

  // ---------- Exactly then ----------

  // For every choice of boxes with these scores, every rearrangement gives the same list.
  ghost predicate OrderNeverMatters(scores: seq<seq<real>>, matchIou: real) {
    forall before, after, p :: HasScores(before, scores) && Rearranged(before, after, p) ==>
      ClusterVotes(after, matchIou) == ClusterVotes(before, matchIou)
  }

  lemma NoTiesDistinct(scores: seq<seq<real>>, views: seq<seq<Box>>)
    requires NoTies(scores) && HasScores(views, scores)
    ensures DistinctScores(views)
  {
    forall i: nat, k: nat, j: nat, l: nat |
      i < |views| && k < |views[i]| && j < |views| && l < |views[j]| && (i != j || k != l)
      ensures BoxScore()(views[i][k]) != BoxScore()(views[j][l])
    {
      assert !Tied(scores, i, k, j, l) && !Tied(scores, j, l, i, k);
    }
  }

  lemma PositiveMatch(scores: seq<seq<real>>, matchIou: real)
    requires matchIou > 0.0
    ensures OrderNeverMatters(scores, matchIou) <==> NoTies(scores)
  {
    if NoTies(scores) {
      forall before, after, p | HasScores(before, scores) && Rearranged(before, after, p)
        ensures ClusterVotes(after, matchIou) == ClusterVotes(before, matchIou)
      {
        NoTiesDistinct(scores, before);
        OrderDoesNotMatter(before, after, p, matchIou);
      }
    } else {
      var i: nat, k: nat, j: nat, l: nat :| Tied(scores, i, k, j, l);
      TieChangesList(scores, i, k, j, l, matchIou);
      SwappedRearranges(InARow(scores), i, k, j, l);
    }
  }

  // Exactly when no two boxes ever have the same score, or every box matches every other.
  lemma OrderMattersExactly(scores: seq<seq<real>>, matchIou: real)
    ensures OrderNeverMatters(scores, matchIou) <==> matchIou <= 0.0 || NoTies(scores)
  {
    if matchIou <= 0.0 {
      forall before, after, p | HasScores(before, scores) && Rearranged(before, after, p)
        ensures ClusterVotes(after, matchIou) == ClusterVotes(before, matchIou)
      {
        OneClusterInAnyOrder(before, after, p, matchIou);
      }
    } else {
      PositiveMatch(scores, matchIou);
    }
  }
}
