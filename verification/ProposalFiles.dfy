/** Writing the proposals of a split beside its images, and what the written label files say. */
module ProposalFiles {
  import opened Boxes
  import opened Clusters
  import opened ClusterProofs
  import opened LabelFile
  import opened LabelText
  import opened Proposals
  import opened Rounding
  import opened Sorting
  import opened Wrappers

  // ---------- Edges in order ----------

  predicate ViewsOrdered(views: seq<seq<Box>>) {
    forall i, k :: 0 <= i < |views| && 0 <= k < |views[i]| ==> Ordered(views[i][k])
  }

  predicate MembersOrdered(members: seq<Tagged>) {
    forall i :: 0 <= i < |members| ==> Ordered(members[i].box)
  }

  // Of two sides, the first never beyond the second.
  predicate Facing(low: Side, high: Side) {
    (low.Left? && high.Right?) || (low.Top? && high.Bottom?)
  }

  lemma {:induction false} SumsOrdered(members: seq<Tagged>, low: Side, high: Side)
    requires MembersOrdered(members) && Facing(low, high)
    ensures WeightedSum(members, low) <= WeightedSum(members, high)
  {
    if members == [] {
    } else {
      var box := members[|members| - 1].box;
      SumsOrdered(members[..|members| - 1], low, high);
      ScaledOrder(Coord(box, low), Coord(box, high), Weight(box));
    }
  }

  lemma OrderCancels(x: real, y: real, d: real)
    requires x * d <= y * d && d > 0.0
    ensures x <= y
  {
  }

  lemma QuotientOrder(a: real, b: real, d: real)
    requires a <= b && d > 0.0
    ensures a / d <= b / d
  {
    var x, y := a / d, b / d;
    assert x * d == a && y * d == b;
    OrderCancels(x, y, d);
  }

  lemma AveragesOrdered(members: seq<Tagged>, low: Side, high: Side)
    requires members != [] && MembersOrdered(members) && Facing(low, high)
    ensures Average(members, low) <= Average(members, high)
  {
    SumsOrdered(members, low, high);
    TotalWeightPositive(members);
    QuotientOrder(WeightedSum(members, low), WeightedSum(members, high), TotalWeight(members));
  }

  lemma MergedOrdered(c: Cluster)
    requires c.members != [] && c.scores != [] && MembersOrdered(c.members)
    ensures Ordered(Merged(c))
  {
    AveragesOrdered(c.members, Left, Right);
    AveragesOrdered(c.members, Top, Bottom);
  }

  lemma ClusterMembersOrdered(views: seq<seq<Box>>, matchIou: real, i: nat)
    requires ViewsOrdered(views) && i < |Clustered(views, matchIou)|
    ensures MembersOrdered(Clustered(views, matchIou)[i].members)
  {
    var clusters := Clustered(views, matchIou);
    ClustersAreAGreedyPartition(views, matchIou);
    forall k | 0 <= k < |clusters[i].members| ensures Ordered(clusters[i].members[k].box) {
      var t := clusters[i].members[k];
      MemberOf(clusters, i, t);
      assert t in Flat(views, |views|);
      FlatMembers(views, |views|, t);
    }
  }

  lemma ByVotesTotal()
    ensures Total(ByVotes())
  {
  }

  // Boxes with their edges in order merge to boxes with their edges in order.
  lemma VotesOrdered(views: seq<seq<Box>>, matchIou: real, box: Box)
    requires ViewsOrdered(views) && box in ClusterVotes(views, matchIou)
    ensures Ordered(box)
  {
    var clusters := Clustered(views, matchIou);
    ByVotesTotal();
    SortFacts(MergedAll(clusters), ByVotes());
    var i :| 0 <= i < |clusters| && MergedAll(clusters)[i] == box;
    ClusterMembersOrdered(views, matchIou, i);
    MergedOrdered(clusters[i]);
  }

  lemma CornersOrdered(box: Box)
    requires Ordered(box)
    ensures Ordered(Corners(box))
  {
    HundredthsKeepOrder(box.x1, box.x2);
    HundredthsKeepOrder(box.y1, box.y2);
  }

  // ---------- The written files ----------

  datatype Picture = Picture(name: string, stem: string)

  // Of the report's rows for an image, the last.
  function LastRow(report: seq<ImageReport>, name: string): Option<ImageReport> {
    if report == [] then None
    else if report[|report| - 1].image == name then Some(report[|report| - 1])
    else LastRow(report[..|report| - 1], name)
  }

  predicate Sized(report: seq<ImageReport>) {
    forall r :: 0 <= r < |report| ==> report[r].width > 0 && report[r].height > 0
  }

  function FrameOf(row: ImageReport): (frame: Frame) {
    Frame(row.width as real, row.height as real)
  }

  function SourceOf(sources: map<string, string>, stem: string): Option<string> {
    if stem in sources then Some(sources[stem]) else None
  }

  function Completed(row: ImageReport, source: Option<string>): string
    requires row.width > 0 && row.height > 0
  {
    Unlines(CompletedLines(source, row.proposals, FrameOf(row)))
  }

  lemma {:induction false} LastRowSized(report: seq<ImageReport>, name: string)
    requires Sized(report)
    ensures var row := LastRow(report, name);
            row.Some? ==> row.value in report && row.value.width > 0 && row.value.height > 0 && row.value.image == name
  {
    if report != [] && report[|report| - 1].image != name {
      LastRowSized(report[..|report| - 1], name);
    }
  }

  function CompletedFor(picture: Picture, sources: map<string, string>, report: seq<ImageReport>): Option<string>
    requires Sized(report)
  {
    LastRowSized(report, picture.name);
    match LastRow(report, picture.name)
    case None => None
    case Some(row) => Some(Completed(row, SourceOf(sources, picture.stem)))
  }

  // A label file is named after its image's stem.
  function Written(pictures: seq<Picture>, sources: map<string, string>, report: seq<ImageReport>): map<string, string>
    requires Sized(report)
  {
    if pictures == [] then map[] else
      var before, last := Written(pictures[..|pictures| - 1], sources, report), pictures[|pictures| - 1];
      match CompletedFor(last, sources, report)
      case None => before
      case Some(text) => before[last.stem := text]
  }

  method ByName(report: seq<ImageReport>) returns (rows: map<string, ImageReport>)
    ensures forall name :: name in rows <==> LastRow(report, name).Some?
    ensures forall name :: name in rows ==> Some(rows[name]) == LastRow(report, name)
  {
    rows := map[];
    for r := 0 to |report|
      invariant forall name :: name in rows <==> LastRow(report[..r], name).Some?
      invariant forall name :: name in rows ==> Some(rows[name]) == LastRow(report[..r], name)
    {
      assert report[..r + 1][..r] == report[..r];
      rows := rows[report[r].image := report[r]];
    }
    assert report[..|report|] == report;
  }

  method ApplySplit(pictures: seq<Picture>, sources: map<string, string>, report: seq<ImageReport>)
    returns (written: map<string, string>)
    requires Sized(report)
    ensures written == Written(pictures, sources, report)
  {
    var rows := ByName(report);
    written := map[];
    for i := 0 to |pictures|
      invariant written == Written(pictures[..i], sources, report)
    {
      assert pictures[..i + 1][..i] == pictures[..i];
      var name, stem := pictures[i].name, pictures[i].stem;
      if name in rows {
        LastRowSized(report, name);
        var text := CompleteFile(SourceOf(sources, stem), rows[name].proposals, FrameOf(rows[name]));
        written := written[stem := text];
      }
    }
    assert pictures[..|pictures|] == pictures;
  }

  // The last reported image with this stem.
  function LastWith(pictures: seq<Picture>, report: seq<ImageReport>, stem: string): (i: nat)
    ensures i <= |pictures|
    ensures i < |pictures| ==> pictures[i].stem == stem && LastRow(report, pictures[i].name).Some?
    ensures forall j :: i < j < |pictures| && pictures[j].stem == stem ==> LastRow(report, pictures[j].name).None?
    ensures i == |pictures| ==>
              forall j :: 0 <= j < |pictures| && pictures[j].stem == stem ==> LastRow(report, pictures[j].name).None?
  {
    if pictures == [] then 0 else
      var n := |pictures| - 1;
      if pictures[n].stem == stem && LastRow(report, pictures[n].name).Some? then n else
        var i := LastWith(pictures[..n], report, stem);
        if i < n then i else n + 1
  }

  // A label file is written exactly for the stems of the reported images. It holds the source's
  // non-blank lines and then the proposals of the last reported image with its stem.
  lemma {:induction false} WrittenExactly(pictures: seq<Picture>, sources: map<string, string>,
                                          report: seq<ImageReport>, stem: string)
    requires Sized(report)
    ensures stem in Written(pictures, sources, report) <==> LastWith(pictures, report, stem) < |pictures|
    ensures stem in Written(pictures, sources, report) ==>
              Some(Written(pictures, sources, report)[stem]) ==
              CompletedFor(pictures[LastWith(pictures, report, stem)], sources, report)
  {
    if pictures == [] {
    } else {
      WrittenExactly(pictures[..|pictures| - 1], sources, report, stem);
    }
  }

  // ---------- From the predictions to the file ----------

  predicate WithinPixels(x: real, y: real, size: real) {
    -0.00000075 * size - 0.005 <= x - y <= 0.00000075 * size + 0.005
  }

  // Where a chosen box's edges end up in the file: at most half a hundredth of a pixel and 0.75
  // millionths of the image off.
  predicate InPlace(read: Box, box: Box, frame: Frame) {
    forall axis: Axis ::
      && WithinPixels(Lo(read, axis), Clip(Lo(box, axis), Size(frame, axis)), Size(frame, axis))
      && WithinPixels(Hi(read, axis), Clip(Hi(box, axis), Size(frame, axis)), Size(frame, axis))
  }

  lemma EdgeKept(read: real, corner: real, edge: real, size: real)
    requires size > 0.0 && Near(read, Clip(corner, size), size) && -0.005 <= edge - corner <= 0.005
    ensures WithinPixels(read, Clip(edge, size), size)
  {
  }

  lemma CornersNear(box: Box, axis: Axis)
    ensures -0.005 <= Lo(box, axis) - Lo(Corners(box), axis) <= 0.005
    ensures -0.005 <= Hi(box, axis) - Hi(Corners(box), axis) <= 0.005
  {
  }

  lemma BoxKept(read: Box, corners: Box, box: Box, frame: Frame)
    requires frame.Valid() && corners == Corners(box) && SameBox(read, corners, frame)
    ensures InPlace(read, box, frame)
  {
    forall axis: Axis
      ensures WithinPixels(Lo(read, axis), Clip(Lo(box, axis), Size(frame, axis)), Size(frame, axis))
      ensures WithinPixels(Hi(read, axis), Clip(Hi(box, axis), Size(frame, axis)), Size(frame, axis))
    {
      CornersNear(box, axis);
      EdgeKept(Lo(read, axis), Lo(corners, axis), Lo(box, axis), Size(frame, axis));
      EdgeKept(Hi(read, axis), Hi(corners, axis), Hi(box, axis), Size(frame, axis));
    }
  }

  // The row of the report a frame ends up with.
  function ReportRow(shots: seq<Shot>, unsafe: set<string>, s: Settings, r: nat): (row: ImageReport)
    requires r < |SplitOf(shots, unsafe, s).rows|
    ensures row.width > 0 && row.height > 0
  {
    var split := SplitOf(shots, unsafe, s);
    Reports(split, |split.rows|)[r]
  }

  lemma ReportRowIs(shots: seq<Shot>, unsafe: set<string>, s: Settings, r: nat)
    requires r < |SplitOf(shots, unsafe, s).rows|
    ensures ReportRow(shots, unsafe, s, r).proposals == AllCorners(ChosenIn(SplitOf(shots, unsafe, s), r))
  {
    var split := SplitOf(shots, unsafe, s);
  }

  // `read` is the labels and then the chosen boxes, in order.
  predicate ReadsBack(read: Option<seq<Box>>, existing: seq<Box>, chosen: seq<Box>, frame: Frame) {
    && read.Some? && |read.value| == |existing| + |chosen| && read.value[..|existing|] == existing
    && forall i :: 0 <= i < |chosen| ==> InPlace(read.value[|existing| + i], chosen[i], frame)
  }

  lemma CompletionReadsBack(source: Option<string>, existing: seq<Box>, chosen: seq<Box>, frame: Frame,
                            other: string -> Option<real>)
    requires frame.Valid() && ReadLabels(source, frame, other) == Some(existing)
    requires forall i :: 0 <= i < |chosen| ==> Ordered(chosen[i])
    ensures ReadsBack(ReadLabels(Some(Unlines(CompletedLines(source, AllCorners(chosen), frame))), frame, other),
            existing, chosen, frame)
  {
    var corners := AllCorners(chosen);
    forall i | 0 <= i < |corners| ensures Ordered(corners[i]) {
      CornersOrdered(chosen[i]);
    }
    CompletedFileIsRead(source, existing, corners, frame, other);
    var text := Unlines(CompletedLines(source, corners, frame));
    CornersReadBack(ReadLabels(Some(text), frame, other), existing, chosen, frame);
  }

  lemma CornersReadBack(read: Option<seq<Box>>, existing: seq<Box>, chosen: seq<Box>, frame: Frame)
    requires frame.Valid() && ReadsAs(read, existing, AllCorners(chosen), frame)
    ensures ReadsBack(read, existing, chosen, frame)
  {
    var corners := AllCorners(chosen);
    forall i | 0 <= i < |chosen| ensures InPlace(read.value[|existing| + i], chosen[i], frame) {
      BoxKept(read.value[|existing| + i], corners[i], chosen[i], frame);
    }
  }

  lemma ChosenOrdered(shots: seq<Shot>, unsafe: set<string>, s: Settings, r: nat, box: Box)
    requires r < |SplitOf(shots, unsafe, s).rows| && ViewsOrdered(SplitOf(shots, unsafe, s).rows[r].shot.views)
    requires box in ChosenIn(SplitOf(shots, unsafe, s), r)
    ensures Ordered(box)
  {
    ProposedExactly(shots, unsafe, s, r, box);
    VotesOrdered(SplitOf(shots, unsafe, s).rows[r].shot.views, s.matchIou, box);
  }

  // When each view's boxes have their edges in order, the file completed with a frame's row of the
  // report reads back as that frame's labels, unchanged, and then exactly its chosen boxes.
  lemma FileReadsBack(shots: seq<Shot>, unsafe: set<string>, s: Settings, r: nat,
                      source: Option<string>, other: string -> Option<real>)
    requires r < |SplitOf(shots, unsafe, s).rows|
    requires ViewsOrdered(SplitOf(shots, unsafe, s).rows[r].shot.views)
    requires ReadLabels(source, FrameOf(ReportRow(shots, unsafe, s, r)), other)
             == Some(SplitOf(shots, unsafe, s).rows[r].shot.existing)
    ensures var row := ReportRow(shots, unsafe, s, r);
            ReadsBack(ReadLabels(Some(Completed(row, source)), FrameOf(row), other),
                      SplitOf(shots, unsafe, s).rows[r].shot.existing,
                      ChosenIn(SplitOf(shots, unsafe, s), r), FrameOf(row))
  {
    var chosen := ChosenIn(SplitOf(shots, unsafe, s), r);
    var row := ReportRow(shots, unsafe, s, r);
    forall i | 0 <= i < |chosen| ensures Ordered(chosen[i]) {
      ChosenOrdered(shots, unsafe, s, r, chosen[i]);
    }
    ReportRowIs(shots, unsafe, s, r);
    CompletionReadsBack(source, SplitOf(shots, unsafe, s).rows[r].shot.existing, chosen, FrameOf(row), other);
  }
}
