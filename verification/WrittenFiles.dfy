/** Whose proposals a written label file holds: files are named after an image without its suffix. */
module WrittenFiles {
  import opened Boxes
  import opened LabelFile
  import opened LabelText
  import opened ProposalFiles
  import opened Proposals
  import opened Wrappers

  // ---------- Rows by name ----------

  // The report is on these images, in this order.
  predicate ReportsOn(report: seq<ImageReport>, images: seq<string>) {
    && ProposalFiles.Sized(report) && |report| == |images|
    && forall r :: 0 <= r < |report| ==> report[r].image == images[r]
  }

  lemma {:induction false} HasRow(report: seq<ImageReport>, images: seq<string>, name: string)
    requires ReportsOn(report, images)
    ensures LastRow(report, name).Some? <==> name in images
  {
    if report == [] {
    } else {
      var n := |report| - 1;
      HasRow(report[..n], images[..n], name);
      assert images == images[..n] + [images[n]];
    }
  }

  lemma {:induction false} OnlyRow(report: seq<ImageReport>, r: nat)
    requires r < |report| && forall q :: r < q < |report| ==> report[q].image != report[r].image
    ensures LastRow(report, report[r].image) == Some(report[r])
  {
    if r == |report| - 1 {
    } else {
      OnlyRow(report[..|report| - 1], r);
    }
  }

  // ---------- Whose file it is ----------

  // The file named after the picture is the picture's own.
  predicate OwnFile(pictures: seq<Picture>, i: nat, sources: map<string, string>, report: seq<ImageReport>)
    requires i < |pictures| && ProposalFiles.Sized(report)
  {
    var written := Written(pictures, sources, report);
    pictures[i].stem in written && Some(written[pictures[i].stem]) == CompletedFor(pictures[i], sources, report)
  }

  // A later reported picture has the same stem.
  predicate StemReused(pictures: seq<Picture>, i: nat, images: seq<string>)
    requires i < |pictures|
  {
    exists j :: i < j < |pictures| && pictures[j].stem == pictures[i].stem && pictures[j].name in images
  }

  predicate DifferentNames(pictures: seq<Picture>) {
    forall i, j :: 0 <= i < j < |pictures| ==> pictures[i].name != pictures[j].name
  }

  lemma {:induction false} LastIsOwn(pictures: seq<Picture>, i: nat, images: seq<string>, report: seq<ImageReport>)
    requires i < |pictures| && ReportsOn(report, images) && pictures[i].name in images
    ensures var l := LastWith(pictures, report, pictures[i].stem);
            && l < |pictures| && i <= l && pictures[l].stem == pictures[i].stem && pictures[l].name in images
            && (l == i <==> !StemReused(pictures, i, images))
  {
    forall j: nat | j < |pictures| ensures LastRow(report, pictures[j].name).Some? <==> pictures[j].name in images {
      HasRow(report, images, pictures[j].name);
    }
  }

  lemma OwnUnlessReused(pictures: seq<Picture>, i: nat, images: seq<string>, sources: map<string, string>,
                        report: seq<ImageReport>)
    requires i < |pictures| && ReportsOn(report, images) && pictures[i].name in images
    requires !StemReused(pictures, i, images)
    ensures OwnFile(pictures, i, sources, report)
  {
    LastIsOwn(pictures, i, images, report);
    WrittenExactly(pictures, sources, report, pictures[i].stem);
  }

  // A report that proposes a box for every image but one.
  function MarkedRow(name: string, own: string): ImageReport {
    ImageReport(name, 1, 1, 0, if name == own then [] else [Plain(0.0, 0.0, 1.0, 1.0, 1.0)])
  }

  function AllBut(images: seq<string>, own: string): (report: seq<ImageReport>)
    ensures ReportsOn(report, images)
    ensures forall r :: 0 <= r < |report| ==> report[r] == MarkedRow(images[r], own)
  {
    seq(|images|, r requires 0 <= r < |images| => MarkedRow(images[r], own))
  }

  lemma {:induction false} RowOfAllBut(images: seq<string>, own: string, name: string)
    requires name in images
    ensures LastRow(AllBut(images, own), name) == Some(MarkedRow(name, own))
  {
    var report, n := AllBut(images, own), |images| - 1;
    if images[n] == name {
    } else {
      assert report[..n] == AllBut(images[..n], own);
      assert images == images[..n] + [images[n]];
      RowOfAllBut(images[..n], own, name);
    }
  }

  lemma MoreProposalsDiffer(source: Option<string>, box: Box, frame: Frame)
    requires frame.Valid()
    ensures Unlines(CompletedLines(source, [box], frame)) != Unlines(CompletedLines(source, [], frame))
  {
    CompletedFileLines(source, [box], frame);
    CompletedFileLines(source, [], frame);
    assert |ProposalLines([box], frame)| == 1;
  }

  lemma LostWhenReused(pictures: seq<Picture>, i: nat, images: seq<string>, sources: map<string, string>)
    requires i < |pictures| && pictures[i].name in images && DifferentNames(pictures)
    requires StemReused(pictures, i, images)
    ensures !OwnFile(pictures, i, sources, AllBut(images, pictures[i].name))
  {
    var own := pictures[i].name;
    var report := AllBut(images, own);
    var l := LastWith(pictures, report, pictures[i].stem);
    LastIsOwn(pictures, i, images, report);
    WrittenExactly(pictures, sources, report, pictures[i].stem);
    RowOfAllBut(images, own, own);
    RowOfAllBut(images, own, pictures[l].name);
    MoreProposalsDiffer(SourceOf(sources, pictures[i].stem), Plain(0.0, 0.0, 1.0, 1.0, 1.0),
        FrameOf(MarkedRow(own, own)));
  }

  // A picture's file is its own, whatever is proposed for the reported images, exactly when no
  // later reported picture shares its stem.
  lemma OwnFileExactly(pictures: seq<Picture>, i: nat, images: seq<string>, sources: map<string, string>)
    requires i < |pictures| && pictures[i].name in images && DifferentNames(pictures)
    ensures (forall report :: ReportsOn(report, images) ==> OwnFile(pictures, i, sources, report))
            <==> !StemReused(pictures, i, images)
  {
    if StemReused(pictures, i, images) {
      LostWhenReused(pictures, i, images, sources);
    } else {
      forall report | ReportsOn(report, images) ensures OwnFile(pictures, i, sources, report) {
        OwnUnlessReused(pictures, i, images, sources, report);
      }
    }
  }

  // ---------- A frame's own file ----------

  predicate DifferentShots(shots: seq<Shot>) {
    forall a, b :: 0 <= a < b < |shots| ==> shots[a].name != shots[b].name
  }

  lemma {:induction false} SizedDiffer(shots: seq<Shot>)
    requires DifferentShots(shots)
    ensures DifferentShots(Proposals.Sized(shots))
  {
    if shots == [] {
    } else {
      var init := shots[..|shots| - 1];
      SizedDiffer(init);
      forall a | 0 <= a < |Proposals.Sized(init)| ensures Proposals.Sized(init)[a].name != shots[|shots| - 1].name {
        assert Proposals.Sized(init)[a] in init;
      }
    }
  }

  function Images(split: Split): (r: seq<string>)
    ensures |r| == |split.rows|
  {
    seq(|split.rows|, r requires 0 <= r < |split.rows| => split.rows[r].shot.name)
  }

  lemma ReportIsOn(shots: seq<Shot>, unsafe: set<string>, s: Settings)
    ensures var split := SplitOf(shots, unsafe, s); ReportsOn(Reports(split, |split.rows|), Images(split))
  {
  }

  lemma RowIsOwn(shots: seq<Shot>, unsafe: set<string>, s: Settings, r: nat)
    requires r < |SplitOf(shots, unsafe, s).rows| && DifferentShots(shots)
    ensures var split := SplitOf(shots, unsafe, s);
            LastRow(Reports(split, |split.rows|), split.rows[r].shot.name) == Some(ReportRow(shots, unsafe, s, r))
  {
    SizedDiffer(shots);
    var split := SplitOf(shots, unsafe, s);
    var report := Reports(split, |split.rows|);
    forall q | r < q < |report| ensures report[q].image != report[r].image {
      assert split.rows[q].shot == Proposals.Sized(shots)[q] && split.rows[r].shot == Proposals.Sized(shots)[r];
    }
    OnlyRow(report, r);
  }

  // What the split writes for the stem of a frame's picture.
  function WrittenFor(shots: seq<Shot>, unsafe: set<string>, s: Settings, pictures: seq<Picture>,
                      sources: map<string, string>): map<string, string> {
    ReportIsOn(shots, unsafe, s);
    var split := SplitOf(shots, unsafe, s);
    Written(pictures, sources, Reports(split, |split.rows|))
  }

  lemma FileIsCompletion(shots: seq<Shot>, unsafe: set<string>, s: Settings, r: nat,
                         pictures: seq<Picture>, i: nat, sources: map<string, string>)
    requires r < |SplitOf(shots, unsafe, s).rows| && DifferentShots(shots)
    requires i < |pictures| && pictures[i].name == SplitOf(shots, unsafe, s).rows[r].shot.name
    requires !StemReused(pictures, i, Images(SplitOf(shots, unsafe, s)))
    ensures var written := WrittenFor(shots, unsafe, s, pictures, sources);
            && pictures[i].stem in written
            && written[pictures[i].stem]
                == Completed(ReportRow(shots, unsafe, s, r), SourceOf(sources, pictures[i].stem))
  {
    var split := SplitOf(shots, unsafe, s);
    ReportIsOn(shots, unsafe, s);
    assert Images(split)[r] == pictures[i].name;
    OwnUnlessReused(pictures, i, Images(split), sources, Reports(split, |split.rows|));
    RowIsOwn(shots, unsafe, s, r);
  }

  // For images with different names, the file written for a frame's picture, unless a later
  // reported picture shares its stem, is the source's non-blank lines, unchanged and in order, and
  // then exactly that frame's proposals. When each view's boxes have their edges in order, it reads
  // back as the frame's labels, unchanged, and then its chosen boxes.
  lemma FramesOwnFile(shots: seq<Shot>, unsafe: set<string>, s: Settings, r: nat, pictures: seq<Picture>, i: nat,
                      sources: map<string, string>, other: string -> Option<real>)
    requires r < |SplitOf(shots, unsafe, s).rows| && DifferentShots(shots)
    requires i < |pictures| && pictures[i].name == SplitOf(shots, unsafe, s).rows[r].shot.name
    requires !StemReused(pictures, i, Images(SplitOf(shots, unsafe, s)))
    ensures var written, stem := WrittenFor(shots, unsafe, s, pictures, sources), pictures[i].stem;
            var frame, chosen := FrameOf(ReportRow(shots, unsafe, s, r)), ChosenIn(SplitOf(shots, unsafe, s), r);
            var existing := SplitOf(shots, unsafe, s).rows[r].shot.existing;
            && stem in written
            && Lines(written[stem]) == CompletedLines(SourceOf(sources, stem), AllCorners(chosen), frame)
            && (ViewsOrdered(SplitOf(shots, unsafe, s).rows[r].shot.views) &&
                ReadLabels(SourceOf(sources, stem), frame, other) == Some(existing) ==>
                  ReadsBack(ReadLabels(Some(written[stem]), frame, other), existing, chosen, frame))
  {
    FileIsCompletion(shots, unsafe, s, r, pictures, i, sources);
    var row, source := ReportRow(shots, unsafe, s, r), SourceOf(sources, pictures[i].stem);
    ReportRowIs(shots, unsafe, s, r);
    CompletedFileLines(source, row.proposals, FrameOf(row));
    if ViewsOrdered(SplitOf(shots, unsafe, s).rows[r].shot.views) &&
       ReadLabels(source, FrameOf(row), other) == Some(SplitOf(shots, unsafe, s).rows[r].shot.existing) {
      FileReadsBack(shots, unsafe, s, r, source, other);
    }
  }
}
