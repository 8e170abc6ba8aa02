/**
  Proposing the boxes a split's labels miss: what the views of a frame agree on and the labels do
  not have yet, less people, less what keeps firing in one place, less what does not move.
 */
module Proposals {
  import opened Boxes
  import opened Clusters
  import opened Persistence
  import opened Rounding
  import opened Wrappers

  datatype Settings = Settings(matchIou: real, minVotes: int, minScore: real, minMotion: real,
                               maxPersistence: real, personCover: real)

  // One image: its view of the field, the boxes each prediction gave, its labels, the people on it,
  // and the motion energy against its view's background, where one could be built.
  datatype Shot = Shot(name: string, group: string, width: nat, height: nat, views: seq<seq<Box>>,
                       existing: seq<Box>, people: seq<Box>, motion: Option<Box -> real>)

  datatype Candidate = Candidate(box: Box, motion: Option<real>)

  datatype Row = Row(shot: Shot, candidates: seq<Candidate>)

  function SamePlace(matchIou: real): Matching {
    (a: Box, b: Box) => Iou(a, b) >= matchIou
  }

  function CoveredBy(): (Box, Box) -> real {
    (box: Box, person: Box) => CoveredFraction(box, person)
  }

  // ---------- Pass 1: frame by frame ----------

  predicate Agreed(box: Box, s: Settings) {
    box.votes >= s.minVotes && box.score >= s.minScore
  }

  predicate Known(box: Box, existing: seq<Box>, same: Matching) {
    exists i :: 0 <= i < |existing| && same(box, existing[i])
  }

  // The largest fraction of the box some person covers reaches the limit.
  predicate OnPerson(box: Box, people: seq<Box>, covered: (Box, Box) -> real, limit: real) {
    exists i :: 0 <= i < |people| && covered(box, people[i]) >= limit
  }

  datatype Screening = Dropped | OnAPerson | Kept

  function Screen(box: Box, shot: Shot, s: Settings): Screening {
    if !Agreed(box, s) then Dropped
    else if Known(box, shot.existing, SamePlace(s.matchIou)) then Dropped
    else if OnPerson(box, shot.people, CoveredBy(), s.personCover) then OnAPerson
    else Kept
  }

  // Without a background, unknown.
  function Energy(shot: Shot, unsafe: set<string>, s: Settings, box: Box): Option<real> {
    if s.minMotion > 0.0 && shot.group !in unsafe && shot.motion.Some? then Some(shot.motion.value(box)) else None
  }

  function Screened(boxes: seq<Box>, shot: Shot, unsafe: set<string>, s: Settings): seq<Candidate> {
    if boxes == [] then [] else
      var box := boxes[|boxes| - 1];
      Screened(boxes[..|boxes| - 1], shot, unsafe, s)
      + if Screen(box, shot, s).Kept? then [Candidate(box, Energy(shot, unsafe, s, box))] else []
  }

  function ScreenedOut(boxes: seq<Box>, shot: Shot, s: Settings, why: Screening): nat {
    if boxes == [] then 0 else
      ScreenedOut(boxes[..|boxes| - 1], shot, s, why) + if Screen(boxes[|boxes| - 1], shot, s) == why then 1 else 0
  }

  function RowOf(shot: Shot, unsafe: set<string>, s: Settings): (row: Row)
    ensures row.shot == shot
  {
    Row(shot, Screened(ClusterVotes(shot.views, s.matchIou), shot, unsafe, s))
  }

  function PeopleIn(shot: Shot, s: Settings): nat {
    ScreenedOut(ClusterVotes(shot.views, s.matchIou), shot, s, OnAPerson)
  }

  // An image without a size was not read.
  predicate Sizeless(shot: Shot) {
    shot.width == 0 || shot.height == 0
  }

  function Sized(shots: seq<Shot>): (r: seq<Shot>)
    ensures forall i :: 0 <= i < |r| ==> r[i] in shots && !Sizeless(r[i])
  {
    if shots == [] then [] else
      Sized(shots[..|shots| - 1]) + if Sizeless(shots[|shots| - 1]) then [] else [shots[|shots| - 1]]
  }

  function Rows(shots: seq<Shot>, unsafe: set<string>, s: Settings): (rows: seq<Row>)
    ensures |rows| == |Sized(shots)|
    ensures forall r :: 0 <= r < |rows| ==> rows[r].shot == Sized(shots)[r]
  {
    seq(|Sized(shots)|, r requires 0 <= r < |Sized(shots)| => RowOf(Sized(shots)[r], unsafe, s))
  }

  lemma NextRow(shots: seq<Shot>, unsafe: set<string>, s: Settings, i: nat)
    requires i < |shots|
    ensures Rows(shots[..i + 1], unsafe, s)
            == Rows(shots[..i], unsafe, s) + if Sizeless(shots[i]) then [] else [RowOf(shots[i], unsafe, s)]
  {
    assert shots[..i + 1][..i] == shots[..i];
  }

  function People(shots: seq<Shot>, s: Settings): nat {
    if shots == [] then 0 else
      var shot := shots[|shots| - 1];
      People(shots[..|shots| - 1], s) + if Sizeless(shot) then 0 else PeopleIn(shot, s)
  }

  method ScreenFrame(shot: Shot, unsafe: set<string>, s: Settings) returns (row: Row, people: nat)
    ensures row == RowOf(shot, unsafe, s)
    ensures people == PeopleIn(shot, s)
  {
    var boxes := ClusterViews(shot.views, s.matchIou);
    var kept: seq<Candidate> := [];
    people := 0;
    for i := 0 to |boxes|
      invariant kept == Screened(boxes[..i], shot, unsafe, s)
      invariant people == ScreenedOut(boxes[..i], shot, s, OnAPerson)
    {
      assert boxes[..i + 1][..i] == boxes[..i];
      match Screen(boxes[i], shot, s)
      case Dropped =>
      case OnAPerson => people := people + 1;
      case Kept => kept := kept + [Candidate(boxes[i], Energy(shot, unsafe, s, boxes[i]))];
    }
    assert boxes[..|boxes|] == boxes;
    row := Row(shot, kept);
  }

  method ScreenFrames(shots: seq<Shot>, unsafe: set<string>, s: Settings) returns (rows: seq<Row>, people: nat)
    ensures rows == Rows(shots, unsafe, s) && people == People(shots, s)
  {
    rows, people := [], 0;
    for i := 0 to |shots|
      invariant rows == Rows(shots[..i], unsafe, s) && people == People(shots[..i], s)
    {
      assert shots[..i + 1][..i] == shots[..i];
      NextRow(shots, unsafe, s, i);
      if !Sizeless(shots[i]) {
        var row, rejected := ScreenFrame(shots[i], unsafe, s);
        rows, people := rows + [row], people + rejected;
      }
    }
    assert shots[..|shots|] == shots;
  }

  // ---------- Pass 2: across the frames of one view ----------

  function BoxesOf(row: Row): (r: seq<Box>)
    ensures |r| == |row.candidates|
  {
    seq(|row.candidates|, k requires 0 <= k < |row.candidates| => row.candidates[k].box)
  }

  // The candidates of a group's frames, frame by frame.
  function GroupRows(rows: seq<Row>, group: string): seq<seq<Box>> {
    if rows == [] then [] else
      GroupRows(rows[..|rows| - 1], group)
      + if rows[|rows| - 1].shot.group == group then [BoxesOf(rows[|rows| - 1])] else []
  }

  // Which of its group's frames a row is.
  function FrameIndex(rows: seq<Row>, r: nat): nat
    requires r < |rows|
  {
    |GroupRows(rows[..r], rows[r].shot.group)|
  }

  function SpotOf(rows: seq<Row>, r: nat, k: nat): Spot
    requires r < |rows|
  {
    Spot(FrameIndex(rows, r), k)
  }

  function CoverageAt(rows: seq<Row>, s: Settings, r: nat, k: nat): real
    requires r < |rows|
  {
    Coverage(GroupRows(rows, rows[r].shot.group), SamePlace(s.matchIou), SpotOf(rows, r, k))
  }

  // A row is the frame of its group that its index says.
  lemma {:induction false} FrameAt(rows: seq<Row>, r: nat)
    requires r < |rows|
    ensures FrameIndex(rows, r) < |GroupRows(rows, rows[r].shot.group)|
    ensures GroupRows(rows, rows[r].shot.group)[FrameIndex(rows, r)] == BoxesOf(rows[r])
  {
    var n := |rows| - 1;
    if r < n {
      assert rows[..n][..r] == rows[..r];
      FrameAt(rows[..n], r);
    }
  }

  // Every candidate's coverage lies above 0 and not above 1.
  lemma CoverageOfCandidate(rows: seq<Row>, s: Settings, r: nat, k: nat)
    requires r < |rows| && k < |rows[r].candidates|
    ensures 0.0 < CoverageAt(rows, s, r, k) <= 1.0
  {
    FrameAt(rows, r);
    CoverageInUnit(GroupRows(rows, rows[r].shot.group), SamePlace(s.matchIou), SpotOf(rows, r, k));
  }

  function GroupSizes(shots: seq<Shot>): map<string, nat> {
    if shots == [] then map[] else
      var sizes, group := GroupSizes(shots[..|shots| - 1]), shots[|shots| - 1].group;
      sizes[group := (if group in sizes then sizes[group] else 0) + 1]
  }

  method CountGroups(shots: seq<Shot>) returns (groups: map<string, nat>)
    ensures groups == GroupSizes(shots)
  {
    groups := map[];
    for i := 0 to |shots|
      invariant groups == GroupSizes(shots[..i])
    {
      assert shots[..i + 1][..i] == shots[..i];
      var group := shots[i].group;
      groups := groups[group := (if group in groups then groups[group] else 0) + 1];
    }
    assert shots[..|shots|] == shots;
  }

  method RowsOfGroup(rows: seq<Row>, group: string) returns (boxes: seq<seq<Box>>)
    ensures boxes == GroupRows(rows, group)
  {
    boxes := [];
    for i := 0 to |rows|
      invariant boxes == GroupRows(rows[..i], group)
    {
      assert rows[..i + 1][..i] == rows[..i];
      if rows[i].shot.group == group {
        boxes := boxes + [BoxesOf(rows[i])];
      }
    }
    assert rows[..|rows|] == rows;
  }

  ghost predicate CoversGroup(coverage: map<Spot, real>, boxes: seq<seq<Box>>, same: Matching) {
    && (forall spot :: spot in coverage <==> InRows(boxes, spot))
    && (forall spot :: spot in coverage ==> coverage[spot] == Coverage(boxes, same, spot))
  }

  // The coverages of every group's candidates; a group without a row has none.
  method CoverGroups(rows: seq<Row>, groups: set<string>, s: Settings)
    returns (persistence: map<string, map<Spot, real>>)
    ensures forall g :: g in groups && GroupRows(rows, g) != [] ==> g in persistence
    ensures forall g :: g in persistence ==> CoversGroup(persistence[g], GroupRows(rows, g), SamePlace(s.matchIou))
  {
    persistence := map[];
    var left := groups;
    while left != {}
      invariant left <= groups
      invariant forall g :: g in groups - left && GroupRows(rows, g) != [] ==> g in persistence
      invariant forall g :: g in persistence ==> CoversGroup(persistence[g], GroupRows(rows, g), SamePlace(s.matchIou))
      decreases left
    {
      var group :| group in left;
      left := left - {group};
      var boxes := RowsOfGroup(rows, group);
      if boxes != [] {
        var coverage := Coverages(boxes, SamePlace(s.matchIou));
        persistence := persistence[group := coverage];
      }
    }
  }

  // ---------- The verdicts ----------

  datatype Verdict = Persistent | Static | Proposed

  function Judge(coverage: real, motion: Option<real>, safe: bool, groupSize: nat, s: Settings): Verdict {
    if safe && s.maxPersistence > 0.0 && coverage >= s.maxPersistence && groupSize >= 8 then Persistent
    else if motion.Some? && motion.value < s.minMotion then Static
    else Proposed
  }

  // What the split's groups say of one row.
  datatype Context = Context(safe: bool, groupSize: nat, coverage: seq<real>)

  function VerdictAt(row: Row, context: Context, s: Settings, k: nat): Verdict
    requires k < |row.candidates| == |context.coverage|
  {
    Judge(context.coverage[k], row.candidates[k].motion, context.safe, context.groupSize, s)
  }

  function Chosen(row: Row, context: Context, s: Settings, n: nat): seq<Box>
    requires n <= |row.candidates| == |context.coverage|
  {
    if n == 0 then [] else
      Chosen(row, context, s, n - 1)
      + if VerdictAt(row, context, s, n - 1).Proposed? then [row.candidates[n - 1].box] else []
  }

  function CountOf(row: Row, context: Context, s: Settings, v: Verdict, n: nat): nat
    requires n <= |row.candidates| == |context.coverage|
  {
    if n == 0 then 0 else
      CountOf(row, context, s, v, n - 1) + if VerdictAt(row, context, s, n - 1) == v then 1 else 0
  }

  method JudgeRow(row: Row, context: Context, s: Settings)
    returns (proposals: seq<Box>, persistent: nat, still: nat)
    requires |row.candidates| == |context.coverage|
    ensures proposals == Chosen(row, context, s, |row.candidates|)
    ensures persistent == CountOf(row, context, s, Persistent, |row.candidates|)
    ensures still == CountOf(row, context, s, Static, |row.candidates|)
  {
    proposals, persistent, still := [], 0, 0;
    for k := 0 to |row.candidates|
      invariant proposals == Chosen(row, context, s, k)
      invariant persistent == CountOf(row, context, s, Persistent, k) && still == CountOf(row, context, s, Static, k)
    {
      match VerdictAt(row, context, s, k)
      case Persistent => persistent := persistent + 1;
      case Static => still := still + 1;
      case Proposed => proposals := proposals + [row.candidates[k].box];
    }
  }

  // ---------- The report ----------

  function ContextOf(rows: seq<Row>, groups: map<string, nat>, unsafe: set<string>, s: Settings, r: nat): (c: Context)
    requires r < |rows|
    ensures |c.coverage| == |rows[r].candidates|
  {
    var row := rows[r];
    Context(row.shot.group !in unsafe, if row.shot.group in groups then groups[row.shot.group] else 0,
            seq(|row.candidates|, k requires 0 <= k < |row.candidates| => CoverageAt(rows, s, r, k)))
  }

  datatype ImageReport = ImageReport(image: string, width: nat, height: nat, existing: nat, proposals: seq<Box>)

  // A proposal as the report keeps it: its corners to two decimals.
  function Corners(box: Box): Box {
    Plain(Hundredths(box.x1), Hundredths(box.y1), Hundredths(box.x2), Hundredths(box.y2), 0.0)
  }

  function AllCorners(boxes: seq<Box>): (r: seq<Box>)
    ensures |r| == |boxes|
  {
    seq(|boxes|, i requires 0 <= i < |boxes| => Corners(boxes[i]))
  }

  function ReportOf(row: Row, chosen: seq<Box>): ImageReport {
    ImageReport(row.shot.name, row.shot.width, row.shot.height, |row.shot.existing|, AllCorners(chosen))
  }

  datatype Split = Split(rows: seq<Row>, groups: map<string, nat>, unsafe: set<string>, settings: Settings)

  function SplitOf(shots: seq<Shot>, unsafe: set<string>, s: Settings): Split {
    Split(Rows(shots, unsafe, s), GroupSizes(shots), unsafe, s)
  }

  function ChosenIn(split: Split, r: nat): seq<Box>
    requires r < |split.rows|
  {
    Chosen(split.rows[r], ContextOf(split.rows, split.groups, split.unsafe, split.settings, r), split.settings,
           |split.rows[r].candidates|)
  }

  function CountIn(split: Split, r: nat, v: Verdict): nat
    requires r < |split.rows|
  {
    CountOf(split.rows[r], ContextOf(split.rows, split.groups, split.unsafe, split.settings, r), split.settings, v,
            |split.rows[r].candidates|)
  }

  function Reports(split: Split, n: nat): (r: seq<ImageReport>)
    requires n <= |split.rows|
    ensures |r| == n && forall k :: 0 <= k < n ==> r[k] == ReportOf(split.rows[k], ChosenIn(split, k))
  {
    seq(n, k requires 0 <= k < n => ReportOf(split.rows[k], ChosenIn(split, k)))
  }

  function TotalIn(split: Split, n: nat, v: Verdict): nat
    requires n <= |split.rows|
  {
    if n == 0 then 0 else TotalIn(split, n - 1, v) + CountIn(split, n - 1, v)
  }

  function Candidates(rows: seq<Row>, n: nat): nat
    requires n <= |rows|
  {
    if n == 0 then 0 else Candidates(rows, n - 1) + |rows[n - 1].candidates|
  }

  function Labels(rows: seq<Row>, n: nat): nat
    requires n <= |rows|
  {
    if n == 0 then 0 else Labels(rows, n - 1) + |rows[n - 1].shot.existing|
  }

  datatype Totals = Totals(tally: Tally, people: nat)

  method ContextFor(split: Split, persistence: map<string, map<Spot, real>>, r: nat) returns (context: Context)
    requires r < |split.rows|
    requires split.rows[r].shot.group in persistence
    requires CoversGroup(persistence[split.rows[r].shot.group], GroupRows(split.rows, split.rows[r].shot.group),
                         SamePlace(split.settings.matchIou))
    ensures context == ContextOf(split.rows, split.groups, split.unsafe, split.settings, r)
  {
    var row := split.rows[r];
    var spots := persistence[row.shot.group];
    var coverage: seq<real> := [];
    FrameAt(split.rows, r);
    var frame := FrameIndex(split.rows, r);
    for k := 0 to |row.candidates|
      invariant |coverage| == k
      invariant forall j :: 0 <= j < k ==> coverage[j] == CoverageAt(split.rows, split.settings, r, j)
    {
      assert InRows(GroupRows(split.rows, row.shot.group), Spot(frame, k));
      coverage := coverage + [spots[Spot(frame, k)]];
    }
    context := Context(row.shot.group !in split.unsafe,
                       if row.shot.group in split.groups then split.groups[row.shot.group] else 0, coverage);
  }

  lemma {:induction false} GroupCounted(shots: seq<Shot>, shot: Shot)
    requires shot in shots
    ensures shot.group in GroupSizes(shots)
  {
    if shot in shots[..|shots| - 1] {
      GroupCounted(shots[..|shots| - 1], shot);
    }
  }

  predicate GroupsKnown(split: Split, groups: set<string>) {
    forall r :: 0 <= r < |split.rows| ==> split.rows[r].shot.group in groups
  }

  ghost predicate CoversSplit(split: Split, persistence: map<string, map<Spot, real>>) {
    forall g :: g in persistence ==>
      CoversGroup(persistence[g], GroupRows(split.rows, g), SamePlace(split.settings.matchIou))
  }

  lemma NextReport(split: Split, r: nat)
    requires r < |split.rows|
    ensures Reports(split, r + 1) == Reports(split, r) + [ReportOf(split.rows[r], ChosenIn(split, r))]
  {
    var before, after, last := Reports(split, r), Reports(split, r + 1), ReportOf(split.rows[r], ChosenIn(split, r));
    assert after[r] == last;
    assert after[..r] == before;
    assert after == after[..r] + [after[r]];
  }

  datatype Tally = Tally(labels: nat, proposed: nat, persistent: nat, still: nat)

  function Tallied(split: Split, n: nat): Tally
    requires n <= |split.rows|
  {
    Tally(Labels(split.rows, n), TotalIn(split, n, Proposed), TotalIn(split, n, Persistent), TotalIn(split, n, Static))
  }

  lemma NextTally(split: Split, r: nat)
    requires r < |split.rows|
    ensures var before := Tallied(split, r);
            Tallied(split, r + 1) ==
            Tally(before.labels + |split.rows[r].shot.existing|, before.proposed + CountIn(split, r, Proposed),
                  before.persistent + CountIn(split, r, Persistent), before.still + CountIn(split, r, Static))
  {
  }

  method JudgeRows(split: Split, persistence: map<string, map<Spot, real>>)
    returns (report: seq<ImageReport>, tally: Tally)
    requires GroupsKnown(split, persistence.Keys) && CoversSplit(split, persistence)
    ensures report == Reports(split, |split.rows|) && tally == Tallied(split, |split.rows|)
  {
    report, tally := [], Tally(0, 0, 0, 0);
    for r := 0 to |split.rows|
      invariant report == Reports(split, r) && tally == Tallied(split, r)
    {
      var proposals, persistent, still := JudgeFrame(split, persistence, r);
      NextReport(split, r);
      NextTally(split, r);
      report := report + [ReportOf(split.rows[r], proposals)];
      tally := Tally(tally.labels + |split.rows[r].shot.existing|, tally.proposed + |proposals|,
                     tally.persistent + persistent, tally.still + still);
    }
  }

  method JudgeFrame(split: Split, persistence: map<string, map<Spot, real>>, r: nat)
    returns (proposals: seq<Box>, persistent: nat, still: nat)
    requires r < |split.rows| && GroupsKnown(split, persistence.Keys) && CoversSplit(split, persistence)
    ensures proposals == ChosenIn(split, r) && |proposals| == CountIn(split, r, Proposed)
    ensures persistent == CountIn(split, r, Persistent) && still == CountIn(split, r, Static)
  {
    var context := ContextFor(split, persistence, r);
    proposals, persistent, still := JudgeRow(split.rows[r], context, split.settings);
    RowCountedOnce(split, r);
  }

  lemma GroupsCovered(split: Split, shots: seq<Shot>, covered: set<string>)
    requires split == SplitOf(shots, split.unsafe, split.settings)
    requires forall g :: g in split.groups && GroupRows(split.rows, g) != [] ==> g in covered
    ensures GroupsKnown(split, covered)
  {
    forall r | 0 <= r < |split.rows| ensures split.rows[r].shot.group in covered {
      GroupCounted(shots, split.rows[r].shot);
      FrameAt(split.rows, r);
    }
  }

  method ProcessSplit(shots: seq<Shot>, unsafe: set<string>, s: Settings)
    returns (report: seq<ImageReport>, totals: Totals)
    ensures var split := SplitOf(shots, unsafe, s);
            var n := |split.rows|;
            report == Reports(split, n) && totals == Totals(Tallied(split, n), People(shots, s))
  {
    var groups := CountGroups(shots);
    var rows, people := ScreenFrames(shots, unsafe, s);
    var persistence := CoverGroups(rows, groups.Keys, s);
    var split := Split(rows, groups, unsafe, s);
    GroupsCovered(split, shots, persistence.Keys);
    var tally;
    report, tally := JudgeRows(split, persistence);
    totals := Totals(tally, people);
  }

  // ---------- Every candidate is counted exactly once ----------

  lemma {:induction false} ProposedAreChosen(row: Row, context: Context, s: Settings, n: nat)
    requires n <= |row.candidates| == |context.coverage|
    ensures |Chosen(row, context, s, n)| == CountOf(row, context, s, Proposed, n)
    ensures CountOf(row, context, s, Proposed, n) + CountOf(row, context, s, Persistent, n)
            + CountOf(row, context, s, Static, n) == n
  {
    if n == 0 {
    } else {
      ProposedAreChosen(row, context, s, n - 1);
    }
  }

  lemma {:induction false} ScreeningsCounted(boxes: seq<Box>, shot: Shot, unsafe: set<string>, s: Settings)
    ensures |Screened(boxes, shot, unsafe, s)| + ScreenedOut(boxes, shot, s, OnAPerson)
            + ScreenedOut(boxes, shot, s, Dropped) == |boxes|
  {
    if boxes == [] {
    } else {
      ScreeningsCounted(boxes[..|boxes| - 1], shot, unsafe, s);
    }
  }

  lemma RowCountedOnce(split: Split, r: nat)
    requires r < |split.rows|
    ensures |ChosenIn(split, r)| == CountIn(split, r, Proposed)
    ensures CountIn(split, r, Proposed) + CountIn(split, r, Persistent) + CountIn(split, r, Static)
            == |split.rows[r].candidates|
  {
    ProposedAreChosen(split.rows[r], ContextOf(split.rows, split.groups, split.unsafe, split.settings, r),
                      split.settings, |split.rows[r].candidates|);
  }

  // Every candidate pass 1 kept is counted exactly once: proposed, rejected as persistent or
  // rejected as static.
  lemma {:induction false} EveryCandidateCountedOnce(split: Split, n: nat)
    requires n <= |split.rows|
    ensures TotalIn(split, n, Proposed) + TotalIn(split, n, Persistent) + TotalIn(split, n, Static)
            == Candidates(split.rows, n)
  {
    if n == 0 {
    } else {
      EveryCandidateCountedOnce(split, n - 1);
      RowCountedOnce(split, n - 1);
    }
  }

  // ---------- Which boxes are proposed ----------

  lemma {:induction false} ScreenedExactly(boxes: seq<Box>, shot: Shot, unsafe: set<string>, s: Settings, c: Candidate)
    ensures c in Screened(boxes, shot, unsafe, s) <==>
            c.box in boxes && Screen(c.box, shot, s).Kept? && c.motion == Energy(shot, unsafe, s, c.box)
  {
    if boxes == [] {
    } else {
      var init, box := boxes[..|boxes| - 1], boxes[|boxes| - 1];
      ScreenedExactly(init, shot, unsafe, s, c);
      assert boxes == init + [box];
    }
  }

  lemma {:induction false} ChosenExactly(row: Row, context: Context, s: Settings, n: nat, box: Box)
    requires n <= |row.candidates| == |context.coverage|
    ensures box in Chosen(row, context, s, n) <==>
            exists k :: 0 <= k < n && row.candidates[k].box == box && VerdictAt(row, context, s, k).Proposed?
  {
    if n == 0 {
    } else {
      ChosenExactly(row, context, s, n - 1, box);
    }
  }

  lemma RowAt(shots: seq<Shot>, unsafe: set<string>, s: Settings, r: nat)
    requires r < |Rows(shots, unsafe, s)|
    ensures var row := Rows(shots, unsafe, s)[r]; row == RowOf(row.shot, unsafe, s) && row.shot in shots
  {
  }

  // A proposal is a box enough views agree on, that no label has at the match IoU, that no person
  // covers, and that moves where motion is known.
  predicate Proposable(box: Box, shot: Shot, unsafe: set<string>, s: Settings) {
    && box in ClusterVotes(shot.views, s.matchIou) && Agreed(box, s)
    && (forall i :: 0 <= i < |shot.existing| ==> !SamePlace(s.matchIou)(box, shot.existing[i]))
    && (forall i :: 0 <= i < |shot.people| ==> CoveredBy()(box, shot.people[i]) < s.personCover)
    && (Energy(shot, unsafe, s, box).Some? ==> Energy(shot, unsafe, s, box).value >= s.minMotion)
  }

  // ... and is proposed exactly when its coverage is no veto.
  predicate Vetoed(split: Split, r: nat, k: nat)
    requires r < |split.rows|
  {
    var row := split.rows[r];
    && row.shot.group !in split.unsafe && split.settings.maxPersistence > 0.0
    && CoverageAt(split.rows, split.settings, r, k) >= split.settings.maxPersistence
    && row.shot.group in split.groups && split.groups[row.shot.group] >= 8
  }

  lemma KeptMeans(box: Box, shot: Shot, s: Settings)
    ensures Screen(box, shot, s).Kept? <==>
            && Agreed(box, s)
            && (forall i :: 0 <= i < |shot.existing| ==> !SamePlace(s.matchIou)(box, shot.existing[i]))
            && (forall i :: 0 <= i < |shot.people| ==> CoveredBy()(box, shot.people[i]) < s.personCover)
  {
  }

  lemma VerdictMeans(split: Split, r: nat, k: nat)
    requires r < |split.rows| && k < |split.rows[r].candidates|
    ensures var motion := split.rows[r].candidates[k].motion;
            VerdictAt(split.rows[r], ContextOf(split.rows, split.groups, split.unsafe, split.settings, r),
                split.settings, k).Proposed?
            <==> !Vetoed(split, r, k) && (motion.Some? ==> motion.value >= split.settings.minMotion)
  {
  }

  lemma ProposedExactly(shots: seq<Shot>, unsafe: set<string>, s: Settings, r: nat, box: Box)
    requires r < |SplitOf(shots, unsafe, s).rows|
    ensures var split := SplitOf(shots, unsafe, s);
            box in ChosenIn(split, r) <==>
            Proposable(box, split.rows[r].shot, unsafe, s) &&
            exists k :: 0 <= k < |split.rows[r].candidates| && split.rows[r].candidates[k].box == box &&
                !Vetoed(split, r, k)
  {
    var split := SplitOf(shots, unsafe, s);
    var row := split.rows[r];
    RowAt(shots, unsafe, s, r);
    ChosenExactly(row, ContextOf(split.rows, split.groups, split.unsafe, s, r), s, |row.candidates|, box);
    forall k | 0 <= k < |row.candidates| && row.candidates[k].box == box
      ensures Proposable(box, row.shot, unsafe, s) && !Vetoed(split, r, k) <==>
              VerdictAt(row, ContextOf(split.rows, split.groups, split.unsafe, s, r), s, k).Proposed?
    {
      CandidateProposable(row, unsafe, s, k);
      VerdictMeans(split, r, k);
    }
  }

  lemma CandidateProposable(row: Row, unsafe: set<string>, s: Settings, k: nat)
    requires row == RowOf(row.shot, unsafe, s) && k < |row.candidates|
    ensures var c := row.candidates[k];
            && c.motion == Energy(row.shot, unsafe, s, c.box)
            && (Proposable(c.box, row.shot, unsafe, s) <==> (c.motion.Some? ==> c.motion.value >= s.minMotion))
  {
    var c := row.candidates[k];
    ScreenedExactly(ClusterVotes(row.shot.views, s.matchIou), row.shot, unsafe, s, c);
    KeptMeans(c.box, row.shot, s);
  }
}
