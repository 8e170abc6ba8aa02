/** Label files: one line per box, in fractions of the image, with six decimals. */
module LabelFile {
  import opened Wrappers
  import opened Rounding
  import opened Boxes
  import opened LabelText

  // An image's size. Any positive one.
  datatype Frame = Frame(width: real, height: real) {
    predicate Valid() {
      width > 0.0 && height > 0.0
    }
  }

  datatype Axis = Horizontal | Vertical

  function Size(frame: Frame, axis: Axis): real {
    if axis.Horizontal? then frame.width else frame.height
  }

  function Lo(b: Box, axis: Axis): real {
    if axis.Horizontal? then b.x1 else b.y1
  }

  function Hi(b: Box, axis: Axis): real {
    if axis.Horizontal? then b.x2 else b.y2
  }

  // ---------- Printing ----------

  function Clip(x: real, hi: real): real {
    Min(Max(x, 0.0), hi)
  }

  // The centre and the length of a span clipped to the image, as fractions of it.
  function Centre(a: real, b: real, size: real): real
    requires size > 0.0
  {
    ((Clip(a, size) + Clip(b, size)) / 2.0) / size
  }

  function Length(a: real, b: real, size: real): real
    requires size > 0.0
  {
    (Clip(b, size) - Clip(a, size)) / size
  }

  // A line's four numbers: the two centres, then the two lengths.
  function Number(box: Box, frame: Frame, i: nat): real
    requires frame.Valid()
  {
    var axis := if i % 2 == 0 then Horizontal else Vertical;
    if i < 2 then Centre(Lo(box, axis), Hi(box, axis), Size(frame, axis))
    else Length(Lo(box, axis), Hi(box, axis), Size(frame, axis))
  }

  // A number clamped to [0, 1] and printed with six decimals, as a count of millionths.
  function FractionMicros(x: real): (m: nat)
    ensures m <= 1000000
    ensures 0.0 <= x <= 1.0 ==> Rounds(m, x)
  {
    Micros(Clip(x, 1.0))
  }

  function InMillionths(box: Box, frame: Frame): (ms: seq<nat>)
    requires frame.Valid()
    ensures |ms| == 4 && forall i :: 0 <= i < 4 ==> ms[i] <= 1000000
  {
    seq(4, i requires 0 <= i < 4 => FractionMicros(Number(box, frame, i)))
  }

  function Fields(ms: seq<nat>): string {
    if ms == [] then "" else " " + Print6(ms[0]) + Fields(ms[1..])
  }

  function ToYoloLine(box: Box, frame: Frame): string
    requires frame.Valid()
  {
    "0" + Fields(InMillionths(box, frame))
  }

  // ---------- Reading ----------

  type NumberReader = string -> Option<real>

  function Float(other: string -> Option<real>): NumberReader {
    word => ReadNumber(word, other)
  }

  // float() of each word, or None when one of them is no number.
  function ReadNumbers(words: seq<string>, float: NumberReader): (r: Option<seq<real>>)
    ensures r.Some? ==> |r.value| == |words|
  {
    if words == [] then Some([]) else
      match (float(words[0]), ReadNumbers(words[1..], float))
      case (Some(x), Some(xs)) => Some([x] + xs)
      case _ => None
  }

  function LowEdge(centre: real, length: real, size: real): real {
    (centre - length / 2.0) * size
  }

  function HighEdge(centre: real, length: real, size: real): real {
    (centre + length / 2.0) * size
  }

  function FromYolo(v: seq<real>, frame: Frame): Box
    requires |v| == 4
  {
    Plain(LowEdge(v[0], v[2], frame.width), LowEdge(v[1], v[3], frame.height),
          HighEdge(v[0], v[2], frame.width), HighEdge(v[1], v[3], frame.height), 1.0)
  }

  // What a line says: nothing when it has fewer than five words, a ValueError when one of the four
  // numbers is none.
  datatype Line = Skipped | Labelled(box: Box) | Invalid

  function ReadLine(line: string, frame: Frame, other: string -> Option<real>): Line {
    var parts := Words(line);
    if |parts| < 5 then Skipped else
      match ReadNumbers(parts[1..5], Float(other))
      case Some(v) => Labelled(FromYolo(v, frame))
      case None => Invalid
  }

  function Extended(boxes: Option<seq<Box>>, line: Line): Option<seq<Box>> {
    if boxes.None? || line.Invalid? then None
    else if line.Skipped? then boxes
    else Some(boxes.value + [line.box])
  }

  // How lines are read, for one image.
  type Reader = string -> Line

  function LineReader(frame: Frame, other: string -> Option<real>): Reader {
    line => ReadLine(line, frame, other)
  }

  // None stands for the ValueError.
  function ReadLines(lines: seq<string>, read: Reader): Option<seq<Box>> {
    if lines == [] then Some([]) else Extended(ReadLines(lines[..|lines| - 1], read), read(lines[|lines| - 1]))
  }

  function SourceLines(file: Option<string>): seq<string> {
    if file.Some? then Lines(file.value) else []
  }

  // A missing file has no labels.
  function ReadLabels(file: Option<string>, frame: Frame, other: string -> Option<real>): Option<seq<Box>> {
    ReadLines(SourceLines(file), LineReader(frame, other))
  }

  lemma {:induction false} NextLine(lines: seq<string>, i: nat, read: Reader)
    requires i < |lines|
    ensures ReadLines(lines[..i + 1], read) == Extended(ReadLines(lines[..i], read), read(lines[i]))
  {
    assert lines[..i + 1][..i] == lines[..i];
  }

  method ReadLabelFile(file: Option<string>, frame: Frame, other: string -> Option<real>)
    returns (boxes: Option<seq<Box>>)
    ensures boxes == ReadLabels(file, frame, other)
  {
    if file.None? {
      return Some([]);
    }
    var lines := Lines(file.value);
    var read := LineReader(frame, other);
    var out: seq<Box> := [];
    for i := 0 to |lines|
      invariant ReadLines(lines[..i], read) == Some(out)
    {
      NextLine(lines, i, read);
      var line := read(lines[i]);
      match line
      case Skipped =>
      case Labelled(box) => out := out + [box];
      case Invalid =>
        InvalidLine(lines, i, read);
        return None;
    }
    assert lines[..|lines|] == lines;
    boxes := Some(out);
  }

  // One unreadable line refuses the whole file.
  lemma {:induction false} InvalidLine(lines: seq<string>, i: nat, read: Reader)
    requires i < |lines| && read(lines[i]).Invalid?
    ensures ReadLines(lines, read).None?
  {
    if i < |lines| - 1 {
      InvalidLine(lines[..|lines| - 1], i, read);
    }
  }

  // ---------- How far printing and reading moves an edge ----------

  function Fraction(m: nat): real {
    m as real / 1000000.0
  }

  predicate Rounds(m: nat, x: real) {
    -0.0000005 <= x - Fraction(m) <= 0.0000005
  }

  predicate Near(x: real, y: real, size: real) {
    -0.00000075 * size <= x - y <= 0.00000075 * size
  }

  // Each edge is where it was, clipped to the image, within three quarters of a millionth of it.
  predicate SameBox(read: Box, box: Box, frame: Frame) {
    && read.score == 1.0
    && (forall axis: Axis :: Near(Lo(read, axis), Clip(Lo(box, axis), Size(frame, axis)), Size(frame, axis)))
    && (forall axis: Axis :: Near(Hi(read, axis), Clip(Hi(box, axis), Size(frame, axis)), Size(frame, axis)))
  }

  // A line that reads as the box it was printed from.
  predicate Faithful(line: Line, box: Box, frame: Frame) {
    line.Labelled? && SameBox(line.box, box, frame)
  }

  predicate Ordered(box: Box) {
    box.x1 <= box.x2 && box.y1 <= box.y2
  }

  lemma Spread(m: real, n: real, size: real)
    ensures (m - n / 2.0) * size == m * size - n * size / 2.0
    ensures (m + n / 2.0) * size == m * size + n * size / 2.0
  {
  }

  lemma DifferenceScaled(x: real, y: real, size: real)
    ensures (x - y) * size == x * size - y * size
  {
  }

  // A fraction known to within an error, scaled to the image.
  lemma ErrorScaled(x: real, y: real, at: real, size: real, error: real)
    requires size > 0.0 && y * size == at && -error <= x - y <= error
    ensures -(error * size) <= x * size - at <= error * size
  {
    ScaledOrder(-error, x - y, size);
    ScaledOrder(x - y, error, size);
    DifferenceScaled(x, y, size);
  }

  // The edges of a span given by its centre `m` and length `n`, in fractions of `size`.
  lemma EdgesNear(a: real, b: real, size: real, m: real, n: real, c: real, l: real)
    requires size > 0.0 && m * size == (a + b) / 2.0 && n * size == b - a
    requires -0.0000005 <= m - c <= 0.0000005 && -0.0000005 <= n - l <= 0.0000005
    ensures Near((c - l / 2.0) * size, a, size) && Near((c + l / 2.0) * size, b, size)
  {
    Spread(m, n, size);
    ErrorScaled(c - l / 2.0, m - n / 2.0, a, size, 0.00000075);
    ErrorScaled(c + l / 2.0, m + n / 2.0, b, size, 0.00000075);
  }

  // The span from `a` to `b` has its centre and length within half a millionth of `c` and `l`.
  ghost predicate SpanOf(c: nat, l: nat, a: real, b: real, size: real) {
    exists x: real, y: real ::
      Rounds(c, x) && Rounds(l, y) && x * size == (a + b) / 2.0 && y * size == b - a
  }

  lemma CentreInUnit(a: real, b: real, size: real)
    requires size > 0.0
    ensures 0.0 <= Centre(a, b, size) <= 1.0
    ensures Centre(a, b, size) * size == (Clip(a, size) + Clip(b, size)) / 2.0
  {
    QuotientInUnit((Clip(a, size) + Clip(b, size)) / 2.0, size);
  }

  lemma LengthInUnit(a: real, b: real, size: real)
    requires size > 0.0 && a <= b
    ensures 0.0 <= Length(a, b, size) <= 1.0
    ensures Length(a, b, size) * size == Clip(b, size) - Clip(a, size)
  {
    QuotientInUnit(Clip(b, size) - Clip(a, size), size);
  }

  lemma FractionRounds(x: real)
    requires 0.0 <= x <= 1.0
    ensures Rounds(FractionMicros(x), x)
  {
  }

  lemma SpanFrom(c: nat, l: nat, x: real, y: real, a: real, b: real, size: real)
    requires Rounds(c, x) && Rounds(l, y) && x * size == (a + b) / 2.0 && y * size == b - a
    ensures SpanOf(c, l, a, b, size)
  {
  }

  lemma RoundedSpan(x: real, y: real, a: real, b: real, size: real)
    requires 0.0 <= x <= 1.0 && 0.0 <= y <= 1.0 && x * size == (a + b) / 2.0 && y * size == b - a
    ensures SpanOf(FractionMicros(x), FractionMicros(y), a, b, size)
  {
    FractionRounds(x);
    FractionRounds(y);
    SpanFrom(FractionMicros(x), FractionMicros(y), x, y, a, b, size);
  }

  lemma PrintedSpan(a: real, b: real, size: real)
    requires size > 0.0 && a <= b
    ensures SpanOf(FractionMicros(Centre(a, b, size)), FractionMicros(Length(a, b, size)),
                   Clip(a, size), Clip(b, size), size)
  {
    CentreInUnit(a, b, size);
    LengthInUnit(a, b, size);
    RoundedSpan(Centre(a, b, size), Length(a, b, size), Clip(a, size), Clip(b, size), size);
  }

  lemma RoundedEdgesNear(c: nat, l: nat, x: real, y: real, a: real, b: real, size: real)
    requires size > 0.0 && Rounds(c, x) && Rounds(l, y) && x * size == (a + b) / 2.0 && y * size == b - a
    ensures Near(LowEdge(Fraction(c), Fraction(l), size), a, size)
    ensures Near(HighEdge(Fraction(c), Fraction(l), size), b, size)
  {
    EdgesNear(a, b, size, x, y, Fraction(c), Fraction(l));
  }

  lemma SpanNear(c: nat, l: nat, a: real, b: real, size: real)
    requires size > 0.0 && SpanOf(c, l, a, b, size)
    ensures Near(LowEdge(Fraction(c), Fraction(l), size), a, size)
    ensures Near(HighEdge(Fraction(c), Fraction(l), size), b, size)
  {
    var x: real, y: real :|
      Rounds(c, x) && Rounds(l, y) && x * size == (a + b) / 2.0 && y * size == b - a;
    RoundedEdgesNear(c, l, x, y, a, b, size);
  }

  function Fractions(ms: seq<nat>): (r: seq<real>)
    ensures |r| == |ms|
  {
    seq(|ms|, i requires 0 <= i < |ms| => Fraction(ms[i]))
  }

  // Where the axis's centre stands on a line.
  function At(axis: Axis): nat {
    if axis.Horizontal? then 0 else 1
  }

  lemma MillionthsAreSpans(box: Box, frame: Frame, axis: Axis)
    requires frame.Valid() && Ordered(box)
    ensures SpanOf(InMillionths(box, frame)[At(axis)], InMillionths(box, frame)[At(axis) + 2],
                   Clip(Lo(box, axis), Size(frame, axis)), Clip(Hi(box, axis), Size(frame, axis)), Size(frame, axis))
  {
    PrintedSpan(Lo(box, axis), Hi(box, axis), Size(frame, axis));
  }

  lemma EdgesRead(v: seq<real>, frame: Frame, axis: Axis)
    requires |v| == 4
    ensures Lo(FromYolo(v, frame), axis) == LowEdge(v[At(axis)], v[At(axis) + 2], Size(frame, axis))
    ensures Hi(FromYolo(v, frame), axis) == HighEdge(v[At(axis)], v[At(axis) + 2], Size(frame, axis))
  {
  }

  lemma AxisNear(ms: seq<nat>, frame: Frame, axis: Axis, read: Box, a: real, b: real)
    requires frame.Valid() && |ms| == 4 && read == FromYolo(Fractions(ms), frame)
    requires SpanOf(ms[At(axis)], ms[At(axis) + 2], a, b, Size(frame, axis))
    ensures Near(Lo(read, axis), a, Size(frame, axis)) && Near(Hi(read, axis), b, Size(frame, axis))
  {
    SpanNear(ms[At(axis)], ms[At(axis) + 2], a, b, Size(frame, axis));
    EdgesRead(Fractions(ms), frame, axis);
  }

  // ---------- Printing and reading back ----------

  function PrintAll(ms: seq<nat>): (r: seq<string>)
    ensures |r| == |ms|
  {
    seq(|ms|, i requires 0 <= i < |ms| => Print6(ms[i]))
  }

  lemma PrintAllCons(m: nat, ms: seq<nat>)
    ensures PrintAll([m] + ms) == [Print6(m)] + PrintAll(ms)
  {
  }

  lemma {:induction false} NextWord(word: string, rest: string)
    requires IsWord(word) && (rest == "" || IsSpace(rest[0]))
    ensures Words(" " + word + rest) == [word] + Words(rest)
  {
    assert (" " + word + rest)[1..] == word + rest;
    FirstWord(word, rest);
  }

  lemma {:induction false} FieldsAreALine(ms: seq<nat>)
    ensures OneLine(Fields(ms)) && (Fields(ms) == "" || IsSpace(Fields(ms)[0]))
  {
    if ms == [] {
    } else {
      FieldsAreALine(ms[1..]);
      PrintedIsWord(ms[0]);
    }
  }

  lemma {:induction false} FieldsAreWords(ms: seq<nat>)
    ensures Words(Fields(ms)) == PrintAll(ms)
  {
    if ms == [] {
    } else {
      FieldsAreWords(ms[1..]);
      FieldsAreALine(ms[1..]);
      PrintedIsWord(ms[0]);
      NextWord(Print6(ms[0]), Fields(ms[1..]));
      PrintAllCons(ms[0], ms[1..]);
      assert ms == [ms[0]] + ms[1..];
    }
  }

  lemma {:induction false} AllRead(words: seq<string>, xs: seq<real>, float: NumberReader)
    requires |words| == |xs| && forall i :: 0 <= i < |words| ==> float(words[i]) == Some(xs[i])
    ensures ReadNumbers(words, float) == Some(xs)
  {
    if words == [] {
    } else {
      AllRead(words[1..], xs[1..], float);
      assert xs == [xs[0]] + xs[1..];
    }
  }

  lemma FloatOfPrinted(m: nat, other: string -> Option<real>)
    requires m <= 1000000
    ensures Float(other)(Print6(m)) == Some(Fraction(m))
  {
    PrintedIsRead(m, other);
  }

  lemma PrintedAt(ms: seq<nat>, i: nat)
    requires i < |ms|
    ensures PrintAll(ms)[i] == Print6(ms[i]) && Fractions(ms)[i] == Fraction(ms[i])
  {
  }

  lemma PrintedWordIsRead(ms: seq<nat>, i: nat, float: NumberReader)
    requires i < |ms| && float(Print6(ms[i])) == Some(Fraction(ms[i]))
    ensures float(PrintAll(ms)[i]) == Some(Fractions(ms)[i])
  {
    PrintedAt(ms, i);
  }

  lemma PrintedAreRead(ms: seq<nat>, other: string -> Option<real>)
    requires forall i :: 0 <= i < |ms| ==> ms[i] <= 1000000
    ensures ReadNumbers(PrintAll(ms), Float(other)) == Some(Fractions(ms))
  {
    forall i | 0 <= i < |ms| ensures Float(other)(PrintAll(ms)[i]) == Some(Fractions(ms)[i]) {
      FloatOfPrinted(ms[i], other);
      PrintedWordIsRead(ms, i, Float(other));
    }
    AllRead(PrintAll(ms), Fractions(ms), Float(other));
  }

  lemma {:induction false} ClassAndFields(rest: string)
    requires rest == "" || IsSpace(rest[0])
    ensures Words("0" + rest) == ["0"] + Words(rest)
  {
    FirstWord("0", rest);
  }

  lemma ClassAndLine(rest: string)
    requires OneLine(rest)
    ensures OneLine("0" + rest)
  {
  }

  lemma {:induction false} LineWords(ms: seq<nat>)
    ensures Words("0" + Fields(ms)) == ["0"] + PrintAll(ms) && OneLine("0" + Fields(ms))
  {
    FieldsAreWords(ms);
    FieldsAreALine(ms);
    ClassAndFields(Fields(ms));
    ClassAndLine(Fields(ms));
  }

  lemma {:induction false} LineIsRead(ms: seq<nat>, frame: Frame, other: string -> Option<real>)
    requires |ms| == 4 && forall i :: 0 <= i < |ms| ==> ms[i] <= 1000000
    ensures ReadLine("0" + Fields(ms), frame, other) == Labelled(FromYolo(Fractions(ms), frame))
    ensures OneLine("0" + Fields(ms))
  {
    LineWords(ms);
    assert (["0"] + PrintAll(ms))[1..5] == PrintAll(ms);
    PrintedAreRead(ms, other);
  }

  lemma MillionthsRead(ms: seq<nat>, box: Box, frame: Frame)
    requires frame.Valid() && Ordered(box) && ms == InMillionths(box, frame)
    ensures SameBox(FromYolo(Fractions(ms), frame), box, frame)
  {
    var read := FromYolo(Fractions(ms), frame);
    forall axis: Axis
      ensures Near(Lo(read, axis), Clip(Lo(box, axis), Size(frame, axis)), Size(frame, axis))
      ensures Near(Hi(read, axis), Clip(Hi(box, axis), Size(frame, axis)), Size(frame, axis))
    {
      MillionthsAreSpans(box, frame, axis);
      AxisNear(ms, frame, axis, read, Clip(Lo(box, axis), Size(frame, axis)), Clip(Hi(box, axis), Size(frame, axis)));
    }
  }

  // A box with its edges in order, printed and read back, is the box clipped to the image, each
  // edge within 0.75 millionths of the image's width or height.
  lemma PrintedBoxIsRead(box: Box, frame: Frame, other: string -> Option<real>)
    requires frame.Valid() && Ordered(box)
    ensures Faithful(ReadLine(ToYoloLine(box, frame), frame, other), box, frame)
  {
    LineIsRead(InMillionths(box, frame), frame, other);
    MillionthsRead(InMillionths(box, frame), box, frame);
  }

  // ---------- The completed file ----------

  function NonBlank(lines: seq<string>): (r: seq<string>)
    ensures forall x :: x in r ==> x in lines
  {
    if lines == [] then [] else
      NonBlank(lines[..|lines| - 1]) + if Blank(lines[|lines| - 1]) then [] else [lines[|lines| - 1]]
  }

  function ProposalLines(proposals: seq<Box>, frame: Frame): (r: seq<string>)
    requires frame.Valid()
    ensures |r| == |proposals|
  {
    seq(|proposals|, i requires 0 <= i < |proposals| => ToYoloLine(proposals[i], frame))
  }

  lemma NextProposal(proposals: seq<Box>, frame: Frame, i: nat)
    requires frame.Valid() && i < |proposals|
    ensures ProposalLines(proposals[..i + 1], frame)
            == ProposalLines(proposals[..i], frame) + [ToYoloLine(proposals[i], frame)]
  {
  }

  // The source's non-blank lines, then the proposals'.
  function CompletedLines(source: Option<string>, proposals: seq<Box>, frame: Frame): seq<string>
    requires frame.Valid()
  {
    NonBlank(SourceLines(source)) + ProposalLines(proposals, frame)
  }

  method KeepNonBlank(all: seq<string>) returns (lines: seq<string>)
    ensures lines == NonBlank(all)
  {
    lines := [];
    for i := 0 to |all|
      invariant lines == NonBlank(all[..i])
    {
      assert all[..i + 1][..i] == all[..i];
      if !Blank(all[i]) {
        lines := lines + [all[i]];
      }
    }
    assert all[..|all|] == all;
  }

  method AddProposals(kept: seq<string>, proposals: seq<Box>, frame: Frame) returns (lines: seq<string>)
    requires frame.Valid()
    ensures lines == kept + ProposalLines(proposals, frame)
  {
    lines := kept;
    for i := 0 to |proposals|
      invariant lines == kept + ProposalLines(proposals[..i], frame)
    {
      NextProposal(proposals, frame, i);
      var line := ToYoloLine(proposals[i], frame);
      lines := lines + [line];
    }
    assert proposals[..|proposals|] == proposals;
  }

  method CompleteFile(source: Option<string>, proposals: seq<Box>, frame: Frame) returns (text: string)
    requires frame.Valid()
    ensures text == Unlines(CompletedLines(source, proposals, frame))
  {
    var lines := KeepNonBlank(SourceLines(source));
    lines := AddProposals(lines, proposals, frame);
    text := Unlines(lines);
  }

  lemma PrintedOneLine(box: Box, frame: Frame)
    requires frame.Valid()
    ensures OneLine(ToYoloLine(box, frame))
  {
    FieldsAreALine(InMillionths(box, frame));
  }

  lemma ProposalsOneLine(proposals: seq<Box>, frame: Frame)
    requires frame.Valid()
    ensures forall i :: 0 <= i < |proposals| ==> OneLine(ProposalLines(proposals, frame)[i])
  {
    forall i | 0 <= i < |proposals| ensures OneLine(ProposalLines(proposals, frame)[i]) {
      PrintedOneLine(proposals[i], frame);
    }
  }

  // The written file has exactly those lines.
  lemma CompletedFileLines(source: Option<string>, proposals: seq<Box>, frame: Frame)
    requires frame.Valid()
    ensures Lines(Unlines(CompletedLines(source, proposals, frame))) == CompletedLines(source, proposals, frame)
  {
    var kept, added := NonBlank(SourceLines(source)), ProposalLines(proposals, frame);
    ProposalsOneLine(proposals, frame);
    forall i | 0 <= i < |kept| ensures OneLine(kept[i]) {
      assert kept[i] in SourceLines(source);
    }
    LinesOfUnlines(kept + added);
  }

  lemma {:induction false} ReadSnoc(lines: seq<string>, last: string, read: Reader)
    ensures ReadLines(lines + [last], read) == Extended(ReadLines(lines, read), read(last))
  {
    assert (lines + [last])[..|lines + [last]| - 1] == lines;
  }

  lemma {:induction false} BlankLinesAreSkipped(lines: seq<string>, read: Reader)
    requires forall line :: Blank(line) ==> read(line) == Skipped
    ensures ReadLines(NonBlank(lines), read) == ReadLines(lines, read)
  {
    if lines == [] {
    } else {
      var init, last := lines[..|lines| - 1], lines[|lines| - 1];
      BlankLinesAreSkipped(init, read);
      if Blank(last) {
        assert NonBlank(lines) == NonBlank(init);
      } else {
        ReadSnoc(NonBlank(init), last, read);
      }
    }
  }

  // Dropping the blank lines changes nothing that is read.
  lemma {:induction false} BlankLinesSayNothing(lines: seq<string>, frame: Frame, other: string -> Option<real>)
    ensures ReadLines(NonBlank(lines), LineReader(frame, other)) == ReadLines(lines, LineReader(frame, other))
  {
    var read := LineReader(frame, other);
    forall line | Blank(line) ensures read(line) == Skipped {
      assert ReadLine(line, frame, other) == Skipped;
    }
    BlankLinesAreSkipped(lines, read);
  }

  // `read` is the boxes, then each proposal as printing and reading leaves it.
  predicate ReadsAs(read: Option<seq<Box>>, boxes: seq<Box>, proposals: seq<Box>, frame: Frame) {
    && read.Some? && |read.value| == |boxes| + |proposals| && read.value[..|boxes|] == boxes
    && forall i :: 0 <= i < |proposals| ==> SameBox(read.value[|boxes| + i], proposals[i], frame)
  }

  lemma ReadsOneMore(read: Option<seq<Box>>, boxes: seq<Box>, proposals: seq<Box>, last: Box, line: Line, frame: Frame)
    requires ReadsAs(read, boxes, proposals, frame) && line.Labelled? && SameBox(line.box, last, frame)
    ensures ReadsAs(Extended(read, line), boxes, proposals + [last], frame)
  {
  }

  lemma {:induction false} PrintedLinesAreRead(before: seq<string>, boxes: seq<Box>, lines: seq<string>,
                                               proposals: seq<Box>, frame: Frame, read: Reader)
    requires ReadLines(before, read) == Some(boxes) && |lines| == |proposals|
    requires forall i :: 0 <= i < |lines| ==> Faithful(read(lines[i]), proposals[i], frame)
    ensures ReadsAs(ReadLines(before + lines, read), boxes, proposals, frame)
  {
    if lines == [] {
      assert before + lines == before;
    } else {
      var n := |lines| - 1;
      PrintedLinesAreRead(before, boxes, lines[..n], proposals[..n], frame, read);
      assert before + lines == before + lines[..n] + [lines[n]];
      ReadSnoc(before + lines[..n], lines[n], read);
      ReadsOneMore(ReadLines(before + lines[..n], read), boxes, proposals[..n], proposals[n], read(lines[n]), frame);
      assert proposals == proposals[..n] + [proposals[n]];
    }
  }

  // Reading the completed file gives the source's boxes, unchanged and in order, then each
  // proposal clipped to the image, within 0.75 millionths of its size.
  lemma CompletedFileIsRead(source: Option<string>, boxes: seq<Box>, proposals: seq<Box>, frame: Frame,
                            other: string -> Option<real>)
    requires frame.Valid() && ReadLabels(source, frame, other) == Some(boxes)
    requires forall i :: 0 <= i < |proposals| ==> Ordered(proposals[i])
    ensures ReadsAs(ReadLabels(Some(Unlines(CompletedLines(source, proposals, frame))), frame, other), boxes,
            proposals, frame)
  {
    CompletedFileLines(source, proposals, frame);
    BlankLinesSayNothing(SourceLines(source), frame, other);
    var read, lines := LineReader(frame, other), ProposalLines(proposals, frame);
    forall i | 0 <= i < |lines|
      ensures Faithful(read(lines[i]), proposals[i], frame)
    {
      PrintedBoxIsRead(proposals[i], frame, other);
    }
    PrintedLinesAreRead(NonBlank(SourceLines(source)), boxes, lines, proposals, frame, read);
  }
}
