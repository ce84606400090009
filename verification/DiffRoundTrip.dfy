/** Printing and parsing undo each other: a printed diff is parsed back to itself, and the
    patches of the parsed files, put together again, are the text. */
module DiffRoundTrip {
  import opened Prelude
  import opened DiffModel
  import opened DiffText
  import opened DiffParser

  // --------------------------------------------------------------- printer

  /** A body line as printed: a marked line of the diff, or the remark that the line above
      ends the file without a newline. An empty context line may have lost its marker. */
  datatype Item = Item(kind: LineKind, text: string, stripped: bool) | Remark(raw: string)

  predicate ItemOk(item: Item) {
    match item
    case Item(kind, text, stripped) => stripped ==> kind == Context && text == ""
    case Remark(raw) => StartsWith(raw, "\\")
  }

  function Raw(item: Item): string {
    match item
    case Remark(raw) => raw
    case Item(kind, text, stripped) =>
      if stripped then ""
      else (match kind case Context => " " case Added => "+" case Removed => "-") + text
  }

  function Raws(items: seq<Item>): seq<string> {
    seq(|items|, i requires 0 <= i < |items| => Raw(items[i]))
  }

  /** `ranges` is what the header says. */
  datatype PrintedHunk = PrintedHunk(header: string, ranges: Ranges, items: seq<Item>)

  /** `tail` holds what follows the last hunk, such as the end of the text. */
  datatype Section = Section(title: string, headerLines: seq<string>, hunks: seq<PrintedHunk>, tail: seq<string>)

  function OldOne(item: Item): nat {
    if item.Item? && item.kind != Added then 1 else 0
  }

  function NewOne(item: Item): nat {
    if item.Item? && item.kind != Removed then 1 else 0
  }

  function OldCount(items: seq<Item>): nat {
    if items == [] then 0 else OldOne(items[0]) + OldCount(items[1..])
  }

  function NewCount(items: seq<Item>): nat {
    if items == [] then 0 else NewOne(items[0]) + NewCount(items[1..])
  }

  /** The header says what `ranges` says, and its counts match the body. */
  predicate HunkOk(h: PrintedHunk) {
    && ScanHeader(h.header) == Some(h.ranges)
    && (forall item <- h.items :: ItemOk(item))
    && OldCount(h.items) == h.ranges.pre.count
    && NewCount(h.items) == h.ranges.post.count
  }

  predicate Plain(raw: string) {
    !IsTitle(raw) && ScanHeader(raw).None?
  }

  predicate SectionOk(s: Section) {
    && IsTitle(s.title)
    && (forall raw <- s.headerLines :: Plain(raw))
    && (forall raw <- s.tail :: Plain(raw))
    && (s.hunks != [] && s.tail != [] ==> !StartsWith(s.tail[0], "\\"))
    && (forall h <- s.hunks :: HunkOk(h))
  }

  function HunkLines(h: PrintedHunk): seq<string> {
    [h.header] + Raws(h.items)
  }

  function HunksLines(hunks: seq<PrintedHunk>): seq<string> {
    if hunks == [] then [] else HunkLines(hunks[0]) + HunksLines(hunks[1..])
  }

  function SectionLines(s: Section): seq<string> {
    [s.title] + s.headerLines + HunksLines(s.hunks) + s.tail
  }

  function DiffLines(sections: seq<Section>): seq<string> {
    if sections == [] then [] else SectionLines(sections[0]) + DiffLines(sections[1..])
  }

  // ----------------------------------------------------- what must come back

  function OneLine(item: Item, o: int, n: int): seq<Line> {
    match item
    case Remark(_) => []
    case Item(kind, text, _) =>
      [Line(kind, if kind == Added then None else Some(o), if kind == Removed then None else Some(n), text)]
  }

  /** The lines of a body, numbered from the first old and the first new number. */
  function NumberedLines(items: seq<Item>, o: int, n: int): seq<Line> {
    if items == [] then []
    else OneLine(items[0], o, n) + NumberedLines(items[1..], o + OldOne(items[0]), n + NewOne(items[0]))
  }

  function ParsedHunk(h: PrintedHunk): Hunk {
    Hunk(h.header, h.ranges.pre.start, h.ranges.pre.count, h.ranges.post.start, h.ranges.post.count,
         NumberedLines(h.items, h.ranges.pre.start, h.ranges.post.start), Join(HunkLines(h)))
  }

  function ParsedHunks(hunks: seq<PrintedHunk>): seq<Hunk> {
    if hunks == [] then [] else [ParsedHunk(hunks[0])] + ParsedHunks(hunks[1..])
  }

  function ParsedSection(s: Section): ParsedFile {
    ParsedFile(Some(s.title), s.headerLines + s.tail, ParsedHunks(s.hunks), Join(SectionLines(s)))
  }

  function ParsedSections(sections: seq<Section>): seq<ParsedFile> {
    if sections == [] then [] else [ParsedSection(sections[0])] + ParsedSections(sections[1..])
  }

  // ------------------------------------------------------------ the parser

  lemma {:induction false} StepAllAppend(p: Parser, left: seq<string>, right: seq<string>)
    ensures p.StepAll(left + right) == p.StepAll(left).StepAll(right)
    decreases |left|
  {
    if left == [] {
      assert left + right == right;
    } else {
      assert (left + right)[1..] == left[1..] + right;
      StepAllAppend(p.Step(left[0]), left[1..], right);
    }
  }

  function Fed(h: OpenHunk, items: seq<Item>): OpenHunk
    requires OldCount(items) <= h.remainingOld && NewCount(items) <= h.remainingNew
  {
    OpenHunk(h.header, h.ranges,
      h.lines + NumberedLines(items, OldNumber(h, h.remainingOld) + 1, NewNumber(h, h.remainingNew) + 1),
      h.patchLines + Raws(items), h.remainingOld - OldCount(items), h.remainingNew - NewCount(items))
  }

  function FedOne(h: OpenHunk, item: Item): OpenHunk
    requires OldOne(item) <= h.remainingOld && NewOne(item) <= h.remainingNew
  {
    OpenHunk(h.header, h.ranges,
      h.lines + OneLine(item, OldNumber(h, h.remainingOld) + 1, NewNumber(h, h.remainingNew) + 1),
      h.patchLines + [Raw(item)], h.remainingOld - OldOne(item), h.remainingNew - NewOne(item))
  }

  /** A body line is consumed whatever its text looks like. */
  lemma {:induction false} ItemConsumed(h: OpenHunk, item: Item)
    requires ItemOk(item) && OldOne(item) <= h.remainingOld && NewOne(item) <= h.remainingNew
    ensures !IsTitle(Raw(item)) && Consume(h, Raw(item)) == Some(FedOne(h, item))
  {
    var raw := Raw(item);
    assert IsTitle(raw) ==> raw[0] == 'd';
    assert StartsWith(raw, "\\") ==> raw[0] == '\\';
    if item.Remark? {
      assert h.lines + [] == h.lines;
    } else if !item.stripped {
      assert raw[1..] == item.text;
      match item.kind
      case Context => assert raw[0] == ' ' && " " <= raw && !("+" <= raw) && !("-" <= raw);
      case Added => assert raw[0] == '+' && "+" <= raw;
      case Removed => assert raw[0] == '-' && "-" <= raw && !("+" <= raw);
    }
  }

  lemma {:induction false} RawsCons(items: seq<Item>)
    requires items != []
    ensures Raws(items) == [Raw(items[0])] + Raws(items[1..])
  {
  }

  lemma {:induction false} FedCons(h: OpenHunk, items: seq<Item>)
    requires items != []
    requires OldCount(items) <= h.remainingOld && NewCount(items) <= h.remainingNew
    ensures Fed(h, items) == Fed(FedOne(h, items[0]), items[1..])
  {
    var o, n := OldNumber(h, h.remainingOld) + 1, NewNumber(h, h.remainingNew) + 1;
    var one := FedOne(h, items[0]);
    var rest := NumberedLines(items[1..], o + OldOne(items[0]), n + NewOne(items[0]));
    RawsCons(items);
    Regroup3(h.patchLines, [Raw(items[0])], Raws(items[1..]));
    Regroup3(h.lines, OneLine(items[0], o, n), rest);
    assert OldNumber(one, one.remainingOld) + 1 == o + OldOne(items[0]);
    assert NewNumber(one, one.remainingNew) + 1 == n + NewOne(items[0]);
  }

  function InFile(p: Parser, lines: seq<string>): Parser
    requires p.file.Some?
  {
    p.(file := Some(p.file.value.(patchLines := p.file.value.patchLines + lines)))
  }

  lemma {:induction false} BodyConsumed(p: Parser, items: seq<Item>)
    requires p.file.Some? && p.hunk.Some? && forall item <- items :: ItemOk(item)
    requires OldCount(items) <= p.hunk.value.remainingOld && NewCount(items) <= p.hunk.value.remainingNew
    ensures p.StepAll(Raws(items)) == InFile(p, Raws(items)).(hunk := Some(Fed(p.hunk.value, items)))
    decreases |items|
  {
    if items == [] {
      assert p.file.value.patchLines + [] == p.file.value.patchLines;
      assert Fed(p.hunk.value, []) == p.hunk.value;
    } else {
      var h := p.hunk.value;
      FedCons(h, items);
      ItemConsumed(h, items[0]);
      var next := p.Step(Raws(items)[0]);
      assert next == InFile(p, [Raw(items[0])]).(hunk := Some(FedOne(h, items[0])));
      assert Raws(items)[1..] == Raws(items[1..]);
      BodyConsumed(next, items[1..]);
      Regroup3(p.file.value.patchLines, [Raw(items[0])], Raws(items[1..]));
      assert Raws(items) == [Raw(items[0])] + Raws(items[1..]);
    }
  }

  /** Between hunks: the last hunk, if still open, has got all its lines. */
  predicate Rested(p: Parser) {
    p.file.Some? && (p.hunk.Some? ==> p.hunk.value.remainingOld == 0 && p.hunk.value.remainingNew == 0)
  }

  lemma {:induction false} RestedStep(p: Parser, raw: string)
    requires Rested(p) && !IsTitle(raw)
    requires p.hunk.Some? ==> !StartsWith(raw, "\\")
    ensures p.Step(raw) == p.CloseHunk().Step(raw)
  {
  }

  function WithHunk(p: Parser, hunk: Hunk, lines: seq<string>): Parser
    requires p.file.Some?
  {
    var f := p.file.value;
    Parser(p.files, Some(OpenFile(f.title, f.headerLines, f.hunks + [hunk], f.patchLines + lines)), None)
  }

  lemma {:induction false} HeaderIsNoRemark(raw: string)
    requires ScanHeader(raw).Some?
    ensures !StartsWith(raw, "\\") && !IsTitle(raw)
  {
    assert "@@ -" <= raw;
    assert raw[0] == '@';
  }

  lemma {:induction false} HeaderConsumed(p: Parser, h: PrintedHunk)
    requires Rested(p) && HunkOk(h)
    ensures p.Step(h.header)
            == InFile(p.CloseHunk(), [h.header]).(hunk := Some(Opened(h.header, h.ranges)))
  {
    HeaderIsNoRemark(h.header);
    RestedStep(p, h.header);
  }

  lemma {:induction false} HunkConsumed(p: Parser, h: PrintedHunk)
    requires Rested(p) && HunkOk(h)
    ensures Rested(p.StepAll(HunkLines(h)))
    ensures p.StepAll(HunkLines(h)).CloseHunk() == WithHunk(p.CloseHunk(), ParsedHunk(h), HunkLines(h))
  {
    HeaderConsumed(p, h);
    var open, next := Opened(h.header, h.ranges), p.Step(h.header);
    assert HunkLines(h)[0] == h.header && HunkLines(h)[1..] == Raws(h.items);
    BodyConsumed(next, h.items);
    Regroup3(p.CloseHunk().file.value.patchLines, [h.header], Raws(h.items));
    FedIsParsed(h);
  }

  lemma {:induction false} FedIsParsed(h: PrintedHunk)
    requires HunkOk(h)
    ensures Sealed(Fed(Opened(h.header, h.ranges), h.items)) == ParsedHunk(h)
  {
    var open := Opened(h.header, h.ranges);
    NothingInFront(NumberedLines(h.items, h.ranges.pre.start, h.ranges.post.start));
    assert OldNumber(open, open.remainingOld) + 1 == h.ranges.pre.start;
    assert NewNumber(open, open.remainingNew) + 1 == h.ranges.post.start;
  }

  lemma {:induction false} NothingInFront<T>(s: seq<T>)
    ensures [] + s == s
  {
  }

  function WithHunks(p: Parser, hunks: seq<PrintedHunk>): Parser
    requires p.file.Some?
  {
    var f := p.file.value;
    Parser(p.files, Some(OpenFile(f.title, f.headerLines, f.hunks + ParsedHunks(hunks),
                                  f.patchLines + HunksLines(hunks))), None)
  }

  lemma {:induction false} HunksConsumed(p: Parser, hunks: seq<PrintedHunk>)
    requires Rested(p) && forall h <- hunks :: HunkOk(h)
    ensures Rested(p.StepAll(HunksLines(hunks)))
    ensures p.StepAll(HunksLines(hunks)).CloseHunk() == WithHunks(p.CloseHunk(), hunks)
    decreases |hunks|
  {
    var f := p.CloseHunk().file.value;
    if hunks == [] {
      assert f.hunks + [] == f.hunks && f.patchLines + [] == f.patchLines;
    } else {
      HunkConsumed(p, hunks[0]);
      StepAllAppend(p, HunkLines(hunks[0]), HunksLines(hunks[1..]));
      HunksConsumed(p.StepAll(HunkLines(hunks[0])), hunks[1..]);
      Regroup3(f.hunks, [ParsedHunk(hunks[0])], ParsedHunks(hunks[1..]));
      Regroup3(f.patchLines, HunkLines(hunks[0]), HunksLines(hunks[1..]));
    }
  }

  lemma {:induction false} PlainConsumed(p: Parser, lines: seq<string>)
    requires Rested(p) && forall raw <- lines :: Plain(raw)
    requires p.hunk.Some? && lines != [] ==> !StartsWith(lines[0], "\\")
    ensures Rested(p.StepAll(lines))
    ensures var f := p.CloseHunk().file.value;
            p.StepAll(lines).CloseHunk()
            == p.CloseHunk().(file := Some(f.(headerLines := f.headerLines + lines, patchLines := f.patchLines
              + lines)))
    ensures p.hunk.None? ==> p.StepAll(lines).hunk.None?
    decreases |lines|
  {
    var f := p.CloseHunk().file.value;
    if lines == [] {
      assert f.headerLines + [] == f.headerLines && f.patchLines + [] == f.patchLines;
    } else {
      assert Plain(lines[0]);
      RestedStep(p, lines[0]);
      var next := p.Step(lines[0]);
      PlainConsumed(next, lines[1..]);
      assert [lines[0]] + lines[1..] == lines;
      Regroup3(f.headerLines, [lines[0]], lines[1..]);
      Regroup3(f.patchLines, [lines[0]], lines[1..]);
    }
  }

  lemma {:induction false} SectionConsumed(p: Parser, s: Section)
    requires SectionOk(s)
    ensures p.StepAll(SectionLines(s)).CloseFile()
            == Parser(p.CloseFile().files + [ParsedSection(s)], None, None)
  {
    var head := [s.title] + s.headerLines;
    StepAllAppend(p, head + HunksLines(s.hunks), s.tail);
    StepAllAppend(p, head, HunksLines(s.hunks));
    StepAllAppend(p, [s.title], s.headerLines);
    var titled := p.CloseFile().(file := Some(OpenFile(Some(s.title), [], [], [s.title])));
    assert p.StepAll([s.title]) == titled by {
      assert [s.title][1..] == [];
      assert p.Step(s.title) == titled;
    }
    PlainConsumed(titled, s.headerLines);
    var headed := titled.StepAll(s.headerLines);
    HunksConsumed(headed, s.hunks);
    var bodied := headed.StepAll(HunksLines(s.hunks));
    if s.hunks == [] { assert bodied == headed; }
    PlainConsumed(bodied, s.tail);
    var closed := bodied.StepAll(s.tail).CloseHunk();
    assert closed.CloseFile() == bodied.StepAll(s.tail).CloseFile();
    assert [] + s.headerLines == s.headerLines;
    assert [] + ParsedHunks(s.hunks) == ParsedHunks(s.hunks);
  }

  lemma {:induction false} DiffConsumed(p: Parser, sections: seq<Section>)
    requires forall s <- sections :: SectionOk(s)
    ensures p.StepAll(DiffLines(sections)).CloseFile().files
            == p.CloseFile().files + ParsedSections(sections)
    decreases |sections|
  {
    if sections != [] {
      StepAllAppend(p, SectionLines(sections[0]), DiffLines(sections[1..]));
      SectionConsumed(p, sections[0]);
      DiffConsumed(p.StepAll(SectionLines(sections[0])), sections[1..]);
      Regroup3(p.CloseFile().files, [ParsedSection(sections[0])], ParsedSections(sections[1..]));
    }
  }

  lemma {:induction false} TitleIsNotBlank(title: string, text: string)
    requires IsTitle(title) && title <= text
    ensures !Blank(text)
  {
    assert "diff --git "[0] == title[0] == text[0];
    assert text[0] in text && !IsSpace('d');
  }

  /** Parsing a printed diff returns its sections, hunks and lines, with the right kinds and
      numbers, although a body line may look like a header, and whichever line ends the
      printer used. */
  lemma {:induction false} ParsePrinted(text: string, sections: seq<Section>)
    requires sections != [] && forall s <- sections :: SectionOk(s)
    requires forall raw <- DiffLines(sections) :: '\n' !in raw
    requires Normalize(text) == Join(DiffLines(sections))
    ensures Parse(text) == ParsedSections(sections)
  {
    var lines := DiffLines(sections);
    SplitJoin(lines);
    assert SectionOk(sections[0]) && lines[0] == sections[0].title;
    TitleIsNotBlank(lines[0], Join(lines));
    DiffConsumed(Empty, sections);
    assert [] + ParsedSections(sections) == ParsedSections(sections);
  }

  /** The printer may end each line as it likes. */
  lemma {:induction false} ParsePrintedLines(sections: seq<Section>, carriage: seq<bool>)
    requires sections != [] && forall s <- sections :: SectionOk(s)
    requires |carriage| == |DiffLines(sections)| && forall raw <- DiffLines(sections) :: Clean(raw)
    ensures Parse(JoinWith(DiffLines(sections), carriage)) == ParsedSections(sections)
  {
    NormalizeJoin(DiffLines(sections), carriage);
    forall raw <- DiffLines(sections) ensures '\n' !in raw { assert Clean(raw); }
    ParsePrinted(JoinWith(DiffLines(sections), carriage), sections);
  }
}
