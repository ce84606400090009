/** Both views of a review, read back, and the whole way from the text of a diff with any
    number of files to the rows that a reader sees. */
module DiffViews {
  import opened Prelude
  import opened DiffModel
  import opened DiffText
  import opened DiffParser
  import opened DiffRoundTrip
  import opened DiffBlocks
  import opened DiffReading
  import opened DiffAlignment
  import opened DiffReview
  import DiffRows

  type RowOptions = DiffRows.RowOptions
  type UnifiedRow = DiffRows.UnifiedRow

  // ------------------------------------------------------ the unified view

  /** What a row shows of one image: a removed line belongs to the old file, an added one to
      the new file, and context to both, each with its own number. */
  function UnifiedCell(row: UnifiedRow, image: Image): seq<Entry> {
    match row
    case UnifiedGap(gap) => if gap.Gap? then [Hidden(gap.count)] else []
    case Single(_, oldLine, newLine, side) =>
      if image.Old? then (if side.kind == Added then [] else [Shown(oldLine, side.text)])
      else if side.kind == Removed then [] else [Shown(newLine, side.text)]
  }

  function UnifiedColumn(rows: seq<UnifiedRow>, image: Image): seq<Entry> {
    if rows == [] then [] else UnifiedCell(rows[0], image) + UnifiedColumn(rows[1..], image)
  }

  lemma {:induction false} UnifiedColumnAppend(left: seq<UnifiedRow>, right: seq<UnifiedRow>, image: Image)
    ensures UnifiedColumn(left + right, image) == UnifiedColumn(left, image) + UnifiedColumn(right, image)
  {
    if left == [] {
      assert left + right == right;
    } else {
      assert (left + right)[1..] == left[1..] + right;
      UnifiedColumnAppend(left[1..], right, image);
    }
  }

  /** How much of `read` the first `k` rows show when its lines begin at row `shift`. */
  function Part(k: nat, shift: nat, length: nat): (n: nat)
    ensures n <= length
  {
    if k <= shift then 0 else Min(k - shift, length)
  }

  lemma {:induction false} UnifiedSnoc(rows: seq<UnifiedRow>, row: UnifiedRow, image: Image)
    ensures UnifiedColumn(rows + [row], image) == UnifiedColumn(rows, image) + UnifiedCell(row, image)
  {
    UnifiedColumnAppend(rows, [row], image);
    assert UnifiedColumn([row], image) == UnifiedCell(row, image) + UnifiedColumn([], image);
  }

  /** What row `i` shows when the lines of `read` begin at row `shift`. */
  function CellOf(read: seq<Entry>, shift: nat, i: nat): seq<Entry> {
    if shift <= i < shift + |read| then [read[i - shift]] else []
  }

  lemma {:induction false} PartStep(read: seq<Entry>, shift: nat, k: nat)
    ensures read[..Part(k, shift, |read|)] + CellOf(read, shift, k) == read[..Part(k + 1, shift, |read|)]
  {
  }

  lemma {:induction false} ShiftedColumn(rows: seq<UnifiedRow>, read: seq<Entry>, shift: nat, image: Image, k: nat)
    requires k <= |rows| && forall i: nat | i < |rows| :: UnifiedCell(rows[i], image) == CellOf(read, shift, i)
    ensures UnifiedColumn(rows[..k], image) == read[..Part(k, shift, |read|)]
    decreases k
  {
    if k > 0 {
      ShiftedColumn(rows, read, shift, image, k - 1);
      assert rows[..k] == rows[..k - 1] + [rows[k - 1]];
      UnifiedSnoc(rows[..k - 1], rows[k - 1], image);
      PartStep(read, shift, k - 1);
    }
  }

  function ShiftOf(block: Block, image: Image): nat {
    if block.ChangeBlock? && image.New? then |block.removed| else 0
  }

  /** A line in the unified view, seen from one image. */
  lemma {:induction false} LineCell(
      line: Line, counterpart: Option<Line>, id: DiffRows.RowId, options: RowOptions, image: Image)
    ensures UnifiedCell(DiffRows.Line1(line, counterpart, id, options), image)
            == if line.kind == (if image.Old? then Added else Removed) then []
               else [Shown(NumberOf(line, image), line.text)]
  {
  }

  lemma {:induction false} ContextCell(lines: seq<Line>, at: nat, options: RowOptions, image: Image, i: nat)
    requires i < |lines| && forall l <- lines :: l.kind == Context
    ensures UnifiedCell(DiffRows.UnifiedRowAt(ContextBlock(lines), at, i, options), image)
            == CellOf(Column(lines, image), 0, i)
  {
    assert lines[i] in lines;
    LineCell(lines[i], None, DiffRows.RowId('c', at, i), options, image);
  }

  lemma {:induction false} ChangeCell(
      removed: seq<Line>, added: seq<Line>, at: nat, options: RowOptions, image: Image, i: nat)
    requires DiffRows.Sorted(ChangeBlock(removed, added)) && i < |removed| + |added|
    ensures UnifiedCell(DiffRows.UnifiedRowAt(ChangeBlock(removed, added), at, i, options), image)
            == if image.Old? then CellOf(Column(removed, Old), 0, i) else CellOf(Column(added, New), |removed|, i)
  {
    if i < |removed| {
      assert removed[i] in removed;
      LineCell(removed[i], DiffRows.At(added, i), DiffRows.RowId('r', at, i), options, image);
    } else {
      var k := i - |removed|;
      assert added[k] in added;
      LineCell(added[k], DiffRows.At(removed, k), DiffRows.RowId('a', at, k), options, image);
    }
  }

  lemma {:induction false} UnifiedCellReads(block: Block, at: nat, options: RowOptions, image: Image, i: nat)
    requires DiffRows.Sorted(block) && i < DiffRows.Height(block, DiffRows.Unified)
    ensures UnifiedCell(DiffRows.UnifiedRowAt(block, at, i, options), image)
            == CellOf(ReadBlock(block, image), ShiftOf(block, image), i)
  {
    match block
    case Gap(_, _, _) =>
    case ContextBlock(lines) => ContextCell(lines, at, options, image, i);
    case ChangeBlock(removed, added) => ChangeCell(removed, added, at, options, image, i);
  }

  lemma {:induction false} ReadFits(block: Block, image: Image)
    ensures var height := DiffRows.Height(block, DiffRows.Unified);
            Part(height, ShiftOf(block, image), |ReadBlock(block, image)|) == |ReadBlock(block, image)|
  {
  }

  lemma {:induction false} UnifiedBlockReads(block: Block, at: nat, options: RowOptions, image: Image)
    requires DiffRows.Sorted(block)
    ensures UnifiedColumn(DiffRows.UnifiedBlockRows(block, at, options), image) == ReadBlock(block, image)
  {
    var rows, read := DiffRows.UnifiedBlockRows(block, at, options), ReadBlock(block, image);
    var shift := ShiftOf(block, image);
    forall i: nat | i < |rows| ensures UnifiedCell(rows[i], image) == CellOf(read, shift, i) {
      UnifiedCellReads(block, at, options, image, i);
    }
    ShiftedColumn(rows, read, shift, image, |rows|);
    assert rows[..|rows|] == rows;
    ReadFits(block, image);
    assert read[..|read|] == read;
  }

  /** Read for one image, the unified view reads exactly as the blocks do. */
  lemma {:induction false} UnifiedRowsRead(blocks: seq<Block>, at: nat, options: RowOptions, image: Image)
    requires at <= |blocks| && forall b <- blocks :: DiffRows.Sorted(b)
    ensures UnifiedColumn(DiffRows.UnifiedRows(blocks, at, options), image) == Read(blocks[at..], image)
    decreases |blocks| - at
  {
    if at < |blocks| {
      var block, rows := blocks[at], DiffRows.UnifiedBlockRows(blocks[at], at, options);
      UnifiedRowsRead(blocks, at + 1, options, image);
      UnifiedColumnAppend(rows, DiffRows.UnifiedRows(blocks, at + 1, options), image);
      assert blocks[at..][1..] == blocks[at + 1..];
      UnifiedBlockReads(block, at, options, image);
    }
  }

  // ------------------------------------------------------------ all the way

  lemma {:induction false} ParsedSectionAt(sections: seq<Section>, k: nat)
    requires k < |sections|
    ensures |ParsedSections(sections)| == |sections| && ParsedSections(sections)[k] == ParsedSection(sections[k])
  {
    if |sections| == 1 {
      assert ParsedSections(sections[1..]) == [];
    } else {
      ParsedSectionAt(sections[1..], if k == 0 then 0 else k - 1);
    }
  }

  /** A view of both images shows the two files: each of its columns is the file, line by
      line and number by number (white space aside where it is ignored). */
  ghost predicate Shows(old': seq<Entry>, new': seq<Entry>, pre: seq<string>, post: seq<string>, options: Options) {
    SameOn(Old, options, old', Numbered(pre, 0)) && SameOn(New, options, new', Numbered(post, 0))
  }

  /** Whatever the blocks read, both views show. */
  lemma {:induction false} ViewsShowBlocks(
      hunks: seq<Hunk>, blocks: seq<Block>, options: Options, rows: RowOptions, image: Image)
    requires blocks == BlocksFrom(hunks, 0, 0, options)
    ensures DiffRows.SplitColumn(DiffRows.SplitRows(blocks, 0, rows), image) == Read(blocks, image)
    ensures UnifiedColumn(DiffRows.UnifiedRows(blocks, 0, rows), image) == Read(blocks, image)
  {
    DiffRows.BlocksAreSorted(hunks, 0, 0, options);
    DiffRows.SplitRowsRead(blocks, 0, rows, image);
    UnifiedRowsRead(blocks, 0, rows, image);
    assert blocks[0..] == blocks;
  }

  /** For a printed diff of any number of files: each file, parsed, folded with all gaps
      expanded and laid out in either view, is shown in both versions if and only if its
      hunk positions are harmless. */
  lemma {:induction false} EveryFileIsShown(
    text: string, sections: seq<Section>, k: nat, pre: seq<string>, post: seq<string>, options: Options,
    rows: RowOptions)
    requires k < |sections| && forall s <- sections :: SectionOk(s)
    requires forall raw <- DiffLines(sections) :: '\n' !in raw
    requires Normalize(text) == Join(DiffLines(sections))
    requires Edits(pre, post, sections[k].hunks, 0, 0) && FullyExpanded(options, post)
    ensures |Parse(text)| == |sections|
    ensures var hunks := Parse(text)[k].hunks;
            var blocks := BlocksFrom(hunks, 0, 0, options);
            var split, unified := DiffRows.SplitRows(blocks, 0, rows), DiffRows.UnifiedRows(blocks, 0, rows);
            && (Shows(DiffRows.SplitColumn(split, Old), DiffRows.SplitColumn(split, New), pre, post, options)
                <==> Aligned(hunks, 0, 0, false, false, |post|))
            && (Shows(UnifiedColumn(unified, Old), UnifiedColumn(unified, New), pre, post, options)
                <==> Aligned(hunks, 0, 0, false, false, |post|))
  {
    ParsePrinted(text, sections);
    ParsedSectionAt(sections, k);
    var hunks := ParsedHunks(sections[k].hunks);
    FileIsShown(hunks, BlocksFrom(hunks, 0, 0, options), sections[k].hunks, pre, post, options, rows);
  }

  lemma {:induction false} FileIsShown(
    hunks: seq<Hunk>, blocks: seq<Block>, printed: seq<PrintedHunk>, pre: seq<string>, post: seq<string>,
    options: Options, rows: RowOptions)
    requires hunks == ParsedHunks(printed) && blocks == BlocksFrom(hunks, 0, 0, options)
    requires Edits(pre, post, printed, 0, 0) && FullyExpanded(options, post)
    ensures var split, unified := DiffRows.SplitRows(blocks, 0, rows), DiffRows.UnifiedRows(blocks, 0, rows);
            && (Shows(DiffRows.SplitColumn(split, Old), DiffRows.SplitColumn(split, New), pre, post, options)
                <==> Aligned(hunks, 0, 0, false, false, |post|))
            && (Shows(UnifiedColumn(unified, Old), UnifiedColumn(unified, New), pre, post, options)
                <==> Aligned(hunks, 0, 0, false, false, |post|))
  {
    EditsTurn(pre, post, printed, 0, 0);
    BlocksReadBothFiles(pre, post, hunks, options);
    ViewsShowBlocks(hunks, blocks, options, rows, Old);
    ViewsShowBlocks(hunks, blocks, options, rows, New);
  }
}
