/** Rows of the split and of the unified view, with an optional limit on their number. */
module DiffRows {
  import opened Prelude
  import opened DiffModel
  import opened DiffBlocks
  import opened DiffReading
  import opened WordDiff
  import DiffSpans

  datatype RowOptions = RowOptions(wordDiff: bool, language: DiffSpans.Language)

  datatype RowSide = RowSide(kind: LineKind, number: Option<int>, text: string, spans: seq<DiffSpans.DiffSpan>)

  /** The tag, block and index that a row id is printed from. */
  datatype RowId = RowId(tag: char, block: nat, index: nat)

  datatype SplitRow =
    | SplitGap(gap: Block)
    | Pair(id: RowId, left: Option<RowSide>, right: Option<RowSide>)

  datatype UnifiedRow =
    | UnifiedGap(gap: Block)
    | Single(id: RowId, oldLine: Option<int>, newLine: Option<int>, side: RowSide)

  datatype View = Split | Unified

  // ------------------------------------------------------------- one side

  function ChangedIn(line: Line, counterpart: Option<Line>, options: RowOptions): seq<Span> {
    if options.wordDiff && counterpart.Some? && line.kind != Context
    then Changed(line.text, counterpart.value.text) else []
  }

  function SideOf(line: Line, counterpart: Option<Line>, options: RowOptions, numberFrom: Option<Image>): RowSide {
    var image := if numberFrom.Some? then numberFrom.value else if line.kind == Removed then Old else New;
    RowSide(line.kind, NumberOf(line, image), line.text,
            DiffSpans.SpansOf(line.text, options.language, ChangedIn(line, counterpart, options)))
  }

  method ToSide(line: Line, counterpart: Option<Line>, options: RowOptions, numberFrom: Option<Image>)
    returns (side: RowSide)
    ensures side == SideOf(line, counterpart, options, numberFrom)
  {
    var changed: seq<Span> := [];
    if options.wordDiff && counterpart.Some? && line.kind != Context {
      changed := ChangedRanges(line.text, counterpart.value.text);
      ChangedIsExact(line.text, counterpart.value.text);
    }
    var image := if numberFrom.Some? then numberFrom.value else if line.kind == Removed then Old else New;
    assert forall r <- changed :: r.0 <= |line.text| && 0 <= r.1 by {
      forall r | r in changed ensures r.0 <= |line.text| && 0 <= r.1 {
        var k :| 0 <= k < |changed| && changed[k] == r;
      }
    }
    var spans := DiffSpans.BuildSpans(line.text, options.language, changed);
    DiffSpans.SpansAreDetermined(spans, line.text, options.language, changed);
    side := RowSide(line.kind, if image.Old? then line.oldLine else line.newLine, line.text, spans);
  }

  // ----------------------------------------------------------------- rows

  function At(lines: seq<Line>, i: nat): Option<Line> {
    if i < |lines| then Some(lines[i]) else None
  }

  function Height(block: Block, view: View): nat {
    match block
    case Gap(_, _, _) => 1
    case ContextBlock(lines) => |lines|
    case ChangeBlock(removed, added) =>
      if view.Split? then Max(|removed|, |added|) else |removed| + |added|
  }

  /** Row `i` of a block in the split view. */
  function SplitRowAt(block: Block, at: nat, i: nat, options: RowOptions): SplitRow
    requires i < Height(block, Split)
  {
    match block
    case Gap(_, _, _) => SplitGap(block)
    case ContextBlock(lines) =>
      Pair(RowId('c', at, i), Some(SideOf(lines[i], None, options, Some(Old))),
           Some(SideOf(lines[i], None, options, Some(New))))
    case ChangeBlock(removed, added) =>
      var left, right := At(removed, i), At(added, i);
      Pair(RowId('d', at, i),
           if left.Some? then Some(SideOf(left.value, right, options, None)) else None,
           if right.Some? then Some(SideOf(right.value, left, options, None)) else None)
  }

  function Line1(line: Line, counterpart: Option<Line>, id: RowId, options: RowOptions): UnifiedRow {
    Single(id, line.oldLine, line.newLine, SideOf(line, counterpart, options, None))
  }

  /** Row `i` of a block in the unified view: the removed lines, then the added ones. */
  function UnifiedRowAt(block: Block, at: nat, i: nat, options: RowOptions): UnifiedRow
    requires i < Height(block, Unified)
  {
    match block
    case Gap(_, _, _) => UnifiedGap(block)
    case ContextBlock(lines) => Line1(lines[i], None, RowId('c', at, i), options)
    case ChangeBlock(removed, added) =>
      if i < |removed| then Line1(removed[i], At(added, i), RowId('r', at, i), options)
      else
        var k := i - |removed|;
        Line1(added[k], At(removed, k), RowId('a', at, k), options)
  }

  function SplitBlockRows(block: Block, at: nat, options: RowOptions): (rows: seq<SplitRow>)
    ensures |rows| == Height(block, Split)
  {
    seq(Height(block, Split), i requires 0 <= i < Height(block, Split) => SplitRowAt(block, at, i, options))
  }

  function UnifiedBlockRows(block: Block, at: nat, options: RowOptions): (rows: seq<UnifiedRow>)
    ensures |rows| == Height(block, Unified)
  {
    seq(Height(block, Unified), i requires 0 <= i < Height(block, Unified) => UnifiedRowAt(block, at, i, options))
  }

  function SplitRows(blocks: seq<Block>, at: nat, options: RowOptions): seq<SplitRow>
    requires at <= |blocks|
    decreases |blocks| - at
  {
    if at == |blocks| then []
    else SplitBlockRows(blocks[at], at, options) + SplitRows(blocks, at + 1, options)
  }

  function UnifiedRows(blocks: seq<Block>, at: nat, options: RowOptions): seq<UnifiedRow>
    requires at <= |blocks|
    decreases |blocks| - at
  {
    if at == |blocks| then []
    else UnifiedBlockRows(blocks[at], at, options) + UnifiedRows(blocks, at + 1, options)
  }

  function CountDiffRows(blocks: seq<Block>, view: View): nat {
    if blocks == [] then 0
    else CountDiffRows(blocks[..|blocks| - 1], view) + Height(blocks[|blocks| - 1], view)
  }

  /** An absent limit is the default, infinity. */
  function Limit(maxRows: Option<int>, count: nat): nat {
    if maxRows.None? then count else Min(count, Max(0, maxRows.value))
  }

  predicate Full(maxRows: Option<int>, length: nat) {
    maxRows.Some? && length >= Max(0, maxRows.value)
  }

  function Take<T>(rows: seq<T>, maxRows: Option<int>): seq<T> {
    rows[..Limit(maxRows, |rows|)]
  }

  /** Pushing rows one by one until the limit is reached keeps exactly the prefix. */
  lemma {:induction false} TakeMore<T>(rows: seq<T>, more: seq<T>, maxRows: Option<int>)
    ensures Full(maxRows, |rows|) ==> Take(rows + more, maxRows) == Take(rows, maxRows)
    ensures !Full(maxRows, |rows|) ==> Take(rows, maxRows) == rows
    ensures !Full(maxRows, |rows|) && |more| == 1 ==> Take(rows + more, maxRows) == rows + more
  {
  }

  lemma {:induction false} PushOne<T>(all: seq<T>, own: seq<T>, index: nat, maxRows: Option<int>)
    requires index < |own| && !Full(maxRows, |Take(all + own[..index], maxRows)|)
    ensures Take(all + own[..index], maxRows) + [own[index]] == Take(all + own[..index + 1], maxRows)
  {
    assert all + own[..index + 1] == all + own[..index] + [own[index]];
    TakeMore(all + own[..index], [own[index]], maxRows);
  }

  lemma {:induction false} PushDone<T>(all: seq<T>, own: seq<T>, index: nat, maxRows: Option<int>)
    requires index <= |own|
    requires index == |own| || Full(maxRows, |Take(all + own[..index], maxRows)|)
    ensures Take(all + own[..index], maxRows) == Take(all + own, maxRows)
  {
    assert all + own == all + own[..index] + own[index..];
    TakeMore(all + own[..index], own[index..], maxRows);
  }

  method SplitRow1(block: Block, blockIndex: nat, index: nat, options: RowOptions) returns (row: SplitRow)
    requires index < Height(block, Split)
    ensures row == SplitRowAt(block, blockIndex, index, options)
  {
    match block {
      case Gap(_, _, _) => row := SplitGap(block);
      case ContextBlock(lines) =>
        var left := ToSide(lines[index], None, options, Some(Old));
        var right := ToSide(lines[index], None, options, Some(New));
        row := Pair(RowId('c', blockIndex, index), Some(left), Some(right));
      case ChangeBlock(removed, added) =>
        var left, right := At(removed, index), At(added, index);
        var leftSide: Option<RowSide>, rightSide: Option<RowSide> := None, None;
        if left.Some? {
          var side := ToSide(left.value, right, options, None);
          leftSide := Some(side);
        }
        if right.Some? {
          var side := ToSide(right.value, left, options, None);
          rightSide := Some(side);
        }
        row := Pair(RowId('d', blockIndex, index), leftSide, rightSide);
    }
  }

  /** The rows of one block, pushed while there is room. */
  method PushSplitBlock(rows: seq<SplitRow>, ghost all: seq<SplitRow>, block: Block, blockIndex: nat,
                        options: RowOptions, maxRows: Option<int>) returns (result: seq<SplitRow>)
    requires rows == Take(all, maxRows)
    ensures result == Take(all + SplitBlockRows(block, blockIndex, options), maxRows)
  {
    result := rows;
    ghost var own := SplitBlockRows(block, blockIndex, options);
    var index := 0;
    assert all + own[..0] == all;
    while index < Height(block, Split)
      invariant 0 <= index <= Height(block, Split)
      invariant result == Take(all + own[..index], maxRows)
    {
      if Full(maxRows, |result|) { break; }
      var row := SplitRow1(block, blockIndex, index, options);
      PushOne(all, own, index, maxRows);
      result := result + [row];
      index := index + 1;
    }
    PushDone(all, own, index, maxRows);
  }

  method BuildSplitRows(blocks: seq<Block>, options: RowOptions, maxRows: Option<int>) returns (rows: seq<SplitRow>)
    ensures rows == Take(SplitRows(blocks, 0, options), maxRows)
  {
    rows := [];
    ghost var all: seq<SplitRow> := [];
    var blockIndex := 0;
    while blockIndex < |blocks|
      invariant 0 <= blockIndex <= |blocks|
      invariant rows == Take(all, maxRows)
      invariant all + SplitRows(blocks, blockIndex, options) == SplitRows(blocks, 0, options)
    {
      if Full(maxRows, |rows|) { break; }
      Regroup3(all, SplitBlockRows(blocks[blockIndex], blockIndex, options), SplitRows(blocks, blockIndex
        + 1, options));
      rows := PushSplitBlock(rows, all, blocks[blockIndex], blockIndex, options, maxRows);
      all := all + SplitBlockRows(blocks[blockIndex], blockIndex, options);
      blockIndex := blockIndex + 1;
    }
    TakeMore(all, SplitRows(blocks, blockIndex, options), maxRows);
  }

  method UnifiedRow1(block: Block, blockIndex: nat, index: nat, options: RowOptions) returns (row: UnifiedRow)
    requires index < Height(block, Unified)
    ensures row == UnifiedRowAt(block, blockIndex, index, options)
  {
    match block {
      case Gap(_, _, _) => row := UnifiedGap(block);
      case ContextBlock(lines) =>
        var line := lines[index];
        var side := ToSide(line, None, options, None);
        row := Single(RowId('c', blockIndex, index), line.oldLine, line.newLine, side);
      case ChangeBlock(removed, added) =>
        if index < |removed| {
          var line := removed[index];
          var side := ToSide(line, At(added, index), options, None);
          row := Single(RowId('r', blockIndex, index), line.oldLine, line.newLine, side);
        } else {
          var k := index - |removed|;
          var line := added[k];
          var side := ToSide(line, At(removed, k), options, None);
          row := Single(RowId('a', blockIndex, k), line.oldLine, line.newLine, side);
        }
    }
  }

  method PushUnifiedBlock(rows: seq<UnifiedRow>, ghost all: seq<UnifiedRow>, block: Block, blockIndex: nat,
                          options: RowOptions, maxRows: Option<int>) returns (result: seq<UnifiedRow>)
    requires rows == Take(all, maxRows)
    ensures result == Take(all + UnifiedBlockRows(block, blockIndex, options), maxRows)
  {
    result := rows;
    ghost var own := UnifiedBlockRows(block, blockIndex, options);
    var index := 0;
    assert all + own[..0] == all;
    while index < Height(block, Unified)
      invariant 0 <= index <= Height(block, Unified)
      invariant result == Take(all + own[..index], maxRows)
    {
      if Full(maxRows, |result|) { break; }
      var row := UnifiedRow1(block, blockIndex, index, options);
      PushOne(all, own, index, maxRows);
      result := result + [row];
      index := index + 1;
    }
    PushDone(all, own, index, maxRows);
  }

  method BuildUnifiedRows(blocks: seq<Block>, options: RowOptions, maxRows: Option<int>)
    returns (rows: seq<UnifiedRow>)
    ensures rows == Take(UnifiedRows(blocks, 0, options), maxRows)
  {
    rows := [];
    ghost var all: seq<UnifiedRow> := [];
    var blockIndex := 0;
    while blockIndex < |blocks|
      invariant 0 <= blockIndex <= |blocks|
      invariant rows == Take(all, maxRows)
      invariant all + UnifiedRows(blocks, blockIndex, options) == UnifiedRows(blocks, 0, options)
    {
      if Full(maxRows, |rows|) { break; }
      Regroup3(all, UnifiedBlockRows(blocks[blockIndex], blockIndex, options),
        UnifiedRows(blocks, blockIndex + 1, options));
      rows := PushUnifiedBlock(rows, all, blocks[blockIndex], blockIndex, options, maxRows);
      all := all + UnifiedBlockRows(blocks[blockIndex], blockIndex, options);
      blockIndex := blockIndex + 1;
    }
    TakeMore(all, UnifiedRows(blocks, blockIndex, options), maxRows);
  }

  // ------------------------------------------------------------ row counts

  lemma {:induction false} CountFrom(blocks: seq<Block>, at: nat, options: RowOptions)
    requires at <= |blocks|
    ensures CountDiffRows(blocks, Split) == CountDiffRows(blocks[..at], Split) + |SplitRows(blocks, at, options)|
    ensures CountDiffRows(blocks, Unified) == CountDiffRows(blocks[..at], Unified) + |UnifiedRows(blocks, at, options)|
    decreases |blocks| - at
  {
    if at == |blocks| {
      assert blocks[..at] == blocks;
    } else {
      CountFrom(blocks, at + 1, options);
      assert blocks[..at + 1][..at] == blocks[..at];
    }
  }

  /** The count is what either builder produces without a limit, so a limit cuts off a
      view exactly when it is smaller than the count. */
  lemma {:induction false} RowsAreCounted(blocks: seq<Block>, options: RowOptions, maxRows: Option<int>)
    ensures |Take(SplitRows(blocks, 0, options), maxRows)| == Limit(maxRows, CountDiffRows(blocks, Split))
    ensures |Take(UnifiedRows(blocks, 0, options), maxRows)| == Limit(maxRows, CountDiffRows(blocks, Unified))
  {
    CountFrom(blocks, 0, options);
    assert blocks[..0] == [];
  }

  // ------------------------------------------- rows show what blocks read

  /** The lines of one image in the rows, top to bottom; fillers show nothing. */
  function SplitColumn(rows: seq<SplitRow>, image: Image): seq<Entry> {
    if rows == [] then [] else SplitCell(rows[0], image) + SplitColumn(rows[1..], image)
  }

  function SplitCell(row: SplitRow, image: Image): seq<Entry> {
    match row
    case SplitGap(gap) => if gap.Gap? then [Hidden(gap.count)] else []
    case Pair(_, left, right) =>
      var side := if image.Old? then left else right;
      if side.Some? then [Shown(side.value.number, side.value.text)] else []
  }

  lemma {:induction false} SplitColumnAppend(left: seq<SplitRow>, right: seq<SplitRow>, image: Image)
    ensures SplitColumn(left + right, image) == SplitColumn(left, image) + SplitColumn(right, image)
  {
    if left == [] {
      assert left + right == right;
    } else {
      assert (left + right)[1..] == left[1..] + right;
      SplitColumnAppend(left[1..], right, image);
    }
  }

  /** Change runs hold removed lines on the one side and added lines on the other, and
      context blocks hold context. */
  predicate Sorted(block: Block) {
    match block
    case Gap(_, _, _) => true
    case ContextBlock(lines) => forall l <- lines :: l.kind == Context
    case ChangeBlock(removed, added) =>
      (forall l <- removed :: l.kind == Removed) && (forall l <- added :: l.kind == Added)
  }

  /** Rows that show an image line by line show a prefix of it in the first `k`. */
  lemma {:induction false} ColumnPrefix(rows: seq<SplitRow>, read: seq<Entry>, image: Image, k: nat)
    requires k <= |rows|
    requires forall i | 0 <= i < |rows| :: SplitCell(rows[i], image) == if i < |read| then [read[i]] else []
    ensures SplitColumn(rows[..k], image) == read[..Min(k, |read|)]
    decreases k
  {
    if k > 0 {
      ColumnPrefix(rows, read, image, k - 1);
      assert rows[..k] == rows[..k - 1] + [rows[k - 1]];
      SplitColumnAppend(rows[..k - 1], [rows[k - 1]], image);
      assert SplitColumn([rows[k - 1]], image) == SplitCell(rows[k - 1], image) + SplitColumn([], image);
    }
  }

  lemma {:induction false} BlockColumn(block: Block, at: nat, options: RowOptions, image: Image)
    requires Sorted(block)
    ensures SplitColumn(SplitBlockRows(block, at, options), image) == ReadBlock(block, image)
  {
    var rows, read := SplitBlockRows(block, at, options), ReadBlock(block, image);
    forall i | 0 <= i < |rows| ensures SplitCell(rows[i], image) == if i < |read| then [read[i]] else [] {
      CellReads(block, at, options, image, i);
    }
    ColumnPrefix(rows, read, image, |rows|);
    assert rows[..|rows|] == rows;
    assert |read| <= |rows|;
  }

  lemma {:induction false} CellReads(block: Block, at: nat, options: RowOptions, image: Image, i: nat)
    requires Sorted(block) && i < Height(block, Split)
    ensures SplitCell(SplitRowAt(block, at, i, options), image)
            == if i < |ReadBlock(block, image)| then [ReadBlock(block, image)[i]] else []
  {
    if block.ChangeBlock? {
      var lines := if image.Old? then block.removed else block.added;
      if i < |lines| { assert lines[i] in lines; }
    }
  }

  /** The two columns of the split view read exactly as the blocks do, and so, for a fully
      expanded diff with harmless positions, as the two files do. */
  lemma {:induction false} SplitRowsRead(blocks: seq<Block>, at: nat, options: RowOptions, image: Image)
    requires at <= |blocks| && forall b <- blocks :: Sorted(b)
    ensures SplitColumn(SplitRows(blocks, at, options), image) == Read(blocks[at..], image)
    decreases |blocks| - at
  {
    if at < |blocks| {
      var block := blocks[at];
      var rows := SplitBlockRows(block, at, options);
      SplitRowsRead(blocks, at + 1, options, image);
      SplitColumnAppend(rows, SplitRows(blocks, at + 1, options), image);
      assert blocks[at..][1..] == blocks[at + 1..];
      BlockColumn(block, at, options, image);
    }
  }

  lemma {:induction false} FlushSorts(b: Buffers, options: Options)
    requires Tidy(b) && forall x <- b.blocks :: Sorted(x)
    ensures forall x <- b.FlushContext().blocks :: Sorted(x)
    ensures forall x <- b.FlushChange(options).blocks :: Sorted(x)
  {
  }

  lemma {:induction false} FeedAllSorts(b: Buffers, lines: seq<Line>, options: Options)
    requires Tidy(b) && forall x <- b.blocks :: Sorted(x)
    ensures Tidy(b.FeedAll(lines, options)) && forall x <- b.FeedAll(lines, options).blocks :: Sorted(x)
    decreases |lines|
  {
    if lines != [] {
      FlushSorts(b, options);
      FlushContextReads(b, New);
      FlushSorts(b.FlushContext(), options);
      FeedReads(b, lines[0], options, New);
      FeedAllSorts(b.Feed(lines[0], options), lines[1..], options);
    }
  }

  /** Every block the fold produces is of the kind the rows need. */
  lemma {:induction false} BlocksAreSorted(hunks: seq<Hunk>, oldEnd: int, newEnd: int, options: Options)
    ensures forall b <- BlocksFrom(hunks, oldEnd, newEnd, options) :: Sorted(b)
    decreases |hunks|
  {
    if hunks != [] {
      var h := hunks[0];
      BlocksAreSorted(hunks[1..], h.oldStart + h.oldLines - 1, h.newStart + h.newLines - 1, options);
      BodySorts(h.lines, options);
      GapsSort(h, oldEnd, newEnd, options);
    } else {
      TailSorts(oldEnd, newEnd, options);
    }
  }

  lemma {:induction false} BodySorts(lines: seq<Line>, options: Options)
    ensures forall b <- BodyBlocks(lines, options) :: Sorted(b)
  {
    var start := Buffers([], [], [], []);
    FeedAllSorts(start, lines, options);
    var fed := start.FeedAll(lines, options);
    FlushContextReads(fed, New);
    FlushSorts(fed, options);
    FlushSorts(fed.FlushContext(), options);
  }

  lemma {:induction false} GapsSort(h: Hunk, oldEnd: int, newEnd: int, options: Options)
    ensures forall b <- GapBefore(h, oldEnd, newEnd, options) :: Sorted(b)
  {
    var count := h.oldStart - 1 - oldEnd;
    if count > 0 { GapSorts(Gap(count, oldEnd + 1, newEnd + 1), options); }
  }

  lemma {:induction false} GapLinesAreContext(gap: Block, content: seq<string>, upTo: nat)
    requires gap.Gap? && (upTo == 0 || (1 <= gap.newStart && gap.newStart - 1 + upTo <= |content|))
    ensures forall l <- GapLines(gap, content, upTo) :: l.kind == Context
  {
    if upTo > 0 { GapLinesAreContext(gap, content, upTo - 1); }
  }

  lemma {:induction false} GapSorts(gap: Block, options: Options)
    requires gap.Gap? && gap.count >= 0
    ensures Sorted(SettleGap(gap, options))
  {
    if SettleGap(gap, options).ContextBlock? { GapLinesAreContext(gap, options.newFileLines.value, gap.count); }
  }

  lemma {:induction false} TailSorts(oldEnd: int, newEnd: int, options: Options)
    ensures forall b <- TailGap(oldEnd, newEnd, options) :: Sorted(b)
  {
    var total := if options.newFileLines.Some? then |options.newFileLines.value| else 0;
    if total > newEnd { GapSorts(Gap(total - newEnd, oldEnd + 1, newEnd + 1), options); }
  }
}
