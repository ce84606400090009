/** Folding a parsed file into blocks: hunk bodies split into context and change runs,
    untouched space represented by gaps that the reader may expand. */
module DiffBlocks {
  import opened Prelude
  import opened DiffModel

  datatype Block =
    | Gap(count: int, oldStart: int, newStart: int)
    | ContextBlock(lines: seq<Line>)
    | ChangeBlock(removed: seq<Line>, added: seq<Line>)

  /** A gap is identified by the two numbers its id is printed from. */
  datatype Expansion = AllGaps | OnlyGaps(ids: set<(int, int)>)

  datatype Options = Options(
    ignoreWhitespace: bool,
    expandedGaps: Expansion,
    newFileLines: Option<seq<string>>)

  // ------------------------------------------------------------------ gaps

  function GapLines(gap: Block, content: seq<string>, upTo: nat): (lines: seq<Line>)
    requires gap.Gap?
    requires upTo == 0 || (1 <= gap.newStart && gap.newStart - 1 + upTo <= |content|)
    ensures |lines| == upTo
  {
    if upTo == 0 then []
    else
      var k := upTo - 1;
      GapLines(gap, content, k)
      + [Line(Context, Some(gap.oldStart + k), Some(gap.newStart + k), content[gap.newStart - 1 + k])]
  }

  predicate Expanded(gap: Block, options: Options)
    requires gap.Gap?
  {
    options.expandedGaps.AllGaps? || (gap.oldStart, gap.newStart) in options.expandedGaps.ids
  }

  /** Every line the gap stands for is present in the loaded file. */
  predicate Readable(gap: Block, content: seq<string>)
    requires gap.Gap?
  {
    gap.count <= 0 || (1 <= gap.newStart && gap.newStart - 1 + gap.count <= |content|)
  }

  function SettleGap(gap: Block, options: Options): Block
    requires gap.Gap? && gap.count >= 0
  {
    if Expanded(gap, options) && options.newFileLines.Some? && Readable(gap, options.newFileLines.value)
    then ContextBlock(GapLines(gap, options.newFileLines.value, gap.count))
    else gap
  }

  method PushGap(blocks: seq<Block>, gap: Block, options: Options) returns (result: seq<Block>)
    requires gap.Gap? && gap.count >= 0
    ensures result == blocks + [SettleGap(gap, options)]
  {
    if !Expanded(gap, options) || options.newFileLines.None? {
      return blocks + [gap];
    }
    var content := options.newFileLines.value;
    var lines: seq<Line> := [];
    var offset := 0;
    while offset < gap.count
      invariant 0 <= offset <= gap.count
      invariant offset == 0 || (1 <= gap.newStart && gap.newStart - 1 + offset <= |content|)
      invariant lines == GapLines(gap, content, offset)
    {
      var newLine := gap.newStart + offset;
      if !(0 <= newLine - 1 < |content|) { break; }
      lines := lines + [Line(Context, Some(gap.oldStart + offset), Some(newLine), content[newLine - 1])];
      offset := offset + 1;
    }
    result := blocks + [if |lines| == gap.count then ContextBlock(lines) else gap];
  }

  // ------------------------------------------------------- hunk bodies

  function PairedPrefix(removed: seq<Line>, added: seq<Line>): (n: nat)
    ensures n <= |removed| && n <= |added|
  {
    if removed == [] || added == [] then 0
    else if CollapseWhitespace(removed[0].text) != CollapseWhitespace(added[0].text) then 0
    else 1 + PairedPrefix(removed[1..], added[1..])
  }

  function Demote(removed: seq<Line>, added: seq<Line>): (lines: seq<Line>)
    requires |removed| == |added|
    ensures |lines| == |removed|
  {
    seq(|removed|, i requires 0 <= i < |removed| =>
      Line(Context, removed[i].oldLine, added[i].newLine, added[i].text))
  }

  /** What a finished change run becomes. */
  function Settled(removed: seq<Line>, added: seq<Line>, options: Options): seq<Block> {
    if !options.ignoreWhitespace then [ChangeBlock(removed, added)]
    else
      var k := PairedPrefix(removed, added);
      (if k > 0 then [ContextBlock(Demote(removed[..k], added[..k]))] else [])
      + (if k < |removed| || k < |added| then [ChangeBlock(removed[k..], added[k..])] else [])
  }

  lemma {:induction false} PairedPrefixStep(removed: seq<Line>, added: seq<Line>, index: nat)
    requires index <= |removed| && index <= |added|
    ensures index < |removed| && index < |added|
            && CollapseWhitespace(removed[index].text) == CollapseWhitespace(added[index].text)
            ==> PairedPrefix(removed[index..], added[index..])
                == 1 + PairedPrefix(removed[index + 1..], added[index + 1..])
    ensures index == |removed| || index == |added|
            || CollapseWhitespace(removed[index].text) != CollapseWhitespace(added[index].text)
            ==> PairedPrefix(removed[index..], added[index..]) == 0
  {
    if index < |removed| && index < |added| {
      assert removed[index..][1..] == removed[index + 1..];
      assert added[index..][1..] == added[index + 1..];
    }
  }

  method SettleChange(removed: seq<Line>, added: seq<Line>, options: Options) returns (blocks: seq<Block>)
    ensures blocks == Settled(removed, added, options)
  {
    if !options.ignoreWhitespace { return [ChangeBlock(removed, added)]; }
    blocks := [];
    var index := 0;
    var context: seq<Line> := [];
    var paired := Min(|removed|, |added|);
    assert removed[0..] == removed && added[0..] == added;
    while index < paired
      invariant 0 <= index <= paired
      invariant context == Demote(removed[..index], added[..index])
      invariant PairedPrefix(removed, added) == index + PairedPrefix(removed[index..], added[index..])
    {
      PairedPrefixStep(removed, added, index);
      var left, right := removed[index], added[index];
      if CollapseWhitespace(left.text) != CollapseWhitespace(right.text) { break; }
      context := context + [Line(Context, left.oldLine, right.newLine, right.text)];
      index := index + 1;
    }
    PairedPrefixStep(removed, added, index);
    if context != [] { blocks := [ContextBlock(context)]; }
    var restRemoved, restAdded := removed[index..], added[index..];
    if restRemoved != [] || restAdded != [] {
      blocks := blocks + [ChangeBlock(restRemoved, restAdded)];
    }
  }

  /** The buffers of the body loop. */
  datatype Buffers = Buffers(blocks: seq<Block>, context: seq<Line>, removed: seq<Line>, added: seq<Line>) {
    function FlushContext(): Buffers {
      if context == [] then this else this.(blocks := blocks + [ContextBlock(context)], context := [])
    }

    function FlushChange(options: Options): Buffers {
      if removed == [] && added == [] then this
      else this.(blocks := blocks + Settled(removed, added, options), removed := [], added := [])
    }

    function Feed(line: Line, options: Options): Buffers {
      match line.kind
      case Context => var b := FlushChange(options); b.(context := b.context + [line])
      case Removed =>
        var b := FlushContext();
        var c := if b.added != [] then b.FlushChange(options) else b;
        c.(removed := c.removed + [line])
      case Added => var b := FlushContext(); b.(added := b.added + [line])
    }

    function FeedAll(lines: seq<Line>, options: Options): Buffers
      decreases |lines|
    {
      if lines == [] then this else Feed(lines[0], options).FeedAll(lines[1..], options)
    }
  }

  function BodyBlocks(lines: seq<Line>, options: Options): seq<Block> {
    Buffers([], [], [], []).FeedAll(lines, options).FlushContext().FlushChange(options).blocks
  }

  method SplitHunkLines(lines: seq<Line>, options: Options) returns (blocks: seq<Block>)
    ensures blocks == BodyBlocks(lines, options)
  {
    blocks := [];
    var context: seq<Line>, removed: seq<Line>, added: seq<Line> := [], [], [];
    assert lines[0..] == lines;
    for i := 0 to |lines|
      invariant Buffers(blocks, context, removed, added).FeedAll(lines[i..], options)
                == Buffers([], [], [], []).FeedAll(lines, options)
    {
      var line := lines[i];
      assert lines[i..][1..] == lines[i + 1..];
      if line.kind.Context? {
        if removed != [] || added != [] {
          var settled := SettleChange(removed, added, options);
          blocks, removed, added := blocks + settled, [], [];
        }
        context := context + [line];
        continue;
      }
      if context != [] { blocks, context := blocks + [ContextBlock(context)], []; }
      if line.kind.Removed? {
        if added != [] {
          var settled := SettleChange(removed, added, options);
          blocks, removed, added := blocks + settled, [], [];
        }
        removed := removed + [line];
      } else {
        added := added + [line];
      }
    }
    if context != [] { blocks := blocks + [ContextBlock(context)]; }
    if removed != [] || added != [] {
      var settled := SettleChange(removed, added, options);
      blocks := blocks + settled;
    }
  }

  // ------------------------------------------------------------ whole file

  function GapBefore(hunk: Hunk, oldEnd: int, newEnd: int, options: Options): seq<Block> {
    var count := hunk.oldStart - 1 - oldEnd;
    if count > 0 then [SettleGap(Gap(count, oldEnd + 1, newEnd + 1), options)] else []
  }

  function TailGap(oldEnd: int, newEnd: int, options: Options): seq<Block> {
    var total := if options.newFileLines.Some? then |options.newFileLines.value| else 0;
    if total > newEnd then [SettleGap(Gap(total - newEnd, oldEnd + 1, newEnd + 1), options)] else []
  }

  function BlocksFrom(hunks: seq<Hunk>, oldEnd: int, newEnd: int, options: Options): seq<Block>
    decreases |hunks|
  {
    if hunks == [] then TailGap(oldEnd, newEnd, options)
    else
      var h := hunks[0];
      GapBefore(h, oldEnd, newEnd, options) + BodyBlocks(h.lines, options)
      + BlocksFrom(hunks[1..], h.oldStart + h.oldLines - 1, h.newStart + h.newLines - 1, options)
  }

  /** `BlocksFrom` with the blocks already produced, which is how the loop runs. */
  function BlocksOnto(blocks: seq<Block>, hunks: seq<Hunk>, oldEnd: int, newEnd: int,
                      options: Options): seq<Block>
    decreases |hunks|
  {
    if hunks == [] then blocks + TailGap(oldEnd, newEnd, options)
    else
      var h := hunks[0];
      BlocksOnto(blocks + GapBefore(h, oldEnd, newEnd, options) + BodyBlocks(h.lines, options), hunks[1..],
        h.oldStart + h.oldLines - 1, h.newStart + h.newLines - 1, options)
  }

  lemma {:induction false} OntoIsFrom(blocks: seq<Block>, hunks: seq<Hunk>, oldEnd: int, newEnd: int,
                                      options: Options)
    ensures BlocksOnto(blocks, hunks, oldEnd, newEnd, options)
            == blocks + BlocksFrom(hunks, oldEnd, newEnd, options)
    decreases |hunks|
  {
    if hunks != [] {
      var h := hunks[0];
      var gap, body := GapBefore(h, oldEnd, newEnd, options), BodyBlocks(h.lines, options);
      var nextOld, nextNew := h.oldStart + h.oldLines - 1, h.newStart + h.newLines - 1;
      OntoIsFrom(blocks + gap + body, hunks[1..], nextOld, nextNew, options);
      Regroup(blocks, gap, body, BlocksFrom(hunks[1..], nextOld, nextNew, options));
    }
  }

  method BuildDiffBlocks(hunks: seq<Hunk>, options: Options) returns (blocks: seq<Block>)
    ensures blocks == BlocksFrom(hunks, 0, 0, options)
  {
    blocks := [];
    var previousOldEnd, previousNewEnd := 0, 0;
    assert hunks[0..] == hunks;
    for i := 0 to |hunks|
      invariant BlocksOnto(blocks, hunks[i..], previousOldEnd, previousNewEnd, options)
                == BlocksOnto([], hunks, 0, 0, options)
    {
      var hunk := hunks[i];
      assert hunks[i..][1..] == hunks[i + 1..];
      ghost var before := blocks;
      var gapCount := hunk.oldStart - 1 - previousOldEnd;
      if gapCount > 0 {
        blocks := PushGap(blocks, Gap(gapCount, previousOldEnd + 1, previousNewEnd + 1), options);
      }
      assert blocks == before + GapBefore(hunk, previousOldEnd, previousNewEnd, options);
      var body := SplitHunkLines(hunk.lines, options);
      blocks := blocks + body;
      previousOldEnd := hunk.oldStart + hunk.oldLines - 1;
      previousNewEnd := hunk.newStart + hunk.newLines - 1;
    }
    OntoIsFrom([], hunks, 0, 0, options);
    assert hunks[|hunks|..] == [];
    ghost var result := BlocksFrom(hunks, 0, 0, options);
    assert [] + result == result == blocks + TailGap(previousOldEnd, previousNewEnd, options);
    var totalNewLines := if options.newFileLines.Some? then |options.newFileLines.value| else 0;
    if totalNewLines > previousNewEnd {
      blocks := PushGap(blocks,
        Gap(totalNewLines - previousNewEnd, previousOldEnd + 1, previousNewEnd + 1), options);
    }
  }
}
