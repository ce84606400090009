/** The blocks of a hunk body, run by run: where a run of changes ends, and which of its
    lines are demoted to context when white space is ignored. */
module DiffRuns {
  import opened Prelude
  import opened DiffModel
  import opened DiffBlocks
  import DiffAlignment

  // ------------------------------------------------------------ white space

  lemma {:induction false} CollapseStep(text: string)
    requires text != ""
    ensures CollapseWhitespace(text) ==
            if IsSpace(text[0]) then CollapseWhitespace(text[1..]) else [text[0]] + CollapseWhitespace(text[1..])
  {
  }

  lemma {:induction false} CollapseKeeps(text: string, c: char)
    requires !IsSpace(c)
    ensures multiset(CollapseWhitespace(text))[c] == multiset(text)[c]
  {
    if text != "" {
      CollapseStep(text);
      CollapseKeeps(text[1..], c);
      assert text == [text[0]] + text[1..];
    }
  }

  lemma {:induction false} CollapseOrder(text: string)
    ensures Subsequence(CollapseWhitespace(text), text) && forall c <- CollapseWhitespace(text) :: !IsSpace(c)
  {
    if text != "" {
      var rest := CollapseWhitespace(text[1..]);
      CollapseStep(text);
      CollapseOrder(text[1..]);
      if !IsSpace(text[0]) { assert ([text[0]] + rest)[1..] == rest; }
    }
  }

  /** What is left of a text without its white space: the other characters, all of them and
      in their order. */
  lemma {:induction false} CollapseIs(text: string)
    ensures var rest := CollapseWhitespace(text);
            && Subsequence(rest, text) && (forall c <- rest :: !IsSpace(c))
            && forall c: char | !IsSpace(c) :: multiset(rest)[c] == multiset(text)[c]
  {
    CollapseOrder(text);
    forall c: char | !IsSpace(c) ensures multiset(CollapseWhitespace(text))[c] == multiset(text)[c] {
      CollapseKeeps(text, c);
    }
  }

  predicate SameButSpace(a: Line, b: Line) {
    CollapseWhitespace(a.text) == CollapseWhitespace(b.text)
  }

  // -------------------------------------------------------- a run of changes

  /** The first `k` pairs of a run differ in white space only, and the next one does not. */
  ghost predicate BlankPairs(removed: seq<Line>, added: seq<Line>, k: nat) {
    && k <= |removed| && k <= |added|
    && (forall i | 0 <= i < k :: SameButSpace(removed[i], added[i]))
    && (k < |removed| && k < |added| ==> !SameButSpace(removed[k], added[k]))
  }

  lemma {:induction false} PairedPrefixIs(removed: seq<Line>, added: seq<Line>, k: nat)
    requires BlankPairs(removed, added, k)
    ensures PairedPrefix(removed, added) == k
  {
    if k > 0 {
      assert SameButSpace(removed[0], added[0]);
      forall i | 0 <= i < k - 1 ensures SameButSpace(removed[1..][i], added[1..][i]) {
        assert SameButSpace(removed[i + 1], added[i + 1]);
      }
      PairedPrefixIs(removed[1..], added[1..], k - 1);
    }
  }

  /** A context block of the first `k` pairs, with the new texts and both numbers. */
  ghost predicate Demotes(block: Block, removed: seq<Line>, added: seq<Line>, k: nat)
    requires k <= |removed| && k <= |added|
  {
    && block.ContextBlock? && |block.lines| == k
    && forall i | 0 <= i < k ::
         block.lines[i] == Line(Context, removed[i].oldLine, added[i].newLine, added[i].text)
  }

  /** Such a block, unless `k` is 0, and then the rest as a change, if there is any. */
  ghost predicate DemotesFirst(blocks: seq<Block>, removed: seq<Line>, added: seq<Line>, k: nat)
    requires k <= |removed| && k <= |added|
  {
    var rest := if k == |removed| && k == |added| then [] else [ChangeBlock(removed[k..], added[k..])];
    if k == 0 then blocks == rest
    else blocks != [] && Demotes(blocks[0], removed, added, k) && blocks[1..] == rest
  }

  lemma {:induction false} SettledIs(removed: seq<Line>, added: seq<Line>, options: Options, k: nat)
    requires BlankPairs(removed, added, k)
    ensures if options.ignoreWhitespace then DemotesFirst(Settled(removed, added, options), removed, added, k)
            else Settled(removed, added, options) == [ChangeBlock(removed, added)]
  {
    PairedPrefixIs(removed, added, k);
    if k > 0 {
      var first := ContextBlock(Demote(removed[..k], added[..k]));
      var rest := if k < |removed| || k < |added| then [ChangeBlock(removed[k..], added[k..])] else [];
      assert ([first] + rest)[1..] == rest;
    }
  }

  // ------------------------------------------------------------------- runs

  ghost predicate OfKind(lines: seq<Line>, kind: LineKind) {
    forall line <- lines :: line.kind == kind
  }

  /** Context, removed and added lines that belong together; what follows begins another
      run: a removed line does so behind an added one. */
  ghost predicate IsRun(context: seq<Line>, removed: seq<Line>, added: seq<Line>, rest: seq<Line>) {
    && OfKind(context, Context) && OfKind(removed, Removed) && OfKind(added, Added)
    && (rest != [] ==>
          match rest[0].kind
          case Context => removed != [] || added != []
          case Removed => added != []
          case Added => false)
  }

  function Start(blocks: seq<Block>): Buffers {
    Buffers(blocks, [], [], [])
  }

  function Finish(b: Buffers, options: Options): seq<Block> {
    b.FlushContext().FlushChange(options).blocks
  }

  function ContextOf(lines: seq<Line>): seq<Block> {
    if lines == [] then [] else [ContextBlock(lines)]
  }

  function ChangesOf(removed: seq<Line>, added: seq<Line>, options: Options): seq<Block> {
    if removed == [] && added == [] then [] else Settled(removed, added, options)
  }

  lemma {:induction false} FeedPlus(b: Buffers, left: seq<Line>, right: seq<Line>, options: Options)
    ensures b.FeedAll(left + right, options) == b.FeedAll(left, options).FeedAll(right, options)
    decreases |left|
  {
    if left == [] {
      assert left + right == right;
    } else {
      assert (left + right)[1..] == left[1..] + right;
      FeedPlus(b.Feed(left[0], options), left[1..], right, options);
    }
  }

  lemma {:induction false} FeedContext(b: Buffers, lines: seq<Line>, options: Options)
    requires OfKind(lines, Context) && b.removed == [] && b.added == []
    ensures b.FeedAll(lines, options) == b.(context := b.context + lines)
    decreases |lines|
  {
    if lines == [] {
      assert b.context + lines == b.context;
    } else {
      assert lines[0] in lines && lines[0].kind == Context;
      FeedContext(b.(context := b.context + [lines[0]]), lines[1..], options);
      assert b.context + [lines[0]] + lines[1..] == b.context + lines;
    }
  }

  lemma {:induction false} FeedRemoved(b: Buffers, lines: seq<Line>, options: Options)
    requires OfKind(lines, Removed) && b.context == [] && b.added == []
    ensures b.FeedAll(lines, options) == b.(removed := b.removed + lines)
    decreases |lines|
  {
    if lines == [] {
      assert b.removed + lines == b.removed;
    } else {
      assert lines[0] in lines && lines[0].kind == Removed;
      FeedRemoved(b.(removed := b.removed + [lines[0]]), lines[1..], options);
      assert b.removed + [lines[0]] + lines[1..] == b.removed + lines;
    }
  }

  lemma {:induction false} FeedAdded(b: Buffers, lines: seq<Line>, options: Options)
    requires OfKind(lines, Added) && b.context == []
    ensures b.FeedAll(lines, options) == b.(added := b.added + lines)
    decreases |lines|
  {
    if lines == [] {
      assert b.added + lines == b.added;
    } else {
      assert lines[0] in lines && lines[0].kind == Added;
      FeedAdded(b.(added := b.added + [lines[0]]), lines[1..], options);
      assert b.added + [lines[0]] + lines[1..] == b.added + lines;
    }
  }

  /** The first changed line puts the context behind it. */
  lemma {:induction false} FeedFlushes(b: Buffers, lines: seq<Line>, options: Options)
    requires lines != [] && lines[0].kind != Context && b.removed == [] && b.added == []
    ensures b.FeedAll(lines, options) == Start(b.blocks + ContextOf(b.context)).FeedAll(lines, options)
  {
    assert b.blocks + [] == b.blocks;
  }

  lemma {:induction false} FeedChanges(blocks: seq<Block>, removed: seq<Line>, added: seq<Line>, options: Options)
    requires OfKind(removed, Removed) && OfKind(added, Added)
    ensures Start(blocks).FeedAll(removed + added, options) == Buffers(blocks, [], removed, added)
  {
    var half := Buffers(blocks, [], removed, []);
    FeedPlus(Start(blocks), removed, added, options);
    FeedRemoved(Start(blocks), removed, options);
    assert [] + removed == removed;
    FeedAdded(half, added, options);
    assert [] + added == added;
  }

  /** What the buffers hold once a run has been read. */
  lemma {:induction false} FeedRun(
      blocks: seq<Block>, context: seq<Line>, removed: seq<Line>, added: seq<Line>, options: Options)
    requires OfKind(context, Context) && OfKind(removed, Removed) && OfKind(added, Added)
    ensures Start(blocks).FeedAll(context + (removed + added), options) ==
            if removed == [] && added == [] then Buffers(blocks, context, [], [])
            else Buffers(blocks + ContextOf(context), [], removed, added)
  {
    FeedPlus(Start(blocks), context, removed + added, options);
    FeedContext(Start(blocks), context, options);
    assert [] + context == context;
    var b := Buffers(blocks, context, [], []);
    if removed + added != [] {
      FirstChange(removed, added);
      FeedFlushes(b, removed + added, options);
      FeedChanges(blocks + ContextOf(context), removed, added, options);
    }
  }

  lemma {:induction false} FirstChange(removed: seq<Line>, added: seq<Line>)
    requires OfKind(removed, Removed) && OfKind(added, Added) && removed + added != []
    ensures (removed + added)[0].kind != Context
  {
    if removed != [] { assert removed[0] in removed; } else { assert added[0] in added; }
  }

  /** Blocks that are finished play no part in what follows. */
  lemma {:induction false} FeedBehind(before: seq<Block>, b: Buffers, line: Line, options: Options)
    ensures b.(blocks := before + b.blocks).Feed(line, options)
            == b.Feed(line, options).(blocks := before + b.Feed(line, options).blocks)
  {
    var settled, context := Settled(b.removed, b.added, options), [ContextBlock(b.context)];
    Regroup3(before, b.blocks, settled);
    Regroup3(before, b.blocks, context);
    Regroup3(before, b.blocks + context, settled);
    Regroup3(before + b.blocks, context, settled);
  }

  lemma {:induction false} FinishBehind(before: seq<Block>, b: Buffers, options: Options)
    ensures Finish(b.(blocks := before + b.blocks), options) == before + Finish(b, options)
  {
    var settled, context := Settled(b.removed, b.added, options), [ContextBlock(b.context)];
    Regroup3(before, b.blocks, settled);
    Regroup3(before, b.blocks, context);
    Regroup3(before, b.blocks + context, settled);
    Regroup3(before + b.blocks, context, settled);
  }

  lemma {:induction false} FeedAllBehind(before: seq<Block>, b: Buffers, lines: seq<Line>, options: Options)
    ensures Finish(b.(blocks := before + b.blocks).FeedAll(lines, options), options)
            == before + Finish(b.FeedAll(lines, options), options)
    decreases |lines|
  {
    if lines == [] {
      FinishBehind(before, b, options);
    } else {
      FeedBehind(before, b, lines[0], options);
      FeedAllBehind(before, b.Feed(lines[0], options), lines[1..], options);
    }
  }

  lemma {:induction false} StartBehind(before: seq<Block>, lines: seq<Line>, options: Options)
    ensures Finish(Start(before).FeedAll(lines, options), options) == before + BodyBlocks(lines, options)
  {
    assert before + [] == before;
    FeedAllBehind(before, Start([]), lines, options);
  }

  /** The line that begins another run finds the buffers as if they had been emptied. */
  lemma {:induction false} NextRun(blocks: seq<Block>, removed: seq<Line>, added: seq<Line>, rest: seq<Line>,
                                   options: Options)
    requires IsRun([], removed, added, rest) && (removed != [] || added != [])
    ensures Finish(Buffers(blocks, [], removed, added).FeedAll(rest, options), options)
            == blocks + Settled(removed, added, options) + BodyBlocks(rest, options)
  {
    var b, done := Buffers(blocks, [], removed, added), Start(blocks + Settled(removed, added, options));
    StartBehind(done.blocks, rest, options);
    if rest != [] {
      assert b.Feed(rest[0], options) == done.Feed(rest[0], options);
    } else {
      assert BodyBlocks([], options) == [];
      assert done.blocks + [] == done.blocks;
    }
  }

  lemma {:induction false} LastContext(blocks: seq<Block>, context: seq<Line>, options: Options)
    ensures Finish(Buffers(blocks, context, [], []), options) == blocks + ContextOf(context)
  {
    assert blocks + [] == blocks;
  }

  /** A body is folded run by run: the context of a run, what its changes settle to, and the
      blocks of what follows. */
  lemma {:induction false} BodyRunByRun(
      context: seq<Line>, removed: seq<Line>, added: seq<Line>, rest: seq<Line>, options: Options)
    requires IsRun(context, removed, added, rest)
    ensures BodyBlocks(context + (removed + added) + rest, options)
            == ContextOf(context) + ChangesOf(removed, added, options) + BodyBlocks(rest, options)
  {
    var run := context + (removed + added);
    FeedPlus(Start([]), run, rest, options);
    FeedRun([], context, removed, added, options);
    assert [] + ContextOf(context) == ContextOf(context);
    if removed == [] && added == [] {
      LastContext([], context, options);
      assert BodyBlocks([], options) == [];
      assert ContextOf(context) + [] + [] == ContextOf(context);
    } else {
      NextRun(ContextOf(context), removed, added, rest, options);
    }
  }

  /** The blocks of one run of changes, from its lines alone: one change block, or when white
      space is ignored, first the pairs that differ in white space only. */
  lemma {:induction false} RunIsDemoted(
      context: seq<Line>, removed: seq<Line>, added: seq<Line>, rest: seq<Line>, options: Options, k: nat)
    requires IsRun(context, removed, added, rest) && removed + added != [] && BlankPairs(removed, added, k)
    ensures var blocks, after := BodyBlocks(context + (removed + added) + rest, options), BodyBlocks(rest, options);
            var n := |ContextOf(context)|;
            && n + |after| <= |blocks| && blocks[..n] == ContextOf(context) && blocks[|blocks| - |after|..] == after
            && if options.ignoreWhitespace then DemotesFirst(blocks[n..|blocks| - |after|], removed, added, k)
               else blocks[n..|blocks| - |after|] == [ChangeBlock(removed, added)]
  {
    BodyRunByRun(context, removed, added, rest, options);
    SettledIs(removed, added, options, k);
    Middle(ContextOf(context), Settled(removed, added, options), BodyBlocks(rest, options));
  }

  lemma {:induction false} Middle<T>(left: seq<T>, middle: seq<T>, right: seq<T>)
    ensures var whole := left + middle + right;
            whole[..|left|] == left && whole[|whole| - |right|..] == right
            && whole[|left|..|whole| - |right|] == middle
  {
  }

  // ------------------------------------------------------------------- gaps

  /** The reader has chosen all gaps, or this one by its two numbers. */
  predicate Chosen(gap: Block, expanded: Expansion)
    requires gap.Gap?
  {
    match expanded
    case AllGaps => true
    case OnlyGaps(ids) => (gap.oldStart, gap.newStart) in ids
  }

  /** The new file is loaded and has all lines of the gap. */
  predicate Loaded(gap: Block, content: Option<seq<string>>)
    requires gap.Gap?
  {
    content.Some? && 1 <= gap.newStart && gap.newStart + gap.count <= |content.value| + 1
  }

  lemma {:induction false} GapLineIs(gap: Block, content: seq<string>, upTo: nat, i: nat)
    requires gap.Gap? && 1 <= gap.newStart && gap.newStart - 1 + upTo <= |content| && i < upTo
    ensures GapLines(gap, content, upTo)[i]
            == Line(Context, Some(gap.oldStart + i), Some(gap.newStart + i), content[gap.newStart + i - 1])
  {
    if i < upTo - 1 { GapLineIs(gap, content, upTo - 1, i); }
  }

  /** A gap is expanded exactly when it is chosen and its lines are loaded; then its lines
      are those of the new file, numbered on both sides. */
  lemma {:induction false} GapIsExpandedExactly(gap: Block, options: Options)
    requires gap.Gap? && gap.count > 0
    ensures var block := SettleGap(gap, options);
            if Chosen(gap, options.expandedGaps) && Loaded(gap, options.newFileLines) then
              && block.ContextBlock? && |block.lines| == gap.count
              && forall i | 0 <= i < gap.count ::
                   block.lines[i] == Line(Context, Some(gap.oldStart + i), Some(gap.newStart + i),
                                          options.newFileLines.value[gap.newStart + i - 1])
            else block == gap
  {
    if Chosen(gap, options.expandedGaps) && Loaded(gap, options.newFileLines) {
      var content := options.newFileLines.value;
      forall i: nat | i < gap.count
        ensures GapLines(gap, content, gap.count)[i]
                == Line(Context, Some(gap.oldStart + i), Some(gap.newStart + i), content[gap.newStart + i - 1])
      {
        GapLineIs(gap, content, gap.count, i);
      }
    }
  }

  /** No gap that is left in a file has been chosen while its lines are loaded. */
  ghost predicate FoldedRightly(blocks: seq<Block>, options: Options) {
    forall block <- blocks | block.Gap? ::
      block.count > 0 && !(Chosen(block, options.expandedGaps) && Loaded(block, options.newFileLines))
  }

  lemma {:induction false} SettledHasNoGap(removed: seq<Line>, added: seq<Line>, options: Options)
    ensures forall block <- Settled(removed, added, options) :: !block.Gap?
  {
  }

  lemma {:induction false} NoGapInBody(lines: seq<Line>, options: Options)
    ensures forall block <- BodyBlocks(lines, options) :: !block.Gap?
  {
    var fed := Start([]).FeedAll(lines, options);
    DiffAlignment.BodyHasNoGap(Start([]), lines, options);
    SettledHasNoGap(fed.removed, fed.added, options);
  }

  lemma {:induction false} FoldedPlus(a: seq<Block>, b: seq<Block>, options: Options)
    requires FoldedRightly(a, options) && FoldedRightly(b, options)
    ensures FoldedRightly(a + b, options)
  {
  }

  lemma {:induction false} GapBeforeIsFoldedRightly(h: Hunk, oldEnd: int, newEnd: int, options: Options)
    ensures FoldedRightly(GapBefore(h, oldEnd, newEnd, options), options)
  {
    var count := h.oldStart - 1 - oldEnd;
    if count > 0 { GapIsExpandedExactly(Gap(count, oldEnd + 1, newEnd + 1), options); }
  }

  lemma {:induction false} TailGapIsFoldedRightly(oldEnd: int, newEnd: int, options: Options)
    ensures FoldedRightly(TailGap(oldEnd, newEnd, options), options)
  {
    var total := if options.newFileLines.Some? then |options.newFileLines.value| else 0;
    if total > newEnd { GapIsExpandedExactly(Gap(total - newEnd, oldEnd + 1, newEnd + 1), options); }
  }

  /** ... whatever the file. */
  lemma {:induction false} GapsAreFoldedRightly(hunks: seq<Hunk>, oldEnd: int, newEnd: int, options: Options)
    ensures FoldedRightly(BlocksFrom(hunks, oldEnd, newEnd, options), options)
    decreases |hunks|
  {
    if hunks == [] {
      TailGapIsFoldedRightly(oldEnd, newEnd, options);
    } else {
      var h := hunks[0];
      var gap, body := GapBefore(h, oldEnd, newEnd, options), BodyBlocks(h.lines, options);
      var nextOld, nextNew := h.oldStart + h.oldLines - 1, h.newStart + h.newLines - 1;
      GapBeforeIsFoldedRightly(h, oldEnd, newEnd, options);
      NoGapInBody(h.lines, options);
      FoldedPlus(gap, body, options);
      GapsAreFoldedRightly(hunks[1..], nextOld, nextNew, options);
      FoldedPlus(gap + body, BlocksFrom(hunks[1..], nextOld, nextNew, options), options);
    }
  }

  // ---------------------------------------------------------- the whole file

  /** A change that does not begin with a pair that differs in white space only. */
  ghost predicate RealChange(block: Block) {
    block.ChangeBlock? && block.removed != [] && block.added != [] ==>
      !SameButSpace(block.removed[0], block.added[0])
  }

  ghost predicate RealChanges(blocks: seq<Block>) {
    forall block <- blocks :: RealChange(block)
  }

  lemma {:induction false} LongestBlankPairs(removed: seq<Line>, added: seq<Line>)
    ensures BlankPairs(removed, added, PairedPrefix(removed, added))
  {
    if removed != [] && added != [] && SameButSpace(removed[0], added[0]) {
      LongestBlankPairs(removed[1..], added[1..]);
      var k := PairedPrefix(removed, added);
      forall i | 0 <= i < k ensures SameButSpace(removed[i], added[i]) {
        if i > 0 { assert SameButSpace(removed[1..][i - 1], added[1..][i - 1]); }
      }
    }
  }

  lemma {:induction false} SettledIsReal(removed: seq<Line>, added: seq<Line>, options: Options)
    requires options.ignoreWhitespace
    ensures RealChanges(Settled(removed, added, options))
  {
    LongestBlankPairs(removed, added);
  }

  lemma {:induction false} FeedIsReal(b: Buffers, line: Line, options: Options)
    requires options.ignoreWhitespace && RealChanges(b.blocks)
    ensures RealChanges(b.Feed(line, options).blocks)
  {
    SettledIsReal(b.removed, b.added, options);
  }

  lemma {:induction false} FeedAllIsReal(b: Buffers, lines: seq<Line>, options: Options)
    requires options.ignoreWhitespace && RealChanges(b.blocks)
    ensures RealChanges(b.FeedAll(lines, options).blocks)
    decreases |lines|
  {
    if lines != [] {
      FeedIsReal(b, lines[0], options);
      FeedAllIsReal(b.Feed(lines[0], options), lines[1..], options);
    }
  }

  lemma {:induction false} BodyIsReal(lines: seq<Line>, options: Options)
    requires options.ignoreWhitespace
    ensures RealChanges(BodyBlocks(lines, options))
  {
    var fed := Start([]).FeedAll(lines, options);
    FeedAllIsReal(Start([]), lines, options);
    SettledIsReal(fed.removed, fed.added, options);
  }

  /** With white space ignored no change of a file begins with lines that differ in white
      space only. */
  lemma {:induction false} NoBlankPairIsLeft(hunks: seq<Hunk>, oldEnd: int, newEnd: int, options: Options)
    requires options.ignoreWhitespace
    ensures RealChanges(BlocksFrom(hunks, oldEnd, newEnd, options))
    decreases |hunks|
  {
    if hunks != [] {
      var h := hunks[0];
      BodyIsReal(h.lines, options);
      NoBlankPairIsLeft(hunks[1..], h.oldStart + h.oldLines - 1, h.newStart + h.newLines - 1, options);
    }
  }
}
