/** What the rows of a change mark: on each side the words that the other side does not
    have, and nothing else. */
module DiffMarks {
  import opened Prelude
  import opened DiffModel
  import opened DiffText
  import opened DiffBlocks
  import opened DiffReading
  import opened WordDiff
  import opened DiffSpans
  import DiffRows

  // ------------------------------------------------------------------ words

  predicate Alike2(a: char, b: char) {
    (IsSpace(a) && IsSpace(b)) || (InIdentifier(a) && InIdentifier(b))
  }

  /** A longest run of white space, a longest run of word characters, or one other
      character. */
  ghost predicate IsWholeWord(text: string, word: Word) {
    var end := word.start + |word.text|;
    && word.start < end <= |text| && word.text == text[word.start..end]
    && (|word.text| > 1 ==> forall i | word.start <= i < end :: Alike2(text[word.start], text[i]))
    && (end < |text| ==> !Alike2(text[word.start], text[end]))
    && (word.start > 0 ==> !Alike2(text[word.start - 1], text[word.start]))
  }

  lemma {:induction false} ClassesTell(a: char, b: char)
    ensures Alike2(a, b) <==> ClassOf(a) == ClassOf(b) && !ClassOf(a).Other?
  {
    SpaceIsNoLetter(a);
    SpaceIsNoLetter(b);
  }

  lemma {:induction false} SpaceIsNoLetter(c: char)
    ensures ClassOf(c) == if IsSpace(c) then Space else if InIdentifier(c) then Letter else Other
    ensures !(IsSpace(c) && InIdentifier(c))
  {
  }

  lemma {:induction false} RunEndIs(text: string, at: nat, next: nat)
    requires at < next <= |text| && (next > at + 1 ==> forall i | at <= i < next :: Alike2(text[at], text[i]))
    ensures var end := RunEnd(text, at, next);
            && (end > at + 1 ==> forall i | at <= i < end :: Alike2(text[at], text[i]))
            && (end < |text| ==> !Alike2(text[at], text[end]))
    decreases |text| - next
  {
    if next < |text| {
      ClassesTell(text[at], text[next]);
      ClassesTell(text[at], text[at]);
      if Alike2(text[at], text[next]) { RunEndIs(text, at, next + 1); }
    }
  }

  lemma {:induction false} NextIsApart(text: string, at: nat, end: nat)
    requires at < end < |text| && !Alike2(text[at], text[end])
    requires end > at + 1 ==> forall i | at <= i < end :: Alike2(text[at], text[i])
    ensures !Alike2(text[end - 1], text[end])
  {
    if end > at + 1 {
      assert Alike2(text[at], text[end - 1]);
      SpaceIsNoLetter(text[at]);
      SpaceIsNoLetter(text[end - 1]);
      SpaceIsNoLetter(text[end]);
    }
  }

  lemma {:induction false} WordsAreWhole(text: string, at: nat, word: Word)
    requires at <= |text| && word in WordsFrom(text, at)
    requires 0 < at < |text| ==> !Alike2(text[at - 1], text[at])
    ensures IsWholeWord(text, word)
    decreases |text| - at
  {
    var end := RunEnd(text, at, at + 1);
    RunEndIs(text, at, at + 1);
    if end < |text| { NextIsApart(text, at, end); }
    if word != Word(text[at..end], at) { WordsAreWhole(text, end, word); }
  }

  // ------------------------------------------------------------------ marks

  /** The walk pairs equal words of both lines, in order, and as many as can be paired. */
  ghost predicate LongestPairing(mine: seq<Word>, theirs: seq<Word>, walk: seq<(nat, nat)>) {
    && |walk| == Lcs(Texts(mine), Texts(theirs))
    && (forall k | 0 <= k < |walk| ::
          walk[k].0 < |mine| && walk[k].1 < |theirs| && mine[walk[k].0].text == theirs[walk[k].1].text)
    && forall k, l | 0 <= k < l < |walk| :: walk[k].0 < walk[l].0 && walk[k].1 < walk[l].1
  }

  /** A word of the line stands at the position, is not paired, and is not white space beside
      other words. */
  ghost predicate InNewWord(words: seq<Word>, walk: seq<(nat, nat)>, p: int) {
    exists i: nat | i < |words| ::
      && words[i].start <= p < words[i].start + |words[i].text|
      && (forall k | 0 <= k < |walk| :: walk[k].0 != i)
      && (|words| > 1 ==> exists c <- words[i].text :: !IsSpace(c))
  }

  lemma {:induction false} NewWordsAreChanged(words: seq<Word>, walk: seq<(nat, nat)>, p: int)
    ensures InNewWord(words, walk, p) <==> InChangedWord(words, Skipped(words, MatchedBy(walk)), |words|, p)
  {
    forall i: nat | i < |words|
      ensures i !in Skipped(words, MatchedBy(walk)) <==>
              && (forall k | 0 <= k < |walk| :: walk[k].0 != i)
              && (|words| > 1 ==> exists c <- words[i].text :: !IsSpace(c))
    {
      assert Blank(words[i].text) <==> !exists c <- words[i].text :: !IsSpace(c);
    }
  }

  /** The marked positions of a line beside another: those of its words that the longest
      pairing leaves over, except white space that only moved. */
  lemma {:induction false} MarksAre(text: string, other: string) returns (walk: seq<(nat, nat)>)
    ensures LongestPairing(WordsFrom(text, 0), WordsFrom(other, 0), walk)
    ensures forall p :: Covers(Changed(text, other), p) <==> InNewWord(WordsFrom(text, 0), walk, p)
  {
    var mine, theirs := WordsFrom(text, 0), WordsFrom(other, 0);
    walk := Walk(Texts(mine), Texts(theirs), 0, 0);
    ChangedIsExact(text, other);
    WalkIsLongest(Texts(mine), Texts(theirs), 0, 0);
    forall p ensures Covers(Changed(text, other), p) <==> InNewWord(mine, walk, p) {
      NewWordsAreChanged(mine, walk, p);
    }
  }

  // ------------------------------------------------------------------- rows

  /** The side shows the line, and marks what it has beyond its counterpart. */
  ghost predicate Marks(side: DiffRows.RowSide, line: Line, counterpart: Option<Line>, wordDiff: bool) {
    var shown := Visible(side.spans);
    && |shown| == |line.text|
    && forall p | 0 <= p < |shown| ::
         && shown[p].character == line.text[p]
         && (shown[p].changed <==>
             wordDiff && counterpart.Some? && Covers(Changed(line.text, counterpart.value.text), p))
  }

  lemma {:induction false} SideMarks(
      line: Line, counterpart: Option<Line>, options: DiffRows.RowOptions, numberFrom: Option<Image>)
    requires line.kind != Context || counterpart.None?
    ensures Marks(DiffRows.SideOf(line, counterpart, options, numberFrom), line, counterpart, options.wordDiff)
  {
    var changed := DiffRows.ChangedIn(line, counterpart, options);
    GroupShows(GlyphsOf(line.text, DiffSpans.Tokens(line.text, options.language), changed));
  }

  /** A row of the split view marks both of its sides, each against the other; context is not
      marked at all. */
  lemma {:induction false} SplitRowMarks(block: Block, at: nat, i: nat, options: DiffRows.RowOptions)
    requires DiffRows.Sorted(block) && !block.Gap? && i < DiffRows.Height(block, DiffRows.Split)
    ensures var row := DiffRows.SplitRowAt(block, at, i, options);
            && row.Pair?
            && if block.ContextBlock? then
                 && row.left.Some? && Marks(row.left.value, block.lines[i], None, options.wordDiff)
                 && row.right.Some? && Marks(row.right.value, block.lines[i], None, options.wordDiff)
               else
                 var left, right := DiffRows.At(block.removed, i), DiffRows.At(block.added, i);
                 && (row.left.Some? <==> left.Some?) && (row.right.Some? <==> right.Some?)
                 && (left.Some? ==> Marks(row.left.value, left.value, right, options.wordDiff))
                 && (right.Some? ==> Marks(row.right.value, right.value, left, options.wordDiff))
  {
    if block.ContextBlock? {
      SideMarks(block.lines[i], None, options, Some(Old));
      SideMarks(block.lines[i], None, options, Some(New));
    } else {
      ChangeRowMarks(block.removed, block.added, i, options);
    }
  }

  lemma {:induction false} ChangeRowMarks(removed: seq<Line>, added: seq<Line>, i: nat, options: DiffRows.RowOptions)
    requires DiffRows.Sorted(ChangeBlock(removed, added))
    ensures i < |removed| ==>
              Marks(DiffRows.SideOf(removed[i], DiffRows.At(added, i), options, None), removed[i],
                    DiffRows.At(added, i), options.wordDiff)
    ensures i < |added| ==>
              Marks(DiffRows.SideOf(added[i], DiffRows.At(removed, i), options, None), added[i],
                    DiffRows.At(removed, i), options.wordDiff)
  {
    if i < |removed| {
      assert removed[i] in removed;
      SideMarks(removed[i], DiffRows.At(added, i), options, None);
    }
    if i < |added| {
      assert added[i] in added;
      SideMarks(added[i], DiffRows.At(removed, i), options, None);
    }
  }

  /** So does the unified view, where the counterpart stands in another row. */
  lemma {:induction false} UnifiedRowMarks(
      removed: seq<Line>, added: seq<Line>, at: nat, i: nat, options: DiffRows.RowOptions)
    requires DiffRows.Sorted(ChangeBlock(removed, added)) && i < |removed| + |added|
    ensures var row := DiffRows.UnifiedRowAt(ChangeBlock(removed, added), at, i, options);
            && row.Single?
            && if i < |removed| then Marks(row.side, removed[i], DiffRows.At(added, i), options.wordDiff)
               else Marks(row.side, added[i - |removed|], DiffRows.At(removed, i - |removed|), options.wordDiff)
  {
    ChangeRowMarks(removed, added, if i < |removed| then i else i - |removed|, options);
  }
}
