/** Edits in texts: the hunks of a printed edit, once parsed and numbered, turn the one file
    into the other. */
module DiffReview {
  import opened Prelude
  import opened DiffModel
  import opened DiffText
  import opened DiffParser
  import opened DiffRoundTrip
  import opened DiffBlocks
  import opened DiffReading
  import opened DiffAlignment

  function OldTexts(items: seq<DiffRoundTrip.Item>): seq<string> {
    if items == [] then []
    else OldPart(items[0]) + OldTexts(items[1..])
  }

  function NewTexts(items: seq<DiffRoundTrip.Item>): seq<string> {
    if items == [] then []
    else NewPart(items[0]) + NewTexts(items[1..])
  }

  function LinesBefore(range: Range): int {
    if range.count == 0 then range.start else range.start - 1
  }

  /** A printed hunk holds, on each side, the lines that stand in the file at its range. */
  ghost predicate Quotes(pre: seq<string>, post: seq<string>, h: PrintedHunk, o: nat, n: nat)
    requires o <= |pre| && n <= |post|
  {
    var oh, nh := LinesBefore(h.ranges.pre), LinesBefore(h.ranges.post);
    var oc, nc := h.ranges.pre.count, h.ranges.post.count;
    && o <= oh && oh - o == nh - n && oh + oc <= |pre| && nh + nc <= |post| && oc + nc > 0
    && pre[o..oh] == post[n..nh]
    && OldTexts(h.items) == pre[oh..oh + oc] && NewTexts(h.items) == post[nh..nh + nc]
  }

  /** The printed hunks are an edit script from one file to the other, in texts only. */
  ghost predicate Edits(pre: seq<string>, post: seq<string>, hunks: seq<PrintedHunk>, o: nat, n: nat)
    requires o <= |pre| && n <= |post|
    decreases |hunks|
  {
    if hunks == [] then pre[o..] == post[n..]
    else
      var h := hunks[0];
      && Quotes(pre, post, h, o, n)
      && Edits(pre, post, hunks[1..], LinesBefore(h.ranges.pre) + h.ranges.pre.count,
               LinesBefore(h.ranges.post) + h.ranges.post.count)
  }

  function NumberedTexts(texts: seq<string>, from: int): seq<Entry> {
    if texts == [] then [] else [Shown(Some(from), texts[0])] + NumberedTexts(texts[1..], from + 1)
  }

  function OldPart(item: DiffRoundTrip.Item): seq<string> {
    if OldOne(item) == 1 then [item.text] else []
  }

  function NewPart(item: DiffRoundTrip.Item): seq<string> {
    if NewOne(item) == 1 then [item.text] else []
  }

  lemma {:induction false} TextsAppend(left: seq<string>, right: seq<string>, from: int)
    ensures NumberedTexts(left + right, from) == NumberedTexts(left, from) + NumberedTexts(right, from + |left|)
    decreases |left|
  {
    if left == [] {
      assert left + right == right;
    } else {
      assert (left + right)[1..] == left[1..] + right;
      TextsAppend(left[1..], right, from + 1);
    }
  }

  lemma {:induction false} SidesOfOne(item: DiffRoundTrip.Item, o: int, n: int)
    ensures OldSide(OneLine(item, o, n)) == NumberedTexts(OldPart(item), o)
    ensures NewSide(OneLine(item, o, n)) == NumberedTexts(NewPart(item), n)
  {
    if item.Item? {
      SideOne(OneLine(item, o, n)[0], Old);
      SideOne(OneLine(item, o, n)[0], New);
      assert OneLine(item, o, n) == [OneLine(item, o, n)[0]];
    }
  }

  /** One more item in front. */
  lemma {:induction false} SidesStep(one: seq<Line>, lines: seq<Line>, oldPart: seq<string>, oldRest: seq<string>,
                                     newPart: seq<string>, newRest: seq<string>, o: int, n: int)
    requires OldSide(one) == NumberedTexts(oldPart, o) && OldSide(lines) == NumberedTexts(oldRest, o + |oldPart|)
    requires NewSide(one) == NumberedTexts(newPart, n) && NewSide(lines) == NumberedTexts(newRest, n + |newPart|)
    ensures OldSide(one + lines) == NumberedTexts(oldPart + oldRest, o)
    ensures NewSide(one + lines) == NumberedTexts(newPart + newRest, n)
  {
    SidesAppend(one, lines);
    TextsAppend(oldPart, oldRest, o);
    TextsAppend(newPart, newRest, n);
  }

  lemma {:induction false} PartLengths(item: DiffRoundTrip.Item)
    ensures |OldPart(item)| == OldOne(item) && |NewPart(item)| == NewOne(item)
  {
  }

  /** The sides of a parsed body are its texts, numbered. */
  lemma {:induction false} SidesOfItems(items: seq<DiffRoundTrip.Item>, o: int, n: int)
    ensures OldSide(NumberedLines(items, o, n)) == NumberedTexts(OldTexts(items), o)
    ensures NewSide(NumberedLines(items, o, n)) == NumberedTexts(NewTexts(items), n)
  {
    if items != [] {
      var item, rest := items[0], items[1..];
      var o', n' := o + OldOne(item), n + NewOne(item);
      SidesOfItems(rest, o', n');
      SidesOfOne(item, o, n);
      PartLengths(item);
      SidesStep(OneLine(item, o, n), NumberedLines(rest, o', n'),
        OldPart(item), OldTexts(rest), NewPart(item), NewTexts(rest), o, n);
    }
  }

  lemma {:induction false} NumberedWindow(file: seq<string>, at: nat, count: nat)
    requires at + count <= |file|
    ensures NumberedTexts(file[at..at + count], at + 1) == Numbered(file, at)[..count]
    decreases count
  {
    if count > 0 {
      NumberedWindow(file, at + 1, count - 1);
      assert file[at..at + count][1..] == file[at + 1..at + 1 + (count - 1)];
      assert Numbered(file, at)[..count] == [Numbered(file, at)[0]] + Numbered(file, at + 1)[..count - 1];
    }
  }

  lemma {:induction false} WindowAtRange(file: seq<string>, range: Range)
    requires 0 <= LinesBefore(range) && LinesBefore(range) + range.count <= |file|
    ensures NumberedTexts(file[LinesBefore(range)..LinesBefore(range) + range.count], range.start)
            == Numbered(file, LinesBefore(range))[..range.count]
  {
    if range.count > 0 { NumberedWindow(file, LinesBefore(range), range.count); }
  }

  lemma {:induction false} ParsedSides(h: PrintedHunk)
    ensures var p := ParsedHunk(h);
            && OldSide(p.lines) == NumberedTexts(OldTexts(h.items), h.ranges.pre.start)
            && NewSide(p.lines) == NumberedTexts(NewTexts(h.items), h.ranges.post.start)
            && OldBefore(p) == LinesBefore(h.ranges.pre) && NewBefore(p) == LinesBefore(h.ranges.post)
            && p.oldLines == h.ranges.pre.count && p.newLines == h.ranges.post.count
  {
    SidesOfItems(h.items, h.ranges.pre.start, h.ranges.post.start);
  }

  lemma {:induction false} FitsBySides(pre: seq<string>, post: seq<string>, ranges: Ranges, p: Hunk, o: nat, n: nat)
    requires o <= |pre| && n <= |post|
    requires OldBefore(p) == LinesBefore(ranges.pre) && p.oldLines == ranges.pre.count
    requires NewBefore(p) == LinesBefore(ranges.post) && p.newLines == ranges.post.count
    requires o <= OldBefore(p) && OldBefore(p) - o == NewBefore(p) - n && p.oldLines + p.newLines > 0
    requires OldBefore(p) + p.oldLines <= |pre| && NewBefore(p) + p.newLines <= |post|
    requires pre[o..OldBefore(p)] == post[n..NewBefore(p)]
    requires OldSide(p.lines) == NumberedTexts(pre[OldBefore(p)..OldBefore(p) + p.oldLines], ranges.pre.start)
    requires NewSide(p.lines) == NumberedTexts(post[NewBefore(p)..NewBefore(p) + p.newLines], ranges.post.start)
    ensures HunkFits(pre, post, p, o, n)
  {
    WindowAtRange(pre, ranges.pre);
    WindowAtRange(post, ranges.post);
  }

  lemma {:induction false} QuotesFit(pre: seq<string>, post: seq<string>, h: PrintedHunk, o: nat, n: nat)
    requires o <= |pre| && n <= |post| && Quotes(pre, post, h, o, n)
    ensures HunkFits(pre, post, ParsedHunk(h), o, n)
  {
    ParsedSides(h);
    FitsBySides(pre, post, h.ranges, ParsedHunk(h), o, n);
  }

  lemma {:induction false} EditsFirst(pre: seq<string>, post: seq<string>, hunks: seq<PrintedHunk>, o: nat, n: nat)
    requires o <= |pre| && n <= |post| && hunks != [] && Edits(pre, post, hunks, o, n)
    ensures Quotes(pre, post, hunks[0], o, n)
    ensures var o', n' := LinesBefore(hunks[0].ranges.pre)
            + hunks[0].ranges.pre.count, LinesBefore(hunks[0].ranges.post) + hunks[0].ranges.post.count;
            0 <= o' <= |pre| && 0 <= n' <= |post| && Edits(pre, post, hunks[1..], o', n')
  {
  }

  lemma {:induction false} EditsTurn(pre: seq<string>, post: seq<string>, hunks: seq<PrintedHunk>, o: nat, n: nat)
    requires o <= |pre| && n <= |post| && Edits(pre, post, hunks, o, n)
    ensures Turns(pre, post, ParsedHunks(hunks), o, n)
    decreases |hunks|
  {
    if hunks != [] {
      var h := hunks[0];
      var o', n' := LinesBefore(h.ranges.pre) + h.ranges.pre.count, LinesBefore(h.ranges.post) + h.ranges.post.count;
      EditsFirst(pre, post, hunks, o, n);
      EditsTurn(pre, post, hunks[1..], o', n');
      EditTurns(pre, post, h, ParsedHunks(hunks[1..]), o, n);
    }
  }

  lemma {:induction false} EditTurns(
      pre: seq<string>, post: seq<string>, h: PrintedHunk, rest: seq<Hunk>, o: nat, n: nat)
    requires o <= |pre| && n <= |post| && Quotes(pre, post, h, o, n)
    requires Turns(pre, post, rest, LinesBefore(h.ranges.pre) + h.ranges.pre.count,
                   LinesBefore(h.ranges.post) + h.ranges.post.count)
    ensures Turns(pre, post, [ParsedHunk(h)] + rest, o, n)
  {
    QuotesFit(pre, post, h, o, n);
    ParsedSides(h);
    TurnsCons(pre, post, ParsedHunk(h), rest, o, n);
  }

  lemma {:induction false} TurnsCons(pre: seq<string>, post: seq<string>, h: Hunk, rest: seq<Hunk>, o: nat, n: nat)
    requires o <= |pre| && n <= |post| && HunkFits(pre, post, h, o, n)
    requires Turns(pre, post, rest, OldBefore(h) + h.oldLines, NewBefore(h) + h.newLines)
    ensures Turns(pre, post, [h] + rest, o, n)
  {
    assert ([h] + rest)[1..] == rest;
  }
}
