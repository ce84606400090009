/** The block theorem. Hunks that turn one file into another are given by the unified
    format of the POSIX `diff` utility, where a range of no lines is numbered by the line
    before it. The fold assumes that a range starts at its first line, so the theorem
    comes with the exact condition under which the difference does not matter. */
module DiffAlignment {
  import opened Prelude
  import opened DiffModel
  import opened DiffBlocks
  import opened DiffReading

  /** Lines of the old file in front of the hunk; POSIX numbers an empty range by them. */
  function OldBefore(h: Hunk): int {
    if h.oldLines == 0 then h.oldStart else h.oldStart - 1
  }

  function NewBefore(h: Hunk): int {
    if h.newLines == 0 then h.newStart else h.newStart - 1
  }

  /** The hunks turn what is left of `old` after `o` lines into what is left of `new`
      after `n` lines. */
  ghost predicate Turns(pre: seq<string>, post: seq<string>, hunks: seq<Hunk>, o: nat, n: nat)
    requires o <= |pre| && n <= |post|
    decreases |hunks|
  {
    if hunks == [] then pre[o..] == post[n..]
    else
      var h := hunks[0];
      && HunkFits(pre, post, h, o, n)
      && Turns(pre, post, hunks[1..], OldBefore(h) + h.oldLines, NewBefore(h) + h.newLines)
  }

  /** The hunk continues after `o` old and `n` new lines: what it skips is the same in both
      files, and its body is what each file has there. */
  ghost predicate HunkFits(pre: seq<string>, post: seq<string>, h: Hunk, o: nat, n: nat)
    requires o <= |pre| && n <= |post|
  {
    var oh, nh := OldBefore(h), NewBefore(h);
    && o <= oh && oh - o == nh - n
    && oh + h.oldLines <= |pre| && nh + h.newLines <= |post|
    && h.oldLines + h.newLines > 0
    && pre[o..oh] == post[n..nh]
    && OldSide(h.lines) == Numbered(pre, oh)[..h.oldLines]
    && NewSide(h.lines) == Numbered(post, nh)[..h.newLines]
  }

  /** What the image has from its position on. */
  function Expected(pre: seq<string>, post: seq<string>, o: int, n: int, image: Image): seq<Entry>
    requires 0 <= o <= |pre| && 0 <= n <= |post|
  {
    if image.Old? then Numbered(pre, o) else Numbered(post, n)
  }

  /** The fold has the right position for the hunk. */
  predicate Placed(h: Hunk, o: int, oldBehind: bool, newBehind: bool) {
    if OldBefore(h) == o then oldBehind ==> h.oldLines == 0
    else !oldBehind && !newBehind && h.oldLines > 0
  }

  /** A condition on the hunk headers and the length of the new file alone. After a hunk
      with an empty pre (new) side the fold is one line behind on that side, which
      `oldBehind` (`newBehind`) records. The position is harmless only when nothing
      untouched is read while behind, no untouched line precedes an empty old side, and
      the fold has caught up on the new side by the end. */
  predicate Aligned(hunks: seq<Hunk>, o: int, n: int, oldBehind: bool, newBehind: bool, total: nat)
    decreases |hunks|
  {
    if hunks == [] then !newBehind && (oldBehind ==> n == total)
    else
      var h := hunks[0];
      && Placed(h, o, oldBehind, newBehind)
      && Aligned(hunks[1..], OldBefore(h) + h.oldLines, NewBefore(h) + h.newLines,
                 h.oldLines == 0, h.newLines == 0, total)
  }

  /** Both images are read exactly as they are; with white space ignored, a line whose
      white space alone changed is read on the old side with its new text. */
  ghost predicate ReadsBoth(blocks: seq<Block>, pre: seq<string>, post: seq<string>, o: nat, n: nat,
                            options: Options)
    requires o <= |pre| && n <= |post|
  {
    && SameOn(Old, options, Read(blocks, Old), Numbered(pre, o))
    && SameOn(New, options, Read(blocks, New), Numbered(post, n))
  }

  ghost predicate FullyExpanded(options: Options, post: seq<string>) {
    options.expandedGaps == AllGaps && options.newFileLines == Some(post)
  }

  lemma {:induction false} GapLinesAt(gap: Block, content: seq<string>, upTo: nat, i: nat)
    requires gap.Gap? && i < upTo
    requires 1 <= gap.newStart && gap.newStart - 1 + upTo <= |content|
    ensures GapLines(gap, content, upTo)[i]
            == Line(Context, Some(gap.oldStart + i), Some(gap.newStart + i), content[gap.newStart - 1 + i])
  {
    if i < upTo - 1 { GapLinesAt(gap, content, upTo - 1, i); }
  }

  /** What one gap reads as: the lines it names, or the fact that it is hidden. */
  lemma {:induction false} GapReads(
      count: nat, oldStart: int, newStart: int, post: seq<string>, options: Options, image: Image)
    requires count > 0 && FullyExpanded(options, post)
    ensures var gap := Gap(count, oldStart, newStart);
            var read := Read([SettleGap(gap, options)], image);
            if Readable(gap, post) then
              && |read| == count
              && forall i | 0 <= i < count :: read[i] == Shown(Some((if image.Old? then oldStart
                else newStart) + i), post[newStart - 1 + i])
            else read == [Hidden(count)]
  {
    var gap := Gap(count, oldStart, newStart);
    ReadOne(SettleGap(gap, options), image);
    if Readable(gap, post) {
      forall i | 0 <= i < count
        ensures Column(GapLines(gap, post, count), image)[i]
          == Shown(Some((if image.Old? then oldStart else newStart) + i), post[newStart - 1 + i])
      { GapLinesAt(gap, post, count, i); }
    }
  }

  /** A gap that names the right lines reads as both files do there. */
  lemma {:induction false} GoodGap(
      pre: seq<string>, post: seq<string>, o: nat, n: nat, count: nat, options: Options, image: Image)
    requires FullyExpanded(options, post)
    requires 0 < count && o + count <= |pre| && n + count <= |post|
    requires pre[o..o + count] == post[n..n + count]
    ensures Read([SettleGap(Gap(count, o + 1, n + 1), options)], image)
            == (if image.Old? then Numbered(pre, o) else Numbered(post, n))[..count]
  {
    GapReads(count, o + 1, n + 1, post, options, image);
    var read := Read([SettleGap(Gap(count, o + 1, n + 1), options)], image);
    SameLines(pre, post, o, n, count, read, image);
  }

  lemma {:induction false} SameLines(
      pre: seq<string>, post: seq<string>, o: nat, n: nat, count: nat, read: seq<Entry>, image: Image)
    requires o + count <= |pre| && n + count <= |post|
    requires pre[o..o + count] == post[n..n + count]
    requires |read| == count
    requires forall i | 0 <= i < count ::
               read[i] == Shown(Some((if image.Old? then o + 1 else n + 1) + i), post[n + 1 - 1 + i])
    ensures read == (if image.Old? then Numbered(pre, o) else Numbered(post, n))[..count]
  {
    var expected := if image.Old? then Numbered(pre, o) else Numbered(post, n);
    forall i | 0 <= i < count ensures read[i] == expected[i] {
      assert pre[o..o + count][i] == post[n..n + count][i];
      if image.Old? { NumberedAt(pre, o, i); } else { NumberedAt(post, n, i); }
    }
  }

  /** A gap that starts at a wrong number on some side is read wrongly there. */
  lemma {:induction false} BadGap(pre: seq<string>, post: seq<string>, o: nat, n: nat, gap: Block, rest: seq<Entry>,
               options: Options, image: Image)
    requires o <= |pre| && n <= |post| && FullyExpanded(options, post)
    requires gap.Gap? && gap.count > 0
    requires (if image.Old? then gap.oldStart else gap.newStart) != (if image.Old? then o else n) + 1
    ensures !SameOn(image, options, Read([SettleGap(gap, options)], image) + rest,
                    if image.Old? then Numbered(pre, o) else Numbered(post, n))
  {
    GapReads(gap.count, gap.oldStart, gap.newStart, post, options, image);
    var expected := if image.Old? then Numbered(pre, o) else Numbered(post, n);
    if expected != [] {
      if image.Old? { NumberedAt(pre, o, 0); } else { NumberedAt(post, n, 0); }
      var read := Read([SettleGap(gap, options)], image) + rest;
      assert !SameEntry(image.Old? && options.ignoreWhitespace, read[0], expected[0]);
    }
  }

  lemma {:induction false} SameCancel(ignore: bool, a: seq<Entry>, b: seq<Entry>, c: seq<Entry>, d: seq<Entry>)
    requires Same(ignore, a, b)
    ensures Same(ignore, a + c, b + d) <==> Same(ignore, c, d)
  {
    if Same(ignore, a + c, b + d) {
      forall i | 0 <= i < |c| ensures SameEntry(ignore, c[i], d[i]) {
        assert SameEntry(ignore, (a + c)[|a| + i], (b + d)[|b| + i]);
      }
    }
  }

  function Behind(at: int, behind: bool): int {
    if behind then at - 1 else at
  }

  /** The gap in front of a well placed hunk reads as the lines the hunk skips. */
  lemma {:induction false} GapInFront(pre: seq<string>, post: seq<string>, h: Hunk, o: nat, n: nat,
                   oldBehind: bool, newBehind: bool, options: Options, image: Image)
    requires o <= |pre| && n <= |post| && HunkFits(pre, post, h, o, n)
    requires FullyExpanded(options, post) && Placed(h, o, oldBehind, newBehind)
    ensures Read(GapBefore(h, Behind(o, oldBehind), Behind(n, newBehind), options), image)
            == Expected(pre, post, o, n, image)[..OldBefore(h) - o]
  {
    SkippedLines(pre, post, o, n, OldBefore(h) - o, options, image);
    GapOfPlaced(h, o, n, oldBehind, newBehind, options);
  }

  lemma {:induction false} SkippedLines(
      pre: seq<string>, post: seq<string>, o: nat, n: nat, count: nat, options: Options, image: Image)
    requires FullyExpanded(options, post)
    requires o + count <= |pre| && n + count <= |post| && pre[o..o + count] == post[n..n + count]
    ensures Read(if count > 0 then [SettleGap(Gap(count, o + 1, n + 1), options)] else [], image)
            == Expected(pre, post, o, n, image)[..count]
  {
    if count > 0 { GoodGap(pre, post, o, n, count, options, image); }
  }

  lemma {:induction false} GapOfPlaced(h: Hunk, o: nat, n: nat, oldBehind: bool, newBehind: bool, options: Options)
    requires Placed(h, o, oldBehind, newBehind) && o <= OldBefore(h)
    ensures var count := OldBefore(h) - o;
            GapBefore(h, Behind(o, oldBehind), Behind(n, newBehind), options)
            == if count > 0 then [SettleGap(Gap(count, o + 1, n + 1), options)] else []
  {
  }

  lemma {:induction false} JoinReads(ignore: bool, a: seq<Entry>, b: seq<Entry>, c: seq<Entry>,
                  x: seq<Entry>, y: seq<Entry>, z: seq<Entry>)
    requires Same(ignore, a, x) && Same(ignore, b, y)
    ensures Same(ignore, a + b + c, x + (y + z)) <==> Same(ignore, c, z)
  {
    SamePlus(ignore, a, x, b, y);
    SameCancel(ignore, a + b, x + y, c, z);
    Regroup3(x, y, z);
  }

  lemma {:induction false} SplitTwice(file: seq<string>, o: nat, at: nat, end: nat, mid: seq<Entry>)
    requires o <= at <= end <= |file| && mid == Numbered(file, at)[..end - at]
    ensures Numbered(file, o) == Numbered(file, o)[..at - o] + (mid + Numbered(file, end))
  {
    var whole, tail, last := Numbered(file, o), Numbered(file, at), Numbered(file, end);
    NumberedSplitAt(file, o, at);
    NumberedSplitAt(file, at, end);
    Substitute(whole, whole[..at - o], tail, mid, last);
  }

  lemma {:induction false} NumberedSplitAt(file: seq<string>, from: nat, at: nat)
    requires from <= at <= |file|
    ensures Numbered(file, from)[..at - from] + Numbered(file, at) == Numbered(file, from)
  {
    NumberedSplit(file, from, at - from);
  }

  lemma {:induction false} Substitute<T>(whole: seq<T>, front: seq<T>, tail: seq<T>, mid: seq<T>, end: seq<T>)
    requires front + tail == whole && mid + end == tail
    ensures whole == front + (mid + end)
  {
  }

  lemma {:induction false} ExpectedSplit(pre: seq<string>, post: seq<string>, h: Hunk, o: nat, n: nat, o': nat, n': nat,
                                         k: nat, side: seq<Entry>, image: Image)
    requires o <= |pre| && n <= |post| && HunkFits(pre, post, h, o, n)
    requires o' == OldBefore(h) + h.oldLines && n' == NewBefore(h) + h.newLines && k == OldBefore(h) - o
    requires side == Side(h.lines, image)
    ensures Expected(pre, post, o, n, image)
            == Expected(pre, post, o, n, image)[..k] + (side + Expected(pre, post, o', n', image))
  {
    if image.Old? {
      SplitTwice(pre, o, o + k, o', side);
    } else {
      SplitTwice(post, n, n + k, n', side);
    }
  }

  /** Past a well placed hunk, an image is read rightly exactly when the rest of it is. */
  lemma {:induction false} HunkReads(pre: seq<string>, post: seq<string>, h: Hunk, o: nat, n: nat, o': nat, n': nat,
                  gap: seq<Block>, body: seq<Block>, rest: seq<Block>, options: Options, image: Image)
    requires o <= |pre| && n <= |post| && HunkFits(pre, post, h, o, n)
    requires o' == OldBefore(h) + h.oldLines && n' == NewBefore(h) + h.newLines
    requires Read(gap, image) == Expected(pre, post, o, n, image)[..OldBefore(h) - o]
    requires SameOn(image, options, Read(body, image), Side(h.lines, image))
    ensures SameOn(image, options, Read(gap + body + rest, image), Expected(pre, post, o, n, image))
            <==> SameOn(image, options, Read(rest, image), Expected(pre, post, o', n', image))
  {
    var expected, k := Expected(pre, post, o, n, image), OldBefore(h) - o;
    ReadAppend(gap, body, image);
    ReadAppend(gap + body, rest, image);
    SameRefl(image.Old? && options.ignoreWhitespace, Read(gap, image));
    ExpectedSplit(pre, post, h, o, n, o', n', k, Side(h.lines, image), image);
    JoinReads(image.Old? && options.ignoreWhitespace, Read(gap, image), Read(body, image), Read(rest, image),
      expected[..k], Side(h.lines, image), Expected(pre, post, o', n', image));
  }

  /** The gap in front of an empty old side is one line short, so that the first added
      line stands where the last untouched line should be. */
  lemma {:induction false} ShortGap(pre: seq<string>, post: seq<string>, h: Hunk, o: nat, n: nat,
                 gap: seq<Block>, body: seq<Block>, rest: seq<Block>, options: Options)
    requires o <= |pre| && n <= |post| && HunkFits(pre, post, h, o, n)
    requires OldBefore(h) > o && h.oldLines == 0
    requires |Read(gap, New)| == OldBefore(h) - o - 1
    requires SameOn(New, options, Read(body, New), NewSide(h.lines))
    ensures !SameOn(New, options, Read(gap + body + rest, New), Numbered(post, n))
  {
    var at := OldBefore(h) - o - 1;
    ReadAppend(gap, body, New);
    ReadAppend(gap + body, rest, New);
    var read := Read(gap + body + rest, New);
    assert read[at] == Read(body, New)[0];
    assert SameEntry(false, Read(body, New)[0], NewSide(h.lines)[0]);
    NumberedAt(post, NewBefore(h), 0);
    NumberedAt(post, n, at);
    assert !SameEntry(false, read[at], Numbered(post, n)[at]);
  }

  lemma {:induction false} WrongStart(
      pre: seq<string>, post: seq<string>, o: nat, n: nat, block: Block, body: seq<Block>,
                   rest: seq<Block>, options: Options, image: Image)
    requires o <= |pre| && n <= |post| && FullyExpanded(options, post)
    requires block.Gap? && block.count > 0
    requires (if image.Old? then block.oldStart else block.newStart) != (if image.Old? then o else n) + 1
    ensures !SameOn(image, options, Read([SettleGap(block, options)] + body + rest, image),
                    Expected(pre, post, o, n, image))
  {
    var gap := [SettleGap(block, options)];
    ReadAppend(gap, body + rest, image);
    Regroup3(gap, body, rest);
    BadGap(pre, post, o, n, block, Read(body + rest, image), options, image);
  }

  /** A badly placed hunk spoils one of the images for good. */
  lemma {:induction false} Misplaced(pre: seq<string>, post: seq<string>, h: Hunk, o: nat, n: nat,
                  oldBehind: bool, newBehind: bool, body: seq<Block>, rest: seq<Block>, options: Options)
    requires o <= |pre| && n <= |post| && HunkFits(pre, post, h, o, n)
    requires FullyExpanded(options, post) && !Placed(h, o, oldBehind, newBehind)
    requires SameOn(New, options, Read(body, New), NewSide(h.lines))
    ensures !ReadsBoth(GapBefore(h, Behind(o, oldBehind), Behind(n, newBehind), options) + body + rest,
                       pre, post, o, n, options)
  {
    var po, pn := Behind(o, oldBehind), Behind(n, newBehind);
    var count := h.oldStart - 1 - po;
    var gap := GapBefore(h, po, pn, options);
    var blocks := gap + body + rest;
    if count > 0 && (oldBehind || newBehind) {
      var image := if oldBehind then Old else New;
      WrongStart(pre, post, o, n, Gap(count, po + 1, pn + 1), body, rest, options, image);
      Spoilt(blocks, pre, post, o, n, options, image);
    } else {
      if count > 0 { GapReads(count, po + 1, pn + 1, post, options, New); }
      ShortGap(pre, post, h, o, n, gap, body, rest, options);
      Spoilt(blocks, pre, post, o, n, options, New);
    }
  }

  lemma {:induction false} Spoilt(
      blocks: seq<Block>, pre: seq<string>, post: seq<string>, o: nat, n: nat, options: Options, image: Image)
    requires o <= |pre| && n <= |post|
    requires !SameOn(image, options, Read(blocks, image), Expected(pre, post, o, n, image))
    ensures !ReadsBoth(blocks, pre, post, o, n, options)
  {
  }

  lemma {:induction false} TailReads(pre: seq<string>, post: seq<string>, o: nat, n: nat,
                  oldBehind: bool, newBehind: bool, options: Options)
    requires o <= |pre| && n <= |post| && pre[o..] == post[n..]
    requires FullyExpanded(options, post)
    ensures ReadsBoth(TailGap(Behind(o, oldBehind), Behind(n, newBehind), options), pre, post, o, n, options)
            <==> !newBehind && (oldBehind ==> n == |post|)
  {
    var po, pn := Behind(o, oldBehind), Behind(n, newBehind);
    assert |pre| - o == |pre[o..]| == |post[n..]| == |post| - n;
    if |post| <= pn {
      EmptyTail(pre, post, o, n, options);
    } else if oldBehind || newBehind {
      TailBehind(pre, post, o, n, Gap(|post| - pn, po + 1, pn + 1), options, if oldBehind then Old else New);
    } else {
      GoodTail(pre, post, o, n, options);
    }
  }

  lemma {:induction false} EmptyTail(pre: seq<string>, post: seq<string>, o: nat, n: nat, options: Options)
    requires o == |pre| && n == |post|
    ensures ReadsBoth([], pre, post, o, n, options)
  {
  }

  lemma {:induction false} TailBehind(
      pre: seq<string>, post: seq<string>, o: nat, n: nat, block: Block, options: Options, image: Image)
    requires o <= |pre| && n <= |post| && FullyExpanded(options, post)
    requires block.Gap? && block.count > 0
    requires (if image.Old? then block.oldStart else block.newStart) != (if image.Old? then o else n) + 1
    ensures !ReadsBoth([SettleGap(block, options)], pre, post, o, n, options)
  {
    WrongStart(pre, post, o, n, block, [], [], options, image);
    assert [SettleGap(block, options)] + [] + [] == [SettleGap(block, options)];
  }

  lemma {:induction false} GoodTail(pre: seq<string>, post: seq<string>, o: nat, n: nat, options: Options)
    requires o <= |pre| && n < |post| && pre[o..] == post[n..] && |pre| - o == |post| - n
    requires FullyExpanded(options, post)
    ensures ReadsBoth([SettleGap(Gap(|post| - n, o + 1, n + 1), options)], pre, post, o, n, options)
  {
    var count := |post| - n;
    assert pre[o..o + count] == pre[o..] && post[n..n + count] == post[n..];
    GoodGap(pre, post, o, n, count, options, Old);
    GoodGap(pre, post, o, n, count, options, New);
    WholeTail(pre, post, o, n, [SettleGap(Gap(count, o + 1, n + 1), options)], options);
  }

  lemma {:induction false} WholeTail(
      pre: seq<string>, post: seq<string>, o: nat, n: nat, blocks: seq<Block>, options: Options)
    requires o <= |pre| && n <= |post| && |pre| - o == |post| - n
    requires Read(blocks, Old) == Numbered(pre, o)[..|post| - n]
    requires Read(blocks, New) == Numbered(post, n)[..|post| - n]
    ensures ReadsBoth(blocks, pre, post, o, n, options)
  {
    SameRefl(options.ignoreWhitespace, Numbered(pre, o));
  }

  lemma {:induction false} Unfold(
      hunks: seq<Hunk>, oldEnd: int, newEnd: int, o': int, n': int, ob: bool, nb: bool, options: Options)
    requires hunks != []
    requires o' == OldBefore(hunks[0]) + hunks[0].oldLines && n' == NewBefore(hunks[0]) + hunks[0].newLines
    requires ob == (hunks[0].oldLines == 0) && nb == (hunks[0].newLines == 0)
    ensures BlocksFrom(hunks, oldEnd, newEnd, options)
            == GapBefore(hunks[0], oldEnd, newEnd, options) + BodyBlocks(hunks[0].lines, options)
               + BlocksFrom(hunks[1..], Behind(o', ob), Behind(n', nb), options)
  {
  }

  /** The blocks made from the hunks read both files from here on exactly when the hunks are
      placed harmlessly. */
  ghost predicate ReadIffAligned(pre: seq<string>, post: seq<string>, hunks: seq<Hunk>, o: nat, n: nat,
                                 oldBehind: bool, newBehind: bool, options: Options)
    requires o <= |pre| && n <= |post|
  {
    ReadsBoth(BlocksFrom(hunks, Behind(o, oldBehind), Behind(n, newBehind), options), pre, post, o, n, options)
    <==> Aligned(hunks, o, n, oldBehind, newBehind, |post|)
  }

  lemma {:induction false} BlocksRead(pre: seq<string>, post: seq<string>, hunks: seq<Hunk>, o: nat, n: nat,
                                      oldBehind: bool, newBehind: bool, options: Options)
    requires o <= |pre| && n <= |post| && Turns(pre, post, hunks, o, n)
    requires FullyExpanded(options, post)
    ensures ReadIffAligned(pre, post, hunks, o, n, oldBehind, newBehind, options)
    decreases |hunks|
  {
    if hunks == [] {
      TailReads(pre, post, o, n, oldBehind, newBehind, options);
    } else {
      var h := hunks[0];
      var o', n', ob, nb := OldBefore(h) + h.oldLines, NewBefore(h) + h.newLines, h.oldLines == 0, h.newLines == 0;
      TurnsFirst(pre, post, hunks, o, n);
      BlocksRead(pre, post, hunks[1..], o', n', ob, nb, options);
      FirstHunkAligns(pre, post, hunks, o, n, oldBehind, newBehind, o', n', ob, nb, options);
    }
  }

  lemma {:induction false} FirstHunkAligns(pre: seq<string>, post: seq<string>, hunks: seq<Hunk>, o: nat, n: nat,
                                           oldBehind: bool, newBehind: bool, o': nat, n': nat, ob: bool, nb: bool,
                                           options: Options)
    requires o <= |pre| && n <= |post| && hunks != [] && HunkFits(pre, post, hunks[0], o, n)
    requires FullyExpanded(options, post)
    requires o' == OldBefore(hunks[0]) + hunks[0].oldLines && n' == NewBefore(hunks[0]) + hunks[0].newLines
    requires ob == (hunks[0].oldLines == 0) && nb == (hunks[0].newLines == 0)
    requires ReadIffAligned(pre, post, hunks[1..], o', n', ob, nb, options)
    ensures ReadIffAligned(pre, post, hunks, o, n, oldBehind, newBehind, options)
  {
    FirstHunkReads(pre, post, hunks, o, n, oldBehind, newBehind, o', n', ob, nb, options);
    AlignedFirst(hunks, o, n, oldBehind, newBehind, o', n', ob, nb, |post|);
  }

  lemma {:induction false} AlignedFirst(hunks: seq<Hunk>, o: int, n: int, oldBehind: bool, newBehind: bool,
                                        o': int, n': int, ob: bool, nb: bool, total: nat)
    requires hunks != []
    requires o' == OldBefore(hunks[0]) + hunks[0].oldLines && n' == NewBefore(hunks[0]) + hunks[0].newLines
    requires ob == (hunks[0].oldLines == 0) && nb == (hunks[0].newLines == 0)
    ensures Aligned(hunks, o, n, oldBehind, newBehind, total) <==>
            Placed(hunks[0], o, oldBehind, newBehind) && Aligned(hunks[1..], o', n', ob, nb, total)
  {
  }

  lemma {:induction false} TurnsFirst(pre: seq<string>, post: seq<string>, hunks: seq<Hunk>, o: nat, n: nat)
    requires o <= |pre| && n <= |post| && hunks != [] && Turns(pre, post, hunks, o, n)
    ensures HunkFits(pre, post, hunks[0], o, n)
    ensures var o', n' := OldBefore(hunks[0]) + hunks[0].oldLines, NewBefore(hunks[0]) + hunks[0].newLines;
            0 <= o' <= |pre| && 0 <= n' <= |post| && Turns(pre, post, hunks[1..], o', n')
  {
  }

  lemma {:induction false} FirstHunkReads(pre: seq<string>, post: seq<string>, hunks: seq<Hunk>, o: nat, n: nat,
                       oldBehind: bool, newBehind: bool, o': nat, n': nat, ob: bool, nb: bool, options: Options)
    requires o <= |pre| && n <= |post| && hunks != [] && HunkFits(pre, post, hunks[0], o, n)
    requires FullyExpanded(options, post)
    requires o' == OldBefore(hunks[0]) + hunks[0].oldLines && n' == NewBefore(hunks[0]) + hunks[0].newLines
    requires ob == (hunks[0].oldLines == 0) && nb == (hunks[0].newLines == 0)
    ensures ReadsBoth(BlocksFrom(hunks, Behind(o, oldBehind), Behind(n, newBehind), options),
                      pre, post, o, n, options)
            <==> Placed(hunks[0], o, oldBehind, newBehind)
                 && ReadsBoth(BlocksFrom(hunks[1..], Behind(o', ob), Behind(n', nb), options), pre, post, o', n',
                   options)
  {
    Unfold(hunks, Behind(o, oldBehind), Behind(n, newBehind), o', n', ob, nb, options);
    FirstHunk(pre, post, hunks[0], o, n, oldBehind, newBehind, o', n',
      BlocksFrom(hunks, Behind(o, oldBehind), Behind(n, newBehind), options),
      BlocksFrom(hunks[1..], Behind(o', ob), Behind(n', nb), options), options);
  }

  lemma {:induction false} FirstHunk(pre: seq<string>, post: seq<string>, h: Hunk, o: nat, n: nat,
                  oldBehind: bool, newBehind: bool, o': nat, n': nat, whole: seq<Block>, rest: seq<Block>,
                  options: Options)
    requires o <= |pre| && n <= |post| && HunkFits(pre, post, h, o, n)
    requires o' == OldBefore(h) + h.oldLines && n' == NewBefore(h) + h.newLines
    requires FullyExpanded(options, post)
    requires whole == GapBefore(h, Behind(o, oldBehind), Behind(n, newBehind), options)
                      + BodyBlocks(h.lines, options) + rest
    ensures ReadsBoth(whole, pre, post, o, n, options)
            <==> Placed(h, o, oldBehind, newBehind) && ReadsBoth(rest, pre, post, o', n', options)
  {
    var gap := GapBefore(h, Behind(o, oldBehind), Behind(n, newBehind), options);
    var body := BodyBlocks(h.lines, options);
    BodyReads(h.lines, options, Old);
    BodyReads(h.lines, options, New);
    if Placed(h, o, oldBehind, newBehind) {
      GapInFront(pre, post, h, o, n, oldBehind, newBehind, options, Old);
      GapInFront(pre, post, h, o, n, oldBehind, newBehind, options, New);
      HunkReads(pre, post, h, o, n, o', n', gap, body, rest, options, Old);
      HunkReads(pre, post, h, o, n, o', n', gap, body, rest, options, New);
    } else {
      Misplaced(pre, post, h, o, n, oldBehind, newBehind, body, rest, options);
    }
  }

  /** The block theorem: with every gap expanded, the blocks read exactly the old file,
      numbered 1 to m, on the old side and exactly the new file, numbered 1 to n, on the
      new side, if and only if the hunk positions are harmless. */
  lemma {:induction false} BlocksReadBothFiles(pre: seq<string>, post: seq<string>, hunks: seq<Hunk>, options: Options)
    requires Turns(pre, post, hunks, 0, 0) && FullyExpanded(options, post)
    ensures ReadsBoth(BlocksFrom(hunks, 0, 0, options), pre, post, 0, 0, options)
            <==> Aligned(hunks, 0, 0, false, false, |post|)
  {
    BlocksRead(pre, post, hunks, 0, 0, false, false, options);
  }

  /** Every position is harmless when no hunk has an empty side. */
  lemma {:induction false} NonEmptySidesAlign(hunks: seq<Hunk>, o: int, n: int, total: nat)
    requires forall h <- hunks :: h.oldLines > 0 && h.newLines > 0
    ensures Aligned(hunks, o, n, false, false, total)
    decreases |hunks|
  {
    if hunks != [] {
      var h := hunks[0];
      NonEmptySidesAlign(hunks[1..], OldBefore(h) + h.oldLines, NewBefore(h) + h.newLines, total);
    }
  }

  /** The case that editors with context lines produce. */
  lemma {:induction false} ContextDiffsReadBothFiles(
      pre: seq<string>, post: seq<string>, hunks: seq<Hunk>, options: Options)
    requires Turns(pre, post, hunks, 0, 0) && FullyExpanded(options, post)
    requires forall h <- hunks :: h.oldLines > 0 && h.newLines > 0
    ensures ReadsBoth(BlocksFrom(hunks, 0, 0, options), pre, post, 0, 0, options)
  {
    NonEmptySidesAlign(hunks, 0, 0, |post|);
    BlocksReadBothFiles(pre, post, hunks, options);
  }

  /** Not so for every diff: an insertion printed without context lines, between two
      untouched lines, loses the untouched line in front of it. */
  lemma {:induction false} InsertionWithoutContextIsMisread(options: Options)
    requires FullyExpanded(options, ["a", "x", "b"])
    ensures var hunk := Hunk("@@ -1,0 +2 @@", 1, 0, 2, 1, [Line(Added, None, Some(2), "x")], "");
            && Turns(["a", "b"], ["a", "x", "b"], [hunk], 0, 0)
            && !ReadsBoth(BlocksFrom([hunk], 0, 0, options), ["a", "b"], ["a", "x", "b"], 0, 0, options)
  {
    var pre, post := ["a", "b"], ["a", "x", "b"];
    var hunk := Hunk("@@ -1,0 +2 @@", 1, 0, 2, 1, [Line(Added, None, Some(2), "x")], "");
    NumberedAt(post, 1, 0);
    assert NewSide(hunk.lines) == [Shown(Some(2), "x")] by { SideOne(hunk.lines[0], New); }
    assert OldSide(hunk.lines) == [] by { SideOne(hunk.lines[0], Old); }
    assert pre[0..1] == post[0..1] && pre[1..] == post[2..];
    assert [hunk][1..] == [];
    assert HunkFits(pre, post, hunk, 0, 0);
    BlocksReadBothFiles(pre, post, [hunk], options);
  }

  // ------------------------------------------------ expanding step by step

  function ExpandRest(blocks: seq<Block>, options: Options): seq<Block> {
    if blocks == [] then []
    else
      [if blocks[0].Gap? && blocks[0].count >= 0
       then SettleGap(blocks[0], options.(expandedGaps := AllGaps)) else blocks[0]]
      + ExpandRest(blocks[1..], options)
  }

  lemma {:induction false} ExpandRestAppend(left: seq<Block>, right: seq<Block>, options: Options)
    ensures ExpandRest(left + right, options) == ExpandRest(left, options) + ExpandRest(right, options)
  {
    if left == [] {
      assert left + right == right;
    } else {
      assert (left + right)[1..] == left[1..] + right;
      ExpandRestAppend(left[1..], right, options);
    }
  }

  lemma {:induction false} ExpandRestSkips(blocks: seq<Block>, options: Options)
    requires forall b <- blocks :: !b.Gap?
    ensures ExpandRest(blocks, options) == blocks
  {
    if blocks != [] { ExpandRestSkips(blocks[1..], options); }
  }

  lemma {:induction false} BodyHasNoGap(b: Buffers, lines: seq<Line>, options: Options)
    requires forall x <- b.blocks :: !x.Gap?
    ensures forall x <- b.FeedAll(lines, options).blocks :: !x.Gap?
    ensures b.FeedAll(lines, options) == b.FeedAll(lines, options.(expandedGaps := AllGaps))
    decreases |lines|
  {
    if lines != [] { BodyHasNoGap(b.Feed(lines[0], options), lines[1..], options); }
  }

  lemma {:induction false} GapExpands(block: Block, options: Options)
    requires block.Gap? && block.count >= 0
    ensures ExpandRest([SettleGap(block, options)], options)
            == [SettleGap(block, options.(expandedGaps := AllGaps))]
  {
  }

  lemma {:induction false} BodyExpands(lines: seq<Line>, options: Options)
    ensures ExpandRest(BodyBlocks(lines, options), options)
            == BodyBlocks(lines, options.(expandedGaps := AllGaps))
  {
    BodyHasNoGap(Buffers([], [], [], []), lines, options);
    ExpandRestSkips(BodyBlocks(lines, options), options);
  }

  lemma {:induction false} PartsExpand(
      whole: seq<Block>, gap: seq<Block>, body: seq<Block>, rest: seq<Block>, options: Options)
    requires whole == gap + body + rest
    ensures ExpandRest(whole, options)
            == ExpandRest(gap, options) + ExpandRest(body, options) + ExpandRest(rest, options)
  {
    ExpandRestAppend(gap + body, rest, options);
    ExpandRestAppend(gap, body, options);
  }

  /** Which gaps the reader has expanded so far does not matter: expanding the ones that
      are left gives the blocks of the fully expanded file. */
  lemma {:induction false} ExpandingTheRest(hunks: seq<Hunk>, oldEnd: int, newEnd: int, options: Options)
    ensures ExpandRest(BlocksFrom(hunks, oldEnd, newEnd, options), options)
            == BlocksFrom(hunks, oldEnd, newEnd, options.(expandedGaps := AllGaps))
    decreases |hunks|
  {
    if hunks == [] {
      TailExpands(oldEnd, newEnd, options);
    } else {
      var h := hunks[0];
      var o', n' := h.oldStart + h.oldLines - 1, h.newStart + h.newLines - 1;
      ExpandingTheRest(hunks[1..], o', n', options);
      FirstBlocks(hunks, oldEnd, newEnd, o', n', options);
      FirstBlocks(hunks, oldEnd, newEnd, o', n', options.(expandedGaps := AllGaps));
      HunkExpands(h, oldEnd, newEnd, BlocksFrom(hunks[1..], o', n', options), options);
    }
  }

  lemma {:induction false} FirstBlocks(hunks: seq<Hunk>, oldEnd: int, newEnd: int, o': int, n': int, options: Options)
    requires hunks != []
    requires o' == hunks[0].oldStart + hunks[0].oldLines - 1 && n' == hunks[0].newStart + hunks[0].newLines - 1
    ensures BlocksFrom(hunks, oldEnd, newEnd, options)
            == GapBefore(hunks[0], oldEnd, newEnd, options) + BodyBlocks(hunks[0].lines, options)
               + BlocksFrom(hunks[1..], o', n', options)
  {
  }

  lemma {:induction false} TailExpands(oldEnd: int, newEnd: int, options: Options)
    ensures ExpandRest(TailGap(oldEnd, newEnd, options), options)
            == TailGap(oldEnd, newEnd, options.(expandedGaps := AllGaps))
  {
    var total := if options.newFileLines.Some? then |options.newFileLines.value| else 0;
    if total > newEnd { GapExpands(Gap(total - newEnd, oldEnd + 1, newEnd + 1), options); }
  }

  lemma {:induction false} HunkExpands(h: Hunk, oldEnd: int, newEnd: int, rest: seq<Block>, options: Options)
    ensures var all := options.(expandedGaps := AllGaps);
            ExpandRest(GapBefore(h, oldEnd, newEnd, options) + BodyBlocks(h.lines, options) + rest, options)
            == GapBefore(h, oldEnd, newEnd, all) + BodyBlocks(h.lines, all) + ExpandRest(rest, options)
  {
    var gap, body := GapBefore(h, oldEnd, newEnd, options), BodyBlocks(h.lines, options);
    BodyExpands(h.lines, options);
    var count := h.oldStart - 1 - oldEnd;
    if count > 0 { GapExpands(Gap(count, oldEnd + 1, newEnd + 1), options); }
    PartsExpand(gap + body + rest, gap, body, rest, options);
  }
}
