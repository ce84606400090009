/** What the blocks of a file say about its two images, and exactly when they say it
    rightly: reading the old side of the blocks top to bottom must give the old file
    numbered from 1, and reading the new side must give the new file. */
module DiffReading {
  import opened Prelude
  import opened DiffModel
  import opened DiffBlocks

  datatype Image = Old | New

  function NumberOf(line: Line, image: Image): Option<int> {
    if image.Old? then line.oldLine else line.newLine
  }

  function Side(lines: seq<Line>, image: Image): seq<Entry> {
    if image.Old? then OldSide(lines) else NewSide(lines)
  }

  /** A column of lines that all belong to the image. */
  function Column(lines: seq<Line>, image: Image): seq<Entry> {
    seq(|lines|, i requires 0 <= i < |lines| => Shown(NumberOf(lines[i], image), lines[i].text))
  }

  function ReadBlock(block: Block, image: Image): seq<Entry> {
    match block
    case Gap(count, _, _) => [Hidden(count)]
    case ContextBlock(lines) => Column(lines, image)
    case ChangeBlock(removed, added) => Column(if image.Old? then removed else added, image)
  }

  function Read(blocks: seq<Block>, image: Image): seq<Entry> {
    if blocks == [] then [] else ReadBlock(blocks[0], image) + Read(blocks[1..], image)
  }

  lemma {:induction false} ReadAppend(left: seq<Block>, right: seq<Block>, image: Image)
    ensures Read(left + right, image) == Read(left, image) + Read(right, image)
  {
    if left == [] {
      assert left + right == right;
    } else {
      assert (left + right)[1..] == left[1..] + right;
      ReadAppend(left[1..], right, image);
    }
  }

  lemma {:induction false} ReadOne(block: Block, image: Image)
    ensures Read([block], image) == ReadBlock(block, image)
  {
    assert Read([block], image) == ReadBlock(block, image) + Read([], image);
  }

  /** Equality of entries; when white space is ignored, of entries with the same number
      whose texts differ in white space only. */
  predicate SameEntry(ignore: bool, a: Entry, b: Entry) {
    || a == b
    || (ignore && a.Shown? && b.Shown? && a.number == b.number
        && CollapseWhitespace(a.text) == CollapseWhitespace(b.text))
  }

  ghost predicate Same(ignore: bool, a: seq<Entry>, b: seq<Entry>) {
    |a| == |b| && forall i | 0 <= i < |a| :: SameEntry(ignore, a[i], b[i])
  }

  /** The new image is always read exactly: a demoted line shows its new text. */
  ghost predicate SameOn(image: Image, options: Options, a: seq<Entry>, b: seq<Entry>) {
    Same(image.Old? && options.ignoreWhitespace, a, b)
  }

  // ------------------------------------------------------- hunk bodies

  lemma {:induction false} PairedPrefixCollapses(removed: seq<Line>, added: seq<Line>, i: nat)
    requires i < PairedPrefix(removed, added)
    ensures CollapseWhitespace(removed[i].text) == CollapseWhitespace(added[i].text)
  {
    if i > 0 { PairedPrefixCollapses(removed[1..], added[1..], i - 1); }
  }

  lemma {:induction false} DemotedReads(removed: seq<Line>, added: seq<Line>, k: nat, image: Image)
    requires k <= |removed| && k <= |added|
    requires forall i | 0 <= i < k :: CollapseWhitespace(removed[i].text) == CollapseWhitespace(added[i].text)
    ensures Same(image.Old?, Column(Demote(removed[..k], added[..k]), image)
                             + Column(if image.Old? then removed[k..] else added[k..], image),
                 Column(if image.Old? then removed else added, image))
  {
  }

  lemma {:induction false} SettledReads(removed: seq<Line>, added: seq<Line>, options: Options, image: Image)
    ensures SameOn(image, options, Read(Settled(removed, added, options), image),
                   Column(if image.Old? then removed else added, image))
  {
    if !options.ignoreWhitespace {
      ReadOne(ChangeBlock(removed, added), image);
    } else {
      var k := PairedPrefix(removed, added);
      var first := if k > 0 then [ContextBlock(Demote(removed[..k], added[..k]))] else [];
      var second := if k < |removed| || k < |added| then [ChangeBlock(removed[k..], added[k..])] else [];
      ReadOne(ContextBlock(Demote(removed[..k], added[..k])), image);
      ReadOne(ChangeBlock(removed[k..], added[k..]), image);
      ReadAppend(first, second, image);
      assert Read(first, image) == Column(Demote(removed[..k], added[..k]), image);
      assert Read(second, image) == Column(if image.Old? then removed[k..] else added[k..], image);
      forall i | 0 <= i < k
        ensures CollapseWhitespace(removed[i].text) == CollapseWhitespace(added[i].text)
      { PairedPrefixCollapses(removed, added, i); }
      DemotedReads(removed, added, k, image);
    }
  }

  ghost predicate Tidy(b: Buffers) {
    && (b.context == [] || (b.removed == [] && b.added == []))
    && (forall l <- b.context :: l.kind == Context)
    && (forall l <- b.removed :: l.kind == Removed)
    && (forall l <- b.added :: l.kind == Added)
  }

  function ReadBuffers(b: Buffers, image: Image): seq<Entry> {
    Read(b.blocks, image) + Column(b.context, image)
    + Column(if image.Old? then b.removed else b.added, image)
  }

  lemma {:induction false} SameRefl(ignore: bool, a: seq<Entry>)
    ensures Same(ignore, a, a)
  {
  }

  lemma {:induction false} SameTrans(ignore: bool, a: seq<Entry>, b: seq<Entry>, c: seq<Entry>)
    requires Same(ignore, a, b) && Same(ignore, b, c)
    ensures Same(ignore, a, c)
  {
    forall i | 0 <= i < |a| ensures SameEntry(ignore, a[i], c[i]) {
      assert SameEntry(ignore, a[i], b[i]) && SameEntry(ignore, b[i], c[i]);
    }
  }

  lemma {:induction false} SamePlus(ignore: bool, a: seq<Entry>, b: seq<Entry>, c: seq<Entry>, d: seq<Entry>)
    requires Same(ignore, a, b) && Same(ignore, c, d)
    ensures Same(ignore, a + c, b + d)
  {
  }

  lemma {:induction false} FlushContextReads(b: Buffers, image: Image)
    requires Tidy(b)
    ensures Tidy(b.FlushContext()) && ReadBuffers(b.FlushContext(), image) == ReadBuffers(b, image)
  {
    var read, column := Read(b.blocks, image), Column(b.context, image);
    ReadAppend(b.blocks, [ContextBlock(b.context)], image);
    ReadOne(ContextBlock(b.context), image);
    assert b.context != [] ==> Read(b.FlushContext().blocks, image) == read + column;
    assert Column([], image) == [];
    assert read + column + [] == read + column;
  }

  lemma {:induction false} WithoutContext(b: Buffers, image: Image)
    requires b.context == []
    ensures ReadBuffers(b, image)
            == Read(b.blocks, image) + Column(if image.Old? then b.removed else b.added, image)
  {
    assert Column([], image) == [];
    assert Read(b.blocks, image) + [] == Read(b.blocks, image);
  }

  lemma {:induction false} FlushChangeReads(b: Buffers, options: Options, image: Image)
    requires Tidy(b)
    ensures Tidy(b.FlushChange(options))
    ensures SameOn(image, options, ReadBuffers(b.FlushChange(options), image), ReadBuffers(b, image))
  {
    var ignore := image.Old? && options.ignoreWhitespace;
    SameRefl(ignore, ReadBuffers(b, image));
    if b.removed != [] || b.added != [] {
      var read, column := Read(b.blocks, image), Column(if image.Old? then b.removed else b.added, image);
      var settled := Read(Settled(b.removed, b.added, options), image);
      SettledReads(b.removed, b.added, options, image);
      ReadAppend(b.blocks, Settled(b.removed, b.added, options), image);
      SameRefl(ignore, read);
      SamePlus(ignore, read, read, settled, column);
      WithoutContext(b, image);
      WithoutContext(b.FlushChange(options), image);
      assert read + settled + Column([], image) == read + settled;
    }
  }

  lemma {:induction false} SideOne(line: Line, image: Image)
    ensures Side([line], image) ==
            if line.kind == (if image.Old? then Added else Removed) then []
            else [Shown(NumberOf(line, image), line.text)]
  {
    assert [line][1..] == [];
    var shown := [Shown(NumberOf(line, image), line.text)];
    assert shown + OldSide([]) == shown && shown + NewSide([]) == shown;
  }

  lemma {:induction false} SideCons(lines: seq<Line>, image: Image)
    requires lines != []
    ensures Side(lines, image) == Side([lines[0]], image) + Side(lines[1..], image)
  {
    assert lines == [lines[0]] + lines[1..];
    SidesAppend([lines[0]], lines[1..]);
  }

  /** A line put into the buffer it belongs to, once the other buffers allow it. */
  lemma {:induction false} BufferReads(b: Buffers, line: Line, image: Image)
    requires Tidy(b)
    requires line.kind.Context? ==> b.removed == [] && b.added == []
    requires line.kind.Removed? ==> b.context == [] && b.added == []
    requires line.kind.Added? ==> b.context == []
    ensures var next := match line.kind
                        case Context => b.(context := b.context + [line])
                        case Removed => b.(removed := b.removed + [line])
                        case Added => b.(added := b.added + [line]);
            Tidy(next) && ReadBuffers(next, image) == ReadBuffers(b, image) + Side([line], image)
  {
    SideOne(line, image);
    assert Column([], image) == [];
    var read := Read(b.blocks, image);
    match line.kind
    case Context =>
      assert Column(b.context + [line], image) == Column(b.context, image) + Side([line], image);
    case Removed =>
      assert image.Old? ==> Column(b.removed + [line], image) == Column(b.removed, image) + Side([line], image);
    case Added =>
      assert image.New? ==> Column(b.added + [line], image) == Column(b.added, image) + Side([line], image);
  }

  lemma {:induction false} FeedReads(b: Buffers, line: Line, options: Options, image: Image)
    requires Tidy(b)
    ensures Tidy(b.Feed(line, options))
    ensures SameOn(image, options, ReadBuffers(b.Feed(line, options), image),
                   ReadBuffers(b, image) + Side([line], image))
  {
    var ignore := image.Old? && options.ignoreWhitespace;
    var ready := match line.kind
                 case Context => b.FlushChange(options)
                 case Removed =>
                   (var c := b.FlushContext(); if c.added != [] then c.FlushChange(options) else c)
                 case Added => b.FlushContext();
    FlushChangeReads(b, options, image);
    FlushContextReads(b, image);
    FlushChangeReads(b.FlushContext(), options, image);
    SameRefl(ignore, ReadBuffers(b, image));
    SameRefl(ignore, Side([line], image));
    SamePlus(ignore, ReadBuffers(ready, image), ReadBuffers(b, image), Side([line], image), Side([line], image));
    BufferReads(ready, line, image);
  }

  lemma {:induction false} FeedAllReads(b: Buffers, lines: seq<Line>, options: Options, image: Image)
    requires Tidy(b)
    ensures Tidy(b.FeedAll(lines, options))
    ensures SameOn(image, options, ReadBuffers(b.FeedAll(lines, options), image),
                   ReadBuffers(b, image) + Side(lines, image))
    decreases |lines|
  {
    var ignore, read := image.Old? && options.ignoreWhitespace, ReadBuffers(b, image);
    if lines == [] {
      assert read + Side(lines, image) == read;
      SameRefl(ignore, read);
    } else {
      var next, one, rest := b.Feed(lines[0], options), Side([lines[0]], image), Side(lines[1..], image);
      FeedReads(b, lines[0], options, image);
      FeedAllReads(next, lines[1..], options, image);
      SameRefl(ignore, rest);
      SamePlus(ignore, ReadBuffers(next, image), read + one, rest, rest);
      SameTrans(ignore, ReadBuffers(next.FeedAll(lines[1..], options), image),
        ReadBuffers(next, image) + rest, read + one + rest);
      SideCons(lines, image);
      Regroup3(read, one, rest);
    }
  }

  /** Splitting a hunk body into context and change runs loses no line of either image,
      repeats none, and keeps their order, whether or not white space is ignored. */
  lemma {:induction false} BodyReads(lines: seq<Line>, options: Options, image: Image)
    ensures SameOn(image, options, Read(BodyBlocks(lines, options), image), Side(lines, image))
  {
    var ignore := image.Old? && options.ignoreWhitespace;
    var start := Buffers([], [], [], []);
    var fed := start.FeedAll(lines, options);
    var settled := fed.FlushContext().FlushChange(options);
    FeedAllReads(start, lines, options, image);
    FlushContextReads(fed, image);
    FlushChangeReads(fed.FlushContext(), options, image);
    assert settled.context == settled.removed == settled.added == [];
    assert ReadBuffers(settled, image) == Read(settled.blocks, image);
    assert ReadBuffers(start, image) + Side(lines, image) == Side(lines, image);
    SameTrans(ignore, Read(settled.blocks, image), ReadBuffers(fed, image), Side(lines, image));
  }
}
