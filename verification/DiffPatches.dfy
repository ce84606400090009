/** What parsing promises for every text, well formed or not: the patches of the files put
    together are the text, and the lines of every hunk are numbered as its header says. */
module DiffPatches {
  import opened Prelude
  import opened DiffModel
  import opened DiffText
  import opened DiffParser

  function Patches(files: seq<ParsedFile>): seq<string> {
    if files == [] then [] else [files[0].patch] + Patches(files[1..])
  }

  lemma {:induction false} PatchesAppend(left: seq<ParsedFile>, right: seq<ParsedFile>)
    ensures Patches(left + right) == Patches(left) + Patches(right)
  {
    if left == [] {
      assert left + right == right;
    } else {
      assert (left + right)[1..] == left[1..] + right;
      PatchesAppend(left[1..], right);
    }
  }

  predicate Opens(raw: string) {
    IsTitle(raw) || OpensBare(raw)
  }

  /** The lines from the first one that begins a file section on. */
  function Kept(lines: seq<string>): seq<string> {
    if lines == [] || Opens(lines[0]) then lines else Kept(lines[1..])
  }

  function KeepOne(kept: seq<string>, raw: string): seq<string> {
    if kept == [] && !Opens(raw) then [] else kept + [raw]
  }

  function KeepAll(kept: seq<string>, lines: seq<string>): seq<string>
    decreases |lines|
  {
    if lines == [] then kept else KeepAll(KeepOne(kept, lines[0]), lines[1..])
  }

  lemma {:induction false} KeepAllIsKept(kept: seq<string>, lines: seq<string>)
    ensures KeepAll(kept, lines) == if kept == [] then Kept(lines) else kept + lines
    decreases |lines|
  {
    if lines != [] {
      KeepAllIsKept(KeepOne(kept, lines[0]), lines[1..]);
      assert kept + lines == kept + [lines[0]] + lines[1..];
      assert [lines[0]] + lines[1..] == lines;
    }
  }

  function Collected(p: Parser): seq<string> {
    Patches(p.files) + if p.file.Some? then [Join(p.file.value.patchLines)] else []
  }

  ghost predicate Holds(p: Parser, kept: seq<string>) {
    && (kept == [] ==> p.file.None?)
    && (p.file.None? ==> kept == [] && p.files == [] && p.hunk.None?)
    && (p.file.Some? ==> p.file.value.patchLines != [])
    && Join(Collected(p)) == Join(kept)
  }

  lemma {:induction false} JoinSnoc(lines: seq<string>, raw: string)
    requires lines != []
    ensures Join(lines + [raw]) == Join(lines) + "\n" + raw
  {
    JoinAppend(lines, [raw]);
  }

  lemma {:induction false} JoinLast(lines: seq<string>, last: string, raw: string)
    ensures Join(lines + [last + "\n" + raw]) == Join(lines + [last]) + "\n" + raw
  {
    if lines != [] {
      JoinSnoc(lines, last + "\n" + raw);
      JoinSnoc(lines, last);
    }
  }

  lemma {:induction false} TitleHolds(p: Parser, kept: seq<string>, raw: string)
    requires Holds(p, kept) && IsTitle(raw)
    ensures Holds(p.Step(raw), KeepOne(kept, raw))
  {
    var q := p.Step(raw);
    assert Join([raw]) == raw;
    if p.file.Some? {
      var closed := p.CloseFile().files;
      PatchesAppend(p.files, [closed[|p.files|]]);
      assert Patches([closed[|p.files|]]) == [Join(p.file.value.patchLines)] + Patches([]);
      assert Patches(closed) == Collected(p);
      JoinSnoc(Collected(p), raw);
      JoinSnoc(kept, raw);
    } else {
      assert Collected(q) == [raw];
    }
  }

  lemma {:induction false} StepHolds(p: Parser, kept: seq<string>, raw: string)
    requires Holds(p, kept)
    ensures Holds(p.Step(raw), KeepOne(kept, raw))
  {
    if IsTitle(raw) {
      TitleHolds(p, kept, raw);
    } else if p.file.Some? {
      JoinSnoc(p.file.value.patchLines, raw);
      JoinLast(Patches(p.files), Join(p.file.value.patchLines), raw);
      JoinSnoc(kept, raw);
    } else if OpensBare(raw) {
      assert [] + [raw] == [raw];
      assert Collected(p.Step(raw)) == [raw];
    }
  }

  lemma {:induction false} StepAllHolds(p: Parser, kept: seq<string>, lines: seq<string>)
    requires Holds(p, kept)
    ensures Holds(p.StepAll(lines), KeepAll(kept, lines))
    decreases |lines|
  {
    if lines != [] {
      StepHolds(p, kept, lines[0]);
      StepAllHolds(p.Step(lines[0]), KeepOne(kept, lines[0]), lines[1..]);
    }
  }

  lemma {:induction false} CloseCollects(p: Parser, kept: seq<string>)
    requires Holds(p, kept)
    ensures Patches(p.CloseFile().files) == Collected(p)
  {
    if p.file.Some? {
      var closed := p.CloseFile().files;
      PatchesAppend(p.files, [closed[|p.files|]]);
      assert Patches([closed[|p.files|]]) == [Join(p.file.value.patchLines)] + Patches([]);
    }
  }

  lemma {:induction false} OpenerIsNotBlank(raw: string)
    requires Opens(raw)
    ensures !Blank(raw)
  {
    assert IsTitle(raw) ==> raw[0] == 'd';
    assert ScanHeader(raw).Some? ==> "@@ -" <= raw && raw[0] == '@';
    assert StartsWith(raw, "--- ") ==> raw[0] == '-';
    assert StartsWith(raw, "+++ ") ==> raw[0] == '+';
    assert raw[0] in raw && !IsSpace(raw[0]);
  }

  lemma {:induction false} BlankKeepsNothing(lines: seq<string>)
    requires forall line <- lines :: Blank(line)
    ensures Kept(lines) == []
  {
    if lines != [] {
      assert Blank(lines[0]);
      if Opens(lines[0]) { OpenerIsNotBlank(lines[0]); }
      BlankKeepsNothing(lines[1..]);
    }
  }

  lemma {:induction false} SplitOfBlank(text: string)
    requires Blank(text)
    ensures forall line <- Split(text) :: Blank(line)
  {
    if text != "" {
      SplitOfBlank(text[1..]);
      var rest := Split(text[1..]);
      assert Blank(rest[0]) && text[0] in text;
      assert Blank([text[0]] + rest[0]);
    }
  }

  /** For every text, the patches of its files joined by newlines are the text itself with
      normalised line ends, from the first line that begins a section on. */
  lemma {:induction false} PatchesAreTheText(text: string)
    ensures Join(Patches(Parse(text))) == Join(Kept(Split(Normalize(text))))
  {
    var source := Normalize(text);
    var lines := Split(source);
    if Blank(source) {
      SplitOfBlank(source);
      BlankKeepsNothing(lines);
    } else {
      assert Holds(Empty, []) by { assert Collected(Empty) == []; }
      StepAllHolds(Empty, [], lines);
      KeepAllIsKept([], lines);
      CloseCollects(Empty.StepAll(lines), Kept(lines));
    }
  }

  /** So nothing at all is lost from a text without carriage returns that starts with a
      file section. */
  lemma {:induction false} PatchesAreAllOfTheText(text: string)
    requires Opens(Split(text)[0]) && Normalize(text) == text
    ensures Join(Patches(Parse(text))) == text
  {
    PatchesAreTheText(text);
    JoinSplit(text);
  }

  // ------------------------------------------------------------- numbering

  ghost predicate Consecutive(entries: seq<Entry>, start: int) {
    forall i | 0 <= i < |entries| :: entries[i].Shown? && entries[i].number == Some(start + i)
  }

  ghost predicate HunkSound(h: Hunk) {
    && |OldSide(h.lines)| <= h.oldLines && Consecutive(OldSide(h.lines), h.oldStart)
    && |NewSide(h.lines)| <= h.newLines && Consecutive(NewSide(h.lines), h.newStart)
  }

  ghost predicate OpenSound(h: OpenHunk) {
    && |OldSide(h.lines)| + h.remainingOld == h.ranges.pre.count
    && |NewSide(h.lines)| + h.remainingNew == h.ranges.post.count
    && Consecutive(OldSide(h.lines), h.ranges.pre.start)
    && Consecutive(NewSide(h.lines), h.ranges.post.start)
  }

  ghost predicate Sound(p: Parser) {
    && (forall f <- p.files :: forall h <- f.hunks :: HunkSound(h))
    && (p.file.Some? ==> forall h <- p.file.value.hunks :: HunkSound(h))
    && (p.hunk.Some? ==> OpenSound(p.hunk.value))
  }

  lemma {:induction false} ConsumeSound(h: OpenHunk, raw: string)
    requires OpenSound(h) && Consume(h, raw).Some?
    ensures OpenSound(Consume(h, raw).value)
  {
    var next := Consume(h, raw).value;
    if next.lines != h.lines {
      LineKeepsSound(h, next, next.lines[|h.lines|]);
    }
  }

  lemma {:induction false} LineKeepsSound(h: OpenHunk, next: OpenHunk, line: Line)
    requires OpenSound(h) && next.ranges == h.ranges && next.lines == h.lines + [line]
    requires if line.kind == Added then next.remainingOld == h.remainingOld
             else next.remainingOld == h.remainingOld - 1 && line.oldLine == Some(OldNumber(h, h.remainingOld - 1))
    requires if line.kind == Removed then next.remainingNew == h.remainingNew
             else next.remainingNew == h.remainingNew - 1 && line.newLine == Some(NewNumber(h, h.remainingNew - 1))
    ensures OpenSound(next)
  {
    SidesOfMore(h.lines, line);
  }

  lemma {:induction false} SidesOfMore(lines: seq<Line>, line: Line)
    ensures OldSide(lines + [line])
            == OldSide(lines) + if line.kind == Added then [] else [Shown(line.oldLine, line.text)]
    ensures NewSide(lines + [line])
            == NewSide(lines) + if line.kind == Removed then [] else [Shown(line.newLine, line.text)]
  {
    SidesAppend(lines, [line]);
    assert [line][1..] == [];
    assert OldSide([line]) == (if line.kind == Added then [] else [Shown(line.oldLine, line.text)]) + OldSide([]);
    assert NewSide([line]) == (if line.kind == Removed then [] else [Shown(line.newLine, line.text)]) + NewSide([]);
  }

  lemma {:induction false} CloseHunkSound(p: Parser)
    requires Sound(p)
    ensures Sound(p.CloseHunk())
  {
  }

  lemma {:induction false} StepInFileSound(p: Parser, raw: string)
    requires Sound(p) && p.file.Some?
    ensures Sound(p.StepInFile(raw))
  {
    if p.hunk.Some? && Consume(p.hunk.value, raw).Some? {
      ConsumeSound(p.hunk.value, raw);
    } else {
      CloseHunkSound(p);
    }
  }

  lemma {:induction false} StepAllSound(p: Parser, lines: seq<string>)
    requires Sound(p)
    ensures Sound(p.StepAll(lines))
    decreases |lines|
  {
    if lines != [] {
      var raw := lines[0];
      CloseHunkSound(p);
      if !IsTitle(raw) {
        if p.file.Some? {
          StepInFileSound(p, raw);
        } else if OpensBare(raw) {
          StepInFileSound(p.(file := Some(OpenFile(None, [], [], []))), raw);
        }
      }
      StepAllSound(p.Step(raw), lines[1..]);
    }
  }

  /** In every hunk of every parse, each side has at most the promised number of lines and
      numbers them one by one from the promised start. */
  lemma {:induction false} ParsedHunksAreNumbered(text: string)
    ensures forall f <- Parse(text) :: forall h <- f.hunks :: HunkSound(h)
  {
    StepAllSound(Empty, Split(Normalize(text)));
    CloseHunkSound(Empty.StepAll(Split(Normalize(text))));
  }
}
