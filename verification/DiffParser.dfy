/** The parser of unified diffs. A file section is represented by its `diff --git` line,
    the lines that the header interpreter is given, in order, and its hunks; what the
    header interpreter makes of its lines (paths, status) is not part of this model. */
module DiffParser {
  import opened Prelude
  import opened DiffModel
  import opened DiffText

  datatype OpenHunk = OpenHunk(
    header: string, ranges: Ranges, lines: seq<Line>, patchLines: seq<string>,
    remainingOld: nat, remainingNew: nat)

  datatype OpenFile = OpenFile(
    title: Option<string>, headerLines: seq<string>, hunks: seq<Hunk>, patchLines: seq<string>)

  /** `title` is absent for a bare per-file patch. */
  datatype ParsedFile = ParsedFile(
    title: Option<string>, headerLines: seq<string>, hunks: seq<Hunk>, patch: string)

  predicate StartsWith(raw: string, prefix: string) {
    prefix <= raw
  }

  // ------------------------------------------------------------- hunk body

  function Opened(header: string, ranges: Ranges): OpenHunk {
    OpenHunk(header, ranges, [], [header], ranges.pre.count, ranges.post.count)
  }

  function OldNumber(h: OpenHunk, remainingOld: int): int {
    h.ranges.pre.start + (h.ranges.pre.count - remainingOld) - 1
  }

  function NewNumber(h: OpenHunk, remainingNew: int): int {
    h.ranges.post.start + (h.ranges.post.count - remainingNew) - 1
  }

  /** The hunk after one body line, or nothing if the line does not belong to it. */
  function Consume(h: OpenHunk, raw: string): Option<OpenHunk> {
    if StartsWith(raw, "\\") then Some(h.(patchLines := h.patchLines + [raw]))
    else if h.remainingOld == 0 && h.remainingNew == 0 then None
    else if StartsWith(raw, "+") then
      if h.remainingNew == 0 then None
      else Some(h.(remainingNew := h.remainingNew - 1,
                   lines := h.lines + [Line(Added, None, Some(NewNumber(h, h.remainingNew - 1)), raw[1..])],
                   patchLines := h.patchLines + [raw]))
    else if StartsWith(raw, "-") then
      if h.remainingOld == 0 then None
      else Some(h.(remainingOld := h.remainingOld - 1,
                   lines := h.lines + [Line(Removed, Some(OldNumber(h, h.remainingOld - 1)), None, raw[1..])],
                   patchLines := h.patchLines + [raw]))
    else if StartsWith(raw, " ") || raw == "" then
      if h.remainingOld == 0 || h.remainingNew == 0 then None
      else Some(h.(remainingOld := h.remainingOld - 1, remainingNew := h.remainingNew - 1,
                   lines := h.lines + [Line(Context, Some(OldNumber(h, h.remainingOld - 1)),
                                            Some(NewNumber(h, h.remainingNew - 1)),
                                            if raw == "" then "" else raw[1..])],
                   patchLines := h.patchLines + [raw]))
    else None
  }

  /** A line of the old file: one with that marker, or a context line, whose blank may have
      been cut off. */
  predicate OfOld(raw: string) {
    raw == "" || raw[0] == '-' || raw[0] == ' '
  }

  predicate OfNew(raw: string) {
    raw == "" || raw[0] == '+' || raw[0] == ' '
  }

  /** A line belongs to a hunk exactly when it is a note, or each file that it is a line of
      has lines left; it is counted in each of them, and its text is what follows the
      marker. */
  lemma {:induction false} LineIsConsumedExactly(h: OpenHunk, raw: string)
    ensures var note := raw != "" && raw[0] == '\\';
            var next, inOld, inNew := Consume(h, raw), OfOld(raw), OfNew(raw);
            && (next.Some? <==>
                note || ((inOld || inNew) && (inOld ==> h.remainingOld > 0) && (inNew ==> h.remainingNew > 0)))
            && (next.Some? ==>
                  && next.value.patchLines == h.patchLines + [raw]
                  && next.value.remainingOld == h.remainingOld - (if inOld then 1 else 0)
                  && next.value.remainingNew == h.remainingNew - (if inNew then 1 else 0)
                  && if note then next.value.lines == h.lines
                     else
                       && |next.value.lines| == |h.lines| + 1 && next.value.lines[..|h.lines|] == h.lines
                       && var line := next.value.lines[|h.lines|];
                          && line.kind == (if inOld && inNew then Context else if inOld then Removed else Added)
                          && line.text == (if raw == "" then "" else raw[1..])
                          && line.oldLine.Some? == inOld && line.newLine.Some? == inNew)
  {
  }

  /** The scratch object of an unfinished hunk. */
  class HunkBuffer {
    const header: string
    const ranges: Ranges
    var lines: seq<Line>
    var patchLines: seq<string>
    var remainingOld: nat
    var remainingNew: nat

    constructor (header: string, ranges: Ranges)
      ensures Snapshot() == Opened(header, ranges)
    {
      this.header, this.ranges := header, ranges;
      lines, patchLines := [], [header];
      remainingOld, remainingNew := ranges.pre.count, ranges.post.count;
    }

    function Snapshot(): OpenHunk
      reads this
    {
      OpenHunk(header, ranges, lines, patchLines, remainingOld, remainingNew)
    }

    method ConsumeHunkLine(raw: string) returns (consumed: bool)
      modifies this
      ensures consumed == Consume(old(Snapshot()), raw).Some?
      ensures Snapshot() == if consumed then Consume(old(Snapshot()), raw).value else old(Snapshot())
    {
      if StartsWith(raw, "\\") {
        patchLines := patchLines + [raw];
        return true;
      }
      if remainingOld <= 0 && remainingNew <= 0 { return false; }
      var marker := if raw == "" then "" else raw[..1];
      var text := if raw == "" then "" else raw[1..];
      if marker == "+" {
        if remainingNew <= 0 { return false; }
        remainingNew := remainingNew - 1;
        lines := lines
          + [Line(Added, None, Some(ranges.post.start + (ranges.post.count - remainingNew) - 1), text)];
      } else if marker == "-" {
        if remainingOld <= 0 { return false; }
        remainingOld := remainingOld - 1;
        lines := lines
          + [Line(Removed, Some(ranges.pre.start + (ranges.pre.count - remainingOld) - 1), None, text)];
      } else if marker == " " || raw == "" {
        if remainingOld <= 0 || remainingNew <= 0 { return false; }
        remainingOld := remainingOld - 1;
        remainingNew := remainingNew - 1;
        lines := lines
          + [Line(Context, Some(ranges.pre.start + (ranges.pre.count - remainingOld) - 1),
                  Some(ranges.post.start + (ranges.post.count - remainingNew) - 1),
                  if raw == "" then "" else text)];
      } else {
        return false;
      }
      patchLines := patchLines + [raw];
      return true;
    }
  }

  // ------------------------------------------------------------- the loop

  function Sealed(h: OpenHunk): Hunk {
    Hunk(h.header, h.ranges.pre.start, h.ranges.pre.count, h.ranges.post.start, h.ranges.post.count,
         h.lines, Join(h.patchLines))
  }

  predicate IsTitle(raw: string) {
    StartsWith(raw, "diff --git ")
  }

  /** A line with which a bare patch can begin. */
  predicate OpensBare(raw: string) {
    StartsWith(raw, "--- ") || StartsWith(raw, "+++ ") || ScanHeader(raw).Some?
  }

  datatype Parser = Parser(files: seq<ParsedFile>, file: Option<OpenFile>, hunk: Option<OpenHunk>) {
    function CloseHunk(): Parser {
      if file.Some? && hunk.Some?
      then Parser(files, Some(file.value.(hunks := file.value.hunks + [Sealed(hunk.value)])), None)
      else this.(hunk := None)
    }

    function CloseFile(): Parser {
      var p := CloseHunk();
      if p.file.None? then p
      else
        var f := p.file.value;
        Parser(files + [ParsedFile(f.title, f.headerLines, f.hunks, Join(f.patchLines))], None, None)
    }

    /** The loop body once the file that owns the line is known. */
    function StepInFile(raw: string): Parser
      requires file.Some?
    {
      var p := this.(file := Some(file.value.(patchLines := file.value.patchLines + [raw])));
      if hunk.Some? && Consume(hunk.value, raw).Some? then p.(hunk := Consume(hunk.value, raw))
      else
        var q := p.CloseHunk();
        var ranges := ScanHeader(raw);
        if ranges.Some? then q.(hunk := Some(Opened(raw, ranges.value)))
        else q.(file := Some(q.file.value.(headerLines := q.file.value.headerLines + [raw])))
    }

    function Step(raw: string): Parser {
      if IsTitle(raw) then CloseFile().(file := Some(OpenFile(Some(raw), [], [], [raw])))
      else if file.Some? then StepInFile(raw)
      else if OpensBare(raw) then this.(file := Some(OpenFile(None, [], [], []))).StepInFile(raw)
      else this
    }

    function StepAll(lines: seq<string>): Parser
      decreases |lines|
    {
      if lines == [] then this else Step(lines[0]).StepAll(lines[1..])
    }
  }

  const Empty := Parser([], None, None)

  function Parse(text: string): seq<ParsedFile> {
    var source := Normalize(text);
    if Blank(source) then [] else Empty.StepAll(Split(source)).CloseFile().files
  }

  function SnapshotOf(hunk: HunkBuffer?): Option<OpenHunk>
    reads hunk
  {
    if hunk == null then None else Some(hunk.Snapshot())
  }

  method ParseUnifiedDiff(text: string) returns (files: seq<ParsedFile>)
    ensures files == Parse(text)
  {
    var source := Normalize(text);
    if Blank(source) { return []; }
    files := [];
    var file: Option<OpenFile> := None;
    var hunk: HunkBuffer? := null;
    var lines := Split(source);
    assert lines[0..] == lines;
    for i := 0 to |lines|
      invariant hunk != null ==> fresh(hunk) && file.Some?
      invariant Parser(files, file, SnapshotOf(hunk)).StepAll(lines[i..]) == Empty.StepAll(lines)
    {
      var raw := lines[i];
      assert lines[i..][1..] == lines[i + 1..];
      ghost var before := Parser(files, file, SnapshotOf(hunk));
      if IsTitle(raw) {
        if file.Some? {
          var f := if hunk != null then file.value.(hunks := file.value.hunks + [Sealed(hunk.Snapshot())])
                   else file.value;
          files := files + [ParsedFile(f.title, f.headerLines, f.hunks, Join(f.patchLines))];
        }
        hunk := null;
        file := Some(OpenFile(Some(raw), [], [], [raw]));
        assert Parser(files, file, SnapshotOf(hunk)) == before.Step(raw);
        continue;
      }
      if file.None? {
        if !OpensBare(raw) { continue; }
        file := Some(OpenFile(None, [], [], []));
      }
      file := Some(file.value.(patchLines := file.value.patchLines + [raw]));
      if hunk != null {
        var consumed := hunk.ConsumeHunkLine(raw);
        if consumed {
          assert Parser(files, file, SnapshotOf(hunk)) == before.Step(raw);
          continue;
        }
        file := Some(file.value.(hunks := file.value.hunks + [Sealed(hunk.Snapshot())]));
        hunk := null;
      }
      var ranges := ScanHeader(raw);
      if ranges.Some? {
        hunk := new HunkBuffer(raw, ranges.value);
        assert Parser(files, file, SnapshotOf(hunk)) == before.Step(raw);
        continue;
      }
      file := Some(file.value.(headerLines := file.value.headerLines + [raw]));
      assert Parser(files, file, SnapshotOf(hunk)) == before.Step(raw);
    }
    assert lines[|lines|..] == [];
    if file.Some? {
      var f := if hunk != null then file.value.(hunks := file.value.hunks + [Sealed(hunk.Snapshot())])
               else file.value;
      files := files + [ParsedFile(f.title, f.headerLines, f.hunks, Join(f.patchLines))];
    }
  }
}
