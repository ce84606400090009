/** Entities of the diff review model: body lines, hunks, and white space as the
    program's regular expressions see it. */
module DiffModel {
  import opened Prelude

  datatype LineKind = Context | Added | Removed

  /** `oldLine` is the 1-based number on the pre-image side and is absent on an added
      line; `newLine` is its counterpart on the post-image side. */
  datatype Line = Line(kind: LineKind, oldLine: Option<int>, newLine: Option<int>, text: string)

  datatype Hunk = Hunk(
    header: string,
    oldStart: nat, oldLines: nat,
    newStart: nat, newLines: nat,
    lines: seq<Line>,
    patch: string)

  /** The class `\s`, which is also what `trim` removes. */
  predicate IsSpace(c: char) {
    || '\t' <= c <= '\r' || c == ' '
    || c == '\U{a0}' || c == '\U{1680}' || '\U{2000}' <= c <= '\U{200a}'
    || c == '\U{2028}' || c == '\U{2029}' || c == '\U{202f}' || c == '\U{205f}'
    || c == '\U{3000}' || c == '\U{feff}'
  }

  /** `value.replace(/\s+/g, "")`. */
  function CollapseWhitespace(text: string): string {
    if text == "" then ""
    else (if IsSpace(text[0]) then "" else [text[0]]) + CollapseWhitespace(text[1..])
  }

  /** One line of a file as a reader of one side of the diff sees it. A gap that is still
      folded away shows no line, only that something is hidden. */
  datatype Entry = Shown(number: Option<int>, text: string) | Hidden(count: int)

  /** Lines `from + 1 ..` of a file, numbered from 1. */
  function Numbered(file: seq<string>, from: nat): (entries: seq<Entry>)
    requires from <= |file|
    ensures |entries| == |file| - from
    decreases |file| - from
  {
    if from == |file| then []
    else [Shown(Some(from + 1), file[from])] + Numbered(file, from + 1)
  }

  /** The pre-image lines of a hunk body, in order. */
  function OldSide(lines: seq<Line>): seq<Entry> {
    if lines == [] then []
    else (if lines[0].kind == Added then [] else [Shown(lines[0].oldLine, lines[0].text)])
         + OldSide(lines[1..])
  }

  /** The post-image lines of a hunk body, in order. */
  function NewSide(lines: seq<Line>): seq<Entry> {
    if lines == [] then []
    else (if lines[0].kind == Removed then [] else [Shown(lines[0].newLine, lines[0].text)])
         + NewSide(lines[1..])
  }

  lemma {:induction false} SidesAppend(left: seq<Line>, right: seq<Line>)
    ensures OldSide(left + right) == OldSide(left) + OldSide(right)
    ensures NewSide(left + right) == NewSide(left) + NewSide(right)
  {
    if left == [] {
      assert left + right == right;
    } else {
      var first, rest := left[0], left[1..];
      var oldOne := if first.kind == Added then [] else [Shown(first.oldLine, first.text)];
      var newOne := if first.kind == Removed then [] else [Shown(first.newLine, first.text)];
      SidesAppend(rest, right);
      assert (left + right)[1..] == rest + right;
      Regroup3(oldOne, OldSide(rest), OldSide(right));
      Regroup3(newOne, NewSide(rest), NewSide(right));
    }
  }

  lemma {:induction false} NumberedAt(file: seq<string>, from: nat, i: nat)
    requires from + i < |file|
    ensures Numbered(file, from)[i] == Shown(Some(from + i + 1), file[from + i])
    decreases i
  {
    if i > 0 { NumberedAt(file, from + 1, i - 1); }
  }

  lemma {:induction false} NumberedSplit(file: seq<string>, from: nat, k: nat)
    requires from + k <= |file|
    ensures Numbered(file, from)[..k] + Numbered(file, from + k) == Numbered(file, from)
    decreases k
  {
    if k > 0 {
      NumberedSplit(file, from + 1, k - 1);
      assert Numbered(file, from)[..k] == [Numbered(file, from)[0]] + Numbered(file, from + 1)[..k - 1];
    }
  }
}
