/** Text as lines, and decimal numbers in hunk headers. */
module DiffText {
  import opened Prelude
  import opened Strings
  import opened DiffModel

  // ----------------------------------------------------------------- lines

  /** `text.replace(/\r\n/g, "\n")`. */
  function Normalize(text: string): string {
    if text == "" then ""
    else if |text| >= 2 && text[0] == '\r' && text[1] == '\n' then "\n" + Normalize(text[2..])
    else [text[0]] + Normalize(text[1..])
  }

  /** `text.split("\n")`. */
  function Split(text: string): (lines: seq<string>)
    ensures lines != []
  {
    if text == "" then [""]
    else
      var rest := Split(text[1..]);
      if text[0] == '\n' then [""] + rest else [[text[0]] + rest[0]] + rest[1..]
  }

  /** `lines.join("\n")`. */
  function Join(lines: seq<string>): string {
    if lines == [] then "" else if |lines| == 1 then lines[0] else lines[0] + "\n" + Join(lines[1..])
  }

  predicate Blank(text: string) {
    forall c <- text :: IsSpace(c)
  }

  lemma {:induction false} JoinSplit(text: string)
    ensures Join(Split(text)) == text
  {
    if text != "" {
      JoinSplit(text[1..]);
      var rest := Split(text[1..]);
      if text[0] != '\n' && |rest| > 1 {
        assert ([[text[0]] + rest[0]] + rest[1..])[1..] == rest[1..];
      }
    }
  }

  lemma {:induction false} SplitPlain(line: string, text: string)
    requires '\n' !in line
    ensures Split(line + "\n" + text) == [line] + Split(text)
    ensures Split(line) == [line]
  {
    if line == "" {
      assert line + "\n" + text == "\n" + text;
    } else {
      SplitPlain(line[1..], text);
      assert (line + "\n" + text)[1..] == line[1..] + "\n" + text;
      assert line == [line[0]] + line[1..];
    }
  }

  lemma {:induction false} SplitJoin(lines: seq<string>)
    requires lines != [] && forall line <- lines :: '\n' !in line
    ensures Split(Join(lines)) == lines
  {
    SplitPlain(lines[0], Join(lines[1..]));
    if |lines| > 1 { SplitJoin(lines[1..]); }
  }

  lemma {:induction false} JoinAppend(left: seq<string>, right: seq<string>)
    requires left != [] && right != []
    ensures Join(left + right) == Join(left) + "\n" + Join(right)
  {
    if |left| == 1 {
      assert (left + right)[1..] == right;
    } else {
      assert (left + right)[1..] == left[1..] + right;
      JoinAppend(left[1..], right);
    }
  }

  /** A line that survives the normalisation of line ends. */
  predicate Clean(line: string) {
    '\n' !in line && (line == "" || line[|line| - 1] != '\r')
  }

  lemma {:induction false} NormalizeClean(line: string)
    requires Clean(line)
    ensures Normalize(line) == line
  {
    if line != "" { NormalizeClean(line[1..]); }
  }

  lemma {:induction false} NormalizeEnd(end: string, text: string)
    requires end == "\n" || end == "\r\n"
    ensures Normalize(end + text) == "\n" + Normalize(text)
  {
    var all := end + text;
    assert all[|end|..] == text;
    if end == "\n" { assert all[0] == '\n'; } else { assert all[0] == '\r' && all[1] == '\n'; }
  }

  lemma {:induction false} NormalizeChar(c: char, rest: string)
    requires c == '\r' ==> rest == "" || rest[0] != '\n'
    ensures Normalize([c] + rest) == [c] + Normalize(rest)
  {
    assert ([c] + rest)[1..] == rest;
  }

  /** `end` is a line end, in either form. */
  lemma {:induction false} NormalizeLine(line: string, end: string, text: string)
    requires Clean(line) && (end == "\n" || end == "\r\n")
    ensures Normalize(line + (end + text)) == line + ("\n" + Normalize(text))
  {
    if line == "" {
      assert line + (end + text) == end + text;
      NormalizeEnd(end, text);
    } else {
      var c, tail := line[0], line[1..];
      assert line == [c] + tail;
      NormalizeLine(tail, end, text);
      Regroup3([c], tail, end + text);
      Regroup3([c], tail, "\n" + Normalize(text));
      assert tail + (end + text) != "" && (tail == "" ==> c != '\r');
      assert tail != "" ==> (tail + (end + text))[0] == tail[0] && tail[0] in line;
      NormalizeChar(c, tail + (end + text));
    }
  }

  function JoinWith(lines: seq<string>, carriage: seq<bool>): string
    requires |lines| == |carriage|
  {
    if lines == [] then "" else if |lines| == 1 then lines[0]
    else lines[0] + (if carriage[0] then "\r\n" else "\n") + JoinWith(lines[1..], carriage[1..])
  }

  /** Whichever line ends a printer chooses, line by line, normalisation removes the choice. */
  lemma {:induction false} NormalizeJoin(lines: seq<string>, carriage: seq<bool>)
    requires |lines| == |carriage| && forall line <- lines :: Clean(line)
    ensures Normalize(JoinWith(lines, carriage)) == Join(lines)
  {
    if |lines| == 1 {
      NormalizeClean(lines[0]);
    } else if |lines| > 1 {
      var end := if carriage[0] then "\r\n" else "\n";
      NormalizeLine(lines[0], end, JoinWith(lines[1..], carriage[1..]));
      Regroup3(lines[0], end, JoinWith(lines[1..], carriage[1..]));
      Regroup3(lines[0], "\n", Join(lines[1..]));
      NormalizeJoin(lines[1..], carriage[1..]);
    }
  }

  // --------------------------------------------------------------- numbers

  function Digit(d: nat): char
    requires d < 10
  {
    '0' + d as char
  }

  function PrintNat(n: nat): (s: string)
    ensures s != "" && forall c <- s :: IsDigit(c)
  {
    if n < 10 then [Digit(n)] else PrintNat(n / 10) + [Digit(n % 10)]
  }

  /** `Number(digits)`. */
  function Value(digits: string): nat
    requires forall c <- digits :: IsDigit(c)
  {
    if digits == "" then 0
    else
      assert IsDigit(digits[|digits| - 1]);
      10 * Value(digits[..|digits| - 1]) + (digits[|digits| - 1] as int - '0' as int)
  }

  lemma {:induction false} ValuePrint(n: nat)
    ensures Value(PrintNat(n)) == n
  {
    if n >= 10 {
      ValuePrint(n / 10);
      assert PrintNat(n)[..|PrintNat(n)| - 1] == PrintNat(n / 10);
    }
  }

  /** The length of the longest run of digits at the front: what a greedy `\d+` takes. */
  function DigitRun(s: string): (n: nat)
    ensures n <= |s| && forall c <- s[..n] :: IsDigit(c)
    ensures n < |s| ==> !IsDigit(s[n])
  {
    if s == "" || !IsDigit(s[0]) then 0 else 1 + DigitRun(s[1..])
  }

  lemma {:induction false} DigitRunIs(digits: string, rest: string)
    requires forall c <- digits :: IsDigit(c)
    requires rest == "" || !IsDigit(rest[0])
    ensures DigitRun(digits + rest) == |digits|
  {
    if digits == "" {
      assert digits + rest == rest;
    } else {
      assert (digits + rest)[1..] == digits[1..] + rest;
      DigitRunIs(digits[1..], rest);
    }
  }

  datatype Scan = Scan(value: nat, rest: string)

  function ScanNumber(s: string): Option<Scan> {
    var n := DigitRun(s);
    if n == 0 then None else Some(Scan(Value(s[..n]), s[n..]))
  }

  lemma {:induction false} ScanPrinted(n: nat, rest: string)
    requires rest == "" || !IsDigit(rest[0])
    ensures ScanNumber(PrintNat(n) + rest) == Some(Scan(n, rest))
  {
    DigitRunIs(PrintNat(n), rest);
    ValuePrint(n);
    var s := PrintNat(n) + rest;
    assert s[..|PrintNat(n)|] == PrintNat(n) && s[|PrintNat(n)|..] == rest;
  }

  datatype Range = Range(start: nat, count: nat)

  datatype RangeScan = RangeScan(range: Range, rest: string)

  /** `(\d+)(?:,(\d+))?`: a missing count means one line. */
  function ScanRange(s: string): Option<RangeScan> {
    match ScanNumber(s)
    case None => None
    case Some(Scan(start, rest)) =>
      var count := if rest != "" && rest[0] == ',' then ScanNumber(rest[1..]) else None;
      Some(if count.Some? then RangeScan(Range(start, count.value.value), count.value.rest)
           else RangeScan(Range(start, 1), rest))
  }

  function PrintRange(range: Range, short: bool): string {
    PrintNat(range.start) + (if short && range.count == 1 then "" else "," + PrintNat(range.count))
  }

  lemma {:induction false} ScanPrintedPair(range: Range, printed: string, rest: string)
    requires rest != "" && rest[0] == ' ' && printed == PrintNat(range.start) + ("," + PrintNat(range.count))
    ensures ScanRange(printed + rest) == Some(RangeScan(range, rest))
  {
    var digits := PrintNat(range.count) + rest;
    var tail := "," + digits;
    PairText(PrintNat(range.start), PrintNat(range.count), rest, printed);
    ScanPrinted(range.start, tail);
    ScanPrinted(range.count, rest);
    ScanPair(printed + rest, range.start, tail, digits, range.count, rest);
  }

  lemma {:induction false} PairText(start: string, count: string, rest: string, printed: string)
    requires printed == start + ("," + count)
    ensures printed + rest == start + ("," + (count + rest))
  {
  }

  lemma {:induction false} ScanPair(s: string, start: nat, tail: string, digits: string, count: nat, rest: string)
    requires ScanNumber(s) == Some(Scan(start, tail)) && tail == "," + digits
    requires ScanNumber(digits) == Some(Scan(count, rest))
    ensures ScanRange(s) == Some(RangeScan(Range(start, count), rest))
  {
    assert tail[1..] == digits;
  }

  lemma {:induction false} ScanPrintedRange(range: Range, short: bool, rest: string)
    requires rest != "" && rest[0] == ' '
    ensures ScanRange(PrintRange(range, short) + rest) == Some(RangeScan(range, rest))
  {
    if short && range.count == 1 {
      assert PrintRange(range, short) + rest == PrintNat(range.start) + rest;
      ScanPrinted(range.start, rest);
    } else {
      ScanPrintedPair(range, PrintRange(range, short), rest);
    }
  }

  datatype Ranges = Ranges(pre: Range, post: Range)

  function After(s: string, prefix: string): Option<string> {
    if prefix <= s then Some(s[|prefix|..]) else None
  }

  /** The pattern of a hunk header. */
  function ScanHeader(raw: string): Option<Ranges> {
    var first := After(raw, "@@ -");
    if first.None? then None
    else
      var pre := ScanRange(first.value);
      if pre.None? then None
      else
        var second := After(pre.value.rest, " +");
        if second.None? then None
        else
          var post := ScanRange(second.value);
          if post.None? || After(post.value.rest, " @@").None? then None
          else Some(Ranges(pre.value.range, post.value.range))
  }

  function PrintHeader(ranges: Ranges, shortPre: bool, shortPost: bool, section: string): string {
    "@@ -" + (PrintRange(ranges.pre, shortPre)
      + (" +" + (PrintRange(ranges.post, shortPost) + (" @@" + section))))
  }

  lemma {:induction false} AfterPlus(prefix: string, rest: string)
    ensures After(prefix + rest, prefix) == Some(rest)
  {
  }

  /** Reading back a printed header gives its ranges, with one-line counts left out or not
      and whatever follows the second pair of at-signs. */
  lemma {:induction false} HeaderRoundTrip(ranges: Ranges, shortPre: bool, shortPost: bool, section: string)
    ensures ScanHeader(PrintHeader(ranges, shortPre, shortPost, section)) == Some(ranges)
  {
    var tail := " @@" + section;
    var second := PrintRange(ranges.post, shortPost) + tail;
    var first := PrintRange(ranges.pre, shortPre) + (" +" + second);
    AfterPlus("@@ -", first);
    ScanPrintedRange(ranges.pre, shortPre, " +" + second);
    AfterPlus(" +", second);
    ScanPrintedRange(ranges.post, shortPost, tail);
    AfterPlus(" @@", section);
  }
}
