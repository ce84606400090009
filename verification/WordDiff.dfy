/** The words of a changed line that its counterpart does not have, by a longest common
    subsequence of words. */
module WordDiff {
  import opened Prelude
  import opened DiffModel
  import opened DiffText

  // ----------------------------------------- longest common subsequences

  function Lcs(a: seq<string>, b: seq<string>): nat
    decreases |a| + |b|
  {
    if a == [] || b == [] then 0
    else if a[0] == b[0] then 1 + Lcs(a[1..], b[1..])
    else Max(Lcs(a[1..], b), Lcs(a, b[1..]))
  }

  /** No common subsequence is longer than `Lcs` says ... */
  lemma {:induction false} LcsIsUpperBound(c: seq<string>, a: seq<string>, b: seq<string>)
    requires Subsequence(c, a) && Subsequence(c, b)
    ensures |c| <= Lcs(a, b)
    decreases |a| + |b|
  {
    if c != [] {
      SubsequenceTail(c, a);
      SubsequenceTail(c, b);
      if a[0] == b[0] {
        LcsIsUpperBound(if c[0] == a[0] then c[1..] else c, a[1..], b[1..]);
      } else if c[0] != a[0] {
        LcsIsUpperBound(c, a[1..], b);
      } else {
        LcsIsUpperBound(c, a, b[1..]);
      }
    }
  }

  // -------------------------------------------------------------- table

  /** The length for two suffixes, by their positions. */
  function LcsFrom(left: seq<string>, right: seq<string>, i: nat, j: nat): nat
    requires i <= |left| && j <= |right|
    decreases |left| - i + |right| - j
  {
    if i == |left| || j == |right| then 0
    else if left[i] == right[j] then LcsFrom(left, right, i + 1, j + 1) + 1
    else Max(LcsFrom(left, right, i + 1, j), LcsFrom(left, right, i, j + 1))
  }

  lemma {:induction false} LcsFromIs(left: seq<string>, right: seq<string>, i: nat, j: nat)
    requires i <= |left| && j <= |right|
    ensures LcsFrom(left, right, i, j) == Lcs(left[i..], right[j..])
    decreases |left| - i + |right| - j
  {
    if i < |left| && j < |right| {
      assert left[i..][1..] == left[i + 1..] && right[j..][1..] == right[j + 1..];
      if left[i] == right[j] {
        LcsFromIs(left, right, i + 1, j + 1);
      } else {
        LcsFromIs(left, right, i + 1, j);
        LcsFromIs(left, right, i, j + 1);
      }
    }
  }

  method LcsTable(left: seq<string>, right: seq<string>) returns (table: array2<nat>)
    ensures table.Length0 == |left| + 1 && table.Length1 == |right| + 1
    ensures forall i, j {:trigger table[i, j]} | 0 <= i <= |left| && 0 <= j <= |right| ::
              table[i, j] == Lcs(left[i..], right[j..])
    ensures fresh(table)
  {
    table := new nat[|left| + 1, |right| + 1]((_, _) => 0);
    var i := |left| - 1;
    while i >= 0
      invariant -1 <= i < |left|
      invariant forall x | 0 <= x <= i :: table[x, |right|] == 0
      invariant forall x, y {:trigger table[x, y]} | i < x <= |left| && 0 <= y <= |right| ::
                  table[x, y] == LcsFrom(left, right, x, y)
    {
      var j := |right| - 1;
      while j >= 0
        invariant -1 <= j < |right|
        invariant forall x | 0 <= x < i :: table[x, |right|] == 0
        invariant forall y {:trigger table[i, y]} | j < y <= |right| :: table[i, y] == LcsFrom(left, right, i, y)
        invariant forall x, y {:trigger table[x, y]} | i < x <= |left| && 0 <= y <= |right| ::
                    table[x, y] == LcsFrom(left, right, x, y)
      {
        table[i, j] :=
          if left[i] == right[j] then table[i + 1, j + 1] + 1
          else Max(table[i + 1, j], table[i, j + 1]);
        j := j - 1;
      }
      i := i - 1;
    }
    forall x, y | 0 <= x <= |left| && 0 <= y <= |right| ensures table[x, y] == Lcs(left[x..], right[y..]) {
      LcsFromIs(left, right, x, y);
    }
  }

  // --------------------------------------------------------------- walk

  /** The pairs of positions that the walk through the table matches. */
  function Walk(mine: seq<string>, theirs: seq<string>, i: nat, j: nat): seq<(nat, nat)>
    requires i <= |mine| && j <= |theirs|
    decreases |mine| - i + |theirs| - j
  {
    if i == |mine| || j == |theirs| then []
    else if mine[i] == theirs[j] then [(i, j)] + Walk(mine, theirs, i + 1, j + 1)
    else if Lcs(mine[i + 1..], theirs[j..]) >= Lcs(mine[i..], theirs[j + 1..]) then Walk(mine, theirs, i + 1, j)
    else Walk(mine, theirs, i, j + 1)
  }

  /** ... and the walk attains the bound: it pairs equal words, in order on both sides, and
      as many of them as any common subsequence has. */
  lemma {:induction false} WalkIsLongest(mine: seq<string>, theirs: seq<string>, i: nat, j: nat)
    requires i <= |mine| && j <= |theirs|
    ensures var w := Walk(mine, theirs, i, j);
            && |w| == Lcs(mine[i..], theirs[j..])
            && (forall k | 0 <= k < |w| ::
                  i <= w[k].0 < |mine| && j <= w[k].1 < |theirs| && mine[w[k].0] == theirs[w[k].1])
            && (forall k, l | 0 <= k < l < |w| :: w[k].0 < w[l].0 && w[k].1 < w[l].1)
    decreases |mine| - i + |theirs| - j
  {
    if i < |mine| && j < |theirs| {
      assert mine[i..][1..] == mine[i + 1..] && theirs[j..][1..] == theirs[j + 1..];
      if mine[i] == theirs[j] {
        WalkIsLongest(mine, theirs, i + 1, j + 1);
      } else if Lcs(mine[i + 1..], theirs[j..]) >= Lcs(mine[i..], theirs[j + 1..]) {
        WalkIsLongest(mine, theirs, i + 1, j);
      } else {
        WalkIsLongest(mine, theirs, i, j + 1);
      }
    }
  }

  /** The words at the positions that the walk matches. */
  function WordsOf(mine: seq<string>, walk: seq<(nat, nat)>): seq<string> {
    if walk == [] then []
    else (if walk[0].0 < |mine| then [mine[walk[0].0]] else []) + WordsOf(mine, walk[1..])
  }

  lemma {:induction false} WalkWordsAreCommon(mine: seq<string>, theirs: seq<string>, i: nat, j: nat)
    requires i <= |mine| && j <= |theirs|
    ensures var words := WordsOf(mine, Walk(mine, theirs, i, j));
            && Subsequence(words, mine[i..]) && Subsequence(words, theirs[j..])
            && |words| == Lcs(mine[i..], theirs[j..])
    decreases |mine| - i + |theirs| - j
  {
    if i < |mine| && j < |theirs| {
      assert mine[i..][1..] == mine[i + 1..] && theirs[j..][1..] == theirs[j + 1..];
      if mine[i] == theirs[j] {
        WalkWordsAreCommon(mine, theirs, i + 1, j + 1);
        var rest := Walk(mine, theirs, i + 1, j + 1);
        assert ([(i, j)] + rest)[1..] == rest;
        assert ([mine[i]] + WordsOf(mine, rest))[1..] == WordsOf(mine, rest);
      } else if Lcs(mine[i + 1..], theirs[j..]) >= Lcs(mine[i..], theirs[j + 1..]) {
        WalkWordsAreCommon(mine, theirs, i + 1, j);
      } else {
        WalkWordsAreCommon(mine, theirs, i, j + 1);
      }
    }
  }

  /** `Lcs` is the greatest length of a common subsequence, and so does not depend on which
      of the two lines is looked at. */
  lemma {:induction false} LcsIsMaximum(a: seq<string>, b: seq<string>)
    ensures exists c :: Subsequence(c, a) && Subsequence(c, b) && |c| == Lcs(a, b)
    ensures forall c | Subsequence(c, a) && Subsequence(c, b) :: |c| <= Lcs(a, b)
    ensures Lcs(a, b) == Lcs(b, a)
  {
    forall c | Subsequence(c, a) && Subsequence(c, b) ensures |c| <= Lcs(a, b) { LcsIsUpperBound(c, a, b); }
    WalkWordsAreCommon(a, b, 0, 0);
    WalkWordsAreCommon(b, a, 0, 0);
    assert a[0..] == a && b[0..] == b;
    LcsIsUpperBound(WordsOf(a, Walk(a, b, 0, 0)), b, a);
    LcsIsUpperBound(WordsOf(b, Walk(b, a, 0, 0)), a, b);
  }

  // -------------------------------------------------------------- words

  datatype Word = Word(text: string, start: nat)

  datatype CharClass = Space | Letter | Other

  /** The three alternatives of the word pattern. */
  function ClassOf(c: char): CharClass {
    if IsSpace(c) then Space
    else if 'A' <= c <= 'Z' || 'a' <= c <= 'z' || '0' <= c <= '9' || c == '_' || c == '$' then Letter
    else Other
  }

  /** Where the match that begins at `at` ends. */
  function RunEnd(text: string, at: nat, next: nat): (end: nat)
    requires at < next <= |text|
    ensures next <= end <= |text|
    decreases |text| - next
  {
    if ClassOf(text[at]).Other? || next == |text| || ClassOf(text[next]) != ClassOf(text[at]) then next
    else RunEnd(text, at, next + 1)
  }

  function WordsFrom(text: string, at: nat): seq<Word>
    requires at <= |text|
    decreases |text| - at
  {
    if at == |text| then []
    else
      var end := RunEnd(text, at, at + 1);
      [Word(text[at..end], at)] + WordsFrom(text, end)
  }

  method TokenizeWords(text: string) returns (words: seq<Word>)
    ensures words == WordsFrom(text, 0)
  {
    words := [];
    var at := 0;
    while at < |text|
      invariant at <= |text|
      invariant words + WordsFrom(text, at) == WordsFrom(text, 0)
    {
      var next := at + 1;
      while next < |text| && !ClassOf(text[at]).Other? && ClassOf(text[next]) == ClassOf(text[at])
        invariant at < next <= |text|
        invariant RunEnd(text, at, next) == RunEnd(text, at, at + 1)
      {
        next := next + 1;
      }
      Regroup3(words, [Word(text[at..next], at)], WordsFrom(text, next));
      words := words + [Word(text[at..next], at)];
      at := next;
    }
  }

  function Texts(words: seq<Word>): seq<string> {
    seq(|words|, i requires 0 <= i < |words| => words[i].text)
  }

  /** Words that stand side by side from `at` to the end of the text. */
  ghost predicate Tiles(words: seq<Word>, text: string, at: nat)
    requires at <= |text|
    decreases |words|
  {
    if words == [] then at == |text|
    else
      && words[0].start == at && words[0].text != "" && at + |words[0].text| <= |text|
      && text[at..at + |words[0].text|] == words[0].text
      && Tiles(words[1..], text, at + |words[0].text|)
  }

  lemma {:induction false} WordsTile(text: string, at: nat)
    requires at <= |text|
    ensures Tiles(WordsFrom(text, at), text, at)
    decreases |text| - at
  {
    if at < |text| { WordsTile(text, RunEnd(text, at, at + 1)); }
  }

  // -------------------------------------------------------------- ranges

  type Span = (int, int)

  /** White space that only moved is noise, unless the whole line is white space. */
  predicate Dropped(words: seq<Word>, k: nat)
    requires k < |words|
  {
    Blank(words[k].text) && |words| > 1
  }

  function AddRange(ranges: seq<Span>, start: int, end: int): seq<Span> {
    if ranges != [] && ranges[|ranges| - 1].1 == start
    then ranges[|ranges| - 1 := (ranges[|ranges| - 1].0, end)]
    else ranges + [(start, end)]
  }

  /** The ranges after the first `k` words, passing over the words in `skipped`. */
  function RangesUpTo(words: seq<Word>, skipped: set<nat>, k: nat): seq<Span>
    requires k <= |words|
  {
    if k == 0 then []
    else
      var before := RangesUpTo(words, skipped, k - 1);
      if k - 1 in skipped then before
      else AddRange(before, words[k - 1].start, words[k - 1].start + |words[k - 1].text|)
  }

  function MatchedBy(walk: seq<(nat, nat)>): set<nat> {
    set k | 0 <= k < |walk| :: walk[k].0
  }

  function Skipped(words: seq<Word>, matched: set<nat>): set<nat> {
    set k: nat | k < |words| && (k in matched || Dropped(words, k))
  }

  function Changed(text: string, other: string): seq<Span> {
    var mine, theirs := WordsFrom(text, 0), WordsFrom(other, 0);
    RangesUpTo(mine, Skipped(mine, MatchedBy(Walk(Texts(mine), Texts(theirs), 0, 0))), |mine|)
  }

  lemma {:induction false} MatchStep(left: seq<string>, right: seq<string>, i: nat, j: nat)
    requires i < |left| && j < |right|
    ensures MatchedBy(Walk(left, right, i, j)) ==
            if left[i] == right[j] then {i} + MatchedBy(Walk(left, right, i + 1, j + 1))
            else if Lcs(left[i + 1..], right[j..]) >= Lcs(left[i..], right[j + 1..])
            then MatchedBy(Walk(left, right, i + 1, j))
            else MatchedBy(Walk(left, right, i, j + 1))
  {
    if left[i] == right[j] { MatchedCons((i, j), Walk(left, right, i + 1, j + 1)); }
  }

  /** The walk through the table. */
  method MatchedWords(left: seq<string>, right: seq<string>) returns (matched: set<nat>)
    ensures matched == MatchedBy(Walk(left, right, 0, 0))
  {
    var table := LcsTable(left, right);
    matched := {};
    var i, j := 0, 0;
    ghost var goal := MatchedBy(Walk(left, right, 0, 0));
    while i < |left| && j < |right|
      invariant i <= |left| && j <= |right|
      invariant matched + MatchedBy(Walk(left, right, i, j)) == goal
      invariant forall x, y {:trigger table[x, y]} | 0 <= x <= |left| && 0 <= y <= |right| ::
                  table[x, y] == Lcs(left[x..], right[y..])
      decreases |left| - i + |right| - j
    {
      MatchStep(left, right, i, j);
      assert table[i + 1, j] == Lcs(left[i + 1..], right[j..]);
      assert table[i, j + 1] == Lcs(left[i..], right[j + 1..]);
      if left[i] == right[j] {
        matched := matched + {i};
        i, j := i + 1, j + 1;
      } else if table[i + 1, j] >= table[i, j + 1] {
        i := i + 1;
      } else {
        j := j + 1;
      }
    }
    assert MatchedBy([]) == {};
  }

  lemma {:induction false} RangesStep(words: seq<Word>, skipped: set<nat>, k: nat)
    requires k < |words|
    ensures RangesUpTo(words, skipped, k + 1) ==
            if k in skipped then RangesUpTo(words, skipped, k)
            else AddRange(RangesUpTo(words, skipped, k), words[k].start, words[k].start + |words[k].text|)
  {
  }

  method RangesOf(words: seq<Word>, matched: set<nat>) returns (ranges: seq<Span>)
    ensures ranges == RangesUpTo(words, Skipped(words, matched), |words|)
  {
    ranges := [];
    for index := 0 to |words|
      invariant ranges == RangesUpTo(words, Skipped(words, matched), index)
    {
      RangesStep(words, Skipped(words, matched), index);
      if index in matched { continue; }
      if Blank(words[index].text) && |words| > 1 { continue; }
      var start := words[index].start;
      var end := start + |words[index].text|;
      if ranges != [] && ranges[|ranges| - 1].1 == start {
        ranges := ranges[|ranges| - 1 := (ranges[|ranges| - 1].0, end)];
      } else {
        ranges := ranges + [(start, end)];
      }
    }
  }

  method ChangedRanges(text: string, other: string) returns (ranges: seq<Span>)
    ensures ranges == Changed(text, other)
  {
    var mine := TokenizeWords(text);
    var theirs := TokenizeWords(other);
    var matched := MatchedWords(Texts(mine), Texts(theirs));
    ranges := RangesOf(mine, matched);
  }

  lemma {:induction false} MatchedCons(first: (nat, nat), rest: seq<(nat, nat)>)
    ensures MatchedBy([first] + rest) == {first.0} + MatchedBy(rest)
  {
    var whole := [first] + rest;
    forall x | x in {first.0} + MatchedBy(rest) ensures x in MatchedBy(whole) {
      if x == first.0 {
        assert whole[0].0 == x;
      } else {
        var k :| 0 <= k < |rest| && rest[k].0 == x;
        assert whole[k + 1].0 == x;
      }
    }
  }

  /** Sorted, non-empty, inside `0 .. limit`, and neither overlapping nor touching. */
  ghost predicate Separated(ranges: seq<Span>, limit: int) {
    && (forall k | 0 <= k < |ranges| :: 0 <= ranges[k].0 < ranges[k].1 <= limit)
    && (forall k, l | 0 <= k < l < |ranges| :: ranges[k].1 < ranges[l].0)
  }

  predicate Covers(ranges: seq<Span>, p: int) {
    exists r <- ranges :: r.0 <= p < r.1
  }

  /** Position `p` lies in one of the first `k` words that is not skipped. */
  ghost predicate InChangedWord(words: seq<Word>, skipped: set<nat>, k: nat, p: int)
    requires k <= |words|
  {
    exists i: nat | i < k :: words[i].start <= p < words[i].start + |words[i].text| && i !in skipped
  }

  lemma {:induction false} AddRangeSeparates(ranges: seq<Span>, start: int, end: int, added: seq<Span>)
    requires 0 <= start < end && Separated(ranges, start) && added == AddRange(ranges, start, end)
    ensures Separated(added, end)
  {
  }

  lemma {:induction false} SeparatedFurther(ranges: seq<Span>, limit: int, further: int)
    requires Separated(ranges, limit) && limit <= further
    ensures Separated(ranges, further)
  {
  }

  lemma {:induction false} CoversSnoc(ranges: seq<Span>, last: Span, p: int)
    ensures Covers(ranges + [last], p) <==> Covers(ranges, p) || last.0 <= p < last.1
  {
    var longer := ranges + [last];
    assert longer[|ranges|] == last;
    if Covers(longer, p) {
      var r :| r in longer && r.0 <= p < r.1;
      assert r in ranges || r == last;
    }
    if Covers(ranges, p) {
      var r :| r in ranges && r.0 <= p < r.1;
      assert r in longer;
    }
  }

  lemma {:induction false} AddRangeCovers(ranges: seq<Span>, start: int, end: int, p: int, added: seq<Span>)
    requires 0 <= start < end && Separated(ranges, start) && added == AddRange(ranges, start, end)
    ensures Covers(added, p) <==> Covers(ranges, p) || start <= p < end
  {
    if ranges != [] && ranges[|ranges| - 1].1 == start {
      var init, last := ranges[..|ranges| - 1], ranges[|ranges| - 1];
      assert ranges == init + [last] && added == init + [(last.0, end)];
      CoversSnoc(init, last, p);
      CoversSnoc(init, (last.0, end), p);
    } else {
      CoversSnoc(ranges, (start, end), p);
    }
  }

  /** Words that tile a text begin where the previous one ends. */
  lemma {:induction false} TilesInOrder(words: seq<Word>, text: string, at: nat, k: nat)
    requires at <= |text| && Tiles(words, text, at) && k < |words|
    ensures at <= words[k].start < words[k].start + |words[k].text| <= |text|
    ensures text[words[k].start..words[k].start + |words[k].text|] == words[k].text
    ensures if k + 1 < |words| then words[k + 1].start == words[k].start + |words[k].text|
            else words[k].start + |words[k].text| == |text|
    decreases k
  {
    if k > 0 { TilesInOrder(words[1..], text, at + |words[0].text|, k - 1); }
    if |words| > 1 { assert Tiles(words[1..], text, at + |words[0].text|); }
  }

  lemma {:induction false} OneMoreWord(words: seq<Word>, skipped: set<nat>, k: nat, p: int)
    requires 0 < k <= |words|
    ensures InChangedWord(words, skipped, k, p) <==>
            || InChangedWord(words, skipped, k - 1, p)
            || (words[k - 1].start <= p < words[k - 1].start + |words[k - 1].text|
                && k - 1 !in skipped)
  {
  }

  /** Word `k` ends where word `k + 1`, or the end of the text, begins. */
  ghost predicate Laid(words: seq<Word>, text: string) {
    forall k {:trigger words[k].text} | 0 <= k < |words| ::
      && 0 <= words[k].start < words[k].start + |words[k].text|
      && words[k].start + |words[k].text| == WordStart(words, text, k + 1)
  }

  function WordStart(words: seq<Word>, text: string, k: nat): int
    requires k <= |words|
  {
    if k < |words| then words[k].start else |text|
  }

  lemma {:induction false} WordsAreLaid(text: string)
    ensures Laid(WordsFrom(text, 0), text)
    ensures 0 <= WordStart(WordsFrom(text, 0), text, 0)
  {
    WordsTile(text, 0);
    var words := WordsFrom(text, 0);
    forall k: nat | k < |words|
      ensures 0 <= words[k].start < words[k].start + |words[k].text|
      ensures words[k].start + |words[k].text| == WordStart(words, text, k + 1)
    {
      TilesInOrder(words, text, 0, k);
    }
  }

  lemma {:induction false} RangesSeparate(words: seq<Word>, skipped: set<nat>, text: string, k: nat, ranges: seq<Span>)
    requires Laid(words, text) && k <= |words| && ranges == RangesUpTo(words, skipped, k)
    ensures Separated(ranges, WordStart(words, text, k))
    decreases k
  {
    if k > 0 {
      var word, before := words[k - 1], RangesUpTo(words, skipped, k - 1);
      RangesSeparate(words, skipped, text, k - 1, before);
      RangesStep(words, skipped, k - 1);
      if k - 1 in skipped {
        SeparatedFurther(before, word.start, word.start + |word.text|);
      } else {
        AddRangeSeparates(before, word.start, word.start + |word.text|, ranges);
      }
    }
  }

  lemma {:induction false} AddWordCovers(words: seq<Word>, skipped: set<nat>, text: string, k: nat, p: int)
    requires Laid(words, text) && 0 < k <= |words|
    ensures Covers(RangesUpTo(words, skipped, k), p) <==>
            || Covers(RangesUpTo(words, skipped, k - 1), p)
            || (words[k - 1].start <= p < words[k - 1].start + |words[k - 1].text| && k - 1 !in skipped)
  {
    RangesStep(words, skipped, k - 1);
    if k - 1 !in skipped {
      var word, before := words[k - 1], RangesUpTo(words, skipped, k - 1);
      RangesSeparate(words, skipped, text, k - 1, before);
      AddRangeCovers(before, word.start, word.start + |word.text|, p, RangesUpTo(words, skipped, k));
    }
  }

  lemma {:induction false} RangesCover(words: seq<Word>, skipped: set<nat>, text: string, k: nat, p: int)
    requires Laid(words, text) && k <= |words|
    ensures Covers(RangesUpTo(words, skipped, k), p) <==> InChangedWord(words, skipped, k, p)
    decreases k
  {
    if k > 0 {
      AddWordCovers(words, skipped, text, k, p);
      OneMoreWord(words, skipped, k, p);
      RangesCover(words, skipped, text, k - 1, p);
    }
  }

  /** The ranges of a line: sorted, inside the line, never touching, and covering exactly the
      words that the longest match leaves over and that are not dropped as white space. */
  lemma {:induction false} ChangedIsExact(text: string, other: string)
    ensures Separated(Changed(text, other), |text|)
    ensures var mine, theirs := WordsFrom(text, 0), WordsFrom(other, 0);
            var walk := Walk(Texts(mine), Texts(theirs), 0, 0);
            && |walk| == Lcs(Texts(mine), Texts(theirs))
            && forall p ::
                 Covers(Changed(text, other), p)
                 <==> InChangedWord(mine, Skipped(mine, MatchedBy(walk)), |mine|, p)
  {
    var mine, theirs := WordsFrom(text, 0), WordsFrom(other, 0);
    WordsAreLaid(text);
    WalkIsLongest(Texts(mine), Texts(theirs), 0, 0);
    assert Texts(mine)[0..] == Texts(mine) && Texts(theirs)[0..] == Texts(theirs);
    var skipped := Skipped(mine, MatchedBy(Walk(Texts(mine), Texts(theirs), 0, 0)));
    RangesSeparate(mine, skipped, text, |mine|, Changed(text, other));
    forall p ensures Covers(Changed(text, other), p) <==> InChangedWord(mine, skipped, |mine|, p) {
      RangesCover(mine, skipped, text, |mine|, p);
    }
  }
}
