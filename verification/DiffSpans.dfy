/** Highlighting of one line: a tokenizer that keeps no state between lines, and the cut of
    the line into spans that carry a syntax class and a changed flag. The keyword table and
    the profile of the language are parameters. */
module DiffSpans {
  import opened Prelude
  import opened Strings
  import opened DiffModel
  import opened WordDiff

  datatype SyntaxKind = Keyword | Str | Number | Comment | Type | Punct

  datatype Token = Token(start: nat, end: nat, kind: SyntaxKind)

  datatype Profile = Profile(lineComments: seq<string>, blockComments: bool, quotes: set<char>)

  /** What `tokenizeLine` looks up for a language; absent when highlighting is off. */
  type Language = Option<(Profile, set<string>)>

  // -------------------------------------------------------- recognizers

  function RunWhile(text: string, at: nat, ok: char -> bool): (end: nat)
    requires at <= |text|
    ensures at <= end <= |text| && forall k | at <= k < end :: ok(text[k])
    decreases |text| - at
  {
    if at == |text| || !ok(text[at]) then at else RunWhile(text, at + 1, ok)
  }

  predicate IsLetter(c: char) { 'A' <= c <= 'Z' || 'a' <= c <= 'z' }

  predicate StartsIdentifier(c: char) { IsLetter(c) || c == '_' || c == '$' }

  predicate InIdentifier(c: char) { StartsIdentifier(c) || IsDigit(c) }

  predicate InHex(c: char) { IsDigit(c) || 'a' <= c <= 'f' || 'A' <= c <= 'F' || c == '_' }

  predicate InDigits(c: char) { IsDigit(c) || c == '_' }

  predicate At(text: string, at: nat, ok: char -> bool) {
    at < |text| && ok(text[at])
  }

  /** The end of the number that begins at `at`, or `at` itself if there is none. */
  function NumberEnd(text: string, at: nat): (end: nat)
    requires at <= |text|
    ensures at <= end <= |text|
    ensures end > at <==> At(text, at, IsDigit)
  {
    if At(text, at, c => c == '0') && At(text, at + 1, c => c in "xXbBoO") && At(text, at + 2, InHex)
    then RunWhile(text, at + 2, InHex)
    else if !At(text, at, IsDigit) then at
    else
      var whole := RunWhile(text, at + 1, InDigits);
      var fraction :=
        if At(text, whole, c => c == '.') && At(text, whole + 1, IsDigit)
        then RunWhile(text, whole + 2, InDigits) else whole;
      if !At(text, fraction, c => c == 'e' || c == 'E') then fraction
      else
        var digits := if At(text, fraction + 1, c => c == '+' || c == '-') then fraction + 2 else fraction + 1;
        if At(text, digits, IsDigit) then RunWhile(text, digits, IsDigit) else fraction
  }

  function IdentifierEnd(text: string, at: nat): (end: nat)
    requires at <= |text|
    ensures at <= end <= |text| && forall k | at <= k < end :: InIdentifier(text[k])
    ensures end > at <==> At(text, at, StartsIdentifier)
  {
    if At(text, at, StartsIdentifier) then RunWhile(text, at + 1, InIdentifier) else at
  }

  /** `/^[A-Z][A-Za-z0-9_]*$/`. */
  predicate IsTypeName(word: string) {
    word != "" && 'A' <= word[0] <= 'Z' && forall c <- word :: IsLetter(c) || IsDigit(c) || c == '_'
  }

  function StringEndFrom(text: string, at: nat, quote: char): (end: nat)
    ensures end <= |text|
    ensures at <= |text| ==> at <= end
    decreases |text| - at
  {
    if at >= |text| then |text|
    else if text[at] == '\\' then StringEndFrom(text, at + 2, quote)
    else if text[at] == quote then at + 1
    else StringEndFrom(text, at + 1, quote)
  }

  /** How many backslashes stand directly in front of `p`, from `start` on. */
  function Backslashes(text: string, start: nat, p: nat): nat
    requires start <= p <= |text|
    decreases p
  {
    if p == start || text[p - 1] != '\\' then 0 else 1 + Backslashes(text, start, p - 1)
  }

  /** The quote at `p` ends a string whose text begins at `start`: no backslash escapes it. */
  predicate Closes(text: string, start: nat, p: nat, quote: char) {
    start <= p < |text| && text[p] == quote && quote != '\\' && Backslashes(text, start, p) % 2 == 0
  }

  /** The end found lies behind the first quote that is not escaped, or at the end of the
      line if there is none. */
  ghost predicate EndsString(text: string, start: nat, quote: char, end: nat) {
    if exists p :: Closes(text, start, p, quote)
    then end > start && Closes(text, start, end - 1, quote)
      && forall p | start <= p < end - 1 :: !Closes(text, start, p, quote)
    else end == |text|
  }

  lemma {:induction false} StringEndIs(text: string, start: nat, at: nat, quote: char)
    requires start <= |text| && start <= at && (at <= |text| ==> Backslashes(text, start, at) % 2 == 0)
    requires forall p | start <= p < at :: !Closes(text, start, p, quote)
    ensures EndsString(text, start, quote, StringEndFrom(text, at, quote))
    decreases |text| - at
  {
    if at < |text| {
      if text[at] == '\\' {
        StringEndIs(text, start, at + 2, quote);
      } else if text[at] == quote {
        assert Closes(text, start, at, quote);
      } else {
        StringEndIs(text, start, at + 1, quote);
      }
    }
  }

  method FindStringEnd(text: string, start: nat, quote: char) returns (end: nat)
    requires start < |text|
    ensures end == StringEndFrom(text, start + 1, quote) && EndsString(text, start + 1, quote, end)
  {
    StringEndIs(text, start + 1, start + 1, quote);
    var index := start + 1;
    while index < |text|
      invariant StringEndFrom(text, index, quote) == StringEndFrom(text, start + 1, quote)
      decreases |text| - index
    {
      if text[index] == '\\' {
        index := index + 2;
        continue;
      }
      if text[index] == quote { return index + 1; }
      index := index + 1;
    }
    return |text|;
  }

  // ----------------------------------------------------------- tokenizer

  /** One turn of the scanning loop: how far it gets and the token it finds, if any. */
  datatype Turn = Turn(end: nat, kind: Option<SyntaxKind>)

  function TurnAt(text: string, at: nat, profile: Profile, keywords: set<string>): (turn: Turn)
    requires at < |text|
    ensures at < turn.end <= |text|
  {
    if IsSpace(text[at]) then Turn(at + 1, None)
    else if exists marker <- profile.lineComments :: OccursAt(text, marker, at) then Turn(|text|, Some(Comment))
    else if profile.blockComments && OccursAt(text, "/*", at) then
      var close := IndexOf(text, "*/", at + 2);
      Turn(if close.Some? then close.value + 2 else |text|, Some(Comment))
    else if text[at] in profile.quotes then Turn(StringEndFrom(text, at + 1, text[at]), Some(Str))
    else if NumberEnd(text, at) > at then Turn(NumberEnd(text, at), Some(Number))
    else if IdentifierEnd(text, at) > at then
      var end := IdentifierEnd(text, at);
      var word := text[at..end];
      Turn(end, if word in keywords then Some(Keyword) else if IsTypeName(word) then Some(Type) else None)
    else Turn(at + 1, Some(Punct))
  }

  function TokensFrom(text: string, at: nat, profile: Profile, keywords: set<string>): seq<Token>
    requires at <= |text|
    decreases |text| - at
  {
    if at == |text| then []
    else
      var turn := TurnAt(text, at, profile, keywords);
      (if turn.kind.Some? then [Token(at, turn.end, turn.kind.value)] else [])
      + TokensFrom(text, turn.end, profile, keywords)
  }

  function Tokens(text: string, language: Language): seq<Token> {
    if language.None? then [] else TokensFrom(text, 0, language.value.0, language.value.1)
  }

  method HasLineComment(text: string, at: nat, markers: seq<string>) returns (found: bool)
    ensures found == exists marker <- markers :: OccursAt(text, marker, at)
  {
    for i := 0 to |markers|
      invariant forall k | 0 <= k < i :: !OccursAt(text, markers[k], at)
    {
      if OccursAt(text, markers[i], at) {
        assert markers[i] in markers;
        return true;
      }
    }
    return false;
  }

  /** One turn of the loop. */
  method NextTurn(text: string, index: nat, profile: Profile, keywords: set<string>) returns (turn: Turn)
    requires index < |text|
    ensures turn == TurnAt(text, index, profile, keywords)
  {
    var character := text[index];
    if IsSpace(character) { return Turn(index + 1, None); }
    var lineComment := HasLineComment(text, index, profile.lineComments);
    if lineComment { return Turn(|text|, Some(Comment)); }
    if profile.blockComments && OccursAt(text, "/*", index) {
      var close := IndexOf(text, "*/", index + 2);
      return Turn(if close.None? then |text| else close.value + 2, Some(Comment));
    }
    if character in profile.quotes {
      var end := FindStringEnd(text, index, character);
      return Turn(end, Some(Str));
    }
    var number := NumberEnd(text, index);
    if number > index { return Turn(number, Some(Number)); }
    var end := IdentifierEnd(text, index);
    if end > index {
      var word := text[index..end];
      if word in keywords { return Turn(end, Some(Keyword)); }
      return Turn(end, if IsTypeName(word) then Some(Type) else None);
    }
    turn := Turn(index + 1, Some(Punct));
  }

  lemma {:induction false} TokensStep(
      text: string, at: nat, profile: Profile, keywords: set<string>, turn: Turn, sofar: seq<Token>)
    requires at < |text| && turn == TurnAt(text, at, profile, keywords)
    ensures sofar + TokensFrom(text, at, profile, keywords) ==
            (if turn.kind.Some? then sofar + [Token(at, turn.end, turn.kind.value)] else sofar)
            + TokensFrom(text, turn.end, profile, keywords)
  {
    var found := if turn.kind.Some? then [Token(at, turn.end, turn.kind.value)] else [];
    Regroup3(sofar, found, TokensFrom(text, turn.end, profile, keywords));
  }

  method TokenizeLine(text: string, language: Language) returns (tokens: seq<Token>)
    ensures tokens == Tokens(text, language)
  {
    if language.None? || text == "" { return []; }
    var (profile, keywords) := language.value;
    tokens := [];
    var index := 0;
    while index < |text|
      invariant index <= |text|
      invariant tokens + TokensFrom(text, index, profile, keywords) == TokensFrom(text, 0, profile, keywords)
    {
      var turn := NextTurn(text, index, profile, keywords);
      TokensStep(text, index, profile, keywords, turn, tokens);
      if turn.kind.Some? { tokens := tokens + [Token(index, turn.end, turn.kind.value)]; }
      index := turn.end;
    }
  }

  ghost predicate InOrder(tokens: seq<Token>, from: nat, limit: nat) {
    && (forall t <- tokens :: from <= t.start < t.end <= limit)
    && (forall i, j | 0 <= i < j < |tokens| :: tokens[i].end <= tokens[j].start)
  }

  predicate Inside(t: Token, p: int) {
    t.start <= p < t.end
  }

  ghost predicate Uncovered(tokens: seq<Token>, p: int) {
    forall t <- tokens :: !Inside(t, p)
  }

  predicate Unmarked(c: char) {
    IsSpace(c) || InIdentifier(c)
  }

  lemma {:induction false} TurnSkips(text: string, at: nat, profile: Profile, keywords: set<string>, p: nat)
    requires at < |text| && at <= p < TurnAt(text, at, profile, keywords).end
    requires TurnAt(text, at, profile, keywords).kind.None?
    ensures Unmarked(text[p])
  {
  }

  lemma {:induction false} OrderCons(first: Token, rest: seq<Token>, limit: nat)
    requires first.start < first.end <= limit && InOrder(rest, first.end, limit)
    ensures InOrder([first] + rest, first.start, limit)
  {
  }

  /** Tokens are sorted, non-empty, disjoint and inside the line ... */
  lemma {:induction false} TokensFromAreInOrder(text: string, at: nat, profile: Profile, keywords: set<string>)
    requires at <= |text|
    ensures InOrder(TokensFrom(text, at, profile, keywords), at, |text|)
    decreases |text| - at
  {
    if at < |text| {
      var turn := TurnAt(text, at, profile, keywords);
      var rest := TokensFrom(text, turn.end, profile, keywords);
      TokensFromAreInOrder(text, turn.end, profile, keywords);
      if turn.kind.Some? {
        OrderCons(Token(at, turn.end, turn.kind.value), rest, |text|);
      } else {
        assert [] + rest == rest;
      }
    }
  }

  /** ... and what they leave out is white space and plain identifiers. */
  lemma {:induction false} TokensCover(text: string, at: nat, profile: Profile, keywords: set<string>, p: nat)
    requires at <= p < |text|
    ensures Uncovered(TokensFrom(text, at, profile, keywords), p) ==> Unmarked(text[p])
    decreases |text| - at
  {
    var turn := TurnAt(text, at, profile, keywords);
    var tokens, rest := TokensFrom(text, at, profile, keywords), TokensFrom(text, turn.end, profile, keywords);
    if p >= turn.end {
      assert forall t <- rest :: t in tokens;
      TokensCover(text, turn.end, profile, keywords, p);
    } else if turn.kind.Some? {
      assert Token(at, turn.end, turn.kind.value) == tokens[0] && Inside(tokens[0], p);
    } else {
      TurnSkips(text, at, profile, keywords, p);
    }
  }

  lemma {:induction false} TokensAreInOrder(text: string, language: Language)
    ensures InOrder(Tokens(text, language), 0, |text|)
    ensures language.Some? ==> forall p: nat | p < |text| && Uncovered(Tokens(text, language), p) :: Unmarked(text[p])
  {
    if language.Some? {
      TokensFromAreInOrder(text, 0, language.value.0, language.value.1);
      forall p: nat | p < |text| && Uncovered(Tokens(text, language), p) ensures Unmarked(text[p]) {
        TokensCover(text, 0, language.value.0, language.value.1, p);
      }
    }
  }

  // --------------------------------------------------------------- spans

  datatype DiffSpan = DiffSpan(text: string, syntax: Option<SyntaxKind>, changed: bool)

  /** The class of the token that holds the position. */
  function SyntaxAt(tokens: seq<Token>, p: int): Option<SyntaxKind> {
    if tokens == [] then None
    else if Inside(tokens[0], p) then Some(tokens[0].kind)
    else SyntaxAt(tokens[1..], p)
  }

  /** Everything a reader can see at one position. */
  datatype Glyph = Glyph(character: char, syntax: Option<SyntaxKind>, changed: bool)

  function GlyphsOf(text: string, tokens: seq<Token>, changed: seq<Span>): seq<Glyph> {
    seq(|text|, p requires 0 <= p < |text| => Glyph(text[p], SyntaxAt(tokens, p), Covers(changed, p)))
  }

  function GlyphsIn(span: DiffSpan): seq<Glyph> {
    seq(|span.text|, i requires 0 <= i < |span.text| => Glyph(span.text[i], span.syntax, span.changed))
  }

  function Visible(spans: seq<DiffSpan>): seq<Glyph> {
    if spans == [] then [] else GlyphsIn(spans[0]) + Visible(spans[1..])
  }

  lemma {:induction false} VisibleAppend(left: seq<DiffSpan>, right: seq<DiffSpan>)
    ensures Visible(left + right) == Visible(left) + Visible(right)
  {
    if left == [] {
      assert left + right == right;
    } else {
      assert (left + right)[1..] == left[1..] + right;
      VisibleAppend(left[1..], right);
    }
  }

  predicate Alike(a: DiffSpan, b: DiffSpan) {
    a.syntax == b.syntax && a.changed == b.changed
  }

  /** No empty span, and no two neighbours that could be one. */
  ghost predicate Canonical(spans: seq<DiffSpan>) {
    && (forall i | 0 <= i < |spans| :: spans[i].text != "")
    && (forall i | 0 < i < |spans| :: !Alike(spans[i - 1], spans[i]))
  }

  /** Adding a number to a JavaScript set of numbers that is sorted when it is read. */
  function AddPoint(points: seq<int>, x: int): seq<int> {
    if points == [] || x < points[0] then [x] + points
    else if x == points[0] then points
    else [points[0]] + AddPoint(points[1..], x)
  }

  ghost predicate Increasing(points: seq<int>) {
    forall i, j | 0 <= i < j < |points| :: points[i] < points[j]
  }

  lemma {:induction false} AddPointIncreases(points: seq<int>, x: int)
    requires Increasing(points)
    ensures Increasing(AddPoint(points, x))
    ensures forall y :: y in AddPoint(points, x) <==> y in points || y == x
  {
    if points != [] && x > points[0] {
      var rest := AddPoint(points[1..], x);
      AddPointIncreases(points[1..], x);
      assert points == [points[0]] + points[1..];
      forall i | 0 <= i < |rest| ensures points[0] < rest[i] { assert rest[i] in rest; }
    }
  }

  function PieceSyntax(tokens: seq<Token>, start: int, end: int): Option<SyntaxKind> {
    if tokens == [] then None
    else if tokens[0].start <= start && tokens[0].end >= end then Some(tokens[0].kind)
    else PieceSyntax(tokens[1..], start, end)
  }

  lemma {:induction false} PieceSyntaxIsUniform(tokens: seq<Token>, start: int, end: int, p: int)
    requires start <= p < end
    requires forall t <- tokens :: (t.start <= start || end <= t.start) && (t.end <= start || end <= t.end)
    ensures PieceSyntax(tokens, start, end) == SyntaxAt(tokens, p)
  {
    if tokens != [] {
      assert tokens[0] in tokens;
      PieceSyntaxIsUniform(tokens[1..], start, end, p);
    }
  }

  lemma {:induction false} PieceChangeIsUniform(changed: seq<Span>, start: int, end: int, p: int)
    requires start <= p < end
    requires forall r <- changed :: (r.0 <= start || end <= r.0) && (r.1 <= start || end <= r.1)
    ensures Spanned(changed, start, end) <==> Covers(changed, p)
  {
  }

  /** Some range covers the whole piece. */
  predicate Spanned(changed: seq<Span>, start: int, end: int) {
    exists r <- changed :: r.0 <= start && r.1 >= end
  }

  function AddSpan(spans: seq<DiffSpan>, piece: DiffSpan): seq<DiffSpan> {
    if spans != [] && Alike(spans[|spans| - 1], piece)
    then spans[|spans| - 1 := spans[|spans| - 1].(text := spans[|spans| - 1].text + piece.text)]
    else spans + [piece]
  }

  lemma {:induction false} AddSpanIsCanonical(spans: seq<DiffSpan>, piece: DiffSpan)
    requires Canonical(spans) && piece.text != ""
    ensures Canonical(AddSpan(spans, piece))
  {
  }

  lemma {:induction false} LongerShows(before: seq<DiffSpan>, last: DiffSpan, piece: DiffSpan)
    requires Alike(last, piece)
    ensures Visible(before + [last.(text := last.text + piece.text)]) == Visible(before + [last]) + GlyphsIn(piece)
  {
    var longer := last.(text := last.text + piece.text);
    VisibleSnoc(before, last);
    VisibleSnoc(before, longer);
    LongerGlyphs(last, piece, longer);
    Regroup3(Visible(before), GlyphsIn(last), GlyphsIn(piece));
  }

  lemma {:induction false} VisibleSnoc(before: seq<DiffSpan>, span: DiffSpan)
    ensures Visible(before + [span]) == Visible(before) + GlyphsIn(span)
  {
    VisibleAppend(before, [span]);
    VisibleOne(span);
  }

  lemma {:induction false} LongerGlyphs(last: DiffSpan, piece: DiffSpan, longer: DiffSpan)
    requires Alike(last, piece) && Alike(longer, piece) && longer.text == last.text + piece.text
    ensures GlyphsIn(longer) == GlyphsIn(last) + GlyphsIn(piece)
  {
  }

  lemma {:induction false} AddSpanShows(spans: seq<DiffSpan>, piece: DiffSpan)
    ensures Visible(AddSpan(spans, piece)) == Visible(spans) + GlyphsIn(piece)
  {
    if spans != [] && Alike(spans[|spans| - 1], piece) {
      var before, last := spans[..|spans| - 1], spans[|spans| - 1];
      assert spans == before + [last];
      assert AddSpan(spans, piece) == before + [last.(text := last.text + piece.text)];
      LongerShows(before, last, piece);
    } else {
      VisibleOne(piece);
      VisibleAppend(spans, [piece]);
    }
  }

  lemma {:induction false} VisibleOne(span: DiffSpan)
    ensures Visible([span]) == GlyphsIn(span)
  {
    assert Visible([span]) == GlyphsIn(span) + Visible([]);
  }

  /** Between two neighbouring points nothing begins or ends. */
  lemma {:induction false} PieceIsUniform(
      points: seq<int>, index: nat, tokens: seq<Token>, changed: seq<Span>, length: nat, p: int)
    requires index + 1 < |points| && Increasing(points) && points[index] <= p < points[index + 1]
    requires 0 <= points[index] && points[index + 1] <= length
    requires forall t <- tokens :: t.start in points && t.end in points
    requires forall r <- changed :: Max(0, r.0) in points && Min(length, r.1) in points
    ensures PieceSyntax(tokens, points[index], points[index + 1]) == SyntaxAt(tokens, p)
    ensures Spanned(changed, points[index], points[index + 1]) <==> Covers(changed, p)
  {
    var start, end := points[index], points[index + 1];
    forall x | x in points ensures x <= start || end <= x {
      var k :| 0 <= k < |points| && points[k] == x;
      if k < index { assert points[k] < points[index]; }
      if k > index + 1 { assert points[index + 1] < points[k]; }
    }
    PieceSyntaxIsUniform(tokens, start, end, p);
    forall r <- changed ensures (r.0 <= start || end <= r.0) && (r.1 <= start || end <= r.1) {
      assert Max(0, r.0) in points && Min(length, r.1) in points;
    }
    PieceChangeIsUniform(changed, start, end, p);
  }

  /** Collects every position at which the line may have to be cut. */
  ghost predicate Points(points: seq<int>, length: nat) {
    Increasing(points) && (forall x <- points :: 0 <= x <= length) && 0 in points && length in points
  }

  function TokenPoints(points: seq<int>, tokens: seq<Token>): seq<int> {
    if tokens == [] then points
    else
      var last := tokens[|tokens| - 1];
      AddPoint(AddPoint(TokenPoints(points, tokens[..|tokens| - 1]), last.start), last.end)
  }

  function RangePoints(points: seq<int>, changed: seq<Span>, length: nat): seq<int> {
    if changed == [] then points
    else
      var last := changed[|changed| - 1];
      AddPoint(AddPoint(RangePoints(points, changed[..|changed| - 1], length), Max(0, last.0)), Min(length, last.1))
  }

  function BoundariesOf(text: string, tokens: seq<Token>, changed: seq<Span>): seq<int> {
    RangePoints(TokenPoints(AddPoint([0], |text|), tokens), changed, |text|)
  }

  method Boundaries(text: string, tokens: seq<Token>, changed: seq<Span>) returns (points: seq<int>)
    ensures points == BoundariesOf(text, tokens, changed)
  {
    points := AddPoint([0], |text|);
    ghost var ends := points;
    for i := 0 to |tokens|
      invariant points == TokenPoints(ends, tokens[..i])
    {
      assert tokens[..i + 1][..i] == tokens[..i];
      points := AddPoint(points, tokens[i].start);
      points := AddPoint(points, tokens[i].end);
    }
    assert tokens[..|tokens|] == tokens;
    ghost var inside := points;
    for i := 0 to |changed|
      invariant points == RangePoints(inside, changed[..i], |text|)
    {
      assert changed[..i + 1][..i] == changed[..i];
      points := AddPoint(points, Max(0, changed[i].0));
      points := AddPoint(points, Min(|text|, changed[i].1));
    }
    assert changed[..|changed|] == changed;
  }

  lemma {:induction false} TokenPointsAre(points: seq<int>, tokens: seq<Token>)
    requires Increasing(points)
    ensures Increasing(TokenPoints(points, tokens))
    ensures forall x :: x in TokenPoints(points, tokens) <==>
              x in points || exists t <- tokens :: x == t.start || x == t.end
  {
    if tokens != [] {
      var init, last := tokens[..|tokens| - 1], tokens[|tokens| - 1];
      assert tokens == init + [last];
      TokenPointsAre(points, init);
      AddPointIncreases(TokenPoints(points, init), last.start);
      AddPointIncreases(AddPoint(TokenPoints(points, init), last.start), last.end);
    }
  }

  lemma {:induction false} RangePointsAre(points: seq<int>, changed: seq<Span>, length: nat)
    requires Increasing(points)
    ensures Increasing(RangePoints(points, changed, length))
    ensures forall x :: x in RangePoints(points, changed, length) <==>
              x in points || exists r <- changed :: x == Max(0, r.0) || x == Min(length, r.1)
  {
    if changed != [] {
      var init, last := changed[..|changed| - 1], changed[|changed| - 1];
      assert changed == init + [last];
      RangePointsAre(points, init, length);
      AddPointIncreases(RangePoints(points, init, length), Max(0, last.0));
      AddPointIncreases(AddPoint(RangePoints(points, init, length), Max(0, last.0)), Min(length, last.1));
    }
  }

  /** The points are the ends of the line, of its tokens and of the ranges, in order. */
  lemma {:induction false} BoundariesAre(text: string, tokens: seq<Token>, changed: seq<Span>)
    ensures var points := BoundariesOf(text, tokens, changed);
            && Increasing(points) && 0 in points && |text| in points
            && (forall t <- tokens :: t.start in points && t.end in points)
            && (forall r <- changed :: Max(0, r.0) in points && Min(|text|, r.1) in points)
            && (forall x <- points ::
                  || x == 0 || x == |text|
                  || (exists t <- tokens :: x == t.start || x == t.end)
                  || (exists r <- changed :: x == Max(0, r.0) || x == Min(|text|, r.1)))
  {
    var ends := AddPoint([0], |text|);
    var inside := TokenPoints(ends, tokens);
    AddPointIncreases([0], |text|);
    TokenPointsAre(ends, tokens);
    RangePointsAre(inside, changed, |text|);
  }

  /** Ranges that touch the line. */
  ghost predicate InRange(changed: seq<Span>, length: nat) {
    forall r <- changed :: r.0 <= length && 0 <= r.1
  }

  lemma {:induction false} PointsInRange(text: string, tokens: seq<Token>, changed: seq<Span>)
    requires InOrder(tokens, 0, |text|) && InRange(changed, |text|)
    ensures Points(BoundariesOf(text, tokens, changed), |text|)
  {
    BoundariesAre(text, tokens, changed);
  }

  lemma {:induction false} PointsSpan(points: seq<int>, length: nat)
    requires Increasing(points) && (forall x <- points :: 0 <= x <= length) && 0 in points && length in points
    ensures points[0] == 0 && points[|points| - 1] == length
  {
    assert points[0] in points && points[|points| - 1] in points;
  }

  /** The piece between two points, with its attributes. */
  ghost predicate IsPiece(piece: DiffSpan, text: string, tokens: seq<Token>, changed: seq<Span>, start: int, end: int) {
    0 <= start < end <= |text| && piece.text == text[start..end]
    && piece.syntax == PieceSyntax(tokens, start, end) && piece.changed == Spanned(changed, start, end)
  }

  lemma {:induction false} PieceShows(
      text: string, tokens: seq<Token>, changed: seq<Span>, points: seq<int>, index: nat, piece: DiffSpan)
    requires index + 1 < |points| && Increasing(points)
    requires forall t <- tokens :: t.start in points && t.end in points
    requires forall r <- changed :: Max(0, r.0) in points && Min(|text|, r.1) in points
    requires IsPiece(piece, text, tokens, changed, points[index], points[index + 1])
    ensures GlyphsIn(piece) == GlyphsOf(text, tokens, changed)[points[index]..points[index + 1]]
  {
    var start, end := points[index], points[index + 1];
    forall i | 0 <= i < end - start
      ensures GlyphsIn(piece)[i] == GlyphsOf(text, tokens, changed)[start + i]
    {
      PieceIsUniform(points, index, tokens, changed, |text|, start + i);
    }
  }

  lemma {:induction false} PieceAdded(
      text: string, tokens: seq<Token>, changed: seq<Span>, points: seq<int>, index: nat,
                                      spans: seq<DiffSpan>, piece: DiffSpan)
    requires index + 1 < |points| && Increasing(points)
    requires forall t <- tokens :: t.start in points && t.end in points
    requires forall r <- changed :: Max(0, r.0) in points && Min(|text|, r.1) in points
    requires IsPiece(piece, text, tokens, changed, points[index], points[index + 1])
    requires Canonical(spans) && Visible(spans) == GlyphsOf(text, tokens, changed)[..points[index]]
    ensures Canonical(AddSpan(spans, piece))
    ensures Visible(AddSpan(spans, piece)) == GlyphsOf(text, tokens, changed)[..points[index + 1]]
  {
    var glyphs, start, end := GlyphsOf(text, tokens, changed), points[index], points[index + 1];
    PieceShows(text, tokens, changed, points, index, piece);
    AddSpanIsCanonical(spans, piece);
    AddSpanShows(spans, piece);
    assert glyphs[..start] + glyphs[start..end] == glyphs[..end];
  }

  lemma {:induction false} EmptyShows(spans: seq<DiffSpan>)
    requires Canonical(spans)
    ensures spans == [] <==> Visible(spans) == []
  {
    if spans != [] { assert |Visible(spans)| >= |GlyphsIn(spans[0])|; }
  }

  /** The first span reaches to where the attributes change for the first time. */
  lemma {:induction false} FirstSpan(spans: seq<DiffSpan>, p: nat)
    requires spans != [] && Canonical(spans)
    ensures p < |spans[0].text| ==> p < |Visible(spans)| && Visible(spans)[p] == GlyphsIn(spans[0])[p]
    ensures p == |spans[0].text| && p < |Visible(spans)| ==>
              Visible(spans)[p].syntax != spans[0].syntax || Visible(spans)[p].changed != spans[0].changed
  {
    if p == |spans[0].text| && p < |Visible(spans)| {
      assert Visible(spans[1..]) != [];
      assert Visible(spans)[p] == Visible(spans[1..])[0] == GlyphsIn(spans[1])[0];
    }
  }

  lemma {:induction false} SameFirstSpan(a: seq<DiffSpan>, b: seq<DiffSpan>)
    requires a != [] && b != [] && Canonical(a) && Canonical(b) && Visible(a) == Visible(b)
    ensures Alike(a[0], b[0]) && |a[0].text| >= |b[0].text|
  {
    FirstSpan(a, 0);
    FirstSpan(b, 0);
    FirstSpan(a, |a[0].text|);
    FirstSpan(b, |a[0].text|);
  }

  /** The two promises leave no choice: what is shown determines the spans. */
  lemma {:induction false} SpansAreUnique(a: seq<DiffSpan>, b: seq<DiffSpan>)
    requires Canonical(a) && Canonical(b) && Visible(a) == Visible(b)
    ensures a == b
  {
    EmptyShows(a);
    EmptyShows(b);
    if a != [] {
      SameFirstSpan(a, b);
      SameFirstSpan(b, a);
      var n := |a[0].text|;
      assert |b[0].text| == n;
      forall i: nat | i < n ensures a[0].text[i] == b[0].text[i] { FirstSpan(a, i); FirstSpan(b, i); }
      assert a[0].text == b[0].text && a[0] == b[0];
      assert Visible(a[1..]) == Visible(a)[n..] && Visible(b[1..]) == Visible(b)[n..];
      SpansAreUnique(a[1..], b[1..]);
      assert a == [a[0]] + a[1..] && b == [b[0]] + b[1..];
    }
  }

  /** The spans of a line as a function of what they have to show. */
  function Group(glyphs: seq<Glyph>): seq<DiffSpan> {
    if glyphs == [] then []
    else
      var last := glyphs[|glyphs| - 1];
      AddSpan(Group(glyphs[..|glyphs| - 1]), DiffSpan([last.character], last.syntax, last.changed))
  }

  lemma {:induction false} GroupShows(glyphs: seq<Glyph>)
    ensures Visible(Group(glyphs)) == glyphs && Canonical(Group(glyphs))
  {
    if glyphs != [] {
      var before, last := glyphs[..|glyphs| - 1], glyphs[|glyphs| - 1];
      var piece := DiffSpan([last.character], last.syntax, last.changed);
      GroupShows(before);
      AddSpanIsCanonical(Group(before), piece);
      AddSpanShows(Group(before), piece);
      assert GlyphsIn(piece) == [last];
      assert before + [last] == glyphs;
    }
  }

  function SpansOf(text: string, language: Language, changed: seq<Span>): seq<DiffSpan> {
    Group(GlyphsOf(text, Tokens(text, language), changed))
  }

  lemma {:induction false} SpansAreDetermined(
      spans: seq<DiffSpan>, text: string, language: Language, changed: seq<Span>)
    requires Canonical(spans) && Visible(spans) == GlyphsOf(text, Tokens(text, language), changed)
    ensures spans == SpansOf(text, language, changed)
  {
    var glyphs := GlyphsOf(text, Tokens(text, language), changed);
    GroupShows(glyphs);
    SpansAreUnique(spans, Group(glyphs));
  }

  /** `text.slice(start, end)`, where a negative number counts from the end. */
  function JsSlice(text: string, start: int, end: int): string {
    var from := if start < 0 then Max(|text| + start, 0) else Min(start, |text|);
    var to := if end < 0 then Max(|text| + end, 0) else Min(end, |text|);
    if from < to then text[from..to] else ""
  }

  function PieceAt(text: string, tokens: seq<Token>, changed: seq<Span>, start: int, end: int): DiffSpan {
    DiffSpan(JsSlice(text, start, end), PieceSyntax(tokens, start, end), Spanned(changed, start, end))
  }

  /** The spans that the pieces from one point to another make up. */
  function SpansBetween(
      text: string, tokens: seq<Token>, changed: seq<Span>, points: seq<int>, from: nat, n: nat): seq<DiffSpan>
    requires from <= n < |points|
  {
    if n == from then []
    else AddSpan(SpansBetween(text, tokens, changed, points, from, n - 1),
                 PieceAt(text, tokens, changed, points[n - 1], points[n]))
  }

  /** The spans of a line for any ranges whatever. */
  function AllSpans(text: string, language: Language, changed: seq<Span>): seq<DiffSpan> {
    var tokens := Tokens(text, language);
    var points := BoundariesOf(text, tokens, changed);
    if text == "" || points == [] then [] else SpansBetween(text, tokens, changed, points, 0, |points| - 1)
  }

  /** The ends of tokens and ranges are among the points. */
  ghost predicate Marked(text: string, tokens: seq<Token>, changed: seq<Span>, points: seq<int>) {
    && Increasing(points)
    && (forall t <- tokens :: t.start in points && t.end in points)
    && (forall r <- changed :: Max(0, r.0) in points && Min(|text|, r.1) in points)
  }

  lemma {:induction false} NextPieceShows(
      text: string, tokens: seq<Token>, changed: seq<Span>, points: seq<int>, n: nat, spans: seq<DiffSpan>)
    requires Marked(text, tokens, changed, points) && 0 < n < |points|
    requires 0 <= points[n - 1] < points[n] <= |text|
    requires Canonical(spans) && Visible(spans) == GlyphsOf(text, tokens, changed)[..points[n - 1]]
    ensures var longer := AddSpan(spans, PieceAt(text, tokens, changed, points[n - 1], points[n]));
            Canonical(longer) && Visible(longer) == GlyphsOf(text, tokens, changed)[..points[n]]
  {
    var piece := PieceAt(text, tokens, changed, points[n - 1], points[n]);
    assert IsPiece(piece, text, tokens, changed, points[n - 1], points[n]);
    PieceAdded(text, tokens, changed, points, n - 1, spans, piece);
  }

  lemma {:induction false} MarkedSpansShow(
      text: string, tokens: seq<Token>, changed: seq<Span>, points: seq<int>, from: nat, n: nat)
    requires Marked(text, tokens, changed, points) && from <= n < |points|
    requires points[from] == 0 && 0 <= points[n] <= |text|
    ensures var spans := SpansBetween(text, tokens, changed, points, from, n);
            Canonical(spans) && Visible(spans) == GlyphsOf(text, tokens, changed)[..points[n]]
  {
    if n > from {
      assert points[from] <= points[n - 1] < points[n];
      MarkedSpansShow(text, tokens, changed, points, from, n - 1);
      NextPieceShows(text, tokens, changed, points, n, SpansBetween(text, tokens, changed, points, from, n - 1));
    }
  }

  /** From the beginning of the line up to a point within it, the spans show the line. */
  lemma {:induction false} SpansBetweenShow(
      text: string, tokens: seq<Token>, changed: seq<Span>, points: seq<int>, from: nat, n: nat)
    requires points == BoundariesOf(text, tokens, changed) && from <= n < |points|
    requires points[from] == 0 && 0 <= points[n] <= |text|
    ensures var spans := SpansBetween(text, tokens, changed, points, from, n);
            Canonical(spans) && Visible(spans) == GlyphsOf(text, tokens, changed)[..points[n]]
  {
    BoundariesAre(text, tokens, changed);
    MarkedSpansShow(text, tokens, changed, points, from, n);
  }

  /** The spans show the line: character by character, with the class of the token around
      it, marked exactly where a changed range covers it, in as few spans as possible. */
  lemma {:induction false} SpansShowTheLine(text: string, language: Language, changed: seq<Span>)
    requires InRange(changed, |text|)
    ensures Visible(AllSpans(text, language, changed)) == GlyphsOf(text, Tokens(text, language), changed)
    ensures Canonical(AllSpans(text, language, changed))
  {
    var tokens := Tokens(text, language);
    var points := BoundariesOf(text, tokens, changed);
    TokensAreInOrder(text, language);
    PointsInRange(text, tokens, changed);
    PointsSpan(points, |text|);
    SpansBetweenShow(text, tokens, changed, points, 0, |points| - 1);
    var glyphs := GlyphsOf(text, tokens, changed);
    assert glyphs[..|text|] == glyphs;
  }

  method CutSpans(text: string, tokens: seq<Token>, changed: seq<Span>, points: seq<int>) returns (spans: seq<DiffSpan>)
    requires points != []
    ensures spans == SpansBetween(text, tokens, changed, points, 0, |points| - 1)
  {
    spans := [];
    for index := 0 to |points| - 1
      invariant spans == SpansBetween(text, tokens, changed, points, 0, index)
    {
      var start, end := points[index], points[index + 1];
      var syntax := PieceSyntax(tokens, start, end);
      var isChanged := Spanned(changed, start, end);
      if spans != [] && spans[|spans| - 1].syntax == syntax && spans[|spans| - 1].changed == isChanged {
        var last := spans[|spans| - 1];
        spans := spans[|spans| - 1 := last.(text := last.text + JsSlice(text, start, end))];
      } else {
        spans := spans + [DiffSpan(JsSlice(text, start, end), syntax, isChanged)];
      }
    }
  }

  /** The points and the spans of a line that is not empty. */
  method SpansWithin(text: string, language: Language, changed: seq<Span>) returns (spans: seq<DiffSpan>)
    requires text != ""
    ensures spans == AllSpans(text, language, changed)
  {
    var tokens := TokenizeLine(text, language);
    var points := Boundaries(text, tokens, changed);
    BoundariesAre(text, tokens, changed);
    spans := CutSpans(text, tokens, changed, points);
  }

  method BuildSpans(text: string, language: Language, changed: seq<Span>) returns (spans: seq<DiffSpan>)
    ensures spans == AllSpans(text, language, changed)
    ensures InRange(changed, |text|) ==>
              Visible(spans) == GlyphsOf(text, Tokens(text, language), changed) && Canonical(spans)
  {
    if InRange(changed, |text|) { SpansShowTheLine(text, language, changed); }
    if text == "" { return []; }
    spans := SpansWithin(text, language, changed);
  }
}
