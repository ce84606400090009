/** Ranges that do not touch the line. `buildSpans` takes the start of one that begins behind
    the line, and the end of one that ends before it, as points. So there are pieces outside
    the text; a piece without text can become a span, and one before the text can show
    characters again, because `slice` counts negative numbers from the end. */
module DiffSpanEdges {
  import opened Prelude
  import opened WordDiff
  import opened DiffSpans

  /** What `buildSpans` promises: as few spans as possible, which show the line. */
  ghost predicate AsPromised(spans: seq<DiffSpan>, glyphs: seq<Glyph>) {
    Canonical(spans) && Visible(spans) == glyphs
  }

  /** The piece between two points behind the text looks like the last character. */
  ghost predicate Hidden(glyphs: seq<Glyph>, changed: seq<Span>, start: int, end: int)
    requires glyphs != []
  {
    var last := glyphs[|glyphs| - 1];
    last.syntax == None && last.changed == Spanned(changed, start, end)
  }

  /** All pieces behind the text do. */
  ghost predicate AllHidden(glyphs: seq<Glyph>, changed: seq<Span>, points: seq<int>, q: nat, n: nat)
    requires glyphs != [] && n < |points|
  {
    forall i | q <= i < n :: Hidden(glyphs, changed, points[i], points[i + 1])
  }

  ghost predicate EndAlike(glyphs: seq<Glyph>, spans: seq<DiffSpan>) {
    && glyphs != [] && spans != []
    && glyphs[|glyphs| - 1].syntax == spans[|spans| - 1].syntax
    && glyphs[|glyphs| - 1].changed == spans[|spans| - 1].changed
  }

  /** The spans are still `base`, or an empty one has come in. */
  ghost predicate Outcome(base: seq<DiffSpan>, spans: seq<DiffSpan>, hidden: bool) {
    spans != [] && if hidden then spans == base else HasEmpty(spans)
  }

  lemma {:induction false} NoTokenBehind(tokens: seq<Token>, length: nat, start: int, end: int)
    requires InOrder(tokens, 0, length) && length <= start < end
    ensures PieceSyntax(tokens, start, end) == None
  {
    if tokens != [] {
      assert tokens[0] in tokens;
      assert forall t <- tokens[1..] :: t in tokens;
      assert forall i | 0 <= i < |tokens| - 1 :: tokens[1..][i] == tokens[i + 1];
      NoTokenBehind(tokens[1..], length, start, end);
    }
  }

  lemma {:induction false} LastGlyph(spans: seq<DiffSpan>)
    requires spans != [] && Canonical(spans)
    ensures var glyphs, last := Visible(spans), spans[|spans| - 1];
            glyphs != [] && glyphs[|glyphs| - 1].syntax == last.syntax && glyphs[|glyphs| - 1].changed == last.changed
  {
    var init, last := spans[..|spans| - 1], spans[|spans| - 1];
    assert spans == init + [last];
    VisibleSnoc(init, last);
    assert GlyphsIn(last) != [];
  }

  ghost predicate HasEmpty(spans: seq<DiffSpan>) {
    exists i | 0 <= i < |spans| :: spans[i].text == ""
  }

  lemma {:induction false} AddEmpty(spans: seq<DiffSpan>, piece: DiffSpan)
    requires piece.text == "" && spans != []
    ensures if Alike(spans[|spans| - 1], piece) then AddSpan(spans, piece) == spans
            else AddSpan(spans, piece) == spans + [piece]
    ensures HasEmpty(spans) || !Alike(spans[|spans| - 1], piece) ==> HasEmpty(AddSpan(spans, piece))
  {
    var last := spans[|spans| - 1];
    if Alike(last, piece) {
      assert last.text + "" == last.text;
      assert AddSpan(spans, piece) == spans;
    } else {
      assert (spans + [piece])[|spans|] == piece;
      if HasEmpty(spans) {
        var i :| 0 <= i < |spans| && spans[i].text == "";
        assert (spans + [piece])[i].text == "";
      }
    }
  }

  /** One piece behind the text. */
  lemma {:induction false} BehindStep(
    text: string, tokens: seq<Token>, changed: seq<Span>, glyphs: seq<Glyph>, base: seq<DiffSpan>, spans: seq<DiffSpan>,
    start: int, end: int, hidden: bool, still: bool)
    requires InOrder(tokens, 0, |text|) && |text| <= start < end && EndAlike(glyphs, base)
    requires Outcome(base, spans, hidden) && still == (hidden && Hidden(glyphs, changed, start, end))
    ensures Outcome(base, AddSpan(spans, PieceAt(text, tokens, changed, start, end)), still)
  {
    NoTokenBehind(tokens, |text|, start, end);
    AddEmpty(spans, PieceAt(text, tokens, changed, start, end));
  }

  lemma {:induction false} HiddenStep(glyphs: seq<Glyph>, changed: seq<Span>, points: seq<int>, q: nat, n: nat)
    requires glyphs != [] && q < n < |points|
    ensures AllHidden(glyphs, changed, points, q, n) ==
            (AllHidden(glyphs, changed, points, q, n - 1) && Hidden(glyphs, changed, points[n - 1], points[n]))
  {
  }

  lemma {:induction false} SpansStep(
    text: string, tokens: seq<Token>, changed: seq<Span>, points: seq<int>, from: nat, n: nat)
    requires from < n < |points|
    ensures SpansBetween(text, tokens, changed, points, from, n)
            == AddSpan(SpansBetween(text, tokens, changed, points, from, n - 1),
                       PieceAt(text, tokens, changed, points[n - 1], points[n]))
  {
  }

  /** Behind the text the spans stay as they are, or an empty one comes in for good. */
  lemma {:induction false} Behind(
    text: string, tokens: seq<Token>, changed: seq<Span>, points: seq<int>, q: nat, n: nat,
    glyphs: seq<Glyph>, base: seq<DiffSpan>)
    requires InOrder(tokens, 0, |text|) && Increasing(points) && q <= n < |points| && points[q] == |text|
    requires base == SpansBetween(text, tokens, changed, points, 0, q) && EndAlike(glyphs, base)
    ensures Outcome(base, SpansBetween(text, tokens, changed, points, 0, n), AllHidden(glyphs, changed, points, q, n))
  {
    if q < n {
      var hidden, still := AllHidden(glyphs, changed, points, q, n - 1), AllHidden(glyphs, changed, points, q, n);
      Behind(text, tokens, changed, points, q, n - 1, glyphs, base);
      assert points[q] <= points[n - 1] < points[n];
      HiddenStep(glyphs, changed, points, q, n);
      SpansStep(text, tokens, changed, points, 0, n);
      BehindStep(text, tokens, changed, glyphs, base, SpansBetween(text, tokens, changed, points, 0, n - 1),
        points[n - 1], points[n], hidden, still);
    }
  }

  lemma {:induction false} BaseOfLine(
    text: string, tokens: seq<Token>, changed: seq<Span>, points: seq<int>, z: nat, q: nat,
    base: seq<DiffSpan>, glyphs: seq<Glyph>)
    requires text != "" && points == BoundariesOf(text, tokens, changed) && z <= q < |points|
    requires points[q] == |text| && points[z] == 0 && base == SpansBetween(text, tokens, changed, points, z, q)
    requires glyphs == GlyphsOf(text, tokens, changed)
    ensures AsPromised(base, glyphs) && EndAlike(glyphs, base)
  {
    SpansBetweenShow(text, tokens, changed, points, z, q);
    assert glyphs[..|text|] == glyphs;
    EmptyShows(base);
    LastGlyph(base);
  }

  lemma {:induction false} OutcomeDecides(base: seq<DiffSpan>, spans: seq<DiffSpan>, glyphs: seq<Glyph>, hidden: bool)
    requires Outcome(base, spans, hidden) && Canonical(base) && Visible(base) == glyphs
    ensures AsPromised(spans, glyphs) <==> hidden
  {
  }

  lemma {:induction false} PointsIncrease(text: string, tokens: seq<Token>, changed: seq<Span>)
    ensures Increasing(BoundariesOf(text, tokens, changed))
  {
    BoundariesAre(text, tokens, changed);
  }

  // -------------------------------------------------- pieces before the text

  /** The piece between two points before the text shows nothing and looks like the first
      character. */
  ghost predicate Swallowed(text: string, first: Glyph, changed: seq<Span>, start: int, end: int) {
    JsSlice(text, start, end) == "" && first.syntax == None && first.changed == Spanned(changed, start, end)
  }

  /** The first `n` pieces do. */
  ghost predicate AllSwallowed(text: string, first: Glyph, changed: seq<Span>, points: seq<int>, n: nat)
    requires n < |points|
  {
    forall i | 0 <= i < n :: Swallowed(text, first, changed, points[i], points[i + 1])
  }

  /** More characters are shown than stand at this place, or a span without text has come in
      that no piece will join. */
  ghost predicate Spoilt(spans: seq<DiffSpan>, shown: nat) {
    |Visible(spans)| > shown || (|spans| >= 2 && spans[0].text == "")
  }

  /** What the pieces before the text leave: nothing, a span without text that looks like the
      first character, another one, or worse. */
  ghost predicate Before(spans: seq<DiffSpan>, first: Glyph, none: bool, swallowed: bool) {
    if none then spans == [] && swallowed
    else if swallowed then spans == [DiffSpan("", first.syntax, first.changed)]
    else Spoilt(spans, 0) || (|spans| == 1 && spans[0].text == ""
                              && !(spans[0].syntax == first.syntax && spans[0].changed == first.changed))
  }

  lemma {:induction false} NoTokenBefore(tokens: seq<Token>, length: nat, start: int, end: int)
    requires InOrder(tokens, 0, length) && start < 0
    ensures PieceSyntax(tokens, start, end) == None
  {
    if tokens != [] {
      assert tokens[0] in tokens;
      assert forall t <- tokens[1..] :: t in tokens;
      assert forall i | 0 <= i < |tokens| - 1 :: tokens[1..][i] == tokens[i + 1];
      NoTokenBefore(tokens[1..], length, start, end);
    }
  }

  lemma {:induction false} AddedLength(spans: seq<DiffSpan>, piece: DiffSpan)
    ensures |Visible(AddSpan(spans, piece))| == |Visible(spans)| + |piece.text|
  {
    AddSpanShows(spans, piece);
  }

  lemma {:induction false} StaysSpoilt(spans: seq<DiffSpan>, shown: nat, piece: DiffSpan)
    requires Spoilt(spans, shown)
    ensures Spoilt(AddSpan(spans, piece), shown + |piece.text|)
  {
    AddedLength(spans, piece);
  }

  lemma {:induction false} OneSpan(span: DiffSpan)
    ensures |Visible([span])| == |span.text|
  {
    assert Visible([span]) == GlyphsIn(span) + Visible([]);
  }

  lemma {:induction false} BeforeStep(
    spans: seq<DiffSpan>, first: Glyph, none: bool, swallowed: bool, piece: DiffSpan, still: bool)
    requires Before(spans, first, none, swallowed) && piece.syntax == None
    requires still == (swallowed && piece.text == "" && first.syntax == None && first.changed == piece.changed)
    ensures Before(AddSpan(spans, piece), first, false, still)
  {
    AddedLength(spans, piece);
    if Spoilt(spans, 0) { StaysSpoilt(spans, 0, piece); }
    OneSpan(piece);
  }

  /** One piece before the text. */
  lemma {:induction false} PieceBefore(
    text: string, tokens: seq<Token>, changed: seq<Span>, first: Glyph, spans: seq<DiffSpan>,
    start: int, end: int, none: bool, swallowed: bool, still: bool)
    requires Before(spans, first, none, swallowed) && PieceSyntax(tokens, start, end) == None
    requires still == (swallowed && Swallowed(text, first, changed, start, end))
    ensures Before(AddSpan(spans, PieceAt(text, tokens, changed, start, end)), first, false, still)
  {
    BeforeStep(spans, first, none, swallowed, PieceAt(text, tokens, changed, start, end), still);
  }

  lemma {:induction false} SwallowedStep(text: string, first: Glyph, changed: seq<Span>, points: seq<int>, n: nat)
    requires 0 < n < |points|
    ensures AllSwallowed(text, first, changed, points, n) ==
            (AllSwallowed(text, first, changed, points, n - 1)
             && Swallowed(text, first, changed, points[n - 1], points[n]))
  {
  }

  ghost predicate BeforeAt(
    text: string, tokens: seq<Token>, changed: seq<Span>, points: seq<int>, n: nat, first: Glyph)
    requires n < |points|
  {
    Before(SpansBetween(text, tokens, changed, points, 0, n), first, n == 0,
      AllSwallowed(text, first, changed, points, n))
  }

  lemma {:induction false} BeforeNext(
    text: string, tokens: seq<Token>, changed: seq<Span>, points: seq<int>, n: nat, first: Glyph)
    requires InOrder(tokens, 0, |text|) && 0 < n < |points| && points[n - 1] < 0
    requires BeforeAt(text, tokens, changed, points, n - 1, first)
    ensures BeforeAt(text, tokens, changed, points, n, first)
  {
    var none, swallowed := n - 1 == 0, AllSwallowed(text, first, changed, points, n - 1);
    var still := AllSwallowed(text, first, changed, points, n);
    SwallowedStep(text, first, changed, points, n);
    SpansStep(text, tokens, changed, points, 0, n);
    NoTokenBefore(tokens, |text|, points[n - 1], points[n]);
    PieceBefore(text, tokens, changed, first, SpansBetween(text, tokens, changed, points, 0, n - 1),
      points[n - 1], points[n], none, swallowed, still);
  }

  lemma {:induction false} BeforeTheLine(
    text: string, tokens: seq<Token>, changed: seq<Span>, points: seq<int>, n: nat, first: Glyph)
    requires InOrder(tokens, 0, |text|) && Increasing(points) && n < |points| && points[n] <= 0
    ensures BeforeAt(text, tokens, changed, points, n, first)
  {
    if n > 0 {
      assert points[n - 1] < points[n];
      BeforeTheLine(text, tokens, changed, points, n - 1, first);
      BeforeNext(text, tokens, changed, points, n, first);
    }
  }

  // ------------------------------------------------------- the whole line

  /** Within the line the spans are as without the pieces before it, or spoilt. */
  ghost predicate Within(base: seq<DiffSpan>, spans: seq<DiffSpan>, shown: nat, swallowed: bool) {
    if swallowed then spans == base else Spoilt(spans, shown)
  }

  lemma {:induction false} StartStep(front: seq<DiffSpan>, first: Glyph, none: bool, swallowed: bool, piece: DiffSpan)
    requires Before(front, first, none, swallowed)
    requires piece.text != "" && piece.syntax == first.syntax && piece.changed == first.changed
    ensures Within([piece], AddSpan(front, piece), |piece.text|, swallowed)
  {
    assert "" + piece.text == piece.text;
    if Spoilt(front, 0) { StaysSpoilt(front, 0, piece); }
  }

  lemma {:induction false} WithinStep(
    base: seq<DiffSpan>, spans: seq<DiffSpan>, shown: nat, swallowed: bool, piece: DiffSpan)
    requires Within(base, spans, shown, swallowed)
    ensures Within(AddSpan(base, piece), AddSpan(spans, piece), shown + |piece.text|, swallowed)
  {
    if !swallowed { StaysSpoilt(spans, shown, piece); }
  }

  lemma {:induction false} FirstPiece(
    text: string, tokens: seq<Token>, changed: seq<Span>, points: seq<int>, z: nat, piece: DiffSpan)
    requires text != "" && points == BoundariesOf(text, tokens, changed) && z + 1 < |points|
    requires points[z] == 0 && 0 < points[z + 1] <= |text|
    requires piece == PieceAt(text, tokens, changed, points[z], points[z + 1])
    ensures |piece.text| == points[z + 1] && SpansBetween(text, tokens, changed, points, z, z + 1) == [piece]
    ensures var first := GlyphsOf(text, tokens, changed)[0];
            piece.syntax == first.syntax && piece.changed == first.changed
  {
    assert SpansBetween(text, tokens, changed, points, z, z) == [];
    SpansBetweenShow(text, tokens, changed, points, z, z + 1);
    VisibleOne(piece);
    assert GlyphsIn(piece)[0] == GlyphsOf(text, tokens, changed)[..points[z + 1]][0];
  }

  lemma {:induction false} NextPoint(points: seq<int>, z: nat, q: nat, length: nat)
    requires Increasing(points) && z < q < |points| && points[z] == 0 && points[q] == length
    ensures 0 < points[z + 1] <= length && 0 <= points[q - 1] < length
  {
    if z + 1 < q { assert points[z + 1] < points[q] && points[z] < points[q - 1]; }
  }

  ghost predicate WithinAt(
    text: string, tokens: seq<Token>, changed: seq<Span>, points: seq<int>, z: nat, n: nat, swallowed: bool)
    requires z <= n < |points| && 0 <= points[n]
  {
    Within(SpansBetween(text, tokens, changed, points, z, n), SpansBetween(text, tokens, changed, points, 0, n),
      points[n], swallowed)
  }

  lemma {:induction false} AtTheStart(
    text: string, tokens: seq<Token>, changed: seq<Span>, points: seq<int>, z: nat, first: Glyph, swallowed: bool)
    requires text != "" && InOrder(tokens, 0, |text|) && points == BoundariesOf(text, tokens, changed)
    requires Increasing(points) && z + 1 < |points| && points[z] == 0 && 0 < points[z + 1] <= |text|
    requires first == GlyphsOf(text, tokens, changed)[0]
    requires swallowed == AllSwallowed(text, first, changed, points, z)
    ensures WithinAt(text, tokens, changed, points, z, z + 1, swallowed)
  {
    var piece, none := PieceAt(text, tokens, changed, points[z], points[z + 1]), z == 0;
    SpansStep(text, tokens, changed, points, 0, z + 1);
    BeforeTheLine(text, tokens, changed, points, z, first);
    FirstPiece(text, tokens, changed, points, z, piece);
    StartStep(SpansBetween(text, tokens, changed, points, 0, z), first, none, swallowed, piece);
  }

  lemma {:induction false} PieceLength(text: string, tokens: seq<Token>, changed: seq<Span>, start: int, end: int)
    requires 0 <= start < end <= |text|
    ensures |PieceAt(text, tokens, changed, start, end).text| == end - start
  {
  }

  lemma {:induction false} WithinTheLine(
    text: string, tokens: seq<Token>, changed: seq<Span>, points: seq<int>, z: nat, n: nat, first: Glyph,
    swallowed: bool)
    requires text != "" && InOrder(tokens, 0, |text|) && points == BoundariesOf(text, tokens, changed)
    requires Increasing(points) && z < n < |points| && points[z] == 0 && 0 <= points[n] <= |text|
    requires first == GlyphsOf(text, tokens, changed)[0]
    requires swallowed == AllSwallowed(text, first, changed, points, z)
    ensures WithinAt(text, tokens, changed, points, z, n, swallowed)
  {
    NextPoint(points, z, n, points[n]);
    AtTheStart(text, tokens, changed, points, z, first, swallowed);
    StaysWithin(text, tokens, changed, points, z, n, swallowed);
  }

  lemma {:induction false} StaysWithin(
    text: string, tokens: seq<Token>, changed: seq<Span>, points: seq<int>, z: nat, n: nat, swallowed: bool)
    requires Increasing(points) && z < n < |points| && points[z] == 0 && 0 <= points[n] <= |text|
    requires 0 <= points[z + 1] && WithinAt(text, tokens, changed, points, z, z + 1, swallowed)
    ensures WithinAt(text, tokens, changed, points, z, n, swallowed)
  {
    if z + 1 < n {
      NextPoint(points, z, n, points[n]);
      StaysWithin(text, tokens, changed, points, z, n - 1, swallowed);
      WithinNext(text, tokens, changed, points, z, n, swallowed);
    }
  }

  lemma {:induction false} WithinNext(
    text: string, tokens: seq<Token>, changed: seq<Span>, points: seq<int>, z: nat, n: nat, swallowed: bool)
    requires z < n < |points| && 0 <= points[n - 1] < points[n] <= |text|
    requires WithinAt(text, tokens, changed, points, z, n - 1, swallowed)
    ensures WithinAt(text, tokens, changed, points, z, n, swallowed)
  {
    var piece := PieceAt(text, tokens, changed, points[n - 1], points[n]);
    PieceLength(text, tokens, changed, points[n - 1], points[n]);
    WithinStep(SpansBetween(text, tokens, changed, points, z, n - 1),
      SpansBetween(text, tokens, changed, points, 0, n - 1), points[n - 1], swallowed, piece);
    SpansStep(text, tokens, changed, points, 0, n);
    SpansStep(text, tokens, changed, points, z, n);
  }

  lemma {:induction false} SpoiltBehind(
    text: string, tokens: seq<Token>, changed: seq<Span>, points: seq<int>, q: nat, n: nat)
    requires q <= n < |points| && Spoilt(SpansBetween(text, tokens, changed, points, 0, q), |text|)
    ensures Spoilt(SpansBetween(text, tokens, changed, points, 0, n), |text|)
  {
    if q < n {
      SpoiltBehind(text, tokens, changed, points, q, n - 1);
      SpansStep(text, tokens, changed, points, 0, n);
      StaysSpoilt(SpansBetween(text, tokens, changed, points, 0, n - 1), |text|,
        PieceAt(text, tokens, changed, points[n - 1], points[n]));
    }
  }

  lemma {:induction false} SpoiltBreaksThePromise(spans: seq<DiffSpan>, glyphs: seq<Glyph>)
    requires Spoilt(spans, |glyphs|)
    ensures !AsPromised(spans, glyphs)
  {
  }

  lemma {:induction false} UnspoiltEdge(
    text: string, tokens: seq<Token>, changed: seq<Span>, points: seq<int>, z: nat, q: nat,
    base: seq<DiffSpan>, glyphs: seq<Glyph>, hidden: bool)
    requires text != "" && InOrder(tokens, 0, |text|) && points == BoundariesOf(text, tokens, changed)
    requires z < q < |points| && points[z] == 0 && points[q] == |text|
    requires glyphs == GlyphsOf(text, tokens, changed)
    requires base == SpansBetween(text, tokens, changed, points, z, q)
    requires base == SpansBetween(text, tokens, changed, points, 0, q)
    requires hidden == AllHidden(glyphs, changed, points, q, |points| - 1)
    ensures AsPromised(SpansBetween(text, tokens, changed, points, 0, |points| - 1), glyphs) <==> hidden
  {
    PointsIncrease(text, tokens, changed);
    BaseOfLine(text, tokens, changed, points, z, q, base, glyphs);
    BehindAll(text, tokens, changed, points, q, glyphs, base, hidden);
  }

  lemma {:induction false} BehindAll(
    text: string, tokens: seq<Token>, changed: seq<Span>, points: seq<int>, q: nat,
    glyphs: seq<Glyph>, base: seq<DiffSpan>, hidden: bool)
    requires InOrder(tokens, 0, |text|) && Increasing(points) && q < |points| && points[q] == |text|
    requires base == SpansBetween(text, tokens, changed, points, 0, q) && EndAlike(glyphs, base)
    requires AsPromised(base, glyphs) && hidden == AllHidden(glyphs, changed, points, q, |points| - 1)
    ensures AsPromised(SpansBetween(text, tokens, changed, points, 0, |points| - 1), glyphs) <==> hidden
  {
    Behind(text, tokens, changed, points, q, |points| - 1, glyphs, base);
    OutcomeDecides(base, SpansBetween(text, tokens, changed, points, 0, |points| - 1), glyphs, hidden);
  }

  lemma {:induction false} SpoiltEdge(
    text: string, tokens: seq<Token>, changed: seq<Span>, points: seq<int>, q: nat, glyphs: seq<Glyph>)
    requires q < |points| && |glyphs| == |text|
    requires Spoilt(SpansBetween(text, tokens, changed, points, 0, q), |text|)
    ensures !AsPromised(SpansBetween(text, tokens, changed, points, 0, |points| - 1), glyphs)
  {
    SpoiltBehind(text, tokens, changed, points, q, |points| - 1);
    SpoiltBreaksThePromise(SpansBetween(text, tokens, changed, points, 0, |points| - 1), glyphs);
  }

  lemma {:induction false} EdgeOfPoints(
    text: string, tokens: seq<Token>, changed: seq<Span>, points: seq<int>, z: nat, q: nat, glyphs: seq<Glyph>,
    swallowed: bool, hidden: bool)
    requires text != "" && InOrder(tokens, 0, |text|) && points == BoundariesOf(text, tokens, changed)
    requires z < |points| && q < |points| && points[z] == 0 && points[q] == |text|
    requires glyphs == GlyphsOf(text, tokens, changed)
    requires swallowed == AllSwallowed(text, glyphs[0], changed, points, z)
    requires hidden == AllHidden(glyphs, changed, points, q, |points| - 1)
    ensures AsPromised(SpansBetween(text, tokens, changed, points, 0, |points| - 1), glyphs) <==> swallowed && hidden
  {
    PointsIncrease(text, tokens, changed);
    assert z < q;
    WithinTheLine(text, tokens, changed, points, z, q, glyphs[0], swallowed);
    if swallowed {
      var base := SpansBetween(text, tokens, changed, points, 0, q);
      UnspoiltEdge(text, tokens, changed, points, z, q, base, glyphs, hidden);
    } else {
      SpoiltEdge(text, tokens, changed, points, q, glyphs);
    }
  }

  /** Every piece before the text shows nothing and looks like the first character, and
      every piece behind it looks like the last. */
  ghost predicate EdgesBlendIn(text: string, glyphs: seq<Glyph>, changed: seq<Span>, points: seq<int>, z: nat, q: nat)
    requires glyphs != [] && z < |points| && q < |points|
  {
    AllSwallowed(text, glyphs[0], changed, points, z) && AllHidden(glyphs, changed, points, q, |points| - 1)
  }

  lemma {:induction false} AllSpansAre(text: string, language: Language, changed: seq<Span>)
    requires text != "" && BoundariesOf(text, Tokens(text, language), changed) != []
    ensures var tokens := Tokens(text, language);
            var points := BoundariesOf(text, tokens, changed);
            AllSpans(text, language, changed) == SpansBetween(text, tokens, changed, points, 0, |points| - 1)
  {
  }

  lemma {:induction false} EdgeOfSpans(
    text: string, tokens: seq<Token>, changed: seq<Span>, points: seq<int>, spans: seq<DiffSpan>,
    glyphs: seq<Glyph>, z: nat, q: nat)
    requires text != "" && InOrder(tokens, 0, |text|) && points == BoundariesOf(text, tokens, changed)
    requires z < |points| && q < |points| && points[z] == 0 && points[q] == |text|
    requires spans == SpansBetween(text, tokens, changed, points, 0, |points| - 1)
    requires glyphs == GlyphsOf(text, tokens, changed)
    ensures AsPromised(spans, glyphs) <==> EdgesBlendIn(text, glyphs, changed, points, z, q)
  {
    var swallowed, hidden := AllSwallowed(text, glyphs[0], changed, points, z),
                             AllHidden(glyphs, changed, points, q, |points| - 1);
    EdgeOfPoints(text, tokens, changed, points, z, q, glyphs, swallowed, hidden);
  }

  lemma {:induction false} EdgeOfTokens(
    text: string, language: Language, tokens: seq<Token>, changed: seq<Span>, points: seq<int>,
    spans: seq<DiffSpan>, glyphs: seq<Glyph>, z: nat, q: nat)
    requires text != "" && tokens == Tokens(text, language) && points == BoundariesOf(text, tokens, changed)
    requires z < |points| && q < |points| && points[z] == 0 && points[q] == |text|
    requires spans == AllSpans(text, language, changed) && glyphs == GlyphsOf(text, tokens, changed)
    ensures AsPromised(spans, glyphs) <==> EdgesBlendIn(text, glyphs, changed, points, z, q)
  {
    TokensAreInOrder(text, language);
    AllSpansAre(text, language, changed);
    EdgeOfSpans(text, tokens, changed, points, spans, glyphs, z, q);
  }

  lemma {:induction false} EmptyLine(language: Language, changed: seq<Span>)
    ensures AsPromised(AllSpans("", language, changed), GlyphsOf("", Tokens("", language), changed))
  {
  }

  lemma {:induction false} LineIsAmongPoints(text: string, tokens: seq<Token>, changed: seq<Span>)
    returns (z: nat, q: nat)
    ensures var points := BoundariesOf(text, tokens, changed);
            z < |points| && q < |points| && points[z] == 0 && points[q] == |text|
  {
    var points := BoundariesOf(text, tokens, changed);
    BoundariesAre(text, tokens, changed);
    z :| 0 <= z < |points| && points[z] == 0;
    q :| 0 <= q < |points| && points[q] == |text|;
  }

  /** For all ranges: the line lies between the points at `z` and `q`, and the spans are as
      promised if and only if it is empty or the pieces outside of it blend in. */
  lemma {:induction false} SpansAtTheEdge(text: string, language: Language, changed: seq<Span>)
    returns (z: nat, q: nat)
    ensures var tokens := Tokens(text, language);
            var points, glyphs := BoundariesOf(text, tokens, changed), GlyphsOf(text, tokens, changed);
            && z < |points| && q < |points| && points[z] == 0 && points[q] == |text|
            && (AsPromised(AllSpans(text, language, changed), glyphs) <==>
                text == "" || EdgesBlendIn(text, glyphs, changed, points, z, q))
  {
    var tokens := Tokens(text, language);
    z, q := LineIsAmongPoints(text, tokens, changed);
    if text == "" {
      EmptyLine(language, changed);
    } else {
      EdgeOfTokens(text, language, tokens, changed, BoundariesOf(text, tokens, changed),
        AllSpans(text, language, changed), GlyphsOf(text, tokens, changed), z, q);
    }
  }

  // ------------------------------------------------------------- examples

  lemma {:induction false} ExamplePoints()
    ensures BoundariesOf("ab", [], [(0, 2), (3, 3)]) == [0, 2, 3]
  {
    var changed: seq<Span> := [(0, 2), (3, 3)];
    assert AddPoint([], 2) == [2] && [0][1..] == [] && AddPoint([0], 2) == [0, 2];
    assert TokenPoints([0, 2], []) == [0, 2];
    assert changed[..1] == [(0, 2)] && changed[..1][..0] == [];
    assert RangePoints([0, 2], [], 2) == [0, 2];
    assert AddPoint([0, 2], 0) == [0, 2];
    assert [0, 2][1..] == [2] && AddPoint([2], 2) == [2] && AddPoint([0, 2], 2) == [0, 2];
    assert RangePoints([0, 2], [(0, 2)], 2) == [0, 2] by { assert [(0, 2)][..0] == []; }
    assert [2][1..] == [] && AddPoint([], 3) == [3] && AddPoint([2], 3) == [2, 3] && AddPoint([0, 2], 3) == [0, 2, 3];
    assert [0, 2, 3][1..] == [2, 3] && AddPoint([2, 3], 2) == [2, 3] && AddPoint([0, 2, 3], 2) == [0, 2, 3];
  }

  /** All of `ab` is changed, and a range begins behind it: the line gets a span without
      text. */
  lemma {:induction false} EmptySpanBehindTheLine()
    ensures AllSpans("ab", None, [(0, 2), (3, 3)]) == [DiffSpan("ab", None, true), DiffSpan("", None, false)]
  {
    var changed: seq<Span> := [(0, 2), (3, 3)];
    ExamplePoints();
    assert changed[0] in changed && Spanned(changed, 0, 2);
    assert !Spanned(changed, 2, 3);
    assert "ab"[0..2] == "ab";
    var first, second := PieceAt("ab", [], changed, 0, 2), PieceAt("ab", [], changed, 2, 3);
    assert first == DiffSpan("ab", None, true) && second == DiffSpan("", None, false);
    var points := [0, 2, 3];
    assert SpansBetween("ab", [], changed, points, 0, 0) == [];
    assert SpansBetween("ab", [], changed, points, 0, 1) == [first];
    assert SpansBetween("ab", [], changed, points, 0, 2) == [first, second];
  }

  lemma {:induction false} PointsBefore()
    ensures BoundariesOf("ab", [], [(0, -2), (0, -1)]) == [-2, -1, 0, 2]
  {
    var changed: seq<Span> := [(0, -2), (0, -1)];
    assert AddPoint([], 2) == [2] && [0][1..] == [] && AddPoint([0], 2) == [0, 2];
    assert TokenPoints([0, 2], []) == [0, 2];
    assert changed[..1] == [(0, -2)] && changed[..1][..0] == [];
    assert RangePoints([0, 2], [], 2) == [0, 2];
    assert AddPoint([0, 2], 0) == [0, 2] && AddPoint([0, 2], -2) == [-2, 0, 2];
    assert RangePoints([0, 2], [(0, -2)], 2) == [-2, 0, 2] by { assert [(0, -2)][..0] == []; }
    assert [-2, 0, 2][1..] == [0, 2] && AddPoint([-2, 0, 2], 0) == [-2, 0, 2];
    assert AddPoint([0, 2], -1) == [-1, 0, 2] && AddPoint([-2, 0, 2], -1) == [-2, -1, 0, 2];
  }

  /** Two ranges end before `ab`: its first character is shown twice. */
  lemma {:induction false} CharacterShownTwice()
    ensures AllSpans("ab", None, [(0, -2), (0, -1)]) == [DiffSpan("aab", None, false)]
  {
    var changed: seq<Span> := [(0, -2), (0, -1)];
    PointsBefore();
    var points := [-2, -1, 0, 2];
    assert !Spanned(changed, -2, -1) && !Spanned(changed, -1, 0) && !Spanned(changed, 0, 2);
    assert "ab"[0..1] == "a" && "ab"[0..2] == "ab";
    assert PieceAt("ab", [], changed, -2, -1) == DiffSpan("a", None, false);
    assert PieceAt("ab", [], changed, -1, 0) == DiffSpan("", None, false);
    assert PieceAt("ab", [], changed, 0, 2) == DiffSpan("ab", None, false);
    assert SpansBetween("ab", [], changed, points, 0, 0) == [];
    assert SpansBetween("ab", [], changed, points, 0, 1) == [DiffSpan("a", None, false)];
    assert SpansBetween("ab", [], changed, points, 0, 2) == [DiffSpan("a" + "", None, false)];
    assert SpansBetween("ab", [], changed, points, 0, 3) == [DiffSpan("a" + "" + "ab", None, false)];
    assert "a" + "" + "ab" == "aab";
  }
}
