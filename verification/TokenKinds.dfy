/** Which kind the tokens of a line have, told from the text alone. */
module TokenKinds {
  import opened Prelude
  import opened Strings
  import opened DiffModel
  import opened DiffSpans

  predicate LineCommentAt(text: string, p: nat, profile: Profile) {
    exists marker <- profile.lineComments :: OccursAt(text, marker, p)
  }

  predicate BlockCommentAt(text: string, p: nat, profile: Profile) {
    profile.blockComments && OccursAt(text, "/*", p)
  }

  /** The first `*` `/` from `from` on ends at `end`, or there is none and the text does. */
  ghost predicate EndsBlock(text: string, from: nat, end: nat) {
    if exists p | from <= p :: OccursAt(text, "*/", p)
    then from + 2 <= end && OccursAt(text, "*/", end - 2) && forall p | from <= p < end - 2 :: !OccursAt(text, "*/", p)
    else end == |text|
  }

  /** The longest word that begins at `p`. */
  ghost predicate IsWord(text: string, p: nat, end: nat) {
    && p < end <= |text| && StartsIdentifier(text[p])
    && (forall k | p <= k < end :: InIdentifier(text[k]))
    && (end < |text| ==> !InIdentifier(text[end]))
  }

  // ---------------------------------------------------------------- numbers

  // The parts of a number, as the text between two positions.

  /** `0[xXbBoO][\da-fA-F_]+` */
  ghost predicate IsRadix(text: string, p: nat, end: nat) {
    && p + 2 < end <= |text| && text[p] == '0' && text[p + 1] in "xXbBoO"
    && forall k | p + 2 <= k < end :: InHex(text[k])
  }

  /** `\d[\d_]*` */
  ghost predicate IsWhole(text: string, p: nat, end: nat) {
    p < end <= |text| && IsDigit(text[p]) && forall k | p < k < end :: InDigits(text[k])
  }

  /** `(\.\d[\d_]*)?` */
  ghost predicate IsFraction(text: string, p: nat, end: nat) {
    p == end || (p < |text| && text[p] == '.' && IsWhole(text, p + 1, end))
  }

  ghost predicate IsDigits(text: string, p: nat, end: nat) {
    p < end <= |text| && forall k | p <= k < end :: IsDigit(text[k])
  }

  /** `([eE][+-]?\d+)?` */
  ghost predicate IsExponent(text: string, p: nat, end: nat) {
    p == end ||
    (&& p < |text| && text[p] in "eE"
     && (IsDigits(text, p + 1, end) || (p + 1 < |text| && text[p + 1] in "+-" && IsDigits(text, p + 2, end))))
  }

  ghost predicate IsDecimal(text: string, p: nat, end: nat) {
    exists i: nat, j: nat :: DecimalParts(text, p, i, j, end)
  }

  ghost predicate DecimalParts(text: string, p: nat, i: nat, j: nat, end: nat) {
    IsWhole(text, p, i) && IsFraction(text, i, j) && IsExponent(text, j, end)
  }

  /** A number with a radix where one begins, and the longest decimal number otherwise. */
  ghost predicate IsNumber(text: string, p: nat, end: nat) {
    if exists e: nat :: IsRadix(text, p, e) then IsRadix(text, p, end) && (end < |text| ==> !InHex(text[end]))
    else IsDecimal(text, p, end) && forall e: nat | e > end :: !IsDecimal(text, p, e)
  }

  lemma {:induction false} RunIsLongest(text: string, at: nat, ok: char -> bool)
    requires at <= |text|
    ensures var end := RunWhile(text, at, ok); end < |text| ==> !ok(text[end])
    decreases |text| - at
  {
    if at < |text| && ok(text[at]) { RunIsLongest(text, at + 1, ok); }
  }

  /** Where the fraction ends that the code finds behind the whole digits. */
  function FractionEnd(text: string, at: nat): nat
    requires at <= |text|
  {
    if At(text, at, c => c == '.') && At(text, at + 1, IsDigit) then RunWhile(text, at + 2, InDigits) else at
  }

  function ExponentEnd(text: string, at: nat): nat
    requires at <= |text|
  {
    if !At(text, at, c => c == 'e' || c == 'E') then at
    else
      var digits := if At(text, at + 1, c => c == '+' || c == '-') then at + 2 else at + 1;
      if At(text, digits, IsDigit) then RunWhile(text, digits, IsDigit) else at
  }

  lemma {:induction false} WholeIs(text: string, p: nat, i: nat)
    requires p < |text| && IsDigit(text[p]) && i == RunWhile(text, p + 1, InDigits)
    ensures IsWhole(text, p, i) && (i < |text| ==> !InDigits(text[i]))
    ensures forall k: nat | IsWhole(text, p, k) :: k <= i
  {
    RunIsLongest(text, p + 1, InDigits);
  }

  lemma {:induction false} FractionIs(text: string, i: nat, j: nat)
    requires i <= |text| && j == FractionEnd(text, i)
    ensures i <= j <= |text| && IsFraction(text, i, j) && forall k: nat | IsFraction(text, i, k) :: k <= j
    ensures i < j < |text| ==> !InDigits(text[j])
  {
    if At(text, i, c => c == '.') && At(text, i + 1, IsDigit) { WholeIs(text, i + 1, j); }
  }

  lemma {:induction false} DigitsAre(text: string, p: nat, end: nat)
    requires p < |text| && IsDigit(text[p]) && end == RunWhile(text, p, IsDigit)
    ensures IsDigits(text, p, end) && forall k: nat | IsDigits(text, p, k) :: k <= end
  {
    RunIsLongest(text, p, IsDigit);
  }

  lemma {:induction false} ExponentIs(text: string, j: nat, end: nat)
    requires j <= |text| && end == ExponentEnd(text, j)
    ensures j <= end <= |text| && IsExponent(text, j, end) && forall k: nat | IsExponent(text, j, k) :: k <= end
  {
    if At(text, j, c => c == 'e' || c == 'E') {
      var digits := if At(text, j + 1, c => c == '+' || c == '-') then j + 2 else j + 1;
      if At(text, digits, IsDigit) { DigitsAre(text, digits, end); }
    }
  }

  /** The parts that the code finds are the longest ones, and no choice of shorter ones lets a
      number go on further. */
  lemma {:induction false} DecimalIsLongest(text: string, p: nat, i: nat, j: nat, end: nat, x: nat, y: nat, e: nat)
    requires p < |text| && IsDigit(text[p]) && i == RunWhile(text, p + 1, InDigits)
    requires j == FractionEnd(text, i) && end == ExponentEnd(text, j) && DecimalParts(text, p, x, y, e)
    ensures e <= end
  {
    WholeIs(text, p, i);
    FractionIs(text, i, j);
    ExponentIs(text, j, end);
    if x < i {
      assert InDigits(text[x]);
    } else if y < j {
      assert y > x ==> InDigits(text[y]);
    }
  }

  lemma {:induction false} RadixIs(text: string, p: nat, end: nat)
    requires p <= |text| && At(text, p, c => c == '0') && At(text, p + 1, c => c in "xXbBoO") && At(text, p + 2, InHex)
    requires end == RunWhile(text, p + 2, InHex)
    ensures IsNumber(text, p, end)
  {
    RunIsLongest(text, p + 2, InHex);
    assert IsRadix(text, p, p + 3);
  }

  lemma {:induction false} DecimalIs(text: string, p: nat, i: nat, j: nat, end: nat)
    requires p < |text| && IsDigit(text[p]) && i == RunWhile(text, p + 1, InDigits)
    requires j == FractionEnd(text, i) && end == ExponentEnd(text, j)
    ensures IsDecimal(text, p, end) && forall e: nat | e > end :: !IsDecimal(text, p, e)
  {
    WholeIs(text, p, i);
    FractionIs(text, i, j);
    ExponentIs(text, j, end);
    assert DecimalParts(text, p, i, j, end);
    forall e: nat | e > end ensures !IsDecimal(text, p, e) {
      if IsDecimal(text, p, e) {
        var x: nat, y: nat :| DecimalParts(text, p, x, y, e);
        DecimalIsLongest(text, p, i, j, end, x, y, e);
      }
    }
  }

  lemma {:induction false} NoRadix(text: string, p: nat)
    requires !(At(text, p, c => c == '0') && At(text, p + 1, c => c in "xXbBoO") && At(text, p + 2, InHex))
    ensures forall e: nat :: !IsRadix(text, p, e)
  {
  }

  lemma {:induction false} DecimalEnd(text: string, p: nat, i: nat)
    requires p < |text| && IsDigit(text[p]) && i == RunWhile(text, p + 1, InDigits)
    requires !(At(text, p, c => c == '0') && At(text, p + 1, c => c in "xXbBoO") && At(text, p + 2, InHex))
    ensures NumberEnd(text, p) == ExponentEnd(text, FractionEnd(text, i))
  {
  }

  lemma {:induction false} NumberIs(text: string, p: nat)
    requires p < |text| && IsDigit(text[p])
    ensures IsNumber(text, p, NumberEnd(text, p))
  {
    var end := NumberEnd(text, p);
    if At(text, p, c => c == '0') && At(text, p + 1, c => c in "xXbBoO") && At(text, p + 2, InHex) {
      RadixIs(text, p, end);
    } else {
      var i := RunWhile(text, p + 1, InDigits);
      DecimalEnd(text, p, i);
      DecimalIs(text, p, i, FractionEnd(text, i), end);
      NoRadix(text, p);
    }
  }

  // ------------------------------------------------------------------ kinds

  /** The token is what the text at its start calls for. */
  ghost predicate Rightly(text: string, t: Token, profile: Profile, keywords: set<string>) {
    && t.start < t.end <= |text| && !IsSpace(text[t.start])
    && if LineCommentAt(text, t.start, profile) then t.kind == Comment && t.end == |text|
       else if BlockCommentAt(text, t.start, profile) then t.kind == Comment && EndsBlock(text, t.start + 2, t.end)
       else if text[t.start] in profile.quotes then t.kind == Str && EndsString(text, t.start + 1, text[t.start], t.end)
       else if IsDigit(text[t.start]) then t.kind == Number && IsNumber(text, t.start, t.end)
       else if StartsIdentifier(text[t.start]) then
         && IsWord(text, t.start, t.end)
         && if text[t.start..t.end] in keywords then t.kind == Keyword
            else t.kind == Type && IsTypeName(text[t.start..t.end])
       else t.kind == Punct && t.end == t.start + 1
  }

  /** A word that gets no token: it is no keyword and no type name, and nothing else begins
      where it does. */
  ghost predicate PlainWord(text: string, p: nat, end: nat, profile: Profile, keywords: set<string>) {
    && IsWord(text, p, end) && text[p..end] !in keywords && !IsTypeName(text[p..end])
    && !LineCommentAt(text, p, profile) && !BlockCommentAt(text, p, profile) && text[p] !in profile.quotes
  }

  lemma {:induction false} WordIs(text: string, at: nat)
    requires at < |text| && StartsIdentifier(text[at])
    ensures IsWord(text, at, IdentifierEnd(text, at))
  {
    RunIsLongest(text, at + 1, InIdentifier);
  }

  lemma {:induction false} BlockEndIs(text: string, from: nat, end: nat)
    requires var close := IndexOf(text, "*/", from); end == if close.Some? then close.value + 2 else |text|
    ensures EndsBlock(text, from, end)
  {
  }

  lemma {:induction false} TurnIsRight(text: string, at: nat, profile: Profile, keywords: set<string>, turn: Turn)
    requires at < |text| && turn == TurnAt(text, at, profile, keywords)
    ensures if turn.kind.Some? then Rightly(text, Token(at, turn.end, turn.kind.value), profile, keywords)
            else (IsSpace(text[at]) && turn.end == at + 1) || PlainWord(text, at, turn.end, profile, keywords)
  {
    if !IsSpace(text[at]) {
      if LineCommentAt(text, at, profile) {
      } else if BlockCommentAt(text, at, profile) {
        BlockEndIs(text, at + 2, turn.end);
      } else if text[at] in profile.quotes {
        StringEndIs(text, at + 1, at + 1, text[at]);
      } else if IsDigit(text[at]) {
        NumberIs(text, at);
      } else if StartsIdentifier(text[at]) {
        WordIs(text, at);
      }
    }
  }

  lemma {:induction false} KindsFrom(text: string, at: nat, profile: Profile, keywords: set<string>, t: Token)
    requires at <= |text| && t in TokensFrom(text, at, profile, keywords)
    ensures Rightly(text, t, profile, keywords)
    decreases |text| - at
  {
    var turn := TurnAt(text, at, profile, keywords);
    TurnIsRight(text, at, profile, keywords, turn);
    if !(turn.kind.Some? && t == Token(at, turn.end, turn.kind.value)) {
      KindsFrom(text, turn.end, profile, keywords, t);
    }
  }

  /** Every token of a line has the kind and the end that the text at its start calls for. */
  lemma {:induction false} KindsAreRight(text: string, profile: Profile, keywords: set<string>, t: Token)
    requires t in Tokens(text, Some((profile, keywords)))
    ensures Rightly(text, t, profile, keywords)
  {
    KindsFrom(text, 0, profile, keywords, t);
  }

  lemma {:induction false} TurnCovers(
      text: string, at: nat, profile: Profile, keywords: set<string>, turn: Turn, p: nat)
    requires at < |text| && turn == TurnAt(text, at, profile, keywords) && turn.kind.Some? && at <= p < turn.end
    ensures !Uncovered(TokensFrom(text, at, profile, keywords), p)
  {
    var tokens := TokensFrom(text, at, profile, keywords);
    assert tokens[0] == Token(at, turn.end, turn.kind.value) && Inside(tokens[0], p);
  }

  lemma {:induction false} PlainFrom(
      text: string, at: nat, profile: Profile, keywords: set<string>, p: nat) returns (start: nat, end: nat)
    requires at <= p < |text| && !IsSpace(text[p]) && Uncovered(TokensFrom(text, at, profile, keywords), p)
    ensures start <= p < end && PlainWord(text, start, end, profile, keywords)
    decreases |text| - at
  {
    var turn := TurnAt(text, at, profile, keywords);
    var tokens, rest := TokensFrom(text, at, profile, keywords), TokensFrom(text, turn.end, profile, keywords);
    TurnIsRight(text, at, profile, keywords, turn);
    if p >= turn.end {
      assert forall t <- rest :: t in tokens;
      start, end := PlainFrom(text, turn.end, profile, keywords, p);
    } else {
      if turn.kind.Some? { TurnCovers(text, at, profile, keywords, turn, p); }
      start, end := at, turn.end;
    }
  }

  /** A character outside of all tokens is white space or stands in a plain word. */
  lemma {:induction false} TheRestIsPlain(text: string, profile: Profile, keywords: set<string>, p: nat)
    returns (start: nat, end: nat)
    requires p < |text| && !IsSpace(text[p]) && Uncovered(Tokens(text, Some((profile, keywords))), p)
    ensures start <= p < end && PlainWord(text, start, end, profile, keywords)
  {
    start, end := PlainFrom(text, 0, profile, keywords, p);
  }
}
