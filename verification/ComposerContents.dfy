/** What normalising keeps: character by character all that is in the content, except caret
    markers; and it leaves no choice about the form. */
module ComposerContents {
  import opened Prelude
  import opened StableSort
  import opened Composer
  import opened ComposerHistory
  import opened ComposerCuts
  import opened ComposerSeams

  predicate NoMarker(x: Part) {
    x != Text([CARET])
  }

  /** The content, one token a character, without caret markers. */
  function Unmarked(flat: seq<Part>): seq<Part> {
    Filter(flat, NoMarker)
  }

  lemma {:induction false} UnmarkedSingle(x: Part)
    ensures Unmarked([x]) == if x == Text([CARET]) then [] else [x]
  {
    assert [x][..0] == [] && Unmarked([]) == [];
  }

  lemma {:induction false} FlatCons(c: char, rest: string)
    ensures FlatOne(Text([c] + rest)) == [Text([c])] + FlatOne(Text(rest))
  {
    FlatText([c], rest);
    assert FlatOne(Text([c])) == [Text([c])];
  }

  lemma {:induction false} StripIs(text: string)
    ensures FlatOne(Text(StripCaret(text))) == Unmarked(FlatOne(Text(text)))
  {
    if text == "" {
      assert FlatOne(Text("")) == [];
    } else {
      var c, rest := text[0], text[1..];
      assert text == [c] + rest;
      StripIs(rest);
      FlatCons(c, rest);
      FilterAppend([Text([c])], FlatOne(Text(rest)), NoMarker);
      UnmarkedSingle(Text([c]));
      if c != CARET {
        FlatCons(c, StripCaret(rest));
        assert [Text([c])] == Unmarked([Text([c])]);
      } else {
        assert "" + StripCaret(rest) == StripCaret(rest);
        assert [] + Unmarked(FlatOne(Text(rest))) == Unmarked(FlatOne(Text(rest)));
      }
    }
  }

  lemma {:induction false} AddPartFlat(parts: seq<Part>, part: Part)
    ensures Flat(AddPart(parts, part)) == Flat(parts) + Unmarked(FlatOne(part))
  {
    if part.Text? {
      var text := StripCaret(part.text);
      StripIs(part.text);
      if text == "" {
        assert FlatOne(Text("")) == [] && Flat(parts) + [] == Flat(parts);
      } else {
        FlatOfAdd(parts, Text(text));
      }
    } else {
      FlatPlus(parts, [part]);
      FlatSingle(part);
      UnmarkedSingle(part);
    }
  }

  /** Normalising keeps every reference and every character but the caret markers, in their
      order. */
  lemma {:induction false} NormalizeKeepsContent(parts: seq<Part>)
    ensures Flat(NormalizeParts(parts)) == Unmarked(Flat(parts))
  {
    if parts != [] {
      var init, last := parts[..|parts| - 1], parts[|parts| - 1];
      NormalizeKeepsContent(init);
      AddPartFlat(NormalizeParts(init), last);
      FilterAppend(Flat(init), FlatOne(last), NoMarker);
    }
  }

  lemma {:induction false} NormalIsMadeOfItsTokens(parts: seq<Part>)
    requires Normal(parts)
    ensures PartsFromTokens(parts) == parts && Solid(parts)
  {
    if parts != [] {
      NormalInit(parts);
      NormalIsMadeOfItsTokens(parts[..|parts| - 1]);
    }
  }

  /** Two normal forms with the same content are the same. */
  lemma {:induction false} NormalFormIsUnique(a: seq<Part>, b: seq<Part>)
    requires Normal(a) && Normal(b) && Flat(a) == Flat(b)
    ensures a == b
  {
    NormalIsMadeOfItsTokens(a);
    NormalIsMadeOfItsTokens(b);
    PartsOfFlat(a);
    PartsOfFlat(b);
  }
}
