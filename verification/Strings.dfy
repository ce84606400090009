/** What several components ask of a text. */
module Strings {
  import opened Prelude

  predicate IsDigit(c: char) {
    '0' <= c <= '9'
  }

  /** `text.startsWith(part, at)`. */
  predicate OccursAt(text: string, part: string, at: nat) {
    at + |part| <= |text| && text[at..at + |part|] == part
  }

  /** `text.indexOf(part, from)`. */
  function IndexOf(text: string, part: string, from: nat): (found: Option<nat>)
    ensures found.Some? ==>
              && from <= found.value && OccursAt(text, part, found.value)
              && forall k | from <= k < found.value :: !OccursAt(text, part, k)
    ensures found.None? ==> forall k | from <= k :: !OccursAt(text, part, k)
    decreases |text| - from
  {
    if OccursAt(text, part, from) then Some(from)
    else if from >= |text| then None
    else IndexOf(text, part, from + 1)
  }
}
