/** `array.sort((left, right) => left.seq - right.seq)`: the sort of the program's arrays,
    which is stable. */
module StableSort {
  import opened Prelude

  /** `x` placed behind everything that does not exceed it. */
  function Insert<T>(s: seq<T>, x: T, key: T -> int): (r: seq<T>)
    ensures |r| == |s| + 1
  {
    if s == [] || key(s[|s| - 1]) <= key(x) then s + [x]
    else Insert(s[..|s| - 1], x, key) + [s[|s| - 1]]
  }

  function Sort<T>(s: seq<T>, key: T -> int): (r: seq<T>)
    ensures |r| == |s|
  {
    if s == [] then [] else Insert(Sort(s[..|s| - 1], key), s[|s| - 1], key)
  }

  ghost predicate Sorted<T>(s: seq<T>, key: T -> int) {
    forall i, j | 0 <= i < j < |s| :: key(s[i]) <= key(s[j])
  }

  function Filter<T>(s: seq<T>, keep: T -> bool): seq<T> {
    if s == [] then []
    else Filter(s[..|s| - 1], keep) + if keep(s[|s| - 1]) then [s[|s| - 1]] else []
  }

  lemma {:induction false} FilterAppend<T>(left: seq<T>, right: seq<T>, keep: T -> bool)
    ensures Filter(left + right, keep) == Filter(left, keep) + Filter(right, keep)
    decreases |right|
  {
    if right == [] {
      assert left + right == left;
    } else {
      assert (left + right)[..|left + right| - 1] == left + right[..|right| - 1];
      FilterAppend(left, right[..|right| - 1], keep);
    }
  }

  lemma {:induction false} FilterMember<T>(s: seq<T>, keep: T -> bool, x: T)
    ensures x in Filter(s, keep) <==> x in s && keep(x)
  {
    if s != [] {
      FilterMember(s[..|s| - 1], keep, x);
      assert s == s[..|s| - 1] + [s[|s| - 1]];
    }
  }

  /** Where an insertion takes place: between what does not exceed `x` and what does. */
  lemma {:induction false} InsertSplits<T>(s: seq<T>, x: T, key: T -> int) returns (k: nat)
    requires Sorted(s, key)
    ensures k <= |s| && Insert(s, x, key) == s[..k] + [x] + s[k..]
    ensures (forall y <- s[..k] :: key(y) <= key(x)) && (forall y <- s[k..] :: key(x) < key(y))
  {
    if s == [] || key(s[|s| - 1]) <= key(x) {
      k := |s|;
      assert s[..k] == s && s[k..] == [];
      assert s + [x] + [] == s + [x];
    } else {
      var init, last := s[..|s| - 1], s[|s| - 1];
      k := InsertSplits(init, x, key);
      assert s[..k] == init[..k] && s[k..] == init[k..] + [last];
      assert init[..k] + [x] + init[k..] + [last] == s[..k] + [x] + s[k..];
      forall y | y in s[k..] ensures key(x) < key(y) {
        if y != last { assert y in init[k..]; }
      }
    }
  }

  lemma {:induction false} InsertSorts<T>(s: seq<T>, x: T, key: T -> int)
    requires Sorted(s, key)
    ensures Sorted(Insert(s, x, key), key)
  {
    var k := InsertSplits(s, x, key);
    var r := s[..k] + [x] + s[k..];
    forall i, j | 0 <= i < j < |r| ensures key(r[i]) <= key(r[j]) {
      if i < k { assert s[i] in s[..k]; }
      if j > k { assert s[j - 1] in s[k..]; }
    }
  }

  lemma {:induction false} SortSorts<T>(s: seq<T>, key: T -> int)
    ensures Sorted(Sort(s, key), key)
  {
    if s != [] {
      SortSorts(s[..|s| - 1], key);
      InsertSorts(Sort(s[..|s| - 1], key), s[|s| - 1], key);
    }
  }

  lemma {:induction false} SortMember<T>(s: seq<T>, key: T -> int, x: T)
    ensures x in Sort(s, key) <==> x in s
  {
    if s != [] {
      var init, last := s[..|s| - 1], s[|s| - 1];
      SortMember(init, key, x);
      SortSorts(init, key);
      InsertMember(Sort(init, key), last, key, x);
      assert s == init + [last];
    }
  }

  lemma {:induction false} InsertMember<T>(s: seq<T>, y: T, key: T -> int, x: T)
    requires Sorted(s, key)
    ensures x in Insert(s, y, key) <==> x in s || x == y
  {
    var k := InsertSplits(s, y, key);
    assert s == s[..k] + s[k..];
  }

  lemma {:induction false} FilterNone<T>(s: seq<T>, keep: T -> bool)
    requires forall y <- s :: !keep(y)
    ensures Filter(s, keep) == []
  {
    if s != [] { FilterNone(s[..|s| - 1], keep); }
  }

  lemma {:induction false} InsertKeepsOrder<T>(s: seq<T>, x: T, key: T -> int, keep: T -> bool)
    requires Sorted(s, key)
    requires keep(x) ==> forall y <- s | keep(y) :: key(y) <= key(x)
    ensures Filter(Insert(s, x, key), keep) == Filter(s, keep) + if keep(x) then [x] else []
  {
    var k := InsertSplits(s, x, key);
    var left, right := s[..k], s[k..];
    if keep(x) {
      forall y | y in right ensures !keep(y) { assert y in s; }
      FilterNone(right, keep);
    }
    assert s == left + right;
    FilterAround(left, x, right, keep);
  }

  lemma {:induction false} FilterAround<T>(left: seq<T>, x: T, right: seq<T>, keep: T -> bool)
    requires keep(x) ==> Filter(right, keep) == []
    ensures Filter(left + [x] + right, keep) == Filter(left + right, keep) + if keep(x) then [x] else []
  {
    var middle := if keep(x) then [x] else [];
    FilterParts(left, x, right, keep);
    FilterAppend(left, right, keep);
    JoinKept(Filter(left, keep), Filter(right, keep), middle);
  }

  lemma {:induction false} JoinKept<T>(left: seq<T>, right: seq<T>, middle: seq<T>)
    requires middle == [] || right == []
    ensures left + middle + right == left + right + middle
  {
  }

  lemma {:induction false} FilterParts<T>(left: seq<T>, x: T, right: seq<T>, keep: T -> bool)
    ensures Filter(left + [x] + right, keep)
            == Filter(left, keep) + (if keep(x) then [x] else []) + Filter(right, keep)
  {
    FilterAppend(left + [x], right, keep);
    FilterAppend(left, [x], keep);
    assert [x][..0] == [];
    assert Filter([x], keep) == Filter([], keep) + (if keep(x) then [x] else []);
  }

  /** Elements that already stand in order among themselves keep their order; in particular
      elements with the same key do. */
  lemma {:induction false} SortKeepsOrder<T>(s: seq<T>, key: T -> int, keep: T -> bool)
    requires Sorted(Filter(s, keep), key)
    ensures Filter(Sort(s, key), keep) == Filter(s, keep)
  {
    if s != [] {
      var init, last, kept := s[..|s| - 1], s[|s| - 1], Filter(s, keep);
      assert Sorted(Filter(init, keep), key) by {
        assert Filter(init, keep) == kept[..|Filter(init, keep)|];
      }
      SortKeepsOrder(init, key, keep);
      SortSorts(init, key);
      if keep(last) {
        forall y | y in Sort(init, key) && keep(y) ensures key(y) <= key(last) {
          SortMember(init, key, y);
          FilterMember(init, keep, y);
          var i :| 0 <= i < |Filter(init, keep)| && Filter(init, keep)[i] == y;
          assert kept[i] == y && kept[|kept| - 1] == last;
        }
      }
      InsertKeepsOrder(Sort(init, key), last, key, keep);
    }
  }

  lemma {:induction false} SortOfSorted<T>(s: seq<T>, key: T -> int)
    requires Sorted(s, key)
    ensures Sort(s, key) == s
  {
    if s != [] {
      var init, last := s[..|s| - 1], s[|s| - 1];
      SortOfSorted(init, key);
      assert init == [] || key(init[|init| - 1]) <= key(last) by {
        if init != [] { assert init[|init| - 1] == s[|s| - 2]; }
      }
      assert init + [last] == s;
    }
  }

  lemma {:induction false} SortDistinct<T>(s: seq<T>, key: T -> int)
    requires Distinct(s)
    ensures Distinct(Sort(s, key))
  {
    if s != [] {
      var init, last := s[..|s| - 1], s[|s| - 1];
      SortDistinct(init, key);
      SortSorts(init, key);
      SortMember(init, key, last);
      assert last !in init;
      InsertKeepsDistinct(Sort(init, key), last, key);
    }
  }

  lemma {:induction false} InsertKeepsDistinct<T>(s: seq<T>, x: T, key: T -> int)
    requires Sorted(s, key) && Distinct(s) && x !in s
    ensures Distinct(Insert(s, x, key))
  {
    var k := InsertSplits(s, x, key);
    var longer := s[..k] + [x] + s[k..];
    forall i, j | 0 <= i < j < |longer| ensures longer[i] != longer[j] {
      var i', j' := if i < k then i else i - 1, if j < k then j else j - 1;
      if i == k { assert s[j'] in s; }
      if j == k { assert s[i'] in s; }
    }
  }
}
