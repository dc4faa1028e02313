/** Order-preserving filtering of sequences: the model of LINQ's
    `Where(...).ToList()` and of the in-place list helpers `MoveTo` and
    `RemoveAll` that the node applies to its segment lists. */
module Sequences {

  /** True when no element occurs twice in `s`. */
  ghost predicate NoDuplicates<T>(s: seq<T>)
  {
    forall i, j :: 0 <= i < j < |s| ==> s[i] != s[j]
  }

  /** The elements of `s` that satisfy `p`, in their original order. */
  function Select<T(!new)>(s: seq<T>, p: T -> bool): (r: seq<T>)
    ensures |r| <= |s|
    ensures forall x :: x in r <==> x in s && p(x)
    ensures multiset(r) <= multiset(s)
  {
    if s == [] then []
    else
      var init, last := s[..|s| - 1], s[|s| - 1];
      assert s == init + [last];
      var r0 := Select(init, p);
      if p(last) then r0 + [last] else r0
  }

  /** Selecting by `p` and by its complement splits `s` into two parts that
      together hold every element of `s` exactly as often as `s` does. */
  lemma {:induction false} SelectPartition<T(!new)>(s: seq<T>, p: T -> bool, q: T -> bool)
    requires forall x :: q(x) == !p(x)
    ensures multiset(Select(s, p)) + multiset(Select(s, q)) == multiset(s)
    ensures forall x :: !(x in Select(s, p) && x in Select(s, q))
  {
    if s != [] {
      var init, last := s[..|s| - 1], s[|s| - 1];
      assert s == init + [last];
      SelectPartition(init, p, q);
    }
  }

  /** Selecting keeps everything when every element satisfies `p`. */
  lemma {:induction false} SelectKeepsAll<T(!new)>(s: seq<T>, p: T -> bool)
    requires forall x :: x in s ==> p(x)
    ensures Select(s, p) == s
  {
    if s != [] {
      var init, last := s[..|s| - 1], s[|s| - 1];
      assert s == init + [last];
      SelectKeepsAll(init, p);
    }
  }

  /** `s` with every occurrence of `e` dropped, in order: the model of
      `Where(x => x != e)`. */
  function Without<T(==,!new)>(s: seq<T>, e: T): (r: seq<T>)
    ensures forall x :: x in r <==> x in s && x != e
    ensures |r| == |s| - multiset(s)[e]
    ensures NoDuplicates(s) ==> NoDuplicates(r)
  {
    var keep := x => x != e;
    var r := Select(s, keep);
    assert multiset(r) + multiset(Select(s, x => x == e)) == multiset(s) by {
      SelectPartition(s, keep, x => x == e);
    }
    SelectCountsOccurrences(s, x => x == e, e);
    assert NoDuplicates(s) ==> NoDuplicates(r) by {
      if NoDuplicates(s) { SelectNoDuplicates(s, keep); }
    }
    r
  }

  /** Selecting exactly the occurrences of `e` leaves `multiset(s)[e]` elements. */
  lemma {:induction false} SelectCountsOccurrences<T(!new)>(s: seq<T>, p: T -> bool, e: T)
    requires forall x :: p(x) <==> x == e
    ensures |Select(s, p)| == multiset(s)[e]
  {
    if s != [] {
      var init, last := s[..|s| - 1], s[|s| - 1];
      assert s == init + [last];
      SelectCountsOccurrences(init, p, e);
    }
  }

  /** Filtering a duplicate-free sequence keeps it duplicate-free. */
  lemma {:induction false} SelectNoDuplicates<T(!new)>(s: seq<T>, p: T -> bool)
    requires NoDuplicates(s)
    ensures NoDuplicates(Select(s, p))
  {
    if s != [] {
      var init, last := s[..|s| - 1], s[|s| - 1];
      assert s == init + [last];
      assert NoDuplicates(init);
      SelectNoDuplicates(init, p);
      assert last !in init;
    }
  }

  /** In a duplicate-free sequence an element occurs once or not at all. */
  lemma {:induction false} OccurrencesWithoutDuplicates<T>(s: seq<T>, e: T)
    requires NoDuplicates(s)
    ensures multiset(s)[e] == if e in s then 1 else 0
  {
    if s != [] {
      var init, last := s[..|s| - 1], s[|s| - 1];
      assert s == init + [last];
      assert NoDuplicates(init);
      OccurrencesWithoutDuplicates(init, e);
      assert last !in init;
    }
  }

  /** Dropping `e` from a sequence extended by `x` extends the result by `x`
      unless `x` is `e`: the step of a loop that skips `e`. */
  lemma WithoutSnoc<T(!new)>(s: seq<T>, x: T, e: T)
    ensures Without(s + [x], e) == Without(s, e) + (if x != e then [x] else [])
  {
    assert (s + [x])[..|s|] == s;
  }
}
