/** Query results: the ids of an ordered table that satisfy a filter, and taking them in batches. */
module Listing {

  predicate Distinct<T(==)>(s: seq<T>) {
    forall i, j :: 0 <= i < j < |s| ==> s[i] != s[j]
  }

  function Members<T>(s: seq<T>): set<T> {
    set x | x in s
  }

  /** The entries of `order` that belong to `keep`, in order. */
  function Filter<T(==)>(order: seq<T>, keep: set<T>): seq<T> {
    if order == [] then []
    else (if order[0] in keep then [order[0]] else []) + Filter(order[1..], keep)
  }

  function Take<T>(s: seq<T>, n: nat): seq<T> {
    if n <= |s| then s[..n] else s
  }

  function Skip<T>(s: seq<T>, n: nat): seq<T> {
    if n <= |s| then s[n..] else []
  }

  lemma {:induction false} FilterMembers<T>(order: seq<T>, keep: set<T>)
    ensures forall x :: x in Filter(order, keep) <==> x in order && x in keep
  {
    if order != [] {
      FilterMembers(order[1..], keep);
      assert order == [order[0]] + order[1..];
    }
  }

  /** A filter that only names listed entries finds them all. */
  lemma FilterFindsAll<T>(order: seq<T>, keep: set<T>)
    requires keep <= Members(order)
    ensures Members(Filter(order, keep)) == keep && (Filter(order, keep) == [] <==> keep == {})
  {
    FilterMembers(order, keep);
    assert Members(Filter(order, keep)) == keep;
    if Filter(order, keep) != [] { assert Filter(order, keep)[0] in keep; }
  }

  lemma {:induction false} FilterDistinct<T>(order: seq<T>, keep: set<T>)
    requires Distinct(order)
    ensures Distinct(Filter(order, keep))
  {
    if order != [] {
      FilterDistinct(order[1..], keep);
      FilterMembers(order[1..], keep);
    }
  }

  lemma {:induction false} FilterAppend<T>(a: seq<T>, b: seq<T>, keep: set<T>)
    ensures Filter(a + b, keep) == Filter(a, keep) + Filter(b, keep)
  {
    if a == [] {
      assert a + b == b;
    } else {
      FilterAppend(a[1..], b, keep);
      assert (a + b)[1..] == a[1..] + b;
      var first := if a[0] in keep then [a[0]] else [];
      assert Filter(a + b, keep) == first + (Filter(a[1..], keep) + Filter(b, keep));
    }
  }

  lemma {:induction false} FilterSame<T>(order: seq<T>, a: set<T>, b: set<T>)
    requires forall x :: x in order ==> (x in a <==> x in b)
    ensures Filter(order, a) == Filter(order, b)
  {
    if order != [] { FilterSame(order[1..], a, b); }
  }

  /** Once the first `n` hits are gone from the filter, the rest is what a new query returns. */
  lemma {:induction false} NextBatch<T>(order: seq<T>, keep: set<T>, n: nat)
    requires Distinct(order)
    ensures Filter(order, keep - Members(Take(Filter(order, keep), n))) == Skip(Filter(order, keep), n)
  {
    if order == [] || n == 0 {
      FilterSame(order, keep, keep - Members(Take(Filter(order, keep), n)));
    } else {
      var x, rest := order[0], order[1..];
      var k := if x in keep then n - 1 else n;
      NextBatch(rest, keep, k);
      FilterMembers(rest, keep);
      var gone, goneRest := Members(Take(Filter(order, keep), n)), Members(Take(Filter(rest, keep), k));
      assert x !in rest;
      if x in keep {
        assert Take(Filter(order, keep), n) == [x] + Take(Filter(rest, keep), k);
        assert Skip(Filter(order, keep), n) == Skip(Filter(rest, keep), k);
        assert gone == {x} + goneRest;
      } else {
        assert Filter(order, keep) == Filter(rest, keep);
      }
      FilterSame(rest, keep - gone, keep - goneRest);
    }
  }
}
