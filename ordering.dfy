/*
 * The name order both list sorts of the back end use (the category list and
 * the stock-by-category list): `compareToIgnoreCase` on the names, entries
 * without a name last. The sort itself is an insertion sort standing for
 * the library sort; what is stated of it is that its result is a sorted
 * permutation of its input.
 */
module Ordering {
  import opened Base
  import opened JavaStrings

  /** `a` may precede `b`: `b` has no name, or both have one and `a`'s is not above `b`'s ignoring case. */
  predicate NameLeq(a: Option<string>, b: Option<string>)
  {
    b.None? || (a.Some? && LeqIgnoreCase(a.value, b.value))
  }

  lemma NameLeqTotal(a: Option<string>, b: Option<string>)
    ensures NameLeq(a, b) || NameLeq(b, a)
  {
    if a.Some? && b.Some? {
      LexLeqTotal(ToLower(a.value), ToLower(b.value));
    }
  }

  lemma NameLeqTrans(a: Option<string>, b: Option<string>, c: Option<string>)
    requires NameLeq(a, b) && NameLeq(b, c)
    ensures NameLeq(a, c)
  {
    if c.Some? {
      LexLeqTrans(ToLower(a.value), ToLower(b.value), ToLower(c.value));
    }
  }

  /** A named entry never follows an unnamed one in a sorted list. */
  lemma NamedFirst(a: Option<string>, b: Option<string>)
    requires NameLeq(a, b) && a.None?
    ensures b.None?
  {
  }

  predicate SortedBy<T>(xs: seq<T>, name: T -> Option<string>)
  {
    forall i, j :: 0 <= i < j < |xs| ==> NameLeq(name(xs[i]), name(xs[j]))
  }

  /** One insertion step: `x` goes after every entry not above it. */
  method InsertBy<T>(xs: seq<T>, x: T, name: T -> Option<string>) returns (r: seq<T>)
    requires SortedBy(xs, name)
    ensures SortedBy(r, name)
    ensures multiset(r) == multiset(xs) + multiset{x}
  {
    var j := 0;
    while j < |xs| && NameLeq(name(xs[j]), name(x))
      invariant 0 <= j <= |xs|
      invariant forall k :: 0 <= k < j ==> NameLeq(name(xs[k]), name(x))
    {
      j := j + 1;
    }
    if j < |xs| {
      NameLeqTotal(name(xs[j]), name(x));
      forall k | j <= k < |xs|
        ensures NameLeq(name(x), name(xs[k]))
      {
        if k > j {
          NameLeqTrans(name(x), name(xs[j]), name(xs[k]));
        }
      }
    }
    r := xs[..j] + [x] + xs[j..];
    assert xs == xs[..j] + xs[j..];
    forall a, b | 0 <= a < b < |r|
      ensures NameLeq(name(r[a]), name(r[b]))
    {
      if b < j || a > j {
      } else if a == j || b == j {
      } else {
      }
    }
  }

  /** The list sort: a sorted permutation of its input. */
  method SortBy<T>(xs: seq<T>, name: T -> Option<string>) returns (r: seq<T>)
    ensures SortedBy(r, name)
    ensures multiset(r) == multiset(xs)
  {
    r := [];
    var i := 0;
    while i < |xs|
      invariant 0 <= i <= |xs|
      invariant SortedBy(r, name)
      invariant multiset(r) == multiset(xs[..i])
    {
      r := InsertBy(r, xs[i], name);
      assert xs[..i + 1] == xs[..i] + [xs[i]];
      i := i + 1;
    }
    assert xs[..i] == xs;
  }
}
