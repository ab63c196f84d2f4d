/** Order-preserving filtering of sequences, the model of `Array.prototype.filter`. */
module Seqs {

  /** The elements of `s` that satisfy `p`, in their original order. */
  function Filter<T>(s: seq<T>, p: T -> bool): (r: seq<T>)
    ensures |r| <= |s|
    ensures forall x :: x in r ==> x in s && p(x)
  {
    if s == [] then []
    else (if p(s[0]) then [s[0]] else []) + Filter(s[1..], p)
  }

  /** Filtering keeps exactly the elements that satisfy the predicate. */
  lemma {:induction false} FilterMembership<T>(s: seq<T>, p: T -> bool, x: T)
    ensures x in Filter(s, p) <==> x in s && p(x)
  {
    if s != [] {
      FilterMembership(s[1..], p, x);
      assert s == [s[0]] + s[1..];
    }
  }

  /** Filtering distributes over concatenation, so relative order is kept. */
  lemma {:induction false} FilterAppend<T>(a: seq<T>, b: seq<T>, p: T -> bool)
    ensures Filter(a + b, p) == Filter(a, p) + Filter(b, p)
  {
    if a == [] {
      assert a + b == b;
    } else {
      assert (a + b)[0] == a[0];
      assert (a + b)[1..] == a[1..] + b;
      FilterAppend(a[1..], b, p);
    }
  }

  /** Filtering keeps every element that satisfies the predicate as often as
      it occurs, and no other element. With `FilterAppend` this fixes the
      result: the kept elements in their original order. */
  lemma {:induction false} FilterMultiset<T>(s: seq<T>, p: T -> bool)
    ensures forall x :: multiset(Filter(s, p))[x] == if p(x) then multiset(s)[x] else 0
  {
    if s != [] {
      FilterMultiset(s[1..], p);
      FilterCons(s[0], s[1..], p);
      assert s == [s[0]] + s[1..];
      assert multiset(s) == multiset{s[0]} + multiset(s[1..]);
    }
  }

  /** When every element satisfies the predicate, filtering changes nothing. */
  lemma {:induction false} FilterKeepsAll<T>(s: seq<T>, p: T -> bool)
    requires forall x :: x in s ==> p(x)
    ensures Filter(s, p) == s
  {
    if s != [] {
      assert forall x :: x in s[1..] ==> x in s;
      FilterKeepsAll(s[1..], p);
    }
  }

  /** Two complementary predicates split a sequence into parts whose lengths add up. */
  lemma {:induction false} FilterPartition<T>(s: seq<T>, p: T -> bool, q: T -> bool)
    requires forall x :: x in s ==> (q(x) <==> !p(x))
    ensures |Filter(s, p)| + |Filter(s, q)| == |s|
  {
    if s != [] {
      assert forall x :: x in s[1..] ==> x in s;
      FilterPartition(s[1..], p, q);
    }
  }

  /** `s.map(g)`: `g` applied to every element, in order. */
  function Map<T, U>(s: seq<T>, g: T -> U): (r: seq<U>)
    ensures |r| == |s|
    ensures forall i :: 0 <= i < |s| ==> r[i] == g(s[i])
  {
    seq(|s|, i requires 0 <= i < |s| => g(s[i]))
  }

  /** One unfolding of the filter at the head. */
  lemma FilterCons<T>(x: T, s: seq<T>, p: T -> bool)
    ensures Filter([x] + s, p) == (if p(x) then [x] else []) + Filter(s, p)
  {
    assert ([x] + s)[1..] == s;
  }

  /** One unfolding of the map at the head. */
  lemma MapCons<T, U>(x: T, s: seq<T>, g: T -> U)
    ensures Map([x] + s, g) == [g(x)] + Map(s, g)
  {
    var l, r := Map([x] + s, g), [g(x)] + Map(s, g);
    forall i | 0 <= i < |l| ensures l[i] == r[i] {
      if i > 0 { assert ([x] + s)[i] == s[i - 1]; }
    }
  }

  /** A map that never changes whether the predicate holds commutes with the
      filter. */
  lemma {:induction false} FilterMap<T>(s: seq<T>, g: T -> T, p: T -> bool)
    requires forall x :: p(g(x)) == p(x)
    ensures Filter(Map(s, g), p) == Map(Filter(s, p), g)
  {
    if s != [] {
      var x, tail := s[0], s[1..];
      assert s == [x] + tail;
      MapCons(x, tail, g);
      FilterCons(g(x), Map(tail, g), p);
      FilterCons(x, tail, p);
      FilterMap(tail, g, p);
      if p(x) {
        MapCons(x, Filter(tail, p), g);
      } else {
        assert [] + Filter(tail, p) == Filter(tail, p);
      }
    }
  }
}
