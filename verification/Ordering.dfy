/** Byte-wise string order, sorting, and the uniqueness of sorted listings. */
module Ordering {

  predicate Less(a: string, b: string) {
    if a == [] then b != []
    else b != [] && (a[0] < b[0] || (a[0] == b[0] && Less(a[1..], b[1..])))
  }

  predicate LessEq(a: string, b: string) { a == b || Less(a, b) }

  lemma {:induction false} LessTotal(a: string, b: string)
    ensures Less(a, b) || Less(b, a) || a == b
    ensures !(Less(a, b) && Less(b, a)) && !Less(a, a)
  {
    if a != [] && b != [] && a[0] == b[0] {
      LessTotal(a[1..], b[1..]);
      assert a == [a[0]] + a[1..] && b == [b[0]] + b[1..];
    }
    if a != [] { LessTotal(a[1..], a[1..]); }
  }

  lemma {:induction false} LessTransitive(a: string, b: string, c: string)
    requires Less(a, b) && Less(b, c)
    ensures Less(a, c)
  {
    if a != [] && a[0] == b[0] == c[0] { LessTransitive(a[1..], b[1..], c[1..]); }
  }

  ghost predicate StrictlySorted(xs: seq<string>) {
    forall i, j :: 0 <= i < j < |xs| ==> Less(xs[i], xs[j])
  }

  ghost predicate Sorted(xs: seq<string>) {
    forall i, j :: 0 <= i < j < |xs| ==> LessEq(xs[i], xs[j])
  }

  ghost function Elements(xs: seq<string>): set<string> { set x | x in xs }

  lemma NoElements(xs: seq<string>)
    ensures Elements(xs) == {} <==> xs == []
  {
    if xs != [] { assert xs[0] in Elements(xs); }
  }

  /** A strictly sorted list is determined by the set of its elements. */
  lemma {:induction false} SortedListingIsUnique(xs: seq<string>, ys: seq<string>)
    requires StrictlySorted(xs) && StrictlySorted(ys) && Elements(xs) == Elements(ys)
    ensures xs == ys
  {
    NoElements(xs);
    NoElements(ys);
    if xs != [] {
      assert xs[0] in Elements(xs);
      var a :| 0 <= a < |ys| && ys[a] == xs[0];
      assert ys[0] in Elements(ys);
      var b :| 0 <= b < |xs| && xs[b] == ys[0];
      LessTotal(xs[0], ys[0]);
      assert xs[0] == ys[0];
      forall x ensures x in Elements(xs[1..]) <==> x in Elements(ys[1..]) {
        LessTotal(x, x);
        assert x in Elements(xs) <==> x == xs[0] || x in xs[1..];
        assert x in Elements(ys) <==> x == ys[0] || x in ys[1..];
      }
      SortedListingIsUnique(xs[1..], ys[1..]);
    }
  }

  /** `sort.Strings`. */
  function Sort(xs: seq<string>): (r: seq<string>)
    ensures Sorted(r) && multiset(r) == multiset(xs)
  {
    if xs == [] then [] else
      assert xs == [xs[0]] + xs[1..];
      Insert(xs[0], Sort(xs[1..]))
  }

  function Insert(x: string, xs: seq<string>): (r: seq<string>)
    requires Sorted(xs)
    ensures Sorted(r) && multiset(r) == multiset(xs) + multiset{x}
  {
    if xs == [] then [x]
    else if LessEq(x, xs[0]) then InsertFrontSorted(x, xs); [x] + xs
    else
      assert xs == [xs[0]] + xs[1..];
      var r := Insert(x, xs[1..]);
      InsertBehindSorted(x, xs, r);
      [xs[0]] + r
  }

  lemma InsertFrontSorted(x: string, xs: seq<string>)
    requires xs != [] && Sorted(xs) && LessEq(x, xs[0])
    ensures Sorted([x] + xs)
  {
    forall j | 0 <= j < |xs| ensures LessEq(x, xs[j]) {
      if j > 0 && x != xs[0] && xs[0] != xs[j] { LessTransitive(x, xs[0], xs[j]); }
    }
  }

  lemma InsertBehindSorted(x: string, xs: seq<string>, r: seq<string>)
    requires xs != [] && Sorted(xs) && !LessEq(x, xs[0])
    requires Sorted(r) && multiset(r) == multiset(xs[1..]) + multiset{x}
    ensures Sorted([xs[0]] + r)
  {
    LessTotal(x, xs[0]);
    forall j | 0 <= j < |r| ensures LessEq(xs[0], r[j]) {
      assert r[j] in multiset(r);
      if r[j] != x {
        assert r[j] in xs[1..];
        var i :| 0 <= i < |xs[1..]| && xs[1..][i] == r[j];
        assert LessEq(xs[0], xs[i + 1]);
      }
    }
  }

  /** Sorting a duplicate-free list sorts it strictly. */
  lemma DistinctSortsStrictly(xs: seq<string>)
    requires forall i, j :: 0 <= i < j < |xs| ==> xs[i] != xs[j]
    ensures StrictlySorted(Sort(xs)) && Elements(Sort(xs)) == Elements(xs)
  {
    var r := Sort(xs);
    forall x ensures x in r <==> x in xs {
      assert x in r <==> x in multiset(r);
      assert x in xs <==> x in multiset(xs);
    }
    DistinctCounts(xs);
    CountedOnceIsDistinct(r);
  }

  lemma {:induction false} CountedOnceIsDistinct(xs: seq<string>)
    requires forall x :: multiset(xs)[x] <= 1
    ensures forall i, j :: 0 <= i < j < |xs| ==> xs[i] != xs[j]
  {
    if xs != [] {
      assert xs == [xs[0]] + xs[1..];
      assert forall x :: multiset(xs)[x] >= multiset(xs[1..])[x];
      CountedOnceIsDistinct(xs[1..]);
      assert xs[0] !in multiset(xs[1..]);
      assert forall i :: 1 <= i < |xs| ==> xs[i] in xs[1..];
    }
  }

  lemma {:induction false} DistinctCounts(xs: seq<string>)
    requires forall i, j :: 0 <= i < j < |xs| ==> xs[i] != xs[j]
    ensures forall x :: multiset(xs)[x] <= 1
  {
    if xs != [] {
      DistinctCounts(xs[1..]);
      assert xs == [xs[0]] + xs[1..];
      assert xs[0] !in xs[1..];
    }
  }

  /** The sorted listing of a set: `sets.String.List` and the sorted keys of a map. */
  method SortedListing(s: set<string>) returns (r: seq<string>)
    ensures StrictlySorted(r) && Elements(r) == s
  {
    var rest, xs := s, [];
    while rest != {}
      invariant rest <= s && Elements(xs) == s - rest
      invariant forall i, j :: 0 <= i < j < |xs| ==> xs[i] != xs[j]
      decreases rest
    {
      var x :| x in rest;
      assert x !in Elements(xs);
      assert Elements(xs + [x]) == Elements(xs) + {x};
      rest, xs := rest - {x}, xs + [x];
    }
    DistinctSortsStrictly(xs);
    r := Sort(xs);
  }
}
