// The order Python's `sorted` puts on identifiers: strings compared character
// by character. Every place where the system sorts ids goes through `Sorted`.
module Ordering {

  predicate Leq(a: string, b: string) {
    |a| == 0 || (|b| > 0 && (a[0] < b[0] || (a[0] == b[0] && Leq(a[1..], b[1..]))))
  }

  lemma {:induction false} LeqTotal(a: string, b: string)
    ensures Leq(a, b) || Leq(b, a)
  {
    if |a| > 0 && |b| > 0 && a[0] == b[0] {
      LeqTotal(a[1..], b[1..]);
    }
  }

  lemma {:induction false} LeqAntisymmetric(a: string, b: string)
    requires Leq(a, b) && Leq(b, a)
    ensures a == b
  {
    if |a| > 0 && |b| > 0 {
      LeqAntisymmetric(a[1..], b[1..]);
      assert a == [a[0]] + a[1..] && b == [b[0]] + b[1..];
    }
  }

  lemma {:induction false} LeqTransitive(a: string, b: string, c: string)
    requires Leq(a, b) && Leq(b, c)
    ensures Leq(a, c)
  {
    if |a| > 0 && |b| > 0 && |c| > 0 && a[0] == b[0] == c[0] {
      LeqTransitive(a[1..], b[1..], c[1..]);
    }
  }

  lemma {:induction false} LeqReflexive(a: string)
    ensures Leq(a, a)
  {
    LeqTotal(a, a);
  }

  lemma {:induction false} MinExists(s: set<string>) returns (m: string)
    requires s != {}
    ensures m in s && forall y :: y in s ==> Leq(m, y)
    decreases |s|
  {
    var x :| x in s;
    var rest := s - {x};
    LeqReflexive(x);
    if rest == {} {
      m := x;
      assert s == {x};
    } else {
      var r := MinExists(rest);
      LeqTotal(x, r);
      m := if Leq(x, r) then x else r;
      forall y | y in s
        ensures Leq(m, y)
      {
        if y != x && m == x {
          LeqTransitive(x, r, y);
        }
      }
    }
  }

  lemma MinDefined(s: set<string>)
    requires s != {}
    ensures exists m :: m in s && forall y :: y in s ==> Leq(m, y)
  {
    var m := MinExists(s);
  }

  lemma MinUnique(s: set<string>)
    ensures forall x, y ::
        x in s && y in s && (forall z :: z in s ==> Leq(x, z)) && (forall z :: z in s ==> Leq(y, z)) ==> x == y
  {
    forall x, y | x in s && y in s && (forall z :: z in s ==> Leq(x, z)) && (forall z :: z in s ==> Leq(y, z))
      ensures x == y
    {
      LeqAntisymmetric(x, y);
    }
  }

  function Min(s: set<string>): (m: string)
    requires s != {}
    ensures m in s && forall y :: y in s ==> Leq(m, y)
  {
    MinDefined(s);
    MinUnique(s);
    var m :| m in s && forall y :: y in s ==> Leq(m, y);
    m
  }

  // Python's `phrase in text`.
  predicate Contains(text: string, phrase: string) {
    exists i :: 0 <= i <= |text| && phrase <= text[i..]
  }

  ghost predicate Ascending(r: seq<string>) {
    forall i, j :: 0 <= i < j < |r| ==> Leq(r[i], r[j]) && r[i] != r[j]
  }

  function Elements<T(==)>(r: seq<T>): set<T> {
    set x | x in r
  }

  // Python's sorted() over a collection of distinct strings.
  function Sorted(s: set<string>): (r: seq<string>)
    ensures Ascending(r)
    ensures forall x :: x in r <==> x in s
    ensures |r| == |s|
    decreases |s|
  {
    if s == {} then [] else
      var m := Min(s);
      var rest := Sorted(s - {m});
      assert forall j :: 0 <= j < |rest| ==> rest[j] in s - {m};
      [m] + rest
  }

  function Support(all: multiset<string>): (s: set<string>)
    ensures s == {} <==> all == multiset{}
    ensures forall x :: x in s <==> x in all
  {
    var s := set x | x in all;
    assert forall x :: x in all ==> x in s;
    s
  }

  // Python's sorted() over any collection: repeated strings stay.
  function SortedAll(all: multiset<string>): seq<string>
    decreases |all|
  {
    if Support(all) == {} then [] else
      var m := Min(Support(all));
      [m] + SortedAll(all - multiset{m})
  }

  lemma {:induction false} SortedAllLists(all: multiset<string>)
    ensures multiset(SortedAll(all)) == all
    decreases |all|
  {
    if Support(all) != {} {
      var m := Min(Support(all));
      var rest := SortedAll(all - multiset{m});
      SortedAllLists(all - multiset{m});
      assert multiset([m] + rest) == multiset{m} + multiset(rest);
    }
  }

  // The first of an ascending listing is the least.
  lemma FirstIsLeast(r: seq<string>, s: set<string>)
    requires Ascending(r) && r != [] && forall x :: x in r <==> x in s
    ensures s != {} && r[0] == Min(s)
  {
    assert r[0] in s;
    var m := Min(s);
    var k :| 0 <= k < |r| && r[k] == m;
    LeqReflexive(m);
    assert Leq(r[0], m);
    LeqAntisymmetric(r[0], m);
  }

  lemma RestListsRest(r: seq<string>, s: set<string>)
    requires Ascending(r) && r != [] && forall x :: x in r <==> x in s
    ensures Ascending(r[1..]) && forall x :: x in r[1..] <==> x in s - {r[0]}
  {
    var t := r[1..];
    forall x | x in s - {r[0]}
      ensures x in t
    {
      var j :| 0 <= j < |r| && r[j] == x;
      assert t[j - 1] == x;
    }
  }

  // The sorted listing is the only ascending one: visiting order cannot matter.
  lemma {:induction false} SortedUnique(r: seq<string>, s: set<string>)
    requires Ascending(r)
    requires forall x :: x in r <==> x in s
    ensures r == Sorted(s)
    decreases |r|
  {
    if |r| == 0 {
      assert s == {};
    } else {
      FirstIsLeast(r, s);
      RestListsRest(r, s);
      SortedUnique(r[1..], s - {r[0]});
      assert r == [r[0]] + r[1..];
    }
  }

  ghost predicate Distinct<T>(r: seq<T>) {
    forall i, j :: 0 <= i < j < |r| ==> r[i] != r[j]
  }

  lemma {:induction false} DistinctCount<T>(r: seq<T>)
    requires Distinct(r)
    ensures |Elements(r)| == |r|
  {
    if |r| == 0 {
      assert Elements(r) == {};
    } else {
      var t := r[..|r| - 1];
      DistinctCount(t);
      assert Elements(r) == Elements(t) + {r[|r| - 1]};
      assert r[|r| - 1] !in Elements(t);
    }
  }

  lemma {:induction false} SubsetCount<T>(a: set<T>, b: set<T>)
    requires a <= b
    ensures |a| <= |b|
    decreases |a|
  {
    if a != {} {
      var x :| x in a;
      SubsetCount(a - {x}, b - {x});
    }
  }

  // ---------------------------------------------------------------- list comprehensions

  // [x for x in s if p(x)]
  function Filter<T(!new)>(s: seq<T>, p: T -> bool): (r: seq<T>)
    ensures forall x :: x in r <==> x in s && p(x)
    ensures |r| <= |s|
  {
    if |s| == 0 then [] else
      var rest := Filter(s[..|s| - 1], p);
      var last := s[|s| - 1];
      assert s == s[..|s| - 1] + [last];
      if p(last) then rest + [last] else rest
  }

  lemma FilterLast<T(!new)>(s: seq<T>, x: T, p: T -> bool)
    ensures Filter(s + [x], p) == if p(x) then Filter(s, p) + [x] else Filter(s, p)
  {
    assert (s + [x])[..|s|] == s;
  }

  lemma {:induction false} FilterSame<T(!new)>(s: seq<T>, p: T -> bool, q: T -> bool)
    requires forall x :: x in s ==> p(x) == q(x)
    ensures Filter(s, p) == Filter(s, q)
  {
    if |s| > 0 {
      FilterSame(s[..|s| - 1], p, q);
    }
  }

  function Both<T(!new)>(p: T -> bool, q: T -> bool): (r: T -> bool) {
    x => p(x) && q(x)
  }

  lemma {:induction false} FilterTwice<T(!new)>(s: seq<T>, p: T -> bool, q: T -> bool)
    ensures Filter(Filter(s, p), q) == Filter(s, Both(p, q))
  {
    if |s| > 0 {
      var t, x := s[..|s| - 1], s[|s| - 1];
      FilterTwice(t, p, q);
      FilterLast(Filter(t, p), x, q);
    }
  }

  lemma {:induction false} FilterAll<T(!new)>(s: seq<T>, p: T -> bool)
    requires forall x :: x in s ==> p(x)
    ensures Filter(s, p) == s
  {
    if |s| > 0 {
      FilterAll(s[..|s| - 1], p);
    }
  }

  lemma {:induction false} FilterDistinct<T(!new)>(s: seq<T>, p: T -> bool)
    requires Distinct(s)
    ensures Distinct(Filter(s, p))
  {
    if |s| > 0 {
      FilterDistinct(s[..|s| - 1], p);
      assert s[|s| - 1] !in s[..|s| - 1];
    }
  }

  // Removing one element of a duplicate-free list shortens it by one.
  lemma {:induction false} FilterOne<T(!new)>(s: seq<T>, v: T, p: T -> bool)
    requires Distinct(s) && v in s && forall x :: x in s ==> (p(x) <==> x != v)
    ensures |Filter(s, p)| == |s| - 1
  {
    var t, x := s[..|s| - 1], s[|s| - 1];
    assert x !in t;
    if x == v {
      FilterAll(t, p);
    } else {
      FilterOne(t, v, p);
    }
  }
}
