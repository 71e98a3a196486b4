/** Sequences seen as multisets, and sums over them. */
module Sums {
  lemma SplitAt<T>(s: seq<T>, i: nat)
    requires i < |s|
    ensures multiset(s) == multiset(s[..i]) + multiset{s[i]} + multiset(s[i + 1..])
  {
    assert s == s[..i] + [s[i]] + s[i + 1..];
  }

  lemma Cancel<T>(a: multiset<T>, b1: multiset<T>, b2: multiset<T>, x: T)
    requires multiset{x} + a == b1 + multiset{x} + b2
    ensures a == b1 + b2
  {
    forall y ensures a[y] == (b1 + b2)[y] {
      assert (multiset{x} + a)[y] == (b1 + multiset{x} + b2)[y];
    }
  }

  /** An element more in the first part, or in the second, is an element more in the whole. */
  lemma OneMore<T>(a: multiset<T>, b: multiset<T>, whole: multiset<T>, x: T)
    requires a + b == whole
    ensures (multiset{x} + a) + b == multiset{x} + whole
    ensures a + (multiset{x} + b) == multiset{x} + whole
  {}

  lemma HeadAndTail<T>(s: seq<T>)
    requires s != []
    ensures multiset(s) == multiset{s[0]} + multiset(s[1..])
  {
    assert s == [s[0]] + s[1..];
  }

  lemma Cons<T>(x: T, s: seq<T>)
    ensures multiset([x] + s) == multiset{x} + multiset(s)
  {}

  lemma SameRest<T>(a: seq<T>, b: seq<T>, i: nat)
    requires multiset(a) == multiset(b) && a != [] && i < |b| && b[i] == a[0]
    ensures multiset(a[1..]) == multiset(b[..i] + b[i + 1..])
  {
    HeadAndTail(a);
    SplitAt(b, i);
    Cancel(multiset(a[1..]), multiset(b[..i]), multiset(b[i + 1..]), a[0]);
  }

  function Sum<T>(s: seq<T>, f: T -> int): int {
    if s == [] then 0 else f(s[0]) + Sum(s[1..], f)
  }

  lemma {:induction false} SumConcat<T>(a: seq<T>, b: seq<T>, f: T -> int)
    ensures Sum(a + b, f) == Sum(a, f) + Sum(b, f)
  {
    if a == [] {
      assert a + b == b;
    } else {
      SumConcat(a[1..], b, f);
      assert (a + b)[1..] == a[1..] + b;
    }
  }

  lemma SumInsert<T>(a: seq<T>, x: T, b: seq<T>, f: T -> int)
    ensures Sum(a + [x] + b, f) == f(x) + Sum(a + b, f)
  {
    SumConcat(a + [x], b, f);
    SumConcat(a, [x], f);
    SumConcat(a, b, f);
    assert Sum([x], f) == f(x) + Sum([], f);
  }

  lemma {:induction false} SumIgnoresOrder<T>(a: seq<T>, b: seq<T>, f: T -> int)
    requires multiset(a) == multiset(b)
    ensures Sum(a, f) == Sum(b, f)
  {
    if a == [] {
      assert |multiset(b)| == 0;
    } else {
      assert a[0] in multiset(b);
      var i :| 0 <= i < |b| && b[i] == a[0];
      SameRest(a, b, i);
      SumIgnoresOrder(a[1..], b[..i] + b[i + 1..], f);
      SumInsert(b[..i], b[i], b[i + 1..], f);
      assert b == b[..i] + [b[i]] + b[i + 1..];
    }
  }

  ghost predicate Distinct<T>(s: seq<T>) {
    forall i, j :: 0 <= i < j < |s| ==> s[i] != s[j]
  }

  lemma {:induction false} DistinctCount<T>(s: seq<T>, x: T)
    requires Distinct(s)
    ensures multiset(s)[x] == if x in s then 1 else 0
  {
    if s != [] {
      SplitAt(s, 0);
      DistinctCount(s[1..], x);
      assert s == [s[0]] + s[1..];
    }
  }

  lemma SameElements<T>(a: seq<T>, b: seq<T>)
    requires Distinct(a) && Distinct(b) && forall x :: x in a <==> x in b
    ensures multiset(a) == multiset(b)
  {
    forall x ensures multiset(a)[x] == multiset(b)[x] {
      DistinctCount(a, x);
      DistinctCount(b, x);
    }
  }

  lemma {:induction false} SumAtLeast<T(!new)>(s: seq<T>, f: T -> int, x: T)
    requires x in s && forall z :: f(z) >= 0
    ensures Sum(s, f) >= f(x)
  {
    SumNonnegative(s[1..], f);
    if x != s[0] { SumAtLeast(s[1..], f, x); }
  }

  lemma {:induction false} SumNonnegative<T(!new)>(s: seq<T>, f: T -> int)
    requires forall z :: f(z) >= 0
    ensures Sum(s, f) >= 0
  {
    if s != [] { SumNonnegative(s[1..], f); }
  }

  /** At most one element of `s` counts. */
  lemma {:induction false} SumOne<T(!new)>(s: seq<T>, f: T -> int, x: T, y: T)
    requires Sum(s, f) <= 1 && (forall z :: f(z) >= 0)
    requires x in s && y in s && f(x) == 1 && f(y) == 1
    ensures x == y
  {
    SumNonnegative(s[1..], f);
    if x != s[0] && y != s[0] {
      SumOne(s[1..], f, x, y);
    } else if x != y {
      SumAtLeast(s[1..], f, if x == s[0] then y else x);
    }
  }
}
