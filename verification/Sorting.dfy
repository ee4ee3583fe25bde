/** Sorting by a comparison, as the library call the retrievers use. */
module Sorting {

  /** `before` may break ties any way it likes as long as it respects the preorder `order`. */
  ghost predicate Respects<T(!new)>(before: (T, T) -> bool, order: (T, T) -> bool) {
    && (forall x, y :: before(x, y) ==> order(x, y))
    && (forall x, y :: !before(x, y) ==> order(y, x))
    && (forall x, y, z :: order(x, y) && order(y, z) ==> order(x, z))
  }

  ghost predicate Ordered<T>(xs: seq<T>, order: (T, T) -> bool) {
    forall i, j :: 0 <= i < j < |xs| ==> order(xs[i], xs[j])
  }

  function Insert<T>(x: T, xs: seq<T>, before: (T, T) -> bool): seq<T> {
    if xs == [] || before(x, xs[0]) then [x] + xs else [xs[0]] + Insert(x, xs[1..], before)
  }

  function Sorted<T>(xs: seq<T>, before: (T, T) -> bool): seq<T> {
    if xs == [] then [] else Insert(xs[0], Sorted(xs[1..], before), before)
  }

  lemma {:induction false} InsertPermutes<T>(x: T, xs: seq<T>, before: (T, T) -> bool)
    ensures multiset(Insert(x, xs, before)) == multiset(xs) + multiset{x}
  {
    if xs != [] && !before(x, xs[0]) {
      InsertPermutes(x, xs[1..], before);
      assert xs == [xs[0]] + xs[1..];
    }
  }

  lemma {:induction false} SortedPermutes<T>(xs: seq<T>, before: (T, T) -> bool)
    ensures multiset(Sorted(xs, before)) == multiset(xs) && |Sorted(xs, before)| == |xs|
    ensures forall x :: x in Sorted(xs, before) <==> x in xs
  {
    if xs != [] {
      SortedPermutes(xs[1..], before);
      InsertPermutes(xs[0], Sorted(xs[1..], before), before);
      assert xs == [xs[0]] + xs[1..];
    }
    var s := Sorted(xs, before);
    assert |multiset(s)| == |multiset(xs)|;
    forall x
      ensures x in s <==> x in xs
    {
      assert x in multiset(s) <==> x in multiset(xs);
    }
  }

  lemma {:induction false} InsertOrders<T(!new)>(x: T, xs: seq<T>, before: (T, T) -> bool, order: (T, T) -> bool)
    requires Respects(before, order) && Ordered(xs, order)
    ensures Ordered(Insert(x, xs, before), order)
  {
    if xs != [] && !before(x, xs[0]) {
      var tail := xs[1..];
      InsertOrders(x, tail, before, order);
      InsertPermutes(x, tail, before);
      var rest := Insert(x, tail, before);
      forall j | 0 <= j < |rest|
        ensures order(xs[0], rest[j])
      {
        assert rest[j] in multiset(rest);
        assert rest[j] == x || rest[j] in tail;
      }
    } else if xs != [] {
      forall j | 0 <= j < |xs|
        ensures order(x, xs[j])
      {
        assert j > 0 ==> order(xs[0], xs[j]);
      }
    }
  }

  lemma {:induction false} SortedOrders<T(!new)>(xs: seq<T>, before: (T, T) -> bool, order: (T, T) -> bool)
    requires Respects(before, order)
    ensures Ordered(Sorted(xs, before), order)
  {
    if xs != [] {
      SortedOrders(xs[1..], before, order);
      InsertOrders(xs[0], Sorted(xs[1..], before), before, order);
    }
  }

  ghost predicate Distinct<T>(xs: seq<T>) { forall i, j :: 0 <= i < j < |xs| ==> xs[i] != xs[j] }

  lemma {:induction false} DistinctCountsOnce<T>(xs: seq<T>, x: T)
    requires Distinct(xs)
    ensures multiset(xs)[x] <= 1
  {
    if xs != [] {
      var last := |xs| - 1;
      DistinctCountsOnce(xs[..last], x);
      assert xs == xs[..last] + [xs[last]];
    }
  }

  lemma SortedStaysDistinct<T>(xs: seq<T>, before: (T, T) -> bool)
    requires Distinct(xs)
    ensures Distinct(Sorted(xs, before))
  {
    var s := Sorted(xs, before);
    SortedPermutes(xs, before);
    forall i, j | 0 <= i < j < |s|
      ensures s[i] != s[j]
    {
      DistinctCountsOnce(xs, s[i]);
      assert s == s[..j] + s[j..];
      assert s[i] == s[..j][i] && s[j] == s[j..][0];
      assert multiset(s[..j])[s[i]] >= 1 && multiset(s[j..])[s[j]] >= 1;
    }
  }

  /** The order of strings by character. */
  predicate StringLess(a: string, b: string) {
    if a == [] || b == [] then a == [] && b != []
    else a[0] < b[0] || (a[0] == b[0] && StringLess(a[1..], b[1..]))
  }

  /** Strings are totally ordered. */
  lemma {:induction false} StringsCompare(a: string, b: string)
    ensures StringLess(a, b) || a == b || StringLess(b, a)
    ensures !(StringLess(a, b) && StringLess(b, a))
    ensures !StringLess(a, a)
    decreases |a|
  {
    if a != [] {
      StringsCompare(a[1..], if b == [] then [] else b[1..]);
      if b != [] && a[0] == b[0] && a[1..] == b[1..] {
        assert a == [a[0]] + a[1..] && b == [b[0]] + b[1..];
      }
    }
  }

  lemma {:induction false} StringsAreTransitive(a: string, b: string, c: string)
    requires StringLess(a, b) && StringLess(b, c)
    ensures StringLess(a, c)
    decreases |a|
  {
    if a != [] && b != [] && c != [] && a[0] == b[0] == c[0] {
      StringsAreTransitive(a[1..], b[1..], c[1..]);
    }
  }

  const NO_GREATER: (string, string) -> bool := (a: string, b: string) => !StringLess(b, a)

  lemma NoGreaterIsTransitive(a: string, b: string, c: string)
    requires !StringLess(b, a) && !StringLess(c, b)
    ensures !StringLess(c, a)
  {
    StringsCompare(a, b);
    StringsCompare(b, c);
    StringsCompare(a, c);
    if StringLess(c, a) && StringLess(a, b) {
      StringsAreTransitive(c, a, b);
    }
  }

  /** Sorting strings puts them in order. */
  lemma StringsAreSorted(xs: seq<string>)
    ensures Ordered(Sorted(xs, NO_GREATER), NO_GREATER)
  {
    forall x, y | !NO_GREATER(x, y)
      ensures NO_GREATER(y, x)
    {
      StringsCompare(x, y);
    }
    forall x, y, z | NO_GREATER(x, y) && NO_GREATER(y, z)
      ensures NO_GREATER(x, z)
    {
      NoGreaterIsTransitive(x, y, z);
    }
    SortedOrders(xs, NO_GREATER, NO_GREATER);
  }
}
