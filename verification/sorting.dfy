/** Stable sorting by a comparison, and when the result depends only on which elements there are. */
module Sorting {
  import opened Common

  /** `before` orders its elements up to ties. */
  ghost predicate WeakOrder<T(!new)>(before: (T, T) -> bool) {
    && (forall x, y :: before(x, y) ==> !before(y, x))
    && (forall x, y, z :: before(x, z) ==> before(x, y) || before(y, z))
  }

  lemma {:induction false} BetweenIs<T(!new)>(before: (T, T) -> bool, x: T, y: T, z: T)
    requires WeakOrder(before) && before(x, z)
    ensures before(x, y) || before(y, z)
  {
  }

  function InsertBy<T(!new)>(before: (T, T) -> bool, x: T, sorted: seq<T>): (r: seq<T>)
    ensures multiset(r) == multiset{x} + multiset(sorted)
  {
    if sorted == [] || !before(sorted[0], x) then [x] + sorted
    else
      assert sorted == [sorted[0]] + sorted[1..];
      [sorted[0]] + InsertBy(before, x, sorted[1..])
  }

  function SortBy<T(!new)>(before: (T, T) -> bool, s: seq<T>): (r: seq<T>)
    ensures multiset(r) == multiset(s) && |r| == |s|
  {
    if s == [] then []
    else
      assert s == [s[0]] + s[1..];
      var r := InsertBy(before, s[0], SortBy(before, s[1..]));
      assert |r| == |multiset(r)| && |s| == |multiset(s)|;
      r
  }

  lemma {:induction false} SortKeeps<T(!new)>(before: (T, T) -> bool, s: seq<T>, x: T)
    ensures x in SortBy(before, s) <==> x in s
  {
    assert x in SortBy(before, s) <==> x in multiset(SortBy(before, s));
    assert x in s <==> x in multiset(s);
  }

  /** No element stands after one it should stand before. */
  ghost predicate Ascending<T(!new)>(before: (T, T) -> bool, s: seq<T>) {
    forall i, j :: 0 <= i < j < |s| ==> !before(s[j], s[i])
  }

  lemma {:induction false} PrependAscending<T(!new)>(before: (T, T) -> bool, x: T, s: seq<T>)
    requires Ascending(before, s) && forall y :: y in s ==> !before(y, x)
    ensures Ascending(before, [x] + s)
  {
    var all := [x] + s;
    forall i, j | 0 <= i < j < |all| ensures !before(all[j], all[i]) {
      assert all[j] == s[j - 1] && all[j] in s;
      assert i > 0 ==> all[i] == s[i - 1];
    }
  }

  lemma {:induction false} TailAscending<T(!new)>(before: (T, T) -> bool, s: seq<T>)
    requires s != [] && Ascending(before, s)
    ensures Ascending(before, s[1..]) && forall y :: y in s[1..] ==> !before(y, s[0])
  {
    forall i, j | 0 <= i < j < |s[1..]| ensures !before(s[1..][j], s[1..][i]) {
      assert s[1..][i] == s[i + 1] && s[1..][j] == s[j + 1];
    }
    forall y | y in s[1..] ensures !before(y, s[0]) {
      var k :| 0 <= k < |s[1..]| && s[1..][k] == y;
      assert s[k + 1] == y;
    }
  }

  lemma {:induction false} InsertAscending<T(!new)>(before: (T, T) -> bool, x: T, sorted: seq<T>)
    requires WeakOrder(before) && Ascending(before, sorted)
    ensures Ascending(before, InsertBy(before, x, sorted))
    decreases |sorted|
  {
    if sorted == [] {
      assert InsertBy(before, x, sorted) == [x];
    } else if !before(sorted[0], x) {
      TailAscending(before, sorted);
      forall y | y in sorted ensures !before(y, x) {
        if before(y, x) {
          BetweenIs(before, y, sorted[0], x);
        }
        assert y == sorted[0] || y in sorted[1..];
      }
      PrependAscending(before, x, sorted);
    } else {
      var rest := InsertBy(before, x, sorted[1..]);
      TailAscending(before, sorted);
      InsertAscending(before, x, sorted[1..]);
      forall y | y in rest ensures !before(y, sorted[0]) {
        assert y in multiset(rest);
        assert y == x || y in multiset(sorted[1..]);
      }
      PrependAscending(before, sorted[0], rest);
    }
  }

  lemma {:induction false} SortAscending<T(!new)>(before: (T, T) -> bool, s: seq<T>)
    requires WeakOrder(before)
    ensures Ascending(before, SortBy(before, s))
    decreases |s|
  {
    if s == [] {
    } else {
      SortAscending(before, s[1..]);
      InsertAscending(before, s[0], SortBy(before, s[1..]));
    }
  }

  /** The elements that tie with `x`, in order. */
  ghost function Ties<T(!new)>(before: (T, T) -> bool, x: T, s: seq<T>): seq<T> {
    if s == [] then []
    else (if !before(x, s[0]) && !before(s[0], x) then [s[0]] else []) + Ties(before, x, s[1..])
  }

  lemma {:induction false} TiesFrom<T(!new)>(before: (T, T) -> bool, x: T, y: T, rest: seq<T>)
    ensures Ties(before, x, [y] + rest)
            == (if !before(x, y) && !before(y, x) then [y] else []) + Ties(before, x, rest)
  {
    assert ([y] + rest)[1..] == rest;
  }

  lemma {:induction false} InsertKeepsTies<T(!new)>(before: (T, T) -> bool, x: T, y: T, sorted: seq<T>)
    requires WeakOrder(before)
    ensures Ties(before, x, InsertBy(before, y, sorted)) == Ties(before, x, [y] + sorted)
    decreases |sorted|
  {
    if sorted == [] || !before(sorted[0], y) {
    } else {
      var z, tail := sorted[0], sorted[1..];
      InsertKeepsTies(before, x, y, tail);
      TiesFrom(before, x, z, InsertBy(before, y, tail));
      TiesFrom(before, x, y, tail);
      TiesFrom(before, x, y, sorted);
      BetweenIs(before, z, x, y);
    }
  }

  /** Sorting is stable: elements that tie stay in the order they came in. */
  lemma {:induction false} SortIsStable<T(!new)>(before: (T, T) -> bool, x: T, s: seq<T>)
    requires WeakOrder(before)
    ensures Ties(before, x, SortBy(before, s)) == Ties(before, x, s)
    decreases |s|
  {
    if s == [] {
    } else {
      var rest := SortBy(before, s[1..]);
      SortIsStable(before, x, s[1..]);
      InsertKeepsTies(before, x, s[0], rest);
      assert ([s[0]] + rest)[1..] == rest;
    }
  }

  /** Only equal elements tie. */
  ghost predicate Distinguishes<T(!new)>(before: (T, T) -> bool, s: seq<T>) {
    forall x, y :: x in s && y in s && !before(x, y) && !before(y, x) ==> x == y
  }

  lemma {:induction false} SameFirst<T(!new)>(before: (T, T) -> bool, a: seq<T>, b: seq<T>)
    requires Ascending(before, a) && Ascending(before, b) && Distinguishes(before, a)
    requires a != [] && b != [] && a[0] in b && b[0] in a
    ensures a[0] == b[0]
  {
    var i :| 0 <= i < |b| && b[i] == a[0];
    var j :| 0 <= j < |a| && a[j] == b[0];
    assert i > 0 ==> !before(b[i], b[0]);
    assert j > 0 ==> !before(a[j], a[0]);
  }

  lemma {:induction false} AscendingIsUnique<T(!new)>(before: (T, T) -> bool, a: seq<T>, b: seq<T>)
    requires Ascending(before, a) && Ascending(before, b) && multiset(a) == multiset(b) && Distinguishes(before, a)
    ensures a == b
    decreases |a|
  {
    assert |a| == |multiset(a)| && |b| == |multiset(b)|;
    if a == [] {
    } else {
      assert a[0] in multiset(b) && b[0] in multiset(a);
      SameFirst(before, a, b);
      TailAscending(before, a);
      TailAscending(before, b);
      assert a == [a[0]] + a[1..] && b == [b[0]] + b[1..];
      assert multiset(a[1..]) == multiset(a) - multiset{a[0]};
      assert multiset(b[1..]) == multiset(b) - multiset{b[0]};
      assert Distinguishes(before, a[1..]) by {
        assert forall x :: x in a[1..] ==> x in a;
      }
      AscendingIsUnique(before, a[1..], b[1..]);
    }
  }

  /** Sorting forgets the order it started from. */
  lemma {:induction false} SortForgetsOrder<T(!new)>(before: (T, T) -> bool, a: seq<T>, b: seq<T>)
    requires WeakOrder(before) && multiset(a) == multiset(b) && Distinguishes(before, a)
    ensures SortBy(before, a) == SortBy(before, b)
  {
    SortAscending(before, a);
    SortAscending(before, b);
    forall x | x in SortBy(before, a) ensures x in a {
      assert x in multiset(SortBy(before, a));
    }
    AscendingIsUnique(before, SortBy(before, a), SortBy(before, b));
  }

  /** Text in code-point order is such an order. */
  lemma {:induction false} BeforeBetween(a: string, b: string, c: string)
    requires Before(a, c)
    ensures Before(a, b) || Before(b, c)
  {
    BeforeIsTotal(a, b);
    if Before(b, a) {
      BeforeIsTransitive(b, a, c);
    }
  }

  lemma {:induction false} BeforeIsAsymmetric(a: string, b: string)
    requires Before(a, b)
    ensures !Before(b, a)
  {
    if Before(b, a) {
      BeforeIsTransitive(a, b, a);
      BeforeIsStrict(a);
    }
  }
}
