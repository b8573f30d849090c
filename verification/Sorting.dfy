/** Sorting by a total preorder: a stable insertion sort, and the facts about sorted
    permutations that make the outcome of an unstable sort predictable. */
module Sorting {

  ghost predicate Preorder<T(!new)>(le: (T, T) -> bool) {
    && (forall x, y :: le(x, y) || le(y, x))
    && (forall x, y, z :: le(x, y) && le(y, z) ==> le(x, z))
  }

  ghost predicate Sorted<T>(xs: seq<T>, le: (T, T) -> bool) {
    forall i, j :: 0 <= i < j < |xs| ==> le(xs[i], xs[j])
  }

  /** Puts x behind everything that is not after it. */
  function Insert<T>(xs: seq<T>, x: T, le: (T, T) -> bool): seq<T> {
    if xs == [] || le(xs[|xs| - 1], x) then xs + [x]
    else Insert(xs[..|xs| - 1], x, le) + [xs[|xs| - 1]]
  }

  function Sort<T>(xs: seq<T>, le: (T, T) -> bool): seq<T> {
    if xs == [] then [] else Insert(Sort(xs[..|xs| - 1], le), xs[|xs| - 1], le)
  }

  /** The elements equivalent to x, in order. */
  function Ties<T>(xs: seq<T>, x: T, le: (T, T) -> bool): seq<T> {
    if xs == [] then [] else
    var y := xs[|xs| - 1];
    Ties(xs[..|xs| - 1], x, le) + if le(x, y) && le(y, x) then [y] else []
  }

  lemma {:induction false} InsertMultiset<T>(xs: seq<T>, x: T, le: (T, T) -> bool)
    ensures multiset(Insert(xs, x, le)) == multiset(xs) + multiset{x}
  {
    if xs != [] && !le(xs[|xs| - 1], x) {
      InsertMultiset(xs[..|xs| - 1], x, le);
      assert xs == xs[..|xs| - 1] + [xs[|xs| - 1]];
    }
  }

  lemma {:induction false} SortMultiset<T>(xs: seq<T>, le: (T, T) -> bool)
    ensures multiset(Sort(xs, le)) == multiset(xs)
  {
    if xs != [] {
      SortMultiset(xs[..|xs| - 1], le);
      InsertMultiset(Sort(xs[..|xs| - 1], le), xs[|xs| - 1], le);
      assert xs == xs[..|xs| - 1] + [xs[|xs| - 1]];
    }
  }

  lemma {:induction false} InsertElements<T>(xs: seq<T>, x: T, y: T, le: (T, T) -> bool)
    ensures y in Insert(xs, x, le) <==> y in xs || y == x
  {
    if xs != [] && !le(xs[|xs| - 1], x) {
      InsertElements(xs[..|xs| - 1], x, y, le);
      assert xs == xs[..|xs| - 1] + [xs[|xs| - 1]];
    }
  }

  lemma {:induction false} SortElements<T>(xs: seq<T>, y: T, le: (T, T) -> bool)
    ensures y in Sort(xs, le) <==> y in xs
  {
    if xs != [] {
      SortElements(xs[..|xs| - 1], y, le);
      InsertElements(Sort(xs[..|xs| - 1], le), xs[|xs| - 1], y, le);
      assert xs == xs[..|xs| - 1] + [xs[|xs| - 1]];
    }
  }

  lemma SortedNone<T>(le: (T, T) -> bool)
    ensures Sorted([], le)
  {
  }

  lemma SortedAppend<T>(xs: seq<T>, x: T, le: (T, T) -> bool)
    requires Sorted(xs, le) && forall y <- xs :: le(y, x)
    ensures Sorted(xs + [x], le)
  {
  }

  lemma {:induction false} InsertSorted<T(!new)>(xs: seq<T>, x: T, le: (T, T) -> bool)
    requires Preorder(le) && Sorted(xs, le)
    ensures Sorted(Insert(xs, x, le), le)
  {
    if xs == [] {
    } else {
      var init, last := xs[..|xs| - 1], xs[|xs| - 1];
      if le(last, x) {
        forall y <- xs ensures le(y, x) {
          assert y == last || le(y, last);
        }
        SortedAppend(xs, x, le);
      } else {
        InsertSorted(init, x, le);
        forall y <- Insert(init, x, le) ensures le(y, last) {
          InsertElements(init, x, y, le);
        }
        SortedAppend(Insert(init, x, le), last, le);
      }
    }
  }

  lemma {:induction false} SortSorted<T(!new)>(xs: seq<T>, le: (T, T) -> bool)
    requires Preorder(le)
    ensures Sorted(Sort(xs, le), le)
  {
    if xs != [] {
      SortSorted(xs[..|xs| - 1], le);
      InsertSorted(Sort(xs[..|xs| - 1], le), xs[|xs| - 1], le);
    }
  }

  lemma TiesAppend<T>(xs: seq<T>, y: T, x: T, le: (T, T) -> bool)
    ensures Ties(xs + [y], x, le) == Ties(xs, x, le) + if le(x, y) && le(y, x) then [y] else []
  {
    assert (xs + [y])[..|xs|] == xs;
  }

  lemma {:induction false} InsertTies<T(!new)>(xs: seq<T>, y: T, x: T, le: (T, T) -> bool)
    requires Preorder(le)
    ensures Ties(Insert(xs, y, le), x, le) == Ties(xs, x, le) + if le(x, y) && le(y, x) then [y] else []
  {
    if xs == [] || le(xs[|xs| - 1], y) {
      TiesAppend(xs, y, x, le);
    } else {
      var init, last := xs[..|xs| - 1], xs[|xs| - 1];
      InsertTies(init, y, x, le);
      TiesAppend(Insert(init, y, le), last, x, le);
    }
  }

  /** Stability: equivalent elements keep their order. */
  lemma {:induction false} SortStable<T(!new)>(xs: seq<T>, x: T, le: (T, T) -> bool)
    requires Preorder(le)
    ensures Ties(Sort(xs, le), x, le) == Ties(xs, x, le)
  {
    if xs != [] {
      SortStable(xs[..|xs| - 1], x, le);
      InsertTies(Sort(xs[..|xs| - 1], le), xs[|xs| - 1], x, le);
    }
  }

  /** No two different elements are equivalent. */
  ghost predicate Antisymmetric<T(!new)>(le: (T, T) -> bool) {
    forall x, y :: le(x, y) && le(y, x) ==> x == y
  }

  lemma SortedLast<T(!new)>(a: seq<T>, b: seq<T>, le: (T, T) -> bool)
    requires Preorder(le) && Antisymmetric(le)
    requires Sorted(a, le) && Sorted(b, le)
    requires multiset(a) == multiset(b) && a != [] && b != []
    ensures a[|a| - 1] == b[|b| - 1]
  {
    var x, y := a[|a| - 1], b[|b| - 1];
    assert x in multiset(a) && x in b;
    assert y in multiset(b) && y in a;
    assert le(x, y) && le(y, x);
  }

  lemma SortedInit<T>(xs: seq<T>, le: (T, T) -> bool)
    requires Sorted(xs, le) && xs != []
    ensures Sorted(xs[..|xs| - 1], le)
  {
  }

  lemma InitMultiset<T>(xs: seq<T>)
    requires xs != []
    ensures multiset(xs[..|xs| - 1]) == multiset(xs) - multiset{xs[|xs| - 1]}
  {
    assert xs == xs[..|xs| - 1] + [xs[|xs| - 1]];
  }

  /** A total order leaves a sorted permutation no freedom. */
  lemma {:induction false} SortedUnique<T(!new)>(a: seq<T>, b: seq<T>, le: (T, T) -> bool)
    requires Preorder(le) && Antisymmetric(le)
    requires Sorted(a, le) && Sorted(b, le)
    requires multiset(a) == multiset(b)
    ensures a == b
  {
    hide Preorder, Antisymmetric, Sorted;
    if a == [] || b == [] {
      assert |a| == |multiset(a)| == |multiset(b)| == |b|;
    } else {
      var a', b' := a[..|a| - 1], b[..|b| - 1];
      SortedLast(a, b, le);
      SortedInit(a, le);
      SortedInit(b, le);
      InitMultiset(a);
      InitMultiset(b);
      SortedUnique(a', b', le);
      assert a == a' + [a[|a| - 1]] && b == b' + [b[|b| - 1]];
    }
  }

  ghost predicate Distinct<T>(xs: seq<T>) {
    forall i, j :: 0 <= i < j < |xs| ==> xs[i] != xs[j]
  }

  lemma {:induction false} DistinctCount<T(!new)>(xs: seq<T>)
    ensures Distinct(xs) <==> forall x :: multiset(xs)[x] <= 1
  {
    if xs != [] {
      var init, last := xs[..|xs| - 1], xs[|xs| - 1];
      DistinctCount(init);
      assert xs == init + [last];
      if multiset(init)[last] >= 1 {
        assert last in init;
        assert multiset(xs)[last] > 1;
      } else {
        assert last !in init;
        assert forall x :: multiset(xs)[x] == multiset(init)[x] + if x == last then 1 else 0;
      }
    }
  }

  lemma DistinctAppend<T>(xs: seq<T>, x: T)
    ensures Distinct(xs + [x]) <==> Distinct(xs) && x !in xs
  {
    var ys := xs + [x];
    assert forall i :: 0 <= i < |xs| ==> ys[i] == xs[i];
    if x in xs {
      var i :| 0 <= i < |xs| && xs[i] == x;
      assert ys[i] == ys[|xs|];
    }
  }

  // ---------------------------------------------------------------------
  // Mapping a permutation

  function Map<T, U>(xs: seq<T>, f: T -> U): seq<U> {
    seq(|xs|, i requires 0 <= i < |xs| => f(xs[i]))
  }

  function Without<T>(xs: seq<T>, i: nat): seq<T>
    requires i < |xs|
  {
    xs[..i] + xs[i + 1..]
  }

  lemma WithoutOne<T>(xs: seq<T>, i: nat)
    requires i < |xs|
    ensures multiset(xs) == multiset(Without(xs, i)) + multiset{xs[i]} && |Without(xs, i)| == |xs| - 1
  {
    assert xs == xs[..i] + [xs[i]] + xs[i + 1..];
  }

  lemma MapWithoutOne<T, U>(xs: seq<T>, i: nat, f: T -> U)
    requires i < |xs|
    ensures multiset(Map(xs, f)) == multiset(Map(Without(xs, i), f)) + multiset{f(xs[i])}
  {
    var ys := Map(xs, f);
    WithoutOne(ys, i);
    assert Map(Without(xs, i), f) == Without(ys, i);
  }

  lemma Cancel<T>(m: multiset<T>, n: multiset<T>, x: T)
    requires m + multiset{x} == n + multiset{x}
    ensures m == n
  {
    assert m == (m + multiset{x}) - multiset{x};
  }

  lemma FindIn<T>(xs: seq<T>, ys: seq<T>, x: T) returns (i: nat)
    requires multiset(xs) == multiset(ys) && x in xs
    ensures i < |ys| && ys[i] == x
  {
    assert x in multiset(ys);
    i :| 0 <= i < |ys| && ys[i] == x;
  }

  lemma {:induction false} MapPermutes<T, U>(a: seq<T>, b: seq<T>, f: T -> U)
    requires multiset(a) == multiset(b)
    ensures multiset(Map(a, f)) == multiset(Map(b, f))
    decreases |a|
  {
    hide Map, Without;
    if a == [] {
      assert |b| == |multiset(b)| == 0;
    } else {
      var i := FindIn(a, b, a[0]);
      WithoutOne(a, 0);
      WithoutOne(b, i);
      Cancel(multiset(Without(a, 0)), multiset(Without(b, i)), a[0]);
      MapPermutes(Without(a, 0), Without(b, i), f);
      MapWithoutOne(a, 0, f);
      MapWithoutOne(b, i, f);
    }
  }

  lemma DistinctPermutation<T(!new)>(a: seq<T>, b: seq<T>)
    requires multiset(a) == multiset(b) && Distinct(a)
    ensures Distinct(b)
  {
    DistinctCount(a);
    DistinctCount(b);
  }

  /** Duplicate-free sequences with the same elements are permutations of each other. */
  lemma DistinctSame<T(!new)>(a: seq<T>, b: seq<T>)
    requires Distinct(a) && Distinct(b) && forall x :: x in a <==> x in b
    ensures multiset(a) == multiset(b)
  {
    DistinctCount(a);
    DistinctCount(b);
    forall x ensures multiset(a)[x] == multiset(b)[x] {
      assert x in a <==> x in multiset(a);
      assert x in b <==> x in multiset(b);
    }
  }

  // ---------------------------------------------------------------------
  // Strings, compared code point by code point

  predicate StringLe(a: string, b: string) {
    a == [] || (b != [] && (a[0] < b[0] || (a[0] == b[0] && StringLe(a[1..], b[1..]))))
  }

  lemma {:induction false} StringTotal(a: string, b: string)
    ensures StringLe(a, b) || StringLe(b, a)
    ensures StringLe(a, b) && StringLe(b, a) ==> a == b
  {
    if a != [] && b != [] && a[0] == b[0] {
      StringTotal(a[1..], b[1..]);
      assert a == [a[0]] + a[1..] && b == [b[0]] + b[1..];
    }
  }

  lemma {:induction false} StringTransitive(a: string, b: string, c: string)
    requires StringLe(a, b) && StringLe(b, c)
    ensures StringLe(a, c)
  {
    if a != [] && a[0] == b[0] == c[0] {
      StringTransitive(a[1..], b[1..], c[1..]);
    }
  }

  lemma StringOrder()
    ensures Preorder(StringLe) && Antisymmetric(StringLe)
  {
    forall a, b ensures StringLe(a, b) || StringLe(b, a) {
      StringTotal(a, b);
    }
    forall a, b, c | StringLe(a, b) && StringLe(b, c) ensures StringLe(a, c) {
      StringTransitive(a, b, c);
    }
    forall a, b | StringLe(a, b) && StringLe(b, a) ensures a == b {
      StringTotal(a, b);
    }
  }
}
