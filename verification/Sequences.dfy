/** Insertion-ordered key/value sequences, as config sections are built, and flattening. */
module Sequences {
  import opened Prelude

  function Flat<T, U>(xs: seq<T>, f: T -> seq<U>): seq<U> {
    if xs == [] then [] else Flat(xs[..|xs| - 1], f) + f(xs[|xs| - 1])
  }

  lemma FlatAppend<T, U>(xs: seq<T>, x: T, f: T -> seq<U>)
    ensures Flat(xs + [x], f) == Flat(xs, f) + f(x)
  {
    assert (xs + [x])[..|xs|] == xs;
  }

  lemma {:induction false} FlatConcat<T, U>(a: seq<T>, b: seq<T>, f: T -> seq<U>)
    ensures Flat(a + b, f) == Flat(a, f) + Flat(b, f)
    decreases |b|
  {
    if b == [] {
      assert a + b == a;
    } else {
      var b', x := b[..|b| - 1], b[|b| - 1];
      FlatConcat(a, b', f);
      assert a + b == (a + b') + [x];
      FlatAppend(a + b', x, f);
    }
  }

  lemma {:induction false} FlatMember<T, U>(xs: seq<T>, f: T -> seq<U>, y: U)
    ensures y in Flat(xs, f) <==> exists x <- xs :: y in f(x)
  {
    if xs != [] {
      var init, last := xs[..|xs| - 1], xs[|xs| - 1];
      FlatMember(init, f, y);
      assert xs == init + [last];
    }
  }

  /** Where one element's contribution sits. */
  lemma {:induction false} FlatSplit<T, U>(xs: seq<T>, i: nat, f: T -> seq<U>)
    requires i < |xs|
    ensures Flat(xs, f) == Flat(xs[..i], f) + f(xs[i]) + Flat(xs[i + 1..], f)
  {
    assert xs == (xs[..i] + [xs[i]]) + xs[i + 1..];
    FlatConcat(xs[..i] + [xs[i]], xs[i + 1..], f);
    FlatAppend(xs[..i], xs[i], f);
  }

  // ---------------------------------------------------------------------
  // Keyed entries

  ghost predicate DistinctKeys<V>(entries: seq<(string, V)>) {
    forall i, j :: 0 <= i < j < |entries| ==> entries[i].0 != entries[j].0
  }

  ghost predicate HasKey<V>(entries: seq<(string, V)>, key: string) {
    exists i :: 0 <= i < |entries| && entries[i].0 == key
  }

  /** Every value set under a key, in order. */
  function All<V>(entries: seq<(string, V)>, key: string): seq<V> {
    if entries == [] then [] else
    (if entries[0].0 == key then [entries[0].1] else []) + All(entries[1..], key)
  }

  /** The value of a key that is set exactly once; a document with a repeated key is refused. */
  function Lookup<V>(entries: seq<(string, V)>, key: string): Option<V> {
    var all := All(entries, key);
    if |all| == 1 then Some(all[0]) else None
  }

  lemma {:induction false} AllNone<V>(entries: seq<(string, V)>, key: string)
    requires !HasKey(entries, key)
    ensures All(entries, key) == []
  {
    if entries != [] {
      assert forall i :: 0 <= i < |entries[1..]| ==> entries[1..][i] == entries[i + 1];
      AllNone(entries[1..], key);
    }
  }

  lemma {:induction false} LookupUnique<V>(entries: seq<(string, V)>, i: nat)
    requires DistinctKeys(entries) && i < |entries|
    ensures Lookup(entries, entries[i].0) == Some(entries[i].1)
    decreases i
  {
    if i == 0 {
      assert !HasKey(entries[1..], entries[0].0);
      AllNone(entries[1..], entries[0].0);
    } else {
      LookupUnique(entries[1..], i - 1);
      assert entries[0].0 != entries[i].0;
    }
  }

  lemma LookupMember<V>(entries: seq<(string, V)>, key: string, v: V)
    requires DistinctKeys(entries) && (key, v) in entries
    ensures Lookup(entries, key) == Some(v)
  {
    var i :| 0 <= i < |entries| && entries[i] == (key, v);
    LookupUnique(entries, i);
  }

  lemma LookupNone<V>(entries: seq<(string, V)>, key: string)
    requires !HasKey(entries, key)
    ensures Lookup(entries, key) == None
  {
    AllNone(entries, key);
  }

  lemma DistinctConcat<V>(a: seq<(string, V)>, b: seq<(string, V)>)
    requires DistinctKeys(a) && DistinctKeys(b)
    requires forall x <- a, y <- b :: x.0 != y.0
    ensures DistinctKeys(a + b)
  {
    forall i, j | 0 <= i < j < |a + b| ensures (a + b)[i].0 != (a + b)[j].0 {
      if i < |a| <= j {
        assert (a + b)[i] in a && (a + b)[j] in b;
      }
    }
  }

  /** Flattening keeps keys distinct if each part does and different parts share none. */
  lemma {:induction false} FlatDistinct<T, V>(xs: seq<T>, f: T -> seq<(string, V)>)
    requires forall x <- xs :: DistinctKeys(f(x))
    requires forall i, j :: 0 <= i < j < |xs| ==> forall a <- f(xs[i]), b <- f(xs[j]) :: a.0 != b.0
    ensures DistinctKeys(Flat(xs, f))
  {
    if xs != [] {
      var init, last := xs[..|xs| - 1], xs[|xs| - 1];
      FlatDistinct(init, f);
      forall a <- Flat(init, f), b <- f(last) ensures a.0 != b.0 {
        FlatMember(init, f, a);
        var x :| x in init && a in f(x);
        var i :| 0 <= i < |init| && init[i] == x;
        assert xs[i] == x && xs[|xs| - 1] == last;
      }
      DistinctConcat(Flat(init, f), f(last));
    }
  }
}
