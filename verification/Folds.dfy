/** Left folds, what a loop over a sequence leaves in its accumulator, and maps over sequences. */
module Folds {

  function Fold<S, E>(f: (S, E) -> S, start: S, es: seq<E>): S {
    if es == [] then start else f(Fold(f, start, es[..|es| - 1]), es[|es| - 1])
  }

  function Mapped<A, B>(es: seq<A>, f: A -> B): (r: seq<B>)
    ensures |r| == |es| && forall i | 0 <= i < |r| :: r[i] == f(es[i])
  {
    seq(|es|, i requires 0 <= i < |es| => f(es[i]))
  }

  lemma FoldSnoc<S, E>(f: (S, E) -> S, start: S, es: seq<E>, e: E)
    ensures Fold(f, start, es + [e]) == f(Fold(f, start, es), e)
  {
    assert (es + [e])[..|es|] == es;
  }

  lemma {:induction false} FoldConcat<S, E>(f: (S, E) -> S, start: S, a: seq<E>, b: seq<E>)
    ensures Fold(f, start, a + b) == Fold(f, Fold(f, start, a), b)
  {
    if b == [] {
      assert a + b == a;
    } else {
      var n := |b| - 1;
      FoldConcat(f, start, a, b[..n]);
      assert (a + b)[..|a| + n] == a + b[..n];
    }
  }
}

/** Insertion into, and sorting of, a sequence by an integer key; equal keys keep their order. */
module StableSort {

  ghost predicate SortedBy<T(!new)>(key: T -> int, es: seq<T>) {
    forall i, j | 0 <= i < j < |es| :: key(es[i]) <= key(es[j])
  }

  function Insert<T>(key: T -> int, e: T, sorted: seq<T>): seq<T> {
    if sorted == [] || key(sorted[|sorted| - 1]) <= key(e) then sorted + [e]
    else Insert(key, e, sorted[..|sorted| - 1]) + [sorted[|sorted| - 1]]
  }

  function OrderBy<T>(key: T -> int, es: seq<T>): seq<T> {
    if es == [] then [] else Insert(key, es[|es| - 1], OrderBy(key, es[..|es| - 1]))
  }

  lemma {:induction false} InsertMembers<T>(key: T -> int, e: T, sorted: seq<T>)
    ensures multiset(Insert(key, e, sorted)) == multiset(sorted) + multiset{e}
  {
    if sorted != [] && key(sorted[|sorted| - 1]) > key(e) {
      InsertMembers(key, e, sorted[..|sorted| - 1]);
      assert sorted == sorted[..|sorted| - 1] + [sorted[|sorted| - 1]];
    }
  }

  ghost predicate AtMost<T(!new)>(key: T -> int, es: seq<T>, bound: int) {
    forall i | 0 <= i < |es| :: key(es[i]) <= bound
  }

  lemma {:induction false} InsertAtMost<T(!new)>(key: T -> int, e: T, sorted: seq<T>, bound: int)
    requires AtMost(key, sorted, bound) && key(e) <= bound
    ensures AtMost(key, Insert(key, e, sorted), bound)
  {
    if sorted != [] && key(sorted[|sorted| - 1]) > key(e) {
      InsertAtMost(key, e, sorted[..|sorted| - 1], bound);
    }
  }

  lemma {:induction false} InsertSorts<T(!new)>(key: T -> int, e: T, sorted: seq<T>)
    requires SortedBy(key, sorted)
    ensures SortedBy(key, Insert(key, e, sorted))
  {
    if sorted != [] && key(sorted[|sorted| - 1]) > key(e) {
      var n := |sorted| - 1;
      InsertSorts(key, e, sorted[..n]);
      InsertAtMost(key, e, sorted[..n], key(sorted[n]));
    }
  }

  lemma {:induction false} OrderBySorts<T(!new)>(key: T -> int, es: seq<T>)
    ensures SortedBy(key, OrderBy(key, es)) && multiset(OrderBy(key, es)) == multiset(es)
  {
    if es != [] {
      var n := |es| - 1;
      OrderBySorts(key, es[..n]);
      InsertSorts(key, es[n], OrderBy(key, es[..n]));
      InsertMembers(key, es[n], OrderBy(key, es[..n]));
      assert es == es[..n] + [es[n]];
      hide SortedBy, Insert;
    }
  }

  /** The elements with this key, in order. */
  function WithKey<T>(key: T -> int, es: seq<T>, k: int): seq<T> {
    if es == [] then []
    else
      var n := |es| - 1;
      WithKey(key, es[..n], k) + if key(es[n]) == k then [es[n]] else []
  }

  lemma {:induction false} InsertStays<T(!new)>(key: T -> int, e: T, sorted: seq<T>, k: int)
    requires SortedBy(key, sorted)
    ensures WithKey(key, Insert(key, e, sorted), k) == WithKey(key, sorted, k) + if key(e) == k then [e] else []
  {
    if sorted == [] || key(sorted[|sorted| - 1]) <= key(e) {
      assert (sorted + [e])[..|sorted|] == sorted;
    } else {
      var n := |sorted| - 1;
      var r := Insert(key, e, sorted[..n]) + [sorted[n]];
      InsertStays(key, e, sorted[..n], k);
      assert r[..|r| - 1] == Insert(key, e, sorted[..n]);
      if key(e) == k && key(sorted[n]) == k { assert false; }
    }
  }

  /** Elements of one key keep their order. */
  lemma {:induction false} OrderByIsStable<T(!new)>(key: T -> int, es: seq<T>, k: int)
    ensures WithKey(key, OrderBy(key, es), k) == WithKey(key, es, k)
  {
    if es != [] {
      var n := |es| - 1;
      OrderByIsStable(key, es[..n], k);
      OrderBySorts(key, es[..n]);
      InsertStays(key, es[n], OrderBy(key, es[..n]), k);
      hide Insert;
    }
  }
}
