/** The stable sort of the language runtime, as far as the models use it: ascending by an integer key. */
module Sorting {

  ghost predicate SortedBy<T>(xs: seq<T>, key: T -> int) {
    forall i, j | 0 <= i < j < |xs| :: key(xs[i]) <= key(xs[j])
  }

  function InsertBy<T>(x: T, xs: seq<T>, key: T -> int): (ys: seq<T>)
    ensures |ys| == |xs| + 1
  {
    if xs == [] || key(x) <= key(xs[0]) then [x] + xs else [xs[0]] + InsertBy(x, xs[1..], key)
  }

  function SortBy<T>(xs: seq<T>, key: T -> int): (ys: seq<T>)
    ensures |ys| == |xs|
  {
    if xs == [] then [] else InsertBy(xs[0], SortBy(xs[1..], key), key)
  }

  lemma InsertKeepsElements<T>(x: T, xs: seq<T>, key: T -> int)
    ensures multiset(InsertBy(x, xs, key)) == multiset([x] + xs)
  {
    if xs != [] && key(x) > key(xs[0]) {
      InsertKeepsElements(x, xs[1..], key);
      assert xs == [xs[0]] + xs[1..];
    }
  }

  lemma SortKeepsElements<T>(xs: seq<T>, key: T -> int)
    ensures multiset(SortBy(xs, key)) == multiset(xs)
  {
    if xs != [] {
      SortKeepsElements(xs[1..], key);
      InsertKeepsElements(xs[0], SortBy(xs[1..], key), key);
      assert xs == [xs[0]] + xs[1..];
    }
  }

  lemma InsertKeepsBound<T>(x: T, xs: seq<T>, key: T -> int, bound: int)
    requires bound <= key(x) && forall i | 0 <= i < |xs| :: bound <= key(xs[i])
    ensures forall i | 0 <= i < |InsertBy(x, xs, key)| :: bound <= key(InsertBy(x, xs, key)[i])
  {
    if xs != [] && key(x) > key(xs[0]) {
      InsertKeepsBound(x, xs[1..], key, bound);
    }
  }

  lemma InsertKeepsOrder<T>(x: T, xs: seq<T>, key: T -> int)
    requires SortedBy(xs, key)
    ensures SortedBy(InsertBy(x, xs, key), key)
  {
    if xs != [] && key(x) > key(xs[0]) {
      InsertKeepsOrder(x, xs[1..], key);
      InsertKeepsBound(x, xs[1..], key, key(xs[0]));
    }
  }

  lemma SortSorts<T>(xs: seq<T>, key: T -> int)
    ensures SortedBy(SortBy(xs, key), key)
  {
    if xs != [] {
      SortSorts(xs[1..], key);
      InsertKeepsOrder(xs[0], SortBy(xs[1..], key), key);
    }
  }

  /** The elements of one key, in their order. */
  function WithKey<T>(xs: seq<T>, key: T -> int, k: int): seq<T> {
    if xs == [] then []
    else if key(xs[0]) == k then [xs[0]] + WithKey(xs[1..], key, k)
    else WithKey(xs[1..], key, k)
  }

  lemma {:induction false} InsertIsStable<T>(x: T, xs: seq<T>, key: T -> int, k: int)
    ensures WithKey(InsertBy(x, xs, key), key, k) == WithKey([x] + xs, key, k)
  {
    assert ([x] + xs)[1..] == xs;
    if xs != [] && key(x) > key(xs[0]) {
      InsertIsStable(x, xs[1..], key, k);
      assert ([x] + xs[1..])[1..] == xs[1..];
      assert InsertBy(x, xs, key)[1..] == InsertBy(x, xs[1..], key);
    }
  }

  /** Elements with the same key stay in their order. */
  lemma {:induction false} SortIsStable<T>(xs: seq<T>, key: T -> int, k: int)
    ensures WithKey(SortBy(xs, key), key, k) == WithKey(xs, key, k)
  {
    if xs != [] {
      SortIsStable(xs[1..], key, k);
      InsertIsStable(xs[0], SortBy(xs[1..], key), key, k);
      var sorted := SortBy(xs[1..], key);
      assert ([xs[0]] + sorted)[1..] == sorted;
    }
  }
}
