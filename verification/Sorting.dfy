/**
 What the Go sort package promises, as a function: a permutation in order that keeps
 equal elements in their original order. Used wherever a component sorts.
 */
module Sorting {

  /** A strict weak ordering, what sort.Slice and sort.SliceStable ask of `less`. */
  ghost predicate StrictWeak<T(!new)>(less: (T, T) -> bool) {
    && (forall a :: !less(a, a))
    && (forall a, b, c :: less(a, b) && less(b, c) ==> less(a, c))
    && (forall a, b, c :: less(a, c) ==> less(a, b) || less(b, c))
  }

  /** Distinct elements are comparable. */
  ghost predicate Separates<T>(less: (T, T) -> bool, xs: seq<T>) {
    forall i, j :: 0 <= i < |xs| && 0 <= j < |xs| && xs[i] != xs[j] ==> less(xs[i], xs[j]) || less(xs[j], xs[i])
  }

  predicate Ordered<T>(xs: seq<T>, less: (T, T) -> bool) {
    forall i, j :: 0 <= i < j < |xs| ==> !less(xs[j], xs[i])
  }

  function Insert<T>(x: T, xs: seq<T>, less: (T, T) -> bool): seq<T> {
    if xs == [] || !less(xs[0], x) then [x] + xs else [xs[0]] + Insert(x, xs[1..], less)
  }

  function Sort<T>(xs: seq<T>, less: (T, T) -> bool): seq<T> {
    if xs == [] then [] else Insert(xs[0], Sort(xs[1..], less), less)
  }

  function Filter<T>(xs: seq<T>, keep: T -> bool): seq<T> {
    if xs == [] then []
    else (if keep(xs[0]) then [xs[0]] else []) + Filter(xs[1..], keep)
  }

  lemma {:induction false} InsertPermutes<T>(x: T, xs: seq<T>, less: (T, T) -> bool)
    ensures multiset(Insert(x, xs, less)) == multiset{x} + multiset(xs)
  {
    if xs != [] && less(xs[0], x) {
      InsertPermutes(x, xs[1..], less);
      assert xs == [xs[0]] + xs[1..];
    }
  }

  lemma {:induction false} SortPermutes<T>(xs: seq<T>, less: (T, T) -> bool)
    ensures multiset(Sort(xs, less)) == multiset(xs)
    ensures |Sort(xs, less)| == |xs|
    ensures forall x :: x in Sort(xs, less) <==> x in xs
  {
    if xs != [] {
      SortPermutes(xs[1..], less);
      InsertPermutes(xs[0], Sort(xs[1..], less), less);
      assert xs == [xs[0]] + xs[1..];
    }
    assert |multiset(Sort(xs, less))| == |multiset(xs)|;
    forall x
      ensures x in Sort(xs, less) <==> x in xs
    {
      assert x in multiset(Sort(xs, less)) <==> x in multiset(xs);
    }
  }

  lemma {:induction false} InsertOrders<T(!new)>(x: T, xs: seq<T>, less: (T, T) -> bool)
    requires StrictWeak(less) && Ordered(xs, less)
    ensures Ordered(Insert(x, xs, less), less)
  {
    if xs != [] {
      if less(xs[0], x) {
        InsertOrders(x, xs[1..], less);
        InsertPermutes(x, xs[1..], less);
        var rest := Insert(x, xs[1..], less);
        forall j | 0 <= j < |rest|
          ensures !less(rest[j], xs[0])
        {
          assert rest[j] in multiset(rest);
          assert rest[j] == x || rest[j] in xs[1..];
        }
      } else {
        forall j | 0 <= j < |xs|
          ensures !less(xs[j], x)
        {
          assert !less(xs[0], x) && (j > 0 ==> !less(xs[j], xs[0]));
        }
      }
    }
  }

  lemma {:induction false} SortOrders<T(!new)>(xs: seq<T>, less: (T, T) -> bool)
    requires StrictWeak(less)
    ensures Ordered(Sort(xs, less), less)
  {
    if xs != [] {
      SortOrders(xs[1..], less);
      InsertOrders(xs[0], Sort(xs[1..], less), less);
    }
  }

  /** `keep` never separates two elements that compare equal. */
  ghost predicate Ties<T(!new)>(keep: T -> bool, less: (T, T) -> bool) {
    forall a, b :: keep(a) && keep(b) ==> !less(a, b)
  }

  lemma {:induction false} InsertStable<T(!new)>(x: T, xs: seq<T>, less: (T, T) -> bool, keep: T -> bool)
    requires Ties(keep, less)
    ensures Filter(Insert(x, xs, less), keep) == (if keep(x) then [x] else []) + Filter(xs, keep)
  {
    if xs == [] || !less(xs[0], x) {
      assert ([x] + xs)[1..] == xs;
    } else {
      assert !(keep(x) && keep(xs[0]));
      InsertStable(x, xs[1..], less, keep);
      hide Ties;
      var rest := Insert(x, xs[1..], less);
      assert ([xs[0]] + rest)[1..] == rest;
      var tail := Filter(xs[1..], keep);
      if keep(x) {
        assert [] + ([x] + tail) == [x] + ([] + tail);
      } else {
        assert Filter(rest, keep) == tail;
      }
    }
  }

  /** Elements that compare equal keep their order. */
  lemma {:induction false} SortStable<T(!new)>(xs: seq<T>, less: (T, T) -> bool, keep: T -> bool)
    requires Ties(keep, less)
    ensures Filter(Sort(xs, less), keep) == Filter(xs, keep)
  {
    if xs != [] {
      SortStable(xs[1..], less, keep);
      InsertStable(xs[0], Sort(xs[1..], less), less, keep);
    }
  }

  lemma SameLeast<T>(xs: seq<T>, ys: seq<T>, less: (T, T) -> bool)
    requires multiset(xs) == multiset(ys) && xs != [] && ys != []
    requires Ordered(xs, less) && Ordered(ys, less) && Separates(less, xs)
    ensures xs[0] == ys[0]
  {
    assert xs[0] in multiset(ys) && ys[0] in multiset(xs);
    var i :| 0 <= i < |xs| && xs[i] == ys[0];
    var j :| 0 <= j < |ys| && ys[j] == xs[0];
    if xs[0] != ys[0] {
      assert false;
    }
  }

  lemma WithoutFirst<T>(xs: seq<T>)
    requires xs != []
    ensures xs == [xs[0]] + xs[1..] && multiset(xs[1..]) == multiset(xs) - multiset{xs[0]}
  {
    assert xs == [xs[0]] + xs[1..];
  }

  /** Only one arrangement is in order when the ordering separates the elements. */
  lemma {:induction false} OrderedUnique<T>(xs: seq<T>, ys: seq<T>, less: (T, T) -> bool)
    requires multiset(xs) == multiset(ys)
    requires Ordered(xs, less) && Ordered(ys, less) && Separates(less, xs)
    ensures xs == ys
    decreases |xs|
  {
    assert |xs| == |multiset(xs)| == |multiset(ys)| == |ys|;
    if xs != [] {
      SameLeast(xs, ys, less);
      WithoutFirst(xs);
      WithoutFirst(ys);
      OrderedUnique(xs[1..], ys[1..], less);
    }
  }

  /** So the sorted list does not depend on the order it is given in. */
  lemma SortCanonical<T(!new)>(xs: seq<T>, ys: seq<T>, less: (T, T) -> bool)
    requires StrictWeak(less) && Separates(less, xs) && multiset(xs) == multiset(ys)
    ensures Sort(xs, less) == Sort(ys, less)
  {
    hide Sort, StrictWeak;
    SortPermutes(xs, less);
    SortPermutes(ys, less);
    SortOrders(xs, less);
    SortOrders(ys, less);
    var sorted := Sort(xs, less);
    forall i, j | 0 <= i < |sorted| && 0 <= j < |sorted| && sorted[i] != sorted[j]
      ensures less(sorted[i], sorted[j]) || less(sorted[j], sorted[i])
    {
      assert sorted[i] in xs && sorted[j] in xs;
    }
    OrderedUnique(sorted, Sort(ys, less), less);
  }

  // ----- Strings -----

  /** Lexicographic order. */
  predicate StringLess(a: string, b: string) {
    b != [] && (a == [] || a[0] < b[0] || (a[0] == b[0] && StringLess(a[1..], b[1..])))
  }

  lemma {:induction false} StringLessIsTransitive(a: string, b: string, c: string)
    requires StringLess(a, b) && StringLess(b, c)
    ensures StringLess(a, c)
  {
    if a != [] && a[0] == b[0] == c[0] { StringLessIsTransitive(a[1..], b[1..], c[1..]); }
  }

  lemma {:induction false} StringLessIsTotal(a: string, b: string)
    ensures a == b ==> !StringLess(a, b)
    ensures a != b ==> StringLess(a, b) != StringLess(b, a)
  {
    if a != [] && b != [] {
      StringLessIsTotal(a[1..], b[1..]);
      assert a == [a[0]] + a[1..] && b == [b[0]] + b[1..];
    }
  }

  lemma StringLessIsStrictWeak()
    ensures StrictWeak(StringLess)
    ensures forall a, b :: a != b ==> StringLess(a, b) || StringLess(b, a)
  {
    forall a, b
      ensures a == b ==> !StringLess(a, b)
      ensures a != b ==> StringLess(a, b) != StringLess(b, a)
    {
      StringLessIsTotal(a, b);
    }
    forall a, b, c | StringLess(a, b) && StringLess(b, c)
      ensures StringLess(a, c)
    {
      StringLessIsTransitive(a, b, c);
    }
    forall a, b, c | StringLess(a, c)
      ensures StringLess(a, b) || StringLess(b, c)
    {
      if a != b && !StringLess(a, b) { StringLessIsTransitive(b, a, c); }
    }
  }
}
