/** Stable sorting by a comparison, the contract of Go's sort.SliceStable. */
module Sorting {

  /** `less` is usable as a sort order: no two values precede each other, and
      "not before" is transitive. */
  ghost predicate SortOrder<T(!new)>(less: (T, T) -> bool) {
    && (forall a, b :: less(a, b) ==> !less(b, a))
    && (forall a, b, c :: !less(a, b) && !less(b, c) ==> !less(a, c))
  }

  /** No value stands behind one it should precede. */
  ghost predicate Sorted<T(!new)>(s: seq<T>, less: (T, T) -> bool) {
    forall i, j :: 0 <= i < j < |s| ==> !less(s[j], s[i])
  }

  /** Puts `x` in front of the first element that does not have to precede it. */
  function Insert<T>(x: T, ys: seq<T>, less: (T, T) -> bool): (r: seq<T>)
    ensures multiset(r) == multiset([x] + ys)
  {
    if ys == [] || !less(ys[0], x) then [x] + ys
    else
      assert ys == [ys[0]] + ys[1..];
      [ys[0]] + Insert(x, ys[1..], less)
  }

  function StableSort<T(!new)>(xs: seq<T>, less: (T, T) -> bool): (r: seq<T>)
    ensures multiset(r) == multiset(xs)
    ensures |r| == |xs|
    ensures forall x :: x in r <==> x in xs
  {
    var r := if xs == [] then []
      else
        assert xs == [xs[0]] + xs[1..];
        Insert(xs[0], StableSort(xs[1..], less), less);
    assert |multiset(r)| == |r| && |multiset(xs)| == |xs|;
    assert forall x :: x in r <==> x in multiset(r);
    assert forall x :: x in xs <==> x in multiset(xs);
    r
  }

  lemma InsertCons<T(!new)>(x: T, y: T, rest: seq<T>, less: (T, T) -> bool)
    ensures Insert(x, [y] + rest, less) == if less(y, x) then [y] + Insert(x, rest, less) else [x] + ([y] + rest)
  {
    assert ([y] + rest)[1..] == rest;
  }

  lemma ConsSorted<T(!new)>(y: T, tail: seq<T>, less: (T, T) -> bool)
    requires Sorted(tail, less) && forall e :: e in tail ==> !less(e, y)
    ensures Sorted([y] + tail, less)
  {
  }

  lemma FirstIsLeast<T(!new)>(x: T, ys: seq<T>, less: (T, T) -> bool)
    requires SortOrder(less) && Sorted(ys, less) && (ys != [] ==> !less(ys[0], x))
    ensures forall e :: e in ys ==> !less(e, x)
  {
    forall e | e in ys
      ensures !less(e, x)
    {
      var j :| 0 <= j < |ys| && ys[j] == e;
      assert !less(ys[j], ys[0]);
    }
  }

  lemma InsertMembers<T(!new)>(x: T, ys: seq<T>, less: (T, T) -> bool, e: T)
    ensures e in Insert(x, ys, less) <==> e == x || e in ys
  {
    var r := Insert(x, ys, less);
    assert e in r <==> e in multiset(r);
    assert e in [x] + ys <==> e in multiset([x] + ys);
  }

  lemma {:induction false} InsertSorted<T(!new)>(x: T, ys: seq<T>, less: (T, T) -> bool)
    requires SortOrder(less)
    requires Sorted(ys, less)
    ensures Sorted(Insert(x, ys, less), less)
    decreases ys
  {
    if ys != [] && less(ys[0], x) {
      var y, rest := ys[0], ys[1..];
      InsertSorted(x, rest, less);
      assert !less(x, y) && !less(y, y);
      FirstIsLeast(y, ys, less);
      forall e | e in Insert(x, rest, less)
        ensures !less(e, y)
      {
        InsertMembers(x, rest, less, e);
      }
      ConsSorted(y, Insert(x, rest, less), less);
    } else {
      FirstIsLeast(x, ys, less);
      ConsSorted(x, ys, less);
    }
  }

  /** The result is sorted. */
  lemma {:induction false} SortSorts<T(!new)>(xs: seq<T>, less: (T, T) -> bool)
    requires SortOrder(less)
    ensures Sorted(StableSort(xs, less), less)
    decreases xs
  {
    if xs != [] {
      SortSorts(xs[1..], less);
      InsertSorted(xs[0], StableSort(xs[1..], less), less);
    }
  }

  function Filter<T(!new)>(xs: seq<T>, p: T -> bool): (r: seq<T>)
    ensures forall x :: x in r <==> x in xs && p(x)
  {
    if xs == [] then []
    else
      assert xs == [xs[0]] + xs[1..];
      (if p(xs[0]) then [xs[0]] else []) + Filter(xs[1..], p)
  }

  /** Neither value has to precede the other. */
  function Tied<T>(z: T, less: (T, T) -> bool): T -> bool {
    (y: T) => !less(y, z) && !less(z, y)
  }

  lemma FilterCons<T(!new)>(x: T, ys: seq<T>, p: T -> bool)
    ensures Filter([x] + ys, p) == (if p(x) then [x] else []) + Filter(ys, p)
  {
    assert ([x] + ys)[1..] == ys;
  }

  lemma OrderedNotTied<T(!new)>(a: T, b: T, less: (T, T) -> bool, z: T)
    requires SortOrder(less)
    requires less(a, b)
    ensures !(Tied(z, less)(a) && Tied(z, less)(b))
  {
    assert less(a, z) || less(z, b);
  }

  lemma {:induction false} InsertKeepsTies<T(!new)>(x: T, ys: seq<T>, less: (T, T) -> bool, z: T)
    requires SortOrder(less)
    ensures Filter(Insert(x, ys, less), Tied(z, less)) == Filter([x] + ys, Tied(z, less))
    decreases ys
  {
    hide Filter, SortOrder;
    if ys != [] && less(ys[0], x) {
      var p, y, rest := Tied(z, less), ys[0], ys[1..];
      calc {
        Filter(Insert(x, ys, less), p);
        { FilterCons(y, Insert(x, rest, less), p); InsertKeepsTies(x, rest, less, z); }
        (if p(y) then [y] else []) + Filter([x] + rest, p);
        { FilterCons(x, rest, p); OrderedNotTied(y, x, less, z); }
        (if p(x) then [x] else []) + ((if p(y) then [y] else []) + Filter(rest, p));
        { FilterCons(y, rest, p); assert [y] + rest == ys; }
        (if p(x) then [x] else []) + Filter(ys, p);
        { FilterCons(x, ys, p); }
        Filter([x] + ys, p);
      }
    }
  }

  /** Values of one tie class keep the order they came in. */
  lemma {:induction false} SortIsStable<T(!new)>(xs: seq<T>, less: (T, T) -> bool, z: T)
    requires SortOrder(less)
    ensures Filter(StableSort(xs, less), Tied(z, less)) == Filter(xs, Tied(z, less))
    decreases xs
  {
    if xs != [] {
      var p, rest := Tied(z, less), StableSort(xs[1..], less);
      SortIsStable(xs[1..], less, z);
      InsertKeepsTies(xs[0], rest, less, z);
      FilterCons(xs[0], rest, p);
    }
  }
}
