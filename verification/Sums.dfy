/** Finite sums of integer weights over the rows of a table. */
module Sums {

  ghost function Pick<K>(s: set<K>): (k: K)
    requires s != {}
    ensures k in s
  {
    var k :| k in s;
    k
  }

  /** The sum of `w` over the rows of `m`. */
  ghost function SumOver<K, V>(m: map<K, V>, w: V -> int): int
    decreases |m|
  {
    if m.Keys == {} then 0
    else
      var k := Pick(m.Keys);
      Shrinks(m, k);
      w(m[k]) + SumOver(m - {k}, w)
  }

  lemma Shrinks<K, V>(m: map<K, V>, k: K)
    requires k in m
    ensures |m - {k}| < |m|
  {
    assert (m - {k}).Keys == m.Keys - {k};
    assert |(m - {k}).Keys| < |m.Keys|;
  }

  /** The sum does not depend on the order in which rows are taken out. */
  lemma {:induction false} SumRemove<K, V>(m: map<K, V>, k: K, w: V -> int)
    requires k in m
    ensures SumOver(m, w) == w(m[k]) + SumOver(m - {k}, w)
    decreases |m|
  {
    var x := Pick(m.Keys);
    if x != k {
      Shrinks(m, x);
      Shrinks(m, k);
      assert m - {x} - {k} == m - {k} - {x};
      assert (m - {x})[k] == m[k] && (m - {k})[x] == m[x];
      SumRemove(m - {x}, k, w);
      SumRemove(m - {k}, x, w);
    }
  }

  /** Writing one row changes the sum by the difference of that row's weights. */
  lemma SumUpdate<K, V>(m: map<K, V>, k: K, v: V, w: V -> int)
    ensures SumOver(m[k := v], w) == SumOver(m, w) - (if k in m then w(m[k]) else 0) + w(v)
  {
    SumRemove(m[k := v], k, w);
    assert m[k := v] - {k} == m - {k};
    if k in m {
      SumRemove(m, k, w);
    } else {
      assert m - {k} == m;
    }
  }

  /** Two tables with the same keys and row-wise ordered weights have ordered sums. */
  lemma {:induction false} SumMonotone<K, V>(m1: map<K, V>, w1: V -> int, m2: map<K, V>, w2: V -> int)
    requires m1.Keys == m2.Keys
    requires forall k :: k in m1 ==> w1(m1[k]) <= w2(m2[k])
    ensures SumOver(m1, w1) <= SumOver(m2, w2)
    decreases |m1|
  {
    if m1.Keys != {} {
      var k := Pick(m1.Keys);
      Shrinks(m1, k);
      assert (m1 - {k}).Keys == (m2 - {k}).Keys;
      SumMonotone(m1 - {k}, w1, m2 - {k}, w2);
    }
  }

  lemma SumSame<K, V>(m1: map<K, V>, w1: V -> int, m2: map<K, V>, w2: V -> int)
    requires m1.Keys == m2.Keys
    requires forall k :: k in m1 ==> w1(m1[k]) == w2(m2[k])
    ensures SumOver(m1, w1) == SumOver(m2, w2)
  {
    SumMonotone(m1, w1, m2, w2);
    SumMonotone(m2, w2, m1, w1);
  }

  lemma {:induction false} SumZero<K, V>(m: map<K, V>, w: V -> int)
    requires forall k :: k in m ==> w(m[k]) == 0
    ensures SumOver(m, w) == 0
    decreases |m|
  {
    if m.Keys != {} {
      var k := Pick(m.Keys);
      Shrinks(m, k);
      SumZero(m - {k}, w);
    }
  }

  lemma {:induction false} SumAdd<K, V>(m: map<K, V>, w1: V -> int, w2: V -> int, w: V -> int)
    requires forall k :: k in m ==> w(m[k]) == w1(m[k]) + w2(m[k])
    ensures SumOver(m, w) == SumOver(m, w1) + SumOver(m, w2)
    decreases |m|
  {
    if m.Keys != {} {
      var k := Pick(m.Keys);
      Shrinks(m, k);
      SumAdd(m - {k}, w1, w2, w);
    }
  }

  lemma OneMore(n: nat, b: int)
    ensures (n + 1) * b == n * b + b
  {
  }

  lemma RemovedCount<K, V>(m: map<K, V>, k: K)
    requires k in m
    ensures |m| == |m - {k}| + 1
  {
    assert (m - {k}).Keys == m.Keys - {k};
    assert |(m - {k}).Keys| == |m.Keys| - 1;
  }

  /** Rows weighing at most `b` each sum to at most `b` times their number. */
  lemma {:induction false} SumBound<K, V>(m: map<K, V>, w: V -> int, b: int)
    requires forall k :: k in m ==> w(m[k]) <= b
    ensures SumOver(m, w) <= |m| * b
    decreases |m|
  {
    if m.Keys != {} {
      var k := Pick(m.Keys);
      RemovedCount(m, k);
      OneMore(|m - {k}|, b);
      SumBound(m - {k}, w, b);
    } else {
      assert |m.Keys| == 0;
    }
  }

  lemma SumNonNeg<K, V>(m: map<K, V>, w: V -> int)
    requires forall k :: k in m ==> w(m[k]) >= 0
    ensures SumOver(m, w) >= 0
  {
    var zero := (v: V) => 0;
    SumZero(m, zero);
    SumMonotone(m, zero, m, w);
  }

  /** One row never outweighs the table it sits in, when no weight is negative. */
  lemma SumAtLeastRow<K, V>(m: map<K, V>, w: V -> int, k: K)
    requires k in m
    requires forall x :: x in m ==> w(m[x]) >= 0
    ensures w(m[k]) <= SumOver(m, w)
  {
    SumRemove(m, k, w);
    SumNonNeg(m - {k}, w);
  }
}
