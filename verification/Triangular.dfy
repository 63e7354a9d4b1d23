/** The arithmetic behind pack completeness: n distinct naturals whose sum is n(n-1)/2 are 0 to n-1. */
module Triangular {

  function SumSeq(q: seq<int>): int {
    if q == [] then 0 else SumSeq(q[..|q| - 1]) + q[|q| - 1]
  }

  predicate Distinct(q: seq<int>) {
    forall i, j | 0 <= i < j < |q| :: q[i] != q[j]
  }

  predicate Naturals(q: seq<int>) {
    forall i | 0 <= i < |q| :: q[i] >= 0
  }

  function Elems(q: seq<int>): set<int> {
    set x | x in q
  }

  function Upto(n: nat): (r: set<int>)
    ensures forall x :: x in r <==> 0 <= x < n
    ensures |r| == n
  {
    if n == 0 then {} else Upto(n - 1) + {n - 1}
  }

  lemma {:induction false} DistinctSize(q: seq<int>)
    requires Distinct(q)
    ensures |Elems(q)| == |q|
  {
    if q != [] {
      var front, last := q[..|q| - 1], q[|q| - 1];
      DistinctSize(front);
      assert Elems(q) == Elems(front) + {last};
      assert last !in front;
    }
  }

  lemma SubsetSize(a: set<int>, b: set<int>)
    requires a <= b
    ensures |a| <= |b|
  {
    assert a + (b - a) == b;
    assert a * (b - a) == {};
  }

  /** Among n distinct naturals one is at least n - 1. */
  lemma LargeElement(q: seq<int>) returns (i: nat)
    requires Distinct(q) && Naturals(q) && q != []
    ensures i < |q| && q[i] >= |q| - 1
  {
    if forall k | 0 <= k < |q| :: q[k] < |q| - 1 {
      DistinctSize(q);
      SubsetSize(Elems(q), Upto(|q| - 1));
    }
    i :| 0 <= i < |q| && q[i] >= |q| - 1;
  }

  function Without(q: seq<int>, i: nat): seq<int>
    requires i < |q|
  {
    q[..i] + q[i + 1..]
  }

  lemma {:induction false} SumConcat(a: seq<int>, b: seq<int>)
    ensures SumSeq(a + b) == SumSeq(a) + SumSeq(b)
    decreases |b|
  {
    if b == [] {
      assert a + b == a;
    } else {
      assert (a + b)[..|a + b| - 1] == a + b[..|b| - 1];
      SumConcat(a, b[..|b| - 1]);
    }
  }

  lemma SumOne(x: int)
    ensures SumSeq([x]) == x
  {
    assert [x][..0] == [];
  }

  lemma {:induction false} MiddleSums(a: seq<int>, x: int, b: seq<int>)
    ensures SumSeq(a + [x] + b) == SumSeq(a + b) + x
  {
    SumConcat(a + [x], b);
    SumConcat(a, [x]);
    SumConcat(a, b);
    SumOne(x);
  }

  lemma Around(q: seq<int>, i: nat)
    requires i < |q|
    ensures q == q[..i] + [q[i]] + q[i + 1..]
  {
  }

  lemma {:induction false} WithoutSums(q: seq<int>, i: nat)
    requires i < |q|
    ensures SumSeq(q) == SumSeq(Without(q, i)) + q[i]
  {
    Around(q, i);
    MiddleSums(q[..i], q[i], q[i + 1..]);
  }

  lemma WithoutAt(q: seq<int>, i: nat)
    requires i < |q|
    ensures |Without(q, i)| == |q| - 1
    ensures forall k | 0 <= k < |q| - 1 :: Without(q, i)[k] == if k < i then q[k] else q[k + 1]
  {
  }

  lemma WithoutElems(q: seq<int>, i: nat)
    requires i < |q| && Distinct(q)
    ensures Distinct(Without(q, i)) && Elems(Without(q, i)) == Elems(q) - {q[i]}
    ensures Naturals(q) ==> Naturals(Without(q, i))
  {
    var rest := Without(q, i);
    WithoutAt(q, i);
    forall x | x in q && x != q[i] ensures x in rest {
      var k :| 0 <= k < |q| && q[k] == x;
      assert rest[if k < i then k else k - 1] == x;
    }
    forall x | x in rest ensures x in q && x != q[i] {
      var k :| 0 <= k < |rest| && rest[k] == x;
    }
  }

  /** 0 + 1 + ... + (n-1) */
  function Triangle(n: nat): nat {
    if n == 0 then 0 else Triangle(n - 1) + n - 1
  }

  lemma {:induction false} TriangleIsHalf(n: nat)
    ensures 2 * Triangle(n) == n * (n - 1)
  {
    if n > 0 {
      TriangleIsHalf(n - 1);
    }
  }

  /** n distinct naturals sum to at least the n-th triangle, and to exactly that only as 0, ..., n-1. */
  lemma {:induction false} TriangularIsInitial(q: seq<int>)
    requires Distinct(q) && Naturals(q)
    ensures SumSeq(q) >= Triangle(|q|)
    ensures SumSeq(q) == Triangle(|q|) ==> Elems(q) == Upto(|q|)
    decreases |q|
  {
    if q != [] {
      var i := LargeElement(q);
      WithoutSums(q, i);
      WithoutAt(q, i);
      WithoutElems(q, i);
      TriangularIsInitial(Without(q, i));
      if SumSeq(q) == Triangle(|q|) {
        OneMore(Elems(q), q[i], |q|);
      }
    }
  }

  lemma OneMore(all: set<int>, x: int, n: nat)
    requires n > 0 && x == n - 1 && x in all && all - {x} == Upto(n - 1)
    ensures all == Upto(n)
  {
    assert all == (all - {x}) + {x};
  }

  lemma {:induction false} InitialIsTriangular(q: seq<int>, n: nat)
    requires Distinct(q) && Elems(q) == Upto(n)
    ensures |q| == n && SumSeq(q) == Triangle(n)
    decreases n
  {
    DistinctSize(q);
    if n > 0 {
      assert n - 1 in Elems(q);
      var i :| 0 <= i < |q| && q[i] == n - 1;
      WithoutSums(q, i);
      WithoutAt(q, i);
      WithoutElems(q, i);
      OneLess(Elems(q), n);
      InitialIsTriangular(Without(q, i), n - 1);
    } else {
      assert q == [];
    }
  }

  lemma OneLess(all: set<int>, n: nat)
    requires n > 0 && all == Upto(n)
    ensures all - {n - 1} == Upto(n - 1)
  {
  }

  lemma {:induction false} TotalsSayInitial(q: seq<int>, n: nat)
    requires Distinct(q) && Naturals(q)
    ensures |q| == n && SumSeq(q) == (n * (n - 1)) / 2 <==> Elems(q) == Upto(n)
  {
    TriangleIsHalf(n);
    TriangularIsInitial(q);
    if Elems(q) == Upto(n) {
      InitialIsTriangular(q, n);
    }
  }
}
