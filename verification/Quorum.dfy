/** Strict majorities of the nodes 0 .. n-1. */
module Quorum {

  ghost predicate Majority(q: set<int>, n: nat) {
    && (forall v | v in q :: 0 <= v < n)
    && |q| > n / 2
  }

  /** The set of all node ids. */
  function Ids(n: nat): (r: set<int>)
    ensures |r| == n
    ensures forall v :: v in r <==> 0 <= v < n
  {
    if n == 0 then {} else Ids(n - 1) + {n - 1}
  }

  lemma SubsetSize(a: set<int>, b: set<int>)
    requires a <= b
    ensures |a| <= |b|
  {
    assert b == a + (b - a);
  }

  /** Any two majorities share a node. */
  lemma MajoritiesMeet(a: set<int>, b: set<int>, n: nat) returns (v: int)
    requires Majority(a, n) && Majority(b, n)
    ensures v in a && v in b
  {
    if forall x :: x in a ==> x !in b {
      assert a * b == {};
      assert |a + b| == |a| + |b|;
      assert a + b <= Ids(n);
      SubsetSize(a + b, Ids(n));
      assert false;
    }
    v :| v in a && v in b;
  }
}
