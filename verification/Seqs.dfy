/**
 Sequences without repetitions, and removal at a position.
 */
module Seqs {
  ghost predicate NoDup<T>(q: seq<T>) {
    forall i, j :: 0 <= i < j < |q| ==> q[i] != q[j]
  }

  // The k-th index of a list of slot indices, or the null link -1 beyond either end.
  function At(q: seq<int>, k: int): int {
    if 0 <= k < |q| then q[k] else -1
  }

  function RemoveAt<T>(q: seq<T>, k: nat): (r: seq<T>)
    requires k < |q|
    ensures |r| == |q| - 1
    ensures forall i :: 0 <= i < k ==> r[i] == q[i]
    ensures forall i :: k <= i < |r| ==> r[i] == q[i + 1]
  {
    q[..k] + q[k + 1..]
  }

  // The first n positions, as a set.
  ghost function Below(n: nat): (r: set<int>)
    ensures forall i :: i in r <==> 0 <= i < n
    ensures |r| == n
  {
    if n == 0 then {} else Below(n - 1) + {n - 1}
  }

  lemma Member<T>(s: set<T>) returns (x: T)
    requires s != {}
    ensures x in s
  {
    x :| x in s;
  }

  lemma {:induction false} NoDupSize<T>(q: seq<T>)
    requires NoDup(q)
    ensures |set x | x in q| == |q|
  {
    var s := set x | x in q;
    if |q| == 0 {
      assert s == {};
    } else {
      var n := |q| - 1;
      NoDupSize(q[..n]);
      assert q == q[..n] + [q[n]];
      assert s == (set x | x in q[..n]) + {q[n]};
      assert q[n] !in q[..n];
    }
  }

  lemma {:induction false} SubsetSize<T>(a: set<T>, b: set<T>)
    requires a <= b
    ensures |a| <= |b|
  {
    if a != {} {
      var x :| x in a;
      SubsetSize(a - {x}, b - {x});
    }
  }

  // Pigeonhole: a repetition-free list of indices below n has at most n entries.
  lemma NoDupBound(q: seq<int>, n: nat)
    requires NoDup(q)
    requires forall i :: 0 <= i < |q| ==> 0 <= q[i] < n
    ensures |q| <= n
  {
    NoDupSize(q);
    SubsetSize((set x | x in q), Below(n));
  }

  lemma AppendNothing<T>(q: seq<T>)
    ensures q + [] == q
  {
  }
}
