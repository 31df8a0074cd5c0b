/** Sequences in which nothing comes twice, as lists and queues are. */
module Sequences {

  predicate Distinct(q: seq<nat>) {
    forall i, j :: 0 <= i < j < |q| ==> q[i] != q[j]
  }

  function Without(q: seq<nat>, k: nat): seq<nat>
    requires k < |q|
  {
    q[..k] + q[k + 1..]
  }

  lemma DistinctSnoc(q: seq<nat>, t: nat)
    requires Distinct(q) && t !in q
    ensures Distinct(q + [t])
    ensures forall x :: x in q + [t] <==> x in q || x == t
  {
  }

  lemma DistinctPair(q: seq<nat>, i: nat, j: nat)
    requires Distinct(q) && i < |q| && j < |q| && i != j
    ensures q[i] != q[j]
  {
    assert q[if i < j then i else j] != q[if i < j then j else i];
  }

  lemma DistinctWithout(q: seq<nat>, k: nat)
    requires Distinct(q) && k < |q|
    ensures Distinct(Without(q, k))
    ensures forall x :: x in Without(q, k) <==> x in q && x != q[k]
    ensures q[k] in q
  {
    var w := Without(q, k);
    forall x
      ensures x in w <==> x in q && x != q[k]
    {
      if x in w {
        var j :| 0 <= j < |w| && w[j] == x;
        assert x == q[if j < k then j else j + 1];
      }
      if x in q && x != q[k] {
        var i :| 0 <= i < |q| && q[i] == x;
        assert x == w[if i < k then i else i - 1];
      }
    }
  }
}
