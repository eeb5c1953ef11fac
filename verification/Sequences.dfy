/** Taking an element out of a sequence, shared by the models of the task queues. */
module Sequences {

  ghost predicate NoRepeats<T>(q: seq<T>) {
    forall i: nat, j: nat :: i < j < |q| ==> q[i] != q[j]
  }

  /** The sequence without the first occurrence of x. */
  function Without<T(==)>(q: seq<T>, x: T): seq<T> {
    if q == [] then [] else if q[0] == x then q[1..] else [q[0]] + Without(q[1..], x)
  }

  lemma {:induction false} WithoutSpec<T(!new)>(q: seq<T>, x: T)
    requires NoRepeats(q)
    ensures NoRepeats(Without(q, x))
    ensures forall y: T :: y in Without(q, x) <==> y in q && y != x
  {
    if q != [] && q[0] != x {
      var rest := q[1..];
      assert forall i: nat :: i < |rest| ==> rest[i] == q[i + 1];
      WithoutSpec(rest, x);
      var cut := Without(rest, x);
      assert q[0] !in rest;
      assert q[0] !in cut;
      assert forall y: T :: y in q <==> y == q[0] || y in rest;
      assert forall y: T :: y in [q[0]] + cut <==> y == q[0] || y in cut;
    } else if q != [] {
      assert forall i: nat :: i < |q[1..]| ==> q[1..][i] == q[i + 1];
      assert forall y: T :: y in q <==> y == q[0] || y in q[1..];
    }
  }

  /** Nothing else is lost. */
  lemma {:induction false} WithoutOne<T>(q: seq<T>, x: T)
    requires x in q
    ensures multiset(Without(q, x)) + multiset{x} == multiset(q)
  {
    assert q == [q[0]] + q[1..];
    if q[0] != x {
      WithoutOne(q[1..], x);
    }
  }
}
