/** Lists of the ways of a set, as sequences: permutations, and moving a way to either end. */
module WayOrder {

  function Remove(q: seq<nat>, i: nat): seq<nat> {
    if q == [] then [] else if q[0] == i then q[1..] else [q[0]] + Remove(q[1..], i)
  }

  datatype Where = Head | Tail

  /** update_way_list */
  function MoveTo(q: seq<nat>, i: nat, where_: Where): seq<nat> {
    if where_ == Head then [i] + Remove(q, i) else Remove(q, i) + [i]
  }

  ghost predicate Distinct(q: seq<nat>) { forall i, j :: 0 <= i < j < |q| ==> q[i] != q[j] }

  lemma {:induction false} RemoveIs(q: seq<nat>, i: nat)
    requires Distinct(q)
    ensures Distinct(Remove(q, i)) && forall x :: x in Remove(q, i) <==> x in q && x != i
    ensures i in q ==> |Remove(q, i)| == |q| - 1
    ensures i !in q ==> Remove(q, i) == q
  {
    if q != [] {
      var rest := q[1..];
      RemoveIs(rest, i);
      assert q == [q[0]] + rest;
      assert q[0] !in rest;
      if q[0] != i {
        var r := Remove(rest, i);
        forall j | 0 <= j < |r| ensures r[j] != q[0] { assert r[j] in r; }
      }
    }
  }

  /** A way list is a permutation of the ways. */
  ghost predicate Perm(q: seq<nat>, n: nat) {
    |q| == n && Distinct(q) && forall x: nat :: x in q <==> x < n
  }

  lemma MoveKeepsPerm(q: seq<nat>, n: nat, i: nat, where_: Where)
    requires Perm(q, n) && i < n
    ensures Perm(MoveTo(q, i, where_), n)
  {
    RemoveIs(q, i);
    var r := Remove(q, i);
    forall j | 0 <= j < |r| ensures r[j] != i { assert r[j] in r; }
  }

  lemma PushDistinct(q: seq<nat>, i: nat)
    requires Distinct(q) && i !in q
    ensures Distinct([i] + q) && forall x :: x in [i] + q <==> x == i || x in q
  {
  }

  /** n - 1 down to 0: the lists cache_create builds by inserting at the head. */
  function CountDown(n: nat): (q: seq<nat>)
    ensures |q| == n
  {
    if n == 0 then [] else [n - 1] + CountDown(n - 1)
  }
}
