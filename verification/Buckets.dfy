/** Hash buckets searched with move-to-front, as the speculative store table and the page table keep them. */
module Buckets {

  datatype Node<K, V> = Node(key: K, val: V)

  /** Where a key is in a bucket chain, or -1. */
  function Find<K(==), V>(q: seq<Node<K, V>>, a: K): (k: int)
    ensures -1 <= k < |q| && (k >= 0 ==> q[k].key == a)
  {
    if q == [] then -1 else if q[0].key == a then 0
    else
      var k := Find(q[1..], a);
      if k < 0 then -1 else k + 1
  }

  function ToFront<K, V>(q: seq<Node<K, V>>, k: nat): (r: seq<Node<K, V>>)
    requires k < |q|
    ensures |r| == |q|
  {
    [q[k]] + q[..k] + q[k + 1..]
  }

  /** The bucket chain after a search: the node found is at its front. */
  function Searched<K(==), V>(q: seq<Node<K, V>>, a: K): (r: seq<Node<K, V>>)
    ensures |r| == |q|
  {
    var k := Find(q, a);
    if k > 0 then ToFront(q, k) else q
  }

  ghost predicate Unique<K, V>(q: seq<Node<K, V>>) { forall i, j :: 0 <= i < j < |q| ==> q[i].key != q[j].key }

  /** What a chain maps each address to. */
  ghost function ChainMap<K, V>(q: seq<Node<K, V>>): map<K, V> {
    if q == [] then map[] else ChainMap(q[1..])[q[0].key := q[0].val]
  }

  lemma {:induction false} ChainMapIs<K(!new), V>(q: seq<Node<K, V>>)
    requires Unique(q)
    ensures forall i :: 0 <= i < |q| ==> q[i].key in ChainMap(q) && ChainMap(q)[q[i].key] == q[i].val
    ensures forall a :: a in ChainMap(q) ==> exists i :: 0 <= i < |q| && q[i].key == a
  {
    if q != [] {
      ChainMapIs(q[1..]);
      forall a | a in ChainMap(q) ensures exists i :: 0 <= i < |q| && q[i].key == a {
        if a != q[0].key {
          var i :| 0 <= i < |q[1..]| && q[1..][i].key == a;
          assert q[i + 1].key == a;
        }
      }
    }
  }

  /** Where entry i of the reordered chain was. */
  function Origin(k: nat, i: nat): nat { if i == 0 then k else if i <= k then i - 1 else i }

  lemma ToFrontAt<K(!new), V>(q: seq<Node<K, V>>, k: nat, i: nat)
    requires k < |q| && i < |q|
    ensures ToFront(q, k)[i] == q[Origin(k, i)]
  {
  }

  /** The same entries in another order. */
  ghost predicate Reordered<K, V>(q: seq<Node<K, V>>, r: seq<Node<K, V>>) {
    && Unique(q) && Unique(r)
    && (forall i :: 0 <= i < |r| ==> r[i] in q) && (forall i :: 0 <= i < |q| ==> q[i] in r)
  }

  lemma SameMap<K(!new), V>(q: seq<Node<K, V>>, r: seq<Node<K, V>>)
    requires Reordered(q, r)
    ensures ChainMap(r) == ChainMap(q)
  {
    hide ChainMap, Unique;
    MapWithin(q, r);
    MapWithin(r, q);
  }

  lemma MapWithin<K(!new), V>(q: seq<Node<K, V>>, r: seq<Node<K, V>>)
    requires Unique(q) && Unique(r) && forall i :: 0 <= i < |q| ==> q[i] in r
    ensures forall a :: a in ChainMap(q) ==> a in ChainMap(r) && ChainMap(r)[a] == ChainMap(q)[a]
  {
    hide ChainMap, Unique;
    ChainMapIs(q);
    ChainMapIs(r);
    forall a | a in ChainMap(q) ensures a in ChainMap(r) && ChainMap(r)[a] == ChainMap(q)[a] {
      var i :| 0 <= i < |q| && q[i].key == a;
      var j :| 0 <= j < |r| && r[j] == q[i];
    }
  }

  /** Move-to-front does not change the mapping. */
  lemma ToFrontKeeps<K(!new), V>(q: seq<Node<K, V>>, k: nat)
    requires Unique(q) && k < |q|
    ensures Unique(ToFront(q, k)) && ChainMap(ToFront(q, k)) == ChainMap(q)
  {
    hide ToFront, ChainMap;
    var r := ToFront(q, k);
    forall i | 0 <= i < |r| ensures r[i] == q[Origin(k, i)] { ToFrontAt(q, k, i); }
    forall j | 0 <= j < |q| ensures q[j] in r {
      assert r[if j == k then 0 else if j < k then j + 1 else j] == q[j];
    }
    SameMap(q, r);
  }

  lemma {:induction false} FindIs<K(!new), V>(q: seq<Node<K, V>>, a: K)
    requires Unique(q)
    ensures Find(q, a) >= 0 <==> a in ChainMap(q)
  {
    if q != [] { FindIs(q[1..], a); }
  }

  /** The search loop keeps the mapping and brings the entry of a to the front if there is one. */
  lemma SearchedIs<K(!new), V>(q: seq<Node<K, V>>, a: K)
    requires Unique(q)
    ensures var r := Searched(q, a);
            && Unique(r) && ChainMap(r) == ChainMap(q)
            && (r != [] && r[0].key == a <==> a in ChainMap(q))
            && (a in ChainMap(q) ==> ChainMap(q)[a] == r[0].val)
  {
    hide ChainMap;
    FindIs(q, a);
    var k := Find(q, a);
    if k > 0 { ToFrontKeeps(q, k); }
    var r := Searched(q, a);
    ChainMapIs(q);
    ChainMapIs(r);
  }

  lemma ChangeHead<K(!new), V>(q: seq<Node<K, V>>, v: V)
    requires Unique(q) && q != []
    ensures var r := [q[0].(val := v)] + q[1..]; Unique(r) && ChainMap(r) == ChainMap(q)[q[0].key := v]
  {
    var r := [q[0].(val := v)] + q[1..];
    assert r[1..] == q[1..];
  }

  lemma PushHead<K(!new), V>(q: seq<Node<K, V>>, e: Node<K, V>)
    requires Unique(q) && e.key !in ChainMap(q)
    ensures Unique([e] + q) && ChainMap([e] + q) == ChainMap(q)[e.key := e.val]
  {
    ChainMapIs(q);
    assert ([e] + q)[1..] == q;
  }

  /** The search loop: a node that is found moves to the head of its bucket. */
  method SearchBucket<K(==), V>(q: seq<Node<K, V>>, a: K) returns (r: seq<Node<K, V>>, found: bool)
    ensures r == Searched(q, a) && (found <==> Find(q, a) >= 0) && (found ==> r != [] && r[0].key == a)
  {
    var k := 0;
    assert q[0..] == q;
    while k < |q| && q[k].key != a
      invariant k <= |q| && (Find(q[k..], a) < 0 <==> Find(q, a) < 0)
      invariant Find(q[k..], a) >= 0 ==> Find(q, a) == k + Find(q[k..], a)
    {
      assert q[k..][1..] == q[k + 1..];
      k := k + 1;
    }
    if k == |q| { return q, false; }
    r := if k > 0 then [q[k]] + q[..k] + q[k + 1..] else q;
    found := true;
  }
}
