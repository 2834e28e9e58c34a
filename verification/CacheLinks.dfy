/** The hash bucket chains of a cache set, with the pointers of cache.c as way numbers. */
module CacheLinks {
  import opened WayOrder
  import opened WayLists

  // ---- hash bucket chains ----

  /** next runs along q from its head pointer. */
  ghost predicate ChainLinked(q: seq<nat>, head: int, next: seq<int>) {
    && InBounds(q, |next|)
    && head == At(q, 0)
    && forall j :: 0 <= j < |q| ==> next[q[j]] == At(q, j + 1)
  }

  /** The j-th entry of a chain as a pointer. */
  ghost function At(q: seq<nat>, j: nat): int { if j < |q| then q[j] else -1 }

  /** The hash table of a set: hash and the hash_next of every block. */
  class HashTable {
    var heads: seq<int>
    var next: seq<int>
    ghost var chains: seq<seq<nat>>

    ghost predicate Valid()
      reads this
    {
      && |heads| == |chains|
      && (forall b :: 0 <= b < |chains| ==> Distinct(chains[b]) && ChainLinked(chains[b], heads[b], next))
      && Apart(chains)
    }

    constructor (size: nat, n: nat)
      ensures Valid() && chains == seq(size, _ => []) && |next| == n
    {
      heads, next, chains := seq(size, _ => -1), seq(n, _ => -1), seq(size, _ => []);
    }

    /** unlink_htab_ent: false if its assertion would fail. */
    method UnlinkHtabEnt(b: nat, i: nat) returns (ok: bool)
      requires Valid() && b < |chains|
      modifies this
      ensures Valid() && |next| == old(|next|) && (ok <==> i in old(chains[b]))
      ensures chains == if ok then old(chains)[b := Remove(old(chains[b]), i)] else old(chains)
    {
      hide Distinct, InBounds, Remove, Cut, Apart, ChainLinked;
      ghost var q := chains[b];
      ghost var k: nat := 0;
      StartOf(q, heads[b], next);
      var before, ent := -1, heads[b];
      while ent != -1 && ent != i
        invariant k <= |q| && ent == At(q, k) && before == (if k > 0 then q[k - 1] as int else -1) && i !in q[..k]
        invariant ent != -1 ==> 0 <= ent < |next|
        invariant unchanged(this)
        decreases |q| - k
      {
        NextOf(q, heads[b], next, k);
        before, ent, k := ent, next[ent], k + 1;
        if k < |q| { InRangeAt(q, heads[b], next, k); }
      }
      assert q[..|q|] == q;
      if ent == -1 { return false; }
      NextOf(q, heads[b], next, k);
      ChainBounds(q, heads[b], next);
      RemoveAt(q, k);
      if before == -1 {
        heads := heads[b := next[ent]];
      } else {
        InRangeAt(q, heads[b], next, k - 1);
        next := next[before := next[ent]];
      }
      next := next[ent := -1];
      chains := chains[b := Remove(q, i)];
      UnlinkKeeps(old(chains), old(heads), old(next), b, k, heads, next);
      return true;
    }

    /** link_htab_ent */
    method LinkHtabEnt(b: nat, i: nat)
      requires Valid() && b < |chains| && i < |next| && forall x :: 0 <= x < |chains| ==> i !in chains[x]
      modifies this
      ensures Valid() && |next| == old(|next|) && chains == old(chains)[b := [i] + old(chains[b])]
    {
      hide Distinct, InBounds, Apart, ChainLinked;
      next := next[i := heads[b]];
      heads := heads[b := i];
      chains := chains[b := [i] + chains[b]];
      LinkKeeps(old(chains), old(heads), old(next), b, i);
    }
  }

  ghost predicate Apart(chains: seq<seq<nat>>) {
    forall b, c, x :: 0 <= b < |chains| && 0 <= c < |chains| && b != c && x in chains[b] ==> x !in chains[c]
  }

  lemma ChainBounds(q: seq<nat>, head: int, next: seq<int>)
    requires ChainLinked(q, head, next)
    ensures forall j :: 0 <= j < |q| ==> q[j] < |next|
  {
  }

  lemma StartOf(q: seq<nat>, head: int, next: seq<int>)
    requires ChainLinked(q, head, next)
    ensures head == At(q, 0) && (q != [] ==> q[0] < |next|)
  {
  }

  lemma NextOf(q: seq<nat>, head: int, next: seq<int>, k: nat)
    requires ChainLinked(q, head, next) && k < |q|
    ensures q[k] < |next| && next[q[k]] == At(q, k + 1)
  {
  }

  lemma InRangeAt(q: seq<nat>, head: int, next: seq<int>, k: nat)
    requires ChainLinked(q, head, next) && k < |q|
    ensures q[k] < |next|
  {
  }

  /** A chain that names none of the changed ways stays linked. */
  lemma OtherChain(q: seq<nat>, head: int, next: seq<int>, next': seq<int>)
    requires ChainLinked(q, head, next) && |next'| == |next| && forall i :: 0 <= i < |next| && i in q ==> next'[i] == next[i]
    ensures ChainLinked(q, head, next')
  {
  }

  lemma UnlinkKeeps(chains: seq<seq<nat>>, heads: seq<int>, next: seq<int>, b: nat, k: nat, heads': seq<int>, next': seq<int>)
    requires |heads| == |chains| && b < |chains| && k < |chains[b]| && Apart(chains)
    requires forall x :: 0 <= x < |chains| ==> Distinct(chains[x]) && ChainLinked(chains[x], heads[x], next)
    requires var q := chains[b];
             && (forall j :: 0 <= j < |q| ==> q[j] < |next|)
             && heads' == (if k == 0 then heads[b := next[q[0]]] else heads)
             && next' == (if k == 0 then next else next[q[k - 1] := next[q[k]]])[q[k] := -1]
    ensures var c := chains[b := Remove(chains[b], chains[b][k])];
            && Apart(c)
            && forall x :: 0 <= x < |c| ==> Distinct(c[x]) && ChainLinked(c[x], heads'[x], next')
  {
    hide Distinct, Apart, ChainLinked, Remove, Cut;
    var q := chains[b];
    var c := chains[b := Remove(q, q[k])];
    RemoveAt(q, k);
    RemoveIs(q, q[k]);
    CutChain(q, heads[b], next, k);
    ApartRemove(chains, b, q[k]);
    forall x | 0 <= x < |c| ensures Distinct(c[x]) && ChainLinked(c[x], heads'[x], next') {
      if x != b {
        ApartAt(chains, b, x);
        OtherChain(chains[x], heads[x], next, next');
      }
    }
  }

  lemma ApartAt(chains: seq<seq<nat>>, b: nat, c: nat)
    requires Apart(chains) && b < |chains| && c < |chains| && b != c
    ensures forall j :: 0 <= j < |chains[b]| ==> chains[b][j] !in chains[c]
  {
  }

  lemma ApartRemove(chains: seq<seq<nat>>, b: nat, i: nat)
    requires Apart(chains) && b < |chains| && Distinct(chains[b])
    ensures Apart(chains[b := Remove(chains[b], i)])
  {
    RemoveIs(chains[b], i);
  }

  /** One chain after unlink_htab_ent. */
  lemma CutChain(q: seq<nat>, head: int, next: seq<int>, k: nat)
    requires ChainLinked(q, head, next) && k < |q| && Distinct(q) && forall j :: 0 <= j < |q| ==> q[j] < |next|
    ensures var next' := (if k == 0 then next else next[q[k - 1] := next[q[k]]])[q[k] := -1];
            ChainLinked(Cut(q, k), if k == 0 then next[q[0]] else head, next')
  {
    hide Cut, Distinct;
    var next' := (if k == 0 then next else next[q[k - 1] := next[q[k]]])[q[k] := -1];
    var r := Cut(q, k);
    forall j | 0 <= j < |r| ensures next'[r[j]] == At(r, j + 1) {
      var x := if j < k then j else j + 1;
      NextOf(q, head, next, x);
      NextOf(q, head, next, k);
      Different(q, x, k);
      if k > 0 && x != k - 1 { Different(q, x, k - 1); }
    }
  }

  lemma LinkKeeps(chains: seq<seq<nat>>, heads: seq<int>, next: seq<int>, b: nat, i: nat)
    requires |heads| == |chains| && b < |chains| && Apart(chains) && i < |next|
    requires forall x :: 0 <= x < |chains| ==> Distinct(chains[x]) && ChainLinked(chains[x], heads[x], next)
    requires forall x :: 0 <= x < |chains| ==> i !in chains[x]
    ensures var c := chains[b := [i] + chains[b]]; var h := heads[b := i as int]; var n := next[i := heads[b]];
            && Apart(c)
            && forall x :: 0 <= x < |c| ==> Distinct(c[x]) && ChainLinked(c[x], h[x], n)
  {
    hide Distinct, ChainLinked;
    var c := chains[b := [i] + chains[b]];
    PushDistinct(chains[b], i);
    PushChain(chains[b], heads[b], next, i);
    forall x | 0 <= x < |c| && x != b ensures ChainLinked(c[x], heads[x], next[i := heads[b]]) {
      OtherChain(chains[x], heads[x], next, next[i := heads[b]]);
    }
  }

  lemma PushChain(q: seq<nat>, head: int, next: seq<int>, i: nat)
    requires ChainLinked(q, head, next) && i !in q && i < |next|
    ensures ChainLinked([i] + q, i, next[i := head])
  {
  }
}
