/** Doubly linked way lists, with the pointers of cache.c and bpred.c as way numbers: -1 is a null pointer. */
module WayLists {
  import opened WayOrder

  /** The ordered way chain of a set: way_head, way_tail and the way_prev and way_next of every block. */
  class WayList {
    var head: int
    var tail: int
    var prev: seq<int>
    var next: seq<int>
    ghost var order: seq<nat>

    ghost predicate Valid()
      reads this
    {
      && order != [] && Distinct(order) && |prev| == |next| && InBounds(order, |next|)
      && head == order[0] && tail == order[|order| - 1]
      && Linked(order, prev, next)
    }

    constructor (n: nat)
      requires 0 < n
      ensures Valid() && order == CountDown(n) && |next| == n
    {
      head, tail, prev, next, order := 0, 0, seq(n, _ => -1), seq(n, _ => -1), [0];
      new;
      var j := 1;
      while j < n
        invariant 1 <= j <= n && Valid() && order == CountDown(j) && |next| == n
      {
        BoundsOf(j, j);
        InsertHead(j);
        j := j + 1;
      }
    }

    /** cache_create: insert a block that is on no list at the head. */
    method InsertHead(i: nat)
      requires Valid() && i !in order && i < |next|
      modifies this
      ensures Valid() && order == [i] + old(order) && |next| == old(|next|)
    {
      ghost var q := order;
      next := next[i := head];
      prev := prev[i := -1];
      prev := prev[head := i];
      head := i;
      order := [i] + order;
      PushLinks(q, old(prev), old(next), i);
    }

    /** The unlinking part of update_way_list for a block that is not alone. */
    method Unlink(i: nat)
      requires Valid() && i in order && |order| > 1
      modifies this
      ensures Valid() && order == Remove(old(order), i) && |next| == old(|next|) && i !in order && i < |next|
    {
      hide Distinct, Linked, InBounds, Remove, Cut, IndexOf;
      ghost var q := order;
      ghost var k := IndexOf(q, i);
      AtIndex(q, prev, next, k);
      Neighbours(q, |next|, k);
      RemoveAt(q, k);
      RemoveIs(q, i);
      if prev[i] == -1 {
        head := next[i];
        prev := prev[next[i] := -1];
      } else if next[i] == -1 {
        tail := prev[i];
        next := next[prev[i] := -1];
      } else {
        ghost var p0 := prev;
        next := next[prev[i] := next[i]];
        Different(q, k, k - 1);
        prev := prev[next[i] := prev[i]];
      }
      order := Remove(q, i);
      CutLinks(q, old(prev), old(next), k, prev, next);
      assert order == Cut(q, k);
    }

    /** update_way_list: its assertions on the list ends hold, and the block moves. */
    method UpdateWayList(i: nat, where_: Where)
      requires Valid() && i in order
      modifies this
      ensures Valid() && order == MoveTo(old(order), i, where_) && |next| == old(|next|)
    {
      ghost var q := order;
      ghost var k := IndexOf(q, i);
      AtIndex(q, prev, next, k);
      EndsMove(q, i);
      if prev[i] == -1 && next[i] == -1 {
        assert head == i && tail == i;
        return;
      } else if prev[i] == -1 {
        assert head == i && tail != i;
        if where_ == Head { return; }
      } else if next[i] == -1 {
        assert head != i && tail == i;
        if where_ == Tail { return; }
      } else {
        assert head != i && tail != i;
      }
      Unlink(i);
      ghost var r, p0, n0 := order, prev, next;
      if where_ == Head {
        InsertHead(i);
      } else {
        InsertTail(i);
      }
    }

    method InsertTail(i: nat)
      requires Valid() && i !in order && i < |next|
      modifies this
      ensures Valid() && order == old(order) + [i] && |next| == old(|next|)
    {
      ghost var q := order;
      prev := prev[i := tail];
      next := next[i := -1];
      next := next[tail := i];
      tail := i;
      order := order + [i];
      AppendLinks(q, old(prev), old(next), i);
    }
  }

  ghost predicate InBounds(q: seq<nat>, n: nat) { forall j :: 0 <= j < |q| ==> q[j] < n }

  /** prev and next run along q. */
  ghost predicate Linked(q: seq<nat>, prev: seq<int>, next: seq<int>)
    requires |prev| == |next| && InBounds(q, |next|)
  {
    forall j :: 0 <= j < |q| ==>
      && next[q[j]] == (if j + 1 < |q| then q[j + 1] else -1)
      && prev[q[j]] == (if j > 0 then q[j - 1] else -1)
  }

  lemma {:induction false} BoundsOf(n: nat, m: nat)
    requires n <= m
    ensures m !in CountDown(n)
  {
    if n > 0 { BoundsOf(n - 1, m); }
  }

  ghost function IndexOf(q: seq<nat>, i: nat): (k: nat)
    requires i in q
    ensures k < |q| && q[k] == i
  {
    if q[0] == i then 0 else IndexOf(q[1..], i) + 1
  }

  lemma AtIndex(q: seq<nat>, prev: seq<int>, next: seq<int>, k: nat)
    requires |prev| == |next| && InBounds(q, |next|) && Linked(q, prev, next) && k < |q|
    ensures q[k] < |next|
    ensures prev[q[k]] == (if k > 0 then q[k - 1] else -1) && next[q[k]] == (if k + 1 < |q| then q[k + 1] else -1)
  {
  }

  lemma PushLinks(q: seq<nat>, prev: seq<int>, next: seq<int>, i: nat)
    requires q != [] && Distinct(q) && |prev| == |next| && InBounds(q, |next|) && Linked(q, prev, next)
    requires i !in q && i < |next|
    ensures var n := next[i := q[0] as int]; var p := prev[i := -1][q[0] := i as int];
            Distinct([i] + q) && InBounds([i] + q, |n|) && Linked([i] + q, p, n)
  {
  }

  lemma AppendLinks(q: seq<nat>, prev: seq<int>, next: seq<int>, i: nat)
    requires q != [] && Distinct(q) && |prev| == |next| && InBounds(q, |next|) && Linked(q, prev, next)
    requires i !in q && i < |next|
    ensures var n := next[i := -1][q[|q| - 1] := i as int]; var p := prev[i := q[|q| - 1] as int];
            Distinct(q + [i]) && InBounds(q + [i], |n|) && Linked(q + [i], p, n)
  {
  }

  lemma Neighbours(q: seq<nat>, n: nat, k: nat)
    requires k < |q| && InBounds(q, n)
    ensures q[k] < n && (k > 0 ==> q[k - 1] < n) && (k + 1 < |q| ==> q[k + 1] < n)
  {
  }

  ghost function Cut(q: seq<nat>, k: nat): (r: seq<nat>)
    requires k < |q|
    ensures |r| == |q| - 1
    ensures forall j {:trigger r[j]} :: 0 <= j < |r| ==> r[j] == if j < k then q[j] else q[j + 1]
  {
    q[..k] + q[k + 1..]
  }

  lemma LinkedIs(q: seq<nat>, prev: seq<int>, next: seq<int>)
    requires |prev| == |next| && InBounds(q, |next|)
    requires forall j :: 0 <= j < |q| ==>
               next[q[j]] == (if j + 1 < |q| then q[j + 1] else -1) && prev[q[j]] == (if j > 0 then q[j - 1] else -1)
    ensures Linked(q, prev, next)
  {
  }

  /** Taking entry k out of a linked list. */
  lemma CutLinks(q: seq<nat>, prev: seq<int>, next: seq<int>, k: nat, prev': seq<int>, next': seq<int>)
    requires k < |q| && Distinct(q) && |prev| == |next| && InBounds(q, |next|) && Linked(q, prev, next)
    requires next' == if k > 0 then next[q[k - 1] := next[q[k]]] else next
    requires prev' == if k + 1 < |q| then prev[q[k + 1] := prev[q[k]]] else prev
    ensures |prev'| == |next'| && InBounds(Cut(q, k), |next'|) && Linked(Cut(q, k), prev', next')
  {
    hide Cut;
    var r := Cut(q, k);
    forall j | 0 <= j < |r|
      ensures next'[r[j]] == (if j + 1 < |r| then r[j + 1] else -1) && prev'[r[j]] == (if j > 0 then r[j - 1] else -1)
    {
      CutNext(q, prev, next, k, next', j);
      CutPrev(q, prev, next, k, prev', j);
    }
    LinkedIs(r, prev', next');
  }

  lemma CutNext(q: seq<nat>, prev: seq<int>, next: seq<int>, k: nat, next': seq<int>, j: nat)
    requires k < |q| && Distinct(q) && |prev| == |next| && InBounds(q, |next|) && Linked(q, prev, next)
    requires next' == (if k > 0 then next[q[k - 1] := next[q[k]]] else next) && j < |Cut(q, k)|
    ensures Cut(q, k)[j] < |next'|
    ensures next'[Cut(q, k)[j]] == if j + 1 < |q| - 1 then Cut(q, k)[j + 1] else -1
  {
    hide Cut, Linked, Distinct;
    var x := if j < k then j else j + 1;
    AtIndex(q, prev, next, x);
    AtIndex(q, prev, next, k);
    if k > 0 && x != k - 1 { Different(q, x, k - 1); }
  }

  lemma CutPrev(q: seq<nat>, prev: seq<int>, next: seq<int>, k: nat, prev': seq<int>, j: nat)
    requires k < |q| && Distinct(q) && |prev| == |next| && InBounds(q, |next|) && Linked(q, prev, next)
    requires prev' == (if k + 1 < |q| then prev[q[k + 1] := prev[q[k]]] else prev) && j < |Cut(q, k)|
    ensures Cut(q, k)[j] < |prev'|
    ensures prev'[Cut(q, k)[j]] == if j > 0 then Cut(q, k)[j - 1] else -1
  {
    hide Cut, Linked, Distinct;
    var x := if j < k then j else j + 1;
    AtIndex(q, prev, next, x);
    AtIndex(q, prev, next, k);
    if k + 1 < |q| && x != k + 1 { Different(q, x, k + 1); }
  }

  lemma Different(q: seq<nat>, x: nat, y: nat)
    requires Distinct(q) && x < |q| && y < |q| && x != y
    ensures q[x] != q[y]
  {
  }

  lemma {:induction false} RemoveAt(q: seq<nat>, k: nat)
    requires Distinct(q) && k < |q|
    ensures Remove(q, q[k]) == Cut(q, k)
  {
    hide Cut;
    if k > 0 {
      Different(q, 0, k);
      assert Distinct(q[1..]);
      RemoveAt(q[1..], k - 1);
      assert [q[0]] + Cut(q[1..], k - 1) == Cut(q, k);
    } else {
      assert q[1..] == Cut(q, 0);
    }
  }

  /** Moving an end block to its own end changes nothing. */
  lemma EndsMove(q: seq<nat>, i: nat)
    requires Distinct(q) && i in q
    ensures q[0] == i ==> MoveTo(q, i, Head) == q
    ensures q[|q| - 1] == i ==> MoveTo(q, i, Tail) == q
  {
    RemoveFirst(q);
    RemoveEnd(q);
  }

  lemma RemoveFirst(q: seq<nat>)
    requires Distinct(q) && q != []
    ensures [q[0]] + Remove(q, q[0]) == q
  {
  }

  lemma RemoveEnd(q: seq<nat>)
    requires Distinct(q) && q != []
    ensures Remove(q, q[|q| - 1]) + [q[|q| - 1]] == q
  {
    hide Remove, Distinct, Cut;
    RemoveAt(q, |q| - 1);
  }
}
