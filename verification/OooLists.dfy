/** Facts about the lists of the core: link multisets, sorted insertion, rings and program order. */
module OooLists {
  import opened OooState
  import opened Arith

  datatype Key = Key(rs: nat, tag: nat)

  /** The stations a link list names, each with the instance tag of the link. */
  ghost function Keys(q: seq<Link>): multiset<Key> {
    if q == [] then multiset{} else multiset{Key(q[0].rs, q[0].tag)} + Keys(q[1..])
  }

  lemma {:induction false} KeysOfInsert(q: seq<Link>, n: Link)
    ensures Keys(Insert(q, n)) == Keys(q) + multiset{Key(n.rs, n.tag)}
    ensures |Insert(q, n)| == |q| + 1
  {
    if q == [] || q[0].x >= n.x {
      assert ([n] + q)[1..] == q;
    } else {
      KeysOfInsert(q[1..], n);
      var r := [q[0]] + Insert(q[1..], n);
      assert r[1..] == Insert(q[1..], n);
    }
  }

  lemma KeysOfCons(n: Link, q: seq<Link>)
    ensures Keys([n] + q) == Keys(q) + multiset{Key(n.rs, n.tag)}
  {
    assert ([n] + q)[1..] == q;
  }

  ghost predicate Sorted(q: seq<Link>) {
    forall i, j :: 0 <= i < j < |q| ==> q[i].x <= q[j].x
  }

  lemma {:induction false} InsertMembers(q: seq<Link>, n: Link)
    ensures forall l :: l in Insert(q, n) <==> l == n || l in q
  {
    if q == [] || q[0].x >= n.x {
    } else {
      InsertMembers(q[1..], n);
      assert q == [q[0]] + q[1..];
    }
  }

  /** The insertion loop keeps a list sorted by its key. */
  lemma {:induction false} InsertKeepsSorted(q: seq<Link>, n: Link)
    requires Sorted(q)
    ensures Sorted(Insert(q, n))
  {
    if q == [] || q[0].x >= n.x {
    } else {
      InsertKeepsSorted(q[1..], n);
      InsertMembers(q[1..], n);
      var t := Insert(q[1..], n);
      forall j | 0 <= j < |t| ensures q[0].x <= t[j].x {
        assert t[j] in t;
      }
    }
  }

  /** The RUU stations of a program-order list. */
  ghost function RuuPart(rob: seq<nat>, r: nat): seq<nat> {
    if rob == [] then []
    else RuuPart(rob[..|rob| - 1], r) + if rob[|rob| - 1] < r then [rob[|rob| - 1]] else []
  }

  /** The LSQ stations of a program-order list. */
  ghost function LsqPart(rob: seq<nat>, r: nat): seq<nat> {
    if rob == [] then []
    else LsqPart(rob[..|rob| - 1], r) + if rob[|rob| - 1] < r then [] else [rob[|rob| - 1]]
  }

  lemma {:induction false} PartsOfConcat(a: seq<nat>, b: seq<nat>, r: nat)
    ensures RuuPart(a + b, r) == RuuPart(a, r) + RuuPart(b, r)
    ensures LsqPart(a + b, r) == LsqPart(a, r) + LsqPart(b, r)
  {
    if b == [] {
      assert a + b == a;
    } else {
      var b' := b[..|b| - 1];
      assert (a + b)[..|a + b| - 1] == a + b';
      PartsOfConcat(a, b', r);
    }
  }

  lemma PartsOfOne(x: nat, r: nat)
    ensures RuuPart([x], r) == if x < r then [x] else []
    ensures LsqPart([x], r) == if x < r then [] else [x]
  {
    assert [x][..0] == [];
  }

  lemma {:induction false} PartMembers(rob: seq<nat>, r: nat)
    ensures forall p :: p in RuuPart(rob, r) <==> p in rob && p < r
    ensures forall p :: p in LsqPart(rob, r) <==> p in rob && p >= r
  {
    if rob != [] {
      PartMembers(rob[..|rob| - 1], r);
      assert rob == rob[..|rob| - 1] + [rob[|rob| - 1]];
    }
  }

  lemma {:induction false} PartSizes(rob: seq<nat>, r: nat)
    ensures |RuuPart(rob, r)| + |LsqPart(rob, r)| == |rob|
  {
    if rob != [] { PartSizes(rob[..|rob| - 1], r); }
  }

  /** The contents of a circular buffer, oldest first. */
  ghost function Ring(base: nat, head: nat, num: nat, size: nat): (r: seq<nat>)
    requires 0 < size
    ensures |r| == num
  {
    seq(num, i requires 0 <= i < num => base + (head + i) % size)
  }

  lemma RingPopFront(base: nat, head: nat, num: nat, size: nat)
    requires 0 < size && 0 < num
    ensures Ring(base, head, num, size)[0] == base + head % size
    ensures Ring(base, head, num, size)[1..] == Ring(base, (head + 1) % size, num - 1, size)
  {
    var a, b := Ring(base, head, num, size), Ring(base, (head + 1) % size, num - 1, size);
    forall i | 0 <= i < num - 1 ensures a[1..][i] == b[i] {
      ModShift(head + 1, i, size);
    }
  }

  lemma RingPopBack(base: nat, head: nat, num: nat, size: nat)
    requires 0 < size && 0 < num
    ensures Ring(base, head, num, size)[..num - 1] == Ring(base, head, num - 1, size)
    ensures Ring(base, head, num, size)[num - 1] == base + (head + num - 1) % size
  {
  }

  /** Stepping a ring index back by one, as the C code writes it. */
  lemma StepBack(x: nat, size: nat)
    requires 0 < size
    ensures ((x + 1) % size + size - 1) % size == x % size
  {
    ModShift(x + 1, size - 1, size);
    ModAddMultiple(x, 1, size);
  }

  /** The oldest and youngest entries of a ring, from its head and tail. */
  lemma RingEnds(base: nat, head: nat, tail: nat, num: nat, size: nat)
    requires 0 < num && head < size && tail == (head + num) % size
    ensures Ring(base, head, num, size)[0] == base + head
    ensures Ring(base, head, num, size)[num - 1] == base + Prev(tail, size)
  {
    hide Ring, Prev;
    RingPopFront(base, head, num, size);
    RingPopBack(base, head, num, size);
    DivModUnique(head, 0, head, size);
    TailBack(head + num - 1, tail, size);
  }

  lemma TailBack(x: nat, tail: nat, size: nat)
    requires 0 < size && tail == (x + 1) % size
    ensures Prev(tail, size) == x % size
  {
    StepBack(x, size);
  }

  /** Dropping the youngest ring entry. */
  lemma RingDropLast(base: nat, head: nat, tail: nat, num: nat, size: nat)
    requires 0 < num && head < size && tail == (head + num) % size
    ensures Ring(base, head, num, size)[..num - 1] == Ring(base, head, num - 1, size)
    ensures Prev(tail, size) == (head + (num - 1)) % size
  {
    hide Ring;
    RingPopBack(base, head, num, size);
    StepBack(head + num - 1, size);
  }

  ghost predicate Distinct(q: seq<nat>) {
    forall i, j :: 0 <= i < j < |q| ==> q[i] != q[j]
  }

  lemma {:induction false} PartsDistinct(rob: seq<nat>, r: nat)
    requires Distinct(rob)
    ensures Distinct(RuuPart(rob, r)) && Distinct(LsqPart(rob, r))
  {
    if rob != [] {
      var rest, x := rob[..|rob| - 1], rob[|rob| - 1];
      PartsDistinct(rest, r);
      PartMembers(rest, r);
      assert x !in rest;
      forall i | 0 <= i < |RuuPart(rest, r)| ensures RuuPart(rest, r)[i] != x { assert RuuPart(rest, r)[i] in rest; }
      forall i | 0 <= i < |LsqPart(rest, r)| ensures LsqPart(rest, r)[i] != x { assert LsqPart(rest, r)[i] in rest; }
    }
  }

  /** Dropping the oldest ring entry. */
  lemma RingDropFirst(base: nat, head: nat, tail: nat, num: nat, size: nat)
    requires 0 < num && head < size && tail == (head + num) % size
    ensures Ring(base, head, num, size)[0] == base + head
    ensures Ring(base, head, num, size)[1..] == Ring(base, (head + 1) % size, num - 1, size)
    ensures tail == ((head + 1) % size + (num - 1)) % size
  {
    hide Ring;
    RingPopFront(base, head, num, size);
    DivModUnique(head, 0, head, size);
    ModShift(head + 1, num - 1, size);
  }

  /** Adding an entry at the tail. */
  lemma RingAdd(base: nat, head: nat, tail: nat, num: nat, size: nat)
    requires num < size && head < size && tail == (head + num) % size
    ensures Ring(base, head, num + 1, size) == Ring(base, head, num, size) + [base + tail]
    ensures (tail + 1) % size == (head + (num + 1)) % size
    ensures base + tail !in Ring(base, head, num, size)
  {
    ModShift(head + num, 1, size);
    forall i | 0 <= i < num ensures Ring(base, head, num, size)[i] != base + tail {
      ModDiffer(head + i, head + num, size);
    }
  }
}
