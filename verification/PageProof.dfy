/** The page table refines a flat byte map that is zero where nothing was written. */
module PageProof {
  import opened Accesses
  import opened Arith
  import opened Buckets
  import opened PageState

  // ---- addresses ----

  /** An address is in the page of (tag, i) exactly when it has that tag and set. */
  lemma PageRange(tag: nat, i: nat, a: Addr)
    requires i < PTAB_SIZE
    ensures PteAddr(tag, i) <= a < PteAddr(tag, i) + PAGE_SIZE <==> TagOf(a) == tag && SetOf(a) == i
    ensures TagOf(a) == tag && SetOf(a) == i ==> a == PteAddr(tag, i) + Offset(a)
  {
    var n := a / PAGE_SIZE;
    assert TagOf(a) == n / PTAB_SIZE by {
      DivModUnique(a, n / PTAB_SIZE, n % PTAB_SIZE * PAGE_SIZE + a % PAGE_SIZE, PAGE_SIZE * PTAB_SIZE);
    }
    assert n == n / PTAB_SIZE * PTAB_SIZE + n % PTAB_SIZE;
    if PteAddr(tag, i) <= a < PteAddr(tag, i) + PAGE_SIZE {
      DivModUnique(a, tag * PTAB_SIZE + i, a - PteAddr(tag, i), PAGE_SIZE);
      DivModUnique(n, tag, i, PTAB_SIZE);
    }
  }

  // ---- the invariant ----

  ghost predicate BucketOk(q: seq<Pte>, i: nat) {
    Unique(q) && forall j :: 0 <= j < |q| ==> |q[j].val| == PAGE_SIZE && PteAddr(q[j].key, i) + PAGE_SIZE <= 0x1_0000_0000
  }

  /** Pages in the first n buckets. */
  function Pages(ptab: seq<seq<Pte>>, n: nat): nat
    requires n <= |ptab|
  {
    if n == 0 then 0 else Pages(ptab, n - 1) + |ptab[n - 1]|
  }

  ghost predicate Inv(m: Mem) {
    && Shaped(m) && (forall i :: 0 <= i < PTAB_SIZE ==> BucketOk(m.ptab[i], i))
    && m.pageCount == Pages(m.ptab, PTAB_SIZE)
  }

  /** Is the page of an address allocated, and what does memory hold there? */
  ghost predicate Held(m: Mem, a: Addr)
    requires Shaped(m)
  {
    TagOf(a) in ChainMap(m.ptab[SetOf(a)])
  }

  ghost function ByteAt(m: Mem, a: Addr): Byte
    requires Shaped(m)
  {
    var q := m.ptab[SetOf(a)];
    if Held(m, a) && Offset(a) < |ChainMap(q)[TagOf(a)]| then ChainMap(q)[TagOf(a)][Offset(a)] else 0
  }

  lemma {:induction false} PagesUpdate(ptab: seq<seq<Pte>>, i: nat, q: seq<Pte>, n: nat)
    requires n <= |ptab| && i < |ptab|
    ensures Pages(ptab[i := q], n) == Pages(ptab, n) + if i < n then |q| - |ptab[i]| else 0
  {
    if n > 0 { PagesUpdate(ptab, i, q, n - 1); }
  }

  /** Only bucket i changes. */
  ghost predicate OnlyBucket(m: Mem, d: Mem, i: nat) {
    i < PTAB_SIZE && |m.ptab| == PTAB_SIZE && |d.ptab| == PTAB_SIZE && d.ptab == m.ptab[i := d.ptab[i]]
  }

  lemma BucketInv(m: Mem, d: Mem, i: nat)
    requires Inv(m) && OnlyBucket(m, d, i) && BucketOk(d.ptab[i], i)
    requires d.pageCount == m.pageCount + |d.ptab[i]| - |m.ptab[i]|
    ensures Inv(d)
  {
    hide Unique, PteAddr;
    PagesUpdate(m.ptab, i, d.ptab[i], PTAB_SIZE);
    forall k, j | 0 <= k < PTAB_SIZE && 0 <= j < |d.ptab[k]| ensures |d.ptab[k][j].val| == PAGE_SIZE {
      assert BucketOk(d.ptab[k], k);
    }
  }

  /** d shows the same bytes and pages as m. */
  ghost predicate SameBytes(m: Mem, d: Mem)
    requires Shaped(m) && Shaped(d)
  {
    forall a: Addr :: ByteAt(d, a) == ByteAt(m, a) && Held(d, a) == Held(m, a)
  }

  lemma SameMapSameBytes(m: Mem, d: Mem, i: nat)
    requires Shaped(m) && Shaped(d) && OnlyBucket(m, d, i) && ChainMap(d.ptab[i]) == ChainMap(m.ptab[i])
    ensures SameBytes(m, d)
  {
    hide SetOf, TagOf, Offset, ChainMap;
    forall a: Addr ensures ByteAt(d, a) == ByteAt(m, a) && Held(d, a) == Held(m, a) {
      assert SetOf(a) != i ==> d.ptab[SetOf(a)] == m.ptab[SetOf(a)];
    }
  }

  // ---- finding a page ----

  lemma SearchedOk(q: seq<Pte>, i: nat, t: nat)
    requires BucketOk(q, i)
    ensures BucketOk(Searched(q, t), i)
  {
    hide PteAddr, Unique, Searched;
    SearchedIs(q, t);
    SearchedNodes(q, t);
    var r := Searched(q, t);
    forall j | 0 <= j < |r| ensures |r[j].val| == PAGE_SIZE && PteAddr(r[j].key, i) + PAGE_SIZE <= 0x1_0000_0000 {
      assert r[j] in q;
    }
  }

  lemma BucketAt(m: Mem, i: nat)
    requires Inv(m) && i < PTAB_SIZE
    ensures Shaped(m) && BucketOk(m.ptab[i], i) && Unique(m.ptab[i])
  {
    hide PteAddr, Unique;
  }

  /** MEM_PAGE finds the page exactly when it is allocated, and changes nothing that is seen. */
  lemma PageIs(m: Mem, a: Addr)
    requires Inv(m)
    ensures var (d, found) := Page(m, a);
            && Inv(d) && SameBytes(m, d) && d.pageCount == m.pageCount && (found <==> Held(m, a))
            && (found ==> d.ptab[SetOf(a)] != [] && ChainMap(d.ptab[SetOf(a)])[TagOf(a)] == d.ptab[SetOf(a)][0].val)
  {
    hide SetOf, TagOf, Offset, ChainMap, Unique, Searched, SameBytes, Held, BucketOk, Inv;
    var i, t := SetOf(a), TagOf(a);
    BucketAt(m, i);
    var q := m.ptab[i];
    var (d, found) := Page(m, a);
    SearchedIs(q, t);
    FindIs(q, t);
    SearchedOk(q, i, t);
    HeldIs(m, a);
    if q != [] && q[0].key == t {
      SameTable(m, d);
      ChainMapIs(q);
    } else {
      assert OnlyBucket(m, d, i);
      BucketInv(m, d, i);
      SameMapSameBytes(m, d, i);
    }
  }

  lemma HeldIs(m: Mem, a: Addr)
    requires Shaped(m)
    ensures Held(m, a) <==> TagOf(a) in ChainMap(m.ptab[SetOf(a)])
  {
  }

  lemma SameTable(m: Mem, d: Mem)
    requires Inv(m) && d.ptab == m.ptab && d.pageCount == m.pageCount
    ensures Inv(d) && SameBytes(m, d)
  {
    hide BucketOk, SetOf, TagOf, Offset, ChainMap;
  }

  // ---- reading ----

  /** A read returns the byte, allocates nothing and changes nothing that is seen. */
  lemma ReadByteIs(m: Mem, a: Addr)
    requires Inv(m)
    ensures var (d, b) := ReadByte(m, a); Inv(d) && b == ByteAt(m, a) && SameBytes(m, d) && d.pageCount == m.pageCount
  {
    hide SetOf, TagOf, Offset, ChainMap, Inv, Page, SameBytes, Held;
    InvShaped(m);
    var (m1, found) := Page(m, a);
    PageIs(m, a);
    PageIs(m1, a);
    InvShaped(m1);
    InvShaped(Page(m1, a).0);
    SameAt(m, m1, a);
    SameAt(m1, Page(m1, a).0, a);
    SameTrans(m, m1, Page(m1, a).0);
    HeldIs(m, a);
    HeldIs(Page(m1, a).0, a);
    if found { FrontByte(Page(m1, a).0, a); }
  }

  lemma InvShaped(m: Mem)
    requires Inv(m)
    ensures Shaped(m)
  {
    hide BucketOk;
  }

  lemma SameAt(m: Mem, d: Mem, a: Addr)
    requires Shaped(m) && Shaped(d) && SameBytes(m, d)
    ensures ByteAt(d, a) == ByteAt(m, a) && Held(d, a) == Held(m, a)
  {
    hide ByteAt, Held;
  }

  lemma SameTrans(m: Mem, d: Mem, e: Mem)
    requires Shaped(m) && Shaped(d) && Shaped(e) && SameBytes(m, d) && SameBytes(d, e)
    ensures SameBytes(m, e)
  {
    hide ByteAt, Held;
  }

  lemma FrontByte(m: Mem, a: Addr)
    requires Shaped(m) && Held(m, a) && m.ptab[SetOf(a)] != []
    requires ChainMap(m.ptab[SetOf(a)])[TagOf(a)] == m.ptab[SetOf(a)][0].val
    ensures |m.ptab[SetOf(a)][0].val| == PAGE_SIZE && m.ptab[SetOf(a)][0].val[Offset(a)] == ByteAt(m, a)
  {
    hide SetOf, TagOf, Offset, ChainMap;
  }

  // ---- writing ----

  /** mem_newpage of an unallocated page shows zeros there and counts one more page. */
  lemma NewPageIs(m: Mem, a: Addr)
    requires Inv(m) && !Held(m, a)
    ensures var d := NewPage(m, a);
            && Inv(d) && Held(d, a) && d.pageCount == m.pageCount + 1
            && forall b: Addr :: ByteAt(d, b) == ByteAt(m, b)
  {
    hide SetOf, TagOf, Offset, ChainMap, Unique, Inv, PteAddr;
    var i, t := SetOf(a), TagOf(a);
    BucketAt(m, i);
    var q := m.ptab[i];
    var z: seq<Byte> := seq(PAGE_SIZE, _ => 0);
    var e: Pte := Node(t, z);
    PushHead(q, e);
    PageRange(t, i, a);
    TagSmall(a);
    var d := NewPage(m, a);
    assert d.ptab[i] == [e] + q;
    BucketInv(m, d, i);
    forall b: Addr ensures ByteAt(d, b) == ByteAt(m, b) {
      assert SetOf(b) != i ==> d.ptab[SetOf(b)] == m.ptab[SetOf(b)];
    }
  }

  lemma TagSmall(a: Addr)
    ensures PteAddr(TagOf(a), SetOf(a)) + PAGE_SIZE <= 0x1_0000_0000
  {
    PageRange(TagOf(a), SetOf(a), a);
    assert TagOf(a) < 32;
  }

  lemma TickleIs(m: Mem, a: Addr)
    requires Inv(m)
    ensures var d := Tickle(m, a);
            && Inv(d) && Held(d, a) && d.pageCount == m.pageCount + (if Held(m, a) then 0 else 1)
            && forall b: Addr :: ByteAt(d, b) == ByteAt(m, b)
  {
    hide SetOf, TagOf, Offset, ChainMap, Inv, Page, Held, NewPage, ByteAt;
    InvShaped(m);
    PageIs(m, a);
    var (m1, found) := Page(m, a);
    InvShaped(m1);
    SameAt(m, m1, a);
    if !found { NewPageIs(m1, a); }
  }

  lemma PokeIs(m: Mem, a: Addr, v: Byte)
    requires Inv(m) && m.ptab[SetOf(a)] != [] && m.ptab[SetOf(a)][0].key == TagOf(a)
    ensures var d := Poke(m, a, v);
            && Inv(d) && d.pageCount == m.pageCount
            && forall b: Addr :: ByteAt(d, b) == (if b == a then v else ByteAt(m, b)) && Held(d, b) == Held(m, b)
  {
    hide SetOf, TagOf, Offset, ChainMap, Unique, Inv, PteAddr;
    var i, t := SetOf(a), TagOf(a);
    BucketAt(m, i);
    var q := m.ptab[i];
    var page := q[0].val[Offset(a) := v];
    ChangeHead(q, page);
    ChainMapIs(q);
    var d := Poke(m, a, v);
    BucketInv(m, d, i);
    forall b: Addr ensures ByteAt(d, b) == (if b == a then v else ByteAt(m, b)) && Held(d, b) == Held(m, b) {
      assert SetOf(b) != i ==> d.ptab[SetOf(b)] == m.ptab[SetOf(b)];
      PageRange(t, i, a);
      PageRange(t, i, b);
    }
  }

  /** A write changes exactly its byte, and allocates its page if need be. */
  lemma WriteByteIs(m: Mem, a: Addr, v: Byte)
    requires Inv(m)
    ensures var d := WriteByte(m, a, v);
            && Inv(d) && d.pageCount == m.pageCount + (if Held(m, a) then 0 else 1)
            && forall b: Addr :: ByteAt(d, b) == if b == a then v else ByteAt(m, b)
  {
    hide SetOf, TagOf, Offset, ChainMap, Inv, Page, Held, Tickle, ByteAt, Poke;
    InvShaped(m);
    TickleIs(m, a);
    var m1 := Tickle(m, a);
    InvShaped(m1);
    PageIs(m1, a);
    var m2 := Page(m1, a).0;
    InvShaped(m2);
    PokeIs(m2, a, v);
    forall b: Addr ensures ByteAt(WriteByte(m, a, v), b) == if b == a then v else ByteAt(m, b) {
      SameAt(m1, m2, b);
    }
  }
}
