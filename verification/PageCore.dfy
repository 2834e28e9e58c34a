/** Simulated memory as memory.c keeps it: a hash table of pages, relinked, grown and written in place. */
module PageCore {
  import opened Accesses
  import opened Buckets
  import opened PageState
  import opened PageProof
  import opened PageTheorems

  class MemSpace {
    const ptab: array<seq<Pte>>
    var pageCount: nat
    var misses: nat
    var accesses: nat

    ghost function Snap(): Mem
      reads this, ptab
    {
      Mem(ptab[..], pageCount, misses, accesses)
    }

    ghost predicate Valid()
      reads this, ptab
    {
      Inv(Snap())
    }

    /** mem_create and mem_init */
    constructor ()
      ensures Snap() == PageState.Init() && Valid() && fresh(ptab)
    {
      ptab := new seq<Pte>[PTAB_SIZE](_ => []);
      pageCount, misses, accesses := 0, 0, 0;
      new;
      assert ptab[..] == EmptyTable();
      InitInv();
    }

    method SetBucket(i: nat, q: seq<Pte>)
      requires i < ptab.Length
      modifies ptab
      ensures Snap() == old(Snap()).(ptab := old(ptab[..])[i := q])
    {
      ptab[i] := q;
      assert ptab[..] == old(ptab[..])[i := q];
    }

    /** mem_translate */
    method MemTranslate(a: Addr) returns (found: bool)
      requires Shaped(Snap())
      modifies this, ptab
      ensures Translate(old(Snap()), a) == (Snap(), found)
    {
      hide Find, Searched, SetOf, TagOf;
      misses, accesses := misses + 1, accesses + 1;
      var q;
      q, found := SearchBucket(ptab[SetOf(a)], TagOf(a));
      SetBucket(SetOf(a), q);
    }

    /** MEM_PAGE */
    method MemPage(a: Addr) returns (found: bool)
      requires Shaped(Snap())
      modifies this, ptab
      ensures Page(old(Snap()), a) == (Snap(), found)
    {
      hide SetOf, TagOf, Translate;
      var q := ptab[SetOf(a)];
      if q != [] && q[0].key == TagOf(a) {
        accesses := accesses + 1;
        return true;
      }
      found := MemTranslate(a);
    }

    /** mem_newpage */
    method MemNewPage(a: Addr)
      requires Shaped(Snap())
      modifies this, ptab
      ensures Snap() == NewPage(old(Snap()), a)
    {
      hide SetOf, TagOf;
      var page: seq<Byte> := seq(PAGE_SIZE, _ => 0);
      SetBucket(SetOf(a), [Node(TagOf(a), page)] + ptab[SetOf(a)]);
      pageCount := pageCount + 1;
    }

    /** MEM_TICKLE */
    method MemTickle(a: Addr)
      requires Shaped(Snap())
      modifies this, ptab
      ensures Snap() == Tickle(old(Snap()), a)
    {
      hide Page, NewPage;
      var found := MemPage(a);
      if !found { MemNewPage(a); }
    }

    /** MEM_READ_BYTE */
    method MemReadByte(a: Addr) returns (b: Byte)
      requires Shaped(Snap())
      modifies this, ptab
      ensures ReadByte(old(Snap()), a) == (Snap(), b)
    {
      hide Page, SetOf, TagOf, Offset;
      var found := MemPage(a);
      if !found { return 0; }
      found := MemPage(a);
      b := if found then ptab[SetOf(a)][0].val[Offset(a)] else 0;
    }

    /** MEM_WRITE_BYTE */
    method MemWriteByte(a: Addr, v: Byte)
      requires Shaped(Snap())
      modifies this, ptab
      ensures Snap() == WriteByte(old(Snap()), a, v)
    {
      hide Page, Tickle, SetOf, TagOf, Offset;
      MemTickle(a);
      var found := MemPage(a);
      if found {
        var q := ptab[SetOf(a)];
        SetBucket(SetOf(a), [q[0].(val := q[0].val[Offset(a) := v])] + q[1..]);
      }
    }

    /** mem_access: faults exactly when its checks say, and otherwise reads or writes exactly its bytes. */
    method MemAccess(cmd: Command, a: Addr) returns (fault: Fault, bytes: seq<Byte>)
      requires Valid()
      modifies this, ptab
      ensures Valid() && Shaped(old(Snap())) && Access(old(Snap()), cmd, a) == Result(Snap(), bytes, fault)
      ensures fault == Check(a, Size(cmd)) && (fault != NoFault ==> Snap() == old(Snap()))
      ensures fault == NoFault && cmd.Read? ==>
                && |bytes| == cmd.n && a + cmd.n <= 0x1_0000_0000
                && forall i :: 0 <= i < cmd.n ==> bytes[i] == ByteAt(old(Snap()), a + i)
      ensures fault == NoFault && cmd.Write? ==>
                forall b: Addr :: ByteAt(Snap(), b) ==
                                  if a <= b < a + |cmd.bytes| then cmd.bytes[b - a] else ByteAt(old(Snap()), b)
    {
      hide Inv, Check, ReadBytes, WriteBytes, ByteAt, SameBytes;
      AccessIs(Snap(), cmd, a);
      InvShaped(Snap());
      fault, bytes := Check(a, Size(cmd)), [];
      if fault != NoFault { return; }
      if cmd.Read? {
        bytes := CopyOut(a, cmd.n);
      } else {
        CopyIn(a, cmd.bytes);
      }
    }

    /** The read loop of mem_access. */
    method CopyOut(a: nat, n: nat) returns (bytes: seq<Byte>)
      requires Shaped(Snap())
      modifies this, ptab
      ensures ReadBytes(old(Snap()), a, n) == (Snap(), bytes)
    {
      hide ReadByte, Wrap;
      bytes := [];
      assert forall rest: seq<Byte> :: [] + rest == rest;
      for k := 0 to n
        invariant Shaped(Snap())
        invariant var r := ReadBytes(Snap(), a + k, n - k); ReadBytes(old(Snap()), a, n) == (r.0, bytes + r.1)
      {
        var b := MemReadByte(Wrap(a + k));
        assert forall rest: seq<Byte> :: bytes + ([b] + rest) == (bytes + [b]) + rest;
        bytes := bytes + [b];
      }
      assert bytes + [] == bytes;
    }

    /** The write loop of mem_access, and of eio_read_chkpt. */
    method CopyIn(a: nat, bytes: seq<Byte>)
      requires Shaped(Snap())
      modifies this, ptab
      ensures Shaped(Snap()) && Snap() == WriteBytes(old(Snap()), a, bytes)
    {
      hide WriteByte, Wrap;
      for k := 0 to |bytes|
        invariant Shaped(Snap()) && WriteBytes(Snap(), a + k, bytes[k..]) == WriteBytes(old(Snap()), a, bytes)
      {
        MemWriteByte(Wrap(a + k), bytes[k]);
        assert bytes[k..][1..] == bytes[k + 1..];
      }
    }

    /** The page dump of eio_write_chkpt: MEM_FORALL with MEM_PTE_ADDR. */
    method DumpPages() returns (d: seq<PageImage>)
      requires Valid()
      ensures |ptab[..]| == PTAB_SIZE && d == Dump(Snap()) && |d| == pageCount
    {
      hide Inv, Dump, DumpBucket;
      InvShaped(Snap());
      VisitsEachPageOnce(Snap());
      d := [];
      assert Dump(Snap()) == DumpFrom(ptab[..], 0) by { DumpIs(Snap()); }
      for i := 0 to PTAB_SIZE
        invariant d + DumpFrom(ptab[..], i) == DumpFrom(ptab[..], 0)
      {
        var images := DumpChain(ptab[i], i);
        assert d + (images + DumpFrom(ptab[..], i + 1)) == (d + images) + DumpFrom(ptab[..], i + 1);
        d := d + images;
      }
    }

    /** The page loop of eio_read_chkpt. */
    method ReloadPages(d: seq<PageImage>)
      requires Shaped(Snap())
      modifies this, ptab
      ensures Snap() == Reload(old(Snap()), d)
    {
      hide WriteBytes;
      for k := 0 to |d|
        invariant Shaped(Snap()) && Reload(Snap(), d[k..]) == Reload(old(Snap()), d)
      {
        CopyIn(d[k].base, d[k].data);
        assert d[k..][1..] == d[k + 1..];
      }
    }
  }

  lemma DumpIs(m: Mem)
    ensures Dump(m) == DumpFrom(m.ptab, 0)
  {
  }

  /** The inner loop of MEM_FORALL. */
  method DumpChain(q: seq<Pte>, i: nat) returns (d: seq<PageImage>)
    ensures d == DumpBucket(q, i)
  {
    d := [];
    assert q[0..] == q;
    for k := 0 to |q|
      invariant d + DumpBucket(q[k..], i) == DumpBucket(q, i)
    {
      assert q[k..][1..] == q[k + 1..];
      var p := PageImage(PteAddr(q[k].key, i), q[k].val);
      assert d + ([p] + DumpBucket(q[k + 1..], i)) == (d + [p]) + DumpBucket(q[k + 1..], i);
      d := d + [p];
    }
  }
}
