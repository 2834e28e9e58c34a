/** The main results about simulated memory: exact accesses, page accounting, and dumping then reloading pages. */
module PageTheorems {
  import opened Accesses
  import opened Arith
  import opened Buckets
  import opened PageState
  import opened PageProof

  // ---- mem_access ----

  lemma {:induction false} ReadBytesIs(m: Mem, a: nat, n: nat)
    requires Inv(m)
    ensures Shaped(m)
    ensures var (d, s) := ReadBytes(m, a, n);
            && Inv(d) && SameBytes(m, d) && d.pageCount == m.pageCount
            && forall i :: 0 <= i < n ==> s[i] == ByteAt(m, Wrap(a + i))
    decreases n
  {
    hide Inv, ReadByte, ByteAt, Held, Wrap;
    InvShaped(m);
    if n > 0 {
      ReadByteIs(m, Wrap(a));
      var (m1, b) := ReadByte(m, Wrap(a));
      ReadBytesIs(m1, a + 1, n - 1);
      var (d, s) := ReadBytes(m1, a + 1, n - 1);
      InvShaped(d);
      SameTrans(m, m1, d);
      forall i | 0 <= i < n ensures ([b] + s)[i] == ByteAt(m, Wrap(a + i)) {
        if i > 0 {
          assert a + 1 + (i - 1) == a + i;
          SameAt(m, m1, Wrap(a + i));
        }
      }
    }
  }

  /** Where b lies in the (wrapping) range of n bytes from a, if it does. */
  function Within(a: nat, n: nat, b: Addr): (k: int)
    requires n <= 0x1_0000_0000
    ensures -1 <= k < n
  {
    var d := (b - a) % 0x1_0000_0000;
    if d < n then d else -1
  }

  /** The flat memory after bytes are written from a on. */
  ghost predicate Overwritten(m: Mem, d: Mem, a: nat, bytes: seq<Byte>)
    requires Shaped(m) && Shaped(d) && |bytes| <= 0x1_0000_0000
  {
    forall b: Addr :: ByteAt(d, b) == var k := Within(a, |bytes|, b); if k >= 0 then bytes[k] else ByteAt(m, b)
  }

  lemma WithinStep(a: nat, n: nat, b: Addr)
    requires 0 < n <= 0x1_0000_0000
    ensures b == Wrap(a) ==> Within(a, n, b) == 0 && Within(a + 1, n - 1, b) == -1
    ensures b != Wrap(a) ==> Within(a, n, b) == if Within(a + 1, n - 1, b) >= 0 then Within(a + 1, n - 1, b) + 1 else -1
  {
    var m := 0x1_0000_0000;
    var x, y := (b - a) % m, (b - a - 1) % m;
    if x == 0 {
      assert b == Wrap(a) by { DivModUnique(a, a / m, a % m, m); }
    } else {
      DivModUnique(b - a - 1, (b - a) / m, x - 1, m);
    }
    if b == Wrap(a) {
      assert b - a == -(a / m) * m;
      DivModUnique(b - a, -(a / m), 0, m);
      DivModUnique(b - a - 1, -(a / m) - 1, m - 1, m);
    }
  }

  lemma {:induction false} WriteBytesIs(m: Mem, a: nat, bytes: seq<Byte>)
    requires Inv(m) && |bytes| <= 0x1_0000_0000
    ensures Shaped(m) && Inv(WriteBytes(m, a, bytes)) && Overwritten(m, WriteBytes(m, a, bytes), a, bytes)
    decreases |bytes|
  {
    hide Inv, WriteByte, ByteAt, Wrap, Within, Held;
    InvShaped(m);
    if bytes != [] {
      WriteByteIs(m, Wrap(a), bytes[0]);
      var m1 := WriteByte(m, Wrap(a), bytes[0]);
      WriteBytesIs(m1, a + 1, bytes[1..]);
      forall b: Addr
        ensures ByteAt(WriteBytes(m, a, bytes), b) ==
                var k := Within(a, |bytes|, b); if k >= 0 then bytes[k] else ByteAt(m, b)
      {
        WithinStep(a, |bytes|, b);
      }
    } else {
      forall b: Addr ensures Within(a, 0, b) < 0 { WithinNone(a, b); }
    }
  }

  lemma WithinNone(a: nat, b: Addr)
    ensures Within(a, 0, b) == -1
  {
  }

  /** A legal access does not wrap: it stays inside one page. */
  lemma LegalInPage(a: Addr, n: nat)
    requires Check(a, n) == NoFault
    ensures a + n <= 0x1_0000_0000
  {
    if n > 0 {
      PagePower();
      PowerDivides(n, 12);
      MultipleOfPower(a, n);
    }
  }

  function Pow2(k: nat): nat { if k == 0 then 1 else 2 * Pow2(k - 1) }

  lemma PagePower()
    ensures Pow2(12) == PAGE_SIZE
  {
    assert Pow2(2) == 4;
    assert Pow2(4) == 16;
    assert Pow2(6) == 64;
    assert Pow2(8) == 256;
    assert Pow2(10) == 1024;
  }

  /** A power of two up to 2^k divides 2^k. */
  lemma {:induction false} PowerDivides(n: nat, k: nat)
    requires 0 < n && PowerOfTwo(n) && n <= Pow2(k)
    ensures Pow2(k) % n == 0
    decreases k
  {
    if n > 1 {
      assert k > 0;
      PowerDivides(n / 2, k - 1);
      DoubleDivides(Pow2(k - 1), n / 2);
    }
  }

  lemma DoubleDivides(p: nat, h: nat)
    requires 0 < h && p % h == 0
    ensures 2 * p % (2 * h) == 0
  {
    assert p == p / h * h;
    assert 2 * p == p / h * (2 * h);
    DivModUnique(2 * p, p / h, 0, 2 * h);
  }

  lemma MultipleOfPower(a: Addr, n: nat)
    requires 0 < n && a % n == 0 && PAGE_SIZE % n == 0
    ensures a + n <= 0x1_0000_0000
  {
    var p, q := 0x1_0000_0000, 0x10_0000 * (PAGE_SIZE / n);
    assert a == a / n * n && PAGE_SIZE == PAGE_SIZE / n * n;
    assert q * n == p by { assert 0x10_0000 * (PAGE_SIZE / n) * n == 0x10_0000 * (PAGE_SIZE / n * n); }
    assert (q - a / n) * n == p - a;
    PositiveFactor(q - a / n, n);
    MulAtLeast(q - a / n, n);
  }

  /** mem_access faults exactly on a size that is not a power of two or exceeds a page, or on misalignment, and
      then does nothing; otherwise it reads or writes exactly its bytes, and only writes allocate. */
  lemma AccessIs(m: Mem, cmd: Command, a: Addr)
    requires Inv(m)
    ensures Shaped(m)
    ensures var r := Access(m, cmd, a);
            && r.fault == Check(a, Size(cmd)) && Inv(r.m)
            && (r.fault != NoFault ==> r.m == m)
            && (r.fault == NoFault && cmd.Read? ==>
                  && SameBytes(m, r.m) && r.m.pageCount == m.pageCount && |r.bytes| == cmd.n && a + cmd.n <= 0x1_0000_0000
                  && forall i :: 0 <= i < cmd.n ==> r.bytes[i] == ByteAt(m, a + i))
            && (r.fault == NoFault && cmd.Write? ==>
                  forall b: Addr :: ByteAt(r.m, b) == if a <= b < a + |cmd.bytes| then cmd.bytes[b - a] else ByteAt(m, b))
  {
    hide Inv, Check, ByteAt, Held, ReadBytes, WriteBytes;
    InvShaped(m);
    if Check(a, Size(cmd)) == NoFault {
      LegalInPage(a, Size(cmd));
      if cmd.Read? {
        ReadBytesIs(m, a, cmd.n);
      } else {
        WriteBytesIs(m, a, cmd.bytes);
        forall b: Addr
          ensures ByteAt(WriteBytes(m, a, cmd.bytes), b) == if a <= b < a + |cmd.bytes| then cmd.bytes[b - a] else ByteAt(m, b)
        {
          WithinFlat(a, |cmd.bytes|, b);
        }
      }
    }
  }

  lemma WithinFlat(a: Addr, n: nat, b: Addr)
    requires a + n <= 0x1_0000_0000
    ensures Within(a, n, b) == if a <= b < a + n then b - a else -1
  {
    var m := 0x1_0000_0000;
    if b >= a { DivModUnique(b - a, 0, b - a, m); } else { DivModUnique(b - a, -1, b - a + m, m); }
  }

  // ---- checkpoints ----

  predicate Covers(p: PageImage, a: nat) { p.base <= a < p.base + |p.data| }

  /** The byte at a after the images are written in order over `was`. */
  function Flat(d: seq<PageImage>, a: nat, was: Byte): Byte
    decreases |d|
  {
    if d == [] then was else Flat(d[1..], a, if Covers(d[0], a) then d[0].data[a - d[0].base] else was)
  }

  lemma {:induction false} FlatConcat(x: seq<PageImage>, y: seq<PageImage>, a: nat, was: Byte)
    ensures Flat(x + y, a, was) == Flat(y, a, Flat(x, a, was))
    decreases |x|
  {
    if x == [] {
      assert x + y == y;
    } else {
      assert (x + y)[1..] == x[1..] + y;
      FlatConcat(x[1..], y, a, if Covers(x[0], a) then x[0].data[a - x[0].base] else was);
    }
  }

  /** The images of one bucket show what the bucket maps. */
  lemma {:induction false} BucketFlat(q: seq<Pte>, i: nat, a: Addr, was: Byte)
    requires BucketOk(q, i) && i < PTAB_SIZE
    ensures Flat(DumpBucket(q, i), a, was) ==
            if SetOf(a) == i && TagOf(a) in ChainMap(q) && |ChainMap(q)[TagOf(a)]| == PAGE_SIZE
            then ChainMap(q)[TagOf(a)][Offset(a)] else was
    decreases |q|
  {
    hide SetOf, TagOf, Offset, PteAddr;
    if q != [] {
      PageRange(q[0].key, i, a);
      var p := PageImage(PteAddr(q[0].key, i), q[0].val);
      var now := if Covers(p, a) then p.data[a - p.base] else was;
      assert ([p] + DumpBucket(q[1..], i))[1..] == DumpBucket(q[1..], i);
      BucketFlat(q[1..], i, a, now);
      FirstAlone(q);
    }
  }

  lemma FirstAlone(q: seq<Pte>)
    requires Unique(q) && q != []
    ensures q[0].key !in ChainMap(q[1..])
  {
    ChainMapIs(q[1..]);
  }

  lemma {:induction false} DumpFlat(m: Mem, i: nat, a: Addr, was: Byte)
    requires Inv(m) && i <= PTAB_SIZE && |m.ptab| == PTAB_SIZE
    ensures Shaped(m) && Flat(DumpFrom(m.ptab, i), a, was) == if SetOf(a) >= i && Held(m, a) then ByteAt(m, a) else was
    decreases PTAB_SIZE - i
  {
    hide SetOf, TagOf, Offset, ChainMap, Inv, BucketOk, Flat, DumpBucket;
    InvShaped(m);
    if i < PTAB_SIZE {
      BucketAt(m, i);
      var d := DumpBucket(m.ptab[i], i);
      FlatConcat(d, DumpFrom(m.ptab, i + 1), a, was);
      BucketFlat(m.ptab[i], i, a, was);
      DumpFlat(m, i + 1, a, Flat(d, a, was));
      HeldSize(m, a);
    } else {
      FlatNone(a, was);
    }
  }

  lemma FlatNone(a: Addr, was: Byte)
    ensures Flat([], a, was) == was
  {
  }

  lemma HeldSize(m: Mem, a: Addr)
    requires Inv(m)
    ensures Shaped(m) && (Held(m, a) ==> |ChainMap(m.ptab[SetOf(a)])[TagOf(a)]| == PAGE_SIZE)
  {
    hide SetOf, TagOf, PteAddr, ChainMap;
    InvShaped(m);
    var q := m.ptab[SetOf(a)];
    BucketAt(m, SetOf(a));
    ChainMapIs(q);
    if Held(m, a) {
      var j :| 0 <= j < |q| && q[j].key == TagOf(a);
    }
  }

  /** Page images as MEM_FORALL produces them: whole pages inside the address space. */
  ghost predicate Images(d: seq<PageImage>) {
    forall k :: 0 <= k < |d| ==> |d[k].data| == PAGE_SIZE && d[k].base + PAGE_SIZE <= 0x1_0000_0000
  }

  lemma {:induction false} ReloadIs(m: Mem, d: seq<PageImage>, a: Addr)
    requires Inv(m) && Images(d)
    ensures Shaped(m) && Inv(Reload(m, d)) && ByteAt(Reload(m, d), a) == Flat(d, a, ByteAt(m, a))
    decreases |d|
  {
    hide Inv, WriteBytes, ByteAt, Overwritten;
    InvShaped(m);
    if d != [] {
      WriteBytesIs(m, d[0].base, d[0].data);
      var m1 := WriteBytes(m, d[0].base, d[0].data);
      ImageWritten(m, m1, d[0], a);
      ReloadIs(m1, d[1..], a);
    }
  }

  lemma ImageWritten(m: Mem, d: Mem, p: PageImage, a: Addr)
    requires Shaped(m) && Shaped(d) && |p.data| == PAGE_SIZE && p.base + PAGE_SIZE <= 0x1_0000_0000
    requires Overwritten(m, d, p.base, p.data)
    ensures ByteAt(d, a) == if Covers(p, a) then p.data[a - p.base] else ByteAt(m, a)
  {
    hide ByteAt, Within;
    WithinFlat(p.base, |p.data|, a);
  }

  lemma {:induction false} BucketImages(q: seq<Pte>, i: nat)
    requires BucketOk(q, i)
    ensures Images(DumpBucket(q, i)) && |DumpBucket(q, i)| == |q|
    ensures forall k :: 0 <= k < |q| ==> DumpBucket(q, i)[k].base == PteAddr(q[k].key, i)
  {
    hide PteAddr;
    if q != [] { BucketImages(q[1..], i); }
  }

  lemma {:induction false} DumpImages(m: Mem, i: nat)
    requires Inv(m) && i <= PTAB_SIZE && |m.ptab| == PTAB_SIZE
    ensures Images(DumpFrom(m.ptab, i)) && |DumpFrom(m.ptab, i)| == Pages(m.ptab, PTAB_SIZE) - Pages(m.ptab, i)
    decreases PTAB_SIZE - i
  {
    hide Inv, BucketOk, DumpBucket;
    if i < PTAB_SIZE {
      BucketAt(m, i);
      BucketImages(m.ptab[i], i);
      DumpImages(m, i + 1);
    }
  }

  lemma InitInv()
    ensures Inv(Init()) && forall a: Addr :: ByteAt(Init(), a) == 0 && !Held(Init(), a)
  {
    hide SetOf, TagOf, Offset;
    NoPages(PTAB_SIZE);
  }

  lemma {:induction false} NoPages(n: nat)
    requires n <= PTAB_SIZE
    ensures Pages(EmptyTable(), n) == 0
  {
    if n > 0 { NoPages(n - 1); }
  }

  /** Dumping all pages and reloading them into empty memory restores every byte. */
  lemma CheckpointRestores(m: Mem, a: Addr)
    requires Inv(m)
    ensures |m.ptab| == PTAB_SIZE && Shaped(m)
    ensures Inv(Reload(Init(), Dump(m))) && ByteAt(Reload(Init(), Dump(m)), a) == ByteAt(m, a)
  {
    hide Inv, Held, SetOf, TagOf, Offset, DumpFrom, Init, Reload, Images;
    InvShaped(m);
    InitInv();
    DumpImages(m, 0);
    ReloadIs(Init(), Dump(m), a);
    DumpFlat(m, 0, a, 0);
  }

  // ---- each page once ----

  /** Every image from bucket i on is the page of some (tag, s) with s at least i, at its true base. */
  lemma {:induction false} DumpBases(m: Mem, i: nat, k: nat)
    requires Inv(m) && i <= PTAB_SIZE && |m.ptab| == PTAB_SIZE && k < |DumpFrom(m.ptab, i)|
    ensures var b := DumpFrom(m.ptab, i)[k].base;
            b < 0x1_0000_0000 && Offset(b) == 0 && SetOf(b) >= i && Shaped(m) && Held(m, b)
    decreases PTAB_SIZE - i
  {
    hide Inv, BucketOk, DumpBucket, SetOf, TagOf, Offset, PteAddr, ChainMap;
    InvShaped(m);
    if i < PTAB_SIZE {
      BucketAt(m, i);
      BucketImages(m.ptab[i], i);
      if k < |m.ptab[i]| { BucketBase(m.ptab[i], i, k); } else { DumpBases(m, i + 1, k - |m.ptab[i]|); }
    }
  }

  lemma BucketBase(q: seq<Pte>, i: nat, k: nat)
    requires BucketOk(q, i) && k < |q| && i < PTAB_SIZE
    ensures var b := PteAddr(q[k].key, i);
            b < 0x1_0000_0000 && Offset(b) == 0 && SetOf(b) == i && TagOf(b) == q[k].key && q[k].key in ChainMap(q)
  {
    hide SetOf, TagOf, ChainMap;
    ChainMapIs(q);
    PageRange(q[k].key, i, PteAddr(q[k].key, i));
    DivModUnique(PteAddr(q[k].key, i), q[k].key * PTAB_SIZE + i, 0, PAGE_SIZE);
  }

  lemma {:induction false} DumpDistinct(m: Mem, i: nat, j: nat, k: nat)
    requires Inv(m) && i <= PTAB_SIZE && |m.ptab| == PTAB_SIZE && j < k < |DumpFrom(m.ptab, i)|
    ensures DumpFrom(m.ptab, i)[j].base != DumpFrom(m.ptab, i)[k].base
    decreases PTAB_SIZE - i
  {
    hide Inv, BucketOk, DumpBucket, SetOf, TagOf, Offset, PteAddr, ChainMap;
    if i < PTAB_SIZE {
      BucketAt(m, i);
      var q := m.ptab[i];
      BucketImages(q, i);
      if j < |q| { BucketBase(q, i, j); }
      if k < |q| {
        BucketBase(q, i, k);
        KeysDiffer(q, j, k);
      } else if j < |q| {
        DumpBases(m, i + 1, k - |q|);
      } else {
        DumpDistinct(m, i + 1, j - |q|, k - |q|);
      }
    }
  }

  lemma KeysDiffer(q: seq<Pte>, j: nat, k: nat)
    requires Unique(q) && j < k < |q|
    ensures q[j].key != q[k].key
  {
  }

  /** MEM_FORALL visits page_count pages, each once and at its true base address. */
  lemma VisitsEachPageOnce(m: Mem)
    requires Inv(m)
    ensures |m.ptab| == PTAB_SIZE && Shaped(m) && |Dump(m)| == m.pageCount
    ensures forall j, k :: 0 <= j < k < |Dump(m)| ==> Dump(m)[j].base != Dump(m)[k].base
    ensures forall k :: 0 <= k < |Dump(m)| ==>
              var b := Dump(m)[k].base; b < 0x1_0000_0000 && Offset(b) == 0 && Held(m, b)
  {
    hide Held, DumpFrom, Offset, BucketOk;
    DumpImages(m, 0);
    forall j, k | 0 <= j < k < |Dump(m)| ensures Dump(m)[j].base != Dump(m)[k].base { DumpDistinct(m, 0, j, k); }
    forall k | 0 <= k < |Dump(m)|
      ensures Dump(m)[k].base < 0x1_0000_0000 && Offset(Dump(m)[k].base) == 0 && Held(m, Dump(m)[k].base)
    {
      DumpBases(m, 0, k);
    }
  }
}
