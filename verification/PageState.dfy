/** The inverted page table of memory.c and memory.h as one function per macro or routine. */
module PageState {
  import opened Accesses
  import opened Buckets

  const PTAB_SIZE: nat := 32768
  const PAGE_SIZE: nat := 4096

  /** mem_pte_t: tag and page */
  type Pte = Node<nat, seq<Byte>>

  datatype Mem = Mem(ptab: seq<seq<Pte>>, pageCount: nat, misses: nat, accesses: nat)

  /** MEM_PTAB_SET, MEM_PTAB_TAG and MEM_OFFSET */
  function SetOf(a: Addr): (s: nat) ensures s < PTAB_SIZE { a / PAGE_SIZE % PTAB_SIZE }
  function TagOf(a: Addr): nat { a / (PAGE_SIZE * PTAB_SIZE) }
  function Offset(a: Addr): (o: nat) ensures o < PAGE_SIZE { a % PAGE_SIZE }

  /** MEM_PTE_ADDR */
  function PteAddr(tag: nat, i: nat): nat { tag * (PAGE_SIZE * PTAB_SIZE) + i * PAGE_SIZE }

  predicate Shaped(m: Mem) {
    && |m.ptab| == PTAB_SIZE
    && forall i, j :: 0 <= i < PTAB_SIZE && 0 <= j < |m.ptab[i]| ==> |m.ptab[i][j].val| == PAGE_SIZE
  }

  function EmptyTable(): (q: seq<seq<Pte>>)
    ensures |q| == PTAB_SIZE
    ensures forall i {:trigger q[i]} :: 0 <= i < PTAB_SIZE ==> q[i] == []
  {
    seq(PTAB_SIZE, _ => [])
  }

  /** mem_init */
  function Init(): Mem { Mem(EmptyTable(), 0, 0, 0) }

  /** mem_translate: a page that is found is at the head of its bucket afterwards. */
  function Translate(m: Mem, a: Addr): (r: (Mem, bool))
    requires Shaped(m)
    ensures |r.0.ptab| == PTAB_SIZE
  {
    var q := m.ptab[SetOf(a)];
    (m.(ptab := m.ptab[SetOf(a) := Searched(q, TagOf(a))], misses := m.misses + 1, accesses := m.accesses + 1),
     Find(q, TagOf(a)) >= 0)
  }

  /** MEM_PAGE: is there a page?  If so it is at the head of its bucket. */
  function Page(m: Mem, a: Addr): (r: (Mem, bool))
    requires Shaped(m)
    ensures |r.0.ptab| == PTAB_SIZE
    ensures r.1 ==> r.0.ptab[SetOf(a)] != [] && r.0.ptab[SetOf(a)][0].key == TagOf(a)
    ensures Shaped(r.0)
  {
    hide SetOf, TagOf;
    var q := m.ptab[SetOf(a)];
    if q != [] && q[0].key == TagOf(a) then (m.(accesses := m.accesses + 1), true)
    else
      SearchedNodes(q, TagOf(a));
      Translate(m, a)
  }

  /** mem_newpage */
  function NewPage(m: Mem, a: Addr): (r: Mem)
    requires Shaped(m)
    ensures Shaped(r) && r.ptab[SetOf(a)] != [] && r.ptab[SetOf(a)][0].key == TagOf(a)
  {
    m.(ptab := m.ptab[SetOf(a) := [Node(TagOf(a), seq(PAGE_SIZE, _ => 0))] + m.ptab[SetOf(a)]],
       pageCount := m.pageCount + 1)
  }

  /** MEM_TICKLE */
  function Tickle(m: Mem, a: Addr): (r: Mem)
    requires Shaped(m)
    ensures Shaped(r)
  {
    var (m1, found) := Page(m, a);
    if found then m1 else NewPage(m1, a)
  }

  /** MEM_READ_BYTE */
  function ReadByte(m: Mem, a: Addr): (r: (Mem, Byte))
    requires Shaped(m)
    ensures Shaped(r.0)
  {
    hide SetOf, TagOf, Translate, Page;
    var (m1, found) := Page(m, a);
    if !found then (m1, 0)
    else
      var (m2, again) := Page(m1, a);
      (m2, if again then m2.ptab[SetOf(a)][0].val[Offset(a)] else 0)
  }

  /** Store into the page at the head of a bucket. */
  function Poke(m: Mem, a: Addr, v: Byte): (r: Mem)
    requires Shaped(m) && m.ptab[SetOf(a)] != []
    ensures Shaped(r)
  {
    hide SetOf, TagOf, Offset;
    var q := m.ptab[SetOf(a)];
    m.(ptab := m.ptab[SetOf(a) := [q[0].(val := q[0].val[Offset(a) := v])] + q[1..]])
  }

  /** MEM_WRITE_BYTE */
  function WriteByte(m: Mem, a: Addr, v: Byte): (r: Mem)
    requires Shaped(m)
    ensures Shaped(r)
  {
    hide SetOf, TagOf, Translate, Page, Tickle;
    var (m2, found) := Page(Tickle(m, a), a);
    if found then Poke(m2, a, v) else m2
  }

  lemma SearchedNodes(q: seq<Pte>, t: nat)
    ensures forall i :: 0 <= i < |q| ==> Searched(q, t)[i] in q
    ensures Find(q, t) >= 0 ==> Searched(q, t) != [] && Searched(q, t)[0].key == t
  {
    var k := Find(q, t);
    if k > 0 {
      forall i | 0 <= i < |q| ensures ToFront(q, k)[i] in q { ToFrontAt(q, k, i); }
    }
  }

  // ---- mem_access ----

  datatype Fault = NoFault | AccessFault | AlignmentFault

  /** The checks; a size of 0 makes the alignment mask all ones. */
  function Check(a: Addr, n: nat): Fault {
    if !PowerOfTwo(n) || n > PAGE_SIZE then AccessFault
    else if (if n == 0 then a != 0 else a % n != 0) then AlignmentFault
    else NoFault
  }

  /** The address arithmetic is modulo 2^32. */
  function Wrap(a: nat): Addr { a % 0x1_0000_0000 }

  function ReadBytes(m: Mem, a: nat, n: nat): (r: (Mem, seq<Byte>))
    requires Shaped(m)
    ensures Shaped(r.0) && |r.1| == n
    decreases n
  {
    if n == 0 then (m, [])
    else
      var (m1, b) := ReadByte(m, Wrap(a));
      var rest := ReadBytes(m1, a + 1, n - 1);
      (rest.0, [b] + rest.1)
  }

  function WriteBytes(m: Mem, a: nat, bytes: seq<Byte>): (r: Mem)
    requires Shaped(m)
    ensures Shaped(r)
    decreases |bytes|
  {
    if bytes == [] then m else WriteBytes(WriteByte(m, Wrap(a), bytes[0]), a + 1, bytes[1..])
  }

  datatype Result = Result(m: Mem, bytes: seq<Byte>, fault: Fault)

  function Access(m: Mem, cmd: Command, a: Addr): (r: Result)
    requires Shaped(m)
    ensures Shaped(r.m)
  {
    if Check(a, Size(cmd)) != NoFault then Result(m, [], Check(a, Size(cmd)))
    else if cmd.Read? then Result(ReadBytes(m, a, cmd.n).0, ReadBytes(m, a, cmd.n).1, NoFault)
    else Result(WriteBytes(m, a, cmd.bytes), [], NoFault)
  }

  // ---- visiting and reloading all pages ----

  datatype PageImage = PageImage(base: nat, data: seq<Byte>)

  /** The pages of one bucket as MEM_FORALL visits them. */
  function DumpBucket(q: seq<Pte>, i: nat): seq<PageImage> {
    if q == [] then [] else [PageImage(PteAddr(q[0].key, i), q[0].val)] + DumpBucket(q[1..], i)
  }

  /** MEM_FORALL from bucket i on. */
  function DumpFrom(ptab: seq<seq<Pte>>, i: nat): seq<PageImage>
    requires i <= |ptab|
    decreases |ptab| - i
  {
    if i == |ptab| then [] else DumpBucket(ptab[i], i) + DumpFrom(ptab, i + 1)
  }

  /** eio_write_chkpt's dump of memory, and what eio_read_chkpt does with it. */
  function Dump(m: Mem): seq<PageImage> { DumpFrom(m.ptab, 0) }

  function Reload(m: Mem, d: seq<PageImage>): (r: Mem)
    requires Shaped(m)
    ensures Shaped(r)
    decreases |d|
  {
    if d == [] then m else Reload(WriteBytes(m, d[0].base, d[0].data), d[1..])
  }
}
