/** The pipeline and its cache composed: the machine that fetches, loads and stores through the write-back cache runs as
    the pipeline on flat memory does, and so computes what the interpreter computes. */
module CachedTheorems {
  import opened Words
  import opened PipeState
  import opened CachedState
  import F = FifoCache
  import FT = FifoTheorems
  import PP = PipeProof
  import PT = PipeTheorems

  // ---- words of byte memory ----

  /** Storing a word changes that word alone among the aligned ones. */
  lemma LoadStored(m: Memory, a: Word, v: Word, b: Word)
    requires WordAligned(a) && WordAligned(b)
    ensures LoadWord(StoreWord(m, a, v), b) == if a == b then v else LoadWord(m, b)
  {
    hide WordAligned, StoreWord, LoadWord;
    if a != b { LoadOther(m, a, v, b); } else { LoadSame(m, a, v); }
  }

  lemma LoadOther(m: Memory, a: Word, v: Word, b: Word)
    requires WordAligned(a) && WordAligned(b) && a != b
    ensures LoadWord(StoreWord(m, a, v), b) == LoadWord(m, b)
  {
    hide WordAligned, StoreWord, ByteIn, LoadWord;
    StoredElsewhere(m, a, v, b, 0);
    StoredElsewhere(m, a, v, b, 1);
    StoredElsewhere(m, a, v, b, 2);
    StoredElsewhere(m, a, v, b, 3);
    SameBytes(StoreWord(m, a, v), m, b);
  }

  lemma StoredElsewhere(m: Memory, a: Word, v: Word, b: Word, k: nat)
    requires WordAligned(a) && WordAligned(b) && a != b && k < 4
    ensures ByteIn(StoreWord(m, a, v), b, k) == ByteIn(m, b, k)
  {
    hide StoreWord, ByteAt, Place;
    PlaceApart(a, b, k);
    StoredByte(m, a, v, Place(b, k));
  }

  /** The bytes of different aligned words are apart. */
  lemma PlaceApart(a: Word, b: Word, k: nat)
    requires WordAligned(a) && WordAligned(b) && a != b && k < 4
    ensures var c := Place(b, k); c != a && c != a + 1 && c != a + 2 && c != a + 3
  {
    hide Place, WordAligned;
    if k == 0 { FirstApart(a, b); } else if k == 1 { SecondApart(a, b); } else if k == 2 { ThirdApart(a, b); } else { FourthApart(a, b); }
  }

  lemma FirstApart(a: Word, b: Word)
    requires WordAligned(a) && WordAligned(b) && a != b
    ensures var c := Place(b, 0); c != a && c != a + 1 && c != a + 2 && c != a + 3
  {
  }

  lemma SecondApart(a: Word, b: Word)
    requires WordAligned(a) && WordAligned(b) && a != b
    ensures var c := Place(b, 1); c != a && c != a + 1 && c != a + 2 && c != a + 3
  {
  }

  lemma ThirdApart(a: Word, b: Word)
    requires WordAligned(a) && WordAligned(b) && a != b
    ensures var c := Place(b, 2); c != a && c != a + 1 && c != a + 2 && c != a + 3
  {
  }

  lemma FourthApart(a: Word, b: Word)
    requires WordAligned(a) && WordAligned(b) && a != b
    ensures var c := Place(b, 3); c != a && c != a + 1 && c != a + 2 && c != a + 3
  {
  }

  lemma SameBytes(m: Memory, t: Memory, a: Word)
    requires ByteIn(m, a, 0) == ByteIn(t, a, 0) && ByteIn(m, a, 1) == ByteIn(t, a, 1)
    requires ByteIn(m, a, 2) == ByteIn(t, a, 2) && ByteIn(m, a, 3) == ByteIn(t, a, 3)
    ensures LoadWord(m, a) == LoadWord(t, a)
  {
    hide ByteIn, Joined;
  }

  lemma LoadSame(m: Memory, a: Word, v: Word)
    ensures LoadWord(StoreWord(m, a, v), a) == v
  {
    hide StoreWord, ByteAt, Joined;
    Together(a);
    StoredByte(m, a, v, a);
    StoredByte(m, a, v, a + 1);
    StoredByte(m, a, v, a + 2);
    StoredByte(m, a, v, a + 3);
    Reassembled(v);
  }

  lemma StoredByte(m: Memory, a: Word, v: Word, b: Word)
    ensures ByteAt(StoreWord(m, a, v), b) ==
            if b == a + 3 then ((v >> 24) & 0xff) as bv8 else if b == a + 2 then ((v >> 16) & 0xff) as bv8
            else if b == a + 1 then ((v >> 8) & 0xff) as bv8 else if b == a then (v & 0xff) as bv8 else ByteAt(m, b)
  {
    hide PutByte, ByteAt;
    var m1 := PutByte(m, a, (v & 0xff) as bv8);
    var m2 := PutByte(m1, a + 1, ((v >> 8) & 0xff) as bv8);
    var m3 := PutByte(m2, a + 2, ((v >> 16) & 0xff) as bv8);
    BytePut(m, a, (v & 0xff) as bv8, b);
    BytePut(m1, a + 1, ((v >> 8) & 0xff) as bv8, b);
    BytePut(m2, a + 2, ((v >> 16) & 0xff) as bv8, b);
    BytePut(m3, a + 3, ((v >> 24) & 0xff) as bv8, b);
  }

  lemma BytePut(m: Memory, a: Word, v: bv8, b: Word)
    ensures ByteAt(PutByte(m, a, v), b) == if b == a then v else ByteAt(m, b)
  {
    hide AddressOf;
    SameAddress(a, b);
  }

  lemma Reassembled(v: Word)
    ensures Joined((v & 0xff) as bv8, ((v >> 8) & 0xff) as bv8, ((v >> 16) & 0xff) as bv8, ((v >> 24) & 0xff) as bv8) == v
  {
  }

  // ---- the relation ----

  /** Cache and memory beneath it show the bytes of m, word by word. */
  ghost predicate ShowsBytes(c: F.Cache, m: Memory)
    requires F.Shaped(c)
  {
    forall a: Word :: WordAligned(a) ==> F.View(c, AddressOf(a)) == LoadWord(m, a)
  }

  /** The first n instructions fetch may reach, with what lies behind the program, are in memory m. */
  ghost predicate TextIn(l: Loader, m: Memory, text: seq<Inst>, n: nat) {
    forall i :: 0 <= i < n ==> InstIn(l, m, text, i)
  }

  predicate InstIn(l: Loader, m: Memory, text: seq<Inst>, i: int) {
    l.decode(LoadWord(m, TextAddress(l, i)), LoadWord(m, Second(TextAddress(l, i)))) == Fetch(text, i)
  }

  /** The cached machine q and the pipeline s on flat memory are in the same state. */
  ghost predicate Mirrors(q: Machine, s: Pipe) {
    F.Inv(q.cache) && F.Shaped(q.cache) && q.pipe == s.(mem := q.pipe.mem) && ShowsBytes(q.cache, s.mem)
  }

  /** a is not in the first n instructions. */
  predicate OffText(l: Loader, a: Word, n: nat) {
    forall i: nat :: i < n ==> TextAddress(l, i) != a && Second(TextAddress(l, i)) != a
  }

  /** The memory access in the execute latch is an aligned word, and a store stays off the text. */
  predicate Disciplined(l: Loader, e: Em, n: nat) {
    e.inst.op != NOP && (e.load || e.store) ==>
      WordAligned(e.valE) && (!e.load ==> OffText(l, e.valE, n))
  }

  // ---- single accesses ----

  lemma {:induction false} TextAligned(l: Loader, i: int)
    requires WordAligned(l.base)
    ensures WordAligned(TextAddress(l, i)) && WordAligned(Second(TextAddress(l, i)))
    decreases if i > 0 then i else 0
  {
    hide WordAligned, Second, Following;
    if i > 0 {
      TextAligned(l, i - 1);
      WordsOn(TextAddress(l, i - 1));
    }
    WordsOn(TextAddress(l, i));
  }

  lemma WordsOn(a: Word)
    requires WordAligned(a)
    ensures WordAligned(Second(a)) && WordAligned(Following(a))
  {
  }

  lemma ReadShows(c: F.Cache, m: Memory, a: Word)
    requires F.Inv(c) && F.Shaped(c) && ShowsBytes(c, m) && WordAligned(a)
    ensures var r := F.Access(c, AddressOf(a), F.Get);
            F.Inv(r.c) && F.Shaped(r.c) && r.word == LoadWord(m, a) && ShowsBytes(r.c, m)
  {
    hide F.Inv, F.View, F.Access, LoadWord, AddressOf, WordAligned;
    AlignedIs(a);
    FT.AccessIsFlat(c, AddressOf(a), F.Get);
    var r := F.Access(c, AddressOf(a), F.Get);
    forall b: Word | WordAligned(b) ensures F.View(r.c, AddressOf(b)) == LoadWord(m, b) { AlignedIs(b); }
  }

  lemma WriteShows(c: F.Cache, m: Memory, a: Word, v: Word)
    requires F.Inv(c) && F.Shaped(c) && ShowsBytes(c, m) && WordAligned(a)
    ensures var r := F.Access(c, AddressOf(a), F.Set(v));
            F.Inv(r.c) && F.Shaped(r.c) && ShowsBytes(r.c, StoreWord(m, a, v))
  {
    hide F.Inv, F.View, F.Access, LoadWord, StoreWord, AddressOf, WordAligned;
    AlignedIs(a);
    FT.AccessIsFlat(c, AddressOf(a), F.Set(v));
    var r := F.Access(c, AddressOf(a), F.Set(v));
    forall b: Word | WordAligned(b) ensures F.View(r.c, AddressOf(b)) == LoadWord(StoreWord(m, a, v), b) {
      AlignedIs(b);
      LoadStored(m, a, v, b);
      SameAddress(a, b);
    }
  }

  /** A store off the text leaves the text in memory. */
  lemma TextStays(l: Loader, m: Memory, text: seq<Inst>, n: nat, a: Word, v: Word)
    requires TextIn(l, m, text, n) && WordAligned(l.base) && WordAligned(a) && OffText(l, a, n)
    ensures TextIn(l, StoreWord(m, a, v), text, n)
  {
    hide LoadWord, StoreWord, AddressOf, WordAligned, TextAddress, Second;
    forall i | 0 <= i < n ensures InstIn(l, StoreWord(m, a, v), text, i) {
      assert InstIn(l, m, text, i);
      TextAligned(l, i);
      LoadStored(m, a, v, TextAddress(l, i));
      LoadStored(m, a, v, Second(TextAddress(l, i)));
    }
  }

  // ---- one cycle ----

  lemma BeforeMirrors(q: Machine, s: Pipe)
    requires Mirrors(q, s)
    ensures Mirrors(q.(pipe := Before(q.pipe)), Before(s)) && Before(s).em == s.em && Before(s).mem == s.mem
    ensures Before(s).fd.pc == if s.stall then s.de.pc else s.fd.pc
  {
    hide F.Inv, F.Shaped, ShowsBytes, SetReg;
    ControlApart(s, q.pipe.mem);
    WriteBackApart(Control(s), q.pipe.mem);
  }

  lemma ControlApart(s: Pipe, m: Memory)
    ensures Control(s.(mem := m)) == Control(s).(mem := m)
  {
  }

  lemma WriteBackApart(s: Pipe, m: Memory)
    ensures WriteBack(s.(mem := m)) == WriteBack(s).(mem := m)
  {
    hide SetReg;
  }

  lemma AfterApart(s: Pipe, m: Memory)
    ensures After(s.(mem := m)) == After(s).(mem := m) && After(s).fd == s.fd && After(s).mem == s.mem
  {
    hide Execute, Decode, Forward;
    ExecuteApart(s, m);
    DecodeApart(Execute(s), m);
    ForwardApart(Decode(Execute(s)), m);
  }

  lemma ExecuteApart(s: Pipe, m: Memory)
    ensures Execute(s.(mem := m)) == Execute(s).(mem := m) && Execute(s).fd == s.fd && Execute(s).mem == s.mem
  {
    hide Alu, OperandB;
  }

  lemma DecodeApart(s: Pipe, m: Memory)
    ensures Decode(s.(mem := m)) == Decode(s).(mem := m) && Decode(s).fd == s.fd && Decode(s).mem == s.mem
  {
    hide In1, In2, Out1, FuncOf;
  }

  lemma ForwardApart(s: Pipe, m: Memory)
    ensures Forward(s.(mem := m)) == Forward(s).(mem := m) && Forward(s).fd == s.fd && Forward(s).mem == s.mem
  {
    assert forall r: Dep :: Forwarded(s.(mem := m), r) == Forwarded(s, r);
    hide Forwarded;
  }

  lemma AfterMirrors(q: Machine, s: Pipe)
    requires Mirrors(q, s)
    ensures Mirrors(q.(pipe := After(q.pipe)), After(s)) && After(s).fd == s.fd && After(s).mem == s.mem
  {
    hide F.Inv, F.Shaped, ShowsBytes, After;
    AfterApart(s, q.pipe.mem);
    AfterApart(q.pipe, s.mem);
  }

  lemma MemMirrors(l: Loader, q: Machine, s: Pipe, text: seq<Inst>, n: nat)
    requires Mirrors(q, s) && Disciplined(l, s.em, n) && TextIn(l, s.mem, text, n) && WordAligned(l.base)
    ensures Mirrors(MemCached(q), MemStage(s)) && TextIn(l, MemStage(s).mem, text, n) && MemStage(s).fd == s.fd
  {
    hide F.Inv, F.Shaped, ShowsBytes, F.Access, LoadWord, StoreWord, TextIn, AddressOf, WordAligned, OffText;
    var e := s.em;
    if e.inst.op != NOP {
      if e.load {
        ReadShows(q.cache, s.mem, e.valE);
      } else if e.store {
        WriteShows(q.cache, s.mem, e.valE, e.valA);
        TextStays(l, s.mem, text, n, e.valE, e.valA);
      }
    }
  }

  lemma FetchMirrors(l: Loader, q: Machine, s: Pipe, text: seq<Inst>, n: nat)
    requires Mirrors(q, s) && TextIn(l, s.mem, text, n) && 0 <= s.fd.pc + 1 < n && WordAligned(l.base)
    ensures Mirrors(FetchCached(l, q), FetchStage(text, s))
  {
    hide F.Inv, F.Shaped, ShowsBytes, F.Access, TextAddress, LoadWord, Fetch, WordAligned, AddressOf, Second;
    var pc := s.fd.pc + 1;
    TextAligned(l, pc);
    ReadShows(q.cache, s.mem, TextAddress(l, pc));
    ReadShows(F.Access(q.cache, AddressOf(TextAddress(l, pc)), F.Get).c, s.mem, Second(TextAddress(l, pc)));
    assert InstIn(l, s.mem, text, pc);
  }

  /** One cycle of the cached machine is one cycle of the pipeline on flat memory. */
  lemma CycleMirrors(l: Loader, q: Machine, s: Pipe, text: seq<Inst>, n: nat)
    requires Mirrors(q, s) && Disciplined(l, s.em, n) && TextIn(l, s.mem, text, n) && WordAligned(l.base)
    requires 0 <= (if s.stall then s.de.pc else s.fd.pc) + 1 < n
    ensures Mirrors(CycleCached(l, q), Cycle(text, s)) && TextIn(l, Cycle(text, s).mem, text, n)
  {
    hide F.Inv, F.Shaped, ShowsBytes, TextIn, Before, After, MemCached, MemStage, FetchCached, Disciplined;
    var s1, q1 := Before(s), q.(pipe := Before(q.pipe));
    BeforeMirrors(q, s);
    MemMirrors(l, q1, s1, text, n);
    var s2, q2 := MemStage(s1), MemCached(q1);
    AfterMirrors(q2, s2);
    FetchMirrors(l, q2.(pipe := After(q2.pipe)), After(s2), text, n);
    CycleIs(text, s);
  }

  lemma CycleIs(text: seq<Inst>, s: Pipe)
    ensures Cycle(text, s) == FetchStage(text, After(MemStage(Before(s)))) && Cycle(text, s).mem == After(MemStage(Before(s))).mem
  {
    hide Control, WriteBack, MemStage, Execute, Decode, Forward, Fetch;
  }

  // ---- whole runs ----

  /** The address of the access instruction k makes, given the operands the pipeline delivers. */
  function Effective(text: seq<Inst>, a: Arch, k: int): Word {
    Add(PP.Given(text, a, k, Fetch(text, k).rs), Sext(Fetch(text, k).imm))
  }

  predicate Accesses(i: Inst) { i.op == LW || i.op == SW }

  /** Loads and stores go to aligned words, and stores off the first n instructions. */
  ghost predicate Obeys(l: Loader, text: seq<Inst>, a: Arch, n: nat) {
    forall k :: 0 <= k < |text| && Accesses(text[k]) ==>
      WordAligned(Effective(text, a, k)) && (text[k].op == SW ==> OffText(l, Effective(text, a, k), n))
  }

  lemma InvDisciplined(l: Loader, text: seq<Inst>, a: Arch, s: Pipe, d: int, n: nat)
    requires PP.Inv(text, a, s, d) && Obeys(l, text, a, n)
    ensures Disciplined(l, s.em, n)
    ensures s.fd.pc == d + 1 && (s.stall ==> s.de.pc == d)
  {
    hide PP.Latches, PP.Decoded, PP.Pending, PP.Given, PP.Slot, OffText, WordAligned, AddressOf, Add, Sext, Stalls;
  }

  lemma StartMirrors(a: Arch, mem: F.Memory)
    requires ShowsBytes(F.Init(mem), a.mem)
    ensures Mirrors(Start(a.regs, mem), Init(a.regs, a.mem))
  {
    hide ShowsBytes, F.Inv;
    FT.InitInv(mem);
  }

  lemma {:induction false} RunMirrors(l: Loader, text: seq<Inst>, a: Arch, mem: F.Memory, n: nat, c: nat)
    requires WordAligned(l.base) && ShowsBytes(F.Init(mem), a.mem) && TextIn(l, a.mem, text, n) && Obeys(l, text, a, n) && c <= n
    ensures var s := Cycles(text, Init(a.regs, a.mem), c);
            Mirrors(CyclesCached(l, Start(a.regs, mem), c), s) && TextIn(l, s.mem, text, n)
  {
    hide Mirrors, TextIn, Obeys, PP.Inv, Cycle, CycleCached, Disciplined, ShowsBytes, Init, Start, Stalls;
    if c == 0 {
      StartMirrors(a, mem);
      assert Init(a.regs, a.mem).mem == a.mem by { hide *; InitMem(a); }
    } else {
      RunMirrors(l, text, a, mem, n, c - 1);
      var q, s := CyclesCached(l, Start(a.regs, mem), c - 1), Cycles(text, Init(a.regs, a.mem), c - 1);
      var d := PT.InDecode(text, a, c - 1);
      PT.RunKeeps(text, a, c - 1);
      InvDisciplined(l, text, a, s, d, n);
      NotEarly(text, a, c - 1);
      CycleMirrors(l, q, s, text, n);
    }
  }

  lemma InitMem(a: Arch)
    ensures Init(a.regs, a.mem).mem == a.mem
  {
  }

  lemma {:induction false} NotEarly(text: seq<Inst>, a: Arch, c: nat)
    ensures PT.InDecode(text, a, c) >= -2
  {
    hide Cycles;
    if c > 0 { NotEarly(text, a, c - 1); }
  }

  // ---- the clock ----

  /** A hit costs one cycle, a miss ten. */
  lemma AccessCharges(c: F.Cache, a: Address, r: F.Request)
    requires F.Inv(c) && F.Shaped(c)
    ensures var y := F.Access(c, a, r);
            && y.c.access == c.access + 1 && y.c.hit + y.c.miss == c.hit + c.miss + 1 && c.miss <= y.c.miss
            && y.cycles + c.hit + 10 * c.miss == y.c.hit + 10 * y.c.miss
  {
    hide F.Tag, F.Index, F.Slot, F.Hits, F.Search, F.Found, F.Fill, F.Flushed;
    FT.SetIs(c, F.Index(a));
    F.HitsIs(c.sets[F.Index(a)], F.Tag(a));
  }

  /** After so many cycles and loads and stores the clock and the count of accesses are what the statistics say. */
  ghost predicate Charged(q: Machine, cycles: nat, ops: nat) {
    && q.clk == cycles + q.cache.hit + 10 * q.cache.miss
    && q.cache.access == 2 * cycles + ops
  }

  predicate MakesAccess(e: Em) { e.inst.op != NOP && (e.load || e.store) }

  lemma CycleCharges(l: Loader, q: Machine, s: Pipe, text: seq<Inst>, n: nat, cycles: nat, ops: nat)
    requires Mirrors(q, s) && Disciplined(l, s.em, n) && TextIn(l, s.mem, text, n) && WordAligned(l.base)
    requires Charged(q, cycles, ops)
    ensures Charged(CycleCached(l, q), cycles + 1, ops + if MakesAccess(s.em) then 1 else 0)
  {
    hide F.Inv, F.Shaped, ShowsBytes, TextIn, Before, After, MemStage, Disciplined, MemCached, FetchCached, WordAligned;
    var q1 := q.(pipe := Before(q.pipe));
    BeforeMirrors(q, s);
    MemMirrors(l, q1, Before(s), text, n);
    MemCharges(q1);
    var q2 := MemCached(q1);
    FetchCharges(l, q2.(pipe := After(q2.pipe)));
  }

  lemma FetchCharges(l: Loader, q: Machine)
    requires F.Inv(q.cache) && F.Shaped(q.cache) && WordAligned(l.base)
    ensures var t := FetchCached(l, q);
            && t.clk + q.cache.hit + 10 * q.cache.miss == q.clk + t.cache.hit + 10 * t.cache.miss
            && t.cache.access == q.cache.access + 2
  {
    hide F.Inv, F.Shaped, F.Access, F.View, TextAddress, AddressOf, WordAligned, Second;
    var x, y := AddressOf(TextAddress(l, q.pipe.fd.pc + 1)), AddressOf(Second(TextAddress(l, q.pipe.fd.pc + 1)));
    AccessCharges(q.cache, x, F.Get);
    TextAligned(l, q.pipe.fd.pc + 1);
    AlignedIs(TextAddress(l, q.pipe.fd.pc + 1));
    FT.AccessIsFlat(q.cache, x, F.Get);
    AccessCharges(F.Access(q.cache, x, F.Get).c, y, F.Get);
  }

  lemma MemCharges(q: Machine)
    requires F.Inv(q.cache) && F.Shaped(q.cache)
    ensures var t := MemCached(q);
            && t.clk + q.cache.hit + 10 * q.cache.miss == q.clk + t.cache.hit + 10 * t.cache.miss
            && t.cache.access == q.cache.access + if MakesAccess(q.pipe.em) then 1 else 0
  {
    hide F.Inv, F.Shaped, F.Access, AddressOf;
    var e := q.pipe.em;
    if e.load {
      AccessCharges(q.cache, AddressOf(e.valE), F.Get);
    } else if e.store {
      AccessCharges(q.cache, AddressOf(e.valE), F.Set(e.valA));
    }
  }

  /** Loads and stores among the first k instructions. */
  function MemOps(text: seq<Inst>, k: int): nat
    decreases if k > 0 then k else 0
  {
    if k <= 0 then 0 else MemOps(text, k - 1) + if Accesses(Fetch(text, k - 1)) then 1 else 0
  }

  /** The access a cycle makes is that of the instruction that passes the memory stage in it. */
  lemma PassesOne(text: seq<Inst>, a: Arch, s: Pipe, d: int)
    requires PP.Inv(text, a, s, d)
    ensures MemOps(text, d) == MemOps(text, PP.Passed(text, s, d)) + if MakesAccess(s.em) then 1 else 0
  {
    hide PP.Latches, PP.Decoded, PP.Pending, PP.Given, PP.Front, Add, Sext, Stalls;
  }

  lemma {:induction false} RunCharges(l: Loader, text: seq<Inst>, a: Arch, mem: F.Memory, n: nat, c: nat)
    requires WordAligned(l.base) && ShowsBytes(F.Init(mem), a.mem) && TextIn(l, a.mem, text, n) && Obeys(l, text, a, n) && c <= n
    ensures var s := Cycles(text, Init(a.regs, a.mem), c);
            Charged(CyclesCached(l, Start(a.regs, mem), c), c, MemOps(text, PP.Passed(text, s, PT.InDecode(text, a, c))))
  {
    hide Mirrors, TextIn, Obeys, PP.Inv, Cycle, CycleCached, Disciplined, ShowsBytes, Init, Stalls, Charged, PP.Passed;
    if c == 0 {
      assert Charged(Start(a.regs, mem), 0, 0) by { hide *; StartCharged(a.regs, mem); }
      PT.RunKeeps(text, a, 0);
      assert PP.Passed(text, Init(a.regs, a.mem), -2) <= 0 by { hide *; PassedEarly(text, Init(a.regs, a.mem)); }
    } else {
      RunCharges(l, text, a, mem, n, c - 1);
      RunMirrors(l, text, a, mem, n, c - 1);
      var q, s := CyclesCached(l, Start(a.regs, mem), c - 1), Cycles(text, Init(a.regs, a.mem), c - 1);
      var d := PT.InDecode(text, a, c - 1);
      PT.RunKeeps(text, a, c - 1);
      InvDisciplined(l, text, a, s, d, n);
      CycleCharges(l, q, s, text, n, c - 1, MemOps(text, PP.Passed(text, s, d)));
      PassesOne(text, a, s, d);
      PP.FrontAfter(text, a, s, d);
    }
  }

  lemma StartCharged(regs: Regs, mem: F.Memory)
    ensures Charged(Start(regs, mem), 0, 0)
  {
  }

  lemma PassedEarly(text: seq<Inst>, s: Pipe)
    ensures PP.Passed(text, s, -2) <= 0
  {
  }

  // ---- the refinement ----

  /** The address of the access instruction k makes, run by the interpreter. */
  function Reached(text: seq<Inst>, a: Arch, k: nat): Word {
    Add(PT.Interpret(text, a, k).regs[Fetch(text, k).rs], Sext(Fetch(text, k).imm))
  }

  /** Run by the interpreter, the program loads and stores aligned words and leaves its text alone. */
  ghost predicate Plain(l: Loader, text: seq<Inst>, a: Arch, n: nat) {
    forall k :: 0 <= k < |text| && Accesses(text[k]) ==>
      WordAligned(Reached(text, a, k)) && (text[k].op == SW ==> OffText(l, Reached(text, a, k), n))
  }

  lemma PlainObeys(l: Loader, text: seq<Inst>, a: Arch, n: nat)
    requires a.regs[0] == 0 && (forall i :: 0 <= i < |text| ==> !PT.WritesZero(text[i])) && PT.LoadsAgree(text, a)
    requires Plain(l, text, a, n)
    ensures Obeys(l, text, a, n)
  {
    hide PT.Interpret, Delivered, Sequential, PT.LoadsAgree, PP.Given, OffText, WordAligned, AddressOf, Add, Sext;
    PT.OperandsRight(text, a);
    forall k | 0 <= k < |text| && Accesses(text[k]) ensures Effective(text, a, k) == Reached(text, a, k) {
      PT.AgreeingDelivers(text, a, k);
      PT.InterpretsSequentially(text, a, k);
      assert PP.Given(text, a, k, text[k].rs) == Delivered(text, a, k).regs[text[k].rs];
    }
  }

  /** The whole machine refines the interpreter: fetching, loading and storing through the write-back cache, it ends with
      the interpreter's registers, and its cache flushed to memory leaves the interpreter's memory.  The clock is the
      cycles of the pipeline, one for each hit and ten for each miss, and every cycle accesses the cache twice to fetch
      and once more for each load and store. */
  lemma MachineRefinesInterpreter(l: Loader, text: seq<Inst>, a: Arch, mem: F.Memory, c: nat)
    requires a.regs[0] == 0 && (forall i :: 0 <= i < |text| ==> !PT.WritesZero(text[i])) && PT.LoadsAgree(text, a)
    requires c >= |text| + 4 + StallCount(text, |text| - 1)
    requires WordAligned(l.base) && ShowsBytes(F.Init(mem), a.mem) && TextIn(l, a.mem, text, c) && Plain(l, text, a, c)
    ensures var q := CyclesCached(l, Start(a.regs, mem), c); var z := PT.Interpret(text, a, |text|);
            && q.pipe.regs == z.regs && F.Inv(q.cache) && ShowsBytes(q.cache, z.mem)
            && (forall b: Word :: WordAligned(b) ==> F.At(F.Flush(q.cache).mem, AddressOf(b)) == LoadWord(z.mem, b))
            && q.clk == c + q.cache.hit + 10 * q.cache.miss && q.cache.hit + q.cache.miss == 2 * c + MemOps(text, |text|)
  {
    hide PT.Interpret, PT.LoadsAgree, Cycles, CyclesCached, ShowsBytes, TextIn, Plain, Obeys, StallCount, F.Inv, Start, Init;
    hide PP.Passed, MemOps;
    PlainObeys(l, text, a, c);
    RunMirrors(l, text, a, mem, c, c);
    RunCharges(l, text, a, mem, c, c);
    PT.PipelineRefinesInterpreter(text, a, c);
    var q := CyclesCached(l, Start(a.regs, mem), c);
    FlushShows(q.cache, PT.Interpret(text, a, |text|).mem);
    Balanced(q.cache);
    AllPassed(text, a, c);
  }

  lemma Balanced(c: F.Cache)
    requires F.Inv(c)
    ensures c.hit + c.miss == c.access
  {
  }

  lemma FlushShows(c: F.Cache, m: Memory)
    requires F.Inv(c) && F.Shaped(c) && ShowsBytes(c, m)
    ensures forall b: Word :: WordAligned(b) ==> F.At(F.Flush(c).mem, AddressOf(b)) == LoadWord(m, b)
  {
    hide F.Inv, F.View, F.Flush, F.At, AddressOf, WordAligned, LoadWord;
    FT.FlushIsFlat(c);
    forall b: Word | WordAligned(b) ensures F.At(F.Flush(c).mem, AddressOf(b)) == LoadWord(m, b) { AlignedIs(b); }
  }

  /** Flushing counts no access. */
  lemma {:induction false} FlushCounts(c: F.Cache, n: nat)
    requires F.Shaped(c) && n <= F.SETS
    ensures var d := F.FlushSets(c, n); d.hit == c.hit && d.miss == c.miss && d.access == c.access
  {
    hide F.CleanLines, F.FlushLines;
    if n > 0 { FlushCounts(c, n - 1); }
  }

  /** When the pipeline has drained every instruction has passed the memory stage. */
  lemma AllPassed(text: seq<Inst>, a: Arch, c: nat)
    requires c >= |text| + 4 + StallCount(text, |text| - 1)
    ensures MemOps(text, PP.Passed(text, Cycles(text, Init(a.regs, a.mem), c), PT.InDecode(text, a, c))) == MemOps(text, |text|)
  {
    hide Cycles, PT.InDecode, Stalls, StallCount, MemOps, Init;
    PT.RetiresOnTime(text, a, c, |text|);
    OpsPastEnd(text, PP.Passed(text, Cycles(text, Init(a.regs, a.mem), c), PT.InDecode(text, a, c)));
  }

  lemma {:induction false} OpsPastEnd(text: seq<Inst>, n: int)
    requires |text| <= n
    ensures MemOps(text, n) == MemOps(text, |text|)
    decreases n
  {
    if |text| < n { OpsPastEnd(text, n - 1); }
  }
}
