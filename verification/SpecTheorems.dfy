/** The main result about speculative state: over any run the tracer stands for a private copy of the machine. */
module SpecTheorems {
  import opened Accesses
  import opened Buckets
  import opened SpecState
  import opened SpecProof

  /** Accesses that never overlap partially: each address is always accessed with the same size, and the byte
      ranges of different addresses are disjoint. */
  ghost predicate Family(sizes: map<Addr, nat>) {
    && (forall a :: a in sizes ==> Sized(sizes[a]))
    && (forall a, b :: a in sizes && b in sizes && a < b ==> a + sizes[a] <= b)
  }

  // ---- bytes of memory ----

  lemma {:induction false} WriteBytesAt(m: Memory, a: nat, s: seq<Byte>, x: nat)
    ensures ByteOf(WriteBytes(m, a, s), x) == if a <= x < a + |s| then s[x - a] else ByteOf(m, x)
    decreases |s|
  {
    if s != [] { WriteBytesAt(m[a := s[0]], a + 1, s[1..], x); }
  }

  lemma BytesWritten(m: Memory, a: nat, s: seq<Byte>, b: nat, n: nat)
    ensures a == b && n == |s| ==> Bytes(WriteBytes(m, a, s), b, n) == s
    ensures a + |s| <= b || b + n <= a ==> Bytes(WriteBytes(m, a, s), b, n) == Bytes(m, b, n)
  {
    hide WriteBytes, ByteOf;
    var r := Bytes(WriteBytes(m, a, s), b, n);
    forall i | 0 <= i < n ensures r[i] == if a <= b + i < a + |s| then s[b + i - a] else ByteOf(m, b + i) {
      WriteBytesAt(m, a, s, b + i);
    }
  }

  // ---- the relation ----

  /** Outside speculation the precise state is the copy; inside, it is the saved state and every read of the
      family goes to the copy. */
  ghost predicate Stands(t: Tracer, c: Copy, sizes: map<Addr, nat>) {
    && Shaped(t) && |c.regs.r| == REGS && |c.saved.r| == REGS && TableOk(t)
    && t.made == t.spare + Used(t.table, STORE_HASH_SIZE)
    && (!t.specMode ==> t.use == {} && t.table == EmptyTable() && t.regs == c.regs && t.mem == c.mem)
    && (t.specMode ==> t.regs == c.saved && t.mem == c.savedMem)
    && (forall x :: RegOk(x) ==> ReadReg(t, x) == Get(c.regs, x))
    && (forall a: Addr :: Held(t, a) ==> a in sizes)
    && (forall a :: a in sizes ==> SpecBytes(t, a, sizes[a]) == Bytes(c.mem, a, sizes[a]))
  }

  /** What a run may do next: recovery only from speculation, and speculative accesses that are aligned and
      permitted stay within the family. */
  ghost predicate OpOk(t: Tracer, op: Op, sizes: map<Addr, nat>) {
    match op
    case SetReg(x, v) => RegOk(x)
    case EnterSpec => !t.specMode
    case LeaveSpec => t.specMode
    case Access(cmd, a) =>
      t.specMode && AlignedAccess(a, Size(cmd)) && Permitted(t.lim, a, cmd) ==> a in sizes && Size(cmd) == sizes[a]
  }

  // ---- one operation ----

  lemma RegStep(t: Tracer, c: Copy, sizes: map<Addr, nat>, x: RegName, v: Word)
    requires Stands(t, c, sizes) && RegOk(x)
    ensures Stands(Step(t, SetReg(x, v)), CopyStep(c, t.lim, t.specMode, SetReg(x, v)), sizes)
  {
    hide TableOk, Held, SpecBytes, Bytes, Used, Get, Put, ReadReg;
    var d := Step(t, SetReg(x, v));
    TableSame(t, d);
    forall y | RegOk(y) ensures ReadReg(d, y) == Get(Put(c.regs, x, v), y) {
      assert ReadReg(t, y) == Get(c.regs, y);
      WriteRegRight(t, c, x, v, y);
    }
  }

  lemma WriteRegRight(t: Tracer, c: Copy, x: RegName, v: Word, y: RegName)
    requires Shaped(t) && |c.regs.r| == REGS && RegOk(x) && RegOk(y) && ReadReg(t, y) == Get(c.regs, y)
    requires t.specMode || t.use == {}
    ensures ReadReg(WriteReg(t, x, v), y) == Get(Put(c.regs, x, v), y)
  {
    PutGet(t.specRegs, x, v, y);
    PutGet(t.regs, x, v, y);
    PutGet(c.regs, x, v, y);
    hide Get, Put;
    WriteRegUse(t, x, v, y);
  }

  lemma WriteRegUse(t: Tracer, x: RegName, v: Word, y: RegName)
    requires Shaped(t) && RegOk(x) && RegOk(y)
    requires Get(Put(t.specRegs, x, v), y) == if y == x then v else Get(t.specRegs, y)
    requires Get(Put(t.regs, x, v), y) == if y == x then v else Get(t.regs, y)
    requires t.specMode || y !in t.use
    ensures ReadReg(WriteReg(t, x, v), y) == if y == x then v else ReadReg(t, y)
  {
    hide Get, Put;
  }

  lemma PutGet(g: Regs, x: RegName, v: Word, y: RegName)
    requires |g.r| == REGS && RegOk(x) && RegOk(y)
    ensures Get(Put(g, x, v), y) == if y == x then v else Get(g, y)
  {
  }

  lemma TableSame(t: Tracer, d: Tracer)
    requires Shaped(t) && Shaped(d) && d.table == t.table
    ensures TableOk(t) ==> TableOk(d)
    ensures forall a: Addr :: Held(d, a) == Held(t, a)
    ensures d.mem == t.mem ==> forall a: Addr, n: nat :: SpecBytes(d, a, n) == SpecBytes(t, a, n)
  {
    hide ChainOk, Bytes, ChainMap, Hash;
  }

  lemma SpecReadStep(t: Tracer, c: Copy, sizes: map<Addr, nat>, n: nat, a: Addr)
    requires Stands(t, c, sizes) && Family(sizes) && t.specMode && AlignedAccess(a, n) && Permitted(t.lim, a, Read(n))
    requires a in sizes && sizes[a] == n
    ensures Stands(Step(t, Access(Read(n), a)), c, sizes)
    ensures SpecAccess(t, Read(n), a).Done? && SpecAccess(t, Read(n), a).bytes == Bytes(c.mem, a, n)
  {
    hide TableOk, Held, Bytes, SpecAccess, AlignedAccess, Permitted, Hash, ChainMap, Used, Get;
    SpecRead(t, a, n);
    var d := SpecAccess(t, Read(n), a).t;
    forall b | b in sizes ensures SpecBytes(d, b, sizes[b]) == SpecBytes(t, b, sizes[b]) { SameBytes(t, d, b, sizes[b]); }
    RegsSame(t, d, c);
  }

  lemma SameBytes(t: Tracer, d: Tracer, a: Addr, n: nat)
    requires Shaped(t) && Shaped(d) && d.mem == t.mem && Held(d, a) == Held(t, a)
    requires Held(t, a) ==> DataAt(d, a) == DataAt(t, a)
    ensures SpecBytes(d, a, n) == SpecBytes(t, a, n)
  {
    hide Bytes, ChainMap, Hash;
  }

  lemma RegsSame(t: Tracer, d: Tracer, c: Copy)
    requires Shaped(t) && Shaped(d) && d.regs == t.regs && d.specRegs == t.specRegs && d.use == t.use && |c.regs.r| == REGS
    requires forall x :: RegOk(x) ==> ReadReg(t, x) == Get(c.regs, x)
    ensures forall x :: RegOk(x) ==> ReadReg(d, x) == Get(c.regs, x)
  {
    hide Get;
    forall x | RegOk(x) ensures ReadReg(d, x) == Get(c.regs, x) { assert ReadReg(t, x) == Get(c.regs, x); }
  }

  lemma SpecWriteStep(t: Tracer, c: Copy, sizes: map<Addr, nat>, bytes: seq<Byte>, a: Addr)
    requires Stands(t, c, sizes) && Family(sizes) && t.specMode
    requires AlignedAccess(a, |bytes|) && Permitted(t.lim, a, Write(bytes)) && a in sizes && sizes[a] == |bytes|
    ensures Stands(Step(t, Access(Write(bytes), a)), c.(mem := WriteBytes(c.mem, a, bytes)), sizes)
  {
    hide TableOk, Held, Bytes, SpecAccess, AlignedAccess, Permitted, Hash, ChainMap, Used, Get, WriteBytes, DataAt;
    SpecWrite(t, a, bytes);
    var d := SpecAccess(t, Write(bytes), a).t;
    var m := WriteBytes(c.mem, a, bytes);
    forall b | b in sizes ensures SpecBytes(d, b, sizes[b]) == Bytes(m, b, sizes[b]) {
      BytesWritten(c.mem, a, bytes, b, sizes[b]);
      if b != a {
        SameBytes(t, d, b, sizes[b]);
      } else {
        HeldBytes(d, a, |bytes|);
      }
    }
    RegsSame(t, d, c);
  }

  lemma HeldBytes(t: Tracer, a: Addr, n: nat)
    requires Shaped(t) && Held(t, a) && n <= |DataAt(t, a)|
    ensures SpecBytes(t, a, n) == DataAt(t, a)[..n]
  {
    hide ChainMap, Hash, Bytes;
  }

  /** Misaligned and forbidden accesses return zeros and change nothing. */
  lemma RefusedIs(t: Tracer, cmd: Command, a: Addr)
    requires Shaped(t) && !(AlignedAccess(a, Size(cmd)) && Permitted(t.lim, a, cmd))
    ensures SpecAccess(t, cmd, a) == Done(t, Zeros(Size(cmd)))
  {
    hide AlignedAccess, Permitted, Searched, Hash;
  }

  lemma NoneHeld(t: Tracer)
    requires Shaped(t) && t.table == EmptyTable()
    ensures TableOk(t) && (forall a: Addr :: !Held(t, a)) && Used(t.table, STORE_HASH_SIZE) == 0
    ensures forall a: Addr, n: nat :: SpecBytes(t, a, n) == Bytes(t.mem, a, n)
  {
    hide Bytes, Hash;
    UsedNone(STORE_HASH_SIZE);
  }

  lemma {:induction false} UsedNone(n: nat)
    requires n <= STORE_HASH_SIZE
    ensures Used(EmptyTable(), n) == 0
  {
    if n > 0 { UsedNone(n - 1); }
  }

  lemma LeaveStep(t: Tracer, c: Copy, sizes: map<Addr, nat>)
    requires Stands(t, c, sizes) && t.specMode
    ensures Stands(Recover(t), CopyStep(c, t.lim, true, LeaveSpec), sizes)
  {
    hide TableOk, Held, SpecBytes, Bytes, Used, Get, EmptyTable;
    NoneHeld(Recover(t));
  }

  lemma EnterStep(t: Tracer, c: Copy, sizes: map<Addr, nat>)
    requires Stands(t, c, sizes) && !t.specMode
    ensures Stands(Step(t, EnterSpec), CopyStep(c, t.lim, false, EnterSpec), sizes)
  {
    hide TableOk, Held, SpecBytes, Bytes, Used, Get, EmptyTable;
    var d := Step(t, EnterSpec);
    TableSame(t, d);
    RegsSame(t, d, c);
  }

  lemma PreciseWriteStep(t: Tracer, c: Copy, sizes: map<Addr, nat>, bytes: seq<Byte>, a: Addr)
    requires Stands(t, c, sizes) && !t.specMode
    ensures Stands(Step(t, Access(Write(bytes), a)), c.(mem := WriteBytes(c.mem, a, bytes)), sizes)
  {
    hide TableOk, Held, SpecBytes, Bytes, Used, Get, EmptyTable, WriteBytes;
    var d := Step(t, Access(Write(bytes), a));
    NoneHeld(t);
    NoneHeld(d);
    RegsSame(t, d, c);
  }

  /** One operation keeps the tracer standing for the copy. */
  lemma StepStands(t: Tracer, c: Copy, sizes: map<Addr, nat>, op: Op)
    requires Stands(t, c, sizes) && Family(sizes) && OpOk(t, op, sizes)
    ensures Stands(Step(t, op), CopyStep(c, t.lim, t.specMode, op), sizes)
  {
    hide Stands, Family, AlignedAccess, Permitted, WriteBytes, SpecAccess;
    assert Shaped(t) && |c.regs.r| == REGS by { StandsShaped(t, c, sizes); }
    match op
    case SetReg(x, v) => RegStep(t, c, sizes, x, v);
    case EnterSpec => EnterStep(t, c, sizes);
    case LeaveSpec => LeaveStep(t, c, sizes);
    case Access(cmd, a) =>
      if t.specMode {
        if !(AlignedAccess(a, Size(cmd)) && Permitted(t.lim, a, cmd)) {
          RefusedIs(t, cmd, a);
        } else if cmd.Read? {
          SpecReadStep(t, c, sizes, cmd.n, a);
        } else {
          SpecWriteStep(t, c, sizes, cmd.bytes, a);
        }
      } else if cmd.Write? {
        PreciseWriteStep(t, c, sizes, cmd.bytes, a);
      }
  }

  lemma StandsShaped(t: Tracer, c: Copy, sizes: map<Addr, nat>)
    requires Stands(t, c, sizes)
    ensures Shaped(t) && |c.regs.r| == REGS
  {
    hide TableOk, Held, SpecBytes, Bytes, Used, Get;
  }

  // ---- runs ----

  ghost function Run(t: Tracer, ops: seq<Op>): Tracer
    decreases |ops|
  {
    if ops == [] || !Shaped(t) || (ops[0].SetReg? && !RegOk(ops[0].x)) then t else Run(Step(t, ops[0]), ops[1..])
  }

  ghost function RunCopy(t: Tracer, c: Copy, ops: seq<Op>): Copy
    decreases |ops|
  {
    if ops == [] || !Shaped(t) || |c.regs.r| != REGS || (ops[0].SetReg? && !RegOk(ops[0].x)) then c
    else RunCopy(Step(t, ops[0]), CopyStep(c, t.lim, t.specMode, ops[0]), ops[1..])
  }

  ghost predicate OpsOk(t: Tracer, ops: seq<Op>, sizes: map<Addr, nat>)
    decreases |ops|
  {
    ops == [] || (Shaped(t) && OpOk(t, ops[0], sizes) && OpsOk(Step(t, ops[0]), ops[1..], sizes))
  }

  /** Over any run, in and out of speculation, registers and family reads are those of the private copy, and
      no node of the store table is lost: every one ever allocated is in the table or on the free list. */
  lemma {:induction false} RunStands(t: Tracer, c: Copy, sizes: map<Addr, nat>, ops: seq<Op>)
    requires Stands(t, c, sizes) && Family(sizes) && OpsOk(t, ops, sizes)
    ensures Stands(Run(t, ops), RunCopy(t, c, ops), sizes)
    decreases |ops|
  {
    hide Stands, Family, Step, CopyStep;
    StandsShaped(t, c, sizes);
    if ops != [] {
      StepStands(t, c, sizes, ops[0]);
      RunStands(Step(t, ops[0]), CopyStep(c, t.lim, t.specMode, ops[0]), sizes, ops[1..]);
    }
  }

  /** A speculative run that has not recovered yet. */
  ghost predicate StaysSpec(t: Tracer, ops: seq<Op>)
    decreases |ops|
  {
    t.specMode && (ops == [] || (Shaped(t) && !ops[0].LeaveSpec? && !ops[0].EnterSpec?
                                 && (ops[0].SetReg? ==> RegOk(ops[0].x)) && StaysSpec(Step(t, ops[0]), ops[1..])))
  }

  lemma SpecOpKeeps(t: Tracer, op: Op)
    requires Shaped(t) && t.specMode && !op.LeaveSpec? && !op.EnterSpec? && (op.SetReg? ==> RegOk(op.x))
    ensures var d := Step(t, op); Shaped(d) && d.regs == t.regs && d.mem == t.mem && d.lim == t.lim
  {
    hide AlignedAccess, Permitted, Searched, Hash, Patch, Put;
  }

  lemma {:induction false} SpecRunKeeps(t: Tracer, ops: seq<Op>)
    requires StaysSpec(t, ops) && Shaped(t)
    ensures var d := Run(t, ops); Shaped(d) && d.regs == t.regs && d.mem == t.mem && d.lim == t.lim && d.specMode
    decreases |ops|
  {
    hide Step;
    if ops != [] {
      SpecOpKeeps(t, ops[0]);
      SpecRunKeeps(Step(t, ops[0]), ops[1..]);
    }
  }

  /** Whatever a wrong path does, overlapping accesses included, tracer_recover brings back the registers, HI,
      LO and every byte of memory as they were at the misprediction. */
  lemma RecoveryIsExact(t: Tracer, ops: seq<Op>)
    requires Shaped(t) && !t.specMode && t.use == {} && t.table == EmptyTable()
    requires StaysSpec(Step(t, EnterSpec), ops)
    ensures var d := Run(Step(t, EnterSpec), ops);
            && Shaped(d) && var r := Recover(d);
            && (forall x :: RegOk(x) ==> ReadReg(r, x) == ReadReg(t, x))
            && r.mem == t.mem && !r.specMode && r.use == {} && r.table == EmptyTable()
  {
    hide EmptyTable, Used, Get;
    SpecRunKeeps(Step(t, EnterSpec), ops);
  }

  /** Why the family matters: after a wrong-path store, a wrong-path load from another address that overlaps it still
      reads memory, so it is right exactly when the store left the bytes they share as they were. */
  lemma PartialOverlapMissed(t: Tracer, bytes: seq<Byte>, a: Addr, m: nat, b: Addr)
    requires Shaped(t) && TableOk(t) && t.specMode && !Held(t, b) && a != b && Sized(|bytes|) && Sized(m)
    requires AlignedAccess(a, |bytes|) && Permitted(t.lim, a, Write(bytes))
    requires AlignedAccess(b, m) && Permitted(t.lim, b, Read(m))
    ensures var r := SpecAccess(Step(t, Access(Write(bytes), a)), Read(m), b);
            && r.Done? && r.bytes == Bytes(t.mem, b, m)
            && (r.bytes == Bytes(WriteBytes(t.mem, a, bytes), b, m) <==>
                  forall x: nat :: a <= x < a + |bytes| && b <= x < b + m ==> bytes[x - a] == ByteOf(t.mem, x))
  {
    hide SpecAccess, Hash, ChainMap, Permitted, WriteBytes, AlignedAccess, ByteOf, Sized;
    SpecWrite(t, a, bytes);
    SpecRead(Step(t, Access(Write(bytes), a)), b, m);
    SharedBytes(t.mem, a, bytes, b, m);
  }

  /** A load from the very address of a wrong-path store gets the bytes stored and then what the entry held before, zeros
      if the store made it: with `now` the memory the program should see, it is right exactly when those equal the bytes
      of memory beyond the store. */
  lemma LongerLoadMissed(t: Tracer, now: Memory, bytes: seq<Byte>, a: Addr, m: nat)
    requires Shaped(t) && TableOk(t) && t.specMode && Sized(|bytes|) && Sized(m)
    requires AlignedAccess(a, |bytes|) && Permitted(t.lim, a, Write(bytes))
    requires AlignedAccess(a, m) && Permitted(t.lim, a, Read(m))
    ensures |Before(t, a)| == 8
    ensures var r := SpecAccess(Step(t, Access(Write(bytes), a)), Read(m), a);
            && r.Done? && r.bytes == (bytes + Before(t, a)[|bytes|..])[..m]
            && (r.bytes == Bytes(WriteBytes(now, a, bytes), a, m) <==>
                  forall i: nat :: |bytes| <= i < m ==> Before(t, a)[i] == ByteOf(now, a + i))
  {
    hide SpecAccess, Hash, ChainMap, Permitted, WriteBytes, AlignedAccess, ByteOf, Before, Held, DataAt;
    SpecWrite(t, a, bytes);
    SpecRead(Step(t, Access(Write(bytes), a)), a, m);
    var got, want := (bytes + Before(t, a)[|bytes|..])[..m], Bytes(WriteBytes(now, a, bytes), a, m);
    forall i: nat | i < m
      ensures got[i] == if i < |bytes| then bytes[i] else Before(t, a)[i]
      ensures want[i] == if i < |bytes| then bytes[i] else ByteOf(now, a + i)
    {
      WriteBytesAt(now, a, bytes, a + i);
    }
    if got == want {
      forall i: nat | |bytes| <= i < m ensures Before(t, a)[i] == ByteOf(now, a + i) { assert got[i] == want[i]; }
    }
  }

  /** A write leaves what a range shows exactly when it leaves the bytes they share. */
  lemma SharedBytes(mem: Memory, a: nat, bytes: seq<Byte>, b: nat, m: nat)
    ensures Bytes(mem, b, m) == Bytes(WriteBytes(mem, a, bytes), b, m) <==>
            forall x: nat :: a <= x < a + |bytes| && b <= x < b + m ==> bytes[x - a] == ByteOf(mem, x)
  {
    hide WriteBytes, ByteOf;
    var was, now := Bytes(mem, b, m), Bytes(WriteBytes(mem, a, bytes), b, m);
    forall x: nat | b <= x < b + m
      ensures was[x - b] == ByteOf(mem, x)
      ensures now[x - b] == if a <= x < a + |bytes| then bytes[x - a] else ByteOf(mem, x)
    {
      WriteBytesAt(mem, a, bytes, x);
    }
    if forall x: nat :: a <= x < a + |bytes| && b <= x < b + m ==> bytes[x - a] == ByteOf(mem, x) {
      forall i | 0 <= i < m ensures was[i] == now[i] {
        assert was[b + i - b] == ByteOf(mem, b + i);
      }
    }
    if was == now {
      forall x: nat | a <= x < a + |bytes| && b <= x < b + m ensures bytes[x - a] == ByteOf(mem, x) {
        assert was[x - b] == now[x - b];
      }
    }
  }

  // ---- any overlap ----

  /** What the table holds for an address. */
  datatype Slot = Free | Holds(data: seq<Byte>)

  ghost function SlotOf(t: Tracer, a: Addr): Slot
    requires Shaped(t)
  {
    if Held(t, a) then Holds(DataAt(t, a)) else Free
  }

  predicate Accepted(lim: Limits, cmd: Command, a: Addr) { AlignedAccess(a, Size(cmd)) && Permitted(lim, a, cmd) }

  /** An accepted store to this very address. */
  predicate StoresAt(lim: Limits, op: Op, a: Addr) {
    op.Access? && op.cmd.Write? && op.a == a && Accepted(lim, op.cmd, a)
  }

  /** An accepted store to whatever address that covers this byte. */
  predicate Covers(lim: Limits, op: Op, x: nat) {
    op.Access? && op.cmd.Write? && Accepted(lim, op.cmd, op.a) && op.a <= x < op.a + |op.cmd.bytes|
  }

  /** The entry for an address after a wrong path: it sees only the stores to this very address. */
  function EntryAfter(e: Slot, lim: Limits, ops: seq<Op>, a: Addr): Slot
    decreases |ops|
  {
    if ops == [] then e
    else
      EntryAfter(if StoresAt(lim, ops[0], a) then Holds(Patch(if e.Free? then Zeros(8) else e.data, ops[0].cmd.bytes)) else e,
                 lim, ops[1..], a)
  }

  /** A byte of memory as the program should see it: it sees every store that covers it. */
  function ByteAfter(v: Byte, lim: Limits, ops: seq<Op>, x: nat): Byte
    decreases |ops|
  {
    if ops == [] then v
    else ByteAfter(if Covers(lim, ops[0], x) then ops[0].cmd.bytes[x - ops[0].a] else v, lim, ops[1..], x)
  }

  predicate AllSized(ops: seq<Op>) { forall i :: 0 <= i < |ops| && ops[i].Access? ==> Sized(Size(ops[i].cmd)) }

  /** One operation on a wrong path changes the entry for its own address, and only if it is an accepted store. */
  lemma SlotStep(t: Tracer, op: Op, a: Addr)
    requires Shaped(t) && TableOk(t) && t.specMode && !op.LeaveSpec? && !op.EnterSpec? && (op.SetReg? ==> RegOk(op.x))
    requires op.Access? ==> Sized(Size(op.cmd))
    ensures var d := Step(t, op);
            && Shaped(d) && TableOk(d) && d.mem == t.mem && d.lim == t.lim
            && SlotOf(d, a) == EntryAfter(SlotOf(t, a), t.lim, [op], a)
  {
    hide TableOk, Held, SpecAccess, AlignedAccess, Permitted, Hash, ChainMap, Zeros, Put, Used;
    OneEntry(SlotOf(t, a), t.lim, op, a);
    SpecOpKeeps(t, op);
    match op
    case SetReg(x, v) => TableSame(t, Step(t, op)); SameData(t, Step(t, op), a);
    case Access(cmd, b) =>
      if !Accepted(t.lim, cmd, b) {
        RefusedIs(t, cmd, b);
      } else if cmd.Read? {
        SpecRead(t, b, cmd.n);
      } else {
        SpecWrite(t, b, cmd.bytes);
      }
  }

  lemma SameData(t: Tracer, d: Tracer, a: Addr)
    requires Shaped(t) && Shaped(d) && d.table == t.table
    ensures SlotOf(d, a) == SlotOf(t, a)
  {
    hide ChainMap, Hash;
  }

  lemma OneEntry(e: Slot, lim: Limits, op: Op, a: Addr)
    ensures EntryAfter(e, lim, [op], a) ==
            if StoresAt(lim, op, a) then Holds(Patch(if e.Free? then Zeros(8) else e.data, op.cmd.bytes)) else e
  {
    hide AlignedAccess, Permitted, Patch, Zeros;
    var f := if StoresAt(lim, op, a) then Holds(Patch(if e.Free? then Zeros(8) else e.data, op.cmd.bytes)) else e;
    assert [op][1..] == [];
    assert EntryAfter(f, lim, [], a) == f;
  }

  /** The table after any wrong path. */
  lemma {:induction false} EntryIs(t: Tracer, ops: seq<Op>, a: Addr)
    requires Shaped(t) && TableOk(t) && StaysSpec(t, ops) && AllSized(ops)
    ensures var d := Run(t, ops);
            && Shaped(d) && TableOk(d) && d.mem == t.mem && d.lim == t.lim && d.specMode
            && SlotOf(d, a) == EntryAfter(SlotOf(t, a), t.lim, ops, a)
    decreases |ops|
  {
    hide TableOk, SlotOf, Step, StoresAt, Patch, Zeros, Sized;
    if ops != [] {
      SlotStep(t, ops[0], a);
      OneEntry(SlotOf(t, a), t.lim, ops[0], a);
      EntryIs(Step(t, ops[0]), ops[1..], a);
    }
  }

  /** The memory the program should see after any wrong path. */
  lemma {:induction false} CopyIs(t: Tracer, c: Copy, ops: seq<Op>, x: nat)
    requires Shaped(t) && StaysSpec(t, ops) && |c.regs.r| == REGS
    ensures ByteOf(RunCopy(t, c, ops).mem, x) == ByteAfter(ByteOf(c.mem, x), t.lim, ops, x)
    decreases |ops|
  {
    hide Step, WriteBytes, ByteOf, AlignedAccess, Permitted, Put;
    if ops != [] {
      var op := ops[0];
      var d := CopyStep(c, t.lim, true, op);
      SpecOpKeeps(t, op);
      if op.Access? && op.cmd.Write? && Accepted(t.lim, op.cmd, op.a) { WriteBytesAt(c.mem, op.a, op.cmd.bytes, x); }
      RegsStay(c, t.lim, op);
      CopyIs(Step(t, op), d, ops[1..], x);
    }
  }

  lemma RegsStay(c: Copy, lim: Limits, op: Op)
    requires |c.regs.r| == REGS && (op.SetReg? ==> RegOk(op.x)) && !op.LeaveSpec?
    ensures |CopyStep(c, lim, true, op).regs.r| == REGS
  {
    hide WriteBytes, AlignedAccess, Permitted;
  }

  /** Byte i of what an entry, or memory without one, shows. */
  function Shown(e: Slot, mem: Memory, a: Addr, i: nat): Byte {
    if e.Free? then ByteOf(mem, a + i) else if i < |e.data| then e.data[i] else 0
  }

  /** After any wrong path, whatever overlaps: a load gets what the stores to its very address left in its entry, or
      memory if there was none, and is right exactly when that agrees, byte by byte, with the stores that cover it. */
  lemma ReadIsRight(t: Tracer, c: Copy, ops: seq<Op>, a: Addr, n: nat)
    requires Shaped(t) && TableOk(t) && StaysSpec(t, ops) && AllSized(ops) && |c.regs.r| == REGS
    requires Sized(n) && AlignedAccess(a, n) && Permitted(t.lim, a, Read(n))
    ensures Shaped(Run(t, ops))
    ensures var r := SpecAccess(Run(t, ops), Read(n), a); var e := EntryAfter(SlotOf(t, a), t.lim, ops, a);
            && r.Done? && |r.bytes| == n && (forall i :: 0 <= i < n ==> r.bytes[i] == Shown(e, t.mem, a, i))
            && (r.bytes == Bytes(RunCopy(t, c, ops).mem, a, n) <==>
                  forall i: nat :: i < n ==> Shown(e, t.mem, a, i) == ByteAfter(ByteOf(c.mem, a + i), t.lim, ops, a + i))
  {
    hide SpecAccess, Run, RunCopy, EntryAfter, ByteAfter, AlignedAccess, Permitted, TableOk, ByteOf, Held;
    EntryIs(t, ops, a);
    var d := Run(t, ops);
    SpecRead(d, a, n);
    var r, want := SpecAccess(d, Read(n), a).bytes, Bytes(RunCopy(t, c, ops).mem, a, n);
    DataSize(d, a);
    forall i: nat | i < n ensures want[i] == ByteAfter(ByteOf(c.mem, a + i), t.lim, ops, a + i) {
      CopyIs(t, c, ops, a + i);
    }
    var e := EntryAfter(SlotOf(t, a), t.lim, ops, a);
    if r == want {
      forall i: nat | i < n ensures Shown(e, t.mem, a, i) == ByteAfter(ByteOf(c.mem, a + i), t.lim, ops, a + i) {
        assert r[i] == want[i];
      }
    }
  }

  lemma DataSize(t: Tracer, a: Addr)
    requires Shaped(t) && TableOk(t)
    ensures Held(t, a) ==> |DataAt(t, a)| == 8
  {
    hide ChainMap, Hash, Unique;
    if Held(t, a) { ChainMapData(t.table[Hash(a)], Hash(a), a); }
  }
}
