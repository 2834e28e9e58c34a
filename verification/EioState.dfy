/** System-call record and replay of eio.c: coalesced memory blobs, one transaction a call. */
module EioState {
  import opened Accesses
  import opened PageState

  const FIRST_REG: nat := 2
  const LAST_REG: nat := 7
  const BLOB_TAIL_SIZE: nat := 256

  /** The machine a system call sees: flat memory, registers, program counter and break point. */
  datatype Machine = Machine(regs: seq<Word>, pc: Addr, mem: map<Addr, Byte>, brk: Addr)

  predicate MachineOk(m: Machine) { |m.regs| > LAST_REG }

  function Load(mem: map<Addr, Byte>, a: Addr): Byte { if a in mem then mem[a] else 0 }

  /** A recorded stretch of memory. */
  datatype Blob = Blob(addr: Addr, data: seq<Byte>)

  /** mem_rec_t with the list it grows: the last blob may still be extended, up to maxsize. */
  datatype Recording = Recording(blobs: seq<Blob>, maxsize: nat)

  /** The coalescing part of my_mem_fn. */
  function Note(r: Recording, a: Addr, p: seq<Byte>): Recording {
    var n := |r.blobs|;
    if n > 0 && Wrap(r.blobs[n - 1].addr + |r.blobs[n - 1].data|) == a && |r.blobs[n - 1].data| + |p| < r.maxsize then
      r.(blobs := r.blobs[n - 1 := r.blobs[n - 1].(data := r.blobs[n - 1].data + p)])
    else Recording(r.blobs + [Blob(a, p)], |p| + BLOB_TAIL_SIZE)
  }

  /** One simulated-memory access of a system call; `junk` is what the caller's buffer held before a read, and
      stays there if the read faults. */
  datatype Op = Get(a: Addr, junk: seq<Byte>) | Put(a: Addr, p: seq<Byte>)

  function BytesAt(mem: map<Addr, Byte>, a: Addr, n: nat): (s: seq<Byte>)
    ensures |s| == n
  {
    seq(n, i requires 0 <= i < n => Load(mem, Wrap(a + i)))
  }

  function Store(mem: map<Addr, Byte>, a: nat, p: seq<Byte>): map<Addr, Byte>
    decreases |p|
  {
    if p == [] then mem else Store(mem[Wrap(a) := p[0]], a + 1, p[1..])
  }

  /** The tracing accessor's state during one call. */
  datatype Tracer = Tracer(mem: map<Addr, Byte>, input: Recording, output: Recording, seenWrite: bool)

  datatype Outcome<+T> = Ok(value: T) | Fatal(why: string) {
    predicate IsFailure() { Fatal? }
    function PropagateFailure<U>(): Outcome<U> requires Fatal? { Fatal(why) }
    function Extract(): T requires Ok? { value }
  }

  /** my_mem_fn over mem_access: an access that faults has no effect, but is recorded. */
  function Perform(t: Tracer, op: Op): Outcome<Tracer> {
    match op
    case Get(a, junk) =>
      if t.seenWrite then Fatal("Read after Write")
      else
        var p := if Check(a, |junk|) == NoFault then BytesAt(t.mem, a, |junk|) else junk;
        Ok(t.(input := Note(t.input, a, p)))
    case Put(a, p) =>
      Ok(t.(output := Note(t.output, a, p), seenWrite := true,
            mem := if Check(a, |p|) == NoFault then Store(t.mem, a, p) else t.mem))
  }

  function PerformAll(t: Tracer, ops: seq<Op>): Outcome<Tracer>
    decreases |ops|
  {
    if ops == [] then Ok(t)
    else
      var t1 :- Perform(t, ops[0]);
      PerformAll(t1, ops[1..])
  }

  /** What a system call does: its memory accesses in order, the registers it returns and the new break point. */
  datatype Call = Call(ops: seq<Op>, out: seq<Word>, brk: Addr)

  predicate CallOk(c: Call) { |c.out| == LAST_REG - FIRST_REG + 1 }

  datatype Transaction = Transaction(icnt: nat, pc: Addr, inRegs: seq<Word>, inMem: seq<Blob>,
                                     brk: Addr, outRegs: seq<Word>, outMem: seq<Blob>)

  function CallRegs(m: Machine): (r: seq<Word>)
    requires MachineOk(m)
    ensures |r| == LAST_REG - FIRST_REG + 1
  {
    m.regs[FIRST_REG..LAST_REG + 1]
  }

  function SetRegs(m: Machine, out: seq<Word>): (r: Machine)
    requires MachineOk(m) && |out| == LAST_REG - FIRST_REG + 1
    ensures MachineOk(r)
  {
    m.(regs := m.regs[..FIRST_REG] + out + m.regs[LAST_REG + 1..])
  }

  const NONE: Recording := Recording([], 0)

  /** eio_write_trace: perform the call and record it. */
  function WriteTrace(m: Machine, icnt: nat, c: Call): Outcome<(Machine, Transaction)>
    requires MachineOk(m) && CallOk(c)
  {
    var t :- PerformAll(Tracer(m.mem, NONE, NONE, false), c.ops);
    Ok((SetRegs(m, c.out).(mem := t.mem, brk := c.brk),
        Transaction(icnt, m.pc, CallRegs(m), t.input.blobs, c.brk, c.out, t.output.blobs)))
  }

  // ---- replay ----

  /** The byte-by-byte check of one blob from its i-th byte. */
  function MatchBlob(mem: map<Addr, Byte>, b: Blob, i: nat): bool
    requires i <= |b.data|
    decreases |b.data| - i
  {
    i == |b.data| || (Load(mem, Wrap(b.addr + i)) == b.data[i] && MatchBlob(mem, b, i + 1))
  }

  function MatchAll(mem: map<Addr, Byte>, bs: seq<Blob>): bool
    decreases |bs|
  {
    bs == [] || (MatchBlob(mem, bs[0], 0) && MatchAll(mem, bs[1..]))
  }

  function PutAll(mem: map<Addr, Byte>, bs: seq<Blob>): map<Addr, Byte>
    decreases |bs|
  {
    if bs == [] then mem else PutAll(Store(mem, bs[0].addr, bs[0].data), bs[1..])
  }

  /** eio_read_trace for calls other than exit. */
  function ReadTrace(m: Machine, icnt: nat, x: Transaction): Outcome<Machine>
    requires MachineOk(m)
  {
    if icnt != x.icnt then Fatal("ICNT mismatch")
    else if m.pc != x.pc then Fatal("PC mismatch")
    else if |x.inRegs| != LAST_REG - FIRST_REG + 1 || CallRegs(m) != x.inRegs then Fatal("input register mismatch")
    else if !MatchAll(m.mem, x.inMem) then Fatal("input memory mismatch")
    else if |x.outRegs| != LAST_REG - FIRST_REG + 1 then Fatal("bad output registers")
    else Ok(SetRegs(m, x.outRegs).(mem := PutAll(m.mem, x.outMem), brk := x.brk))
  }
}
