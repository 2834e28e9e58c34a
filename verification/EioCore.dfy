/** Recording and replaying as eio.c does it: memory records grown in place, loops over registers and blobs. */
module EioCore {
  import opened Accesses
  import opened PageState
  import opened EioState
  import opened EioProof

  /** input_mem_rec or output_mem_rec with its list of blobs. */
  class MemRecord {
    var blobs: seq<Blob>
    var maxsize: nat

    ghost function Snap(): Recording
      reads this
    {
      Recording(blobs, maxsize)
    }

    constructor ()
      ensures Snap() == NONE
    {
      blobs, maxsize := [], 0;
    }

    /** The coalescing part of my_mem_fn: add to the last blob, or start a new one. */
    method Add(a: Addr, p: seq<Byte>)
      modifies this
      ensures Snap() == Note(old(Snap()), a, p)
      ensures CellsOf(blobs) == CellsOf(old(blobs)) + Cells(a, p)
    {
      NoteKeepsCells(Snap(), a, p);
      hide CellsOf, Cells;
      var n := |blobs|;
      if n > 0 && Wrap(blobs[n - 1].addr + |blobs[n - 1].data|) == a && |blobs[n - 1].data| + |p| < maxsize {
        var b := blobs[n - 1];
        assert b.data + p[..0] == b.data && blobs[n - 1 := b] == blobs;
        for i := 0 to |p|
          invariant |blobs| == n && maxsize == old(maxsize)
          invariant blobs == old(blobs)[n - 1 := b.(data := b.data + p[..i])]
        {
          var last := blobs[n - 1];
          assert b.data + p[..i] + [p[i]] == b.data + p[..i + 1];
          blobs := blobs[n - 1 := last.(data := last.data + [p[i]])];
        }
        assert p[..|p|] == p;
      } else {
        blobs := blobs + [Blob(a, p)];
        maxsize := |p| + BLOB_TAIL_SIZE;
      }
    }
  }

  class Recorder {
    var regs: seq<Word>
    var pc: Addr
    var mem: map<Addr, Byte>
    var brk: Addr
    const input: MemRecord
    const output: MemRecord
    var seenWrite: bool

    ghost function Snap(): Machine
      reads this
    {
      Machine(regs, pc, mem, brk)
    }

    ghost function Tracing(): Tracer
      reads this, input, output
    {
      Tracer(mem, input.Snap(), output.Snap(), seenWrite)
    }

    /** Set up for one call. */
    constructor (m: Machine)
      ensures Snap() == m && Tracing() == Tracer(m.mem, NONE, NONE, false)
      ensures fresh(input) && fresh(output) && input != output
    {
      regs, pc, mem, brk, seenWrite := m.regs, m.pc, m.mem, m.brk, false;
      input := new MemRecord();
      output := new MemRecord();
    }

    /** my_mem_fn; false if it reads after a write. */
    method MyMemFn(op: Op) returns (ok: bool, p: seq<Byte>)
      requires input != output
      modifies this, input, output
      ensures match Perform(old(Tracing()), op)
              case Ok(t) => ok && Tracing() == t && Snap() == old(Snap()).(mem := mem)
              case Fatal(_) => !ok
      ensures ok && op.Get? ==> p == if Check(op.a, |op.junk|) == NoFault then BytesAt(old(mem), op.a, |op.junk|) else op.junk
    {
      hide Note, BytesAt, Check, Store, CellsOf, Cells;
      p, ok := [], true;
      match op {
        case Get(a, junk) =>
          if seenWrite { return false, p; }
          p := if Check(a, |junk|) == NoFault then BytesAt(mem, a, |junk|) else junk;
          input.Add(a, p);
        case Put(a, q) =>
          seenWrite := true;
          output.Add(a, q);
          if Check(a, |q|) == NoFault { mem := StoreBytes(mem, a, q); }
      }
    }

    /** sys_syscall through the tracing accessor. */
    method DoCall(ops: seq<Op>) returns (ok: bool)
      requires input != output
      modifies this, input, output
      ensures match PerformAll(old(Tracing()), ops)
              case Ok(t) => ok && Tracing() == t && Snap() == old(Snap()).(mem := mem)
              case Fatal(_) => !ok
    {
      hide Perform;
      for i := 0 to |ops|
        invariant PerformAll(Tracing(), ops[i..]) == PerformAll(old(Tracing()), ops)
        invariant Snap() == old(Snap()).(mem := mem)
      {
        assert ops[i..][1..] == ops[i + 1..];
        var p;
        ok, p := MyMemFn(ops[i]);
        if !ok { return; }
      }
      return true;
    }

    /** Copy output registers in, one by one. */
    method SetOutRegs(out: seq<Word>)
      requires MachineOk(Snap()) && |out| == LAST_REG - FIRST_REG + 1
      modifies `regs
      ensures Snap() == SetRegs(old(Snap()), out)
    {
      for i := FIRST_REG to LAST_REG + 1
        invariant |regs| == |old(regs)|
        invariant forall j :: 0 <= j < |regs| ==> regs[j] == if FIRST_REG <= j < i then out[j - FIRST_REG] else old(regs[j])
      {
        regs := regs[i := out[i - FIRST_REG]];
      }
      assert regs == SetRegs(old(Snap()), out).regs;
    }

    /** eio_write_trace */
    method EioWriteTrace(icnt: nat, c: Call) returns (ok: bool, x: Transaction)
      requires input != output && MachineOk(Snap()) && CallOk(c) && Tracing() == Tracer(mem, NONE, NONE, false)
      modifies this, input, output
      ensures match WriteTrace(old(Snap()), icnt, c)
              case Ok(r) => ok && Snap() == r.0 && x == r.1
              case Fatal(_) => !ok
    {
      hide PerformAll;
      var inRegs: seq<Word> := regs[FIRST_REG..LAST_REG + 1];
      x := Transaction(icnt, pc, inRegs, [], 0, [], []);
      ok := DoCall(c.ops);
      if !ok { return; }
      SetOutRegs(c.out);
      brk := c.brk;
      x := Transaction(icnt, pc, inRegs, input.blobs, c.brk, c.out, output.blobs);
    }

    /** The memory-input loop of eio_read_trace. */
    method CheckInputs(bs: seq<Blob>) returns (ok: bool)
      ensures ok <==> MatchAll(mem, bs)
      ensures ok <==> MatchCells(mem, CellsOf(bs))
    {
      hide MatchCells, CellsOf;
      MatchAllIs(mem, bs);
      assert bs[0..] == bs;
      for k := 0 to |bs|
        invariant MatchAll(mem, bs[k..]) <==> MatchAll(mem, bs)
      {
        assert bs[k..][1..] == bs[k + 1..];
        ok := CheckBlob(bs[k]);
        if !ok { return; }
      }
      return true;
    }

    method CheckBlob(b: Blob) returns (ok: bool)
      ensures ok <==> MatchBlob(mem, b, 0)
    {
      hide Wrap;
      for i := 0 to |b.data|
        invariant MatchBlob(mem, b, i) <==> MatchBlob(mem, b, 0)
      {
        if Load(mem, Wrap(b.addr + i)) != b.data[i] { return false; }
      }
      return true;
    }

    /** The memory-output loop of eio_read_trace. */
    method WriteOutputs(bs: seq<Blob>)
      modifies `mem
      ensures mem == PutAll(old(mem), bs)
    {
      hide Store;
      assert bs[0..] == bs;
      for k := 0 to |bs|
        invariant PutAll(mem, bs[k..]) == PutAll(old(mem), bs)
      {
        assert bs[k..][1..] == bs[k + 1..];
        mem := StoreBytes(mem, bs[k].addr, bs[k].data);
      }
    }

    /** eio_read_trace */
    method EioReadTrace(icnt: nat, x: Transaction) returns (ok: bool)
      requires MachineOk(Snap())
      modifies this
      ensures match ReadTrace(old(Snap()), icnt, x)
              case Ok(m) => ok && Snap() == m
              case Fatal(_) => !ok
    {
      hide MatchAll, PutAll, MatchCells, CellsOf;
      if icnt != x.icnt || pc != x.pc { return false; }
      if |x.inRegs| != LAST_REG - FIRST_REG + 1 || regs[FIRST_REG..LAST_REG + 1] != x.inRegs { return false; }
      ok := CheckInputs(x.inMem);
      if !ok || |x.outRegs| != LAST_REG - FIRST_REG + 1 { return false; }
      brk := x.brk;
      SetOutRegs(x.outRegs);
      WriteOutputs(x.outMem);
    }
  }

  /** A write byte by byte. */
  method StoreBytes(mem: map<Addr, Byte>, a: nat, p: seq<Byte>) returns (m: map<Addr, Byte>)
    ensures m == Store(mem, a, p)
  {
    hide Wrap;
    m := mem;
    assert p[0..] == p;
    for i := 0 to |p|
      invariant Store(m, a + i, p[i..]) == Store(mem, a, p)
    {
      assert p[i..][1..] == p[i + 1..];
      m := m[Wrap(a + i) := p[i]];
    }
  }
}
