/** The pipeline invariant: which instruction each latch holds, what the latches, registers and memory are in
    terms of the one-at-a-time run, and that every cycle keeps this. */
module PipeProof {
  import opened PipeState

  /** The destinations an instruction carries down the pipeline: dstE from the ALU, dstM from memory. */
  function OutE(i: Inst): Dep { if i.op == LW then DNA else Out1(i) }
  function OutM(i: Inst): Dep { if i.op == LW then i.rt else DNA }

  /** The destinations of the last instruction before k that is not a no-operation. */
  function LastE(text: seq<Inst>, k: int): Dep
    decreases if k > 0 then k else 0
  {
    if k <= 0 then DNA
    else if Fetch(text, k - 1).op == NOP then LastE(text, k - 1) else OutE(Fetch(text, k - 1))
  }
  function LastM(text: seq<Inst>, k: int): Dep
    decreases if k > 0 then k else 0
  {
    if k <= 0 then DNA
    else if Fetch(text, k - 1).op == NOP then LastM(text, k - 1) else OutM(Fetch(text, k - 1))
  }

  // ---- positions ----

  /** Instruction d is in decode for the second time, behind the bubble of its stall. */
  predicate Retry(text: seq<Inst>, s: Pipe, d: int) { Stalls(text, d) && !s.stall }

  /** How many instructions have passed the memory stage, when d is in decode. */
  function Passed(text: seq<Inst>, s: Pipe, d: int): int { if Retry(text, s, d) then d else d - 1 }

  /** How many have written their results back. */
  function Written(text: seq<Inst>, s: Pipe, d: int): int {
    if Retry(text, s, d) || Stalls(text, d - 1) then d - 1 else d - 2
  }

  predicate Front(text: seq<Inst>, s: Pipe, d: int) {
    && s.fd == Fd(Fetch(text, d + 1), d + 1)
    && s.de.inst == Fetch(text, d)
    && (s.stall ==> Stalls(text, d) && s.de.pc == d)
  }

  // ---- latch contents ----

  /** Latch values for the destinations of the last instruction before k. */
  predicate HoldsE(text: seq<Inst>, a: Arch, k: int, dst: Dep, val: Word) {
    dst == LastE(text, k) && (dst != DNA ==> val == Delivered(text, a, k).regs[dst])
  }
  predicate HoldsM(text: seq<Inst>, a: Arch, k: int, dst: Dep, val: Word) {
    dst == LastM(text, k) && (dst != DNA ==> val == Delivered(text, a, k).regs[dst])
  }

  /** Instructions before e have executed, before m accessed memory, before w written back. */
  predicate Latches(text: seq<Inst>, a: Arch, s: Pipe, e: int, m: int, w: int) {
    && HoldsE(text, a, e, s.em.dstE, s.em.valE) && s.em.dstM == LastM(text, e)
    && HoldsE(text, a, m, s.mw.dstE, s.mw.valE) && HoldsM(text, a, m, s.mw.dstM, s.mw.valM)
    && HoldsE(text, a, w, s.wb.dstE, s.wb.valE) && HoldsM(text, a, w, s.wb.dstM, s.wb.valM)
    && s.regs == Delivered(text, a, w).regs && s.mem == Delivered(text, a, m).mem
  }

  /** A latch holds the instruction before k, or a bubble if that instruction has already moved on. */
  predicate Slot(text: seq<Inst>, i: Inst, k: int, moved: int) {
    (moved == k - 1 && i == Fetch(text, k - 1)) || (moved == k && i.op == NOP)
  }

  predicate BackEnd(text: seq<Inst>, a: Arch, s: Pipe, e: int, m: int, w: int) {
    && Latches(text, a, s, e, m, w)
    && Slot(text, s.em.inst, e, m) && Slot(text, s.mw.inst, m, w)
    && (s.em.inst.op != NOP ==> Access(text, a, s.em, e - 1))
  }

  /** Operand r of instruction k. */
  function Given(text: seq<Inst>, a: Arch, k: int, r: Reg): Word {
    Operand(text, k, r, Delivered(text, a, k - 1), Delivered(text, a, k))
  }

  /** What the execute latch says of a memory access at position k. */
  predicate Access(text: seq<Inst>, a: Arch, e: Em, k: int) {
    var i := Fetch(text, k);
    && (e.load <==> i.op == LW) && (e.store <==> i.op == SW)
    && (i.op == LW || i.op == SW ==> e.valE == Add(Given(text, a, k, i.rs), Sext(i.imm)))
    && (i.op == SW ==> e.valA == Given(text, a, k, i.rt))
  }

  /** What the decode latch says of instruction d once it is through decode. */
  predicate Decoded(text: seq<Inst>, a: Arch, e: De, d: int) {
    var i := Fetch(text, d);
    && e.opcode == i.op && e.func == FuncOf(i.op)
    && e.dstE == OutE(i) && e.dstM == OutM(i)
    && (e.load <==> i.op == LW) && (e.store <==> i.op == SW)
    && (if HasDisp(i.op) then e.aluA == Given(text, a, d, i.rs)
        else In1(i) != DNA ==> e.aluA == Given(text, a, d, In1(i)))
    && (In2(i) != DNA ==> e.aluB == Given(text, a, d, In2(i)))
    && (i.op == SW ==> e.valA == Given(text, a, d, i.rt))
  }

  function LoadOf(i: Inst): set<int> { if i.op == LW then {i.rt as int} else {} }

  /** The busy registers: the load in decode, and the load in execute unless the one in memory cleared it. */
  predicate Pending(s: Pipe) {
    s.busy == (LoadOf(s.em.inst) - LoadOf(s.mw.inst)) + if s.stall then {} else LoadOf(s.de.inst)
  }

  /** Instruction d is in decode. */
  predicate Inv(text: seq<Inst>, a: Arch, s: Pipe, d: int) {
    && Front(text, s, d) && Pending(s)
    && BackEnd(text, a, s, d, Passed(text, s, d), Written(text, s, d))
    && (!s.stall && s.de.inst.op != NOP ==> Decoded(text, a, s.de, d))
  }

  // ---- the reference ----

  /** A register the last instruction before k does not write is unchanged by instruction k - 1. */
  lemma Unwritten(text: seq<Inst>, a: Arch, k: int, r: Reg)
    requires r != LastE(text, k) && r != LastM(text, k)
    ensures Delivered(text, a, k).regs[r] == Delivered(text, a, k - 1).regs[r]
  {
    hide Operand, LoadWord, StoreWord, Less, ShiftLeft, Sext, Shamt, Add, And;
  }

  /** A no-operation changes nothing, and neither the last destinations. */
  lemma NopKeeps(text: seq<Inst>, a: Arch, k: int)
    requires Fetch(text, k).op == NOP
    ensures Delivered(text, a, k + 1) == Delivered(text, a, k)
    ensures LastE(text, k + 1) == LastE(text, k) && LastM(text, k + 1) == LastM(text, k)
  {
    hide Operand;
  }

  // ---- forwarding ----

  /** Forwarding finds, for every register instruction d reads, the operand of the reference, both on the
      first decode of d and on the second one behind a bubble. */
  lemma ForwardRight(text: seq<Inst>, a: Arch, s: Pipe, d: int, r: Reg)
    requires Latches(text, a, s, d, Passed(text, s, d), Written(text, s, d)) && !s.stall && Reads(Fetch(text, d), r)
    ensures Forwarded(s, r) == Given(text, a, d, r)
  {
    hide Latches, Forwarded, Stalls, Reads;
    if Stalls(text, d) { ForwardRetry(text, a, s, d, r); } else { ForwardFirst(text, a, s, d, r); }
  }

  lemma ForwardRetry(text: seq<Inst>, a: Arch, s: Pipe, d: int, r: Reg)
    requires Latches(text, a, s, d, d, d - 1) && Stalls(text, d)
    ensures Forwarded(s, r) == Given(text, a, d, r)
  {
    hide Delivered, Fetch, LoadUse, Cleared, LastE, LastM;
    if r != LastE(text, d) && r != LastM(text, d) { Unwritten(text, a, d, r); }
  }

  lemma ForwardFirst(text: seq<Inst>, a: Arch, s: Pipe, d: int, r: Reg)
    requires !Stalls(text, d) && Reads(Fetch(text, d), r)
    requires Latches(text, a, s, d, d - 1, d - 1) || Latches(text, a, s, d, d - 1, d - 2)
    ensures Forwarded(s, r) == Given(text, a, d, r)
  {
    hide Delivered, Stalls, Cleared, LastE, LastM, Fetch, LoadUse, Out1, Reads;
    OperandIs(text, a, d, r);
    if r != LastE(text, d - 1) && r != LastM(text, d - 1) { Unwritten(text, a, d - 1, r); }
  }

  /** Which value the reference delivers to a first-time decode. */
  lemma OperandIs(text: seq<Inst>, a: Arch, d: int, r: Reg)
    requires !Stalls(text, d) && Reads(Fetch(text, d), r)
    ensures r == LastE(text, d) ==> Given(text, a, d, r) == Delivered(text, a, d).regs[r]
    ensures r != LastE(text, d) ==> Given(text, a, d, r) == Delivered(text, a, d - 1).regs[r]
    ensures r != LastE(text, d) && r == LastM(text, d) ==> r == LastM(text, d - 1)
  {
    hide Delivered, In1, In2;
    var j := Fetch(text, d - 1);
    if r != LastE(text, d) && r != LastM(text, d) {
      Unwritten(text, a, d, r);
    } else if j.op == NOP {
      NopKeeps(text, a, d - 1);
    }
  }

  // ---- the back end: one step of write-back, memory and execute ----

  lemma DeliveredStep(text: seq<Inst>, a: Arch, k: int)
    requires Fetch(text, k).op != NOP
    ensures var i := Fetch(text, k);
            Delivered(text, a, k + 1) == Exec(i, Delivered(text, a, k), Given(text, a, k, i.rs), Given(text, a, k, i.rt))
    ensures LastE(text, k + 1) == OutE(Fetch(text, k)) && LastM(text, k + 1) == OutM(Fetch(text, k))
  {
    hide Operand, Exec;
  }

  /** What an instruction that is not a no-operation does, by its destinations. */
  predicate Effect(i: Inst, now: Arch, next: Arch, rs: Word, rt: Word) {
    && (OutE(i) != DNA ==> next.regs == now.regs[OutE(i) := next.regs[OutE(i)]])
    && (OutM(i) != DNA ==> next.regs == now.regs[OutM(i) := next.regs[OutM(i)]])
    && (Out1(i) == DNA ==> next.regs == now.regs)
    && (i.op != SW ==> next.mem == now.mem)
    && (i.op == SW ==> next.mem == StoreWord(now.mem, Add(rs, Sext(i.imm)), rt))
    && (i.op == LW ==> next.regs[i.rt] == LoadWord(now.mem, Add(rs, Sext(i.imm))))
  }

  lemma ExecEffect(i: Inst, a: Arch, rs: Word, rt: Word)
    ensures Effect(i, a, Exec(i, a, rs, rt), rs, rt)
  {
    hide Sext, Shamt, Add, And, LoadWord, StoreWord, Less, ShiftLeft;
  }

  lemma ExecWrites(text: seq<Inst>, a: Arch, k: int)
    requires Fetch(text, k).op != NOP
    ensures var i := Fetch(text, k);
            Effect(i, Delivered(text, a, k), Delivered(text, a, k + 1), Given(text, a, k, i.rs), Given(text, a, k, i.rt))
    ensures LastE(text, k + 1) == OutE(Fetch(text, k)) && LastM(text, k + 1) == OutM(Fetch(text, k))
  {
    hide *;
    var i := Fetch(text, k);
    DeliveredStep(text, a, k);
    ExecEffect(i, Delivered(text, a, k), Given(text, a, k, i.rs), Given(text, a, k, i.rt));
  }

  lemma WriteBackStep(text: seq<Inst>, a: Arch, s: Pipe, e: int, m: int, w: int)
    requires Latches(text, a, s, e, m, w) && Slot(text, s.mw.inst, m, w)
    ensures Latches(text, a, WriteBack(s), e, m, m)
  {
    hide Delivered, LastE, LastM, Fetch, Out1;
    if w == m - 1 {
      if s.mw.inst.op == NOP { NopKeeps(text, a, m - 1); } else { ExecWrites(text, a, m - 1); }
    }
  }

  lemma MemStep(text: seq<Inst>, a: Arch, s: Pipe, e: int, m: int)
    requires Latches(text, a, s, e, m, m) && Slot(text, s.em.inst, e, m)
    requires s.em.inst.op != NOP ==> Access(text, a, s.em, e - 1)
    ensures Latches(text, a, MemStage(s), e, e, m) && Slot(text, MemStage(s).mw.inst, e, m)
  {
    hide Delivered, LastE, LastM, Fetch, Access, Effect, LoadWord, StoreWord;
    if m == e - 1 {
      if s.em.inst.op == NOP {
        NopKeeps(text, a, e - 1);
      } else {
        ExecWrites(text, a, e - 1);
        MemAccess(text, a, s, e);
      }
    }
  }

  /** A memory access that is not a bubble reads or writes what the reference does. */
  lemma MemAccess(text: seq<Inst>, a: Arch, s: Pipe, e: int)
    requires s.em.inst == Fetch(text, e - 1) && s.em.inst.op != NOP && Access(text, a, s.em, e - 1)
    requires s.em.dstM == OutM(s.em.inst) && s.mem == Delivered(text, a, e - 1).mem
    requires var i := s.em.inst;
             Effect(i, Delivered(text, a, e - 1), Delivered(text, a, e), Given(text, a, e - 1, i.rs), Given(text, a, e - 1, i.rt))
    ensures MemStage(s).mem == Delivered(text, a, e).mem
    ensures s.em.dstM != DNA ==> MemStage(s).mw.valM == Delivered(text, a, e).regs[s.em.dstM]
  {
    hide Delivered, Fetch, Given, LoadWord, StoreWord, Sext, Add;
  }

  /** The ALU computes what one-at-a-time execution does, from the operands the decode latch names. */
  lemma AluComputes(d: De, a: Arch, rs: Word, rt: Word)
    requires var i := d.inst;
             && i.op != NOP && d.opcode == i.op && d.func == FuncOf(i.op)
             && d.aluA == (if i.op == SLL then rt else rs)
             && (i.op == ADD || i.op == ADDU ==> d.aluB == rt)
    ensures var v := Alu(d.func, d.aluA, OperandB(d));
            && (OutE(d.inst) != DNA ==> v == Exec(d.inst, a, rs, rt).regs[OutE(d.inst)])
            && (HasDisp(d.inst.op) ==> v == Add(rs, Sext(d.inst.imm)))
  {
    hide Sext, Shamt, Add, And, LoadWord, StoreWord, Less, ShiftLeft;
  }

  lemma DecodedSources(text: seq<Inst>, a: Arch, d: De, k: int)
    requires Decoded(text, a, d, k) && d.inst == Fetch(text, k) && d.inst.op != NOP
    ensures var i := d.inst;
            && d.opcode == i.op && d.func == FuncOf(i.op)
            && d.aluA == (if i.op == SLL then Given(text, a, k, i.rt) else Given(text, a, k, i.rs))
            && (i.op == ADD || i.op == ADDU ==> d.aluB == Given(text, a, k, i.rt))
  {
    hide Given, Fetch, FuncOf;
  }

  lemma AluRight(text: seq<Inst>, a: Arch, d: De, k: int)
    requires Decoded(text, a, d, k) && d.inst == Fetch(text, k) && d.inst.op != NOP
    ensures var i := d.inst; var v := Alu(d.func, d.aluA, OperandB(d));
            && (OutE(i) != DNA ==> v == Delivered(text, a, k + 1).regs[OutE(i)])
            && (HasDisp(i.op) ==> v == Add(Given(text, a, k, i.rs), Sext(i.imm)))
  {
    hide *;
    DecodedSources(text, a, d, k);
    DeliveredStep(text, a, k);
    AluComputes(d, Delivered(text, a, k), Given(text, a, k, d.inst.rs), Given(text, a, k, d.inst.rt));
  }

  /** Execute takes a bubble or a decoded instruction. */
  lemma ExecuteStep(text: seq<Inst>, a: Arch, s: Pipe, e: int, m: int, e': int)
    requires Latches(text, a, s, e, e, m) && Slot(text, s.mw.inst, e, m) && Slot(text, s.de.inst, e', e)
    requires e' == e + 1 && s.de.inst.op != NOP ==> Decoded(text, a, s.de, e)
    ensures BackEnd(text, a, Execute(s), e', e, m)
  {
    hide Delivered, LastE, LastM, Fetch, Decoded, Access, Effect, OutE, OutM, Alu, OperandB;
    if e' == e + 1 {
      if s.de.inst.op == NOP {
        NopKeeps(text, a, e);
      } else {
        DeliveredStep(text, a, e);
        AluRight(text, a, s.de, e);
        DecodedAccess(text, a, s.de, e);
      }
    }
  }

  lemma DecodedAccess(text: seq<Inst>, a: Arch, d: De, k: int)
    requires Decoded(text, a, d, k) && d.inst == Fetch(text, k) && d.inst.op != NOP
    ensures d.dstE == OutE(d.inst) && d.dstM == OutM(d.inst)
    ensures var v := Alu(d.func, d.aluA, OperandB(d));
            Access(text, a, Em(d.inst, d.pc, v, d.valA, d.dstE, d.dstM, d.load, d.store), k)
  {
    hide Given, Fetch, OutE, OutM, Alu, OperandB, Sext, Add;
    AluRight(text, a, d, k);
  }

  lemma BackEndStep(text: seq<Inst>, a: Arch, s: Pipe, e: int, m: int, w: int, e': int)
    requires BackEnd(text, a, s, e, m, w) && Slot(text, s.de.inst, e', e)
    requires e' == e + 1 && s.de.inst.op != NOP ==> Decoded(text, a, s.de, e)
    ensures BackEnd(text, a, Execute(MemStage(WriteBack(s))), e', e, m)
  {
    hide Latches, Access, Decoded, Slot, Sext, Alu, SetReg, OperandB;
    WriteBackStep(text, a, s, e, m, w);
    MemStep(text, a, WriteBack(s), e, m);
    ExecuteStep(text, a, MemStage(WriteBack(s)), e, m, e');
  }

  // ---- the front end: busy registers, stalls and decode ----

  /** The machine after the back-end stages of a cycle. */
  function Back(s: Pipe): Pipe { Execute(MemStage(WriteBack(Control(s)))) }

  /** The instruction in decode after the next cycle. */
  function NextIn(s: Pipe, d: int): int { if s.stall then d else d + 1 }

  lemma BackIs(text: seq<Inst>, a: Arch, s: Pipe, d: int)
    requires Inv(text, a, s, d)
    ensures BackEnd(text, a, Back(s), NextIn(s, d), d, Passed(text, s, d))
  {
    hide Latches, Access, Decoded, Fetch, Stalls, WriteBack, MemStage, Execute, Pending;
    var c := Control(s);
    BackEndKept(text, a, s, c, d, Passed(text, s, d), Written(text, s, d));
    BackEndStep(text, a, c, d, Passed(text, s, d), Written(text, s, d), NextIn(s, d));
  }

  lemma BackEndKept(text: seq<Inst>, a: Arch, s: Pipe, t: Pipe, e: int, m: int, w: int)
    requires BackEnd(text, a, s, e, m, w)
    requires t.em == s.em && t.mw == s.mw && t.wb == s.wb && t.regs == s.regs && t.mem == s.mem
    ensures BackEnd(text, a, t, e, m, w)
  {
    hide Access, Delivered, LastE, LastM, Fetch;
  }

  lemma LoadInEx(text: seq<Inst>, a: Arch, s: Pipe, d: int)
    requires Inv(text, a, s, d) && s.em.inst.op != NOP
    ensures s.em.load <==> s.em.inst.op == LW
    ensures s.em.inst.op == LW ==> s.em.dstM == s.em.inst.rt
  {
    hide Delivered, LastE, Pending, Decoded, Front, Given;
  }

  /** After the back end has moved, the busy register is the load in execute, unless the memory stage has
      just cleared that bit. */
  lemma BusyAfter(text: seq<Inst>, a: Arch, s: Pipe, d: int)
    requires Inv(text, a, s, d)
    ensures Back(s).busy == LoadOf(Back(s).em.inst) - LoadOf(Back(s).mw.inst)
    ensures Back(s).em.inst == (if s.stall then Bubble(s.de.inst) else s.de.inst) && Back(s).mw.inst == s.em.inst
    ensures Back(s).stall == s.stall && Back(s).fd == (if s.stall then Fd(s.de.inst, s.de.pc) else s.fd)
  {
    hide BackEnd, Decoded, Front, Back;
    BackShape(s);
    if s.em.inst.op != NOP { LoadInEx(text, a, s, d); }
  }

  lemma BackShape(s: Pipe)
    ensures Back(s).em.inst == (if s.stall then Bubble(s.de.inst) else s.de.inst) && Back(s).mw.inst == s.em.inst
    ensures Back(s).stall == s.stall && Back(s).fd == (if s.stall then Fd(s.de.inst, s.de.pc) else s.fd)
    ensures Back(s).busy == if s.em.inst.op != NOP && s.em.load then s.busy - {s.em.dstM} else s.busy
  {
    hide Execute, MemStage, WriteBack, Control;
    var c := Control(s);
    ControlShape(s);
    var w := WriteBack(c);
    WriteBackShape(c);
    MemShape(w);
    ExecuteShape(MemStage(w));
  }

  lemma ControlShape(s: Pipe)
    ensures var t := Control(s);
            t == s.(fd := t.fd, de := t.de) && t.de.inst == (if s.stall then Bubble(s.de.inst) else s.de.inst)
            && t.fd == if s.stall then Fd(s.de.inst, s.de.pc) else s.fd
  {
  }

  lemma WriteBackShape(s: Pipe)
    ensures var t := WriteBack(s); t == s.(regs := t.regs, wb := t.wb)
  {
    hide SetReg;
  }

  lemma MemShape(s: Pipe)
    ensures var t := MemStage(s);
            && t == s.(mem := t.mem, mw := t.mw, busy := t.busy) && t.mw.inst == s.em.inst
            && t.busy == if s.em.inst.op != NOP && s.em.load then s.busy - {s.em.dstM} else s.busy
  {
    hide LoadWord, StoreWord;
  }

  lemma ExecuteShape(s: Pipe)
    ensures var t := Execute(s); t == s.(em := t.em) && t.em.inst == s.de.inst
  {
    hide Alu, OperandB;
  }

  /** Decode holds an instruction back exactly when the reference says it stalls. */
  lemma BlockedIs(text: seq<Inst>, a: Arch, s: Pipe, d: int)
    requires Inv(text, a, s, d)
    ensures Back(s).fd.inst == Fetch(text, NextIn(s, d)) && Back(s).fd.pc == NextIn(s, d)
    ensures Blocked(Back(s), Fetch(text, NextIn(s, d))) <==> !s.stall && Stalls(text, d + 1)
    ensures Fetch(text, NextIn(s, d)).op == NOP ==> !s.stall && !Stalls(text, d + 1)
  {
    hide Latches, Decoded, Access, Pending, Back, In1, In2, LastE, LastM, Delivered;
    BusyAfter(text, a, s, d);
    if s.stall {
      StallsReads(text, d);
    } else {
      StallsUnfold(text, d + 1);
    }
  }

  lemma StallsReads(text: seq<Inst>, d: int)
    requires Stalls(text, d)
    ensures Fetch(text, d).op != NOP && 0 < d
  {
    hide Cleared;
  }

  lemma StallsUnfold(text: seq<Inst>, d: int)
    ensures Stalls(text, d) <==>
            && Fetch(text, d - 1).op == LW && Reads(Fetch(text, d), Out1(Fetch(text, d - 1)))
            && !(Fetch(text, d - 2).op == LW && Out1(Fetch(text, d - 2)) == Out1(Fetch(text, d - 1))
                 && !Stalls(text, d - 1))
    ensures Fetch(text, d).op == NOP ==> !Stalls(text, d)
  {
  }

  /** What decode and forward leave in the decode latch. */
  lemma DecodeForwards(text: seq<Inst>, a: Arch, u: Pipe, d: int)
    requires u.fd.inst == Fetch(text, d) && u.fd.inst.op != NOP && !Blocked(u, u.fd.inst)
    requires forall r: Reg :: Reads(Fetch(text, d), r) ==> Forwarded(u, r) == Given(text, a, d, r)
    ensures Decoded(text, a, Forward(Decode(u)).de, d)
  {
    hide Fetch, Given, Blocked, FuncOf;
    var v := Decode(u);
    forall r: Dep ensures Forwarded(v, r) == Forwarded(u, r) {}
    hide Forwarded;
    var i := Fetch(text, d);
    assert i.op == SW ==> Reads(i, i.rt) && Reads(i, i.rs);
    assert In1(i) != DNA ==> Reads(i, In1(i));
    assert In2(i) != DNA ==> Reads(i, In2(i));
  }

  // ---- a whole cycle ----

  lemma ShapeAfter(text: seq<Inst>, s: Pipe)
    ensures Cycle(text, s) == FetchStage(text, Forward(Decode(Back(s))))
  {
  }

  /** Decode, forward and fetch leave the back end alone. */
  lemma FrontKeeps(text: seq<Inst>, u: Pipe)
    ensures var t := FetchStage(text, Forward(Decode(u)));
            && t.em == u.em && t.mw == u.mw && t.wb == u.wb && t.regs == u.regs && t.mem == u.mem
            && t.fd == Fd(Fetch(text, u.fd.pc + 1), u.fd.pc + 1)
            && t.de.inst == u.fd.inst && t.de.pc == u.fd.pc
            && t.de == Forward(Decode(u)).de
            && t.stall == (if u.fd.inst.op == NOP then u.stall else Blocked(u, u.fd.inst))
            && t.busy == u.busy + if u.fd.inst.op == NOP || Blocked(u, u.fd.inst) then {} else LoadOf(u.fd.inst)
  {
    hide Fetch, Blocked, Forwarded, FuncOf, In1, In2;
  }

  lemma FrontAfter(text: seq<Inst>, a: Arch, s: Pipe, d: int)
    requires Inv(text, a, s, d)
    ensures var t := Cycle(text, s);
            && Front(text, t, NextIn(s, d)) && Pending(t)
            && (t.stall <==> !s.stall && Stalls(text, d + 1))
            && Passed(text, t, NextIn(s, d)) == d && Written(text, t, NextIn(s, d)) == Passed(text, s, d)
  {
    hide BackEnd, Back, Cycle, Forward, Decode, FetchStage, Blocked, Stalls, Fetch, Decoded;
    BlockedIs(text, a, s, d);
    BusyAfter(text, a, s, d);
    ShapeAfter(text, s);
    FrontKeeps(text, Back(s));
    assert s.stall ==> Stalls(text, d);
  }

  lemma DecodedAfter(text: seq<Inst>, a: Arch, s: Pipe, d: int)
    requires Inv(text, a, s, d)
    ensures var t := Cycle(text, s); !t.stall && t.de.inst.op != NOP ==> Decoded(text, a, t.de, NextIn(s, d))
  {
    hide BackEnd, Back, Cycle, Forward, Decode, FetchStage, Blocked, Stalls, Fetch, Decoded, Latches, Reads, Forwarded;
    var u, t, e := Back(s), Cycle(text, s), NextIn(s, d);
    FrontAfter(text, a, s, d);
    BlockedIs(text, a, s, d);
    BackIs(text, a, s, d);
    ShapeAfter(text, s);
    FrontKeeps(text, u);
    if !t.stall && t.de.inst.op != NOP {
      LatchesKept(text, a, u, t, e, d, Passed(text, s, d));
      forall r: Reg | Reads(Fetch(text, e), r) ensures Forwarded(u, r) == Given(text, a, e, r) {
        ForwardRight(text, a, t, e, r);
        ForwardKept(u, t, r);
      }
      DecodeForwards(text, a, u, e);
    }
  }

  lemma ForwardKept(u: Pipe, t: Pipe, r: Reg)
    requires t.em == u.em && t.mw == u.mw && t.wb == u.wb && t.regs == u.regs
    ensures Forwarded(t, r) == Forwarded(u, r)
  {
  }

  lemma LatchesKept(text: seq<Inst>, a: Arch, s: Pipe, t: Pipe, e: int, m: int, w: int)
    requires BackEnd(text, a, s, e, m, w)
    requires t.em == s.em && t.mw == s.mw && t.wb == s.wb && t.regs == s.regs && t.mem == s.mem
    ensures Latches(text, a, t, e, m, w)
  {
    hide Access, Delivered, LastE, LastM, Fetch;
  }

  /** Every cycle keeps the invariant, and decode moves on by one instruction unless it was held. */
  lemma CycleKeeps(text: seq<Inst>, a: Arch, s: Pipe, d: int)
    requires Inv(text, a, s, d)
    ensures Inv(text, a, Cycle(text, s), NextIn(s, d))
    ensures Cycle(text, s).stall <==> !s.stall && Stalls(text, d + 1)
  {
    hide BackEnd, Back, Cycle, Forward, Decode, FetchStage, Stalls, Fetch, Decoded, Pending, Front, Passed, Written;
    FrontAfter(text, a, s, d);
    DecodedAfter(text, a, s, d);
    BackIs(text, a, s, d);
    ShapeAfter(text, s);
    FrontKeeps(text, Back(s));
    BackEndKept(text, a, Back(s), Cycle(text, s), NextIn(s, d), d, Passed(text, s, d));
  }

  lemma InitInv(text: seq<Inst>, a: Arch)
    ensures Inv(text, a, Init(a.regs, a.mem), -2)
  {
  }
}
