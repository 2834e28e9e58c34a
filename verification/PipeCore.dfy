/** The pipeline as sim-pipe.c keeps it: a register file, memory, five latches and the control bits, updated
    in place by one routine per stage. */
module PipeCore {
  import opened PipeState
  import opened PipeTheorems

  class Pipeline {
    const text: seq<Inst>
    const regs: array<Word>
    var mem: Memory
    var fd: Fd
    var de: De
    var em: Em
    var mw: Mw
    var wb: Wb
    var stall: bool
    var busy: set<int>

    ghost predicate Sound()
      reads this
    {
      regs.Length == 32
    }

    ghost function Snap(): Pipe
      requires Sound()
      reads this, regs
    {
      Pipe(regs[..], mem, fd, de, em, mw, wb, stall, busy)
    }

    constructor (text0: seq<Inst>, regs0: Regs, mem0: Memory)
      ensures text == text0 && Sound() && Snap() == PipeState.Init(regs0, mem0) && fresh(regs)
    {
      text := text0;
      regs := new Word[32](i requires 0 <= i < 32 => regs0[i]);
      mem := mem0;
      fd := Fd(BUBBLE, -1);
      de := De(BUBBLE, 0, NOP, 0, 0, 0, AluNop, 0, 0, 0, 0, 0, DNA, DNA, false, false);
      em := Em(BUBBLE, 0, 0, 0, DNA, DNA, false, false);
      mw := Mw(BUBBLE, 0, 0, 0, DNA, DNA, false, false);
      wb := Wb(BUBBLE, 0, 0, 0, DNA, DNA);
      stall, busy := false, {};
      new;
      assert regs[..] == regs0;
    }

    /** pipeline_control */
    method PipelineControl()
      requires Sound()
      modifies this
      ensures Sound() && Snap() == Control(old(Snap()))
    {
      if stall {
        fd := Fd(de.inst, de.pc);
        de := de.(inst := de.inst.(op := NOP));
      }
    }

    method SetGpr(r: Dep, v: Word)
      requires Sound()
      modifies regs
      ensures regs[..] == SetReg(old(regs[..]), r, v)
    {
      if r != DNA { regs[r] := v; }
    }

    /** do_wb */
    method DoWb()
      requires Sound()
      modifies this, regs
      ensures Sound() && Snap() == WriteBack(old(Snap()))
    {
      hide SetReg;
      wb := wb.(inst := mw.inst);
      if wb.inst.op == NOP { return; }
      wb := wb.(pc := mw.pc, dstE := mw.dstE, dstM := mw.dstM, valE := mw.valE, valM := mw.valM);
      SetGpr(mw.dstM, mw.valM);
      SetGpr(mw.dstE, mw.valE);
    }

    /** do_mem */
    method DoMem()
      requires Sound()
      modifies this
      ensures Sound() && Snap() == MemStage(old(Snap()))
    {
      hide LoadWord, StoreWord;
      mw := mw.(inst := em.inst);
      if mw.inst.op == NOP { return; }
      mw := mw.(dstE := em.dstE, dstM := em.dstM, valE := em.valE, pc := em.pc, load := em.load, store := em.store);
      if mw.load {
        mw := mw.(valM := LoadWord(mem, mw.valE));
        busy := busy - {mw.dstM};
      } else if mw.store {
        mem := StoreWord(mem, mw.valE, em.valA);
      }
    }

    /** do_ex */
    method DoEx()
      requires Sound()
      modifies this
      ensures Sound() && Snap() == Execute(old(Snap()))
    {
      hide Alu, Sext, Shamt, HasImm, HasDisp;
      em := em.(inst := de.inst);
      if em.inst.op == NOP { return; }
      em := em.(pc := de.pc, dstE := de.dstE, dstM := de.dstM, valA := de.valA, load := de.load, store := de.store);
      var aluB;
      if HasImm(de.opcode) || HasDisp(de.opcode) {
        aluB := Sext(em.inst.imm);
      } else if de.func == AluShtl {
        aluB := Shamt(em.inst.imm);
      } else {
        aluB := de.aluB;
      }
      em := em.(valE := Alu(de.func, de.aluA, aluB));
    }

    /** do_id */
    method DoId()
      requires Sound()
      modifies this
      ensures Sound() && Snap() == Decode(old(Snap()))
    {
      hide In1, In2, Out1, Route;
      de := de.(inst := fd.inst, pc := fd.pc, load := false, store := false);
      if de.inst.op == NOP { return; }
      var i := de.inst;
      de := de.(opcode := i.op, in1 := In1(i), in2 := In2(i), out1 := Out1(i));
      if (de.in1 >= 0 && de.in1 in busy) || (de.in2 >= 0 && de.in2 in busy) {
        stall := true;
        return;
      }
      stall := false;
      RouteOperands();
    }

    /** The rest of do_id, for an instruction that is not held. */
    method RouteOperands()
      requires Sound() && de.opcode == de.inst.op && de.in1 == In1(de.inst) && de.in2 == In2(de.inst)
      requires de.out1 == Out1(de.inst) && !de.load && !de.store && de.inst.op != NOP
      modifies this
      ensures Sound() && Snap() == Route(old(Snap()), old(de.inst))
    {
      hide In1, In2, Out1, FuncOf;
      de := de.(func := FuncOf(de.opcode));
      de := de.(srcA := if HasDisp(de.opcode) then de.in2 else de.in1, srcB := de.in2);
      if de.opcode == SW { de := de.(store := true); }
      if de.opcode == LW {
        de := de.(load := true, dstM := de.out1, dstE := DNA);
        busy := busy + {de.dstM as int};
      } else {
        de := de.(dstE := de.out1, dstM := DNA);
      }
    }

    /** forward */
    method ForwardOperand(src: Dep) returns (val: Word)
      requires Sound()
      ensures val == Forwarded(Snap(), src)
    {
      if src == DNA { return 0; }
      if src == em.dstE { return em.valE; }
      if src == mw.dstE { return mw.valE; }
      if src == mw.dstM { return mw.valM; }
      if src == wb.dstE { return wb.valE; }
      if src == wb.dstM { return wb.valM; }
      return regs[src];
    }

    /** do_forward */
    method DoForward()
      requires Sound()
      modifies this
      ensures Sound() && Snap() == Forward(old(Snap()))
    {
      var a := ForwardOperand(de.srcA);
      var b := ForwardOperand(de.srcB);
      var v := ForwardOperand(de.in1);
      de := de.(aluA := a, aluB := b, valA := v);
    }

    /** do_if */
    method DoIf()
      requires Sound()
      modifies this
      ensures Sound() && Snap() == FetchStage(text, old(Snap()))
    {
      fd := Fd(Fetch(text, fd.pc + 1), fd.pc + 1);
    }

    /** One iteration of the loop of sim_main. */
    method Step()
      requires Sound()
      modifies this, regs
      ensures Sound() && Snap() == Cycle(text, old(Snap()))
    {
      hide Control, WriteBack, MemStage, Execute, Decode, Forward, FetchStage;
      PipelineControl();
      DoWb();
      DoMem();
      DoEx();
      DoId();
      DoForward();
      DoIf();
    }

    /** A whole run from power-up: the drained machine holds what the interpreter computes. */
    method Run(a: Arch, c: nat)
      requires Sound() && Snap() == PipeState.Init(a.regs, a.mem)
      requires a.regs[0] == 0 && forall i :: 0 <= i < |text| ==> !WritesZero(text[i])
      requires LoadsAgree(text, a)
      requires c >= |text| + 4 + StallCount(text, |text| - 1)
      modifies this, regs
      ensures Sound() && Arch(regs[..], mem) == Interpret(text, a, |text|)
    {
      hide Cycle, PipeState.Init, Interpret, StallCount, LoadsAgree;
      for i := 0 to c
        invariant Sound() && Snap() == Cycles(text, PipeState.Init(a.regs, a.mem), i)
      {
        Step();
      }
      PipelineRefinesInterpreter(text, a, c);
    }
  }
}
