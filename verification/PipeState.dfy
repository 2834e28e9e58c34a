/** The five-stage pipeline of Project2/sim-pipe.c as one function per stage, and two references for it:
    instructions executed one at a time, and the same with the operands the pipeline really delivers.

    Program counters count instructions.  The program is straight-line code of the opcodes the decode
    stage gives an ALU function without a branch; past its end the machine fetches no-operations. */
module PipeState {
  import opened Words

  type Word = bv32
  type Reg = n: nat | n < 32
  const DNA: int := -1

  /** A register number or DNA. */
  type Dep = n: int | -1 <= n < 32
  type Regs = s: seq<Word> | |s| == 32 witness seq(32, _ => 0)

  datatype Op = NOP | LW | SW | ADD | ADDI | ADDU | ADDIU | ANDI | SLL | SLTI

  /** A decoded instruction; imm is the low half of its second word. */
  datatype Inst = Inst(op: Op, rs: Reg, rt: Reg, rd: Reg, imm: bv16)

  const BUBBLE := Inst(NOP, 0, 0, 0, 0)

  // ---- data paths ----

  /** (int)(short)(inst.b & 0xffff) */
  function Sext(imm: bv16): Word {
    if imm & 0x8000 == 0 then imm as Word else imm as Word | 0xffff_0000
  }

  function Add(a: Word, b: Word): Word { a + b }
  function And(a: Word, b: Word): Word { a & b }

  /** inst.b & 0xff */
  function Shamt(imm: bv16): Word { (imm & 0xff) as Word }

  /** C leaves shifts by more than 31 undefined; x86 hosts use the low five bits. */
  function ShiftLeft(a: Word, n: Word): Word {
    a << (n & 31)
  }

  function Less(a: Word, b: Word): Word {
    if a ^ 0x8000_0000 < b ^ 0x8000_0000 then 1 else 0
  }

  datatype AluFunc = AluNop | AluAdd | AluAnd | AluSlt | AluShtl

  function Alu(f: AluFunc, a: Word, b: Word): Word {
    match f
    case AluNop => 0
    case AluAdd => Add(a, b)
    case AluAnd => And(a, b)
    case AluSlt => Less(a, b)
    case AluShtl => ShiftLeft(a, b)
  }

  type Memory = map<nat, bv8>

  function ByteAt(m: Memory, a: Word): bv8 { if AddressOf(a) in m then m[AddressOf(a)] else 0 }

  function PutByte(m: Memory, a: Word, b: bv8): Memory { m[AddressOf(a) := b] }

  /** Byte k of the word at a. */
  function ByteIn(m: Memory, a: Word, k: nat): bv8 { ByteAt(m, Place(a, k)) }

  function Place(a: Word, k: nat): Word { if k == 0 then a else if k == 1 then a + 1 else if k == 2 then a + 2 else a + 3 }

  /** The word of four bytes, low byte first. */
  function Joined(b0: bv8, b1: bv8, b2: bv8, b3: bv8): Word {
    b0 as Word | (b1 as Word << 8) | (b2 as Word << 16) | (b3 as Word << 24)
  }

  function LoadWord(m: Memory, a: Word): Word {
    Joined(ByteIn(m, a, 0), ByteIn(m, a, 1), ByteIn(m, a, 2), ByteIn(m, a, 3))
  }

  function StoreWord(m: Memory, a: Word, v: Word): Memory {
    PutByte(PutByte(PutByte(PutByte(m, a, (v & 0xff) as bv8), a + 1, ((v >> 8) & 0xff) as bv8),
                    a + 2, ((v >> 16) & 0xff) as bv8), a + 3, ((v >> 24) & 0xff) as bv8)
  }

  // ---- the decode table of machine.def ----

  predicate HasImm(op: Op) { op == ADDI || op == ADDIU || op == ANDI || op == SLTI }
  predicate HasDisp(op: Op) { op == LW || op == SW }

  function Out1(i: Inst): Dep {
    match i.op
    case NOP | SW => DNA
    case LW | ADDI | ADDIU | ANDI | SLTI => i.rt
    case ADD | ADDU | SLL => i.rd
  }

  function In1(i: Inst): Dep {
    match i.op
    case NOP | LW => DNA
    case SW | SLL => i.rt
    case ADD | ADDI | ADDU | ADDIU | ANDI | SLTI => i.rs
  }

  function In2(i: Inst): Dep {
    match i.op
    case LW | SW => i.rs
    case ADD | ADDU => i.rt
    case NOP | ADDI | ADDIU | ANDI | SLL | SLTI => DNA
  }

  function FuncOf(op: Op): AluFunc {
    match op
    case NOP => AluNop
    case LW | SW | ADD | ADDI | ADDU | ADDIU => AluAdd
    case ANDI => AluAnd
    case SLL => AluShtl
    case SLTI => AluSlt
  }

  // ---- latches ----

  datatype Fd = Fd(inst: Inst, pc: int)
  datatype De = De(inst: Inst, pc: int, opcode: Op, in1: Dep, in2: Dep, out1: Dep, func: AluFunc,
                   srcA: Dep, srcB: Dep, aluA: Word, aluB: Word, valA: Word,
                   dstE: Dep, dstM: Dep, load: bool, store: bool)
  datatype Em = Em(inst: Inst, pc: int, valE: Word, valA: Word, dstE: Dep, dstM: Dep, load: bool, store: bool)
  datatype Mw = Mw(inst: Inst, pc: int, valE: Word, valM: Word, dstE: Dep, dstM: Dep, load: bool, store: bool)
  datatype Wb = Wb(inst: Inst, pc: int, valE: Word, valM: Word, dstE: Dep, dstM: Dep)

  /** busy is ctl.regs: the registers some load in the pipeline is still to read. */
  datatype Pipe = Pipe(regs: Regs, mem: Memory, fd: Fd, de: De, em: Em, mw: Mw, wb: Wb, stall: bool, busy: set<int>)

  /** sim_init, and the program counter sim_main starts from. */
  function Init(regs: Regs, mem: Memory): Pipe {
    Pipe(regs, mem, Fd(BUBBLE, -1), De(BUBBLE, 0, NOP, 0, 0, 0, AluNop, 0, 0, 0, 0, 0, DNA, DNA, false, false),
         Em(BUBBLE, 0, 0, 0, DNA, DNA, false, false), Mw(BUBBLE, 0, 0, 0, DNA, DNA, false, false),
         Wb(BUBBLE, 0, 0, 0, DNA, DNA), false, {})
  }

  // ---- stages ----

  function Bubble(i: Inst): Inst { i.(op := NOP) }

  /** pipeline_control */
  function Control(s: Pipe): Pipe {
    if s.stall then s.(fd := Fd(s.de.inst, s.de.pc), de := s.de.(inst := Bubble(s.de.inst))) else s
  }

  function SetReg(regs: Regs, r: Dep, v: Word): Regs {
    if r == DNA then regs else regs[r := v]
  }

  /** do_wb */
  function WriteBack(s: Pipe): Pipe {
    if s.mw.inst.op == NOP then s.(wb := s.wb.(inst := s.mw.inst))
    else s.(wb := Wb(s.mw.inst, s.mw.pc, s.mw.valE, s.mw.valM, s.mw.dstE, s.mw.dstM),
            regs := SetReg(SetReg(s.regs, s.mw.dstM, s.mw.valM), s.mw.dstE, s.mw.valE))
  }

  /** do_mem */
  function MemStage(s: Pipe): Pipe {
    var e := s.em;
    if e.inst.op == NOP then s.(mw := s.mw.(inst := e.inst))
    else
      var m := Mw(e.inst, e.pc, e.valE, s.mw.valM, e.dstE, e.dstM, e.load, e.store);
      if e.load then s.(mw := m.(valM := LoadWord(s.mem, e.valE)), busy := s.busy - {e.dstM})
      else if e.store then s.(mw := m, mem := StoreWord(s.mem, e.valE, e.valA))
      else s.(mw := m)
  }

  function OperandB(d: De): Word {
    if HasImm(d.opcode) || HasDisp(d.opcode) then Sext(d.inst.imm)
    else if d.func == AluShtl then Shamt(d.inst.imm)
    else d.aluB
  }

  /** do_ex */
  function Execute(s: Pipe): Pipe {
    var d := s.de;
    if d.inst.op == NOP then s.(em := s.em.(inst := d.inst))
    else s.(em := Em(d.inst, d.pc, Alu(d.func, d.aluA, OperandB(d)), d.valA, d.dstE, d.dstM, d.load, d.store))
  }

  /** The test for a load still on its way to one of the operands. */
  predicate Blocked(s: Pipe, i: Inst) {
    (In1(i) >= 0 && In1(i) in s.busy) || (In2(i) >= 0 && In2(i) in s.busy)
  }

  /** do_id */
  function Decode(s: Pipe): Pipe {
    var i := s.fd.inst;
    var d := s.de.(inst := i, pc := s.fd.pc, load := false, store := false);
    if i.op == NOP then s.(de := d)
    else
      var d1 := d.(opcode := i.op, in1 := In1(i), in2 := In2(i), out1 := Out1(i));
      if Blocked(s, i) then s.(de := d1, stall := true) else Route(s.(de := d1, stall := false), i)
  }

  /** The rest of do_id: the ALU function, where operands come from and where results go. */
  function Route(s: Pipe, i: Inst): Pipe {
    var d := s.de.(func := FuncOf(i.op), srcA := if HasDisp(i.op) then In2(i) else In1(i), srcB := In2(i),
                   store := i.op == SW);
    if i.op == LW then s.(de := d.(load := true, dstM := Out1(i), dstE := DNA), busy := s.busy + {Out1(i)})
    else s.(de := d.(dstE := Out1(i), dstM := DNA))
  }

  /** forward */
  function Forwarded(s: Pipe, src: Dep): Word {
    if src == DNA then 0
    else if src == s.em.dstE then s.em.valE
    else if src == s.mw.dstE then s.mw.valE
    else if src == s.mw.dstM then s.mw.valM
    else if src == s.wb.dstE then s.wb.valE
    else if src == s.wb.dstM then s.wb.valM
    else s.regs[src]
  }

  /** do_forward */
  function Forward(s: Pipe): Pipe {
    s.(de := s.de.(aluA := Forwarded(s, s.de.srcA), aluB := Forwarded(s, s.de.srcB), valA := Forwarded(s, s.de.in1)))
  }

  function Fetch(text: seq<Inst>, i: int): Inst {
    if 0 <= i < |text| then text[i] else BUBBLE
  }

  /** do_if */
  function FetchStage(text: seq<Inst>, s: Pipe): Pipe {
    s.(fd := Fd(Fetch(text, s.fd.pc + 1), s.fd.pc + 1))
  }

  /** One iteration of the loop of sim_main. */
  function Cycle(text: seq<Inst>, s: Pipe): Pipe {
    FetchStage(text, Forward(Decode(Execute(MemStage(WriteBack(Control(s)))))))
  }

  function Cycles(text: seq<Inst>, s: Pipe, n: nat): Pipe {
    if n == 0 then s else Cycle(text, Cycles(text, s, n - 1))
  }

  // ---- one instruction at a time ----

  datatype Arch = Arch(regs: Regs, mem: Memory)

  /** The semantics of an instruction, given what it read from its rs and rt registers. */
  function Exec(i: Inst, a: Arch, rs: Word, rt: Word): Arch {
    match i.op
    case NOP => a
    case LW => a.(regs := a.regs[i.rt := LoadWord(a.mem, Add(rs, Sext(i.imm)))])
    case SW => a.(mem := StoreWord(a.mem, Add(rs, Sext(i.imm)), rt))
    case ADD | ADDU => a.(regs := a.regs[i.rd := Add(rs, rt)])
    case ADDI | ADDIU => a.(regs := a.regs[i.rt := Add(rs, Sext(i.imm))])
    case ANDI => a.(regs := a.regs[i.rt := And(rs, Sext(i.imm))])
    case SLTI => a.(regs := a.regs[i.rt := Less(rs, Sext(i.imm))])
    case SLL => a.(regs := a.regs[i.rd := ShiftLeft(rt, Shamt(i.imm))])
  }

  /** The first n instructions, one at a time. */
  function Sequential(text: seq<Inst>, a: Arch, n: int): Arch
    decreases if n > 0 then n else 0
  {
    if n <= 0 then a
    else
      var b := Sequential(text, a, n - 1);
      var i := Fetch(text, n - 1);
      Exec(i, b, b.regs[i.rs], b.regs[i.rt])
  }

  predicate Reads(i: Inst, r: int) { r != DNA && (In1(i) == r || In2(i) == r) }

  /** Instruction d needs the result of a load right before it. */
  predicate LoadUse(text: seq<Inst>, d: int) {
    Fetch(text, d - 1).op == LW && Reads(Fetch(text, d), Out1(Fetch(text, d - 1)))
  }

  /** Another load to the same register comes right before that load, with no bubble between the two. */
  predicate Cleared(text: seq<Inst>, d: int)
    decreases if d > 0 then d else 0, 0
  {
    && 0 < d && Fetch(text, d - 1).op == LW
    && Fetch(text, d - 2).op == LW && Out1(Fetch(text, d - 2)) == Out1(Fetch(text, d - 1)) && !Stalls(text, d - 1)
  }

  /** Instruction d is held in decode for one cycle. */
  predicate Stalls(text: seq<Inst>, d: int)
    decreases if d > 0 then d else 0, 1
  {
    LoadUse(text, d) && !Cleared(text, d)
  }

  /** Instruction d misses its load: the busy bit was cleared when the earlier load read memory. */
  predicate Skewed(text: seq<Inst>, d: int) {
    LoadUse(text, d) && Cleared(text, d)
  }

  /** What instruction d gets for register r: normally its value before d, but for a missed load the value
      before that load. */
  function Operand(text: seq<Inst>, d: int, r: Reg, before: Arch, now: Arch): Word {
    if Skewed(text, d) && r == Out1(Fetch(text, d - 1)) then before.regs[r] else now.regs[r]
  }

  /** The first n instructions, each with the operands the pipeline delivers. */
  function Delivered(text: seq<Inst>, a: Arch, n: int): Arch
    decreases if n > 0 then n else 0
  {
    if n <= 0 then a
    else
      var b := Delivered(text, a, n - 1);
      var c := Delivered(text, a, n - 2);
      var i := Fetch(text, n - 1);
      Exec(i, b, Operand(text, n - 1, i.rs, c, b), Operand(text, n - 1, i.rt, c, b))
  }

  /** How many of the instructions up to and including d stall. */
  function StallCount(text: seq<Inst>, d: int): nat
    decreases if d >= 0 then d + 1 else 0
  {
    if d < 0 then 0 else StallCount(text, d - 1) + if Stalls(text, d) then 1 else 0
  }
}
