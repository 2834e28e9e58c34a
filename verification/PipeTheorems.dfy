/** The main results about the five-stage pipeline. */
module PipeTheorems {
  import opened PipeState
  import opened PipeProof

  /** The instruction in decode after c cycles. */
  function InDecode(text: seq<Inst>, a: Arch, c: nat): int {
    if c == 0 then -2 else NextIn(Cycles(text, Init(a.regs, a.mem), c - 1), InDecode(text, a, c - 1))
  }

  /** How many instructions have written their results back after c cycles. */
  function Retired(text: seq<Inst>, a: Arch, c: nat): int {
    Written(text, Cycles(text, Init(a.regs, a.mem), c), InDecode(text, a, c))
  }

  lemma {:induction false} RunKeeps(text: seq<Inst>, a: Arch, c: nat)
    ensures var s, d := Cycles(text, Init(a.regs, a.mem), c), InDecode(text, a, c);
            Inv(text, a, s, d) && c == d + 2 + StallCount(text, d) - if s.stall then 1 else 0
  {
    hide Inv, Cycle, Stalls, Init;
    if c == 0 {
      InitInv(text, a);
      InitStall(a);
    } else {
      RunKeeps(text, a, c - 1);
      var s, d := Cycles(text, Init(a.regs, a.mem), c - 1), InDecode(text, a, c - 1);
      CycleKeeps(text, a, s, d);
      HeldStalls(text, a, s, d);
      EarlyRuns(text, d + 1);
    }
  }

  lemma InitStall(a: Arch)
    ensures !Init(a.regs, a.mem).stall
  {
  }

  lemma HeldStalls(text: seq<Inst>, a: Arch, s: Pipe, d: int)
    requires Inv(text, a, s, d)
    ensures s.stall ==> Stalls(text, d)
  {
    hide BackEnd, Stalls, Fetch, Decoded, Pending;
  }

  lemma EarlyRuns(text: seq<Inst>, d: int)
    ensures d < 1 ==> !Stalls(text, d)
  {
  }

  lemma {:induction false} CountGrows(text: seq<Inst>, i: int, j: int)
    requires i <= j
    ensures StallCount(text, i) <= StallCount(text, j)
    decreases j - i
  {
    hide Stalls;
    if i < j { CountGrows(text, i, j - 1); }
  }

  /** Timing: the k-th instruction writes back in exactly cycle k + 4, plus one for every stall up to it. */
  lemma RetiresOnTime(text: seq<Inst>, a: Arch, c: nat, k: nat)
    ensures Retired(text, a, c) >= k <==> c >= k + 4 + StallCount(text, k - 1)
  {
    hide Inv, Stalls, Cycles, InDecode;
    RunKeeps(text, a, c);
    var s, d := Cycles(text, Init(a.regs, a.mem), c), InDecode(text, a, c);
    HeldStalls(text, a, s, d);
    EarlyRuns(text, d);
    EarlyRuns(text, d - 1);
    if k <= d - 2 {
      CountGrows(text, k - 1, d - 1);
    } else if k >= d {
      CountGrows(text, d - 1, k - 1);
      if k > d { CountGrows(text, d, k - 1); }
    }
  }

  /** For any straight-line program, after any number of cycles the registers are those of one-at-a-time
      execution, with delivered operands, of the instructions retired; memory is at most one instruction ahead. */
  lemma PipelineDelivers(text: seq<Inst>, a: Arch, c: nat)
    ensures var s, w := Cycles(text, Init(a.regs, a.mem), c), Retired(text, a, c);
            && s.regs == Delivered(text, a, w).regs
            && (s.mem == Delivered(text, a, w).mem || s.mem == Delivered(text, a, w + 1).mem)
  {
    hide Cycles, InDecode, Stalls, Delivered, Front, Pending, Decoded, HoldsE, HoldsM;
    RunKeeps(text, a, c);
  }

  // ---- the drained machine ----

  lemma {:induction false} PastEnd(text: seq<Inst>, a: Arch, n: int)
    requires |text| <= n
    ensures Delivered(text, a, n) == Delivered(text, a, |text|)
    decreases n
  {
    hide Operand;
    if |text| < n { PastEnd(text, a, n - 1); }
  }

  /** The drained pipeline holds the result of the whole program, from the cycle the stalls allow. */
  lemma PipelineDrains(text: seq<Inst>, a: Arch, c: nat)
    requires c >= |text| + 4 + StallCount(text, |text| - 1)
    ensures var s := Cycles(text, Init(a.regs, a.mem), c);
            s.regs == Delivered(text, a, |text|).regs && s.mem == Delivered(text, a, |text|).mem
  {
    hide Cycles, Retired, Stalls, Delivered;
    var w := Retired(text, a, c);
    RetiresOnTime(text, a, c, |text|);
    PipelineDelivers(text, a, c);
    PastEnd(text, a, w);
    PastEnd(text, a, w + 1);
  }

  // ---- against plain sequential execution ----

  /** No instruction uses a load that directly follows, without a bubble, another load to that register. */
  predicate Clean(text: seq<Inst>) { forall d :: 0 <= d < |text| ==> !Skewed(text, d) }

  predicate AdjacentLoads(text: seq<Inst>, d: int) {
    0 < d < |text| && text[d - 1].op == LW && text[d].op == LW && text[d - 1].rt == text[d].rt
  }

  /** It is enough that no two adjacent loads go to the same register. */
  lemma NoAdjacentLoadsIsClean(text: seq<Inst>)
    requires forall d :: 0 <= d < |text| ==> !AdjacentLoads(text, d)
    ensures Clean(text)
  {
    forall d | 0 <= d < |text| ensures !Skewed(text, d) {
      if Skewed(text, d) { assert AdjacentLoads(text, d - 1); }
    }
  }

  /** What a missed load costs: the instruction gets the word of the earlier load, so its operand is right
      exactly when both loads read the same word. */
  lemma MissedLoad(text: seq<Inst>, a: Arch, d: int)
    requires Skewed(text, d)
    ensures 2 <= d && Out1(Fetch(text, d - 1)) != DNA
    ensures var r := Out1(Fetch(text, d - 1));
            Given(text, a, d, r) == Delivered(text, a, d).regs[r] <==> WordOf(text, a, d - 2) == WordOf(text, a, d - 1)
  {
    hide Given, Delivered, Stalls, LoadWord, StoreWord, Add, Sext;
    SkewedGives(text, a, d);
    LoadWrites(text, a, d - 2);
    LoadWrites(text, a, d - 1);
  }

  /** The word the load at position k reads. */
  function WordOf(text: seq<Inst>, a: Arch, k: int): Word {
    var i := Fetch(text, k);
    LoadWord(Delivered(text, a, k).mem, Add(Given(text, a, k, i.rs), Sext(i.imm)))
  }

  lemma SkewedGives(text: seq<Inst>, a: Arch, d: int)
    requires Skewed(text, d)
    ensures Fetch(text, d - 1).op == LW && Fetch(text, d - 2).op == LW && Fetch(text, d - 2).rt == Fetch(text, d - 1).rt
    ensures 2 <= d && Given(text, a, d, Fetch(text, d - 1).rt) == Delivered(text, a, d - 1).regs[Fetch(text, d - 1).rt]
  {
    hide Delivered;
  }

  lemma LoadWrites(text: seq<Inst>, a: Arch, k: int)
    requires Fetch(text, k).op == LW
    ensures Delivered(text, a, k + 1).regs[Fetch(text, k).rt] == WordOf(text, a, k)
  {
    hide Given, Delivered, Fetch, LoadWord, StoreWord, Add, Sext;
    ExecWrites(text, a, k);
  }

  /** Wherever an instruction misses a load, the earlier load reads the same word. */
  predicate LoadsAgree(text: seq<Inst>, a: Arch) {
    forall d :: 0 <= d < |text| && Skewed(text, d) ==> WordOf(text, a, d - 2) == WordOf(text, a, d - 1)
  }

  /** That is exactly when every instruction gets right operands. */
  lemma OperandsRight(text: seq<Inst>, a: Arch)
    ensures LoadsAgree(text, a) <==>
            forall d, r: Reg :: 0 <= d < |text| ==> Given(text, a, d, r) == Delivered(text, a, d).regs[r]
  {
    hide Skewed, Given, Delivered, WordOf;
    forall d | 0 <= d < |text|
      ensures (Skewed(text, d) ==> WordOf(text, a, d - 2) == WordOf(text, a, d - 1)) <==>
              forall r: Reg :: Given(text, a, d, r) == Delivered(text, a, d).regs[r]
    {
      OperandRight(text, a, d);
    }
  }

  lemma OperandRight(text: seq<Inst>, a: Arch, d: int)
    ensures (Skewed(text, d) ==> WordOf(text, a, d - 2) == WordOf(text, a, d - 1)) <==>
            forall r: Reg :: Given(text, a, d, r) == Delivered(text, a, d).regs[r]
  {
    hide Skewed, WordOf, Delivered;
    if Skewed(text, d) { MissedLoad(text, a, d); }
  }

  lemma {:induction false} AgreeingDelivers(text: seq<Inst>, a: Arch, n: nat)
    requires LoadsAgree(text, a) && n <= |text|
    ensures Delivered(text, a, n) == Sequential(text, a, n)
  {
    hide Exec, LoadsAgree, Operand;
    if n > 0 {
      AgreeingDelivers(text, a, n - 1);
      OperandsRight(text, a);
      var i := Fetch(text, n - 1);
      assert Given(text, a, n - 1, i.rs) == Delivered(text, a, n - 1).regs[i.rs];
      assert Given(text, a, n - 1, i.rt) == Delivered(text, a, n - 1).regs[i.rt];
    }
  }

  lemma CleanDelivers(text: seq<Inst>, a: Arch, n: nat)
    requires Clean(text) && n <= |text|
    ensures LoadsAgree(text, a) && Delivered(text, a, n) == Sequential(text, a, n)
  {
    hide Delivered, Sequential, Skewed;
    AgreeingDelivers(text, a, n);
  }

  /** Sequential execution as the functional simulators do it: register 0 is set back to zero before every
      instruction. */
  function Pinned(a: Arch): Arch { a.(regs := a.regs[0 := 0]) }

  function Interpret(text: seq<Inst>, a: Arch, n: int): Arch
    decreases if n > 0 then n else 0
  {
    if n <= 0 then a
    else
      var b := Pinned(Interpret(text, a, n - 1));
      var i := Fetch(text, n - 1);
      Exec(i, b, b.regs[i.rs], b.regs[i.rt])
  }

  predicate WritesZero(i: Inst) { Out1(i) == 0 }

  lemma {:induction false} InterpretsSequentially(text: seq<Inst>, a: Arch, n: nat)
    requires a.regs[0] == 0 && n <= |text| && forall i :: 0 <= i < |text| ==> !WritesZero(text[i])
    ensures Interpret(text, a, n) == Sequential(text, a, n) && Sequential(text, a, n).regs[0] == 0
  {
    if n > 0 {
      InterpretsSequentially(text, a, n - 1);
      var b, i := Sequential(text, a, n - 1), text[n - 1];
      hide Sequential, Interpret;
      assert Pinned(b) == b;
      assert !WritesZero(text[n - 1]);
      ExecSparesZero(i, b, b.regs[i.rs], b.regs[i.rt]);
      UnfoldBoth(text, a, n);
    }
  }

  lemma UnfoldBoth(text: seq<Inst>, a: Arch, n: nat)
    requires 0 < n <= |text|
    ensures var b, i := Sequential(text, a, n - 1), text[n - 1];
            Sequential(text, a, n) == Exec(i, b, b.regs[i.rs], b.regs[i.rt])
    ensures var b, i := Pinned(Interpret(text, a, n - 1)), text[n - 1];
            Interpret(text, a, n) == Exec(i, b, b.regs[i.rs], b.regs[i.rt])
  {
    hide Exec, Pinned;
  }

  lemma ExecSparesZero(i: Inst, a: Arch, rs: Word, rt: Word)
    requires !WritesZero(i)
    ensures Exec(i, a, rs, rt).regs[0] == a.regs[0]
  {
    hide Sext, Shamt, Add, And, LoadWord, StoreWord, Less, ShiftLeft;
  }

  /** The pipeline refines one-at-a-time execution: for straight-line code with no write to register 0 in which
      missed loads do not show (for which it is enough that no two adjacent loads go to one register), the
      drained machine has the registers and memory of the interpreter, after one cycle an instruction, four to
      drain and one for each stall. */
  lemma PipelineRefinesInterpreter(text: seq<Inst>, a: Arch, c: nat)
    requires a.regs[0] == 0 && forall i :: 0 <= i < |text| ==> !WritesZero(text[i])
    requires LoadsAgree(text, a)
    requires c >= |text| + 4 + StallCount(text, |text| - 1)
    ensures var s := Cycles(text, Init(a.regs, a.mem), c);
            Arch(s.regs, s.mem) == Interpret(text, a, |text|)
  {
    hide Cycles, Delivered, Sequential, Interpret, LoadsAgree;
    PipelineDrains(text, a, c);
    AgreeingDelivers(text, a, |text|);
    InterpretsSequentially(text, a, |text|);
  }

  /** Without adjacent loads to one register, a stall is exactly a load-use pair. */
  lemma StallIsLoadUse(text: seq<Inst>, d: int)
    requires forall i :: 0 <= i < |text| ==> !AdjacentLoads(text, i)
    ensures Stalls(text, d) <==> LoadUse(text, d)
  {
    assert Cleared(text, d) ==> AdjacentLoads(text, d - 1);
  }

  // ---- where the conditions are needed ----

  /** The shortest program that shows it: of the family lw r; lw r; addi x, r the pipeline is right exactly
      for the states in which both words are equal. */
  function TwoLoads(r: Reg, b1: Reg, o1: bv16, b2: Reg, o2: bv16, x: Reg, imm: bv16): seq<Inst> {
    [Inst(LW, b1, r, 0, o1), Inst(LW, b2, r, 0, o2), Inst(ADDI, r, x, 0, imm)]
  }

  lemma TwoLoadsGoWrong(a: Arch, r: Reg, b1: Reg, o1: bv16, b2: Reg, o2: bv16, x: Reg, imm: bv16, c: nat)
    requires b2 != r && c >= 7 + StallCount(TwoLoads(r, b1, o1, b2, o2, x, imm), 2)
    ensures var text := TwoLoads(r, b1, o1, b2, o2, x, imm);
            Cycles(text, Init(a.regs, a.mem), c).regs[x] == Sequential(text, a, 3).regs[x] <==>
            LoadWord(a.mem, Add(a.regs[b1], Sext(o1))) == LoadWord(a.mem, Add(a.regs[b2], Sext(o2)))
  {
    hide LoadWord, Sext, Add, StallCount, Cycles;
    PipelineDrains(TwoLoads(r, b1, o1, b2, o2, x, imm), a, c);
    var text := TwoLoads(r, b1, o1, b2, o2, x, imm);
    assert !Skewed(text, 0) && !Skewed(text, 1) && Skewed(text, 2);
    var v, w := LoadWord(a.mem, Add(a.regs[b1], Sext(o1))), LoadWord(a.mem, Add(a.regs[b2], Sext(o2)));
    TwoLoadsRun(text, a, r, b1, o1, b2, o2, x, imm);
    AddInjective(v, w, Sext(imm));
  }

  lemma TwoLoadsRun(text: seq<Inst>, a: Arch, r: Reg, b1: Reg, o1: bv16, b2: Reg, o2: bv16, x: Reg, imm: bv16)
    requires text == TwoLoads(r, b1, o1, b2, o2, x, imm) && b2 != r
    requires !Skewed(text, 0) && !Skewed(text, 1) && Skewed(text, 2)
    ensures Sequential(text, a, 3).regs[x] == Add(LoadWord(a.mem, Add(a.regs[b2], Sext(o2))), Sext(imm))
    ensures Delivered(text, a, 3).regs[x] == Add(LoadWord(a.mem, Add(a.regs[b1], Sext(o1))), Sext(imm))
  {
    hide LoadWord, Sext, Add, Skewed;
    var s1, s2 := Sequential(text, a, 1), Sequential(text, a, 2);
    var d1, d2 := Delivered(text, a, 1), Delivered(text, a, 2);
    assert s1 == a.(regs := a.regs[r := LoadWord(a.mem, Add(a.regs[b1], Sext(o1)))]) && d1 == s1;
    assert s2 == s1.(regs := s1.regs[r := LoadWord(a.mem, Add(a.regs[b2], Sext(o2)))]) && d2 == s2;
  }

  lemma AddInjective(v: Word, w: Word, i: Word)
    ensures Add(v, i) == Add(w, i) <==> v == w
  {
    hide Add;
    if Add(v, i) == Add(w, i) {
      AddCancels(v, w, i);
    }
  }

  /** Addition can be undone: equal sums have equal addends, a few bits at a time from the lowest. */
  lemma AddCancels(v: Word, w: Word, i: Word)
    requires Add(v, i) == Add(w, i)
    ensures v == w
  {
    hide Add, SameLow;
    LowByte(v, w, i);
    SecondByte(v, w, i);
    ThirdByte(v, w, i);
    NextBits(v, w, i);
    LastBits(v, w, i);
  }

  predicate SameLow(v: Word, w: Word, mask: Word) { v & mask == w & mask }

  lemma LowByte(v: Word, w: Word, i: Word)
    requires Add(v, i) == Add(w, i)
    ensures SameLow(v, w, 0xff)
  {
  }

  lemma SecondByte(v: Word, w: Word, i: Word)
    requires Add(v, i) == Add(w, i) && SameLow(v, w, 0xff)
    ensures SameLow(v, w, 0xffff)
  {
  }

  lemma ThirdByte(v: Word, w: Word, i: Word)
    requires Add(v, i) == Add(w, i) && SameLow(v, w, 0xffff)
    ensures SameLow(v, w, 0xff_ffff)
  {
  }

  lemma NextBits(v: Word, w: Word, i: Word)
    requires Add(v, i) == Add(w, i) && SameLow(v, w, 0xff_ffff)
    ensures SameLow(v, w, 0xfff_ffff)
  {
  }

  lemma LastBits(v: Word, w: Word, i: Word)
    requires Add(v, i) == Add(w, i) && SameLow(v, w, 0xfff_ffff)
    ensures v == w
  {
  }

  /** A write to register 0 stays visible to the rest of the program. */
  lemma ZeroNotKept(a: Arch, imm: bv16, c: nat)
    requires a.regs[0] == 0 && c >= 6 + StallCount(ZeroWrite(imm), 1)
    ensures Cycles(ZeroWrite(imm), Init(a.regs, a.mem), c).regs[1] == Interpret(ZeroWrite(imm), a, 2).regs[1] <==>
            Sext(imm) == 0
  {
    hide LoadWord, StoreWord, Add, Sext, Skewed, StallCount, Cycles;
    var text := ZeroWrite(imm);
    PipelineDrains(text, a, c);
    NeverSkewed(text);
    AddZero(Sext(imm));
    AddZero(0);
    assert Delivered(text, a, 1).regs[0] == Sext(imm);
    assert Pinned(Interpret(text, a, 1)).regs[0] == 0;
  }

  function ZeroWrite(imm: bv16): seq<Inst> { [Inst(ADDI, 0, 0, 0, imm), Inst(ADDI, 0, 1, 0, 0)] }

  lemma NeverSkewed(text: seq<Inst>)
    requires forall i :: 0 <= i < |text| ==> text[i].op != LW
    ensures forall d :: !Skewed(text, d)
  {
  }

  lemma AddZero(v: Word)
    ensures Add(v, 0) == v && Add(0, v) == v && Sext(0) == 0
  {
  }

  /** machine.def zero-extends the immediate of ANDI; the pipeline sign-extends it.  The two agree exactly
      when the immediate's sign bit is clear or the operand has an empty upper half. */
  lemma AndiAgrees(v: Word, imm: bv16)
    ensures Alu(FuncOf(ANDI), v, Sext(imm)) == And(v, imm as Word) <==> imm & 0x8000 == 0 || v & 0xffff_0000 == 0
  {
    hide And;
    HighHalf(v, imm as Word);
  }

  lemma HighHalf(v: Word, x: Word)
    requires x & 0xffff_0000 == 0
    ensures And(v, x | 0xffff_0000) == And(v, x) <==> v & 0xffff_0000 == 0
  {
  }
}
