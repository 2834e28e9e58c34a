/** The machine of sim-pipe.c in place: the stages of the pipeline, the write-back cache they share, and the clock. */
module CachedCore {
  import opened Words
  import opened PipeState
  import opened PipeCore
  import opened FifoCore
  import opened CachedState
  import opened CachedTheorems
  import F = FifoCache
  import PT = PipeTheorems

  class Simulator {
    const loader: Loader
    const pipe: Pipeline
    const cache: CacheUnit
    var clk: nat

    ghost predicate Sound()
      reads this, pipe, pipe.regs, cache, cache.sets
    {
      pipe.Sound() && F.Shaped(cache.Snap())
    }

    ghost function Snap(): Machine
      requires Sound()
      reads this, pipe, pipe.regs, cache, cache.sets
    {
      Machine(pipe.Snap(), cache.Snap(), clk)
    }

    /** sim_init, over the loaded memory */
    constructor (loader0: Loader, regs: Regs, mem: F.Memory)
      ensures Sound() && loader == loader0 && Snap() == Start(regs, mem)
      ensures fresh(pipe) && fresh(pipe.regs) && fresh(cache) && fresh(cache.sets)
    {
      loader, clk := loader0, 0;
      pipe := new Pipeline([], regs, map[]);
      cache := new CacheUnit(mem);
    }

    /** do_mem */
    method DoMem()
      requires Sound()
      modifies this, pipe, cache, cache.sets
      ensures Sound() && Snap() == MemCached(old(Snap()))
    {
      hide F.Access;
      pipe.mw := pipe.mw.(inst := pipe.em.inst);
      if pipe.mw.inst.op == NOP { return; }
      var e := pipe.em;
      pipe.mw := Mw(e.inst, e.pc, e.valE, pipe.mw.valM, e.dstE, e.dstM, e.load, e.store);
      if pipe.mw.load {
        var word, cycles := cache.Lookup(AddressOf(pipe.mw.valE), F.Get);
        pipe.mw := pipe.mw.(valM := word);
        pipe.busy := pipe.busy - {pipe.mw.dstM};
        clk := clk + cycles;
      } else if pipe.mw.store {
        var word, cycles := cache.Lookup(AddressOf(pipe.mw.valE), F.Set(e.valA));
        clk := clk + cycles;
      }
    }

    /** do_if */
    method DoIf()
      requires Sound()
      modifies this, pipe, cache, cache.sets
      ensures Sound() && Snap() == FetchCached(loader, old(Snap()))
    {
      hide F.Access, TextAddress;
      var pc := pipe.fd.pc + 1;
      var a, cycles := cache.Lookup(AddressOf(TextAddress(loader, pc)), F.Get);
      clk := clk + cycles;
      var b, more := cache.Lookup(AddressOf(Second(TextAddress(loader, pc))), F.Get);
      clk := clk + more;
      pipe.fd := Fd(loader.decode(a, b), pc);
    }

    /** One iteration of the loop of sim_main. */
    method Step()
      requires Sound()
      modifies this, pipe, pipe.regs, cache, cache.sets
      ensures Sound() && Snap() == CycleCached(loader, old(Snap()))
    {
      hide Control, WriteBack, MemCached, Execute, Decode, Forward, FetchCached;
      pipe.PipelineControl();
      pipe.DoWb();
      DoMem();
      pipe.DoEx();
      pipe.DoId();
      pipe.DoForward();
      DoIf();
      clk := clk + 1;
    }

    method Cycles(ghost regs: Regs, ghost mem: F.Memory, c: nat)
      requires Sound() && Snap() == Start(regs, mem)
      modifies this, pipe, pipe.regs, cache, cache.sets
      ensures Sound() && Snap() == CyclesCached(loader, Start(regs, mem), c)
    {
      hide CycleCached, Start;
      for i := 0 to c
        invariant Sound() && Snap() == CyclesCached(loader, Start(regs, mem), i)
      {
        Step();
      }
    }

    /** A whole run from power-up, and then cache_flush: registers and memory are those of the interpreter. */
    method Run(ghost text: seq<Inst>, ghost a: Arch, ghost mem: F.Memory, c: nat)
      requires Sound() && Snap() == Start(a.regs, mem)
      requires a.regs[0] == 0 && (forall i :: 0 <= i < |text| ==> !PT.WritesZero(text[i])) && PT.LoadsAgree(text, a)
      requires c >= |text| + 4 + StallCount(text, |text| - 1)
      requires WordAligned(loader.base) && ShowsBytes(F.Init(mem), a.mem) && TextIn(loader, a.mem, text, c)
      requires Plain(loader, text, a, c)
      modifies this, pipe, pipe.regs, cache, cache.sets
      ensures Sound() && pipe.regs[..] == PT.Interpret(text, a, |text|).regs
      ensures forall b: Word :: WordAligned(b) ==>
                F.At(cache.mem, AddressOf(b)) == LoadWord(PT.Interpret(text, a, |text|).mem, b)
      ensures clk == c + cache.hit + 10 * cache.miss && cache.hit + cache.miss == 2 * c + MemOps(text, |text|)
    {
      hide CyclesCached, Start, PT.Interpret, StallCount, PT.LoadsAgree, TextIn, Plain, ShowsBytes, F.FlushSets, F.Inv, MemOps;
      Cycles(a.regs, mem, c);
      MachineRefinesInterpreter(loader, text, a, mem, c);
      FlushCounts(cache.Snap(), F.SETS);
      cache.CacheFlush();
    }
  }
}
