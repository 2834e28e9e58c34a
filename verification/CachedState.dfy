/** The whole machine of sim-pipe.c: the pipeline fetching, loading and storing through its write-back cache, with the
    clock that charges one cycle for a hit and ten for a miss. */
module CachedState {
  import opened Words
  import opened PipeState
  import F = FifoCache

  /** Where the program starts, and how its two words decode to an instruction. */
  datatype Loader = Loader(base: Word, decode: (Word, Word) -> Inst)

  /** The memory of pipe is not used: all accesses go through the cache. */
  datatype Machine = Machine(pipe: Pipe, cache: F.Cache, clk: nat)

  /** The address of instruction i. */
  function TextAddress(l: Loader, i: int): Word
    decreases if i > 0 then i else 0
  {
    if i <= 0 then l.base else Following(TextAddress(l, i - 1))
  }

  /** An instruction has two words. */
  function Second(a: Word): Word { a + 4 }
  function Following(a: Word): Word { a + 8 }

  /** sim_init, with an empty cache over the loaded memory. */
  function Start(regs: Regs, mem: F.Memory): (q: Machine)
    ensures F.Shaped(q.cache)
  {
    Machine(Init(regs, map[]), F.Init(mem), 0)
  }

  /** do_mem with the cache enabled */
  function MemCached(q: Machine): Machine
    requires F.Shaped(q.cache)
  {
    var p, e := q.pipe, q.pipe.em;
    if e.inst.op == NOP then q.(pipe := p.(mw := p.mw.(inst := e.inst)))
    else
      var m := Mw(e.inst, e.pc, e.valE, p.mw.valM, e.dstE, e.dstM, e.load, e.store);
      if e.load then
        var r := F.Access(q.cache, AddressOf(e.valE), F.Get);
        Machine(p.(mw := m.(valM := r.word), busy := p.busy - {e.dstM}), r.c, q.clk + r.cycles)
      else if e.store then
        var r := F.Access(q.cache, AddressOf(e.valE), F.Set(e.valA));
        Machine(p.(mw := m), r.c, q.clk + r.cycles)
      else q.(pipe := p.(mw := m))
  }

  /** do_if with the cache enabled: both words of the instruction come from the cache. */
  function FetchCached(l: Loader, q: Machine): Machine
    requires F.Shaped(q.cache)
  {
    var pc := q.pipe.fd.pc + 1;
    var a := F.Access(q.cache, AddressOf(TextAddress(l, pc)), F.Get);
    var b := F.Access(a.c, AddressOf(Second(TextAddress(l, pc))), F.Get);
    Machine(q.pipe.(fd := Fd(l.decode(a.word, b.word), pc)), b.c, q.clk + a.cycles + b.cycles)
  }

  /** The stages of a cycle before and after do_mem that have nothing to do with memory. */
  function Before(s: Pipe): Pipe { WriteBack(Control(s)) }
  function After(s: Pipe): Pipe { Forward(Decode(Execute(s))) }

  /** One iteration of the loop of sim_main. */
  function CycleCached(l: Loader, q: Machine): Machine
    requires F.Shaped(q.cache)
  {
    var q1 := MemCached(q.(pipe := Before(q.pipe)));
    var q2 := FetchCached(l, q1.(pipe := After(q1.pipe)));
    q2.(clk := q2.clk + 1)
  }

  function CyclesCached(l: Loader, q: Machine, n: nat): (r: Machine)
    requires F.Shaped(q.cache)
    ensures F.Shaped(r.cache)
  {
    if n == 0 then q else CycleCached(l, CyclesCached(l, q, n - 1))
  }
}
