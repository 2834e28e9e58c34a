/** The speculative state of sim-outorder.c: copy-on-write registers, and a hash table of wrong-path stores over
    memory, next to the private copy of the machine it stands for. */
module SpecState {
  import opened Accesses
  import opened Buckets

  const STORE_HASH_SIZE: nat := 32
  const REGS: nat := 32

  /** HASH_ADDR */
  function Hash(a: Addr): (h: nat)
    ensures h < STORE_HASH_SIZE
  {
    var v := a as bv32;
    (((v >> 24) ^ (v >> 16) ^ (v >> 8) ^ v) & 31) as nat
  }

  /** spec_mem_ent: an address and its eight bytes of data */
  type Entry = Node<Addr, seq<Byte>>

  /** What spec_mem_access may touch: text reads and MD_VALID_ADDR. */
  datatype Limits = Limits(textBase: nat, textSize: nat, valid: Addr -> bool)

  type Memory = map<nat, Byte>

  function ByteOf(m: Memory, a: nat): Byte { if a in m then m[a] else 0 }

  function Bytes(m: Memory, a: nat, n: nat): (s: seq<Byte>)
    ensures |s| == n
  {
    seq(n, i requires 0 <= i < n => ByteOf(m, a + i))
  }

  function WriteBytes(m: Memory, a: nat, s: seq<Byte>): Memory
    decreases |s|
  {
    if s == [] then m else WriteBytes(m[a := s[0]], a + 1, s[1..])
  }

  /** R, HI and LO. */
  datatype Regs = Regs(r: seq<Word>, hi: Word, lo: Word)

  /** A register name: one of the 32 integer registers, HI or LO. */
  datatype RegName = R(n: nat) | HI | LO

  predicate RegOk(x: RegName) { x.R? ==> x.n < REGS }

  function Get(g: Regs, x: RegName): Word
    requires |g.r| == REGS && RegOk(x)
  {
    match x
    case R(n) => g.r[n]
    case HI => g.hi
    case LO => g.lo
  }

  function Put(g: Regs, x: RegName, v: Word): (h: Regs)
    requires |g.r| == REGS && RegOk(x)
    ensures |h.r| == REGS
  {
    match x
    case R(n) => g.(r := g.r[n := v])
    case HI => g.(hi := v)
    case LO => g.(lo := v)
  }

  /** use is use_spec_R and use_spec_C together; spare counts the nodes on bucket_free_list and made those ever
      allocated. */
  datatype Tracer = Tracer(lim: Limits, mem: Memory, regs: Regs, specRegs: Regs, use: set<RegName>,
                           table: seq<seq<Entry>>, specMode: bool, spare: nat, made: nat)

  predicate Shaped(t: Tracer) {
    |t.regs.r| == REGS && |t.specRegs.r| == REGS && |t.table| == STORE_HASH_SIZE
  }

  // ---- registers ----

  /** GPR, HI and LO */
  function ReadReg(t: Tracer, x: RegName): Word
    requires Shaped(t) && RegOk(x)
  {
    if x in t.use then Get(t.specRegs, x) else Get(t.regs, x)
  }

  /** SET_GPR, SET_HI and SET_LO */
  function WriteReg(t: Tracer, x: RegName, v: Word): (r: Tracer)
    requires Shaped(t) && RegOk(x)
    ensures Shaped(r)
  {
    if t.specMode then t.(specRegs := Put(t.specRegs, x, v), use := t.use + {x}) else t.(regs := Put(t.regs, x, v))
  }

  // ---- memory ----

  predicate Permitted(lim: Limits, a: Addr, cmd: Command) {
    (lim.textBase <= a < lim.textBase + lim.textSize && cmd.Read?) || lim.valid(a)
  }

  /** Overwrite the first bytes of a buffer. */
  function Patch(data: seq<Byte>, bytes: seq<Byte>): (r: seq<Byte>)
    ensures |bytes| <= |data| ==> |r| == |data|
  {
    if |bytes| <= |data| then bytes + data[|bytes|..] else data
  }

  datatype Result = Done(t: Tracer, bytes: seq<Byte>) | BadSize

  /** The sizes the access switch knows. */
  predicate Sized(n: nat) { n == 1 || n == 2 || n == 4 || n == 8 }

  /** spec_mem_access with bugcompat mode off */
  function SpecAccess(t: Tracer, cmd: Command, a: Addr): (r: Result)
    requires Shaped(t)
    ensures r.Done? ==> Shaped(r.t)
  {
    var n, h := Size(cmd), Hash(a);
    if !AlignedAccess(a, n) || !Permitted(t.lim, a, cmd) then Done(t, Zeros(n))
    else
      var q := Searched(t.table[h], a);
      var found := q != [] && q[0].key == a;
      var t1 := if found || cmd.Read? then t.(table := t.table[h := q]) else NewEntry(t, h, q, a);
      if !Sized(n) then BadSize
      else if cmd.Read? then Done(t1, if found then q[0].val[..if n <= |q[0].val| then n else 0] else Bytes(t.mem, a, n))
      else
        var q1 := t1.table[h];
        Done(t1.(table := t1.table[h := [q1[0].(val := Patch(q1[0].val, cmd.bytes))] + q1[1..]]), [])
  }

  /** A fresh entry at the head of the chain, from the free list if there is one. */
  function NewEntry(t: Tracer, h: nat, q: seq<Entry>, a: Addr): (r: Tracer)
    requires Shaped(t) && h < STORE_HASH_SIZE
    ensures Shaped(r) && |r.table[h]| > 0
  {
    t.(table := t.table[h := [Node(a, Zeros(8))] + q],
       spare := if t.spare == 0 then 0 else t.spare - 1, made := if t.spare == 0 then t.made + 1 else t.made)
  }

  /** Entries in the first n buckets. */
  function Used(table: seq<seq<Entry>>, n: nat): nat
    requires n <= |table|
  {
    if n == 0 then 0 else Used(table, n - 1) + |table[n - 1]|
  }

  function EmptyTable(): (q: seq<seq<Entry>>)
    ensures |q| == STORE_HASH_SIZE
    ensures forall h {:trigger q[h]} :: 0 <= h < STORE_HASH_SIZE ==> q[h] == []
  {
    seq(STORE_HASH_SIZE, _ => [])
  }

  /** tracer_recover; it panics unless in speculative mode. */
  function Recover(t: Tracer): Tracer
    requires Shaped(t)
  {
    t.(specMode := false, use := {}, table := EmptyTable(), spare := t.spare + Used(t.table, STORE_HASH_SIZE))
  }

  /** tracer_init */
  function Init(lim: Limits, mem: Memory, regs: Regs): Tracer {
    Tracer(lim, mem, regs, Regs(seq(REGS, _ => 0), 0, 0), {}, EmptyTable(), false, 0, 0)
  }

  // ---- the private copy ----

  /** The machine as the program sees it, and the state to come back to. */
  datatype Copy = Copy(regs: Regs, mem: Memory, saved: Regs, savedMem: Memory)

  datatype Op = SetReg(x: RegName, v: Word) | Access(cmd: Command, a: Addr) | EnterSpec | LeaveSpec

  /** What an operation does to a plain machine with a snapshot. */
  function CopyStep(c: Copy, lim: Limits, spec: bool, op: Op): Copy
    requires |c.regs.r| == REGS && (op.SetReg? ==> RegOk(op.x))
  {
    match op
    case SetReg(x, v) => c.(regs := Put(c.regs, x, v))
    case Access(cmd, a) =>
      if cmd.Write? && (spec ==> AlignedAccess(a, Size(cmd)) && Permitted(lim, a, cmd))
      then c.(mem := WriteBytes(c.mem, a, cmd.bytes)) else c
    case EnterSpec => c.(saved := c.regs, savedMem := c.mem)
    case LeaveSpec => c.(regs := c.saved, mem := c.savedMem)
  }

  /** The same on the tracer; in precise mode memory is accessed directly. */
  function Step(t: Tracer, op: Op): Tracer
    requires Shaped(t) && (op.SetReg? ==> RegOk(op.x))
  {
    match op
    case SetReg(x, v) => WriteReg(t, x, v)
    case Access(cmd, a) =>
      if t.specMode then (if SpecAccess(t, cmd, a).Done? then SpecAccess(t, cmd, a).t else t)
      else if cmd.Write? then t.(mem := WriteBytes(t.mem, a, cmd.bytes)) else t
    case EnterSpec => t.(specMode := true)
    case LeaveSpec => Recover(t)
  }
}
