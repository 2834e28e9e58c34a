/** The speculative state as sim-outorder.c keeps it: register files with copy-on-write marks, and the store hash
    table updated in place. */
module SpecCore {
  import opened Accesses
  import opened Buckets
  import opened SpecState

  class SpecUnit {
    const lim: Limits
    var mem: Memory
    var regs: Regs
    var specRegs: Regs
    var use: set<RegName>
    const table: array<seq<Entry>>
    var specMode: bool
    var spare: nat
    var made: nat

    ghost function Snap(): Tracer
      reads this, table
    {
      Tracer(lim, mem, regs, specRegs, use, table[..], specMode, spare, made)
    }

    ghost predicate Sound()
      reads this, table
    {
      Shaped(Snap()) && table.Length == STORE_HASH_SIZE
    }

    constructor (lim0: Limits, mem0: Memory, regs0: Regs)
      requires |regs0.r| == REGS
      ensures Sound() && Snap() == SpecState.Init(lim0, mem0, regs0) && fresh(table)
    {
      lim, mem, regs, specRegs := lim0, mem0, regs0, Regs(seq(REGS, _ => 0), 0, 0);
      use, specMode, spare, made := {}, false, 0, 0;
      table := new seq<Entry>[STORE_HASH_SIZE](_ => []);
      new;
      assert table[..] == EmptyTable();
    }

    /** GPR, HI and LO */
    method GetRegister(x: RegName) returns (v: Word)
      requires Sound() && RegOk(x)
      ensures v == ReadReg(Snap(), x)
    {
      if x in use { return Get(specRegs, x); }
      return Get(regs, x);
    }

    /** SET_GPR, SET_HI and SET_LO */
    method SetRegister(x: RegName, v: Word)
      requires Sound() && RegOk(x)
      modifies this
      ensures Sound() && Snap() == WriteReg(old(Snap()), x, v)
    {
      hide Put;
      if specMode {
        specRegs := Put(specRegs, x, v);
        use := use + {x};
      } else {
        regs := Put(regs, x, v);
      }
    }

    method SetChain(h: nat, q: seq<Entry>)
      requires Sound() && h < STORE_HASH_SIZE
      modifies table
      ensures Sound() && Snap() == old(Snap()).(table := old(table[..])[h := q])
    {
      table[h] := q;
      assert table[..] == old(table[..])[h := q];
    }

    /** The search of spec_mem_access: an entry that is found moves to the head of its bucket. */
    method SearchChain(h: nat, a: Addr) returns (found: bool)
      requires Sound() && h < STORE_HASH_SIZE
      modifies table
      ensures Sound() && Snap() == old(Snap()).(table := old(table[..])[h := Searched(old(table[h]), a)])
      ensures found <==> table[h] != [] && table[h][0].key == a
    {
      hide Searched;
      var q;
      q, found := SearchBucket(table[h], a);
      NotFoundFirst(table[h], a);
      SetChain(h, q);
    }

    /** Take a node from the free list, or allocate one, and put it at the head of its bucket. */
    method InsertEntry(h: nat, a: Addr)
      requires Sound() && h < STORE_HASH_SIZE
      modifies this, table
      ensures Sound() && Snap() == NewEntry(old(Snap()), h, old(table[h]), a)
    {
      if spare == 0 { spare, made := spare + 1, made + 1; }
      spare := spare - 1;
      SetChain(h, [Node(a, Zeros(8))] + table[h]);
    }

    /** spec_mem_access; false if it panics over the access size. */
    method SpecMemAccess(cmd: Command, a: Addr) returns (ok: bool, bytes: seq<Byte>)
      requires Sound()
      modifies this, table
      ensures Sound()
      ensures match SpecAccess(old(Snap()), cmd, a)
              case Done(t, out) => ok && Snap() == t && bytes == out
              case BadSize => !ok
    {
      hide AlignedAccess, Permitted, Searched, Hash, Patch, Zeros, NewEntry, Bytes;
      var n := Size(cmd);
      if !AlignedAccess(a, n) || !Permitted(lim, a, cmd) { return true, Zeros(n); }
      var h := Hash(a);
      ghost var s := Snap();
      var found := SearchChain(h, a);
      ghost var s1 := Snap();
      if !found && cmd.Write? {
        InsertEntry(h, a);
        NewEntryAbsorbs(s, h, s1.table[h], a);
      }
      if !Sized(n) { return false, []; }
      if cmd.Read? {
        if found {
          var d := table[h][0].val;
          return true, d[..if n <= |d| then n else 0];
        }
        return true, Bytes(mem, a, n);
      }
      bytes := [];
      ok := true;
      var e := table[h][0];
      SetChain(h, [e.(val := Patch(e.val, cmd.bytes))] + table[h][1..]);
    }

    /** tracer_recover, as far as this state goes; it panics unless in speculative mode. */
    method TracerRecover()
      requires Sound() && specMode
      modifies this, table
      ensures Sound() && Snap() == Recover(old(Snap()))
    {
      specMode, use := false, {};
      for i := 0 to STORE_HASH_SIZE
        invariant Sound() && spare == old(spare) + Used(old(table[..]), i)
        invariant forall j :: 0 <= j < STORE_HASH_SIZE ==> table[j] == if j < i then [] else old(table[j])
        invariant Snap() == old(Snap()).(table := table[..], specMode := false, use := {}, spare := spare)
      {
        spare := spare + |table[i]|;
        SetChain(i, []);
      }
      assert table[..] == EmptyTable();
    }
  }

  lemma NotFoundFirst(q: seq<Entry>, a: Addr)
    ensures Find(q, a) < 0 ==> Searched(q, a) == q && (q == [] || q[0].key != a)
  {
  }

  lemma NewEntryAbsorbs(t: Tracer, h: nat, q: seq<Entry>, a: Addr)
    requires Shaped(t) && h < STORE_HASH_SIZE
    ensures NewEntry(t.(table := t.table[h := q]), h, q, a) == NewEntry(t, h, q, a)
  {
    assert t.table[h := q][h := [Node(a, Zeros(8))] + q] == t.table[h := [Node(a, Zeros(8))] + q];
  }
}
