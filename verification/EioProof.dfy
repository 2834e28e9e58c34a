/** When replaying a recorded system call gives the recorded state, for any accesses it makes, and likewise a whole
    trace. */
module EioProof {
  import opened Accesses
  import opened Arith
  import opened PageState
  import opened EioState

  // ---- what a recording says, byte by byte ----

  datatype Cell = Cell(a: Addr, v: Byte)

  /** The bytes of one access, each with its address. */
  function Cells(a: nat, p: seq<Byte>): seq<Cell>
    decreases |p|
  {
    if p == [] then [] else [Cell(Wrap(a), p[0])] + Cells(a + 1, p[1..])
  }

  function CellsOf(bs: seq<Blob>): seq<Cell> {
    if bs == [] then [] else CellsOf(bs[..|bs| - 1]) + Cells(bs[|bs| - 1].addr, bs[|bs| - 1].data)
  }

  lemma {:induction false} CellsConcat(a: nat, p: seq<Byte>, q: seq<Byte>)
    ensures Cells(a, p + q) == Cells(a, p) + Cells(a + |p|, q)
    decreases |p|
  {
    hide Wrap;
    if p == [] {
      assert p + q == q;
    } else {
      assert (p + q)[1..] == p[1..] + q;
      CellsConcat(a + 1, p[1..], q);
    }
  }

  /** Addresses are taken modulo 2^32. */
  lemma {:induction false} CellsWrap(a: nat, p: seq<Byte>)
    ensures Cells(a, p) == Cells(Wrap(a), p)
    decreases |p|
  {
    hide Wrap;
    WrapStep(a);
    if p != [] {
      CellsWrap(a + 1, p[1..]);
      CellsWrap(Wrap(a) + 1, p[1..]);
    }
  }

  lemma WrapStep(a: nat)
    ensures Wrap(Wrap(a)) == Wrap(a) && Wrap(Wrap(a) + 1) == Wrap(a + 1)
  {
    ModShift(a, 0, 0x1_0000_0000);
    ModShift(a, 1, 0x1_0000_0000);
  }

  /** Coalescing loses nothing and keeps the order. */
  lemma NoteKeepsCells(r: Recording, a: Addr, p: seq<Byte>)
    ensures CellsOf(Note(r, a, p).blobs) == CellsOf(r.blobs) + Cells(a, p)
  {
    hide Cells, Wrap;
    var n := |r.blobs|;
    var after := Note(r, a, p);
    if n > 0 && Wrap(r.blobs[n - 1].addr + |r.blobs[n - 1].data|) == a && |r.blobs[n - 1].data| + |p| < r.maxsize {
      var b := r.blobs[n - 1];
      CellsConcat(b.addr, b.data, p);
      CellsWrap(b.addr + |b.data|, p);
      assert after.blobs[..n - 1] == r.blobs[..n - 1];
    } else {
      assert after.blobs[..n] == r.blobs;
    }
  }

  // ---- the meaning of matching and storing ----

  predicate MatchCells(mem: map<Addr, Byte>, cs: seq<Cell>) {
    forall i :: 0 <= i < |cs| ==> Load(mem, cs[i].a) == cs[i].v
  }

  function StoreCells(mem: map<Addr, Byte>, cs: seq<Cell>): map<Addr, Byte>
    decreases |cs|
  {
    if cs == [] then mem else StoreCells(mem[cs[0].a := cs[0].v], cs[1..])
  }

  lemma {:induction false} StoreIsCells(mem: map<Addr, Byte>, a: nat, p: seq<Byte>)
    ensures Store(mem, a, p) == StoreCells(mem, Cells(a, p))
    decreases |p|
  {
    hide Wrap;
    if p != [] {
      var cs := [Cell(Wrap(a), p[0])] + Cells(a + 1, p[1..]);
      assert cs[1..] == Cells(a + 1, p[1..]);
      StoreIsCells(mem[Wrap(a) := p[0]], a + 1, p[1..]);
    }
  }

  lemma {:induction false} StoreConcat(mem: map<Addr, Byte>, x: seq<Cell>, y: seq<Cell>)
    ensures StoreCells(mem, x + y) == StoreCells(StoreCells(mem, x), y)
    decreases |x|
  {
    if x == [] {
      assert x + y == y;
    } else {
      assert (x + y)[1..] == x[1..] + y;
      StoreConcat(mem[x[0].a := x[0].v], x[1..], y);
    }
  }

  lemma {:induction false} PutAllSnoc(mem: map<Addr, Byte>, bs: seq<Blob>, b: Blob)
    ensures PutAll(mem, bs + [b]) == Store(PutAll(mem, bs), b.addr, b.data)
    decreases |bs|
  {
    hide Store;
    if bs == [] {
      assert [] + [b] == [b] && [b][1..] == [];
    } else {
      assert (bs + [b])[0] == bs[0] && (bs + [b])[1..] == bs[1..] + [b];
      PutAllSnoc(Store(mem, bs[0].addr, bs[0].data), bs[1..], b);
    }
  }

  /** Replay writes the recorded bytes in their order. */
  lemma {:induction false} PutAllIs(mem: map<Addr, Byte>, bs: seq<Blob>)
    ensures PutAll(mem, bs) == StoreCells(mem, CellsOf(bs))
    decreases |bs|
  {
    hide Store, Cells;
    if bs != [] {
      var n := |bs| - 1;
      assert bs == bs[..n] + [bs[n]];
      PutAllSnoc(mem, bs[..n], bs[n]);
      PutAllIs(mem, bs[..n]);
      StoreIsCells(PutAll(mem, bs[..n]), bs[n].addr, bs[n].data);
      StoreConcat(mem, CellsOf(bs[..n]), Cells(bs[n].addr, bs[n].data));
    }
  }

  lemma {:induction false} MatchBlobIs(mem: map<Addr, Byte>, b: Blob, i: nat)
    requires i <= |b.data|
    ensures MatchBlob(mem, b, i) <==> MatchCells(mem, Cells(b.addr + i, b.data[i..]))
    decreases |b.data| - i
  {
    hide Wrap;
    if i < |b.data| {
      assert b.data[i..][1..] == b.data[i + 1..];
      MatchBlobIs(mem, b, i + 1);
      var rest := Cells(b.addr + i + 1, b.data[i + 1..]);
      var cs := Cells(b.addr + i, b.data[i..]);
      assert cs == [Cell(Wrap(b.addr + i), b.data[i])] + rest;
      MatchCons(mem, Cell(Wrap(b.addr + i), b.data[i]), rest);
    }
  }

  lemma MatchCons(mem: map<Addr, Byte>, c: Cell, cs: seq<Cell>)
    ensures MatchCells(mem, [c] + cs) <==> Load(mem, c.a) == c.v && MatchCells(mem, cs)
  {
    if MatchCells(mem, [c] + cs) {
      assert ([c] + cs)[0] == c;
      forall i | 0 <= i < |cs| ensures Load(mem, cs[i].a) == cs[i].v { assert ([c] + cs)[i + 1] == cs[i]; }
    }
  }

  lemma MatchConcat(mem: map<Addr, Byte>, x: seq<Cell>, y: seq<Cell>)
    ensures MatchCells(mem, x + y) <==> MatchCells(mem, x) && MatchCells(mem, y)
  {
    if MatchCells(mem, x + y) {
      forall i | 0 <= i < |x| ensures Load(mem, x[i].a) == x[i].v { assert (x + y)[i] == x[i]; }
      forall i | 0 <= i < |y| ensures Load(mem, y[i].a) == y[i].v { assert (x + y)[|x| + i] == y[i]; }
    }
  }

  lemma {:induction false} MatchAllSnoc(mem: map<Addr, Byte>, bs: seq<Blob>, b: Blob)
    ensures MatchAll(mem, bs + [b]) <==> MatchAll(mem, bs) && MatchBlob(mem, b, 0)
    decreases |bs|
  {
    hide MatchBlob;
    if bs == [] {
      assert [] + [b] == [b] && [b][1..] == [];
    } else {
      assert (bs + [b])[0] == bs[0] && (bs + [b])[1..] == bs[1..] + [b];
      MatchAllSnoc(mem, bs[1..], b);
    }
  }

  /** Replay's input check passes exactly when memory holds every recorded byte. */
  lemma {:induction false} MatchAllIs(mem: map<Addr, Byte>, bs: seq<Blob>)
    ensures MatchAll(mem, bs) <==> MatchCells(mem, CellsOf(bs))
    decreases |bs|
  {
    hide MatchBlob, Cells, MatchCells;
    if bs != [] {
      var n := |bs| - 1;
      assert bs == bs[..n] + [bs[n]];
      MatchAllSnoc(mem, bs[..n], bs[n]);
      MatchAllIs(mem, bs[..n]);
      MatchBlobIs(mem, bs[n], 0);
      assert bs[n].data[0..] == bs[n].data;
      MatchConcat(mem, CellsOf(bs[..n]), Cells(bs[n].addr, bs[n].data));
    } else {
      EmptyMatches(mem);
    }
  }

  lemma EmptyMatches(mem: map<Addr, Byte>)
    ensures MatchCells(mem, [])
  {
  }

  // ---- one call ----

  /** The access faults, so it has no effect. */
  predicate Faults(op: Op) { Check(op.a, if op.Get? then |op.junk| else |op.p|) != NoFault }

  /** No access of a call faults. */
  predicate NoFaults(ops: seq<Op>) { forall i :: 0 <= i < |ops| ==> !Faults(ops[i]) }

  /** What was recorded for reads that faulted, the caller's own bytes, is what memory holds. */
  predicate ReadsTrue(mem: map<Addr, Byte>, ops: seq<Op>) {
    forall i :: 0 <= i < |ops| && ops[i].Get? && Faults(ops[i]) ==> ops[i].junk == BytesAt(mem, ops[i].a, |ops[i].junk|)
  }

  /** One byte of a write, and whether the write was performed. */
  datatype Trial = Trial(c: Cell, done: bool)

  function Mark(cs: seq<Cell>, done: bool): seq<Trial> { seq(|cs|, i requires 0 <= i < |cs| => Trial(cs[i], done)) }

  /** All bytes of all writes, in order. */
  function Trials(ops: seq<Op>): seq<Trial> {
    if ops == [] then []
    else
      var op := ops[|ops| - 1];
      Trials(ops[..|ops| - 1]) + if op.Put? then Mark(Cells(op.a, op.p), !Faults(op)) else []
  }

  /** The bytes tried, and those written. */
  function Tried(ts: seq<Trial>): seq<Cell> {
    if ts == [] then [] else Tried(ts[..|ts| - 1]) + [ts[|ts| - 1].c]
  }

  function Done(ts: seq<Trial>): seq<Cell> {
    if ts == [] then [] else Done(ts[..|ts| - 1]) + if ts[|ts| - 1].done then [ts[|ts| - 1].c] else []
  }

  lemma TriedSnoc(ts: seq<Trial>, x: Trial)
    ensures Tried(ts + [x]) == Tried(ts) + [x.c] && Done(ts + [x]) == Done(ts) + if x.done then [x.c] else []
  {
    assert (ts + [x])[..|ts|] == ts;
  }

  lemma {:induction false} MarkIs(ts: seq<Trial>, cs: seq<Cell>, done: bool)
    ensures Tried(ts + Mark(cs, done)) == Tried(ts) + cs
    ensures Done(ts + Mark(cs, done)) == Done(ts) + if done then cs else []
    decreases |cs|
  {
    hide Tried, Done;
    if cs == [] {
      assert ts + Mark(cs, done) == ts;
    } else {
      var n := |cs| - 1;
      var x := Trial(cs[n], done);
      MarkIs(ts, cs[..n], done);
      assert ts + Mark(cs, done) == ts + Mark(cs[..n], done) + [x];
      TriedSnoc(ts + Mark(cs[..n], done), x);
      assert cs[..n] + [cs[n]] == cs;
    }
  }

  /** The recording describes the accesses made so far: its inputs agree with the memory the call started from
      exactly if faulting reads happened to, its outputs are all bytes tried, and memory has those written. */
  ghost predicate Faithful(mem: map<Addr, Byte>, t: Tracer, ops: seq<Op>) {
    && (MatchCells(mem, CellsOf(t.input.blobs)) <==> ReadsTrue(mem, ops))
    && CellsOf(t.output.blobs) == Tried(Trials(ops))
    && t.mem == StoreCells(mem, Done(Trials(ops)))
    && (!t.seenWrite ==> t.mem == mem)
  }

  lemma {:induction false} CellsMatch(mem: map<Addr, Byte>, a: nat, p: seq<Byte>)
    ensures MatchCells(mem, Cells(a, p)) <==> forall i :: 0 <= i < |p| ==> p[i] == Load(mem, Wrap(a + i))
    decreases |p|
  {
    hide Wrap, MatchCells;
    if p != [] {
      CellsMatch(mem, a + 1, p[1..]);
      MatchCons(mem, Cell(Wrap(a), p[0]), Cells(a + 1, p[1..]));
      assert (forall i :: 0 <= i < |p| ==> p[i] == Load(mem, Wrap(a + i))) <==>
             p[0] == Load(mem, Wrap(a)) && (forall i :: 0 <= i < |p[1..]| ==> p[1..][i] == Load(mem, Wrap(a + 1 + i)))
      by { FirstByte(mem, a, p); }
    } else {
      EmptyMatches(mem);
    }
  }

  lemma FirstByte(mem: map<Addr, Byte>, a: nat, p: seq<Byte>)
    requires p != []
    ensures (forall i :: 0 <= i < |p| ==> p[i] == Load(mem, Wrap(a + i))) <==>
            p[0] == Load(mem, Wrap(a)) && (forall i :: 0 <= i < |p[1..]| ==> p[1..][i] == Load(mem, Wrap(a + 1 + i)))
  {
    hide Wrap, Load;
    if forall i :: 0 <= i < |p| ==> p[i] == Load(mem, Wrap(a + i)) {
      assert p[0] == Load(mem, Wrap(a + 0));
      forall i | 0 <= i < |p[1..]| ensures p[1..][i] == Load(mem, Wrap(a + 1 + i)) {
        assert p[i + 1] == Load(mem, Wrap(a + (i + 1)));
        assert a + (i + 1) == a + 1 + i;
      }
    }
    if p[0] == Load(mem, Wrap(a)) && (forall i :: 0 <= i < |p[1..]| ==> p[1..][i] == Load(mem, Wrap(a + 1 + i))) {
      forall i | 0 <= i < |p| ensures p[i] == Load(mem, Wrap(a + i)) {
        if i > 0 {
          assert p[1..][i - 1] == Load(mem, Wrap(a + 1 + (i - 1)));
          assert a + 1 + (i - 1) == a + i;
        }
      }
    }
  }

  /** The cells of an access match memory exactly when its bytes are the ones there. */
  lemma BytesMatch(mem: map<Addr, Byte>, a: Addr, p: seq<Byte>)
    ensures MatchCells(mem, Cells(a, p)) <==> p == BytesAt(mem, a, |p|)
  {
    hide MatchCells, Load, Wrap;
    CellsMatch(mem, a, p);
    if forall i :: 0 <= i < |p| ==> p[i] == Load(mem, Wrap(a + i)) {
      assert p == BytesAt(mem, a, |p|);
    } else {
      var i :| 0 <= i < |p| && p[i] != Load(mem, Wrap(a + i));
      assert BytesAt(mem, a, |p|)[i] == Load(mem, Wrap(a + i));
    }
  }

  lemma PerformFaithful(mem: map<Addr, Byte>, t: Tracer, ops: seq<Op>, op: Op)
    requires Faithful(mem, t, ops) && Perform(t, op).Ok?
    ensures Faithful(mem, Perform(t, op).value, ops + [op])
  {
    hide Note, MatchCells, CellsOf, Cells, StoreCells, Store, Tried, Done, Mark, BytesAt, Check, ReadsTrue;
    var all := ops + [op];
    assert all[..|all| - 1] == ops && all[|all| - 1] == op;
    ReadsSnoc(mem, ops, op);
    match op
    case Get(a, junk) =>
      assert Trials(all) == Trials(ops);
      var p := if Faults(op) then junk else BytesAt(t.mem, a, |junk|);
      NoteKeepsCells(t.input, a, p);
      BytesMatch(mem, a, p);
      MatchConcat(mem, CellsOf(t.input.blobs), Cells(a, p));
      assert |p| == |junk|;
    case Put(a, p) =>
      NoteKeepsCells(t.output, a, p);
      MarkIs(Trials(ops), Cells(a, p), !Faults(op));
      StoreIsCells(t.mem, a, p);
      StoreConcat(mem, Done(Trials(ops)), Cells(a, p));
      assert Done(Trials(ops)) + [] == Done(Trials(ops));
  }

  lemma ReadsSnoc(mem: map<Addr, Byte>, ops: seq<Op>, op: Op)
    ensures ReadsTrue(mem, ops + [op]) <==>
            ReadsTrue(mem, ops) && (op.Get? && Faults(op) ==> op.junk == BytesAt(mem, op.a, |op.junk|))
  {
    hide Faults, BytesAt;
    var all := ops + [op];
    assert all[|ops|] == op && forall i :: 0 <= i < |ops| ==> all[i] == ops[i];
  }

  lemma {:induction false} AllFaithful(mem: map<Addr, Byte>, t: Tracer, done: seq<Op>, ops: seq<Op>)
    requires Faithful(mem, t, done) && PerformAll(t, ops).Ok?
    ensures Faithful(mem, PerformAll(t, ops).value, done + ops)
    decreases |ops|
  {
    hide Faithful, Perform;
    if ops != [] {
      PerformFaithful(mem, t, done, ops[0]);
      AllFaithful(mem, Perform(t, ops[0]).value, done + [ops[0]], ops[1..]);
      assert done + [ops[0]] + ops[1..] == done + ops;
    } else {
      assert done + ops == done;
    }
  }

  /** Recording is refused exactly for a call that reads simulated memory after writing it. */
  lemma {:induction false} RefusedIs(t: Tracer, ops: seq<Op>)
    ensures PerformAll(t, ops).Ok? <==>
            && (t.seenWrite ==> forall i :: 0 <= i < |ops| ==> ops[i].Put?)
            && forall i, j :: 0 <= i < j < |ops| && ops[i].Put? ==> ops[j].Put?
    decreases |ops|
  {
    hide Note, BytesAt, Store, Check;
    if ops != [] {
      assert ops == [ops[0]] + ops[1..];
      if Perform(t, ops[0]).Ok? {
        RefusedIs(Perform(t, ops[0]).value, ops[1..]);
        TailPuts(ops);
      }
    }
  }

  lemma TailPuts(ops: seq<Op>)
    requires ops != []
    ensures (forall i, j :: 0 <= i < j < |ops| && ops[i].Put? ==> ops[j].Put?) <==>
            && (ops[0].Put? ==> forall i :: 0 <= i < |ops[1..]| ==> ops[1..][i].Put?)
            && (forall i, j :: 0 <= i < j < |ops[1..]| && ops[1..][i].Put? ==> ops[1..][j].Put?)
  {
    if (ops[0].Put? ==> forall i :: 0 <= i < |ops[1..]| ==> ops[1..][i].Put?)
       && (forall i, j :: 0 <= i < j < |ops[1..]| && ops[1..][i].Put? ==> ops[1..][j].Put?) {
      forall i, j | 0 <= i < j < |ops| && ops[i].Put? ensures ops[j].Put? {
        assert ops[j] == ops[1..][j - 1];
        if i > 0 { assert ops[i] == ops[1..][i - 1]; }
      }
    }
  }

  /** Replay succeeds exactly when the instruction count, program counter, input registers and every recorded
      input byte agree. */
  lemma ReplayAccepts(m: Machine, icnt: nat, x: Transaction)
    requires MachineOk(m) && |x.inRegs| == |x.outRegs| == LAST_REG - FIRST_REG + 1
    ensures ReadTrace(m, icnt, x).Ok? <==>
            icnt == x.icnt && m.pc == x.pc && CallRegs(m) == x.inRegs && MatchCells(m.mem, CellsOf(x.inMem))
  {
    hide MatchAll, MatchCells, CellsOf, SetRegs, CallRegs;
    MatchAllIs(m.mem, x.inMem);
  }

  // ---- what replayed writes leave ----

  /** Two memories hold the same bytes. */
  ghost predicate SameMemory(x: map<Addr, Byte>, y: map<Addr, Byte>) { forall a: Addr :: Load(x, a) == Load(y, a) }

  /** Every byte of a write that faulted is overwritten later in the call, or was there already. */
  ghost predicate Harmless(mem: map<Addr, Byte>, ts: seq<Trial>) {
    forall k :: 0 <= k < |ts| && !ts[k].done ==> Covered(ts, k) || ts[k].c.v == Load(StoreCells(mem, Done(ts[..k])), ts[k].c.a)
  }

  /** A later byte goes to the same address. */
  ghost predicate Covered(ts: seq<Trial>, k: nat)
    requires k < |ts|
  {
    exists l :: k < l < |ts| && ts[l].c.a == ts[k].c.a
  }

  /** The last byte tried at an address decides what replay leaves there, and the last one written what the call
      did leave. */
  ghost predicate AgreeAt(mem: map<Addr, Byte>, ts: seq<Trial>, b: Addr) {
    Load(StoreCells(mem, Tried(ts)), b) == Load(StoreCells(mem, Done(ts)), b)
  }

  /** Trial k is the last at its address. */
  ghost predicate IsLast(ts: seq<Trial>, k: nat, b: Addr) { k < |ts| && ts[k].c.a == b && !Covered(ts, k) }

  lemma StoreOne(mem: map<Addr, Byte>, cs: seq<Cell>, c: Cell, b: Addr)
    ensures Load(StoreCells(mem, cs + [c]), b) == if c.a == b then c.v else Load(StoreCells(mem, cs), b)
  {
    StoreConcat(mem, cs, [c]);
    assert [c][1..] == [];
    assert StoreCells(StoreCells(mem, cs), [c]) == StoreCells(mem, cs)[c.a := c.v];
  }

  lemma {:induction false} AgreeIs(mem: map<Addr, Byte>, ts: seq<Trial>, b: Addr)
    ensures AgreeAt(mem, ts, b) <==>
            forall k :: 0 <= k < |ts| && IsLast(ts, k, b) && !ts[k].done ==> ts[k].c.v == Load(StoreCells(mem, Done(ts[..k])), b)
    decreases |ts|
  {
    hide StoreCells, Load;
    if ts != [] {
      var n := |ts| - 1;
      var x := ts[n];
      StoreOne(mem, Tried(ts[..n]), x.c, b);
      StoreOne(mem, Done(ts[..n]), x.c, b);
      assert Done(ts[..n]) + [] == Done(ts[..n]);
      if x.c.a == b {
        assert IsLast(ts, n, b);
        forall k | 0 <= k < n && ts[k].c.a == b ensures Covered(ts, k) {
          assert ts[n].c.a == ts[k].c.a;
        }
      } else {
        AgreeIs(mem, ts[..n], b);
        forall k | 0 <= k < n ensures IsLast(ts, k, b) == IsLast(ts[..n], k, b) && ts[..n][..k] == ts[..k] {
          LastEarlier(ts, n, k, b);
        }
        assert !IsLast(ts, n, b);
      }
    }
  }

  lemma LastEarlier(ts: seq<Trial>, n: nat, k: nat, b: Addr)
    requires k < n && n + 1 == |ts| && ts[n].c.a != b
    ensures IsLast(ts, k, b) == IsLast(ts[..n], k, b) && ts[..n][..k] == ts[..k]
  {
    var u := ts[..n];
    if ts[k].c.a == b {
      if Covered(ts, k) {
        var l :| k < l < |ts| && ts[l].c.a == ts[k].c.a;
        assert u[l].c.a == u[k].c.a;
      }
      if Covered(u, k) {
        var l :| k < l < |u| && u[l].c.a == u[k].c.a;
        assert ts[l].c.a == ts[k].c.a;
      }
    }
  }

  /** Replay leaves the memory the call left exactly when the writes that faulted are harmless. */
  lemma HarmlessIs(mem: map<Addr, Byte>, ts: seq<Trial>)
    ensures SameMemory(StoreCells(mem, Tried(ts)), StoreCells(mem, Done(ts))) <==> Harmless(mem, ts)
  {
    hide StoreCells, Tried, Done, Load, Covered;
    forall b: Addr ensures AgreeAt(mem, ts, b) <==>
        forall k :: 0 <= k < |ts| && IsLast(ts, k, b) && !ts[k].done ==> ts[k].c.v == Load(StoreCells(mem, Done(ts[..k])), b)
    {
      AgreeIs(mem, ts, b);
    }
    if Harmless(mem, ts) {
      forall b: Addr ensures Load(StoreCells(mem, Tried(ts)), b) == Load(StoreCells(mem, Done(ts)), b) {
        assert AgreeAt(mem, ts, b);
      }
    }
    if SameMemory(StoreCells(mem, Tried(ts)), StoreCells(mem, Done(ts))) {
      forall k | 0 <= k < |ts| && !ts[k].done && !Covered(ts, k)
        ensures ts[k].c.v == Load(StoreCells(mem, Done(ts[..k])), ts[k].c.a)
      {
        assert AgreeAt(mem, ts, ts[k].c.a) && IsLast(ts, k, ts[k].c.a);
      }
      assert Harmless(mem, ts);
    }
  }

  // ---- replay of one call ----

  /** The program cannot tell the two machines apart. */
  ghost predicate Agree(x: Machine, y: Machine) {
    x.regs == y.regs && x.pc == y.pc && x.brk == y.brk && SameMemory(x.mem, y.mem)
  }

  /** The same memory, seen through the model's functions. */
  lemma {:induction false} SameStore(x: map<Addr, Byte>, y: map<Addr, Byte>, cs: seq<Cell>)
    requires SameMemory(x, y)
    ensures SameMemory(StoreCells(x, cs), StoreCells(y, cs)) && (MatchCells(x, cs) <==> MatchCells(y, cs))
    decreases |cs|
  {
    if cs != [] {
      var x1, y1 := x[cs[0].a := cs[0].v], y[cs[0].a := cs[0].v];
      forall a: Addr ensures Load(x1, a) == Load(y1, a) {
        assert Load(x, a) == Load(y, a);
      }
      assert Load(x, cs[0].a) == Load(y, cs[0].a);
      SameStore(x[cs[0].a := cs[0].v], y[cs[0].a := cs[0].v], cs[1..]);
    }
  }

  /** Replaying a call where it was recorded passes every check exactly when the reads that faulted saw, in the
      caller's buffer, the bytes that memory holds; it then leaves the recorded registers, break point and all bytes
      tried, and so the recorded machine exactly when the writes that faulted are harmless. */
  lemma ReplayIs(m: Machine, r: Machine, icnt: nat, c: Call)
    requires MachineOk(m) && CallOk(c) && WriteTrace(m, icnt, c).Ok? && Agree(m, r)
    ensures var (after, x) := WriteTrace(m, icnt, c).value;
            && MachineOk(after) && MachineOk(r)
            && (ReadTrace(r, icnt, x).Ok? <==> ReadsTrue(m.mem, c.ops))
            && (ReadTrace(r, icnt, x).Ok? ==>
                  var d := ReadTrace(r, icnt, x).value;
                  && MachineOk(d) && d == after.(mem := d.mem) && d.mem == StoreCells(r.mem, Tried(Trials(c.ops)))
                  && (Agree(after, d) <==> Harmless(m.mem, Trials(c.ops))))
  {
    hide PerformAll, MatchCells, CellsOf, StoreCells, PutAll, MatchAll, CallRegs, ReadsTrue, Trials, Tried, Done, Harmless;
    hide SameMemory, SetRegs;
    var t0 := Tracer(m.mem, NONE, NONE, false);
    StartsFaithful(m.mem);
    AllFaithful(m.mem, t0, [], c.ops);
    assert [] + c.ops == c.ops;
    var t := PerformAll(t0, c.ops).value;
    var ts := Trials(c.ops);
    MatchAllIs(r.mem, t.input.blobs);
    SameStore(m.mem, r.mem, CellsOf(t.input.blobs));
    PutAllIs(r.mem, t.output.blobs);
    SameStore(m.mem, r.mem, Tried(ts));
    HarmlessIs(m.mem, ts);
    SameThree(StoreCells(m.mem, Tried(ts)), StoreCells(r.mem, Tried(ts)), t.mem);
    SameInputs(m, r, c.out);
  }

  lemma SameThree(x: map<Addr, Byte>, y: map<Addr, Byte>, z: map<Addr, Byte>)
    requires SameMemory(x, y)
    ensures SameMemory(z, y) <==> SameMemory(x, z)
  {
  }

  lemma SameInputs(m: Machine, r: Machine, out: seq<Word>)
    requires Agree(m, r) && MachineOk(m) && |out| == LAST_REG - FIRST_REG + 1
    ensures MachineOk(r) && CallRegs(m) == CallRegs(r)
    ensures SetRegs(r, out) == SetRegs(m, out).(mem := r.mem)
  {
  }

  lemma StartsFaithful(mem: map<Addr, Byte>)
    ensures Faithful(mem, Tracer(mem, NONE, NONE, false), [])
  {
    EmptyMatches(mem);
  }

  /** Without faults replay from the recorded state is exact. */
  lemma ReplayIsExact(m: Machine, icnt: nat, c: Call)
    requires MachineOk(m) && CallOk(c) && NoFaults(c.ops) && WriteTrace(m, icnt, c).Ok?
    ensures var (after, x) := WriteTrace(m, icnt, c).value;
            MachineOk(after) && ReadTrace(m, icnt, x) == Ok(after)
  {
    hide PerformAll, StoreCells, Trials, Tried, Done, Harmless, WriteTrace, ReadTrace;
    ReplayIs(m, m, icnt, c);
    NothingFails(c.ops);
    WritesDone(m, icnt, c);
  }

  lemma WritesDone(m: Machine, icnt: nat, c: Call)
    requires MachineOk(m) && CallOk(c) && WriteTrace(m, icnt, c).Ok?
    ensures WriteTrace(m, icnt, c).value.0.mem == StoreCells(m.mem, Done(Trials(c.ops)))
  {
    hide PerformAll, StoreCells, Trials, Tried, Done, MatchCells, CellsOf, ReadsTrue;
    StartsFaithful(m.mem);
    AllFaithful(m.mem, Tracer(m.mem, NONE, NONE, false), [], c.ops);
    assert [] + c.ops == c.ops;
  }

  lemma {:induction false} NothingFails(ops: seq<Op>)
    requires NoFaults(ops)
    ensures Tried(Trials(ops)) == Done(Trials(ops))
    decreases |ops|
  {
    hide Faults, Cells, Mark, Tried, Done;
    if ops != [] {
      var n := |ops| - 1;
      NothingFails(ops[..n]);
      if ops[n].Put? { MarkIs(Trials(ops[..n]), Cells(ops[n].a, ops[n].p), true); }
      assert Trials(ops[..n]) + [] == Trials(ops[..n]);
    } else {
      assert Trials(ops) == [] && Tried([]) == Done([]) by { NothingTried(); }
    }
  }

  lemma NothingTried()
    ensures Tried([]) == [] && Done([]) == []
  {
  }

  // ---- a whole trace ----

  /** A stretch of program execution, arbitrary but deterministic, up to its next system call. */
  datatype Segment = Segment(run: Machine -> Machine, icnt: nat, call: Call)

  ghost predicate SegmentOk(g: Segment) {
    CallOk(g.call) && forall m :: MachineOk(m) ==> MachineOk(g.run(m))
  }

  /** The program sees memory only through its bytes. */
  ghost predicate SeesBytes(g: Segment) { forall m, r :: Agree(m, r) ==> Agree(g.run(m), g.run(r)) }

  /** Execute and record. */
  ghost function RecordAll(m: Machine, gs: seq<Segment>): Outcome<(Machine, seq<Transaction>)>
    requires MachineOk(m) && forall i :: 0 <= i < |gs| ==> SegmentOk(gs[i])
    decreases |gs|
  {
    if gs == [] then Ok((m, []))
    else
      assert SegmentOk(gs[0]);
      var m1 := gs[0].run(m);
      var w :- WriteTrace(m1, gs[0].icnt, gs[0].call);
      var rest :- RecordAll(w.0, gs[1..]);
      Ok((rest.0, [w.1] + rest.1))
  }

  /** Execute the program stretches again, with the recorded transactions for system calls. */
  ghost function ReplayAll(m: Machine, gs: seq<Segment>, xs: seq<Transaction>): Outcome<Machine>
    requires MachineOk(m) && |xs| == |gs| && forall i :: 0 <= i < |gs| ==> SegmentOk(gs[i])
    decreases |gs|
  {
    if gs == [] then Ok(m)
    else
      assert SegmentOk(gs[0]);
      var m1 := gs[0].run(m);
      var m2 :- ReadTrace(m1, gs[0].icnt, xs[0]);
      if MachineOk(m2) then ReplayAll(m2, gs[1..], xs[1..]) else Fatal("bad machine")
  }

  /** Each call of a recorded run can be replayed: what faulted does not show. */
  ghost predicate Replayable(m: Machine, gs: seq<Segment>)
    requires MachineOk(m) && (forall i :: 0 <= i < |gs| ==> SegmentOk(gs[i])) && RecordAll(m, gs).Ok?
    decreases |gs|
  {
    gs == [] ||
    (assert SegmentOk(gs[0]);
     var m1 := gs[0].run(m);
     && ReadsTrue(m1.mem, gs[0].call.ops) && Harmless(m1.mem, Trials(gs[0].call.ops))
     && Replayable(WriteTrace(m1, gs[0].icnt, gs[0].call).value.0, gs[1..]))
  }

  /** Replay from r passes every check and after every call agrees with the recorded run from m. */
  ghost predicate InStep(m: Machine, r: Machine, gs: seq<Segment>)
    requires MachineOk(m) && MachineOk(r) && (forall i :: 0 <= i < |gs| ==> SegmentOk(gs[i])) && RecordAll(m, gs).Ok?
    decreases |gs|
  {
    gs == [] ||
    (assert SegmentOk(gs[0]);
     var (after, x) := WriteTrace(gs[0].run(m), gs[0].icnt, gs[0].call).value;
     var d := ReadTrace(gs[0].run(r), gs[0].icnt, x);
     d.Ok? && MachineOk(d.value) && Agree(after, d.value) && InStep(after, d.value, gs[1..]))
  }

  /** A recorded trace replays in step with the recording exactly when no call's faults show, and then ends in the
      recorded machine. */
  lemma {:induction false} TraceReplays(m: Machine, r: Machine, gs: seq<Segment>)
    requires MachineOk(m) && MachineOk(r) && Agree(m, r)
    requires (forall i :: 0 <= i < |gs| ==> SegmentOk(gs[i]) && SeesBytes(gs[i])) && RecordAll(m, gs).Ok?
    ensures InStep(m, r, gs) <==> Replayable(m, gs)
    ensures var (after, xs) := RecordAll(m, gs).value;
            |xs| == |gs| && (Replayable(m, gs) ==> ReplayAll(r, gs, xs).Ok? && Agree(after, ReplayAll(r, gs, xs).value))
    decreases |gs|
  {
    hide WriteTrace, ReadTrace, ReadsTrue, Harmless, Trials, Tried, SameMemory, MachineOk;
    if gs != [] {
      assert SegmentOk(gs[0]) && SeesBytes(gs[0]);
      var g, m1, r1 := gs[0], gs[0].run(m), gs[0].run(r);
      assert Agree(m1, r1);
      ReplayIs(m1, r1, g.icnt, g.call);
      var (w, x) := WriteTrace(m1, g.icnt, g.call).value;
      var (after, xs) := RecordAll(m, gs).value;
      assert xs[0] == x && xs[1..] == RecordAll(w, gs[1..]).value.1;
      var d := ReadTrace(r1, g.icnt, x);
      if d.Ok? && Agree(w, d.value) {
        TraceReplays(w, d.value, gs[1..]);
      } else {
        RecordedLength(w, gs[1..]);
      }
    }
  }

  lemma AfterOk(m: Machine, icnt: nat, c: Call)
    requires MachineOk(m) && CallOk(c) && WriteTrace(m, icnt, c).Ok?
    ensures MachineOk(WriteTrace(m, icnt, c).value.0)
  {
    hide PerformAll;
  }

  lemma {:induction false} RecordedLength(m: Machine, gs: seq<Segment>)
    requires MachineOk(m) && (forall i :: 0 <= i < |gs| ==> SegmentOk(gs[i])) && RecordAll(m, gs).Ok?
    ensures |RecordAll(m, gs).value.1| == |gs|
    decreases |gs|
  {
    hide WriteTrace, MachineOk;
    if gs != [] {
      assert SegmentOk(gs[0]);
      AfterOk(gs[0].run(m), gs[0].icnt, gs[0].call);
      RecordedLength(WriteTrace(gs[0].run(m), gs[0].icnt, gs[0].call).value.0, gs[1..]);
    }
  }

  /** Without faults every trace replays, to the very machine that was recorded. */
  lemma {:induction false} FaultlessReplays(m: Machine, gs: seq<Segment>)
    requires MachineOk(m) && (forall i :: 0 <= i < |gs| ==> SegmentOk(gs[i])) && RecordAll(m, gs).Ok?
    requires forall i :: 0 <= i < |gs| ==> NoFaults(gs[i].call.ops)
    ensures Replayable(m, gs)
    ensures var (after, xs) := RecordAll(m, gs).value; |xs| == |gs| && ReplayAll(m, gs, xs) == Ok(after)
    decreases |gs|
  {
    hide WriteTrace, ReadTrace, Trials, MachineOk, Faults, Harmless;
    if gs != [] {
      assert SegmentOk(gs[0]) && NoFaults(gs[0].call.ops);
      var m1 := gs[0].run(m);
      NothingFails(gs[0].call.ops);
      HarmlessIs(m1.mem, Trials(gs[0].call.ops));
      ReplayIsExact(m1, gs[0].icnt, gs[0].call);
      var w := WriteTrace(m1, gs[0].icnt, gs[0].call).value;
      FaultlessReplays(w.0, gs[1..]);
      var (after, xs) := RecordAll(m, gs).value;
      assert xs[0] == w.1 && xs[1..] == RecordAll(w.0, gs[1..]).value.1;
    }
  }

  // ---- faults that show ----

  /** A call that makes one access. */
  function Single(op: Op, out: seq<Word>, brk: Addr): Call { Call([op], out, brk) }

  lemma SinglePerforms(m: Machine, icnt: nat, op: Op, out: seq<Word>, brk: Addr)
    requires MachineOk(m) && CallOk(Single(op, out, brk))
    ensures WriteTrace(m, icnt, Single(op, out, brk)).Ok?
    ensures Trials([op]) == if op.Put? then Mark(Cells(op.a, op.p), !Faults(op)) else []
    ensures ReadsTrue(m.mem, [op]) <==> (op.Get? && Faults(op) ==> op.junk == BytesAt(m.mem, op.a, |op.junk|))
  {
    hide Note, Store, BytesAt, Check, Faults, Cells, Mark;
    RefusedIs(Tracer(m.mem, NONE, NONE, false), [op]);
    assert [op][..0] == [];
    assert [op][0] == op;
    if op.Put? { assert [] + Mark(Cells(op.a, op.p), !Faults(op)) == Mark(Cells(op.a, op.p), !Faults(op)); }
  }

  /** A write that faults is recorded though it was not performed, and replay performs it a byte at a time: the
      replay is then right exactly when the bytes were already there. */
  lemma FaultyWriteReplayed(m: Machine, icnt: nat, a: Addr, p: seq<Byte>, out: seq<Word>, brk: Addr)
    requires MachineOk(m) && CallOk(Single(Put(a, p), out, brk)) && Check(a, |p|) != NoFault
    ensures var c := Single(Put(a, p), out, brk);
            && WriteTrace(m, icnt, c).Ok? && var (after, x) := WriteTrace(m, icnt, c).value;
            && after.mem == m.mem && ReadTrace(m, icnt, x).Ok?
            && var d := ReadTrace(m, icnt, x).value;
               && d.mem == Store(m.mem, a, p)
               && (|p| <= 0x1_0000_0000 ==> (SameMemory(after.mem, d.mem) <==> p == BytesAt(m.mem, a, |p|)))
  {
    hide Store, Check, Note, WriteTrace, ReadTrace, Trials, SameMemory, Cells, Harmless, StoreCells, BytesAt, Mark, Done, Tried;
    var op := Put(a, p);
    var c := Single(op, out, brk);
    SinglePerforms(m, icnt, op, out, brk);
    assert Agree(m, m) by { AgreeRefl(m); }
    ReplayIs(m, m, icnt, c);
    WritesDone(m, icnt, c);
    MarkIs([], Cells(a, p), false);
    assert [] + Mark(Cells(a, p), false) == Mark(Cells(a, p), false);
    assert [] + Cells(a, p) == Cells(a, p);
    NothingTried();
    StoreIsCells(m.mem, a, p);
    StoreNone(m.mem);
    if |p| <= 0x1_0000_0000 { StoredAgrees(m.mem, a, p); }
  }

  lemma AgreeRefl(m: Machine)
    ensures Agree(m, m)
  {
  }

  lemma StoreNone(mem: map<Addr, Byte>)
    ensures StoreCells(mem, []) == mem
  {
  }

  /** Byte i of an access at a goes to b. */
  predicate Reaches(a: nat, i: nat, b: Addr) { Wrap(a + i) == b }

  /** Storing bytes changes nothing exactly when they are there. */
  lemma StoredAgrees(mem: map<Addr, Byte>, a: Addr, p: seq<Byte>)
    requires |p| <= 0x1_0000_0000
    ensures SameMemory(mem, Store(mem, a, p)) <==> p == BytesAt(mem, a, |p|)
  {
    hide Store, Load, Wrap;
    var t := Store(mem, a, p);
    forall i | 0 <= i < |p| ensures Load(t, Wrap(a + i)) == p[i] { StoredAt(mem, a, p, i); }
    forall i | 0 <= i < |p| ensures BytesAt(mem, a, |p|)[i] == Load(mem, Wrap(a + i)) {}
    if p == BytesAt(mem, a, |p|) {
      forall b: Addr ensures Load(mem, b) == Load(t, b) {
        if i: nat :| i < |p| && Reaches(a, i, b) {
          assert BytesAt(mem, a, |p|)[i] == Load(mem, b);
        } else {
          StoredElse(mem, a, p, b);
        }
      }
    }
    if SameMemory(mem, t) {
      forall i | 0 <= i < |p| ensures p[i] == BytesAt(mem, a, |p|)[i] {
        assert Load(mem, Wrap(a + i)) == Load(t, Wrap(a + i));
      }
    }
  }

  lemma {:induction false} StoredElse(mem: map<Addr, Byte>, a: nat, p: seq<Byte>, b: Addr)
    requires forall i: nat :: i < |p| ==> !Reaches(a, i, b)
    ensures Load(Store(mem, a, p), b) == Load(mem, b)
    decreases |p|
  {
    hide Wrap;
    if p != [] {
      assert !Reaches(a, 0, b);
      var a1 := a + 1;
      forall i: nat | i < |p[1..]| ensures !Reaches(a1, i, b) {
        assert !Reaches(a, i + 1, b);
        assert a + (i + 1) == a + 1 + i;
      }
      StoredElse(mem[Wrap(a) := p[0]], a + 1, p[1..], b);
    }
  }

  lemma {:induction false} StoredAt(mem: map<Addr, Byte>, a: nat, p: seq<Byte>, i: nat)
    requires i < |p| <= 0x1_0000_0000
    ensures Load(Store(mem, a, p), Wrap(a + i)) == p[i]
    decreases |p|
  {
    hide Wrap;
    var m1 := mem[Wrap(a) := p[0]];
    if i > 0 {
      StoredAt(m1, a + 1, p[1..], i - 1);
      assert a + 1 + (i - 1) == a + i;
    } else {
      var a1, b := a + 1, Wrap(a);
      forall j: nat | j < |p[1..]| ensures !Reaches(a1, j, b) {
        WrapApart(a, 1 + j);
        assert a + (1 + j) == a + 1 + j;
      }
      StoredElse(m1, a + 1, p[1..], Wrap(a));
    }
  }

  lemma WrapApart(a: nat, d: nat)
    requires 0 < d < 0x1_0000_0000
    ensures Wrap(a) != Wrap(a + d)
  {
  }

  /** A read that faults is recorded with what was in the caller's buffer, and replay compares that with memory. */
  lemma FaultyReadRefused(m: Machine, icnt: nat, a: Addr, junk: seq<Byte>, out: seq<Word>, brk: Addr)
    requires MachineOk(m) && CallOk(Single(Get(a, junk), out, brk)) && Check(a, |junk|) != NoFault
    ensures var c := Single(Get(a, junk), out, brk);
            && WriteTrace(m, icnt, c).Ok?
            && (ReadTrace(m, icnt, WriteTrace(m, icnt, c).value.1).Ok? <==> junk == BytesAt(m.mem, a, |junk|))
  {
    hide Check, Note, WriteTrace, ReadTrace, Trials, SameMemory, Harmless, StoreCells, BytesAt;
    SinglePerforms(m, icnt, Get(a, junk), out, brk);
    assert Agree(m, m) by { AgreeRefl(m); }
    ReplayIs(m, m, icnt, Single(Get(a, junk), out, brk));
  }

  /** Such a read: four misaligned bytes of empty memory, into a buffer that holds a one. */
  lemma {:induction false} MisalignedReadRefused() returns (m: Machine, c: Call)
    ensures MachineOk(m) && CallOk(c) && WriteTrace(m, 0, c).Ok? && !ReadTrace(m, 0, WriteTrace(m, 0, c).value.1).Ok?
  {
    m := Machine(seq(LAST_REG + 1, _ => 0), 0, map[], 0);
    var out := seq(LAST_REG - FIRST_REG + 1, _ => 0);
    c := Single(Get(1, [1, 0, 0, 0]), out, 0);
    FaultyReadRefused(m, 0, 1, [1, 0, 0, 0], out, 0);
    assert BytesAt(m.mem, 1, 4)[0] == 0;
  }
}
