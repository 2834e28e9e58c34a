/** A run of the core that reaches the one case in which lsq_refresh holds back a load it need not: two stores to
    address 8, the older without its data, and a load from address 0. */
module OooWitness {
  import opened OooState
  import opened OooLists
  import opened OooInvariant
  import opened OooRefresh
  import opened OooStages
  import opened OooCommit
  import opened OooCycle
  import opened OooDispatch
  import opened OooTheorems
  import opened OooTiming

  /** Four RUU and four LSQ stations; class 1 takes ten cycles on the only unit. */
  function Machine(): Config { Config(4, 4, 4, 4, 4, 1, false, false, NA, 20, 1, [[], [Template(0, 10, 1)]]) }

  /** The data of the first store takes ten cycles. */
  function Producer(): Inst { Inst(false, false, Alu, false, 1, 1, NA, NA, NA, NA, 0, false, false) }
  function Store1(): Inst { Inst(false, false, Store, false, 1, NA, NA, 1, NA, NA, 8, false, false) }
  function Store2(): Inst { Inst(false, false, Store, false, 1, NA, NA, NA, NA, NA, 8, false, false) }
  function LoadZero(): Inst { Inst(false, false, Load, false, 1, 2, NA, NA, NA, NA, 0, false, false) }

  function Program(): seq<Inst> { [Producer(), Store1(), Store2(), LoadZero()] }

  function Brings(q: seq<Inst>): Env { Env(_ => 1, _ => 1, q) }

  // ---- stages with nothing to do ----

  lemma CommitWaits(s: State, budget: nat)
    requires Wf(s) && (s.ruuNum == 0 || !s.st[s.ruuHead].completed)
    ensures Commit(s, budget) == Ok(s)
  {
  }

  lemma NothingDue(s: State)
    requires Wf(s) && (s.eventQ == [] || s.eventQ[0].x > s.cycle)
    ensures Writeback(s) == Ok(s)
  {
  }

  lemma NothingToScan(s: State)
    requires Wf(s)
    requires s.lsqNum == 0 || (s.st[LsqAt(s, 0)].kind == Store && !s.st[LsqAt(s, 0)].ready.b)
    ensures Refresh(s, 0, []) == Ok(s)
  {
  }

  lemma NothingReady(s: State, env: Env)
    requires Wf(s) && s.readyQ == []
    ensures Issue(s, env) == Ok(s)
  {
    assert s.(readyQ := []) == s;
  }

  lemma NothingFetched(s: State, budget: nat)
    requires Wf(s) && s.ifq == []
    ensures Dispatch(s, budget) == Ok(s)
  {
  }

  // ---- dispatch ----

  /** What stays fixed while the program is dispatched. */
  ghost predicate Quiet(s: State, cycle: nat) {
    && Wf(s) && s.cfg == Machine() && |s.st| == 8 && s.ruuHead == 0 && s.lsqHead == 0
    && s.eventQ == [] && !s.specMode && s.useSpec == {} && s.busy == [0] && s.cycle == cycle
  }

  function Adder(chain: seq<Link>): Station {
    Station(Alu, false, 1, false, false, false, false, 0, 0, 1, true, false, false, Two(1, NA), Two(chain, []), Three(true, true, true))
  }

  function Agen(seqno: nat, q: nat): Station {
    Station(Alu, false, NA, false, true, false, false, 0, 0, seqno, true, false, false, Two(DTMP, NA), Two([Link(q, 0, 1)], []),
            Three(true, true, true))
  }

  function Access(kind: Kind, addr: nat, seqno: nat, out: Reg, data: bool): Station {
    Station(kind, false, 1, true, false, false, false, addr, 0, seqno, false, false, false, Two(out, NA), Two([], []),
            Three(data, false, true))
  }

  ghost predicate Dispatched0(s: State) {
    && Quiet(s, 1) && s.ruuTail == 0 && s.ruuNum == 0 && s.lsqTail == 0 && s.lsqNum == 0 && s.instSeq == 0
    && s.free == 20 && s.readyQ == [] && s.rob == [] && s.ifq == Program()
    && (forall p :: 0 <= p < 8 ==> s.st[p] == Blank())
    && s.cv[1] == NoCreator
  }

  ghost predicate Dispatched1(s: State) {
    && Quiet(s, 1) && s.ruuTail == 1 && s.ruuNum == 1 && s.lsqTail == 0 && s.lsqNum == 0 && s.instSeq == 1
    && s.free == 19 && s.readyQ == [Link(0, 0, 1)] && s.rob == [0] && s.ifq == Program()[1..]
    && (forall p :: 1 <= p < 8 ==> s.st[p] == Blank())
    && s.st[0] == Adder([])
    && s.cv[1] == Creator(0, 0)
  }

  lemma Dispatch0(s: State)
    requires Dispatched0(s)
    ensures DispatchOne(s).Ok? && Dispatched1(DispatchOne(s).value)
  {
  }

  // ---- one load or store ----

  lemma NoLink(s: State, q: nat, k: nat)
    requires Wf(s) && q < |s.st|
    ensures LinkIdep(s, q, k, NA) == Ok(Put(s, q, s.st[q].(ready := s.st[q].ready.Set(k, true))))
  {
    hide CfgOk;
  }

  lemma OneLink(s: State, q: nat, k: nat, name: Reg, c: nat)
    requires Wf(s) && q < |s.st| && c < |s.st| && c != q && 0 < s.free && name != NA
    requires s.useSpec == {} && s.cv[name] == Creator(c, 0)
    ensures LinkIdep(s, q, k, name).Ok?
    ensures var x, y := s.st[q], s.st[c]; var t := LinkIdep(s, q, k, name).value;
            && Wf(t) && t == s.(st := t.st, free := s.free - 1, prod := t.prod)
            && t.st == s.st[q := x.(ready := x.ready.Set(k, false))]
                           [c := y.(odeps := y.odeps.Set(0, [Link(q, x.tag, k)] + y.odeps.Get(0)))]
  {
    hide CfgOk;
  }

  /** The address computation has no inputs and becomes the creator of DTMP. */
  lemma LinkAgen(s: State, p: nat)
    requires Wf(s) && p < |s.st| && !s.specMode
    ensures LinkAll(s, p, NA, NA, NA, DTMP, NA).Ok?
    ensures var t := LinkAll(s, p, NA, NA, NA, DTMP, NA).value; var x := s.st[p];
            && Wf(t) && t == s.(st := t.st, cv := s.cv[DTMP := Creator(p, 0)])
            && t.st == s.st[p := x.(onames := Two(DTMP, NA), odeps := Two([], x.odeps.b), ready := Three(true, true, true))]
  {
    hide CfgOk, LinkIdep;
    NoLink(s, p, 0);
    var s1 := LinkIdep(s, p, 0, NA).value;
    NoLink(s1, p, 1);
    var s2 := LinkIdep(s1, p, 1, NA).value;
    NoLink(s2, p, 2);
  }

  lemma InstallOne(s: State, q: nat, o: nat, name: Reg)
    requires Wf(s) && q < |s.st| && !s.specMode && o < 2 && s.st[q].odeps == Two([], [])
    ensures var t := InstallOdep(s, q, o, name); var x := s.st[q];
            && Wf(t) && t == s.(st := t.st, cv := if name == NA then s.cv else s.cv[name := Creator(q, o)])
            && t.st == s.st[q := x.(onames := x.onames.Set(o, name))]
  {
    hide CfgOk;
  }

  lemma InstallOutputs(s: State, q: nat, out: Reg)
    requires Wf(s) && q < |s.st| && !s.specMode && s.st[q].odeps == Two([], [])
    ensures var t := InstallOdep(InstallOdep(s, q, 0, out), q, 1, NA);
            && Wf(t) && t == s.(st := t.st, cv := if out == NA then s.cv else s.cv[out := Creator(q, 0)])
            && t.st == s.st[q := s.st[q].(onames := Two(out, NA))]
  {
    hide Wf, InstallOdep;
    InstallOne(s, q, 0, out);
    InstallOne(InstallOdep(s, q, 0, out), q, 1, NA);
  }

  /** The memory access waits for its address on the chain of its address computation, and for its data, if it has
      an input, on the chain of that. */
  lemma LinkAccess(s: State, q: nat, input: Reg, out: Reg, p: nat, c: nat)
    requires Wf(s) && q < |s.st| && p < |s.st| && c < |s.st| && p != q && c != q && p != c && 2 <= s.free && !s.specMode
    requires s.useSpec == {} && s.cv[DTMP] == Creator(p, 0) && (input != NA ==> s.cv[input] == Creator(c, 0))
    requires s.st[q].odeps == Two([], []) && s.st[p].odeps.a == []
    ensures LinkAll(s, q, input, DTMP, NA, out, NA).Ok?
    ensures var t := LinkAll(s, q, input, DTMP, NA, out, NA).value; var x, y, z := s.st[q], s.st[p], s.st[c];
            && Wf(t) && |t.st| == |s.st|
            && t == s.(st := t.st, free := t.free, prod := t.prod, cv := if out == NA then s.cv else s.cv[out := Creator(q, 0)])
            && t.free == s.free - (if input == NA then 1 else 2)
            && t.st[q] == x.(onames := Two(out, NA), ready := Three(input == NA, false, true))
            && t.st[p] == y.(odeps := y.odeps.(a := [Link(q, x.tag, 1)]))
            && t.st[c] == (if input == NA then z else z.(odeps := z.odeps.(a := [Link(q, x.tag, 0)] + z.odeps.a)))
            && forall d :: 0 <= d < |s.st| && d != q && d != p && d != c ==> t.st[d] == s.st[d]
  {
    hide Wf, LinkIdep, InstallOdep;
    if input == NA { NoLink(s, q, 0); } else { OneLink(s, q, 0, input, c); }
    var s1 := LinkIdep(s, q, 0, input).value;
    PutWf(s, q, s.st[q].(ready := s.st[q].ready.Set(0, true)));
    LinkAddress(s1, q, out, p);
  }

  /** The last two inputs and the outputs of a memory access. */
  lemma LinkAddress(s: State, q: nat, out: Reg, p: nat)
    requires Wf(s) && q < |s.st| && p < |s.st| && p != q && 1 <= s.free && !s.specMode
    requires s.useSpec == {} && s.cv[DTMP] == Creator(p, 0) && s.st[q].odeps == Two([], []) && s.st[p].odeps.a == []
    ensures LinkIdep(s, q, 1, DTMP).Ok? && LinkIdep(LinkIdep(s, q, 1, DTMP).value, q, 2, NA).Ok?
    ensures var u := LinkIdep(LinkIdep(s, q, 1, DTMP).value, q, 2, NA).value;
            var t := InstallOdep(InstallOdep(u, q, 0, out), q, 1, NA); var x, y := s.st[q], s.st[p];
            && Wf(t)
            && t == s.(st := t.st, free := s.free - 1, prod := t.prod, cv := if out == NA then s.cv else s.cv[out := Creator(q, 0)])
            && t.st == s.st[q := x.(onames := Two(out, NA), ready := Three(x.ready.a, false, true))]
                           [p := y.(odeps := y.odeps.(a := [Link(q, x.tag, 1)]))]
  {
    hide Wf, LinkIdep, InstallOdep;
    OneLink(s, q, 1, DTMP, p);
    var s2 := LinkIdep(s, q, 1, DTMP).value;
    NoLink(s2, q, 2);
    var s3 := LinkIdep(s2, q, 2, NA).value;
    PutWf(s2, q, s2.st[q].(ready := s2.st[q].ready.Set(2, true)));
    InstallOutputs(s3, q, out);
    assert [Link(q, s.st[q].tag, 1)] + [] == [Link(q, s.st[q].tag, 1)];
  }

  /** Only the address computation is ready, and is queued. */
  lemma QueueAgen(s: State, p: nat, q: nat, kind: Kind)
    requires Wf(s) && p < |s.st| && q < |s.st| && p != q && 0 < s.free
    requires OperandsReady(s.st[p]) && !s.st[p].queued && !s.st[p].urgent && !s.st[p].inLsq && !OperandsReady(s.st[q])
    ensures QueuePair(s, p, q, kind).Ok?
    ensures var t := QueuePair(s, p, q, kind).value;
            && Wf(t) && t == s.(st := t.st, free := s.free - 1, readyQ := t.readyQ, lastOp := t.lastOp)
            && t.st == s.st[p := s.st[p].(queued := true)]
            && t.readyQ == Insert(s.readyQ, Link(p, s.st[p].tag, s.st[p].seqno))
  {
    hide CfgOk, Insert;
  }

  /** The youngest operation goes to the end of the ready queue. */
  lemma {:induction false} InsertLast(q: seq<Link>, n: Link)
    requires forall i :: 0 <= i < |q| ==> q[i].x < n.x
    ensures Insert(q, n) == q + [n]
  {
    if q != [] {
      InsertLast(q[1..], n);
      assert q == [q[0]] + q[1..];
    }
  }

  /** An instruction of the program that accesses memory. */
  ghost predicate IsAccess(i: Inst) {
    && !i.nop && !i.trap && i.kind != Alu && !i.mispredicted && !i.redirect && !i.urgent && i.fu == 1
    && i.in2 == NA && i.in3 == NA && i.out2 == NA
  }

  lemma DispatchAccess(s: State, i: Inst)
    requires Quiet(s, 1) && 0 < s.ruuTail < 4 && s.lsqTail < 3 && s.ruuNum < 4 && s.lsqNum < 4 && 4 <= s.free
    requires s.ifq != [] && s.ifq[0] == i && IsAccess(i) && (i.in1 != NA ==> s.cv[i.in1] == Creator(0, 0)) && i.in1 != DTMP
    requires s.st[s.ruuTail] == Blank() && s.st[4 + s.lsqTail] == Blank()
    ensures DispatchOne(s).Ok?
    ensures var t := DispatchOne(s).value; var p, q := s.ruuTail, 4 + s.lsqTail; var d := i.in1 == NA; var z := s.st[0];
            && Quiet(t, 1) && t.ruuTail == (p + 1) % 4 && t.ruuNum == s.ruuNum + 1
            && t.lsqTail == s.lsqTail + 1 && t.lsqNum == s.lsqNum + 1 && t.instSeq == s.instSeq + 2
            && t.free == s.free - (if d then 2 else 3) && t.rob == s.rob + [p] + [q] && t.ifq == s.ifq[1..]
            && t.readyQ == Insert(s.readyQ, Link(p, 0, s.instSeq + 1))
            && t.cv == (if i.out1 == NA then s.cv[DTMP := Creator(p, 0)] else s.cv[DTMP := Creator(p, 0)][i.out1 := Creator(q, 0)])
            && t.st[p] == Agen(s.instSeq + 1, q) && t.st[q] == Access(i.kind, i.addr, s.instSeq + 2, i.out1, d)
            && t.st[0] == (if d then z else z.(odeps := z.odeps.(a := [Link(q, 0, 0)] + z.odeps.a)))
            && forall x :: 1 <= x < 8 && x != p && x != q ==> t.st[x] == s.st[x]
  {
    hide CfgOk, LinkAll, QueuePair, AllocRuu, AllocLsq, Insert;
    var p, q := s.ruuTail, 4 + s.lsqTail;
    MemAllocated(s, i);
    var s0 := AllocLsq(AllocRuu(s, Alu, false, s.cfg.agenFu, true), i);
    LinkAgen(s0, p);
    var s1 := LinkAll(s0, p, NA, NA, NA, DTMP, NA).value;
    LinkAccess(s1, q, i.in1, i.out1, p, 0);
    var s2 := LinkAll(s1, q, i.in1, DTMP, NA, i.out1, NA).value;
    QueueAgen(s2, p, q, i.kind);
  }

  ghost predicate Dispatched2(s: State) {
    && Quiet(s, 1) && s.ruuTail == 2 && s.ruuNum == 2 && s.lsqTail == 1 && s.lsqNum == 1 && s.instSeq == 3
    && s.free == 16 && s.readyQ == [Link(0, 0, 1), Link(1, 0, 2)] && s.rob == [0, 1, 4] && s.ifq == Program()[2..]
    && (forall p :: 2 <= p < 8 && p != 4 ==> s.st[p] == Blank())
    && s.st[0] == Adder([Link(4, 0, 0)]) && s.st[1] == Agen(2, 4) && s.st[4] == Access(Store, 8, 3, NA, false)
    && s.cv[DTMP] == Creator(1, 0)
  }

  lemma Dispatch1(s: State)
    requires Dispatched1(s)
    ensures DispatchOne(s).Ok? && Dispatched2(DispatchOne(s).value)
  {
    hide CfgOk, DispatchOne;
    DispatchAccess(s, Store1());
    assert [0] + [1] + [4] == [0, 1, 4] && Program()[1..][1..] == Program()[2..];
    assert [Link(4, 0, 0)] + [] == [Link(4, 0, 0)];
    InsertLast([Link(0, 0, 1)], Link(1, 0, 2));
  }

  ghost predicate Dispatched3(s: State) {
    && Quiet(s, 1) && s.ruuTail == 3 && s.ruuNum == 3 && s.lsqTail == 2 && s.lsqNum == 2 && s.instSeq == 5
    && s.free == 14 && s.readyQ == [Link(0, 0, 1), Link(1, 0, 2), Link(2, 0, 4)] && s.rob == [0, 1, 4, 2, 5]
    && s.ifq == Program()[3..] && s.st[3] == Blank() && s.st[6] == Blank() && s.st[7] == Blank()
    && s.st[0] == Adder([Link(4, 0, 0)]) && s.st[1] == Agen(2, 4) && s.st[4] == Access(Store, 8, 3, NA, false)
    && s.st[2] == Agen(4, 5) && s.st[5] == Access(Store, 8, 5, NA, true)
    && s.cv[DTMP] == Creator(2, 0)
  }

  lemma Dispatch2(s: State)
    requires Dispatched2(s)
    ensures DispatchOne(s).Ok? && Dispatched3(DispatchOne(s).value)
  {
    hide CfgOk, DispatchOne;
    DispatchAccess(s, Store2());
    assert [0, 1, 4] + [2] + [5] == [0, 1, 4, 2, 5] && Program()[2..][1..] == Program()[3..];
    InsertLast([Link(0, 0, 1), Link(1, 0, 2)], Link(2, 0, 4));
  }

  /** All four are dispatched. */
  ghost predicate Loaded(s: State, cycle: nat) {
    && Quiet(s, cycle) && s.ruuTail == 0 && s.ruuNum == 4 && s.lsqTail == 3 && s.lsqNum == 3
    && s.free == 12 && s.readyQ == [Link(0, 0, 1), Link(1, 0, 2), Link(2, 0, 4), Link(3, 0, 6)]
    && s.rob == [0, 1, 4, 2, 5, 3, 6] && s.ifq == []
    && s.st[0] == Adder([Link(4, 0, 0)]) && s.st[1] == Agen(2, 4) && s.st[4] == Access(Store, 8, 3, NA, false)
    && s.st[2] == Agen(4, 5) && s.st[5] == Access(Store, 8, 5, NA, true)
    && s.st[3] == Agen(6, 6) && s.st[6] == Access(Load, 0, 7, 2, true)
  }

  lemma Dispatch3(s: State)
    requires Dispatched3(s)
    ensures DispatchOne(s).Ok? && Loaded(DispatchOne(s).value, 1)
  {
    hide CfgOk, DispatchOne;
    DispatchAccess(s, LoadZero());
    assert [0, 1, 4, 2, 5] + [3] + [6] == [0, 1, 4, 2, 5, 3, 6] && Program()[3..][1..] == [];
    InsertLast([Link(0, 0, 1), Link(1, 0, 2), Link(2, 0, 4)], Link(3, 0, 6));
  }

  // ---- issue ----

  function Started(x: Station): Station { x.(queued := false, issued := true) }

  /** The first k operations of the ready queue have started. */
  ghost predicate Issuing(s: State, k: nat) {
    && Wf(s) && s.cfg == Machine() && |s.st| == 8 && s.cycle == 2 && s.free == 12 && s.readyQ == [] && k <= 4
    && s.st[0] == (if k > 0 then Started(Adder([Link(4, 0, 0)])) else Adder([Link(4, 0, 0)]))
    && s.st[1] == (if k > 1 then Started(Agen(2, 4)) else Agen(2, 4)) && s.st[4] == Access(Store, 8, 3, NA, false)
    && s.st[2] == (if k > 2 then Started(Agen(4, 5)) else Agen(4, 5)) && s.st[5] == Access(Store, 8, 5, NA, true)
    && s.st[3] == (if k > 3 then Started(Agen(6, 6)) else Agen(6, 6)) && s.st[6] == Access(Load, 0, 7, 2, true)
    && s.eventQ == Scheduled(k) && |s.busy| == 1 && (k == 0 ==> s.busy == [0])
  }

  function Scheduled(k: nat): seq<Link> {
    if k == 0 then [] else if k == 1 then [Link(0, 0, 12)] else [Link(k - 1, 0, 3)] + Scheduled(k - 1)
  }

  /** What issuing leaves alone. */
  ghost predicate SameMachine(s: State, t: State) {
    && t == s.(st := t.st, free := t.free, readyQ := t.readyQ, eventQ := t.eventQ, busy := t.busy)
  }

  lemma IssueAdder(s: State, env: Env)
    requires Issuing(s, 0)
    ensures IssueNode(s, Link(0, 0, 1), env).Ok?
    ensures var r := IssueNode(s, Link(0, 0, 1), env).value; r.issued && Issuing(r.s, 1) && SameMachine(s, r.s)
  {
    hide CfgOk, LoadLatency;
  }

  /** An address computation needs no unit. */
  lemma IssueAgen(s: State, k: nat, x: nat, env: Env)
    requires 1 <= k < 4 && Issuing(s, k)
    ensures IssueNode(s, Link(k, 0, x), env).Ok?
    ensures var r := IssueNode(s, Link(k, 0, x), env).value; r.issued && Issuing(r.s, k + 1) && SameMachine(s, r.s)
  {
    hide CfgOk, IssueNode, Insert;
    EventFirst(Scheduled(k), Link(k, 0, 3));
    IssueFree(s, Link(k, 0, x), env);
  }

  /** An operation without a unit starts, and its event is due in the next cycle. */
  lemma IssueFree(s: State, n: Link, env: Env)
    requires Wf(s) && Valid(s, n) && 0 < s.free && s.st[n.rs].fu == NA && !s.st[n.rs].inLsq
    requires var x := s.st[n.rs]; OperandsReady(x) && x.queued && !x.issued && !x.completed
    ensures IssueNode(s, n, env).Ok?
    ensures var r := IssueNode(s, n, env).value;
            && r.issued && Wf(r.s)
            && r.s == s.(st := s.st[n.rs := Started(s.st[n.rs])], eventQ := Insert(s.eventQ, Link(n.rs, n.tag, s.cycle + 1)))
  {
    hide CfgOk, FinishStore, StartOn, ResGet, Enqueue, Insert, OperandsReady;
  }

  lemma EventFirst(q: seq<Link>, n: Link)
    requires q != [] && q[0].x >= n.x
    ensures Insert(q, n) == [n] + q
  {
  }

  lemma LoopStep(s: State, node: seq<Link>, n: nat, env: Env)
    requires Wf(s) && node != [] && n < s.cfg.issueWidth && IssueNode(s, node[0], env).Ok? && IssueNode(s, node[0], env).value.issued
    ensures IssueLoop(s, node, n, env) == IssueLoop(IssueNode(s, node[0], env).value.s, node[1..], n + 1, env)
  {
    hide Wf, IssueNode;
  }

  lemma LoopEnds(s: State, n: nat, env: Env)
    requires Wf(s)
    ensures IssueLoop(s, [], n, env) == Ok(s)
  {
    hide Wf;
  }

  lemma IssueAll(s: State, env: Env)
    requires Loaded(s, 2)
    ensures Issue(s, env).Ok? && Issuing(Issue(s, env).value, 4) && SameMachine(s, Issue(s, env).value)
  {
    hide CfgOk, IssueLoop, IssueNode, Scheduled;
    var q := s.readyQ;
    var s0 := s.(readyQ := []);
    assert Scheduled(0) == [] by { NoneScheduled(); }
    IssueAdder(s0, env);
    LoopStep(s0, q, 0, env);
    var s1 := IssueNode(s0, q[0], env).value.s;
    IssueAgen(s1, 1, 2, env);
    LoopStep(s1, q[1..], 1, env);
    var s2 := IssueNode(s1, q[1], env).value.s;
    IssueAgen(s2, 2, 4, env);
    assert q[1..][1..] == q[2..] && q[2..][1..] == q[3..] && q[3..][1..] == [];
    LoopStep(s2, q[2..], 2, env);
    var s3 := IssueNode(s2, q[2], env).value.s;
    IssueAgen(s3, 3, 6, env);
    LoopStep(s3, q[3..], 3, env);
    LoopEnds(IssueNode(s3, q[3], env).value.s, 4, env);
  }

  lemma NoneScheduled()
    ensures Scheduled(0) == []
  {
  }

  // ---- writeback ----

  /** q gets its address, and is queued if that makes a store ready. */
  ghost predicate GetsAddress(s: State, t: State, q: nat) {
    && Wf(s) && Wf(t) && |t.st| == |s.st| && q < |s.st| && s.free <= t.free + 1
    && t == s.(st := t.st, free := t.free, readyQ := t.readyQ)
    && t.st == s.st[q := s.st[q].(ready := s.st[q].ready.(b := true), queued := s.st[q].ready.a && s.st[q].kind == Store)]
  }

  ghost predicate LacksAddress(x: Station) { x.tag == 0 && !x.ready.b && x.ready.c && x.inLsq && !x.queued }

  lemma WakeAccess(s: State, q: nat)
    requires Wf(s) && q < |s.st| && 0 < s.free && LacksAddress(s.st[q])
    ensures WakeOne(s, Link(q, 0, 1)).Ok? && GetsAddress(s, WakeOne(s, Link(q, 0, 1)).value, q)
  {
    hide CfgOk, Insert;
  }

  lemma WakeOnly(s: State, p: nat, q: nat)
    requires Wf(s) && p < |s.st| && q < |s.st| && p != q && s.st[p].odeps == Two([Link(q, 0, 1)], []) && 0 < s.free
    requires LacksAddress(s.st[q])
    ensures Wake(s, p, 0).Ok?
    ensures var t := Wake(s, p, 0).value; var x := s.st[q];
            && Wf(t) && s.free <= t.free && t == s.(st := t.st, free := t.free, readyQ := t.readyQ)
            && t.st == s.st[p := s.st[p].(odeps := Two([], []))]
                           [q := x.(ready := x.ready.(b := true), queued := x.ready.a && x.kind == Store)]
  {
    hide CfgOk, WakeOne, LacksAddress;
    assert [Link(q, 0, 1)][1..] == [];
    var s1 := Put(s, p, s.st[p].(odeps := Two([], [])));
    WakeAccess(s1, q);
    var t := WakeNext(s, p, 0).value;
    assert Wake(t, p, 0) == Ok(t);
  }

  /** The address computation of q completes. */
  lemma CompleteAgen(s: State, p: nat, q: nat, seqno: nat)
    requires Wf(s) && p < |s.st| && q < |s.st| && p != q && s.st[p] == Started(Agen(seqno, q)) && 0 < s.free
    requires LacksAddress(s.st[q])
    ensures Complete(s, p).Ok?
    ensures var t := Complete(s, p).value; var x := s.st[q];
            && Wf(t) && |t.st| == |s.st| && s.free <= t.free
            && t == s.(st := t.st, free := t.free, readyQ := t.readyQ, cv := t.cv)
            && t.st[q] == x.(ready := x.ready.(b := true), queued := x.ready.a && x.kind == Store)
            && forall d :: 0 <= d < |s.st| && d != p && d != q ==> t.st[d] == s.st[d]
  {
    hide CfgOk, Wake, Recover, LacksAddress;
    var s1 := Put(s, p, s.st[p].(completed := true));
    var s2 := if s1.cv[DTMP] == Creator(p, 0) then s1.(cv := s1.cv[DTMP := NoCreator]) else s1;
    WakeOnly(s2, p, q);
    assert Broadcast(s1, p, 0) == Wake(s2, p, 0);
    var s3 := Wake(s2, p, 0).value;
    assert Broadcast(s3, p, 1) == Ok(s3);
  }

  /** The state in which the fourth cycle calls lsq_refresh: all addresses are known. */
  ghost predicate Held(s: State) {
    && Wf(s) && |s.st| == 8 && s.lsqHead == 0 && s.lsqNum == 3 && s.rob == [0, 1, 4, 2, 5, 3, 6] && s.cfg == Machine()
    && s.st[4] == Access(Store, 8, 3, NA, false).(ready := Three(false, true, true))
    && s.st[5] == Access(Store, 8, 5, NA, true).(ready := Three(true, true, true), queued := true)
    && s.st[6] == Access(Load, 0, 7, 2, true).(ready := Three(true, true, true))
  }

  /** One event that is due. */
  lemma WritebackStep(s: State)
    requires Wf(s) && s.eventQ != [] && s.eventQ[0].x <= s.cycle && Valid(s, s.eventQ[0])
    ensures var n := s.(eventQ := s.eventQ[1..], free := s.free + 1);
            && Wf(n) && s.eventQ[0].rs < |n.st|
            && (Complete(n, s.eventQ[0].rs).Ok? ==> Writeback(s) == Writeback(Complete(n, s.eventQ[0].rs).value))
  {
    hide CfgOk, Complete;
  }

  lemma Addresses(s: State)
    requires Issuing(s, 4) && SameRings(s)
    ensures Writeback(s.(cycle := 3)).Ok? && Held(Writeback(s.(cycle := 3)).value)
  {
    hide CfgOk, Complete, Writeback;
    var s3 := s.(cycle := 3);
    assert s3.eventQ == [Link(3, 0, 3), Link(2, 0, 3), Link(1, 0, 3), Link(0, 0, 12)];
    assert Wf(s3);
    var n3 := s3.(eventQ := s3.eventQ[1..], free := s3.free + 1);
    WritebackStep(s3);
    CompleteAgen(n3, 3, 6, 6);
    var s2 := Complete(n3, 3).value;
    var n2 := s2.(eventQ := s2.eventQ[1..], free := s2.free + 1);
    WritebackStep(s2);
    CompleteAgen(n2, 2, 5, 4);
    var s1 := Complete(n2, 2).value;
    var n1 := s1.(eventQ := s1.eventQ[1..], free := s1.free + 1);
    WritebackStep(s1);
    CompleteAgen(n1, 1, 4, 2);
    NothingDue(Complete(n1, 1).value);
  }

  ghost predicate SameRings(s: State) {
    s.lsqHead == 0 && s.lsqNum == 3 && s.rob == [0, 1, 4, 2, 5, 3, 6] && s.cfg == Machine()
  }

  // ---- the run ----

  lemma MachineOk()
    ensures CfgOk(Machine()) && Wf(Init(Machine()))
  {
    hide Init, Inv, Wf;
    InitInv(Machine());
  }

  lemma BringsOk(q: seq<Inst>)
    requires forall i :: 0 <= i < |q| ==> InstOk(Machine(), q[i])
    ensures EnvOk(Machine(), Brings(q))
  {
    hide InstOk, Machine;
  }

  lemma FirstCycle()
    ensures Wf(Init(Machine()))
    ensures var r := Cycle(Init(Machine()), Brings(Program())); r.Ok? && Dispatched0(r.value)
  {
    hide Commit, Writeback, Refresh, Issue, Dispatch, CfgOk;
    MachineOk();
    var s := Init(Machine());
    CommitWaits(s, 1);
    assert ReleaseFu(s) == s by { ReleaseNothing(s); }
    NothingDue(s);
    NothingToScan(s);
    NothingReady(s, Brings(Program()));
    NothingFetched(s, 4);
  }

  lemma ReleaseNothing(s: State)
    requires forall i :: 0 <= i < |s.busy| ==> s.busy[i] == 0
    ensures ReleaseFu(s) == s
  {
    assert ReleaseFu(s).busy == s.busy;
  }

  lemma FetchNothing(s: State)
    ensures Fetch(s, []) == s
  {
    assert s.ifq + [] == s.ifq;
  }

  lemma SecondCycle(s: State)
    requires Dispatched0(s)
    ensures Wf(s)
    ensures var r := Cycle(s, Brings([])); r.Ok? && Loaded(r.value, 2)
  {
    hide Commit, Writeback, Refresh, Issue, Dispatch, CfgOk, ReleaseFu, Fetch;
    CommitWaits(s, 1);
    ReleaseNothing(s);
    NothingDue(s);
    NothingToScan(s);
    NothingReady(s, Brings([]));
    DispatchProgram(s);
    FetchNothing(Dispatch(s, 4).value);
  }

  lemma DispatchStep(s: State, budget: nat)
    requires Wf(s) && 0 < budget && s.ruuNum < s.cfg.ruuSize && s.lsqNum < s.cfg.lsqSize && s.ifq != [] && !s.specMode
    requires !s.cfg.inorderIssue && !s.ifq[0].trap && !s.ifq[0].nop && DispatchOne(s).Ok?
    ensures Dispatch(s, budget) == Dispatch(DispatchOne(s).value, budget - 1)
  {
    hide Wf, DispatchOne;
  }

  lemma DispatchProgram(s: State)
    requires Dispatched0(s)
    ensures Dispatch(s, 4).Ok? && Loaded(Dispatch(s, 4).value, 1)
  {
    hide CfgOk, DispatchOne, Dispatch;
    Dispatch0(s);
    DispatchStep(s, 4);
    var s1 := DispatchOne(s).value;
    Dispatch1(s1);
    DispatchStep(s1, 3);
    var s2 := DispatchOne(s1).value;
    Dispatch2(s2);
    DispatchStep(s2, 2);
    var s3 := DispatchOne(s2).value;
    Dispatch3(s3);
    DispatchStep(s3, 1);
    NothingFetched(DispatchOne(s3).value, 0);
  }

  /** u is the state in which the cycle that starts in s calls lsq_refresh. */
  ghost predicate AtRefresh(s: State, u: State) {
    && Wf(s) && Commit(s, s.cfg.commitWidth).Ok?
    && var t := ReleaseFu(Commit(s, s.cfg.commitWidth).value); Writeback(t) == Ok(u)
  }

  lemma {:induction false} ThirdCycle(s: State) returns (u: State)
    requires Loaded(s, 2)
    ensures Wf(s)
    ensures var r := Cycle(s, Brings([])); r.Ok? && AtRefresh(r.value, u) && Held(u)
  {
    hide Commit, Writeback, Refresh, Issue, Dispatch, CfgOk, ReleaseFu, Fetch, Insert;
    CommitWaits(s, 1);
    ReleaseNothing(s);
    NothingDue(s);
    NothingToScan(s);
    IssueAll(s, Brings([]));
    var s4 := Issue(s, Brings([])).value;
    NothingFetched(s4, 4);
    FetchNothing(s4);
    var t := s4.(cycle := 3);
    CommitWaits(t, 1);
    ReleaseOnly(t);
    Addresses(s4.(busy := ReleaseFu(t).busy));
    u := Writeback(ReleaseFu(t)).value;
  }

  lemma ReleaseOnly(s: State)
    requires |s.busy| == 1
    ensures ReleaseFu(s) == s.(busy := ReleaseFu(s).busy) && |ReleaseFu(s).busy| == 1
  {
  }

  /** The hidden store's mark holds the load back: nothing is queued. */
  lemma RefreshHolds(u: State)
    requires Held(u)
    ensures Refresh(u, 0, []) == Ok(u)
  {
    hide CfgOk, Enqueue;
    assert LsqAt(u, 0) == 4 && LsqAt(u, 1) == 5 && LsqAt(u, 2) == 6;
    assert [] + [8] == [8];
    assert Hide([8], 8) == [0];
    assert Refresh(u, 3, [0]) == Ok(u);
    assert Refresh(u, 2, [0]) == Ok(u);
    assert Refresh(u, 1, [8]) == Ok(u);
  }

  /** A load from address 0 whose dependences are met but which lsq_refresh leaves waiting, reached from power-up: the
      older of two stores to address 8 lacks its data, and the younger, which has it, hides the older. */
  lemma {:induction false} LoadFromZeroHeldBack() returns (envs: seq<Env>, u: State)
    ensures CfgOk(Machine()) && EnvsOk(Machine(), envs) && Wf(Init(Machine()))
    ensures Run(Init(Machine()), envs).Ok? && AtRefresh(Run(Init(Machine()), envs).value, u) && Inv(u) && Wf(u)
    ensures |Lsq(u)| == 3 && Lsq(u)[2] < |u.st| && Waiting(u.st[Lsq(u)[2]]) && u.st[Lsq(u)[2]].addr == 0
    ensures MemReady(u.st, Lsq(u)[..2], 0) && HeldBack(u.st, Lsq(u)[..2], 0)
    ensures Refresh(u, 0, []).Ok? && Lsq(u)[2] < |Refresh(u, 0, []).value.st| && !Refresh(u, 0, []).value.st[Lsq(u)[2]].queued
  {
    hide Cycle, Wf, CfgOk, Inv, Refresh, AtRefresh, Held, Dispatched0, Loaded, LsqPart, HeldBack, MemReady, ZeroMarked, EnvOk, Machine;
    MachineOk();
    ProgramOk();
    BringsOk(Program());
    BringsOk([]);
    envs := [Brings(Program()), Brings([]), Brings([])];
    FirstCycle();
    var s1 := Cycle(Init(Machine()), envs[0]).value;
    SecondCycle(s1);
    var s2 := Cycle(s1, envs[1]).value;
    u := ThirdCycle(s2);
    var s3 := Cycle(s2, envs[2]).value;
    RunThree(Init(Machine()), envs, s1, s2, s3);
    InitInv(Machine());
    RunStage(Init(Machine()), envs);
    RefreshStateOk(s3, u);
    HeldMeans(u);
    RefreshHolds(u);
    RefreshIsExact(u, 2);
    MemReadyIs(u.st, Lsq(u)[..2], 0);
    ReadyKnows(u.st, Lsq(u)[..2], 0);
  }

  lemma ReadyKnows(st: seq<Station>, older: seq<nat>, addr: nat)
    requires MemReady(st, older, addr)
    ensures AddressesKnown(st, older)
  {
    hide YoungestStore;
  }

  lemma ProgramOk()
    ensures forall i :: 0 <= i < |Program()| ==> InstOk(Machine(), Program()[i])
  {
  }

  lemma RunThree(s: State, envs: seq<Env>, s1: State, s2: State, s3: State)
    requires |envs| == 3 && Wf(s) && Cycle(s, envs[0]) == Ok(s1)
    requires Wf(s1) && Cycle(s1, envs[1]) == Ok(s2)
    requires Wf(s2) && Cycle(s2, envs[2]) == Ok(s3)
    ensures Run(s, envs) == Ok(s3)
  {
    hide Wf, Cycle;
    assert Run(s3, envs[3..]) == Ok(s3);
    assert envs[2..][1..] == envs[3..] && envs[1..][1..] == envs[2..];
    assert Run(s2, envs[2..]) == Run(s3, envs[3..]);
    assert Run(s1, envs[1..]) == Run(s2, envs[2..]);
  }

  lemma RefreshStateOk(s: State, u: State)
    requires Inv(s) && AtRefresh(s, u)
    ensures Inv(u) && Wf(u)
  {
    hide Inv, Wf, Commit, Writeback;
    CommitStage(s, s.cfg.commitWidth);
    ReleaseStage(Commit(s, s.cfg.commitWidth).value);
    WritebackStage(ReleaseFu(Commit(s, s.cfg.commitWidth).value));
    InvGives(u);
  }

  lemma HeldMeans(u: State)
    requires Held(u) && Inv(u)
    ensures Lsq(u) == [4, 5, 6] && 6 < |u.st| && Waiting(u.st[6]) && !u.st[6].queued && u.st[6].addr == 0
    ensures MemReady(u.st, Lsq(u)[..2], 0)
  {
    hide LsqPart, RuuPart, CfgOk, Paired, Kinds, Split, History, Statuses, ReadyOk, EventsOk, ChainsOk, PreciseCreators;
    hide LoadsOk, NoneLost, SpecCreators, Branch, PoolOk;
    LsqRing(u);
    assert Ring(4, 0, 3, 4) == [4, 5, 6];
    var older := Lsq(u)[..2];
    assert older == [4, 5] && older[..1] == [4] && older[..1][..0] == [];
    assert YoungestStore(u.st, [], 0) == -1;
    assert YoungestStore(u.st, [4], 0) == -1;
  }
}
