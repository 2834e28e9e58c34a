/** The out-of-order core of sim-outorder.c as a state and one function per pipeline routine.

    RUU and LSQ stations share one index space, the way C code holds pointers to either: station p is
    RUU[p] when p < ruuSize and LSQ[p - ruuSize] otherwise.  Every `panic` and failed library assertion
    of the source is a Halt outcome.  The last five fields of State are history: no routine reads them. */
module OooState {

  const NA: Reg := 0
  const DTMP: Reg := 67
  const TOTAL_REGS: nat := 70
  const MAX_STD_UNKNOWNS: nat := 64

  /** A logical register name; NA stands for none. */
  type Reg = n: nat | n < TOTAL_REGS

  datatype Panic =
    | OutOfLinks | AlreadyQueued | EventCompleted | EventInPast | BadCompletion | MispredictedMem
    | NotSpeculative | EmptyRuu | RuuHeadTailBroken | RuuLsqOutOfSync | DependenceSatisfied | FuInUse
    | BadFuClass | RetiredHasOdeps | StdOverflow | BadIssue | StoreCreatesResult | MispredictedStore
    | DrainedAndSpeculative | NullStation | WildPointer | FewerRuuThanLsq | RuuWedged | LsqWedged

  datatype Outcome<+T> = Ok(value: T) | Halt(why: Panic) {
    predicate IsFailure() { Halt? }
    function PropagateFailure<U>(): Outcome<U> requires Halt? { Halt(why) }
    function Extract(): T requires Ok? { value }
  }

  /** Fixed-size C arrays: MAX_ODEPS is 2 and MAX_IDEPS is 3. */
  datatype Two<T> = Two(a: T, b: T) {
    function Get(k: nat): T { if k == 0 then a else b }
    function Set(k: nat, v: T): Two<T> { if k == 0 then this.(a := v) else this.(b := v) }
  }
  datatype Three<T> = Three(a: T, b: T, c: T) {
    function Get(k: nat): T { if k == 0 then a else if k == 1 then b else c }
    function Set(k: nat, v: T): Three<T> {
      if k == 0 then this.(a := v) else if k == 1 then this.(b := v) else this.(c := v)
    }
  }

  /** What MD_OP_FLAGS says of a station: F_MEM|F_LOAD, F_MEM|F_STORE or neither. */
  datatype Kind = Alu | Load | Store

  /** A decoded instruction with the outcome of its functional execution: its effective address, whether
      fetch predicted the wrong successor, and whether dispatch redirects fetch for it. */
  datatype Inst = Inst(nop: bool, trap: bool, kind: Kind, urgent: bool, fu: nat,
                       out1: Reg, out2: Reg, in1: Reg, in2: Reg, in3: Reg,
                       addr: nat, mispredicted: bool, redirect: bool)

  /** RS_link; x is the union: event time, sequence number or operand number. */
  datatype Link = Link(rs: nat, tag: nat, x: nat)

  /** CV_link */
  datatype Creator = NoCreator | Creator(rs: nat, odep: nat)

  datatype Station = Station(kind: Kind, urgent: bool, fu: nat, inLsq: bool, eaComp: bool, recover: bool,
                             spec: bool, addr: nat, tag: nat, seqno: nat,
                             queued: bool, issued: bool, completed: bool,
                             onames: Two<Reg>, odeps: Two<seq<Link>>, ready: Three<bool>)

  /** res_template: its master resource, operation latency and issue latency. */
  datatype Template = Template(master: nat, oplat: nat, issuelat: nat)

  datatype Config = Config(ruuSize: nat, lsqSize: nat, ifqSize: nat, decodeWidth: nat, issueWidth: nat,
                           commitWidth: nat, includeSpec: bool, inorderIssue: bool, agenFu: nat,
                           links: nat, units: nat, table: seq<seq<Template>>)

  /** Cache and TLB latencies of the loads of one cycle, by station sequence number, and what fetch
      delivers at the end of the cycle. */
  datatype Env = Env(cacheLat: nat -> nat, tlbLat: nat -> nat, fetched: seq<Inst>)

  datatype Opnd = Opnd(rs: nat, num: nat)
  datatype Slot = Slot(rs: nat, odep: nat)

  datatype State = State(
    cfg: Config, st: seq<Station>,
    ruuHead: nat, ruuTail: nat, ruuNum: nat, lsqHead: nat, lsqTail: nat, lsqNum: nat,
    free: nat, readyQ: seq<Link>, eventQ: seq<Link>,
    cv: seq<Creator>, specCv: seq<Creator>, useSpec: set<nat>,
    specMode: bool, cycle: nat, instSeq: nat, busy: seq<nat>, ifq: seq<Inst>, lastOp: Link,
    // history
    rob: seq<nat>,         // in-flight stations in program order
    nspec: nat,            // how many of them, from the front, are not speculative
    prod: map<Opnd, Slot>, // the output slot each linked operand waits for
    log: seq<nat>,         // sequence numbers of all correct-path instructions dispatched, in order
    retired: seq<nat>)     // sequence numbers of all instructions committed, in order

  /** The functional-unit table names existing units, and every operation takes at least a cycle. */
  ghost predicate CfgOk(cfg: Config) {
    && 0 < cfg.ruuSize && 0 < cfg.lsqSize
    && (forall c, i :: 0 <= c < |cfg.table| && 0 <= i < |cfg.table[c]| ==>
          cfg.table[c][i].master < cfg.units && 1 <= cfg.table[c][i].oplat)
  }

  /** The bounds of the arrays and ring pointers. */
  ghost predicate Wf(s: State) {
    && CfgOk(s.cfg)
    && |s.st| == s.cfg.ruuSize + s.cfg.lsqSize
    && s.ruuHead < s.cfg.ruuSize && s.ruuTail < s.cfg.ruuSize
    && s.lsqHead < s.cfg.lsqSize && s.lsqTail < s.cfg.lsqSize
    && |s.cv| == TOTAL_REGS && |s.specCv| == TOTAL_REGS
    && |s.busy| == s.cfg.units
  }

  /** What machine.def and the decoder guarantee of an instruction. */
  predicate InstOk(cfg: Config, i: Inst) {
    && (i.kind == Store ==> i.out1 == NA && i.out2 == NA && i.fu != NA)
    && (i.nop ==> !i.mispredicted)
    && FuOk(cfg, i.fu) && FuOk(cfg, cfg.agenFu)
  }

  predicate FuOk(cfg: Config, fu: nat) {
    fu == NA || (fu < |cfg.table| && cfg.table[fu] != [])
  }

  function OperandsReady(x: Station): bool { x.ready.a && x.ready.b && x.ready.c }

  predicate Valid(s: State, l: Link) {
    l.rs < |s.st| && l.tag == s.st[l.rs].tag
  }

  function Put(s: State, p: nat, x: Station): State
    requires p < |s.st|
  {
    s.(st := s.st[p := x])
  }

  /** The two list-insertion loops: skip every node whose key is smaller. */
  function Insert(q: seq<Link>, n: Link): seq<Link> {
    if q == [] || q[0].x >= n.x then [n] + q else [q[0]] + Insert(q[1..], n)
  }

  /** readyq_enqueue */
  function Enqueue(s: State, p: nat): (r: Outcome<State>)
    requires p < |s.st|
    ensures r.Ok? ==> r.value.eventQ == s.eventQ && |r.value.st| == |s.st| && r.value.cfg == s.cfg
    ensures r.Ok? ==> forall q :: 0 <= q < |s.st| ==> r.value.st[q].odeps == s.st[q].odeps
    ensures r.Ok? && Wf(s) ==> Wf(r.value)
  {
    var x := s.st[p];
    if x.queued then Halt(AlreadyQueued)
    else if s.free == 0 then Halt(OutOfLinks)
    else
      var n := Link(p, x.tag, x.seqno);
      Ok(Put(s, p, x.(queued := true))
          .(free := s.free - 1,
            readyQ := if x.inLsq || x.urgent then [n] + s.readyQ else Insert(s.readyQ, n)))
  }

  /** eventq_queue_event */
  function QueueEvent(s: State, p: nat, when: nat): (r: Outcome<State>)
    requires p < |s.st|
    ensures r.Ok? && Wf(s) ==> Wf(r.value)
  {
    if s.st[p].completed then Halt(EventCompleted)
    else if when <= s.cycle then Halt(EventInPast)
    else if s.free == 0 then Halt(OutOfLinks)
    else Ok(s.(free := s.free - 1, eventQ := Insert(s.eventQ, Link(p, s.st[p].tag, when))))
  }

  datatype NextResult = NextResult(s: State, found: bool, p: nat)

  /** eventq_next_event: drop events of squashed stations until a live one or none is due. */
  function NextEvent(s: State): (r: NextResult)
    ensures r.found ==> r.p < |r.s.st|
    ensures r.s == s.(free := r.s.free, eventQ := r.s.eventQ)
    ensures |r.s.eventQ| + (if r.found then 1 else 0) <= |s.eventQ|
    decreases |s.eventQ|
  {
    if s.eventQ != [] && s.eventQ[0].x <= s.cycle then
      var ev := s.eventQ[0];
      var s1 := s.(eventQ := s.eventQ[1..], free := s.free + 1);
      if Valid(s, ev) then NextResult(s1, true, ev.rs) else NextEvent(s1)
    else NextResult(s, false, 0)
  }

  /** RSLINK_FREE_LIST on both output chains, then the tag increment that squashes a station. */
  function FreeChains(s: State, p: nat): State
    requires p < |s.st|
  {
    var x := s.st[p];
    Put(s, p, x.(odeps := Two([], []), tag := x.tag + 1)).(free := s.free + |x.odeps.a| + |x.odeps.b|)
  }

  /** The slot after x in a ring. */
  function Next(x: nat, size: nat): (r: nat)
    requires 0 < size
    ensures r < size
  {
    (x + 1) % size
  }

  /** The slot before x in a ring. */
  function Prev(x: nat, size: nat): (r: nat)
    requires 0 < size
    ensures r < size
  {
    (x + size - 1) % size
  }

  /** The memory half of one iteration of the loop of ruu_recover. */
  function SquashMem(s: State): (r: Outcome<State>)
    requires Wf(s)
    ensures r.Ok? ==> Wf(r.value) && r.value.ruuNum == s.ruuNum && r.value.eventQ == s.eventQ
    ensures r.Ok? ==> |r.value.st| == |s.st| && r.value.cfg == s.cfg
  {
    if s.lsqNum == 0 then Halt(RuuLsqOutOfSync)
    else
      var j := Prev(s.lsqTail, s.cfg.lsqSize);
      Ok(FreeChains(s, s.cfg.ruuSize + j).(lsqTail := j, lsqNum := s.lsqNum - 1))
  }

  /** The rest of the iteration; n program-order entries are gone. */
  function SquashRuu(s: State, n: nat): (r: State)
    requires Wf(s) && 0 < s.ruuNum
    ensures Wf(r) && r.ruuNum == s.ruuNum - 1 && r.eventQ == s.eventQ && |r.st| == |s.st| && r.cfg == s.cfg
  {
    var p := Prev(s.ruuTail, s.cfg.ruuSize);
    FreeChains(s, p).(ruuTail := p, ruuNum := s.ruuNum - 1, rob := if |s.rob| >= n then s.rob[..|s.rob| - n] else [])
  }

  /** One iteration of the loop of ruu_recover. */
  function SquashYoungest(s: State): (r: Outcome<State>)
    requires Wf(s)
    ensures r.Ok? ==> Wf(r.value) && r.value.ruuNum < s.ruuNum && r.value.eventQ == s.eventQ && |r.value.st| == |s.st| && r.value.cfg == s.cfg
  {
    hide SquashMem, SquashRuu;
    var p := Prev(s.ruuTail, s.cfg.ruuSize);
    if s.ruuNum == 0 then Halt(EmptyRuu)
    else if p == s.ruuHead then Halt(RuuHeadTailBroken)
    else if s.st[p].eaComp then
      var s1 :- SquashMem(s);
      Ok(SquashRuu(s1, 2))
    else Ok(SquashRuu(s, 1))
  }

  /** The loop of ruu_recover. */
  function SquashAfter(s: State, branch: nat): (r: Outcome<State>)
    requires Wf(s)
    ensures r.Ok? ==> Wf(r.value) && r.value.eventQ == s.eventQ && |r.value.st| == |s.st| && r.value.cfg == s.cfg
    decreases s.ruuNum
  {
    if Prev(s.ruuTail, s.cfg.ruuSize) == branch then Ok(s)
    else
      var s1 :- SquashYoungest(s);
      SquashAfter(s1, branch)
  }

  /** ruu_recover followed by tracer_recover, which also empties the fetch queue. */
  function Recover(s: State, branch: nat): (r: Outcome<State>)
    requires Wf(s)
    ensures r.Ok? ==> Wf(r.value) && r.value.eventQ == s.eventQ && |r.value.st| == |s.st| && r.value.cfg == s.cfg
  {
    var s1 :- SquashAfter(s, branch);
    if !s1.specMode then Halt(NotSpeculative)
    else Ok(s1.(useSpec := {}, specMode := false, ifq := []))
  }

  /** The walk of output chain i of a completing station: wake each live consumer and free the link. */
  function Wake(s: State, p: nat, i: nat): (r: Outcome<State>)
    requires p < |s.st| && Wf(s)
    ensures r.Ok? ==> Wf(r.value) && r.value.eventQ == s.eventQ && |r.value.st| == |s.st| && r.value.cfg == s.cfg
    decreases |s.st[p].odeps.Get(i)|
  {
    var chain := s.st[p].odeps.Get(i);
    if chain == [] then Ok(s)
    else
      var s1 :- WakeNext(s, p, i);
      Wake(s1, p, i)
  }

  /** One iteration of that walk. */
  function WakeNext(s: State, p: nat, i: nat): (r: Outcome<State>)
    requires p < |s.st| && Wf(s) && s.st[p].odeps.Get(i) != []
    ensures r.Ok? ==> Wf(r.value) && r.value.eventQ == s.eventQ && |r.value.st| == |s.st| && r.value.cfg == s.cfg
    ensures r.Ok? ==> |r.value.st[p].odeps.Get(i)| < |s.st[p].odeps.Get(i)|
  {
    hide Enqueue, WakeOne;
    var chain := s.st[p].odeps.Get(i);
    var s1 :- WakeOne(Put(s, p, s.st[p].(odeps := s.st[p].odeps.Set(i, chain[1..]))), chain[0]);
    Ok(s1.(free := s1.free + 1))
  }

  /** One consumer on the chain of a completing station. */
  function WakeOne(s: State, l: Link): (r: Outcome<State>)
    requires Wf(s)
    ensures r.Ok? ==> Wf(r.value) && r.value.eventQ == s.eventQ && |r.value.st| == |s.st| && r.value.cfg == s.cfg
    ensures r.Ok? ==> forall q :: 0 <= q < |s.st| ==> r.value.st[q].odeps == s.st[q].odeps
  {
    if !Valid(s, l) then Ok(s)
    else
      var t := s.st[l.rs];
      if t.ready.Get(l.x) then Halt(DependenceSatisfied)
      else
        var s1 := Put(s, l.rs, t.(ready := t.ready.Set(l.x, true)));
        if OperandsReady(s1.st[l.rs]) && (!t.inLsq || t.kind == Store) then Enqueue(s1, l.rs) else Ok(s1)
  }

  /** The result of slot i becomes readable from the register file, and its consumers wake. */
  function Broadcast(s: State, p: nat, i: nat): (r: Outcome<State>)
    requires p < |s.st| && Wf(s)
    ensures r.Ok? ==> Wf(r.value) && r.value.eventQ == s.eventQ && |r.value.st| == |s.st| && r.value.cfg == s.cfg
  {
    var name := s.st[p].onames.Get(i);
    if name == NA then Ok(s)
    else if s.st[p].spec then
      Wake(if s.specCv[name] == Creator(p, i) then s.(specCv := s.specCv[name := NoCreator]) else s, p, i)
    else
      Wake(if s.cv[name] == Creator(p, i) then s.(cv := s.cv[name := NoCreator]) else s, p, i)
  }

  /** One iteration of the loop of ruu_writeback. */
  function Complete(s: State, p: nat): (r: Outcome<State>)
    requires p < |s.st| && Wf(s)
    ensures r.Ok? ==> Wf(r.value) && r.value.eventQ == s.eventQ && |r.value.st| == |s.st| && r.value.cfg == s.cfg
  {
    var x := s.st[p];
    if !OperandsReady(x) || x.queued || !x.issued || x.completed then Halt(BadCompletion)
    else if x.recover && x.inLsq then Halt(MispredictedMem)
    else
      var s1 := Put(s, p, x.(completed := true));
      var s2 :- if x.recover then Recover(s1, p) else Ok(s1);
      var s3 :- Broadcast(s2, p, 0);
      Broadcast(s3, p, 1)
  }

  /** ruu_writeback */
  function Writeback(s: State): (r: Outcome<State>)
    requires Wf(s)
    ensures r.Ok? ==> Wf(r.value) && r.value.cfg == s.cfg
    decreases |s.eventQ|
  {
    var n := NextEvent(s);
    if !n.found then Ok(n.s)
    else
      var s1 :- Complete(n.s, n.p);
      Writeback(s1)
  }

  /** res_get: the first template of the class whose master resource is idle. */
  function FirstIdle(ts: seq<Template>, busy: seq<nat>): (r: int)
    requires forall i :: 0 <= i < |ts| ==> ts[i].master < |busy|
    ensures -1 <= r < |ts|
    ensures r >= 0 ==> busy[ts[r].master] == 0
    ensures forall i :: 0 <= i < (if r < 0 then |ts| else r) ==> busy[ts[i].master] > 0
  {
    if ts == [] then -1
    else if busy[ts[0].master] == 0 then 0
    else var r := FirstIdle(ts[1..], busy); if r < 0 then -1 else r + 1
  }

  datatype Fu = NoFu | Granted(t: Template)

  function ResGet(s: State, fu: nat): (r: Outcome<Fu>)
    requires Wf(s)
    ensures r.Ok? && r.value.Granted? ==> r.value.t.master < |s.busy| && 1 <= r.value.t.oplat
  {
    if fu >= |s.cfg.table| || s.cfg.table[fu] == [] then Halt(BadFuClass)
    else
      var i := FirstIdle(s.cfg.table[fu], s.busy);
      Ok(if i < 0 then NoFu else Granted(s.cfg.table[fu][i]))
  }

  /** Reserve a granted unit for its issue latency. */
  function Reserve(s: State, t: Template): (r: Outcome<State>)
    requires t.master < |s.busy|
    ensures r.Ok? && Wf(s) ==> Wf(r.value)
  {
    if s.busy[t.master] != 0 then Halt(FuInUse) else Ok(s.(busy := s.busy[t.master := t.issuelat]))
  }

  /** Retire the LSQ half of the load or store at the RUU head; done is false when it must wait. */
  datatype RetireResult = RetireResult(s: State, done: bool)

  function RetireMem(s: State): (r: Outcome<RetireResult>)
    requires Wf(s)
    ensures r.Ok? ==> Wf(r.value.s) && r.value.s.ruuNum == s.ruuNum && r.value.s.ruuHead == s.ruuHead
    ensures r.Ok? ==> |r.value.s.st| == |s.st| && r.value.s.cfg == s.cfg
  {
    hide ResGet, Reserve;
    var q := s.cfg.ruuSize + s.lsqHead;
    if s.lsqNum == 0 || !s.st[q].inLsq then Halt(RuuLsqOutOfSync)
    else if !s.st[q].completed then Ok(RetireResult(s, false))
    else if s.st[q].kind != Store then Ok(RetireResult(DropLsqHead(s), true))
    else
      var fu :- ResGet(s, s.st[q].fu);
      if fu.NoFu? then Ok(RetireResult(s, false))
      else
        var s1 :- Reserve(s, fu.t);
        Ok(RetireResult(DropLsqHead(s1), true))
  }

  function DropLsqHead(s: State): (r: State)
    requires Wf(s)
    ensures Wf(r) && r.ruuNum == s.ruuNum && r.ruuHead == s.ruuHead && |r.st| == |s.st| && r.cfg == s.cfg
  {
    var q := s.cfg.ruuSize + s.lsqHead;
    Put(s, q, s.st[q].(tag := s.st[q].tag + 1))
      .(lsqHead := Next(s.lsqHead, s.cfg.lsqSize), lsqNum := if s.lsqNum == 0 then 0 else s.lsqNum - 1)
  }

  function DropRuuHead(s: State): (r: State)
    requires Wf(s) && 0 < s.ruuNum
    ensures Wf(r) && r.ruuNum == s.ruuNum - 1 && |r.st| == |s.st| && r.cfg == s.cfg
  {
    var p := s.ruuHead;
    Put(s, p, s.st[p].(tag := s.st[p].tag + 1)).(ruuHead := Next(p, s.cfg.ruuSize), ruuNum := s.ruuNum - 1)
  }

  /** Record in the history that the oldest instruction, of n stations, has retired. */
  function NoteRetired(s: State, n: nat, seqno: nat): (r: State)
    ensures Wf(s) ==> Wf(r)
  {
    s.(rob := if |s.rob| >= n then s.rob[n..] else [], nspec := if s.nspec >= n then s.nspec - n else 0,
       retired := s.retired + [seqno])
  }

  /** The rest of the loop body of ruu_commit: retire the RUU head. */
  function RetireRuu(s: State): (r: Outcome<State>)
    requires Wf(s) && 0 < s.ruuNum
    ensures r.Ok? ==> Wf(r.value) && r.value.ruuNum == s.ruuNum - 1 && r.value.cfg == s.cfg
  {
    var x := s.st[s.ruuHead];
    if x.odeps.a != [] || x.odeps.b != [] then Halt(RetiredHasOdeps)
    else Ok(NoteRetired(DropRuuHead(s), if x.eaComp then 2 else 1, x.seqno))
  }

  /** ruu_commit with `budget` instructions of commit bandwidth left. */
  function Commit(s: State, budget: nat): (r: Outcome<State>)
    requires Wf(s)
    ensures r.Ok? ==> Wf(r.value) && r.value.cfg == s.cfg
    decreases s.ruuNum
  {
    if s.ruuNum == 0 || budget == 0 || !s.st[s.ruuHead].completed then Ok(s)
    else
      var m :- if s.st[s.ruuHead].eaComp then RetireMem(s) else Ok(RetireResult(s, true));
      if !m.done then Ok(m.s)
      else
        var s1 :- RetireRuu(m.s);
        Commit(s1, budget - 1)
  }

  /** ruu_release_fu */
  function ReleaseFu(s: State): (r: State)
    ensures Wf(s) ==> Wf(r)
  {
    s.(busy := seq(|s.busy|, i requires 0 <= i < |s.busy| => if s.busy[i] > 0 then s.busy[i] - 1 else 0))
  }

  /** The slot i places after the head of a ring. */
  function Nth(head: nat, i: nat, size: nat): (r: nat)
    requires 0 < size
    ensures r < size
  {
    (head + i) % size
  }

  /** The i-th oldest LSQ entry. */
  function LsqAt(s: State, i: nat): (q: nat)
    requires Wf(s)
    ensures s.cfg.ruuSize <= q < |s.st|
  {
    s.cfg.ruuSize + Nth(s.lsqHead, i, s.cfg.lsqSize)
  }

  /** A later store with known data hides earlier ones to its address: they become the bogus address 0. */
  function Hide(std: seq<nat>, addr: nat): (r: seq<nat>)
    ensures |r| == |std|
    ensures forall i :: 0 <= i < |std| ==> r[i] == if std[i] == addr then 0 else std[i]
  {
    seq(|std|, i requires 0 <= i < |std| => if std[i] == addr then 0 else std[i])
  }

  /** The effect of one LSQ entry on the array of store addresses whose data is unknown. */
  function NoteStore(x: Station, std: seq<nat>): Outcome<seq<nat>> {
    if x.kind != Store then Ok(std)
    else if OperandsReady(x) then Ok(Hide(std, x.addr))
    else if |std| == MAX_STD_UNKNOWNS then Halt(StdOverflow)
    else Ok(std + [x.addr])
  }

  predicate Waiting(x: Station) {
    x.kind == Load && !x.queued && !x.issued && !x.completed && OperandsReady(x)
  }

  /** One entry of the scan of lsq_refresh: note a store, queue a load that may go. */
  datatype ScanResult = ScanResult(s: State, std: seq<nat>)

  function ScanOne(s: State, q: nat, std: seq<nat>): (r: Outcome<ScanResult>)
    requires Wf(s) && q < |s.st|
    ensures r.Ok? ==> Wf(r.value.s) && r.value.s.lsqNum == s.lsqNum && r.value.s.lsqHead == s.lsqHead
  {
    hide OperandsReady;
    var x := s.st[q];
    var std1 :- NoteStore(x, std);
    var s1 :- if Waiting(x) && x.addr !in std1 then Enqueue(s, q) else Ok(s);
    Ok(ScanResult(s1, std1))
  }

  /** lsq_refresh from the i-th entry on, with the array built so far. */
  function Refresh(s: State, i: nat, std: seq<nat>): (r: Outcome<State>)
    requires Wf(s)
    ensures r.Ok? ==> Wf(r.value)
    decreases s.lsqNum - i
  {
    if i >= s.lsqNum then Ok(s)
    else
      var q := LsqAt(s, i);
      var x := s.st[q];
      if x.kind == Store && !x.ready.b then Ok(s)
      else
        var n :- ScanOne(s, q, std);
        Refresh(n.s, i + 1, n.std)
  }

  /** The backward scan of the LSQ from position i: where the first older store to the address is, or -1. */
  function ScanBack(s: State, i: nat, addr: nat): (r: int)
    requires Wf(s)
    ensures -1 <= r < i
  {
    if i == 0 then -1
    else if s.st[LsqAt(s, i - 1)].kind == Store && s.st[LsqAt(s, i - 1)].addr == addr then i - 1
    else ScanBack(s, i - 1, addr)
  }

  /** Position of LSQ station p counted from the LSQ head. */
  function LsqPos(s: State, p: nat): nat
    requires Wf(s) && s.cfg.ruuSize <= p < |s.st|
  {
    (p - s.cfg.ruuSize + s.cfg.lsqSize - s.lsqHead) % s.cfg.lsqSize
  }

  function LoadLatency(s: State, p: nat, env: Env): nat
    requires Wf(s) && s.cfg.ruuSize <= p < |s.st|
  {
    var x := s.st[p];
    var lat := if ScanBack(s, LsqPos(s, p), x.addr) >= 0 then 1 else env.cacheLat(x.seqno);
    if env.tlbLat(x.seqno) > lat then env.tlbLat(x.seqno) else lat
  }

  datatype IssueResult = IssueResult(s: State, issued: bool)

  /** A store completes in effectively zero time. */
  function FinishStore(s: State, p: nat): (r: Outcome<IssueResult>)
    requires Wf(s) && p < |s.st|
    ensures r.Ok? ==> Wf(r.value.s)
  {
    if s.st[p].onames != Two(NA, NA) then Halt(StoreCreatesResult)
    else if s.st[p].recover then Halt(MispredictedStore)
    else Ok(IssueResult(Put(s, p, s.st[p].(issued := true, completed := true)), true))
  }

  /** An operation that needs no functional unit. */
  function StartFree(s: State, p: nat): (r: Outcome<IssueResult>)
    requires Wf(s) && p < |s.st|
    ensures r.Ok? ==> Wf(r.value.s)
  {
    var s1 :- QueueEvent(Put(s, p, s.st[p].(issued := true)), p, s.cycle + 1);
    Ok(IssueResult(s1, true))
  }

  /** An operation that has been granted a unit. */
  function StartOn(s: State, p: nat, t: Template, env: Env): (r: Outcome<IssueResult>)
    requires Wf(s) && p < |s.st| && t.master < |s.busy|
    ensures r.Ok? ==> Wf(r.value.s)
  {
    hide LoadLatency;
    var s1 :- Reserve(Put(s, p, s.st[p].(issued := true)), t);
    var x := s.st[p];
    var lat := if x.inLsq && x.kind == Load && s.cfg.ruuSize <= p then LoadLatency(s1, p, env) else t.oplat;
    var s2 :- QueueEvent(s1, p, s.cycle + lat);
    Ok(IssueResult(s2, true))
  }

  /** One live node of the ready queue inside ruu_issue. */
  function IssueOne(s: State, p: nat, env: Env): (r: Outcome<IssueResult>)
    requires Wf(s) && p < |s.st|
    ensures r.Ok? ==> Wf(r.value.s)
  {
    hide FinishStore, StartFree, StartOn, ResGet, Enqueue;
    var x := s.st[p];
    if !OperandsReady(x) || !x.queued || x.issued || x.completed then Halt(BadIssue)
    else
      var s1 := Put(s, p, x.(queued := false));
      if x.inLsq && x.kind == Store then FinishStore(s1, p)
      else if x.fu == NA then StartFree(s1, p)
      else
        var fu :- ResGet(s1, x.fu);
        if fu.Granted? then StartOn(s1, p, fu.t, env)
        else
          var s2 :- Enqueue(s1, p);
          Ok(IssueResult(s2, false))
  }

  /** The second loop of ruu_issue: nodes left over go back through readyq_enqueue. */
  function Requeue(s: State, node: seq<Link>): (r: Outcome<State>)
    requires Wf(s)
    ensures r.Ok? ==> Wf(r.value)
    decreases |node|
  {
    if node == [] then Ok(s)
    else
      var s1 :- RequeueNode(s, node[0]);
      Requeue(s1, node[1..])
  }

  /** One iteration of that loop. */
  function RequeueNode(s: State, n: Link): (r: Outcome<State>)
    requires Wf(s)
    ensures r.Ok? ==> Wf(r.value)
  {
    hide Enqueue;
    var s1 :- if Valid(s, n) then Enqueue(Put(s, n.rs, s.st[n.rs].(queued := false)), n.rs) else Ok(s);
    Ok(s1.(free := s1.free + 1))
  }

  /** The first loop of ruu_issue over the detached ready list `node`. */
  function IssueLoop(s: State, node: seq<Link>, n: nat, env: Env): (r: Outcome<State>)
    requires Wf(s)
    ensures r.Ok? ==> Wf(r.value)
    decreases |node|
  {
    if node == [] || n >= s.cfg.issueWidth then Requeue(s, node)
    else
      var i :- IssueNode(s, node[0], env);
      IssueLoop(i.s, node[1..], if i.issued then n + 1 else n, env)
  }

  /** One iteration of that loop: issue the node's station if it is live, and free the node. */
  function IssueNode(s: State, n: Link, env: Env): (r: Outcome<IssueResult>)
    requires Wf(s)
    ensures r.Ok? ==> Wf(r.value.s)
  {
    hide IssueOne;
    var i :- if Valid(s, n) then IssueOne(s, n.rs, env) else Ok(IssueResult(s, false));
    Ok(i.(s := i.s.(free := i.s.free + 1)))
  }

  /** ruu_issue */
  function Issue(s: State, env: Env): (r: Outcome<State>)
    requires Wf(s)
    ensures r.Ok? ==> Wf(r.value)
  {
    IssueLoop(s.(readyQ := []), s.readyQ, 0, env)
  }

  /** CREATE_VECTOR(N) */
  function CreateVector(s: State, n: Reg): Creator
    requires Wf(s)
  {
    if n in s.useSpec then s.specCv[n] else s.cv[n]
  }

  /** ruu_link_idep */
  function LinkIdep(s: State, p: nat, k: nat, name: Reg): (r: Outcome<State>)
    requires Wf(s) && p < |s.st|
    ensures r.Ok? ==> Wf(r.value) && |r.value.st| == |s.st|
  {
    var x := s.st[p];
    if name == NA || CreateVector(s, name).NoCreator? then Ok(Put(s, p, x.(ready := x.ready.Set(k, true))))
    else
      var head := CreateVector(s, name);
      var s1 := Put(s, p, x.(ready := x.ready.Set(k, false)));
      if head.rs >= |s.st| then Halt(WildPointer)
      else if s.free == 0 then Halt(OutOfLinks)
      else
        var c := s1.st[head.rs];
        Ok(Put(s1, head.rs, c.(odeps := c.odeps.Set(head.odep, [Link(p, x.tag, k)] + c.odeps.Get(head.odep))))
            .(free := s.free - 1, prod := s.prod[Opnd(p, k) := Slot(head.rs, head.odep)]))
  }

  /** ruu_install_odep */
  function InstallOdep(s: State, p: nat, o: nat, name: Reg): (r: State)
    requires Wf(s) && p < |s.st|
    ensures Wf(r) && |r.st| == |s.st|
  {
    var x := s.st[p];
    if name == NA then Put(s, p, x.(onames := x.onames.Set(o, NA)))
    else
      var s1 := Put(s, p, x.(onames := x.onames.Set(o, name), odeps := x.odeps.Set(o, [])));
      if s.specMode then s1.(useSpec := s.useSpec + {name}, specCv := s.specCv[name := Creator(p, o)])
      else s1.(cv := s.cv[name := Creator(p, o)])
  }

  /** The fields dispatch fills in for a new station.  The operand flags and output names start at the
      values of an unlinked station; the link and install steps below set every one of them. */
  function Fresh(x: Station, kind: Kind, urgent: bool, fu: nat, inLsq: bool, eaComp: bool, spec: bool,
                 addr: nat, seqno: nat): Station
  {
    x.(kind := kind, urgent := urgent, fu := fu, inLsq := inLsq, eaComp := eaComp, recover := false,
       spec := spec, addr := addr, seqno := seqno, queued := false, issued := false, completed := false,
       onames := Two(NA, NA), ready := Three(true, true, true))
  }

  /** Claim the RUU tail. */
  function AllocRuu(s: State, kind: Kind, urgent: bool, fu: nat, eaComp: bool): (r: State)
    requires Wf(s)
    ensures Wf(r) && |r.st| == |s.st|
  {
    var p := s.ruuTail;
    Put(s, p, Fresh(s.st[p], kind, urgent, fu, false, eaComp, s.specMode, 0, s.instSeq + 1))
      .(instSeq := s.instSeq + 1, ruuTail := Next(p, s.cfg.ruuSize), ruuNum := s.ruuNum + 1,
        rob := s.rob + [p], nspec := if s.specMode then s.nspec else s.nspec + 1,
        log := if s.specMode then s.log else s.log + [s.instSeq + 1])
  }

  /** Claim the LSQ tail for the memory half of an instruction. */
  function AllocLsq(s: State, i: Inst): (r: State)
    requires Wf(s)
    ensures Wf(r) && |r.st| == |s.st|
  {
    var q := s.cfg.ruuSize + s.lsqTail;
    Put(s, q, Fresh(s.st[q], i.kind, i.urgent, i.fu, true, false, s.specMode, i.addr, s.instSeq + 1))
      .(instSeq := s.instSeq + 1, lsqTail := Next(s.lsqTail, s.cfg.lsqSize), lsqNum := s.lsqNum + 1,
        rob := s.rob + [q], nspec := if s.specMode then s.nspec else s.nspec + 1)
  }

  /** The three inputs and then the two outputs of a station, in that order to prevent self reference. */
  function LinkAll(s: State, p: nat, in1: Reg, in2: Reg, in3: Reg, out1: Reg, out2: Reg): (r: Outcome<State>)
    requires Wf(s) && p < |s.st|
    ensures r.Ok? ==> Wf(r.value) && |r.value.st| == |s.st|
  {
    var s1 :- LinkIdep(s, p, 0, in1);
    var s2 :- LinkIdep(s1, p, 1, in2);
    var s3 :- LinkIdep(s2, p, 2, in3);
    Ok(InstallOdep(InstallOdep(s3, p, 0, out1), p, 1, out2))
  }

  /** Queue the address computation if it is ready, note the memory access as the last dispatched
      operation, and queue it too if it is a ready store: loads are left to lsq_refresh. */
  function QueuePair(s: State, p: nat, q: nat, kind: Kind): (r: Outcome<State>)
    requires Wf(s) && p < |s.st| && q < |s.st|
    ensures r.Ok? ==> Wf(r.value) && |r.value.st| == |s.st|
  {
    var s1 :- if OperandsReady(s.st[p]) then Enqueue(s, p) else Ok(s);
    var s2 := s1.(lastOp := Link(q, s1.st[q].tag, 0));
    if kind == Store && OperandsReady(s2.st[q]) then Enqueue(s2, q) else Ok(s2)
  }

  /** A load or store: an address computation in the RUU feeding a memory access in the LSQ through DTMP. */
  function DispatchMem(s: State, i: Inst): (r: Outcome<State>)
    requires Wf(s)
    ensures r.Ok? ==> Wf(r.value) && |r.value.st| == |s.st|
  {
    hide LinkAll, AllocRuu, AllocLsq, Enqueue, CfgOk;
    var p := s.ruuTail;
    var q := s.cfg.ruuSize + s.lsqTail;
    var s0 := AllocLsq(AllocRuu(s, Alu, false, s.cfg.agenFu, true), i);
    var s1 :- LinkAll(s0, p, NA, i.in2, i.in3, DTMP, NA);
    var s2 :- LinkAll(s1, q, i.in1, DTMP, NA, i.out1, i.out2);
    QueuePair(s2, p, q, i.kind)
  }

  function DispatchAlu(s: State, i: Inst): (r: Outcome<State>)
    requires Wf(s)
    ensures r.Ok? ==> Wf(r.value) && |r.value.st| == |s.st|
  {
    var p := s.ruuTail;
    var s1 :- LinkAll(AllocRuu(s, Alu, i.urgent, i.fu, false), p, i.in1, i.in2, i.in3, i.out1, i.out2);
    if OperandsReady(s1.st[p]) then
      var s2 :- Enqueue(s1, p);
      Ok(s2.(lastOp := Link(|s.st|, 0, 0)))
    else Ok(s1.(lastOp := Link(p, s1.st[p].tag, 0)))
  }

  /** The trace generator leaves the correct path at RUU station p. */
  function EnterSpec(s: State, p: nat): (r: State)
    requires Wf(s) && p < |s.st|
    ensures Wf(r) && r.ifq == s.ifq
  {
    Put(s, p, s.st[p].(recover := true)).(specMode := true)
  }

  lemma IfqWf(s: State, t: State, q: seq<Inst>)
    requires Wf(s) && Wf(t) && |t.st| == |s.st|
    ensures Wf(t.(ifq := q)) && s.ruuTail < |t.st|
  {
    hide CfgOk;
  }

  /** The body of the loop of ruu_dispatch for the instruction at the head of the fetch queue. */
  function DispatchOne(s: State): (r: Outcome<State>)
    requires Wf(s) && s.ifq != []
    ensures r.Ok? ==> Wf(r.value) && |r.value.ifq| < |s.ifq|
  {
    hide DispatchAlu, DispatchMem, Wf, EnterSpec;
    var i := s.ifq[0];
    var s1 :- if i.nop then Ok(s) else if i.kind == Alu then DispatchAlu(s, i) else DispatchMem(s, i);
    IfqWf(s, s1, if i.redirect then [] else s.ifq[1..]);
    var s2 := s1.(ifq := if i.redirect then [] else s.ifq[1..]);
    if s.specMode || !i.mispredicted || i.redirect then Ok(s2)
    else if i.nop then Halt(NullStation)
    else Ok(EnterSpec(s2, s.ruuTail))
  }

  /** With in-order issue, wait until the operands of the last dispatched operation are ready. */
  predicate InorderStall(s: State) {
    s.cfg.inorderIssue && Valid(s, s.lastOp) && !OperandsReady(s.st[s.lastOp.rs])
  }

  /** ruu_dispatch with `budget` instructions of decode bandwidth left. */
  function Dispatch(s: State, budget: nat): (r: Outcome<State>)
    requires Wf(s)
    ensures r.Ok? ==> Wf(r.value)
    decreases |s.ifq|
  {
    if budget == 0 || s.ruuNum >= s.cfg.ruuSize || s.lsqNum >= s.cfg.lsqSize || s.ifq == []
       || (!s.cfg.includeSpec && s.specMode) || InorderStall(s) then Ok(s)
    else
      var i := s.ifq[0];
      if i.trap && s.ruuNum != 0 then Ok(s)
      else if i.trap && s.specMode then Halt(DrainedAndSpeculative)
      else
        var s1 :- DispatchOne(s);
        Dispatch(s1, if i.nop then budget else budget - 1)
  }

  /** The queue effect of ruu_fetch: at most ifqSize instructions wait for dispatch. */
  function Fetch(s: State, fetched: seq<Inst>): State {
    var room := if |s.ifq| >= s.cfg.ifqSize then 0 else s.cfg.ifqSize - |s.ifq|;
    s.(ifq := s.ifq + (if |fetched| <= room then fetched else fetched[..room]))
  }

  /** Every memory access takes at least a cycle, and fetch delivers decodable instructions. */
  ghost predicate EnvOk(cfg: Config, env: Env) {
    && (forall n: nat :: 1 <= env.cacheLat(n))
    && forall i :: 0 <= i < |env.fetched| ==> InstOk(cfg, env.fetched[i])
  }

  /** One iteration of the main loop of sim_main, stages in reverse order. */
  function Cycle(s: State, env: Env): (r: Outcome<State>)
    requires Wf(s)
    ensures r.Ok? ==> Wf(r.value)
  {
    hide Commit, Writeback, Refresh, Issue, Dispatch;
    if s.ruuNum < s.lsqNum then Halt(FewerRuuThanLsq)
    else if (s.ruuHead + s.ruuNum) % s.cfg.ruuSize != s.ruuTail then Halt(RuuWedged)
    else if (s.lsqHead + s.lsqNum) % s.cfg.lsqSize != s.lsqTail then Halt(LsqWedged)
    else
      var s1 :- Commit(s, s.cfg.commitWidth);
      var s2 :- Writeback(ReleaseFu(s1));
      var s3 :- Refresh(s2, 0, []);
      var s4 :- Issue(s3, env);
      var s5 :- Dispatch(s4, s4.cfg.decodeWidth);
      var s6 := Fetch(s5, env.fetched);
      Ok(s6.(cycle := s6.cycle + 1))
  }
}
