/** ruu_dispatch, and the cycle of the whole core. */
module OooDispatch {
  import opened OooState
  import opened OooLists
  import opened OooInvariant
  import opened OooFrames
  import opened OooQueueSteps
  import opened OooCompletion
  import opened OooAlloc
  import opened OooLink
  import opened OooInstall

  /** What linking and installing station p leaves as it was. */
  ghost predicate Keeps(s: State, t: State, p: nat) {
    && |t.st| == |s.st| && p < |s.st|
    && t == s.(st := t.st, cv := t.cv, specCv := t.specCv, useSpec := t.useSpec, free := t.free, prod := t.prod)
    && (forall q :: 0 <= q < |s.st| && q != p ==> t.st[q] == s.st[q].(odeps := t.st[q].odeps))
    && t.st[p] == s.st[p].(odeps := t.st[p].odeps, ready := t.st[p].ready, onames := t.st[p].onames)
  }

  lemma KeepsTrans(s: State, t: State, u: State, p: nat)
    requires Keeps(s, t, p) && Keeps(t, u, p)
    ensures Keeps(s, u, p)
  {
    forall q | 0 <= q < |s.st| && q != p ensures u.st[q] == s.st[q].(odeps := u.st[q].odeps) {
      assert t.st[q] == s.st[q].(odeps := t.st[q].odeps);
    }
  }

  lemma LinkIdepKeeps(s: State, p: nat, k: nat, name: Reg)
    requires Wf(s) && p < |s.st| && LinkIdep(s, p, k, name).Ok?
    ensures Keeps(s, LinkIdep(s, p, k, name).value, p)
  {
    hide CreateVector, CfgOk;
  }

  /** One operand of a station being dispatched. */
  lemma LinkStep(s: State, p: nat, k: nat, name: Reg, at: nat, open: set<nat>)
    requires Mid(s, IDLE.(open := open)) && Wf(s) && Building(s, p, at) && p in open && p < |s.st|
    requires s.st[p].onames == Two(NA, NA) && k < 3 && forall j: nat :: k <= j < 3 ==> s.st[p].ready.Get(j)
    ensures match LinkIdep(s, p, k, name)
            case Ok(t) =>
              && Mid(t, IDLE.(open := open)) && Building(t, p, at) && Keeps(s, t, p)
              && t.st[p].onames == Two(NA, NA) && forall j: nat :: k < j < 3 ==> t.st[p].ready.Get(j)
            case Halt(why) => why == OutOfLinks
  {
    hide Mid, Building, LinkIdep, SameLayout, Keeps, Wf;
    LinkIdepStage(s, p, k, name, at, open);
    if LinkIdep(s, p, k, name).Ok? { LinkIdepKeeps(s, p, k, name); }
  }

  lemma InstallBoth(s: State, p: nat, out1: Reg, out2: Reg, at: nat, open: set<nat>)
    requires Mid(s, IDLE.(open := open)) && Wf(s) && Building(s, p, at) && p < |s.st| && s.st[p].onames == Two(NA, NA)
    requires s.st[p].kind == Store ==> out1 == NA && out2 == NA
    ensures var t := InstallOdep(InstallOdep(s, p, 0, out1), p, 1, out2);
            && Mid(t, IDLE.(open := open)) && Building(t, p, at) && Keeps(s, t, p)
  {
    hide Mid, Building, InstallOdep, Wf;
    InstallStage(s, p, 0, out1, at, open);
    InstallStage(InstallOdep(s, p, 0, out1), p, 1, out2, at, open);
  }

  lemma LinkAllStage(s: State, p: nat, in1: Reg, in2: Reg, in3: Reg, out1: Reg, out2: Reg, at: nat, open: set<nat>)
    requires Mid(s, IDLE.(open := open)) && Wf(s) && Building(s, p, at) && p in open && p < |s.st|
    requires s.st[p].onames == Two(NA, NA) && s.st[p].ready == Three(true, true, true)
    requires s.st[p].kind == Store ==> out1 == NA && out2 == NA
    ensures match LinkAll(s, p, in1, in2, in3, out1, out2)
            case Ok(t) => Mid(t, IDLE.(open := open)) && Building(t, p, at) && Keeps(s, t, p)
            case Halt(why) => why == OutOfLinks
  {
    hide Mid, Building, LinkIdep, InstallOdep, Keeps, Wf;
    LinkStep(s, p, 0, in1, at, open);
    if LinkIdep(s, p, 0, in1).Ok? {
      var s1 := LinkIdep(s, p, 0, in1).value;
      LinkStep(s1, p, 1, in2, at, open);
      if LinkIdep(s1, p, 1, in2).Ok? {
        var s2 := LinkIdep(s1, p, 1, in2).value;
        KeepsTrans(s, s1, s2, p);
        LinkStep(s2, p, 2, in3, at, open);
        if LinkIdep(s2, p, 2, in3).Ok? {
          var s3 := LinkIdep(s2, p, 2, in3).value;
          KeepsTrans(s, s2, s3, p);
          KeepsKind(s, s3, p);
          InstallBoth(s3, p, out1, out2, at, open);
          KeepsTrans(s, s3, LinkAll(s, p, in1, in2, in3, out1, out2).value, p);
        }
      }
    }
  }

  lemma KeepsKind(s: State, t: State, p: nat)
    requires Keeps(s, t, p)
    ensures t.st[p].kind == s.st[p].kind && |t.st| == |s.st|
  {
  }

  /** Queueing a dispatched station whose operands are all there, or leaving it to its producers. */
  lemma FinishStage(s: State, p: nat, open: set<nat>)
    requires Mid(s, IDLE.(open := open)) && Wf(s) && InFlight(s, p)
    requires !s.st[p].queued && !s.st[p].issued
    ensures s.st[p].kind != Load && OperandsReady(s.st[p]) ==>
              match Enqueue(s, p)
              case Ok(t) => Mid(t, IDLE.(open := open - {p})) && Queues(s, t, p)
              case Halt(why) => why == OutOfLinks
    ensures !(s.st[p].kind != Load && OperandsReady(s.st[p])) ==> Mid(s, IDLE.(open := open - {p}))
  {
    hide Mid, Enqueue, OperandsReady, Keys;
    if s.st[p].kind != Load && OperandsReady(s.st[p]) {
      EnqueueEffect(s, p);
      if Enqueue(s, p).Ok? {
        assert LoadMayQueue(s, p);
        QueuesKeepsMid(s, Enqueue(s, p).value, p, IDLE.(open := open));
      }
    } else {
      CloseKeepsMid(s, IDLE.(open := open), p);
    }
  }

  /** The in-flight structure a dispatch relies on. */
  ghost predicate MayDispatch(s: State) {
    && Inv(s) && Wf(s) && s.ruuNum < s.cfg.ruuSize && s.lsqNum < s.cfg.lsqSize
    && s.cfg.agenFu < |s.cfg.table| + 1 && FuOk(s.cfg, s.cfg.agenFu)
  }

  lemma ClaimBuilds(s: State, t: State, n: nat)
    requires MayDispatch(s) && Claims(s, t, n)
    ensures Mid(t, FreshWork(Claimed(s, n))) && Structure(t) && |t.rob| == |s.rob| + n
    ensures Building(t, s.ruuTail, |s.rob|)
    ensures n == 2 ==> Building(t, s.cfg.ruuSize + s.lsqTail, |s.rob| + 1)
  {
    hide Statuses, ReadyOk, EventsOk, ChainsOk, PreciseCreators, LoadsOk, NoneLost, SpecCreators, PoolOk;
    hide Structure, Paired, Kinds, Split, History, Claims;
    StructureGives(s);
    LayoutGives(s);
    BranchGives(s);
    ClaimsLayout(s, t, n);
    ClaimsAppends(s, t, n);
    AppendsKeepsMid(s, t, Claimed(s, n));
    ClaimsBuilding(s, t, n);
  }

  lemma BranchGives(s: State)
    requires s.nspec <= |s.rob| && Branch(s)
    ensures !s.specMode ==> s.nspec == |s.rob|
  {
  }

  lemma ClaimsAppends(s: State, t: State, n: nat)
    requires Claims(s, t, n)
    ensures Appends(s, t, Claimed(s, n))
  {
  }

  lemma ClaimsBuilding(s: State, t: State, n: nat)
    requires Structure(s) && Claims(s, t, n) && (!s.specMode ==> s.nspec == |s.rob|)
    ensures |t.rob| == |s.rob| + n && Building(t, s.ruuTail, |s.rob|)
    ensures n == 2 ==> Building(t, s.cfg.ruuSize + s.lsqTail, |s.rob| + 1)
  {
    hide RuuPart, LsqPart, Ring, CfgOk, KindOk;
    ClaimsPlaces(s, t, n);
    assert s.ruuTail in Claimed(s, n);
    assert n == 2 ==> s.cfg.ruuSize + s.lsqTail in Claimed(s, n);
  }

  // ---- the two ways to dispatch ----

  lemma AluClaims(s: State, urgent: bool, fu: nat)
    requires Structure(s) && s.ruuNum < s.cfg.ruuSize && s.lsqNum < s.cfg.lsqSize && s.nspec <= |s.rob| && FuOk(s.cfg, fu)
    ensures Claims(s, AllocRuu(s, Alu, urgent, fu, false), 1)
  {
    hide RuuPart, LsqPart, Ring, CfgOk, FuOk;
    TailsFree(s);
  }

  lemma MemClaims(s: State, i: Inst)
    requires Structure(s) && s.ruuNum < s.cfg.ruuSize && s.lsqNum < s.cfg.lsqSize && s.nspec <= |s.rob|
    requires FuOk(s.cfg, s.cfg.agenFu) && FuOk(s.cfg, i.fu) && i.kind != Alu && (i.kind == Store ==> i.fu != NA)
    ensures var t := AllocLsq(AllocRuu(s, Alu, false, s.cfg.agenFu, true), i);
            Claims(s, t, 2) && t.st[s.cfg.ruuSize + s.lsqTail].kind == i.kind && t.st[s.ruuTail].kind == Alu
  {
    hide Structure, CfgOk, FuOk, AllocRuu, AllocLsq, Claims;
    StructureGives(s);
    TailsFree(s);
    MemAllocated(s, i);
    MemAppends(s, i);
  }

  /** The two stations as allocated. */
  lemma MemAllocated(s: State, i: Inst)
    requires Wf(s)
    ensures var t := AllocLsq(AllocRuu(s, Alu, false, s.cfg.agenFu, true), i);
            var p, q := s.ruuTail, s.cfg.ruuSize + s.lsqTail;
            && Wf(t) && p < s.cfg.ruuSize && q < |s.st|
            && t.st[p] == Fresh(s.st[p], Alu, false, s.cfg.agenFu, false, true, s.specMode, 0, s.instSeq + 1)
            && t.st[q] == Fresh(s.st[q], i.kind, i.urgent, i.fu, true, false, s.specMode, i.addr, s.instSeq + 2)
            && (forall x :: 0 <= x < |s.st| && x != p && x != q ==> t.st[x] == s.st[x])
            && t == s.(st := t.st, rob := s.rob + [p] + [q], nspec := if s.specMode then s.nspec else s.nspec + 2,
                       ruuTail := Next(p, s.cfg.ruuSize), ruuNum := s.ruuNum + 1,
                       lsqTail := Next(s.lsqTail, s.cfg.lsqSize), lsqNum := s.lsqNum + 1,
                       instSeq := s.instSeq + 2, log := if s.specMode then s.log else s.log + [s.instSeq + 1])
            && |t.st| == |s.st|
  {
    hide CfgOk, Next, Fresh;
  }

  /** The fields of a newly filled station. */
  lemma FreshIs(cfg: Config, p: nat, x: Station, kind: Kind, urgent: bool, fu: nat, inLsq: bool, eaComp: bool, spec: bool,
                addr: nat, seqno: nat)
    requires FuOk(cfg, fu) && (inLsq <==> cfg.ruuSize <= p) && (inLsq <==> kind != Alu) && (kind == Store ==> fu != NA)
    ensures var y := Fresh(x, kind, urgent, fu, inLsq, eaComp, spec, addr, seqno);
            IsFresh(x, y, spec) && KindOk(cfg, p, y) && y.seqno == seqno && y.eaComp == eaComp && y.kind == kind
  {
    hide FuOk;
  }

  lemma MemAppends(s: State, i: Inst)
    requires Wf(s) && s.ruuTail !in s.rob && s.cfg.ruuSize + s.lsqTail !in s.rob && s.nspec <= |s.rob|
    requires FuOk(s.cfg, s.cfg.agenFu) && FuOk(s.cfg, i.fu) && i.kind != Alu && (i.kind == Store ==> i.fu != NA)
    ensures var t := AllocLsq(AllocRuu(s, Alu, false, s.cfg.agenFu, true), i);
            Claims(s, t, 2) && t.st[s.cfg.ruuSize + s.lsqTail].kind == i.kind && t.st[s.ruuTail].kind == Alu
  {
    hide Wf, AllocRuu, AllocLsq, Next, Fresh, IsFresh, KindOk, InstOk;
    MemAllocated(s, i);
    FreshIs(s.cfg, s.ruuTail, s.st[s.ruuTail], Alu, false, s.cfg.agenFu, false, true, s.specMode, 0, s.instSeq + 1);
    var q := s.cfg.ruuSize + s.lsqTail;
    FreshIs(s.cfg, q, s.st[q], i.kind, i.urgent, i.fu, true, false, s.specMode, i.addr, s.instSeq + 2);
    assert s.rob + [s.ruuTail] + [s.cfg.ruuSize + s.lsqTail] == s.rob + Claimed(s, 2);
  }

  lemma ClaimedFresh(s: State, t: State, n: nat, p: nat)
    requires Claims(s, t, n) && p in Claimed(s, n)
    ensures p < |t.st| && |t.st| == |s.st| && p in FreshWork(Claimed(s, n)).open && t.cfg == s.cfg && t.ifq == s.ifq
    ensures t.st[p].onames == Two(NA, NA) && t.st[p].ready == Three(true, true, true)
    ensures t.specMode == s.specMode && t.rob == s.rob + Claimed(s, n)
  {
    hide KindOk, Wf;
    AppendsMembers(s, t, Claimed(s, n));
  }

  /** What dispatching one instruction leaves for the rest of the loop body. */
  ghost predicate Dispatched(s: State, t: State, n: nat) {
    && Inv(t) && t.cfg == s.cfg && |t.st| == |s.st| && t.specMode == s.specMode && t.cycle == s.cycle
    && |t.rob| == |s.rob| + n && 1 <= n <= 2 && t.rob[|s.rob|] == s.ruuTail && s.ruuTail < |t.st|
    && !t.st[s.ruuTail].completed
    && (n == 2 ==> t.rob[|s.rob| + 1] >= s.cfg.ruuSize)
    && t.ifq == s.ifq
  }

  lemma DispatchAluStage(s: State, i: Inst)
    requires MayDispatch(s) && InstOk(s.cfg, i) && i.kind == Alu && !i.nop
    ensures match DispatchAlu(s, i)
            case Ok(t) => Dispatched(s, t, 1)
            case Halt(why) => why == OutOfLinks
  {
    hide Mid, LinkAll, AllocRuu, OperandsReady, Enqueue, Wf, Claims, Keeps, Building, Keys, CfgOk, FuOk;
    MayGives(s);
    var p := s.ruuTail;
    var t := AllocRuu(s, Alu, i.urgent, i.fu, false);
    AluClaims(s, i.urgent, i.fu);
    AluKind(s, i.urgent, i.fu);
    ClaimBuilds(s, t, 1);
    ClaimedFresh(s, t, 1, p);
    var open := FreshWork(Claimed(s, 1)).open;
    assert FreshWork(Claimed(s, 1)) == IDLE.(open := open);
    LinkAllStage(t, p, i.in1, i.in2, i.in3, i.out1, i.out2, |s.rob|, open);
    var r := LinkAll(t, p, i.in1, i.in2, i.in3, i.out1, i.out2);
    if r.Ok? {
      KeepsGives(t, r.value, p);
      BuildingInFlight(r.value, p, |s.rob|);
      FinishStage(r.value, p, open);
      assert open - {p} == {};
      AluEnds(s, t, r.value, i);
    }
  }

  lemma AluKind(s: State, urgent: bool, fu: nat)
    requires Wf(s)
    ensures AllocRuu(s, Alu, urgent, fu, false).st[s.ruuTail].kind == Alu
    ensures AllocRuu(s, Alu, urgent, fu, false).cycle == s.cycle
  {
  }

  lemma MayGives(s: State)
    requires MayDispatch(s)
    ensures Wf(s) && Structure(s) && s.nspec <= |s.rob| && FuOk(s.cfg, s.cfg.agenFu)
    ensures s.ruuNum < s.cfg.ruuSize && s.lsqNum < s.cfg.lsqSize
  {
  }

  lemma KeepsGives(s: State, t: State, p: nat)
    requires Keeps(s, t, p)
    ensures |t.st| == |s.st| && t.cfg == s.cfg && t.rob == s.rob && t.specMode == s.specMode && t.ifq == s.ifq
    ensures t.cycle == s.cycle && t.st[p].kind == s.st[p].kind && t.st[p].completed == s.st[p].completed
    ensures forall q :: 0 <= q < |s.st| && q != p ==> t.st[q] == s.st[q].(odeps := t.st[q].odeps)
  {
  }

  lemma BuildingInFlight(s: State, p: nat, at: nat)
    requires Building(s, p, at)
    ensures InFlight(s, p) && !s.st[p].queued && !s.st[p].issued && !s.st[p].completed
  {
  }

  /** The end of the ALU case: queue it if ready, and note it as the last dispatched operation. */
  lemma AluEnds(s: State, t: State, r: State, i: Inst)
    requires Wf(s) && t == AllocRuu(s, Alu, i.urgent, i.fu, false)
    requires LinkAll(t, s.ruuTail, i.in1, i.in2, i.in3, i.out1, i.out2) == Ok(r) && s.ruuTail < |r.st|
    requires |r.st| == |s.st| && r.cfg == s.cfg && r.rob == s.rob + [s.ruuTail] && r.specMode == s.specMode
    requires r.ifq == s.ifq && r.cycle == s.cycle && !r.st[s.ruuTail].completed
    requires OperandsReady(r.st[s.ruuTail]) ==>
               match Enqueue(r, s.ruuTail) case Ok(u) => Inv(u) && Queues(r, u, s.ruuTail) case Halt(why) => why == OutOfLinks
    requires !OperandsReady(r.st[s.ruuTail]) ==> Inv(r)
    ensures match DispatchAlu(s, i) case Ok(u) => Dispatched(s, u, 1) case Halt(why) => why == OutOfLinks
  {
    hide Mid, LinkAll, AllocRuu, OperandsReady, Enqueue, CfgOk, Keys;
    if DispatchAlu(s, i).Ok? {
      var u := DispatchAlu(s, i).value;
      var v := if OperandsReady(r.st[s.ruuTail]) then Enqueue(r, s.ruuTail).value else r;
      assert u == v.(lastOp := u.lastOp);
      assert Inv(v);
      InvIfq(v);
      IdlesKeepsMid(v, u, IDLE);
    }
  }

  lemma InvIfq(s: State)
    requires Inv(s)
    ensures Wf(s) && forall i :: 0 <= i < |s.ifq| ==> InstOk(s.cfg, s.ifq[i])
  {
  }

  /** The two stations of a load or store, claimed and perhaps linked. */
  ghost predicate Pair(s: State, r: State, i: Inst) {
    var p, q := s.ruuTail, s.cfg.ruuSize + s.lsqTail;
    && Mid(r, IDLE.(open := {p, q})) && Wf(r)
    && |r.st| == |s.st| && r.cfg == s.cfg && r.specMode == s.specMode && r.cycle == s.cycle && r.ifq == s.ifq
    && r.rob == s.rob + [p] + [q] && p != q && p < |r.st| && q < |r.st|
    && r.st[p].kind == Alu && r.st[q].kind == i.kind
    && InFlight(r, p) && !r.st[p].queued && !r.st[p].issued && !r.st[p].completed
    && InFlight(r, q) && !r.st[q].queued && !r.st[q].issued && !r.st[q].completed
  }

  /** Station p has not been linked yet. */
  ghost predicate Unlinked(s: State, p: nat) {
    p < |s.st| && s.st[p].onames == Two(NA, NA) && s.st[p].ready == Three(true, true, true)
  }

  ghost function PairOf(s: State, i: Inst): State
    requires Wf(s)
  {
    AllocLsq(AllocRuu(s, Alu, false, s.cfg.agenFu, true), i)
  }

  ghost predicate IsMem(s: State, i: Inst) { MayDispatch(s) && InstOk(s.cfg, i) && i.kind != Alu && !i.nop }

  lemma PairClaimed(s: State, i: Inst)
    requires IsMem(s, i)
    ensures Wf(s)
    ensures var t := PairOf(s, i); var p, q := s.ruuTail, s.cfg.ruuSize + s.lsqTail;
            Pair(s, t, i) && Unlinked(t, p) && Unlinked(t, q) && Building(t, p, |s.rob|) && Building(t, q, |s.rob| + 1)
  {
    hide Mid, AllocRuu, AllocLsq, Wf, Claims, Building, CfgOk, FuOk;
    MayGives(s);
    var p, q := s.ruuTail, s.cfg.ruuSize + s.lsqTail;
    var t := PairOf(s, i);
    MemClaims(s, i);
    ClaimBuilds(s, t, 2);
    ClaimedFresh(s, t, 2, p);
    ClaimedFresh(s, t, 2, q);
    MemPlaces(s, t, i);
    MemOpen(s);
    assert FreshWork(Claimed(s, 2)) == IDLE.(open := {p, q});
    BuildingInFlight(t, p, |s.rob|);
    BuildingInFlight(t, q, |s.rob| + 1);
    assert Wf(t) by { InvWf(t, IDLE.(open := {p, q})); }
  }

  /** The address computation is linked. */
  lemma PairFirst(s: State, t: State, i: Inst)
    requires Pair(s, t, i) && Unlinked(t, s.ruuTail) && Unlinked(t, s.cfg.ruuSize + s.lsqTail)
    requires Building(t, s.ruuTail, |s.rob|) && Building(t, s.cfg.ruuSize + s.lsqTail, |s.rob| + 1)
    ensures match LinkAll(t, s.ruuTail, NA, i.in2, i.in3, DTMP, NA)
            case Ok(r) =>
              Pair(s, r, i) && Unlinked(r, s.cfg.ruuSize + s.lsqTail) && Building(r, s.cfg.ruuSize + s.lsqTail, |s.rob| + 1)
            case Halt(why) => why == OutOfLinks
  {
    hide Mid, LinkAll, Wf, Keeps, Building;
    var p, q := s.ruuTail, s.cfg.ruuSize + s.lsqTail;
    LinkAllStage(t, p, NA, i.in2, i.in3, DTMP, NA, |s.rob|, {p, q});
    if LinkAll(t, p, NA, i.in2, i.in3, DTMP, NA).Ok? {
      var r := LinkAll(t, p, NA, i.in2, i.in3, DTMP, NA).value;
      KeepsGives(t, r, p);
      CompanionBuilds(t, r, p, q, |s.rob| + 1);
      BuildingInFlight(r, p, |s.rob|);
      BuildingInFlight(r, q, |s.rob| + 1);
      assert Wf(r) by { InvWf(r, IDLE.(open := {p, q})); }
    }
  }

  /** And the memory access. */
  lemma PairSecond(s: State, t: State, i: Inst)
    requires Pair(s, t, i) && Unlinked(t, s.cfg.ruuSize + s.lsqTail) && Building(t, s.cfg.ruuSize + s.lsqTail, |s.rob| + 1)
    requires i.kind == Store ==> i.out1 == NA && i.out2 == NA
    ensures match LinkAll(t, s.cfg.ruuSize + s.lsqTail, i.in1, DTMP, NA, i.out1, i.out2)
            case Ok(r) => Pair(s, r, i)
            case Halt(why) => why == OutOfLinks
  {
    hide Mid, LinkAll, Wf, Keeps, Building;
    var p, q := s.ruuTail, s.cfg.ruuSize + s.lsqTail;
    LinkAllStage(t, q, i.in1, DTMP, NA, i.out1, i.out2, |s.rob| + 1, {p, q});
    if LinkAll(t, q, i.in1, DTMP, NA, i.out1, i.out2).Ok? {
      var r := LinkAll(t, q, i.in1, DTMP, NA, i.out1, i.out2).value;
      KeepsGives(t, r, q);
      BuildingInFlight(r, q, |s.rob| + 1);
      assert Wf(r) by { InvWf(r, IDLE.(open := {p, q})); }
    }
  }

  /** What is ready of the pair is queued. */
  lemma PairEnds(s: State, r: State, i: Inst)
    requires Pair(s, r, i) && i.kind != Alu
    ensures match QueuePair(r, s.ruuTail, s.cfg.ruuSize + s.lsqTail, i.kind)
            case Ok(u) => Dispatched(s, u, 2)
            case Halt(why) => why == OutOfLinks
  {
    hide Mid, Wf, QueuePair;
    var p, q := s.ruuTail, s.cfg.ruuSize + s.lsqTail;
    assert {p, q} - {p} - {q} == {};
    QueuePairStage(r, p, q, i.kind, {p, q});
  }

  lemma DispatchMemStage(s: State, i: Inst)
    requires MayDispatch(s) && InstOk(s.cfg, i) && i.kind != Alu && !i.nop
    ensures match DispatchMem(s, i)
            case Ok(t) => Dispatched(s, t, 2)
            case Halt(why) => why == OutOfLinks
  {
    hide MayDispatch, Pair, Unlinked, Building, LinkAll, Wf, DispatchMem, QueuePair, Dispatched, AllocRuu, AllocLsq, FuOk;
    PairClaimed(s, i);
    var t := PairOf(s, i);
    var p, q := s.ruuTail, s.cfg.ruuSize + s.lsqTail;
    PairBounds(s, t, i);
    PairFirst(s, t, i);
    var r1 := LinkAll(t, p, NA, i.in2, i.in3, DTMP, NA);
    if r1.Ok? {
      PairBounds(s, r1.value, i);
      PairSecond(s, r1.value, i);
      var r2 := LinkAll(r1.value, q, i.in1, DTMP, NA, i.out1, i.out2);
      if r2.Ok? {
        PairBounds(s, r2.value, i);
        PairEnds(s, r2.value, i);
        MemContinues(s, t, i);
      } else { MemHalts(s, t, i); }
    } else { MemHalts(s, t, i); }
  }

  lemma PairBounds(s: State, t: State, i: Inst)
    requires Pair(s, t, i)
    ensures Wf(t) && s.ruuTail < |t.st| && s.cfg.ruuSize + s.lsqTail < |t.st|
  {
    hide Mid, Wf;
  }

  lemma InvWf(s: State, w: Work)
    requires Mid(s, w)
    ensures Wf(s)
  {
  }

  lemma MemOpen(s: State)
    ensures FreshWork(Claimed(s, 2)).open == {s.ruuTail, s.cfg.ruuSize + s.lsqTail}
  {
    var open := FreshWork(Claimed(s, 2)).open;
    forall x | x in open ensures x == s.ruuTail || x == s.cfg.ruuSize + s.lsqTail {
      var j :| 0 <= j < 2 && Claimed(s, 2)[j] == x;
    }
    assert Claimed(s, 2)[0] in open && Claimed(s, 2)[1] in open;
  }

  lemma MemPlaces(s: State, t: State, i: Inst)
    requires Wf(s) && t == AllocLsq(AllocRuu(s, Alu, false, s.cfg.agenFu, true), i)
    ensures s.ruuTail != s.cfg.ruuSize + s.lsqTail && t.rob == s.rob + [s.ruuTail] + [s.cfg.ruuSize + s.lsqTail]
    ensures t.cycle == s.cycle && t.ifq == s.ifq && t.cfg == s.cfg && t.specMode == s.specMode && |t.st| == |s.st|
  {
    hide CfgOk;
  }

  lemma CompanionBuilds(s: State, t: State, p: nat, q: nat, at: nat)
    requires Building(s, q, at) && Keeps(s, t, p) && p != q && q < |s.st| && at == |s.rob| - 1
    ensures Building(t, q, at) && t.st[q].onames == s.st[q].onames && t.st[q].ready == s.st[q].ready && t.st[q].kind == s.st[q].kind
  {
  }

  lemma MemHalts(s: State, t: State, i: Inst)
    requires Wf(s) && t == AllocLsq(AllocRuu(s, Alu, false, s.cfg.agenFu, true), i)
    requires MemLinks(s, t, i).Halt? && MemLinks(s, t, i).why == OutOfLinks
    ensures DispatchMem(s, i) == Halt(OutOfLinks)
  {
    hide LinkAll, AllocRuu, AllocLsq, QueuePair, CfgOk;
  }

  /** The linking steps of DispatchMem. */
  ghost function MemLinks(s: State, t: State, i: Inst): Outcome<State>
    requires Wf(s) && t == AllocLsq(AllocRuu(s, Alu, false, s.cfg.agenFu, true), i)
  {
    var r1 :- LinkAll(t, s.ruuTail, NA, i.in2, i.in3, DTMP, NA);
    LinkAll(r1, s.cfg.ruuSize + s.lsqTail, i.in1, DTMP, NA, i.out1, i.out2)
  }

  lemma MemContinues(s: State, t: State, i: Inst)
    requires Wf(s) && t == AllocLsq(AllocRuu(s, Alu, false, s.cfg.agenFu, true), i)
    requires MemLinks(s, t, i).Ok?
    ensures var r := MemLinks(s, t, i).value;
            && Wf(r) && |r.st| == |s.st|
            && DispatchMem(s, i) == QueuePair(r, s.ruuTail, s.cfg.ruuSize + s.lsqTail, i.kind)
  {
    hide LinkAll, AllocRuu, AllocLsq, QueuePair, CfgOk;
  }

  /** The end of the load/store case: queue the address computation and, for a store, the store. */
  lemma QueuePairStage(s: State, p: nat, q: nat, kind: Kind, open: set<nat>)
    requires Mid(s, IDLE.(open := open)) && Wf(s) && InFlight(s, p) && InFlight(s, q) && p != q
    requires open - {p} - {q} == {} && s.st[p].kind == Alu && s.st[q].kind == kind && kind != Alu
    requires !s.st[p].queued && !s.st[p].issued && !s.st[q].queued && !s.st[q].issued && !s.st[p].completed
    ensures match QueuePair(s, p, q, kind)
            case Ok(u) =>
              && Inv(u) && u.cfg == s.cfg && |u.st| == |s.st| && u.specMode == s.specMode && u.cycle == s.cycle
              && u.rob == s.rob && u.ifq == s.ifq && !u.st[p].completed
            case Halt(why) => why == OutOfLinks
  {
    hide Mid, OperandsReady, Enqueue, CfgOk, Keys, Wf;
    FinishStage(s, p, open);
    var e := if OperandsReady(s.st[p]) then Enqueue(s, p) else Ok(s);
    if e.Ok? {
      var s1 := e.value;
      var s2 := s1.(lastOp := Link(q, s1.st[q].tag, 0));
      NoteLastOp(s1, s2.lastOp, IDLE.(open := open - {p}));
      FinishStage(s2, q, open - {p});
      assert IDLE.(open := open - {p} - {q}) == IDLE;
    }
  }

  lemma NoteLastOp(s: State, l: Link, w: Work)
    requires Mid(s, w)
    ensures Mid(s.(lastOp := l), w) && Wf(s.(lastOp := l))
  {
    hide Statuses, ReadyOk, EventsOk, ChainsOk, PreciseCreators, LoadsOk, NoneLost, SpecCreators, Branch, PoolOk;
    hide Paired, Split, History, RuuPart, LsqPart, Ring;
    IdlesKeepsMid(s, s.(lastOp := l), w);
  }
}
