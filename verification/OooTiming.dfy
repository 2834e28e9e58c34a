/** When things happen: units stay busy for exactly their issue latency, and results appear in exactly the cycle
    their events were scheduled for. */
module OooTiming {
  import opened OooState
  import opened OooLists
  import opened OooInvariant
  import opened OooFrames
  import opened OooRefresh
  import opened OooStages
  import opened OooCommit
  import opened OooIssue
  import opened OooCycle
  import opened OooTheorems

  // ---- what the stages do to units and events ----

  /** Touches neither functional units nor events. */
  ghost predicate Calm(s: State, t: State) { t.busy == s.busy && t.eventQ == s.eventQ && t.cycle == s.cycle }

  lemma EnqueueCalm(s: State, p: nat)
    requires p < |s.st|
    ensures Enqueue(s, p).Ok? ==> Calm(s, Enqueue(s, p).value)
  {
  }

  lemma {:induction false} SquashCalm(s: State, branch: nat)
    requires Wf(s)
    ensures SquashAfter(s, branch).Ok? ==> Calm(s, SquashAfter(s, branch).value)
    decreases s.ruuNum
  {
    if Prev(s.ruuTail, s.cfg.ruuSize) != branch && SquashYoungest(s).Ok? {
      SquashCalm(SquashYoungest(s).value, branch);
    }
  }

  lemma WakeOneCalm(s: State, l: Link)
    requires Wf(s)
    ensures WakeOne(s, l).Ok? ==> Calm(s, WakeOne(s, l).value)
  {
  }

  lemma {:induction false} WakeCalm(s: State, p: nat, i: nat)
    requires p < |s.st| && Wf(s)
    ensures Wake(s, p, i).Ok? ==> Calm(s, Wake(s, p, i).value)
    decreases |s.st[p].odeps.Get(i)|
  {
    hide Wf, WakeOne;
    var chain := s.st[p].odeps.Get(i);
    if chain != [] {
      var s0 := Put(s, p, s.st[p].(odeps := s.st[p].odeps.Set(i, chain[1..])));
      assert Wf(s0) by { PutWf(s, p, s.st[p].(odeps := s.st[p].odeps.Set(i, chain[1..]))); }
      WakeOneCalm(s0, chain[0]);
      if WakeNext(s, p, i).Ok? { WakeCalm(WakeNext(s, p, i).value, p, i); }
    }
  }

  lemma PutWf(s: State, p: nat, x: Station)
    requires Wf(s) && p < |s.st|
    ensures Wf(Put(s, p, x))
  {
  }

  lemma CompleteCalm(s: State, p: nat)
    requires p < |s.st| && Wf(s)
    ensures Complete(s, p).Ok? ==> Calm(s, Complete(s, p).value)
  {
    hide Wf, Wake, SquashAfter, OperandsReady;
    var s1 := Put(s, p, s.st[p].(completed := true));
    PutWf(s, p, s.st[p].(completed := true));
    if s.st[p].recover { SquashCalm(s1, p); }
    var r := if s.st[p].recover then Recover(s1, p) else Ok(s1);
    if r.Ok? {
      BroadcastCalm(r.value, p, 0);
      if Broadcast(r.value, p, 0).Ok? { BroadcastCalm(Broadcast(r.value, p, 0).value, p, 1); }
    }
  }

  lemma BroadcastCalm(s: State, p: nat, i: nat)
    requires p < |s.st| && Wf(s)
    ensures Broadcast(s, p, i).Ok? ==> Calm(s, Broadcast(s, p, i).value)
  {
    hide Wake;
    var name := s.st[p].onames.Get(i);
    if name != NA {
      var s1 := if s.st[p].spec then (if s.specCv[name] == Creator(p, i) then s.(specCv := s.specCv[name := NoCreator]) else s)
                else (if s.cv[name] == Creator(p, i) then s.(cv := s.cv[name := NoCreator]) else s);
      WakeCalm(s1, p, i);
    }
  }

  /** Part of the same queue, from its front dropped. */
  ghost predicate Shorter(q: seq<Link>, r: seq<Link>) { |r| <= |q| && r == q[|q| - |r|..] }

  lemma {:induction false} NextEventShorter(s: State)
    ensures Shorter(s.eventQ, NextEvent(s).s.eventQ) && NextEvent(s).s.busy == s.busy && NextEvent(s).s.cycle == s.cycle
    decreases |s.eventQ|
  {
    hide Shorter, Valid;
    ShorterSelf(s.eventQ);
    if s.eventQ != [] && s.eventQ[0].x <= s.cycle {
      var t := s.(eventQ := s.eventQ[1..], free := s.free + 1);
      ShorterSelf(t.eventQ);
      if !Valid(s, s.eventQ[0]) { NextEventShorter(t); }
      ShorterCons(s.eventQ, NextEvent(s).s.eventQ);
    }
  }

  lemma ShorterSelf(q: seq<Link>)
    ensures Shorter(q, q)
  {
  }

  lemma ShorterCons(q: seq<Link>, r: seq<Link>)
    requires q != [] && Shorter(q[1..], r)
    ensures Shorter(q, r)
  {
    var p := q[1..];
    assert p[|p| - |r|..] == q[|q| - |r|..];
  }

  /** ruu_writeback leaves units alone and only takes events off the queue. */
  lemma {:induction false} WritebackTakes(s: State)
    requires Wf(s)
    ensures Writeback(s).Ok? ==>
              var t := Writeback(s).value; t.busy == s.busy && t.cycle == s.cycle && Shorter(s.eventQ, t.eventQ)
    decreases |s.eventQ|
  {
    hide Wf, Complete, NextEvent;
    var n := NextEvent(s);
    NextEventShorter(s);
    EventWf(s);
    if n.found {
      CompleteCalm(n.s, n.p);
      if Complete(n.s, n.p).Ok? { WritebackTakes(Complete(n.s, n.p).value); }
    }
  }

  lemma EventWf(s: State)
    requires Wf(s)
    ensures Wf(NextEvent(s).s)
  {
    hide NextEvent;
  }

  /** A busy unit stays exactly as busy. */
  ghost predicate Held(s: State, t: State) {
    |t.busy| == |s.busy| && t.cycle == s.cycle && forall m :: 0 <= m < |s.busy| && s.busy[m] > 0 ==> t.busy[m] == s.busy[m]
  }

  lemma {:induction false} CommitHolds(s: State, budget: nat)
    requires Wf(s)
    ensures Commit(s, budget).Ok? ==> Held(s, Commit(s, budget).value) && Commit(s, budget).value.eventQ == s.eventQ
    decreases s.ruuNum
  {
    hide CfgOk, RetireMem, RetireRuu;
    if s.ruuNum != 0 && budget != 0 && s.st[s.ruuHead].completed {
      var m := if s.st[s.ruuHead].eaComp then RetireMem(s) else Ok(RetireResult(s, true));
      RetireMemHolds(s);
      if m.Ok? && m.value.done {
        RetireRuuCalm(m.value.s);
        if RetireRuu(m.value.s).Ok? { CommitHolds(RetireRuu(m.value.s).value, budget - 1); }
      }
    }
  }

  lemma RetireMemHolds(s: State)
    requires Wf(s)
    ensures RetireMem(s).Ok? ==> Held(s, RetireMem(s).value.s) && RetireMem(s).value.s.eventQ == s.eventQ
  {
    hide ResGet, CfgOk;
  }

  lemma RetireRuuCalm(s: State)
    requires Wf(s) && 0 < s.ruuNum
    ensures RetireRuu(s).Ok? ==> Calm(s, RetireRuu(s).value)
  {
    hide CfgOk;
  }

  // ---- issue ----

  /** Old events stay, new ones are for later cycles. */
  ghost predicate Schedules(s: State, t: State) {
    t.cycle == s.cycle && forall e :: e in t.eventQ ==> e in s.eventQ || e.x > s.cycle
  }

  lemma QueueEventSchedules(s: State, p: nat, when: nat)
    requires p < |s.st|
    ensures QueueEvent(s, p, when).Ok? ==>
              var t := QueueEvent(s, p, when).value; Schedules(s, t) && t.busy == s.busy
  {
    hide Insert;
    if s.free > 0 {
      InsertMembers(s.eventQ, Link(p, s.st[p].tag, when));
    }
  }

  lemma IssueOneHolds(s: State, p: nat, env: Env)
    requires Wf(s) && p < |s.st|
    ensures IssueOne(s, p, env).Ok? ==> Held(s, IssueOne(s, p, env).value.s) && Schedules(s, IssueOne(s, p, env).value.s)
  {
    hide Wf, QueueEvent, Enqueue, ResGet, LoadLatency, OperandsReady;
    var x := s.st[p];
    var s1 := Put(s, p, x.(queued := false));
    PutWf(s, p, x.(queued := false));
    PutWf(s1, p, s1.st[p].(issued := true));
    if x.inLsq && x.kind == Store {
    } else if x.fu == NA {
      QueueEventSchedules(Put(s1, p, s1.st[p].(issued := true)), p, s.cycle + 1);
    } else if ResGet(s1, x.fu).Ok? {
      var fu := ResGet(s1, x.fu).value;
      if fu.Granted? {
        var s2 := Reserve(Put(s1, p, s1.st[p].(issued := true)), fu.t);
        if s2.Ok? {
          var lat := if x.inLsq && x.kind == Load && s.cfg.ruuSize <= p then LoadLatency(s2.value, p, env) else fu.t.oplat;
          QueueEventSchedules(s2.value, p, s.cycle + lat);
        }
      } else {
        EnqueueCalm(s1, p);
      }
    }
  }

  lemma IssueNodeHolds(s: State, n: Link, env: Env)
    requires Wf(s)
    ensures IssueNode(s, n, env).Ok? ==> Held(s, IssueNode(s, n, env).value.s) && Schedules(s, IssueNode(s, n, env).value.s)
  {
    hide Wf, IssueOne;
    if Valid(s, n) { IssueOneHolds(s, n.rs, env); }
  }

  lemma {:induction false} RequeueCalm(s: State, node: seq<Link>)
    requires Wf(s)
    ensures Requeue(s, node).Ok? ==> Calm(s, Requeue(s, node).value)
    decreases |node|
  {
    hide Wf, Enqueue;
    if node != [] {
      if Valid(s, node[0]) { EnqueueCalm(Put(s, node[0].rs, s.st[node[0].rs].(queued := false)), node[0].rs); }
      if RequeueNode(s, node[0]).Ok? { RequeueCalm(RequeueNode(s, node[0]).value, node[1..]); }
    }
  }

  lemma {:induction false} IssueLoopHolds(s: State, node: seq<Link>, n: nat, env: Env)
    requires Wf(s)
    ensures IssueLoop(s, node, n, env).Ok? ==>
              Held(s, IssueLoop(s, node, n, env).value) && Schedules(s, IssueLoop(s, node, n, env).value)
    decreases |node|
  {
    hide Wf, IssueNode, Requeue;
    RequeueCalm(s, node);
    if node != [] && n < s.cfg.issueWidth && IssueNode(s, node[0], env).Ok? {
      IssueNodeHolds(s, node[0], env);
      var i := IssueNode(s, node[0], env).value;
      IssueLoopHolds(i.s, node[1..], if i.issued then n + 1 else n, env);
    }
  }

  lemma IssueHolds(s: State, env: Env)
    requires Wf(s)
    ensures Issue(s, env).Ok? ==> Held(s, Issue(s, env).value) && Schedules(s, Issue(s, env).value)
  {
    hide IssueLoop, CfgOk;
    IssueLoopHolds(s.(readyQ := []), s.readyQ, 0, env);
  }

  // ---- dispatch ----

  lemma LinkAllCalm(s: State, p: nat, in1: Reg, in2: Reg, in3: Reg, out1: Reg, out2: Reg)
    requires Wf(s) && p < |s.st|
    ensures LinkAll(s, p, in1, in2, in3, out1, out2).Ok? ==> Calm(s, LinkAll(s, p, in1, in2, in3, out1, out2).value)
  {
    hide Wf, LinkIdep, InstallOdep;
    LinkIdepCalm(s, p, 0, in1);
    if LinkIdep(s, p, 0, in1).Ok? {
      var s1 := LinkIdep(s, p, 0, in1).value;
      LinkIdepCalm(s1, p, 1, in2);
      if LinkIdep(s1, p, 1, in2).Ok? {
        var s2 := LinkIdep(s1, p, 1, in2).value;
        LinkIdepCalm(s2, p, 2, in3);
        if LinkIdep(s2, p, 2, in3).Ok? {
          var s3 := LinkIdep(s2, p, 2, in3).value;
          InstallCalm(s3, p, 0, out1);
          InstallCalm(InstallOdep(s3, p, 0, out1), p, 1, out2);
        }
      }
    }
  }

  lemma LinkIdepCalm(s: State, p: nat, k: nat, name: Reg)
    requires Wf(s) && p < |s.st|
    ensures LinkIdep(s, p, k, name).Ok? ==> Calm(s, LinkIdep(s, p, k, name).value)
  {
    hide CfgOk;
  }

  lemma InstallCalm(s: State, p: nat, o: nat, name: Reg)
    requires Wf(s) && p < |s.st|
    ensures Calm(s, InstallOdep(s, p, o, name))
  {
    hide CfgOk;
  }

  lemma DispatchAluCalm(s: State, i: Inst)
    requires Wf(s)
    ensures DispatchAlu(s, i).Ok? ==> Calm(s, DispatchAlu(s, i).value)
  {
    hide LinkAll, Enqueue, OperandsReady, CfgOk;
    var p := s.ruuTail;
    var t := AllocRuu(s, Alu, i.urgent, i.fu, false);
    LinkAllCalm(t, p, i.in1, i.in2, i.in3, i.out1, i.out2);
    if LinkAll(t, p, i.in1, i.in2, i.in3, i.out1, i.out2).Ok? {
      EnqueueCalm(LinkAll(t, p, i.in1, i.in2, i.in3, i.out1, i.out2).value, p);
    }
  }

  lemma QueuePairCalm(s: State, p: nat, q: nat, kind: Kind)
    requires Wf(s) && p < |s.st| && q < |s.st|
    ensures QueuePair(s, p, q, kind).Ok? ==> Calm(s, QueuePair(s, p, q, kind).value)
  {
    hide Enqueue, OperandsReady, Wf;
    EnqueueCalm(s, p);
    var s1 := if OperandsReady(s.st[p]) then Enqueue(s, p) else Ok(s);
    if s1.Ok? { EnqueueCalm(s1.value.(lastOp := Link(q, s1.value.st[q].tag, 0)), q); }
  }

  lemma DispatchMemCalm(s: State, i: Inst)
    requires Wf(s)
    ensures DispatchMem(s, i).Ok? ==> Calm(s, DispatchMem(s, i).value)
  {
    hide LinkAll, QueuePair, CfgOk;
    var p := s.ruuTail;
    var q := s.cfg.ruuSize + s.lsqTail;
    var s0 := AllocLsq(AllocRuu(s, Alu, false, s.cfg.agenFu, true), i);
    LinkAllCalm(s0, p, NA, i.in2, i.in3, DTMP, NA);
    if LinkAll(s0, p, NA, i.in2, i.in3, DTMP, NA).Ok? {
      var s1 := LinkAll(s0, p, NA, i.in2, i.in3, DTMP, NA).value;
      LinkAllCalm(s1, q, i.in1, DTMP, NA, i.out1, i.out2);
      if LinkAll(s1, q, i.in1, DTMP, NA, i.out1, i.out2).Ok? {
        QueuePairCalm(LinkAll(s1, q, i.in1, DTMP, NA, i.out1, i.out2).value, p, q, i.kind);
      }
    }
  }

  lemma {:induction false} DispatchCalm(s: State, budget: nat)
    requires Wf(s)
    ensures Dispatch(s, budget).Ok? ==> Calm(s, Dispatch(s, budget).value)
    decreases |s.ifq|
  {
    hide Wf, DispatchAlu, DispatchMem, InorderStall;
    if s.ifq != [] {
      var i := s.ifq[0];
      DispatchAluCalm(s, i);
      DispatchMemCalm(s, i);
      if DispatchOne(s).Ok? { DispatchCalm(DispatchOne(s).value, if i.nop || budget == 0 then budget else budget - 1); }
    }
  }

  // ---- whole cycles ----

  ghost predicate Commits(s: State, t: State) { Wf(s) && Commit(s, s.cfg.commitWidth) == Ok(t) }
  ghost predicate WritesBack(s: State, t: State) { Wf(s) && Writeback(s) == Ok(t) }
  ghost predicate Refreshes(s: State, t: State) { Wf(s) && Refresh(s, 0, []) == Ok(t) }
  ghost predicate Issues(s: State, t: State, env: Env) { Wf(s) && Issue(s, env) == Ok(t) }
  ghost predicate Dispatches(s: State, t: State) { Wf(s) && Dispatch(s, s.cfg.decodeWidth) == Ok(t) }

  ghost predicate Sound(s: State, t: State) { Inv(t) && Wf(t) && t.cfg == s.cfg }

  ghost predicate Releases(s: State, t: State) { t == ReleaseFu(s) }
  ghost predicate Fetches(s: State, t: State, env: Env) {
    var u := Fetch(s, env.fetched); t == u.(cycle := u.cycle + 1)
  }
  ghost predicate Cycles(s: State, t: State, env: Env) { Inv(s) && Wf(s) && EnvOk(s.cfg, env) && Cycle(s, env) == Ok(t) }

  /** The stages of a cycle that ends normally. */
  lemma CycleParts(s: State, t: State, env: Env)
    returns (s1: State, s1': State, s2: State, s3: State, s4: State, s5: State)
    requires Cycles(s, t, env)
    ensures Commits(s, s1) && Sound(s, s1) && Releases(s1, s1') && WritesBack(s1', s2) && Sound(s, s2)
    ensures s2.eventQ == [] || s2.eventQ[0].x > s2.cycle
    ensures s2.specMode ==> s2.rob == s1.rob && s2.nspec == s1.nspec && s1.specMode
    ensures Refreshes(s2, s3) && Sound(s, s3) && OnlyQueued(s2, s3)
    ensures Issues(s3, s4, env) && Sound(s, s4) && SameLayout(s3, s4)
    ensures Dispatches(s4, s5) && Sound(s, s5) && Fetches(s5, t, env)
  {
    hide Inv, Wf, Commit, Writeback, Refresh, Issue, Dispatch, ReleaseFu, Fetch, Decided, EnvOk, Scanning, SameLayout, OnlyQueued;
    assert Cycle(s, env) == Ok(t);
    CommitStage(s, s.cfg.commitWidth);
    s1 := Commit(s, s.cfg.commitWidth).value;
    ReleaseStage(s1);
    s1' := ReleaseFu(s1);
    ReleaseIs(s1);
    WritebackStage(s1');
    s2 := Writeback(s1').value;
    s3, s4, s5 := RestParts(s2, t, env);
  }

  lemma ReleaseIs(s: State)
    ensures var t := ReleaseFu(s); t == s.(busy := t.busy)
  {
  }

  ghost predicate Rest(s: State, t: State, env: Env) {
    && Inv(s) && Wf(s) && EnvOk(s.cfg, env)
    && Refresh(s, 0, []).Ok?
    && Issue(Refresh(s, 0, []).value, env).Ok?
    && var s4 := Issue(Refresh(s, 0, []).value, env).value;
       Dispatch(s4, s4.cfg.decodeWidth).Ok? && Fetches(Dispatch(s4, s4.cfg.decodeWidth).value, t, env)
  }

  lemma {:induction false} RestParts(s2: State, t: State, env: Env) returns (s3: State, s4: State, s5: State)
    requires Rest(s2, t, env)
    ensures Refreshes(s2, s3) && Sound(s2, s3) && OnlyQueued(s2, s3)
    ensures Issues(s3, s4, env) && Sound(s2, s4) && SameLayout(s3, s4)
    ensures Dispatches(s4, s5) && Sound(s2, s5) && Fetches(s5, t, env)
  {
    hide Inv, Wf, Refresh, Issue, Dispatch, Fetch, Decided, EnvOk, Scanning, Static;
    ScanStart(s2);
    RefreshStage(s2, 0, []);
    s3 := Refresh(s2, 0, []).value;
    IssueStage(s3, env);
    s4 := Issue(s3, env).value;
    InvGives(s4);
    DispatchStage(s4, s4.cfg.decodeWidth);
    s5 := Dispatch(s4, s4.cfg.decodeWidth).value;
    InvGives(s5);
  }

  /** A unit busy for more than a cycle is busy for one cycle less afterwards. */
  lemma UnitCountsDown(s: State, t: State, env: Env, m: nat)
    requires Cycles(s, t, env) && m < |s.busy| && s.busy[m] >= 2
    ensures m < |t.busy| && t.busy[m] == s.busy[m] - 1
  {
    hide Inv, Wf, Commit, Writeback, Refresh, Issue, Dispatch, SameLayout, Cycles, Sound;
    var s1, s1', s2, s3, s4, s5 := CycleParts(s, t, env);
    CommitHolds(s, s.cfg.commitWidth);
    WritebackTakes(s1');
    IssueHolds(s3, env);
    DispatchCalm(s4, s4.cfg.decodeWidth);
  }

  /** Over whole runs: a unit reserved for k cycles is busy for exactly that long, and granted to nobody else. */
  lemma {:induction false} UnitHeld(s: State, envs: seq<Env>, m: nat)
    requires Inv(s) && Wf(s) && EnvsOk(s.cfg, envs) && m < |s.busy| && |envs| < s.busy[m] && Run(s, envs).Ok?
    ensures var t := Run(s, envs).value; m < |t.busy| && t.busy[m] == s.busy[m] - |envs|
    decreases |envs|
  {
    hide Inv, Wf, Cycle, EnvOk;
    if envs != [] {
      CycleStage(s, envs[0]);
      UnitCountsDown(s, Cycle(s, envs[0]).value, envs[0], m);
      UnitHeld(Cycle(s, envs[0]).value, envs[1..], m);
    }
  }

  // ---- events ----

  /** No event is late. */
  ghost predicate OnTime(s: State) { forall e :: e in s.eventQ ==> e.x >= s.cycle }

  lemma CycleOnTime(s: State, t: State, env: Env)
    requires Cycles(s, t, env)
    ensures OnTime(t) && t.cycle == s.cycle + 1
  {
    hide Inv, Wf, Commit, Writeback, Refresh, Issue, Dispatch, SameLayout, Cycles;
    var s1, s1', s2, s3, s4, s5 := CycleParts(s, t, env);
    CommitHolds(s, s.cfg.commitWidth);
    WritebackTakes(s1');
    AllLater(s2);
    IssueHolds(s3, env);
    DispatchCalm(s4, s4.cfg.decodeWidth);
  }

  lemma AllLater(s: State)
    requires Inv(s) && (s.eventQ == [] || s.eventQ[0].x > s.cycle)
    ensures forall e :: e in s.eventQ ==> e.x > s.cycle
  {
    hide Layout, Statuses, ReadyOk, ChainsOk, PreciseCreators, SpecCreators, Branch, PoolOk, LoadsOk, NoneLost, TagsOk;
    assert Sorted(s.eventQ);
  }

  /** In every reachable state no event is late: an operation completes in exactly the cycle its latency says. */
  lemma {:induction false} RunOnTime(s: State, envs: seq<Env>)
    requires Inv(s) && Wf(s) && EnvsOk(s.cfg, envs) && OnTime(s) && Run(s, envs).Ok?
    ensures OnTime(Run(s, envs).value) && Run(s, envs).value.cycle == s.cycle + |envs|
    decreases |envs|
  {
    hide Inv, Wf, Cycle, EnvOk, OnTime;
    if envs != [] {
      CycleStage(s, envs[0]);
      CycleOnTime(s, Cycle(s, envs[0]).value, envs[0]);
      RunOnTime(Cycle(s, envs[0]).value, envs[1..]);
    }
  }

  /** So the event that fires is due in this very cycle. */
  lemma {:induction false} FiresOnTime(s: State)
    requires OnTime(s) && NextEvent(s).found
    ensures exists e :: e in s.eventQ && Valid(s, e) && e.rs == NextEvent(s).p && e.x == s.cycle
    decreases |s.eventQ|
  {
    var e := s.eventQ[0];
    assert e in s.eventQ;
    if !Valid(s, e) {
      var t := s.(eventQ := s.eventQ[1..], free := s.free + 1);
      FiresOnTime(t);
      var f :| f in t.eventQ && Valid(t, f) && f.rs == NextEvent(t).p && f.x == t.cycle;
      assert f in s.eventQ && Valid(s, f);
    }
  }
}
