/** The core never stops making progress: with bounded latencies the oldest instruction retires within a bounded number
    of cycles, whatever is fetched, mispredicted and squashed behind it. */
module OooProgress {
  import opened OooState
  import opened OooLists
  import opened OooInvariant
  import opened OooFrames
  import opened OooRefresh
  import opened OooCommit
  import opened OooCycle
  import opened OooTheorems
  import opened OooTiming
  import opened OooBandwidth
  import opened OooRanks

  // ---- bounds ----

  /** No operation takes more than L cycles, and stages have some bandwidth. */
  ghost predicate CfgUpTo(cfg: Config, L: nat) {
    && 0 < cfg.issueWidth && 0 < cfg.commitWidth && 1 <= L
    && forall c, i :: 0 <= c < |cfg.table| && 0 <= i < |cfg.table[c]| ==> cfg.table[c][i].oplat <= L && cfg.table[c][i].issuelat <= L
  }

  ghost predicate EnvUpTo(env: Env, L: nat) { forall n: nat :: env.cacheLat(n) <= L && env.tlbLat(n) <= L }

  /** Units are free and events due within r cycles. */
  ghost predicate Within(s: State, r: int) {
    && (forall m :: 0 <= m < |s.busy| ==> s.busy[m] <= (if r > 0 then r else 0))
    && forall e :: e in s.eventQ ==> e.x <= s.cycle + r
  }

  // ---- issue and commit respect the bounds ----

  lemma GrantUpTo(s: State, fu: nat, L: nat)
    requires Wf(s) && CfgUpTo(s.cfg, L)
    ensures ResGet(s, fu).Ok? && ResGet(s, fu).value.Granted? ==>
              ResGet(s, fu).value.t.oplat <= L && ResGet(s, fu).value.t.issuelat <= L
  {
    hide CfgOk, FirstIdle;
  }

  lemma ReserveUpTo(s: State, t: Template, L: nat)
    requires t.master < |s.busy| && t.issuelat <= L && Within(s, L)
    ensures Reserve(s, t).Ok? ==> Within(Reserve(s, t).value, L)
  {
  }

  lemma EventUpTo(s: State, p: nat, when: nat, L: nat)
    requires p < |s.st| && Within(s, L) && when <= s.cycle + L
    ensures QueueEvent(s, p, when).Ok? ==> Within(QueueEvent(s, p, when).value, L)
  {
    hide Insert;
    if s.free > 0 { InsertMembers(s.eventQ, Link(p, s.st[p].tag, when)); }
  }

  lemma LoadUpTo(s: State, p: nat, env: Env, L: nat)
    requires Wf(s) && s.cfg.ruuSize <= p < |s.st| && EnvUpTo(env, L) && 1 <= L
    ensures LoadLatency(s, p, env) <= L
  {
    hide Wf, ScanBack, LsqPos;
  }

  lemma StartUpTo(s: State, p: nat, t: Template, env: Env, L: nat)
    requires Wf(s) && p < |s.st| && t.master < |s.busy| && Within(s, L) && EnvUpTo(env, L) && 1 <= L
    requires t.oplat <= L && t.issuelat <= L
    ensures StartOn(s, p, t, env).Ok? ==> Within(StartOn(s, p, t, env).value.s, L)
  {
    hide Wf, LoadLatency, Reserve, QueueEvent, Within, EnvUpTo;
    var s0 := Put(s, p, s.st[p].(issued := true));
    PutWf(s, p, s.st[p].(issued := true));
    WithinPut(s, p, s.st[p].(issued := true), L);
    ReserveUpTo(s0, t, L);
    if Reserve(s0, t).Ok? {
      var s1 := Reserve(s0, t).value;
      var x := s.st[p];
      ReserveIs(s0, t);
      if s.cfg.ruuSize <= p { LoadUpTo(s1, p, env, L); }
      EventUpTo(s1, p, s.cycle + if x.inLsq && x.kind == Load && s.cfg.ruuSize <= p then LoadLatency(s1, p, env) else t.oplat, L);
    }
  }

  lemma WithinPut(s: State, p: nat, x: Station, r: int)
    requires p < |s.st| && Within(s, r)
    ensures Within(Put(s, p, x), r)
  {
  }

  lemma WithinCalm(s: State, t: State, r: int)
    requires Calm(s, t) && Within(s, r)
    ensures Within(t, r)
  {
  }

  lemma IssueOneUpTo(s: State, p: nat, env: Env, L: nat)
    requires Wf(s) && p < |s.st| && Within(s, L) && CfgUpTo(s.cfg, L) && EnvUpTo(env, L)
    ensures IssueOne(s, p, env).Ok? ==> Within(IssueOne(s, p, env).value.s, L)
  {
    hide Wf, ResGet, StartOn, QueueEvent, Enqueue, OperandsReady, Within, EnvUpTo, CfgUpTo;
    var x := s.st[p];
    var s1 := Put(s, p, x.(queued := false));
    PutWf(s, p, x.(queued := false));
    WithinPut(s, p, x.(queued := false), L);
    OneAtLeast(s.cfg, L);
    if x.inLsq && x.kind == Store {
      WithinPut(s1, p, s1.st[p].(issued := true, completed := true), L);
    } else if x.fu == NA {
      WithinPut(s1, p, s1.st[p].(issued := true), L);
      EventUpTo(Put(s1, p, s1.st[p].(issued := true)), p, s.cycle + 1, L);
    } else if ResGet(s1, x.fu).Ok? {
      var fu := ResGet(s1, x.fu).value;
      GrantUpTo(s1, x.fu, L);
      if fu.Granted? {
        StartUpTo(s1, p, fu.t, env, L);
      } else {
        EnqueueCalm(s1, p);
        if Enqueue(s1, p).Ok? { WithinCalm(s1, Enqueue(s1, p).value, L); }
      }
    }
  }

  lemma OneAtLeast(cfg: Config, L: nat)
    requires CfgUpTo(cfg, L)
    ensures 1 <= L
  {
  }

  lemma {:induction false} IssueUpTo(s: State, node: seq<Link>, n: nat, env: Env, L: nat)
    requires Wf(s) && Within(s, L) && CfgUpTo(s.cfg, L) && EnvUpTo(env, L) && IssueLoop(s, node, n, env).Ok?
    ensures Within(IssueLoop(s, node, n, env).value, L)
    decreases |node|
  {
    hide Wf, IssueNode, Requeue, Within, CfgUpTo, EnvUpTo;
    if node == [] || n >= s.cfg.issueWidth {
      RequeueCalm(s, node);
      WithinCalm(s, Requeue(s, node).value, L);
    } else {
      var r := IssueNode(s, node[0], env).value;
      IssueNodeUpTo(s, node[0], env, L);
      assert Accounted(s, node, {});
      IssueStep(s, node, {}, env);
      SameSize(s, r.s);
      IssueUpTo(r.s, node[1..], if r.issued then n + 1 else n, env, L);
    }
  }

  lemma IssueNodeUpTo(s: State, n: Link, env: Env, L: nat)
    requires Wf(s) && Within(s, L) && CfgUpTo(s.cfg, L) && EnvUpTo(env, L) && IssueNode(s, n, env).Ok?
    ensures Within(IssueNode(s, n, env).value.s, L)
  {
    hide Wf, IssueOne, CfgUpTo, EnvUpTo;
    if Valid(s, n) { IssueOneUpTo(s, n.rs, env, L); }
  }

  lemma {:induction false} CommitUpTo(s: State, budget: nat, L: nat)
    requires Wf(s) && Within(s, L) && CfgUpTo(s.cfg, L) && Commit(s, budget).Ok?
    ensures Within(Commit(s, budget).value, L)
    decreases s.ruuNum
  {
    hide CfgOk, RetireMem, RetireRuu, Within, CfgUpTo;
    if s.ruuNum != 0 && budget != 0 && s.st[s.ruuHead].completed {
      var m := if s.st[s.ruuHead].eaComp then RetireMem(s) else Ok(RetireResult(s, true));
      if s.st[s.ruuHead].eaComp { RetireUpTo(s, L); }
      if m.value.done {
        RetireRuuCalm(m.value.s);
        WithinCalm(m.value.s, RetireRuu(m.value.s).value, L);
        CommitUpTo(RetireRuu(m.value.s).value, budget - 1, L);
      }
    }
  }

  lemma RetireUpTo(s: State, L: nat)
    requires Wf(s) && Within(s, L) && CfgUpTo(s.cfg, L) && RetireMem(s).Ok?
    ensures Within(RetireMem(s).value.s, L)
  {
    hide CfgOk, ResGet, CfgUpTo;
    GrantUpTo(s, s.st[s.cfg.ruuSize + s.lsqHead].fu, L);
  }

  /** Bounded latencies keep everything due within the bound. */
  lemma CycleUpTo(s: State, t: State, env: Env, L: nat)
    requires Cycles(s, t, env) && Within(s, L) && CfgUpTo(s.cfg, L) && EnvUpTo(env, L)
    ensures Within(t, L)
  {
    hide Inv, Wf, Commit, Writeback, Refresh, Issue, Dispatch, SameLayout, Cycles, CfgUpTo, EnvUpTo;
    var s1, s1', s2, s3, s4, s5 := CycleParts(s, t, env);
    CommitUpTo(s, s.cfg.commitWidth, L);
    CommitHolds(s, s.cfg.commitWidth);
    WritebackTakes(s1');
    IssueAllUpTo(s3, env, L);
    IssueHolds(s3, env);
    DispatchCalm(s4, s4.cfg.decodeWidth);
  }

  lemma IssueAllUpTo(s: State, env: Env, L: nat)
    requires Wf(s) && Within(s, L) && CfgUpTo(s.cfg, L) && EnvUpTo(env, L) && Issue(s, env).Ok?
    ensures Within(Issue(s, env).value, L)
  {
    hide CfgOk, IssueLoop, CfgUpTo, EnvUpTo;
    IssueUpTo(s.(readyQ := []), s.readyQ, 0, env, L);
  }

  // ---- one cycle ----

  /** A cycle in which nothing happened but the passing of time. */
  ghost predicate Idles(s: State, t: State) {
    && Same(s, t) && t.cycle == s.cycle + 1 && t.busy == ReleaseFu(s).busy
    && forall e :: e in t.eventQ ==> e in s.eventQ && e.x > s.cycle
  }

  lemma CycleMoves(s: State, t: State, env: Env)
    requires Cycles(s, t, env)
    ensures s.retired <= t.retired && s.log <= t.log
    ensures t.retired == s.retired ==> Moves(s, t) && (Closer(s, t) || Idles(s, t))
  {
    hide Inv, Wf, Commit, Writeback, Refresh, Issue, Dispatch, SameLayout, Cycles, Closer, NewlyIssued, OnlyQueued;
    var s1, s1', s2, s3, s4, s5 := CycleParts(s, t, env);
    CyclesFrom(s, t, env);
    CommitQuiet(s, s.cfg.commitWidth);
    ReleaseIs(s1);
    ReleaseStage(s1);
    InvSizes(s1);
    WritebackMoves(s1');
    WritebackTakes(s1');
    InvSizes(s2);
    AllLater(s2);
    RefreshMoves(s2, s3);
    RefreshFrame(s2, s3);
    IssueMoves(s3, env);
    DispatchMoves(s4, s4.cfg.decodeWidth);
    DispatchCalm(s4, s4.cfg.decodeWidth);
    IssueHolds(s3, env);
    assert Same(s1, s1') && Same(s5, t) by { InvSizes(s5); }
    MovesTrans(s1, s1', s2);
    MovesTrans(s1, s2, s3);
    MovesTrans(s1, s3, s4);
    MovesTrans(s1, s4, s5);
    MovesTrans(s1, s5, t);
  }

  lemma CyclesFrom(s: State, t: State, env: Env)
    requires Cycles(s, t, env)
    ensures Inv(s) && Wf(s)
  {
    hide Inv, Wf;
  }

  lemma RefreshFrame(s: State, t: State)
    requires OnlyQueued(s, t)
    ensures t.busy == s.busy && t.eventQ == s.eventQ && t.cycle == s.cycle
  {
  }

  // ---- nothing is due: something must happen ----

  /** No event is scheduled and every unit is idle. */
  ghost predicate Quiet(s: State) { s.eventQ == [] && forall m :: 0 <= m < |s.busy| ==> s.busy[m] == 0 }

  /** A station in execution has an event. */
  lemma ExecutingHasEvent(s: State, p: nat)
    requires Inv(s) && InFlight(s, p) && s.st[p].issued && !s.st[p].completed
    ensures s.eventQ != []
  {
    hide Layout, Statuses, ReadyOk, ChainsOk, PreciseCreators, SpecCreators, Branch, PoolOk, LoadsOk, NoneLost, TagsOk, Sorted;
    assert Keys(s.eventQ)[Key(p, s.st[p].tag)] == 1;
  }

  /** With every unit idle no operation lacks one. */
  lemma IdleServes(s: State, p: nat)
    requires Inv(s) && Wf(s) && InFlight(s, p) && forall m :: 0 <= m < |s.busy| ==> s.busy[m] == 0
    ensures !Starved(s, p)
  {
    hide Statuses, ReadyOk, EventsOk, ChainsOk, PreciseCreators, SpecCreators, Branch, PoolOk, LoadsOk, NoneLost;
    hide Structure, Paired, Split, History;
    assert KindOk(s.cfg, p, s.st[p]);
    if s.st[p].fu != NA {
      assert s.cfg.table[s.st[p].fu] != [];
      assert s.busy[s.cfg.table[s.st[p].fu][0].master] == 0;
    }
  }

  /** When only the address computation before it is older, and complete, a memory operation has its operands. */
  lemma SecondIsReady(s: State)
    requires Inv(s) && 2 <= |s.rob| && s.rob[0] < |s.st| && s.st[s.rob[0]].completed
    ensures s.rob[1] < |s.st| && OperandsReady(s.st[s.rob[1]])
  {
    hide Statuses, ReadyOk, EventsOk, ChainLinksOk, ChainsFeed, PreciseCreators, LoadsOk, SpecCreators, Branch, PoolOk, NoneLost;
    hide Split, History, Kinds, Paired, RuuPart, LsqPart, Ring, CfgOk;
    var q := s.rob[1];
    assert InFlight(s, q);
    forall k: nat | k < 3 ensures s.st[q].ready.Get(k) {
      if !s.st[q].ready.Get(k) {
        assert Waits(s, {}, q, k);
        OnlyFirstIsOlder(s, s.prod[Opnd(q, k)].rs);
        assert false;
      }
    }
    assert s.st[q].ready.Get(0) && s.st[q].ready.Get(1) && s.st[q].ready.Get(2);
  }

  lemma OnlyFirstIsOlder(s: State, c: nat)
    requires Structure(s) && InFlight(s, c) && 2 <= |s.rob| && s.rob[1] < |s.st| && s.st[c].seqno < s.st[s.rob[1]].seqno
    ensures c == s.rob[0]
  {
    hide RuuPart, LsqPart, Ring, Wf;
    var i :| 0 <= i < |s.rob| && s.rob[i] == c;
    if i >= 1 { NotOlder(s, i); }
  }

  lemma NotOlder(s: State, i: nat)
    requires Structure(s) && 1 <= i < |s.rob|
    ensures s.rob[1] < |s.st| && s.rob[i] < |s.st| && s.st[s.rob[1]].seqno <= s.st[s.rob[i]].seqno
  {
    hide RuuPart, LsqPart, Ring, Wf;
  }

  /** The station that keeps the oldest instruction from retiring: the instruction itself, or its memory access. */
  ghost predicate HoldsUp(s: State, p: nat) {
    && InFlight(s, p) && !s.st[p].completed
    && (p == s.rob[0] || (2 <= |s.rob| && p == s.rob[1] && s.rob[0] < |s.st| && s.st[s.rob[0]].completed && s.st[p].inLsq
                          && s.cfg.ruuSize <= p))
  }

  /** If nothing is due, commit either retires or is held up by a station in flight. */
  lemma CommitHeldUp(s: State) returns (p: nat)
    requires Inv(s) && Wf(s) && Quiet(s) && s.rob != [] && 0 < s.cfg.commitWidth
    requires Commit(s, s.cfg.commitWidth).Ok? && Commit(s, s.cfg.commitWidth).value == s
    ensures HoldsUp(s, p)
  {
    hide Inv, Commit, NoIdle, CfgOk, OperandsReady;
    CommitIsGreedy(s, s.cfg.commitWidth);
    SomeRuu(s);
    var n := HeadFacts(s);
    p := s.rob[0];
    if s.st[p].completed {
      p := s.rob[1];
      if s.st[p].completed { PortIsFree(s, p); }
      SecondPlace(s, p);
    }
  }

  lemma SomeRuu(s: State)
    requires Inv(s) && s.rob != []
    ensures 0 < s.ruuNum
  {
    hide Statuses, ReadyOk, EventsOk, ChainsOk, PreciseCreators, SpecCreators, Branch, PoolOk, LoadsOk, NoneLost;
    hide Split, History, Kinds;
    InFlightMeansRuu(s);
  }

  lemma SecondPlace(s: State, p: nat)
    requires Inv(s) && 2 <= |s.rob| && p == s.rob[1] && s.cfg.ruuSize <= p < |s.st|
    ensures InFlight(s, p) && s.st[p].inLsq
  {
    hide Statuses, ReadyOk, EventsOk, ChainsOk, PreciseCreators, SpecCreators, Branch, PoolOk, LoadsOk, NoneLost;
    hide Split, History, Paired, Structure;
    assert InFlight(s, p);
    assert KindOk(s.cfg, p, s.st[p]);
  }

  lemma PortIsFree(s: State, p: nat)
    requires Inv(s) && Wf(s) && Quiet(s) && InFlight(s, p) && s.st[p].kind == Store
    ensures !NoIdle(s, s.st[p].fu)
  {
    hide Statuses, ReadyOk, EventsOk, ChainsOk, PreciseCreators, SpecCreators, Branch, PoolOk, LoadsOk, NoneLost;
    hide Structure, Paired, Split, History;
    assert KindOk(s.cfg, p, s.st[p]);
    IdleServes(s, p);
  }

  /** lsq_refresh leaves the station that holds up commit on the ready queue. */
  lemma HeldUpQueued(s: State, p: nat)
    requires Inv(s) && Wf(s) && HoldsUp(s, p) && !s.st[p].issued && Refresh(s, 0, []).Ok? && OnlyQueued(s, Refresh(s, 0, []).value)
    ensures Refresh(s, 0, []).value.st[p].queued
  {
    hide Inv, Refresh, LsqPart, Wf, OperandsReady;
    if p == s.rob[0] {
      OldestIsReady(s);
    } else {
      SecondIsReady(s);
      if s.st[p].kind != Load {
        NotLost(s, p);
      } else if !s.st[p].queued {
        assert Waiting(s.st[p]);
        FirstAccess(s, p);
        OldestLoadGoes(s);
      }
    }
  }

  lemma NotLost(s: State, p: nat)
    requires Inv(s) && InFlight(s, p) && OperandsReady(s.st[p]) && s.st[p].kind != Load
    ensures s.st[p].queued || s.st[p].issued
  {
    hide Layout, Statuses, ReadyOk, EventsOk, ChainsOk, PreciseCreators, SpecCreators, Branch, PoolOk, LoadsOk, OperandsReady;
  }

  /** The memory access of the oldest instruction is the oldest in the LSQ. */
  lemma FirstAccess(s: State, p: nat)
    requires Inv(s) && 2 <= |s.rob| && p == s.rob[1] && s.cfg.ruuSize <= p
    ensures 0 < |Lsq(s)| && Lsq(s)[0] == p
  {
    hide Inv, LsqPart, RuuPart, Wf;
    SomeRuu(s);
    var n := HeadFacts(s);
    PartsOfFront(s.rob, 2, s.cfg.ruuSize);
  }

  /** Before and after writeback and refresh of a cycle in which nothing was due. */
  ghost predicate Undisturbed(s: State, t: State) {
    t.st == s.st && t.rob == s.rob && t.cfg == s.cfg && t.eventQ == [] && t.busy == s.busy
  }

  lemma HoldsUpLater(s: State, t: State, p: nat)
    requires HoldsUp(s, p) && Undisturbed(s, t)
    ensures HoldsUp(t, p)
  {
  }

  /** With every unit idle, issue starts something if the station that holds up commit is not executing. */
  lemma IssueServes(s: State, t: State, env: Env, p: nat)
    requires Inv(s) && Wf(s) && Inv(t) && Issues(s, t, env) && SameLayout(s, t) && 0 < s.cfg.issueWidth
    requires p in s.rob && p < |s.st| && s.st[p].queued && forall m :: 0 <= m < |s.busy| ==> s.busy[m] == 0
    ensures Closer(s, t)
  {
    hide Inv, Wf, Issue, Static, NewlyIssued, Starved, Closer, Same;
    IssueMoves(s, env);
    if NewlyIssued(s, t) == {} {
      IssueIsGreedy(s, env);
      QueuedWaits(s, p);
      StaysQueued(s, t, env, p);
      assert InFlight(t, p);
      IdleServes(t, p);
      assert false;
    }
  }

  lemma QueuedWaits(s: State, p: nat)
    requires Inv(s) && p in s.rob && p < |s.st| && s.st[p].queued
    ensures !s.st[p].issued
  {
    hide Layout, ReadyOk, EventsOk, ChainsOk, PreciseCreators, SpecCreators, Branch, PoolOk, LoadsOk, NoneLost, OperandsReady;
    assert InFlight(s, p);
  }

  lemma StaysQueued(s: State, t: State, env: Env, p: nat)
    requires Issues(s, t, env) && p < |s.st| && s.st[p].queued && NewlyIssued(s, t) == {}
    ensures p < |t.st| && (t.st[p].queued || s.st[p].issued)
  {
    hide CfgOk, IssueLoop, Listed;
    StartsListed(s.(readyQ := []), s.readyQ, 0, env);
    assert p !in NewlyIssued(s, t);
  }

  /** When nothing is due, a cycle retires something or brings the core closer. */
  lemma QuietMoves(s: State, t: State, env: Env)
    requires Cycles(s, t, env) && Quiet(s) && s.rob != [] && 0 < s.cfg.issueWidth && 0 < s.cfg.commitWidth
    requires t.retired == s.retired
    ensures Closer(s, t)
  {
    hide Inv, Wf, Commit, Writeback, Refresh, Issue, Dispatch, SameLayout, Cycles, Closer, HoldsUp;
    hide Same, OnlyQueued, NewlyIssued, Quiet, Undisturbed, Fetches, Releases;
    CyclesFrom(s, t, env);
    var s1, s1', s2, s3, s4, s5 := CycleParts(s, t, env);
    CommitQuiet(s, s.cfg.commitWidth);
    ReleaseSame(s1, s1');
    WritebackMoves(s1');
    WritebackTakes(s1');
    InvSizes(s2);
    RefreshMoves(s2, s3);
    IssueMoves(s3, env);
    DispatchMoves(s4, s4.cfg.decodeWidth);
    FetchSame(s5, t, env);
    if !Closer(s1', s2) {
      UndisturbedNow(s, s1', s2);
      StartsSomething(s, s2, s3, s4, env);
    }
    MovesTrans(s1, s1', s2);
    MovesTrans(s1, s2, s3);
    MovesTrans(s1, s3, s4);
    MovesTrans(s1, s4, s5);
    MovesTrans(s1, s5, t);
  }

  lemma ReleaseSame(s: State, t: State)
    requires Inv(s) && Releases(s, t)
    ensures Inv(t) && Wf(t) && Same(s, t) && t.retired == s.retired && t.log == s.log
  {
    hide Inv, Wf;
    ReleaseIs(s);
    ReleaseStage(s);
    InvSizes(s);
  }

  lemma FetchSame(s: State, t: State, env: Env)
    requires Inv(s) && Fetches(s, t, env)
    ensures Same(s, t) && t.retired == s.retired && t.log == s.log
  {
    hide Inv;
    InvSizes(s);
  }

  /** Commit is held up and nothing completes: issue starts something. */
  lemma StartsSomething(s: State, s2: State, s3: State, s4: State, env: Env)
    requires Inv(s) && Wf(s) && Quiet(s) && s.rob != [] && 0 < s.cfg.issueWidth && 0 < s.cfg.commitWidth && Commits(s, s)
    requires Undisturbed(s, s2) && Sound(s, s2) && Refreshes(s2, s3) && Sound(s, s3) && OnlyQueued(s2, s3)
    requires Issues(s3, s4, env) && Sound(s, s4) && SameLayout(s3, s4)
    ensures Closer(s3, s4)
  {
    hide Inv, Wf, Commit, Refresh, Issue, SameLayout, Closer, HoldsUp;
    var p := CommitHeldUp(s);
    HoldsUpLater(s, s2, p);
    NotExecuting(s2, p);
    HeldUpQueued(s2, p);
    InPlace(s2, s3, p);
    IssueServes(s3, s4, env, p);
  }

  lemma UndisturbedNow(s: State, r: State, t: State)
    requires Quiet(s) && Releases(s, r) && t == r.(free := t.free, eventQ := t.eventQ) && Shorter(r.eventQ, t.eventQ)
    ensures Undisturbed(s, t)
  {
  }

  lemma NotExecuting(s: State, p: nat)
    requires Inv(s) && HoldsUp(s, p) && s.eventQ == []
    ensures !s.st[p].issued
  {
    hide Inv;
    if s.st[p].issued { ExecutingHasEvent(s, p); }
  }

  lemma InPlace(s: State, t: State, p: nat)
    requires HoldsUp(s, p) && OnlyQueued(s, t)
    ensures p in t.rob && p < |t.st| && t.cfg == s.cfg && t.busy == s.busy
  {
  }

  // ---- runs ----

  ghost predicate EnvsUpTo(envs: seq<Env>, L: nat) { forall i :: 0 <= i < |envs| ==> EnvUpTo(envs[i], L) }

  /** A run under the assumptions of this module. */
  ghost predicate Runs(s: State, envs: seq<Env>, L: nat) {
    && Inv(s) && Wf(s) && EnvsOk(s.cfg, envs) && EnvsUpTo(envs, L) && CfgUpTo(s.cfg, L) && Run(s, envs).Ok?
  }

  lemma RunsOn(s: State, envs: seq<Env>, L: nat)
    requires Runs(s, envs, L) && envs != []
    ensures Cycle(s, envs[0]).Ok?
    ensures var t := Cycle(s, envs[0]).value;
            && Cycles(s, t, envs[0]) && EnvUpTo(envs[0], L) && Runs(t, envs[1..], L) && t.cfg == s.cfg
            && Run(s, envs) == Run(t, envs[1..])
  {
    hide Inv, Cycle, EnvOk, EnvUpTo, CfgUpTo;
    CycleStage(s, envs[0]);
  }

  /** Whatever happens, history grows, and while nothing retires the core does not fall back. */
  lemma {:induction false} RunMoves(s: State, envs: seq<Env>, L: nat)
    requires Runs(s, envs, L)
    ensures var t := Run(s, envs).value;
            && s.retired <= t.retired && s.log <= t.log && Runs(t, [], L) && t.cfg == s.cfg
            && (t.retired == s.retired ==> Moves(s, t))
            && (Within(s, L) ==> Within(t, L))
    decreases |envs|
  {
    hide Inv, Wf, Cycle, Cycles, Closer, Within, CfgUpTo, EnvUpTo, Runs;
    RunsInv(s, envs, L);
    var t := Run(s, envs).value;
    if envs == [] {
      assert Same(s, s) by { InvSizes(s); }
    } else {
      RunsOn(s, envs, L);
      var u := Cycle(s, envs[0]).value;
      CycleMoves(s, u, envs[0]);
      RunMoves(u, envs[1..], L);
      if t.retired == s.retired { MovesTrans(s, u, t); }
      if Within(s, L) { CycleUpTo(s, u, envs[0], L); }
    }
  }

  lemma RunsInv(s: State, envs: seq<Env>, L: nat)
    requires Runs(s, envs, L)
    ensures Inv(s) && Wf(s) && CfgUpTo(s.cfg, L) && Run(s, envs).Ok? && Runs(s, [], L)
    ensures 0 < s.cfg.issueWidth && 0 < s.cfg.commitWidth
  {
    hide Inv, Wf;
  }

  /** While nothing retires something stays in flight. */
  lemma StaysInFlight(s: State, t: State)
    requires Inv(s) && s.rob != [] && Moves(s, t)
    ensures t.rob != []
  {
    hide Statuses, ReadyOk, EventsOk, ChainsOk, PreciseCreators, SpecCreators, PoolOk, LoadsOk, NoneLost, Layout, High, Low;
    InvSizes(s);
  }

  lemma FadesOn(s: State, t: State, r: int)
    requires Idles(s, t) && Within(s, r) && -1 <= r
    ensures Within(t, r - 1) && (r == 0 ==> t.eventQ == [])
    ensures r <= 0 ==> forall m :: 0 <= m < |t.busy| ==> t.busy[m] == 0
  {
    SomeMember(t.eventQ);
  }

  lemma SomeMember(q: seq<Link>)
    ensures q != [] ==> exists e :: e in q
  {
    if q != [] { assert q[0] in q; }
  }

  /** If everything is due within r cycles, r + 2 cycles bring a retirement or the core closer to one. */
  lemma {:induction false} SomethingMoves(s: State, envs: seq<Env>, r: int, L: nat)
    requires Runs(s, envs, L) && s.rob != [] && -1 <= r && Within(s, r) && (r == -1 ==> Quiet(s)) && |envs| >= r + 2
    requires Run(s, envs).value.retired == s.retired
    ensures Closer(s, Run(s, envs).value)
    decreases |envs|
  {
    hide Inv, Wf, Cycle, Cycles, Closer, Within, CfgUpTo, EnvUpTo, Runs, Idles, Quiet;
    RunsInv(s, envs, L);
    RunsOn(s, envs, L);
    var t, u := Run(s, envs).value, Cycle(s, envs[0]).value;
    CycleMoves(s, u, envs[0]);
    RunMoves(u, envs[1..], L);
    assert u.retired == s.retired;
    MovesTrans(s, u, t);
    if r == -1 {
      QuietMoves(s, u, envs[0]);
    } else if !Closer(s, u) {
      FadesOn(s, u, r);
      StaysInFlight(s, u);
      if r == 0 { assert Quiet(u) by { hide *; QuietNow(u); } }
      SomethingMoves(u, envs[1..], r - 1, L);
    }
  }

  lemma QuietNow(s: State)
    requires s.eventQ == [] && forall m :: 0 <= m < |s.busy| ==> s.busy[m] == 0
    ensures Quiet(s)
  {
  }

  // ---- the bound ----

  /** The two measures as one number. */
  ghost function Distance(s: State): int
    requires s.nspec <= |s.rob|
  {
    High(s) * (5 * |s.st| + 1) + Low(s)
  }

  lemma DistanceBound(s: State)
    requires Inv(s)
    ensures s.nspec <= |s.rob| && 0 <= High(s) <= 5 * |s.st| && 0 <= Low(s) <= 5 * |s.st|
    ensures 0 <= Distance(s) < (5 * |s.st| + 1) * (5 * |s.st| + 1)
  {
    hide Ranks, Inv;
    InvSizes(s);
    RobFits(s);
    RanksBound(s.st, s.rob[..s.nspec]);
    RanksBound(s.st, s.rob[s.nspec..]);
    Digits(High(s), Low(s), 5 * |s.st| + 1);
  }

  lemma Digits(h: int, l: int, k: int)
    requires 0 <= h < k && 0 <= l < k
    ensures 0 <= h * k + l < k * k
  {
    Monotone(0, h, k);
    Monotone(h, k - 1, k);
    assert (k - 1) * k == k * k - k;
  }

  lemma Monotone(a: int, b: int, k: int)
    requires a <= b && 0 <= k
    ensures a * k <= b * k
  {
    var d := b - a;
    assert d * k >= 0;
    assert (a + d) * k == a * k + d * k;
  }

  lemma RobFits(s: State)
    requires Inv(s)
    ensures |s.rob| <= |s.st|
  {
    hide Statuses, ReadyOk, EventsOk, ChainsOk, PreciseCreators, SpecCreators, Branch, PoolOk, LoadsOk, NoneLost;
    hide Paired, Kinds, Split, History, RuuPart, LsqPart, CfgOk;
    PartSizes(s.rob, s.cfg.ruuSize);
  }

  lemma CloserCounts(s: State, t: State)
    requires Inv(s) && Inv(t) && Closer(s, t)
    ensures s.nspec <= |s.rob| && t.nspec <= |t.rob| && Distance(t) < Distance(s)
  {
    hide Inv, High, Low;
    DistanceBound(s);
    DistanceBound(t);
    Smaller(High(t), Low(t), High(s), Low(s), 5 * |s.st| + 1);
  }

  lemma Smaller(h: int, l: int, h': int, l': int, k: int)
    requires 0 <= l < k && 0 <= l' < k && (h < h' || (h == h' && l < l'))
    ensures h * k + l < h' * k + l'
  {
    if h < h' {
      Monotone(h + 1, h', k);
      assert (h + 1) * k == h * k + k;
    }
  }

  lemma {:induction false} RunSplit(s: State, a: seq<Env>, b: seq<Env>)
    requires Wf(s)
    ensures Run(s, a + b) == if Run(s, a).Ok? && Wf(Run(s, a).value) then Run(Run(s, a).value, b) else Run(s, a)
    ensures Run(s, a).Ok? ==> Wf(Run(s, a).value)
    decreases |a|
  {
    hide Cycle, Wf;
    if a == [] {
      assert a + b == b;
    } else {
      assert (a + b)[0] == a[0] && (a + b)[1..] == a[1..] + b;
      if Cycle(s, a[0]).Ok? { RunSplit(Cycle(s, a[0]).value, a[1..], b); }
    }
  }

  lemma RunsSplit(s: State, envs: seq<Env>, k: nat, L: nat)
    requires Runs(s, envs, L) && k <= |envs|
    ensures Runs(s, envs[..k], L)
    ensures var t := Run(s, envs[..k]).value; Runs(t, envs[k..], L) && Run(s, envs) == Run(t, envs[k..])
  {
    hide Inv, Wf, Run, EnvOk, EnvUpTo, CfgUpTo;
    RunSplit(s, envs[..k], envs[k..]);
    assert envs[..k] + envs[k..] == envs;
    RunStage(s, envs[..k]);
  }

  /** The oldest instruction retires within so many windows of L + 2 cycles. */
  lemma {:induction false} RetiresBy(s: State, envs: seq<Env>, L: nat, n: nat)
    requires Runs(s, envs, L) && Within(s, L) && s.rob != [] && s.nspec <= |s.rob| && Distance(s) < n && |envs| >= n * (L + 2)
    ensures |Run(s, envs).value.retired| > |s.retired|
    decreases n
  {
    hide Inv, Wf, Run, Closer, Within, CfgUpTo, EnvUpTo, Runs, Distance;
    var w := L + 2;
    RunsInv(s, envs, L);
    DistanceBound(s);
    Windows(n, w, |envs|);
    RunsSplit(s, envs, w, L);
    RunsInv(s, envs[..w], L);
    var u := Run(s, envs[..w]).value;
    RunMoves(s, envs[..w], L);
    RunMoves(u, envs[w..], L);
    if u.retired == s.retired {
      SomethingMoves(s, envs[..w], L, L);
      RunsInv(u, envs[w..], L);
      CloserCounts(s, u);
      StaysInFlight(s, u);
      DistanceBound(u);
      RetiresBy(u, envs[w..], L, n - 1);
    }
  }

  lemma Windows(n: nat, w: nat, k: nat)
    requires 1 <= n && k >= n * w
    ensures w <= k && k - w >= (n - 1) * w
  {
    Monotone(0, n - 1, w);
    assert n * w == (n - 1) * w + w;
  }

  /** How many cycles the oldest instruction may take to retire, in a core with n stations and latencies up to L. */
  function Patience(n: nat, L: nat): nat { (5 * n + 1) * (5 * n + 1) * (L + 2) }

  /** From any reachable state, the oldest instruction retires within that many cycles. */
  lemma OldestRetires(s: State, envs: seq<Env>, L: nat)
    requires Runs(s, envs, L) && Within(s, L) && s.rob != [] && |envs| >= Patience(|s.st|, L)
    ensures s.rob[0] < |s.st|
    ensures var t := Run(s, envs).value; |t.retired| > |s.retired| && t.retired[|s.retired|] == s.st[s.rob[0]].seqno
  {
    hide Inv, Wf, Run, Within, Runs, Distance, Moves;
    RunsInv(s, envs, L);
    DistanceBound(s);
    RetiresBy(s, envs, L, (5 * |s.st| + 1) * (5 * |s.st| + 1));
    RunMoves(s, envs, L);
    var t := Run(s, envs).value;
    RunsInv(t, [], L);
    CommitIsInOrder(t);
    HeadIsNext(s);
  }

  /** The next to retire is the oldest in flight. */
  lemma HeadIsNext(s: State)
    requires Inv(s) && s.rob != []
    ensures s.rob[0] < |s.st| && |s.retired| < |s.log| && s.log[|s.retired|] == s.st[s.rob[0]].seqno
  {
    hide Inv, RuuPart;
    SomeRuu(s);
    var n := HeadFacts(s);
    CommitIsInOrder(s);
    FirstOnPath(s.rob, s.nspec, s.cfg.ruuSize);
  }

  lemma FirstOnPath(rob: seq<nat>, k: nat, r: nat)
    requires 0 < k <= |rob| && rob[0] < r
    ensures RuuPart(rob[..k], r) != [] && RuuPart(rob[..k], r)[0] == rob[0]
  {
    hide RuuPart, LsqPart;
    assert rob[..k] == [rob[0]] + rob[1..k];
    PartsOfConcat([rob[0]], rob[1..k], r);
    PartsOfOne(rob[0], r);
  }

  /** No instruction waits forever: in any run from power-up, what is oldest in flight after the first cycles has retired
      when the run goes on long enough, unless a fixed-size pool runs out. */
  lemma NothingWaitsForever(cfg: Config, before: seq<Env>, after: seq<Env>, L: nat)
    requires CfgOk(cfg) && CfgUpTo(cfg, L) && EnvsOk(cfg, before + after) && EnvsUpTo(before + after, L)
    requires |after| >= Patience(cfg.ruuSize + cfg.lsqSize, L)
    ensures Wf(Init(cfg))
    ensures Run(Init(cfg), before + after).Ok? ==>
              && Run(Init(cfg), before).Ok?
              && var s, t := Run(Init(cfg), before).value, Run(Init(cfg), before + after).value;
                 && s.retired <= t.retired
                 && (s.rob != [] ==> s.rob[0] < |s.st| && |s.retired| < |t.retired| && t.retired[|s.retired|] == s.st[s.rob[0]].seqno)
  {
    hide Inv, Wf, CfgOk, Run, Within, EnvOk, EnvUpTo, CfgUpTo, Runs, Init;
    InitInv(cfg);
    var z, envs := Init(cfg), before + after;
    InitWithin(cfg, L);
    if Run(z, envs).Ok? {
      assert Runs(z, envs, L) by { hide *; StartsRun(z, envs, L); }
      RunsSplit(z, envs, |before|, L);
      assert envs[..|before|] == before && envs[|before|..] == after;
      RunsInv(z, before, L);
      RunMoves(z, before, L);
      var s := Run(z, before).value;
      RunMoves(s, after, L);
      RunsInv(s, after, L);
      Sizes(s);
      if s.rob != [] { OldestRetires(s, after, L); }
    }
  }

  lemma StartsRun(s: State, envs: seq<Env>, L: nat)
    requires Inv(s) && Wf(s) && EnvsOk(s.cfg, envs) && EnvsUpTo(envs, L) && CfgUpTo(s.cfg, L) && Run(s, envs).Ok?
    ensures Runs(s, envs, L)
  {
  }

  lemma Sizes(s: State)
    requires Wf(s)
    ensures |s.st| == s.cfg.ruuSize + s.cfg.lsqSize
  {
  }

  lemma InitWithin(cfg: Config, L: nat)
    ensures Within(Init(cfg), L) && Init(cfg).cfg == cfg
  {
  }
}
