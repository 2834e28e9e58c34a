/** The whole cycle, and what it means for every run of the core. */
module OooCycle {
  import opened OooState
  import opened OooLists
  import opened OooInvariant
  import opened OooFrames
  import opened OooQueueSteps
  import opened OooCommit
  import opened OooStages
  import opened OooRefresh
  import opened OooIssue
  import opened OooDispatch

  // ---- dispatch ----

  lemma EnterSpecStage(s: State, p: nat, n: nat)
    requires Inv(s) && Wf(s) && !s.specMode && 1 <= n <= 2 && n <= |s.rob|
    requires s.rob[|s.rob| - n] == p && p < s.cfg.ruuSize && p < |s.st| && !s.st[p].completed
    requires n == 2 ==> s.rob[|s.rob| - 1] >= s.cfg.ruuSize
    ensures Inv(EnterSpec(s, p))
  {
    hide Statuses, ReadyOk, EventsOk, ChainsOk, PreciseCreators, LoadsOk, NoneLost, SpecCreators, Branch, PoolOk, Layout, Wf;
    var t := EnterSpec(s, p);
    assert Wf(t);
    EnterSpecLayout(s, t, p);
    EnterSpecQueues(s, t, p);
    EnterSpecChains(s, t, p);
    EnterSpecCreators(s, t, p);
    EnterSpecBranch(s, t, p, n);
  }

  ghost predicate Enters(s: State, t: State, p: nat) {
    p < |s.st| && t == Put(s, p, s.st[p].(recover := true)).(specMode := true) && Wf(t)
  }

  lemma EnterSpecLayout(s: State, t: State, p: nat)
    requires Layout(s) && Enters(s, t, p) && p < s.cfg.ruuSize
    ensures Layout(t)
  {
    hide Structure, Paired, Split, Kinds, History, Enters;
    EnterSpecStructure(s, t, p);
    EnterSpecPaired(s, t, p);
    EnterSpecSplit(s, t, p);
    EnterSpecKinds(s, t, p);
    EnterSpecHistory(s, t, p);
  }

  lemma EnterSpecStructure(s: State, t: State, p: nat)
    requires Structure(s) && Enters(s, t, p)
    ensures Structure(t)
  {
    hide RuuPart, LsqPart, Ring, CfgOk;
  }

  lemma EnterSpecPaired(s: State, t: State, p: nat)
    requires Structure(s) && Paired(s) && Enters(s, t, p) && Structure(t)
    ensures Paired(t)
  {
    hide RuuPart, LsqPart, Ring, Wf;
  }

  lemma EnterSpecSplit(s: State, t: State, p: nat)
    requires Structure(s) && Split(s) && Enters(s, t, p) && Structure(t)
    ensures Split(t)
  {
    hide RuuPart, LsqPart, Ring, Wf;
  }

  lemma EnterSpecKinds(s: State, t: State, p: nat)
    requires Kinds(s) && Enters(s, t, p) && p < s.cfg.ruuSize
    ensures Kinds(t)
  {
    hide FuOk, Wf;
    forall q: nat | InFlight(t, q) ensures KindOk(t.cfg, q, t.st[q]) {
      assert InFlight(s, q) && KindOk(s.cfg, q, s.st[q]);
    }
  }

  lemma EnterSpecHistory(s: State, t: State, p: nat)
    requires Structure(s) && Split(s) && History(s) && Structure(t) && Split(t) && Enters(s, t, p)
    ensures History(t)
  {
    hide RuuPart, LsqPart, Ring, CfgOk;
    CorrectPathInRange(s);
    CorrectPathInRange(t);
    var ids := RuuPart(s.rob[..s.nspec], s.cfg.ruuSize);
    assert SeqnosOf(s.st, ids) == SeqnosOf(t.st, ids);
  }

  lemma EnterSpecQueues(s: State, t: State, p: nat)
    requires Statuses(s) && ReadyOk(s, []) && EventsOk(s, {}) && NoneLost(s, {}) && PoolOk(s, 0) && LoadsOk(s)
    requires Enters(s, t, p)
    ensures Statuses(t) && ReadyOk(t, []) && EventsOk(t, {}) && NoneLost(t, {}) && PoolOk(t, 0) && LoadsOk(t)
  {
    hide Keys, Sorted, ChainLinks, Wf, LsqPart, MemReady, CfgOk;
    forall q: nat ensures InFlight(t, q) == InFlight(s, q) {}
    forall key ensures KeyOk(t, key) == KeyOk(s, key) {}
    ChainLinksFrame(s.st, t.st);
    var lq := LsqPart(s.rob, s.cfg.ruuSize);
    forall i | 0 <= i < |lq| && lq[i] < |t.st| && t.st[lq[i]].kind == Load && t.st[lq[i]].queued
      ensures MemReady(t.st, lq[..i], t.st[lq[i]].addr)
    {
      MemReadyFrame(s.st, t.st, lq[..i], t.st[lq[i]].addr);
    }
  }

  lemma EnterSpecChains(s: State, t: State, p: nat)
    requires ChainsOk(s, {}) && Enters(s, t, p)
    ensures ChainsOk(t, {})
  {
    hide Wf, OperandsReady;
    forall q: nat, k: nat | InFlight(t, q) && 0 <= k < 3 && !t.st[q].ready.Get(k) ensures Waits(t, {}, q, k) {
      assert InFlight(s, q) && Waits(s, {}, q, k);
    }
    forall c, o, l | OnChain(t, c, o, l) ensures ChainLinkOk(t, c, o, l) {
      assert OnChain(s, c, o, l) && ChainLinkOk(s, c, o, l);
    }
  }

  lemma EnterSpecCreators(s: State, t: State, p: nat)
    requires PreciseCreators(s, {}) && SpecCreators(s, {}) && Enters(s, t, p)
    ensures PreciseCreators(t, {}) && SpecCreators(t, {})
  {
    hide Writer, Wf;
    forall n: Reg
      ensures Writer(t.st, t.rob[..t.nspec], n) == Writer(s.st, s.rob[..s.nspec], n)
      ensures Writer(t.st, t.rob[t.nspec..], n) == Writer(s.st, s.rob[s.nspec..], n)
    {
      WriterFrame(s.st, t.st, s.rob[..s.nspec], n);
      WriterFrame(s.st, t.st, s.rob[s.nspec..], n);
    }
  }

  lemma EnterSpecBranch(s: State, t: State, p: nat, n: nat)
    requires Layout(s) && Branch(s) && Enters(s, t, p) && !s.specMode && 1 <= n <= 2 && n <= |s.rob|
    requires s.rob[|s.rob| - n] == p && p < s.cfg.ruuSize && !s.st[p].completed
    requires n == 2 ==> s.rob[|s.rob| - 1] >= s.cfg.ruuSize
    ensures Branch(t)
  {
    hide RuuPart, LsqPart, Ring, CfgOk, Kinds, Paired, History;
    forall i | 0 <= i < |t.rob| && i != |s.rob| - n ensures !Unresolved(t, t.rob[i]) {
      assert !Unresolved(s, s.rob[i]);
      assert s.rob[i] != p by {
        if i < |s.rob| - n { assert s.st[s.rob[i]].seqno < s.st[p].seqno; } else { assert s.st[p].seqno < s.st[s.rob[i]].seqno; }
      }
    }
  }

  lemma NextIfq(s: State, q: seq<Inst>)
    requires Inv(s) && forall i :: 0 <= i < |q| ==> InstOk(s.cfg, q[i])
    ensures Inv(s.(ifq := q)) && Wf(s.(ifq := q))
  {
    hide Statuses, ReadyOk, EventsOk, ChainsOk, PreciseCreators, LoadsOk, NoneLost, SpecCreators, Branch, PoolOk;
    hide Paired, Split, History, RuuPart, LsqPart, Ring, Kinds;
    IdlesKeepsMid(s, s.(ifq := q), IDLE);
  }

  ghost predicate Supplied(s: State) {
    Inv(s) && Wf(s) && s.ifq != [] && s.ruuNum < s.cfg.ruuSize && s.lsqNum < s.cfg.lsqSize
  }

  lemma SuppliedMay(s: State)
    requires Supplied(s)
    ensures InstOk(s.cfg, s.ifq[0]) && MayDispatch(s) && forall i :: 0 <= i < |s.ifq| ==> InstOk(s.cfg, s.ifq[i])
    ensures s.ruuTail < s.cfg.ruuSize && (!s.specMode ==> s.nspec == |s.rob|)
  {
    hide Statuses, ReadyOk, EventsOk, ChainsOk, PreciseCreators, LoadsOk, NoneLost, SpecCreators, PoolOk;
    hide Paired, Split, History, RuuPart, LsqPart, Ring;
  }

  /** One instruction through ruu_dispatch. */
  lemma DispatchOneStage(s: State)
    requires Supplied(s)
    ensures match DispatchOne(s)
            case Ok(t) => Inv(t) && t.cfg == s.cfg && t.cycle == s.cycle
            case Halt(why) => why == OutOfLinks
  {
    hide Inv, DispatchAlu, DispatchMem, EnterSpec, Wf, InstOk, MayDispatch;
    SuppliedMay(s);
    var i := s.ifq[0];
    NopRight(s, i);
    if i.nop {
    } else if i.kind == Alu {
      DispatchAluStage(s, i);
    } else {
      DispatchMemStage(s, i);
    }
    var r := if i.nop then Ok(s) else if i.kind == Alu then DispatchAlu(s, i) else DispatchMem(s, i);
    if r.Ok? {
      var q := if i.redirect then [] else s.ifq[1..];
      NextIfq(r.value, q);
      if !s.specMode && i.mispredicted && !i.redirect {
        EnterSpecStage(r.value.(ifq := q), s.ruuTail, if i.kind == Alu then 1 else 2);
        EnterKeeps(r.value.(ifq := q), s.ruuTail);
      }
    }
  }

  lemma NopRight(s: State, i: Inst)
    requires InstOk(s.cfg, i)
    ensures i.nop ==> !i.mispredicted
  {
  }

  lemma EnterKeeps(s: State, p: nat)
    requires Wf(s) && p < |s.st|
    ensures EnterSpec(s, p).cfg == s.cfg && EnterSpec(s, p).cycle == s.cycle
  {
  }

  /** A trapping instruction never finds the machine drained yet speculative. */
  lemma DrainedIsPrecise(s: State)
    requires Inv(s) && s.ruuNum == 0
    ensures !s.specMode
  {
    hide Statuses, ReadyOk, EventsOk, ChainsOk, PreciseCreators, LoadsOk, NoneLost, SpecCreators, PoolOk;
    hide Kinds, History, Structure;
    if s.rob != [] { InFlightMeansRuu(s); }
  }

  lemma InFlightMeansRuu(s: State)
    requires Structure(s) && Paired(s) && s.rob != []
    ensures 0 < s.ruuNum
  {
    hide RuuPart, LsqPart, CfgOk;
    PartMembers(s.rob, s.cfg.ruuSize);
    assert s.rob[0] in RuuPart(s.rob, s.cfg.ruuSize);
  }

  lemma {:induction false} DispatchStage(s: State, budget: nat)
    requires Inv(s) && Wf(s)
    ensures match Dispatch(s, budget)
            case Ok(t) => Inv(t) && t.cfg == s.cfg && t.cycle == s.cycle
            case Halt(why) => why == OutOfLinks
    decreases |s.ifq|
  {
    hide Inv, DispatchOne, Wf, InorderStall;
    if budget == 0 || s.ruuNum >= s.cfg.ruuSize || s.lsqNum >= s.cfg.lsqSize || s.ifq == []
       || (!s.cfg.includeSpec && s.specMode) || InorderStall(s) {
    } else {
      var i := s.ifq[0];
      if s.ruuNum == 0 { DrainedIsPrecise(s); }
      if !(i.trap && s.ruuNum != 0) {
        DispatchOneStage(s);
        if DispatchOne(s).Ok? { DispatchStage(DispatchOne(s).value, if i.nop then budget else budget - 1); }
      }
    }
  }

  // ---- the cycle ----

  lemma {:induction false} FewerMemoryOps(rob: seq<nat>, r: nat)
    requires forall i :: 0 <= i < |rob| && rob[i] >= r ==> 0 < i && rob[i - 1] < r
    ensures |LsqPart(rob, r)| <= |RuuPart(rob, r)|
    ensures rob != [] && rob[|rob| - 1] < r ==> |LsqPart(rob, r)| < |RuuPart(rob, r)|
  {
    if rob != [] {
      var rest := rob[..|rob| - 1];
      FewerMemoryOps(rest, r);
      assert rob[|rob| - 1] >= r ==> rest != [] && rest[|rest| - 1] < r;
    }
  }

  /** The three sanity checks at the top of the loop pass. */
  lemma SanityHolds(s: State)
    requires Inv(s)
    ensures s.lsqNum <= s.ruuNum && Wf(s)
    ensures (s.ruuHead + s.ruuNum) % s.cfg.ruuSize == s.ruuTail
    ensures (s.lsqHead + s.lsqNum) % s.cfg.lsqSize == s.lsqTail
  {
    hide Statuses, ReadyOk, EventsOk, ChainsOk, PreciseCreators, LoadsOk, NoneLost, SpecCreators, PoolOk, Branch;
    hide Kinds, History, Split, RuuPart, LsqPart, CfgOk;
    FewerMemoryOps(s.rob, s.cfg.ruuSize);
  }

  lemma ReleaseStage(s: State)
    requires Inv(s)
    ensures Inv(ReleaseFu(s)) && Wf(ReleaseFu(s))
  {
    hide Statuses, ReadyOk, EventsOk, ChainsOk, PreciseCreators, LoadsOk, NoneLost, SpecCreators, Branch, PoolOk;
    hide Paired, Split, History, RuuPart, LsqPart, Ring, CfgOk;
    IdlesKeepsMid(s, ReleaseFu(s), IDLE);
  }

  lemma ScanStart(s: State)
    requires Inv(s)
    ensures Wf(s) && Scanning(s, 0, [])
  {
    hide Statuses, ReadyOk, EventsOk, ChainsOk, PreciseCreators, LoadsOk, NoneLost, SpecCreators, Branch, PoolOk;
    hide Paired, Split, History, RuuPart, LsqPart, Kinds, CfgOk;
    LsqLength(s);
    assert Lsq(s)[..0] == [];
  }

  lemma FetchStage(s: State, env: Env)
    requires Inv(s) && EnvOk(s.cfg, env)
    ensures Inv(Fetch(s, env.fetched)) && Wf(Fetch(s, env.fetched))
  {
    hide Mid, InstOk;
    InvIfq(s);
    NextIfq(s, Fetch(s, env.fetched).ifq);
  }

  lemma TickStage(s: State)
    requires Inv(s)
    ensures Inv(s.(cycle := s.cycle + 1)) && Wf(s.(cycle := s.cycle + 1))
  {
    hide Statuses, ReadyOk, EventsOk, ChainsOk, PreciseCreators, LoadsOk, NoneLost, SpecCreators, Branch, PoolOk;
    hide Paired, Split, History, RuuPart, LsqPart, Ring;
    IdlesKeepsMid(s, s.(cycle := s.cycle + 1), IDLE);
  }

  /** One iteration of the main loop: either the invariant holds again, or a fixed-size pool ran out. */
  lemma CycleStage(s: State, env: Env)
    requires Inv(s) && Wf(s) && EnvOk(s.cfg, env)
    ensures match Cycle(s, env)
            case Ok(t) => Inv(t) && Wf(t) && t.cfg == s.cfg
            case Halt(why) => why == OutOfLinks || (why == StdOverflow && MAX_STD_UNKNOWNS < s.cfg.lsqSize)
  {
    hide Inv, Commit, Writeback, Refresh, Issue, Dispatch, ReleaseFu, Fetch, EnvOk, Scanning, Decided, Wf, OnlyQueued, SameLayout;
    SanityHolds(s);
    CommitStage(s, s.cfg.commitWidth);
    var s1 := Commit(s, s.cfg.commitWidth).value;
    ReleaseStage(s1);
    ReleaseKeeps(s1);
    WritebackStage(ReleaseFu(s1));
    if Writeback(ReleaseFu(s1)).Ok? {
      CycleRest(Writeback(ReleaseFu(s1)).value, env);
    }
  }

  lemma ReleaseKeeps(s: State)
    ensures ReleaseFu(s).cfg == s.cfg
  {
  }

  lemma CycleRest(s2: State, env: Env)
    requires Inv(s2) && Wf(s2) && EnvOk(s2.cfg, env)
    ensures match Refresh(s2, 0, [])
            case Halt(why) => why == OutOfLinks || (why == StdOverflow && MAX_STD_UNKNOWNS < s2.cfg.lsqSize)
            case Ok(s3) =>
              Wf(s3) && match Issue(s3, env)
              case Halt(why) => why == OutOfLinks
              case Ok(s4) =>
                Wf(s4) && match Dispatch(s4, s4.cfg.decodeWidth)
                case Halt(why) => why == OutOfLinks
                case Ok(s5) =>
                  var s6 := Fetch(s5, env.fetched); var t := s6.(cycle := s6.cycle + 1);
                  Inv(t) && Wf(t) && t.cfg == s2.cfg
  {
    hide Inv, Refresh, Issue, Dispatch, Fetch, EnvOk, Scanning, Decided, Wf;
    ScanStart(s2);
    RefreshStage(s2, 0, []);
    LsqBound(s2);
    if Refresh(s2, 0, []).Ok? {
      var s3 := Refresh(s2, 0, []).value;
      InvIfq(s3);
      IssueStage(s3, env);
      if Issue(s3, env).Ok? {
        var s4 := Issue(s3, env).value;
        InvIfq(s4);
        DispatchStage(s4, s4.cfg.decodeWidth);
        if Dispatch(s4, s4.cfg.decodeWidth).Ok? {
          var s5 := Dispatch(s4, s4.cfg.decodeWidth).value;
          FetchStage(s5, env);
          FetchKeeps(s5, env.fetched);
          TickStage(Fetch(s5, env.fetched));
        }
      }
    }
  }

  lemma FetchKeeps(s: State, fetched: seq<Inst>)
    ensures Fetch(s, fetched).cfg == s.cfg
  {
  }

  lemma LsqBound(s: State)
    requires Inv(s)
    ensures s.lsqNum <= s.cfg.lsqSize
  {
    hide Statuses, ReadyOk, EventsOk, ChainsOk, PreciseCreators, LoadsOk, NoneLost, SpecCreators, PoolOk, Branch;
    hide Kinds, History, Split, Paired, RuuPart, LsqPart, Ring, Wf;
  }
}
