/** ruu_issue: no panic, the invariant is kept, and a load forwards from the store it depends on. */
module OooIssue {
  import opened Arith
  import opened OooState
  import opened OooLists
  import opened OooInvariant
  import opened OooFrames
  import opened OooQueueSteps
  import opened OooCompletion
  import opened OooRefresh

  lemma LatencyPositive(s: State, p: nat, env: Env)
    requires Wf(s) && s.cfg.ruuSize <= p < |s.st| && EnvOk(s.cfg, env)
    ensures 1 <= LoadLatency(s, p, env)
  {
    hide ScanBack, LsqPos;
  }

  /** A queued load may be queued again. */
  lemma QueuedMayQueue(s: State, t: State, p: nat, w: Work)
    requires Mid(s, w) && InFlight(s, p) && s.st[p].queued && SameLayout(s, t)
    requires forall q :: 0 <= q < |s.st| ==> t.st[q].ready == s.st[q].ready
    ensures LoadMayQueue(t, p)
  {
    hide Layout, Statuses, ReadyOk, EventsOk, ChainsOk, PreciseCreators, SpecCreators, Branch, PoolOk, NoneLost;
    hide MemReady, LsqPart, OperandsReady;
    SameFields(s, t);
    var lq := LsqPart(s.rob, s.cfg.ruuSize);
    forall i | 0 <= i < |lq| && lq[i] == p && t.st[p].kind == Load ensures MemReady(t.st, lq[..i], t.st[p].addr) {
      MemReadyFrame(s.st, t.st, lq[..i], t.st[p].addr);
    }
  }

  /** The outcome every way of handling one detached node must have. */
  ghost predicate Handled(s: State, t: State, w: Work)
    requires w.local != []
  {
    Mid(t, w.(local := w.local[1..], held := w.held + 1)) && SameLayout(s, t)
  }

  ghost predicate Plain(w: Work) {
    w.local != [] && w.open == {} && w.due == {} && w.drain == {} && w.shown == {}
  }

  lemma LayoutTrans(s: State, t: State, u: State)
    requires SameLayout(s, t) && SameLayout(t, u)
    ensures SameLayout(s, u)
  {
    hide Static, Wf;
    forall p | 0 <= p < |s.st| ensures Static(u.st[p]) == Static(s.st[p]) {}
  }

  ghost function Unqueued(s: State, p: nat): State
    requires p < |s.st|
  {
    Put(s, p, s.st[p].(queued := false))
  }

  /** Taking up a live node: its station is unqueued and could execute or queue again. */
  lemma TakeLive(s: State, w: Work, p: nat)
    requires Mid(s, w) && Plain(w) && Valid(s, w.local[0]) && w.local[0].rs == p
    ensures p < |s.st| && s.st[p].queued && OperandsReady(s.st[p]) && !s.st[p].issued && !s.st[p].completed
    ensures KindOk(s.cfg, p, s.st[p]) && InFlight(s, p)
    ensures var t := Unqueued(s, p);
            && Mid(t, Taken(s, w)) && SameLayout(s, t) && InFlight(t, p) && LoadMayQueue(t, p)
            && Taken(s, w) == w.(local := w.local[1..], held := w.held + 1, open := {p})
    ensures OperandsReady(Unqueued(s, p).st[p])
  {
    hide Mid, SameLayout, LoadMayQueue, KindOk;
    LiveNodeIsReady(s, w);
    assert Takes(s, Unqueued(s, p), w.local);
    TakesKeepsMid(s, Unqueued(s, p), w);
    QueuedMayQueue(s, Unqueued(s, p), p, w);
  }

  /** Back onto the ready queue for lack of a unit or of bandwidth. */
  lemma Requeues(s: State, w: Work, p: nat)
    requires Mid(s, w) && Plain(w) && Valid(s, w.local[0]) && w.local[0].rs == p && p < |s.st|
    ensures match Enqueue(Unqueued(s, p), p)
            case Ok(u) => Handled(s, u, w)
            case Halt(why) => why == OutOfLinks
  {
    hide Mid, SameLayout, OperandsReady, LoadMayQueue, KindOk, Enqueue, Keys;
    TakeLive(s, w, p);
    var t := Unqueued(s, p);
    EnqueueEffect(t, p);
    if Enqueue(t, p).Ok? {
      var u := Enqueue(t, p).value;
      QueuesKeepsMid(t, u, p, Taken(s, w));
      assert Taken(s, w).(open := Taken(s, w).open - {p}) == w.(local := w.local[1..], held := w.held + 1);
      LayoutTrans(s, t, u);
    }
  }

  ghost function Started(s: State, p: nat): State
    requires p < |s.st|
  {
    var t := Unqueued(s, p);
    Put(t, p, t.st[p].(issued := true))
  }

  /** Starting execution, possibly on a reserved unit. */
  lemma Starts(s: State, w: Work, p: nat, busy: seq<nat>, when: nat)
    requires Mid(s, w) && Plain(w) && Valid(s, w.local[0]) && w.local[0].rs == p && p < |s.st|
    requires |busy| == |s.busy| && s.cycle < when
    ensures match QueueEvent(Started(s, p).(busy := busy), p, when)
            case Ok(u) => Handled(s, u, w)
            case Halt(why) => why == OutOfLinks
  {
    hide Mid, SameLayout, OperandsReady, LoadMayQueue, KindOk, QueueEvent, Keys, Sorted;
    TakeLive(s, w, p);
    var t := Unqueued(s, p);
    var v := Started(s, p).(busy := busy);
    QueueEventEffect(v, p, when);
    if QueueEvent(v, p, when).Ok? {
      var u := QueueEvent(v, p, when).value;
      assert Executes(t, u, p);
      ExecutesKeepsMid(t, u, p, Taken(s, w));
      assert Taken(s, w).(open := Taken(s, w).open - {p}) == w.(local := w.local[1..], held := w.held + 1);
      LayoutTrans(s, t, u);
    }
  }

  /** A store completes at once: it has no result to broadcast. */
  lemma StoreCompletes(s: State, w: Work, p: nat)
    requires Mid(s, w) && Plain(w) && Valid(s, w.local[0]) && w.local[0].rs == p && p < |s.st| && s.st[p].kind == Store
    ensures s.st[p].onames == Two(NA, NA) && !s.st[p].recover
    ensures var t := Unqueued(s, p); Handled(s, Put(t, p, t.st[p].(issued := true, completed := true)), w)
  {
    hide Base, SpecCreators, Branch, SameLayout, OperandsReady, LoadMayQueue;
    TakeLive(s, w, p);
    var t := Unqueued(s, p);
    var u := Put(t, p, t.st[p].(issued := true, completed := true));
    assert Completes(t, u, p);
    var w1 := Taken(s, w);
    CompletesKeepsBase(t, u, p, w1);
    var w2 := Draining(w1, p);
    SkipSlot(u, w2, p, 0);
    var w3 := w2.(drain := w2.drain - {Slot(p, 0)}, shown := w2.shown - {Slot(p, 0)});
    SkipSlot(u, w3, p, 1);
    assert w3.(drain := w3.drain - {Slot(p, 1)}, shown := w3.shown - {Slot(p, 1)})
        == w.(local := w.local[1..], held := w.held + 1);
    LayoutTrans(s, t, u);
  }

  lemma IssueOneStage(s: State, w: Work, p: nat, env: Env)
    requires Mid(s, w) && Plain(w) && Valid(s, w.local[0]) && w.local[0].rs == p && p < |s.st| && Wf(s)
    requires EnvOk(s.cfg, env)
    ensures match IssueOne(s, p, env)
            case Ok(r) => Handled(s, r.s, w)
            case Halt(why) => why == OutOfLinks
  {
    hide Mid, SameLayout, OperandsReady, LoadMayQueue, Enqueue, QueueEvent, LoadLatency, FirstIdle, Handled, EnvOk;
    TakeLive(s, w, p);
    var x := s.st[p];
    if x.kind == Store {
      StoreCompletes(s, w, p);
    } else if x.fu == NA {
      Starts(s, w, p, s.busy, s.cycle + 1);
    } else {
      Requeues(s, w, p);
      IssueOnUnit(s, w, p, env);
    }
  }

  lemma IssueOnUnit(s: State, w: Work, p: nat, env: Env)
    requires Mid(s, w) && Plain(w) && Valid(s, w.local[0]) && w.local[0].rs == p && p < |s.st| && Wf(s)
    requires EnvOk(s.cfg, env) && s.st[p].fu != NA && s.st[p].kind != Store && FuOk(s.cfg, s.st[p].fu)
    ensures var fu := ResGet(Unqueued(s, p), s.st[p].fu);
            fu.Ok? && (fu.value.Granted? ==>
              && Reserve(Started(s, p), fu.value.t).Ok?
              && var s2 := Reserve(Started(s, p), fu.value.t).value;
                 var lat := if s.st[p].inLsq && s.st[p].kind == Load && s.cfg.ruuSize <= p
                            then LoadLatency(s2, p, env) else fu.value.t.oplat;
                 match QueueEvent(s2, p, s.cycle + lat)
                 case Ok(u) => Handled(s, u, w)
                 case Halt(why) => why == OutOfLinks)
  {
    hide Mid, SameLayout, OperandsReady, QueueEvent, LoadLatency, Handled, EnvOk;
    var fu := ResGet(Unqueued(s, p), s.st[p].fu);
    if fu.value.Granted? {
      var s2 := Reserve(Started(s, p), fu.value.t).value;
      var lat := if s.st[p].inLsq && s.st[p].kind == Load && s.cfg.ruuSize <= p
                 then LoadLatency(s2, p, env) else fu.value.t.oplat;
      assert 1 <= lat by { if s.cfg.ruuSize <= p { LatencyPositive(s2, p, env); } }
      Starts(s, w, p, s2.busy, s.cycle + lat);
    }
  }

  lemma DropStale(s: State, w: Work)
    requires Mid(s, w) && Plain(w) && !Valid(s, w.local[0])
    ensures Handled(s, s, w)
  {
    hide Mid, OperandsReady;
    assert Takes(s, s, w.local);
    TakesKeepsMid(s, s, w);
    assert Taken(s, w) == w.(local := w.local[1..], held := w.held + 1);
  }

  lemma FreeNode(s: State, t: State, w: Work)
    requires w.local != [] && Handled(s, t, w)
    ensures Mid(t.(free := t.free + 1), w.(local := w.local[1..])) && SameLayout(s, t.(free := t.free + 1))
  {
    hide Mid;
    var w1 := w.(local := w.local[1..], held := w.held + 1);
    FreeKeepsMid(t, w1);
    assert w1.(held := w1.held - 1) == w.(local := w.local[1..]);
  }

  lemma {:induction false} RequeueStage(s: State, node: seq<Link>)
    requires Mid(s, IDLE.(local := node)) && Wf(s)
    ensures match Requeue(s, node)
            case Ok(t) => Inv(t) && SameLayout(s, t)
            case Halt(why) => why == OutOfLinks
    decreases |node|
  {
    hide Mid, SameLayout, Enqueue, Handled, OperandsReady;
    var w := IDLE.(local := node);
    if node == [] {
      Unchanged(s);
    } else {
      if Valid(s, node[0]) { Requeues(s, w, node[0].rs); } else { DropStale(s, w); }
      var r := if Valid(s, node[0]) then Enqueue(Unqueued(s, node[0].rs), node[0].rs) else Ok(s);
      if r.Ok? {
        FreeNode(s, r.value, w);
        var t := r.value.(free := r.value.free + 1);
        RequeueStage(t, node[1..]);
        if Requeue(t, node[1..]).Ok? { LayoutTrans(s, t, Requeue(t, node[1..]).value); }
      }
    }
  }

  lemma Unchanged(s: State)
    requires Wf(s)
    ensures SameLayout(s, s)
  {
  }

  lemma {:induction false} IssueLoopStage(s: State, node: seq<Link>, n: nat, env: Env)
    requires Mid(s, IDLE.(local := node)) && Wf(s) && EnvOk(s.cfg, env)
    ensures match IssueLoop(s, node, n, env)
            case Ok(t) => Inv(t) && SameLayout(s, t)
            case Halt(why) => why == OutOfLinks
    decreases |node|
  {
    hide Mid, Enqueue, Handled, OperandsReady, Requeue, IssueOne, EnvOk, Static, CfgOk;
    var w := IDLE.(local := node);
    if node == [] || n >= s.cfg.issueWidth {
      RequeueStage(s, node);
    } else {
      if Valid(s, node[0]) { IssueOneStage(s, w, node[0].rs, env); } else { DropStale(s, w); }
      var r := if Valid(s, node[0]) then IssueOne(s, node[0].rs, env) else Ok(IssueResult(s, false));
      if r.Ok? {
        FreeNode(s, r.value.s, w);
        var t := r.value.s.(free := r.value.s.free + 1);
        var m := if r.value.issued then n + 1 else n;
        IssueLoopStage(t, node[1..], m, env);
        if IssueLoop(t, node[1..], m, env).Ok? { LayoutTrans(s, t, IssueLoop(t, node[1..], m, env).value); }
      }
    }
  }

  /** Detaching the ready list. */
  lemma Detach(s: State)
    requires Inv(s)
    ensures Mid(s.(readyQ := []), IDLE.(local := s.readyQ)) && SameLayout(s, s.(readyQ := []))
  {
    hide Layout, Statuses, EventsOk, ChainsOk, PreciseCreators, LoadsOk, NoneLost, SpecCreators, Branch;
    var t := s.(readyQ := []);
    LayoutGives(s);
    assert SameLayout(s, t);
    LayoutFrame(s, t);
    DetachQueues(s, t);
    ChainsFrame(s, t, {});
    CreatorsFrame(s, t, {});
    LoadsFrame(s, t);
    BranchFrame(s, t);
  }

  lemma DetachQueues(s: State, t: State)
    requires Statuses(s) && ReadyOk(s, []) && EventsOk(s, {}) && NoneLost(s, {}) && t == s.(readyQ := [])
    ensures Statuses(t) && ReadyOk(t, s.readyQ) && EventsOk(t, {}) && NoneLost(t, {})
  {
    hide OperandsReady, Sorted;
    assert ReadyLinks(t, s.readyQ) == ReadyLinks(s, []);
    forall p: nat ensures InFlight(t, p) == InFlight(s, p) {}
    forall key ensures KeyOk(t, key) == KeyOk(s, key) {}
  }

  /** ruu_issue */
  lemma IssueStage(s: State, env: Env)
    requires Inv(s) && Wf(s) && EnvOk(s.cfg, env)
    ensures match Issue(s, env)
            case Ok(t) => Inv(t) && SameLayout(s, t)
            case Halt(why) => why == OutOfLinks
  {
    hide Mid, IssueLoop, EnvOk, Static, CfgOk;
    Detach(s);
    var t := s.(readyQ := []);
    IssueLoopStage(t, s.readyQ, 0, env);
    if Issue(s, env).Ok? { LayoutTrans(s, t, Issue(s, env).value); }
  }

  // ---- store-to-load forwarding ----

  /** The backward scan finds exactly the youngest older store to the address. */
  lemma {:induction false} ScanFindsYoungest(s: State, i: nat, addr: nat)
    requires Wf(s) && i <= |Lsq(s)| && forall j :: 0 <= j < |Lsq(s)| ==> Lsq(s)[j] == LsqAt(s, j)
    ensures ScanBack(s, i, addr) == YoungestStore(s.st, Lsq(s)[..i], addr)
  {
    hide LsqPart, LsqAt;
    if i > 0 {
      var older := Lsq(s)[..i];
      assert older[..|older| - 1] == Lsq(s)[..i - 1];
      ScanFindsYoungest(s, i - 1, addr);
    }
  }

  /** A station's position in the LSQ, recovered from its index. */
  lemma LsqPosOf(s: State, i: nat)
    requires Wf(s) && i < s.lsqNum <= s.cfg.lsqSize
    ensures LsqPos(s, LsqAt(s, i)) == i
  {
    hide CfgOk;
    var n, h := s.cfg.lsqSize, s.lsqHead;
    if h + i < n {
      DivModUnique(h + i, 0, h + i, n);
      DivModUnique(h + i + n - h, 1, i, n);
    } else {
      DivModUnique(h + i, 1, h + i - n, n);
      DivModUnique(h + i - n + n - h, 0, i, n);
    }
  }

  /** When ruu_issue takes up a load, every older store knows its address, and if an older store matches,
      the scan finds the youngest such store and its data is known. */
  lemma LoadForwardsRightStore(s: State, w: Work, i: nat)
    requires Mid(s, w) && Wf(s) && i < s.lsqNum && i < |Lsq(s)| && Lsq(s)[i] < |s.st|
    requires s.st[Lsq(s)[i]].kind == Load && s.st[Lsq(s)[i]].queued
    ensures Lsq(s)[i] == LsqAt(s, i) && AddressesKnown(s.st, Lsq(s)[..i])
    ensures var p := Lsq(s)[i]; var y := ScanBack(s, LsqPos(s, p), s.st[p].addr);
            && y == YoungestStore(s.st, Lsq(s)[..i], s.st[p].addr)
            && (y >= 0 ==> Lsq(s)[y] < |s.st| && OperandsReady(s.st[Lsq(s)[y]]))
  {
    hide Statuses, ReadyOk, EventsOk, ChainsOk, PreciseCreators, SpecCreators, Branch, PoolOk, NoneLost;
    hide LsqPart, CfgOk, YoungestStore, OperandsReady, Layout;
    LsqLength(s);
    LsqEntry(s, i);
    forall j | 0 <= j < |Lsq(s)| ensures Lsq(s)[j] == LsqAt(s, j) { LsqEntry(s, j); }
    assert s.lsqNum <= s.cfg.lsqSize by { LsqFits(s); }
    LsqPosOf(s, i);
    ScanFindsYoungest(s, i, s.st[Lsq(s)[i]].addr);
  }

  /** How long a load that is taken up executes: a cycle if any older store goes to its address, else as long as the
      data cache takes, but never less than the TLB. */
  lemma LoadTakes(s: State, w: Work, i: nat, env: Env)
    requires Mid(s, w) && Wf(s) && i < s.lsqNum && i < |Lsq(s)| && Lsq(s)[i] < |s.st| && s.cfg.ruuSize <= Lsq(s)[i]
    requires s.st[Lsq(s)[i]].kind == Load && s.st[Lsq(s)[i]].queued
    ensures var p := Lsq(s)[i]; var x := s.st[p]; var lat := LoadLatency(s, p, env);
            && lat >= env.tlbLat(x.seqno)
            && ((exists j :: 0 <= j < i && IsStoreTo(s.st, Lsq(s)[j], x.addr)) ==> lat == 1 || lat == env.tlbLat(x.seqno))
            && ((forall j :: 0 <= j < i ==> !IsStoreTo(s.st, Lsq(s)[j], x.addr)) ==>
                  lat >= env.cacheLat(x.seqno) && (lat == env.cacheLat(x.seqno) || lat == env.tlbLat(x.seqno)))
  {
    hide Mid, LsqPart, CfgOk, Wf, OperandsReady, ScanBack, LsqPos, IsStoreTo;
    LoadForwardsRightStore(s, w, i);
    var older := Lsq(s)[..i];
    forall j | 0 <= j < i && IsStoreTo(s.st, Lsq(s)[j], s.st[Lsq(s)[i]].addr)
      ensures IsStoreTo(s.st, older[j], s.st[Lsq(s)[i]].addr)
    {
    }
  }

  lemma LsqFits(s: State)
    requires Layout(s)
    ensures s.lsqNum <= s.cfg.lsqSize
  {
  }
}
