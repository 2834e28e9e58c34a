/** How much each stage does in a cycle: commit and issue use all the bandwidth they can, and with wrong-path
    execution off nothing speculative ever enters the core. */
module OooBandwidth {
  import opened OooState
  import opened OooLists
  import opened OooInvariant
  import opened OooFrames
  import opened OooCommit
  import opened OooDispatch
  import opened OooCycle
  import opened OooTheorems
  import opened OooTiming

  /** Every unit of the class is busy. */
  ghost predicate NoIdle(s: State, fu: nat)
    requires Wf(s)
  {
    fu < |s.cfg.table| && forall i :: 0 <= i < |s.cfg.table[fu]| ==> s.busy[s.cfg.table[fu][i].master] > 0
  }

  lemma NoneGranted(s: State, fu: nat)
    requires Wf(s)
    ensures ResGet(s, fu).Ok? && ResGet(s, fu).value.NoFu? ==> NoIdle(s, fu)
  {
  }

  // ---- commit ----

  /** The oldest instruction cannot retire now: there is none, it or its memory access is not complete, or it is
      a store and there is no port for it. */
  ghost predicate HeadWaits(s: State)
    requires Wf(s)
  {
    || s.ruuNum == 0
    || !s.st[s.ruuHead].completed
    || (s.st[s.ruuHead].eaComp
        && var x := s.st[s.cfg.ruuSize + s.lsqHead]; !x.completed || (x.kind == Store && NoIdle(s, x.fu)))
  }

  lemma MemWaits(s: State)
    requires Wf(s) && RetireMem(s).Ok?
    ensures RetireMem(s).value.s.retired == s.retired
    ensures !RetireMem(s).value.done ==>
              var x := s.st[s.cfg.ruuSize + s.lsqHead]; !x.completed || (x.kind == Store && NoIdle(s, x.fu))
  {
    hide ResGet, CfgOk, NoIdle;
    NoneGranted(s, s.st[s.cfg.ruuSize + s.lsqHead].fu);
  }

  lemma RetiresOne(s: State)
    requires Wf(s) && 0 < s.ruuNum
    ensures RetireRuu(s).Ok? ==> RetireRuu(s).value.retired == s.retired + [s.st[s.ruuHead].seqno]
  {
    hide CfgOk;
  }

  /** ruu_commit retires in order, at most as many instructions as its width, and fewer only if the next one
      cannot retire. */
  lemma {:induction false} CommitIsGreedy(s: State, budget: nat)
    requires Inv(s) && Wf(s)
    ensures Commit(s, budget).Ok?
    ensures var t := Commit(s, budget).value;
            && s.retired <= t.retired && |t.retired| <= |s.retired| + budget
            && (|t.retired| < |s.retired| + budget ==> HeadWaits(t))
    decreases s.ruuNum
  {
    hide Inv, RetireMem, RetireRuu, CfgOk, NoIdle;
    if s.ruuNum != 0 && budget != 0 && s.st[s.ruuHead].completed {
      CommitOne(s);
      if s.st[s.ruuHead].eaComp { MemWaits(s); }
      var m := if s.st[s.ruuHead].eaComp then RetireMem(s) else Ok(RetireResult(s, true));
      if m.value.done {
        RetiresOne(m.value.s);
        CommitIsGreedy(RetireRuu(m.value.s).value, budget - 1);
      }
    }
  }

  // ---- issue ----

  /** The stations that started executing between two states. */
  ghost function NewlyIssued(s: State, t: State): set<nat> {
    set p: nat | p < |s.st| && p < |t.st| && !s.st[p].issued && t.st[p].issued
  }

  /** Nothing but queueing and starting of the named station. */
  ghost predicate Progress(s: State, t: State) {
    && Wf(t) && t.cfg == s.cfg && |t.st| == |s.st|
    && (forall p :: 0 <= p < |s.st| ==> t.st[p].tag == s.st[p].tag && t.st[p].fu == s.st[p].fu)
    && (forall p :: 0 <= p < |s.st| && s.st[p].issued ==> t.st[p].issued)
    && (forall p :: 0 <= p < |s.st| && t.st[p].issued == s.st[p].issued ==> t.st[p].completed == s.st[p].completed)
    && (forall p :: 0 <= p < |s.st| && s.st[p].queued && !t.st[p].issued ==> t.st[p].queued)
    && (forall m :: 0 <= m < |s.busy| && s.busy[m] > 0 ==> m < |t.busy| && t.busy[m] > 0)
  }

  lemma ProgressTrans(s: State, t: State, u: State)
    requires Progress(s, t) && Progress(t, u)
    ensures Progress(s, u)
  {
    hide Wf;
  }

  /** It is waiting for a unit, and all of its class are busy. */
  ghost predicate Starved(s: State, p: nat)
    requires Wf(s)
  {
    p < |s.st| && s.st[p].fu != NA && NoIdle(s, s.st[p].fu)
  }

  lemma StaysStarved(s: State, t: State, p: nat)
    requires Wf(s) && Progress(s, t) && Starved(s, p)
    ensures Starved(t, p)
  {
  }

  lemma EnqueueMarks(s: State, p: nat)
    requires Wf(s) && p < |s.st| && Enqueue(s, p).Ok?
    ensures var t := Enqueue(s, p).value;
            && Wf(t) && t == s.(st := t.st, free := t.free, readyQ := t.readyQ)
            && t.st == s.st[p := s.st[p].(queued := true)]
  {
    hide CfgOk;
  }

  lemma QueueEventMarks(s: State, p: nat, when: nat)
    requires Wf(s) && p < |s.st| && QueueEvent(s, p, when).Ok?
    ensures var t := QueueEvent(s, p, when).value; Wf(t) && t == s.(free := t.free, eventQ := t.eventQ)
  {
    hide CfgOk;
  }

  /** What one live node leads to: its station starts, or stays queued for lack of a unit. */
  ghost predicate Outcome1(s: State, r: IssueResult, p: nat)
    requires p < |s.st|
  {
    && Progress(s, r.s)
    && (forall q :: 0 <= q < |s.st| && q != p ==> r.s.st[q] == s.st[q])
    && !s.st[p].issued
    && (r.issued ==> r.s.st[p].issued && !r.s.st[p].queued)
    && (!r.issued ==> !r.s.st[p].issued && Starved(r.s, p))
  }

  /** The station starts. */
  lemma StartsProgress(s: State, u: State, p: nat, done: bool)
    requires Wf(s) && Wf(u) && p < |s.st| && u.cfg == s.cfg && !s.st[p].issued
    requires u.st == s.st[p := s.st[p].(queued := false, issued := true, completed := done)]
    requires |u.busy| == |s.busy| && forall m :: 0 <= m < |s.busy| && s.busy[m] > 0 ==> u.busy[m] > 0
    ensures Outcome1(s, IssueResult(u, true), p)
  {
    hide Wf;
  }

  /** It stays queued. */
  lemma StaysProgress(s: State, u: State, p: nat)
    requires Wf(s) && Wf(u) && p < |s.st| && u.cfg == s.cfg && u.busy == s.busy && !s.st[p].issued
    requires s.st[p].fu != NA && NoIdle(s, s.st[p].fu)
    requires u.st == s.st[p := s.st[p].(queued := true)]
    ensures Outcome1(s, IssueResult(u, false), p)
  {
    hide CfgOk;
    assert Starved(s, p);
    assert Progress(s, u);
    StaysStarved(s, u, p);
  }

  /** u is s with station p changed and perhaps more units busy. */
  ghost predicate Changes(s: State, u: State, p: nat, x: Station) {
    && p < |s.st| && Wf(u) && u.cfg == s.cfg && u.st == s.st[p := x]
    && |u.busy| == |s.busy| && forall m :: 0 <= m < |s.busy| && s.busy[m] > 0 ==> u.busy[m] > 0
  }

  lemma StartOnChanges(s: State, p: nat, u: Template, env: Env)
    requires Wf(s) && p < |s.st| && u.master < |s.busy| && StartOn(s, p, u, env).Ok?
    ensures Changes(s, StartOn(s, p, u, env).value.s, p, s.st[p].(issued := true)) && StartOn(s, p, u, env).value.issued
  {
    hide Wf, QueueEvent, LoadLatency, Reserve;
    var s1 := Put(s, p, s.st[p].(issued := true));
    PutWf(s, p, s.st[p].(issued := true));
    ReserveIs(s1, u);
    var s2 := Reserve(s1, u).value;
    var x := s.st[p];
    var lat := if x.inLsq && x.kind == Load && s.cfg.ruuSize <= p then LoadLatency(s2, p, env) else u.oplat;
    QueueEventMarks(s2, p, s.cycle + lat);
  }

  lemma StartFreeChanges(s: State, p: nat)
    requires Wf(s) && p < |s.st| && StartFree(s, p).Ok?
    ensures Changes(s, StartFree(s, p).value.s, p, s.st[p].(issued := true)) && StartFree(s, p).value.issued
  {
    hide Wf, QueueEvent;
    var s1 := Put(s, p, s.st[p].(issued := true));
    PutWf(s, p, s.st[p].(issued := true));
    QueueEventMarks(s1, p, s.cycle + 1);
  }

  lemma FinishStoreChanges(s: State, p: nat)
    requires Wf(s) && p < |s.st| && FinishStore(s, p).Ok?
    ensures Changes(s, FinishStore(s, p).value.s, p, s.st[p].(issued := true, completed := true)) && FinishStore(s, p).value.issued
  {
    hide CfgOk;
  }

  lemma IssueOneProgress(s: State, p: nat, env: Env)
    requires Wf(s) && p < |s.st| && IssueOne(s, p, env).Ok?
    ensures Outcome1(s, IssueOne(s, p, env).value, p)
  {
    hide Wf, IssueOne, Outcome1;
    if s.st[p].inLsq && s.st[p].kind == Store {
      IssueStore(s, p, env);
    } else if s.st[p].fu == NA {
      IssueFree(s, p, env);
    } else {
      IssueOnUnit(s, p, env);
    }
  }

  lemma IssueStore(s: State, p: nat, env: Env)
    requires Wf(s) && p < |s.st| && IssueOne(s, p, env).Ok? && s.st[p].inLsq && s.st[p].kind == Store
    ensures Outcome1(s, IssueOne(s, p, env).value, p)
  {
    hide Wf, OperandsReady, Outcome1, FinishStore;
    var x := s.st[p];
    var s1 := Put(s, p, x.(queued := false));
    PutWf(s, p, x.(queued := false));
    FinishStoreChanges(s1, p);
    StartsProgress(s, IssueOne(s, p, env).value.s, p, true);
  }

  lemma IssueFree(s: State, p: nat, env: Env)
    requires Wf(s) && p < |s.st| && IssueOne(s, p, env).Ok? && !(s.st[p].inLsq && s.st[p].kind == Store) && s.st[p].fu == NA
    ensures Outcome1(s, IssueOne(s, p, env).value, p)
  {
    hide Wf, OperandsReady, Outcome1, StartFree;
    var x := s.st[p];
    var s1 := Put(s, p, x.(queued := false));
    PutWf(s, p, x.(queued := false));
    StartFreeChanges(s1, p);
    StartsProgress(s, IssueOne(s, p, env).value.s, p, x.completed);
  }

  lemma IssueOnUnit(s: State, p: nat, env: Env)
    requires Wf(s) && p < |s.st| && IssueOne(s, p, env).Ok? && !(s.st[p].inLsq && s.st[p].kind == Store) && s.st[p].fu != NA
    ensures Outcome1(s, IssueOne(s, p, env).value, p)
  {
    hide Wf, NoIdle, Enqueue, ResGet, OperandsReady, Outcome1, StartOn;
    var x := s.st[p];
    var s1 := Put(s, p, x.(queued := false));
    PutWf(s, p, x.(queued := false));
    var r := IssueOne(s, p, env).value;
    var fu := ResGet(s1, x.fu).value;
    if fu.Granted? {
      StartOnChanges(s1, p, fu.t, env);
      StartsProgress(s, r.s, p, x.completed);
    } else {
      NoneGranted(s1, x.fu);
      EnqueueMarks(s1, p);
      SameIdle(s, s1, x.fu);
      StaysProgress(s, r.s, p);
    }
  }

  lemma ReserveIs(s: State, u: Template)
    requires u.master < |s.busy| && Reserve(s, u).Ok?
    ensures var t := Reserve(s, u).value;
            t == s.(busy := t.busy) && |t.busy| == |s.busy| && forall m :: 0 <= m < |s.busy| && s.busy[m] > 0 ==> t.busy[m] > 0
  {
  }

  lemma SameIdle(s: State, t: State, fu: nat)
    requires Wf(s) && Wf(t) && t.cfg == s.cfg && t.busy == s.busy
    ensures NoIdle(s, fu) == NoIdle(t, fu)
  {
  }

  /** A live link of the list names p. */
  ghost predicate Listed(s: State, node: seq<Link>, p: nat) {
    p < |s.st| && exists j :: 0 <= j < |node| && node[j].rs == p && node[j].tag == s.st[p].tag
  }

  lemma ListedRest(s: State, t: State, node: seq<Link>, p: nat)
    requires node != [] && Listed(s, node, p) && p < |t.st| && t.st[p].tag == s.st[p].tag
    ensures (node[0].rs == p && node[0].tag == s.st[p].tag) || Listed(t, node[1..], p)
  {
    var j :| 0 <= j < |node| && node[j].rs == p && node[j].tag == s.st[p].tag;
    if j > 0 { assert node[1..][j - 1] == node[j]; }
  }

  /** Issue flags are as they were. */
  ghost predicate SameIssued(s: State, t: State) {
    |t.st| == |s.st| && forall p :: 0 <= p < |s.st| ==> t.st[p].issued == s.st[p].issued
  }

  lemma {:induction false} RequeueProgress(s: State, node: seq<Link>)
    requires Wf(s) && Requeue(s, node).Ok?
    ensures Progress(s, Requeue(s, node).value) && SameIssued(s, Requeue(s, node).value)
    decreases |node|
  {
    hide Wf, RequeueNode, Progress;
    if node == [] {
      assert Progress(s, s) by { hide *; ProgressRefl(s); }
    } else {
      var t := RequeueNode(s, node[0]).value;
      RequeueOneProgress(s, node[0]);
      RequeueProgress(t, node[1..]);
      ProgressTrans(s, t, Requeue(t, node[1..]).value);
    }
  }

  lemma ProgressRefl(s: State)
    requires Wf(s)
    ensures Progress(s, s)
  {
  }

  lemma RequeueOneProgress(s: State, n: Link)
    requires Wf(s) && RequeueNode(s, n).Ok?
    ensures Progress(s, RequeueNode(s, n).value) && SameIssued(s, RequeueNode(s, n).value)
  {
    hide CfgOk, Enqueue;
    if Valid(s, n) {
      EnqueueMarks(Put(s, n.rs, s.st[n.rs].(queued := false)), n.rs);
    }
  }

  /** The stations of `ids` that are queued are on the list or starved. */
  ghost predicate Accounted(s: State, node: seq<Link>, ids: set<nat>)
    requires Wf(s)
  {
    forall p :: p in ids && p < |s.st| && s.st[p].queued ==> Listed(s, node, p) || Starved(s, p)
  }

  /** One step of the first loop of ruu_issue. */
  lemma IssueStep(s: State, node: seq<Link>, ids: set<nat>, env: Env)
    requires Wf(s) && node != [] && Accounted(s, node, ids) && IssueNode(s, node[0], env).Ok?
    ensures var r := IssueNode(s, node[0], env).value;
            && Progress(s, r.s) && Accounted(r.s, node[1..], ids)
            && NewlyIssued(s, r.s) == if r.issued then {node[0].rs} else {}
  {
    hide Wf, NoIdle, IssueOne, Starved, Listed;
    var n := node[0];
    var r := IssueNode(s, n, env).value;
    if Valid(s, n) { IssueOneProgress(s, n.rs, env); StarvedAlone(IssueOne(s, n.rs, env).value.s, r.s, n.rs); }
    FreeProgress(s, r.s, n, env);
    forall p | p in ids && p < |r.s.st| && r.s.st[p].queued ensures Listed(r.s, node[1..], p) || Starved(r.s, p) {
      if Valid(s, n) && p == n.rs {
      } else {
        if Listed(s, node, p) { ListedRest(s, r.s, node, p); } else { StaysStarved(s, r.s, p); }
      }
    }
  }

  lemma StarvedAlone(s: State, t: State, p: nat)
    requires Wf(s) && Wf(t) && t.cfg == s.cfg && t.st == s.st && t.busy == s.busy
    ensures Starved(t, p) == Starved(s, p)
  {
  }

  lemma FreeProgress(s: State, t: State, n: Link, env: Env)
    requires Wf(s) && IssueNode(s, n, env).Ok? && IssueNode(s, n, env).value.s == t
    requires Valid(s, n) ==> IssueOne(s, n.rs, env).Ok? && Progress(s, IssueOne(s, n.rs, env).value.s)
    ensures Progress(s, t)
  {
    hide CfgOk, IssueOne;
  }

  lemma CountUnion(s: State, t: State, u: State)
    requires Progress(s, t) && Progress(t, u)
    ensures NewlyIssued(s, u) == NewlyIssued(s, t) + NewlyIssued(t, u) && NewlyIssued(s, t) !! NewlyIssued(t, u)
    ensures |NewlyIssued(s, u)| == |NewlyIssued(s, t)| + |NewlyIssued(t, u)|
  {
    hide Wf;
  }

  lemma NothingNew(s: State, t: State)
    requires |t.st| == |s.st| && forall p :: 0 <= p < |s.st| ==> t.st[p].issued == s.st[p].issued
    ensures NewlyIssued(s, t) == {}
  {
  }

  lemma {:induction false} IssueLoopGreedy(s: State, node: seq<Link>, n: nat, ids: set<nat>, env: Env)
    requires Wf(s) && n <= s.cfg.issueWidth && Accounted(s, node, ids) && IssueLoop(s, node, n, env).Ok?
    ensures var t := IssueLoop(s, node, n, env).value;
            && Progress(s, t) && n + |NewlyIssued(s, t)| <= s.cfg.issueWidth
            && (n + |NewlyIssued(s, t)| < s.cfg.issueWidth ==>
                  forall p :: p in ids && p < |t.st| && t.st[p].queued ==> Starved(t, p))
    decreases |node|
  {
    hide Wf, IssueNode, Requeue, Progress, NewlyIssued, Starved;
    var t := IssueLoop(s, node, n, env).value;
    if node == [] || n >= s.cfg.issueWidth {
      RequeueProgress(s, node);
      assert |t.st| == |s.st| by { SameSize(s, t); }
      NothingNew(s, t);
      if node == [] { assert t == s by { hide Requeue; RequeueNone(s); } }
    } else {
      var r := IssueNode(s, node[0], env).value;
      IssueStep(s, node, ids, env);
      SameSize(s, r.s);
      IssueLoopGreedy(r.s, node[1..], if r.issued then n + 1 else n, ids, env);
      ProgressTrans(s, r.s, t);
      CountUnion(s, r.s, t);
    }
  }

  lemma RequeueNone(s: State)
    requires Wf(s)
    ensures Requeue(s, []) == Ok(s)
  {
  }

  lemma SameSize(s: State, t: State)
    requires Progress(s, t)
    ensures |t.st| == |s.st| && t.cfg == s.cfg && Wf(t)
  {
  }

  lemma {:induction false} KeyListed(q: seq<Link>, k: Key)
    requires Keys(q)[k] > 0
    ensures exists j :: 0 <= j < |q| && q[j].rs == k.rs && q[j].tag == k.tag
  {
    if Key(q[0].rs, q[0].tag) != k {
      KeyListed(q[1..], k);
      var j :| 0 <= j < |q[1..]| && q[1..][j].rs == k.rs && q[1..][j].tag == k.tag;
      assert q[j + 1].rs == k.rs && q[j + 1].tag == k.tag;
    } else {
      assert q[0].rs == k.rs && q[0].tag == k.tag;
    }
  }

  ghost function InRob(s: State): set<nat> { set p | p in s.rob }

  lemma ReadyListed(s: State)
    requires Inv(s) && Wf(s)
    ensures var t := s.(readyQ := []); Wf(t) && Accounted(t, s.readyQ, InRob(s))
  {
    hide Layout, Statuses, EventsOk, ChainsOk, PreciseCreators, SpecCreators, Branch, PoolOk, LoadsOk, NoneLost, TagsOk, CfgOk;
    hide Starved, Keys;
    var t := s.(readyQ := []);
    forall p | p in s.rob && p < |s.st| && s.st[p].queued ensures Listed(t, s.readyQ, p) {
      assert InFlight(s, p);
      assert ReadyLinks(s, [])[Key(p, s.st[p].tag)] == 1;
      assert Keys([]) == multiset{} by { NoKeys(); }
      KeyListed(s.readyQ, Key(p, s.st[p].tag));
    }
  }

  lemma NoKeys()
    ensures Keys([]) == multiset{}
  {
  }

  /** ruu_issue starts at most as many operations as its width, and fewer only if every in-flight operation left on
      the ready queue finds all units of its class busy. */
  lemma IssueIsGreedy(s: State, env: Env)
    requires Inv(s) && Wf(s) && Issue(s, env).Ok?
    ensures Wf(Issue(s, env).value)
    ensures var t := Issue(s, env).value; var k := |NewlyIssued(s, t)|;
            && k <= s.cfg.issueWidth
            && (k < s.cfg.issueWidth ==> forall p :: p in s.rob && p < |t.st| && t.st[p].queued ==> Starved(t, p))
  {
    hide Inv, Wf, IssueLoop, Starved, Accounted;
    var t := Issue(s, env).value;
    var s0 := s.(readyQ := []);
    ReadyListed(s);
    IssueLoopGreedy(s0, s.readyQ, 0, InRob(s), env);
    assert NewlyIssued(s, t) == NewlyIssued(s0, t);
  }

  /** Station p started on unit u: the unit was idle and is now busy for its issue latency, and the result is due
      after its operation latency. */
  ghost predicate StartedOn(s: State, t: State, p: nat, u: Template) {
    && u.master < |s.busy| && p < |s.st|
    && s.busy[u.master] == 0 && t.busy == s.busy[u.master := u.issuelat]
    && Link(p, s.st[p].tag, s.cycle + u.oplat) in t.eventQ
  }

  /** An operation of the RUU that needs a unit and starts occupies exactly one of its class. */
  lemma TakesUnit(s: State, p: nat, env: Env)
    requires Wf(s) && p < |s.st| && IssueOne(s, p, env).Ok? && IssueOne(s, p, env).value.issued
    requires s.st[p].fu != NA && !s.st[p].inLsq
    ensures s.st[p].fu < |s.cfg.table|
    ensures exists u :: u in s.cfg.table[s.st[p].fu] && StartedOn(s, IssueOne(s, p, env).value.s, p, u)
  {
    hide LoadLatency, OperandsReady, Enqueue, Insert;
    var s1 := Put(s, p, s.st[p].(queued := false));
    var fu := ResGet(s1, s.st[p].fu).value;
    var row := s.cfg.table[s.st[p].fu];
    var i := FirstIdle(row, s.busy);
    assert fu == Granted(row[i]);
    var s2 := Reserve(Put(s1, p, s1.st[p].(issued := true)), fu.t).value;
    InsertMembers(s2.eventQ, Link(p, s.st[p].tag, s.cycle + fu.t.oplat));
    assert row[i] in row && StartedOn(s, IssueOne(s, p, env).value.s, p, row[i]);
  }

  // ---- wrong paths ----

  /** Nothing speculative is in flight. */
  ghost predicate Straight(s: State) { s.nspec == |s.rob| }

  lemma {:induction false} CommitStraight(s: State, budget: nat)
    requires Wf(s) && Straight(s) && Commit(s, budget).Ok?
    ensures Straight(Commit(s, budget).value)
    decreases s.ruuNum
  {
    hide CfgOk, RetireMem;
    if s.ruuNum != 0 && budget != 0 && s.st[s.ruuHead].completed {
      var m := if s.st[s.ruuHead].eaComp then RetireMem(s) else Ok(RetireResult(s, true));
      if s.st[s.ruuHead].eaComp { RetireMemPath(s); }
      if m.value.done { CommitStraight(RetireRuu(m.value.s).value, budget - 1); }
    }
  }

  lemma RetireMemPath(s: State)
    requires Wf(s) && RetireMem(s).Ok?
    ensures var t := RetireMem(s).value.s; t.rob == s.rob && t.nspec == s.nspec
  {
    hide CfgOk, ResGet;
  }

  lemma PreciseIsStraight(s: State)
    requires Inv(s)
    ensures !s.specMode ==> Straight(s)
  {
    hide Layout, Statuses, ReadyOk, EventsOk, ChainsOk, PreciseCreators, SpecCreators, PoolOk, LoadsOk, NoneLost;
  }

  lemma {:induction false} DispatchStraight(s: State, budget: nat)
    requires Inv(s) && Wf(s) && Straight(s) && !s.cfg.includeSpec && Dispatch(s, budget).Ok?
    ensures Straight(Dispatch(s, budget).value)
    decreases |s.ifq|
  {
    hide Inv, DispatchOne, Wf, InorderStall;
    if budget == 0 || s.ruuNum >= s.cfg.ruuSize || s.lsqNum >= s.cfg.lsqSize || s.ifq == []
       || (!s.cfg.includeSpec && s.specMode) || InorderStall(s) {
    } else {
      var i := s.ifq[0];
      if !(i.trap && s.ruuNum != 0) {
        DispatchOneStage(s);
        DispatchOneStraight(s);
        DispatchStraight(DispatchOne(s).value, if i.nop then budget else budget - 1);
      }
    }
  }

  lemma DispatchOneStraight(s: State)
    requires Supplied(s) && Straight(s) && !s.specMode && DispatchOne(s).Ok?
    ensures Straight(DispatchOne(s).value)
  {
    hide Inv, DispatchAlu, DispatchMem, Wf, InstOk, MayDispatch;
    SuppliedMay(s);
    var i := s.ifq[0];
    if i.nop {
    } else if i.kind == Alu {
      DispatchAluStage(s, i);
    } else {
      DispatchMemStage(s, i);
    }
    var r := if i.nop then Ok(s) else if i.kind == Alu then DispatchAlu(s, i) else DispatchMem(s, i);
    PreciseIsStraight(r.value);
  }

  lemma SamePlaces(s: State, t: State)
    requires SameLayout(s, t)
    ensures t.rob == s.rob && t.nspec == s.nspec
  {
  }

  lemma CycleStraight(s: State, t: State, env: Env)
    requires Cycles(s, t, env) && Straight(s) && !s.cfg.includeSpec
    ensures Straight(t)
  {
    hide Inv, Wf, Commit, Writeback, Refresh, Issue, Dispatch, SameLayout, Cycles;
    var s1, s1', s2, s3, s4, s5 := CycleParts(s, t, env);
    CommitStraight(s, s.cfg.commitWidth);
    PreciseIsStraight(s2);
    assert Straight(s2);
    SamePlaces(s3, s4);
    DispatchStraight(s4, s4.cfg.decodeWidth);
  }

  /** With wrong-path execution off, no reachable state has a speculative station in flight. */
  lemma {:induction false} NoWrongPath(s: State, envs: seq<Env>)
    requires Inv(s) && Wf(s) && EnvsOk(s.cfg, envs) && Straight(s) && !s.cfg.includeSpec && Run(s, envs).Ok?
    ensures var t := Run(s, envs).value; Straight(t) && forall i :: 0 <= i < |t.rob| ==> t.rob[i] < |t.st| && !t.st[t.rob[i]].spec
    decreases |envs|
  {
    hide Inv, Wf, Cycle, EnvOk;
    if envs == [] {
      StraightMeans(s);
    } else {
      CycleStage(s, envs[0]);
      CycleStraight(s, Cycle(s, envs[0]).value, envs[0]);
      NoWrongPath(Cycle(s, envs[0]).value, envs[1..]);
    }
  }

  lemma StraightMeans(s: State)
    requires Inv(s) && Straight(s)
    ensures forall i :: 0 <= i < |s.rob| ==> s.rob[i] < |s.st| && !s.st[s.rob[i]].spec
  {
    hide Statuses, ReadyOk, EventsOk, ChainsOk, PreciseCreators, SpecCreators, PoolOk, LoadsOk, NoneLost, Branch;
    hide RuuPart, LsqPart, Ring;
  }
}
