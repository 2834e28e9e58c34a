/** How far the core is from retiring its oldest instruction: a measure that no stage but commit makes larger, and that
    gets smaller whenever anything is dispatched, starts or completes. */
module OooRanks {
  import opened OooState
  import opened OooLists
  import opened OooInvariant
  import opened OooFrames
  import opened OooCompletion
  import opened OooRecovery
  import opened OooStages
  import opened OooRefresh
  import opened OooCommit
  import opened OooAlloc
  import opened OooDispatch
  import opened OooCycle
  import opened OooTiming
  import opened OooBandwidth

  /** What a station still has to do: start and complete. */
  function Rank(x: Station): nat { if !x.issued then 2 else if !x.completed then 1 else 0 }

  ghost function Ranks(st: seq<Station>, q: seq<nat>): nat {
    if q == [] then 0
    else Ranks(st, q[..|q| - 1]) + if q[|q| - 1] < |st| then Rank(st[q[|q| - 1]]) else 0
  }

  /** Work and room on the correct path, and behind it. */
  ghost function High(s: State): int
    requires s.nspec <= |s.rob|
  {
    3 * (|s.st| - s.nspec) + Ranks(s.st, s.rob[..s.nspec])
  }

  ghost function Low(s: State): int
    requires s.nspec <= |s.rob|
  {
    3 * (|s.st| - |s.rob|) + Ranks(s.st, s.rob[s.nspec..])
  }

  ghost predicate Closer(s: State, t: State) {
    && s.nspec <= |s.rob| && s.nspec <= t.nspec <= |t.rob| && |t.st| == |s.st|
    && (High(t) < High(s) || (High(t) == High(s) && Low(t) < Low(s)))
  }

  /** The same stations in flight, as far as they were. */
  ghost predicate Same(s: State, t: State) {
    && s.nspec <= |s.rob| && t.rob == s.rob && t.nspec == s.nspec && |t.st| == |s.st|
    && forall p :: p in s.rob && p < |s.st| ==> t.st[p].issued == s.st[p].issued && t.st[p].completed == s.st[p].completed
  }

  ghost predicate Moves(s: State, t: State) { Closer(s, t) || Same(s, t) }

  // ---- sums ----

  lemma {:induction false} RanksBound(st: seq<Station>, q: seq<nat>)
    ensures Ranks(st, q) <= 2 * |q|
  {
    if q != [] { RanksBound(st, q[..|q| - 1]); }
  }

  lemma {:induction false} RanksConcat(st: seq<Station>, a: seq<nat>, b: seq<nat>)
    ensures Ranks(st, a + b) == Ranks(st, a) + Ranks(st, b)
  {
    if b == [] {
      assert a + b == a;
    } else {
      var n := |b| - 1;
      assert (a + b)[..|a + b| - 1] == a + b[..n];
      RanksConcat(st, a, b[..n]);
    }
  }

  /** No station of the list has more to do. */
  ghost predicate NoWorse(st: seq<Station>, st': seq<Station>, q: seq<nat>) {
    |st'| == |st| && forall p :: p in q && p < |st| ==> Rank(st'[p]) <= Rank(st[p])
  }

  lemma {:induction false} RanksFall(st: seq<Station>, st': seq<Station>, q: seq<nat>)
    requires NoWorse(st, st', q)
    ensures Ranks(st', q) <= Ranks(st, q)
    ensures (exists p :: p in q && p < |st| && Rank(st'[p]) < Rank(st[p])) ==> Ranks(st', q) < Ranks(st, q)
  {
    if q != [] {
      var rest, x := q[..|q| - 1], q[|q| - 1];
      assert q == rest + [x];
      assert x in q;
      RanksFall(st, st', rest);
      if p :| p in q && p < |st| && Rank(st'[p]) < Rank(st[p]) {
        assert p == x || p in rest;
      }
    }
  }

  lemma {:induction false} RanksSame(st: seq<Station>, st': seq<Station>, q: seq<nat>)
    requires |st'| == |st| && forall p :: p in q && p < |st| ==> Rank(st'[p]) == Rank(st[p])
    ensures Ranks(st', q) == Ranks(st, q)
  {
    RanksFall(st, st', q);
    RanksFall(st', st, q);
  }

  lemma SameMeasures(s: State, t: State)
    requires Same(s, t)
    ensures High(t) == High(s) && Low(t) == Low(s)
  {
    hide Ranks;
    forall p | p in s.rob[..s.nspec] ensures p in s.rob {}
    forall p | p in s.rob[s.nspec..] ensures p in s.rob {}
    RanksSame(s.st, t.st, s.rob[..s.nspec]);
    RanksSame(s.st, t.st, s.rob[s.nspec..]);
  }

  lemma MovesTrans(s: State, t: State, u: State)
    requires Moves(s, t) && Moves(t, u)
    ensures Moves(s, u) && (Closer(s, t) || Closer(t, u) ==> Closer(s, u))
  {
    hide High, Low;
    if Same(s, t) { SameMeasures(s, t); }
    if Same(t, u) { SameMeasures(t, u); }
  }

  /** Stations that did something, none that lost anything. */
  lemma ProgressMoves(s: State, t: State, p: nat)
    requires s.nspec <= |s.rob| && t.rob == s.rob && t.nspec == s.nspec && NoWorse(s.st, t.st, s.rob)
    requires p in s.rob && p < |s.st| && Rank(t.st[p]) < Rank(s.st[p])
    ensures Closer(s, t)
  {
    hide Ranks, Rank;
    var a, b := s.rob[..s.nspec], s.rob[s.nspec..];
    assert s.rob == a + b;
    forall q | q in a ensures q in s.rob {}
    forall q | q in b ensures q in s.rob {}
    RanksFall(s.st, t.st, a);
    RanksFall(s.st, t.st, b);
    assert p in a || p in b;
  }

  // ---- frames ----

  /** Nothing started, completed, retired or was logged. */
  ghost predicate Flags(s: State, t: State) {
    && |t.st| == |s.st| && t.retired == s.retired && t.log == s.log
    && forall p :: 0 <= p < |s.st| ==> t.st[p].issued == s.st[p].issued && t.st[p].completed == s.st[p].completed
  }

  ghost predicate Kept(s: State, t: State) { Flags(s, t) && t.rob == s.rob && t.nspec == s.nspec && t.specMode == s.specMode }

  lemma KeptTrans(s: State, t: State, u: State)
    requires Kept(s, t) && Kept(t, u)
    ensures Kept(s, u)
  {
  }

  lemma KeptSame(s: State, t: State)
    requires Kept(s, t) && s.nspec <= |s.rob|
    ensures Same(s, t)
  {
  }

  lemma EnqueueKept(s: State, p: nat)
    requires p < |s.st|
    ensures Enqueue(s, p).Ok? ==> Kept(s, Enqueue(s, p).value)
  {
    hide Insert;
  }

  lemma {:induction false} SquashFlags(s: State, branch: nat)
    requires Wf(s)
    ensures SquashAfter(s, branch).Ok? ==> Flags(s, SquashAfter(s, branch).value)
    decreases s.ruuNum
  {
    hide CfgOk;
    if Prev(s.ruuTail, s.cfg.ruuSize) != branch && SquashYoungest(s).Ok? {
      SquashOneFlags(s);
      SquashFlags(SquashYoungest(s).value, branch);
    }
  }

  lemma SquashOneFlags(s: State)
    requires Wf(s) && SquashYoungest(s).Ok?
    ensures Flags(s, SquashYoungest(s).value)
  {
    hide CfgOk;
  }

  lemma WakeOneKept(s: State, l: Link)
    requires Wf(s)
    ensures WakeOne(s, l).Ok? ==> Kept(s, WakeOne(s, l).value)
  {
    hide CfgOk, Insert;
  }

  lemma WakeNextKept(s: State, p: nat, i: nat)
    requires p < |s.st| && Wf(s) && s.st[p].odeps.Get(i) != []
    ensures WakeNext(s, p, i).Ok? ==> Kept(s, WakeNext(s, p, i).value)
  {
    hide Wf, WakeOne;
    var chain := s.st[p].odeps.Get(i);
    var s0 := Put(s, p, s.st[p].(odeps := s.st[p].odeps.Set(i, chain[1..])));
    PutWf(s, p, s.st[p].(odeps := s.st[p].odeps.Set(i, chain[1..])));
    WakeOneKept(s0, chain[0]);
  }

  lemma {:induction false} WakeKept(s: State, p: nat, i: nat)
    requires p < |s.st| && Wf(s)
    ensures Wake(s, p, i).Ok? ==> Kept(s, Wake(s, p, i).value)
    decreases |s.st[p].odeps.Get(i)|
  {
    hide Wf, WakeNext;
    if s.st[p].odeps.Get(i) != [] && WakeNext(s, p, i).Ok? {
      WakeNextKept(s, p, i);
      WakeKept(WakeNext(s, p, i).value, p, i);
    }
  }

  lemma BroadcastKept(s: State, p: nat, i: nat)
    requires p < |s.st| && Wf(s)
    ensures Broadcast(s, p, i).Ok? ==> Kept(s, Broadcast(s, p, i).value)
  {
    hide CfgOk, Wake;
    var name := s.st[p].onames.Get(i);
    if name != NA {
      WakeKept(s, p, i);
      WakeKept(s.(specCv := s.specCv[name := NoCreator]), p, i);
      WakeKept(s.(cv := s.cv[name := NoCreator]), p, i);
    }
  }

  // ---- writeback ----

  /** A completion brings the core closer, with its recovery too. */
  lemma CompleteMoves(s: State, p: nat)
    requires Due(s, p) && Wf(s) && Complete(s, p).Ok?
    ensures Closer(s, Complete(s, p).value)
    ensures Complete(s, p).value.retired == s.retired && Complete(s, p).value.log == s.log
  {
    hide Mid, OperandsReady, KindOk, Broadcast, Recover, Wf;
    var t := Put(s, p, s.st[p].(completed := true));
    PutWf(s, p, s.st[p].(completed := true));
    var u := (if s.st[p].recover then Recover(t, p) else Ok(t)).value;
    BroadcastKept(u, p, 0);
    BroadcastKept(Broadcast(u, p, 0).value, p, 1);
    DuePlaces(s, p);
    if s.st[p].recover {
      RecoverMoves(s, t, p);
    } else {
      CompletedMoves(s, t, p);
    }
    KeptSame(u, Broadcast(u, p, 0).value);
    KeptSame(Broadcast(u, p, 0).value, Complete(s, p).value);
    MovesTrans(s, u, Broadcast(u, p, 0).value);
    MovesTrans(s, Broadcast(u, p, 0).value, Complete(s, p).value);
  }

  lemma DuePlaces(s: State, p: nat)
    requires Due(s, p)
    ensures s.nspec <= |s.rob| && p in s.rob
    ensures s.st[p].recover ==> p in s.rob[..s.nspec]
  {
    hide Layout, Statuses, ReadyOk, EventsOk, ChainsOk, PreciseCreators, LoadsOk, NoneLost, SpecCreators, PoolOk, KindOk, OperandsReady;
    PreciseSize(s);
    if s.st[p].recover {
      var i :| 0 <= i < |s.rob| && s.rob[i] == p;
      assert Unresolved(s, s.rob[i]);
      assert i == BranchAt(s) < s.nspec;
      assert s.rob[..s.nspec][i] == p;
    }
  }

  lemma PreciseSize(s: State)
    requires PreciseCreators(s, {})
    ensures s.nspec <= |s.rob|
  {
  }

  lemma CompletedMoves(s: State, t: State, p: nat)
    requires s.nspec <= |s.rob| && p in s.rob && p < |s.st| && s.st[p].issued && !s.st[p].completed
    requires t == Put(s, p, s.st[p].(completed := true))
    ensures Closer(s, t) && t.retired == s.retired && t.log == s.log
  {
    ProgressMoves(s, t, p);
  }

  lemma RecoverMoves(s: State, t: State, p: nat)
    requires Due(s, p) && Wf(s) && s.st[p].recover && t == Put(s, p, s.st[p].(completed := true)) && Recover(t, p).Ok?
    ensures Closer(s, Recover(t, p).value) && Recover(t, p).value.retired == s.retired && Recover(t, p).value.log == s.log
  {
    hide Mid, OperandsReady, KindOk, SquashAfter, Wf, Rank;
    DuePlaces(s, p);
    PutWf(s, p, s.st[p].(completed := true));
    var u := Recover(t, p).value;
    SquashFlags(t, p);
    RecoverPlaces(s, t, p);
    var a := s.rob[..s.nspec];
    assert u.rob[..u.nspec] == a;
    assert Rank(u.st[p]) < Rank(s.st[p]) && NoWorse(s.st, u.st, a) by { Lessens(s.st, t.st, u.st, p, a); }
    RanksFall(s.st, u.st, a);
  }

  lemma Lessens(st: seq<Station>, mid: seq<Station>, st': seq<Station>, p: nat, a: seq<nat>)
    requires p < |st| && st[p].issued && !st[p].completed && mid == st[p := st[p].(completed := true)] && |st'| == |mid|
    requires forall q :: 0 <= q < |mid| ==> st'[q].issued == mid[q].issued && st'[q].completed == mid[q].completed
    ensures Rank(st'[p]) < Rank(st[p]) && NoWorse(st, st', a)
  {
  }

  lemma RecoverPlaces(s: State, t: State, p: nat)
    requires Due(s, p) && Wf(s) && s.st[p].recover && t == Put(s, p, s.st[p].(completed := true))
    ensures Recover(t, p).Ok? && Recover(t, p).value.rob == s.rob[..s.nspec] && Recover(t, p).value.nspec == s.nspec <= |s.rob|
  {
    hide Base, SpecCreators, Branch, OperandsReady, KindOk, Recover, SameLayout, Static;
    var w := IDLE.(due := {p});
    assert Completes(s, t, p);
    CompletesKeepsBase(s, t, p, w);
    assert Draining(w, p) == Draining(IDLE, p);
    EntersRecovery(s, t, p);
    RecoverStage(t, p, Draining(IDLE, p));
    DuePlaces(s, p);
  }

  lemma {:induction false} WritebackMoves(s: State)
    requires Inv(s) && Wf(s) && Writeback(s).Ok?
    ensures var t := Writeback(s).value;
            && Moves(s, t) && t.retired == s.retired && t.log == s.log
            && (Closer(s, t) || t == s.(free := t.free, eventQ := t.eventQ))
    decreases |s.eventQ|
  {
    hide Inv, Due, Complete, NextEvent, Closer;
    NextEventStage(s);
    InvSizes(s);
    var n := NextEvent(s);
    assert Same(s, n.s);
    if n.found {
      EventWf(s);
      CompleteStage(n.s, n.p);
      CompleteMoves(n.s, n.p);
      var u := Complete(n.s, n.p).value;
      WritebackMoves(u);
      MovesTrans(s, n.s, u);
      MovesTrans(s, u, Writeback(s).value);
    }
  }

  lemma InvSizes(s: State)
    requires Inv(s)
    ensures s.nspec <= |s.rob|
  {
    InvGives(s);
  }

  // ---- refresh and issue ----

  lemma RefreshMoves(s: State, t: State)
    requires s.nspec <= |s.rob| && OnlyQueued(s, t)
    ensures Same(s, t) && t.retired == s.retired && t.log == s.log
  {
  }

  /** Only stations named by the ready list start. */
  lemma {:induction false} StartsListed(s: State, node: seq<Link>, n: nat, env: Env)
    requires Wf(s) && IssueLoop(s, node, n, env).Ok?
    ensures var t := IssueLoop(s, node, n, env).value;
            && Progress(s, t) && (forall p :: p in NewlyIssued(s, t) ==> Listed(s, node, p))
            && (NewlyIssued(s, t) == {} ==> t.busy == s.busy && t.eventQ == s.eventQ)
    decreases |node|
  {
    hide Wf, IssueNode, Requeue, Progress, NewlyIssued, Listed;
    var t := IssueLoop(s, node, n, env).value;
    if node == [] || n >= s.cfg.issueWidth {
      RequeueProgress(s, node);
      RequeueCalm(s, node);
      SameSize(s, t);
      NothingNew(s, t);
    } else {
      var r := IssueNode(s, node[0], env).value;
      assert Accounted(s, node, {});
      IssueStep(s, node, {}, env);
      StartsOne(s, node[0], env);
      SameSize(s, r.s);
      StartsListed(r.s, node[1..], if r.issued then n + 1 else n, env);
      ProgressTrans(s, r.s, t);
      CountUnion(s, r.s, t);
      forall p | p in NewlyIssued(s, t) ensures Listed(s, node, p) {
        if p in NewlyIssued(r.s, t) { ListedBefore(s, r.s, node, p); } else { ListedFirst(s, node, p); }
      }
    }
  }

  /** An operation that does not start takes no unit and schedules no event. */
  lemma StartsOne(s: State, n: Link, env: Env)
    requires Wf(s) && IssueNode(s, n, env).Ok?
    ensures var r := IssueNode(s, n, env).value;
            && (r.issued ==> Valid(s, n)) && (!r.issued ==> r.s.busy == s.busy && r.s.eventQ == s.eventQ)
  {
    hide Wf, IssueOne;
    if Valid(s, n) { StartsOrWaits(s, n.rs, env); }
  }

  lemma StartsOrWaits(s: State, p: nat, env: Env)
    requires Wf(s) && p < |s.st| && IssueOne(s, p, env).Ok?
    ensures var r := IssueOne(s, p, env).value; !r.issued ==> r.s.busy == s.busy && r.s.eventQ == s.eventQ
  {
    hide CfgOk, ResGet, OperandsReady, Insert, QueueEvent, LoadLatency, Reserve;
  }

  lemma ListedFirst(s: State, node: seq<Link>, p: nat)
    requires node != [] && p == node[0].rs && Valid(s, node[0])
    ensures Listed(s, node, p)
  {
  }

  lemma ListedBefore(s: State, t: State, node: seq<Link>, p: nat)
    requires node != [] && Progress(s, t) && Listed(t, node[1..], p)
    ensures Listed(s, node, p)
  {
    hide Wf;
    var j :| 0 <= j < |node[1..]| && node[1..][j].rs == p && node[1..][j].tag == t.st[p].tag;
    assert node[j + 1] == node[1..][j];
  }

  /** What a live link names is in flight. */
  lemma ListedInFlight(s: State, p: nat)
    requires Inv(s) && Listed(s, s.readyQ, p)
    ensures p in s.rob && p < |s.st|
  {
    hide Layout, Statuses, EventsOk, ChainsOk, PreciseCreators, SpecCreators, Branch, PoolOk, LoadsOk, NoneLost, Keys;
    var j :| 0 <= j < |s.readyQ| && s.readyQ[j].rs == p && s.readyQ[j].tag == s.st[p].tag;
    KeyOfLink(s.readyQ, j);
    assert Keys(s.readyQ) <= ReadyLinks(s, []);
    assert Key(p, s.st[p].tag) in ReadyLinks(s, []);
    assert KeyOk(s, Key(p, s.st[p].tag));
  }

  lemma {:induction false} KeyOfLink(q: seq<Link>, j: nat)
    requires j < |q|
    ensures Key(q[j].rs, q[j].tag) in Keys(q)
  {
    if j > 0 { KeyOfLink(q[1..], j - 1); }
  }

  /** Issue brings the core closer, or starts nothing and leaves units and events alone. */
  lemma IssueMoves(s: State, env: Env)
    requires Inv(s) && Wf(s) && Issue(s, env).Ok? && SameLayout(s, Issue(s, env).value)
    ensures var t := Issue(s, env).value;
            && Moves(s, t) && t.retired == s.retired && t.log == s.log
            && (NewlyIssued(s, t) != {} ==> Closer(s, t))
            && (NewlyIssued(s, t) == {} ==> Same(s, t) && t.busy == s.busy && t.eventQ == s.eventQ)
  {
    hide Inv, IssueLoop, Static, Listed, NewlyIssued, Rank, CfgOk;
    InvSizes(s);
    var s0, t := s.(readyQ := []), Issue(s, env).value;
    StartsListed(s0, s.readyQ, 0, env);
    assert NewlyIssued(s, t) == NewlyIssued(s0, t) by { hide *; SameStart(s, s0, t); }
    if p :| p in NewlyIssued(s, t) {
      assert Listed(s, s.readyQ, p) by { hide *; SameListed(s, s0, s.readyQ, p); }
      ListedInFlight(s, p);
      NewlyRank(s, t, p);
      ProgressMoves(s, t, p);
    } else {
      NoneStarted(s, t);
    }
  }

  lemma SameStart(s: State, s0: State, t: State)
    requires s0.st == s.st
    ensures NewlyIssued(s, t) == NewlyIssued(s0, t)
  {
  }

  lemma SameListed(s: State, s0: State, node: seq<Link>, p: nat)
    requires s0.st == s.st && Listed(s0, node, p)
    ensures Listed(s, node, p)
  {
  }

  lemma NewlyRank(s: State, t: State, p: nat)
    requires Progress(s, t) && p in NewlyIssued(s, t)
    ensures Rank(t.st[p]) < Rank(s.st[p]) && NoWorse(s.st, t.st, s.rob)
  {
    hide Wf;
  }

  lemma NoneStarted(s: State, t: State)
    requires Progress(s, t) && NewlyIssued(s, t) == {} && s.nspec <= |s.rob| && t.rob == s.rob && t.nspec == s.nspec
    ensures Same(s, t)
  {
    hide Wf;
    forall p | 0 <= p < |s.st| ensures t.st[p].issued == s.st[p].issued {
      assert p !in NewlyIssued(s, t);
    }
  }

  // ---- dispatch ----

  lemma LinkIdepFlags(s: State, p: nat, k: nat, name: Reg)
    requires Wf(s) && p < |s.st|
    ensures LinkIdep(s, p, k, name).Ok? ==> Kept(s, LinkIdep(s, p, k, name).value)
  {
    hide CfgOk, CreateVector;
  }

  lemma InstallFlags(s: State, p: nat, o: nat, name: Reg)
    requires Wf(s) && p < |s.st|
    ensures Kept(s, InstallOdep(s, p, o, name))
  {
    hide CfgOk;
  }

  lemma LinkAllFlags(s: State, p: nat, in1: Reg, in2: Reg, in3: Reg, out1: Reg, out2: Reg)
    requires Wf(s) && p < |s.st|
    ensures LinkAll(s, p, in1, in2, in3, out1, out2).Ok? ==> Kept(s, LinkAll(s, p, in1, in2, in3, out1, out2).value)
  {
    hide Wf, LinkIdep, InstallOdep, Kept;
    if LinkAll(s, p, in1, in2, in3, out1, out2).Ok? {
      var s1 := LinkIdep(s, p, 0, in1).value;
      var s2 := LinkIdep(s1, p, 1, in2).value;
      var s3 := LinkIdep(s2, p, 2, in3).value;
      var s4 := InstallOdep(s3, p, 0, out1);
      LinkIdepFlags(s, p, 0, in1);
      LinkIdepFlags(s1, p, 1, in2);
      LinkIdepFlags(s2, p, 2, in3);
      InstallFlags(s3, p, 0, out1);
      InstallFlags(s4, p, 1, out2);
      KeptTrans(s, s1, s2);
      KeptTrans(s, s2, s3);
      KeptTrans(s, s3, s4);
      KeptTrans(s, s4, InstallOdep(s4, p, 1, out2));
    }
  }

  lemma QueuePairFlags(s: State, p: nat, q: nat, kind: Kind)
    requires Wf(s) && p < |s.st| && q < |s.st|
    ensures QueuePair(s, p, q, kind).Ok? ==> Kept(s, QueuePair(s, p, q, kind).value)
  {
    hide Enqueue, OperandsReady, Wf;
    EnqueueKept(s, p);
    var s1 := if OperandsReady(s.st[p]) then Enqueue(s, p) else Ok(s);
    if s1.Ok? { EnqueueKept(s1.value.(lastOp := Link(q, s1.value.st[q].tag, 0)), q); }
  }

  /** New stations joined, and nothing else moved. */
  ghost predicate Joins(s: State, t0: State, t: State, n: nat) { Claims(s, t0, n) && Kept(t0, t) }

  lemma AluJoins(s: State, i: Inst)
    requires MayDispatch(s) && InstOk(s.cfg, i) && i.kind == Alu && !i.nop && DispatchAlu(s, i).Ok?
    ensures Joins(s, AllocRuu(s, Alu, i.urgent, i.fu, false), DispatchAlu(s, i).value, 1)
  {
    hide Mid, LinkAll, OperandsReady, Enqueue, Wf, Claims, Kept, CfgOk, FuOk, AllocRuu;
    MayGives(s);
    AluClaims(s, i.urgent, i.fu);
    var p, t := s.ruuTail, AllocRuu(s, Alu, i.urgent, i.fu, false);
    LinkAllFlags(t, p, i.in1, i.in2, i.in3, i.out1, i.out2);
    var u := LinkAll(t, p, i.in1, i.in2, i.in3, i.out1, i.out2).value;
    var w := if OperandsReady(u.st[p]) then Enqueue(u, p).value else u;
    EnqueueKept(u, p);
    assert Kept(u, w) by { hide *; KeptRefl(u); EnqueueKept(u, p); }
    assert Kept(w, DispatchAlu(s, i).value) by { KeptNote(w, DispatchAlu(s, i).value.lastOp); }
    KeptTrans(t, u, w);
    KeptTrans(t, w, DispatchAlu(s, i).value);
  }

  lemma KeptRefl(s: State)
    ensures Kept(s, s)
  {
  }

  lemma KeptNote(s: State, l: Link)
    ensures Kept(s, s.(lastOp := l))
  {
  }

  lemma MemJoins(s: State, i: Inst)
    requires IsMem(s, i) && DispatchMem(s, i).Ok?
    ensures Wf(s) && Joins(s, PairOf(s, i), DispatchMem(s, i).value, 2)
  {
    hide Mid, LinkAll, QueuePair, Wf, Claims, Kept, CfgOk, FuOk, AllocRuu, AllocLsq;
    MayGives(s);
    MemClaims(s, i);
    var p, q, t := s.ruuTail, s.cfg.ruuSize + s.lsqTail, PairOf(s, i);
    LinkAllFlags(t, p, NA, i.in2, i.in3, DTMP, NA);
    var u := LinkAll(t, p, NA, i.in2, i.in3, DTMP, NA).value;
    LinkAllFlags(u, q, i.in1, DTMP, NA, i.out1, i.out2);
    var w := LinkAll(u, q, i.in1, DTMP, NA, i.out1, i.out2).value;
    QueuePairFlags(w, p, q, i.kind);
    KeptTrans(t, u, w);
    KeptTrans(t, w, DispatchMem(s, i).value);
  }

  /** Claiming a station takes more room than it brings work. */
  lemma JoinsMoves(s: State, t0: State, t: State, n: nat)
    requires Joins(s, t0, t, n) && s.nspec <= |s.rob| && (!s.specMode ==> s.nspec == |s.rob|)
    ensures Closer(s, t) && t.retired == s.retired && s.log <= t.log
  {
    hide Ranks, Wf, KindOk, Next, Rank;
    var added := Claimed(s, n);
    assert t.rob == s.rob + added && |added| == n && 1 <= n;
    AppendsMembers(s, t0, added);
    OldRanks(s, t0, t, added, s.rob[..s.nspec]);
    OldRanks(s, t0, t, added, s.rob[s.nspec..]);
    RanksBound(t.st, added);
    if s.specMode {
      assert t.rob[..t.nspec] == s.rob[..s.nspec] && t.rob[t.nspec..] == s.rob[s.nspec..] + added;
      RanksConcat(t.st, s.rob[s.nspec..], added);
    } else {
      assert s.rob[..s.nspec] == s.rob && t.rob[..t.nspec] == s.rob + added;
      RanksConcat(t.st, s.rob, added);
    }
  }

  lemma OldRanks(s: State, t0: State, t: State, added: seq<nat>, part: seq<nat>)
    requires Appends(s, t0, added) && Kept(t0, t) && forall p :: p in part ==> p in s.rob
    ensures Ranks(t.st, part) == Ranks(s.st, part)
  {
    hide Wf;
    AppendsMembers(s, t0, added);
    forall p | p in part && p < |s.st| ensures Rank(t.st[p]) == Rank(s.st[p]) {
      assert InFlight(s, p);
    }
    RanksSame(s.st, t.st, part);
  }

  lemma DispatchOneMoves(s: State)
    requires Supplied(s) && DispatchOne(s).Ok?
    ensures Moves(s, DispatchOne(s).value) && DispatchOne(s).value.retired == s.retired && s.log <= DispatchOne(s).value.log
  {
    hide Inv, DispatchAlu, DispatchMem, Wf, InstOk, MayDispatch, Joins, Closer, AllocRuu;
    SuppliedMay(s);
    InvSizes(s);
    var i, t := s.ifq[0], DispatchOne(s).value;
    var r := (if i.nop then Ok(s) else if i.kind == Alu then DispatchAlu(s, i) else DispatchMem(s, i)).value;
    if i.nop {
      assert Same(s, r);
    } else if i.kind == Alu {
      AluJoins(s, i);
      JoinsMoves(s, AllocRuu(s, Alu, i.urgent, i.fu, false), r, 1);
    } else {
      MemJoins(s, i);
      JoinsMoves(s, PairOf(s, i), r, 2);
    }
    MovesSize(s, r);
    TailInside(s);
    EntersSame(r, t, s.ruuTail);
    MovesTrans(s, r, t);
  }

  lemma MovesSize(s: State, t: State)
    requires Moves(s, t)
    ensures s.nspec <= t.nspec <= |t.rob| && |t.st| == |s.st|
  {
    hide High, Low;
  }

  lemma TailInside(s: State)
    requires Wf(s)
    ensures s.ruuTail < |s.st|
  {
    hide CfgOk;
  }

  lemma EntersSame(s: State, t: State, p: nat)
    requires s.nspec <= |s.rob|
    requires t == s.(ifq := t.ifq) || (p < |s.st| && t == s.(st := s.st[p := s.st[p].(recover := true)], specMode := true, ifq := t.ifq))
    ensures Same(s, t) && t.retired == s.retired && t.log == s.log
  {
  }

  lemma {:induction false} DispatchMoves(s: State, budget: nat)
    requires Inv(s) && Wf(s) && Dispatch(s, budget).Ok?
    ensures var t := Dispatch(s, budget).value; Moves(s, t) && t.retired == s.retired && s.log <= t.log
    decreases |s.ifq|
  {
    hide Inv, DispatchOne, Wf, InorderStall, Closer;
    InvSizes(s);
    if budget == 0 || s.ruuNum >= s.cfg.ruuSize || s.lsqNum >= s.cfg.lsqSize || s.ifq == []
       || (!s.cfg.includeSpec && s.specMode) || InorderStall(s) || (s.ifq[0].trap && s.ruuNum != 0) {
      assert Same(s, s);
    } else {
      DispatchOneStage(s);
      DispatchOneMoves(s);
      var u := DispatchOne(s).value;
      DispatchMoves(u, if s.ifq[0].nop then budget else budget - 1);
      MovesTrans(s, u, Dispatch(s, budget).value);
    }
  }

  // ---- commit ----

  /** Commit retires something or does nothing. */
  lemma {:induction false} CommitQuiet(s: State, budget: nat)
    requires Inv(s) && Wf(s) && Commit(s, budget).Ok?
    ensures var t := Commit(s, budget).value;
            && s.retired <= t.retired && t.log == s.log && (t.retired == s.retired ==> t == s)
    decreases s.ruuNum
  {
    hide Inv, RetireMem, RetireRuu, CfgOk;
    if s.ruuNum != 0 && budget != 0 && s.st[s.ruuHead].completed {
      CommitOne(s);
      if s.st[s.ruuHead].eaComp { MemWaits(s); MemLog(s); }
      var m := if s.st[s.ruuHead].eaComp then RetireMem(s) else Ok(RetireResult(s, true));
      if m.value.done {
        RetiresOne(m.value.s);
        RuuLog(m.value.s);
        CommitQuiet(RetireRuu(m.value.s).value, budget - 1);
      }
    }
  }

  lemma MemLog(s: State)
    requires Wf(s) && RetireMem(s).Ok?
    ensures RetireMem(s).value.s.log == s.log
  {
    hide CfgOk, ResGet;
  }

  lemma RuuLog(s: State)
    requires Wf(s) && 0 < s.ruuNum && RetireRuu(s).Ok?
    ensures RetireRuu(s).value.log == s.log
  {
    hide CfgOk;
  }
}
