/** Steps on the ready and event queues: enqueueing, detaching, executing and completing a station. */
module OooQueueSteps {
  import opened OooState
  import opened OooLists
  import opened OooInvariant
  import opened OooFrames

  /** Station p moved onto the ready queue; nothing else changed. */
  ghost predicate Queues(s: State, t: State, p: nat) {
    && p < |s.st| && !s.st[p].queued && 0 < s.free
    && t == s.(st := s.st[p := s.st[p].(queued := true)], free := s.free - 1, readyQ := t.readyQ)
    && Keys(t.readyQ) == Keys(s.readyQ) + multiset{Key(p, s.st[p].tag)}
    && |t.readyQ| == |s.readyQ| + 1
  }

  lemma EnqueueEffect(s: State, p: nat)
    requires p < |s.st|
    ensures match Enqueue(s, p)
            case Ok(t) => Queues(s, t, p)
            case Halt(why) => why == if s.st[p].queued then AlreadyQueued else OutOfLinks
  {
    hide Keys, Insert;
    var n := Link(p, s.st[p].tag, s.st[p].seqno);
    KeysOfInsert(s.readyQ, n);
    KeysOfCons(n, s.readyQ);
  }

  /** A load may be queued only when its memory dependences are met. */
  ghost predicate LoadMayQueue(s: State, p: nat) {
    var lq := LsqPart(s.rob, s.cfg.ruuSize);
    p < |s.st| && forall i :: 0 <= i < |lq| && lq[i] == p && s.st[p].kind == Load ==>
      MemReady(s.st, lq[..i], s.st[p].addr)
  }

  lemma QueuesLayout(s: State, t: State, p: nat)
    requires Wf(s) && Queues(s, t, p)
    ensures SameLayout(s, t)
  {
  }

  lemma QueuesStatuses(s: State, t: State, p: nat)
    requires Statuses(s) && Queues(s, t, p) && OperandsReady(s.st[p]) && !s.st[p].issued
    ensures Statuses(t)
  {
    forall q: nat | InFlight(t, q) ensures StatusOk(t.st[q]) {
      assert InFlight(s, q);
    }
  }

  lemma QueuesReady(s: State, t: State, p: nat, local: seq<Link>)
    requires ReadyOk(s, local) && Queues(s, t, p) && InFlight(s, p)
    ensures ReadyOk(t, local)
  {
    var k, k' := ReadyLinks(s, local), ReadyLinks(t, local);
    assert k' == k + multiset{Key(p, s.st[p].tag)};
    forall key | key in k' ensures KeyOk(t, key) {
      assert key in k ==> KeyOk(s, key);
    }
    forall q: nat | InFlight(t, q) ensures k'[Key(q, t.st[q].tag)] == if t.st[q].queued then 1 else 0 {
      assert InFlight(s, q);
    }
  }

  lemma QueuesEvents(s: State, t: State, p: nat, due: set<nat>)
    requires EventsOk(s, due) && Queues(s, t, p)
    ensures EventsOk(t, due)
  {
    forall key | key in Keys(t.eventQ) ensures KeyOk(t, key) {
      assert KeyOk(s, key);
    }
    forall q: nat | InFlight(t, q)
      ensures Keys(t.eventQ)[Key(q, t.st[q].tag)] == if t.st[q].issued && !t.st[q].completed && q !in due then 1 else 0
    {
      assert InFlight(s, q);
    }
  }

  lemma QueuesPool(s: State, t: State, p: nat, inHand: nat)
    requires PoolOk(s, inHand) && Queues(s, t, p)
    ensures PoolOk(t, inHand)
  {
    ChainLinksFrame(s.st, t.st);
  }

  lemma QueuesLoads(s: State, t: State, p: nat)
    requires Wf(s) && LoadsOk(s) && Queues(s, t, p) && LoadMayQueue(s, p)
    ensures LoadsOk(t)
  {
    hide LsqPart, MemReady;
    QueuesLayout(s, t, p);
    SameFields(s, t);
    var lq := LsqPart(s.rob, s.cfg.ruuSize);
    forall i | 0 <= i < |lq| && lq[i] < |t.st| && t.st[lq[i]].kind == Load && t.st[lq[i]].queued
      ensures MemReady(t.st, lq[..i], t.st[lq[i]].addr)
    {
      MemReadyFrame(s.st, t.st, lq[..i], t.st[lq[i]].addr);
    }
  }

  lemma QueuesNoneLost(s: State, t: State, p: nat, open: set<nat>)
    requires NoneLost(s, open) && Queues(s, t, p)
    ensures NoneLost(t, open - {p})
  {
    forall q: nat | InFlight(t, q) && q !in open - {p} && OperandsReady(t.st[q]) && t.st[q].kind != Load
      ensures t.st[q].queued || t.st[q].issued
    {
      assert InFlight(s, q);
    }
  }

  lemma QueuesKeepsMid(s: State, t: State, p: nat, w: Work)
    requires Mid(s, w) && Queues(s, t, p) && InFlight(s, p) && LoadMayQueue(s, p)
    requires OperandsReady(s.st[p]) && !s.st[p].issued
    ensures Mid(t, w.(open := w.open - {p})) && SameLayout(s, t)
  {
    hide Layout, Statuses, ReadyOk, EventsOk, ChainsOk, PreciseCreators, PoolOk, LoadsOk, NoneLost, SpecCreators, Branch;
    hide LoadMayQueue, SameLayout;
    assert Wf(s) && s.nspec <= |s.rob| by { LayoutGives(s); }
    QueuesLayout(s, t, p);
    LayoutFrame(s, t);
    QueuesStatuses(s, t, p);
    QueuesReady(s, t, p, w.local);
    QueuesEvents(s, t, p, w.due);
    ChainsFrame(s, t, w.drain);
    CreatorsFrame(s, t, w.shown);
    QueuesPool(s, t, p, |w.local| + w.held);
    QueuesLoads(s, t, p);
    QueuesNoneLost(s, t, p, w.open);
    BranchFrame(s, t);
  }

  lemma LayoutGives(s: State)
    requires Layout(s)
    ensures Wf(s) && s.nspec <= |s.rob|
    ensures forall p: nat :: InFlight(s, p) ==> KindOk(s.cfg, p, s.st[p])
  {
  }

  /** Changes no list and no station: functional units, the fetch queue, the cycle and the like. */
  ghost predicate Idles(s: State, t: State) {
    && t == s.(busy := t.busy, lastOp := t.lastOp, cycle := t.cycle, ifq := t.ifq)
    && Wf(t) && forall i :: 0 <= i < |t.ifq| ==> InstOk(s.cfg, t.ifq[i])
  }

  lemma IdlesKeepsMid(s: State, t: State, w: Work)
    requires Mid(s, w) && Idles(s, t)
    ensures Mid(t, w)
  {
    hide RuuPart, LsqPart, Ring, Keys, Writer, MemReady, ChainLinks, KindOk, StatusOk, KeyOk, ChainLinkOk, Waits, Feeds;
    hide Sorted, Unresolved, CfgOk, SeqnosOf;
    IdlesKeepsLayout(s, t);
    IdlesKeepsLists(s, t, w);
  }

  lemma IdlesKeepsLayout(s: State, t: State)
    requires Layout(s) && Idles(s, t)
    ensures Layout(t)
  {
    hide RuuPart, LsqPart, Ring, KindOk, CfgOk, InstOk;
    forall p: nat | InFlight(t, p) ensures KindOk(t.cfg, p, t.st[p]) { assert InFlight(s, p); }
  }

  lemma IdlesKeepsLists(s: State, t: State, w: Work)
    requires Mid(s, w) && Idles(s, t)
    ensures Statuses(t) && ReadyOk(t, w.local) && EventsOk(t, w.due) && ChainsOk(t, w.drain)
    ensures PreciseCreators(t, w.shown) && SpecCreators(t, w.shown) && PoolOk(t, |w.local| + w.held)
    ensures LoadsOk(t) && NoneLost(t, w.open) && Branch(t)
  {
    hide Layout, Keys, LsqPart, MemReady, Sorted, Writer, OperandsReady;
    IdlesKeepsQueues(s, t, w);
    IdlesKeepsChains(s, t, w.drain);
    forall i | 0 <= i < |t.rob| && Unresolved(t, t.rob[i]) ensures Unresolved(s, t.rob[i]) {}
  }

  lemma IdlesKeepsQueues(s: State, t: State, w: Work)
    requires Statuses(s) && ReadyOk(s, w.local) && EventsOk(s, w.due) && Idles(s, t)
    ensures Statuses(t) && ReadyOk(t, w.local) && EventsOk(t, w.due)
  {
    hide Keys, Sorted, OperandsReady;
    forall p: nat ensures InFlight(t, p) == InFlight(s, p) {}
    forall key ensures KeyOk(t, key) == KeyOk(s, key) {}
  }

  lemma IdlesKeepsChains(s: State, t: State, drain: set<Slot>)
    requires ChainsOk(s, drain) && Idles(s, t)
    ensures ChainsOk(t, drain)
  {
    forall p: nat, k: nat | InFlight(t, p) && 0 <= k < 3 && !t.st[p].ready.Get(k) ensures Waits(t, drain, p, k) {
      assert InFlight(s, p) && Waits(s, drain, p, k);
    }
    forall c, o, l | OnChain(t, c, o, l) ensures ChainLinkOk(t, c, o, l) {
      assert OnChain(s, c, o, l);
    }
  }

  /** A node of the detached ready list is taken up: dropped if stale, its station unqueued otherwise. */
  ghost predicate Takes(s: State, t: State, local: seq<Link>) {
    && local != []
    && t == if Valid(s, local[0]) then Put(s, local[0].rs, s.st[local[0].rs].(queued := false)) else s
  }

  ghost function Taken(s: State, w: Work): Work
    requires w.local != []
  {
    w.(local := w.local[1..], held := w.held + 1,
       open := if Valid(s, w.local[0]) then w.open + {w.local[0].rs} else w.open)
  }

  /** A live node of the detached list names a station that is in flight, ready and queued. */
  lemma LiveNodeIsReady(s: State, w: Work)
    requires Mid(s, w) && w.local != [] && Valid(s, w.local[0])
    ensures var p := w.local[0].rs; InFlight(s, p) && KindOk(s.cfg, p, s.st[p])
    ensures var x := s.st[w.local[0].rs]; x.queued && OperandsReady(x) && !x.issued && !x.completed
  {
    hide Layout, ChainsOk, PreciseCreators, SpecCreators, Branch, PoolOk, LoadsOk, NoneLost, EventsOk;
    var n := w.local[0];
    var key := Key(n.rs, n.tag);
    assert key in ReadyLinks(s, w.local);
    assert KeyOk(s, key);
    assert InFlight(s, n.rs) && StatusOk(s.st[n.rs]);
    LayoutGives(s);
  }

  lemma TakesReady(s: State, t: State, w: Work)
    requires Wf(s) && Statuses(s) && ReadyOk(s, w.local) && Takes(s, t, w.local)
    ensures Statuses(t) && ReadyOk(t, w.local[1..])
  {
    hide Wf, Keys, OperandsReady;
    var n := w.local[0];
    var key := Key(n.rs, n.tag);
    var k, k' := ReadyLinks(s, w.local), ReadyLinks(t, w.local[1..]);
    assert w.local == [n] + w.local[1..];
    KeysOfCons(n, w.local[1..]);
    assert k == k' + multiset{key};
    assert KeyOk(s, key) by { assert key in k; }
    forall key' | key' in k' ensures KeyOk(t, key') {
      assert key' in k && KeyOk(s, key');
    }
    forall q: nat | InFlight(t, q)
      ensures StatusOk(t.st[q]) && k'[Key(q, t.st[q].tag)] == if t.st[q].queued then 1 else 0
    {
      assert InFlight(s, q);
      assert StatusOk(s.st[q]);
    }
  }

  lemma TakesRest(s: State, t: State, w: Work)
    requires Wf(s) && Takes(s, t, w.local)
    requires EventsOk(s, w.due) && PoolOk(s, |w.local| + w.held) && NoneLost(s, w.open)
    ensures EventsOk(t, w.due) && PoolOk(t, |Taken(s, w).local| + Taken(s, w).held) && NoneLost(t, Taken(s, w).open)
  {
    ChainLinksFrame(s.st, t.st);
    forall key | key in Keys(t.eventQ) ensures KeyOk(t, key) {
      assert KeyOk(s, key);
    }
    forall q: nat | InFlight(t, q)
      ensures Keys(t.eventQ)[Key(q, t.st[q].tag)] ==
              if t.st[q].issued && !t.st[q].completed && q !in w.due then 1 else 0
      ensures q !in Taken(s, w).open && OperandsReady(t.st[q]) && t.st[q].kind != Load ==> t.st[q].queued || t.st[q].issued
    {
      assert InFlight(s, q);
    }
  }

  lemma TakesKeepsMid(s: State, t: State, w: Work)
    requires Mid(s, w) && Takes(s, t, w.local)
    ensures Mid(t, Taken(s, w)) && SameLayout(s, t)
  {
    hide Layout, Statuses, ReadyOk, EventsOk, ChainsOk, PreciseCreators, PoolOk, LoadsOk, NoneLost, SpecCreators, Branch;
    LayoutGives(s);
    assert SameLayout(s, t);
    LayoutFrame(s, t);
    TakesReady(s, t, w);
    TakesRest(s, t, w);
    ChainsFrame(s, t, w.drain);
    CreatorsFrame(s, t, w.shown);
    LoadsFrame(s, t);
    BranchFrame(s, t);
  }

  /** A link in hand goes back to the free list. */
  lemma FreeKeepsMid(s: State, w: Work)
    requires Mid(s, w) && 0 < w.held
    ensures Mid(s.(free := s.free + 1), w.(held := w.held - 1))
  {
    hide Layout, Statuses, ReadyOk, EventsOk, ChainsOk, PreciseCreators, LoadsOk, NoneLost, SpecCreators, Branch;
    var t := s.(free := s.free + 1);
    LayoutGives(s);
    assert SameLayout(s, t);
    LayoutFrame(s, t);
    QueueFrame(s, t, w);
    ChainsFrame(s, t, w.drain);
    CreatorsFrame(s, t, w.shown);
    LoadsFrame(s, t);
    BranchFrame(s, t);
  }

  lemma QueueFrame(s: State, t: State, w: Work)
    requires Statuses(s) && ReadyOk(s, w.local) && EventsOk(s, w.due) && NoneLost(s, w.open)
    requires t == s.(free := t.free)
    ensures Statuses(t) && ReadyOk(t, w.local) && EventsOk(t, w.due) && NoneLost(t, w.open)
  {
    hide Keys, Sorted, OperandsReady;
    forall p: nat ensures InFlight(t, p) == InFlight(s, p) {}
    forall key ensures KeyOk(t, key) == KeyOk(s, key) {}
  }

  /** Station p starts executing and its completion event is scheduled. */
  ghost predicate Executes(s: State, t: State, p: nat) {
    && p < |s.st| && 0 < s.free
    && t == s.(st := s.st[p := s.st[p].(issued := true)], free := s.free - 1, eventQ := t.eventQ, busy := t.busy)
    && |t.busy| == |s.busy|
    && Keys(t.eventQ) == Keys(s.eventQ) + multiset{Key(p, s.st[p].tag)}
    && |t.eventQ| == |s.eventQ| + 1 && (Sorted(s.eventQ) ==> Sorted(t.eventQ))
  }

  lemma QueueEventEffect(s: State, p: nat, when: nat)
    requires p < |s.st|
    ensures match QueueEvent(s, p, when)
            case Ok(t) =>
              && 0 < s.free && t == s.(free := s.free - 1, eventQ := t.eventQ)
              && Keys(t.eventQ) == Keys(s.eventQ) + multiset{Key(p, s.st[p].tag)}
              && |t.eventQ| == |s.eventQ| + 1 && (Sorted(s.eventQ) ==> Sorted(t.eventQ))
            case Halt(why) =>
              why == if s.st[p].completed then EventCompleted else if when <= s.cycle then EventInPast else OutOfLinks
  {
    hide Keys, Insert, Sorted;
    var n := Link(p, s.st[p].tag, when);
    KeysOfInsert(s.eventQ, n);
    if Sorted(s.eventQ) { InsertKeepsSorted(s.eventQ, n); }
  }

  lemma ExecutesQueues(s: State, t: State, p: nat, w: Work)
    requires Statuses(s) && ReadyOk(s, w.local) && EventsOk(s, w.due) && NoneLost(s, w.open)
    requires Executes(s, t, p) && InFlight(s, p) && p !in w.due
    requires OperandsReady(s.st[p]) && !s.st[p].queued && !s.st[p].issued && !s.st[p].completed
    ensures Statuses(t) && ReadyOk(t, w.local) && EventsOk(t, w.due) && NoneLost(t, w.open - {p})
  {
    hide Keys, Sorted;
    forall q: nat | InFlight(t, q)
      ensures InFlight(s, q) && StatusOk(t.st[q])
    {
      assert InFlight(s, q) && StatusOk(s.st[q]);
    }
    forall key ensures KeyOk(t, key) == KeyOk(s, key) {}
    forall q: nat | InFlight(t, q)
      ensures ReadyLinks(t, w.local)[Key(q, t.st[q].tag)] == if t.st[q].queued then 1 else 0
      ensures Keys(t.eventQ)[Key(q, t.st[q].tag)] ==
              if t.st[q].issued && !t.st[q].completed && q !in w.due then 1 else 0
    {
      assert InFlight(s, q);
    }
  }

  lemma ExecutesFrame(s: State, t: State, p: nat, w: Work)
    requires Layout(s) && Executes(s, t, p) && PoolOk(s, |w.local| + w.held)
    ensures SameLayout(s, t) && PoolOk(t, |w.local| + w.held)
    ensures t.rob == s.rob && t.cv == s.cv && t.specCv == s.specCv && t.useSpec == s.useSpec && t.prod == s.prod
    ensures |t.st| == |s.st| && forall q :: 0 <= q < |s.st| ==> t.st[q] == s.st[q].(issued := t.st[q].issued)
  {
    hide Layout, Keys, Sorted;
    LayoutGives(s);
    ChainLinksFrame(s.st, t.st);
  }

  lemma ExecutesKeepsMid(s: State, t: State, p: nat, w: Work)
    requires Mid(s, w) && Executes(s, t, p) && InFlight(s, p) && p !in w.due
    requires OperandsReady(s.st[p]) && !s.st[p].queued && !s.st[p].issued && !s.st[p].completed
    ensures Mid(t, w.(open := w.open - {p})) && SameLayout(s, t)
  {
    hide Layout, Statuses, ReadyOk, EventsOk, ChainsOk, PreciseCreators, LoadsOk, NoneLost, SpecCreators, Branch;
    hide SameLayout, Executes;
    LayoutGives(s);
    ExecutesFrame(s, t, p, w);
    LayoutFrame(s, t);
    ExecutesQueues(s, t, p, w);
    ChainLinksFrame(s.st, t.st);
    ChainsFrame(s, t, w.drain);
    CreatorsFrame(s, t, w.shown);
    LoadsFrame(s, t);
    BranchFrame(s, t);
  }
}
