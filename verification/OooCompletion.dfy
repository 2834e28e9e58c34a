/** Completion: marking a station complete, broadcasting its results and waking its consumers. */
module OooCompletion {
  import opened OooState
  import opened OooLists
  import opened OooInvariant
  import opened OooFrames
  import opened OooQueueSteps

  /** Station p has its result; its output slots still have to broadcast. */
  ghost predicate Completes(s: State, t: State, p: nat) {
    && p < |s.st|
    && t == Put(s, p, s.st[p].(issued := true, completed := true))
  }

  ghost function Draining(w: Work, p: nat): Work {
    w.(due := w.due - {p}, drain := w.drain + {Slot(p, 0), Slot(p, 1)},
       shown := w.shown + {Slot(p, 0), Slot(p, 1)}, open := w.open - {p})
  }

  lemma CompletesQueues(s: State, t: State, p: nat, w: Work)
    requires Statuses(s) && ReadyOk(s, w.local) && EventsOk(s, w.due) && NoneLost(s, w.open)
    requires Completes(s, t, p) && InFlight(s, p)
    requires OperandsReady(s.st[p]) && !s.st[p].queued && !s.st[p].completed && (s.st[p].issued ==> p in w.due)
    ensures Statuses(t) && ReadyOk(t, w.local) && EventsOk(t, w.due - {p}) && NoneLost(t, w.open - {p})
  {
    hide Keys, Sorted;
    forall q: nat | InFlight(t, q) ensures InFlight(s, q) && StatusOk(t.st[q]) {
      assert InFlight(s, q) && StatusOk(s.st[q]);
    }
    forall key ensures KeyOk(t, key) == KeyOk(s, key) {}
    forall q: nat | InFlight(t, q)
      ensures ReadyLinks(t, w.local)[Key(q, t.st[q].tag)] == if t.st[q].queued then 1 else 0
      ensures Keys(t.eventQ)[Key(q, t.st[q].tag)] ==
              if t.st[q].issued && !t.st[q].completed && q !in w.due - {p} then 1 else 0
    {
      assert InFlight(s, q);
    }
  }

  lemma CompletesChains(s: State, t: State, p: nat, drain: set<Slot>)
    requires ChainsOk(s, drain) && Completes(s, t, p)
    ensures ChainsOk(t, drain + {Slot(p, 0), Slot(p, 1)})
  {
    var d := drain + {Slot(p, 0), Slot(p, 1)};
    forall c: nat, o: nat | Feeds(s, drain, c, o) ensures Feeds(t, d, c, o) {}
    forall q: nat, k: nat | InFlight(t, q) && 0 <= k < 3 && !t.st[q].ready.Get(k) ensures Waits(t, d, q, k) {
      assert InFlight(s, q) && Waits(s, drain, q, k);
    }
    forall c, o, l | OnChain(t, c, o, l) ensures ChainLinkOk(t, c, o, l) {
      assert OnChain(s, c, o, l);
    }
  }

  /** The writer the create vector shows has an output slot named after the register. */
  lemma {:induction false} WriterNames(st: seq<Station>, order: seq<nat>, n: Reg)
    ensures var w := Writer(st, order, n);
            w.Creator? ==> w.rs in order && w.rs < |st| && w.odep < 2 && st[w.rs].onames.Get(w.odep) == n
  {
    if order != [] {
      var rest := order[..|order| - 1];
      assert order == rest + [order[|order| - 1]];
      WriterNames(st, rest, n);
    }
  }

  lemma CompletesCreators(s: State, t: State, p: nat, drain: set<Slot>)
    requires Wf(s) && Completes(s, t, p) && !s.st[p].completed
    requires PreciseCreators(s, drain) && SpecCreators(s, drain)
    ensures PreciseCreators(t, drain + {Slot(p, 0), Slot(p, 1)})
    ensures SpecCreators(t, drain + {Slot(p, 0), Slot(p, 1)})
  {
    hide Writer, Wf;
    var d := drain + {Slot(p, 0), Slot(p, 1)};
    forall n: Reg
      ensures Writer(t.st, t.rob[..t.nspec], n) == Writer(s.st, s.rob[..s.nspec], n)
      ensures Writer(t.st, t.rob[t.nspec..], n) == Writer(s.st, s.rob[s.nspec..], n)
      ensures Outstanding(t, d, Writer(t.st, t.rob[..t.nspec], n)) == Outstanding(s, drain, Writer(s.st, s.rob[..s.nspec], n))
      ensures Outstanding(t, d, Writer(t.st, t.rob[t.nspec..], n)) == Outstanding(s, drain, Writer(s.st, s.rob[s.nspec..], n))
    {
      WriterFrame(s.st, t.st, s.rob[..s.nspec], n);
      WriterFrame(s.st, t.st, s.rob[s.nspec..], n);
      WriterNames(s.st, s.rob[..s.nspec], n);
      WriterNames(s.st, s.rob[s.nspec..], n);
    }
  }

  lemma CompletesBranch(s: State, t: State, p: nat)
    requires Wf(s) && s.nspec <= |s.rob| && Completes(s, t, p) && Branch(s) && !s.st[p].recover
    ensures Branch(t)
  {
    forall q: nat ensures Unresolved(t, q) == Unresolved(s, q) {}
  }

  /** All clauses but the one on mispredictions, which completing a mispredicted branch suspends. */
  lemma CompletesKeepsBase(s: State, t: State, p: nat, w: Work)
    requires Mid(s, w) && Completes(s, t, p) && InFlight(s, p)
    requires OperandsReady(s.st[p]) && !s.st[p].queued && !s.st[p].completed && (s.st[p].issued ==> p in w.due)
    ensures Base(t, Draining(w, p)) && SpecCreators(t, Draining(w, p).shown) && SameLayout(s, t)
    ensures !s.st[p].recover ==> Branch(t)
  {
    hide Layout, Statuses, ReadyOk, EventsOk, ChainsOk, PreciseCreators, LoadsOk, NoneLost, SpecCreators, Branch;
    LayoutGives(s);
    assert SameLayout(s, t);
    LayoutFrame(s, t);
    CompletesQueues(s, t, p, w);
    ChainLinksFrame(s.st, t.st);
    CompletesChains(s, t, p, w.drain);
    CompletesCreators(s, t, p, w.shown);
    LoadsFrame(s, t);
    if !s.st[p].recover { CompletesBranch(s, t, p); }
  }

  /** A slot without an output name has nothing to broadcast. */
  lemma SkipSlot(s: State, w: Work, p: nat, o: nat)
    requires Mid(s, w) && p < |s.st| && s.st[p].onames.Get(o) == NA
    ensures Mid(s, w.(drain := w.drain - {Slot(p, o)}, shown := w.shown - {Slot(p, o)}))
  {
    hide Layout, Statuses, ReadyOk, EventsOk, LoadsOk, NoneLost, Branch;
    SkipSlotChains(s, w.drain, p, o);
    SkipSlotCreators(s, w.shown, p, o);
  }

  lemma SkipSlotChains(s: State, drain: set<Slot>, p: nat, o: nat)
    requires ChainsOk(s, drain) && p < |s.st| && s.st[p].onames.Get(o) == NA
    ensures ChainsOk(s, drain - {Slot(p, o)})
  {
    forall q: nat, k: nat | InFlight(s, q) && 0 <= k < 3 && !s.st[q].ready.Get(k)
      ensures Waits(s, drain - {Slot(p, o)}, q, k)
    {
      assert Waits(s, drain, q, k);
    }
  }

  lemma SkipSlotCreators(s: State, drain: set<Slot>, p: nat, o: nat)
    requires PreciseCreators(s, drain) && SpecCreators(s, drain)
    requires p < |s.st| && s.st[p].onames.Get(o) == NA
    ensures PreciseCreators(s, drain - {Slot(p, o)}) && SpecCreators(s, drain - {Slot(p, o)})
  {
    hide Writer;
    var d := drain - {Slot(p, o)};
    forall n: Reg | n != NA
      ensures Outstanding(s, d, Writer(s.st, s.rob[..s.nspec], n)) == Outstanding(s, drain, Writer(s.st, s.rob[..s.nspec], n))
      ensures Outstanding(s, d, Writer(s.st, s.rob[s.nspec..], n)) == Outstanding(s, drain, Writer(s.st, s.rob[s.nspec..], n))
    {
      WriterNames(s.st, s.rob[..s.nspec], n);
      WriterNames(s.st, s.rob[s.nspec..], n);
    }
  }

  /** Correct-path writers are found among the first nspec stations and wrong-path writers after them. */
  lemma WriterSide(s: State, n: Reg)
    requires Structure(s) && Split(s)
    ensures var w := Writer(s.st, s.rob[..s.nspec], n); w.Creator? ==> InFlight(s, w.rs) && !s.st[w.rs].spec
    ensures var w := Writer(s.st, s.rob[s.nspec..], n); w.Creator? ==> InFlight(s, w.rs) && s.st[w.rs].spec
  {
    hide Writer, RuuPart, LsqPart, Ring, Wf;
    WriterNames(s.st, s.rob[..s.nspec], n);
    WriterNames(s.st, s.rob[s.nspec..], n);
  }

  /** The create vector after slot i of p is readable from the register file. */
  function Unshow(s: State, p: nat, i: nat): (t: State)
    requires Wf(s) && p < |s.st|
    ensures Wf(t)
  {
    var name := s.st[p].onames.Get(i);
    if s.st[p].spec then
      if s.specCv[name] == Creator(p, i) then s.(specCv := s.specCv[name := NoCreator]) else s
    else
      if s.cv[name] == Creator(p, i) then s.(cv := s.cv[name := NoCreator]) else s
  }

  lemma UnshowPrecise(s: State, p: nat, i: nat, shown: set<Slot>)
    requires Structure(s) && Split(s) && PreciseCreators(s, shown) && SpecCreators(s, shown)
    requires InFlight(s, p) && i < 2 && s.st[p].onames.Get(i) != NA && s.st[p].completed && Slot(p, i) in shown
    ensures PreciseCreators(Unshow(s, p, i), shown - {Slot(p, i)})
  {
    hide Writer, RuuPart, LsqPart, Ring, Split, Structure, SpecCreators;
    assert Wf(s) by { StructureGives(s); }
    var t := Unshow(s, p, i);
    var d := shown - {Slot(p, i)};
    forall n: Reg | n != NA ensures t.cv[n] == Outstanding(t, d, Writer(t.st, t.rob[..t.nspec], n)) {
      WriterNames(s.st, s.rob[..s.nspec], n);
      WriterSide(s, n);
    }
  }

  lemma StructureGives(s: State)
    requires Structure(s)
    ensures Wf(s)
  {
  }

  lemma UnshowSpec(s: State, p: nat, i: nat, shown: set<Slot>)
    requires Structure(s) && Split(s) && PreciseCreators(s, shown) && SpecCreators(s, shown)
    requires InFlight(s, p) && i < 2 && s.st[p].onames.Get(i) != NA && s.st[p].completed && Slot(p, i) in shown
    ensures SpecCreators(Unshow(s, p, i), shown - {Slot(p, i)})
  {
    hide Writer, RuuPart, LsqPart, Ring, Split, Structure, PreciseCreators;
    assert Wf(s) by { StructureGives(s); }
    var t := Unshow(s, p, i);
    var d := shown - {Slot(p, i)};
    forall n: Reg | n != NA
      ensures var w := Writer(t.st, t.rob[t.nspec..], n);
              && (n in t.useSpec <==> w.Creator?) && (n in t.useSpec ==> t.specCv[n] == Outstanding(t, d, w))
    {
      WriterNames(s.st, s.rob[s.nspec..], n);
      WriterSide(s, n);
    }
  }

  lemma UnshowKeepsMid(s: State, p: nat, i: nat, w: Work)
    requires Mid(s, w) && InFlight(s, p) && i < 2 && s.st[p].onames.Get(i) != NA
    requires s.st[p].completed && Slot(p, i) in w.shown
    ensures Wf(s) && Mid(Unshow(s, p, i), w.(shown := w.shown - {Slot(p, i)})) && SameLayout(s, Unshow(s, p, i))
  {
    hide Statuses, ReadyOk, EventsOk, ChainsOk, PreciseCreators, LoadsOk, NoneLost, SpecCreators, Branch;
    hide RuuPart, LsqPart, Ring, Split, Structure, Paired, Kinds, History;
    StructureGives(s);
    LayoutGives(s);
    var t := Unshow(s, p, i);
    assert SameLayout(s, t);
    LayoutFrame(s, t);
    UnshowQueues(s, t, w);
    ChainsFrame(s, t, w.drain);
    UnshowPrecise(s, p, i, w.shown);
    UnshowSpec(s, p, i, w.shown);
    LoadsFrame(s, t);
    BranchFrame(s, t);
  }

  lemma UnshowQueues(s: State, t: State, w: Work)
    requires Statuses(s) && ReadyOk(s, w.local) && EventsOk(s, w.due) && NoneLost(s, w.open)
    requires PoolOk(s, |w.local| + w.held)
    requires t == s.(cv := t.cv, specCv := t.specCv)
    ensures Statuses(t) && ReadyOk(t, w.local) && EventsOk(t, w.due) && NoneLost(t, w.open)
    ensures PoolOk(t, |w.local| + w.held)
  {
    hide Keys, Sorted, OperandsReady;
    forall p: nat ensures InFlight(t, p) == InFlight(s, p) {}
    forall key ensures KeyOk(t, key) == KeyOk(s, key) {}
  }

  /** The first link of chain i of p is taken off and, if live, its operand becomes ready. */
  ghost predicate Wakes(s: State, t: State, p: nat, i: nat) {
    && p < |s.st| && i < 2 && s.st[p].odeps.Get(i) != []
    && var chain := s.st[p].odeps.Get(i);
       var l := chain[0];
       var s1 := Put(s, p, s.st[p].(odeps := s.st[p].odeps.Set(i, chain[1..])));
       t == if Valid(s1, l) then Put(s1, l.rs, s1.st[l.rs].(ready := s1.st[l.rs].ready.Set(l.x, true))) else s1
  }

  ghost function Woken(s: State, w: Work, p: nat, i: nat): Work
    requires p < |s.st| && s.st[p].odeps.Get(i) != []
  {
    var l := s.st[p].odeps.Get(i)[0];
    w.(held := w.held + 1, open := if Valid(s, l) then w.open + {l.rs} else w.open)
  }

  /** A live link names an in-flight station that is not queued and whose operand is unready. */
  lemma LiveConsumer(s: State, w: Work, p: nat, i: nat)
    requires Mid(s, w) && p < |s.st| && i < 2 && s.st[p].odeps.Get(i) != [] && s.st[p].completed
    requires Valid(s, s.st[p].odeps.Get(i)[0])
    ensures var l := s.st[p].odeps.Get(i)[0];
            && InFlight(s, l.rs) && l.x < 3 && !s.st[l.rs].ready.Get(l.x) && !s.st[l.rs].queued && !s.st[l.rs].issued
            && KindOk(s.cfg, l.rs, s.st[l.rs])
    ensures var l := s.st[p].odeps.Get(i)[0];
            && Waits(s, w.drain, l.rs, l.x) && s.prod[Opnd(l.rs, l.x)] == Slot(p, i)
    ensures InFlight(s, p) && s.st[p].odeps.Get(i)[0].rs != p
  {
    hide Layout, ReadyOk, EventsOk, PreciseCreators, LoadsOk, NoneLost, SpecCreators, Branch, PoolOk;
    var l := s.st[p].odeps.Get(i)[0];
    assert OnChain(s, p, i, l);
    assert ChainLinkOk(s, p, i, l);
    assert Feeds(s, w.drain, p, i);
    assert InFlight(s, l.rs) && StatusOk(s.st[l.rs]);
    assert StatusOk(s.st[p]);
    LayoutGives(s);
  }

  /** The same step, station by station. */
  ghost predicate WakesEach(s: State, t: State, p: nat, i: nat) {
    && p < |s.st| && i < 2 && s.st[p].odeps.Get(i) != [] && |t.st| == |s.st| && t == s.(st := t.st)
    && var chain := s.st[p].odeps.Get(i);
       forall q :: 0 <= q < |s.st| ==> WakesStation(s.st[q], t.st[q], i, chain, q == p, Valid(s, chain[0]) && q == chain[0].rs)
  }

  ghost predicate WakesStation(x: Station, y: Station, i: nat, chain: seq<Link>, pops: bool, wakes: bool)
    requires chain != []
  {
    && y == x.(odeps := y.odeps, ready := y.ready)
    && (forall o: nat :: o < 2 ==> y.odeps.Get(o) == if pops && o == i then chain[1..] else x.odeps.Get(o))
    && (forall k: nat :: x.ready.Get(k) ==> y.ready.Get(k))
    && (!wakes ==> y.ready == x.ready)
    && (wakes && chain[0].x < 3 ==> forall k: nat :: k < 3 ==> (y.ready.Get(k) <==> x.ready.Get(k) || k == chain[0].x))
  }

  lemma PopThenWake(x: Station, i: nat, chain: seq<Link>, pops: bool, wakes: bool)
    requires i < 2 && chain != [] && (pops ==> x.odeps.Get(i) == chain)
    ensures var y := if pops then x.(odeps := x.odeps.Set(i, chain[1..])) else x;
            WakesStation(x, if wakes then y.(ready := y.ready.Set(chain[0].x, true)) else y, i, chain, pops, wakes)
  {
  }

  lemma WakesEachOne(s: State, t: State, p: nat, i: nat)
    requires Wakes(s, t, p, i)
    ensures WakesEach(s, t, p, i)
  {
    hide OperandsReady, WakesStation;
    var chain := s.st[p].odeps.Get(i);
    forall q | 0 <= q < |s.st|
      ensures WakesStation(s.st[q], t.st[q], i, chain, q == p, Valid(s, chain[0]) && q == chain[0].rs)
    {
      PopThenWake(s.st[q], i, chain, q == p, Valid(s, chain[0]) && q == chain[0].rs);
    }
  }

  lemma WakesUnready(s: State, t: State, p: nat, i: nat, w: Work)
    requires Mid(s, w) && WakesEach(s, t, p, i) && s.st[p].completed
    ensures UnreadyWait(t, w.drain)
  {
    hide Layout, ReadyOk, EventsOk, PreciseCreators, LoadsOk, NoneLost, SpecCreators, Branch, PoolOk, Statuses;
    hide ChainLinksOk, ChainsFeed, OperandsReady, KindOk;
    var chain := s.st[p].odeps.Get(i);
    var l := chain[0];
    assert chain == [l] + chain[1..];
    if Valid(s, l) { LiveConsumer(s, w, p, i); }
    forall q: nat, k: nat | InFlight(t, q) && 0 <= k < 3 && !t.st[q].ready.Get(k) ensures Waits(t, w.drain, q, k) {
      assert InFlight(s, q) && !s.st[q].ready.Get(k);
      assert Waits(s, w.drain, q, k);
      assert Link(q, s.st[q].tag, k) != l;
    }
  }

  lemma WakesLinks(s: State, t: State, p: nat, i: nat, w: Work)
    requires Mid(s, w) && WakesEach(s, t, p, i) && s.st[p].completed
    ensures ChainLinksOk(t)
  {
    hide Layout, ReadyOk, EventsOk, PreciseCreators, LoadsOk, NoneLost, SpecCreators, Branch, PoolOk, Statuses;
    hide UnreadyWait, ChainsFeed, OperandsReady, KindOk;
    var chain := s.st[p].odeps.Get(i);
    var l := chain[0];
    assert chain == [l] + chain[1..];
    if Valid(s, l) {
      LiveConsumer(s, w, p, i);
      assert l !in chain[1..] by { assert multiset(chain)[l] == 1; }
    }
    forall c, o, l' | OnChain(t, c, o, l') ensures ChainLinkOk(t, c, o, l') {
      assert OnChain(s, c, o, l') && ChainLinkOk(s, c, o, l');
    }
  }

  lemma WakesFeed(s: State, t: State, p: nat, i: nat, drain: set<Slot>)
    requires ChainsFeed(s, drain) && WakesEach(s, t, p, i)
    ensures ChainsFeed(t, drain)
  {
    hide OperandsReady;
    forall c, o | 0 <= c < |t.st| && 0 <= o < 2 && t.st[c].odeps.Get(o) != [] ensures Feeds(t, drain, c, o) {
      assert Feeds(s, drain, c, o);
    }
  }

  lemma WakesQueues(s: State, t: State, p: nat, i: nat, w: Work)
    requires Statuses(s) && ReadyOk(s, w.local) && EventsOk(s, w.due) && WakesEach(s, t, p, i)
    ensures Statuses(t) && ReadyOk(t, w.local) && EventsOk(t, w.due)
  {
    hide Keys, Sorted, Valid;
    forall q: nat | InFlight(t, q) ensures InFlight(s, q) && StatusOk(t.st[q]) {
      assert InFlight(s, q) && StatusOk(s.st[q]);
      assert s.st[q].ready.Get(0) ==> t.st[q].ready.Get(0);
      assert s.st[q].ready.Get(1) ==> t.st[q].ready.Get(1);
      assert s.st[q].ready.Get(2) ==> t.st[q].ready.Get(2);
    }
    forall key ensures KeyOk(t, key) == KeyOk(s, key) {}
  }

  lemma WakesNoneLost(s: State, t: State, p: nat, i: nat, w: Work)
    requires NoneLost(s, w.open) && Wakes(s, t, p, i)
    ensures NoneLost(t, Woken(s, w, p, i).open)
  {
    forall q: nat | InFlight(t, q) && q !in Woken(s, w, p, i).open && OperandsReady(t.st[q]) && t.st[q].kind != Load
      ensures t.st[q].queued || t.st[q].issued
    {
      assert InFlight(s, q);
    }
  }

  lemma WakesPool(s: State, t: State, p: nat, i: nat, inHand: nat)
    requires PoolOk(s, inHand) && Wakes(s, t, p, i)
    ensures PoolOk(t, inHand + 1)
  {
    hide Keys;
    var chain := s.st[p].odeps.Get(i);
    var x := s.st[p].(odeps := s.st[p].odeps.Set(i, chain[1..]));
    ChainLinksPut(s.st, p, x);
    ChainLinksFrame(s.st[p := x], t.st);
  }

  lemma WakesKeepsMid(s: State, t: State, p: nat, i: nat, w: Work)
    requires Mid(s, w) && Wakes(s, t, p, i) && s.st[p].completed
    ensures Mid(t, Woken(s, w, p, i)) && SameLayout(s, t)
  {
    hide Layout, Statuses, ReadyOk, EventsOk, PreciseCreators, LoadsOk, NoneLost, SpecCreators, Branch;
    hide UnreadyWait, ChainLinksOk, ChainsFeed, PoolOk, Wakes, OperandsReady, Valid;
    LayoutGives(s);
    WakesEachOne(s, t, p, i);
    assert SameLayout(s, t);
    LayoutFrame(s, t);
    WakesQueues(s, t, p, i, w);
    WakesNoneLost(s, t, p, i, w);
    WakesPool(s, t, p, i, |w.local| + w.held);
    WakesUnready(s, t, p, i, w);
    WakesLinks(s, t, p, i, w);
    WakesFeed(s, t, p, i, w.drain);
    CreatorsFrame(s, t, w.shown);
    LoadsFrame(s, t);
    BranchFrame(s, t);
  }

  /** Station q need not be queued after all. */
  lemma CloseKeepsMid(s: State, w: Work, q: nat)
    requires Mid(s, w) && q < |s.st|
    requires !OperandsReady(s.st[q]) || s.st[q].kind == Load || s.st[q].queued || s.st[q].issued
    ensures Mid(s, w.(open := w.open - {q}))
  {
    hide Layout, Statuses, ReadyOk, EventsOk, ChainsOk, PreciseCreators, LoadsOk, SpecCreators, Branch, PoolOk;
  }

  /** Once its chain is empty a slot has nothing left to wake. */
  lemma EndDrain(s: State, w: Work, p: nat, i: nat)
    requires Mid(s, w) && p < |s.st| && s.st[p].odeps.Get(i) == []
    ensures Mid(s, w.(drain := w.drain - {Slot(p, i)}))
  {
    hide Layout, Statuses, ReadyOk, EventsOk, PreciseCreators, LoadsOk, NoneLost, SpecCreators, Branch, PoolOk;
    var d := w.drain - {Slot(p, i)};
    forall q: nat, k: nat | InFlight(s, q) && 0 <= k < 3 && !s.st[q].ready.Get(k) ensures Waits(s, d, q, k) {
      assert Waits(s, w.drain, q, k);
    }
    forall c, o | 0 <= c < |s.st| && 0 <= o < 2 && s.st[c].odeps.Get(o) != [] ensures Feeds(s, d, c, o) {
      assert Feeds(s, w.drain, c, o);
    }
  }
}
