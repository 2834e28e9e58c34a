/** Steps that leave most of the core alone, and the clauses of the invariant they therefore keep. */
module OooFrames {
  import opened OooState
  import opened OooLists
  import opened OooInvariant

  /** Nothing changed that only dispatch, commit and recovery write. */
  ghost predicate SameLayout(s: State, t: State) {
    && Wf(t)
    && t.cfg == s.cfg && |t.st| == |s.st|
    && t.ruuHead == s.ruuHead && t.ruuTail == s.ruuTail && t.ruuNum == s.ruuNum
    && t.lsqHead == s.lsqHead && t.lsqTail == s.lsqTail && t.lsqNum == s.lsqNum
    && t.rob == s.rob && t.nspec == s.nspec && t.instSeq == s.instSeq && t.cycle == s.cycle
    && t.log == s.log && t.retired == s.retired && t.ifq == s.ifq && t.specMode == s.specMode
    && (forall p :: 0 <= p < |s.st| ==> Static(t.st[p]) == Static(s.st[p]))
  }

  lemma LayoutFrame(s: State, t: State)
    requires Layout(s) && SameLayout(s, t)
    ensures Layout(t)
  {
    hide RuuPart, LsqPart, Ring;
    StructureFrame(s, t);
    KindsFrame(s, t);
    HistoryFrame(s, t);
  }

  lemma StructureFrame(s: State, t: State)
    requires Structure(s) && Paired(s) && Split(s) && SameLayout(s, t)
    ensures Structure(t) && Paired(t) && Split(t)
  {
    hide RuuPart, LsqPart, Ring;
    forall p | 0 <= p < |s.st|
      ensures t.st[p].seqno == s.st[p].seqno && t.st[p].eaComp == s.st[p].eaComp && t.st[p].spec == s.st[p].spec
    {
      assert Static(t.st[p]) == Static(s.st[p]);
    }
  }

  lemma KindsFrame(s: State, t: State)
    requires Kinds(s) && SameLayout(s, t)
    ensures Kinds(t)
  {
    forall p: nat | InFlight(t, p) ensures KindOk(t.cfg, p, t.st[p]) {
      assert InFlight(s, p);
      assert Static(t.st[p]) == Static(s.st[p]);
    }
  }

  lemma HistoryFrame(s: State, t: State)
    requires Structure(s) && Split(s) && Structure(t) && Split(t) && History(s) && SameLayout(s, t)
    ensures History(t)
  {
    hide RuuPart, LsqPart, Ring;
    CorrectPathInRange(s);
    CorrectPathInRange(t);
    var ids := RuuPart(s.rob[..s.nspec], s.cfg.ruuSize);
    forall i | 0 <= i < |ids| ensures SeqnosOf(s.st, ids)[i] == SeqnosOf(t.st, ids)[i] {
      assert Static(t.st[ids[i]]) == Static(s.st[ids[i]]);
    }
    assert SeqnosOf(s.st, ids) == SeqnosOf(t.st, ids);
  }

  /** The youngest writer depends on the output names alone. */
  lemma {:induction false} WriterFrame(st: seq<Station>, st': seq<Station>, order: seq<nat>, n: Reg)
    requires |st| == |st'|
    requires forall p :: 0 <= p < |st| && p in order ==> st'[p].onames == st[p].onames
    ensures Writer(st', order, n) == Writer(st, order, n)
  {
    if order != [] {
      var rest := order[..|order| - 1];
      assert order == rest + [order[|order| - 1]];
      WriterFrame(st, st', rest, n);
    }
  }

  /** A step that keeps the layout keeps the create vectors, if it neither completes a station nor
      touches the vectors themselves. */
  lemma CreatorsFrame(s: State, t: State, drain: set<Slot>)
    requires SameLayout(s, t) && t.cv == s.cv && t.specCv == s.specCv && t.useSpec == s.useSpec
    requires forall p :: 0 <= p < |s.st| ==> t.st[p].completed == s.st[p].completed
    ensures PreciseCreators(s, drain) ==> PreciseCreators(t, drain)
    ensures SpecCreators(s, drain) ==> SpecCreators(t, drain)
  {
    hide Writer;
    forall n: Reg | s.nspec <= |s.rob|
      ensures Writer(t.st, t.rob[..t.nspec], n) == Writer(s.st, s.rob[..s.nspec], n)
      ensures Writer(t.st, t.rob[t.nspec..], n) == Writer(s.st, s.rob[s.nspec..], n)
    {
      SameNames(s, t);
      WriterFrame(s.st, t.st, s.rob[..s.nspec], n);
      WriterFrame(s.st, t.st, s.rob[s.nspec..], n);
    }
  }

  lemma SameNames(s: State, t: State)
    requires SameLayout(s, t)
    ensures forall p :: 0 <= p < |s.st| ==> t.st[p].onames == s.st[p].onames
  {
    forall p | 0 <= p < |s.st| ensures t.st[p].onames == s.st[p].onames {
      assert Static(t.st[p]) == Static(s.st[p]);
    }
  }

  lemma BranchFrame(s: State, t: State)
    requires s.nspec <= |s.rob| && SameLayout(s, t) && Branch(s)
    requires forall p :: 0 <= p < |s.st| ==> t.st[p].completed == s.st[p].completed
    ensures Branch(t)
  {
    forall p: nat ensures Unresolved(t, p) == Unresolved(s, p) {
      if p < |s.st| { assert Static(t.st[p]) == Static(s.st[p]); }
    }
  }

  /** A step that leaves output chains, tags, operand flags and completion alone. */
  lemma ChainsFrame(s: State, t: State, drain: set<Slot>)
    requires ChainsOk(s, drain) && SameLayout(s, t) && t.prod == s.prod
    requires forall p :: 0 <= p < |s.st| ==> t.st[p].completed == s.st[p].completed
    requires forall p :: 0 <= p < |s.st| ==> t.st[p].odeps == s.st[p].odeps && t.st[p].ready == s.st[p].ready
    ensures ChainsOk(t, drain)
  {
    SameFields(s, t);
    forall p: nat, k: nat | InFlight(t, p) && 0 <= k < 3 && !t.st[p].ready.Get(k) ensures Waits(t, drain, p, k) {
      assert Waits(s, drain, p, k);
    }
    forall c, o, l | OnChain(t, c, o, l) ensures ChainLinkOk(t, c, o, l) {
      assert OnChain(s, c, o, l);
    }
  }

  lemma SameFields(s: State, t: State)
    requires SameLayout(s, t)
    ensures forall p :: 0 <= p < |s.st| ==> t.st[p].tag == s.st[p].tag && t.st[p].seqno == s.st[p].seqno
    ensures forall p :: 0 <= p < |s.st| ==> t.st[p].onames == s.st[p].onames && t.st[p].kind == s.st[p].kind
    ensures forall p :: 0 <= p < |s.st| ==> t.st[p].addr == s.st[p].addr
  {
    forall p | 0 <= p < |s.st|
      ensures t.st[p].tag == s.st[p].tag && t.st[p].seqno == s.st[p].seqno
      ensures t.st[p].onames == s.st[p].onames && t.st[p].kind == s.st[p].kind && t.st[p].addr == s.st[p].addr
    {
      assert Static(t.st[p]) == Static(s.st[p]);
    }
  }

  lemma {:induction false} ChainLinksFrame(st: seq<Station>, st': seq<Station>)
    requires |st| == |st'|
    requires forall p :: 0 <= p < |st| ==> |st'[p].odeps.a| == |st[p].odeps.a| && |st'[p].odeps.b| == |st[p].odeps.b|
    ensures ChainLinks(st') == ChainLinks(st)
  {
    if st != [] { ChainLinksFrame(st[..|st| - 1], st'[..|st| - 1]); }
  }

  /** Changing the chains of one station changes the total by its difference. */
  lemma {:induction false} ChainLinksPut(st: seq<Station>, p: nat, x: Station)
    requires p < |st|
    ensures ChainLinks(st[p := x]) + |st[p].odeps.a| + |st[p].odeps.b| == ChainLinks(st) + |x.odeps.a| + |x.odeps.b|
  {
    var st' := st[p := x];
    var k := |st| - 1;
    if p == k {
      assert st'[..k] == st[..k];
    } else {
      ChainLinksPut(st[..k], p, x);
      assert st'[..k] == st[..k][p := x];
    }
  }

  lemma {:induction false} YoungestStoreFrame(st: seq<Station>, st': seq<Station>, older: seq<nat>, addr: nat)
    requires |st| == |st'|
    requires forall p :: 0 <= p < |st| && p in older ==> st'[p].kind == st[p].kind && st'[p].addr == st[p].addr
    ensures YoungestStore(st', older, addr) == YoungestStore(st, older, addr)
  {
    if older != [] {
      var rest := older[..|older| - 1];
      assert older == rest + [older[|older| - 1]];
      YoungestStoreFrame(st, st', rest, addr);
    }
  }

  /** Operands only become ready, so the memory dependences of a load stay met. */
  lemma MemReadyFrame(st: seq<Station>, st': seq<Station>, older: seq<nat>, addr: nat)
    requires MemReady(st, older, addr) && |st| == |st'|
    requires forall p :: 0 <= p < |st| && p in older ==> st'[p].kind == st[p].kind && st'[p].addr == st[p].addr
    requires forall p :: 0 <= p < |st| && p in older ==> forall k: nat :: st[p].ready.Get(k) ==> st'[p].ready.Get(k)
    ensures MemReady(st', older, addr)
  {
    YoungestStoreFrame(st, st', older, addr);
    forall j | 0 <= j < |older| && older[j] < |st| && st[older[j]].kind == Store ensures st'[older[j]].ready.b {
      assert older[j] in older && st[older[j]].ready.Get(1);
    }
    var y := YoungestStore(st, older, addr);
    if y >= 0 {
      assert older[y] in older;
      assert st[older[y]].ready.Get(0) && st[older[y]].ready.Get(1) && st[older[y]].ready.Get(2);
      assert st'[older[y]].ready.Get(0) && st'[older[y]].ready.Get(1) && st'[older[y]].ready.Get(2);
    }
  }

  /** A step that keeps the layout, queues no load, and makes no operand unready. */
  lemma LoadsFrame(s: State, t: State)
    requires LoadsOk(s) && SameLayout(s, t)
    requires forall p :: 0 <= p < |s.st| && t.st[p].queued && s.st[p].kind == Load ==> s.st[p].queued
    requires forall p :: 0 <= p < |s.st| ==> forall k: nat :: s.st[p].ready.Get(k) ==> t.st[p].ready.Get(k)
    ensures LoadsOk(t)
  {
    hide LsqPart, MemReady;
    SameFields(s, t);
    var lq := LsqPart(s.rob, s.cfg.ruuSize);
    forall i | 0 <= i < |lq| && lq[i] < |t.st| && t.st[lq[i]].kind == Load && t.st[lq[i]].queued
      ensures MemReady(t.st, lq[..i], t.st[lq[i]].addr)
    {
      MemReadyFrame(s.st, t.st, lq[..i], t.st[lq[i]].addr);
    }
  }
}
