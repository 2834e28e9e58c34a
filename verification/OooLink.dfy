/** Renaming: linking operands to their producers and installing a station as the creator of its outputs. */
module OooLink {
  import opened OooState
  import opened OooLists
  import opened OooInvariant
  import opened OooFrames
  import opened OooQueueSteps
  import opened OooCompletion
  import opened OooCommit

  /** Station p, at place `at` of program order, is being dispatched: nothing younger has outputs yet. */
  ghost predicate Building(s: State, p: nat, at: nat) {
    && at < |s.rob| && s.rob[at] == p && p < |s.st|
    && !s.st[p].queued && !s.st[p].issued && !s.st[p].completed
    && (forall j :: at < j < |s.rob| ==> s.rob[j] < |s.st| && s.st[s.rob[j]].onames == Two(NA, NA))
    && (s.cfg.ruuSize <= p ==> at == |s.rob| - 1)
    && (s.st[p].spec <==> s.specMode)
    && (!s.specMode ==> s.nspec == |s.rob|)
  }

  /** Operand k of p is put on the chain of slot (c, o). */
  ghost predicate Links(s: State, t: State, p: nat, k: nat, c: nat, o: nat) {
    && p < |s.st| && c < |s.st| && c != p && o < 2 && k < 3 && 0 < s.free
    && var l := Link(p, s.st[p].tag, k);
       t == s.(st := s.st[p := s.st[p].(ready := s.st[p].ready.Set(k, false))]
                     [c := s.st[c].(odeps := s.st[c].odeps.Set(o, [l] + s.st[c].odeps.Get(o)))],
               free := s.free - 1, prod := s.prod[Opnd(p, k) := Slot(c, o)])
  }

  /** Slot (c, o) is what the create vector shows: an older station still owing register `name`. */
  ghost predicate Creates(s: State, c: nat, o: nat, p: nat) {
    && InFlight(s, c) && o < 2 && !s.st[c].completed && s.st[c].onames.Get(o) != NA && p < |s.st|
    && s.st[c].seqno < s.st[p].seqno
  }

  lemma LinksQueues(s: State, t: State, p: nat, k: nat, c: nat, o: nat, w: Work)
    requires Statuses(s) && ReadyOk(s, w.local) && EventsOk(s, w.due) && NoneLost(s, w.open)
    requires Links(s, t, p, k, c, o) && !s.st[p].queued && !s.st[p].issued && p in w.open && InFlight(s, p)
    ensures Statuses(t) && ReadyOk(t, w.local) && EventsOk(t, w.due) && NoneLost(t, w.open)
  {
    hide Keys, Sorted;
    LinksOthers(s, t, p, k, c, o);
    forall q: nat | InFlight(t, q)
      ensures InFlight(s, q) && StatusOk(t.st[q]) && (q != p ==> OperandsReady(t.st[q]) == OperandsReady(s.st[q]))
    {
      assert InFlight(s, q) && StatusOk(s.st[q]);
    }
    forall key ensures KeyOk(t, key) == KeyOk(s, key) {}
  }

  lemma LinksOthers(s: State, t: State, p: nat, k: nat, c: nat, o: nat)
    requires Links(s, t, p, k, c, o)
    ensures |t.st| == |s.st| && t.rob == s.rob
    ensures forall q :: 0 <= q < |s.st| ==> t.st[q] == s.st[q].(odeps := t.st[q].odeps, ready := t.st[q].ready)
    ensures forall q :: 0 <= q < |s.st| && q != p ==> t.st[q].ready == s.st[q].ready
    ensures forall q :: 0 <= q < |s.st| && q != c ==> t.st[q].odeps == s.st[q].odeps
    ensures forall j: nat :: j < 3 ==> t.st[p].ready.Get(j) == (j != k && s.st[p].ready.Get(j))
    ensures t.st[c].odeps.Get(o) == [Link(p, s.st[p].tag, k)] + s.st[c].odeps.Get(o)
    ensures t.st[c].odeps.Get(1 - o) == s.st[c].odeps.Get(1 - o)
  {
    hide *;
    LinksStations(s, t, p, k, c, o);
    LinksFrame(s, t, p, k, c, o);
    ThreeSet(s.st[p].ready, k, false);
    TwoSet(s.st[c].odeps, o, [Link(p, s.st[p].tag, k)] + s.st[c].odeps.Get(o));
  }

  lemma LinksFrame(s: State, t: State, p: nat, k: nat, c: nat, o: nat)
    requires Links(s, t, p, k, c, o)
    ensures |t.st| == |s.st|
    ensures forall q :: 0 <= q < |s.st| ==> t.st[q] == s.st[q].(odeps := t.st[q].odeps, ready := t.st[q].ready)
    ensures forall q :: 0 <= q < |s.st| && q != p ==> t.st[q].ready == s.st[q].ready
    ensures forall q :: 0 <= q < |s.st| && q != c ==> t.st[q].odeps == s.st[q].odeps
  {
    hide *;
    LinksStations(s, t, p, k, c, o);
    forall q | 0 <= q < |s.st|
      ensures t.st[q] == s.st[q].(odeps := t.st[q].odeps, ready := t.st[q].ready)
      ensures q != p ==> t.st[q].ready == s.st[q].ready
      ensures q != c ==> t.st[q].odeps == s.st[q].odeps
    {
      if q != p && q != c { assert t.st[q] == s.st[q]; }
    }
  }

  lemma LinksStations(s: State, t: State, p: nat, k: nat, c: nat, o: nat)
    requires Links(s, t, p, k, c, o)
    ensures p < |s.st| && c < |s.st| && p != c && o < 2 && k < 3 && |t.st| == |s.st| && t.rob == s.rob
    ensures forall q :: 0 <= q < |s.st| && q != p && q != c ==> t.st[q] == s.st[q]
    ensures t.st[p] == s.st[p].(ready := s.st[p].ready.Set(k, false))
    ensures t.st[c] == s.st[c].(odeps := s.st[c].odeps.Set(o, [Link(p, s.st[p].tag, k)] + s.st[c].odeps.Get(o)))
  {
  }

  lemma ThreeSet<T>(r: Three<T>, k: nat, v: T)
    requires k < 3
    ensures forall j: nat :: j < 3 ==> r.Set(k, v).Get(j) == if j == k then v else r.Get(j)
  {
  }

  lemma TwoSet<T>(r: Two<T>, k: nat, v: T)
    requires k < 2
    ensures forall j: nat :: j < 2 ==> r.Set(k, v).Get(j) == if j == k then v else r.Get(j)
  {
  }

  lemma LinksUnready(s: State, t: State, p: nat, k: nat, c: nat, o: nat)
    requires UnreadyWait(s, {}) && ChainLinksOk(s) && Links(s, t, p, k, c, o) && Creates(s, c, o, p)
    requires s.st[p].ready.Get(k)
    ensures UnreadyWait(t, {})
  {
    hide Links, OperandsReady;
    LinksOthers(s, t, p, k, c, o);
    assert t.prod == s.prod[Opnd(p, k) := Slot(c, o)] by { LinksProd(s, t, p, k, c, o); }
    var l := Link(p, s.st[p].tag, k);
    assert l !in s.st[c].odeps.Get(o) by {
      assert l in s.st[c].odeps.Get(o) ==> OnChain(s, c, o, l) && ChainLinkOk(s, c, o, l);
    }
    forall q: nat, j: nat | InFlight(t, q) && 0 <= j < 3 && !t.st[q].ready.Get(j) ensures Waits(t, {}, q, j) {
      if q == p && j == k {
        assert multiset(t.st[c].odeps.Get(o))[l] == 1;
      } else {
        assert InFlight(s, q) && Waits(s, {}, q, j);
        var w := s.prod[Opnd(q, j)];
        assert w.rs == c && w.odep == 1 - o ==> t.st[c].odeps.Get(w.odep) == s.st[c].odeps.Get(w.odep);
        assert Link(q, s.st[q].tag, j) != l;
      }
    }
  }

  lemma LinksProd(s: State, t: State, p: nat, k: nat, c: nat, o: nat)
    requires Links(s, t, p, k, c, o)
    ensures t.prod == s.prod[Opnd(p, k) := Slot(c, o)]
  {
  }

  lemma LinksChains(s: State, t: State, p: nat, k: nat, c: nat, o: nat)
    requires ChainLinksOk(s) && ChainsFeed(s, {}) && Links(s, t, p, k, c, o) && Creates(s, c, o, p)
    requires s.st[p].ready.Get(k) && InFlight(s, p) && k < 3
    ensures ChainLinksOk(t) && ChainsFeed(t, {})
  {
    hide Links, OperandsReady;
    LinksOthers(s, t, p, k, c, o);
    LinksProd(s, t, p, k, c, o);
    forall d, e, l | OnChain(t, d, e, l) ensures ChainLinkOk(t, d, e, l) {
      if d == c && e == o && l == Link(p, s.st[p].tag, k) {
      } else {
        assert e == 1 - o ==> t.st[c].odeps.Get(e) == s.st[c].odeps.Get(e);
        assert OnChain(s, d, e, l) && ChainLinkOk(s, d, e, l);
        assert KeyOk(s, Key(l.rs, l.tag));
        assert l.tag == s.st[l.rs].tag ==> Opnd(l.rs, l.x) != Opnd(p, k);
      }
    }
    forall d, e | 0 <= d < |t.st| && 0 <= e < 2 && t.st[d].odeps.Get(e) != [] ensures Feeds(t, {}, d, e) {
      if d != c || e != o { assert Feeds(s, {}, d, e); }
    }
  }

  lemma LinksPool(s: State, t: State, p: nat, k: nat, c: nat, o: nat, inHand: nat)
    requires PoolOk(s, inHand) && Links(s, t, p, k, c, o)
    ensures PoolOk(t, inHand)
  {
    var x := s.st[p].(ready := s.st[p].ready.Set(k, false));
    var y := s.st[c].(odeps := s.st[c].odeps.Set(o, [Link(p, s.st[p].tag, k)] + s.st[c].odeps.Get(o)));
    ChainLinksPut(s.st, p, x);
    ChainLinksPut(s.st[p := x], c, y);
  }

  lemma LinksLoads(s: State, t: State, p: nat, k: nat, c: nat, o: nat, at: nat)
    requires Structure(s) && LoadsOk(s) && Links(s, t, p, k, c, o) && Building(s, p, at)
    ensures LoadsOk(t)
  {
    hide LsqPart, RuuPart, Ring, MemReady, Links, CfgOk, OperandsReady;
    LinksOthers(s, t, p, k, c, o);
    var r := s.cfg.ruuSize;
    var lq := LsqPart(s.rob, r);
    PartMembers(s.rob, r);
    assert t.cfg == s.cfg by { LinksCfg(s, t, p, k, c, o); }
    forall i | 0 <= i < |lq| && lq[i] < |t.st| && t.st[lq[i]].kind == Load && t.st[lq[i]].queued
      ensures MemReady(t.st, lq[..i], t.st[lq[i]].addr)
    {
      assert p !in lq[..i] by { NotOlder(s, p, at, i); }
      MemReadyFrame(s.st, t.st, lq[..i], t.st[lq[i]].addr);
    }
  }

  lemma LinksCfg(s: State, t: State, p: nat, k: nat, c: nat, o: nat)
    requires Links(s, t, p, k, c, o)
    ensures t.cfg == s.cfg
  {
  }

  /** A station under construction is older than no LSQ entry. */
  lemma NotOlder(s: State, p: nat, at: nat, i: nat)
    requires Structure(s) && Building(s, p, at) && i < |LsqPart(s.rob, s.cfg.ruuSize)|
    ensures p !in LsqPart(s.rob, s.cfg.ruuSize)[..i]
  {
    hide RuuPart, Ring, CfgOk;
    var r := s.cfg.ruuSize;
    var lq := LsqPart(s.rob, r);
    PartMembers(s.rob, r);
    forall a, b | 0 <= a < b < |s.rob| ensures s.rob[a] != s.rob[b] {
      assert s.st[s.rob[a]].seqno < s.st[s.rob[b]].seqno;
    }
    PartsDistinct(s.rob, r);
    if p >= r {
      assert lq[|lq| - 1] == p;
    } else {
      assert p in lq[..i] ==> p in lq;
    }
  }

  lemma LinksKeepsMid(s: State, t: State, p: nat, k: nat, c: nat, o: nat, at: nat, open: set<nat>)
    requires Mid(s, IDLE.(open := open)) && Links(s, t, p, k, c, o) && Creates(s, c, o, p)
    requires Building(s, p, at) && s.st[p].ready.Get(k) && p in open && k < 3
    ensures Mid(t, IDLE.(open := open)) && SameLayout(s, t)
  {
    hide Statuses, ReadyOk, EventsOk, UnreadyWait, ChainLinksOk, ChainsFeed, PreciseCreators, LoadsOk, NoneLost;
    hide SpecCreators, Branch, PoolOk, Links, Structure, Paired, Kinds, Split, History, OperandsReady;
    var w := IDLE.(open := open);
    StructureGives(s);
    LayoutGives(s);
    assert InFlight(s, p);
    LinksLayout(s, t, p, k, c, o);
    LayoutFrame(s, t);
    LinksQueues(s, t, p, k, c, o, w);
    LinksUnready(s, t, p, k, c, o);
    LinksChains(s, t, p, k, c, o);
    LinksPool(s, t, p, k, c, o, 0);
    LinksLoads(s, t, p, k, c, o, at);
    CreatorsFrame(s, t, {});
    BranchFrame(s, t);
  }

  lemma LinksLayout(s: State, t: State, p: nat, k: nat, c: nat, o: nat)
    requires Wf(s) && Links(s, t, p, k, c, o)
    ensures SameLayout(s, t) && t.cv == s.cv && t.specCv == s.specCv && t.useSpec == s.useSpec
    ensures forall q :: 0 <= q < |s.st| ==> t.st[q].completed == s.st[q].completed
  {
    hide OperandsReady;
    forall q | 0 <= q < |s.st| ensures Static(t.st[q]) == Static(s.st[q]) && t.st[q].completed == s.st[q].completed {}
  }

  /** The create vector of a dispatching core names the youngest in-flight writer while its result is
      outstanding, whatever mixture of speculative and correct-path entries it is made of. */
  lemma CreateVectorIsYoungest(s: State, name: Reg)
    requires Wf(s) && PreciseCreators(s, {}) && SpecCreators(s, {}) && name != NA
    requires forall i :: 0 <= i < |s.rob| ==> s.rob[i] < |s.st|
    ensures CreateVector(s, name) == Outstanding(s, {}, Writer(s.st, s.rob, name))
  {
    hide Wf, Writer, CfgOk;
    assert s.rob == s.rob[..s.nspec] + s.rob[s.nspec..];
    WriterOfConcat(s.st, s.rob[..s.nspec], s.rob[s.nspec..], name);
  }

  lemma CreatorIsOlder(s: State, p: nat, at: nat, name: Reg, open: set<nat>)
    requires Mid(s, IDLE.(open := open)) && Wf(s) && Building(s, p, at) && name != NA
    requires s.st[p].onames == Two(NA, NA)
    ensures var h := CreateVector(s, name); h.Creator? ==> Creates(s, h.rs, h.odep, p) && h.rs < |s.st| && h.rs != p
  {
    hide Statuses, ReadyOk, EventsOk, ChainsOk, LoadsOk, NoneLost, PreciseCreators, SpecCreators;
    hide Branch, PoolOk, Paired, Kinds, Split, History, RuuPart, LsqPart, Ring, Writer, Wf, CreateVector;
    CreateVectorIsYoungest(s, name);
    WriterNames(s.st, s.rob, name);
    var h := CreateVector(s, name);
    if h.Creator? {
      var i :| 0 <= i < |s.rob| && s.rob[i] == h.rs;
      assert i < at;
    }
  }

  /** What linking one station leaves as it was. */
  ghost predicate LinksOnly(s: State, t: State, p: nat) {
    && SameLayout(s, t) && t.lastOp == s.lastOp && p < |s.st|
    && (forall q :: 0 <= q < |s.st| && q != p ==> t.st[q] == s.st[q].(odeps := t.st[q].odeps))
    && t.st[p].onames == s.st[p].onames && !t.st[p].queued && !t.st[p].issued && !t.st[p].completed
  }

  lemma LinkIdepStage(s: State, p: nat, k: nat, name: Reg, at: nat, open: set<nat>)
    requires Mid(s, IDLE.(open := open)) && Wf(s) && Building(s, p, at) && p in open
    requires s.st[p].onames == Two(NA, NA) && k < 3 && s.st[p].ready.Get(k)
    ensures match LinkIdep(s, p, k, name)
            case Ok(t) =>
              && Mid(t, IDLE.(open := open)) && Building(t, p, at) && LinksOnly(s, t, p) && p < |t.st|
              && (forall j: nat :: j < 3 && j != k ==> t.st[p].ready.Get(j) == s.st[p].ready.Get(j))
            case Halt(why) => why == OutOfLinks
  {
    hide Mid, CreateVector, OperandsReady, CfgOk, Building, LinksOnly;
    BuildingGives(s, p, at);
    if name == NA || CreateVector(s, name).NoCreator? {
      LinksNothing(s, p, k, at);
    } else {
      CreatorIsOlder(s, p, at, name, open);
      var h := CreateVector(s, name);
      if s.free > 0 { LinkMade(s, p, k, name, at, open); }
    }
  }

  lemma BuildingGives(s: State, p: nat, at: nat)
    requires Building(s, p, at)
    ensures p < |s.st|
  {
  }

  lemma LinksNothing(s: State, p: nat, k: nat, at: nat)
    requires Building(s, p, at) && s.st[p].ready.Get(k) && Wf(s)
    ensures Put(s, p, s.st[p].(ready := s.st[p].ready.Set(k, true))) == s && LinksOnly(s, s, p)
  {
    hide Wf;
    var x := s.st[p];
    assert x.ready.Set(k, true) == x.ready;
    assert s.st[p := x] == s.st;
  }

  lemma LinkMade(s: State, p: nat, k: nat, name: Reg, at: nat, open: set<nat>)
    requires Mid(s, IDLE.(open := open)) && Wf(s) && Building(s, p, at) && p in open && s.free > 0
    requires k < 3 && s.st[p].ready.Get(k) && name != NA
    requires var h := CreateVector(s, name); h.Creator? && Creates(s, h.rs, h.odep, p) && h.rs < |s.st| && h.rs != p
    ensures var t := LinkIdep(s, p, k, name).value;
            && LinkIdep(s, p, k, name).Ok?
            && Mid(t, IDLE.(open := open)) && Building(t, p, at) && LinksOnly(s, t, p) && p < |t.st|
            && (forall j: nat :: j < 3 && j != k ==> t.st[p].ready.Get(j) == s.st[p].ready.Get(j))
  {
    hide Mid, CreateVector, OperandsReady, CfgOk, Static;
    var h := CreateVector(s, name);
    var t := LinkIdep(s, p, k, name).value;
    assert Links(s, t, p, k, h.rs, h.odep);
    LinksKeepsMid(s, t, p, k, h.rs, h.odep, at, open);
    LinksOthers(s, t, p, k, h.rs, h.odep);
    LinksOnlyBuilds(s, t, p, at);
  }

  lemma LinksOnlyBuilds(s: State, t: State, p: nat, at: nat)
    requires Building(s, p, at) && SameLayout(s, t)
    requires !t.st[p].queued && !t.st[p].issued && !t.st[p].completed
    ensures Building(t, p, at)
  {
    hide Wf;
    SameNames(s, t);
    assert Static(t.st[p]) == Static(s.st[p]);
  }
}
