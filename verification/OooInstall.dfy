/** ruu_install_odep: the new station becomes the youngest writer of its output register. */
module OooInstall {
  import opened OooState
  import opened OooLists
  import opened OooInvariant
  import opened OooFrames
  import opened OooQueueSteps
  import opened OooCompletion
  import opened OooCommit
  import opened OooAlloc
  import opened OooLink

  ghost function Renamed(x: Station, o: nat, name: Reg): Station {
    x.(onames := x.onames.Set(o, name))
  }

  /** Station p gets an output name; nothing else about stations changes. */
  ghost predicate Installs(s: State, t: State, p: nat, o: nat, name: Reg) {
    && p < |s.st| && o < 2 && name != NA && s.st[p].onames.Get(o) == NA && (o == 0 ==> s.st[p].onames.b == NA)
    && t == (if s.specMode
             then s.(st := s.st[p := Renamed(s.st[p], o, name)], useSpec := s.useSpec + {name}, specCv := t.specCv)
             else s.(st := s.st[p := Renamed(s.st[p], o, name)], cv := t.cv))
    && |s.cv| == TOTAL_REGS && |s.specCv| == TOTAL_REGS
    && (s.specMode ==> t.specCv == s.specCv[name := Creator(p, o)])
    && (!s.specMode ==> t.cv == s.cv[name := Creator(p, o)])
  }

  /** Every field of every station but output names is as before. */
  lemma InstallsFields(s: State, t: State, p: nat, o: nat, name: Reg)
    requires Installs(s, t, p, o, name)
    ensures |t.st| == |s.st| && t.cfg == s.cfg
    ensures forall q :: 0 <= q < |s.st| ==> t.st[q] == s.st[q].(onames := t.st[q].onames)
    ensures forall q :: 0 <= q < |s.st| && q != p ==> t.st[q] == s.st[q]
    ensures forall e: nat :: e < 2 && s.st[p].onames.Get(e) != NA ==> t.st[p].onames.Get(e) == s.st[p].onames.Get(e)
    ensures t == s.(st := t.st, cv := t.cv, specCv := t.specCv, useSpec := t.useSpec)
  {
    TwoSet(s.st[p].onames, o, name);
  }

  lemma InstallsLayout(s: State, t: State, p: nat, o: nat, name: Reg)
    requires Layout(s) && Installs(s, t, p, o, name) && s.st[p].kind != Store && Wf(t)
    ensures Layout(t)
  {
    hide RuuPart, LsqPart, Ring, Wf, Kinds, Installs, History, Structure, Paired, Split;
    InstallsOrder(s, t, p, o, name);
    InstallsKinds(s, t, p, o, name);
    InstallsHistory(s, t, p, o, name);
  }

  lemma InstallsOrder(s: State, t: State, p: nat, o: nat, name: Reg)
    requires Structure(s) && Paired(s) && Split(s) && Installs(s, t, p, o, name) && Wf(t)
    ensures Structure(t) && Paired(t) && Split(t)
  {
    hide RuuPart, LsqPart, Ring, CfgOk, Installs;
    InstallsFields(s, t, p, o, name);
  }

  lemma InstallsKinds(s: State, t: State, p: nat, o: nat, name: Reg)
    requires Kinds(s) && Installs(s, t, p, o, name) && s.st[p].kind != Store
    ensures Kinds(t)
  {
    forall q: nat | InFlight(t, q) ensures KindOk(t.cfg, q, t.st[q]) {
      assert InFlight(s, q) && KindOk(s.cfg, q, s.st[q]);
    }
  }

  lemma InstallsHistory(s: State, t: State, p: nat, o: nat, name: Reg)
    requires Structure(s) && Split(s) && History(s) && Structure(t) && Split(t) && Installs(s, t, p, o, name)
    ensures History(t)
  {
    hide RuuPart, LsqPart, Ring, CfgOk, Installs;
    InstallsFields(s, t, p, o, name);
    CorrectPathInRange(s);
    CorrectPathInRange(t);
    var ids := RuuPart(s.rob[..s.nspec], s.cfg.ruuSize);
    assert SeqnosOf(s.st, ids) == SeqnosOf(t.st, ids);
  }

  lemma InstallsQueues(s: State, t: State, p: nat, o: nat, name: Reg, w: Work)
    requires Statuses(s) && ReadyOk(s, w.local) && EventsOk(s, w.due) && NoneLost(s, w.open) && PoolOk(s, 0)
    requires Installs(s, t, p, o, name)
    ensures Statuses(t) && ReadyOk(t, w.local) && EventsOk(t, w.due) && NoneLost(t, w.open) && PoolOk(t, 0)
  {
    hide Keys, Sorted, Installs, ChainLinks;
    InstallsFields(s, t, p, o, name);
    forall q: nat ensures InFlight(t, q) == InFlight(s, q) {}
    forall key ensures KeyOk(t, key) == KeyOk(s, key) {}
    ChainLinksFrame(s.st, t.st);
  }

  lemma InstallsChains(s: State, t: State, p: nat, o: nat, name: Reg)
    requires ChainsOk(s, {}) && Installs(s, t, p, o, name)
    ensures ChainsOk(t, {})
  {
    hide Installs;
    InstallsFields(s, t, p, o, name);
    forall c: nat, e: nat | Feeds(s, {}, c, e) ensures Feeds(t, {}, c, e) {}
    forall q: nat, k: nat | InFlight(t, q) && 0 <= k < 3 && !t.st[q].ready.Get(k) ensures Waits(t, {}, q, k) {
      assert InFlight(s, q) && Waits(s, {}, q, k);
    }
    forall c, e, l | OnChain(t, c, e, l) ensures ChainLinkOk(t, c, e, l) {
      assert OnChain(s, c, e, l) && ChainLinkOk(s, c, e, l);
    }
  }

  lemma InstallsLoads(s: State, t: State, p: nat, o: nat, name: Reg)
    requires LoadsOk(s) && Installs(s, t, p, o, name)
    ensures LoadsOk(t)
  {
    hide LsqPart, MemReady, Installs;
    InstallsFields(s, t, p, o, name);
    var lq := LsqPart(s.rob, s.cfg.ruuSize);
    forall i | 0 <= i < |lq| && lq[i] < |t.st| && t.st[lq[i]].kind == Load && t.st[lq[i]].queued
      ensures MemReady(t.st, lq[..i], t.st[lq[i]].addr)
    {
      MemReadyFrame(s.st, t.st, lq[..i], t.st[lq[i]].addr);
    }
  }

  lemma InstallsBranch(s: State, t: State, p: nat, o: nat, name: Reg)
    requires s.nspec <= |s.rob| && Branch(s) && Installs(s, t, p, o, name)
    ensures Branch(t)
  {
    hide Installs;
    InstallsFields(s, t, p, o, name);
    forall q: nat ensures Unresolved(t, q) == Unresolved(s, q) {}
  }

  /** The youngest writer after station order[i] got a name, when nothing younger has one. */
  lemma WriterInstalled(st: seq<Station>, order: seq<nat>, i: nat, o: nat, name: Reg, n: Reg)
    requires i < |order| && order[i] < |st| && o < 2 && name != NA && n != NA
    requires forall j :: 0 <= j < i ==> order[j] < |st| && order[j] != order[i]
    requires forall j :: i < j < |order| ==> order[j] < |st| && order[j] != order[i] && st[order[j]].onames == Two(NA, NA)
    requires st[order[i]].onames.Get(o) == NA && (o == 0 ==> st[order[i]].onames.b == NA)
    ensures var st' := st[order[i] := Renamed(st[order[i]], o, name)];
            Writer(st', order, n) == if n == name then Creator(order[i], o) else Writer(st, order, n)
  {
    hide Writer;
    var p := order[i];
    var st' := st[p := Renamed(st[p], o, name)];
    var a, b := order[..i], order[i + 1..];
    assert order == (a + [p]) + b;
    WriterOfConcat(st, a + [p], b, n);
    WriterOfConcat(st', a + [p], b, n);
    WriterOfConcat(st, a, [p], n);
    WriterOfConcat(st', a, [p], n);
    NoWriter(st, b, n);
    NoWriter(st', b, n);
    WriterFrame(st, st', a, n);
    OneWriter(st, p, n);
    OneWriter(st', p, n);
  }

  lemma OneWriter(st: seq<Station>, p: nat, n: Reg)
    requires p < |st|
    ensures Writer(st, [p], n) == if st[p].onames.b == n then Creator(p, 1)
                                  else if st[p].onames.a == n then Creator(p, 0) else NoCreator
  {
    assert [p][..0] == [];
  }

  /** Where p stands in its half of program order. */
  ghost predicate StandsAt(s: State, part: seq<nat>, p: nat, i: nat) {
    && i < |part| && part[i] == p && p < |s.st|
    && (forall j :: 0 <= j < i ==> part[j] < |s.st| && part[j] != p)
    && (forall j :: i < j < |part| ==> part[j] < |s.st| && part[j] != p && s.st[part[j]].onames == Two(NA, NA))
  }

  lemma BuildingStands(s: State, p: nat, at: nat)
    requires Structure(s) && Split(s) && Building(s, p, at)
    ensures if s.specMode then s.nspec <= at && StandsAt(s, s.rob[s.nspec..], p, at - s.nspec)
            else s.nspec == |s.rob| && StandsAt(s, s.rob[..s.nspec], p, at)
    ensures s.specMode ==> p !in s.rob[..s.nspec]
  {
    hide RuuPart, LsqPart, Ring, CfgOk;
    forall a, b | 0 <= a < b < |s.rob| ensures s.rob[a] != s.rob[b] {
      assert s.st[s.rob[a]].seqno < s.st[s.rob[b]].seqno;
    }
  }

  lemma InstallsPrecise(s: State, t: State, p: nat, o: nat, name: Reg, at: nat)
    requires Structure(s) && Split(s) && Building(s, p, at) && Installs(s, t, p, o, name) && PreciseCreators(s, {})
    ensures PreciseCreators(t, {})
  {
    hide Writer, Structure, Split, RuuPart, LsqPart, Ring;
    BuildingStands(s, p, at);
    InstallsFields(s, t, p, o, name);
    var a := s.rob[..s.nspec];
    forall n: Reg | n != NA ensures t.cv[n] == Outstanding(t, {}, Writer(t.st, t.rob[..t.nspec], n)) {
      if s.specMode {
        WriterFrame(s.st, t.st, a, n);
      } else {
        WriterInstalled(s.st, a, at, o, name, n);
      }
      WriterNames(s.st, a, n);
    }
  }

  lemma InstallsSpec(s: State, t: State, p: nat, o: nat, name: Reg, at: nat)
    requires Structure(s) && Split(s) && Building(s, p, at) && Installs(s, t, p, o, name) && SpecCreators(s, {})
    ensures SpecCreators(t, {})
  {
    hide Writer, Structure, Split, RuuPart, LsqPart, Ring;
    BuildingStands(s, p, at);
    InstallsFields(s, t, p, o, name);
    var b := s.rob[s.nspec..];
    forall n: Reg | n != NA
      ensures var w := Writer(t.st, t.rob[t.nspec..], n);
              && (n in t.useSpec <==> w.Creator?) && (n in t.useSpec ==> t.specCv[n] == Outstanding(t, {}, w))
    {
      if s.specMode {
        WriterInstalled(s.st, b, at - s.nspec, o, name, n);
      } else {
        assert b == [];
        WriterFrame(s.st, t.st, b, n);
      }
      WriterNames(s.st, b, n);
    }
  }

  lemma InstallsKeepsMid(s: State, t: State, p: nat, o: nat, name: Reg, at: nat, open: set<nat>)
    requires Mid(s, IDLE.(open := open)) && Building(s, p, at) && Installs(s, t, p, o, name) && s.st[p].kind != Store
    requires Wf(t)
    ensures Mid(t, IDLE.(open := open)) && Building(t, p, at)
  {
    hide Statuses, ReadyOk, EventsOk, ChainsOk, PreciseCreators, LoadsOk, NoneLost, SpecCreators, Branch, PoolOk;
    hide Structure, Paired, Kinds, Split, History, Installs, Building, Wf;
    var w := IDLE.(open := open);
    LayoutGives(s);
    InstallsLayout(s, t, p, o, name);
    LayoutGives(t);
    InstallsQueues(s, t, p, o, name, w);
    InstallsChains(s, t, p, o, name);
    InstallsPrecise(s, t, p, o, name, at);
    InstallsSpec(s, t, p, o, name, at);
    InstallsLoads(s, t, p, o, name);
    InstallsBranch(s, t, p, o, name);
    InstallsBuilding(s, t, p, o, name, at);
  }

  lemma InstallsBuilding(s: State, t: State, p: nat, o: nat, name: Reg, at: nat)
    requires Structure(s) && Building(s, p, at) && Installs(s, t, p, o, name)
    ensures Building(t, p, at)
  {
    hide RuuPart, LsqPart, Ring, CfgOk, Installs;
    InstallsFields(s, t, p, o, name);
    forall j | at < j < |s.rob| ensures s.rob[j] != p {
      assert s.st[s.rob[at]].seqno < s.st[s.rob[j]].seqno;
    }
  }

  /** ruu_install_odep on a station being dispatched; slots are installed in the order 0, 1. */
  lemma InstallStage(s: State, p: nat, o: nat, name: Reg, at: nat, open: set<nat>)
    requires Mid(s, IDLE.(open := open)) && Wf(s) && Building(s, p, at) && o < 2 && p < |s.st|
    requires s.st[p].onames.Get(o) == NA && (o == 0 ==> s.st[p].onames.b == NA)
    requires name != NA ==> s.st[p].kind != Store
    ensures var t := InstallOdep(s, p, o, name);
            && Mid(t, IDLE.(open := open)) && Building(t, p, at) && |t.st| == |s.st|
            && t.st[p] == Renamed(s.st[p], o, name) && (forall q :: 0 <= q < |s.st| && q != p ==> t.st[q] == s.st[q])
            && t == s.(st := t.st, cv := t.cv, specCv := t.specCv, useSpec := t.useSpec)
  {
    hide Mid, Building, CfgOk;
    var t := InstallOdep(s, p, o, name);
    if name == NA {
      assert Renamed(s.st[p], o, NA) == s.st[p];
      assert s.st[p := s.st[p]] == s.st;
    } else {
      assert s.st[p].odeps.Get(o) == [] by { UnnamedSlotEmpty(s, p, o, open); }
      assert s.st[p].odeps.Set(o, []) == s.st[p].odeps;
      assert Installs(s, t, p, o, name);
      InstallsKeepsMid(s, t, p, o, name, at, open);
    }
  }

  lemma UnnamedSlotEmpty(s: State, p: nat, o: nat, open: set<nat>)
    requires Mid(s, IDLE.(open := open)) && p < |s.st| && o < 2 && s.st[p].onames.Get(o) == NA
    ensures s.st[p].odeps.Get(o) == []
  {
    hide Statuses, ReadyOk, EventsOk, PreciseCreators, LoadsOk, NoneLost, SpecCreators, Branch, PoolOk, Layout;
    hide UnreadyWait, ChainLinksOk;
    assert s.st[p].odeps.Get(o) != [] ==> Feeds(s, {}, p, o);
  }
}
