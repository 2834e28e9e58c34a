/** ruu_recover and tracer_recover: squashing stops at the mispredicted branch, fires no panic, and leaves
    exactly the correct path in flight. */
module OooRecovery {
  import opened OooState
  import opened OooLists
  import opened OooInvariant
  import opened OooFrames
  import opened OooCompletion

  ghost function Squashed(x: Station): Station {
    x.(odeps := Two([], []), tag := x.tag + 1)
  }

  /** The youngest n stations are squashed. */
  ghost predicate Squashes(s: State, t: State, n: nat) {
    && Wf(t) && n <= |s.rob| && |t.st| == |s.st|
    && t == s.(st := t.st, free := t.free, rob := s.rob[..|s.rob| - n],
               ruuTail := t.ruuTail, ruuNum := t.ruuNum, lsqTail := t.lsqTail, lsqNum := t.lsqNum)
    && (forall q :: 0 <= q < |s.st| ==> t.st[q] == if q in s.rob[|s.rob| - n..] then Squashed(s.st[q]) else s.st[q])
    && t.free + ChainLinks(t.st) == s.free + ChainLinks(s.st)
  }

  /** Program order split at the squash point: survivors are strictly older than victims. */
  lemma Survivors(s: State, t: State, n: nat)
    requires Structure(s) && Squashes(s, t, n)
    ensures forall q :: q in t.rob ==> q in s.rob && q < |s.st| && q !in s.rob[|s.rob| - n..] && t.st[q] == s.st[q]
    ensures forall q :: q in s.rob ==> q in t.rob || q in s.rob[|s.rob| - n..]
    ensures forall q, v :: q in t.rob && v in s.rob[|s.rob| - n..] ==> v < |s.st| && s.st[q].seqno < s.st[v].seqno
  {
    hide Structure, Wf, ChainLinks;
    var k := |s.rob| - n;
    assert s.rob == s.rob[..k] + s.rob[k..];
    OlderThanTail(s, k);
  }

  lemma OlderThanTail(s: State, k: nat)
    requires Structure(s) && k <= |s.rob|
    ensures forall q, v :: q in s.rob[..k] && v in s.rob[k..] ==>
              q < |s.st| && v < |s.st| && s.st[q].seqno < s.st[v].seqno && q != v
    ensures forall q :: q in s.rob[..k] ==> q < |s.st|
  {
    hide RuuPart, LsqPart, Ring, Wf;
    forall q, v | q in s.rob[..k] && v in s.rob[k..]
      ensures q < |s.st| && v < |s.st| && s.st[q].seqno < s.st[v].seqno && q != v
    {
      var i :| 0 <= i < k && s.rob[i] == q;
      var j :| 0 <= j < |s.rob[k..]| && s.rob[k..][j] == v;
      assert s.rob[k + j] == v;
    }
  }

  lemma SquashesSplit(s: State, t: State, n: nat)
    requires Structure(s) && Paired(s) && Kinds(s) && Split(s) && Squashes(s, t, n)
    requires s.nspec + n <= |s.rob| && Structure(t)
    requires n < |s.rob| ==> !s.st[s.rob[|s.rob| - n - 1]].eaComp
    ensures Paired(t) && Kinds(t) && Split(t)
  {
    hide Structure, Paired, Kinds, Split, Squashes;
    SquashesPrefix(s, t, n);
    SquashesPaired(s, t, n);
    SquashesKinds(s, t, n);
    SquashesBoundary(s, t, n);
  }

  /** What is left is a prefix of program order, untouched. */
  ghost predicate Prefix(s: State, t: State) {
    && |t.rob| <= |s.rob| && t.cfg == s.cfg && t.ifq == s.ifq && t.nspec == s.nspec
    && forall i :: 0 <= i < |t.rob| ==>
         t.rob[i] == s.rob[i] && s.rob[i] < |s.st| && s.rob[i] < |t.st| && t.st[s.rob[i]] == s.st[s.rob[i]]
  }

  lemma SquashesPrefix(s: State, t: State, n: nat)
    requires Structure(s) && Squashes(s, t, n)
    ensures Prefix(s, t) && |t.rob| == |s.rob| - n
  {
    hide Structure, ChainLinks, Wf;
    Survivors(s, t, n);
    forall i | 0 <= i < |t.rob|
      ensures t.rob[i] == s.rob[i] && s.rob[i] < |s.st| && t.st[s.rob[i]] == s.st[s.rob[i]]
    {
      assert t.rob[i] in t.rob;
    }
  }

  lemma SquashesPaired(s: State, t: State, n: nat)
    requires Structure(s) && Structure(t) && Paired(s) && Prefix(s, t) && |t.rob| == |s.rob| - n
    requires n < |s.rob| ==> !s.st[s.rob[|s.rob| - n - 1]].eaComp
    ensures Paired(t)
  {
    hide RuuPart, LsqPart, Ring, Wf;
  }

  lemma SquashesKinds(s: State, t: State, n: nat)
    requires Kinds(s) && Prefix(s, t)
    ensures Kinds(t)
  {
    forall p: nat | InFlight(t, p) ensures KindOk(t.cfg, p, t.st[p]) {
      var i :| 0 <= i < |t.rob| && t.rob[i] == p;
      assert InFlight(s, p);
    }
  }

  lemma SquashesBoundary(s: State, t: State, n: nat)
    requires Structure(s) && Structure(t) && Split(s) && Prefix(s, t) && s.nspec <= |t.rob|
    ensures Split(t)
  {
    hide RuuPart, LsqPart, Ring, Wf;
  }

  lemma SquashesHistory(s: State, t: State, n: nat)
    requires Structure(s) && Split(s) && History(s) && Squashes(s, t, n) && Structure(t) && Split(t)
    requires s.nspec + n <= |s.rob|
    ensures History(t)
  {
    hide RuuPart, LsqPart, Ring, ChainLinks;
    assert t.rob[..t.nspec] == s.rob[..s.nspec];
    CorrectPathInRange(s);
    CorrectPathInRange(t);
    var ids := RuuPart(s.rob[..s.nspec], s.cfg.ruuSize);
    assert SeqnosOf(s.st, ids) == SeqnosOf(t.st, ids);
  }

  lemma SquashesQueues(s: State, t: State, n: nat, w: Work)
    requires Structure(s) && Squashes(s, t, n)
    requires Statuses(s) && ReadyOk(s, w.local) && EventsOk(s, w.due) && NoneLost(s, w.open)
    ensures Statuses(t) && ReadyOk(t, w.local) && EventsOk(t, w.due) && NoneLost(t, w.open)
  {
    hide Structure, Keys, Sorted, ChainLinks, OperandsReady;
    Survivors(s, t, n);
    forall q: nat | InFlight(t, q) ensures InFlight(s, q) && t.st[q] == s.st[q] {}
    forall key | KeyOk(s, key) ensures KeyOk(t, key) {}
  }

  lemma SquashesChains(s: State, t: State, n: nat, drain: set<Slot>)
    requires Structure(s) && Squashes(s, t, n) && ChainsOk(s, drain)
    ensures ChainsOk(t, drain)
  {
    hide Structure, ChainLinks, OperandsReady;
    Survivors(s, t, n);
    forall q: nat, k: nat | InFlight(t, q) && 0 <= k < 3 && !t.st[q].ready.Get(k) ensures Waits(t, drain, q, k) {
      assert InFlight(s, q) && Waits(s, drain, q, k);
    }
    forall c, o, l | OnChain(t, c, o, l) ensures ChainLinkOk(t, c, o, l) {
      assert OnChain(s, c, o, l) && ChainLinkOk(s, c, o, l);
    }
    forall c, o | 0 <= c < |t.st| && 0 <= o < 2 && t.st[c].odeps.Get(o) != [] ensures Feeds(t, drain, c, o) {
      assert Feeds(s, drain, c, o);
    }
  }

  lemma SquashesCreators(s: State, t: State, n: nat, shown: set<Slot>)
    requires PreciseCreators(s, shown) && Squashes(s, t, n) && s.nspec + n <= |s.rob|
    ensures PreciseCreators(t, shown)
  {
    hide Writer, ChainLinks;
    assert t.rob[..t.nspec] == s.rob[..s.nspec];
    forall m: Reg ensures Writer(t.st, t.rob[..t.nspec], m) == Writer(s.st, s.rob[..s.nspec], m) {
      WriterFrame(s.st, t.st, s.rob[..s.nspec], m);
    }
  }

  lemma SquashesLoads(s: State, t: State, n: nat)
    requires Structure(s) && LoadsOk(s) && Squashes(s, t, n)
    ensures LoadsOk(t)
  {
    hide Structure, LsqPart, MemReady, ChainLinks, OperandsReady;
    Survivors(s, t, n);
    var k := |s.rob| - n;
    assert s.rob == s.rob[..k] + s.rob[k..];
    PartsOfConcat(s.rob[..k], s.rob[k..], s.cfg.ruuSize);
    var lq, lq' := LsqPart(s.rob, s.cfg.ruuSize), LsqPart(t.rob, s.cfg.ruuSize);
    PartMembers(t.rob, s.cfg.ruuSize);
    forall i | 0 <= i < |lq'| && lq'[i] < |t.st| && t.st[lq'[i]].kind == Load && t.st[lq'[i]].queued
      ensures MemReady(t.st, lq'[..i], t.st[lq'[i]].addr)
    {
      assert lq'[i] in lq' && lq[i] == lq'[i] && lq[..i] == lq'[..i];
      MemReadyFrame(s.st, t.st, lq[..i], t.st[lq[i]].addr);
    }
  }

  lemma SquashesKeepsBase(s: State, t: State, n: nat, w: Work)
    requires Base(s, w) && Squashes(s, t, n) && s.nspec + n <= |s.rob|
    requires Structure(t) && (n < |s.rob| ==> s.rob[|s.rob| - n - 1] < |s.st| && !s.st[s.rob[|s.rob| - n - 1]].eaComp)
    ensures Base(t, w)
  {
    hide Structure, Paired, Kinds, Split, History, Statuses, ReadyOk, EventsOk, ChainsOk, PreciseCreators;
    hide LoadsOk, NoneLost, ChainLinks;
    SquashesSplit(s, t, n);
    SquashesHistory(s, t, n);
    SquashesQueues(s, t, n, w);
    SquashesChains(s, t, n, w.drain);
    SquashesCreators(s, t, n, w.shown);
    SquashesLoads(s, t, n);
  }

  /** The entry before the RUU tail is the youngest RUU station. */
  lemma YoungestRuu(s: State)
    requires Structure(s) && 0 < s.ruuNum
    ensures var q := RuuPart(s.rob, s.cfg.ruuSize);
            |q| == s.ruuNum && q[s.ruuNum - 1] == Prev(s.ruuTail, s.cfg.ruuSize) && q[0] == s.ruuHead
  {
    hide RuuPart, LsqPart, Ring, CfgOk;
    RingEnds(0, s.ruuHead, s.ruuTail, s.ruuNum, s.cfg.ruuSize);
  }

  lemma YoungestLsq(s: State)
    requires Structure(s) && 0 < s.lsqNum
    ensures var q := LsqPart(s.rob, s.cfg.ruuSize);
            |q| == s.lsqNum && q[s.lsqNum - 1] == s.cfg.ruuSize + Prev(s.lsqTail, s.cfg.lsqSize)
  {
    hide RuuPart, LsqPart, Ring, CfgOk;
    RingEnds(s.cfg.ruuSize, s.lsqHead, s.lsqTail, s.lsqNum, s.cfg.lsqSize);
  }

  /** The end of program order: a lone RUU station, or an address computation and its memory access. */
  ghost predicate EndsWith(s: State, n: nat) {
    && 1 <= n <= 2 && n <= |s.rob|
    && s.rob[|s.rob| - n] < s.cfg.ruuSize && s.rob[|s.rob| - n] < |s.st|
    && (s.st[s.rob[|s.rob| - n]].eaComp <==> n == 2)
    && (n == 2 ==> s.rob[|s.rob| - 1] >= s.cfg.ruuSize)
  }

  lemma {:induction false} RobEnds(s: State) returns (n: nat)
    requires Structure(s) && Paired(s) && s.rob != []
    ensures EndsWith(s, n)
  {
    hide RuuPart, LsqPart, Ring, Wf;
    n := if s.rob[|s.rob| - 1] < s.cfg.ruuSize then 1 else 2;
  }

  /** The rings seen through the end of program order. */
  lemma RingsEnd(s: State, n: nat)
    requires Structure(s) && EndsWith(s, n)
    ensures 0 < s.ruuNum && s.rob[|s.rob| - n] == Prev(s.ruuTail, s.cfg.ruuSize)
    ensures n == 2 ==>
              0 < s.lsqNum && s.rob[|s.rob| - 1] == s.cfg.ruuSize + Prev(s.lsqTail, s.cfg.lsqSize)
    ensures var rest := s.rob[..|s.rob| - n]; var q := RuuPart(s.rob, s.cfg.ruuSize);
            RuuPart(rest, s.cfg.ruuSize) == q[..|q| - 1]
    ensures var rest := s.rob[..|s.rob| - n]; var q := LsqPart(s.rob, s.cfg.ruuSize);
            LsqPart(rest, s.cfg.ruuSize) == if n == 2 && |q| > 0 then q[..|q| - 1] else q
  {
    hide Wf, Ring;
    var k := |s.rob| - n;
    var r := s.cfg.ruuSize;
    if n == 2 {
      assert s.rob[..|s.rob| - 1][..k] == s.rob[..k] && s.rob[..|s.rob| - 1][k] == s.rob[k];
      assert RuuPart(s.rob[..|s.rob| - 1], r) == RuuPart(s.rob[..k], r) + [s.rob[k]];
      assert LsqPart(s.rob[..|s.rob| - 1], r) == LsqPart(s.rob[..k], r);
    }
    YoungestRuu(s);
    if n == 2 { YoungestLsq(s); }
  }

  /** If anything older survives, the youngest RUU station is not the RUU head. */
  lemma NotTheHead(s: State, n: nat)
    requires Structure(s) && Paired(s) && EndsWith(s, n) && n < |s.rob|
    ensures Prev(s.ruuTail, s.cfg.ruuSize) != s.ruuHead
  {
    hide RuuPart, LsqPart, Ring, CfgOk;
    RingsEnd(s, n);
    YoungestRuu(s);
    var r := s.cfg.ruuSize;
    var k := |s.rob| - n;
    var rest := s.rob[..k];
    var q := RuuPart(s.rob, r);
    PartMembers(rest, r);
    assert s.rob[0] in rest && s.rob[0] < r;
    assert RuuPart(rest, r) == q[..|q| - 1];
    assert q[0] in RuuPart(rest, r);
    var i :| 0 <= i < k && rest[i] == q[0];
    assert s.st[s.rob[i]].seqno < s.st[s.rob[k]].seqno;
  }

  /** One iteration of the squash loop, as a change of rings and program order. */
  lemma SquashRings(s: State, t: State, n: nat)
    requires Structure(s) && EndsWith(s, n) && Squashes(s, t, n)
    requires t.ruuTail == Prev(s.ruuTail, s.cfg.ruuSize) && t.ruuNum == s.ruuNum - 1
    requires n == 1 ==> t.lsqTail == s.lsqTail && t.lsqNum == s.lsqNum
    requires n == 2 ==> t.lsqTail == Prev(s.lsqTail, s.cfg.lsqSize) && t.lsqNum == s.lsqNum - 1
    ensures Structure(t)
  {
    hide RuuPart, LsqPart, Ring, EndsWith, Squashes, Prev, Wf;
    RuuRing(s);
    LsqRing(s);
    SquashOrder(s, t, n);
    SquashRuuRing(s, t, n);
    SquashLsqRing(s, t, n);
  }

  /** The rest of program order. */
  lemma SquashOrder(s: State, t: State, n: nat)
    requires Structure(s) && Squashes(s, t, n)
    ensures Wf(t) && t.cfg == s.cfg && t.rob == s.rob[..|s.rob| - n] && |t.st| == |s.st| && t.instSeq == s.instSeq
    ensures t.ruuHead == s.ruuHead && t.lsqHead == s.lsqHead
    ensures forall i :: 0 <= i < |t.rob| ==> t.rob[i] < |t.st| && t.st[t.rob[i]].seqno <= t.instSeq
    ensures forall i, j :: 0 <= i < j < |t.rob| ==> t.st[t.rob[i]].seqno < t.st[t.rob[j]].seqno
  {
    hide RuuPart, LsqPart, Ring, Wf, ChainLinks;
    forall i | 0 <= i < |t.rob| ensures t.rob[i] == s.rob[i] && t.st[t.rob[i]].seqno == s.st[s.rob[i]].seqno {}
  }

  lemma SquashRuuRing(s: State, t: State, n: nat)
    requires Structure(s) && EndsWith(s, n) && Squashes(s, t, n) && 0 < s.cfg.ruuSize
    requires t.ruuTail == Prev(s.ruuTail, s.cfg.ruuSize) && t.ruuNum == s.ruuNum - 1
    ensures t.ruuNum <= t.cfg.ruuSize && 0 < t.cfg.ruuSize && t.ruuTail == (t.ruuHead + t.ruuNum) % t.cfg.ruuSize
    ensures RuuPart(t.rob, t.cfg.ruuSize) == Ring(0, t.ruuHead, t.ruuNum, t.cfg.ruuSize)
  {
    hide RuuPart, LsqPart, Ring, Structure, Squashes, EndsWith, Wf;
    SquashOrder(s, t, n);
    RuuRing(s);
    RingsEnd(s, n);
    RingDropLast(0, s.ruuHead, s.ruuTail, s.ruuNum, s.cfg.ruuSize);
  }

  lemma SquashLsqRing(s: State, t: State, n: nat)
    requires Structure(s) && EndsWith(s, n) && Squashes(s, t, n) && 0 < s.cfg.lsqSize
    requires n == 1 ==> t.lsqTail == s.lsqTail && t.lsqNum == s.lsqNum
    requires n == 2 ==> t.lsqTail == Prev(s.lsqTail, s.cfg.lsqSize) && t.lsqNum == s.lsqNum - 1
    ensures t.lsqNum <= t.cfg.lsqSize && 0 < t.cfg.lsqSize && t.lsqTail == (t.lsqHead + t.lsqNum) % t.cfg.lsqSize
    ensures LsqPart(t.rob, t.cfg.ruuSize) == Ring(t.cfg.ruuSize, t.lsqHead, t.lsqNum, t.cfg.lsqSize)
  {
    hide RuuPart, LsqPart, Ring, Structure, Squashes, Wf;
    SquashOrder(s, t, n);
    LsqRing(s);
    RingsEnd(s, n);
    if n == 2 { RingDropLast(s.cfg.ruuSize, s.lsqHead, s.lsqTail, s.lsqNum, s.cfg.lsqSize); }
  }

  lemma SquashLone(s: State)
    requires Wf(s) && EndsWith(s, 1) && 0 < s.ruuNum
    requires var p := s.rob[|s.rob| - 1]; p == Prev(s.ruuTail, s.cfg.ruuSize) && p != s.ruuHead
    ensures SquashYoungest(s).Ok?
    ensures var t := SquashYoungest(s).value;
            && Squashes(s, t, 1)
            && t.ruuTail == Prev(s.ruuTail, s.cfg.ruuSize) && t.ruuNum == s.ruuNum - 1
            && t.lsqTail == s.lsqTail && t.lsqNum == s.lsqNum
  {
    hide ChainLinks, CfgOk;
    var p := s.rob[|s.rob| - 1];
    assert s.rob[|s.rob| - 1..] == [p];
    ChainLinksPut(s.st, p, Squashed(s.st[p]));
  }

  /** The iteration, field by field. */
  lemma PairSquashed(s: State)
    requires Wf(s) && EndsWith(s, 2) && 0 < s.ruuNum && 0 < s.lsqNum
    requires var p := s.rob[|s.rob| - 2]; p == Prev(s.ruuTail, s.cfg.ruuSize) && p != s.ruuHead
    requires s.rob[|s.rob| - 1] == s.cfg.ruuSize + Prev(s.lsqTail, s.cfg.lsqSize)
    ensures SquashYoungest(s).Ok?
    ensures var t := SquashYoungest(s).value; var p, m := s.rob[|s.rob| - 2], s.rob[|s.rob| - 1];
            && Wf(t) && p < |s.st| && m < |s.st| && p != m
            && t == s.(st := s.st[m := Squashed(s.st[m])][p := Squashed(s.st[p])], rob := s.rob[..|s.rob| - 2],
                       ruuTail := p, ruuNum := s.ruuNum - 1, lsqTail := m - s.cfg.ruuSize, lsqNum := s.lsqNum - 1,
                       free := s.free + |s.st[m].odeps.a| + |s.st[m].odeps.b| + |s.st[p].odeps.a| + |s.st[p].odeps.b|)
  {
    hide CfgOk, Prev;
  }

  lemma SquashedChains(x: Station)
    ensures Squashed(x).odeps == Two([], [])
  {
  }

  lemma SquashPair(s: State)
    requires Wf(s) && EndsWith(s, 2) && 0 < s.ruuNum && 0 < s.lsqNum
    requires var p := s.rob[|s.rob| - 2]; p == Prev(s.ruuTail, s.cfg.ruuSize) && p != s.ruuHead
    requires s.rob[|s.rob| - 1] == s.cfg.ruuSize + Prev(s.lsqTail, s.cfg.lsqSize)
    ensures SquashYoungest(s).Ok?
    ensures var t := SquashYoungest(s).value;
            && Squashes(s, t, 2)
            && t.ruuTail == Prev(s.ruuTail, s.cfg.ruuSize) && t.ruuNum == s.ruuNum - 1
            && t.lsqTail == Prev(s.lsqTail, s.cfg.lsqSize) && t.lsqNum == s.lsqNum - 1
  {
    hide ChainLinks, Wf, SquashYoungest, Squashed;
    PairSquashed(s);
    var p, m := s.rob[|s.rob| - 2], s.rob[|s.rob| - 1];
    assert s.rob[|s.rob| - 2..] == [p, m];
    ChainLinksPut(s.st, m, Squashed(s.st[m]));
    ChainLinksPut(s.st[m := Squashed(s.st[m])], p, Squashed(s.st[p]));
    SquashedChains(s.st[m]);
    SquashedChains(s.st[p]);
  }

  lemma SquashYoungestEffect(s: State, n: nat)
    requires Structure(s) && Paired(s) && EndsWith(s, n) && n < |s.rob|
    ensures Wf(s) && SquashYoungest(s).Ok?
    ensures var t := SquashYoungest(s).value;
            && Squashes(s, t, n)
            && t.ruuTail == Prev(s.ruuTail, s.cfg.ruuSize) && t.ruuNum == s.ruuNum - 1
            && (n == 1 ==> t.lsqTail == s.lsqTail && t.lsqNum == s.lsqNum)
            && (n == 2 ==> t.lsqTail == Prev(s.lsqTail, s.cfg.lsqSize) && t.lsqNum == s.lsqNum - 1)
  {
    hide Structure, Paired, ChainLinks, CfgOk, SquashYoungest, Squashes;
    StructureGives(s);
    NotTheHead(s, n);
    RingsEnd(s, n);
    if n == 1 { SquashLone(s); } else { SquashPair(s); }
  }

  /** What holds while ruu_recover walks back to the mispredicted branch p. */
  ghost predicate Recovering(s: State, p: nat, w: Work) {
    && Base(s, w) && s.specMode && InFlight(s, p) && s.st[p].completed
    && 0 <= BranchAt(s) && p == s.rob[BranchAt(s)]
    && (forall i :: 0 <= i < |s.rob| ==> !Unresolved(s, s.rob[i]))
  }

  /** While wrong-path stations remain, the youngest RUU station is one of them; then it is the branch. */
  lemma SquashTest(s: State, p: nat, n: nat)
    requires Structure(s) && Paired(s) && Split(s) && EndsWith(s, n)
    requires 0 <= BranchAt(s) && p == s.rob[BranchAt(s)]
    ensures s.nspec < |s.rob| ==> s.rob[|s.rob| - n] != p && s.nspec + n <= |s.rob|
    ensures s.nspec == |s.rob| ==> s.rob[|s.rob| - n] == p
    ensures s.nspec < |s.rob| ==> n < |s.rob|
    ensures s.nspec < |s.rob| ==> s.rob[|s.rob| - n - 1] < |s.st| && !s.st[s.rob[|s.rob| - n - 1]].eaComp
  {
    hide RuuPart, LsqPart, Ring, CfgOk;
  }

  lemma SquashStep(s: State, p: nat, n: nat, w: Work)
    requires Recovering(s, p, w) && EndsWith(s, n) && s.nspec < |s.rob| && Wf(s)
    ensures SquashYoungest(s).Ok? && Recovering(SquashYoungest(s).value, p, w)
    ensures SquashYoungest(s).value.nspec == s.nspec && SquashYoungest(s).value.rob[..s.nspec] == s.rob[..s.nspec]
  {
    hide Structure, Paired, Kinds, Split, History, Statuses, ReadyOk, EventsOk, ChainsOk, PreciseCreators;
    hide LoadsOk, NoneLost, PoolOk, ChainLinks, SquashYoungest;
    SquashTest(s, p, n);
    BranchInside(s);
    SquashYoungestEffect(s, n);
    var t := SquashYoungest(s).value;
    SquashRings(s, t, n);
    SquashesKeepsBase(s, t, n, w);
    SquashesPrefix(s, t, n);
    hide Squashes;
    forall i | 0 <= i < |t.rob| ensures !Unresolved(t, t.rob[i]) {
      assert t.rob[i] == s.rob[i];
    }
  }

  lemma BranchInside(s: State)
    requires Structure(s) && Split(s) && 0 <= BranchAt(s)
    ensures BranchAt(s) < s.nspec <= |s.rob|
  {
    hide RuuPart, LsqPart, Ring, CfgOk;
  }

  lemma {:induction false} SquashLoopTest(s: State, p: nat, w: Work) returns (n: nat)
    requires Recovering(s, p, w)
    ensures EndsWith(s, n) && s.nspec <= |s.rob| && 0 < s.cfg.ruuSize
    ensures s.nspec == |s.rob| <==> Prev(s.ruuTail, s.cfg.ruuSize) == p
  {
    hide Structure, Paired, Kinds, Split, History, Statuses, ReadyOk, EventsOk, ChainsOk, PreciseCreators;
    hide LoadsOk, NoneLost, PoolOk;
    StructureGives(s);
    BranchInside(s);
    n := RobEnds(s);
    RingsEnd(s, n);
    SquashTest(s, p, n);
  }

  /** The squash loop ends with exactly the correct path in flight. */
  lemma {:induction false} SquashAfterStage(s: State, p: nat, w: Work)
    requires Recovering(s, p, w) && Wf(s)
    ensures SquashAfter(s, p).Ok?
    ensures var t := SquashAfter(s, p).value;
            Recovering(t, p, w) && t.nspec == s.nspec && t.rob == s.rob[..s.nspec]
    decreases s.ruuNum
  {
    hide Structure, Paired, Kinds, Split, History, Statuses, ReadyOk, EventsOk, ChainsOk, PreciseCreators;
    hide LoadsOk, NoneLost, PoolOk, SquashYoungest, Wf, Recovering;
    var n := SquashLoopTest(s, p, w);
    if s.nspec < |s.rob| {
      SquashStep(s, p, n, w);
      SquashAfterStage(SquashYoungest(s).value, p, w);
    } else {
      assert s.rob[..s.nspec] == s.rob;
    }
  }

  /** Recovery: the mispredicted branch and everything older stay, and the core is back on the correct path. */
  lemma RecoverStage(s: State, p: nat, w: Work)
    requires Recovering(s, p, w) && Wf(s)
    ensures Recover(s, p).Ok?
    ensures var t := Recover(s, p).value;
            && Mid(t, w) && t.rob == s.rob[..s.nspec] && t.nspec == s.nspec && !t.specMode
            && InFlight(t, p) && t.st[p].completed && t.eventQ == s.eventQ && |t.st| == |s.st|
  {
    hide SquashAfter, Structure, Paired, Kinds, Split, History, Statuses, ReadyOk, EventsOk, ChainsOk, PreciseCreators;
    hide LoadsOk, NoneLost, PoolOk, CfgOk;
    BranchInside(s);
    SquashAfterStage(s, p, w);
    var t := SquashAfter(s, p).value;
    var u := Recover(s, p).value;
    assert u == t.(useSpec := {}, specMode := false, ifq := []);
    LeavesSpec(t, u, w);
  }

  lemma LeavesSpec(t: State, u: State, w: Work)
    requires Base(t, w) && u == t.(useSpec := {}, specMode := false, ifq := [])
    requires t.nspec == |t.rob| && forall i :: 0 <= i < |t.rob| ==> !Unresolved(t, t.rob[i])
    ensures Mid(u, w)
  {
    hide RuuPart, LsqPart, Ring, CfgOk, Keys, Sorted, MemReady, OperandsReady, ChainLinks;
    LeavesSpecLayout(t, u);
    LeavesSpecLists(t, u, w);
    assert u.rob[u.nspec..] == [];
    forall i | 0 <= i < |u.rob| ensures !Unresolved(u, u.rob[i]) {
      assert !Unresolved(t, t.rob[i]);
    }
  }

  lemma LeavesSpecLayout(t: State, u: State)
    requires Layout(t) && u == t.(useSpec := {}, specMode := false, ifq := [])
    ensures Layout(u)
  {
    hide RuuPart, LsqPart, Ring, CfgOk, KindOk;
    forall p: nat | InFlight(u, p) ensures KindOk(u.cfg, p, u.st[p]) { assert InFlight(t, p); }
  }

  lemma LeavesSpecLists(t: State, u: State, w: Work)
    requires Statuses(t) && ReadyOk(t, w.local) && EventsOk(t, w.due) && ChainsOk(t, w.drain) && NoneLost(t, w.open)
    requires PreciseCreators(t, w.shown) && u == t.(useSpec := {}, specMode := false, ifq := [])
    ensures Statuses(u) && ReadyOk(u, w.local) && EventsOk(u, w.due) && ChainsOk(u, w.drain) && NoneLost(u, w.open)
    ensures PreciseCreators(u, w.shown)
  {
    hide Keys, Sorted, OperandsReady, Writer;
    forall p: nat ensures InFlight(u, p) == InFlight(t, p) {}
    forall key ensures KeyOk(u, key) == KeyOk(t, key) {}
    forall p: nat, k: nat | InFlight(u, p) && 0 <= k < 3 && !u.st[p].ready.Get(k) ensures Waits(u, w.drain, p, k) {
      assert Waits(t, w.drain, p, k);
    }
    forall c, o, l | OnChain(u, c, o, l) ensures ChainLinkOk(u, c, o, l) {
      assert OnChain(t, c, o, l);
    }
  }
}
