/** Claiming stations at the ring tails: no stale link can be mistaken for one of the new instance. */
module OooAlloc {
  import opened OooState
  import opened OooLists
  import opened OooInvariant
  import opened OooFrames
  import opened OooQueueSteps
  import opened OooCompletion
  import opened OooCommit

  /** A newly claimed station: its tag and its (empty) output chains are what the last instance left. */
  ghost predicate IsFresh(x: Station, y: Station, spec: bool) {
    && y.tag == x.tag && y.odeps == x.odeps && y.spec == spec && !y.recover
    && !y.queued && !y.issued && !y.completed
    && y.onames == Two(NA, NA) && y.ready == Three(true, true, true)
  }

  /** The stations of `added` join program order. */
  ghost predicate Appends(s: State, t: State, added: seq<nat>) {
    && Wf(t) && |t.st| == |s.st| && s.nspec <= |s.rob|
    && t == s.(st := t.st, rob := s.rob + added, nspec := if s.specMode then s.nspec else s.nspec + |added|,
               ruuTail := t.ruuTail, ruuNum := t.ruuNum, lsqTail := t.lsqTail, lsqNum := t.lsqNum,
               instSeq := t.instSeq, log := t.log)
    && (forall i :: 0 <= i < |added| ==> added[i] < |s.st| && added[i] !in s.rob)
    && (forall q :: 0 <= q < |s.st| && q !in added ==> t.st[q] == s.st[q])
    && (forall q :: 0 <= q < |s.st| && q in added ==> IsFresh(s.st[q], t.st[q], s.specMode))
  }

  ghost function FreshWork(added: seq<nat>): Work {
    IDLE.(open := set i | 0 <= i < |added| :: added[i])
  }

  lemma AppendsMembers(s: State, t: State, added: seq<nat>)
    requires Appends(s, t, added)
    ensures forall q: nat :: InFlight(t, q) <==> InFlight(s, q) || q in added
    ensures forall q: nat :: InFlight(s, q) ==> q !in added && t.st[q] == s.st[q]
    ensures forall q :: q in FreshWork(added).open <==> q in added
  {
    hide Wf;
    forall q | q in added ensures 0 <= q < |s.st| && q !in s.rob {
      var i :| 0 <= i < |added| && added[i] == q;
    }
  }

  lemma AppendsQueues(s: State, t: State, added: seq<nat>)
    requires Appends(s, t, added)
    requires Statuses(s) && ReadyOk(s, []) && EventsOk(s, {}) && NoneLost(s, {})
    ensures Statuses(t) && ReadyOk(t, []) && EventsOk(t, {}) && NoneLost(t, FreshWork(added).open)
  {
    hide Keys, Sorted, Appends;
    AppendsMembers(s, t, added);
    AppendsKeys(s, t, added, ReadyLinks(s, []));
    AppendsKeys(s, t, added, Keys(s.eventQ));
    AppendsFresh(s, t, added);
  }

  lemma AppendsFresh(s: State, t: State, added: seq<nat>)
    requires Appends(s, t, added)
    ensures forall q: nat :: InFlight(t, q) && q in added ==> IsFresh(s.st[q], t.st[q], s.specMode) && q < |s.st|
    ensures t.readyQ == s.readyQ && t.eventQ == s.eventQ
  {
    hide Wf;
  }

  lemma AppendsKeys(s: State, t: State, added: seq<nat>, k: multiset<Key>)
    requires Appends(s, t, added) && TagsOk(s, k)
    ensures TagsOk(t, k)
    ensures forall q: nat :: q in added ==> q < |t.st| && k[Key(q, t.st[q].tag)] == 0
  {
    hide Wf;
    forall key | key in k ensures KeyOk(t, key) {
      assert KeyOk(s, key);
    }
    forall q: nat | q in added ensures q < |t.st| && k[Key(q, t.st[q].tag)] == 0 {
      var i :| 0 <= i < |added| && added[i] == q;
      var key := Key(q, t.st[q].tag);
      assert key in k ==> KeyOk(s, key);
    }
  }

  lemma AppendsChains(s: State, t: State, added: seq<nat>)
    requires Appends(s, t, added) && ChainsOk(s, {})
    ensures ChainsOk(t, {})
  {
    hide Wf;
    AppendsMembers(s, t, added);
    forall q: nat, k: nat | InFlight(t, q) && 0 <= k < 3 && !t.st[q].ready.Get(k) ensures Waits(t, {}, q, k) {
      assert InFlight(s, q) && Waits(s, {}, q, k);
    }
    forall c, o, l | OnChain(t, c, o, l) ensures ChainLinkOk(t, c, o, l) {
      assert OnChain(s, c, o, l) && ChainLinkOk(s, c, o, l);
      assert KeyOk(s, Key(l.rs, l.tag));
    }
    forall c, o | 0 <= c < |t.st| && 0 <= o < 2 && t.st[c].odeps.Get(o) != [] ensures Feeds(t, {}, c, o) {
      assert Feeds(s, {}, c, o);
    }
  }

  lemma {:induction false} NoWriter(st: seq<Station>, order: seq<nat>, n: Reg)
    requires n != NA && forall i :: 0 <= i < |order| ==> order[i] < |st| && st[order[i]].onames == Two(NA, NA)
    ensures Writer(st, order, n) == NoCreator
  {
    if order != [] { NoWriter(st, order[..|order| - 1], n); }
  }

  lemma AppendsWriters(s: State, t: State, added: seq<nat>, part: seq<nat>, n: Reg)
    requires Appends(s, t, added) && n != NA && forall q :: q in part ==> q in s.rob
    ensures Writer(t.st, part, n) == Writer(s.st, part, n)
    ensures Writer(t.st, part + added, n) == Writer(s.st, part, n)
  {
    hide Wf;
    AppendsMembers(s, t, added);
    forall q | 0 <= q < |s.st| && q in part ensures t.st[q].onames == s.st[q].onames {
      assert InFlight(s, q);
    }
    WriterFrame(s.st, t.st, part, n);
    forall i | 0 <= i < |added| ensures added[i] < |t.st| && t.st[added[i]].onames == Two(NA, NA) {
      assert added[i] in added;
    }
    NoWriter(t.st, added, n);
    WriterOfConcat(t.st, part, added, n);
  }

  lemma AppendsCreators(s: State, t: State, added: seq<nat>)
    requires Appends(s, t, added) && PreciseCreators(s, {}) && SpecCreators(s, {})
    requires !s.specMode ==> s.nspec == |s.rob|
    ensures PreciseCreators(t, {}) && SpecCreators(t, {})
  {
    hide Wf, Writer, IsFresh;
    var a, b := s.rob[..s.nspec], s.rob[s.nspec..];
    assert s.specMode ==> t.rob[..t.nspec] == a && t.rob[t.nspec..] == b + added;
    assert !s.specMode ==> t.rob[..t.nspec] == a + added && t.rob[t.nspec..] == b;
    AppendsMembers(s, t, added);
    forall n: Reg | n != NA
      ensures Outstanding(t, {}, Writer(t.st, t.rob[..t.nspec], n)) == Outstanding(s, {}, Writer(s.st, a, n))
      ensures Writer(t.st, t.rob[t.nspec..], n) == Writer(s.st, b, n)
      ensures Outstanding(t, {}, Writer(t.st, t.rob[t.nspec..], n)) == Outstanding(s, {}, Writer(s.st, b, n))
    {
      AppendsWriters(s, t, added, a, n);
      AppendsWriters(s, t, added, b, n);
      WriterNames(s.st, a, n);
      WriterNames(s.st, b, n);
      OldWriter(s, t, added, Writer(s.st, a, n));
      OldWriter(s, t, added, Writer(s.st, b, n));
    }
  }

  lemma OldWriter(s: State, t: State, added: seq<nat>, w: Creator)
    requires Appends(s, t, added) && (w.Creator? ==> w.rs in s.rob && w.rs < |s.st|)
    ensures Outstanding(t, {}, w) == Outstanding(s, {}, w)
  {
    hide Wf;
    AppendsMembers(s, t, added);
    if w.Creator? { assert InFlight(s, w.rs); }
  }

  lemma AppendsBranch(s: State, t: State, added: seq<nat>)
    requires Appends(s, t, added) && s.nspec <= |s.rob| && Branch(s)
    ensures Branch(t)
  {
    hide Wf;
    AppendsMembers(s, t, added);
    forall i | 0 <= i < |t.rob| ensures Unresolved(t, t.rob[i]) == (i < |s.rob| && Unresolved(s, s.rob[i])) {
      if i < |s.rob| {
        assert t.rob[i] == s.rob[i] && s.rob[i] in s.rob;
      } else {
        assert t.rob[i] == added[i - |s.rob|] && t.rob[i] in added;
      }
    }
  }

  lemma AppendsLoads(s: State, t: State, added: seq<nat>)
    requires Appends(s, t, added) && LoadsOk(s)
    ensures LoadsOk(t)
  {
    hide Wf, LsqPart, MemReady;
    var r := s.cfg.ruuSize;
    PartsOfConcat(s.rob, added, r);
    PartMembers(s.rob, r);
    PartMembers(added, r);
    AppendsMembers(s, t, added);
    var lq, lq' := LsqPart(s.rob, r), LsqPart(t.rob, r);
    forall i | |lq| <= i < |lq'| ensures lq'[i] < |t.st| && !t.st[lq'[i]].queued {
      assert lq'[i] == LsqPart(added, r)[i - |lq|];
      assert lq'[i] in LsqPart(added, r);
    }
    forall i | 0 <= i < |lq'| && lq'[i] < |t.st| && t.st[lq'[i]].kind == Load && t.st[lq'[i]].queued
      ensures MemReady(t.st, lq'[..i], t.st[lq'[i]].addr)
    {
      assert lq'[i] == lq[i] && lq'[..i] == lq[..i] && lq[i] in lq;
      forall p | 0 <= p < |s.st| && p in lq[..i] ensures t.st[p] == s.st[p] { assert p in lq && InFlight(s, p); }
      assert InFlight(s, lq[i]);
      MemReadyFrame(s.st, t.st, lq[..i], t.st[lq[i]].addr);
    }
  }

  lemma AppendsPool(s: State, t: State, added: seq<nat>)
    requires Appends(s, t, added) && PoolOk(s, 0)
    ensures PoolOk(t, 0)
  {
    hide Wf;
    forall p | 0 <= p < |s.st| ensures t.st[p].odeps == s.st[p].odeps {
      if p in added { assert IsFresh(s.st[p], t.st[p], s.specMode); }
    }
    ChainLinksFrame(s.st, t.st);
  }

  lemma AppendsKeepsMid(s: State, t: State, added: seq<nat>)
    requires Inv(s) && Appends(s, t, added) && Layout(t)
    ensures Mid(t, FreshWork(added))
  {
    hide Layout, Statuses, ReadyOk, EventsOk, ChainsOk, PreciseCreators, LoadsOk, NoneLost, SpecCreators, PoolOk;
    hide Appends;
    assert s.nspec <= |s.rob| && t.nspec <= |t.rob| by { LayoutGives(s); LayoutGives(t); }
    AppendsQueues(s, t, added);
    AppendsChains(s, t, added);
    AppendsCreators(s, t, added);
    AppendsBranch(s, t, added);
    AppendsLoads(s, t, added);
    AppendsPool(s, t, added);
  }

  // ---- the layout of the two ways to claim stations ----

  /** The tails are free. */
  lemma TailsFree(s: State)
    requires Structure(s) && s.ruuNum < s.cfg.ruuSize && s.lsqNum < s.cfg.lsqSize
    ensures s.ruuTail !in s.rob && s.cfg.ruuSize + s.lsqTail !in s.rob
  {
    hide RuuPart, LsqPart, Ring, CfgOk;
    RingAdd(0, s.ruuHead, s.ruuTail, s.ruuNum, s.cfg.ruuSize);
    RingAdd(s.cfg.ruuSize, s.lsqHead, s.lsqTail, s.lsqNum, s.cfg.lsqSize);
    PartMembers(s.rob, s.cfg.ruuSize);
  }

  /** What a claim does to rings, sequence numbers and history, for one RUU station and, if n is 2, its
      LSQ companion. */
  ghost predicate Claims(s: State, t: State, n: nat) {
    && 1 <= n <= 2
    && s.ruuTail < |s.st| && s.cfg.ruuSize + s.lsqTail < |s.st|
    && Appends(s, t, Claimed(s, n))
    && t.ruuTail == Next(s.ruuTail, s.cfg.ruuSize) && t.ruuNum == s.ruuNum + 1
    && (n == 1 ==> t.lsqTail == s.lsqTail && t.lsqNum == s.lsqNum)
    && (n == 2 ==> t.lsqTail == Next(s.lsqTail, s.cfg.lsqSize) && t.lsqNum == s.lsqNum + 1)
    && t.instSeq == s.instSeq + n
    && t.st[s.ruuTail].seqno == s.instSeq + 1
    && (t.st[s.ruuTail].eaComp <==> n == 2) && KindOk(t.cfg, s.ruuTail, t.st[s.ruuTail])
    && (n == 2 ==> var q := s.cfg.ruuSize + s.lsqTail;
          t.st[q].seqno == s.instSeq + 2 && !t.st[q].eaComp && KindOk(t.cfg, q, t.st[q]))
    && t.log == (if s.specMode then s.log else s.log + [s.instSeq + 1])
  }

  ghost function Claimed(s: State, n: nat): seq<nat> {
    if n == 2 then [s.ruuTail, s.cfg.ruuSize + s.lsqTail] else [s.ruuTail]
  }

  lemma ClaimedParts(s: State, n: nat)
    requires 1 <= n <= 2 && s.ruuTail < s.cfg.ruuSize
    ensures RuuPart(Claimed(s, n), s.cfg.ruuSize) == [s.ruuTail]
    ensures LsqPart(Claimed(s, n), s.cfg.ruuSize) == if n == 2 then [s.cfg.ruuSize + s.lsqTail] else []
  {
    hide RuuPart, LsqPart;
    var r := s.cfg.ruuSize;
    PartsOfOne(s.ruuTail, r);
    PartsOfOne(r + s.lsqTail, r);
    if n == 2 {
      assert Claimed(s, 2) == [s.ruuTail] + [r + s.lsqTail];
      PartsOfConcat([s.ruuTail], [r + s.lsqTail], r);
    }
  }

  /** Stations of the new program order, place by place. */
  lemma ClaimsPlaces(s: State, t: State, n: nat)
    requires Structure(s) && Claims(s, t, n)
    ensures |t.rob| == |s.rob| + n && s.ruuTail < s.cfg.ruuSize && t.cfg == s.cfg
    ensures forall i :: 0 <= i < |s.rob| ==> t.rob[i] == s.rob[i] && t.rob[i] < |s.st| && t.st[t.rob[i]] == s.st[s.rob[i]]
    ensures t.rob[|s.rob|] == s.ruuTail && (n == 2 ==> t.rob[|s.rob| + 1] == s.cfg.ruuSize + s.lsqTail)
  {
    hide RuuPart, LsqPart, Ring, CfgOk, IsFresh, KindOk;
    var added := Claimed(s, n);
    AppendsMembers(s, t, added);
    forall i | 0 <= i < |s.rob| ensures t.rob[i] == s.rob[i] && t.rob[i] < |s.st| && t.st[t.rob[i]] == s.st[s.rob[i]] {
      assert InFlight(s, s.rob[i]);
    }
  }

  lemma ClaimsStructure(s: State, t: State, n: nat)
    requires Structure(s) && Claims(s, t, n) && s.ruuNum < s.cfg.ruuSize && s.lsqNum < s.cfg.lsqSize
    ensures Structure(t)
  {
    hide RuuPart, LsqPart, Ring, Wf, Claims;
    ClaimsOrder(s, t, n);
    ClaimsRings(s, t, n);
  }

  lemma ClaimsOrder(s: State, t: State, n: nat)
    requires Structure(s) && Claims(s, t, n) && s.ruuNum < s.cfg.ruuSize && s.lsqNum < s.cfg.lsqSize
    ensures Wf(t) && t.ruuNum <= t.cfg.ruuSize && t.lsqNum <= t.cfg.lsqSize
    ensures forall i :: 0 <= i < |t.rob| ==> t.rob[i] < |t.st| && t.st[t.rob[i]].seqno <= t.instSeq
    ensures forall i, j :: 0 <= i < j < |t.rob| ==> t.st[t.rob[i]].seqno < t.st[t.rob[j]].seqno
  {
    hide RuuPart, LsqPart, Ring, Wf, IsFresh, KindOk, Claimed, Next;
    ClaimsPlaces(s, t, n);
  }

  lemma ClaimsRings(s: State, t: State, n: nat)
    requires Structure(s) && Claims(s, t, n) && s.ruuNum < s.cfg.ruuSize && s.lsqNum < s.cfg.lsqSize
    ensures 0 < t.cfg.ruuSize && t.ruuTail == (t.ruuHead + t.ruuNum) % t.cfg.ruuSize
    ensures 0 < t.cfg.lsqSize && t.lsqTail == (t.lsqHead + t.lsqNum) % t.cfg.lsqSize
    ensures RuuPart(t.rob, t.cfg.ruuSize) == Ring(0, t.ruuHead, t.ruuNum, t.cfg.ruuSize)
    ensures LsqPart(t.rob, t.cfg.ruuSize) == Ring(t.cfg.ruuSize, t.lsqHead, t.lsqNum, t.cfg.lsqSize)
  {
    hide RuuPart, LsqPart, Ring, Structure, Claimed, IsFresh, KindOk, Wf;
    var r := s.cfg.ruuSize;
    RuuRing(s);
    LsqRing(s);
    TailsBelow(s);
    ClaimedParts(s, n);
    PartsOfConcat(s.rob, Claimed(s, n), r);
    RingAdd(0, s.ruuHead, s.ruuTail, s.ruuNum, r);
    if n == 2 { RingAdd(r, s.lsqHead, s.lsqTail, s.lsqNum, s.cfg.lsqSize); }
  }

  lemma TailsBelow(s: State)
    requires Structure(s)
    ensures s.ruuTail < s.cfg.ruuSize && s.lsqTail < s.cfg.lsqSize
  {
  }

  lemma ClaimsPaired(s: State, t: State, n: nat)
    requires Structure(s) && Paired(s) && Claims(s, t, n) && Structure(t)
    ensures Paired(t)
  {
    hide Structure, Appends, KindOk, Paired, PairedList;
    ClaimsPlaces(s, t, n);
    PairedIs(s);
    PairedIs(t);
    PairedGrows(s.cfg.ruuSize, s.st, s.rob, t.st, t.rob);
  }

  /** Paired, on the lists themselves. */
  ghost predicate PairedList(r: nat, st: seq<Station>, rob: seq<nat>) {
    && (forall i :: 0 <= i < |rob| ==> rob[i] < |st|)
    && (forall i :: 0 <= i < |rob| && st[rob[i]].eaComp ==> rob[i] < r && i + 1 < |rob| && rob[i + 1] >= r)
    && (forall i :: 0 <= i < |rob| && rob[i] >= r ==> 0 < i && st[rob[i - 1]].eaComp)
  }

  lemma PairedIs(s: State)
    requires Structure(s)
    ensures Paired(s) <==> PairedList(s.cfg.ruuSize, s.st, s.rob)
    ensures forall i :: 0 <= i < |s.rob| ==> s.rob[i] < |s.st|
  {
    hide RuuPart, LsqPart, Ring, Wf;
  }

  lemma PairedGrows(r: nat, st: seq<Station>, rob: seq<nat>, st': seq<Station>, rob': seq<nat>)
    requires PairedList(r, st, rob) && |rob| < |rob'| <= |rob| + 2
    requires forall i :: 0 <= i < |rob'| ==> rob'[i] < |st'|
    requires forall i :: 0 <= i < |rob| ==> rob'[i] == rob[i] && st'[rob[i]] == st[rob[i]]
    requires rob'[|rob|] < r && (st'[rob'[|rob|]].eaComp <==> |rob'| == |rob| + 2)
    requires |rob'| == |rob| + 2 ==> rob'[|rob| + 1] >= r && !st'[rob'[|rob| + 1]].eaComp
    ensures PairedList(r, st', rob')
  {
  }

  lemma ClaimsSplit(s: State, t: State, n: nat)
    requires Structure(s) && Split(s) && Claims(s, t, n) && Structure(t) && (!s.specMode ==> s.nspec == |s.rob|)
    ensures Split(t)
  {
    hide RuuPart, LsqPart, Ring, CfgOk, KindOk;
    ClaimsPlaces(s, t, n);
    forall i | |s.rob| <= i < |t.rob| ensures t.st[t.rob[i]].spec == s.specMode {
      assert t.rob[i] in Claimed(s, n);
    }
  }

  lemma ClaimsKinds(s: State, t: State, n: nat)
    requires Structure(s) && Kinds(s) && Claims(s, t, n)
    ensures Kinds(t)
  {
    hide RuuPart, LsqPart, Ring, CfgOk, KindOk, IsFresh;
    AppendsMembers(s, t, Claimed(s, n));
    forall p: nat | InFlight(t, p) ensures KindOk(t.cfg, p, t.st[p]) {
      assert InFlight(s, p) ==> KindOk(s.cfg, p, s.st[p]);
    }
  }

  lemma ClaimsHistory(s: State, t: State, n: nat)
    requires Structure(s) && Split(s) && History(s) && Claims(s, t, n) && Structure(t) && Split(t)
    requires !s.specMode ==> s.nspec == |s.rob|
    ensures History(t)
  {
    hide RuuPart, LsqPart, Structure, KindOk, IsFresh;
    var r := s.cfg.ruuSize;
    CorrectPathInRange(s);
    CorrectPathInRange(t);
    assert s.ruuTail < r by { ClaimsPlaces(s, t, n); }
    var a, b := s.rob[..s.nspec], t.rob[..t.nspec];
    ClaimsSeqnos(s, t, n);
    if s.specMode {
      assert b == a;
    } else {
      assert b == a + Claimed(s, n);
      PartsOfConcat(a, Claimed(s, n), r);
      ClaimedParts(s, n);
      assert SeqnosOf(t.st, RuuPart(b, r)) == SeqnosOf(s.st, RuuPart(a, r)) + [s.instSeq + 1];
    }
    assert s.specMode ==> SeqnosOf(t.st, RuuPart(b, r)) == SeqnosOf(s.st, RuuPart(a, r));
  }

  lemma ClaimsSeqnos(s: State, t: State, n: nat)
    requires Structure(s) && Split(s) && Claims(s, t, n)
    ensures var ids := RuuPart(s.rob[..s.nspec], s.cfg.ruuSize);
            forall i :: 0 <= i < |ids| ==> ids[i] < |s.st| && t.st[ids[i]].seqno == s.st[ids[i]].seqno
  {
    hide RuuPart, LsqPart, Ring, CfgOk, KindOk, IsFresh;
    var ids := RuuPart(s.rob[..s.nspec], s.cfg.ruuSize);
    PartMembers(s.rob[..s.nspec], s.cfg.ruuSize);
    AppendsMembers(s, t, Claimed(s, n));
    forall i | 0 <= i < |ids| ensures ids[i] < |s.st| && t.st[ids[i]].seqno == s.st[ids[i]].seqno {
      assert ids[i] in ids && ids[i] in s.rob;
      var j :| 0 <= j < |s.rob| && s.rob[j] == ids[i];
      assert InFlight(s, ids[i]);
    }
  }

  lemma ClaimsLayout(s: State, t: State, n: nat)
    requires Layout(s) && Claims(s, t, n) && s.ruuNum < s.cfg.ruuSize && s.lsqNum < s.cfg.lsqSize
    requires !s.specMode ==> s.nspec == |s.rob|
    ensures Layout(t)
  {
    hide Structure, Paired, Kinds, Split, History, Claims;
    ClaimsStructure(s, t, n);
    ClaimsPaired(s, t, n);
    ClaimsSplit(s, t, n);
    ClaimsKinds(s, t, n);
    ClaimsHistory(s, t, n);
  }
}
