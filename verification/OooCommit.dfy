/** ruu_commit: in order, never speculative, and without panics. */
module OooCommit {
  import opened OooState
  import opened OooLists
  import opened OooInvariant
  import opened OooFrames
  import opened OooQueueSteps
  import opened OooCompletion

  ghost function Bumped(x: Station): Station {
    x.(tag := x.tag + 1)
  }

  /** The oldest n stations are retired. */
  ghost predicate Retires(s: State, t: State, n: nat) {
    && Wf(t) && 1 <= n <= |s.rob| && n <= s.nspec && |t.st| == |s.st|
    && t == s.(st := t.st, busy := t.busy, rob := s.rob[n..], nspec := s.nspec - n, retired := t.retired,
               ruuHead := t.ruuHead, ruuNum := t.ruuNum, lsqHead := t.lsqHead, lsqNum := t.lsqNum)
    && (forall q :: 0 <= q < |s.st| ==> t.st[q] == if q in s.rob[..n] then Bumped(s.st[q]) else s.st[q])
    && (forall q :: q in s.rob[..n] ==> q < |s.st| && s.st[q].completed)
  }

  lemma Remaining(s: State, t: State, n: nat)
    requires Structure(s) && Retires(s, t, n)
    ensures forall q :: q in t.rob ==> q in s.rob && q < |s.st| && q !in s.rob[..n] && t.st[q] == s.st[q]
    ensures forall q :: q in s.rob ==> q in t.rob || q in s.rob[..n]
  {
    hide RuuPart, LsqPart, Ring, Wf;
    assert s.rob == s.rob[..n] + s.rob[n..];
    forall q | q in s.rob[n..] ensures q < |s.st| && q !in s.rob[..n] {
      var j :| 0 <= j < |s.rob[n..]| && s.rob[n..][j] == q;
      assert s.rob[n + j] == q;
      forall i | 0 <= i < n ensures s.rob[i] != q {
        assert s.st[s.rob[i]].seqno < s.st[s.rob[n + j]].seqno;
      }
    }
  }

  lemma RetiresQueues(s: State, t: State, n: nat)
    requires Structure(s) && Retires(s, t, n)
    requires Statuses(s) && ReadyOk(s, []) && EventsOk(s, {}) && NoneLost(s, {})
    ensures Statuses(t) && ReadyOk(t, []) && EventsOk(t, {}) && NoneLost(t, {})
  {
    hide Structure, Keys, Sorted, OperandsReady;
    Remaining(s, t, n);
    forall q: nat | InFlight(t, q) ensures InFlight(s, q) && t.st[q] == s.st[q] {}
    forall key | KeyOk(s, key) ensures KeyOk(t, key) {}
  }

  lemma RetiresChains(s: State, t: State, n: nat)
    requires Structure(s) && Retires(s, t, n) && ChainsOk(s, {})
    ensures ChainsOk(t, {})
  {
    hide Structure, OperandsReady;
    Remaining(s, t, n);
    forall q: nat, k: nat | InFlight(t, q) && 0 <= k < 3 && !t.st[q].ready.Get(k) ensures Waits(t, {}, q, k) {
      assert InFlight(s, q) && Waits(s, {}, q, k);
    }
    forall c, o, l | OnChain(t, c, o, l) ensures ChainLinkOk(t, c, o, l) {
      assert OnChain(s, c, o, l) && ChainLinkOk(s, c, o, l);
    }
    forall c, o | 0 <= c < |t.st| && 0 <= o < 2 && t.st[c].odeps.Get(o) != [] ensures Feeds(t, {}, c, o) {
      assert Feeds(s, {}, c, o);
    }
  }

  /** The youngest writer of a concatenation is that of its younger part, if it has one. */
  lemma {:induction false} WriterOfConcat(st: seq<Station>, a: seq<nat>, b: seq<nat>, n: Reg)
    requires forall i :: 0 <= i < |b| ==> b[i] < |st|
    ensures Writer(st, a + b, n) == if Writer(st, b, n).Creator? then Writer(st, b, n) else Writer(st, a, n)
  {
    if b == [] {
      assert a + b == a;
    } else {
      assert (a + b)[..|a + b| - 1] == a + b[..|b| - 1];
      WriterOfConcat(st, a, b[..|b| - 1], n);
    }
  }

  lemma RetiresCreators(s: State, t: State, n: nat)
    requires Structure(s) && Retires(s, t, n) && s.nspec <= |s.rob| && PreciseCreators(s, {}) && SpecCreators(s, {})
    ensures PreciseCreators(t, {}) && SpecCreators(t, {})
  {
    hide Writer, RuuPart, LsqPart, Ring;
    var a, b := s.rob[..n], s.rob[n..s.nspec];
    assert s.rob[..s.nspec] == a + b && t.rob[..t.nspec] == b;
    assert t.rob[t.nspec..] == s.rob[s.nspec..];
    forall m: Reg
      ensures Outstanding(t, {}, Writer(t.st, t.rob[..t.nspec], m)) == Outstanding(s, {}, Writer(s.st, s.rob[..s.nspec], m))
      ensures Outstanding(t, {}, Writer(t.st, t.rob[t.nspec..], m)) == Outstanding(s, {}, Writer(s.st, s.rob[s.nspec..], m))
      ensures Writer(t.st, t.rob[t.nspec..], m) == Writer(s.st, s.rob[s.nspec..], m)
    {
      WriterFrame(s.st, t.st, b, m);
      WriterFrame(s.st, t.st, s.rob[s.nspec..], m);
      WriterOfConcat(s.st, a, b, m);
      WriterNames(s.st, a, m);
    }
  }

  lemma {:induction false} YoungestOfTail(st: seq<Station>, older: seq<nat>, addr: nat)
    requires older != []
    ensures var y, z := YoungestStore(st, older, addr), YoungestStore(st, older[1..], addr);
            z >= 0 ==> y == z + 1
  {
    if |older| > 1 {
      var rest := older[..|older| - 1];
      assert older[1..][..|older| - 2] == rest[1..];
      YoungestOfTail(st, rest, addr);
    }
  }

  lemma MemReadyTail(st: seq<Station>, older: seq<nat>, addr: nat)
    requires older != [] && MemReady(st, older, addr)
    ensures MemReady(st, older[1..], addr)
  {
    YoungestOfTail(st, older, addr);
    forall j | 0 <= j < |older[1..]| && older[1..][j] < |st| && st[older[1..][j]].kind == Store
      ensures st[older[1..][j]].ready.b
    {
      assert older[j + 1] == older[1..][j];
    }
  }

  ghost predicate TailOrSame(a: seq<nat>, b: seq<nat>) {
    b == a || (a != [] && b == a[1..])
  }

  lemma RetiresLoads(s: State, t: State, n: nat)
    requires Structure(s) && LoadsOk(s) && Retires(s, t, n)
    requires TailOrSame(LsqPart(s.rob, s.cfg.ruuSize), LsqPart(t.rob, s.cfg.ruuSize))
    ensures LoadsOk(t)
  {
    hide Structure, LsqPart, MemReady, OperandsReady, Wf;
    Remaining(s, t, n);
    var lq, lq' := LsqPart(s.rob, s.cfg.ruuSize), LsqPart(t.rob, s.cfg.ruuSize);
    PartMembers(t.rob, s.cfg.ruuSize);
    var d: nat := if lq' == lq then 0 else 1;
    forall i | 0 <= i < |lq'| && lq'[i] < |t.st| && t.st[lq'[i]].kind == Load && t.st[lq'[i]].queued
      ensures MemReady(t.st, lq'[..i], t.st[lq'[i]].addr)
    {
      assert lq'[i] in lq' && lq[i + d] == lq'[i];
      OlderOfTail(s.st, lq, lq', d, i);
      KeptReady(s.st, t.st, lq', i);
    }
  }

  /** Stations that did not change leave a load's memory dependences met. */
  lemma KeptReady(st: seq<Station>, st': seq<Station>, lq: seq<nat>, i: nat)
    requires |st'| == |st| && i < |lq| && forall q :: q in lq ==> q < |st| && st'[q] == st[q]
    requires lq[i] < |st| && MemReady(st, lq[..i], st[lq[i]].addr)
    ensures MemReady(st', lq[..i], st'[lq[i]].addr)
  {
    hide MemReady;
    forall q | q in lq[..i] ensures q in lq {}
    assert lq[i] in lq;
    MemReadyFrame(st, st', lq[..i], st[lq[i]].addr);
  }

  lemma OlderOfTail(st: seq<Station>, a: seq<nat>, b: seq<nat>, d: nat, i: nat)
    requires (d == 0 && b == a) || (d == 1 && a != [] && b == a[1..])
    requires i < |b| && b[i] < |st| && MemReady(st, a[..i + d], st[b[i]].addr)
    ensures MemReady(st, b[..i], st[b[i]].addr)
  {
    hide MemReady;
    assert a[d..i + d] == b[..i];
    if d == 1 {
      MemReadyTail(st, a[..i + 1], st[b[i]].addr);
      assert a[..i + 1][1..] == b[..i];
    }
  }

  /** The oldest station is the RUU head, on the correct path; a memory instruction's LSQ half follows it. */
  ghost predicate StartsWith(s: State, n: nat) {
    && 1 <= n <= 2 && n <= |s.rob| && n <= s.nspec && s.nspec <= |s.rob|
    && s.rob[0] == s.ruuHead && s.ruuHead < s.cfg.ruuSize && s.rob[0] < |s.st|
    && (s.st[s.rob[0]].eaComp <==> n == 2)
    && (n == 2 ==> s.rob[1] == s.cfg.ruuSize + s.lsqHead && s.rob[1] < |s.st| && 0 < s.lsqNum)
    && (n < |s.rob| ==> s.rob[n] < s.cfg.ruuSize)
  }

  lemma PartsOfFront(rob: seq<nat>, n: nat, r: nat)
    requires 1 <= n <= 2 && n <= |rob| && rob[0] < r && (n == 2 ==> rob[1] >= r)
    ensures RuuPart(rob, r) == [rob[0]] + RuuPart(rob[n..], r)
    ensures LsqPart(rob, r) == (if n == 2 then [rob[1]] else []) + LsqPart(rob[n..], r)
  {
    hide RuuPart, LsqPart;
    PartsOfOne(rob[0], r);
    if n == 2 {
      PartsOfOne(rob[1], r);
      PartsOfConcat([rob[0]], [rob[1]], r);
      assert rob == ([rob[0]] + [rob[1]]) + rob[2..];
      PartsOfConcat([rob[0]] + [rob[1]], rob[2..], r);
    } else {
      assert rob == [rob[0]] + rob[1..];
      PartsOfConcat([rob[0]], rob[1..], r);
    }
  }

  lemma {:induction false} RobStarts(s: State) returns (n: nat)
    requires Structure(s) && Paired(s) && Split(s) && Branch(s) && 0 < s.ruuNum
    ensures StartsWith(s, n)
  {
    hide RuuPart, LsqPart, Ring, CfgOk;
    PartSizes(s.rob, s.cfg.ruuSize);
    n := if s.st[s.rob[0]].eaComp then 2 else 1;
    PartsOfFront(s.rob, n, s.cfg.ruuSize);
    RingEnds(0, s.ruuHead, s.ruuTail, s.ruuNum, s.cfg.ruuSize);
    if n == 2 { RingEnds(s.cfg.ruuSize, s.lsqHead, s.lsqTail, s.lsqNum, s.cfg.lsqSize); }
  }

  ghost predicate RetiresRings(s: State, t: State, n: nat) {
    && StartsWith(s, n) && Retires(s, t, n) && 0 < s.ruuNum
    && t.retired == s.retired + [s.st[s.rob[0]].seqno]
    && t.ruuHead == Next(s.ruuHead, s.cfg.ruuSize) && t.ruuNum == s.ruuNum - 1
    && (n == 1 ==> t.lsqHead == s.lsqHead && t.lsqNum == s.lsqNum)
    && (n == 2 ==> t.lsqHead == Next(s.lsqHead, s.cfg.lsqSize) && t.lsqNum == s.lsqNum - 1)
  }

  lemma RetiresStructure(s: State, t: State, n: nat)
    requires Structure(s) && RetiresRings(s, t, n)
    ensures Structure(t)
    ensures TailOrSame(LsqPart(s.rob, s.cfg.ruuSize), LsqPart(t.rob, s.cfg.ruuSize))
  {
    hide RuuPart, LsqPart, Ring, Wf, Retires, StartsWith, Next;
    RetiresOrder(s, t, n);
    RetiresRuu(s, t, n);
    RetiresLsq(s, t, n);
    RetiresSizes(s, t, n);
    StartParts(s, n);
  }

  lemma RetiresSizes(s: State, t: State, n: nat)
    requires Retires(s, t, n)
    ensures Wf(t) && t.cfg == s.cfg && |t.st| == |s.st| && t.ruuTail == s.ruuTail && t.lsqTail == s.lsqTail
    ensures t.instSeq == s.instSeq && t.rob == s.rob[n..]
  {
    hide Wf;
  }

  /** The rest of program order. */
  lemma RetiresOrder(s: State, t: State, n: nat)
    requires Structure(s) && Retires(s, t, n)
    ensures t.rob == s.rob[n..] && t.instSeq == s.instSeq && |t.st| == |s.st|
    ensures forall i :: 0 <= i < |t.rob| ==> t.rob[i] < |t.st| && t.st[t.rob[i]].seqno <= t.instSeq
    ensures forall i, j :: 0 <= i < j < |t.rob| ==> t.st[t.rob[i]].seqno < t.st[t.rob[j]].seqno
  {
    hide RuuPart, LsqPart, Ring, Wf;
    forall i | 0 <= i < |t.rob| ensures t.rob[i] == s.rob[i + n] && t.st[t.rob[i]].seqno == s.st[s.rob[i + n]].seqno {}
  }

  lemma RetiresRuu(s: State, t: State, n: nat)
    requires Structure(s) && RetiresRings(s, t, n)
    ensures t.ruuNum <= t.cfg.ruuSize && 0 < t.cfg.ruuSize && t.ruuTail == (t.ruuHead + t.ruuNum) % t.cfg.ruuSize
    ensures RuuPart(t.rob, t.cfg.ruuSize) == Ring(0, t.ruuHead, t.ruuNum, t.cfg.ruuSize)
  {
    hide RuuPart, LsqPart, Ring, Structure, Retires, StartsWith, Wf;
    RetiresSizes(s, t, n);
    RuuRing(s);
    StartParts(s, n);
    RingDropFirst(0, s.ruuHead, s.ruuTail, s.ruuNum, s.cfg.ruuSize);
  }

  lemma StartParts(s: State, n: nat)
    requires StartsWith(s, n)
    ensures n <= |s.rob| && RuuPart(s.rob, s.cfg.ruuSize) == [s.rob[0]] + RuuPart(s.rob[n..], s.cfg.ruuSize)
    ensures 1 <= n <= 2
    ensures LsqPart(s.rob, s.cfg.ruuSize) == (if n == 2 then [s.rob[1]] else []) + LsqPart(s.rob[n..], s.cfg.ruuSize)
  {
    hide RuuPart, LsqPart;
    PartsOfFront(s.rob, n, s.cfg.ruuSize);
  }

  lemma RetiresLsq(s: State, t: State, n: nat)
    requires Structure(s) && RetiresRings(s, t, n)
    ensures t.lsqNum <= t.cfg.lsqSize && 0 < t.cfg.lsqSize && t.lsqTail == (t.lsqHead + t.lsqNum) % t.cfg.lsqSize
    ensures LsqPart(t.rob, t.cfg.ruuSize) == Ring(t.cfg.ruuSize, t.lsqHead, t.lsqNum, t.cfg.lsqSize)
  {
    hide RuuPart, LsqPart, Ring, Structure, Retires, StartsWith, Wf;
    RetiresSizes(s, t, n);
    LsqRing(s);
    StartParts(s, n);
    if n == 2 { RingDropFirst(s.cfg.ruuSize, s.lsqHead, s.lsqTail, s.lsqNum, s.cfg.lsqSize); }
  }

  /** Program order moves up by n places. */
  ghost predicate Shifted(s: State, t: State, n: nat) {
    && t.cfg == s.cfg && n <= |s.rob| && |t.st| == |s.st| && t.rob == s.rob[n..] && t.ifq == s.ifq
    && (forall i :: 0 <= i < |t.rob| ==> t.rob[i] == s.rob[i + n] && t.rob[i] < |t.st|)
    && (forall i :: 0 <= i < |t.rob| ==> t.st[t.rob[i]] == s.st[t.rob[i]])
    && n <= s.nspec <= |s.rob| && t.nspec == s.nspec - n && t.specMode == s.specMode
  }

  lemma RetiresShift(s: State, t: State, n: nat)
    requires Structure(s) && RetiresRings(s, t, n)
    ensures Shifted(s, t, n)
  {
    hide Structure;
    Remaining(s, t, n);
    forall i | 0 <= i < |t.rob| ensures t.rob[i] == s.rob[i + n] && t.rob[i] < |t.st| && t.st[t.rob[i]] == s.st[t.rob[i]] {
      assert t.rob[i] in t.rob;
    }
  }

  lemma ShiftPaired(s: State, t: State, n: nat)
    requires Structure(s) && Structure(t) && Paired(s) && Shifted(s, t, n)
    requires n < |s.rob| ==> s.rob[n] < s.cfg.ruuSize
    ensures Paired(t)
  {
    hide Structure, RuuPart, LsqPart, Ring, Wf;
    forall i | 0 <= i < |t.rob|
      ensures t.st[t.rob[i]].eaComp ==> t.rob[i] < t.cfg.ruuSize && i + 1 < |t.rob| && t.rob[i + 1] >= t.cfg.ruuSize
      ensures t.rob[i] >= t.cfg.ruuSize ==> 0 < i && t.st[t.rob[i - 1]].eaComp
    {
      assert t.rob[i] == s.rob[i + n] && s.rob[i + n] < |s.st|;
      if i > 0 { assert t.rob[i - 1] == s.rob[i - 1 + n] && s.rob[i - 1 + n] < |s.st|; }
    }
  }

  lemma ShiftSplit(s: State, t: State, n: nat)
    requires Structure(s) && Structure(t) && Split(s) && Kinds(s) && Shifted(s, t, n)
    ensures Split(t) && Kinds(t)
  {
    hide RuuPart, LsqPart, Ring, Wf, KindOk;
    forall p: nat | InFlight(t, p) ensures KindOk(t.cfg, p, t.st[p]) {
      assert InFlight(s, p);
    }
  }

  /** Committing moves one sequence number from the front of the in-flight correct path to `retired`. */
  lemma RetiresHistory(s: State, t: State, n: nat)
    requires Structure(s) && Split(s) && History(s) && Structure(t) && Split(t) && Shifted(s, t, n)
    requires 1 <= n <= 2 && s.rob[0] < s.cfg.ruuSize && (n == 2 ==> s.rob[1] >= s.cfg.ruuSize)
    requires t.retired == s.retired + [s.st[s.rob[0]].seqno] && t.log == s.log
    ensures History(t)
  {
    hide RuuPart, LsqPart, Ring, Wf;
    var r := s.cfg.ruuSize;
    var a, b := s.rob[..s.nspec], t.rob[..t.nspec];
    assert a[n..] == b && a[0] == s.rob[0];
    PartsOfFront(a, n, r);
    CorrectPathInRange(s);
    CorrectPathInRange(t);
    ShiftSeqnos(s, t, n, RuuPart(b, r));
    assert SeqnosOf(s.st, RuuPart(a, r)) == [s.st[s.rob[0]].seqno] + SeqnosOf(t.st, RuuPart(b, r));
  }

  lemma ShiftSeqnos(s: State, t: State, n: nat, ids: seq<nat>)
    requires Shifted(s, t, n) && ids == RuuPart(t.rob[..t.nspec], s.cfg.ruuSize)
    ensures forall i :: 0 <= i < |ids| ==> ids[i] < |t.st| && s.st[ids[i]].seqno == t.st[ids[i]].seqno
  {
    hide RuuPart;
    PartMembers(t.rob[..t.nspec], s.cfg.ruuSize);
    forall i | 0 <= i < |ids| ensures ids[i] < |t.st| && s.st[ids[i]].seqno == t.st[ids[i]].seqno {
      assert ids[i] in ids;
      assert ids[i] in t.rob;
    }
  }

  lemma RetiresBranch(s: State, t: State, n: nat)
    requires Shifted(s, t, n) && Branch(s) && 1 <= n <= 2
    requires forall i :: 0 <= i < n ==> s.rob[i] < |s.st| && s.st[s.rob[i]].completed
    ensures Branch(t)
  {
    if s.specMode {
      var b := BranchAt(s);
      assert n <= b;
      assert t.rob[t.nspec - 1] == s.rob[s.nspec - 1] && t.rob[b - n] == s.rob[b];
    }
    forall i | 0 <= i < |t.rob| && Unresolved(t, t.rob[i]) ensures t.specMode && i == BranchAt(t) {
      assert t.rob[i] == s.rob[i + n] && Unresolved(s, s.rob[i + n]);
    }
  }

  lemma RetiresKeepsInv(s: State, t: State, n: nat)
    requires Inv(s) && RetiresRings(s, t, n)
    ensures Inv(t)
  {
    hide Structure, Paired, Kinds, Split, History, Statuses, ReadyOk, EventsOk, ChainsOk, PreciseCreators, SpecCreators;
    hide LoadsOk, NoneLost, Branch, RetiresRings, Retires, Shifted;
    RetiresStructure(s, t, n);
    RetiresShift(s, t, n);
    RetiresGives(s, t, n);
    ShiftPaired(s, t, n);
    ShiftSplit(s, t, n);
    RetiresHistory(s, t, n);
    RetiresQueues(s, t, n);
    RetiresChains(s, t, n);
    RetiresCreators(s, t, n);
    RetiresLoads(s, t, n);
    RetiresBranch(s, t, n);
    RetiresPool(s, t, n);
  }

  lemma RetiresGives(s: State, t: State, n: nat)
    requires RetiresRings(s, t, n)
    ensures Retires(s, t, n) && s.nspec <= |s.rob| && 1 <= n <= 2 && n <= |s.rob|
    ensures s.rob[0] < s.cfg.ruuSize && (n == 2 ==> s.rob[1] >= s.cfg.ruuSize) && s.rob[0] < |s.st|
    ensures t.retired == s.retired + [s.st[s.rob[0]].seqno] && t.log == s.log
    ensures forall i :: 0 <= i < n ==> s.rob[i] < |s.st| && s.st[s.rob[i]].completed
    ensures n < |s.rob| ==> s.rob[n] < s.cfg.ruuSize
  {
    forall i | 0 <= i < n ensures s.rob[i] < |s.st| && s.st[s.rob[i]].completed {
      assert s.rob[i] == s.rob[..n][i];
    }
  }

  lemma RetiresPool(s: State, t: State, n: nat)
    requires PoolOk(s, 0) && Retires(s, t, n)
    ensures PoolOk(t, 0)
  {
    ChainLinksFrame(s.st, t.st);
  }

  // ---- the loop of ruu_commit ----

  /** What the head of the machine looks like when it may retire. */
  lemma {:induction false} HeadFacts(s: State) returns (n: nat)
    requires Inv(s) && 0 < s.ruuNum
    ensures StartsWith(s, n) && Wf(s)
    ensures s.st[s.ruuHead].completed ==> s.st[s.ruuHead].odeps == Two([], [])
    ensures n == 2 ==> KindOk(s.cfg, s.rob[1], s.st[s.rob[1]])
    ensures n == 2 && s.st[s.rob[1]].completed ==> s.st[s.rob[1]].odeps == Two([], [])
  {
    hide Structure, Paired, Kinds, Split, History, Statuses, ReadyOk, EventsOk, PreciseCreators, SpecCreators;
    hide LoadsOk, NoneLost, Branch, KindOk, UnreadyWait, ChainLinksOk, PoolOk;
    n := RobStarts(s);
    LayoutGives(s);
    NoChain(s, s.rob[0]);
    if n == 2 {
      NoChain(s, s.rob[1]);
      assert InFlight(s, s.rob[1]);
    }
  }

  lemma NoChain(s: State, p: nat)
    requires ChainsFeed(s, {}) && p < |s.st|
    ensures s.st[p].completed ==> s.st[p].odeps == Two([], [])
  {
    assert s.st[p].odeps.Get(0) != [] ==> Feeds(s, {}, p, 0);
    assert s.st[p].odeps.Get(1) != [] ==> Feeds(s, {}, p, 1);
  }

  lemma RetireLone(s: State)
    requires Wf(s) && StartsWith(s, 1) && 0 < s.ruuNum && s.st[s.ruuHead].completed
    requires s.st[s.ruuHead].odeps == Two([], [])
    ensures RetireRuu(s).Ok? && RetiresRings(s, RetireRuu(s).value, 1)
  {
    hide CfgOk;
    assert s.rob[..1] == [s.ruuHead];
  }

  lemma RetireMemEffect(s: State)
    requires Wf(s) && StartsWith(s, 2) && KindOk(s.cfg, s.rob[1], s.st[s.rob[1]])
    ensures RetireMem(s).Ok?
    ensures var m := RetireMem(s).value; var q := s.rob[1];
            if m.done then
              && s.st[q].completed && |m.s.busy| == |s.busy|
              && m.s == Put(s, q, Bumped(s.st[q])).(busy := m.s.busy, lsqHead := Next(s.lsqHead, s.cfg.lsqSize),
                                                    lsqNum := s.lsqNum - 1)
            else m.s == s
  {
    hide CfgOk, FirstIdle;
  }

  /** The RUU half of the iteration, field by field. */
  lemma PairRetired(s: State, m: State)
    requires Wf(s) && StartsWith(s, 2) && 0 < s.ruuNum && s.st[s.ruuHead].odeps == Two([], []) && |m.busy| == |s.busy|
    requires m == Put(s, s.rob[1], Bumped(s.st[s.rob[1]]))
                  .(busy := m.busy, lsqHead := Next(s.lsqHead, s.cfg.lsqSize), lsqNum := s.lsqNum - 1)
    ensures Wf(m) && RetireRuu(m).Ok?
    ensures var t := RetireRuu(m).value; var p, q := s.rob[0], s.rob[1]; var x, y := s.st[p], s.st[q];
            && Wf(t) && p != q
            && t == s.(st := s.st[q := Bumped(y)][p := Bumped(x)], busy := m.busy, rob := s.rob[2..], nspec := s.nspec - 2,
                       retired := s.retired + [x.seqno], ruuHead := Next(s.ruuHead, s.cfg.ruuSize), ruuNum := s.ruuNum - 1,
                       lsqHead := Next(s.lsqHead, s.cfg.lsqSize), lsqNum := s.lsqNum - 1)
  {
    hide CfgOk, Next;
    assert s.ruuHead != s.rob[1];
  }

  lemma RetirePair(s: State, m: State)
    requires Wf(s) && StartsWith(s, 2) && 0 < s.ruuNum && s.st[s.ruuHead].completed && s.st[s.rob[1]].completed
    requires s.st[s.ruuHead].odeps == Two([], []) && |m.busy| == |s.busy|
    requires m == Put(s, s.rob[1], Bumped(s.st[s.rob[1]]))
                  .(busy := m.busy, lsqHead := Next(s.lsqHead, s.cfg.lsqSize), lsqNum := s.lsqNum - 1)
    ensures Wf(m) && RetireRuu(m).Ok? && RetiresRings(s, RetireRuu(m).value, 2)
  {
    hide CfgOk, Next, RetireRuu, Bumped;
    PairRetired(s, m);
    assert s.rob[..2] == [s.ruuHead, s.rob[1]];
  }

  /** One iteration: it waits, or retires exactly the oldest instruction. */
  lemma CommitOne(s: State)
    requires Inv(s) && Wf(s) && 0 < s.ruuNum && s.st[s.ruuHead].completed
    ensures var m := if s.st[s.ruuHead].eaComp then RetireMem(s) else Ok(RetireResult(s, true));
            && m.Ok? && (m.value.done ==> RetireRuu(m.value.s).Ok? && Inv(RetireRuu(m.value.s).value))
            && (!m.value.done ==> m.value.s == s)
  {
    hide Mid, RetireMem, RetireRuu, KindOk, CfgOk, RetiresRings;
    var n := HeadFacts(s);
    if n == 2 {
      RetireMemEffect(s);
      var m := RetireMem(s).value;
      if m.done {
        RetirePair(s, m.s);
        RetiresKeepsInv(s, RetireRuu(m.s).value, 2);
      }
    } else {
      RetireLone(s);
      RetiresKeepsInv(s, RetireRuu(s).value, 1);
    }
  }

  /** ruu_commit never panics and keeps the invariant. */
  lemma {:induction false} CommitStage(s: State, budget: nat)
    requires Inv(s) && Wf(s)
    ensures Commit(s, budget).Ok? && Inv(Commit(s, budget).value)
    decreases s.ruuNum
  {
    hide Inv, RetireMem, RetireRuu;
    if s.ruuNum != 0 && budget != 0 && s.st[s.ruuHead].completed {
      CommitOne(s);
      var m := if s.st[s.ruuHead].eaComp then RetireMem(s) else Ok(RetireResult(s, true));
      if m.value.done { CommitStage(RetireRuu(m.value.s).value, budget - 1); }
    }
  }
}
