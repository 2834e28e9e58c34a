/** Over any run of branches the branch target buffer keeps one entry a branch, with its last taken destination,
    in recency order. */
module BtbProof {
  import opened WayOrder
  import opened BtbState

  lemma InvShaped(b: Btb)
    requires Inv(b)
    ensures Shaped(b)
  {
    hide Recent, Index;
    forall s | 0 <= s < b.nsets ensures WaysShaped(b.sets[s], b.assoc) {
      var w := b.sets[s];
      assert WaysOk(b, s, w);
      assert 0 in w.order;
      forall i | 0 <= i < |w.order| ensures w.order[i] < b.assoc { assert w.order[i] in w.order; }
    }
  }

  /** A correct prediction of a taken branch that is in the buffer came from its entry, so the target there is
      already right: bpred_update may leave it. */
  lemma CorrectKeepsTarget(b: Btb, e: Branch)
    requires Shaped(b) && !e.ret && IsTaken(e) && Predicted(b, e) == e.npc
    ensures var w := b.sets[Index(b, e.pc)]; var i := Match(w.ents, e.pc); i >= 0 ==> w.ents[i].target == e.npc
  {
    hide Index;
  }

  // ---- recency ----

  lemma RestRecent(q: seq<nat>, stamps: seq<nat>)
    requires q != [] && Recent(q, stamps)
    ensures Recent(q[1..], stamps)
  {
    forall a, b | 0 <= a < b < |q[1..]| && q[1..][a] < |stamps| && q[1..][b] < |stamps|
      ensures stamps[q[1..][a]] >= stamps[q[1..][b]]
    {
      assert q[1..][a] == q[a + 1] && q[1..][b] == q[b + 1];
    }
  }

  lemma {:induction false} RemoveRecent(q: seq<nat>, stamps: seq<nat>, i: nat)
    requires Recent(q, stamps)
    ensures Recent(Remove(q, i), stamps)
    ensures forall x :: x in Remove(q, i) ==> x in q
  {
    if q != [] && q[0] != i {
      assert q == [q[0]] + q[1..];
      RestRecent(q, stamps);
      RemoveRecent(q[1..], stamps, i);
      var r := Remove(q[1..], i);
      forall j | 0 <= j < |r| && q[0] < |stamps| && r[j] < |stamps| ensures stamps[q[0]] >= stamps[r[j]] {
        assert r[j] in q[1..];
        var k :| 0 <= k < |q[1..]| && q[1..][k] == r[j];
        assert q[k + 1] == r[j];
      }
    }
  }

  lemma SelectRecent(q: seq<nat>, stamps: seq<nat>, i: nat, now: nat)
    requires Recent(q, stamps) && Distinct(q) && i < |stamps| && forall k :: 0 <= k < |stamps| ==> stamps[k] <= now
    ensures Recent(MoveTo(q, i, Head), stamps[i := now])
  {
    hide Remove;
    RemoveRecent(q, stamps, i);
    RemoveIs(q, i);
    var r := Remove(q, i);
    forall j | 0 <= j < |r| ensures r[j] != i { assert r[j] in r; }
  }

  // ---- one taken branch ----

  lemma TakenEntries(b: Btb, s: nat, w: Ways, pc: nat, npc: nat, correct: bool, d: Btb)
    requires 0 < b.nsets && 0 < b.shift && WaysOk(b, s, w) && Index(b, pc) == s && w.order != []
    requires forall i :: 0 <= i < |w.order| ==> w.order[i] < |w.ents|
    requires correct && Match(w.ents, pc) >= 0 ==> w.ents[Match(w.ents, pc)].target == npc
    requires d.nsets == b.nsets && d.shift == b.shift && d.last == b.last[pc := npc]
    ensures var r := Taken(w, pc, npc, correct, b.clock + 1);
            && (forall i, j :: 0 <= i < j < |r.ents| && r.ents[i].addr == r.ents[j].addr ==> r.ents[i].addr == 0)
            && (forall i :: 0 <= i < |r.ents| && r.ents[i].addr != 0 ==>
                  Index(d, r.ents[i].addr) == s && r.ents[i].addr in d.last && d.last[r.ents[i].addr] == r.ents[i].target)
  {
    hide Perm, Recent, MoveTo;
    var r := Taken(w, pc, npc, correct, b.clock + 1);
    var x := Selected(w, pc);
    assert r.ents[x] == Entry(pc, npc);
    forall i | 0 <= i < |w.ents| && i != x ensures r.ents[i] == w.ents[i] && (pc != 0 ==> w.ents[i].addr != pc) {}
    forall a ensures Index(d, a) == Index(b, a) {}
  }

  lemma TakenWays(b: Btb, s: nat, w: Ways, pc: nat, npc: nat, correct: bool, d: Btb)
    requires 0 < b.nsets && 0 < b.shift && 0 < b.assoc && WaysOk(b, s, w) && Index(b, pc) == s && w.order != []
    requires forall i :: 0 <= i < |w.order| ==> w.order[i] < |w.ents|
    requires correct && Match(w.ents, pc) >= 0 ==> w.ents[Match(w.ents, pc)].target == npc
    requires d == b.(last := b.last[pc := npc], clock := b.clock + 1, sets := d.sets)
    ensures WaysOk(d, s, Taken(w, pc, npc, correct, b.clock + 1))
  {
    hide Perm, Recent, MoveTo, Index;
    TakenEntries(b, s, w, pc, npc, correct, d);
    var x := Selected(w, pc);
    MoveKeepsPerm(w.order, b.assoc, x, Head);
    assert Distinct(w.order) by { PermDistinct(w.order, b.assoc); }
    SelectRecent(w.order, w.stamps, x, b.clock + 1);
  }

  lemma PermDistinct(q: seq<nat>, n: nat)
    requires Perm(q, n)
    ensures Distinct(q)
  {
  }

  lemma OtherWays(b: Btb, s: nat, w: Ways, pc: nat, npc: nat, d: Btb)
    requires 0 < b.nsets && 0 < b.shift && WaysOk(b, s, w) && Index(b, pc) != s
    requires d == b.(last := b.last[pc := npc], clock := b.clock + 1, sets := d.sets)
    ensures WaysOk(d, s, w)
  {
    hide Perm, Recent;
    forall a ensures Index(d, a) == Index(b, a) {}
  }

  /** A lookup and its update keep the invariant, for any branch. */
  lemma StepKeeps(b: Btb, e: Branch)
    requires Inv(b) && Shaped(b)
    ensures Inv(Step(b, e)) && Shaped(Step(b, e))
  {
    hide WaysOk, Index, Predicted, Taken, Match;
    var d := Step(b, e);
    if !e.ret && IsTaken(e) {
      var s := Index(b, e.pc);
      assert WaysShaped(b.sets[s], b.assoc);
      if Predicted(b, e) == e.npc { CorrectKeepsTarget(b, e); }
      TakenWays(b, s, b.sets[s], e.pc, e.npc, Predicted(b, e) == e.npc, d);
      forall x | 0 <= x < b.nsets ensures WaysOk(d, x, d.sets[x]) {
        if x != s { OtherWays(b, x, b.sets[x], e.pc, e.npc, d); }
      }
    }
    InvShaped(d);
  }

  // ---- runs ----

  lemma {:induction false} RunKeeps(b: Btb, es: seq<Branch>)
    requires Inv(b)
    ensures var r := Run(b, es);
            r.Ran? ==> Inv(r.b) && Shaped(r.b) && r.b.nsets == b.nsets && r.b.assoc == b.assoc && r.b.shift == b.shift
    decreases |es|
  {
    hide Inv, Shaped, Step, AssertFails;
    InvShaped(b);
    if es != [] && !AssertFails(b, es[0]) {
      StepKeeps(b, es[0]);
      SameGeometry(b, es[0]);
      RunKeeps(Step(b, es[0]), es[1..]);
    }
  }

  lemma SameGeometry(b: Btb, e: Branch)
    requires Shaped(b)
    ensures var d := Step(b, e); d.nsets == b.nsets && d.assoc == b.assoc && d.shift == b.shift
  {
    hide Shaped, Taken, Index, Predicted;
  }

  lemma CreateInv(nsets: nat, assoc: nat, shift: nat)
    requires 0 < nsets && 0 < assoc && 0 < shift
    ensures Inv(Create(nsets, assoc, shift))
  {
    hide Index;
    var b := Create(nsets, assoc, shift);
    var w := NewWays(assoc);
    assert Perm(w.order, assoc) by {
      forall x: nat | x < assoc ensures x in w.order { assert w.order[x] == x; }
    }
    forall s | 0 <= s < nsets ensures WaysOk(b, s, b.sets[s]) {}
  }

  /** The destination of the last taken branch at pc that did not use the return stack. */
  ghost function LastTaken(es: seq<Branch>, pc: nat): (r: map<nat, nat>)
    decreases |es|
  {
    if es == [] then map[]
    else
      var e := es[|es| - 1];
      if e.pc == pc && !e.ret && IsTaken(e) then map[pc := e.npc] else LastTaken(es[..|es| - 1], pc)
  }

  lemma {:induction false} RunSnoc(b: Btb, es: seq<Branch>, e: Branch)
    ensures var r := Run(b, es);
            Run(b, es + [e]) ==
            if r.Failed? || !Shaped(r.b) then r else if AssertFails(r.b, e) then Failed else Ran(Step(r.b, e))
    decreases |es|
  {
    hide Step, Shaped, AssertFails;
    if es == [] {
      assert [] + [e] == [e];
      assert [e][1..] == [];
    } else if Shaped(b) {
      assert (es + [e])[0] == es[0] && (es + [e])[1..] == es[1..] + [e];
      if !AssertFails(b, es[0]) { RunSnoc(Step(b, es[0]), es[1..], e); }
    }
  }

  lemma {:induction false} LastIs(b: Btb, es: seq<Branch>, pc: nat)
    requires Inv(b) && b.last == map[] && Run(b, es).Ran?
    ensures var d := Run(b, es).b;
            (pc in d.last <==> pc in LastTaken(es, pc)) && (pc in d.last ==> d.last[pc] == LastTaken(es, pc)[pc])
    decreases |es|
  {
    hide Inv, Shaped, Index, Taken, Predicted, AssertFails;
    if es != [] {
      var n := |es| - 1;
      assert es == es[..n] + [es[n]];
      RunSnoc(b, es[..n], es[n]);
      LastIs(b, es[..n], pc);
      RunKeeps(b, es[..n]);
    }
  }

  /** In any run from power-up that no assertion ends, the entry found for a branch holds the destination of its last
      taken execution. */
  lemma EntryIsLastTaken(nsets: nat, assoc: nat, shift: nat, es: seq<Branch>, pc: nat)
    requires 0 < nsets && 0 < assoc && 0 < shift && pc != 0 && Run(Create(nsets, assoc, shift), es).Ran?
    ensures var d := Run(Create(nsets, assoc, shift), es).b;
            && Shaped(d) && var w := d.sets[Index(d, pc)]; var i := Match(w.ents, pc);
            i >= 0 ==> pc in LastTaken(es, pc) && w.ents[i].target == LastTaken(es, pc)[pc]
  {
    hide Perm, Recent, Index, Run, Create, LastTaken;
    CreateInv(nsets, assoc, shift);
    CreateLast(nsets, assoc, shift);
    RunKeeps(Create(nsets, assoc, shift), es);
    var d := Run(Create(nsets, assoc, shift), es).b;
    LastIs(Create(nsets, assoc, shift), es, pc);
    assert WaysOk(d, Index(d, pc), d.sets[Index(d, pc)]);
  }

  lemma CreateLast(nsets: nat, assoc: nat, shift: nat)
    ensures Create(nsets, assoc, shift).last == map[]
  {
  }

  // ---- the duplicate-match assertion ----

  /** Two entries match only for a branch at address 0, the address of entries never used. */
  lemma DuplicateOnlyAtZero(b: Btb, s: nat, pc: nat)
    requires Inv(b) && s < b.nsets && Duplicate(b.sets[s].ents, pc)
    ensures pc == 0
  {
    hide Perm, Recent, Index;
    assert WaysOk(b, s, b.sets[s]);
  }

  /** The branches that have been taken, outside the return stack, from addresses that go to set 0. */
  function TakenThere(b: Btb, es: seq<Branch>): set<nat>
    requires 0 < b.nsets && 0 < b.shift
  {
    set i | 0 <= i < |es| && !es[i].ret && IsTaken(es[i]) && Index(b, es[i].pc) == 0 :: es[i].pc
  }

  /** An entry has been used exactly if it has been selected, only branches taken there have entries, and while
      there are unused entries all of them have. */
  ghost predicate Filling(w: Ways, taken: set<nat>) {
    && |w.stamps| == |w.ents| && (forall i :: 0 <= i < |w.ents| ==> (w.ents[i].addr == 0 <==> w.stamps[i] == 0))
    && (forall i :: 0 <= i < |w.ents| && w.ents[i].addr != 0 ==> w.ents[i].addr in taken)
    && ((exists i :: 0 <= i < |w.ents| && w.ents[i].addr == 0) ==>
          forall a :: a in taken ==> exists i :: 0 <= i < |w.ents| && w.ents[i].addr == a)
  }

  /** The victim is an unused entry while there is one. */
  lemma VictimUnused(w: Ways, n: nat, taken: set<nat>, u: nat)
    requires Filling(w, taken) && Perm(w.order, n) && |w.ents| == n && Recent(w.order, w.stamps) && w.order != []
    requires u < n && w.ents[u].addr == 0
    ensures w.order[|w.order| - 1] < n && w.ents[w.order[|w.order| - 1]].addr == 0
  {
    assert u in w.order;
    var k :| 0 <= k < |w.order| && w.order[k] == u;
    assert w.order[|w.order| - 1] in w.order;
    if k < |w.order| - 1 { assert w.stamps[u] >= w.stamps[w.order[|w.order| - 1]]; }
  }

  lemma TakenFills(w: Ways, n: nat, taken: set<nat>, pc: nat, npc: nat, correct: bool, now: nat)
    requires Filling(w, taken) && Perm(w.order, n) && |w.ents| == n && Recent(w.order, w.stamps) && w.order != []
    requires forall i :: 0 <= i < |w.order| ==> w.order[i] < n
    requires pc != 0 && 0 < now
    ensures Filling(Taken(w, pc, npc, correct, now), taken + {pc})
  {
    hide Perm, Recent, MoveTo;
    var r := Taken(w, pc, npc, correct, now);
    var x := Selected(w, pc);
    assert r.ents[x].addr == pc && forall i :: 0 <= i < n && i != x ==> r.ents[i] == w.ents[i] && r.stamps[i] == w.stamps[i];
    if u :| 0 <= u < n && r.ents[u].addr == 0 {
      assert w.ents[u].addr == 0;
      VictimUnused(w, n, taken, u);
      assert w.ents[x].addr == pc || w.ents[x].addr == 0;
      forall a | a in taken + {pc} ensures exists i :: 0 <= i < n && r.ents[i].addr == a {
        if a == pc {
          assert r.ents[x].addr == a;
        } else if a != 0 {
          var i :| 0 <= i < n && w.ents[i].addr == a;
          assert i != x && r.ents[i].addr == a;
        } else {
          assert r.ents[u].addr == a;
        }
      }
    }
  }

  /** A taken branch at address 0, outside the return stack. */
  predicate ZeroTaken(e: Branch) { e.pc == 0 && !e.ret && IsTaken(e) }

  /** Where a run stands with the unused entries of set 0: before the first taken branch at address 0 they fill up in
      order, after it no two entries have address 0. */
  ghost predicate Stands(b: Btb, es: seq<Branch>, d: Btb)
    requires 0 < b.nsets && 0 < b.shift
  {
    && Inv(d) && |d.sets| > 0
    && ((forall i :: 0 <= i < |es| ==> !ZeroTaken(es[i])) ==> Filling(d.sets[0], TakenThere(b, es)) && 0 !in TakenThere(b, es))
    && ((exists i :: 0 <= i < |es| && ZeroTaken(es[i])) ==> !Duplicate(d.sets[0].ents, 0))
  }

  lemma {:induction false} RunFills(b: Btb, es: seq<Branch>)
    requires Inv(b) && Filling(b.sets[0], {}) && Run(b, es).Ran?
    ensures Stands(b, es, Run(b, es).b)
    decreases |es|
  {
    hide Filling, WaysOk, Index, Taken, Predicted, AssertFails, Duplicate, ZeroTaken, Stands, Step, TakenThere;
    RunKeeps(b, es);
    if es == [] {
      assert TakenThere(b, es) == {} by { NoneThere(b); }
      assert Stands(b, es, b) by { hide *; NothingYet(b); }
    } else {
      var n := |es| - 1;
      assert es == es[..n] + [es[n]];
      RunSnoc(b, es[..n], es[n]);
      RunFills(b, es[..n]);
      RunKeeps(b, es[..n]);
      StandsStep(b, es[..n], Run(b, es[..n]).b, es[n]);
    }
  }

  lemma NothingYet(b: Btb)
    requires Inv(b) && Filling(b.sets[0], {})
    ensures Stands(b, [], b)
  {
    hide Filling, WaysOk, Duplicate;
    NoneThere(b);
  }

  lemma NoneThere(b: Btb)
    requires 0 < b.nsets && 0 < b.shift
    ensures TakenThere(b, []) == {}
  {
  }

  lemma StandsStep(b: Btb, es: seq<Branch>, d: Btb, e: Branch)
    requires 0 < b.nsets && 0 < b.shift && Inv(d) && Shaped(d) && Stands(b, es, d) && !AssertFails(d, e)
    requires d.nsets == b.nsets && d.shift == b.shift
    ensures Stands(b, es + [e], Step(d, e))
  {
    hide Filling, WaysOk, Index, Taken, Predicted, Duplicate, TakenThere, Inv, Shaped, IsTaken;
    var all := es + [e];
    assert all[|es|] == e && forall i :: 0 <= i < |es| ==> all[i] == es[i];
    StepKeeps(d, e);
    TakenSnoc(b, es, e);
    InvShaped(d);
    if forall i :: 0 <= i < |all| ==> !ZeroTaken(all[i]) {
      forall i | 0 <= i < |es| ensures !ZeroTaken(es[i]) { assert !ZeroTaken(all[i]); }
      assert !ZeroTaken(all[|es|]);
      FillsStep(b, d, TakenThere(b, es), e);
    }
    if i :| 0 <= i < |all| && ZeroTaken(all[i]) {
      if !ZeroTaken(e) { assert ZeroTaken(es[i]); }
      StaysSingle(d, e);
    }
    StepSets(d, e);
  }

  lemma StepSets(d: Btb, e: Branch)
    requires Shaped(d)
    ensures |Step(d, e).sets| == d.nsets > 0
  {
    hide Taken, Index, Predicted;
  }

  lemma FillsStep(b: Btb, d: Btb, taken: set<nat>, e: Branch)
    requires 0 < b.nsets && 0 < b.shift && Inv(d) && Shaped(d) && Filling(d.sets[0], taken) && 0 !in taken && !ZeroTaken(e)
    requires d.nsets == b.nsets && d.shift == b.shift
    ensures |Step(d, e).sets| > 0
    ensures var more := taken + if !e.ret && IsTaken(e) && Index(b, e.pc) == 0 then {e.pc} else {};
            Filling(Step(d, e).sets[0], more) && 0 !in more
  {
    hide Filling, WaysOk, Index, Taken, Predicted, Inv;
    SameIndexes(b, d, e.pc);
    FillParts(d);
    if !e.ret && IsTaken(e) && Index(d, e.pc) == 0 {
      TakenFills(d.sets[0], d.assoc, taken, e.pc, e.npc, Predicted(d, e) == e.npc, d.clock + 1);
    }
    assert taken + {} == taken;
  }

  /** Once a branch at address 0 has passed the assertion, or later, no two entries have that address. */
  lemma StaysSingle(d: Btb, e: Branch)
    requires Shaped(d) && !AssertFails(d, e) && (ZeroTaken(e) || !Duplicate(d.sets[0].ents, 0))
    ensures |Step(d, e).sets| > 0 && !Duplicate(Step(d, e).sets[0].ents, 0)
  {
    hide MoveTo, Predicted;
    ZeroIndex(d);
    assert WaysShaped(d.sets[0], d.assoc);
    assert !Duplicate(d.sets[0].ents, 0);
    if !e.ret && IsTaken(e) && Index(d, e.pc) == 0 {
      var w := d.sets[0];
      var r := Taken(w, e.pc, e.npc, Predicted(d, e) == e.npc, d.clock + 1);
      var x := Selected(w, e.pc);
      assert r.ents[x].addr == e.pc && forall i :: 0 <= i < |w.ents| && i != x ==> r.ents[i] == w.ents[i];
    }
  }

  lemma SameIndexes(b: Btb, d: Btb, pc: nat)
    requires 0 < b.nsets && 0 < b.shift && d.nsets == b.nsets && d.shift == b.shift
    ensures Index(b, pc) == Index(d, pc)
  {
  }

  lemma FillParts(d: Btb)
    requires Inv(d) && Shaped(d)
    ensures var w := d.sets[0];
            && Perm(w.order, d.assoc) && |w.ents| == d.assoc && Recent(w.order, w.stamps) && w.order != []
            && forall i :: 0 <= i < |w.order| ==> w.order[i] < d.assoc
  {
    hide Perm, Recent, Index;
    assert WaysOk(d, 0, d.sets[0]) && WaysShaped(d.sets[0], d.assoc);
  }

  lemma TakenSnoc(b: Btb, es: seq<Branch>, e: Branch)
    requires 0 < b.nsets && 0 < b.shift
    ensures TakenThere(b, es + [e]) ==
            TakenThere(b, es) + if !e.ret && IsTaken(e) && Index(b, e.pc) == 0 then {e.pc} else {}
  {
    hide Index;
    var all := es + [e];
    forall i | 0 <= i < |es| ensures all[i] == es[i] {}
    assert all[|es|] == e;
  }

  // ---- counting entries ----

  function Unused(ents: seq<Entry>): nat {
    if ents == [] then 0 else Unused(ents[..|ents| - 1]) + if ents[|ents| - 1].addr == 0 then 1 else 0
  }

  function UsedBy(ents: seq<Entry>): set<nat> { set i | 0 <= i < |ents| && ents[i].addr != 0 :: ents[i].addr }

  lemma UsedSnoc(ents: seq<Entry>)
    requires ents != []
    ensures var n := |ents| - 1;
            UsedBy(ents) == UsedBy(ents[..n]) + if ents[n].addr == 0 then {} else {ents[n].addr}
  {
    var n := |ents| - 1;
    forall i | 0 <= i < n ensures ents[..n][i] == ents[i] {}
  }

  /** Distinct addresses and unused entries make up the set. */
  lemma {:induction false} Counted(ents: seq<Entry>)
    requires forall i, j :: 0 <= i < j < |ents| && ents[i].addr == ents[j].addr ==> ents[i].addr == 0
    ensures |UsedBy(ents)| + Unused(ents) == |ents|
  {
    hide UsedBy;
    if ents == [] {
      assert UsedBy(ents) == {} by { NoneUsed(); }
    } else {
      var n := |ents| - 1;
      Counted(ents[..n]);
      UsedSnoc(ents);
      if ents[n].addr != 0 { NewUsed(ents); }
    }
  }

  lemma NoneUsed()
    ensures UsedBy([]) == {}
  {
  }

  lemma NewUsed(ents: seq<Entry>)
    requires ents != [] && ents[|ents| - 1].addr != 0
    requires forall i, j :: 0 <= i < j < |ents| && ents[i].addr == ents[j].addr ==> ents[i].addr == 0
    ensures ents[|ents| - 1].addr !in UsedBy(ents[..|ents| - 1])
  {
  }

  lemma {:induction false} UnusedOne(ents: seq<Entry>)
    ensures Unused(ents) >= 1 <==> exists i :: 0 <= i < |ents| && ents[i].addr == 0
  {
    if ents != [] {
      var n := |ents| - 1;
      var rest := ents[..n];
      UnusedOne(rest);
      forall i | 0 <= i < n ensures rest[i] == ents[i] {}
    }
  }

  lemma {:induction false} UnusedTwo(ents: seq<Entry>)
    ensures Unused(ents) >= 2 <==> Duplicate(ents, 0)
  {
    if ents != [] {
      var n := |ents| - 1;
      var rest := ents[..n];
      UnusedTwo(rest);
      UnusedOne(rest);
      if Duplicate(rest, 0) {
        var i, j :| 0 <= i < j < |rest| && rest[i].addr == 0 && rest[j].addr == 0;
        assert ents[i].addr == 0 && ents[j].addr == 0;
      }
      if ents[n].addr == 0 {
        if i :| 0 <= i < n && rest[i].addr == 0 { assert ents[i].addr == 0 && ents[n].addr == 0; }
      }
      if Duplicate(ents, 0) {
        var i, j :| 0 <= i < j < |ents| && ents[i].addr == 0 && ents[j].addr == 0;
        assert rest[i].addr == 0;
        if j < n { assert rest[j].addr == 0; }
      }
    }
  }

  /** From power-up, the first taken branch at address 0 fails the assertion exactly when its set has at least two more
      entries than branches have been taken there. */
  lemma {:induction false} ZeroBranchFails(nsets: nat, assoc: nat, shift: nat, es: seq<Branch>, e: Branch)
    requires 0 < nsets && 0 < assoc && 0 < shift && (forall i :: 0 <= i < |es| ==> !ZeroTaken(es[i])) && ZeroTaken(e)
    requires Run(Create(nsets, assoc, shift), es).Ran?
    ensures var b := Create(nsets, assoc, shift); var d := Run(b, es).b;
            && Shaped(d) && b.nsets == nsets && b.shift == shift
            && (AssertFails(d, e) <==> |TakenThere(b, es)| + 2 <= assoc)
  {
    hide Inv, WaysOk, Run, TakenThere, Duplicate, Unused, UsedBy, Shaped;
    var b := Create(nsets, assoc, shift);
    CreateInv(nsets, assoc, shift);
    NothingFilled(nsets, assoc, shift);
    RunFills(b, es);
    RunKeeps(b, es);
    var d := Run(b, es).b;
    assert Index(d, 0) == 0 by { ZeroIndex(d); }
    var ents, taken := d.sets[0].ents, TakenThere(b, es);
    UniqueThere(d);
    Counted(ents);
    UnusedOne(ents);
    UnusedTwo(ents);
    UsedWithin(d.sets[0], taken);
    assert |ents| == assoc by { FillParts(d); }
    if Unused(ents) == 0 { SubsetSize(UsedBy(ents), taken); }
  }

  /** Event k is the first taken branch at address 0. */
  ghost predicate FirstZero(es: seq<Branch>, k: nat) {
    k < |es| && ZeroTaken(es[k]) && forall i :: 0 <= i < k ==> !ZeroTaken(es[i])
  }

  /** A run from power-up fails the assertion if and only if it takes a branch at address 0 while set 0 has at least two
      more entries than branches have been taken there: the first such branch decides for the whole run. */
  lemma {:induction false} RunFails(nsets: nat, assoc: nat, shift: nat, es: seq<Branch>)
    requires 0 < nsets && 0 < assoc && 0 < shift
    ensures var b := Create(nsets, assoc, shift);
            && b.nsets == nsets && b.shift == shift
            && (Run(b, es).Failed? <==> exists k: nat :: FirstZero(es, k) && |TakenThere(b, es[..k])| + 2 <= assoc)
    decreases |es|
  {
    hide Inv, Run, TakenThere, Duplicate, Shaped, AssertFails, ZeroTaken, Stands, Create;
    var b := Create(nsets, assoc, shift);
    SizesOf(nsets, assoc, shift);
    if es == [] {
      assert Run(b, es).Ran? by { NoEvents(b); }
    } else {
      var n := |es| - 1;
      var rest, e := es[..n], es[n];
      RunFails(nsets, assoc, shift, rest);
      assert es == rest + [e];
      RunSnoc(b, rest, e);
      forall k: nat | k < n ensures (FirstZero(es, k) <==> FirstZero(rest, k)) && es[..k] == rest[..k] {}
      if Run(b, rest).Ran? {
        CreateInv(nsets, assoc, shift);
        RunKeeps(b, rest);
        LastDecides(nsets, assoc, shift, rest, e);
        if Run(b, es).Failed? { assert FirstZero(es, n) && es[..n] == rest; }
        assert forall k: nat :: FirstZero(es, k) && |TakenThere(b, es[..k])| + 2 <= assoc ==> k == n;
      } else {
        var k: nat :| FirstZero(rest, k) && |TakenThere(b, rest[..k])| + 2 <= assoc;
        assert FirstZero(es, k);
      }
    }
  }

  lemma NoEvents(b: Btb)
    ensures Run(b, []) == Ran(b)
  {
  }

  lemma SizesOf(nsets: nat, assoc: nat, shift: nat)
    ensures var b := Create(nsets, assoc, shift); b.nsets == nsets && b.shift == shift
  {
  }

  lemma LastDecides(nsets: nat, assoc: nat, shift: nat, rest: seq<Branch>, e: Branch)
    requires 0 < nsets && 0 < assoc && 0 < shift && Run(Create(nsets, assoc, shift), rest).Ran?
    ensures var b := Create(nsets, assoc, shift); var d := Run(b, rest).b; var es := rest + [e];
            && Shaped(d) && b.nsets == nsets && b.shift == shift && es[..|rest|] == rest
            && (AssertFails(d, e) <==> FirstZero(es, |rest|) && |TakenThere(b, rest)| + 2 <= assoc)
  {
    hide Inv, Run, TakenThere, Duplicate, Shaped, Filling, Create, IsTaken, Index;
    var b := Create(nsets, assoc, shift);
    var d := Run(b, rest).b;
    var es := rest + [e];
    SizesOf(nsets, assoc, shift);
    CreateInv(nsets, assoc, shift);
    RunKeeps(b, rest);
    assert es[|rest|] == e && forall i :: 0 <= i < |rest| ==> es[i] == rest[i];
    if !ZeroTaken(e) {
      OnlyZeroFails(d, e);
    } else if forall i :: 0 <= i < |rest| ==> !ZeroTaken(rest[i]) {
      ZeroBranchFails(nsets, assoc, shift, rest, e);
    } else {
      NothingFilled(nsets, assoc, shift);
      ZeroIndex(d);
      SetsOf(b);
      RunFills(b, rest);
    }
  }

  lemma SetsOf(b: Btb)
    requires Inv(b)
    ensures 0 < b.nsets && 0 < b.shift && |b.sets| > 0
  {
  }

  lemma OnlyZeroFails(d: Btb, e: Branch)
    requires Inv(d) && Shaped(d) && !ZeroTaken(e)
    ensures !AssertFails(d, e)
  {
    hide Inv, Duplicate, WaysOk;
    if AssertFails(d, e) { DuplicateOnlyAtZero(d, Index(d, e.pc), e.pc); }
  }

  lemma NothingFilled(nsets: nat, assoc: nat, shift: nat)
    requires 0 < nsets
    ensures Filling(Create(nsets, assoc, shift).sets[0], {})
  {
  }

  lemma ZeroIndex(d: Btb)
    requires 0 < d.nsets && 0 < d.shift
    ensures Index(d, 0) == 0
  {
  }

  lemma UniqueThere(d: Btb)
    requires Inv(d)
    ensures |d.sets| > 0
    ensures var ents := d.sets[0].ents;
            forall i, j :: 0 <= i < j < |ents| && ents[i].addr == ents[j].addr ==> ents[i].addr == 0
  {
    hide Perm, Recent, Index;
    assert WaysOk(d, 0, d.sets[0]);
  }

  lemma UsedWithin(w: Ways, taken: set<nat>)
    requires Filling(w, taken)
    ensures UsedBy(w.ents) <= taken
    ensures (exists i :: 0 <= i < |w.ents| && w.ents[i].addr == 0) && 0 !in taken ==> UsedBy(w.ents) == taken
  {
  }

  lemma {:induction false} SubsetSize(x: set<nat>, y: set<nat>)
    requires x <= y
    ensures |x| <= |y|
  {
    assert y == x + (y - x);
  }
}
