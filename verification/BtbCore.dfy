/** The branch target buffer as bpred.c keeps it: entries with prev and next pointers per set, relinked in place. */
module BtbCore {
  import opened WayOrder
  import opened WayLists
  import opened BtbState
  import opened BtbProof

  /** One set of btb_data; prev and next are entry numbers, -1 for a null pointer. */
  class BtbSet {
    var ents: seq<Entry>
    var prev: seq<int>
    var next: seq<int>
    ghost var order: seq<nat>
    ghost var stamps: seq<nat>

    ghost predicate Valid()
      reads this
    {
      && |prev| == |ents| && |next| == |ents| && |stamps| == |ents| && 0 < |ents| && Perm(order, |ents|)
      && InBounds(order, |next|) && Linked(order, prev, next)
    }

    ghost function Snap(): Ways
      reads this
    {
      Ways(ents, order, stamps)
    }

    /** The links bpred_create sets up. */
    constructor (n: nat)
      requires 0 < n
      ensures Valid() && Snap() == NewWays(n)
    {
      ents := seq(n, _ => Entry(0, 0));
      prev := seq(n, i => i - 1);
      next := seq(n, i => if i + 1 < n then i + 1 else -1);
      order, stamps := CountUp(n), seq(n, _ => 0);
      new;
      forall x: nat | x < n ensures x in order { assert order[x] == x; }
    }

    /** The match loop of bpred_lookup. */
    method FindMatch(pc: nat) returns (i: int)
      ensures i == Match(ents, pc)
    {
      i := 0;
      assert ents[0..] == ents;
      while i < |ents|
        invariant 0 <= i <= |ents| && forall j :: 0 <= j < i ==> ents[j].addr != pc
      {
        if ents[i].addr == pc {
          MatchIs(ents, pc, i);
          return;
        }
        i := i + 1;
      }
      return -1;
    }

    /** The scan of bpred_update for the match, the most recent and the least recent entry.  The assertions on
        the list hold; false if the duplicate-match assertion fails. */
    method Scan(pc: nat) returns (ok: bool, hit: int, lruHead: int, lruItem: int)
      requires Valid()
      ensures ok <==> !Duplicate(ents, pc)
      ensures ok ==> hit == Match(ents, pc) && lruHead == order[0] && lruItem == order[|order| - 1]
    {
      hide Perm, Linked, InBounds;
      hit, lruHead, lruItem := -1, -1, -1;
      PermSize(order, |ents|);
      for i := 0 to |ents|
        invariant if hit < 0 then hit == -1 && forall j :: 0 <= j < i ==> ents[j].addr != pc
                  else hit < i && ents[hit].addr == pc && forall j :: 0 <= j < i && j != hit ==> ents[j].addr != pc
        invariant lruHead == (if order[0] < i then order[0] else -1)
        invariant lruItem == (if order[|order| - 1] < i then order[|order| - 1] else -1)
      {
        if ents[i].addr == pc {
          if hit != -1 { return false, hit, lruHead, lruItem; }
          hit := i;
        }
        EndPointers(order, prev, next, i);
        assert |ents| > 1 ==> prev[i] != next[i];
        if prev[i] == -1 {
          assert lruHead == -1;
          lruHead := i;
        }
        if next[i] == -1 {
          assert lruItem == -1;
          lruItem := i;
        }
      }
      ok := true;
      assert lruHead != -1 && lruItem != -1;
      if hit >= 0 { MatchIs(ents, pc, hit); }
    }

    /** Splice an entry out of the list and put it at the head. */
    method MakeRecent(i: nat, lruHead: nat)
      requires Valid() && i in order && order[0] == lruHead && i != lruHead
      modifies `prev, `next, `order
      ensures Valid() && order == MoveTo(old(order), i, Head)
    {
      hide Perm, Linked, InBounds, Remove, Distinct;
      ghost var q, n := order, |ents|;
      PermDistinct(q, n);
      ghost var k := IndexOf(q, i);
      AtIndex(q, prev, next, k);
      Neighbours(q, n, k);
      Neighbours(q, n, 0);
      RemoveAt(q, k);
      RemoveIs(q, i);
      MoveKeepsPerm(q, n, i, Head);
      if prev[i] != -1 { next := next[prev[i] := next[i]]; }
      if next[i] != -1 { Different(q, k, k - 1); prev := prev[next[i] := prev[i]]; }
      CutLinks(q, old(prev), old(next), k, prev, next);
      ghost var r, p0, n0 := Remove(q, i), prev, next;
      RestHead(q, k);
      RestDistinct(q, i);
      next := next[i := lruHead];
      prev := prev[i := -1];
      prev := prev[lruHead := i];
      assert prev[i] != -1 || next[i] != -1;
      PushLinks(r, p0, n0, i);
      order := [i] + r;
    }

    /** The BTB part of bpred_update for a taken branch; false if the duplicate-match assertion fails. */
    method UpdateTaken(pc: nat, npc: nat, correct: bool, ghost now: nat) returns (ok: bool)
      requires Valid()
      modifies this
      ensures ok <==> !Duplicate(old(ents), pc)
      ensures ok ==> Valid() && old(order) != [] && (forall i :: 0 <= i < |old(order)| ==> old(order)[i] < |old(ents)|)
                     && Snap() == Taken(old(Snap()), pc, npc, correct, now)
    {
      hide Perm, Linked, InBounds, MoveTo;
      PermSize(order, |ents|);
      var hit, lruHead, lruItem;
      ok, hit, lruHead, lruItem := Scan(pc);
      if !ok { return; }
      var i := if hit != -1 then hit else lruItem;
      assert i == Selected(Snap(), pc);
      PermIn(order, |ents|, i);
      if i != lruHead {
        MakeRecent(i, lruHead);
      } else {
        HeadStays(order);
      }
      PermDistinct(order, |ents|);
      var e := ents[i];
      if e.addr == pc {
        if !correct { ents := ents[i := e.(target := npc)]; }
      } else {
        ents := ents[i := Entry(pc, npc)];
      }
      stamps := stamps[i := now];
    }
  }

  lemma {:induction false} MatchIs(ents: seq<Entry>, pc: nat, i: nat)
    requires i < |ents| && ents[i].addr == pc && forall j :: 0 <= j < i ==> ents[j].addr != pc
    ensures Match(ents, pc) == i
  {
  }

  lemma PermSize(q: seq<nat>, n: nat)
    requires Perm(q, n) && 0 < n
    ensures |q| == n && Distinct(q) && forall i :: 0 <= i < |q| ==> q[i] < n
  {
    forall i | 0 <= i < |q| ensures q[i] < n { assert q[i] in q; }
  }

  lemma PermIn(q: seq<nat>, n: nat, i: nat)
    requires Perm(q, n) && i < n
    ensures i in q
  {
  }

  /** Where the pointers of an entry are null. */
  lemma EndPointers(q: seq<nat>, prev: seq<int>, next: seq<int>, i: nat)
    requires Perm(q, |next|) && |prev| == |next| && InBounds(q, |next|) && Linked(q, prev, next) && i < |next| && q != []
    ensures prev[i] == -1 <==> i == q[0]
    ensures next[i] == -1 <==> i == q[|q| - 1]
    ensures |q| > 1 ==> prev[i] != next[i]
  {
    hide Linked, InBounds;
    var k := IndexOf(q, i);
    AtIndex(q, prev, next, k);
    if 0 < k && k + 1 < |q| { Different(q, k - 1, k + 1); }
    if k > 0 { Different(q, 0, k); }
    if k + 1 < |q| { Different(q, k, |q| - 1); }
  }

  lemma RestHead(q: seq<nat>, k: nat)
    requires 0 < k < |q| && Distinct(q)
    ensures Remove(q, q[k]) != [] && Remove(q, q[k])[0] == q[0]
  {
    hide Remove, Cut;
    RemoveAt(q, k);
  }

  lemma RestDistinct(q: seq<nat>, i: nat)
    requires Distinct(q)
    ensures Distinct(Remove(q, i)) && i !in Remove(q, i)
  {
    RemoveIs(q, i);
  }

  lemma HeadStays(q: seq<nat>)
    requires q != []
    ensures MoveTo(q, q[0], Head) == q
  {
  }

  /** The whole buffer. */
  class BtbUnit {
    const nsets: nat
    const assoc: nat
    const shift: nat
    const sets: seq<BtbSet>
    ghost var clock: nat
    ghost var last: map<nat, nat>

    ghost predicate Sound()
      reads this, sets
    {
      && 0 < nsets && 0 < assoc && 0 < shift && |sets| == nsets
      && (forall s :: 0 <= s < nsets ==> sets[s].Valid() && |sets[s].ents| == assoc)
      && forall s, t :: 0 <= s < t < nsets ==> sets[s] != sets[t]
    }

    ghost function Sets(): (r: seq<Ways>)
      requires |sets| == nsets
      reads sets
      ensures |r| == nsets && forall s :: 0 <= s < nsets ==> r[s] == sets[s].Snap()
    {
      seq(nsets, s requires 0 <= s < nsets reads sets => sets[s].Snap())
    }

    ghost function Snap(): Btb
      requires Sound()
      reads this, sets
    {
      Btb(nsets, assoc, shift, Sets(), clock, last)
    }

    ghost predicate Valid()
      reads this, sets
    {
      Sound() && Inv(Snap())
    }

    /** The BTB part of bpred_create. */
    constructor (nsets0: nat, assoc0: nat, shift0: nat)
      requires 0 < nsets0 && 0 < assoc0 && 0 < shift0
      ensures Valid() && Snap() == Create(nsets0, assoc0, shift0) && fresh(sets)
    {
      nsets, assoc, shift := nsets0, assoc0, shift0;
      var ss := NewSets(nsets0, assoc0);
      sets := ss;
      clock, last := 0, map[];
      new;
      hide Inv, BtbSet.Valid, NewWays;
      CreateInv(nsets, assoc, shift);
      assert Sets() == Create(nsets, assoc, shift).sets;
    }

    /** bpred_lookup, and the fall-through sim-bpred.c takes when it returns 0. */
    method Predict(e: Branch) returns (pred: nat)
      requires Sound() && Shaped(Snap())
      ensures pred == Predicted(Snap(), e)
    {
      hide BtbSet.Valid, Index, Shaped;
      pred := 0;
      if e.ret {
        pred := e.stackSays;
      } else {
        var s := Index(Snap0(), e.pc);
        assert s == Index(Snap(), e.pc) by { SameIndex(Snap0(), Snap(), e.pc); }
        var i := sets[s].FindMatch(e.pc);
        if e.uncond {
          pred := if i >= 0 then sets[s].ents[i].target else 1;
        } else if e.dirTaken {
          pred := if i >= 0 then sets[s].ents[i].target else 1;
        }
      }
      if pred == 0 { pred := e.pc + INST_SIZE; }
    }

    /** The geometry alone. */
    function Snap0(): Btb { Btb(nsets, assoc, shift, [], 0, map[]) }

    /** The BTB part of bpred_update: a taken branch outside the return stack is entered; ok says that no assertion
        fails. */
    method Update(e: Branch, pred: nat) returns (ok: bool)
      requires Valid() && Shaped(Snap()) && pred == Predicted(Snap(), e)
      modifies this, sets
      ensures Shaped(old(Snap())) && (ok <==> !AssertFails(old(Snap()), e)) && (e.pc != 0 ==> ok)
      ensures ok ==> Sound() && Snap() == Step(old(Snap()), e)
    {
      hide Inv, Index, Shaped, BtbSet.Valid, Duplicate, Taken, Predicted;
      ghost var b := Snap();
      ok := true;
      if !e.ret && e.npc != e.pc + INST_SIZE {
        var s := Index(Snap0(), e.pc);
        SameIndex(Snap0(), b, e.pc);
        if e.pc != 0 { NoDuplicate(b, s, e.pc); }
        ok := sets[s].UpdateTaken(e.pc, e.npc, pred == e.npc, clock + 1);
        if !ok { return; }
        clock, last := clock + 1, last[e.pc := e.npc];
        assert Sets() == b.sets[s := sets[s].Snap()];
      }
    }

    /** bpred_lookup followed by bpred_update for one branch: unless the duplicate assertion fails the invariant is
        kept. */
    method LookupAndUpdate(e: Branch) returns (ok: bool, pred: nat)
      requires Valid()
      modifies this, sets
      ensures Shaped(old(Snap())) && (ok <==> !AssertFails(old(Snap()), e)) && (e.pc != 0 ==> ok)
      ensures ok ==> Valid() && Snap() == Step(old(Snap()), e) && pred == Predicted(old(Snap()), e)
    {
      hide Inv, Shaped, BtbSet.Valid, Step, AssertFails, Predicted;
      InvShaped(Snap());
      StepKeeps(Snap(), e);
      pred := Predict(e);
      ok := Update(e, pred);
    }
  }

  lemma SameIndex(b: Btb, d: Btb, pc: nat)
    requires b.nsets == d.nsets && b.shift == d.shift && 0 < b.nsets && 0 < b.shift
    ensures Index(b, pc) == Index(d, pc)
  {
  }

  lemma NoDuplicate(b: Btb, s: nat, pc: nat)
    requires Inv(b) && s < |b.sets| && pc != 0
    ensures s < b.nsets && !Duplicate(b.sets[s].ents, pc)
  {
    hide Inv, WaysOk;
    InvShaped(b);
    if Duplicate(b.sets[s].ents, pc) { DuplicateOnlyAtZero(b, s, pc); }
  }

  method NewSets(nsets: nat, assoc: nat) returns (ss: seq<BtbSet>)
    requires 0 < assoc
    ensures |ss| == nsets && fresh(ss)
    ensures forall s :: 0 <= s < nsets ==> ss[s].Valid() && ss[s].Snap() == NewWays(assoc)
    ensures forall s, t :: 0 <= s < t < nsets ==> ss[s] != ss[t]
  {
    hide NewWays, BtbSet.Valid;
    ss := [];
    for n := 0 to nsets
      invariant |ss| == n && fresh(ss)
      invariant forall s :: 0 <= s < n ==> ss[s].Valid() && ss[s].Snap() == NewWays(assoc)
      invariant forall s, t :: 0 <= s < t < n ==> ss[s] != ss[t]
    {
      var x := new BtbSet(assoc);
      ss := ss + [x];
    }
  }
}
