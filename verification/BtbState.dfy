/** The branch target buffer of bpred.c, driven as sim-bpred.c drives it: a lookup directly followed by an update
    for every branch.  What the direction predictor and the return stack answer is part of the event. */
module BtbState {
  import opened WayOrder

  /** btb_data: addr 0 marks an entry never used. */
  datatype Entry = Entry(addr: nat, target: nat)

  /** One set: its entries, the recency list from head to tail, and, as history, when each entry was last
      selected by a taken branch. */
  datatype Ways = Ways(ents: seq<Entry>, order: seq<nat>, stamps: seq<nat>)

  datatype Btb = Btb(nsets: nat, assoc: nat, shift: nat, sets: seq<Ways>, clock: nat, last: map<nat, nat>)

  /** (baddr >> MD_BR_SHIFT) & (sets - 1), for a power-of-two number of sets. */
  function Index(b: Btb, pc: nat): (i: nat)
    requires 0 < b.nsets && 0 < b.shift
    ensures i < b.nsets
  {
    pc / b.shift % b.nsets
  }

  /** The first entry for an address, or -1. */
  function Match(ents: seq<Entry>, a: nat): (i: int)
    ensures -1 <= i < |ents| && (i >= 0 ==> ents[i].addr == a)
    ensures i < 0 ==> forall j :: 0 <= j < |ents| ==> ents[j].addr != a
    ensures i >= 0 ==> forall j :: 0 <= j < i ==> ents[j].addr != a
  {
    if ents == [] then -1 else if ents[0].addr == a then 0
    else
      var i := Match(ents[1..], a);
      if i < 0 then -1 else i + 1
  }

  predicate Shaped(b: Btb) {
    && 0 < b.nsets && 0 < b.assoc && 0 < b.shift && |b.sets| == b.nsets
    && forall s :: 0 <= s < b.nsets ==> WaysShaped(b.sets[s], b.assoc)
  }

  predicate WaysShaped(w: Ways, n: nat) {
    |w.ents| == n && |w.stamps| == n && 0 < |w.order| && forall i :: 0 <= i < |w.order| ==> w.order[i] < n
  }

  /** The entry bpred_update selects in a set. */
  function Selected(w: Ways, pc: nat): (i: nat)
    requires w.order != []
    ensures Match(w.ents, pc) >= 0 ==> i == Match(w.ents, pc)
  {
    if Match(w.ents, pc) >= 0 then Match(w.ents, pc) else w.order[|w.order| - 1]
  }

  /** The BTB part of bpred_update for a taken branch. */
  function Taken(w: Ways, pc: nat, npc: nat, correct: bool, now: nat): (r: Ways)
    requires w.order != [] && |w.stamps| == |w.ents| && forall i :: 0 <= i < |w.order| ==> w.order[i] < |w.ents|
    ensures |r.ents| == |w.ents|
  {
    var i := Selected(w, pc);
    var e := w.ents[i];
    Ways(w.ents[i := if e.addr == pc then (if correct then e else e.(target := npc)) else Entry(pc, npc)],
         MoveTo(w.order, i, Head), w.stamps[i := now])
  }

  /** A branch: its address, where it went, whether it is a jump, the return stack's answer if it is a return
      that pops the stack, and what the direction counters say. */
  datatype Branch = Branch(pc: nat, npc: nat, uncond: bool, ret: bool, stackSays: nat, dirTaken: bool)

  const INST_SIZE: nat := 8

  /** bpred_lookup: 0 for not taken, 1 for taken to an unknown target. */
  function Lookup(b: Btb, e: Branch): nat
    requires Shaped(b)
  {
    if e.ret then e.stackSays
    else
      var w := b.sets[Index(b, e.pc)];
      var i := Match(w.ents, e.pc);
      if e.uncond then (if i >= 0 then w.ents[i].target else 1)
      else if !e.dirTaken then 0
      else if i >= 0 then w.ents[i].target else 1
  }

  /** The predicted next address as sim-bpred.c takes it. */
  function Predicted(b: Btb, e: Branch): nat
    requires Shaped(b)
  {
    if Lookup(b, e) == 0 then e.pc + INST_SIZE else Lookup(b, e)
  }

  predicate IsTaken(e: Branch) { e.npc != e.pc + INST_SIZE }

  /** bpred_lookup followed by bpred_update; returns that used the stack touch nothing. */
  function Step(b: Btb, e: Branch): Btb
    requires Shaped(b)
  {
    if e.ret || !IsTaken(e) then b
    else
      var s := Index(b, e.pc);
      b.(sets := b.sets[s := Taken(b.sets[s], e.pc, e.npc, Predicted(b, e) == e.npc, b.clock + 1)],
         clock := b.clock + 1, last := b.last[e.pc := e.npc])
  }

  /** Two entries match. */
  predicate Duplicate(ents: seq<Entry>, pc: nat) {
    exists i, j :: 0 <= i < j < |ents| && ents[i].addr == pc && ents[j].addr == pc
  }

  /** The duplicate-match assertion of bpred_update fails. */
  predicate AssertFails(b: Btb, e: Branch)
    requires Shaped(b)
  {
    !e.ret && IsTaken(e) && Duplicate(b.sets[Index(b, e.pc)].ents, e.pc)
  }

  /** A run of branches ends in a buffer, or where the duplicate-match assertion fails. */
  datatype Outcome = Ran(b: Btb) | Failed

  function Run(b: Btb, es: seq<Branch>): Outcome
    decreases |es|
  {
    if es == [] || !Shaped(b) then Ran(b)
    else if AssertFails(b, es[0]) then Failed
    else Run(Step(b, es[0]), es[1..])
  }

  /** 0 up to n - 1: the lists bpred_create links. */
  function CountUp(n: nat): (q: seq<nat>)
    ensures |q| == n && forall i :: 0 <= i < n ==> q[i] == i
  {
    seq(n, i => i)
  }

  function NewWays(n: nat): Ways {
    Ways(seq(n, _ => Entry(0, 0)), CountUp(n), seq(n, _ => 0))
  }

  /** bpred_create */
  function Create(nsets: nat, assoc: nat, shift: nat): Btb {
    Btb(nsets, assoc, shift, seq(nsets, _ => NewWays(assoc)), 0, map[])
  }

  // ---- the invariant ----

  /** No two entries hold the same branch, every used entry belongs to the set and has the branch's last taken
      destination, and the list orders the entries by when they were last selected. */
  ghost predicate WaysOk(b: Btb, s: nat, w: Ways)
    requires 0 < b.nsets && 0 < b.shift
  {
    && |w.ents| == b.assoc && |w.stamps| == b.assoc && Perm(w.order, b.assoc)
    && (forall i, j :: 0 <= i < j < |w.ents| && w.ents[i].addr == w.ents[j].addr ==> w.ents[i].addr == 0)
    && (forall i :: 0 <= i < |w.ents| && w.ents[i].addr != 0 ==>
          Index(b, w.ents[i].addr) == s && w.ents[i].addr in b.last && b.last[w.ents[i].addr] == w.ents[i].target)
    && (forall i :: 0 <= i < |w.stamps| ==> w.stamps[i] <= b.clock)
    && Recent(w.order, w.stamps)
  }

  /** Later in the list, selected no later. */
  ghost predicate Recent(order: seq<nat>, stamps: seq<nat>) {
    forall i, j :: 0 <= i < j < |order| && order[i] < |stamps| && order[j] < |stamps| ==>
      stamps[order[i]] >= stamps[order[j]]
  }

  ghost predicate Inv(b: Btb) {
    && 0 < b.nsets && 0 < b.assoc && 0 < b.shift && |b.sets| == b.nsets
    && forall s :: 0 <= s < b.nsets ==> WaysOk(b, s, b.sets[s])
  }
}
