/** What holds of the out-of-order core in every reachable state.

    Inside a stage some clauses are suspended for the stations being worked on; a Work value says which. */
module OooInvariant {
  import opened OooState
  import opened OooLists

  /** What a stage has in its hands: the part of the ready list ruu_issue has detached, how many more links
      it is about to free, stations whose event it has taken but that are not marked complete yet, output
      slots of a completing station whose consumers are not all woken, those the create vector may still
      show, and stations that are ready but not queued yet. */
  datatype Work = Work(local: seq<Link>, held: nat, due: set<nat>, drain: set<Slot>, shown: set<Slot>, open: set<nat>)

  const IDLE: Work := Work([], 0, {}, {}, {}, {})

  /** The part of a station that only dispatch, commit and recovery write. */
  ghost function Static(x: Station): Station {
    x.(queued := false, issued := false, completed := false, odeps := Two([], []), ready := Three(true, true, true))
  }

  ghost predicate InFlight(s: State, p: nat) {
    p in s.rob && p < |s.st|
  }

  /** The rings hold exactly the in-flight stations, program order is sequence order, and every address
      computation in the RUU is directly followed by its memory access in the LSQ. */
  ghost predicate Structure(s: State) {
    && Wf(s)
    && (forall i :: 0 <= i < |s.rob| ==> s.rob[i] < |s.st|)
    && (forall i :: 0 <= i < |s.rob| ==> s.st[s.rob[i]].seqno <= s.instSeq)
    && (forall i, j :: 0 <= i < j < |s.rob| ==> s.st[s.rob[i]].seqno < s.st[s.rob[j]].seqno)
    && s.ruuNum <= s.cfg.ruuSize && s.lsqNum <= s.cfg.lsqSize
    && s.ruuTail == (s.ruuHead + s.ruuNum) % s.cfg.ruuSize
    && s.lsqTail == (s.lsqHead + s.lsqNum) % s.cfg.lsqSize
    && RuuPart(s.rob, s.cfg.ruuSize) == Ring(0, s.ruuHead, s.ruuNum, s.cfg.ruuSize)
    && LsqPart(s.rob, s.cfg.ruuSize) == Ring(s.cfg.ruuSize, s.lsqHead, s.lsqNum, s.cfg.lsqSize)
  }

  /** What Structure says of the RUU ring, and of the LSQ ring. */
  lemma RuuRing(s: State)
    requires Structure(s)
    ensures 0 < s.cfg.ruuSize && s.ruuHead < s.cfg.ruuSize && s.ruuNum <= s.cfg.ruuSize
    ensures s.ruuTail == (s.ruuHead + s.ruuNum) % s.cfg.ruuSize
    ensures RuuPart(s.rob, s.cfg.ruuSize) == Ring(0, s.ruuHead, s.ruuNum, s.cfg.ruuSize)
  {
  }

  lemma LsqRing(s: State)
    requires Structure(s)
    ensures 0 < s.cfg.lsqSize && s.lsqHead < s.cfg.lsqSize && s.lsqNum <= s.cfg.lsqSize
    ensures s.lsqTail == (s.lsqHead + s.lsqNum) % s.cfg.lsqSize
    ensures LsqPart(s.rob, s.cfg.ruuSize) == Ring(s.cfg.ruuSize, s.lsqHead, s.lsqNum, s.cfg.lsqSize)
  {
  }

  ghost predicate Paired(s: State)
    requires Structure(s)
  {
    && (forall i :: 0 <= i < |s.rob| && s.st[s.rob[i]].eaComp ==>
          s.rob[i] < s.cfg.ruuSize && i + 1 < |s.rob| && s.rob[i + 1] >= s.cfg.ruuSize)
    && (forall i :: 0 <= i < |s.rob| && s.rob[i] >= s.cfg.ruuSize ==> 0 < i && s.st[s.rob[i - 1]].eaComp)
  }

  /** What a station's opcode and place allow. */
  ghost predicate Kinds(s: State) {
    && (forall i :: 0 <= i < |s.ifq| ==> InstOk(s.cfg, s.ifq[i]))
    && (forall p: nat :: InFlight(s, p) ==> KindOk(s.cfg, p, s.st[p]))
  }

  ghost predicate KindOk(cfg: Config, p: nat, x: Station) {
    && (x.inLsq <==> cfg.ruuSize <= p)
    && (x.inLsq <==> x.kind != Alu)
    && (x.inLsq ==> !x.recover)
    && (x.kind == Store ==> x.onames == Two(NA, NA) && x.fu != NA)
    && FuOk(cfg, x.fu)
  }

  /** Exactly the first nspec stations are on the correct path, and no pair straddles the boundary. */
  ghost predicate Split(s: State)
    requires Structure(s)
  {
    && s.nspec <= |s.rob|
    && (forall i :: 0 <= i < |s.rob| ==> (s.st[s.rob[i]].spec <==> s.nspec <= i))
    && (s.nspec < |s.rob| ==> s.rob[s.nspec] < s.cfg.ruuSize)
  }

  ghost function SeqnosOf(st: seq<Station>, ids: seq<nat>): seq<nat>
    requires forall i :: 0 <= i < |ids| ==> ids[i] < |st|
  {
    seq(|ids|, i requires 0 <= i < |ids| => st[ids[i]].seqno)
  }

  /** Retired, followed by in flight on the correct path, is everything dispatched on the correct path. */
  ghost predicate History(s: State)
    requires Structure(s) && Split(s)
  {
    CorrectPathInRange(s);
    s.retired + SeqnosOf(s.st, RuuPart(s.rob[..s.nspec], s.cfg.ruuSize)) == s.log
  }

  lemma CorrectPathInRange(s: State)
    requires Structure(s) && Split(s)
    ensures forall i :: 0 <= i < |RuuPart(s.rob[..s.nspec], s.cfg.ruuSize)| ==>
              RuuPart(s.rob[..s.nspec], s.cfg.ruuSize)[i] < |s.st|
  {
    var ids := RuuPart(s.rob[..s.nspec], s.cfg.ruuSize);
    PartMembers(s.rob[..s.nspec], s.cfg.ruuSize);
    forall i | 0 <= i < |ids| ensures ids[i] < |s.st| {
      assert ids[i] in ids;
    }
  }

  ghost predicate Layout(s: State) {
    Structure(s) && Paired(s) && Kinds(s) && Split(s) && History(s)
  }

  ghost predicate Statuses(s: State) {
    forall p: nat :: InFlight(s, p) ==> StatusOk(s.st[p])
  }

  ghost predicate StatusOk(x: Station) {
    && (x.queued ==> OperandsReady(x) && !x.issued)
    && (x.issued ==> OperandsReady(x))
    && (x.completed ==> x.issued)
  }

  /** Links never carry a tag from the future, and a link with a current tag names an in-flight station. */
  ghost predicate TagsOk(s: State, k: multiset<Key>) {
    forall key :: key in k ==> KeyOk(s, key)
  }

  ghost predicate KeyOk(s: State, key: Key) {
    && key.rs < |s.st| && key.tag <= s.st[key.rs].tag
    && (key.tag == s.st[key.rs].tag ==> key.rs in s.rob)
  }

  ghost function ReadyLinks(s: State, local: seq<Link>): multiset<Key> {
    Keys(s.readyQ) + Keys(local)
  }

  /** A queued station has exactly one live ready-queue link, any other none. */
  ghost predicate ReadyOk(s: State, local: seq<Link>) {
    && TagsOk(s, ReadyLinks(s, local))
    && (forall p: nat :: InFlight(s, p) ==>
          ReadyLinks(s, local)[Key(p, s.st[p].tag)] == if s.st[p].queued then 1 else 0)
  }

  /** A station in execution has exactly one live event, any other none; events are sorted by time. */
  ghost predicate EventsOk(s: State, due: set<nat>) {
    && TagsOk(s, Keys(s.eventQ))
    && (forall p: nat :: InFlight(s, p) ==>
          Keys(s.eventQ)[Key(p, s.st[p].tag)] ==
          if s.st[p].issued && !s.st[p].completed && p !in due then 1 else 0)
    && Sorted(s.eventQ)
  }

  /** Slot o of station c will still broadcast a result. */
  ghost predicate Feeds(s: State, drain: set<Slot>, c: nat, o: nat) {
    && InFlight(s, c) && o < 2
    && (!s.st[c].completed || Slot(c, o) in drain)
    && s.st[c].onames.Get(o) != NA
  }

  /** Operand k of p has exactly one live link, on the chain of an older slot that will still broadcast. */
  ghost predicate Waits(s: State, drain: set<Slot>, p: nat, k: nat) {
    && p < |s.st|
    && Opnd(p, k) in s.prod
    && var w := s.prod[Opnd(p, k)];
       && Feeds(s, drain, w.rs, w.odep)
       && s.st[w.rs].seqno < s.st[p].seqno
       && multiset(s.st[w.rs].odeps.Get(w.odep))[Link(p, s.st[p].tag, k)] == 1
  }

  ghost predicate UnreadyWait(s: State, drain: set<Slot>) {
    forall p: nat, k: nat :: InFlight(s, p) && 0 <= k < 3 && !s.st[p].ready.Get(k) ==> Waits(s, drain, p, k)
  }

  /** A link on the chain of slot (c, o): its operand is unready and waits for this very slot, unless stale. */
  ghost predicate ChainLinkOk(s: State, c: nat, o: nat, l: Link) {
    && KeyOk(s, Key(l.rs, l.tag))
    && (l.tag == s.st[l.rs].tag ==>
          l.x < 3 && !s.st[l.rs].ready.Get(l.x) && Opnd(l.rs, l.x) in s.prod && s.prod[Opnd(l.rs, l.x)] == Slot(c, o))
  }

  ghost predicate OnChain(s: State, c: nat, o: nat, l: Link) {
    c < |s.st| && o < 2 && l in s.st[c].odeps.Get(o)
  }

  ghost predicate ChainLinksOk(s: State) {
    forall c, o, l :: OnChain(s, c, o, l) ==> ChainLinkOk(s, c, o, l)
  }

  ghost predicate ChainsFeed(s: State, drain: set<Slot>) {
    forall c, o :: 0 <= c < |s.st| && 0 <= o < 2 && s.st[c].odeps.Get(o) != [] ==> Feeds(s, drain, c, o)
  }

  ghost predicate ChainsOk(s: State, drain: set<Slot>) {
    UnreadyWait(s, drain) && ChainLinksOk(s) && ChainsFeed(s, drain)
  }

  /** The youngest station of a program-order list that writes register n, with the output slot. */
  ghost function Writer(st: seq<Station>, order: seq<nat>, n: Reg): Creator {
    if order == [] then NoCreator
    else
      var c := order[|order| - 1];
      if c >= |st| then NoCreator
      else if st[c].onames.b == n then Creator(c, 1)
      else if st[c].onames.a == n then Creator(c, 0)
      else Writer(st, order[..|order| - 1], n)
  }

  /** A writer as the create vector shows it: only while its result is outstanding. */
  ghost function Outstanding(s: State, shown: set<Slot>, w: Creator): Creator {
    if w.Creator? && w.rs < |s.st| && (!s.st[w.rs].completed || Slot(w.rs, w.odep) in shown) then w else NoCreator
  }

  ghost predicate PreciseCreators(s: State, shown: set<Slot>) {
    && |s.cv| == TOTAL_REGS && s.nspec <= |s.rob|
    && forall n: Reg :: n != NA ==> s.cv[n] == Outstanding(s, shown, Writer(s.st, s.rob[..s.nspec], n))
  }

  ghost predicate SpecCreators(s: State, shown: set<Slot>) {
    && |s.specCv| == TOTAL_REGS && s.nspec <= |s.rob|
    && forall n: Reg :: n != NA ==>
         var w := Writer(s.st, s.rob[s.nspec..], n);
         && (n in s.useSpec <==> w.Creator?)
         && (n in s.useSpec ==> s.specCv[n] == Outstanding(s, shown, w))
  }

  /** Where in program order the branch that started speculation is. */
  ghost function BranchAt(s: State): int
    requires s.nspec <= |s.rob|
  {
    if 0 < s.nspec && s.rob[s.nspec - 1] >= s.cfg.ruuSize then s.nspec - 2 else s.nspec - 1
  }

  /** Speculation goes on exactly while the youngest correct-path instruction is an unresolved
      misprediction, and no other unresolved misprediction is in flight. */
  ghost predicate Branch(s: State)
    requires s.nspec <= |s.rob|
  {
    && (!s.specMode ==> s.nspec == |s.rob|)
    && (s.specMode ==> 0 <= BranchAt(s) && Unresolved(s, s.rob[BranchAt(s)]))
    && (forall i :: 0 <= i < |s.rob| && Unresolved(s, s.rob[i]) ==> s.specMode && i == BranchAt(s))
  }

  ghost predicate Unresolved(s: State, p: nat) {
    p < |s.st| && s.st[p].recover && !s.st[p].completed
  }

  /** The RS links threaded on all output chains. */
  ghost function ChainLinks(st: seq<Station>): nat {
    if st == [] then 0
    else ChainLinks(st[..|st| - 1]) + |st[|st| - 1].odeps.a| + |st[|st| - 1].odeps.b|
  }

  /** Every link of the initial pool is free, on exactly one list or in a stage's hands. */
  ghost predicate PoolOk(s: State, inHand: nat) {
    s.free + |s.readyQ| + inHand + |s.eventQ| + ChainLinks(s.st) == s.cfg.links
  }

  ghost predicate IsStoreTo(st: seq<Station>, q: nat, addr: nat) {
    q < |st| && st[q].kind == Store && st[q].addr == addr
  }

  /** Position of the youngest store to an address in a list of LSQ stations, or -1. */
  ghost function YoungestStore(st: seq<Station>, older: seq<nat>, addr: nat): (r: int)
    ensures -1 <= r < |older|
    ensures r >= 0 ==> IsStoreTo(st, older[r], addr)
    ensures forall j :: r < j < |older| ==> !IsStoreTo(st, older[j], addr)
  {
    if older == [] then -1
    else if IsStoreTo(st, older[|older| - 1], addr) then |older| - 1
    else YoungestStore(st, older[..|older| - 1], addr)
  }

  /** The memory dependences of a load with these older LSQ entries are met. */
  ghost predicate MemReady(st: seq<Station>, older: seq<nat>, addr: nat) {
    && (forall j :: 0 <= j < |older| && older[j] < |st| && st[older[j]].kind == Store ==> st[older[j]].ready.b)
    && (var y := YoungestStore(st, older, addr); y >= 0 ==> OperandsReady(st[older[y]]))
  }

  ghost predicate LoadsOk(s: State) {
    var lq := LsqPart(s.rob, s.cfg.ruuSize);
    forall i :: 0 <= i < |lq| && lq[i] < |s.st| && s.st[lq[i]].kind == Load && s.st[lq[i]].queued ==>
      MemReady(s.st, lq[..i], s.st[lq[i]].addr)
  }

  /** No operation whose operands are ready is forgotten: it is queued, or it has issued, or it is a load
      left to lsq_refresh. */
  ghost predicate NoneLost(s: State, open: set<nat>) {
    forall p: nat :: InFlight(s, p) && p !in open && OperandsReady(s.st[p]) && s.st[p].kind != Load ==>
      s.st[p].queued || s.st[p].issued
  }

  ghost predicate Base(s: State, w: Work) {
    && Layout(s) && Statuses(s) && ReadyOk(s, w.local) && EventsOk(s, w.due) && ChainsOk(s, w.drain)
    && PreciseCreators(s, w.shown) && PoolOk(s, |w.local| + w.held) && LoadsOk(s) && NoneLost(s, w.open)
  }

  ghost predicate Mid(s: State, w: Work) {
    Base(s, w) && SpecCreators(s, w.shown) && Branch(s)
  }

  /** The invariant of the core between stages. */
  ghost predicate Inv(s: State) {
    Mid(s, IDLE)
  }
}
