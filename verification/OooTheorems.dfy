/** The main results about every run of the out-of-order core. */
module OooTheorems {
  import opened OooState
  import opened OooLists
  import opened OooInvariant
  import opened OooLink
  import opened OooRefresh
  import opened OooCycle

  // ---- runs ----

  function Blank(): Station {
    Station(Alu, false, NA, false, false, false, false, 0, 0, 0, false, false, false,
            Two(NA, NA), Two([], []), Three(false, false, false))
  }

  function BlankStations(n: nat): seq<Station> { seq(n, _ => Blank()) }

  function NoCreators(): seq<Creator> { seq(TOTAL_REGS, _ => NoCreator) }

  function IdleUnits(n: nat): seq<nat> { seq(n, _ => 0) }

  /** The core as ruu_init, lsq_init, cv_init and rslink_init leave it. */
  function Init(cfg: Config): State {
    State(cfg, BlankStations(cfg.ruuSize + cfg.lsqSize), 0, 0, 0, 0, 0, 0, cfg.links, [], [],
          NoCreators(), NoCreators(), {}, false, 0, 0,
          IdleUnits(cfg.units), [], Link(cfg.ruuSize + cfg.lsqSize, 0, 0), [], 0, map[], [], [])
  }

  /** Any number of cycles under any environment. */
  function Run(s: State, envs: seq<Env>): Outcome<State>
    requires Wf(s)
    decreases |envs|
  {
    if envs == [] then Ok(s)
    else
      var t :- Cycle(s, envs[0]);
      Run(t, envs[1..])
  }

  lemma {:induction false} BlankChains(n: nat)
    ensures ChainLinks(BlankStations(n)) == 0
  {
    if n > 0 {
      var a := BlankStations(n);
      assert a[..|a| - 1] == BlankStations(n - 1);
      BlankChains(n - 1);
    }
  }

  lemma InitLayout(cfg: Config)
    requires CfgOk(cfg)
    ensures Layout(Init(cfg)) && Wf(Init(cfg))
  {
    hide CfgOk, KindOk, FuOk;
    CfgSizes(cfg);
    var s := Init(cfg);
    assert s.rob[..0] == [];
    assert SeqnosOf(s.st, []) == [];
  }

  lemma InitLists(cfg: Config)
    ensures var s := Init(cfg);
            && Statuses(s) && ReadyOk(s, []) && EventsOk(s, {}) && ChainsOk(s, {}) && NoneLost(s, {})
            && PreciseCreators(s, {}) && SpecCreators(s, {}) && PoolOk(s, 0) && Branch(s) && LoadsOk(s)
  {
    var s := Init(cfg);
    BlankChains(cfg.ruuSize + cfg.lsqSize);
    assert s.rob[..0] == [] && s.rob[0..] == [];
  }

  lemma InitInv(cfg: Config)
    requires CfgOk(cfg)
    ensures Inv(Init(cfg)) && Wf(Init(cfg))
  {
    hide CfgOk, Layout, Statuses, ReadyOk, EventsOk, ChainsOk, NoneLost, PreciseCreators, SpecCreators, PoolOk, Branch, LoadsOk;
    InitLayout(cfg);
    InitLists(cfg);
  }

  lemma CfgSizes(cfg: Config)
    requires CfgOk(cfg)
    ensures 0 < cfg.ruuSize && 0 < cfg.lsqSize
  {
  }

  ghost predicate EnvsOk(cfg: Config, envs: seq<Env>) {
    forall i :: 0 <= i < |envs| ==> EnvOk(cfg, envs[i])
  }

  /** No run fires any of the simulator's panics, except that the link pool may run out and, with more than
      64 LSQ entries, the array of unknown store data may overflow.  In every state reached the invariant
      holds. */
  lemma {:induction false} RunStage(s: State, envs: seq<Env>)
    requires Inv(s) && Wf(s) && EnvsOk(s.cfg, envs)
    ensures match Run(s, envs)
            case Ok(t) => Inv(t) && Wf(t) && t.cfg == s.cfg
            case Halt(why) => why == OutOfLinks || (why == StdOverflow && MAX_STD_UNKNOWNS < s.cfg.lsqSize)
    decreases |envs|
  {
    hide Inv, Cycle, EnvOk;
    if envs != [] {
      CycleStage(s, envs[0]);
      if Cycle(s, envs[0]).Ok? {
        RunStage(Cycle(s, envs[0]).value, envs[1..]);
      }
    }
  }

  lemma NoPanicIsReachable(cfg: Config, envs: seq<Env>)
    requires CfgOk(cfg) && EnvsOk(cfg, envs)
    ensures Wf(Init(cfg))
    ensures match Run(Init(cfg), envs)
            case Ok(t) => Inv(t)
            case Halt(why) => why == OutOfLinks || (why == StdOverflow && MAX_STD_UNKNOWNS < cfg.lsqSize)
  {
    hide Inv, Run, CfgOk, EnvsOk, Wf;
    InitInv(cfg);
    RunStage(Init(cfg), envs);
  }

  // ---- what the invariant says of any reached state ----

  /** Slot o of in-flight station c writes register n. */
  ghost predicate Writes(s: State, c: nat, o: nat, n: Reg) {
    InFlight(s, c) && o < 2 && s.st[c].onames.Get(o) == n
  }

  /** No in-flight slot that writes n is younger than slot o of c. */
  ghost predicate Youngest(s: State, c: nat, o: nat, n: Reg) {
    && Writes(s, c, o, n)
    && forall d: nat, e: nat :: Writes(s, d, e, n) ==> s.st[d].seqno < s.st[c].seqno || (d == c && e <= o)
  }

  lemma {:induction false} WriterIsYoungest(s: State, k: nat, n: Reg)
    requires Structure(s) && k <= |s.rob| && n != NA
    ensures var w := Writer(s.st, s.rob[..k], n);
            && (w.Creator? ==> Writes(s, w.rs, w.odep, n) && w.rs in s.rob[..k])
            && (forall d: nat, e: nat :: d in s.rob[..k] && Writes(s, d, e, n) ==>
                  w.Creator? && (s.st[d].seqno < s.st[w.rs].seqno || (d == w.rs && e <= w.odep)))
  {
    hide Structure, Writer;
    if k > 0 {
      WriterIsYoungest(s, k - 1, n);
      var part, c := s.rob[..k], s.rob[k - 1];
      assert part[..|part| - 1] == s.rob[..k - 1] && part[|part| - 1] == c;
      assert part == s.rob[..k - 1] + [c];
      YoungerThan(s, k - 1);
      WriterStep(s.st, part, n);
      YoungestStep(s, s.rob[..k - 1], c, n, Writer(s.st, s.rob[..k - 1], n), Writer(s.st, part, n));
    } else {
      assert s.rob[..0] == [];
      NoWriterYet(s.st, n);
    }
  }

  /** Everything before a station is older. */
  lemma YoungerThan(s: State, k: nat)
    requires Structure(s) && k < |s.rob|
    ensures InFlight(s, s.rob[k])
    ensures forall d :: d in s.rob[..k] ==> d < |s.st| && s.st[d].seqno < s.st[s.rob[k]].seqno
  {
    hide RuuPart, LsqPart, Ring, Wf;
    forall d | d in s.rob[..k] ensures d < |s.st| && s.st[d].seqno < s.st[s.rob[k]].seqno {
      var i :| 0 <= i < k && s.rob[i] == d;
    }
  }

  /** The writer of a list, by its youngest station. */
  lemma WriterStep(st: seq<Station>, order: seq<nat>, n: Reg)
    requires order != [] && order[|order| - 1] < |st|
    ensures var c := order[|order| - 1];
            Writer(st, order, n) ==
            if st[c].onames.b == n then Creator(c, 1) else if st[c].onames.a == n then Creator(c, 0)
            else Writer(st, order[..|order| - 1], n)
  {
  }

  lemma NoWriterYet(st: seq<Station>, n: Reg)
    ensures Writer(st, [], n) == NoCreator
  {
  }

  /** One younger station. */
  lemma YoungestStep(s: State, part: seq<nat>, c: nat, n: Reg, was: Creator, now: Creator)
    requires n != NA && InFlight(s, c) && forall d :: d in part ==> d < |s.st| && s.st[d].seqno < s.st[c].seqno
    requires was.Creator? ==> Writes(s, was.rs, was.odep, n) && was.rs in part
    requires forall d: nat, e: nat :: d in part && Writes(s, d, e, n) ==>
               was.Creator? && (s.st[d].seqno < s.st[was.rs].seqno || (d == was.rs && e <= was.odep))
    requires now == if s.st[c].onames.b == n then Creator(c, 1) else if s.st[c].onames.a == n then Creator(c, 0) else was
    ensures now.Creator? ==> Writes(s, now.rs, now.odep, n) && now.rs in part + [c]
    ensures forall d: nat, e: nat :: d in part + [c] && Writes(s, d, e, n) ==>
              now.Creator? && (s.st[d].seqno < s.st[now.rs].seqno || (d == now.rs && e <= now.odep))
  {
  }

  /** Register renaming is precise, on the correct path and on a wrong path alike: the create vector names
      slot (c, o) exactly when that slot is the youngest in-flight writer of the register and its result is
      still outstanding. */
  lemma RenamingIsPrecise(s: State, n: Reg, c: nat, o: nat)
    requires Inv(s) && Wf(s) && n != NA
    ensures CreateVector(s, n) == Creator(c, o) <==> Youngest(s, c, o, n) && !s.st[c].completed
  {
    hide Statuses, ReadyOk, EventsOk, ChainsOk, LoadsOk, NoneLost, Branch, PoolOk, PreciseCreators, SpecCreators;
    hide Paired, Kinds, Split, History, Structure, Writer, Wf, CreateVector;
    StructureRange(s);
    CreateVectorIsYoungest(s, n);
    WriterIsYoungest(s, |s.rob|, n);
    assert s.rob[..|s.rob|] == s.rob;
    var w := Writer(s.st, s.rob, n);
    if Youngest(s, c, o, n) {
      assert c in s.rob[..|s.rob|] && Writes(s, c, o, n);
      assert w.Creator? && Writes(s, w.rs, w.odep, n);
      assert w == Creator(c, o);
    }
    if w == Creator(c, o) {
      forall d: nat, e: nat | Writes(s, d, e, n) ensures s.st[d].seqno < s.st[c].seqno || (d == c && e <= o) {
        assert d in s.rob[..|s.rob|];
      }
    }
  }

  lemma StructureRange(s: State)
    requires Structure(s)
    ensures forall i :: 0 <= i < |s.rob| ==> s.rob[i] < |s.st|
  {
  }

  /** Commit is in order and precise: what has retired is a prefix of what was dispatched on the correct
      path, and what is missing is exactly what is in flight, in order. */
  lemma CommitIsInOrder(s: State)
    requires Inv(s)
    ensures s.retired <= s.log
    ensures s.nspec <= |s.rob| && |s.retired| + |RuuPart(s.rob[..s.nspec], s.cfg.ruuSize)| == |s.log|
    ensures forall i :: 0 <= i < |RuuPart(s.rob[..s.nspec], s.cfg.ruuSize)| ==>
              var p := RuuPart(s.rob[..s.nspec], s.cfg.ruuSize)[i];
              p < |s.st| && s.st[p].seqno == s.log[|s.retired| + i] && !s.st[p].spec
  {
    hide Statuses, ReadyOk, EventsOk, ChainsOk, PreciseCreators, LoadsOk, NoneLost, SpecCreators, Branch, PoolOk;
    hide Paired, Kinds, RuuPart, LsqPart, Ring, CfgOk;
    CorrectPathInRange(s);
    var ids := RuuPart(s.rob[..s.nspec], s.cfg.ruuSize);
    PartMembers(s.rob[..s.nspec], s.cfg.ruuSize);
    forall i | 0 <= i < |ids| ensures ids[i] < |s.st| && s.st[ids[i]].seqno == s.log[|s.retired| + i] && !s.st[ids[i]].spec {
      assert ids[i] in ids;
      assert (s.retired + SeqnosOf(s.st, ids))[|s.retired| + i] == SeqnosOf(s.st, ids)[i];
    }
  }

  /** The RUU's address computations. */
  ghost function EaComps(st: seq<Station>, rob: seq<nat>): seq<nat> {
    if rob == [] then []
    else
      var p := rob[|rob| - 1];
      EaComps(st, rob[..|rob| - 1]) + if p < |st| && st[p].eaComp then [p] else []
  }

  /** y directly follows x in program order. */
  ghost predicate Follows(rob: seq<nat>, x: nat, y: nat) {
    exists i :: 0 <= i < |rob| - 1 && rob[i] == x && rob[i + 1] == y
  }

  /** Two lists pair up, entry by entry, as neighbours in program order. */
  ghost predicate PairUp(rob: seq<nat>, a: seq<nat>, b: seq<nat>) {
    |a| == |b| && forall j :: 0 <= j < |a| ==> Follows(rob, a[j], b[j])
  }

  lemma {:induction false} PairsUpTo(s: State, k: nat)
    requires Structure(s) && Paired(s) && k <= |s.rob|
    requires k < |s.rob| ==> s.rob[k] < s.cfg.ruuSize
    ensures PairUp(s.rob, EaComps(s.st, s.rob[..k]), LsqPart(s.rob[..k], s.cfg.ruuSize))
    decreases k
  {
    hide RuuPart, Ring, CfgOk, Follows, EaComps, LsqPart;
    if k > 0 {
      var n := if s.rob[k - 1] < s.cfg.ruuSize then 1 else 2;
      PairsUpTo(s, k - n);
      if n == 1 { EndsAlone(s, k); } else { EndsInPair(s, k); }
    } else {
      NothingYet(s);
    }
  }

  lemma NothingYet(s: State)
    ensures EaComps(s.st, s.rob[..0]) == [] && LsqPart(s.rob[..0], s.cfg.ruuSize) == []
  {
    assert s.rob[..0] == [];
  }

  lemma EndsAlone(s: State, k: nat)
    requires Structure(s) && Paired(s) && 0 < k <= |s.rob| && s.rob[k - 1] < s.cfg.ruuSize
    requires k < |s.rob| ==> s.rob[k] < s.cfg.ruuSize
    ensures EaComps(s.st, s.rob[..k]) == EaComps(s.st, s.rob[..k - 1])
    ensures LsqPart(s.rob[..k], s.cfg.ruuSize) == LsqPart(s.rob[..k - 1], s.cfg.ruuSize)
  {
    hide RuuPart, Ring, Wf;
    assert s.rob[..k][..k - 1] == s.rob[..k - 1];
  }

  lemma EndsInPair(s: State, k: nat)
    requires Structure(s) && Paired(s) && 0 < k <= |s.rob| && s.rob[k - 1] >= s.cfg.ruuSize
    ensures 2 <= k && s.rob[k - 2] < s.cfg.ruuSize && Follows(s.rob, s.rob[k - 2], s.rob[k - 1])
    ensures EaComps(s.st, s.rob[..k]) == EaComps(s.st, s.rob[..k - 2]) + [s.rob[k - 2]]
    ensures LsqPart(s.rob[..k], s.cfg.ruuSize) == LsqPart(s.rob[..k - 2], s.cfg.ruuSize) + [s.rob[k - 1]]
  {
    hide RuuPart, Ring, Wf;
    assert s.rob[..k][..k - 1] == s.rob[..k - 1];
    assert s.rob[..k - 1][..k - 2] == s.rob[..k - 2];
  }

  /** The k-th address computation in the RUU belongs to the k-th LSQ entry. */
  lemma RuuAndLsqStayPaired(s: State)
    requires Inv(s)
    ensures |LsqPart(s.rob, s.cfg.ruuSize)| == s.lsqNum
    ensures PairUp(s.rob, EaComps(s.st, s.rob), LsqPart(s.rob, s.cfg.ruuSize))
  {
    hide Statuses, ReadyOk, EventsOk, ChainsOk, PreciseCreators, LoadsOk, NoneLost, SpecCreators, Branch, PoolOk;
    hide Kinds, Split, History, EaComps, LsqPart, RuuPart, CfgOk, PairUp;
    PairsUpTo(s, |s.rob|);
    assert s.rob[..|s.rob|] == s.rob;
  }

  lemma OldestSeqno(s: State, c: nat)
    requires Structure(s) && InFlight(s, c)
    ensures s.rob[0] < |s.st| && s.st[s.rob[0]].seqno <= s.st[c].seqno
  {
    hide RuuPart, LsqPart, Ring, Wf;
    var i :| 0 <= i < |s.rob| && s.rob[i] == c;
    assert i == 0 || s.st[s.rob[0]].seqno < s.st[s.rob[i]].seqno;
  }

  /** The core cannot deadlock on register dependences: the oldest instruction always has all its operands,
      and is waiting for a unit, executing, or done. */
  lemma OldestIsReady(s: State)
    requires Inv(s) && s.rob != []
    ensures s.rob[0] < |s.st| && OperandsReady(s.st[s.rob[0]])
    ensures s.st[s.rob[0]].queued || s.st[s.rob[0]].issued
  {
    hide Statuses, ReadyOk, EventsOk, ChainLinksOk, ChainsFeed, PreciseCreators, LoadsOk, SpecCreators, Branch, PoolOk;
    hide Split, History, RuuPart, LsqPart, Ring, CfgOk;
    var p := s.rob[0];
    assert InFlight(s, p);
    forall k: nat | k < 3 ensures s.st[p].ready.Get(k) {
      if !s.st[p].ready.Get(k) {
        assert Waits(s, {}, p, k);
        OldestSeqno(s, s.prod[Opnd(p, k)].rs);
        assert false;
      }
    }
    assert s.st[p].ready.Get(0) && s.st[p].ready.Get(1) && s.st[p].ready.Get(2);
    assert KindOk(s.cfg, p, s.st[p]);
  }

  /** Links are conserved: the four kinds of list always account for the whole pool. */
  lemma LinksAreConserved(cfg: Config, envs: seq<Env>)
    requires CfgOk(cfg) && EnvsOk(cfg, envs)
    ensures Wf(Init(cfg))
    ensures Run(Init(cfg), envs).Ok? ==>
              var s := Run(Init(cfg), envs).value; s.free + |s.readyQ| + |s.eventQ| + ChainLinks(s.st) == cfg.links
  {
    hide Inv, Run, CfgOk, EnvsOk, Wf;
    InitInv(cfg);
    RunStage(Init(cfg), envs);
    if Run(Init(cfg), envs).Ok? { PoolTotal(Run(Init(cfg), envs).value); }
  }

  lemma PoolTotal(s: State)
    requires Inv(s)
    ensures s.free + |s.readyQ| + |s.eventQ| + ChainLinks(s.st) == s.cfg.links
  {
    hide Layout, Statuses, ReadyOk, EventsOk, ChainsOk, PreciseCreators, LoadsOk, NoneLost, SpecCreators, Branch;
  }

  // ---- memory scheduling ----

  /** After lsq_refresh every waiting load is queued exactly when its memory dependences are met, except
      that a load from address 0 is also held back while any hidden store entry is remembered. */
  lemma RefreshIsExact(s: State, j: nat)
    requires Inv(s) && Wf(s) && Refresh(s, 0, []).Ok? && j < |Lsq(s)|
    requires Lsq(s)[j] < |s.st| && Waiting(s.st[Lsq(s)[j]])
    ensures var q := Lsq(s)[j]; var t := Refresh(s, 0, []).value; var older := Lsq(s)[..j];
            q < |t.st| && (t.st[q].queued <==>
              && MemReady(s.st, older, s.st[q].addr)
              && (s.st[q].addr == 0 ==> !ZeroMarked(s.st, older)))
  {
    hide Inv, Refresh, Waiting, LsqPart, Wf, OperandsReady, HeldBack, MemReady;
    ScanStart(s);
    RefreshStage(s, 0, []);
    MemReadyIs(s.st, Lsq(s)[..j], s.st[Lsq(s)[j]].addr);
  }

  lemma MemReadyIs(st: seq<Station>, older: seq<nat>, addr: nat)
    ensures AddressesKnown(st, older) && !HeldBack(st, older, addr) <==>
            MemReady(st, older, addr) && (addr == 0 ==> !ZeroMarked(st, older))
  {
    BlockedIsHeldBack(st, older, addr);
  }

  /** The oldest load in the LSQ is never held back. */
  lemma OldestLoadGoes(s: State)
    requires Inv(s) && Wf(s) && Refresh(s, 0, []).Ok? && 0 < |Lsq(s)|
    requires Lsq(s)[0] < |s.st| && Waiting(s.st[Lsq(s)[0]])
    ensures var t := Refresh(s, 0, []).value; Lsq(s)[0] < |t.st| && t.st[Lsq(s)[0]].queued
  {
    hide Inv, Refresh, Waiting, LsqPart, Wf, OperandsReady;
    RefreshIsExact(s, 0);
    assert Lsq(s)[..0] == [];
  }
}
