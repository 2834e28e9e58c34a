/** The out-of-order core as sim-outorder.c keeps it: arrays, ring pointers and lists updated in place.
    Every method is the routine of that name and computes exactly the state function of OooState. */
module OooCore {
  import opened Arith
  import opened OooState
  import opened OooLists
  import opened OooInvariant
  import opened OooCycle
  import opened OooTheorems

  /** How a routine ends: normally, or in a call to panic or fatal. */
  datatype Status = Fine | Panicked(why: Panic) {
    predicate IsFailure() { Panicked? }
    function PropagateFailure(): Status requires Panicked? { this }
  }

  /** The routine ended as the state function says. */
  ghost predicate Matches(r: Outcome<State>, status: Status, now: State) {
    match status
    case Fine => r == Ok(now)
    case Panicked(why) => r == Halt(why)
  }

  class Core {
    const cfg: Config
    const stations: array<Station>
    var ruuHead: nat
    var ruuTail: nat
    var ruuNum: nat
    var lsqHead: nat
    var lsqTail: nat
    var lsqNum: nat
    var free: nat
    var readyQ: seq<Link>
    var eventQ: seq<Link>
    var cv: seq<Creator>
    var specCv: seq<Creator>
    var useSpec: set<nat>
    var specMode: bool
    var cycle: nat
    var instSeq: nat
    var busy: seq<nat>
    var ifq: seq<Inst>
    var lastOp: Link
    ghost var rob: seq<nat>
    ghost var nspec: nat
    ghost var prod: map<Opnd, Slot>
    ghost var log: seq<nat>
    ghost var retired: seq<nat>

    ghost function Snap(): State
      reads this, stations
    {
      State(cfg, stations[..], ruuHead, ruuTail, ruuNum, lsqHead, lsqTail, lsqNum, free, readyQ, eventQ,
            cv, specCv, useSpec, specMode, cycle, instSeq, busy, ifq, lastOp,
            rob, nspec, prod, log, retired)
    }

    ghost predicate Sound()
      reads this, stations
    {
      Wf(Snap())
    }

    /** The insertion loop shared by readyq_enqueue and eventq_queue_event. */
    static method InsertLink(q: seq<Link>, n: Link) returns (r: seq<Link>)
      ensures r == Insert(q, n)
    {
      hide Insert;
      var i := 0;
      assert q[0..] == q && q[..0] + Insert(q, n) == Insert(q, n);
      while i < |q| && q[i].x < n.x
        invariant i <= |q| && q[..i] + Insert(q[i..], n) == Insert(q, n)
      {
        InsertSkips(q, i, n);
        i := i + 1;
      }
      InsertStops(q, i, n);
      r := q[..i] + [n] + q[i..];
    }

    /** Overwrite one station record. */
    method SetStation(p: nat, x: Station)
      requires p < stations.Length
      modifies stations
      ensures Snap() == Put(old(Snap()), p, x)
    {
      stations[p] := x;
      assert stations[..] == old(stations[..])[p := x];
    }

    /** readyq_enqueue */
    method ReadyqEnqueue(p: nat) returns (status: Status)
      requires p < stations.Length
      modifies this, stations
      ensures Matches(Enqueue(old(Snap()), p), status, Snap())
    {
      hide Insert, Wf;
      var x := stations[p];
      if x.queued { return Panicked(AlreadyQueued); }
      if free == 0 { return Panicked(OutOfLinks); }
      SetStation(p, x.(queued := true));
      free := free - 1;
      var n := Link(p, x.tag, x.seqno);
      if x.inLsq || x.urgent {
        readyQ := [n] + readyQ;
      } else {
        readyQ := InsertLink(readyQ, n);
      }
      return Fine;
    }

    /** eventq_queue_event */
    method EventqQueueEvent(p: nat, when: nat) returns (status: Status)
      requires p < stations.Length
      modifies this
      ensures Matches(QueueEvent(old(Snap()), p, when), status, Snap())
    {
      hide Insert, Wf;
      if stations[p].completed { return Panicked(EventCompleted); }
      if when <= cycle { return Panicked(EventInPast); }
      if free == 0 { return Panicked(OutOfLinks); }
      free := free - 1;
      eventQ := InsertLink(eventQ, Link(p, stations[p].tag, when));
      return Fine;
    }

    /** eventq_next_event */
    method EventqNextEvent() returns (found: bool, p: nat)
      modifies this
      ensures NextEvent(old(Snap())) == NextResult(Snap(), found, p)
      decreases |eventQ|
    {
      hide Wf;
      if eventQ != [] && eventQ[0].x <= cycle {
        var ev := eventQ[0];
        eventQ, free := eventQ[1..], free + 1;
        if ev.rs < stations.Length && ev.tag == stations[ev.rs].tag {
          return true, ev.rs;
        }
        found, p := EventqNextEvent();
      } else {
        return false, 0;
      }
    }

    /** Give a squashed station's chains back to the pool and stamp its slot. */
    method SquashStation(p: nat)
      requires p < stations.Length
      modifies this`free, stations
      ensures Snap() == FreeChains(old(Snap()), p)
    {
      hide Wf;
      var x := stations[p];
      free := free + |x.odeps.a| + |x.odeps.b|;
      SetStation(p, x.(odeps := Two([], []), tag := x.tag + 1));
    }

    /** The LSQ half of an iteration of ruu_recover. */
    method SquashLsqEntry() returns (status: Status)
      requires Sound()
      modifies this, stations
      ensures Matches(SquashMem(old(Snap())), status, Snap())
    {
      hide FreeChains, CfgOk;
      if lsqNum == 0 { return Panicked(RuuLsqOutOfSync); }
      var index := Prev(lsqTail, cfg.lsqSize);
      SquashStation(cfg.ruuSize + index);
      lsqTail, lsqNum := index, lsqNum - 1;
      return Fine;
    }

    method SquashRuuEntry(ghost n: nat)
      requires Sound() && 0 < ruuNum
      modifies this, stations
      ensures Snap() == SquashRuu(old(Snap()), n)
    {
      hide FreeChains, CfgOk;
      var index := Prev(ruuTail, cfg.ruuSize);
      SquashStation(index);
      ruuTail, ruuNum := index, ruuNum - 1;
      rob := if |rob| >= n then rob[..|rob| - n] else [];
    }

    /** One iteration of ruu_recover; the tail pointers follow the indices. */
    method SquashIndex() returns (status: Status)
      requires Sound()
      modifies this, stations
      ensures Matches(SquashYoungest(old(Snap())), status, Snap())
    {
      hide SquashMem, SquashRuu, Prev;
      assert 0 < cfg.ruuSize by { Sizes(Snap()); }
      var index := Prev(ruuTail, cfg.ruuSize);
      if ruuNum == 0 { return Panicked(EmptyRuu); }
      if index == ruuHead { return Panicked(RuuHeadTailBroken); }
      if stations[index].eaComp {
        :- SquashLsqEntry();
        SquashRuuEntry(2);
      } else {
        SquashRuuEntry(1);
      }
      return Fine;
    }

    /** ruu_recover */
    method RuuRecover(branch: nat) returns (status: Status)
      requires Sound()
      modifies this, stations
      ensures Matches(SquashAfter(old(Snap()), branch), status, Snap())
    {
      hide SquashYoungest, Wf, Prev;
      assert 0 < cfg.ruuSize by { Sizes(Snap()); }
      while Prev(ruuTail, cfg.ruuSize) != branch
        invariant Sound() && SquashAfter(Snap(), branch) == SquashAfter(old(Snap()), branch)
        decreases ruuNum
      {
        :- SquashIndex();
      }
      return Fine;
    }

    /** tracer_recover, as far as the core is concerned, with the create-vector reset of ruu_recover. */
    method TracerRecover() returns (status: Status)
      modifies this
      ensures status == if old(specMode) then Fine else Panicked(NotSpeculative)
      ensures old(specMode) ==> Snap() == old(Snap()).(useSpec := {}, specMode := false, ifq := [])
    {
      if !specMode { return Panicked(NotSpeculative); }
      useSpec, specMode, ifq := {}, false, [];
      return Fine;
    }

    /** One consumer on the chain of a completing station. */
    method WakeConsumer(l: Link) returns (status: Status)
      requires Sound()
      modifies this, stations
      ensures Matches(WakeOne(old(Snap()), l), status, Snap())
    {
      hide Enqueue, Wf, OperandsReady;
      if l.rs < stations.Length && l.tag == stations[l.rs].tag {
        var t := stations[l.rs];
        if t.ready.Get(l.x) { return Panicked(DependenceSatisfied); }
        SetStation(l.rs, t.(ready := t.ready.Set(l.x, true)));
        if OperandsReady(stations[l.rs]) && (!t.inLsq || t.kind == Store) {
          status := ReadyqEnqueue(l.rs);
          return;
        }
      }
      return Fine;
    }

    /** One iteration of the loop of ruu_writeback over an output chain: pop a link, wake its station, free it. */
    method WakeNextConsumer(p: nat, i: nat) returns (status: Status)
      requires Sound() && p < stations.Length && stations[p].odeps.Get(i) != []
      modifies this, stations
      ensures Matches(WakeNext(old(Snap()), p, i), status, Snap())
    {
      hide WakeOne, Wf;
      ghost var s := Snap();
      var x := stations[p];
      var olink := x.odeps.Get(i)[0];
      SetStation(p, x.(odeps := x.odeps.Set(i, x.odeps.Get(i)[1..])));
      SameBounds(s, Snap());
      :- WakeConsumer(olink);
      free := free + 1;
      return Fine;
    }

    /** The loop of ruu_writeback over one output chain. */
    method WakeChain(p: nat, i: nat) returns (status: Status)
      requires Sound() && p < stations.Length
      modifies this, stations
      ensures Matches(Wake(old(Snap()), p, i), status, Snap())
    {
      hide WakeNext, Wf;
      while stations[p].odeps.Get(i) != []
        invariant Sound() && Wake(Snap(), p, i) == Wake(old(Snap()), p, i)
        decreases |stations[p].odeps.Get(i)|
      {
        :- WakeNextConsumer(p, i);
      }
      return Fine;
    }

    /** Output slot i: the create vector stops naming it, then its consumers wake. */
    method BroadcastSlot(p: nat, i: nat) returns (status: Status)
      requires Sound() && p < stations.Length
      modifies this, stations
      ensures Matches(Broadcast(old(Snap()), p, i), status, Snap())
    {
      hide Wake, CfgOk;
      var rs := stations[p];
      var name := rs.onames.Get(i);
      if name == NA { return Fine; }
      if rs.spec {
        if specCv[name] == Creator(p, i) { specCv := specCv[name := NoCreator]; }
      } else {
        if cv[name] == Creator(p, i) { cv := cv[name := NoCreator]; }
      }
      status := WakeChain(p, i);
    }

    /** The body of the loop of ruu_writeback. */
    method CompleteStation(p: nat) returns (status: Status)
      requires Sound() && p < stations.Length
      modifies this, stations
      ensures Matches(Complete(old(Snap()), p), status, Snap())
    {
      hide Wf, OperandsReady, Broadcast, SquashAfter;
      var rs := stations[p];
      if !OperandsReady(rs) || rs.queued || !rs.issued || rs.completed { return Panicked(BadCompletion); }
      if rs.recover && rs.inLsq { return Panicked(MispredictedMem); }
      ghost var s := Snap();
      SetStation(p, rs.(completed := true));
      SameBounds(s, Snap());
      if rs.recover {
        :- RecoverCore(p);
      }
      :- BroadcastSlot(p, 0);
      status := BroadcastSlot(p, 1);
    }

    method RecoverCore(branch: nat) returns (status: Status)
      requires Sound()
      modifies this, stations
      ensures Matches(Recover(old(Snap()), branch), status, Snap())
      ensures Recover(old(Snap()), branch).Ok? ==> Sound()
    {
      hide Wf, SquashAfter;
      :- RuuRecover(branch);
      status := TracerRecover();
    }

    /** ruu_writeback */
    method RuuWriteback() returns (status: Status)
      requires Sound()
      modifies this, stations
      ensures Matches(Writeback(old(Snap())), status, Snap())
    {
      hide Wf, Complete, NextEvent;
      var found: bool, p: nat;
      found, p := EventqNextEvent();
      EventBounds(old(Snap()));
      while found
        invariant found ==> p < stations.Length
        invariant Sound()
        invariant Writeback(old(Snap())) ==
                  if found then match Complete(Snap(), p) case Halt(why) => Halt(why) case Ok(t) => Writeback(t)
                  else Ok(Snap())
        decreases found, |eventQ|
      {
        ghost var s := Snap();
        status := CompleteStation(p);
        if status.Panicked? { return; }
        ghost var s1 := Snap();
        found, p := EventqNextEvent();
        EventBounds(s1);
      }
      return Fine;
    }

    /** res_get */
    method ResGetUnit(fu: nat) returns (status: Status, unit: Fu)
      requires Sound()
      ensures match ResGet(Snap(), fu)
              case Ok(f) => status == Fine && unit == f
              case Halt(why) => status == Panicked(why)
    {
      if fu >= |cfg.table| || cfg.table[fu] == [] { return Panicked(BadFuClass), NoFu; }
      var ts := cfg.table[fu];
      var i := 0;
      while i < |ts| && busy[ts[i].master] != 0
        invariant i <= |ts|
        invariant forall j :: 0 <= j < i ==> busy[ts[j].master] != 0
      {
        i := i + 1;
      }
      FirstIdleIs(ts, busy, i);
      if i < |ts| { return Fine, Granted(ts[i]); }
      return Fine, NoFu;
    }

    /** Schedule the release of a unit. */
    method ReserveUnit(t: Template) returns (status: Status)
      requires t.master < |busy|
      modifies this`busy
      ensures Matches(Reserve(old(Snap()), t), status, Snap())
    {
      hide Wf;
      if busy[t.master] != 0 { return Panicked(FuInUse); }
      busy := busy[t.master := t.issuelat];
      return Fine;
    }

    /** Retire the LSQ head. */
    method PopLsqHead()
      requires Sound()
      modifies this, stations
      ensures Snap() == DropLsqHead(old(Snap()))
    {
      hide Next, CfgOk;
      var q := cfg.ruuSize + lsqHead;
      SetStation(q, stations[q].(tag := stations[q].tag + 1));
      lsqHead, lsqNum := Next(lsqHead, cfg.lsqSize), if lsqNum == 0 then 0 else lsqNum - 1;
    }

    /** The LSQ part of the loop of ruu_commit; done is false if commit must stop here. */
    method RetireLsqHead() returns (status: Status, done: bool)
      requires Sound()
      modifies this, stations
      ensures match RetireMem(old(Snap()))
              case Ok(r) => status == Fine && done == r.done && Snap() == r.s
              case Halt(why) => status == Panicked(why)
    {
      hide CfgOk, ResGet, Reserve, DropLsqHead;
      var q := cfg.ruuSize + lsqHead;
      if lsqNum == 0 || !stations[q].inLsq { return Panicked(RuuLsqOutOfSync), false; }
      if !stations[q].completed { return Fine, false; }
      if stations[q].kind == Store {
        var fu;
        status, fu := ResGetUnit(stations[q].fu);
        if status.Panicked? { return status, false; }
        if fu.NoFu? { return Fine, false; }
        status := ReserveUnit(fu.t);
        if status.Panicked? { return status, false; }
      }
      PopLsqHead();
      return Fine, true;
    }

    /** Retire the RUU head. */
    method PopRuuHead()
      requires Sound() && 0 < ruuNum
      modifies this, stations
      ensures Snap() == DropRuuHead(old(Snap()))
    {
      hide Next, CfgOk;
      var p := ruuHead;
      SetStation(p, stations[p].(tag := stations[p].tag + 1));
      ruuHead, ruuNum := Next(p, cfg.ruuSize), ruuNum - 1;
    }

    ghost method RecordRetired(n: nat, seqno: nat)
      modifies this`rob, this`nspec, this`retired
      ensures Snap() == NoteRetired(old(Snap()), n, seqno)
    {
      hide Wf;
      rob, nspec, retired := if |rob| >= n then rob[n..] else [], if nspec >= n then nspec - n else 0, retired + [seqno];
    }

    /** The RUU part of the loop of ruu_commit. */
    method RetireRuuHead() returns (status: Status)
      requires Sound() && 0 < ruuNum
      modifies this, stations
      ensures Matches(RetireRuu(old(Snap())), status, Snap())
    {
      hide CfgOk, DropRuuHead, NoteRetired;
      var rs := stations[ruuHead];
      PopRuuHead();
      if rs.odeps.a != [] || rs.odeps.b != [] { return Panicked(RetiredHasOdeps); }
      RecordRetired(if rs.eaComp then 2 else 1, rs.seqno);
      return Fine;
    }

    /** ruu_commit */
    method RuuCommit() returns (status: Status)
      requires Sound()
      modifies this, stations
      ensures Matches(Commit(old(Snap()), cfg.commitWidth), status, Snap())
    {
      hide Wf, RetireMem, RetireRuu;
      var committed := 0;
      while ruuNum > 0 && committed < cfg.commitWidth
        invariant Sound() && committed <= cfg.commitWidth
        invariant Commit(Snap(), cfg.commitWidth - committed) == Commit(old(Snap()), cfg.commitWidth)
        decreases ruuNum
      {
        HeadBound(Snap());
        var rs := stations[ruuHead];
        if !rs.completed { break; }
        if rs.eaComp {
          var done;
          status, done := RetireLsqHead();
          if status.Panicked? { return; }
          if !done { break; }
        }
        status := RetireRuuHead();
        if status.Panicked? { return; }
        committed := committed + 1;
      }
      return Fine;
    }

    /** ruu_release_fu */
    method RuuReleaseFu()
      modifies this`busy
      ensures Snap() == ReleaseFu(old(Snap()))
    {
      hide Wf;
      var i := 0;
      while i < |busy|
        invariant i <= |busy| == |old(busy)|
        invariant Snap() == old(Snap()).(busy := busy)
        invariant forall j :: 0 <= j < |busy| ==>
                    busy[j] == if j < i && old(busy)[j] > 0 then old(busy)[j] - 1 else old(busy)[j]
      {
        if busy[i] > 0 { busy := busy[i := busy[i] - 1]; }
        i := i + 1;
      }
      assert busy == ReleaseFu(old(Snap())).busy;
    }

    /** The loop of lsq_refresh that overwrites hidden addresses with the bogus address 0. */
    static method HideAddress(std: seq<nat>, addr: nat) returns (r: seq<nat>)
      ensures r == Hide(std, addr)
    {
      r := std;
      for j := 0 to |std|
        invariant |r| == |std|
        invariant forall k :: 0 <= k < |std| ==> r[k] == if k < j && std[k] == addr then 0 else std[k]
      {
        if r[j] == addr { r := r[j := 0]; }
      }
    }

    /** The loop of lsq_refresh that looks for a relevant entry. */
    static method Relevant(std: seq<nat>, addr: nat) returns (found: bool)
      ensures found <==> addr in std
    {
      for j := 0 to |std|
        invariant addr !in std[..j]
      {
        if std[j] == addr { return true; }
      }
      return false;
    }

    /** The body of the scan of lsq_refresh, past the test for an unknown store address. */
    method ScanEntry(q: nat, std: seq<nat>) returns (status: Status, std1: seq<nat>)
      requires Sound() && q < stations.Length
      modifies this, stations
      ensures match ScanOne(old(Snap()), q, std)
              case Ok(r) => status == Fine && Snap() == r.s && std1 == r.std
              case Halt(why) => status == Panicked(why)
    {
      hide Enqueue, Wf, OperandsReady, Hide;
      var x := stations[q];
      std1 := std;
      if x.kind == Store {
        if OperandsReady(x) {
          std1 := HideAddress(std, x.addr);
        } else if |std| == MAX_STD_UNKNOWNS {
          return Panicked(StdOverflow), std;
        } else {
          std1 := std + [x.addr];
        }
      }
      if Waiting(x) {
        var held := Relevant(std1, x.addr);
        if !held {
          status := ReadyqEnqueue(q);
          return status, std1;
        }
      }
      return Fine, std1;
    }

    /** lsq_refresh */
    method LsqRefresh() returns (status: Status)
      requires Sound()
      modifies this, stations
      ensures Matches(Refresh(old(Snap()), 0, []), status, Snap())
    {
      hide ScanOne, Wf, Nth, Next;
      assert lsqHead < cfg.lsqSize by { Sizes(Snap()); }
      var i, index, std := 0, lsqHead, [];
      RingStart(lsqHead, cfg.lsqSize);
      while i < lsqNum
        invariant Sound() && 0 < cfg.lsqSize && index == Nth(lsqHead, i, cfg.lsqSize)
        invariant Refresh(Snap(), i, std) == Refresh(old(Snap()), 0, [])
        decreases lsqNum - i
      {
        var q := cfg.ruuSize + index;
        assert q == LsqAt(Snap(), i);
        if stations[q].kind == Store && !stations[q].ready.b { break; }
        status, std := ScanEntry(q, std);
        if status.Panicked? { return; }
        RingStep(lsqHead, i, cfg.lsqSize);
        i, index := i + 1, Next(index, cfg.lsqSize);
      }
      return Fine;
    }

    /** The backward scan of the LSQ in ruu_issue: is there an older store to the address of load p? */
    method ScanLsq(p: nat) returns (hit: bool)
      requires Sound() && cfg.ruuSize <= p < stations.Length
      ensures hit <==> ScanBack(Snap(), LsqPos(Snap(), p), stations[p].addr) >= 0
    {
      hide Wf, Nth, Prev, LsqPos;
      assert lsqHead < cfg.lsqSize by { Sizes(Snap()); }
      var i := p - cfg.ruuSize;
      assert i < cfg.lsqSize by { LsqIndexBound(Snap(), p); }
      ghost var k: nat := LsqPos(Snap(), p);
      PosIndex(Snap(), p);
      while i != lsqHead
        invariant 0 < cfg.lsqSize && i == Nth(lsqHead, k, cfg.lsqSize) && k < cfg.lsqSize
        invariant ScanBack(Snap(), LsqPos(Snap(), p), stations[p].addr) >= 0
                  <==> ScanBack(Snap(), k, stations[p].addr) >= 0
        decreases k
      {
        RingZero(lsqHead, k, cfg.lsqSize);
        RingBack(lsqHead, k, cfg.lsqSize);
        i := Prev(i, cfg.lsqSize);
        k := k - 1;
        assert cfg.ruuSize + i == LsqAt(Snap(), k);
        assert cfg.ruuSize + i < stations.Length by { LsqIndexBound(Snap(), LsqAt(Snap(), k)); }
        if stations[cfg.ruuSize + i].kind == Store && stations[cfg.ruuSize + i].addr == stations[p].addr { return true; }
      }
      RingZero(lsqHead, k, cfg.lsqSize);
      return false;
    }

    /** The latency of a load: forwarded from an older store, or from the data cache, in parallel with the TLB. */
    method LoadLat(p: nat, env: Env) returns (lat: nat)
      requires Sound() && cfg.ruuSize <= p < stations.Length
      ensures lat == LoadLatency(Snap(), p, env)
    {
      hide Wf, ScanBack, LsqPos;
      var hit := ScanLsq(p);
      lat := if hit then 1 else env.cacheLat(stations[p].seqno);
      if env.tlbLat(stations[p].seqno) > lat { lat := env.tlbLat(stations[p].seqno); }
    }

    /** Stores complete at once. */
    method CompleteStore(p: nat) returns (status: Status)
      requires Sound() && p < stations.Length
      modifies this, stations
      ensures match FinishStore(old(Snap()), p)
              case Ok(r) => status == Fine && Snap() == r.s && r.issued
              case Halt(why) => status == Panicked(why)
    {
      hide Wf;
      var rs := stations[p];
      if rs.onames != Two(NA, NA) { return Panicked(StoreCreatesResult); }
      if rs.recover { return Panicked(MispredictedStore); }
      SetStation(p, rs.(issued := true, completed := true));
      return Fine;
    }

    method ExecuteFree(p: nat) returns (status: Status)
      requires Sound() && p < stations.Length
      modifies this, stations
      ensures match StartFree(old(Snap()), p)
              case Ok(r) => status == Fine && Snap() == r.s && r.issued
              case Halt(why) => status == Panicked(why)
    {
      hide Wf, QueueEvent;
      SetStation(p, stations[p].(issued := true));
      status := EventqQueueEvent(p, cycle + 1);
    }

    method ExecuteOn(p: nat, t: Template, env: Env) returns (status: Status)
      requires Sound() && p < stations.Length && t.master < |busy|
      modifies this, stations
      ensures match StartOn(old(Snap()), p, t, env)
              case Ok(r) => status == Fine && Snap() == r.s && r.issued
              case Halt(why) => status == Panicked(why)
    {
      hide Wf, QueueEvent, LoadLatency;
      ghost var s := Snap();
      SetStation(p, stations[p].(issued := true));
      SameBounds(s, Snap());
      ghost var s1 := Snap();
      :- ReserveUnit(t);
      SameBounds(s1, Snap());
      var lat := t.oplat;
      if stations[p].inLsq && stations[p].kind == Load && cfg.ruuSize <= p {
        lat := LoadLat(p, env);
      }
      status := EventqQueueEvent(p, cycle + lat);
    }

    /** One live node of the ready list. */
    method IssueStation(p: nat, env: Env) returns (status: Status, issued: bool)
      requires Sound() && p < stations.Length
      modifies this, stations
      ensures match IssueOne(old(Snap()), p, env)
              case Ok(r) => status == Fine && Snap() == r.s && issued == r.issued
              case Halt(why) => status == Panicked(why)
    {
      hide Wf, FinishStore, StartFree, StartOn, ResGet, Enqueue, OperandsReady;
      var rs := stations[p];
      if !OperandsReady(rs) || !rs.queued || rs.issued || rs.completed { return Panicked(BadIssue), false; }
      ghost var s := Snap();
      SetStation(p, rs.(queued := false));
      SameBounds(s, Snap());
      if rs.inLsq && rs.kind == Store {
        status := CompleteStore(p);
        return status, true;
      } else if rs.fu == NA {
        status := ExecuteFree(p);
        return status, true;
      }
      var fu;
      status, fu := ResGetUnit(rs.fu);
      if status.Panicked? { return status, false; }
      if fu.Granted? {
        assert fu.t.master < |busy| by { GrantedExists(Snap(), rs.fu); }
        status := ExecuteOn(p, fu.t, env);
        return status, true;
      }
      status := ReadyqEnqueue(p);
      return status, false;
    }

    /** The body of the first loop of ruu_issue. */
    method IssueListNode(n: Link, env: Env) returns (status: Status, issued: bool)
      requires Sound()
      modifies this, stations
      ensures match IssueNode(old(Snap()), n, env)
              case Ok(r) => status == Fine && Snap() == r.s && issued == r.issued
              case Halt(why) => status == Panicked(why)
    {
      hide Wf, IssueOne;
      issued := false;
      if n.rs < stations.Length && n.tag == stations[n.rs].tag {
        status, issued := IssueStation(n.rs, env);
        if status.Panicked? { return; }
      }
      free := free + 1;
      return Fine, issued;
    }

    /** The body of the second loop of ruu_issue. */
    method RequeueListNode(n: Link) returns (status: Status)
      requires Sound()
      modifies this, stations
      ensures Matches(RequeueNode(old(Snap()), n), status, Snap())
    {
      hide Wf, Enqueue;
      if n.rs < stations.Length && n.tag == stations[n.rs].tag {
        SetStation(n.rs, stations[n.rs].(queued := false));
        :- ReadyqEnqueue(n.rs);
      }
      free := free + 1;
      return Fine;
    }

    /** ruu_issue */
    method RuuIssue(env: Env) returns (status: Status)
      requires Sound()
      modifies this, stations
      ensures Matches(Issue(old(Snap()), env), status, Snap())
    {
      hide Wf, IssueNode, RequeueNode;
      ghost var s := Snap();
      var node, nIssued := readyQ, 0;
      readyQ := [];
      SameBounds(s, Snap());
      while node != [] && nIssued < cfg.issueWidth
        invariant Sound() && IssueLoop(Snap(), node, nIssued, env) == Issue(s, env)
        decreases |node|
      {
        var issued;
        status, issued := IssueListNode(node[0], env);
        if status.Panicked? { return; }
        node, nIssued := node[1..], if issued then nIssued + 1 else nIssued;
      }
      while node != []
        invariant Sound() && Requeue(Snap(), node) == Issue(s, env)
        decreases |node|
      {
        :- RequeueListNode(node[0]);
        node := node[1..];
      }
      return Fine;
    }

    /** CREATE_VECTOR(N) */
    method Creators(name: Reg) returns (c: Creator)
      requires Sound()
      ensures c == CreateVector(Snap(), name)
    {
      hide CfgOk;
      c := if name in useSpec then specCv[name] else cv[name];
    }

    /** ruu_link_idep */
    method RuuLinkIdep(p: nat, k: nat, name: Reg) returns (status: Status)
      requires Sound() && p < stations.Length
      modifies this, stations
      ensures Matches(LinkIdep(old(Snap()), p, k, name), status, Snap())
    {
      hide Wf, CreateVector;
      var x := stations[p];
      var head := Creators(name);
      if name == NA || head.NoCreator? {
        SetStation(p, x.(ready := x.ready.Set(k, true)));
        return Fine;
      }
      SetStation(p, x.(ready := x.ready.Set(k, false)));
      if head.rs >= stations.Length { return Panicked(WildPointer); }
      if free == 0 { return Panicked(OutOfLinks); }
      var c := stations[head.rs];
      SetStation(head.rs, c.(odeps := c.odeps.Set(head.odep, [Link(p, x.tag, k)] + c.odeps.Get(head.odep))));
      TakeLink(Opnd(p, k), Slot(head.rs, head.odep));
      return Fine;
    }

    /** A link leaves the pool, and the operand it carries now waits for that slot. */
    method TakeLink(ghost operand: Opnd, ghost slot: Slot)
      requires 0 < free
      modifies this
      ensures Snap() == old(Snap()).(free := old(free) - 1, prod := old(prod)[operand := slot])
    {
      free := free - 1;
      prod := prod[operand := slot];
    }

    /** ruu_install_odep */
    method RuuInstallOdep(p: nat, o: nat, name: Reg)
      requires Sound() && p < stations.Length
      modifies this, stations
      ensures Snap() == InstallOdep(old(Snap()), p, o, name)
    {
      hide CfgOk;
      var x := stations[p];
      if name == NA {
        SetStation(p, x.(onames := x.onames.Set(o, NA)));
        return;
      }
      SetStation(p, x.(onames := x.onames.Set(o, name), odeps := x.odeps.Set(o, [])));
      if specMode {
        useSpec, specCv := useSpec + {name}, specCv[name := Creator(p, o)];
      } else {
        cv := cv[name := Creator(p, o)];
      }
    }

    /** The link and install calls of one station. */
    method LinkStation(p: nat, in1: Reg, in2: Reg, in3: Reg, out1: Reg, out2: Reg) returns (status: Status)
      requires Sound() && p < stations.Length
      modifies this, stations
      ensures Matches(LinkAll(old(Snap()), p, in1, in2, in3, out1, out2), status, Snap())
    {
      hide Wf, LinkIdep, InstallOdep;
      :- RuuLinkIdep(p, 0, in1);
      :- RuuLinkIdep(p, 1, in2);
      :- RuuLinkIdep(p, 2, in3);
      RuuInstallOdep(p, 0, out1);
      RuuInstallOdep(p, 1, out2);
      return Fine;
    }

    /** Fill in RUU[RUU_tail] and move the tail. */
    method ClaimRuu(kind: Kind, urgent: bool, fu: nat, eaComp: bool)
      requires Sound()
      modifies this, stations
      ensures Snap() == AllocRuu(old(Snap()), kind, urgent, fu, eaComp)
    {
      hide Wf, Fresh, Next;
      TailBounds(Snap());
      var p := ruuTail;
      var x := Fresh(stations[p], kind, urgent, fu, false, eaComp, specMode, 0, instSeq + 1);
      NumberStation(p, true);
      MoveRuuTail();
      SetStation(p, x);
    }

    method MoveRuuTail()
      requires 0 < cfg.ruuSize
      modifies `ruuTail, `ruuNum
      ensures var s := old(Snap()); Snap() == s.(ruuTail := Next(s.ruuTail, s.cfg.ruuSize), ruuNum := s.ruuNum + 1)
    {
      ruuTail, ruuNum := Next(ruuTail, cfg.ruuSize), ruuNum + 1;
    }

    /** A new sequence number, and the station enters the program order. */
    method NumberStation(p: nat, ghost logged: bool)
      modifies `instSeq, `rob, `nspec, `log
      ensures var s := old(Snap());
              Snap() == s.(instSeq := s.instSeq + 1, rob := s.rob + [p],
                           nspec := if s.specMode then s.nspec else s.nspec + 1,
                           log := if logged && !s.specMode then s.log + [s.instSeq + 1] else s.log)
    {
      if !specMode { LogStation(logged); }
      instSeq, rob := instSeq + 1, rob + [p];
    }

    /** The history of a correct-path station. */
    ghost method LogStation(logged: bool)
      modifies `nspec, `log
      ensures var s := old(Snap());
              Snap() == s.(nspec := s.nspec + 1, log := if logged then s.log + [s.instSeq + 1] else s.log)
    {
      nspec := nspec + 1;
      if logged { log := log + [instSeq + 1]; }
    }

    /** Fill in LSQ[LSQ_tail] and move the tail. */
    method ClaimLsq(i: Inst)
      requires Sound()
      modifies this, stations
      ensures Snap() == AllocLsq(old(Snap()), i)
    {
      hide Wf, Fresh, Next;
      TailBounds(Snap());
      var q := cfg.ruuSize + lsqTail;
      var x := Fresh(stations[q], i.kind, i.urgent, i.fu, true, false, specMode, i.addr, instSeq + 1);
      NumberStation(q, false);
      MoveLsqTail();
      SetStation(q, x);
    }

    method MoveLsqTail()
      requires 0 < cfg.lsqSize
      modifies `lsqTail, `lsqNum
      ensures var s := old(Snap()); Snap() == s.(lsqTail := Next(s.lsqTail, s.cfg.lsqSize), lsqNum := s.lsqNum + 1)
    {
      lsqTail, lsqNum := Next(lsqTail, cfg.lsqSize), lsqNum + 1;
    }

    /** Queue what is ready of a load or store. */
    method QueueReadyPair(p: nat, q: nat, kind: Kind) returns (status: Status)
      requires Sound() && p < stations.Length && q < stations.Length
      modifies this, stations
      ensures Matches(QueuePair(old(Snap()), p, q, kind), status, Snap())
    {
      hide Wf, Enqueue, OperandsReady;
      if OperandsReady(stations[p]) { :- ReadyqEnqueue(p); }
      lastOp := Link(q, stations[q].tag, 0);
      if kind == Store && OperandsReady(stations[q]) { :- ReadyqEnqueue(q); }
      return Fine;
    }

    /** The branch of ruu_dispatch for loads and stores. */
    method DispatchMemory(i: Inst) returns (status: Status)
      requires Sound()
      modifies this, stations
      ensures Matches(DispatchMem(old(Snap()), i), status, Snap())
    {
      hide Wf, LinkAll, AllocRuu, AllocLsq, QueuePair;
      TailBounds(Snap());
      var p, q := ruuTail, cfg.ruuSize + lsqTail;
      ClaimRuu(Alu, false, cfg.agenFu, true);
      ClaimLsq(i);
      :- LinkStation(p, NA, i.in2, i.in3, DTMP, NA);
      :- LinkStation(q, i.in1, DTMP, NA, i.out1, i.out2);
      status := QueueReadyPair(p, q, i.kind);
    }

    /** The branch of ruu_dispatch for every other operation. */
    method DispatchOperation(i: Inst) returns (status: Status)
      requires Sound()
      modifies this, stations
      ensures Matches(DispatchAlu(old(Snap()), i), status, Snap())
    {
      hide Wf, LinkAll, AllocRuu, Enqueue, OperandsReady;
      TailBounds(Snap());
      var p := ruuTail;
      ClaimRuu(Alu, i.urgent, i.fu, false);
      :- LinkStation(p, i.in1, i.in2, i.in3, i.out1, i.out2);
      if OperandsReady(stations[p]) {
        :- ReadyqEnqueue(p);
        lastOp := Link(stations.Length, 0, 0);
      } else {
        lastOp := Link(p, stations[p].tag, 0);
      }
      return Fine;
    }

    /** The body of the loop of ruu_dispatch. */
    method DispatchInst() returns (status: Status)
      requires Sound() && ifq != []
      modifies this, stations
      ensures Matches(DispatchOne(old(Snap())), status, Snap())
    {
      hide Wf, DispatchMem, DispatchAlu, EnterSpec;
      TailBounds(Snap());
      var i, rest, rs, wasSpec := ifq[0], ifq[1..], ruuTail, specMode;
      if i.nop {
      } else if i.kind == Alu {
        :- DispatchOperation(i);
      } else {
        :- DispatchMemory(i);
      }
      ghost var s := Snap();
      ifq := if i.redirect then [] else rest;
      SameBounds(s, Snap());
      if !wasSpec && i.mispredicted && !i.redirect {
        if i.nop { return Panicked(NullStation); }
        LeaveCorrectPath(rs);
      }
      return Fine;
    }

    /** The last instruction dispatched is the mispredicted branch that recovery will return to. */
    method LeaveCorrectPath(rs: nat)
      requires Sound() && rs < stations.Length
      modifies this, stations
      ensures Snap() == EnterSpec(old(Snap()), rs)
    {
      hide Wf;
      SetStation(rs, stations[rs].(recover := true));
      specMode := true;
    }

    /** ruu_dispatch */
    method RuuDispatch() returns (status: Status)
      requires Sound()
      modifies this, stations
      ensures Matches(Dispatch(old(Snap()), cfg.decodeWidth), status, Snap())
    {
      hide Wf, DispatchOne, InorderStall;
      ghost var s := Snap();
      var left := cfg.decodeWidth;
      while left > 0 && ruuNum < cfg.ruuSize && lsqNum < cfg.lsqSize && ifq != [] && (cfg.includeSpec || !specMode)
        invariant Sound() && Dispatch(Snap(), left) == Dispatch(s, cfg.decodeWidth)
        decreases |ifq|
      {
        var stall := Stalled();
        if stall { break; }
        var i := ifq[0];
        if i.trap && ruuNum != 0 { break; }
        if i.trap && specMode { return Panicked(DrainedAndSpeculative); }
        :- DispatchInst();
        if !i.nop { left := left - 1; }
      }
      return Fine;
    }

    /** Does in-order issue hold dispatch back? */
    method Stalled() returns (stall: bool)
      ensures stall <==> InorderStall(Snap())
    {
      stall := cfg.inorderIssue && lastOp.rs < stations.Length && lastOp.tag == stations[lastOp.rs].tag
               && !OperandsReady(stations[lastOp.rs]);
    }

    /** The queue effect of ruu_fetch: take instructions while the fetch queue has room. */
    method RuuFetch(fetched: seq<Inst>)
      modifies this
      ensures Snap() == Fetch(old(Snap()), fetched)
    {
      var i := 0;
      while i < |fetched| && |ifq| < cfg.ifqSize
        invariant i <= |fetched| && ifq == old(ifq) + fetched[..i]
        invariant i == 0 || |ifq| <= cfg.ifqSize
        invariant Snap() == old(Snap()).(ifq := ifq)
      {
        assert fetched[..i] + [fetched[i]] == fetched[..i + 1];
        ifq, i := ifq + [fetched[i]], i + 1;
      }
      assert fetched[..|fetched|] == fetched;
      assert old(ifq) + fetched[..0] == old(ifq);
    }

    /** One iteration of the main loop, checks included.  From a state that satisfies the invariant it fails
        only when the link pool runs out, or when more than 64 LSQ entries overflow the array of unknown store
        data; otherwise the invariant holds again. */
    method Step(env: Env) returns (status: Status)
      requires Inv(Snap()) && Sound() && EnvOk(cfg, env)
      modifies this, stations
      ensures Matches(Cycle(old(Snap()), env), status, Snap())
      ensures status == Fine ==> Inv(Snap()) && Sound()
      ensures status.Panicked? ==> status.why == OutOfLinks || (status.why == StdOverflow && MAX_STD_UNKNOWNS < cfg.lsqSize)
    {
      hide Inv, Wf, Cycle, EnvOk;
      ghost var s := Snap();
      CycleStage(s, env);
      status := Stages(env);
    }

    /** The stages in reverse order. */
    method Stages(env: Env) returns (status: Status)
      requires Sound()
      modifies this, stations
      ensures Matches(Cycle(old(Snap()), env), status, Snap())
    {
      hide Wf, Commit, ReleaseFu, Writeback, Refresh, Issue, Dispatch, Fetch;
      Sizes(Snap());
      if ruuNum < lsqNum { return Panicked(FewerRuuThanLsq); }
      if (ruuHead + ruuNum) % cfg.ruuSize != ruuTail { return Panicked(RuuWedged); }
      if (lsqHead + lsqNum) % cfg.lsqSize != lsqTail { return Panicked(LsqWedged); }
      :- RuuCommit();
      RuuReleaseFu();
      :- RuuWriteback();
      :- LsqRefresh();
      :- RuuIssue(env);
      :- RuuDispatch();
      RuuFetch(env.fetched);
      cycle := cycle + 1;
      return Fine;
    }

    /** ruu_init, lsq_init, cv_init, rslink_init and the rest of sim_init. */
    constructor (cfg0: Config)
      requires CfgOk(cfg0)
      ensures cfg == cfg0 && Snap() == Init(cfg0) && Inv(Snap()) && Sound() && fresh(stations)
    {
      cfg := cfg0;
      stations := new Station[cfg0.ruuSize + cfg0.lsqSize](_ => Blank());
      ruuHead, ruuTail, ruuNum, lsqHead, lsqTail, lsqNum := 0, 0, 0, 0, 0, 0;
      free, readyQ, eventQ := cfg0.links, [], [];
      cv, specCv, useSpec := NoCreators(), NoCreators(), {};
      specMode, cycle, instSeq := false, 0, 0;
      busy, ifq, lastOp := IdleUnits(cfg0.units), [], Link(cfg0.ruuSize + cfg0.lsqSize, 0, 0);
      rob, nspec, prod, log, retired := [], 0, map[], [], [];
      new;
      hide Inv, Wf, CfgOk, Blank, NoCreators, IdleUnits;
      assert stations[..] == BlankStations(cfg0.ruuSize + cfg0.lsqSize);
      InitInv(cfg0);
    }
  }

  lemma InsertSkips(q: seq<Link>, i: nat, n: Link)
    requires i < |q| && q[i].x < n.x
    ensures q[..i] + Insert(q[i..], n) == q[..i + 1] + Insert(q[i + 1..], n)
  {
    assert q[i..][1..] == q[i + 1..];
    assert Insert(q[i..], n) == [q[i]] + Insert(q[i + 1..], n);
    assert q[..i] + [q[i]] == q[..i + 1];
  }

  lemma InsertStops(q: seq<Link>, i: nat, n: Link)
    requires i <= |q| && (i < |q| ==> q[i].x >= n.x)
    ensures q[..i] + Insert(q[i..], n) == q[..i] + [n] + q[i..]
  {
    assert Insert(q[i..], n) == [n] + q[i..];
  }

  lemma TailBounds(s: State)
    requires Wf(s)
    ensures s.ruuTail < |s.st| && s.cfg.ruuSize + s.lsqTail < |s.st| && 0 < s.cfg.ruuSize && 0 < s.cfg.lsqSize
  {
  }

  /** A step that moves no ring pointer and resizes nothing keeps the bounds. */
  lemma SameBounds(s: State, t: State)
    requires Wf(s) && t.cfg == s.cfg && |t.st| == |s.st| && |t.cv| == |s.cv| && |t.specCv| == |s.specCv| && |t.busy| == |s.busy|
    requires t.ruuHead == s.ruuHead && t.ruuTail == s.ruuTail && t.lsqHead == s.lsqHead && t.lsqTail == s.lsqTail
    ensures Wf(t)
  {
  }

  lemma Sizes(s: State)
    requires Wf(s)
    ensures 0 < s.cfg.ruuSize && 0 < s.cfg.lsqSize && s.lsqHead < s.cfg.lsqSize
  {
  }

  lemma RingStart(head: nat, size: nat)
    requires head < size
    ensures Nth(head, 0, size) == head
  {
    DivModUnique(head, 0, head, size);
  }

  lemma RingStep(head: nat, i: nat, size: nat)
    requires 0 < size
    ensures Next(Nth(head, i, size), size) == Nth(head, i + 1, size)
  {
    ModShift(head + i, 1, size);
  }

  lemma HeadBound(s: State)
    requires Wf(s)
    ensures s.ruuHead < |s.st|
  {
  }

  lemma EventBounds(s: State)
    requires Wf(s)
    ensures Wf(NextEvent(s).s)
  {
    hide NextEvent, CfgOk;
    SameBounds(s, NextEvent(s).s);
  }

  lemma {:induction false} FirstIdleIs(ts: seq<Template>, busy: seq<nat>, i: nat)
    requires forall j :: 0 <= j < |ts| ==> ts[j].master < |busy|
    requires i <= |ts| && (forall j :: 0 <= j < i ==> busy[ts[j].master] != 0) && (i < |ts| ==> busy[ts[i].master] == 0)
    ensures FirstIdle(ts, busy) == if i < |ts| then i else -1
  {
  }

  lemma LsqIndexBound(s: State, p: nat)
    requires Wf(s) && s.cfg.ruuSize <= p < |s.st|
    ensures p - s.cfg.ruuSize < s.cfg.lsqSize && |s.st| == s.cfg.ruuSize + s.cfg.lsqSize
  {
  }

  /** A station's index is that of its position. */
  lemma PosIndex(s: State, p: nat)
    requires Wf(s) && s.cfg.ruuSize <= p < |s.st|
    ensures LsqPos(s, p) < s.cfg.lsqSize && p - s.cfg.ruuSize == Nth(s.lsqHead, LsqPos(s, p), s.cfg.lsqSize)
  {
    hide CfgOk;
    var n, h, i := s.cfg.lsqSize, s.lsqHead, p - s.cfg.ruuSize;
    if h <= i {
      DivModUnique(i + n - h, 1, i - h, n);
      DivModUnique(h + (i - h), 0, i, n);
    } else {
      DivModUnique(i + n - h, 0, i + n - h, n);
      DivModUnique(h + (i + n - h), 1, i, n);
    }
  }

  lemma RingZero(head: nat, k: nat, size: nat)
    requires head < size && k < size
    ensures Nth(head, k, size) == head <==> k == 0
  {
    if head + k < size { DivModUnique(head + k, 0, head + k, size); } else { DivModUnique(head + k, 1, head + k - size, size); }
  }

  lemma RingBack(head: nat, k: nat, size: nat)
    requires head < size && 0 < k < size
    ensures Prev(Nth(head, k, size), size) == Nth(head, k - 1, size)
  {
    hide Prev;
    TailBack(head + k - 1, Nth(head, k, size), size);
  }

  lemma GrantedExists(s: State, fu: nat)
    requires Wf(s)
    ensures ResGet(s, fu).Ok? && ResGet(s, fu).value.Granted? ==> ResGet(s, fu).value.t.master < |s.busy|
  {
  }
}
