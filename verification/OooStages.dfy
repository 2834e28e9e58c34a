/** Writeback, refresh and issue as whole stages: each keeps the invariant and fires no panic. */
module OooStages {
  import opened OooState
  import opened OooLists
  import opened OooInvariant
  import opened OooFrames
  import opened OooQueueSteps
  import opened OooCompletion
  import opened OooWriteback
  import opened OooRecovery

  // ---- writeback ----

  lemma PopEvent(s: State)
    requires Inv(s) && s.eventQ != []
    ensures var ev := s.eventQ[0]; var t := s.(eventQ := s.eventQ[1..], free := s.free + 1);
            Mid(t, IDLE.(due := if Valid(s, ev) then {ev.rs} else {}))
  {
    hide Layout, Statuses, ReadyOk, ChainsOk, PreciseCreators, LoadsOk, NoneLost, SpecCreators, Branch;
    var ev := s.eventQ[0];
    var t := s.(eventQ := s.eventQ[1..], free := s.free + 1);
    LayoutGives(s);
    assert SameLayout(s, t);
    LayoutFrame(s, t);
    PopEventQueues(s, t);
    ChainsFrame(s, t, {});
    CreatorsFrame(s, t, {});
    LoadsFrame(s, t);
    BranchFrame(s, t);
  }

  lemma PopEventQueues(s: State, t: State)
    requires s.eventQ != [] && t == s.(eventQ := s.eventQ[1..], free := s.free + 1)
    requires Statuses(s) && ReadyOk(s, []) && EventsOk(s, {}) && NoneLost(s, {})
    ensures var ev := s.eventQ[0];
            Statuses(t) && ReadyOk(t, []) && EventsOk(t, if Valid(s, ev) then {ev.rs} else {}) && NoneLost(t, {})
  {
    hide EventsOk;
    PopEventRest(s, t);
    PopEventLinks(s, t);
  }

  lemma PopEventRest(s: State, t: State)
    requires s.eventQ != [] && t == s.(eventQ := s.eventQ[1..], free := s.free + 1)
    requires Statuses(s) && ReadyOk(s, []) && NoneLost(s, {})
    ensures Statuses(t) && ReadyOk(t, []) && NoneLost(t, {})
  {
    hide OperandsReady, Keys, StatusOk;
    forall p: nat ensures InFlight(t, p) == InFlight(s, p) {}
    forall k ensures KeyOk(t, k) == KeyOk(s, k) {}
  }

  lemma PopEventLinks(s: State, t: State)
    requires s.eventQ != [] && t == s.(eventQ := s.eventQ[1..], free := s.free + 1)
    requires EventsOk(s, {})
    ensures EventsOk(t, if Valid(s, s.eventQ[0]) then {s.eventQ[0].rs} else {})
  {
    hide OperandsReady, Sorted, Keys;
    var ev := s.eventQ[0];
    var key := Key(ev.rs, ev.tag);
    PoppedKeys(s.eventQ);
    assert KeyOk(s, key);
    forall p: nat ensures InFlight(t, p) == InFlight(s, p) {}
    forall k ensures KeyOk(t, k) == KeyOk(s, k) {}
  }

  lemma PoppedKeys(q: seq<Link>)
    requires q != []
    ensures Keys(q) == multiset{Key(q[0].rs, q[0].tag)} + Keys(q[1..]) && (Sorted(q) ==> Sorted(q[1..]))
  {
    hide Keys;
    assert q == [q[0]] + q[1..];
    KeysOfCons(q[0], q[1..]);
  }

  /** The station whose event is due is executing: the panic check of ruu_writeback passes. */
  lemma DueIsExecuting(s: State)
    requires Inv(s) && s.eventQ != [] && Valid(s, s.eventQ[0])
    ensures var p := s.eventQ[0].rs;
            && InFlight(s, p) && OperandsReady(s.st[p]) && !s.st[p].queued && s.st[p].issued && !s.st[p].completed
            && KindOk(s.cfg, p, s.st[p])
  {
    hide Layout, ReadyOk, ChainsOk, PreciseCreators, LoadsOk, NoneLost, SpecCreators, Branch, PoolOk;
    var ev := s.eventQ[0];
    assert Key(ev.rs, ev.tag) in Keys(s.eventQ);
    assert KeyOk(s, Key(ev.rs, ev.tag));
    assert InFlight(s, ev.rs) && StatusOk(s.st[ev.rs]);
    LayoutGives(s);
  }

  ghost predicate Due(s: State, p: nat) {
    && Mid(s, IDLE.(due := {p})) && InFlight(s, p)
    && OperandsReady(s.st[p]) && !s.st[p].queued && s.st[p].issued && !s.st[p].completed
    && KindOk(s.cfg, p, s.st[p])
  }

  /** eventq_next_event returns an executing station, or nothing when no live or stale event is due. */
  lemma {:induction false} NextEventStage(s: State)
    requires Inv(s)
    ensures var n := NextEvent(s);
            if n.found then Due(n.s, n.p) else Inv(n.s) && (n.s.eventQ == [] || n.s.eventQ[0].x > n.s.cycle)
    decreases |s.eventQ|
  {
    hide Mid, OperandsReady, KindOk;
    if s.eventQ != [] && s.eventQ[0].x <= s.cycle {
      PopEvent(s);
      var t := s.(eventQ := s.eventQ[1..], free := s.free + 1);
      if Valid(s, s.eventQ[0]) {
        DueIsExecuting(s);
      } else {
        NextEventStage(t);
      }
    }
  }

  lemma EntersRecovery(s: State, t: State, p: nat)
    requires Due(s, p) && s.st[p].recover && Completes(s, t, p)
    requires Base(t, Draining(IDLE, p)) && SameLayout(s, t)
    ensures Recovering(t, p, Draining(IDLE, p))
  {
    hide Layout, Statuses, ReadyOk, EventsOk, ChainsOk, PreciseCreators, LoadsOk, NoneLost, SpecCreators, PoolOk, Static;
    hide KindOk, OperandsReady;
    LayoutGives(s);
    var i :| 0 <= i < |s.rob| && s.rob[i] == p;
    assert Unresolved(s, s.rob[i]);
    forall j | 0 <= j < |t.rob| ensures !Unresolved(t, t.rob[j]) {
      assert Unresolved(s, s.rob[j]) ==> j == i;
    }
  }

  /** One completion, with recovery if it resolves a misprediction. */
  lemma CompleteStage(s: State, p: nat)
    requires Due(s, p) && Wf(s)
    ensures match Complete(s, p)
            case Ok(t) => Inv(t) && (t.specMode ==> t.rob == s.rob && t.nspec == s.nspec && s.specMode)
            case Halt(why) => why == OutOfLinks
  {
    hide Base, SpecCreators, Branch, OperandsReady, KindOk, Broadcast, Recover, SameLayout, Static;
    var t := Put(s, p, s.st[p].(completed := true));
    var w := IDLE.(due := {p});
    assert Completes(s, t, p);
    CompletesKeepsBase(s, t, p, w);
    assert Draining(w, p) == Draining(IDLE, p);
    assert !s.st[p].inLsq || !s.st[p].recover by { DueMayRecover(s, p); }
    if s.st[p].recover {
      EntersRecovery(s, t, p);
      RecoverStage(t, p, Draining(IDLE, p));
      BroadcastBoth(Recover(t, p).value, p);
      if Complete(s, p).Ok? { SamePath(Recover(t, p).value, Complete(s, p).value); }
    } else {
      BroadcastBoth(t, p);
      if Complete(s, p).Ok? { SamePath(t, Complete(s, p).value); }
    }
  }

  lemma SamePath(s: State, t: State)
    requires SameWork(s, t)
    ensures t.rob == s.rob && t.nspec == s.nspec && t.specMode == s.specMode
  {
  }

  lemma DueMayRecover(s: State, p: nat)
    requires Due(s, p)
    ensures !s.st[p].inLsq || !s.st[p].recover
  {
    hide Mid, OperandsReady;
  }

  /** ruu_writeback: no panic, and afterwards no event that was due is left. */
  lemma {:induction false} WritebackStage(s: State)
    requires Inv(s) && Wf(s)
    ensures match Writeback(s)
            case Ok(t) =>
              && Inv(t) && (t.eventQ == [] || t.eventQ[0].x > t.cycle)
              && (t.specMode ==> t.rob == s.rob && t.nspec == s.nspec && s.specMode)
            case Halt(why) => why == OutOfLinks
    decreases |s.eventQ|
  {
    hide Inv, Due, Complete, NextEvent;
    NextEventStage(s);
    var n := NextEvent(s);
    if n.found {
      CompleteStage(n.s, n.p);
      if Complete(n.s, n.p).Ok? {
        var t := Complete(n.s, n.p).value;
        WritebackStage(t);
      }
    }
  }
}
