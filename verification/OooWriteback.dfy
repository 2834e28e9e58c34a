/** ruu_writeback outside recovery: no panic fires and the invariant is kept. */
module OooWriteback {
  import opened OooState
  import opened OooLists
  import opened OooInvariant
  import opened OooFrames
  import opened OooQueueSteps
  import opened OooCompletion

  /** What broadcasting never changes. */
  ghost predicate SameWork(s: State, t: State) {
    SameLayout(s, t) && t.eventQ == s.eventQ && forall p :: 0 <= p < |s.st| ==> t.st[p].completed == s.st[p].completed
  }

  lemma SameWorkTrans(s: State, t: State, u: State)
    requires SameWork(s, t) && SameWork(t, u)
    ensures SameWork(s, u)
  {
    hide Static, Wf;
    forall p | 0 <= p < |s.st| ensures Static(u.st[p]) == Static(s.st[p]) {}
  }

  ghost function Popped(s: State, p: nat, i: nat): State
    requires p < |s.st| && s.st[p].odeps.Get(i) != []
  {
    Put(s, p, s.st[p].(odeps := s.st[p].odeps.Set(i, s.st[p].odeps.Get(i)[1..])))
  }

  /** The state between waking the first consumer and queueing it. */
  ghost function Awake(s: State, p: nat, i: nat): State
    requires p < |s.st| && s.st[p].odeps.Get(i) != []
  {
    var s1 := Popped(s, p, i);
    var l := s.st[p].odeps.Get(i)[0];
    if Valid(s1, l) then Put(s1, l.rs, s1.st[l.rs].(ready := s1.st[l.rs].ready.Set(l.x, true))) else s1
  }

  lemma AwakeStep(s: State, p: nat, i: nat, w: Work)
    requires Mid(s, w) && p < |s.st| && i < 2 && s.st[p].odeps.Get(i) != [] && s.st[p].completed
    ensures Mid(Awake(s, p, i), Woken(s, w, p, i)) && SameWork(s, Awake(s, p, i))
    ensures Wf(s) && |Awake(s, p, i).st| == |s.st|
  {
    hide Mid, Woken, OperandsReady;
    assert Wakes(s, Awake(s, p, i), p, i);
    WakesKeepsMid(s, Awake(s, p, i), p, i, w);
    assert Wf(s) by { MidGives(s, w); }
  }

  lemma MidGives(s: State, w: Work)
    requires Mid(s, w)
    ensures Wf(s) && s.nspec <= |s.rob| && Layout(s)
  {
  }

  lemma ConsumerLives(s: State, p: nat, i: nat, w: Work)
    requires Mid(s, w) && p < |s.st| && i < 2 && s.st[p].odeps.Get(i) != [] && s.st[p].completed
    requires Valid(s, s.st[p].odeps.Get(i)[0])
    ensures var l := s.st[p].odeps.Get(i)[0]; var t := Awake(s, p, i);
            && InFlight(s, l.rs) && l.rs < |t.st| && !t.st[l.rs].queued && !t.st[l.rs].issued
            && KindOk(s.cfg, l.rs, t.st[l.rs]) && t.rob == s.rob && Valid(Popped(s, p, i), l)
            && !Popped(s, p, i).st[l.rs].ready.Get(l.x)
            && t.st[l.rs].inLsq == Popped(s, p, i).st[l.rs].inLsq && t.st[l.rs].kind == Popped(s, p, i).st[l.rs].kind
  {
    hide Mid, OperandsReady;
    LiveConsumer(s, w, p, i);
  }

  /** One consumer: afterwards its link is in hand and nobody is left open. */
  lemma WakeOneStage(s: State, p: nat, i: nat, w: Work)
    requires Mid(s, w) && p < |s.st| && i < 2 && s.st[p].odeps.Get(i) != [] && s.st[p].completed && w.open == {}
    requires Wf(s)
    ensures match WakeOne(Popped(s, p, i), s.st[p].odeps.Get(i)[0])
            case Ok(t) => Mid(t, w.(held := w.held + 1)) && SameWork(s, t)
            case Halt(why) => why == OutOfLinks
  {
    hide Mid, SameLayout, Static, OperandsReady, Enqueue, KindOk;
    var l := s.st[p].odeps.Get(i)[0];
    AwakeStep(s, p, i, w);
    var t := Awake(s, p, i);
    if Valid(Popped(s, p, i), l) {
      ConsumerLives(s, p, i, w);
      AwakeQueues(s, t, l.rs, w);
      assert w.(held := w.held + 1, open := w.open + {l.rs} - {l.rs}) == w.(held := w.held + 1);
    }
  }

  lemma AwakeQueues(s: State, t: State, q: nat, w: Work)
    requires Mid(t, w.(held := w.held + 1, open := w.open + {q})) && w.open == {} && SameWork(s, t)
    requires InFlight(t, q) && !t.st[q].queued && !t.st[q].issued && KindOk(t.cfg, q, t.st[q])
    ensures OperandsReady(t.st[q]) && (!t.st[q].inLsq || t.st[q].kind == Store) ==>
              match Enqueue(t, q)
              case Ok(u) => Mid(u, w.(held := w.held + 1)) && SameWork(s, u)
              case Halt(why) => why == OutOfLinks
    ensures !(OperandsReady(t.st[q]) && (!t.st[q].inLsq || t.st[q].kind == Store)) ==> Mid(t, w.(held := w.held + 1))
  {
    hide Mid, SameLayout, Static, OperandsReady, Enqueue, Keys;
    var w1 := w.(held := w.held + 1, open := w.open + {q});
    assert w1.(open := w1.open - {q}) == w.(held := w.held + 1);
    if OperandsReady(t.st[q]) && (!t.st[q].inLsq || t.st[q].kind == Store) {
      EnqueueEffect(t, q);
      assert LoadMayQueue(t, q);
      if Enqueue(t, q).Ok? {
        QueuesKeepsMid(t, Enqueue(t, q).value, q, w1);
        SameWorkTrans(s, t, Enqueue(t, q).value);
      }
    } else {
      CloseKeepsMid(t, w1, q);
    }
  }

  /** Freeing the link in hand keeps everything a broadcast keeps. */
  lemma FreeStage(s: State, t: State, w: Work)
    requires Mid(t, w.(held := w.held + 1)) && SameWork(s, t)
    ensures Mid(t.(free := t.free + 1), w) && SameWork(s, t.(free := t.free + 1))
  {
    hide Mid, Static;
    FreeKeepsMid(t, w.(held := w.held + 1));
    assert w.(held := w.held + 1).(held := w.(held := w.held + 1).held - 1) == w;
  }

  /** The walk of an output chain wakes every live consumer and leaves the chain empty. */
  lemma {:induction false} WakeStage(s: State, p: nat, i: nat, w: Work)
    requires Mid(s, w) && Wf(s) && p < |s.st| && i < 2 && s.st[p].completed && w.open == {}
    ensures match Wake(s, p, i)
            case Ok(t) => Mid(t, w.(drain := w.drain - {Slot(p, i)})) && SameWork(s, t)
            case Halt(why) => why == OutOfLinks
    decreases |s.st[p].odeps.Get(i)|
  {
    hide Mid, SameLayout, Static, WakeOne;
    if s.st[p].odeps.Get(i) == [] {
      EndDrain(s, w, p, i);
      SameWorkRefl(s);
    } else {
      WakeOneStage(s, p, i, w);
      var r := WakeOne(Popped(s, p, i), s.st[p].odeps.Get(i)[0]);
      if r.Ok? {
        FreeStage(s, r.value, w);
        var t := r.value.(free := r.value.free + 1);
        WakeStage(t, p, i, w);
        if Wake(t, p, i).Ok? { SameWorkTrans(s, t, Wake(t, p, i).value); }
      }
    }
  }

  lemma SameWorkRefl(s: State)
    requires Wf(s)
    ensures SameWork(s, s)
  {
  }

  lemma BroadcastStage(s: State, p: nat, i: nat, w: Work)
    requires Mid(s, w) && Wf(s) && InFlight(s, p) && i < 2 && s.st[p].completed && w.open == {}
    requires Slot(p, i) in w.shown
    ensures match Broadcast(s, p, i)
            case Ok(t) => Mid(t, w.(drain := w.drain - {Slot(p, i)}, shown := w.shown - {Slot(p, i)})) && SameWork(s, t)
            case Halt(why) => why == OutOfLinks
  {
    hide Mid, SameLayout, Static, Wake;
    if s.st[p].onames.Get(i) == NA {
      SkipSlot(s, w, p, i);
      SameWorkRefl(s);
    } else {
      UnshowKeepsMid(s, p, i, w);
      var t := Unshow(s, p, i);
      assert SameWork(s, t);
      WakeStage(t, p, i, w.(shown := w.shown - {Slot(p, i)}));
      if Wake(t, p, i).Ok? { SameWorkTrans(s, t, Wake(t, p, i).value); }
    }
  }

  /** Both slots of a station that has just completed. */
  lemma BroadcastBoth(s: State, p: nat)
    requires Mid(s, Draining(IDLE, p)) && Wf(s) && InFlight(s, p) && s.st[p].completed
    ensures var r := Broadcast(s, p, 0);
            && (r.Ok? ==> match Broadcast(r.value, p, 1)
                          case Ok(t) => Mid(t, IDLE) && SameWork(s, t)
                          case Halt(why) => why == OutOfLinks)
            && (r.Halt? ==> r.why == OutOfLinks)
  {
    hide Mid, SameLayout, Static, Broadcast;
    var w := Draining(IDLE, p);
    BroadcastStage(s, p, 0, w);
    var r := Broadcast(s, p, 0);
    if r.Ok? {
      var w1 := w.(drain := w.drain - {Slot(p, 0)}, shown := w.shown - {Slot(p, 0)});
      assert InFlight(r.value, p) by { SameInFlight(s, r.value, p); }
      BroadcastStage(r.value, p, 1, w1);
      assert w1.(drain := w1.drain - {Slot(p, 1)}, shown := w1.shown - {Slot(p, 1)}) == IDLE;
      if Broadcast(r.value, p, 1).Ok? { SameWorkTrans(s, r.value, Broadcast(r.value, p, 1).value); }
    }
  }

  lemma SameInFlight(s: State, t: State, p: nat)
    requires SameLayout(s, t) && InFlight(s, p)
    ensures InFlight(t, p)
  {
  }
}
