/** lsq_refresh: the array of unknown store data decides exactly which waiting loads may go. */
module OooRefresh {
  import opened OooState
  import opened OooLists
  import opened OooInvariant
  import opened OooFrames
  import opened OooQueueSteps

  /** All these LSQ entries that are stores know their address. */
  ghost predicate AddressesKnown(st: seq<Station>, older: seq<nat>) {
    forall j :: 0 <= j < |older| && older[j] < |st| && st[older[j]].kind == Store ==> st[older[j]].ready.b
  }

  /** The youngest store to the address still lacks its data. */
  ghost predicate Blocked(st: seq<Station>, older: seq<nat>, addr: nat) {
    var y := YoungestStore(st, older, addr);
    y >= 0 && !OperandsReady(st[older[y]])
  }

  /** Address 0 doubles as the bogus address, so hiding any entry makes loads from 0 look blocked. */
  ghost predicate ZeroMarked(st: seq<Station>, older: seq<nat>) {
    if older == [] then false
    else
      var rest, q := older[..|older| - 1], older[|older| - 1];
      ZeroMarked(st, rest)
      || (q < |st| && st[q].kind == Store && if OperandsReady(st[q]) then Blocked(st, rest, st[q].addr) else st[q].addr == 0)
  }

  /** What the array says of an address, in terms of the queue alone. */
  ghost predicate HeldBack(st: seq<Station>, older: seq<nat>, addr: nat) {
    if addr == 0 then ZeroMarked(st, older) else Blocked(st, older, addr)
  }

  /** A load from address 0 is held back at least whenever it has to be. */
  lemma {:induction false} BlockedIsHeldBack(st: seq<Station>, older: seq<nat>, addr: nat)
    ensures Blocked(st, older, addr) ==> HeldBack(st, older, addr)
  {
    hide OperandsReady;
    if older != [] {
      var rest := older[..|older| - 1];
      BlockedIsHeldBack(st, rest, addr);
      if !IsStoreTo(st, older[|older| - 1], addr) && Blocked(st, older, addr) {
        assert older[YoungestStore(st, rest, addr)] == rest[YoungestStore(st, rest, addr)];
      }
    }
  }

  ghost predicate StdOk(st: seq<Station>, older: seq<nat>, std: seq<nat>) {
    && |std| <= |older|
    && forall a: nat :: a in std <==> HeldBack(st, older, a)
  }

  /** One LSQ entry keeps the array exact. */
  lemma NoteStoreStep(st: seq<Station>, older: seq<nat>, q: nat, std: seq<nat>)
    requires StdOk(st, older, std) && q < |st|
    ensures match NoteStore(st[q], std)
            case Ok(std1) => StdOk(st, older + [q], std1)
            case Halt(why) => why == StdOverflow && |std| == MAX_STD_UNKNOWNS
  {
    hide OperandsReady;
    if NoteStore(st[q], std).Ok? {
      var std1 := NoteStore(st[q], std).value;
      forall a: nat ensures a in std1 <==> HeldBack(st, older + [q], a) {
        HeldBackStep(st, older, q, a);
        assert a in std <==> HeldBack(st, older, a);
        assert st[q].addr in std <==> HeldBack(st, older, st[q].addr);
        BlockedIsHeldBack(st, older, 0);
        if st[q].kind == Store && OperandsReady(st[q]) { HideMembers(std, st[q].addr, a); }
      }
    }
  }

  lemma HideMembers(std: seq<nat>, addr: nat, a: nat)
    ensures a in Hide(std, addr) <==> (a in std && a != addr) || (a == 0 && addr in std)
  {
    var h := Hide(std, addr);
    if a in h {
      var i :| 0 <= i < |h| && h[i] == a;
      assert std[i] in std;
    }
    if a in std && a != addr {
      var i :| 0 <= i < |std| && std[i] == a;
      assert h[i] in h;
    }
    if a == 0 && addr in std {
      var i :| 0 <= i < |std| && std[i] == addr;
      assert h[i] in h;
    }
  }

  /** How one more entry changes what is held back. */
  lemma HeldBackStep(st: seq<Station>, older: seq<nat>, q: nat, a: nat)
    requires q < |st|
    ensures var x := st[q];
            HeldBack(st, older + [q], a) <==>
            if x.kind != Store then HeldBack(st, older, a)
            else if !OperandsReady(x) then a == x.addr || HeldBack(st, older, a)
            else if a == 0 then ZeroMarked(st, older) || Blocked(st, older, x.addr)
            else a != x.addr && HeldBack(st, older, a)
  {
    hide OperandsReady;
    var all := older + [q];
    assert all[..|all| - 1] == older;
    if YoungestStore(st, older, a) >= 0 {
      assert all[YoungestStore(st, older, a)] == older[YoungestStore(st, older, a)];
    }
  }

  /** Only `queued` flags and the ready queue change, and flags are only set. */
  ghost predicate OnlyQueued(s: State, t: State) {
    && |t.st| == |s.st| && t == s.(st := t.st, free := t.free, readyQ := t.readyQ)
    && (forall p :: 0 <= p < |s.st| ==> t.st[p] == s.st[p].(queued := t.st[p].queued))
    && (forall p :: 0 <= p < |s.st| ==> s.st[p].queued ==> t.st[p].queued)
  }

  ghost function Lsq(s: State): seq<nat> {
    LsqPart(s.rob, s.cfg.ruuSize)
  }

  /** From position i on, a waiting load is queued exactly when its older stores allow it; the rest of the
      queue is left alone. */
  ghost predicate Decided(s: State, t: State, i: nat) {
    var lq := Lsq(s);
    && (forall j :: i <= j < |lq| && lq[j] < |s.st| && lq[j] < |t.st| && Waiting(s.st[lq[j]]) ==>
          (t.st[lq[j]].queued <==>
             AddressesKnown(s.st, lq[..j]) && !HeldBack(s.st, lq[..j], s.st[lq[j]].addr)))
    && (forall p :: 0 <= p < |s.st| && p < |t.st| && (!Waiting(s.st[p]) || p in lq[..if i < |lq| then i else |lq|]) ==>
          t.st[p].queued == s.st[p].queued)
  }

  lemma LsqEntry(s: State, i: nat)
    requires Layout(s) && i < s.lsqNum
    ensures var lq := Lsq(s);
            |lq| == s.lsqNum && Wf(s) && lq[i] == LsqAt(s, i) && lq[i] < |s.st| && InFlight(s, lq[i]) && Distinct(lq)
    ensures KindOk(s.cfg, Lsq(s)[i], s.st[Lsq(s)[i]])
  {
    hide RuuPart, LsqPart, CfgOk, KindOk, Paired, Split, History;
    var lq := Lsq(s);
    PartMembers(s.rob, s.cfg.ruuSize);
    assert lq[i] in lq;
    assert InFlight(s, lq[i]);
    forall a, b | 0 <= a < b < |s.rob| ensures s.rob[a] != s.rob[b] {
      assert s.st[s.rob[a]].seqno < s.st[s.rob[b]].seqno;
    }
    PartsDistinct(s.rob, s.cfg.ruuSize);
  }

  lemma LsqLength(s: State)
    requires Layout(s)
    ensures |Lsq(s)| == s.lsqNum && Wf(s)
  {
    hide RuuPart, LsqPart, CfgOk;
  }

  /** Queueing a load that may go. */
  lemma QueueLoad(s: State, i: nat)
    requires Inv(s) && i < s.lsqNum && i < |Lsq(s)| && Lsq(s)[i] < |s.st| && Waiting(s.st[Lsq(s)[i]])
    requires MemReady(s.st, Lsq(s)[..i], s.st[Lsq(s)[i]].addr)
    ensures match Enqueue(s, Lsq(s)[i])
            case Ok(t) => Inv(t) && Queues(s, t, Lsq(s)[i]) && OnlyQueued(s, t)
            case Halt(why) => why == OutOfLinks
  {
    hide Layout, Statuses, ReadyOk, EventsOk, ChainsOk, PreciseCreators, LoadsOk, NoneLost, SpecCreators, Branch, PoolOk;
    hide Keys, MemReady, Enqueue, LsqPart, OperandsReady;
    LsqEntry(s, i);
    var q := Lsq(s)[i];
    EnqueueEffect(s, q);
    assert LoadMayQueue(s, q);
    if Enqueue(s, q).Ok? {
      QueuesKeepsMid(s, Enqueue(s, q).value, q, IDLE);
      assert IDLE.(open := IDLE.open - {q}) == IDLE;
    }
  }

  lemma {:induction false} HeldBackFrame(st: seq<Station>, st': seq<Station>, older: seq<nat>, a: nat)
    requires |st| == |st'|
    requires forall p :: 0 <= p < |st| ==> st'[p] == st[p].(queued := st'[p].queued)
    ensures HeldBack(st', older, a) == HeldBack(st, older, a)
    ensures AddressesKnown(st', older) == AddressesKnown(st, older)
    ensures ZeroMarked(st', older) == ZeroMarked(st, older)
  {
    YoungestStoreFrame(st, st', older, a);
    if older != [] {
      var rest, q := older[..|older| - 1], older[|older| - 1];
      HeldBackFrame(st, st', rest, a);
      if q < |st| { YoungestStoreFrame(st, st', rest, st[q].addr); }
    }
  }

  lemma StdOkFrame(st: seq<Station>, st': seq<Station>, older: seq<nat>, std: seq<nat>)
    requires StdOk(st, older, std) && |st| == |st'|
    requires forall p :: 0 <= p < |st| ==> st'[p] == st[p].(queued := st'[p].queued)
    ensures StdOk(st', older, std)
  {
    hide HeldBack;
    forall a: nat ensures a in std <==> HeldBack(st', older, a) {
      HeldBackFrame(st, st', older, a);
    }
  }

  /** The loop invariant of lsq_refresh at position i. */
  ghost predicate Scanning(s: State, i: nat, std: seq<nat>) {
    && Inv(s) && i <= s.lsqNum && |Lsq(s)| == s.lsqNum && Wf(s)
    && AddressesKnown(s.st, Lsq(s)[..i]) && StdOk(s.st, Lsq(s)[..i], std)
  }

  lemma PrefixStep(lq: seq<nat>, i: nat)
    requires i < |lq|
    ensures lq[..i + 1] == lq[..i] + [lq[i]]
  {
  }

  /** The scan moves past entry i, with the load there queued or not. */
  lemma ScanNext(s: State, t: State, i: nat, std: seq<nat>, std1: seq<nat>)
    requires Scanning(s, i, std) && i < s.lsqNum && Inv(t) && OnlyQueued(s, t)
    requires Lsq(s)[i] < |s.st| && NoteStore(s.st[Lsq(s)[i]], std) == Ok(std1)
    requires s.st[Lsq(s)[i]].kind == Store ==> s.st[Lsq(s)[i]].ready.b
    ensures Scanning(t, i + 1, std1)
  {
    hide Mid, LsqPart, NoteStore, OperandsReady, HeldBack, Wf;
    var lq := Lsq(s);
    PrefixStep(lq, i);
    NoteStoreStep(s.st, lq[..i], lq[i], std);
    StdOkFrame(s.st, t.st, lq[..i + 1], std1);
    assert Wf(t) by { InvGives(t); }
  }

  lemma InvGives(s: State)
    requires Inv(s)
    ensures Wf(s) && Layout(s) && s.nspec <= |s.rob|
  {
  }

  lemma DecidedLater(s: State, t: State, u: State, i: nat, j: nat)
    requires OnlyQueued(s, t) && OnlyQueued(t, u) && Decided(t, u, i + 1) && Distinct(Lsq(s)) && i < j < |Lsq(s)|
    requires Lsq(s)[i] < |s.st| && Lsq(s)[j] < |s.st| && Waiting(s.st[Lsq(s)[j]])
    requires forall p :: 0 <= p < |s.st| && p != Lsq(s)[i] ==> t.st[p] == s.st[p]
    ensures u.st[Lsq(s)[j]].queued <==>
            AddressesKnown(s.st, Lsq(s)[..j]) && !HeldBack(s.st, Lsq(s)[..j], s.st[Lsq(s)[j]].addr)
  {
    hide LsqPart, OperandsReady, HeldBack, Waiting;
    var lq := Lsq(s);
    assert lq[i] != lq[j] && Lsq(t) == lq;
    HeldBackFrame(s.st, t.st, lq[..j], s.st[lq[j]].addr);
  }

  lemma DecidedStep(s: State, t: State, u: State, i: nat, std: seq<nat>)
    requires Scanning(s, i, std) && i < s.lsqNum && Lsq(s)[i] < |s.st| && Distinct(Lsq(s))
    requires OnlyQueued(s, t) && OnlyQueued(t, u) && Decided(t, u, i + 1)
    requires forall p :: 0 <= p < |s.st| && p != Lsq(s)[i] ==> t.st[p] == s.st[p]
    requires var x := s.st[Lsq(s)[i]];
             t.st[Lsq(s)[i]].queued == (x.queued || (Waiting(x) && x.addr !in std))
    ensures Decided(s, u, i)
  {
    hide Mid, LsqPart, OperandsReady, HeldBack, Wf;
    var lq := Lsq(s);
    PrefixStep(lq, i);
    forall j | i <= j < |lq| && lq[j] < |s.st| && Waiting(s.st[lq[j]])
      ensures u.st[lq[j]].queued <==>
              AddressesKnown(s.st, lq[..j]) && !HeldBack(s.st, lq[..j], s.st[lq[j]].addr)
    {
      if i < j { DecidedLater(s, t, u, i, j); }
    }
  }

  lemma DecidedStop(s: State, i: nat)
    requires |Lsq(s)| <= i || (Lsq(s)[i] < |s.st| && s.st[Lsq(s)[i]].kind == Store && !s.st[Lsq(s)[i]].ready.b)
    ensures Decided(s, s, i)
  {
    hide LsqPart, HeldBack, OperandsReady;
    var lq := Lsq(s);
    forall j | i < j < |lq| && i < |lq| ensures !AddressesKnown(s.st, lq[..j]) {
      assert lq[..j][i] == lq[i];
    }
  }

  lemma OnlyQueuedTrans(s: State, t: State, u: State)
    requires OnlyQueued(s, t) && OnlyQueued(t, u)
    ensures OnlyQueued(s, u)
  {
  }

  /** One entry of the scan. */
  lemma ScanEntry(s: State, i: nat, std: seq<nat>)
    requires Scanning(s, i, std) && i < s.lsqNum && Lsq(s)[i] < |s.st|
    requires s.st[Lsq(s)[i]].kind == Store ==> s.st[Lsq(s)[i]].ready.b
    ensures var q := Lsq(s)[i]; var x := s.st[q];
            match NoteStore(x, std)
            case Halt(why) => why == StdOverflow && MAX_STD_UNKNOWNS < s.lsqNum
            case Ok(std1) =>
              match (if Waiting(x) && x.addr !in std1 then Enqueue(s, q) else Ok(s))
              case Halt(why) => why == OutOfLinks
              case Ok(t) =>
                && Scanning(t, i + 1, std1) && OnlyQueued(s, t)
                && (forall p :: 0 <= p < |s.st| && p != q ==> t.st[p] == s.st[p])
                && t.st[q].queued == (x.queued || (Waiting(x) && x.addr !in std))
  {
    hide Mid, LsqPart, OperandsReady, HeldBack, Enqueue, Wf, Keys, MemReady;
    var q := Lsq(s)[i];
    var x := s.st[q];
    NoteStoreStep(s.st, Lsq(s)[..i], q, std);
    if NoteStore(x, std).Ok? {
      var std1 := NoteStore(x, std).value;
      if Waiting(x) && x.addr !in std1 {
        MayGo(s.st, Lsq(s)[..i], x.addr);
        QueueLoad(s, i);
        if Enqueue(s, q).Ok? { ScanNext(s, Enqueue(s, q).value, i, std, std1); }
      } else {
        ScanNext(s, s, i, std, std1);
      }
    }
  }

  lemma MayGo(st: seq<Station>, older: seq<nat>, addr: nat)
    ensures AddressesKnown(st, older) && !HeldBack(st, older, addr) ==> MemReady(st, older, addr)
  {
    BlockedIsHeldBack(st, older, addr);
  }

  lemma {:induction false} RefreshStage(s: State, i: nat, std: seq<nat>)
    requires Scanning(s, i, std)
    ensures match Refresh(s, i, std)
            case Ok(t) => Inv(t) && OnlyQueued(s, t) && Decided(s, t, i)
            case Halt(why) => why == OutOfLinks || (why == StdOverflow && MAX_STD_UNKNOWNS < s.lsqNum)
    decreases s.lsqNum - i
  {
    hide Inv, Decided, LsqPart, OperandsReady, HeldBack, Enqueue, NoteStore, Waiting, StdOk, Wf, CfgOk;
    var lq := Lsq(s);
    if i >= s.lsqNum {
      DecidedStop(s, i);
    } else {
      ScanFacts(s, i, std);
      var x := s.st[lq[i]];
      if x.kind == Store && !x.ready.b {
        DecidedStop(s, i);
      } else {
        ScanEntry(s, i, std);
        if NoteStore(x, std).Ok? {
          var std1 := NoteStore(x, std).value;
          var r := if Waiting(x) && x.addr !in std1 then Enqueue(s, lq[i]) else Ok(s);
          if r.Ok? {
            RefreshStage(r.value, i + 1, std1);
            if Refresh(r.value, i + 1, std1).Ok? {
              DecidedStep(s, r.value, Refresh(r.value, i + 1, std1).value, i, std);
              OnlyQueuedTrans(s, r.value, Refresh(r.value, i + 1, std1).value);
            }
          }
        }
      }
    }
  }

  lemma ScanFacts(s: State, i: nat, std: seq<nat>)
    requires Scanning(s, i, std) && i < s.lsqNum
    ensures Lsq(s)[i] == LsqAt(s, i) && Lsq(s)[i] < |s.st| && Distinct(Lsq(s))
  {
    hide Mid, LsqPart;
    InvGives(s);
    LsqEntry(s, i);
  }
}
