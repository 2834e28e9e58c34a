/** The main results about the general cache: no assertion fires, and any run behaves as flat memory. */
module CacheTheorems {
  import opened Accesses
  import opened WayOrder
  import opened CacheState
  import opened CacheProof

  /** The accesses that cache_access takes: aligned and within one block. */
  predicate Legal(cfg: Config, cmd: Command, addr: nat)
    requires 0 < cfg.bsize
  {
    AlignedAccess(addr, Size(cmd)) && OfsOf(cfg, addr) + Size(cmd) <= cfg.bsize
  }

  /** The fast-hit test meets its null block pointer. */
  predicate Crashes(c: Cache, addr: nat)
    requires 0 < c.cfg.bsize
  {
    BlockOf(c.cfg, addr) == 0 && c.last.Null?
  }

  lemma SetInRange(cfg: Config, b: nat)
    requires 0 < cfg.nsets
    ensures SetOf(cfg, b) < cfg.nsets
  {
  }

  // ---- the steps of an access as primitive changes ----

  /** d has the sets and store of c, whatever its counters. */
  ghost predicate SameCore(c: Cache, d: Cache) { d.cfg == c.cfg && d.sets == c.sets && d.store == c.store }

  lemma SameCoreKeeps(c: Cache, d: Cache)
    requires SameCore(c, d) && Core(c)
    ensures Core(d)
    ensures |c.sets| == c.cfg.nsets && 0 < c.cfg.nsets && forall b :: View(d, b) == View(c, b)
  {
    hide WaysOk, Resident, TagOf, SetOf;
    GetCfg(c);
  }

  /** What an access of block b does to the view. */
  ghost predicate Effect(c: Cache, d: Cache, b: nat, ofs: nat, cmd: Command)
    requires |c.sets| == c.cfg.nsets && 0 < c.cfg.nsets
  {
    && d.cfg == c.cfg && Core(d) && |d.sets| == c.cfg.nsets
    && ofs + Size(cmd) <= |View(c, b)|
    && forall x :: View(d, x) == if x == b then Stored(View(c, b), ofs, cmd) else View(c, x)
  }

  /** Touching the resident block of b. */
  lemma TouchEffect(c: Cache, s: nat, i: nat, ofs: nat, cmd: Command)
    requires Core(c) && s < c.cfg.nsets && |c.sets| == c.cfg.nsets && i < c.cfg.assoc && |c.sets[s].blks| == c.cfg.assoc
    requires c.sets[s].blks[i].valid && ofs + Size(cmd) <= c.cfg.bsize && |c.sets[s].blks[i].data| == c.cfg.bsize
    ensures var w := c.sets[s].blks[i];
            Effect(c, Patched(c, s, i, Stored(w.data, ofs, cmd), w.dirty || cmd.Write?), BlockNo(c.cfg, w.tag, s), ofs, cmd)
    ensures var w := c.sets[s].blks[i]; View(c, BlockNo(c.cfg, w.tag, s)) == w.data
  {
    hide Core, BlockNo, View, Stored;
    GetCfg(c);
    var w := c.sets[s].blks[i];
    var data := Stored(w.data, ofs, cmd);
    StoredRead(w.data, ofs, cmd);
    PatchAny(c, s, i, data, w.dirty || cmd.Write?);
    var d := Patched(c, s, i, data, w.dirty || cmd.Write?);
    ResidentSeen(c, s, i);
    forall x ensures View(d, x) == if x == BlockNo(c.cfg, w.tag, s) then data else View(c, x) {
      PatchView(c, s, i, data, w.dirty || cmd.Write?, x);
    }
  }

  lemma StoredRead(data: seq<Byte>, ofs: nat, cmd: Command)
    requires ofs + Size(cmd) <= |data|
    ensures cmd.Read? ==> Stored(data, ofs, cmd) == data
  {
  }

  lemma PatchAny(c: Cache, s: nat, i: nat, data: seq<Byte>, dirty: bool)
    requires Core(c) && s < c.cfg.nsets && |c.sets| == c.cfg.nsets && i < c.cfg.assoc && |c.sets[s].blks| == c.cfg.assoc
    requires c.sets[s].blks[i].valid && |data| == c.cfg.bsize
    requires dirty || (data == c.sets[s].blks[i].data && !c.sets[s].blks[i].dirty)
    ensures Core(Patched(c, s, i, data, dirty))
  {
    PatchKeeps(c, s, i, data, dirty);
  }

  lemma EffectSame(c: Cache, d: Cache, e: Cache, b: nat, ofs: nat, cmd: Command)
    requires |c.sets| == c.cfg.nsets && 0 < c.cfg.nsets && Effect(c, d, b, ofs, cmd) && SameCore(d, e)
    ensures Effect(c, e, b, ofs, cmd)
  {
    hide Core, View, Stored;
    SameCoreKeeps(d, e);
  }

  /** A change that is not seen may come before or after one that is. */
  lemma EffectAfter(c: Cache, c1: Cache, d: Cache, b: nat, ofs: nat, cmd: Command)
    requires |c.sets| == c.cfg.nsets && 0 < c.cfg.nsets && |c1.sets| == c.cfg.nsets && c1.cfg == c.cfg
    requires (forall x :: View(c1, x) == View(c, x)) && Effect(c1, d, b, ofs, cmd)
    ensures Effect(c, d, b, ofs, cmd)
  {
    hide Core, View, Stored;
  }

  lemma EffectBefore(c: Cache, d: Cache, d1: Cache, b: nat, ofs: nat, cmd: Command)
    requires |c.sets| == c.cfg.nsets && 0 < c.cfg.nsets && Effect(c, d, b, ofs, cmd)
    requires d1.cfg == c.cfg && Core(d1) && |d1.sets| == c.cfg.nsets && forall x :: View(d1, x) == View(d, x)
    ensures Effect(c, d1, b, ofs, cmd)
  {
    hide Core, View, Stored;
  }

  // ---- hits ----

  lemma LastBlock(c: Cache)
    requires Inv(c) && c.last.To?
    ensures var s, i := c.last.set_, c.last.way;
            && s < c.cfg.nsets && |c.sets| == c.cfg.nsets && i < c.cfg.assoc && |c.sets[s].blks| == c.cfg.assoc
            && c.sets[s].blks[i].valid && |c.sets[s].blks[i].data| == c.cfg.bsize
            && BlockNo(c.cfg, c.sets[s].blks[i].tag, s) == c.lastTagset
  {
    hide Perm, Chained, UniqueTags, BlockNo;
    GetWays(c, c.last.set_);
    assert BlockOk(c.cfg, c.store, c.last.set_, c.sets[c.last.set_].blks[c.last.way]);
  }

  lemma FastHitIs(c: Cache, ofs: nat, cmd: Command)
    requires Inv(c) && c.last.To? && ofs + Size(cmd) <= c.cfg.bsize && Shaped(c)
    ensures var s, i := c.last.set_, c.last.way; var d := TouchBlock(c, s, i, ofs, cmd);
            && Effect(c, d, c.lastTagset, ofs, cmd) && Inv(d)
            && c.sets[s].blks[i].data == View(c, c.lastTagset)
  {
    hide Core, View, Stored, BlockNo, Effect;
    LastBlock(c);
    var s, i := c.last.set_, c.last.way;
    var w := c.sets[s].blks[i];
    TouchEffect(c, s, i, ofs, cmd);
    var p := Patched(c, s, i, Stored(w.data, ofs, cmd), w.dirty || cmd.Write?);
    EffectSame(c, p, TouchBlock(c, s, i, ofs, cmd), c.lastTagset, ofs, cmd);
    EffectCore(c, TouchBlock(c, s, i, ofs, cmd), c.lastTagset, ofs, cmd);
  }

  lemma EffectCore(c: Cache, d: Cache, b: nat, ofs: nat, cmd: Command)
    requires |c.sets| == c.cfg.nsets && 0 < c.cfg.nsets && Effect(c, d, b, ofs, cmd)
    ensures Core(d) && d.cfg == c.cfg && |d.sets| == c.cfg.nsets
  {
    hide Core, View;
  }

  /** The search found way i of set s. */
  ghost predicate FoundAt(c: Cache, b: nat, s: nat, i: nat) {
    && 0 < c.cfg.nsets && s == SetOf(c.cfg, b) && s < c.cfg.nsets && |c.sets| == c.cfg.nsets
    && i < c.cfg.assoc && |c.sets[s].blks| == c.cfg.assoc
    && c.sets[s].blks[i].valid && c.sets[s].blks[i].tag == TagOf(c.cfg, b) && |c.sets[s].blks[i].data| == c.cfg.bsize
  }

  lemma SearchFinds(c: Cache, b: nat)
    requires Core(c) && |c.sets| == c.cfg.nsets && 0 < c.cfg.nsets
    ensures var s := SetOf(c.cfg, b);
            var i := FindIn(Searched(c.cfg, c.sets[s], TagOf(c.cfg, b)), c.sets[s].blks, TagOf(c.cfg, b));
            && i == Resident(c.sets[s], TagOf(c.cfg, b)) && (i >= 0 ==> FoundAt(c, b, s, i))
  {
    hide Perm, Chained, UniqueTags, TagOf, SetOf, Content, FindIn, Searched, Resident;
    var s, t := SetOf(c.cfg, b), TagOf(c.cfg, b);
    SetInRange(c.cfg, b);
    GetWays(c, s);
    HashSearchIsLinear(c.cfg, c.store, s, c.sets[s], t);
    NoResident(c.cfg, c.store, s, c.sets[s], t);
    var i := Resident(c.sets[s], t);
    if i >= 0 {
      ResidentIs(c.cfg, c.store, s, c.sets[s], t, i);
      assert BlockOk(c.cfg, c.store, s, c.sets[s].blks[i]);
    }
  }

  lemma OrderPerm(c: Cache, s: nat)
    requires Core(c) && s < c.cfg.nsets && |c.sets| == c.cfg.nsets
    ensures Perm(c.sets[s].order, c.cfg.assoc)
  {
    hide Perm, Chained, UniqueTags, BlockOk;
    GetWays(c, s);
  }

  lemma PromotePerm(cfg: Config, w: Ways, i: nat)
    requires Perm(w.order, cfg.assoc) && i < cfg.assoc
    ensures Perm(Promote(cfg, w, i).order, cfg.assoc)
    ensures Promote(cfg, w, i) == w.(order := Promote(cfg, w, i).order)
  {
    hide Perm, MoveTo;
    MoveKeepsPerm(w.order, cfg.assoc, i, Head);
  }

  lemma SlowHitIs(c: Cache, b: nat, s: nat, i: nat, ofs: nat, cmd: Command)
    requires Inv(c) && FoundAt(c, b, s, i) && ofs + Size(cmd) <= c.cfg.bsize && Shaped(c)
    ensures var d := SlowHit(c, s, i, b, ofs, cmd);
            Effect(c, d, b, ofs, cmd) && Inv(d) && c.sets[s].blks[i].data == View(c, b)
  {
    hide Core, View, Stored, BlockNo, Effect, Perm, Promote, TagOf, SetOf, Resident;
    var w := c.sets[s].blks[i];
    BlockIs(c.cfg, b);
    TouchEffect(c, s, i, ofs, cmd);
    var p := Patched(c, s, i, Stored(w.data, ofs, cmd), w.dirty || cmd.Write?);
    var d := SlowHit(c, s, i, b, ofs, cmd);
    EffectCore(c, p, b, ofs, cmd);
    OrderPerm(p, s);
    PromotePerm(c.cfg, p.sets[s], i);
    var q := Reordered(p, s, Promote(c.cfg, p.sets[s], i).order);
    ReorderKeeps(p, s, Promote(c.cfg, p.sets[s], i).order);
    EffectBefore(c, p, q, b, ofs, cmd);
    assert d.sets == q.sets;
    EffectSame(c, q, d, b, ofs, cmd);
    EffectCore(c, d, b, ofs, cmd);
  }

  // ---- misses ----

  lemma VictimIs(cfg: Config, w: Ways, random: nat)
    requires Perm(w.order, cfg.assoc) && WaysShaped(cfg, w) && 0 < cfg.assoc
    ensures var (w1, i) := Victim(cfg, w, random); w1 == w.(order := w1.order) && Perm(w1.order, cfg.assoc) && i < cfg.assoc
  {
    hide Perm, MoveTo;
    if cfg.policy != Random {
      MoveKeepsPerm(w.order, cfg.assoc, w.order[|w.order| - 1], Head);
    }
  }

  /** The miss handler as four small changes: reorder, evict, fill, overwrite. */
  function MissSteps(c: Cache, s: nat, order: seq<nat>, i: nat, tag: nat, ofs: nat, cmd: Command): Cache
    requires s < |c.sets| && i < |c.sets[s].blks| && ofs + Size(cmd) <= c.cfg.bsize
  {
    var f := Filled(Evicted(Reordered(c, s, order), s, i), s, i, tag);
    Patched(f, s, i, Stored(Content(f.store, BlockNo(c.cfg, tag, s), c.cfg.bsize), ofs, cmd), cmd.Write?)
  }

  lemma MissIsSteps(c: Cache, s: nat, tag: nat, ofs: nat, cmd: Command, random: nat)
    requires Core(c) && Shaped(c) && s < c.cfg.nsets && ofs + Size(cmd) <= c.cfg.bsize
    ensures var (w, i) := Victim(c.cfg, c.sets[s], random); var r := Miss(c, s, tag, ofs, cmd, random);
            && i < |c.sets[s].blks| && r.Done? && SameCore(MissSteps(c, s, w.order, i, tag, ofs, cmd), r.c)
            && r.c.last.Null? && r.c.lastTagset == 0
            && r.bytes == Fetched(Content(r.c.store, BlockNo(c.cfg, tag, s), c.cfg.bsize), ofs, cmd)
            && r.c.misses == c.misses + 1 && r.c.hits == c.hits
  {
    hide Core, Stored, Content, BlockNo, Perm, Fetched, Victim, Relink;
    OrderPerm(c, s);
    VictimIs(c.cfg, c.sets[s], random);
    var (w, i) := Victim(c.cfg, c.sets[s], random);
    GetWays(c, s);
    VictimOnChain(c, s, i);
    MissShape(c, s, w, i, tag, ofs, cmd, random);
  }

  lemma VictimOnChain(c: Cache, s: nat, i: nat)
    requires Core(c) && s < c.cfg.nsets && |c.sets| == c.cfg.nsets && i < c.cfg.assoc && |c.sets[s].blks| == c.cfg.assoc
    ensures c.cfg.hsize > 0 ==>
              var from := c.cfg.bucket(c.sets[s].blks[i].tag);
              from < |c.sets[s].chains| && i in c.sets[s].chains[from]
  {
    hide WaysOk, CfgOk;
    GetWays(c, s);
    if c.cfg.hsize > 0 { OnItsChain(c.cfg, c.store, s, c.sets[s], i); }
  }

  lemma MissShape(c: Cache, s: nat, w: Ways, i: nat, tag: nat, ofs: nat, cmd: Command, random: nat)
    requires Shaped(c) && s < c.cfg.nsets && ofs + Size(cmd) <= c.cfg.bsize
    requires Victim(c.cfg, c.sets[s], random) == (w, i) && w == c.sets[s].(order := w.order) && i < |c.sets[s].blks|
    requires c.cfg.hsize > 0 ==>
               var from := c.cfg.bucket(w.blks[i].tag); from < |w.chains| && i in w.chains[from]
    ensures var r := Miss(c, s, tag, ofs, cmd, random);
            && r.Done? && SameCore(MissSteps(c, s, w.order, i, tag, ofs, cmd), r.c)
            && r.c.last.Null? && r.c.lastTagset == 0
            && r.bytes == Fetched(Content(r.c.store, BlockNo(c.cfg, tag, s), c.cfg.bsize), ofs, cmd)
            && r.c.misses == c.misses + 1 && r.c.hits == c.hits
  {
    hide Stored, Content, BlockNo, Fetched, Victim, Relink, Shaped;
    ShapedGives(c);
    var d := Miss(c, s, tag, ofs, cmd, random).c;
    var e := Evicted(Reordered(c, s, w.order), s, i);
    var f := Filled(e, s, i, tag);
    var p := MissSteps(c, s, w.order, i, tag, ofs, cmd);
    assert e.store == d.store && f.store == d.store && p.store == d.store;
    assert p.sets[s].blks == d.sets[s].blks;
    assert p.sets[s] == d.sets[s];
    assert p.sets == d.sets;
  }

  lemma StepsEffect(c: Cache, b: nat, order: seq<nat>, i: nat, ofs: nat, cmd: Command)
    requires Core(c) && |c.sets| == c.cfg.nsets && 0 < c.cfg.nsets && ofs + Size(cmd) <= c.cfg.bsize
    requires var s := SetOf(c.cfg, b);
             s < c.cfg.nsets && Perm(order, c.cfg.assoc) && i < c.cfg.assoc && |c.sets[s].blks| == c.cfg.assoc
             && Resident(c.sets[s], TagOf(c.cfg, b)) < 0
    ensures Effect(c, MissSteps(c, SetOf(c.cfg, b), order, i, TagOf(c.cfg, b), ofs, cmd), b, ofs, cmd)
    ensures Content(MissSteps(c, SetOf(c.cfg, b), order, i, TagOf(c.cfg, b), ofs, cmd).store, b, c.cfg.bsize) == View(c, b)
  {
    hide Core, View, Stored, BlockNo, Effect, Perm, TagOf, SetOf, Resident, Content, Relink;
    var s, tag := SetOf(c.cfg, b), TagOf(c.cfg, b);
    BlockIs(c.cfg, b);
    var q := Reordered(c, s, order);
    ReorderKeeps(c, s, order);
    var e := Evicted(q, s, i);
    EvictKeeps(q, s, i);
    EvictViews(q, s, i);
    EvictResident(q, s, i, tag);
    var f := Filled(e, s, i, tag);
    FillKeeps(e, s, i, tag);
    TouchEffect(f, s, i, ofs, cmd);
    var p := MissSteps(c, s, order, i, tag, ofs, cmd);
    assert p == Patched(f, s, i, Stored(f.sets[s].blks[i].data, ofs, cmd), false || cmd.Write?);
    assert forall x :: View(f, x) == View(c, x);
    EffectAfter(c, f, p, b, ofs, cmd);
  }

  lemma EvictViews(c: Cache, s: nat, i: nat)
    requires Core(c) && s < c.cfg.nsets && |c.sets| == c.cfg.nsets && i < c.cfg.assoc && |c.sets[s].blks| == c.cfg.assoc
    ensures forall x :: View(Evicted(c, s, i), x) == View(c, x)
  {
    hide Core, View;
    forall x ensures View(Evicted(c, s, i), x) == View(c, x) { EvictView(c, s, i, x); }
  }

  lemma EvictResident(c: Cache, s: nat, i: nat, t: nat)
    requires Core(c) && s < c.cfg.nsets && |c.sets| == c.cfg.nsets && i < c.cfg.assoc && |c.sets[s].blks| == c.cfg.assoc
    requires Core(Evicted(c, s, i)) && Resident(c.sets[s], t) < 0
    ensures Resident(Evicted(c, s, i).sets[s], t) < 0
    ensures |Evicted(c, s, i).sets| == c.cfg.nsets && |Evicted(c, s, i).sets[s].blks| == c.cfg.assoc
    ensures !Evicted(c, s, i).sets[s].blks[i].valid
  {
    hide WaysOk, CfgOk, Resident;
    var e := Evicted(c, s, i);
    GetWays(c, s);
    GetWays(e, s);
    NoResident(c.cfg, c.store, s, c.sets[s], t);
    forall j | 0 <= j < |e.sets[s].blks| ensures !(e.sets[s].blks[j].valid && e.sets[s].blks[j].tag == t) {
      assert !(c.sets[s].blks[j].valid && c.sets[s].blks[j].tag == t);
    }
    NoResident(e.cfg, e.store, s, e.sets[s], t);
  }

  lemma MissIs(c: Cache, b: nat, ofs: nat, cmd: Command, random: nat)
    requires Inv(c) && Shaped(c) && ofs + Size(cmd) <= c.cfg.bsize
    requires SetOf(c.cfg, b) < c.cfg.nsets && Resident(c.sets[SetOf(c.cfg, b)], TagOf(c.cfg, b)) < 0
    ensures var r := Miss(c, SetOf(c.cfg, b), TagOf(c.cfg, b), ofs, cmd, random);
            && r.Done? && Inv(r.c) && Effect(c, r.c, b, ofs, cmd)
            && r.bytes == Fetched(View(c, b), ofs, cmd)
  {
    hide Core, View, Stored, BlockNo, Effect, Perm, TagOf, SetOf, Resident, Content, Relink, Victim, Miss, MissSteps, Fetched;
    var s, tag := SetOf(c.cfg, b), TagOf(c.cfg, b);
    BlockIs(c.cfg, b);
    OrderPerm(c, s);
    GetWays(c, s);
    VictimIs(c.cfg, c.sets[s], random);
    var (w, i) := Victim(c.cfg, c.sets[s], random);
    MissIsSteps(c, s, tag, ofs, cmd, random);
    var r := Miss(c, s, tag, ofs, cmd, random);
    StepsEffect(c, b, w.order, i, ofs, cmd);
    EffectSame(c, MissSteps(c, s, w.order, i, tag, ofs, cmd), r.c, b, ofs, cmd);
    EffectCore(c, r.c, b, ofs, cmd);
  }

  // ---- any access ----

  /** A legal access succeeds unless it is to block 0 while last_blk is null; then it dereferences the null
      pointer.  When it succeeds, it reads what flat memory holds and changes exactly the bytes it writes.
      The assertion of unlink_htab_ent never fires. */
  lemma AccessIsFlat(c: Cache, cmd: Command, addr: nat, random: nat)
    requires Inv(c) && Shaped(c) && Legal(c.cfg, cmd, addr)
    ensures Access(c, cmd, addr, random) == NullBlock <==> Crashes(c, addr)
    ensures var r := Access(c, cmd, addr, random); var b, ofs := BlockOf(c.cfg, addr), OfsOf(c.cfg, addr);
            !Crashes(c, addr) ==> r.Done? && Inv(r.c) && Effect(c, r.c, b, ofs, cmd)
                                  && r.bytes == Fetched(View(c, b), ofs, cmd)
  {
    hide Core, View, Effect, TagOf, SetOf, OfsOf, BlockOf, Resident, Miss, SlowHit, TouchBlock, Fetched, FindIn, Searched;
    hide AlignedAccess, LastOk, Shaped;
    var b, ofs := BlockOf(c.cfg, addr), OfsOf(c.cfg, addr);
    ShapedGives(c);
    LastZero(c);
    if b == c.lastTagset {
      if c.last.To? { FastHitIs(c, ofs, cmd); }
    } else {
      SearchFinds(c, b);
      var s := SetOf(c.cfg, b);
      SetInRange(c.cfg, b);
      var i := FindIn(Searched(c.cfg, c.sets[s], TagOf(c.cfg, b)), c.sets[s].blks, TagOf(c.cfg, b));
      if i >= 0 { SlowHitIs(c, b, s, i, ofs, cmd); } else { MissIs(c, b, ofs, cmd, random); }
    }
  }

  lemma ShapedGives(c: Cache)
    requires Shaped(c)
    ensures 0 < c.cfg.nsets && 0 < c.cfg.bsize && 0 < c.cfg.assoc && |c.sets| == c.cfg.nsets
  {
  }

  lemma LastZero(c: Cache)
    requires Inv(c)
    ensures c.last.Null? ==> c.lastTagset == 0
  {
    hide Core;
  }

  // ---- flushes ----

  /** d shows what c does, with core invariant. */
  ghost predicate Unseen(c: Cache, d: Cache)
    requires |c.sets| == c.cfg.nsets && 0 < c.cfg.nsets
  {
    && Core(d) && d.cfg == c.cfg && |d.sets| == c.cfg.nsets && forall x :: View(d, x) == View(c, x)
  }

  lemma InvalidateIs(c: Cache, s: nat, i: nat)
    requires Core(c) && Shaped(c) && s < c.cfg.nsets && i < c.cfg.assoc && c.sets[s].blks[i].valid
    ensures Unseen(c, Invalidate(c, s, i))
    ensures var d := Invalidate(c, s, i);
            && d.sets == c.sets[s := c.sets[s].(blks := c.sets[s].blks[i := c.sets[s].blks[i].(valid := false)])]
            && d.last == c.last && d.lastTagset == c.lastTagset && d.hits == c.hits && d.misses == c.misses
  {
    hide Core, View, BlockNo, Shaped;
    ShapedGives(c);
    GetWays(c, s);
    EvictKeeps(c, s, i);
    EvictViews(c, s, i);
    SameCoreKeeps(Evicted(c, s, i), Invalidate(c, s, i));
  }

  /** Ways of q in set s are invalid, every other block is as it was. */
  ghost predicate Emptied(c: Cache, d: Cache, s: nat, q: seq<nat>)
    requires |c.sets| == c.cfg.nsets && |d.sets| == |c.sets| && s < |c.sets|
  {
    && (forall s' :: 0 <= s' < |c.sets| && s' != s ==> d.sets[s'] == c.sets[s'])
    && |d.sets[s].blks| == |c.sets[s].blks|
    && d.sets[s].order == c.sets[s].order
    && (forall i :: 0 <= i < |c.sets[s].blks| && i in q ==> !d.sets[s].blks[i].valid)
    && (forall i :: 0 <= i < |c.sets[s].blks| && !c.sets[s].blks[i].valid ==> !d.sets[s].blks[i].valid)
  }

  lemma {:induction false} FlushWaysIs(c: Cache, s: nat, q: seq<nat>)
    requires Core(c) && Shaped(c) && s < c.cfg.nsets && forall j :: 0 <= j < |q| ==> q[j] < c.cfg.assoc
    ensures Unseen(c, FlushWays(c, s, q)) && Emptied(c, FlushWays(c, s, q), s, q)
    ensures var d := FlushWays(c, s, q);
            d.last == c.last && d.lastTagset == c.lastTagset && d.hits == c.hits && d.misses == c.misses
    decreases |q|
  {
    hide Core, View, BlockNo, Shaped, Invalidate;
    ShapedGives(c);
    if q != [] {
      GetWays(c, s);
      var d := if c.sets[s].blks[q[0]].valid then Invalidate(c, s, q[0]) else c;
      if c.sets[s].blks[q[0]].valid { InvalidateIs(c, s, q[0]); }
      FlushWaysIs(d, s, q[1..]);
      assert q == [q[0]] + q[1..];
    }
  }

  /** Every block of the first n sets is invalid. */
  ghost predicate EmptyTo(c: Cache, n: nat) {
    n <= |c.sets| && forall s, i :: 0 <= s < n && 0 <= i < |c.sets[s].blks| ==> !c.sets[s].blks[i].valid
  }

  lemma {:induction false} FlushFromIs(c: Cache, s: nat)
    requires Core(c) && Shaped(c) && s <= c.cfg.nsets && EmptyTo(c, s)
    ensures var d := FlushFrom(c, s);
            && Unseen(c, d) && EmptyTo(d, c.cfg.nsets)
            && d.last == c.last && d.lastTagset == c.lastTagset && d.hits == c.hits && d.misses == c.misses
    decreases c.cfg.nsets - s
  {
    hide Core, View, Shaped, FlushWays, Perm;
    ShapedGives(c);
    if s < c.cfg.nsets {
      OrderPerm(c, s);
      OrderBound(c, s);
      var d := FlushWays(c, s, c.sets[s].order);
      FlushWaysIs(c, s, c.sets[s].order);
      EmptySet(c, d, s);
      FlushFromIs(d, s + 1);
    }
  }

  lemma OrderBound(c: Cache, s: nat)
    requires Shaped(c) && s < c.cfg.nsets
    ensures |c.sets| == c.cfg.nsets && |c.sets[s].blks| == c.cfg.assoc
    ensures forall j :: 0 <= j < |c.sets[s].order| ==> c.sets[s].order[j] < c.cfg.assoc
  {
    assert WaysShaped(c.cfg, c.sets[s]);
  }

  lemma EmptySet(c: Cache, d: Cache, s: nat)
    requires |c.sets| == c.cfg.nsets && |d.sets| == |c.sets| && s < |c.sets| && |c.sets[s].blks| == c.cfg.assoc
    requires EmptyTo(c, s) && Emptied(c, d, s, c.sets[s].order) && Perm(c.sets[s].order, c.cfg.assoc)
    ensures EmptyTo(d, s + 1)
  {
  }

  /** cache_flush: nothing seen changes, and afterwards the block store alone holds everything. */
  lemma FlushIsFlat(c: Cache)
    requires Inv(c) && Shaped(c)
    ensures var d := Flush(c); Inv(d) && Unseen(c, d) && EmptyTo(d, c.cfg.nsets) && d.hits == c.hits
    ensures forall b :: Content(Flush(c).store, b, c.cfg.bsize) == View(c, b)
  {
    hide Core, View, Shaped, FlushFrom;
    ShapedGives(c);
    var c0 := c.(lastTagset := 0, last := Null);
    SameCoreKeeps(c, c0);
    ShapedAgain(c, c0);
    FlushFromIs(c0, 0);
    var d := Flush(c);
    forall b ensures Content(d.store, b, c.cfg.bsize) == View(d, b) { EmptyView(d, b); }
  }

  lemma ShapedAgain(c: Cache, d: Cache)
    requires Shaped(c) && d.cfg == c.cfg && d.sets == c.sets && d.last.Null?
    ensures Shaped(d)
  {
    hide WaysShaped;
  }

  lemma EmptyView(c: Cache, b: nat)
    requires Core(c) && |c.sets| == c.cfg.nsets && 0 < c.cfg.nsets && EmptyTo(c, c.cfg.nsets)
    ensures View(c, b) == Content(c.store, b, c.cfg.bsize)
  {
    hide WaysOk, CfgOk, SetOf, TagOf, Content;
    SetInRange(c.cfg, b);
    GetWays(c, SetOf(c.cfg, b));
    NoResident(c.cfg, c.store, SetOf(c.cfg, b), c.sets[SetOf(c.cfg, b)], TagOf(c.cfg, b));
  }

  /** cache_flush_addr: nothing seen changes, and the block is no longer resident. */
  lemma FlushAddrIsFlat(c: Cache, addr: nat)
    requires Inv(c) && Shaped(c)
    ensures var d := FlushAddr(c, addr); var b := BlockOf(c.cfg, addr);
            && Inv(d) && Unseen(c, d) && d.hits == c.hits
            && SetOf(c.cfg, b) < |d.sets| && Resident(d.sets[SetOf(c.cfg, b)], TagOf(c.cfg, b)) < 0
  {
    hide Core, View, Shaped, BlockOf, SetOf, TagOf, FindIn, Searched, Resident, Invalidate, Perm, MoveTo, LastOk;
    ShapedGives(c);
    var b := BlockOf(c.cfg, addr);
    var s, t := SetOf(c.cfg, b), TagOf(c.cfg, b);
    SetInRange(c.cfg, b);
    SearchFinds(c, b);
    var i := FindIn(Searched(c.cfg, c.sets[s], t), c.sets[s].blks, t);
    if i >= 0 {
      var c0 := c.(lastTagset := 0, last := Null);
      SameCoreKeeps(c, c0);
      ShapedAgain(c, c0);
      InvalidateIs(c0, s, i);
      var d := Invalidate(c0, s, i);
      GoneAfter(c0, d, s, i, t);
      OrderPerm(d, s);
      MoveKeepsPerm(d.sets[s].order, c.cfg.assoc, i, Tail);
      ReorderKeeps(d, s, MoveTo(d.sets[s].order, i, Tail));
      NullLast(FlushAddr(c, addr));
    }
  }

  lemma NullLast(c: Cache)
    requires c.last.Null? && c.lastTagset == 0
    ensures LastOk(c)
  {
  }

  lemma GoneAfter(c: Cache, d: Cache, s: nat, i: nat, t: nat)
    requires Core(c) && Core(d) && d.cfg == c.cfg && |c.sets| == c.cfg.nsets && |d.sets| == |c.sets| && s < c.cfg.nsets
    requires i < c.cfg.assoc && |c.sets[s].blks| == c.cfg.assoc && c.sets[s].blks[i].valid && c.sets[s].blks[i].tag == t
    requires d.sets[s] == c.sets[s].(blks := c.sets[s].blks[i := c.sets[s].blks[i].(valid := false)])
    ensures Resident(d.sets[s], t) < 0
  {
    hide BlockOk, Perm, Chained, Resident, CfgOk;
    GetWays(c, s);
    GetWays(d, s);
    NoResident(d.cfg, d.store, s, d.sets[s], t);
  }

  // ---- whole runs ----

  datatype Event = Do(cmd: Command, addr: nat, random: nat) | FlushAll | FlushBlock(addr: nat)

  /** What a run returns: the final cache and the bytes of every read, or the first failure. */
  datatype Trace = Ran(c: Cache, out: seq<seq<Byte>>) | Failed(why: Result)

  function Step(c: Cache, e: Event): Trace
    requires Shaped(c)
  {
    match e
    case Do(cmd, addr, random) =>
      var r := Access(c, cmd, addr, random);
      if r.Done? then Ran(r.c, [r.bytes]) else Failed(r)
    case FlushAll => Ran(Flush(c), [])
    case FlushBlock(addr) => Ran(FlushAddr(c, addr), [])
  }

  ghost function Run(c: Cache, es: seq<Event>): Trace
    decreases |es|
  {
    if es == [] then Ran(c, [])
    else if !Shaped(c) then Failed(NullBlock)
    else
      var t := Step(c, es[0]);
      if t.Failed? then t
      else
        var rest := Run(t.c, es[1..]);
        if rest.Failed? then rest else Ran(rest.c, t.out + rest.out)
  }

  /** Flat memory by blocks. */
  function Flat(m: Store, cfg: Config, e: Event): (Store, seq<seq<Byte>>)
    requires 0 < cfg.bsize && (e.Do? ==> Legal(cfg, e.cmd, e.addr))
  {
    if e.Do? then
      var b, ofs := BlockOf(cfg, e.addr), OfsOf(cfg, e.addr);
      var now := Content(m, b, cfg.bsize);
      (m[b := Stored(now, ofs, e.cmd)], [Fetched(now, ofs, e.cmd)])
    else (m, [])
  }

  ghost predicate AllLegal(cfg: Config, es: seq<Event>)
    requires 0 < cfg.bsize
  {
    forall i :: 0 <= i < |es| && es[i].Do? ==> Legal(cfg, es[i].cmd, es[i].addr)
  }

  /** No access of the run meets the null block pointer. */
  ghost predicate NeverCrashes(c: Cache, es: seq<Event>)
    requires 0 < c.cfg.bsize
    decreases |es|
  {
    es == [] ||
    (Shaped(c) && (es[0].Do? ==> !Crashes(c, es[0].addr))
     && var t := Step(c, es[0]); t.Ran? ==> t.c.cfg.bsize > 0 && NeverCrashes(t.c, es[1..]))
  }

  ghost function RunFlat(m: Store, cfg: Config, es: seq<Event>): (Store, seq<seq<Byte>>)
    requires 0 < cfg.bsize && AllLegal(cfg, es)
    decreases |es|
  {
    if es == [] then (m, [])
    else
      var (m1, out) := Flat(m, cfg, es[0]);
      var rest := RunFlat(m1, cfg, es[1..]);
      (rest.0, out + rest.1)
  }

  ghost predicate Shows(c: Cache, m: Store) {
    |c.sets| == c.cfg.nsets && 0 < c.cfg.nsets && forall b :: View(c, b) == Content(m, b, c.cfg.bsize)
  }

  /** No access goes to block 0. */
  ghost predicate AvoidsZero(cfg: Config, es: seq<Event>)
    requires 0 < cfg.bsize
  {
    forall i :: 0 <= i < |es| && es[i].Do? ==> Legal(cfg, es[i].cmd, es[i].addr) && BlockOf(cfg, es[i].addr) != 0
  }

  lemma StepIsFlat(c: Cache, m: Store, e: Event)
    requires Inv(c) && Shaped(c) && Shows(c, m)
    requires e.Do? ==> Legal(c.cfg, e.cmd, e.addr)
    ensures var t := Step(c, e);
            && (t.Ran? <==> !(e.Do? && Crashes(c, e.addr))) && (t.Failed? ==> t.why == NullBlock)
            && (t.Ran? ==> Inv(t.c) && t.c.cfg == c.cfg && t.out == Flat(m, c.cfg, e).1 && Shows(t.c, Flat(m, c.cfg, e).0))
  {
    hide Core, View, Shaped, Access, Flush, FlushAddr, Stored, Fetched, Content, BlockOf, OfsOf, LastOk, Unseen, Effect, EmptyTo, Crashes;
    match e
    case Do(cmd, addr, random) =>
      AccessIsFlat(c, cmd, addr, random);
      if !Crashes(c, addr) {
        EffectShows(c, Access(c, cmd, addr, random).c, m, BlockOf(c.cfg, addr), OfsOf(c.cfg, addr), cmd);
      }
    case FlushAll =>
      FlushIsFlat(c);
      UnseenShows(c, Flush(c), m);
    case FlushBlock(addr) =>
      FlushAddrIsFlat(c, addr);
      UnseenShows(c, FlushAddr(c, addr), m);
  }

  lemma EffectShows(c: Cache, d: Cache, m: Store, b: nat, ofs: nat, cmd: Command)
    requires Shows(c, m) && Effect(c, d, b, ofs, cmd) && |View(c, b)| == c.cfg.bsize
    ensures ofs + Size(cmd) <= c.cfg.bsize
    ensures d.cfg == c.cfg && Shows(d, m[b := Stored(Content(m, b, c.cfg.bsize), ofs, cmd)])
  {
    hide Core, View, Stored;
  }

  lemma UnseenShows(c: Cache, d: Cache, m: Store)
    requires Shows(c, m) && Unseen(c, d)
    ensures d.cfg == c.cfg && Shows(d, m)
  {
    hide Core, View, Content;
  }

  /** Any run of legal accesses and flushes, under any policy, ends normally unless an access meets the null block
      pointer, and then it stops there; when it ends it has returned the bytes flat memory would give and leaves the
      cache showing flat memory.  No assertion fires. */
  lemma {:induction false} RunsAreFlat(c: Cache, m: Store, es: seq<Event>)
    requires Inv(c) && Shows(c, m) && 0 < c.cfg.bsize && AllLegal(c.cfg, es)
    ensures var t := Run(c, es);
            && (t.Ran? <==> NeverCrashes(c, es)) && (t.Failed? ==> t.why == NullBlock)
            && (t.Ran? ==> Inv(t.c) && t.c.cfg == c.cfg
                           && t.out == RunFlat(m, c.cfg, es).1 && Shows(t.c, RunFlat(m, c.cfg, es).0))
    decreases |es|
  {
    hide Inv, Shaped, Shows, Step, Flat, Legal, BlockOf, Crashes;
    if es != [] {
      InvShaped(c);
      StepIsFlat(c, m, es[0]);
      assert AllLegal(c.cfg, es[1..]);
      if Step(c, es[0]).Ran? { RunsAreFlat(Step(c, es[0]).c, Flat(m, c.cfg, es[0]).0, es[1..]); }
    }
  }

  /** So no run that stays away from block 0 is stopped. */
  lemma {:induction false} AvoidingRuns(c: Cache, m: Store, es: seq<Event>)
    requires Inv(c) && Shows(c, m) && 0 < c.cfg.bsize && AvoidsZero(c.cfg, es)
    ensures Run(c, es).Ran?
    decreases |es|
  {
    hide Inv, Shaped, Shows, Step, Flat, Legal, BlockOf;
    if es != [] {
      InvShaped(c);
      StepIsFlat(c, m, es[0]);
      assert AvoidsZero(c.cfg, es[1..]);
      AvoidingRuns(Step(c, es[0]).c, Flat(m, c.cfg, es[0]).0, es[1..]);
    }
  }

  // ---- power-up ----

  lemma {:induction false} CountDownPerm(n: nat)
    ensures Perm(CountDown(n), n)
  {
    if n > 0 {
      CountDownPerm(n - 1);
      var q := CountDown(n - 1);
      forall j | 0 <= j < |q| ensures q[j] < n - 1 { assert q[j] in q; }
    }
  }

  lemma NewWaysOk(cfg: Config, store: Store, s: nat)
    requires CfgOk(cfg)
    ensures WaysOk(cfg, store, s, NewWays(cfg))
  {
    hide CountDown;
    CountDownPerm(cfg.assoc);
    var w := NewWays(cfg);
    forall b | 0 <= b < cfg.hsize
      ensures Distinct(w.chains[b]) && forall i: nat :: i in w.chains[b] <==> i < |w.blks| && cfg.bucket(w.blks[i].tag) == b
    {
      assert w.chains[b] == if b == cfg.bucket(0) then CountDown(cfg.assoc) else [];
      assert forall i: nat :: i < |w.blks| ==> w.blks[i].tag == 0;
    }
  }

  /** cache_create establishes the invariant, with every block on the chain of tag 0. */
  lemma CreateInv(cfg: Config, store: Store)
    requires CfgOk(cfg)
    ensures Inv(Create(cfg, store)) && Shows(Create(cfg, store), store)
  {
    hide CfgOk, WaysOk, NewWays, View, Content;
    NewWaysOk(cfg, store, 0);
    var c := Create(cfg, store);
    forall s | 0 <= s < cfg.nsets ensures WaysOk(cfg, store, s, c.sets[s]) { NewWaysOk(cfg, store, s); }
    GetCfg(c);
    CreateEmpty(cfg, store);
    forall b ensures View(c, b) == Content(store, b, cfg.bsize) { EmptyView(c, b); }
  }

  lemma CreateEmpty(cfg: Config, store: Store)
    ensures EmptyTo(Create(cfg, store), cfg.nsets)
  {
    hide CountDown;
  }
}
