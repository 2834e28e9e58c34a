/** The cache invariant and what it gives: any search finds the one resident block, the hash chains never
    lose a block, and cache and block store together behave as flat memory. */
module CacheProof {
  import opened Accesses
  import opened Arith
  import opened WayOrder
  import opened CacheState

  /** A search succeeds exactly when the list names a matching block. */
  lemma {:induction false} FindInIs(q: seq<nat>, blks: seq<Block>, tag: nat)
    ensures FindIn(q, blks, tag) >= 0 <==> exists i :: i in q && i < |blks| && blks[i].tag == tag && blks[i].valid
  {
    if q != [] {
      FindInIs(q[1..], blks, tag);
      assert q == [q[0]] + q[1..];
      if i :| i in q && i < |blks| && blks[i].tag == tag && blks[i].valid {
        assert i == q[0] || i in q[1..];
      }
    }
  }

  // ---- the invariant ----

  /** Hash chain b holds exactly the ways whose tag hashes to b, valid or not, each once. */
  ghost predicate Chained(cfg: Config, blks: seq<Block>, chains: seq<seq<nat>>) {
    |chains| == cfg.hsize && forall b :: 0 <= b < cfg.hsize ==>
      Distinct(chains[b]) && forall i: nat :: i in chains[b] <==> i < |blks| && cfg.bucket(blks[i].tag) == b
  }

  ghost predicate UniqueTags(blks: seq<Block>) {
    forall i, j :: 0 <= i < j < |blks| && blks[i].valid && blks[j].valid ==> blks[i].tag != blks[j].tag
  }

  /** A valid block that is not dirty equals the block store. */
  ghost predicate BlockOk(cfg: Config, store: Store, s: nat, b: Block) {
    && |b.data| == cfg.bsize
    && (b.valid && !b.dirty ==> b.data == Content(store, BlockNo(cfg, b.tag, s), cfg.bsize))
  }

  ghost predicate WaysOk(cfg: Config, store: Store, s: nat, w: Ways) {
    && |w.blks| == cfg.assoc && Perm(w.order, cfg.assoc) && Chained(cfg, w.blks, w.chains) && UniqueTags(w.blks)
    && forall i :: 0 <= i < |w.blks| ==> BlockOk(cfg, store, s, w.blks[i])
  }

  ghost predicate LastOk(c: Cache) {
    match c.last
    case Null => c.lastTagset == 0
    case To(s, i) =>
      && s < |c.sets| && i < |c.sets[s].blks| && c.sets[s].blks[i].valid
      && BlockNo(c.cfg, c.sets[s].blks[i].tag, s) == c.lastTagset && s < c.cfg.nsets
  }

  /** The part of the invariant about sets and store. */
  ghost predicate Core(c: Cache) {
    CfgOk(c.cfg) && |c.sets| == c.cfg.nsets && forall s :: 0 <= s < |c.sets| ==> WaysOk(c.cfg, c.store, s, c.sets[s])
  }

  ghost predicate Inv(c: Cache) { Core(c) && LastOk(c) }

  lemma CoreShaped(c: Cache)
    requires Core(c) && (c.last.To? ==> c.last.set_ < c.cfg.nsets && c.last.way < c.cfg.assoc)
    ensures Shaped(c)
  {
    forall s | 0 <= s < |c.sets| ensures WaysShaped(c.cfg, c.sets[s]) {
      var w := c.sets[s];
      assert WaysOk(c.cfg, c.store, s, w);
      forall i | 0 <= i < |w.order| ensures w.order[i] < c.cfg.assoc { assert w.order[i] in w.order; }
      forall i | 0 <= i < |w.blks| ensures |w.blks[i].data| == c.cfg.bsize {
        assert BlockOk(c.cfg, c.store, s, w.blks[i]);
      }
    }
  }

  lemma InvShaped(c: Cache)
    requires Inv(c)
    ensures Shaped(c)
  {
    hide WaysOk;
    if c.last.To? { assert WaysOk(c.cfg, c.store, c.last.set_, c.sets[c.last.set_]); LastBound(c); }
    CoreShaped(c);
  }

  lemma LastBound(c: Cache)
    requires Inv(c) && c.last.To?
    ensures c.last.set_ < c.cfg.nsets && c.last.way < c.cfg.assoc
  {
    hide Perm, Chained, UniqueTags, BlockOk;
    assert WaysOk(c.cfg, c.store, c.last.set_, c.sets[c.last.set_]);
  }

  // ---- block numbers ----

  lemma BlockParts(cfg: Config, tag: nat, s: nat)
    requires s < cfg.nsets
    ensures TagOf(cfg, BlockNo(cfg, tag, s)) == tag && SetOf(cfg, BlockNo(cfg, tag, s)) == s
  {
    DivModUnique(BlockNo(cfg, tag, s), tag, s, cfg.nsets);
  }

  lemma BlockIs(cfg: Config, b: nat)
    requires 0 < cfg.nsets
    ensures BlockNo(cfg, TagOf(cfg, b), SetOf(cfg, b)) == b
  {
  }

  // ---- searches ----

  /** The block of a set that holds a tag, or -1: what the linear search along the way list finds. */
  function Resident(w: Ways, tag: nat): int { FindIn(w.order, w.blks, tag) }

  lemma ResidentIs(cfg: Config, store: Store, s: nat, w: Ways, tag: nat, i: nat)
    requires WaysOk(cfg, store, s, w) && i < cfg.assoc
    ensures w.blks[i].valid && w.blks[i].tag == tag <==> Resident(w, tag) == i
  {
    hide Chained, BlockOk;
    FindInIs(w.order, w.blks, tag);
  }

  /** The hash chain search finds what the linear search would. */
  lemma HashSearchIsLinear(cfg: Config, store: Store, s: nat, w: Ways, tag: nat)
    requires CfgOk(cfg) && WaysOk(cfg, store, s, w)
    ensures FindIn(Searched(cfg, w, tag), w.blks, tag) == Resident(w, tag)
  {
    hide BlockOk;
    FindInIs(w.order, w.blks, tag);
    FindInIs(Searched(cfg, w, tag), w.blks, tag);
  }

  /** The victim is on the chain it is unlinked from. */
  lemma OnItsChain(cfg: Config, store: Store, s: nat, w: Ways, i: nat)
    requires CfgOk(cfg) && WaysOk(cfg, store, s, w) && i < cfg.assoc && cfg.hsize > 0
    ensures cfg.bucket(w.blks[i].tag) < |w.chains| && i in w.chains[cfg.bucket(w.blks[i].tag)]
  {
    hide BlockOk, Perm;
  }

  // ---- what the cache shows ----

  /** The contents of block b: resident data or the block store. */
  function View(c: Cache, b: nat): (d: seq<Byte>)
    requires 0 < c.cfg.nsets && |c.sets| == c.cfg.nsets
  {
    var w := c.sets[SetOf(c.cfg, b)];
    var i := Resident(w, TagOf(c.cfg, b));
    if i >= 0 then w.blks[i].data else Content(c.store, b, c.cfg.bsize)
  }

  // ---- the three primitive changes ----

  /** Write a block back if need be and invalidate it. */
  function Evicted(c: Cache, s: nat, i: nat): Cache
    requires s < |c.sets| && i < |c.sets[s].blks|
  {
    var w := c.sets[s];
    var b := w.blks[i];
    if b.valid then
      c.(sets := c.sets[s := w.(blks := w.blks[i := b.(valid := false)])],
         store := if b.dirty then c.store[BlockNo(c.cfg, b.tag, s) := b.data] else c.store)
    else c
  }

  /** Bring a clean block into an invalid way. */
  function Filled(c: Cache, s: nat, i: nat, tag: nat): Cache
    requires s < |c.sets| && i < |c.sets[s].blks|
  {
    var w := c.sets[s];
    var b := Block(tag, true, false, Content(c.store, BlockNo(c.cfg, tag, s), c.cfg.bsize));
    c.(sets := c.sets[s := w.(blks := w.blks[i := b], chains := Relink(c.cfg, w.chains, i, w.blks[i].tag, tag))])
  }

  /** Overwrite a resident block's data. */
  function Patched(c: Cache, s: nat, i: nat, data: seq<Byte>, dirty: bool): Cache
    requires s < |c.sets| && i < |c.sets[s].blks|
  {
    var w := c.sets[s];
    c.(sets := c.sets[s := w.(blks := w.blks[i := w.blks[i].(data := data, dirty := dirty)])])
  }

  function Reordered(c: Cache, s: nat, order: seq<nat>): Cache
    requires s < |c.sets|
  {
    c.(sets := c.sets[s := c.sets[s].(order := order)])
  }

  lemma StoreOther(cfg: Config, store: Store, t: nat, s: nat, data: seq<Byte>, t': nat, s': nat)
    requires s < cfg.nsets && s' < cfg.nsets && (t != t' || s != s')
    ensures Content(store[BlockNo(cfg, t, s) := data], BlockNo(cfg, t', s'), cfg.bsize) ==
            Content(store, BlockNo(cfg, t', s'), cfg.bsize)
  {
    hide TagOf, SetOf, BlockNo;
    BlockParts(cfg, t, s);
    BlockParts(cfg, t', s');
  }

  lemma GetWays(c: Cache, s: nat)
    requires Core(c) && s < c.cfg.nsets
    ensures WaysOk(c.cfg, c.store, s, c.sets[s]) && |c.sets[s].blks| == c.cfg.assoc && CfgOk(c.cfg)
  {
  }

  /** Another set does not notice a write-back from set s. */
  lemma OtherWays(cfg: Config, store: Store, t: nat, s: nat, data: seq<Byte>, s': nat, w: Ways)
    requires WaysOk(cfg, store, s', w) && s < cfg.nsets && s' < cfg.nsets && s != s'
    ensures WaysOk(cfg, store[BlockNo(cfg, t, s) := data], s', w)
  {
    hide Perm, Chained, UniqueTags, Content, BlockNo;
    forall i | 0 <= i < |w.blks| ensures BlockOk(cfg, store[BlockNo(cfg, t, s) := data], s', w.blks[i]) {
      assert BlockOk(cfg, store, s', w.blks[i]);
      StoreOther(cfg, store, t, s, data, w.blks[i].tag, s');
    }
  }

  lemma EvictedWays(c: Cache, s: nat, i: nat)
    requires Core(c) && s < c.cfg.nsets && i < c.cfg.assoc && |c.sets[s].blks| == c.cfg.assoc
    ensures WaysOk(c.cfg, Evicted(c, s, i).store, s, Evicted(c, s, i).sets[s])
  {
    hide Perm, Content, BlockNo;
    GetWays(c, s);
    var w := c.sets[s];
    var d := Evicted(c, s, i);
    forall j | 0 <= j < |w.blks| ensures BlockOk(c.cfg, d.store, s, d.sets[s].blks[j]) {
      assert BlockOk(c.cfg, c.store, s, w.blks[j]);
      if w.blks[i].valid && w.blks[i].dirty && w.blks[j].valid && j != i {
        assert w.blks[i].tag != w.blks[j].tag;
        StoreOther(c.cfg, c.store, w.blks[i].tag, s, w.blks[i].data, w.blks[j].tag, s);
      }
    }
  }

  lemma EvictKeeps(c: Cache, s: nat, i: nat)
    requires Core(c) && s < c.cfg.nsets && i < c.cfg.assoc && |c.sets[s].blks| == c.cfg.assoc
    ensures Core(Evicted(c, s, i))
  {
    hide WaysOk, CfgOk;
    var d := Evicted(c, s, i);
    EvictedWays(c, s, i);
    forall s' | 0 <= s' < |d.sets| ensures WaysOk(c.cfg, d.store, s', d.sets[s']) {
      if s' != s {
        GetWays(c, s');
        OtherWays(c.cfg, c.store, c.sets[s].blks[i].tag, s, c.sets[s].blks[i].data, s', c.sets[s']);
      }
    }
  }

  lemma EvictView(c: Cache, s: nat, i: nat, b: nat)
    requires Core(c) && s < c.cfg.nsets && i < c.cfg.assoc && |c.sets[s].blks| == c.cfg.assoc
    ensures View(Evicted(c, s, i), b) == View(c, b)
  {
    hide Content, BlockNo, TagOf, SetOf, WaysOk, CfgOk, Resident;
    var d := Evicted(c, s, i);
    var t, s' := TagOf(c.cfg, b), SetOf(c.cfg, b);
    EvictKeeps(c, s, i);
    GetWays(c, s);
    GetWays(d, s');
    GetWays(c, s');
    var v := c.sets[s].blks[i];
    if v.valid && v.tag == t && s' == s {
      BlockIs(c.cfg, b);
      VictimSeen(c, s, i, t);
    } else {
      OthersSeen(c, s, i, t, s');
      BlockIs(c.cfg, b);
      if v.valid && v.dirty { StoreOther(c.cfg, c.store, v.tag, s, v.data, t, s'); }
    }
  }

  lemma VictimSeen(c: Cache, s: nat, i: nat, t: nat)
    requires Core(c) && s < c.cfg.nsets && i < c.cfg.assoc && |c.sets[s].blks| == c.cfg.assoc && Core(Evicted(c, s, i))
    requires c.sets[s].blks[i].valid && c.sets[s].blks[i].tag == t
    ensures Resident(c.sets[s], t) == i && Resident(Evicted(c, s, i).sets[s], t) < 0
    ensures Content(Evicted(c, s, i).store, BlockNo(c.cfg, t, s), c.cfg.bsize) == c.sets[s].blks[i].data
  {
    hide BlockNo, Perm, Chained, FindIn, Resident;
    var d := Evicted(c, s, i);
    GetWays(c, s);
    GetWays(d, s);
    ResidentIs(c.cfg, c.store, s, c.sets[s], t, i);
    assert BlockOk(c.cfg, c.store, s, c.sets[s].blks[i]);
    NoResident(d.cfg, d.store, s, d.sets[s], t);
  }

  /** No valid block with a tag, no resident. */
  lemma NoResident(cfg: Config, store: Store, s: nat, w: Ways, t: nat)
    requires WaysOk(cfg, store, s, w)
    ensures Resident(w, t) < 0 <==> forall i :: 0 <= i < |w.blks| ==> !(w.blks[i].valid && w.blks[i].tag == t)
    ensures -1 <= Resident(w, t) < |w.blks|
  {
    hide Chained, BlockOk, UniqueTags;
    FindInIs(w.order, w.blks, t);
  }

  /** A change of one way that is not the resident of t leaves the resident of t as it was. */
  lemma SameResident(cfg: Config, store: Store, s: nat, w: Ways, store': Store, w': Ways, i: nat, t: nat)
    requires WaysOk(cfg, store, s, w) && WaysOk(cfg, store', s, w') && i < cfg.assoc
    requires forall j :: 0 <= j < cfg.assoc && j != i ==> w'.blks[j] == w.blks[j]
    requires !(w.blks[i].valid && w.blks[i].tag == t) && !(w'.blks[i].valid && w'.blks[i].tag == t)
    ensures Resident(w', t) == Resident(w, t)
    ensures Resident(w, t) >= 0 ==> Resident(w, t) < cfg.assoc && w'.blks[Resident(w, t)] == w.blks[Resident(w, t)]
  {
    hide Chained, BlockOk, Perm, UniqueTags, FindIn, Resident;
    NoResident(cfg, store, s, w, t);
    NoResident(cfg, store', s, w', t);
    var r := Resident(w, t);
    if r >= 0 {
      ResidentIs(cfg, store, s, w, t, r);
      ResidentIs(cfg, store', s, w', t, r);
    } else {
      forall j | 0 <= j < |w'.blks| ensures !(w'.blks[j].valid && w'.blks[j].tag == t) {
        assert j != i ==> w'.blks[j] == w.blks[j];
      }
    }
  }

  lemma OthersSeen(c: Cache, s: nat, i: nat, t: nat, s': nat)
    requires Core(c) && s < c.cfg.nsets && s' < c.cfg.nsets && i < c.cfg.assoc && |c.sets[s].blks| == c.cfg.assoc
    requires Core(Evicted(c, s, i)) && !(c.sets[s].blks[i].valid && c.sets[s].blks[i].tag == t && s' == s)
    ensures var d := Evicted(c, s, i); var r := Resident(c.sets[s'], t);
            && Resident(d.sets[s'], t) == r
            && (r >= 0 ==> r < c.cfg.assoc && |d.sets[s'].blks| == c.cfg.assoc && |c.sets[s'].blks| == c.cfg.assoc
                           && d.sets[s'].blks[r] == c.sets[s'].blks[r])
  {
    hide WaysOk, CfgOk, Resident;
    var d := Evicted(c, s, i);
    GetWays(c, s');
    GetWays(d, s');
    if s' == s {
      SameResident(c.cfg, c.store, s, c.sets[s], d.store, d.sets[s], i, t);
    } else {
      NoResident(c.cfg, c.store, s', c.sets[s'], t);
    }
  }

  // ---- filling ----

  lemma RelinkKeeps(cfg: Config, blks: seq<Block>, chains: seq<seq<nat>>, i: nat, b: Block)
    requires CfgOk(cfg) && Chained(cfg, blks, chains) && i < |blks|
    ensures Chained(cfg, blks[i := b], Relink(cfg, chains, i, blks[i].tag, b.tag))
  {
    if cfg.hsize > 0 {
      var from, to := cfg.bucket(blks[i].tag), cfg.bucket(b.tag);
      RemoveIs(chains[from], i);
      var r := Relink(cfg, chains, i, blks[i].tag, b.tag);
      forall x | 0 <= x < cfg.hsize
        ensures Distinct(r[x]) && forall j: nat :: j in r[x] <==> j < |blks| && cfg.bucket(blks[i := b][j].tag) == x
      {
        RelinkChain(cfg, blks, chains, i, b, x);
      }
    }
  }

  lemma RelinkChain(cfg: Config, blks: seq<Block>, chains: seq<seq<nat>>, i: nat, b: Block, x: nat)
    requires CfgOk(cfg) && Chained(cfg, blks, chains) && i < |blks| && 0 < cfg.hsize && x < cfg.hsize
    ensures |Relink(cfg, chains, i, blks[i].tag, b.tag)| == cfg.hsize
    ensures var r := Relink(cfg, chains, i, blks[i].tag, b.tag)[x];
            Distinct(r) && forall j: nat :: j in r <==> j < |blks| && cfg.bucket(blks[i := b][j].tag) == x
  {
    hide Remove;
    var from, to := cfg.bucket(blks[i].tag), cfg.bucket(b.tag);
    RemoveIs(chains[from], i);
    var mid := chains[from := Remove(chains[from], i)];
    assert i !in mid[x];
    if x == to { PushDistinct(mid[x], i); }
  }

  lemma FilledWays(c: Cache, s: nat, i: nat, tag: nat)
    requires Core(c) && s < c.cfg.nsets && i < c.cfg.assoc && |c.sets[s].blks| == c.cfg.assoc
    requires !c.sets[s].blks[i].valid && Resident(c.sets[s], tag) < 0
    ensures WaysOk(c.cfg, c.store, s, Filled(c, s, i, tag).sets[s])
  {
    hide Perm, Chained, Content, BlockNo, Relink, Resident;
    GetWays(c, s);
    var w := c.sets[s];
    var b := Block(tag, true, false, Content(c.store, BlockNo(c.cfg, tag, s), c.cfg.bsize));
    RelinkKeeps(c.cfg, w.blks, w.chains, i, b);
    NoResident(c.cfg, c.store, s, w, tag);
    var after := w.blks[i := b];
    forall j | 0 <= j < |after| ensures BlockOk(c.cfg, c.store, s, after[j]) {
      assert BlockOk(c.cfg, c.store, s, w.blks[j]);
    }
  }

  lemma OneSet(c: Cache, d: Cache, s: nat)
    requires Core(c) && d.cfg == c.cfg && d.store == c.store && s < c.cfg.nsets && |d.sets| == c.cfg.nsets
    requires d.sets == c.sets[s := d.sets[s]] && WaysOk(c.cfg, c.store, s, d.sets[s])
    ensures Core(d)
  {
    hide WaysOk, CfgOk;
  }

  lemma FillKeeps(c: Cache, s: nat, i: nat, tag: nat)
    requires Core(c) && s < c.cfg.nsets && i < c.cfg.assoc && |c.sets[s].blks| == c.cfg.assoc
    requires !c.sets[s].blks[i].valid && Resident(c.sets[s], tag) < 0
    ensures Core(Filled(c, s, i, tag))
    ensures Resident(Filled(c, s, i, tag).sets[s], tag) == i
    ensures forall b :: View(Filled(c, s, i, tag), b) == View(c, b)
  {
    hide WaysOk, CfgOk, Resident, View, Core;
    assert |c.sets| == c.cfg.nsets && 0 < c.cfg.nsets by { GetCfg(c); }
    var d := Filled(c, s, i, tag);
    FilledWays(c, s, i, tag);
    OneSet(c, d, s);
    ResidentIs(d.cfg, d.store, s, d.sets[s], tag, i);
    forall b ensures View(d, b) == View(c, b) {
      FillView(c, s, i, tag, b);
    }
  }

  lemma GetCfg(c: Cache)
    requires Core(c)
    ensures |c.sets| == c.cfg.nsets && 0 < c.cfg.nsets && 0 < c.cfg.bsize && 0 < c.cfg.assoc
  {
    hide WaysOk;
  }

  lemma FillView(c: Cache, s: nat, i: nat, tag: nat, b: nat)
    requires Core(c) && s < c.cfg.nsets && i < c.cfg.assoc && |c.sets[s].blks| == c.cfg.assoc
    requires !c.sets[s].blks[i].valid && Resident(c.sets[s], tag) < 0 && Core(Filled(c, s, i, tag))
    ensures View(Filled(c, s, i, tag), b) == View(c, b)
  {
    hide WaysOk, CfgOk, Resident, Content, BlockNo, TagOf, SetOf, Relink;
    var d := Filled(c, s, i, tag);
    var t, s' := TagOf(c.cfg, b), SetOf(c.cfg, b);
    BlockIs(c.cfg, b);
    GetWays(c, s');
    GetWays(d, s');
    if s' == s {
      if t == tag {
        ResidentIs(d.cfg, d.store, s, d.sets[s], tag, i);
      } else {
        SameResident(c.cfg, c.store, s, c.sets[s], d.store, d.sets[s], i, t);
      }
    }
  }

  // ---- overwriting and reordering ----

  lemma PatchKeeps(c: Cache, s: nat, i: nat, data: seq<Byte>, dirty: bool)
    requires Core(c) && s < c.cfg.nsets && i < c.cfg.assoc && |c.sets[s].blks| == c.cfg.assoc
    requires c.sets[s].blks[i].valid && |data| == c.cfg.bsize
    requires dirty || (data == c.sets[s].blks[i].data && !c.sets[s].blks[i].dirty)
    ensures Core(Patched(c, s, i, data, dirty))
  {
    hide Perm, Content, BlockNo, Core;
    GetWays(c, s);
    GetCfg(c);
    var w := c.sets[s];
    var d := Patched(c, s, i, data, dirty);
    forall j | 0 <= j < |w.blks| ensures BlockOk(c.cfg, c.store, s, d.sets[s].blks[j]) {
      assert BlockOk(c.cfg, c.store, s, w.blks[j]);
    }
    assert Chained(c.cfg, d.sets[s].blks, w.chains);
    OneSet(c, d, s);
  }

  lemma PatchView(c: Cache, s: nat, i: nat, data: seq<Byte>, dirty: bool, b: nat)
    requires Core(c) && s < c.cfg.nsets && i < c.cfg.assoc && |c.sets[s].blks| == c.cfg.assoc
    requires c.sets[s].blks[i].valid && Core(Patched(c, s, i, data, dirty))
    ensures View(Patched(c, s, i, data, dirty), b) ==
            if b == BlockNo(c.cfg, c.sets[s].blks[i].tag, s) then data else View(c, b)
  {
    hide WaysOk, CfgOk, Resident, Content, BlockNo, TagOf, SetOf;
    var d := Patched(c, s, i, data, dirty);
    var t, s' := TagOf(c.cfg, b), SetOf(c.cfg, b);
    BlockIs(c.cfg, b);
    BlockParts(c.cfg, c.sets[s].blks[i].tag, s);
    GetWays(c, s');
    GetWays(d, s');
    if s' == s {
      if t == c.sets[s].blks[i].tag {
        ResidentIs(d.cfg, d.store, s, d.sets[s], t, i);
      } else {
        SameResident(c.cfg, c.store, s, c.sets[s], d.store, d.sets[s], i, t);
      }
    }
  }

  /** The block the view shows is the resident one. */
  lemma ResidentSeen(c: Cache, s: nat, i: nat)
    requires Core(c) && s < c.cfg.nsets && i < c.cfg.assoc && |c.sets[s].blks| == c.cfg.assoc && c.sets[s].blks[i].valid
    ensures View(c, BlockNo(c.cfg, c.sets[s].blks[i].tag, s)) == c.sets[s].blks[i].data
  {
    hide WaysOk, CfgOk, Resident, Content, BlockNo, TagOf, SetOf;
    BlockParts(c.cfg, c.sets[s].blks[i].tag, s);
    GetWays(c, s);
    ResidentIs(c.cfg, c.store, s, c.sets[s], c.sets[s].blks[i].tag, i);
  }

  lemma ReorderKeeps(c: Cache, s: nat, order: seq<nat>)
    requires Core(c) && s < c.cfg.nsets && Perm(order, c.cfg.assoc)
    ensures Core(Reordered(c, s, order))
    ensures forall t :: Resident(Reordered(c, s, order).sets[s], t) == Resident(c.sets[s], t)
    ensures forall b :: View(Reordered(c, s, order), b) == View(c, b)
  {
    hide Core, CfgOk, Chained, BlockOk, Perm, Content, TagOf, SetOf, Resident;
    GetWays(c, s);
    GetCfg(c);
    var d := Reordered(c, s, order);
    OneSet(c, d, s);
    forall t ensures Resident(d.sets[s], t) == Resident(c.sets[s], t) {
      ReorderResident(c.cfg, c.store, s, c.sets[s], order, t);
    }
  }

  lemma ReorderResident(cfg: Config, store: Store, s: nat, w: Ways, order: seq<nat>, t: nat)
    requires WaysOk(cfg, store, s, w) && Perm(order, cfg.assoc)
    ensures Resident(w.(order := order), t) == Resident(w, t)
  {
    hide Chained, BlockOk;
    FindInIs(w.order, w.blks, t);
    FindInIs(order, w.blks, t);
  }
}
