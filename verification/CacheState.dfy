/** The general cache of cache.c over a block store: way lists and hash chains as lists of way numbers, and
    one function per routine.  Blocks are numbered by address: block b holds bytes b * bsize and up. */
module CacheState {
  import opened Accesses
  import opened WayOrder

  datatype Policy = LRU | Random | FIFO

  /** hsize is 0 for caches without hash tables; bucket is CACHE_HASH. */
  datatype Config = Config(nsets: nat, bsize: nat, assoc: nat, hsize: nat, policy: Policy, bucket: nat -> nat)

  /** The parameters cache_create accepts; it derives hsize. */
  ghost predicate CfgOk(cfg: Config) {
    && 0 < cfg.nsets && 0 < cfg.bsize && 0 < cfg.assoc
    && cfg.hsize == (if cfg.assoc > 4 then cfg.assoc / 4 else 0)
    && (cfg.hsize > 0 ==> forall t :: cfg.bucket(t) < cfg.hsize)
  }

  datatype Block = Block(tag: nat, valid: bool, dirty: bool, data: seq<Byte>)

  /** order is the way list from head to tail; chains are the hash bucket chains from their heads. */
  datatype Ways = Ways(blks: seq<Block>, order: seq<nat>, chains: seq<seq<nat>>)

  /** A pointer to a block: last_blk. */
  datatype Ptr = Null | To(set_: nat, way: nat)

  type Store = map<nat, seq<Byte>>

  datatype Cache = Cache(cfg: Config, sets: seq<Ways>, store: Store, lastTagset: nat, last: Ptr,
                         hits: nat, misses: nat, replacements: nat, writebacks: nat, invalidations: nat)

  /** What the block store holds for block b. */
  function Content(m: Store, b: nat, bsize: nat): (d: seq<Byte>)
    ensures |d| == bsize
  {
    if b in m && |m[b]| == bsize then m[b] else Zeros(bsize)
  }

  /** Block number and offset of an address; set and tag of a block number. */
  function BlockOf(cfg: Config, addr: nat): nat
    requires 0 < cfg.bsize
  {
    addr / cfg.bsize
  }
  function OfsOf(cfg: Config, addr: nat): (ofs: nat)
    requires 0 < cfg.bsize
    ensures ofs < cfg.bsize
  {
    addr % cfg.bsize
  }
  function SetOf(cfg: Config, b: nat): (s: nat)
    requires 0 < cfg.nsets
    ensures s < cfg.nsets
  {
    b % cfg.nsets
  }
  function TagOf(cfg: Config, b: nat): nat
    requires 0 < cfg.nsets
  {
    b / cfg.nsets
  }

  /** CACHE_MK_BADDR */
  function BlockNo(cfg: Config, tag: nat, set_: nat): nat { tag * cfg.nsets + set_ }

  /** CACHE_BCOPY on the block and on the caller's buffer. */
  function Stored(data: seq<Byte>, ofs: nat, cmd: Command): (d: seq<Byte>)
    requires ofs + Size(cmd) <= |data|
    ensures |d| == |data|
  {
    if cmd.Write? then data[..ofs] + cmd.bytes + data[ofs + |cmd.bytes|..] else data
  }
  function Fetched(data: seq<Byte>, ofs: nat, cmd: Command): seq<Byte>
    requires ofs + Size(cmd) <= |data|
  {
    if cmd.Read? then data[ofs..ofs + cmd.n] else []
  }

  // ---- lists ----

  /** The first match of a search along a list of ways, or -1. */
  function FindIn(q: seq<nat>, blks: seq<Block>, tag: nat): (i: int)
    ensures i < 0 || (i < |blks| && i in q && blks[i].tag == tag && blks[i].valid)
    ensures i >= -1
  {
    if q == [] then -1
    else if q[0] < |blks| && blks[q[0]].tag == tag && blks[q[0]].valid then q[0]
    else FindIn(q[1..], blks, tag)
  }

  // ---- one access ----

  datatype Result = Done(c: Cache, bytes: seq<Byte>) | BadAlignment | SpansBlock | NullBlock | NotOnChain

  /** The list the search for a tag walks. */
  function Searched(cfg: Config, w: Ways, tag: nat): seq<nat> {
    if cfg.hsize > 0 && cfg.bucket(tag) < |w.chains| then w.chains[cfg.bucket(tag)]
    else if cfg.hsize > 0 then [] else w.order
  }

  predicate Shaped(c: Cache) {
    && 0 < c.cfg.nsets && 0 < c.cfg.bsize && 0 < c.cfg.assoc && |c.sets| == c.cfg.nsets
    && (forall s :: 0 <= s < |c.sets| ==> WaysShaped(c.cfg, c.sets[s]))
    && (c.last.To? ==> c.last.set_ < c.cfg.nsets && c.last.way < c.cfg.assoc)
  }

  predicate WaysShaped(cfg: Config, w: Ways) {
    && |w.blks| == cfg.assoc && |w.chains| == cfg.hsize && 0 < |w.order|
    && (forall i :: 0 <= i < |w.order| ==> w.order[i] < cfg.assoc)
    && (forall i :: 0 <= i < |w.blks| ==> |w.blks[i].data| == cfg.bsize)
  }

  /** The copy, dirty bit and hit counter of a hit, fast or slow. */
  function TouchBlock(c: Cache, s: nat, i: nat, ofs: nat, cmd: Command): (r: Cache)
    requires Shaped(c) && s < c.cfg.nsets && i < c.cfg.assoc && ofs + Size(cmd) <= c.cfg.bsize
    ensures Shaped(r) && r.cfg == c.cfg
  {
    var w := c.sets[s];
    var b := w.blks[i];
    var b' := b.(data := Stored(b.data, ofs, cmd), dirty := b.dirty || cmd.Write?);
    c.(sets := c.sets[s := w.(blks := w.blks[i := b'])], hits := c.hits + 1)
  }

  /** Reorder on a slow hit. */
  function Promote(cfg: Config, w: Ways, i: nat): Ways {
    if cfg.policy == LRU && w.order != [] && w.order[0] != i then w.(order := MoveTo(w.order, i, Head)) else w
  }

  /** The block to replace, with the way list updated. */
  function Victim(cfg: Config, w: Ways, random: nat): (r: (Ways, nat))
    requires WaysShaped(cfg, w) && 0 < cfg.assoc
    ensures r.1 < cfg.assoc
  {
    if cfg.policy == Random then (w, random % cfg.assoc)
    else
      var i := w.order[|w.order| - 1];
      (w.(order := MoveTo(w.order, i, Head)), i)
  }

  /** The write-back of a replaced or invalidated block. */
  function WrittenBack(c: Cache, s: nat, b: Block): Cache {
    if b.dirty then c.(store := c.store[BlockNo(c.cfg, b.tag, s) := b.data], writebacks := c.writebacks + 1) else c
  }

  /** The block brought in on a miss. */
  function Loaded(c: Cache, s: nat, tag: nat, ofs: nat, cmd: Command): Block
    requires ofs + Size(cmd) <= c.cfg.bsize
  {
    Block(tag, true, cmd.Write?, Stored(Content(c.store, BlockNo(c.cfg, tag, s), c.cfg.bsize), ofs, cmd))
  }

  /** The miss handler. */
  function Miss(c: Cache, s: nat, tag: nat, ofs: nat, cmd: Command, random: nat): Result
    requires Shaped(c) && s < c.cfg.nsets && ofs + Size(cmd) <= c.cfg.bsize
  {
    var v := Victim(c.cfg, c.sets[s], random);
    var (w, i) := v;
    var old_ := w.blks[i];
    var from := c.cfg.bucket(old_.tag);
    if c.cfg.hsize > 0 && (from >= |w.chains| || i !in w.chains[from]) then NotOnChain
    else
      var c1 := c.(misses := c.misses + 1, lastTagset := 0, last := Null);
      var c2 := if old_.valid then WrittenBack(c1.(replacements := c1.replacements + 1), s, old_) else c1;
      var b := Loaded(c2, s, tag, ofs, cmd);
      var w1 := w.(blks := w.blks[i := b], chains := Relink(c.cfg, w.chains, i, old_.tag, tag));
      Done(c2.(sets := c2.sets[s := w1]),
           Fetched(Content(c2.store, BlockNo(c.cfg, tag, s), c.cfg.bsize), ofs, cmd))
  }

  /** unlink_htab_ent under the old tag, then link_htab_ent under the new one. */
  function Relink(cfg: Config, chains: seq<seq<nat>>, i: nat, from: nat, to: nat): seq<seq<nat>> {
    if cfg.hsize == 0 || cfg.bucket(from) >= |chains| || cfg.bucket(to) >= |chains| then chains
    else
      var chains1 := chains[cfg.bucket(from) := Remove(chains[cfg.bucket(from)], i)];
      chains1[cfg.bucket(to) := [i] + chains1[cfg.bucket(to)]]
  }

  /** The slow hit handler. */
  function SlowHit(c: Cache, s: nat, i: nat, blockNo: nat, ofs: nat, cmd: Command): Cache
    requires Shaped(c) && s < c.cfg.nsets && i < c.cfg.assoc && ofs + Size(cmd) <= c.cfg.bsize
  {
    var d := TouchBlock(c, s, i, ofs, cmd);
    d.(sets := d.sets[s := Promote(c.cfg, d.sets[s], i)], lastTagset := blockNo, last := To(s, i))
  }

  /** cache_access; random is what myrand would give. */
  function Access(c: Cache, cmd: Command, addr: nat, random: nat): Result
    requires Shaped(c)
  {
    hide TouchBlock, SlowHit, Miss, FindIn, Searched, AlignedAccess, BlockOf, OfsOf, SetOf, TagOf, Fetched;
    var b, ofs := BlockOf(c.cfg, addr), OfsOf(c.cfg, addr);
    var tag, s := TagOf(c.cfg, b), SetOf(c.cfg, b);
    if !AlignedAccess(addr, Size(cmd)) then BadAlignment
    else if ofs + Size(cmd) > c.cfg.bsize then SpansBlock
    else if b == c.lastTagset then
      if c.last.Null? then NullBlock
      else
        Done(TouchBlock(c, c.last.set_, c.last.way, ofs, cmd),
             Fetched(c.sets[c.last.set_].blks[c.last.way].data, ofs, cmd))
    else
      var i := FindIn(Searched(c.cfg, c.sets[s], tag), c.sets[s].blks, tag);
      if i >= 0 then Done(SlowHit(c, s, i, b, ofs, cmd), Fetched(c.sets[s].blks[i].data, ofs, cmd))
      else Miss(c, s, tag, ofs, cmd, random)
  }

  /** cache_probe */
  function Probe(c: Cache, addr: nat): bool
    requires Shaped(c)
  {
    hide FindIn, Searched, BlockOf, SetOf, TagOf;
    var b := BlockOf(c.cfg, addr);
    var w := c.sets[SetOf(c.cfg, b)];
    FindIn(Searched(c.cfg, w, TagOf(c.cfg, b)), w.blks, TagOf(c.cfg, b)) >= 0
  }

  // ---- flushes ----

  /** Invalidate one valid block. */
  function Invalidate(c: Cache, s: nat, i: nat): (r: Cache)
    requires Shaped(c) && s < c.cfg.nsets && i < c.cfg.assoc
    ensures Shaped(r) && r.cfg == c.cfg && |r.sets| == |c.sets|
  {
    var w := c.sets[s];
    var b := w.blks[i];
    WrittenBack(c.(sets := c.sets[s := w.(blks := w.blks[i := b.(valid := false)])],
                   invalidations := c.invalidations + 1), s, b)
  }

  /** The inner loop of cache_flush along the rest of a way list. */
  function FlushWays(c: Cache, s: nat, q: seq<nat>): (r: Cache)
    requires Shaped(c) && s < c.cfg.nsets && forall j :: 0 <= j < |q| ==> q[j] < c.cfg.assoc
    ensures Shaped(r) && r.cfg == c.cfg && |r.sets| == |c.sets|
    decreases |q|
  {
    if q == [] then c
    else FlushWays(if c.sets[s].blks[q[0]].valid then Invalidate(c, s, q[0]) else c, s, q[1..])
  }

  /** The outer loop from set s on. */
  function FlushFrom(c: Cache, s: nat): (r: Cache)
    requires Shaped(c) && s <= c.cfg.nsets
    ensures Shaped(r) && r.cfg == c.cfg
    decreases c.cfg.nsets - s
  {
    if s == c.cfg.nsets then c else FlushFrom(FlushWays(c, s, c.sets[s].order), s + 1)
  }

  /** cache_flush */
  function Flush(c: Cache): (r: Cache)
    requires Shaped(c)
    ensures Shaped(r) && r.cfg == c.cfg
  {
    FlushFrom(c.(lastTagset := 0, last := Null), 0)
  }

  /** cache_flush_addr */
  function FlushAddr(c: Cache, addr: nat): Cache
    requires Shaped(c)
  {
    hide FindIn, Searched, BlockOf, SetOf, TagOf, Invalidate;
    var b := BlockOf(c.cfg, addr);
    var tag, s := TagOf(c.cfg, b), SetOf(c.cfg, b);
    var i := FindIn(Searched(c.cfg, c.sets[s], tag), c.sets[s].blks, tag);
    if i < 0 then c
    else
      var d := Invalidate(c.(lastTagset := 0, last := Null), s, i);
      d.(sets := d.sets[s := d.sets[s].(order := MoveTo(d.sets[s].order, i, Tail))])
  }

  // ---- creation ----

  function NewWays(cfg: Config): Ways {
    Ways(seq(cfg.assoc, _ => Block(0, false, false, Zeros(cfg.bsize))), CountDown(cfg.assoc),
         seq(cfg.hsize, b => if b == cfg.bucket(0) then CountDown(cfg.assoc) else []))
  }

  function NewSets(cfg: Config): (r: seq<Ways>)
    ensures |r| == cfg.nsets
    ensures forall s {:trigger r[s]} :: 0 <= s < cfg.nsets ==> r[s] == NewWays(cfg)
  {
    seq(cfg.nsets, _ => NewWays(cfg))
  }

  /** cache_create */
  function Create(cfg: Config, store: Store): Cache {
    Cache(cfg, NewSets(cfg), store, 0, Null, 0, 0, 0, 0, 0)
  }
}
