/** The general cache as cache.c keeps it: linked way lists and hash chains per set, blocks updated in place. */
module CacheCore {
  import opened Accesses
  import opened WayOrder
  import opened WayLists
  import opened CacheState
  import opened CacheProof
  import opened CacheTheorems
  import opened CacheLinks

  datatype Status = Fine | Refused(why: Result)

  class CacheUnit {
    const cfg: Config
    const ways: seq<WayList>
    const tables: seq<HashTable>
    const blocks: array<seq<Block>>
    var store: Store
    var lastTagset: nat
    var last: Ptr
    var hits: nat
    var misses: nat
    var replacements: nat
    var writebacks: nat
    var invalidations: nat

    /** The lists are well linked and no two sets share one. */
    ghost predicate Sound()
      reads this, blocks, ways, tables
    {
      && |ways| == cfg.nsets && |tables| == cfg.nsets && blocks.Length == cfg.nsets
      && (forall i :: 0 <= i < cfg.nsets ==> ways[i].Valid() && |ways[i].next| == cfg.assoc)
      && (forall i :: 0 <= i < cfg.nsets ==> tables[i].Valid() && |tables[i].next| == cfg.assoc)
      && (forall i, j :: 0 <= i < j < cfg.nsets ==> ways[i] != ways[j] && tables[i] != tables[j])
    }

    ghost function SetAt(s: nat): Ways
      requires |ways| == cfg.nsets && |tables| == cfg.nsets && blocks.Length == cfg.nsets && s < cfg.nsets
      reads blocks, ways, tables
    {
      Ways(blocks[s], ways[s].order, tables[s].chains)
    }

    ghost function Sets(): (r: seq<Ways>)
      requires |ways| == cfg.nsets && |tables| == cfg.nsets && blocks.Length == cfg.nsets
      reads blocks, ways, tables
      ensures |r| == cfg.nsets && forall s :: 0 <= s < cfg.nsets ==> r[s] == SetAt(s)
    {
      seq(cfg.nsets, s requires 0 <= s < cfg.nsets reads blocks, ways, tables => SetAt(s))
    }

    ghost function Snap(): Cache
      requires Sound()
      reads this, blocks, ways, tables
    {
      Cache(cfg, Sets(), store, lastTagset, last, hits, misses, replacements, writebacks, invalidations)
    }

    ghost predicate Valid()
      reads this, blocks, ways, tables
    {
      Sound() && Inv(Snap())
    }

    /** cache_create */
    constructor (cfg0: Config, store0: Store)
      requires CfgOk(cfg0)
      ensures cfg == cfg0 && Valid() && Snap() == Create(cfg0, store0)
      ensures fresh(ways) && fresh(tables) && fresh(blocks)
    {
      cfg, store := cfg0, store0;
      lastTagset, last := 0, Null;
      hits, misses, replacements, writebacks, invalidations := 0, 0, 0, 0, 0;
      var ws, ts := NewLists(cfg0);
      var bs := NewBlocks(cfg0);
      ways, tables, blocks := ws, ts, bs;
      new;
      hide Inv, CfgOk, NewWays, WayList.Valid, HashTable.Valid, NewSets, Shows;
      CreateInv(cfg, store);
      assert Sets() == NewSets(cfg) by { SameWays(Sets(), cfg); }
    }

    /** The search of cache_access, cache_probe and cache_flush_addr: the hash chain if there is one, else the
        way list. */
    method FindBlock(s: nat, tag: nat) returns (i: int)
      requires Sound() && s < cfg.nsets && |blocks[s]| == cfg.assoc
      requires |tables[s].chains| == cfg.hsize && (cfg.hsize > 0 ==> cfg.bucket(tag) < cfg.hsize)
      ensures i == FindIn(Searched(cfg, SetAt(s), tag), blocks[s], tag)
    {
      if cfg.hsize > 0 {
        i := FindInChain(s, tag, cfg.bucket(tag));
      } else {
        i := FindInWays(s, tag);
      }
    }

    method FindInChain(s: nat, tag: nat, b: nat) returns (i: int)
      requires Sound() && s < cfg.nsets && |blocks[s]| == cfg.assoc && b < |tables[s].chains|
      ensures i == FindIn(tables[s].chains[b], blocks[s], tag)
    {
      hide Distinct, InBounds, Apart, ChainLinked;
      ghost var q := tables[s].chains[b];
      StartOf(q, tables[s].heads[b], tables[s].next);
      i := tables[s].heads[b];
      ghost var k: nat := 0;
      while i != -1
        invariant k <= |q| && i == At(q, k) && FindIn(q[k..], blocks[s], tag) == FindIn(q, blocks[s], tag)
        decreases |q| - k
      {
        NextOf(q, tables[s].heads[b], tables[s].next, k);
        assert q[k..][1..] == q[k + 1..];
        if blocks[s][i].tag == tag && blocks[s][i].valid { return; }
        i, k := tables[s].next[i], k + 1;
      }
    }

    method FindInWays(s: nat, tag: nat) returns (i: int)
      requires Sound() && s < cfg.nsets && |blocks[s]| == cfg.assoc
      ensures i == FindIn(ways[s].order, blocks[s], tag)
    {
      hide Distinct, InBounds, Linked;
      ghost var q := ways[s].order;
      i := ways[s].head;
      ghost var k: nat := 0;
      while i != -1
        invariant k <= |q| && i == At(q, k) && FindIn(q[k..], blocks[s], tag) == FindIn(q, blocks[s], tag)
        decreases |q| - k
      {
        AtIndex(q, ways[s].prev, ways[s].next, k);
        assert q[k..][1..] == q[k + 1..];
        if blocks[s][i].tag == tag && blocks[s][i].valid { return; }
        i, k := ways[s].next[i], k + 1;
      }
    }

    /** cache_probe */
    method CacheProbe(addr: nat) returns (found: bool)
      requires Valid()
      ensures Shaped(Snap()) && (found <==> Probe(Snap(), addr))
    {
      hide FindIn, Searched, BlockOf, SetOf, TagOf, Inv;
      InvShaped(Snap());
      var b := BlockOf(cfg, addr);
      SetReady(Snap(), b);
      var i := FindBlock(SetOf(cfg, b), TagOf(cfg, b));
      return i >= 0;
    }

    method SetBlocks(s: nat, blks: seq<Block>)
      requires Sound() && s < cfg.nsets
      modifies blocks
      ensures Sound() && Sets() == old(Sets())[s := old(SetAt(s)).(blks := blks)]
    {
      blocks[s] := blks;
    }

    /** The copy, dirty bit and hit counter shared by the hit handlers. */
    method TouchHit(s: nat, i: nat, ofs: nat, cmd: Command) returns (bytes: seq<Byte>)
      requires Sound() && Shaped(Snap()) && s < cfg.nsets && i < cfg.assoc && ofs + Size(cmd) <= cfg.bsize
      modifies this, blocks
      ensures Sound() && Snap() == TouchBlock(old(Snap()), s, i, ofs, cmd)
      ensures bytes == Fetched(old(Snap()).sets[s].blks[i].data, ofs, cmd)
    {
      hide Stored, Fetched;
      ShapedAt(Snap(), s, i);
      hits := hits + 1;
      var b := blocks[s][i];
      bytes := Fetched(b.data, ofs, cmd);
      b := b.(data := Stored(b.data, ofs, cmd));
      if cmd.Write? { b := b.(dirty := true); }
      SetBlocks(s, blocks[s][i := b]);
    }

    /** update_way_list on set s */
    method MoveWay(s: nat, i: nat, where_: Where)
      requires Sound() && s < cfg.nsets && i in ways[s].order
      modifies ways
      ensures Sound() && Sets() == old(Sets())[s := old(SetAt(s)).(order := MoveTo(old(ways[s].order), i, where_))]
    {
      hide MoveTo;
      ways[s].UpdateWayList(i, where_);
    }

    /** The reordering of a slow hit. */
    method PromoteWay(s: nat, i: nat)
      requires Sound() && s < cfg.nsets && i in ways[s].order
      modifies ways
      ensures Sound() && Sets() == old(Sets())[s := Promote(cfg, old(SetAt(s)), i)]
    {
      hide MoveTo;
      HeadPointer(ways[s].order, ways[s].prev, ways[s].next, i);
      if ways[s].prev[i] != -1 && cfg.policy == LRU {
        MoveWay(s, i, Head);
      }
    }

    /** The choice of the block to replace. */
    method ChooseVictim(s: nat, random: nat) returns (i: nat)
      requires Sound() && s < cfg.nsets && WaysShaped(cfg, SetAt(s)) && 0 < cfg.assoc
      modifies ways
      ensures Sound() && i < cfg.assoc && Victim(cfg, old(SetAt(s)), random) == (SetAt(s), i)
      ensures Sets() == old(Sets())[s := SetAt(s)]
    {
      hide MoveTo;
      if cfg.policy == Random {
        return random % cfg.assoc;
      }
      i := ways[s].tail;
      MoveWay(s, i, Head);
    }

    /** The write-back of a replaced or invalidated block. */
    method WriteBackBlock(s: nat, b: Block)
      requires Sound()
      modifies this
      ensures Sound() && Snap() == WrittenBack(old(Snap()), s, b)
    {
      hide BlockNo;
      if b.dirty {
        writebacks := writebacks + 1;
        store := store[BlockNo(cfg, b.tag, s) := b.data];
      }
    }

    /** Take way i off the hash chain of its tag; false if the assertion of unlink_htab_ent fails. */
    method UnlinkWay(s: nat, i: nat, tag: nat) returns (ok: bool)
      requires Sound() && s < cfg.nsets && cfg.bucket(tag) < |tables[s].chains|
      modifies tables
      ensures Sound() && (ok <==> i in old(tables[s].chains)[cfg.bucket(tag)])
      ensures var q := old(tables[s].chains); var b := cfg.bucket(tag);
              Sets() == old(Sets())[s := old(SetAt(s)).(chains := if ok then q[b := Remove(q[b], i)] else q)]
    {
      hide Remove;
      ok := tables[s].UnlinkHtabEnt(cfg.bucket(tag), i);
    }

    method LinkWay(s: nat, i: nat, tag: nat)
      requires Sound() && s < cfg.nsets && cfg.bucket(tag) < |tables[s].chains| && i < cfg.assoc
      requires forall x :: 0 <= x < |tables[s].chains| ==> i !in tables[s].chains[x]
      modifies tables
      ensures Sound()
      ensures var q := old(tables[s].chains); var b := cfg.bucket(tag);
              Sets() == old(Sets())[s := old(SetAt(s)).(chains := q[b := [i] + q[b]])]
    {
      tables[s].LinkHtabEnt(cfg.bucket(tag), i);
    }

    /** The slow hit handler. */
    method HitBlock(s: nat, i: nat, b: nat, ofs: nat, cmd: Command) returns (bytes: seq<Byte>)
      requires Sound() && Shaped(Snap()) && s < cfg.nsets && i < cfg.assoc && ofs + Size(cmd) <= cfg.bsize
      requires i in ways[s].order
      modifies this, blocks, ways
      ensures Sound() && Snap() == SlowHit(old(Snap()), s, i, b, ofs, cmd)
      ensures bytes == Fetched(old(Snap()).sets[s].blks[i].data, ofs, cmd)
    {
      hide TouchBlock, Promote, Fetched, Shaped, WayList.Valid, HashTable.Valid;
      bytes := TouchHit(s, i, ofs, cmd);
      ghost var d := Snap();
      PromoteWay(s, i);
      assert d.sets[s] == old(Snap()).sets[s].(blks := d.sets[s].blks) by { TouchOrder(old(Snap()), s, i, ofs, cmd); }
      lastTagset, last := b, To(s, i);
    }

    /** Fill the victim with the block it makes room for, and run the accessor. */
    method FillVictim(s: nat, i: nat, tag: nat, ofs: nat, cmd: Command) returns (bytes: seq<Byte>)
      requires Sound() && s < cfg.nsets && i < |blocks[s]| && ofs + Size(cmd) <= cfg.bsize
      modifies blocks
      ensures Sound()
      ensures var c := old(Snap()); var w := c.sets[s];
              Sets() == c.sets[s := w.(blks := w.blks[i := Loaded(c, s, tag, ofs, cmd)])]
      ensures bytes == Fetched(Content(store, BlockNo(cfg, tag, s), cfg.bsize), ofs, cmd)
    {
      hide Stored, Fetched, Content, BlockNo;
      var data := Content(store, BlockNo(cfg, tag, s), cfg.bsize);
      var b := Block(tag, true, false, data);
      bytes := Fetched(b.data, ofs, cmd);
      b := b.(data := Stored(b.data, ofs, cmd));
      if cmd.Write? { b := b.(dirty := true); }
      SetBlocks(s, blocks[s][i := b]);
    }

    /** Take the victim off its hash chain; false if the assertion of unlink_htab_ent fails. */
    method UnlinkVictim(s: nat, i: nat) returns (ok: bool)
      requires Sound() && s < cfg.nsets && i < |blocks[s]| && i < cfg.assoc
      requires |tables[s].chains| == cfg.hsize && (cfg.hsize > 0 ==> forall t :: cfg.bucket(t) < cfg.hsize)
      modifies this, tables
      ensures Sound() && (ok <==> OnChain(old(Snap()), s, i))
      ensures ok ==> Snap() == Unlinked(old(Snap()), s, i)
    {
      hide Remove, WayList.Valid, HashTable.Valid;
      ghost var c := Snap();
      assert c.sets[s] == SetAt(s) && c.sets[s := c.sets[s]] == c.sets;
      misses := misses + 1;
      ok := true;
      if cfg.hsize > 0 { ok := UnlinkWay(s, i, blocks[s][i].tag); }
      lastTagset, last := 0, Null;
    }

    /** Unlink the victim and write it back. */
    method EvictVictim(s: nat, i: nat) returns (ok: bool)
      requires Sound() && s < cfg.nsets && i < |blocks[s]| && i < cfg.assoc
      requires |tables[s].chains| == cfg.hsize && (cfg.hsize > 0 ==> forall t :: cfg.bucket(t) < cfg.hsize)
      modifies this, tables
      ensures Sound() && (ok <==> OnChain(old(Snap()), s, i))
      ensures ok ==> Snap() == AfterEvict(old(Snap()), s, i)
    {
      hide Unlinked, WrittenBack, OnChain, WayList.Valid, HashTable.Valid;
      var gone := blocks[s][i];
      assert gone == Snap().sets[s].blks[i];
      ok := UnlinkVictim(s, i);
      if !ok { return; }
      if gone.valid {
        replacements := replacements + 1;
        WriteBackBlock(s, gone);
      }
    }

    /** The rest of the miss handler once the victim is gone. */
    method FillAndLink(s: nat, i: nat, tag: nat, ofs: nat, cmd: Command) returns (bytes: seq<Byte>)
      requires Sound() && s < cfg.nsets && i < |blocks[s]| && i < cfg.assoc && ofs + Size(cmd) <= cfg.bsize
      requires |tables[s].chains| == cfg.hsize && (cfg.hsize > 0 ==> forall t :: cfg.bucket(t) < cfg.hsize)
      requires cfg.hsize > 0 ==> forall x :: 0 <= x < |tables[s].chains| ==> i !in tables[s].chains[x]
      modifies this, blocks, tables
      ensures Sound() && Snap() == AfterFill(old(Snap()), s, i, tag, ofs, cmd)
      ensures bytes == Fetched(Content(old(store), BlockNo(cfg, tag, s), cfg.bsize), ofs, cmd)
    {
      hide Loaded, Fetched, Content, BlockNo;
      bytes := FillVictim(s, i, tag, ofs, cmd);
      if cfg.hsize > 0 { LinkWay(s, i, tag); }
    }

    /** The miss handler. */
    method MissBlock(s: nat, tag: nat, ofs: nat, cmd: Command, random: nat) returns (status: Status, bytes: seq<Byte>)
      requires Sound() && Shaped(Snap()) && s < cfg.nsets && ofs + Size(cmd) <= cfg.bsize
      requires Core(Snap())
      modifies this, blocks, ways, tables
      ensures Sound()
      ensures match Miss(old(Snap()), s, tag, ofs, cmd, random)
              case Done(d, out) => status == Fine && Snap() == d && bytes == out
              case why => status == Refused(why)
    {
      hide Stored, Fetched, Content, BlockNo, Victim, Shaped, Core, AfterEvict, AfterFill, OnChain, Miss;
      ghost var c := Snap();
      ChainsReady(c, s);
      var i := ChooseVictim(s, random);
      ghost var c0 := Snap();
      assert c0 == c.(sets := c.sets[s := Victim(cfg, c.sets[s], random).0]);
      assert SetAt(s) == c0.sets[s];
      MissParts(c, s, tag, ofs, cmd, random);
      VictimKeeps(c, s, random);
      var ok := EvictVictim(s, i);
      if !ok { return Refused(NotOnChain), []; }
      assert SetAt(s) == Snap().sets[s];
      EvictFrees(c0, s, i);
      bytes := FillAndLink(s, i, tag, ofs, cmd);
      status := Fine;
    }

    /** cache_access with the way it takes. */
    method AccessBlock(cmd: Command, addr: nat, random: nat) returns (status: Status, bytes: seq<Byte>)
      requires Valid() && Shaped(Snap())
      modifies this, blocks, ways, tables
      ensures Sound()
      ensures match Access(old(Snap()), cmd, addr, random)
              case Done(d, out) => status == Fine && Snap() == d && bytes == out
              case why => status == Refused(why)
    {
      hide Fetched, Shaped, Inv, SlowHit, TouchBlock, Miss, FindIn, Searched, BlockOf, OfsOf, SetOf, TagOf, AlignedAccess;
      hide WayList.Valid, HashTable.Valid;
      ShapedGives(Snap());
      var b, ofs := AddressParts(addr);
      if !AlignedAccess(addr, Size(cmd)) { return Refused(BadAlignment), []; }
      if ofs + Size(cmd) > cfg.bsize { return Refused(SpansBlock), []; }
      if b == lastTagset {
        if last.Null? { return Refused(NullBlock), []; }
        LastInRange(Snap());
        bytes := TouchHit(last.set_, last.way, ofs, cmd);
        return Fine, bytes;
      }
      SetReady(Snap(), b);
      var s, tag := SetOf(cfg, b), TagOf(cfg, b);
      assert Snap().sets[s] == SetAt(s);
      var i := FindBlock(s, tag);
      if i >= 0 {
        WayListed(Snap(), s, i);
        bytes := HitBlock(s, i, b, ofs, cmd);
        return Fine, bytes;
      }
      CoreOf(Snap());
      status, bytes := MissBlock(s, tag, ofs, cmd, random);
    }

    method AddressParts(addr: nat) returns (b: nat, ofs: nat)
      requires 0 < cfg.bsize
      ensures b == BlockOf(cfg, addr) && ofs == OfsOf(cfg, addr)
    {
      b, ofs := addr / cfg.bsize, addr % cfg.bsize;
    }

    /** cache_access: for a legal access it meets a null block pointer exactly when it goes to block 0 with no
        last block; otherwise it reads what flat memory holds and changes exactly the bytes it writes. */
    method CacheAccess(cmd: Command, addr: nat, random: nat) returns (status: Status, bytes: seq<Byte>)
      requires Valid() && 0 < cfg.bsize && Legal(cfg, cmd, addr)
      modifies this, blocks, ways, tables
      ensures status == Fine || status == Refused(NullBlock)
      ensures status == Refused(NullBlock) <==> old(Crashes(Snap(), addr))
      ensures status == Fine ==>
                var c := old(Snap()); var b, ofs := BlockOf(cfg, addr), OfsOf(cfg, addr);
                && Valid() && |c.sets| == cfg.nsets && 0 < cfg.nsets
                && Effect(c, Snap(), b, ofs, cmd) && bytes == Fetched(View(c, b), ofs, cmd)
    {
      hide Inv, Shaped, Access, Effect, Crashes, Legal, Fetched, View, BlockOf, OfsOf;
      InvShaped(Snap());
      SetReady(Snap(), 0);
      AccessIsFlat(Snap(), cmd, addr, random);
      status, bytes := AccessBlock(cmd, addr, random);
    }

    /** One block of cache_flush or cache_flush_addr. */
    method InvalidateBlock(s: nat, i: nat)
      requires Sound() && Shaped(Snap()) && s < cfg.nsets && i < cfg.assoc
      modifies this, blocks
      ensures Sound() && Snap() == Invalidate(old(Snap()), s, i)
    {
      hide Shaped, WrittenBack, WayList.Valid, HashTable.Valid;
      ShapedAt(Snap(), s, i);
      assert Snap().sets[s] == SetAt(s);
      invalidations := invalidations + 1;
      var b := blocks[s][i];
      SetBlocks(s, blocks[s][i := b.(valid := false)]);
      WriteBackBlock(s, b);
    }

    /** The inner loop of cache_flush. */
    method FlushSet(s: nat)
      requires Sound() && Shaped(Snap()) && s < cfg.nsets
      modifies this, blocks
      ensures Sound() && Shaped(Snap()) && forall j :: 0 <= j < |old(ways[s].order)| ==> old(ways[s].order)[j] < cfg.assoc
      ensures Snap() == FlushWays(old(Snap()), s, old(ways[s].order))
    {
      hide Shaped, Invalidate, Distinct, InBounds, Linked;
      ghost var c, q := Snap(), ways[s].order;
      ShapedGives(c);
      ShapedAt(c, s, 0);
      assert c.sets[s] == SetAt(s);
      var i := ways[s].head;
      ghost var k: nat := 0;
      while i != -1
        invariant k <= |q| && i == At(q, k) && Sound() && Shaped(Snap()) && |blocks[s]| == cfg.assoc
        invariant forall j :: 0 <= j < |q| ==> q[j] < cfg.assoc
        invariant FlushWays(Snap(), s, q[k..]) == FlushWays(c, s, q)
        decreases |q| - k
      {
        AtIndex(q, ways[s].prev, ways[s].next, k);
        assert q[k..][1..] == q[k + 1..];
        assert Snap().sets[s] == SetAt(s);
        if blocks[s][i].valid { InvalidateBlock(s, i); }
        ShapedAt(Snap(), s, 0);
        assert Snap().sets[s] == SetAt(s);
        i, k := ways[s].next[i], k + 1;
      }
    }

    /** cache_flush */
    method CacheFlush()
      requires Valid()
      modifies this, blocks
      ensures Valid() && Shaped(old(Snap())) && Snap() == Flush(old(Snap()))
      ensures |old(Snap()).sets| == cfg.nsets && 0 < cfg.nsets
      ensures forall b :: Content(store, b, cfg.bsize) == View(old(Snap()), b)
    {
      hide Inv, Shaped, View, Content, FlushFrom, FlushWays, WayList.Valid, HashTable.Valid;
      ghost var c := Snap();
      InvShaped(c);
      SetReady(c, 0);
      FlushIsFlat(c);
      lastTagset, last := 0, Null;
      ShapedAgain(c, Snap());
      for s := 0 to cfg.nsets
        invariant Sound() && Shaped(Snap()) && FlushFrom(Snap(), s) == Flush(c)
      {
        NextFlush(Snap(), s);
        assert Snap().sets[s] == SetAt(s);
        FlushSet(s);
      }
      EndFlush(Snap());
    }

    /** cache_flush_addr */
    method CacheFlushAddr(addr: nat)
      requires Valid()
      modifies this, blocks, ways
      ensures Valid() && Shaped(old(Snap())) && Snap() == FlushAddr(old(Snap()), addr)
      ensures |old(Snap()).sets| == cfg.nsets && 0 < cfg.nsets
      ensures forall b :: View(Snap(), b) == View(old(Snap()), b)
    {
      hide Inv, Shaped, View, FindIn, Searched, BlockOf, SetOf, TagOf, Invalidate, MoveTo, WayList.Valid, HashTable.Valid, Core;
      ghost var c := Snap();
      InvShaped(c);
      ShapedGives(c);
      FlushAddrIsFlat(c, addr);
      var b := BlockOf(cfg, addr);
      SetReady(c, b);
      var s := SetOf(cfg, b);
      assert c.sets[s] == SetAt(s);
      var i := FindBlock(s, TagOf(cfg, b));
      if i < 0 { return; }
      WayListed(c, s, i);
      lastTagset, last := 0, Null;
      ShapedAgain(c, Snap());
      InvalidateBlock(s, i);
      InvalidOrder(c.(lastTagset := 0, last := Null), s, i);
      assert Snap().sets[s] == SetAt(s);
      MoveWay(s, i, Tail);
    }
  }

  lemma SameWays(sets: seq<Ways>, cfg: Config)
    requires |sets| == cfg.nsets && forall s :: 0 <= s < cfg.nsets ==> sets[s] == NewWays(cfg)
    ensures sets == NewSets(cfg)
  {
    hide NewWays;
  }

  /** The blocks of every set, all invalid. */
  method NewBlocks(cfg: Config) returns (blocks: array<seq<Block>>)
    ensures blocks.Length == cfg.nsets && fresh(blocks)
    ensures forall i :: 0 <= i < cfg.nsets ==> blocks[i] == NewWays(cfg).blks
  {
    hide NewWays;
    blocks := new seq<Block>[cfg.nsets](_ => NewWays(cfg).blks);
  }

  /** The lists of every set as cache_create links them. */
  method NewLists(cfg: Config) returns (ws: seq<WayList>, ts: seq<HashTable>)
    requires CfgOk(cfg)
    ensures |ws| == cfg.nsets && |ts| == cfg.nsets && fresh(ws) && fresh(ts)
    ensures forall i :: 0 <= i < cfg.nsets ==>
              && ws[i].Valid() && |ws[i].next| == cfg.assoc && ws[i].order == NewWays(cfg).order
              && ts[i].Valid() && |ts[i].next| == cfg.assoc && ts[i].chains == NewWays(cfg).chains
    ensures forall i, j :: 0 <= i < j < cfg.nsets ==> ws[i] != ws[j] && ts[i] != ts[j]
  {
    hide NewWays, WayList.Valid, HashTable.Valid, CountDown;
    ws, ts := [], [];
    for n := 0 to cfg.nsets
      invariant |ws| == n && |ts| == n && fresh(ws) && fresh(ts)
      invariant forall i :: 0 <= i < n ==>
                  && ws[i].Valid() && |ws[i].next| == cfg.assoc && ws[i].order == NewWays(cfg).order
                  && ts[i].Valid() && |ts[i].next| == cfg.assoc && ts[i].chains == NewWays(cfg).chains
      invariant forall i, j :: 0 <= i < j < n ==> ws[i] != ws[j] && ts[i] != ts[j]
    {
      var w := new WayList(cfg.assoc);
      NewOrder(cfg);
      var t := NewTable(cfg);
      ws, ts := ws + [w], ts + [t];
    }
  }

  lemma NewOrder(cfg: Config)
    ensures NewWays(cfg).order == CountDown(cfg.assoc) && |NewWays(cfg).blks| == cfg.assoc
    ensures NewWays(cfg).chains == seq(cfg.hsize, b => if b == cfg.bucket(0) then CountDown(cfg.assoc) else [])
  {
  }

  method NewTable(cfg: Config) returns (t: HashTable)
    requires CfgOk(cfg)
    ensures fresh(t) && t.Valid() && |t.next| == cfg.assoc && t.chains == NewWays(cfg).chains
  {
    hide NewWays, HashTable.Valid;
    NewOrder(cfg);
    t := new HashTable(cfg.hsize, cfg.assoc);
    ghost var b := cfg.bucket(0);
    if cfg.hsize > 0 {
      for k := 0 to cfg.assoc
        invariant fresh(t) && t.Valid() && |t.next| == cfg.assoc && |t.chains| == cfg.hsize && b < cfg.hsize
        invariant forall x :: 0 <= x < cfg.hsize ==> t.chains[x] == if x == b then CountDown(k) else []
      {
        BoundsOf(k, k);
        t.LinkHtabEnt(cfg.bucket(0), k);
      }
    }
  }

  /** Way i is on the chain its tag hashes to, or there are no chains. */
  predicate OnChain(c: Cache, s: nat, i: nat)
    requires s < |c.sets| && i < |c.sets[s].blks|
  {
    var w := c.sets[s];
    var from := c.cfg.bucket(w.blks[i].tag);
    c.cfg.hsize > 0 ==> from < |w.chains| && i in w.chains[from]
  }

  function Unlinked(c: Cache, s: nat, i: nat): (d: Cache)
    requires s < |c.sets| && i < |c.sets[s].blks|
    ensures d.cfg == c.cfg && |d.sets| == |c.sets| && d.sets[s].blks == c.sets[s].blks
  {
    var w := c.sets[s];
    var from := c.cfg.bucket(w.blks[i].tag);
    var w1 := if c.cfg.hsize > 0 && from < |w.chains| then w.(chains := w.chains[from := Remove(w.chains[from], i)]) else w;
    c.(sets := c.sets[s := w1], misses := c.misses + 1, lastTagset := 0, last := Null)
  }

  function AfterEvict(c: Cache, s: nat, i: nat): (d: Cache)
    requires s < |c.sets| && i < |c.sets[s].blks|
    ensures d.cfg == c.cfg && |d.sets| == |c.sets| && d.sets[s].blks == c.sets[s].blks
  {
    var b := c.sets[s].blks[i];
    var c1 := Unlinked(c, s, i);
    if b.valid then WrittenBack(c1.(replacements := c1.replacements + 1), s, b) else c1
  }

  function AfterFill(c: Cache, s: nat, i: nat, tag: nat, ofs: nat, cmd: Command): Cache
    requires s < |c.sets| && i < |c.sets[s].blks| && ofs + Size(cmd) <= c.cfg.bsize
  {
    var w := c.sets[s];
    var to := c.cfg.bucket(tag);
    c.(sets := c.sets[s := w.(blks := w.blks[i := Loaded(c, s, tag, ofs, cmd)],
         chains := if c.cfg.hsize > 0 && to < |w.chains| then w.chains[to := [i] + w.chains[to]] else w.chains)])
  }

  /** The miss handler in its three parts. */
  lemma MissParts(c: Cache, s: nat, tag: nat, ofs: nat, cmd: Command, random: nat)
    requires Shaped(c) && s < c.cfg.nsets && ofs + Size(cmd) <= c.cfg.bsize
    requires c.cfg.hsize > 0 ==> forall t :: c.cfg.bucket(t) < c.cfg.hsize
    requires |Victim(c.cfg, c.sets[s], random).0.chains| == c.cfg.hsize
    ensures var (w, i) := Victim(c.cfg, c.sets[s], random); var c0 := c.(sets := c.sets[s := w]);
            && i < |w.blks|
            && Miss(c, s, tag, ofs, cmd, random) ==
               if !OnChain(c0, s, i) then NotOnChain
               else
                 var c2 := AfterEvict(c0, s, i);
                 Done(AfterFill(c2, s, i, tag, ofs, cmd),
                      Fetched(Content(c2.store, BlockNo(c.cfg, tag, s), c.cfg.bsize), ofs, cmd))
  {
    hide Stored, Content, BlockNo, Fetched, Remove, MoveTo, Shaped;
    ShapedAt(c, s, 0);
    var (w, i) := Victim(c.cfg, c.sets[s], random);
    assert w.blks == c.sets[s].blks;
  }

  lemma VictimKeeps(c: Cache, s: nat, random: nat)
    requires Core(c) && Shaped(c) && s < c.cfg.nsets
    ensures var (w, i) := Victim(c.cfg, c.sets[s], random);
            && w.blks == c.sets[s].blks && w.chains == c.sets[s].chains && i < |w.blks|
            && Core(c.(sets := c.sets[s := w]))
  {
    hide WaysOk, CfgOk, Perm, Resident, View, Shaped;
    ShapedGives(c);
    ShapedAt(c, s, 0);
    OrderPerm(c, s);
    VictimIs(c.cfg, c.sets[s], random);
    var (w, i) := Victim(c.cfg, c.sets[s], random);
    ReorderKeeps(c, s, w.order);
    assert Reordered(c, s, w.order) == c.(sets := c.sets[s := w]);
  }

  /** Once unlinked, the victim is on no chain. */
  lemma EvictFrees(c: Cache, s: nat, i: nat)
    requires Core(c) && s < |c.sets| && i < |c.sets[s].blks| && |c.sets| == c.cfg.nsets
    ensures var d := AfterEvict(c, s, i); |d.sets| == |c.sets| && |d.sets[s].chains| == c.cfg.hsize
    ensures var d := AfterEvict(c, s, i);
            d.sets[s].blks == c.sets[s].blks && forall x :: 0 <= x < |d.sets[s].chains| ==> i !in d.sets[s].chains[x]
  {
    hide Perm, BlockOk, UniqueTags, BlockNo, CfgOk;
    GetWays(c, s);
    var w := c.sets[s];
    var from := c.cfg.bucket(w.blks[i].tag);
    if c.cfg.hsize > 0 {
      BucketOk(c.cfg, w.blks[i].tag);
      RemoveIs(w.chains[from], i);
    }
  }

  lemma BucketOk(cfg: Config, t: nat)
    requires CfgOk(cfg) && cfg.hsize > 0
    ensures cfg.bucket(t) < cfg.hsize
  {
  }

  /** way_prev is null exactly at the head of the list. */
  lemma HeadPointer(q: seq<nat>, prev: seq<int>, next: seq<int>, i: nat)
    requires q != [] && Distinct(q) && |prev| == |next| && InBounds(q, |next|) && Linked(q, prev, next) && i in q
    ensures i < |prev| && (prev[i] == -1 <==> q[0] == i)
  {
    var k := IndexOf(q, i);
    AtIndex(q, prev, next, k);
  }

  lemma ShapedAt(c: Cache, s: nat, i: nat)
    requires Shaped(c) && s < c.cfg.nsets && i < c.cfg.assoc
    ensures s < |c.sets| && |c.sets[s].blks| == c.cfg.assoc && |c.sets[s].blks[i].data| == c.cfg.bsize
    ensures WaysShaped(c.cfg, c.sets[s])
  {
  }

  lemma TouchOrder(c: Cache, s: nat, i: nat, ofs: nat, cmd: Command)
    requires Shaped(c) && s < c.cfg.nsets && i < c.cfg.assoc && ofs + Size(cmd) <= c.cfg.bsize
    ensures var d := TouchBlock(c, s, i, ofs, cmd).sets[s]; d == c.sets[s].(blks := d.blks)
  {
    hide Stored;
  }

  lemma ChainsReady(c: Cache, s: nat)
    requires Core(c) && Shaped(c) && s < c.cfg.nsets
    ensures WaysShaped(c.cfg, c.sets[s]) && 0 < c.cfg.assoc && |c.sets[s].chains| == c.cfg.hsize
    ensures c.cfg.hsize > 0 ==> forall t :: c.cfg.bucket(t) < c.cfg.hsize
  {
    hide WaysOk;
  }

  lemma LastInRange(c: Cache)
    requires Inv(c) && c.last.To?
    ensures c.last.set_ < c.cfg.nsets && c.last.way < c.cfg.assoc && |c.sets| == c.cfg.nsets
    ensures |c.sets[c.last.set_].blks| == c.cfg.assoc
  {
    hide Core, BlockNo;
    LastBlock(c);
  }

  lemma WayListed(c: Cache, s: nat, i: nat)
    requires Inv(c) && s < |c.sets| && i < |c.sets[s].blks|
    ensures i < c.cfg.assoc && i in c.sets[s].order
  {
    hide BlockOk, UniqueTags, Chained;
    GetWays(c, s);
  }

  lemma CoreOf(c: Cache)
    requires Inv(c)
    ensures Core(c)
  {
  }

  lemma NextFlush(c: Cache, s: nat)
    requires Shaped(c) && s < c.cfg.nsets
    ensures |c.sets| == c.cfg.nsets && forall j :: 0 <= j < |c.sets[s].order| ==> c.sets[s].order[j] < c.cfg.assoc
    ensures FlushFrom(c, s) == FlushFrom(FlushWays(c, s, c.sets[s].order), s + 1)
  {
    hide FlushWays;
    assert WaysShaped(c.cfg, c.sets[s]);
  }

  lemma EndFlush(c: Cache)
    requires Shaped(c)
    ensures FlushFrom(c, c.cfg.nsets) == c
  {
  }

  lemma InvalidOrder(c: Cache, s: nat, i: nat)
    requires Shaped(c) && s < c.cfg.nsets && i < c.cfg.assoc
    ensures Invalidate(c, s, i).sets[s].order == c.sets[s].order
  {
    hide BlockNo;
  }

  /** What every access needs of the set it goes to. */
  lemma SetReady(c: Cache, b: nat)
    requires Inv(c)
    ensures 0 < c.cfg.nsets && 0 < c.cfg.bsize && 0 < c.cfg.assoc && |c.sets| == c.cfg.nsets
    ensures SetOf(c.cfg, b) < c.cfg.nsets
    ensures var w := c.sets[SetOf(c.cfg, b)]; |w.blks| == c.cfg.assoc && |w.chains| == c.cfg.hsize
    ensures c.cfg.hsize > 0 ==> forall t :: c.cfg.bucket(t) < c.cfg.hsize
  {
    hide BlockOk, UniqueTags, Perm, SetOf;
    GetCfg(c);
    SetInRange(c.cfg, b);
    GetWays(c, SetOf(c.cfg, b));
  }
}
