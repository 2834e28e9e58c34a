/** LRU caches: each set is a recency stack, and a smaller cache is always contained in a larger one. */
module CacheLru {
  import opened Accesses
  import opened WayOrder
  import opened CacheState
  import opened CacheProof
  import opened CacheTheorems

  /** The tags of the valid blocks along a list of ways. */
  function Tags(q: seq<nat>, blks: seq<Block>): seq<nat> {
    if q == [] then []
    else if q[0] < |blks| && blks[q[0]].valid then [blks[q[0]].tag] + Tags(q[1..], blks)
    else Tags(q[1..], blks)
  }

  /** The valid blocks of a list come before the invalid ones. */
  predicate ValidFirst(q: seq<nat>, blks: seq<Block>) {
    q == [] || (ValidFirst(q[1..], blks) && (q[0] < |blks| && !blks[q[0]].valid ==> Tags(q[1..], blks) == []))
  }

  /** Recency order of a set, most recent first. */
  function Stack(w: Ways): seq<nat> { Tags(w.order, w.blks) }

  // ---- the reference: a bounded recency stack ----

  function Use(st: seq<nat>, k: nat, t: nat): seq<nat>
    requires |st| <= k && 0 < k
  {
    [t] + if t in st then Remove(st, t) else if |st| == k then st[..k - 1] else st
  }

  lemma {:induction false} RemovePrefix(a: seq<nat>, b: seq<nat>, t: nat)
    requires a <= b
    ensures Remove(a, t) <= Remove(b, t)
    ensures t !in a ==> a <= Remove(b, t)
  {
    if a != [] {
      assert a[1..] <= b[1..];
      assert a == [a[0]] + a[1..];
      RemovePrefix(a[1..], b[1..], t);
    }
  }

  lemma {:induction false} RemoveSize(a: seq<nat>, t: nat)
    ensures t in a ==> |Remove(a, t)| == |a| - 1
    ensures t !in a ==> Remove(a, t) == a
  {
    if a != [] {
      assert a == [a[0]] + a[1..];
      RemoveSize(a[1..], t);
    }
  }

  /** Stack inclusion: using the same tag keeps a smaller stack a prefix of a larger one. */
  lemma UseKeepsPrefix(a: seq<nat>, k: nat, b: seq<nat>, m: nat, t: nat)
    requires a <= b && |a| <= k <= m && |b| <= m && 0 < k
    ensures Use(a, k, t) <= Use(b, m, t)
  {
    RemovePrefix(a, b, t);
    RemoveSize(b, t);
    if t !in a && t in b { assert |a| < |b|; }
  }

  // ---- stacks of way lists ----

  lemma {:induction false} TagsConcat(p: seq<nat>, q: seq<nat>, blks: seq<Block>)
    ensures Tags(p + q, blks) == Tags(p, blks) + Tags(q, blks)
  {
    if p == [] {
      assert p + q == q;
    } else {
      assert (p + q)[1..] == p[1..] + q;
      TagsConcat(p[1..], q, blks);
    }
  }

  lemma {:induction false} TagsMember(q: seq<nat>, blks: seq<Block>, t: nat)
    ensures t in Tags(q, blks) <==> exists i :: i in q && i < |blks| && blks[i].valid && blks[i].tag == t
  {
    if q != [] {
      TagsMember(q[1..], blks, t);
      assert q == [q[0]] + q[1..];
    }
  }

  lemma {:induction false} TagsSize(q: seq<nat>, blks: seq<Block>)
    ensures |Tags(q, blks)| <= |q|
  {
    if q != [] { TagsSize(q[1..], blks); }
  }

  predicate InRange(q: seq<nat>, n: nat) { forall j :: 0 <= j < |q| ==> q[j] < n }

  /** A way that is not on the list may change freely. */
  lemma {:induction false} TagsFrame(q: seq<nat>, blks: seq<Block>, blks': seq<Block>)
    requires |blks'| == |blks| && forall i :: i in q && i < |blks| ==> blks'[i].valid == blks[i].valid && blks'[i].tag == blks[i].tag
    ensures Tags(q, blks') == Tags(q, blks) && ValidFirst(q, blks') == ValidFirst(q, blks)
  {
    if q != [] {
      assert q == [q[0]] + q[1..];
      TagsFrame(q[1..], blks, blks');
    }
  }

  /** Removing a way from the list removes its tag from the stack. */
  lemma {:induction false} TagsRemove(q: seq<nat>, blks: seq<Block>, i: nat)
    requires i in q && i < |blks| && Distinct(q) && UniqueTags(blks) && InRange(q, |blks|)
    ensures Tags(Remove(q, i), blks) == if blks[i].valid then Remove(Tags(q, blks), blks[i].tag) else Tags(q, blks)
  {
    assert q == [q[0]] + q[1..];
    if q[0] != i {
      TagsRemove(q[1..], blks, i);
      var r := [q[0]] + Remove(q[1..], i);
      assert r[1..] == Remove(q[1..], i);
      assert blks[q[0]].valid ==> ([blks[q[0]].tag] + Tags(q[1..], blks))[1..] == Tags(q[1..], blks);
      assert blks[q[0]].valid && blks[i].valid ==> blks[q[0]].tag != blks[i].tag;
    } else {
      assert blks[i].valid ==> ([blks[i].tag] + Tags(q[1..], blks))[1..] == Tags(q[1..], blks);
    }
  }

  lemma {:induction false} ValidFirstRemove(q: seq<nat>, blks: seq<Block>, i: nat)
    requires ValidFirst(q, blks)
    ensures ValidFirst(Remove(q, i), blks)
    ensures Tags(q, blks) == [] ==> Tags(Remove(q, i), blks) == []
  {
    if q != [] && q[0] != i {
      ValidFirstRemove(q[1..], blks, i);
      var r := [q[0]] + Remove(q[1..], i);
      assert r[1..] == Remove(q[1..], i);
    }
  }

  lemma {:induction false} ValidFirstSnoc(q: seq<nat>, blks: seq<Block>, i: nat)
    requires ValidFirst(q, blks) && (i < |blks| ==> !blks[i].valid)
    ensures ValidFirst(q + [i], blks) && Tags(q + [i], blks) == Tags(q, blks)
  {
    TagsConcat(q, [i], blks);
    if q != [] {
      assert (q + [i])[1..] == q[1..] + [i];
      ValidFirstSnoc(q[1..], blks, i);
    }
  }

  /** If the last way of the list is valid, all are. */
  lemma {:induction false} LastValid(q: seq<nat>, blks: seq<Block>)
    requires q != [] && ValidFirst(q, blks) && InRange(q, |blks|)
    requires blks[q[|q| - 1]].valid
    ensures |Tags(q, blks)| == |q|
  {
    if |q| > 1 {
      assert q == [q[0]] + q[1..];
      assert q[1..][|q| - 2] == q[|q| - 1];
      LastValid(q[1..], blks);
    }
  }

  lemma {:induction false} RemoveLast(q: seq<nat>)
    requires q != [] && Distinct(q)
    ensures Remove(q, q[|q| - 1]) == q[..|q| - 1]
  {
    if |q| > 1 {
      assert q[0] != q[|q| - 1];
      assert q[1..][|q| - 2] == q[|q| - 1];
      RemoveLast(q[1..]);
      assert q[1..][..|q| - 2] == q[..|q| - 1][1..];
    }
  }

  // ---- the LRU invariant ----

  /** Ways of one LRU set. */
  ghost predicate LruOk(w: Ways, n: nat) {
    && |w.blks| == n && Perm(w.order, n) && UniqueTags(w.blks) && ValidFirst(w.order, w.blks) && |Stack(w)| <= n
  }

  /** Moving a valid way to the head is using its tag. */
  lemma PromoteUses(w: Ways, n: nat, i: nat)
    requires LruOk(w, n) && i < n && w.blks[i].valid
    ensures var w' := w.(order := MoveTo(w.order, i, Head));
            LruOk(w', n) && Stack(w') == Use(Stack(w), n, w.blks[i].tag)
  {
    hide UniqueTags, ValidFirst, Perm;
    var t := w.blks[i].tag;
    PermHas(w.order, n, i);
    TagsRemove(w.order, w.blks, i);
    TagsMember(w.order, w.blks, t);
    MoveKeepsPerm(w.order, n, i, Head);
    HeadFirst(w.order, w.blks, i);
    RemoveSize(Stack(w), t);
  }

  lemma PermHas(q: seq<nat>, n: nat, i: nat)
    requires Perm(q, n) && i < n
    ensures i in q && Distinct(q) && InRange(q, n) && |q| == n
  {
    forall j | 0 <= j < |q| ensures q[j] < n { assert q[j] in q; }
  }

  lemma HeadFirst(q: seq<nat>, blks: seq<Block>, i: nat)
    requires ValidFirst(q, blks) && i < |blks| && blks[i].valid
    ensures var r := MoveTo(q, i, Head); ValidFirst(r, blks) && Tags(r, blks) == [blks[i].tag] + Tags(Remove(q, i), blks)
  {
    ValidFirstRemove(q, blks, i);
    var r := [i] + Remove(q, i);
    assert r[1..] == Remove(q, i);
  }

  /** A miss brings its tag to the top, and drops the least recent one only when the set is full. */
  lemma MissUses(w: Ways, n: nat, b: Block, chains: seq<seq<nat>>)
    requires LruOk(w, n) && 0 < n && b.valid && b.tag !in Stack(w)
    requires w.order != [] && w.order[|w.order| - 1] < n && UniqueTags(w.blks[w.order[|w.order| - 1] := b])
    ensures var i := w.order[|w.order| - 1];
            var w' := Ways(w.blks[i := b], MoveTo(w.order, i, Head), chains);
            && LruOk(w', n) && Stack(w') == Use(Stack(w), n, b.tag)
            && (w.blks[i].valid ==> |Stack(w)| == n)
  {
    hide UniqueTags, ValidFirst, Perm, Tags, Use, Remove;
    var i := w.order[|w.order| - 1];
    PermHas(w.order, n, i);
    var rest := w.order[..|w.order| - 1];
    RemoveLast(w.order);
    MoveKeepsPerm(w.order, n, i, Head);
    SplitLast(w.order, w.blks);
    TagsSize(rest, w.blks);
    RestFrame(w.order, w.blks, b);
    MissStack(w, n, b, i, rest);
    NewHead(i, rest, w.blks[i := b]);
    TagsSize(MoveTo(w.order, i, Head), w.blks[i := b]);
  }

  /** The last way of a list apart. */
  lemma SplitLast(q: seq<nat>, blks: seq<Block>)
    requires q != [] && q[|q| - 1] < |blks| && ValidFirst(q, blks) && InRange(q, |blks|) && Distinct(q)
    ensures var i := q[|q| - 1];
            && Tags(q, blks) == Tags(q[..|q| - 1], blks) + (if blks[i].valid then [blks[i].tag] else [])
            && (blks[i].valid ==> |Tags(q, blks)| == |q|)
            && ValidFirst(q[..|q| - 1], blks)
  {
    hide ValidFirst;
    var i := q[|q| - 1];
    assert q == q[..|q| - 1] + [i];
    TagsConcat(q[..|q| - 1], [i], blks);
    OneTag(i, blks);
    ValidFirstRemove(q, blks, i);
    RemoveLast(q);
    if blks[i].valid { LastValid(q, blks); }
  }

  lemma RestFrame(q: seq<nat>, blks: seq<Block>, b: Block)
    requires q != [] && q[|q| - 1] < |blks| && Distinct(q)
    ensures var i := q[|q| - 1]; var rest := q[..|q| - 1];
            Tags(rest, blks[i := b]) == Tags(rest, blks) && ValidFirst(rest, blks[i := b]) == ValidFirst(rest, blks)
  {
    TagsFrame(q[..|q| - 1], blks, blks[q[|q| - 1] := b]);
  }

  lemma OneTag(i: nat, blks: seq<Block>)
    requires i < |blks|
    ensures Tags([i], blks) == if blks[i].valid then [blks[i].tag] else []
  {
    assert [i][1..] == [];
  }

  lemma NewHead(i: nat, rest: seq<nat>, blks: seq<Block>)
    requires i < |blks| && blks[i].valid && ValidFirst(rest, blks)
    ensures ValidFirst([i] + rest, blks) && Tags([i] + rest, blks) == [blks[i].tag] + Tags(rest, blks)
  {
    assert ([i] + rest)[1..] == rest;
  }

  lemma MissStack(w: Ways, n: nat, b: Block, i: nat, rest: seq<nat>)
    requires 0 < n && |Stack(w)| <= n && i < |w.blks| && b.tag !in Stack(w)
    requires Stack(w) == Tags(rest, w.blks) + (if w.blks[i].valid then [w.blks[i].tag] else [])
    requires |Tags(rest, w.blks)| <= n - 1 && (w.blks[i].valid ==> |Stack(w)| == n)
    ensures [b.tag] + Tags(rest, w.blks) == Use(Stack(w), n, b.tag)
  {
    if w.blks[i].valid { assert Stack(w)[..n - 1] == Tags(rest, w.blks); }
  }

  /** cache_flush_addr takes a tag out of the stack. */
  lemma DropRemoves(w: Ways, n: nat, i: nat)
    requires LruOk(w, n) && i < n && w.blks[i].valid
    ensures var w' := w.(blks := w.blks[i := w.blks[i].(valid := false)], order := MoveTo(w.order, i, Tail));
            LruOk(w', n) && Stack(w') == Remove(Stack(w), w.blks[i].tag)
  {
    hide ValidFirst, Perm, UniqueTags, Tags, Remove;
    PermHas(w.order, n, i);
    TagsRemove(w.order, w.blks, i);
    ValidFirstRemove(w.order, w.blks, i);
    DropFrame(w.order, w.blks, i);
    ValidFirstSnoc(Remove(w.order, i), w.blks[i := w.blks[i].(valid := false)], i);
    MoveKeepsPerm(w.order, n, i, Tail);
    RemoveSize(Stack(w), w.blks[i].tag);
  }

  lemma DropFrame(q: seq<nat>, blks: seq<Block>, i: nat)
    requires Distinct(q) && i < |blks| && UniqueTags(blks)
    ensures var blks' := blks[i := blks[i].(valid := false)]; var r := Remove(q, i);
            UniqueTags(blks') && Tags(r, blks') == Tags(r, blks) && ValidFirst(r, blks') == ValidFirst(r, blks)
  {
    RemoveIs(q, i);
    TagsFrame(Remove(q, i), blks, blks[i := blks[i].(valid := false)]);
  }

  // ---- the cache ----

  ghost predicate LruSets(c: Cache) { forall s :: 0 <= s < |c.sets| ==> LruOk(c.sets[s], c.cfg.assoc) }

  /** The block of the last hit is the most recent of its set. */
  ghost predicate LastFirst(c: Cache) {
    c.last.To? ==> c.last.set_ < |c.sets| && c.sets[c.last.set_].order != [] && c.sets[c.last.set_].order[0] == c.last.way
  }

  ghost predicate LruInv(c: Cache) { Inv(c) && c.cfg.policy == LRU && LruSets(c) && LastFirst(c) }

  function StackOf(c: Cache, s: nat): seq<nat>
    requires s < |c.sets|
  {
    Stack(c.sets[s])
  }

  /** Set s of d has used tag t, all other sets are as in c. */
  ghost predicate Used(c: Cache, d: Cache, s: nat, t: nat) {
    && d.cfg == c.cfg && |d.sets| == |c.sets| && s < |c.sets| && 0 < c.cfg.assoc
    && (forall x :: 0 <= x < |c.sets| && x != s ==> d.sets[x] == c.sets[x])
    && LruOk(d.sets[s], c.cfg.assoc) && LruOk(c.sets[s], c.cfg.assoc)
    && StackOf(d, s) == Use(StackOf(c, s), c.cfg.assoc, t)
  }

  lemma TouchStack(c: Cache, s: nat, i: nat, ofs: nat, cmd: Command)
    requires Shaped(c) && s < c.cfg.nsets && i < c.cfg.assoc && ofs + Size(cmd) <= c.cfg.bsize && LruOk(c.sets[s], c.cfg.assoc)
    ensures var d := TouchBlock(c, s, i, ofs, cmd);
            && |d.sets| == c.cfg.nsets && (forall x :: 0 <= x < |c.sets| && x != s ==> d.sets[x] == c.sets[x])
            && LruOk(d.sets[s], c.cfg.assoc) && StackOf(d, s) == StackOf(c, s)
            && d.sets[s].order == c.sets[s].order && d.sets[s].blks[i].valid == c.sets[s].blks[i].valid
            && d.sets[s].blks[i].tag == c.sets[s].blks[i].tag && d.hits == c.hits + 1
  {
    hide Stored, ValidFirst, Perm, Tags;
    TagsFrame(c.sets[s].order, c.sets[s].blks, TouchBlock(c, s, i, ofs, cmd).sets[s].blks);
  }

  /** The most recent tag used again. */
  lemma UseTop(w: Ways, n: nat, i: nat)
    requires LruOk(w, n) && i < n && w.blks[i].valid && w.order != [] && w.order[0] == i
    ensures Use(Stack(w), n, w.blks[i].tag) == Stack(w) && w.blks[i].tag in Stack(w)
  {
    hide ValidFirst, Perm, UniqueTags;
    var st := Stack(w);
    assert st == [w.blks[i].tag] + Tags(w.order[1..], w.blks);
    assert st[1..] == Tags(w.order[1..], w.blks);
    assert Remove(st, w.blks[i].tag) == st[1..];
  }

  lemma FastUses(c: Cache, ofs: nat, cmd: Command)
    requires LruInv(c) && Shaped(c) && c.last.To? && ofs + Size(cmd) <= c.cfg.bsize
    ensures var d := TouchBlock(c, c.last.set_, c.last.way, ofs, cmd); var t := c.sets[c.last.set_].blks[c.last.way].tag;
            && Used(c, d, c.last.set_, t) && LastFirst(d) && d.hits == c.hits + 1 && t in StackOf(c, c.last.set_)
  {
    hide Stored, Core, ValidFirst, Perm, Tags, BlockNo, LruOk, Use, Shaped;
    LastBlock(c);
    ShapedGives(c);
    var s, i := c.last.set_, c.last.way;
    TouchStack(c, s, i, ofs, cmd);
    UseTop(c.sets[s], c.cfg.assoc, i);
  }

  lemma PromoteStack(cfg: Config, w: Ways, i: nat)
    requires LruOk(w, cfg.assoc) && i < cfg.assoc && w.blks[i].valid && w.order != [] && cfg.policy == LRU
    ensures var p := Promote(cfg, w, i);
            && LruOk(p, cfg.assoc) && Stack(p) == Use(Stack(w), cfg.assoc, w.blks[i].tag)
            && p.order != [] && p.order[0] == i && p.blks == w.blks && w.blks[i].tag in Stack(w)
  {
    hide ValidFirst, Perm, Tags, LruOk, Use;
    if w.order[0] == i {
      UseTop(w, cfg.assoc, i);
    } else {
      PromoteUses(w, cfg.assoc, i);
    }
    InStack(w, cfg.assoc, i);
  }

  lemma InStack(w: Ways, n: nat, i: nat)
    requires LruOk(w, n) && i < n && w.blks[i].valid
    ensures w.blks[i].tag in Stack(w)
  {
    hide ValidFirst, Perm;
    PermHas(w.order, n, i);
    TagsMember(w.order, w.blks, w.blks[i].tag);
  }

  lemma SlowUses(c: Cache, b: nat, s: nat, i: nat, ofs: nat, cmd: Command)
    requires LruInv(c) && Shaped(c) && FoundAt(c, b, s, i) && ofs + Size(cmd) <= c.cfg.bsize
    ensures var d := SlowHit(c, s, i, b, ofs, cmd); var t := c.sets[s].blks[i].tag;
            Used(c, d, s, t) && LastFirst(d) && d.hits == c.hits + 1 && t in StackOf(c, s)
  {
    hide Stored, Core, ValidFirst, Perm, Tags, BlockNo, LruOk, Use, Promote, SetOf, TagOf, Shaped, LastOk, TouchBlock;
    ShapedGives(c);
    var d := TouchBlock(c, s, i, ofs, cmd);
    TouchStack(c, s, i, ofs, cmd);
    OrderNonempty(d.sets[s], c.cfg.assoc);
    PromoteStack(c.cfg, d.sets[s], i);
  }

  lemma OrderNonempty(w: Ways, n: nat)
    requires LruOk(w, n) && 0 < n
    ensures w.order != [] && w.order[|w.order| - 1] < n
  {
    hide ValidFirst, Tags;
    PermHas(w.order, n, 0);
  }

  lemma NotInStack(c: Cache, s: nat, t: nat)
    requires Core(c) && s < |c.sets| && |c.sets| == c.cfg.nsets && Resident(c.sets[s], t) < 0
    ensures t !in StackOf(c, s)
  {
    hide Chained, BlockOk, Perm, Resident, CfgOk;
    GetWays(c, s);
    NoResident(c.cfg, c.store, s, c.sets[s], t);
    TagsMember(c.sets[s].order, c.sets[s].blks, t);
  }

  lemma MissShapeLru(c: Cache, s: nat, tag: nat, ofs: nat, cmd: Command, random: nat)
    requires Shaped(c) && s < c.cfg.nsets && ofs + Size(cmd) <= c.cfg.bsize && c.cfg.policy == LRU
    requires Miss(c, s, tag, ofs, cmd, random).Done?
    ensures var d := Miss(c, s, tag, ofs, cmd, random).c; var w := c.sets[s]; var i := w.order[|w.order| - 1];
            && d.cfg == c.cfg && d.sets == c.sets[s := d.sets[s]] && |d.sets| == |c.sets|
            && |w.blks| == c.cfg.assoc && i < |w.blks|
            && |d.sets[s].blks| == |w.blks|
            && d.sets[s] == Ways(w.blks[i := d.sets[s].blks[i]], MoveTo(w.order, i, Head), d.sets[s].chains)
            && d.sets[s].blks[i].valid && d.sets[s].blks[i].tag == tag && d.last.Null? && d.hits == c.hits
  {
    hide Stored, Content, BlockNo, Fetched, Relink, MoveTo;
  }

  lemma MissUsesSet(c: Cache, s: nat, tag: nat, ofs: nat, cmd: Command, random: nat)
    requires LruInv(c) && Shaped(c) && s < c.cfg.nsets && ofs + Size(cmd) <= c.cfg.bsize
    requires var r := Miss(c, s, tag, ofs, cmd, random); r.Done? && Inv(r.c)
    requires Resident(c.sets[s], tag) < 0
    ensures var d := Miss(c, s, tag, ofs, cmd, random).c;
            Used(c, d, s, tag) && LastFirst(d) && d.hits == c.hits && tag !in StackOf(c, s)
  {
    hide Stored, Core, ValidFirst, Perm, Tags, LruOk, Use, Shaped, LastOk, Miss, MoveTo, Resident;
    ShapedGives(c);
    MissShapeLru(c, s, tag, ofs, cmd, random);
    var d := Miss(c, s, tag, ofs, cmd, random).c;
    var w := c.sets[s];
    OrderNonempty(w, c.cfg.assoc);
    var i := w.order[|w.order| - 1];
    NotInStack(c, s, tag);
    UniqueIn(d, s);
    MissUses(w, c.cfg.assoc, d.sets[s].blks[i], d.sets[s].chains);
  }

  lemma UniqueIn(c: Cache, s: nat)
    requires Core(c) && s < |c.sets| && |c.sets| == c.cfg.nsets
    ensures UniqueTags(c.sets[s].blks)
  {
    hide Chained, BlockOk, Perm, UniqueTags, CfgOk;
    GetWays(c, s);
  }

  lemma UsedKeeps(c: Cache, d: Cache, s: nat, t: nat)
    requires LruInv(c) && Inv(d) && Used(c, d, s, t) && LastFirst(d)
    ensures LruInv(d)
  {
    hide Inv, LruOk, Use;
  }

  /** An access uses its tag in its set, and counts a hit exactly when the stack holds it. */
  lemma AccessUses(c: Cache, cmd: Command, addr: nat, random: nat)
    requires LruInv(c) && Shaped(c) && Legal(c.cfg, cmd, addr) && !Crashes(c, addr)
    ensures var r := Access(c, cmd, addr, random); var b := BlockOf(c.cfg, addr); var s, t := SetOf(c.cfg, b), TagOf(c.cfg, b);
            && r.Done? && LruInv(r.c) && Used(c, r.c, s, t)
            && r.c.hits == c.hits + if t in StackOf(c, s) then 1 else 0
  {
    hide Core, TagOf, SetOf, OfsOf, BlockOf, Resident, Miss, SlowHit, TouchBlock, Fetched, FindIn, Searched, LruSets, Effect;
    hide AlignedAccess, LastOk, Shaped, LastFirst, Used, StackOf;
    var b, ofs := BlockOf(c.cfg, addr), OfsOf(c.cfg, addr);
    ShapedGives(c);
    LastZero(c);
    AccessIsFlat(c, cmd, addr, random);
    var d := Access(c, cmd, addr, random).c;
    if b == c.lastTagset {
      FastUses(c, ofs, cmd);
      LastBlock(c);
      BlockParts(c.cfg, c.sets[c.last.set_].blks[c.last.way].tag, c.last.set_);
      UsedKeeps(c, d, c.last.set_, c.sets[c.last.set_].blks[c.last.way].tag);
    } else {
      SearchFinds(c, b);
      var s, t := SetOf(c.cfg, b), TagOf(c.cfg, b);
      SetInRange(c.cfg, b);
      var i := FindIn(Searched(c.cfg, c.sets[s], t), c.sets[s].blks, t);
      if i >= 0 { SlowUses(c, b, s, i, ofs, cmd); } else { MissUsesSet(c, s, t, ofs, cmd, random); }
      UsedKeeps(c, d, s, t);
    }
  }

  /** A miss replaces a valid block only when its whole set is valid. */
  lemma EvictsOnlyWhenFull(c: Cache, s: nat)
    requires LruInv(c) && Shaped(c) && s < c.cfg.nsets
    ensures |c.sets| == c.cfg.nsets && |c.sets[s].blks| == c.cfg.assoc
    ensures var i := Victim(c.cfg, c.sets[s], 0).1;
            c.sets[s].blks[i].valid ==> forall j :: 0 <= j < c.cfg.assoc ==> c.sets[s].blks[j].valid
  {
    hide ValidFirst, Inv, MoveTo, Tags, UniqueTags;
    var w, n := c.sets[s], c.cfg.assoc;
    PermHas(w.order, n, 0);
    if w.blks[w.order[|w.order| - 1]].valid {
      LastValid(w.order, w.blks);
      AllValid(w.order, w.blks);
    }
  }

  lemma {:induction false} AllValid(q: seq<nat>, blks: seq<Block>)
    requires |Tags(q, blks)| == |q| && InRange(q, |blks|)
    ensures forall i :: i in q ==> blks[i].valid
  {
    if q != [] {
      TagsSize(q[1..], blks);
      AllValid(q[1..], blks);
      assert q == [q[0]] + q[1..];
    }
  }

  // ---- flushes ----

  lemma FlushAddrShape(c: Cache, addr: nat)
    requires Shaped(c)
    ensures var b := BlockOf(c.cfg, addr); var s, t := SetOf(c.cfg, b), TagOf(c.cfg, b);
            var i := FindIn(Searched(c.cfg, c.sets[s], t), c.sets[s].blks, t); var d := FlushAddr(c, addr); var w := c.sets[s];
            && d.cfg == c.cfg
            && (i < 0 ==> d == c)
            && (i >= 0 ==> d.last.Null? && d.sets == c.sets[s := w.(blks := w.blks[i := w.blks[i].(valid := false)],
                                                                    order := MoveTo(w.order, i, Tail))])
  {
    hide BlockOf, SetOf, TagOf, FindIn, Searched, MoveTo, BlockNo;
  }

  lemma FlushAddrDrops(c: Cache, addr: nat)
    requires LruInv(c) && Shaped(c)
    ensures var d := FlushAddr(c, addr); var b := BlockOf(c.cfg, addr); var s, t := SetOf(c.cfg, b), TagOf(c.cfg, b);
            && LruInv(d) && d.cfg == c.cfg && |d.sets| == |c.sets| && s < |c.sets|
            && (forall x :: 0 <= x < |c.sets| && x != s ==> d.sets[x] == c.sets[x])
            && StackOf(d, s) == Remove(StackOf(c, s), t) && d.hits == c.hits
  {
    hide BlockOf, SetOf, TagOf, FindIn, Searched, MoveTo, FlushAddr, Inv, LruOk, Stack, Unseen, Resident, FoundAt;
    hide View;
    ShapedGives(c);
    FlushAddrIsFlat(c, addr);
    FlushAddrShape(c, addr);
    var b := BlockOf(c.cfg, addr);
    var s, t := SetOf(c.cfg, b), TagOf(c.cfg, b);
    SetInRange(c.cfg, b);
    InvCore(c);
    SearchFinds(c, b);
    var i := FindIn(Searched(c.cfg, c.sets[s], t), c.sets[s].blks, t);
    if i >= 0 {
      FoundGives(c, b, s, i);
      DropRemoves(c.sets[s], c.cfg.assoc, i);
    } else {
      NotInStack(c, s, t);
      RemoveSize(StackOf(c, s), t);
    }
  }

  lemma InvCore(c: Cache)
    requires Inv(c)
    ensures Core(c)
  {
  }

  lemma FoundGives(c: Cache, b: nat, s: nat, i: nat)
    requires FoundAt(c, b, s, i)
    ensures s < |c.sets| && i < c.cfg.assoc && |c.sets[s].blks| == c.cfg.assoc
    ensures c.sets[s].blks[i].valid && c.sets[s].blks[i].tag == TagOf(c.cfg, b)
  {
  }

  lemma {:induction false} NoTags(q: seq<nat>, blks: seq<Block>)
    requires forall i :: 0 <= i < |blks| ==> !blks[i].valid
    ensures Tags(q, blks) == [] && ValidFirst(q, blks)
  {
    if q != [] { NoTags(q[1..], blks); }
  }

  lemma FlushEmpties(c: Cache)
    requires LruInv(c) && Shaped(c)
    ensures var d := Flush(c);
            && LruInv(d) && |d.sets| == |c.sets| && d.hits == c.hits && d.cfg == c.cfg
            && forall s :: 0 <= s < |d.sets| ==> StackOf(d, s) == []
  {
    hide Flush, View, Tags, ValidFirst, Core;
    ShapedGives(c);
    FlushIsFlat(c);
    var d := Flush(c);
    forall s | 0 <= s < |d.sets| ensures LruOk(d.sets[s], c.cfg.assoc) && StackOf(d, s) == [] {
      NoTags(d.sets[s].order, d.sets[s].blks);
      UniqueIn(d, s);
      OrderPerm(d, s);
      GetWays(d, s);
    }
    FlushNull(c);
  }

  lemma FlushNull(c: Cache)
    requires Core(c) && Shaped(c)
    ensures Flush(c).last.Null?
  {
    hide Core, View, FlushFrom, Emptied;
    ShapedGives(c);
    var c0 := c.(lastTagset := 0, last := Null);
    SameCoreKeeps(c, c0);
    ShapedAgain(c, c0);
    FlushFromIs(c0, 0);
  }

  // ---- inclusion ----

  /** Two LRU caches that differ at most in associativity, the second at least as associative. */
  ghost predicate Nested(c: Cache, d: Cache) {
    && c.cfg.nsets == d.cfg.nsets && c.cfg.bsize == d.cfg.bsize && c.cfg.assoc <= d.cfg.assoc
    && 0 < c.cfg.nsets && 0 < c.cfg.bsize && |c.sets| == c.cfg.nsets && |d.sets| == d.cfg.nsets
    && c.hits <= d.hits
    && forall s :: 0 <= s < |c.sets| ==> StackOf(c, s) <= StackOf(d, s)
  }

  lemma SameGeometry(c: Cache, d: Cache, addr: nat)
    requires Nested(c, d)
    ensures BlockOf(c.cfg, addr) == BlockOf(d.cfg, addr) && OfsOf(c.cfg, addr) == OfsOf(d.cfg, addr)
    ensures forall b :: SetOf(c.cfg, b) == SetOf(d.cfg, b) && TagOf(c.cfg, b) == TagOf(d.cfg, b)
  {
    hide StackOf;
  }

  lemma NestedAccess(c: Cache, d: Cache, cmd: Command, addr: nat, x: nat, y: nat)
    requires LruInv(c) && LruInv(d) && Shaped(c) && Shaped(d) && Nested(c, d)
    requires Legal(c.cfg, cmd, addr) && !Crashes(c, addr) && !Crashes(d, addr)
    ensures var r, q := Access(c, cmd, addr, x), Access(d, cmd, addr, y);
            r.Done? && q.Done? && LruInv(r.c) && LruInv(q.c) && Nested(r.c, q.c)
  {
    hide LruInv, Shaped, Access, BlockOf, OfsOf, SetOf, TagOf, AlignedAccess, LruOk, StackOf, Use, Crashes;
    SameGeometry(c, d, addr);
    AccessUses(c, cmd, addr, x);
    AccessUses(d, cmd, addr, y);
    var b := BlockOf(c.cfg, addr);
    var s, t := SetOf(c.cfg, b), TagOf(c.cfg, b);
    StackBound(c, s);
    StackBound(d, s);
    UseKeepsPrefix(StackOf(c, s), c.cfg.assoc, StackOf(d, s), d.cfg.assoc, t);
    var r, q := Access(c, cmd, addr, x).c, Access(d, cmd, addr, y).c;
    forall z | 0 <= z < |r.sets| ensures StackOf(r, z) <= StackOf(q, z) {
      if z != s { SameStack(c, r, z); SameStack(d, q, z); }
    }
    PrefixMember(StackOf(c, s), StackOf(d, s), t);
  }

  lemma PrefixMember(a: seq<nat>, b: seq<nat>, t: nat)
    requires a <= b
    ensures t in a ==> t in b
  {
  }

  lemma SameStack(c: Cache, d: Cache, s: nat)
    requires s < |c.sets| && s < |d.sets| && d.sets[s] == c.sets[s]
    ensures StackOf(d, s) == StackOf(c, s)
  {
  }

  lemma StackBound(c: Cache, s: nat)
    requires LruInv(c) && s < |c.sets|
    ensures |StackOf(c, s)| <= c.cfg.assoc
  {
    hide Inv, ValidFirst, Tags, Perm, UniqueTags;
  }

  lemma NestedFlushAddr(c: Cache, d: Cache, addr: nat)
    requires LruInv(c) && LruInv(d) && Shaped(c) && Shaped(d) && Nested(c, d)
    ensures var r, q := FlushAddr(c, addr), FlushAddr(d, addr); LruInv(r) && LruInv(q) && Nested(r, q)
  {
    hide LruInv, Shaped, FlushAddr, BlockOf, OfsOf, SetOf, TagOf, StackOf;
    SameGeometry(c, d, addr);
    FlushAddrDrops(c, addr);
    FlushAddrDrops(d, addr);
    var b := BlockOf(c.cfg, addr);
    var s, t := SetOf(c.cfg, b), TagOf(c.cfg, b);
    RemovePrefix(StackOf(c, s), StackOf(d, s), t);
    var r, q := FlushAddr(c, addr), FlushAddr(d, addr);
    forall z | 0 <= z < |r.sets| ensures StackOf(r, z) <= StackOf(q, z) {
      if z != s { SameStack(c, r, z); SameStack(d, q, z); }
    }
  }

  lemma NestedStep(c: Cache, d: Cache, e: Event)
    requires LruInv(c) && LruInv(d) && Shaped(c) && Shaped(d) && Nested(c, d)
    requires e.Do? ==> Legal(c.cfg, e.cmd, e.addr)
    ensures var r, q := Step(c, e), Step(d, e);
            r.Ran? && q.Ran? ==> LruInv(r.c) && LruInv(q.c) && Nested(r.c, q.c) && r.c.cfg == c.cfg && q.c.cfg == d.cfg
  {
    hide LruInv, Shaped, Access, Flush, FlushAddr, BlockOf, OfsOf, AlignedAccess, StackOf, Used, Crashes;
    match e
    case Do(cmd, addr, random) =>
      SameGeometry(c, d, addr);
      if Crashes(c, addr) {
        CrashesStop(c, cmd, addr, random);
      } else if Crashes(d, addr) {
        CrashesStop(d, cmd, addr, random);
      } else {
        NestedAccess(c, d, cmd, addr, random, random);
        UsedCfg(c, cmd, addr, random);
        UsedCfg(d, cmd, addr, random);
      }
    case FlushAll =>
      FlushEmpties(c);
      FlushEmpties(d);
    case FlushBlock(addr) =>
      NestedFlushAddr(c, d, addr);
      FlushAddrDrops(c, addr);
      FlushAddrDrops(d, addr);
  }

  lemma CrashesStop(c: Cache, cmd: Command, addr: nat, random: nat)
    requires LruInv(c) && Shaped(c) && Legal(c.cfg, cmd, addr) && Crashes(c, addr)
    ensures !Access(c, cmd, addr, random).Done?
  {
    hide Inv, Shaped, Access, Legal, Crashes;
    AccessIsFlat(c, cmd, addr, random);
  }

  lemma UsedCfg(c: Cache, cmd: Command, addr: nat, random: nat)
    requires LruInv(c) && Shaped(c) && Legal(c.cfg, cmd, addr) && !Crashes(c, addr)
    ensures Access(c, cmd, addr, random).Done? && Access(c, cmd, addr, random).c.cfg == c.cfg
  {
    hide LruInv, Shaped, Access, BlockOf, AlignedAccess, OfsOf, StackOf, LruOk, Use, Crashes;
    AccessUses(c, cmd, addr, random);
  }

  lemma LruShaped(c: Cache)
    requires LruInv(c)
    ensures Shaped(c)
  {
    hide Core, LruSets;
    InvShaped(c);
  }

  /** LRU stack inclusion over whole runs: for the same accesses and flushes, as long as neither cache meets the null
      block pointer, what the less associative cache holds is always the most recent part of what the more
      associative one holds, so it never hits more. */
  lemma {:induction false} StackInclusion(c: Cache, d: Cache, es: seq<Event>)
    requires LruInv(c) && LruInv(d) && Nested(c, d) && 0 < c.cfg.bsize && AllLegal(c.cfg, es)
    ensures var r, q := Run(c, es), Run(d, es); r.Ran? && q.Ran? ==> Nested(r.c, q.c)
    decreases |es|
  {
    hide LruInv, Shaped, Step, Nested, Legal, BlockOf;
    LruShaped(c);
    LruShaped(d);
    if es != [] {
      NestedStep(c, d, es[0]);
      assert AllLegal(c.cfg, es[1..]);
      if Step(c, es[0]).Ran? && Step(d, es[0]).Ran? { StackInclusion(Step(c, es[0]).c, Step(d, es[0]).c, es[1..]); }
    }
  }

  lemma CreateLru(cfg: Config, store: Store)
    requires CfgOk(cfg) && cfg.policy == LRU
    ensures LruInv(Create(cfg, store))
    ensures forall s :: 0 <= s < cfg.nsets ==> StackOf(Create(cfg, store), s) == []
  {
    hide Inv, Tags, ValidFirst, Perm, CfgOk, CountDown;
    CreateInv(cfg, store);
    var w := NewWays(cfg);
    NoTags(w.order, w.blks);
    CountDownPerm(cfg.assoc);
  }

  /** From power-up: run on the same events, the less associative of two LRU caches never hits more. */
  lemma SmallerNeverHitsMore(cfg: Config, big: Config, store: Store, es: seq<Event>)
    requires CfgOk(cfg) && CfgOk(big) && cfg.policy == LRU && big.policy == LRU
    requires big.nsets == cfg.nsets && big.bsize == cfg.bsize && cfg.assoc <= big.assoc
    requires 0 < cfg.bsize && AllLegal(cfg, es)
    ensures var r, q := Run(Create(cfg, store), es), Run(Create(big, store), es);
            r.Ran? && q.Ran? ==>
            && r.c.hits <= q.c.hits
            && |r.c.sets| == |q.c.sets| && forall s :: 0 <= s < |r.c.sets| ==> StackOf(r.c, s) <= StackOf(q.c, s)
    ensures AvoidsZero(cfg, es) ==> Run(Create(cfg, store), es).Ran? && Run(Create(big, store), es).Ran?
  {
    hide LruInv, StackOf, Run, AllLegal, NewWays, Inv, Shows;
    CfgGives(cfg);
    var c, d := Create(cfg, store), Create(big, store);
    CreateLru(cfg, store);
    CreateLru(big, store);
    StackInclusion(c, d, es);
    if AvoidsZero(cfg, es) {
      CreateInv(cfg, store);
      CreateInv(big, store);
      AvoidingRuns(c, store, es);
      AvoidingRuns(d, store, es);
    }
  }

  lemma CfgGives(cfg: Config)
    requires CfgOk(cfg)
    ensures 0 < cfg.nsets && 0 < cfg.bsize && 0 < cfg.assoc
  {
  }
}
