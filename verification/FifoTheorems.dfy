/** The write-back cache is invisible: cache and memory together behave as flat memory. */
module FifoTheorems {
  import opened FifoCache

  // ---- write-back and fill ----

  /** cache_write_back changes exactly the four words of the line. */
  lemma FlushedAt(m: Memory, l: Line, i: nat, a: Address)
    requires |l.data| == 4 && i < 16 && Home(l.tag, i, 3) < 0x1_0000_0000 && Aligned(a)
    ensures At(Flushed(m, l, i), a) == if Index(a) == i && Tag(a) == l.tag then l.data[Slot(a)] else At(m, a)
  {
    hide Tag, Index, Slot;
    HomeIs(a);
    forall k: nat | k < 4 ensures Home(l.tag, i, k) == a <==> Tag(a) == l.tag && Index(a) == i && Slot(a) == k {
      HomeParts(l.tag, i, k);
    }
  }

  lemma LineFrame(m: Memory, v: Line, i: nat, l: Line, j: nat)
    requires |v.data| == 4 && i < 16 && Home(v.tag, i, 3) < 0x1_0000_0000
    requires LineOk(m, j, l) && j < 16 && (j != i || l.tag != v.tag)
    ensures LineOk(Flushed(m, v, i), j, l)
  {
    hide Flushed;
    forall k: nat | k < 4 ensures At(Flushed(m, v, i), Home(l.tag, j, k)) == At(m, Home(l.tag, j, k)) {
      HomeParts(l.tag, j, k);
      FlushedAt(m, v, i, Home(l.tag, j, k));
    }
  }

  lemma FillIs(m: Memory, a: Address)
    ensures var l := Fill(m, Tag(a), Index(a));
            LineOk(m, Index(a), l) && l.tag == Tag(a) && (Aligned(a) ==> l.data[Slot(a)] == At(m, a))
  {
    hide Slot;
    assert a / 16 == 16 * Tag(a) + Index(a) && a == 16 * (a / 16) + a % 16 by { assert a / 16 / 16 == a / 256; }
    if Aligned(a) { HomeIs(a); }
  }

  // ---- one access ----

  lemma SetIs(c: Cache, i: nat)
    requires Inv(c) && i < SETS
    ensures SetOk(c.mem, i, c.sets[i]) && SetShaped(c.sets[i])
  {
  }

  /** Replacing one set. */
  lemma ResidentUpdate(sets: seq<seq<Line>>, i: nat, lines: seq<Line>, n: nat)
    requires n <= |sets| && i < |sets|
    ensures Resident(sets[i := lines], n) == Resident(sets, n) + if i < n then |lines| - |sets[i]| else 0
  {
    if n > 0 { ResidentUpdate(sets, i, lines, n - 1); }
  }

  lemma HitKeepsInv(c: Cache, a: Address, r: Request)
    requires Inv(c) && Hits(c.sets[Index(a)], Tag(a)) > 0
    ensures Inv(Access(c, a, r).c)
  {
    hide Tag, Index, Slot, Hits, Search, Resident, Home;
    var i := Index(a);
    var lines := c.sets[i];
    SetIs(c, i);
    HitsIs(lines, Tag(a));
    SearchLines(lines, Tag(a), Slot(a), r);
    ResidentUpdate(c.sets, i, Search(lines, Tag(a), Slot(a), r), SETS);
    SearchSetOk(c.mem, i, lines, Search(lines, Tag(a), Slot(a), r));
  }

  lemma SearchSetOk(m: Memory, i: nat, lines: seq<Line>, t: seq<Line>)
    requires SetOk(m, i, lines) && |t| == |lines| && SetShaped(t)
    requires forall j :: 0 <= j < |lines| ==>
               && t[j].tag == lines[j].tag && t[j].valid == lines[j].valid
               && (t[j].dirty || (t[j].data == lines[j].data && !lines[j].dirty))
    ensures SetOk(m, i, t)
  {
    hide Home;
    forall j | 0 <= j < |t| ensures LineOk(m, i, t[j]) {
      assert LineOk(m, i, lines[j]);
    }
  }

  lemma HitView(c: Cache, a: Address, r: Request, b: Address)
    requires Inv(c) && Hits(c.sets[Index(a)], Tag(a)) > 0 && Aligned(a) && Aligned(b)
    ensures r.Get? ==> Access(c, a, r).word == View(c, a)
    ensures View(Access(c, a, r).c, b) == if r.Set? && b == a then r.v else View(c, b)
  {
    hide Tag, Index, Slot, Hits, Search, Found, Inv;
    InvShaped(c);
    var lines := c.sets[Index(a)];
    FoundMiss(lines, Tag(a), Slot(a), 0);
    SearchFound(lines, Tag(a), Slot(a), r, Tag(b), Slot(b), At(c.mem, b));
    HomeIs(a);
    HomeIs(b);
  }

  /** The set after a miss, before the accessor runs. */
  function Grown(lines: seq<Line>, l: Line): seq<Line> {
    (if |lines| >= SET_NUM then lines[1..] else lines) + [l]
  }

  /** Memory after a miss. */
  function Evicted(m: Memory, lines: seq<Line>, i: nat): Memory
    requires SetShaped(lines)
  {
    if |lines| >= SET_NUM && lines[0].dirty then Flushed(m, lines[0], i) else m
  }

  lemma MissIs(c: Cache, a: Address, r: Request)
    requires Shaped(c) && Hits(c.sets[Index(a)], Tag(a)) == 0
    ensures var i := Index(a); var lines, l := c.sets[i], Fill(c.mem, Tag(a), i);
            var d := Access(c, a, r); var g := Grown(lines, l);
            && d.c.sets == c.sets[i := g[|g| - 1 := Touch(l, Slot(a), r)]]
            && d.c.mem == Evicted(c.mem, lines, i)
            && (r.Get? ==> d.word == l.data[Slot(a)])
            && d.c.access == c.access + 1 && d.c.hit == c.hit && d.c.miss == c.miss + 1
            && d.c.replace == c.replace + (if |lines| >= SET_NUM then 1 else 0)
            && d.c.wb <= c.wb + (if |lines| >= SET_NUM then 1 else 0)
  {
    hide Tag, Index, Slot, Hits, Fill, Flushed, Touch;
  }

  /** The victim's write-back does not disturb any other line, nor what the rest of memory shows. */
  lemma EvictFrame(m: Memory, lines: seq<Line>, i: nat, l: Line, j: nat)
    requires SetOk(m, i, lines) && SetShaped(lines) && i < 16 && j < 16 && LineOk(m, j, l)
    requires j == i && |lines| >= SET_NUM ==> lines[0].tag != l.tag
    ensures LineOk(Evicted(m, lines, i), j, l)
  {
    hide Home, Flushed;
    if |lines| >= SET_NUM {
      assert LineOk(m, i, lines[0]);
      LineFrame(m, lines[0], i, l, j);
    }
  }

  lemma GrownSetOk(m: Memory, lines: seq<Line>, i: nat, l: Line, t: Line)
    requires SetOk(m, i, lines) && SetShaped(lines) && i < 16 && LineOk(m, i, l)
    requires forall j :: 0 <= j < |lines| ==> lines[j].tag != l.tag
    requires t.tag == l.tag && t.valid == l.valid && |t.data| == 4 && (t.dirty || t == l)
    ensures SetOk(Evicted(m, lines, i), i, Grown(lines, t)) && SetShaped(Grown(lines, t))
  {
    hide LineOk, Evicted;
    var m', g := Evicted(m, lines, i), Grown(lines, t);
    var d := if |lines| >= SET_NUM then 1 else 0;
    forall j | 0 <= j < |g| ensures LineOk(m', i, g[j]) && |g[j].data| == 4 {
      if j < |g| - 1 {
        assert g[j] == lines[j + d];
        EvictFrame(m, lines, i, lines[j + d], i);
      } else {
        EvictFrame(m, lines, i, l, i);
        TouchedOk(m', i, l, t);
      }
    }
  }

  lemma TouchedOk(m: Memory, i: nat, l: Line, t: Line)
    requires LineOk(m, i, l) && t.tag == l.tag && t.valid == l.valid && |t.data| == 4 && (t.dirty || t == l)
    ensures LineOk(m, i, t)
  {
  }

  lemma OtherSetOk(m: Memory, lines: seq<Line>, i: nat, others: seq<Line>, j: nat)
    requires SetOk(m, i, lines) && SetShaped(lines) && SetOk(m, j, others) && i < 16 && j < 16 && i != j
    ensures SetOk(Evicted(m, lines, i), j, others)
  {
    hide LineOk, Evicted;
    forall x | 0 <= x < |others| ensures LineOk(Evicted(m, lines, i), j, others[x]) {
      EvictFrame(m, lines, i, others[x], j);
    }
  }

  lemma MissKeepsInv(c: Cache, a: Address, r: Request)
    requires Inv(c) && Hits(c.sets[Index(a)], Tag(a)) == 0
    ensures Inv(Access(c, a, r).c)
  {
    hide Tag, Index, Slot, Hits, Fill, SetOk, Evicted, LineOk, Access, Resident;
    var i := Index(a);
    var lines, l := c.sets[i], Fill(c.mem, Tag(a), i);
    var d := Access(c, a, r).c;
    var t := Touch(l, Slot(a), r);
    SetIs(c, i);
    MissIs(c, a, r);
    FillIs(c.mem, a);
    NoMatch(c.mem, i, lines, Tag(a));
    GrownSetOk(c.mem, lines, i, l, t);
    assert d.sets[i] == Grown(lines, t);
    forall j | 0 <= j < SETS ensures SetOk(d.mem, j, d.sets[j]) {
      if j != i {
        SetIs(c, j);
        OtherSetOk(c.mem, lines, i, c.sets[j], j);
      }
    }
    ResidentUpdate(c.sets, i, Grown(lines, t), SETS);
    SetSize(c.mem, i, lines);
  }

  lemma SetSize(m: Memory, i: nat, lines: seq<Line>)
    requires SetOk(m, i, lines)
    ensures |lines| <= SET_NUM
  {
  }

  lemma NoMatch(m: Memory, i: nat, lines: seq<Line>, tag: nat)
    requires SetOk(m, i, lines) && Hits(lines, tag) == 0
    ensures forall j :: 0 <= j < |lines| ==> lines[j].tag != tag
  {
    hide Hits, Home;
    HitsIs(lines, tag);
    forall j | 0 <= j < |lines| ensures lines[j].tag != tag {
      assert LineOk(m, i, lines[j]) && !Matches(lines[j], tag);
    }
  }

  /** What address b shows in its own set when line t has been brought in for tag. */
  lemma GrownView(m: Memory, lines: seq<Line>, i: nat, t: Line, b: Address)
    requires SetOk(m, i, lines) && SetShaped(lines) && i < 16 && |t.data| == 4 && t.valid && Aligned(b) && Index(b) == i
    requires forall j :: 0 <= j < |lines| ==> lines[j].tag != t.tag
    requires SetShaped(Grown(lines, t))
    ensures Found(Grown(lines, t), Tag(b), Slot(b), At(Evicted(m, lines, i), b)) ==
            if Tag(b) == t.tag then t.data[Slot(b)] else Found(lines, Tag(b), Slot(b), At(m, b))
  {
    hide Tag, Slot, Index, Found, Home, Flushed;
    var rest := if |lines| >= SET_NUM then lines[1..] else lines;
    FoundAppend(rest, t, Tag(b), Slot(b), At(Evicted(m, lines, i), b));
    if |lines| >= SET_NUM {
      VictimView(m, lines, i, b);
    }
  }

  /** Dropping the head of a full set, after its write-back, changes nothing that is seen. */
  lemma VictimView(m: Memory, lines: seq<Line>, i: nat, b: Address)
    requires SetOk(m, i, lines) && SetShaped(lines) && i < 16 && |lines| >= SET_NUM && Aligned(b) && Index(b) == i
    ensures Found(lines[1..], Tag(b), Slot(b), At(Evicted(m, lines, i), b)) == Found(lines, Tag(b), Slot(b), At(m, b))
  {
    hide Tag, Slot, Index, Found, Flushed;
    assert LineOk(m, i, lines[0]);
    FoundRest(lines, Tag(b), Slot(b), At(Evicted(m, lines, i), b));
    FlushedAt(m, lines[0], i, b);
    if Matches(lines[0], Tag(b)) {
      FoundAt(lines, Tag(b), Slot(b), At(m, b), 0);
      HomeIs(b);
    } else {
      assert At(Evicted(m, lines, i), b) == At(m, b);
    }
  }

  lemma OtherView(m: Memory, lines: seq<Line>, i: nat, b: Address)
    requires SetOk(m, i, lines) && SetShaped(lines) && i < 16 && Aligned(b) && Index(b) != i
    ensures At(Evicted(m, lines, i), b) == At(m, b)
  {
    hide Tag, Slot, Index, Flushed;
    if |lines| >= SET_NUM {
      assert LineOk(m, i, lines[0]);
      FlushedAt(m, lines[0], i, b);
    }
  }

  lemma MissView(c: Cache, a: Address, r: Request, b: Address)
    requires Inv(c) && Hits(c.sets[Index(a)], Tag(a)) == 0 && Aligned(a) && Aligned(b)
    ensures r.Get? ==> Access(c, a, r).word == View(c, a)
    ensures View(Access(c, a, r).c, b) == if r.Set? && b == a then r.v else View(c, b)
  {
    hide Tag, Index, Slot, Hits, Fill, SetOk, Evicted, LineOk, Access, Found, Inv;
    InvShaped(c);
    var i := Index(a);
    var lines, l := c.sets[i], Fill(c.mem, Tag(a), i);
    var t := Touch(l, Slot(a), r);
    SetIs(c, i);
    MissIs(c, a, r);
    FillIs(c.mem, a);
    FillIs(c.mem, b);
    NoMatch(c.mem, i, lines, Tag(a));
    HomeIs(a);
    HomeIs(b);
    FoundMiss(lines, Tag(a), Slot(a), At(c.mem, a));
    if Index(b) == i {
      FillOk(l, c.mem, i);
      GrownView(c.mem, lines, i, t, b);
      FoundMiss(lines, Tag(b), Slot(b), At(c.mem, b));
      assert Access(c, a, r).c.sets[i] == Grown(lines, t);
    } else {
      OtherView(c.mem, lines, i, b);
    }
  }

  lemma FillOk(l: Line, m: Memory, i: nat)
    requires LineOk(m, i, l)
    ensures l.valid && |l.data| == 4
  {
  }

  /** One access: a read returns what the flat memory holds, a write changes exactly that word of it, and the
      invariant and the counter equations are kept. */
  lemma AccessIsFlat(c: Cache, a: Address, r: Request)
    requires Inv(c) && Aligned(a)
    ensures var d := Access(c, a, r);
            && Inv(d.c)
            && (r.Get? ==> d.word == View(c, a))
            && forall b: Address :: Aligned(b) ==> View(d.c, b) == if r.Set? && b == a then r.v else View(c, b)
  {
    hide Tag, Index, Slot, Hits, Access, Inv, View, Aligned;
    assert Shaped(c) by { InvShaped(c); }
    if Hits(c.sets[Index(a)], Tag(a)) > 0 { HitKeepsInv(c, a, r); } else { MissKeepsInv(c, a, r); }
    FlatAt(c, a, r, a);
    forall b: Address | Aligned(b) ensures View(Access(c, a, r).c, b) == if r.Set? && b == a then r.v else View(c, b) {
      FlatAt(c, a, r, b);
    }
  }

  lemma InvShaped(c: Cache)
    requires Inv(c)
    ensures Shaped(c)
  {
  }

  lemma FlatAt(c: Cache, a: Address, r: Request, b: Address)
    requires Inv(c) && Aligned(a) && Aligned(b)
    ensures r.Get? ==> Access(c, a, r).word == View(c, a)
    ensures View(Access(c, a, r).c, b) == if r.Set? && b == a then r.v else View(c, b)
  {
    hide Tag, Index, Slot, Hits, Access, Inv, View, Aligned;
    InvShaped(c);
    if Hits(c.sets[Index(a)], Tag(a)) > 0 { HitView(c, a, r, b); } else { MissView(c, a, r, b); }
  }

  // ---- flush ----

  lemma {:induction false} FlushLinesAt(m: Memory, lines: seq<Line>, n: nat, i: nat, b: Address)
    requires SetOk(m, i, lines) && SetShaped(lines) && n <= |lines| && i < 16 && Aligned(b) && SetShaped(lines[..n])
    ensures At(FlushLines(m, lines, n, i), b) ==
            if Index(b) == i then Found(lines[..n], Tag(b), Slot(b), At(m, b)) else At(m, b)
  {
    hide Tag, Index, Slot, Flushed, Home, SetOk;
    if n > 0 {
      assert lines[..n][..n - 1] == lines[..n - 1];
      FlushLinesAt(m, lines, n - 1, i, b);
      var l := lines[n - 1];
      LineIn(m, i, lines, n - 1);
      if l.dirty {
        FlushedAt(FlushLines(m, lines, n - 1, i), l, i, b);
      } else if Index(b) == i && Tag(b) == l.tag {
        CleanMatch(m, lines, n, i, b);
      }
    }
  }

  lemma LineIn(m: Memory, i: nat, lines: seq<Line>, j: nat)
    requires SetOk(m, i, lines) && j < |lines|
    ensures |lines[j].data| == 4 && lines[j].valid && Home(lines[j].tag, i, 3) < 0x1_0000_0000
  {
    assert LineOk(m, i, lines[j]);
  }

  lemma CleanMatch(m: Memory, lines: seq<Line>, n: nat, i: nat, b: Address)
    requires SetOk(m, i, lines) && SetShaped(lines) && 0 < n <= |lines| && Aligned(b) && Index(b) == i
    requires SetShaped(lines[..n - 1]) && Tag(b) == lines[n - 1].tag && !lines[n - 1].dirty
    ensures Found(lines[..n - 1], Tag(b), Slot(b), At(m, b)) == lines[n - 1].data[Slot(b)]
  {
    hide Tag, Index, Slot, Found, Hits, Home;
    HitsIs(lines[..n - 1], Tag(b));
    FoundMiss(lines[..n - 1], Tag(b), Slot(b), At(m, b));
    HomeIs(b);
    assert LineOk(m, i, lines[n - 1]);
  }

  lemma {:induction false} CleanFound(lines: seq<Line>, tag: nat, k: nat, word: Word)
    requires SetShaped(lines) && k < 4
    ensures Found(CleanLines(lines, |lines|), tag, k, word) == Found(lines, tag, k, word)
  {
    if lines != [] {
      var n := |lines| - 1;
      assert CleanLines(lines, |lines|)[..n] == CleanLines(lines[..n], n);
      CleanFound(lines[..n], tag, k, word);
    }
  }

  /** After the write-backs a set agrees with memory, so its lines may be marked clean. */
  lemma FlushedSetOk(m: Memory, lines: seq<Line>, i: nat)
    requires SetOk(m, i, lines) && SetShaped(lines) && i < 16
    ensures SetOk(FlushLines(m, lines, |lines|, i), i, CleanLines(lines, |lines|))
  {
    hide Found, Home, FlushLines, Tag, Index, Slot;
    var m' := FlushLines(m, lines, |lines|, i);
    assert lines[..|lines|] == lines;
    forall j, k: nat | 0 <= j < |lines| && k < 4 ensures lines[j].data[k] == At(m', Home(lines[j].tag, i, k)) {
      LineHome(m, i, lines[j], k);
      var b := Home(lines[j].tag, i, k);
      FlushLinesAt(m, lines, |lines|, i, b);
      FoundAt(lines, lines[j].tag, k, At(m, b), j);
    }
    forall j | 0 <= j < |lines| ensures LineOk(m', i, CleanLines(lines, |lines|)[j]) {
      assert LineOk(m, i, lines[j]);
    }
  }

  lemma LineHome(m: Memory, i: nat, l: Line, k: nat)
    requires LineOk(m, i, l) && i < 16 && k < 4
    ensures var b := Home(l.tag, i, k); b < 0x1_0000_0000 && Tag(b) == l.tag && Index(b) == i && Slot(b) == k && Aligned(b)
    ensures l.valid && |l.data| == 4
  {
    HomeParts(l.tag, i, k);
  }

  lemma FlushedOther(m: Memory, lines: seq<Line>, i: nat, others: seq<Line>, j: nat)
    requires SetOk(m, i, lines) && SetShaped(lines) && SetOk(m, j, others) && i < 16 && j < 16 && i != j
    ensures SetOk(FlushLines(m, lines, |lines|, i), j, others)
  {
    hide Found, Home, FlushLines, Tag, Index, Slot;
    var m' := FlushLines(m, lines, |lines|, i);
    forall x | 0 <= x < |others| ensures LineOk(m', j, others[x]) {
      assert LineOk(m, j, others[x]);
      forall k: nat | k < 4 ensures At(m', Home(others[x].tag, j, k)) == At(m, Home(others[x].tag, j, k)) {
        LineHome(m, j, others[x], k);
        FlushLinesAt(m, lines, |lines|, i, Home(others[x].tag, j, k));
      }
    }
  }

  ghost predicate AllClean(lines: seq<Line>) { forall j :: 0 <= j < |lines| ==> !lines[j].dirty }

  /** The first n sets written back. */
  ghost predicate FlushedTo(c: Cache, d: Cache, n: nat) {
    && Inv(d) && n <= SETS && Shaped(c)
    && (forall i :: 0 <= i < n ==> AllClean(d.sets[i]))
    && (forall i :: n <= i < SETS ==> d.sets[i] == c.sets[i])
    && (forall b: Address :: Aligned(b) ==> View(d, b) == View(c, b))
    && (forall b: Address :: Aligned(b) ==> At(d.mem, b) == if Index(b) < n then View(c, b) else At(c.mem, b))
  }

  /** cache_flush over one more set. */
  function FlushOne(d: Cache, i: nat): (r: Cache)
    requires Shaped(d) && i < SETS
    ensures Shaped(r)
  {
    d.(sets := d.sets[i := CleanLines(d.sets[i], |d.sets[i]|)], mem := FlushLines(d.mem, d.sets[i], |d.sets[i]|, i))
  }

  lemma FlushOneInv(d: Cache, i: nat)
    requires Inv(d) && i < SETS
    ensures Inv(FlushOne(d, i))
  {
    hide SetOk, FlushLines, CleanLines, Resident;
    var r := FlushOne(d, i);
    SetIs(d, i);
    FlushedSetOk(d.mem, d.sets[i], i);
    forall j | 0 <= j < SETS ensures SetOk(r.mem, j, r.sets[j]) {
      if j != i { SetIs(d, j); FlushedOther(d.mem, d.sets[i], i, d.sets[j], j); }
    }
    ResidentUpdate(d.sets, i, CleanLines(d.sets[i], |d.sets[i]|), SETS);
  }

  lemma FlushOneView(d: Cache, i: nat, b: Address)
    requires Inv(d) && i < SETS && Aligned(b)
    ensures View(FlushOne(d, i), b) == View(d, b)
    ensures At(FlushOne(d, i).mem, b) == if Index(b) == i then View(d, b) else At(d.mem, b)
  {
    hide FlushLines, CleanLines, Found, Tag, Index, Slot, Inv;
    InvShaped(d);
    var lines := d.sets[i];
    SetIs(d, i);
    assert lines[..|lines|] == lines;
    FlushLinesAt(d.mem, lines, |lines|, i, b);
    CleanFound(lines, Tag(b), Slot(b), At(FlushOne(d, i).mem, b));
    if Index(b) == i { FoundTwice(lines, Tag(b), Slot(b), At(d.mem, b)); }
  }

  lemma FoundTwice(lines: seq<Line>, tag: nat, k: nat, word: Word)
    requires SetShaped(lines) && k < 4
    ensures Found(lines, tag, k, Found(lines, tag, k, word)) == Found(lines, tag, k, word)
  {
    FoundMiss(lines, tag, k, word);
  }

  lemma {:induction false} FlushSetsStage(c: Cache, n: nat)
    requires Inv(c) && n <= SETS
    ensures FlushedTo(c, FlushSets(c, n), n)
  {
    hide Inv, View, Index, FlushLines, CleanLines, Aligned, AllClean;
    InvShaped(c);
    if n > 0 {
      FlushSetsStage(c, n - 1);
      var d := FlushSets(c, n - 1);
      InvShaped(d);
      assert FlushSets(c, n) == FlushOne(d, n - 1);
      FlushOneInv(d, n - 1);
      CleanIsClean(d.sets[n - 1]);
      forall b: Address | Aligned(b)
        ensures View(FlushOne(d, n - 1), b) == View(c, b)
        ensures At(FlushOne(d, n - 1).mem, b) == if Index(b) < n then View(c, b) else At(c.mem, b)
      {
        FlushOneView(d, n - 1, b);
      }
    }
  }

  lemma CleanIsClean(lines: seq<Line>)
    ensures AllClean(CleanLines(lines, |lines|))
  {
  }

  /** After cache_flush memory alone holds the flat contents, no line is dirty, and nothing seen has changed. */
  lemma FlushIsFlat(c: Cache)
    requires Inv(c)
    ensures Shaped(c) && Inv(Flush(c))
    ensures forall b: Address :: Aligned(b) ==> At(Flush(c).mem, b) == View(c, b) && View(Flush(c), b) == View(c, b)
    ensures forall i, j :: 0 <= i < SETS && 0 <= j < |Flush(c).sets[i]| ==> !Flush(c).sets[i][j].dirty
  {
    hide Inv, View, FlushSets;
    InvShaped(c);
    FlushSetsStage(c, SETS);
    forall i | 0 <= i < SETS ensures AllClean(Flush(c).sets[i]) {}
  }

  // ---- whole runs ----

  datatype Event = Do(a: Address, r: Request) | FlushAll

  function RunCache(c: Cache, es: seq<Event>): (r: (Cache, seq<Word>))
    requires Shaped(c)
    ensures Shaped(r.0)
    decreases |es|
  {
    if es == [] then (c, [])
    else if es[0].FlushAll? then RunCache(Flush(c), es[1..])
    else
      var d := Access(c, es[0].a, es[0].r);
      var rest := RunCache(d.c, es[1..]);
      (rest.0, (if es[0].r.Get? then [d.word] else []) + rest.1)
  }

  /** The same run on flat memory. */
  function RunFlat(m: Memory, es: seq<Event>): (Memory, seq<Word>)
    decreases |es|
  {
    if es == [] then (m, [])
    else if es[0].FlushAll? then RunFlat(m, es[1..])
    else if es[0].r.Set? then RunFlat(m[es[0].a := es[0].r.v], es[1..])
    else
      var rest := RunFlat(m, es[1..]);
      (rest.0, [At(m, es[0].a)] + rest.1)
  }

  ghost predicate AlignedRun(es: seq<Event>) {
    forall i :: 0 <= i < |es| && es[i].Do? ==> Aligned(es[i].a)
  }

  ghost predicate Shows(c: Cache, m: Memory) {
    Shaped(c) && forall b: Address :: Aligned(b) ==> View(c, b) == At(m, b)
  }

  /** Any run of reads, writes and flushes reads the words that flat memory would give, and ends showing the
      flat memory it would leave. */
  lemma {:induction false} RunsAreFlat(c: Cache, m: Memory, es: seq<Event>)
    requires Inv(c) && Shows(c, m) && AlignedRun(es)
    ensures RunCache(c, es).1 == RunFlat(m, es).1
    ensures Inv(RunCache(c, es).0) && Shows(RunCache(c, es).0, RunFlat(m, es).0)
    decreases |es|
  {
    hide Inv, View, Access, Flush, Aligned;
    if es != [] {
      assert AlignedRun(es[1..]);
      if es[0].FlushAll? {
        FlushIsFlat(c);
        RunsAreFlat(Flush(c), m, es[1..]);
      } else {
        AccessIsFlat(c, es[0].a, es[0].r);
        RunsAreFlat(Access(c, es[0].a, es[0].r).c, if es[0].r.Set? then m[es[0].a := es[0].r.v] else m, es[1..]);
      }
    }
  }

  lemma InitInv(m: Memory)
    ensures Inv(Init(m)) && Shows(Init(m), m)
  {
    hide Tag, Index, Slot;
    assert forall i :: 0 <= i < SETS ==> EmptySets()[i] == [];
    ResidentNone(SETS);
  }

  lemma {:induction false} ResidentNone(n: nat)
    requires n <= SETS
    ensures Resident(EmptySets(), n) == 0
  {
    if n > 0 { ResidentNone(n - 1); }
  }

  /** The statistics of any run: every access hits or misses, misses not replaced are resident lines, and
      write-backs never exceed replacements. */
  lemma CountersBalance(m: Memory, es: seq<Event>)
    requires AlignedRun(es)
    ensures var c := RunCache(Init(m), es).0;
            c.hit + c.miss == c.access && c.miss == c.replace + Resident(c.sets, SETS) && c.wb <= c.replace
  {
    hide RunCache, Resident, SetOk;
    InitInv(m);
    RunsAreFlat(Init(m), m, es);
  }
}
