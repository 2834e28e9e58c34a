/** The project's write-back cache of sim-pipe.c over word memory: 16 sets of at most 4 lines of 4 words, each
    set a first-in-first-out list. */
module FifoCache {
  import opened Arith

  type Word = bv32
  type Address = a: nat | a < 0x1_0000_0000

  const SET_NUM: nat := 4
  const SETS: nat := 16

  /** ADDR_TAG, ADDR_INDEX and the word of ADDR_OFFSET. */
  function Tag(a: Address): nat { a / 256 }
  function Index(a: Address): (i: nat) ensures i < 16 { a / 16 % 16 }
  function Slot(a: Address): (k: nat) ensures k < 4 { a % 16 / 4 }
  predicate Aligned(a: Address) { a % 4 == 0 }

  /** Where word k of the line with this tag belongs. */
  function Home(tag: nat, i: nat, k: nat): nat { 256 * tag + 16 * i + 4 * k }

  /** The address macros split a word-aligned address, and put it together again. */
  lemma HomeIs(a: Address)
    requires Aligned(a)
    ensures Home(Tag(a), Index(a), Slot(a)) == a
  {
    var b := a / 16;
    assert b / 16 == a / 256 by { assert a == 16 * b + a % 16; assert b == 16 * (b / 16) + b % 16; }
  }

  lemma HomeParts(tag: nat, i: nat, k: nat)
    requires i < 16 && k < 4 && Home(tag, i, k) < 0x1_0000_0000
    ensures var a := Home(tag, i, k); Tag(a) == tag && Index(a) == i && Slot(a) == k && Aligned(a)
  {
    var a := Home(tag, i, k);
    DivModUnique(a, 16 * tag + i, 4 * k, 16);
    DivModUnique(a, tag, 16 * i + 4 * k, 256);
    DivModUnique(16 * tag + i, tag, i, 16);
    DivModUnique(4 * k, k, 0, 4);
    DivModUnique(a, 64 * tag + 4 * i + k, 0, 4);
  }

  datatype Line = Line(data: seq<Word>, tag: nat, dirty: bool, valid: bool, refs: nat)

  type Memory = map<nat, Word>

  function At(m: Memory, a: nat): Word { if a in m then m[a] else 0 }

  /** What the accessor does: cache_word_read or cache_word_write. */
  datatype Request = Get | Set(v: Word)

  datatype Cache = Cache(sets: seq<seq<Line>>, mem: Memory, access: nat, hit: nat, miss: nat, replace: nat, wb: nat)

  predicate Shaped(c: Cache) {
    && |c.sets| == SETS
    && forall i, j :: 0 <= i < SETS && 0 <= j < |c.sets[i]| ==> |c.sets[i][j].data| == 4
  }

  predicate SetShaped(lines: seq<Line>) {
    forall j :: 0 <= j < |lines| ==> |lines[j].data| == 4
  }

  /** func(line, word, offset) */
  function Touch(l: Line, k: nat, r: Request): (t: Line)
    requires |l.data| == 4 && k < 4
    ensures |t.data| == 4
  {
    if r.Set? then l.(data := l.data[k := r.v], dirty := true) else l
  }

  predicate Matches(l: Line, tag: nat) { l.valid && tag == l.tag }

  /** The search loop of cache_access: every matching line is touched. */
  function Search(lines: seq<Line>, tag: nat, k: nat, r: Request): (t: seq<Line>)
    requires SetShaped(lines) && k < 4
    ensures |t| == |lines| && SetShaped(t)
  {
    if lines == [] then []
    else
      var l := lines[|lines| - 1];
      Search(lines[..|lines| - 1], tag, k, r)
        + [if Matches(l, tag) then Touch(l.(refs := l.refs + 1), k, r) else l]
  }

  function Hits(lines: seq<Line>, tag: nat): nat {
    if lines == [] then 0
    else Hits(lines[..|lines| - 1], tag) + if Matches(lines[|lines| - 1], tag) then 1 else 0
  }

  /** The word cache_word_read leaves in *word. */
  function Found(lines: seq<Line>, tag: nat, k: nat, word: Word): Word
    requires SetShaped(lines) && k < 4
  {
    if lines == [] then word
    else if Matches(lines[|lines| - 1], tag) then lines[|lines| - 1].data[k]
    else Found(lines[..|lines| - 1], tag, k, word)
  }

  /** malloc_cache_line */
  function Fill(m: Memory, tag: nat, i: nat): (l: Line)
    ensures |l.data| == 4
  {
    Line([At(m, Home(tag, i, 0)), At(m, Home(tag, i, 1)), At(m, Home(tag, i, 2)), At(m, Home(tag, i, 3))],
         tag, false, true, 0)
  }

  /** cache_write_back on memory */
  function Flushed(m: Memory, l: Line, i: nat): Memory
    requires |l.data| == 4
  {
    m[Home(l.tag, i, 0) := l.data[0]][Home(l.tag, i, 1) := l.data[1]]
     [Home(l.tag, i, 2) := l.data[2]][Home(l.tag, i, 3) := l.data[3]]
  }

  /** add_into_cache_set, after the line was filled */
  function Insert(c: Cache, i: nat, l: Line): (d: Cache)
    requires Shaped(c) && i < SETS && |l.data| == 4
    ensures Shaped(d) && |d.sets[i]| > 0
  {
    var lines := c.sets[i];
    if |lines| >= SET_NUM then
      c.(sets := c.sets[i := lines[1..] + [l]], replace := c.replace + 1,
         mem := if lines[0].dirty then Flushed(c.mem, lines[0], i) else c.mem,
         wb := if lines[0].dirty then c.wb + 1 else c.wb)
    else c.(sets := c.sets[i := lines + [l]])
  }

  datatype Reply = Reply(c: Cache, word: Word, cycles: nat)

  /** cache_access */
  function Access(c: Cache, a: Address, r: Request): (reply: Reply)
    requires Shaped(c)
    ensures Shaped(reply.c)
  {
    var tag, i, k := Tag(a), Index(a), Slot(a);
    var word := if r.Set? then r.v else 0;
    var c1 := c.(access := c.access + 1);
    if Hits(c.sets[i], tag) > 0 then
      Reply(c1.(sets := c.sets[i := Search(c.sets[i], tag, k, r)], hit := c.hit + Hits(c.sets[i], tag)),
            if r.Get? then Found(c.sets[i], tag, k, word) else word, 1)
    else
      var d := Insert(c1.(miss := c.miss + 1), i, Fill(c.mem, tag, i));
      var n := |d.sets[i]| - 1;
      Reply(d.(sets := d.sets[i := d.sets[i][n := Touch(d.sets[i][n], k, r)]]),
            if r.Get? then d.sets[i][n].data[k] else word, 10)
  }

  /** cache_flush over the first n lines of set i. */
  function CleanLines(lines: seq<Line>, n: nat): (t: seq<Line>)
    requires n <= |lines|
    ensures |t| == |lines| && (SetShaped(lines) ==> SetShaped(t))
  {
    seq(|lines|, j requires 0 <= j < |lines| => if j < n then lines[j].(dirty := false) else lines[j])
  }
  function FlushLines(m: Memory, lines: seq<Line>, n: nat, i: nat): Memory
    requires SetShaped(lines) && n <= |lines|
  {
    if n == 0 then m
    else
      var m1 := FlushLines(m, lines, n - 1, i);
      if lines[n - 1].dirty then Flushed(m1, lines[n - 1], i) else m1
  }

  /** cache_flush over the first n sets. */
  function FlushSets(c: Cache, n: nat): (d: Cache)
    requires Shaped(c) && n <= SETS
    ensures Shaped(d) && forall i :: n <= i < SETS ==> d.sets[i] == c.sets[i]
  {
    if n == 0 then c
    else
      var d := FlushSets(c, n - 1);
      d.(sets := d.sets[n - 1 := CleanLines(d.sets[n - 1], |d.sets[n - 1]|)],
         mem := FlushLines(d.mem, d.sets[n - 1], |d.sets[n - 1]|, n - 1))
  }

  function Flush(c: Cache): (d: Cache)
    requires Shaped(c)
    ensures Shaped(d)
  {
    FlushSets(c, SETS)
  }

  function EmptySets(): seq<seq<Line>> { seq(SETS, _ => []) }

  function Init(m: Memory): Cache { Cache(EmptySets(), m, 0, 0, 0, 0, 0) }

  // ---- the invariant ----

  /** A line that is not dirty equals memory. */
  ghost predicate LineOk(m: Memory, i: nat, l: Line) {
    && |l.data| == 4 && l.valid && Home(l.tag, i, 3) < 0x1_0000_0000
    && (!l.dirty ==> forall k :: 0 <= k < 4 ==> l.data[k] == At(m, Home(l.tag, i, k)))
  }

  ghost predicate UniqueTags(lines: seq<Line>) {
    forall j, k :: 0 <= j < k < |lines| ==> lines[j].tag != lines[k].tag
  }

  ghost predicate SetOk(m: Memory, i: nat, lines: seq<Line>) {
    && |lines| <= SET_NUM && UniqueTags(lines)
    && forall j :: 0 <= j < |lines| ==> LineOk(m, i, lines[j])
  }

  /** Resident lines of the first n sets. */
  function Resident(sets: seq<seq<Line>>, n: nat): nat
    requires n <= |sets|
  {
    if n == 0 then 0 else Resident(sets, n - 1) + |sets[n - 1]|
  }

  ghost predicate Counts(c: Cache) {
    && |c.sets| == SETS && c.hit + c.miss == c.access
    && c.miss == c.replace + Resident(c.sets, SETS) && c.wb <= c.replace
  }

  ghost predicate Inv(c: Cache) {
    && Shaped(c) && Counts(c)
    && forall i :: 0 <= i < SETS ==> SetOk(c.mem, i, c.sets[i])
  }

  /** The contents of the cache and the memory beneath it, as one flat memory. */
  function View(c: Cache, a: Address): Word
    requires Shaped(c)
  {
    Found(c.sets[Index(a)], Tag(a), Slot(a), At(c.mem, a))
  }

  // ---- the search ----

  lemma {:induction false} FoundMiss(lines: seq<Line>, tag: nat, k: nat, word: Word)
    requires SetShaped(lines) && k < 4
    ensures Hits(lines, tag) == 0 ==> Found(lines, tag, k, word) == word
    ensures forall w :: Hits(lines, tag) > 0 ==> Found(lines, tag, k, w) == Found(lines, tag, k, word)
  {
    if lines != [] { FoundMiss(lines[..|lines| - 1], tag, k, word); }
  }

  lemma {:induction false} HitsIs(lines: seq<Line>, tag: nat)
    ensures Hits(lines, tag) > 0 <==> exists j :: 0 <= j < |lines| && Matches(lines[j], tag)
    ensures UniqueTags(lines) ==> Hits(lines, tag) <= 1
  {
    if lines != [] {
      var n := |lines| - 1;
      HitsIs(lines[..n], tag);
      if Hits(lines[..n], tag) > 0 {
        var j :| 0 <= j < n && Matches(lines[..n][j], tag);
        assert Matches(lines[j], tag);
      }
      if j :| 0 <= j < n && Matches(lines[j], tag) { assert Matches(lines[..n][j], tag); }
    }
  }

  lemma {:induction false} FoundAt(lines: seq<Line>, tag: nat, k: nat, word: Word, j: nat)
    requires SetShaped(lines) && k < 4 && UniqueTags(lines) && j < |lines| && Matches(lines[j], tag)
    ensures Found(lines, tag, k, word) == lines[j].data[k]
  {
    var n := |lines| - 1;
    if j < n {
      assert lines[..n][j] == lines[j];
      FoundAt(lines[..n], tag, k, word, j);
    }
  }

  lemma {:induction false} SearchFound(lines: seq<Line>, tag: nat, k: nat, r: Request, tag': nat, k': nat, word: Word)
    requires SetShaped(lines) && k < 4 && k' < 4
    ensures Found(Search(lines, tag, k, r), tag', k', word) ==
            if r.Set? && Hits(lines, tag) > 0 && tag' == tag && k' == k then r.v else Found(lines, tag', k', word)
  {
    if lines != [] {
      var n := |lines| - 1;
      SearchFound(lines[..n], tag, k, r, tag', k', word);
      var t := Search(lines, tag, k, r);
      assert t[..n] == Search(lines[..n], tag, k, r);
    }
  }

  lemma {:induction false} SearchLines(lines: seq<Line>, tag: nat, k: nat, r: Request)
    requires SetShaped(lines) && k < 4
    ensures forall j :: 0 <= j < |lines| ==>
              var t := Search(lines, tag, k, r)[j];
              && t.tag == lines[j].tag && t.valid == lines[j].valid
              && (t.dirty || (t.data == lines[j].data && !lines[j].dirty))
  {
    if lines != [] { SearchLines(lines[..|lines| - 1], tag, k, r); }
  }

  lemma {:induction false} FoundRest(lines: seq<Line>, tag: nat, k: nat, word: Word)
    requires SetShaped(lines) && k < 4 && lines != [] && UniqueTags(lines)
    ensures !Matches(lines[0], tag) ==> Found(lines[1..], tag, k, word) == Found(lines, tag, k, word)
    ensures Matches(lines[0], tag) ==> Found(lines[1..], tag, k, word) == word
  {
    var n := |lines| - 1;
    if n > 0 {
      assert lines[1..][..n - 1] == lines[..n][1..];
      FoundRest(lines[..n], tag, k, word);
    }
  }

  lemma FoundAppend(lines: seq<Line>, l: Line, tag: nat, k: nat, word: Word)
    requires SetShaped(lines) && |l.data| == 4 && k < 4
    ensures Found(lines + [l], tag, k, word) == if Matches(l, tag) then l.data[k] else Found(lines, tag, k, word)
  {
    assert (lines + [l])[..|lines|] == lines;
  }
}
