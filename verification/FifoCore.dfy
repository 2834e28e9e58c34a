/** The write-back cache as sim-pipe.c keeps it: an array of set lists, the memory beneath it and the counters. */
module FifoCore {
  import opened FifoCache
  import opened FifoTheorems

  class CacheUnit {
    const sets: array<seq<Line>>
    var mem: Memory
    var access: nat
    var hit: nat
    var miss: nat
    var replace: nat
    var wb: nat

    ghost function Snap(): Cache
      reads this, sets
    {
      Cache(sets[..], mem, access, hit, miss, replace, wb)
    }

    ghost predicate Valid()
      reads this, sets
    {
      Inv(Snap())
    }

    constructor (m: Memory)
      ensures Snap() == FifoCache.Init(m) && Valid() && fresh(sets)
    {
      sets := new seq<Line>[SETS](_ => []);
      mem, access, hit, miss, replace, wb := m, 0, 0, 0, 0, 0;
      new;
      assert sets[..] == EmptySets();
      InitInv(m);
    }

    method SetLines(i: nat, lines: seq<Line>)
      requires i < sets.Length
      modifies sets
      ensures Snap() == old(Snap()).(sets := old(sets[..])[i := lines])
    {
      sets[i] := lines;
    }

    /** malloc_cache_line */
    method MallocCacheLine(tag: nat, i: nat) returns (l: Line)
      ensures l == Fill(mem, tag, i)
    {
      var data: seq<Word> := [];
      for k := 0 to 4
        invariant |data| == k && forall j :: 0 <= j < k ==> data[j] == At(mem, Home(tag, i, j))
      {
        data := data + [At(mem, Home(tag, i, k))];
      }
      assert data == Fill(mem, tag, i).data;
      return Line(data, tag, false, true, 0);
    }

    /** The store loop of cache_write_back. */
    method CacheWriteBack(l: Line, i: nat)
      requires |l.data| == 4
      modifies `mem
      ensures mem == Flushed(old(mem), l, i)
    {
      hide Home;
      for k := 0 to 4
        invariant mem == FlushWords(old(mem), l, i, k)
      {
        mem := mem[Home(l.tag, i, k) := l.data[k]];
      }
      AllFourWords(old(mem), l, i);
    }

    /** add_into_cache_set, with the queue operations en_cache_set and de_cache_set */
    method AddIntoCacheSet(i: nat, l: Line)
      requires Shaped(Snap()) && i < SETS && |l.data| == 4
      modifies this, sets
      ensures Snap() == Insert(old(Snap()), i, l)
    {
      hide Flushed;
      ghost var s := Snap();
      if |sets[i]| >= SET_NUM {
        if sets[i][0].dirty {
          wb := wb + 1;
          CacheWriteBack(sets[i][0], i);
        }
        replace := replace + 1;
        SetLines(i, sets[i][1..]);
      }
      SetLines(i, sets[i] + [l]);
      assert |s.sets[i]| >= SET_NUM ==>
          s.sets[i := s.sets[i][1..]][i := s.sets[i][1..] + [l]] == s.sets[i := s.sets[i][1..] + [l]];
    }

    /** cache_access */
    method CacheAccess(a: Address, r: Request) returns (word: Word, cycles: nat)
      requires Valid() && Aligned(a)
      modifies this, sets
      ensures Valid()
      ensures r.Get? ==> word == View(old(Snap()), a)
      ensures forall b: Address :: Aligned(b) ==> View(Snap(), b) == if r.Set? && b == a then r.v else View(old(Snap()), b)
      ensures Access(old(Snap()), a, r) == Reply(Snap(), word, cycles)
    {
      hide Inv, View, Access, Aligned;
      InvShaped(Snap());
      AccessIsFlat(Snap(), a, r);
      word, cycles := Lookup(a, r);
    }

    method Lookup(a: Address, r: Request) returns (word: Word, cycles: nat)
      requires Shaped(Snap())
      modifies this, sets
      ensures Access(old(Snap()), a, r) == Reply(Snap(), word, cycles)
    {
      hide Tag, Index, Slot, Hits, Search, Found, Touch, Insert, Fill;
      ghost var s := Snap();
      var tag, i, k := Tag(a), Index(a), Slot(a);
      access := access + 1;
      ghost var s1 := Snap();
      var found, w := SearchSet(tag, i, k, r);
      word := w;
      if found { return word, 1; }
      assert s1.sets == Snap().sets by { NothingFound(s.sets[i], tag, k, r); }
      miss := miss + 1;
      var line := MallocCacheLine(tag, i);
      AddIntoCacheSet(i, line);
      var n := |sets[i]| - 1;
      if r.Get? { word := sets[i][n].data[k]; }
      SetLines(i, sets[i][n := Touch(sets[i][n], k, r)]);
      return word, 10;
    }

    /** The search loop of cache_access: it visits the whole set and touches every line that matches. */
    method SearchSet(tag: nat, i: nat, k: nat, r: Request) returns (found: bool, word: Word)
      requires Shaped(Snap()) && i < SETS && k < 4
      modifies this, sets
      ensures var lines := old(Snap()).sets[i];
              && (found <==> Hits(lines, tag) > 0)
              && Snap() == old(Snap()).(sets := old(Snap()).sets[i := Search(lines, tag, k, r)],
                                        hit := old(hit) + Hits(lines, tag))
              && word == (if r.Set? then r.v else Found(lines, tag, k, 0))
    {
      hide Touch;
      var lines := sets[i];
      var done: seq<Line> := [];
      found, word := false, if r.Set? then r.v else 0;
      assert lines[..0] == [];
      for j := 0 to |lines|
        invariant SetShaped(lines[..j]) && done == Search(lines[..j], tag, k, r)
        invariant found <==> Hits(lines[..j], tag) > 0
        invariant hit == old(hit) + Hits(lines[..j], tag)
        invariant word == if r.Set? then r.v else Found(lines[..j], tag, k, 0)
        invariant Snap() == old(Snap()).(hit := hit)
      {
        assert lines[..j + 1][..j] == lines[..j];
        var l := lines[j];
        if l.valid && tag == l.tag {
          found := true;
          hit := hit + 1;
          if r.Get? { word := l.data[k]; }
          l := Touch(l.(refs := l.refs + 1), k, r);
        }
        done := done + [l];
      }
      assert lines[..|lines|] == lines;
      SetLines(i, done);
    }

    /** cache_read */
    method CacheRead(a: Address) returns (word: Word, cycles: nat)
      requires Valid() && Aligned(a)
      modifies this, sets
      ensures Valid() && word == View(old(Snap()), a)
      ensures forall b: Address :: Aligned(b) ==> View(Snap(), b) == View(old(Snap()), b)
    {
      hide Inv, View, Access, Aligned;
      word, cycles := CacheAccess(a, Get);
    }

    /** cache_write */
    method CacheWrite(a: Address, v: Word) returns (cycles: nat)
      requires Valid() && Aligned(a)
      modifies this, sets
      ensures Valid()
      ensures forall b: Address :: Aligned(b) ==> View(Snap(), b) == if b == a then v else View(old(Snap()), b)
    {
      hide Inv, View, Access, Aligned;
      var w;
      w, cycles := CacheAccess(a, Set(v));
    }

    /** cache_flush */
    method CacheFlush()
      requires Valid()
      modifies this, sets
      ensures Snap() == Flush(old(Snap())) && Valid()
      ensures forall b: Address :: Aligned(b) ==> At(mem, b) == View(old(Snap()), b)
    {
      hide Inv, View, FlushSets, FlushOne, Aligned;
      ghost var s := Snap();
      InvShaped(s);
      FlushIsFlat(s);
      assert FlushSets(s, 0) == s by { NoSets(s); }
      for i := 0 to SETS
        invariant Shaped(Snap()) && Snap() == FlushSets(s, i)
      {
        FlushSet(i);
        NextSet(s, i);
      }
    }

    /** The inner loop of cache_flush. */
    method FlushSet(i: nat)
      requires Shaped(Snap()) && i < SETS
      modifies this, sets
      ensures Snap() == FlushOne(old(Snap()), i)
    {
      ghost var s := Snap();
      var lines := sets[i];
      var done: seq<Line> := lines;
      assert lines == CleanLines(lines, 0);
      for j := 0 to |lines|
        invariant done == CleanLines(lines, j) && sets[..] == s.sets
        invariant Snap() == s.(mem := FlushLines(s.mem, lines, j, i))
      {
        if done[j].dirty {
          CacheWriteBack(lines[j], i);
          done := done[j := done[j].(dirty := false)];
        }
        assert done == CleanLines(lines, j + 1);
      }
      SetLines(i, done);
    }
  }

  /** The first n words of a line stored. */
  function FlushWords(m: Memory, l: Line, i: nat, n: nat): Memory
    requires n <= |l.data|
  {
    if n == 0 then m else FlushWords(m, l, i, n - 1)[Home(l.tag, i, n - 1) := l.data[n - 1]]
  }

  lemma AllFourWords(m: Memory, l: Line, i: nat)
    requires |l.data| == 4
    ensures FlushWords(m, l, i, 4) == Flushed(m, l, i)
  {
    hide Home;
    assert FlushWords(m, l, i, 1) == m[Home(l.tag, i, 0) := l.data[0]];
    assert FlushWords(m, l, i, 2) == m[Home(l.tag, i, 0) := l.data[0]][Home(l.tag, i, 1) := l.data[1]];
  }

  lemma NothingFound(lines: seq<Line>, tag: nat, k: nat, r: Request)
    requires SetShaped(lines) && k < 4 && Hits(lines, tag) == 0
    ensures Search(lines, tag, k, r) == lines
  {
    if lines != [] { NothingFound(lines[..|lines| - 1], tag, k, r); }
  }

  lemma NoSets(s: Cache)
    requires Shaped(s)
    ensures FlushSets(s, 0) == s
  {
  }

  lemma NextSet(s: Cache, i: nat)
    requires Shaped(s) && i < SETS
    ensures FlushSets(s, i + 1) == FlushOne(FlushSets(s, i), i)
  {
  }
}
