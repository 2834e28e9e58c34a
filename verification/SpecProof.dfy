/** Speculation refines a private copy: wrong-path reads see the last wrong-path write or else memory, and
    tracer_recover brings everything back. */
module SpecProof {
  import opened Accesses
  import opened Buckets
  import opened SpecState

  // ---- the table ----

  /** The data the table holds for an address. */
  ghost predicate Held(t: Tracer, a: Addr)
    requires Shaped(t)
  {
    a in ChainMap(t.table[Hash(a)])
  }

  ghost function DataAt(t: Tracer, a: Addr): seq<Byte>
    requires Shaped(t) && Held(t, a)
  {
    ChainMap(t.table[Hash(a)])[a]
  }

  /** Every chain names each address once, only addresses that hash to it, with eight bytes each. */
  ghost predicate TableOk(t: Tracer)
    requires Shaped(t)
  {
    forall h :: 0 <= h < STORE_HASH_SIZE ==> ChainOk(t.table[h], h)
  }

  ghost predicate ChainOk(q: seq<Entry>, h: nat) {
    Unique(q) && forall i :: 0 <= i < |q| ==> Hash(q[i].key) == h && |q[i].val| == 8
  }

  /** What a speculative read of n bytes gives. */
  ghost function SpecBytes(t: Tracer, a: Addr, n: nat): seq<Byte>
    requires Shaped(t)
  {
    if Held(t, a) then (if n <= |DataAt(t, a)| then DataAt(t, a)[..n] else []) else Bytes(t.mem, a, n)
  }

  lemma ChainMapData(q: seq<Entry>, h: nat, a: Addr)
    requires ChainOk(q, h) && a in ChainMap(q)
    ensures |ChainMap(q)[a]| == 8
  {
    ChainMapIs(q);
    var i :| 0 <= i < |q| && q[i].key == a;
  }

  // ---- one access ----

  /** A read changes no mapping and returns the table's data or memory. */
  lemma SpecRead(t: Tracer, a: Addr, n: nat)
    requires Shaped(t) && TableOk(t) && AlignedAccess(a, n) && Permitted(t.lim, a, Read(n)) && Sized(n)
    ensures var r := SpecAccess(t, Read(n), a);
            && r.Done? && TableOk(r.t) && r.bytes == SpecBytes(t, a, n)
            && (forall b: Addr :: Held(r.t, b) == Held(t, b) && (Held(t, b) ==> DataAt(r.t, b) == DataAt(t, b)))
            && r.t == t.(table := r.t.table) && Used(r.t.table, STORE_HASH_SIZE) == Used(t.table, STORE_HASH_SIZE)
  {
    hide ChainMap, Hash, AlignedAccess, Permitted, Searched, Unique;
    var h := Hash(a);
    var q := t.table[h];
    assert ChainOk(q, h);
    SearchedIs(q, a);
    SearchedEntries(q, a, h);
    var r := SpecAccess(t, Read(n), a);
    assert r.t == t.(table := t.table[h := Searched(q, a)]);
    UsedUpdate(t.table, h, Searched(q, a), STORE_HASH_SIZE);
    if Held(t, a) { ChainMapData(q, h, a); }
  }

  lemma SearchedEntries(q: seq<Entry>, a: Addr, h: nat)
    requires ChainOk(q, h)
    ensures ChainOk(Searched(q, a), h)
  {
    hide Hash, Unique, ChainMap, ToFront;
    SearchedIs(q, a);
    var k := Find(q, a);
    if k > 0 {
      forall i | 0 <= i < |q| ensures ToFront(q, k)[i] == q[Origin(k, i)] { ToFrontAt(q, k, i); }
    }
  }

  lemma {:induction false} UsedUpdate(table: seq<seq<Entry>>, h: nat, q: seq<Entry>, n: nat)
    requires n <= |table| && h < |table|
    ensures Used(table[h := q], n) == Used(table, n) + if h < n then |q| - |table[h]| else 0
  {
    if n > 0 { UsedUpdate(table, h, q, n - 1); }
  }

  /** The chain after a write to a. */
  ghost function Written(q: seq<Entry>, a: Addr, bytes: seq<Byte>): seq<Entry> {
    var r := Searched(q, a);
    var r1 := if r != [] && r[0].key == a then r else [Node(a, Zeros(8))] + r;
    [r1[0].(val := Patch(r1[0].val, bytes))] + r1[1..]
  }

  lemma WrittenIs(q: seq<Entry>, a: Addr, h: nat, bytes: seq<Byte>)
    requires ChainOk(q, h) && Hash(a) == h && |bytes| <= 8
    ensures var w := Written(q, a, bytes); var was := if a in ChainMap(q) then ChainMap(q)[a] else Zeros(8);
            && |was| == 8 && ChainOk(w, h) && ChainMap(w) == ChainMap(q)[a := Patch(was, bytes)]
            && |w| == |q| + if a in ChainMap(q) then 0 else 1
  {
    hide ChainMap, Hash, Searched, Unique, Patch, Zeros;
    SearchedIs(q, a);
    SearchedEntries(q, a, h);
    var r := Searched(q, a);
    if a in ChainMap(q) {
      ChainMapData(q, h, a);
      ChangeHead(r, Patch(r[0].val, bytes));
    } else {
      PushHead(r, Node(a, Zeros(8)));
      var r1 := [Node(a, Zeros(8))] + r;
      ChangeHead(r1, Patch(r1[0].val, bytes));
    }
  }

  lemma SpecWriteIs(t: Tracer, a: Addr, bytes: seq<Byte>)
    requires Shaped(t) && AlignedAccess(a, |bytes|) && Permitted(t.lim, a, Write(bytes)) && Sized(|bytes|)
    ensures var r := SpecAccess(t, Write(bytes), a); var h := Hash(a);
            && r.Done? && r.t.table == t.table[h := Written(t.table[h], a, bytes)]
            && r.t == t.(table := r.t.table, spare := r.t.spare, made := r.t.made)
            && r.t.made - r.t.spare == t.made - t.spare + |r.t.table[h]| - |t.table[h]|
  {
    hide Hash, AlignedAccess, Permitted, Searched, Patch, Zeros;
  }

  /** The data an entry for the address has before a write: eight zeros if there is none yet. */
  ghost function Before(t: Tracer, a: Addr): seq<Byte>
    requires Shaped(t)
  {
    if Held(t, a) then DataAt(t, a) else Zeros(8)
  }

  /** A write changes the mapping of its address alone, and of its data only the first bytes. */
  lemma SpecWrite(t: Tracer, a: Addr, bytes: seq<Byte>)
    requires Shaped(t) && TableOk(t) && AlignedAccess(a, |bytes|) && Permitted(t.lim, a, Write(bytes)) && Sized(|bytes|)
    ensures var r := SpecAccess(t, Write(bytes), a);
            && r.Done? && TableOk(r.t) && r.t == t.(table := r.t.table, spare := r.t.spare, made := r.t.made)
            && Held(r.t, a) && |Before(t, a)| == 8 && DataAt(r.t, a) == bytes + Before(t, a)[|bytes|..]
            && (forall b: Addr :: b != a ==> Held(r.t, b) == Held(t, b) && (Held(t, b) ==> DataAt(r.t, b) == DataAt(t, b)))
            && r.t.made - r.t.spare - Used(r.t.table, STORE_HASH_SIZE) == t.made - t.spare - Used(t.table, STORE_HASH_SIZE)
  {
    hide ChainMap, Hash, AlignedAccess, Permitted, Searched, Unique, SpecAccess, Written, ChainOk;
    var h := Hash(a);
    assert ChainOk(t.table[h], h);
    SpecWriteIs(t, a, bytes);
    WrittenIs(t.table[h], a, h, bytes);
    UsedUpdate(t.table, h, Written(t.table[h], a, bytes), STORE_HASH_SIZE);
  }
}
