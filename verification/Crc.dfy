/** The table-driven CRC of misc.c is division by the generator polynomial of IEEE 802.3 section 3.2.9, bytes low
    to high and bits high first. */
module Crc {
  type Word = bv32

  const POLYNOMIAL: Word := 0x04c1_1db7

  function Top(c: Word): bool { c & 0x8000_0000 != 0 }
  function Xor(a: Word, b: Word): Word { a ^ b }
  function Shl(c: Word): Word { c << 1 }

  /** One step of the inner loop of crc_gentab. */
  function Shift(c: Word): Word { if Top(c) then Xor(Shl(c), POLYNOMIAL) else Shl(c) }

  function Shifts(c: Word, n: nat): Word
    decreases n
  {
    if n == 0 then c else Shift(Shifts(c, n - 1))
  }

  function Shl24(i: Word): Word { i << 24 }
  function Shl8(c: Word): Word { c << 8 }

  /** crc_table[i] */
  function TableEntry(i: Word): Word { Shifts(Shl24(i), 8) }

  function TableIndex(acc: Word, byte: Word): Word { ((acc >> 24) ^ byte) & 0xff }

  /** One iteration of the loop of crc. */
  function Step(acc: Word, byte: Word): Word {
    Xor(Shl8(acc), TableEntry(TableIndex(acc, byte)))
  }

  function ByteOf(data: Word, j: nat): (b: Word)
    requires j < 4
  {
    (data >> (8 * j)) & 0xff
  }

  /** crc over the first n bytes of a word. */
  function CrcBytes(acc: Word, data: Word, n: nat): Word
    requires n <= 4
    decreases n
  {
    if n == 0 then acc else Step(CrcBytes(acc, data, n - 1), ByteOf(data, n - 1))
  }

  function CrcWord(acc: Word, data: Word): Word { CrcBytes(acc, data, 4) }

  function CrcWords(acc: Word, ws: seq<Word>): Word
    decreases |ws|
  {
    if ws == [] then acc else CrcWord(CrcWords(acc, ws[..|ws| - 1]), ws[|ws| - 1])
  }

  // ---- bit-serial division ----

  /** The remainder register takes in one message bit. */
  function Feed(r: Word, bit: bool): Word {
    if Top(r) != bit then Xor(Shl(r), POLYNOMIAL) else Shl(r)
  }

  function FeedAll(r: Word, bits: seq<bool>): Word
    decreases |bits|
  {
    if bits == [] then r else Feed(FeedAll(r, bits[..|bits| - 1]), bits[|bits| - 1])
  }

  /** The first n bits of a word, high first. */
  function HighBits(b: Word, n: nat): seq<bool>
    decreases n
  {
    if n == 0 then [] else HighBits(b, n - 1) + [Top(Shls(b, n - 1))]
  }

  function Shls(c: Word, n: nat): Word
    decreases n
  {
    if n == 0 then c else Shl(Shls(c, n - 1))
  }

  /** The eight bits of a byte, high first. */
  function ByteBits(b: Word): seq<bool> { HighBits(Shl24(b), 8) }

  function WordBits(w: Word, n: nat): seq<bool>
    requires n <= 4
    decreases n
  {
    if n == 0 then [] else WordBits(w, n - 1) + ByteBits(ByteOf(w, n - 1))
  }

  function Message(ws: seq<Word>): seq<bool>
    decreases |ws|
  {
    if ws == [] then [] else Message(ws[..|ws| - 1]) + WordBits(ws[|ws| - 1], 4)
  }

  // ---- exclusive or ----

  lemma XorAssoc(a: Word, b: Word, c: Word)
    ensures Xor(Xor(a, b), c) == Xor(a, Xor(b, c))
  {
  }

  lemma XorComm(a: Word, b: Word)
    ensures Xor(a, b) == Xor(b, a)
  {
  }

  lemma XorCancels(a: Word, p: Word, b: Word)
    ensures Xor(Xor(a, p), Xor(b, p)) == Xor(a, b)
  {
    hide Xor;
    XorAssoc(a, p, Xor(b, p));
    XorComm(b, p);
    XorTwice(p, b);
  }

  lemma XorTwice(p: Word, b: Word)
    ensures Xor(p, Xor(p, b)) == b
  {
  }

  lemma TopXor(x: Word, y: Word)
    ensures Top(Xor(x, y)) == (Top(x) != Top(y))
  {
  }

  lemma ShlXor(x: Word, y: Word)
    ensures Shl(Xor(x, y)) == Xor(Shl(x), Shl(y))
  {
  }

  /** The shift is linear. */
  lemma ShiftLinear(x: Word, y: Word)
    ensures Shift(Xor(x, y)) == Xor(Shift(x), Shift(y))
  {
    hide Top, Xor, Shl;
    TopXor(x, y);
    ShlXor(x, y);
    XorCancels(Shl(x), POLYNOMIAL, Shl(y));
    XorAssoc(Shl(x), Shl(y), POLYNOMIAL);
    XorAssoc(Shl(x), POLYNOMIAL, Shl(y));
    XorComm(POLYNOMIAL, Shl(y));
  }

  lemma {:induction false} ShiftsLinear(x: Word, y: Word, n: nat)
    ensures Shifts(Xor(x, y), n) == Xor(Shifts(x, n), Shifts(y, n))
    decreases n
  {
    hide Shift, Xor;
    if n > 0 {
      ShiftsLinear(x, y, n - 1);
      ShiftLinear(Shifts(x, n - 1), Shifts(y, n - 1));
    }
  }

  // ---- eight steps at once ----

  /** Feeding a bit is shifting the register with the bit at its top. */
  lemma FeedIsShift(r: Word, b: Word)
    ensures Feed(r, Top(b)) == Xor(Shift(Xor(r, b)), Shl(b))
  {
    hide Top, Xor, Shl;
    TopXor(r, b);
    ShlXor(r, b);
    var x, y := Shl(r), Shl(b);
    XorComm(x, y);
    XorAssoc(Xor(x, y), POLYNOMIAL, y);
    XorComm(POLYNOMIAL, y);
    XorAssoc(Xor(x, y), y, POLYNOMIAL);
    XorComm(Xor(x, y), y);
    XorTwice(y, x);
  }

  /** The register after n bits of b, against n plain shifts of the two combined. */
  lemma {:induction false} FeedHigh(r: Word, b: Word, n: nat)
    ensures FeedAll(r, HighBits(b, n)) == Xor(Shifts(Xor(r, b), n), Shls(b, n))
    decreases n
  {
    hide Top, Xor, Shl, Shift, Feed;
    if n == 0 {
      XorComm(Xor(r, b), b);
      XorComm(r, b);
      XorTwice(b, r);
    } else {
      FeedHigh(r, b, n - 1);
      var bits := HighBits(b, n);
      assert bits[..n - 1] == HighBits(b, n - 1) by { HighSize(b, n - 1); }
      HighSize(b, n - 1);
      var s, c := Shifts(Xor(r, b), n - 1), Shls(b, n - 1);
      FeedIsShift(Xor(s, c), c);
      XorAssoc(s, c, c);
      XorComm(Xor(s, c), c);
      XorComm(s, c);
      XorTwice(c, s);
    }
  }

  lemma {:induction false} HighSize(b: Word, n: nat)
    ensures |HighBits(b, n)| == n
    decreases n
  {
    if n > 0 { HighSize(b, n - 1); }
  }

  lemma {:induction false} NoCarry(c: Word, n: nat)
    requires forall k: nat :: k < n ==> !Top(Shls(c, k))
    ensures Shifts(c, n) == Shls(c, n)
    decreases n
  {
    hide Top, Shl, Xor;
    if n > 0 { NoCarry(c, n - 1); }
  }

  /** The first eight shifts, one by one. */
  lemma EightShifts(c: Word)
    ensures Shls(c, 0) == c && Shls(c, 1) == c << 1 && Shls(c, 2) == c << 2 && Shls(c, 3) == c << 3
    ensures Shls(c, 4) == c << 4 && Shls(c, 5) == c << 5 && Shls(c, 6) == c << 6 && Shls(c, 7) == c << 7
    ensures Shls(c, 8) == Shl8(c)
  {
    hide Shl, Shl8;
    ShlSteps(c);
    assert Shls(c, 1) == Shl(Shls(c, 0));
    assert Shls(c, 2) == Shl(Shls(c, 1));
    assert Shls(c, 3) == Shl(Shls(c, 2));
    assert Shls(c, 4) == Shl(Shls(c, 3));
    assert Shls(c, 5) == Shl(Shls(c, 4));
    assert Shls(c, 6) == Shl(Shls(c, 5));
    assert Shls(c, 7) == Shl(Shls(c, 6));
    assert Shls(c, 8) == Shl(Shls(c, 7));
  }

  lemma ShlSteps(c: Word)
    ensures Shl(c) == c << 1 && Shl(c << 1) == c << 2 && Shl(c << 2) == c << 3 && Shl(c << 3) == c << 4
    ensures Shl(c << 4) == c << 5 && Shl(c << 5) == c << 6 && Shl(c << 6) == c << 7 && Shl(c << 7) == Shl8(c)
  {
  }

  predicate HighClear(c: Word) { c & 0xff00_0000 == 0 }

  lemma TopsClear(c: Word)
    requires HighClear(c)
    ensures !Top(c) && !Top(c << 1) && !Top(c << 2) && !Top(c << 3)
    ensures !Top(c << 4) && !Top(c << 5) && !Top(c << 6) && !Top(c << 7)
  {
  }

  /** With the high byte clear, eight steps only shift. */
  lemma LowShifts(c: Word)
    requires HighClear(c)
    ensures Shifts(c, 8) == Shl8(c)
  {
    hide Shl8, Shifts, Shls, Top, HighClear;
    EightShifts(c);
    TopsClear(c);
    NoCarry(c, 8);
  }

  // ---- a byte ----

  function LowPart(c: Word): Word { c & 0x00ff_ffff }

  /** The accumulator with a byte at its top: the table index there, and the rest. */
  lemma SplitTop(acc: Word, byte: Word)
    ensures Xor(acc, Shl24(byte)) == Xor(Shl24(TableIndex(acc, byte)), LowPart(acc))
  {
    hide Xor, Shl24, TableIndex, LowPart;
    SplitAcc(acc);
    IndexXor(acc, byte);
    XorAssoc(Shl24(acc >> 24), LowPart(acc), Shl24(byte));
    XorComm(LowPart(acc), Shl24(byte));
    XorAssoc(Shl24(acc >> 24), Shl24(byte), LowPart(acc));
  }

  lemma SplitAcc(acc: Word)
    ensures acc == Xor(Shl24(acc >> 24), LowPart(acc))
  {
  }

  lemma IndexXor(acc: Word, byte: Word)
    ensures Shl24(TableIndex(acc, byte)) == Xor(Shl24(acc >> 24), Shl24(byte))
  {
    Shl24Xor(acc >> 24, byte);
    Shl24Byte((acc >> 24) ^ byte);
  }

  lemma Shl24Xor(a: Word, b: Word)
    ensures Shl24(a ^ b) == Xor(Shl24(a), Shl24(b))
  {
  }

  lemma Shl24Byte(a: Word)
    ensures Shl24(a & 0xff) == Shl24(a)
  {
  }

  lemma LowPartIs(acc: Word)
    ensures HighClear(LowPart(acc)) && Shl8(LowPart(acc)) == Shl8(acc)
  {
  }

  lemma PushedOut(byte: Word)
    ensures Shl8(Shl24(byte)) == 0
  {
  }

  lemma XorZero(a: Word)
    ensures Xor(a, 0) == a
  {
  }

  /** One table look-up does what eight steps of the divider do. */
  lemma StepIsDivision(acc: Word, byte: Word)
    ensures Step(acc, byte) == FeedAll(acc, ByteBits(byte))
  {
    var top, low := Shl24(TableIndex(acc, byte)), LowPart(acc);
    SplitTop(acc, byte);
    LowPartIs(acc);
    PushedOut(byte);
    FeedHigh(acc, Shl24(byte), 8);
    EightShifts(Shl24(byte));
    ShiftsLinear(top, low, 8);
    LowShifts(low);
    XorZero(Shifts(Xor(acc, Shl24(byte)), 8));
    XorComm(Shifts(top, 8), Shl8(low));
    hide Xor, Shl24, Shl8, Shifts, FeedAll, HighBits, TableIndex, LowPart, Shls;
    assert Shls(Shl24(byte), 8) == 0;
  }

  // ---- words ----

  lemma {:induction false} FeedConcat(r: Word, x: seq<bool>, y: seq<bool>)
    ensures FeedAll(r, x + y) == FeedAll(FeedAll(r, x), y)
    decreases |y|
  {
    hide Feed;
    if y == [] {
      assert x + y == x;
    } else {
      assert (x + y)[..|x + y| - 1] == x + y[..|y| - 1];
      FeedConcat(r, x, y[..|y| - 1]);
    }
  }

  lemma {:induction false} BytesAreDivision(acc: Word, w: Word, n: nat)
    requires n <= 4
    ensures CrcBytes(acc, w, n) == FeedAll(acc, WordBits(w, n))
    decreases n
  {
    hide Step, Feed, ByteOf, ByteBits, FeedAll;
    if n == 0 {
      NothingFed(acc);
    } else {
      BytesAreDivision(acc, w, n - 1);
      StepIsDivision(CrcBytes(acc, w, n - 1), ByteOf(w, n - 1));
      FeedConcat(acc, WordBits(w, n - 1), ByteBits(ByteOf(w, n - 1)));
    }
  }

  lemma NothingFed(r: Word)
    ensures FeedAll(r, []) == r
  {
  }

  /** For every accumulator and every sequence of words, the table-driven CRC is bit-serial division. */
  lemma {:induction false} CrcIsDivision(acc: Word, ws: seq<Word>)
    ensures CrcWords(acc, ws) == FeedAll(acc, Message(ws))
    decreases |ws|
  {
    hide CrcBytes, WordBits, FeedAll;
    if ws == [] {
      NothingFed(acc);
    } else {
      var n := |ws| - 1;
      CrcIsDivision(acc, ws[..n]);
      BytesAreDivision(CrcWords(acc, ws[..n]), ws[n], 4);
      FeedConcat(acc, Message(ws[..n]), WordBits(ws[n], 4));
    }
  }

  // ---- as polynomials over two elements ----

  /** Sum of two polynomials of the same length, coefficients from the highest down. */
  function Sum(a: seq<bool>, b: seq<bool>): (r: seq<bool>)
    requires |a| == |b|
    ensures |r| == |a|
    ensures forall i {:trigger r[i]} :: 0 <= i < |r| ==> r[i] == (a[i] != b[i])
  {
    seq(|a|, i requires 0 <= i < |a| => a[i] != b[i])
  }

  function Zeros(n: nat): (r: seq<bool>)
    ensures |r| == n
    ensures forall i {:trigger r[i]} :: 0 <= i < n ==> !r[i]
  {
    seq(n, _ => false)
  }

  /** A word as a polynomial of degree at most 31, and the generator of degree 32. */
  function Poly(c: Word): (r: seq<bool>)
    ensures |r| == 32
  {
    HighSize(c, 32);
    HighBits(c, 32)
  }

  function Generator(): (r: seq<bool>)
    ensures |r| == 33
  {
    [true] + Poly(POLYNOMIAL)
  }

  /** q times the generator, by long multiplication. */
  function TimesGenerator(q: seq<bool>): (r: seq<bool>)
    ensures |r| == |q| + 32
    decreases |q|
  {
    if q == [] then Zeros(32)
    else
      var n := |q| - 1;
      Sum(TimesGenerator(q[..n]) + [false], Zeros(n) + if q[n] then Generator() else Zeros(33))
  }

  /** The quotient: one bit for each message bit, set when the divider subtracts the generator. */
  function Quotient(r: Word, bits: seq<bool>): (q: seq<bool>)
    ensures |q| == |bits|
    decreases |bits|
  {
    if bits == [] then []
    else
      var n := |bits| - 1;
      Quotient(r, bits[..n]) + [Top(FeedAll(r, bits[..n])) != bits[n]]
  }

  lemma {:induction false} ShlsFirst(c: Word, n: nat)
    ensures Shls(c, n + 1) == Shls(Shl(c), n)
    decreases n
  {
    hide Shl;
    if n > 0 { ShlsFirst(c, n - 1); }
  }

  lemma {:induction false} HighFirst(c: Word, n: nat)
    ensures HighBits(c, n + 1) == [Top(c)] + HighBits(Shl(c), n)
    decreases n
  {
    hide Shl, Top;
    if n == 0 {
      assert HighBits(c, 1) == HighBits(c, 0) + [Top(Shls(c, 0))];
    } else {
      HighFirst(c, n - 1);
      ShlsFirst(c, n - 1);
    }
  }

  lemma {:induction false} ShlsAdd(c: Word, m: nat, n: nat)
    ensures Shls(c, m + n) == Shls(Shls(c, m), n)
    decreases n
  {
    hide Shl;
    if n > 0 { ShlsAdd(c, m, n - 1); }
  }

  lemma AllShifted(c: Word)
    ensures Shls(c, 32) == 0
  {
    hide Shls, Shl8;
    ShlsAdd(c, 8, 24);
    ShlsAdd(Shls(c, 8), 8, 16);
    ShlsAdd(Shls(Shls(c, 8), 8), 8, 8);
    EightShifts(c);
    EightShifts(Shl8(c));
    EightShifts(Shl8(Shl8(c)));
    EightShifts(Shl8(Shl8(Shl8(c))));
    FourBytes(c);
  }

  lemma FourBytes(c: Word)
    ensures Shl8(Shl8(Shl8(Shl8(c)))) == 0
  {
  }

  /** Multiplying by x: append a zero coefficient, or split off the highest one. */
  lemma PolyShift(c: Word)
    ensures Poly(c) + [false] == [Top(c)] + Poly(Shl(c))
  {
    HighFirst(c, 32);
    AllShifted(c);
    ZeroTop();
    hide Top, Shl, Shls;
    assert HighBits(c, 33) == HighBits(c, 32) + [Top(Shls(c, 32))];
  }

  lemma ZeroTop()
    ensures !Top(0)
  {
  }

  lemma {:induction false} ShlsXor(x: Word, y: Word, n: nat)
    ensures Shls(Xor(x, y), n) == Xor(Shls(x, n), Shls(y, n))
    decreases n
  {
    hide Shl, Xor;
    if n > 0 {
      ShlsXor(x, y, n - 1);
      ShlXor(Shls(x, n - 1), Shls(y, n - 1));
    }
  }

  lemma {:induction false} HighXor(x: Word, y: Word, n: nat)
    ensures |HighBits(x, n)| == |HighBits(y, n)| == n
    ensures HighBits(Xor(x, y), n) == Sum(HighBits(x, n), HighBits(y, n))
    decreases n
  {
    hide Shls, Xor, Top;
    if n > 0 {
      HighXor(x, y, n - 1);
      ShlsXor(x, y, n - 1);
      TopXor(Shls(x, n - 1), Shls(y, n - 1));
    }
  }

  /** One step of long division: the shifted remainder plus the new bit at degree 32 is the quotient bit times
      the generator plus the new remainder. */
  lemma DivideBit(r: Word, b: bool)
    ensures var t := Top(r) != b;
            Sum(Poly(r) + [false], [b] + Zeros(32)) == Sum(if t then Generator() else Zeros(33), [false] + Poly(Feed(r, b)))
  {
    hide Top, Shl, Xor, HighBits, Poly, Sum, Zeros;
    var t := Top(r) != b;
    var q, p := Poly(Shl(r)), Poly(POLYNOMIAL);
    PolyShift(r);
    SumConcat([Top(r)], q, [b], Zeros(32));
    SumOne(Top(r), b);
    SumBack(q, p);
    if t {
      PolyXor(Shl(r), POLYNOMIAL);
      SumConcat([true], p, [false], Sum(q, p));
      SumOne(true, false);
    } else {
      assert Zeros(33) == [false] + Zeros(32);
      SumConcat([false], Zeros(32), [false], q);
      SumOne(false, false);
    }
  }

  lemma PolyXor(x: Word, y: Word)
    ensures Poly(Xor(x, y)) == Sum(Poly(x), Poly(y))
  {
    hide Xor;
    HighXor(x, y, 32);
  }

  lemma SumOne(a: bool, b: bool)
    ensures Sum([a], [b]) == [a != b]
  {
  }

  lemma SumBack(q: seq<bool>, p: seq<bool>)
    requires |q| == |p|
    ensures Sum(p, Sum(q, p)) == q && Sum(q, Zeros(|q|)) == q && Sum(Zeros(|q|), q) == q
  {
  }

  /** Sums of prefixed polynomials. */
  lemma SumConcat(a: seq<bool>, b: seq<bool>, c: seq<bool>, d: seq<bool>)
    requires |a| == |c| && |b| == |d|
    ensures Sum(a + b, c + d) == Sum(a, c) + Sum(b, d)
  {
  }

  lemma SumRegroup(a: seq<bool>, b: seq<bool>, c: seq<bool>, d: seq<bool>, e: seq<bool>)
    requires |a| == |b| == |c| == |d| == |e| && Sum(b, c) == Sum(d, e)
    ensures Sum(Sum(a, b), c) == Sum(Sum(a, d), e)
  {
    forall i | 0 <= i < |a| ensures Sum(Sum(a, b), c)[i] == Sum(Sum(a, d), e)[i] {
      assert Sum(b, c)[i] == Sum(d, e)[i];
    }
  }

  /** The divider divides: accumulator times x^n plus message times x^32 is quotient times generator plus
      remainder, and the remainder has degree below 32. */
  lemma {:induction false} DividerDivides(r: Word, bits: seq<bool>)
    ensures var n := |bits|;
            Sum(Poly(r) + Zeros(n), bits + Zeros(32)) ==
            Sum(TimesGenerator(Quotient(r, bits)), Zeros(n) + Poly(FeedAll(r, bits)))
    decreases |bits|
  {
    hide Feed, Top, Poly, Generator;
    var n := |bits|;
    if n == 0 {
      assert Poly(r) + Zeros(0) == Poly(r) && bits + Zeros(32) == Zeros(32) && Zeros(0) + Poly(r) == Poly(r);
    } else {
      DividerDivides(r, bits[..n - 1]);
      DivideOneMore(r, bits);
    }
  }

  lemma DivideOneMore(r: Word, bits: seq<bool>)
    requires bits != []
    requires var n := |bits| - 1;
             Sum(Poly(r) + Zeros(n), bits[..n] + Zeros(32)) ==
             Sum(TimesGenerator(Quotient(r, bits[..n])), Zeros(n) + Poly(FeedAll(r, bits[..n])))
    ensures var n := |bits|;
            Sum(Poly(r) + Zeros(n), bits + Zeros(32)) ==
            Sum(TimesGenerator(Quotient(r, bits)), Zeros(n) + Poly(FeedAll(r, bits)))
  {
    hide Feed, Top, Poly, Generator, FeedAll, TimesGenerator, Quotient;
    var n := |bits| - 1;
    var reg, p := FeedAll(r, bits[..n]), TimesGenerator(Quotient(r, bits[..n]));
    var t := Top(reg) != bits[n];
    QuotientStep(r, bits);
    DivideBit(reg, bits[n]);
    var tg := if t then Generator() else Zeros(33);
    // shift both sides of the smaller equation by one
    ShiftSum(Poly(r) + Zeros(n), bits[..n] + Zeros(32), p, Zeros(n) + Poly(reg));
    var left := (Poly(r) + Zeros(n)) + [false];
    assert left == Poly(r) + Zeros(n + 1);
    var bit := Zeros(n) + ([bits[n]] + Zeros(32));
    assert bits + Zeros(32) == Sum((bits[..n] + Zeros(32)) + [false], bit) by { AddBit(bits); }
    // and add the new bit
    SumConcat(Zeros(n), Poly(reg) + [false], Zeros(n), [bits[n]] + Zeros(32));
    SumConcat(Zeros(n), tg, Zeros(n), [false] + Poly(Feed(reg, bits[n])));
    assert (Zeros(n) + Poly(reg)) + [false] == Zeros(n) + (Poly(reg) + [false]);
    assert Zeros(n) + ([false] + Poly(Feed(reg, bits[n]))) == Zeros(n + 1) + Poly(Feed(reg, bits[n]));
    SumRegroup(p + [false], Zeros(n) + (Poly(reg) + [false]), bit, Zeros(n) + tg, Zeros(n + 1) + Poly(Feed(reg, bits[n])));
    SumAssoc(left, (bits[..n] + Zeros(32)) + [false], bit);
  }

  lemma QuotientStep(r: Word, bits: seq<bool>)
    requires bits != []
    ensures var n := |bits| - 1; var t := Top(FeedAll(r, bits[..n])) != bits[n];
            && FeedAll(r, bits) == Feed(FeedAll(r, bits[..n]), bits[n])
            && TimesGenerator(Quotient(r, bits)) ==
               Sum(TimesGenerator(Quotient(r, bits[..n])) + [false], Zeros(n) + if t then Generator() else Zeros(33))
  {
    hide Feed, Top, Generator;
    var n := |bits| - 1;
    assert Quotient(r, bits)[..n] == Quotient(r, bits[..n]);
  }

  lemma AddBit(bits: seq<bool>)
    requires bits != []
    ensures var n := |bits| - 1;
            bits + Zeros(32) == Sum((bits[..n] + Zeros(32)) + [false], Zeros(n) + ([bits[n]] + Zeros(32)))
  {
  }

  lemma ShiftSum(a: seq<bool>, b: seq<bool>, c: seq<bool>, d: seq<bool>)
    requires |a| == |b| == |c| == |d| && Sum(a, b) == Sum(c, d)
    ensures Sum(a + [false], b + [false]) == Sum(c + [false], d + [false])
  {
    SumConcat(a, [false], b, [false]);
    SumConcat(c, [false], d, [false]);
  }

  lemma SumAssoc(a: seq<bool>, b: seq<bool>, c: seq<bool>)
    requires |a| == |b| == |c|
    ensures Sum(Sum(a, b), c) == Sum(a, Sum(b, c))
  {
  }

  /** The CRC of misc.c is the remainder of polynomial division by the generator. */
  lemma CrcIsRemainder(acc: Word, ws: seq<Word>)
    ensures var bits := Message(ws); var n := |bits|;
            Sum(Poly(acc) + Zeros(n), bits + Zeros(32)) ==
            Sum(TimesGenerator(Quotient(acc, bits)), Zeros(n) + Poly(CrcWords(acc, ws)))
  {
    CrcIsDivision(acc, ws);
    DividerDivides(acc, Message(ws));
    hide *;
  }

  // ---- the table in place ----

  class CrcUnit {
    const table: array<Word>
    var init: bool

    ghost predicate Valid()
      reads this, table
    {
      table.Length == 256 && (init ==> Generated())
    }

    ghost predicate Generated()
      requires table.Length == 256
      reads table
    {
      forall i: nat :: i < 256 ==> table[i] == TableEntry(i as Word)
    }

    constructor ()
      ensures Valid() && fresh(table)
    {
      table := new Word[256](_ => 0);
      init := false;
    }

    /** crc_gentab */
    method CrcGentab()
      requires table.Length == 256
      modifies table
      ensures Generated()
    {
      hide Shift, Shl24, Shifts;
      for i := 0 to 256
        invariant forall j: nat :: j < i ==> table[j] == TableEntry(j as Word)
      {
        var entry := GenEntry(i as Word);
        table[i] := entry;
      }
    }

    /** The inner loop of crc_gentab. */
    method GenEntry(i: Word) returns (acc: Word)
      ensures acc == TableEntry(i)
    {
      hide Top, Xor, Shl, Shl24;
      acc := Shl24(i);
      for j := 0 to 8
        invariant acc == Shifts(Shl24(i), j)
      {
        if Top(acc) { acc := Xor(Shl(acc), POLYNOMIAL); } else { acc := Shl(acc); }
      }
    }

    /** crc */
    method Crc(acc: Word, data: Word) returns (r: Word)
      requires Valid()
      modifies this, table
      ensures Valid() && r == CrcWord(acc, data) && r == FeedAll(acc, WordBits(data, 4))
    {
      hide Shifts, Shl24, Shl8, Xor, FeedAll, WordBits, ByteOf, TableEntry;
      if !init {
        CrcGentab();
        init := true;
      }
      r := acc;
      for j := 0 to 4
        invariant Valid() && init && r == CrcBytes(acc, data, j)
      {
        var i := TableIndex(r, ByteOf(data, j));
        IndexSmall(r, ByteOf(data, j));
        assert table[i as nat] == TableEntry(i);
        r := Xor(Shl8(r), table[i as nat]);
      }
      BytesAreDivision(acc, data, 4);
    }
  }

  lemma IndexSmall(acc: Word, byte: Word)
    ensures TableIndex(acc, byte) as nat < 256
  {
  }
}
