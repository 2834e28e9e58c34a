/** The conversion loops of misc.c: digits developed backwards into a buffer, and digits accumulated from a string. */
module NumeralCore {
  import opened Arith
  import opened Numerals

  // ---- machine arithmetic ----

  /** x >> 1 on a signed 64-bit value. */
  function HalfDown(x: S64): S64 { x / 2 }

  /** x & ~HIBITL */
  function ClearHigh(x: S64): S64 { if x < 0 then x + LL_MAX + 1 else x }

  lemma LogicalHalf(x: S64)
    ensures ClearHigh(HalfDown(x)) == Unsigned64(x) / 2
  {
  }

  /** Truncation keeps the residue, and any 32-bit number with that residue is the truncation. */
  lemma Int32Residue(x: int)
    ensures (x - Int32(x)) % 0x1_0000_0000 == 0
  {
    var m := 0x1_0000_0000;
    var q := (x + 0x8000_0000) / m;
    assert x - Int32(x) == q * m;
    DivModUnique(x - Int32(x), q, 0, m);
  }

  lemma Int32Unique(x: int, y: int)
    requires (x - y) % 0x1_0000_0000 == 0 && -0x8000_0000 <= y < 0x8000_0000
    ensures Int32(x) == y
  {
    var m := 0x1_0000_0000;
    var q := (x - y) / m;
    assert x - y == q * m;
    DivModUnique(x + 0x8000_0000, q, y + 0x8000_0000, m);
  }

  /** The digit character as computed from two truncated quotients, with every operation on ints. */
  function TruncatedDigit(before: int, after: int): int {
    Int32(Int32(Int32(before) - Int32(Int32(after) * 10)) + 48)
  }

  /** Truncating the quotients to 32 bits does not lose the digit. */
  lemma DigitSurvives(q: nat)
    ensures TruncatedDigit(q, q / 10) == q % 10 + 48
  {
    hide Int32;
    var m := 0x1_0000_0000;
    var a, b := Int32(q), Int32(q / 10);
    var c := Int32(b * 10);
    var d := Int32(a - c);
    Int32Residue(q);
    Int32Residue(q / 10);
    Int32Residue(b * 10);
    Int32Residue(a - c);
    Residues(q, a, b, c, d);
    Int32Unique(d + 48, q % 10 + 48);
  }

  lemma Residues(q: nat, a: int, b: int, c: int, d: int)
    requires (q - a) % 0x1_0000_0000 == 0 && (q / 10 - b) % 0x1_0000_0000 == 0
    requires (b * 10 - c) % 0x1_0000_0000 == 0 && (a - c - d) % 0x1_0000_0000 == 0
    ensures (d + 48 - (q % 10 + 48)) % 0x1_0000_0000 == 0
  {
    var m := 0x1_0000_0000;
    var w, x, y, z := (q - a) / m, (q / 10 - b) / m, (b * 10 - c) / m, (a - c - d) / m;
    assert q - a == w * m && q / 10 - b == x * m && b * 10 - c == y * m && a - c - d == z * m;
    var k := -w + 10 * x + y - z;
    assert d - q % 10 == k * m;
    DivModUnique(d - q % 10, k, 0, m);
  }

  /** _lowdigit: the last decimal digit of the number with val's bit pattern, and the rest of it. */
  method LowDigit(val: S64) returns (digit: char, rest: S64)
    ensures digit == DigitChar(Unsigned64(val) % 10, false) && rest == Unsigned64(val) / 10
  {
    var lowbit := val % 2;
    var value := ClearHigh(HalfDown(val));
    LogicalHalf(val);
    LowBits(val);
    rest := value / 5;
    digit := (value % 5 * 2 + lowbit + 48) as char;
  }

  lemma LowBits(val: S64)
    ensures var u := Unsigned64(val);
            u / 2 / 5 == u / 10 && u / 2 % 5 * 2 + val % 2 == u % 10
  {
    var u := Unsigned64(val);
    assert u % 2 == val % 2;
    DivModUnique(u, u / 2 / 5, u / 2 % 5 * 2 + u % 2, 10);
  }

  /** The digits at `decimal:` in myvsprintf, in front of what the buffer already holds. */
  method Decimal(val: S64, tail: string) returns (buf: string)
    requires val >= 0
    ensures buf == Numeral(val, 10, false) + tail
  {
    hide Numeral, DigitChar;
    var qval: nat := val;
    buf := tail;
    if qval <= 9 {
      SmallNumeral(qval, 10, false);
      return [DigitChar(qval, false)] + buf;
    }
    while qval > 9
      invariant Numeral(qval, 10, false) + buf == Numeral(val, 10, false) + tail
      decreases qval
    {
      NumeralStep(qval, 10, false);
      DigitSurvives(qval);
      DigitCode(qval % 10);
      var n := qval;
      ghost var was := buf;
      qval := qval / 10;
      buf := [TruncatedDigit(n, qval) as char] + buf;
      assert Numeral(n, 10, false) + was == Numeral(qval, 10, false) + ([DigitChar(n % 10, false)] + was);
    }
    SmallNumeral(qval, 10, false);
    buf := [DigitChar(qval, false)] + buf;
  }

  lemma DigitCode(d: nat)
    requires d < 10
    ensures DigitChar(d, false) == (d + 48) as char
  {
  }

  lemma SmallNumeral(n: nat, base: nat, upper: bool)
    requires 2 <= base <= 36 && n < base
    ensures Numeral(n, base, upper) == [DigitChar(n, upper)]
  {
  }

  lemma NumeralStep(n: nat, base: nat, upper: bool)
    requires 2 <= base <= 36 && n >= base
    ensures Numeral(n, base, upper) == Numeral(n / base, base, upper) + [DigitChar(n % base, upper)]
    ensures n / base < n && n / base > 0
  {
    QuotientSmaller(n, base);
    AtLeastOne(n, base);
  }

  /** The %lu conversion of a 64-bit number, held in a signed variable. */
  method ConvertUnsigned(n: nat) returns (s: string)
    requires n <= ULL_MAX
    ensures s == PrintUnsigned(n)
  {
    hide Numeral, DigitChar;
    var val, buf := Signed64(n), "";
    if val < 0 {
      var digit;
      digit, val := LowDigit(val);
      buf := [digit] + buf;
      assert [digit] + "" == [digit];
      NumeralStep(n, 10, false);
    }
    s := Decimal(val, buf);
    assert Numeral(val, 10, false) + "" == Numeral(val, 10, false);
  }

  /** The %ld conversion. */
  method ConvertSigned(n: S64) returns (s: string)
    ensures s == PrintSigned(n)
  {
    hide Numeral, DigitChar;
    var val, buf, prefix := n, "", "";
    if val < 0 {
      prefix := "-";
      if val != LL_MIN {
        val := 0 - val;
      } else {
        var digit;
        digit, val := LowDigit(val);
        buf := [digit] + buf;
        assert [digit] + "" == [digit];
        NumeralStep(0 - LL_MIN, 10, false);
      }
    }
    s := Decimal(val, buf);
    assert Numeral(val, 10, false) + "" == Numeral(val, 10, false);
    s := prefix + s;
  }

  /** The %lx and %lX conversions; zero is produced by the padding code. */
  method ConvertHex(n: nat, upper: bool) returns (s: string)
    requires n <= ULL_MAX
    ensures s == PrintHex(n, upper)
  {
    hide Numeral, DigitChar;
    var qval: S64 := Signed64(n);
    SmallNumeral(0, 16, upper);
    if qval == 0 { return [DigitChar(0, upper)]; }
    s := "";
    ghost var rest: nat := n;
    assert Numeral(n, 16, upper) + "" == Numeral(n, 16, upper);
    while qval != 0
      invariant rest == Unsigned64(qval)
      invariant rest > 0 ==> Numeral(rest, 16, upper) + s == Numeral(n, 16, upper)
      invariant rest == 0 ==> s == Numeral(n, 16, upper)
      decreases rest
    {
      LogicalHalf(qval);
      Sixteenth(qval);
      ghost var was := s;
      s := [DigitChar(qval % 16, upper)] + s;
      qval := ClearHigh(HalfDown(qval)) / 8;
      if rest >= 16 { NumeralStep(rest, 16, upper); } else { SmallNumeral(rest, 16, upper); }
      assert rest >= 16 ==>
          Numeral(rest, 16, upper) + was == Numeral(rest / 16, 16, upper) + ([DigitChar(rest % 16, upper)] + was);
      rest := rest / 16;
    }
  }

  lemma Sixteenth(x: S64)
    ensures Unsigned64(x) / 2 / 8 == Unsigned64(x) / 16 && x % 16 == Unsigned64(x) % 16
    ensures Unsigned64(x) > 0 ==> Unsigned64(x) / 16 < Unsigned64(x)
  {
  }

  // ---- parsing ----

  /** The overflow test of the digit loops, against the value it protects. */
  lemma OverflowTest(i: nat, c: nat, base: nat, max: nat)
    requires 0 < base && c < base
    ensures i > max / base || (i == max / base && c > max % base) <==> i * base + c > max
  {
    var q, r := max / base, max % base;
    assert max == q * base + r;
    if i > q {
      MulAtLeast(i - q, base);
      assert (i - q) * base == i * base - q * base;
    } else if i < q {
      MulAtLeast(q - i, base);
      assert (q - i) * base == q * base - i * base;
    }
  }

  /** The white-space loop. */
  method Blanks(s: string) returns (i: nat)
    ensures i == SkipSpace(s, 0)
  {
    i := 0;
    while i < |s| && IsSpace(s[i])
      invariant i <= |s| && SkipSpace(s, i) == SkipSpace(s, 0)
    {
      i := i + 1;
    }
  }

  /** The digit loop: the accumulator is exact until the value exceeds max, and from then on `overflow` is set. */
  method Accumulate(s: string, start: nat, base: nat, max: nat) returns (end: nat, i: nat, overflow: bool)
    requires start <= |s| && 2 <= base <= 36
    ensures end == DigitEnd(s, start, base) && start <= end <= |s| && AllDigits(s[start.. end], base)
    ensures overflow <==> Value(s[start.. end], base) > max
    ensures !overflow ==> i == Value(s[start.. end], base)
    ensures i <= max
  {
    hide CharDigit, Value, AllDigits;
    var cutoff, cutlim := max / base, max % base;
    end, i, overflow := start, 0, false;
    NoDigits(base);
    assert s[start..start] == "";
    while end < |s|
      invariant start <= end <= |s| && AllDigits(s[start.. end], base)
      invariant DigitEnd(s, end, base) == DigitEnd(s, start, base)
      invariant overflow <==> Value(s[start.. end], base) > max
      invariant !overflow ==> i == Value(s[start.. end], base)
      invariant i <= max
    {
      var c := CharDigit(s[end]);
      if !(0 <= c < base) { return; }
      OverflowTest(i, c, base, max);
      NextDigit(s, start, end, base);
      Grows(Value(s[start.. end], base), c, base);
      if i > cutoff || (i == cutoff && c > cutlim) {
        overflow := true;
      } else {
        i := i * base + c;
      }
      end := end + 1;
    }
  }

  lemma NextDigit(s: string, start: nat, end: nat, base: nat)
    requires 2 <= base <= 36 && start <= end < |s| && AllDigits(s[start.. end], base) && 0 <= CharDigit(s[end]) < base
    ensures AllDigits(s[start.. end + 1], base)
    ensures Value(s[start.. end + 1], base) == Value(s[start.. end], base) * base + CharDigit(s[end])
  {
    hide CharDigit;
    assert s[start.. end + 1][..end - start] == s[start.. end];
  }

  lemma Grows(v: nat, c: nat, base: nat)
    requires 2 <= base
    ensures v * base + c >= v
  {
    assert v * base == v + v * (base - 1);
    assert 0 <= v * (base - 1);
  }

  /** myatoq */
  method Myatoq(s: string, base0: nat) returns (p: Parse)
    ensures p == Atoq(s, base0)
  {
    hide CharDigit, Value, SkipSpace, HexPrefix, DigitEnd;
    if s == "" { return Panic; }
    var i := Blanks(s);
    if i == |s| { return NoConversion; }
    var base := base0;
    if base == 0 { base := if HexPrefix(s, i) then 16 else 10; }
    if base <= 1 || base > 36 { return Panic; }
    if base == 16 && HexPrefix(s, i) { PrefixFits(s, i); i := i + 2; }
    var end, v, overflow := Accumulate(s, i, base, ULL_MAX);
    if end == i { return NoConversion; }
    if overflow { return Number(ULL_MAX, true, end); }
    return Number(v, false, end);
  }

  lemma PrefixFits(s: string, i: nat)
    requires HexPrefix(s, i)
    ensures i + 2 <= |s|
  {
  }

  /** myatosq */
  method Myatosq(s: string, base0: nat) returns (p: Parse)
    ensures p == Atosq(s, base0)
  {
    hide CharDigit, Value, SkipSpace, HexPrefix, DigitEnd;
    if s == "" { return Panic; }
    var i := Blanks(s);
    if i == |s| { return NoConversion; }
    var base := base0;
    if base == 0 { base := if HexPrefix(s, i) then 16 else 10; }
    if base <= 1 || base > 36 { return Panic; }
    var negative := s[i] == '-';
    if s[i] == '-' || s[i] == '+' { i := i + 1; }
    if base == 16 && HexPrefix(s, i) { PrefixFits(s, i); i := i + 2; }
    var end, v, overflow := Accumulate(s, i, base, LL_MAX);
    if end == i { return NoConversion; }
    if overflow { return Number(if negative then LL_MIN else LL_MAX, true, end); }
    var value: int := v;
    if negative { value := 0 - value; }
    return Number(value, false, end);
  }
}
