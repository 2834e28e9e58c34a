/** The 64-bit integer printing and parsing of misc.c, with the widths of the C types written out. */
module Numerals {
  import opened Arith

  const ULL_MAX: int := 18446744073709551615
  const LL_MAX: int := 9223372036854775807
  const LL_MIN: int := -9223372036854775808

  /** slargeint_t and int */
  type S64 = x: int | LL_MIN <= x <= LL_MAX
  function Unsigned64(x: S64): (u: nat) ensures u <= ULL_MAX { if x < 0 then x + ULL_MAX + 1 else x }
  function Signed64(u: nat): S64
    requires u <= ULL_MAX
  {
    if u > LL_MAX then u - ULL_MAX - 1 else u
  }

  /** Truncation to a 32-bit int. */
  function Int32(x: int): (r: int) ensures -0x8000_0000 <= r < 0x8000_0000 {
    (x + 0x8000_0000) % 0x1_0000_0000 - 0x8000_0000
  }

  // ---- numerals ----

  type Digit = d: nat | d < 36

  function DigitChar(d: Digit, upper: bool): char {
    if d < 10 then '0' + d as char else if upper then 'A' + (d - 10) as char else 'a' + (d - 10) as char
  }

  /** The value of a character as a digit, or -1. */
  function CharDigit(c: char): (d: int)
    ensures -1 <= d < 36
  {
    if '0' <= c <= '9' then c as int - '0' as int
    else if 'A' <= c <= 'Z' then c as int - 'A' as int + 10
    else if 'a' <= c <= 'z' then c as int - 'a' as int + 10
    else -1
  }

  /** The numeral of n without leading zeros. */
  function Numeral(n: nat, base: nat, upper: bool): (s: string)
    requires 2 <= base <= 36
    ensures |s| > 0
    decreases n
  {
    if n < base then [DigitChar(n, upper)] else
      QuotientSmaller(n, base);
      Numeral(n / base, base, upper) + [DigitChar(n % base, upper)]
  }

  lemma QuotientSmaller(n: nat, base: nat)
    requires 2 <= base <= n
    ensures n / base < n
  {
    var q := n / base;
    assert n == q * base + n % base;
    if q > 0 {
      MulAtLeast(base - 1, q);
      assert q * base == (base - 1) * q + q;
    }
  }

  /** The value of a string of digits. */
  function Value(s: string, base: nat): (v: nat)
    requires 2 <= base <= 36 && AllDigits(s, base)
  {
    if s == [] then 0 else Value(s[..|s| - 1], base) * base + CharDigit(s[|s| - 1])
  }

  predicate AllDigits(s: string, base: nat) { forall i :: 0 <= i < |s| ==> 0 <= CharDigit(s[i]) < base }

  lemma DigitBack(d: Digit, upper: bool)
    ensures CharDigit(DigitChar(d, upper)) == d
  {
  }

  /** A numeral reads back as its number. */
  lemma {:induction false} NumeralValue(n: nat, base: nat, upper: bool)
    requires 2 <= base <= 36
    ensures AllDigits(Numeral(n, base, upper), base) && Value(Numeral(n, base, upper), base) == n
    decreases n
  {
    hide DigitChar, CharDigit, Value, AllDigits;
    if n < base {
      NoDigits(base);
      ValueSnoc("", base, n, upper);
      assert "" + [DigitChar(n, upper)] == [DigitChar(n, upper)];
    } else {
      QuotientSmaller(n, base);
      NumeralValue(n / base, base, upper);
      ValueSnoc(Numeral(n / base, base, upper), base, n % base, upper);
    }
  }

  lemma NoDigits(base: nat)
    requires 2 <= base <= 36
    ensures AllDigits("", base) && Value("", base) == 0
  {
  }

  lemma ValueSnoc(s: string, base: nat, d: Digit, upper: bool)
    requires 2 <= base <= 36 && d < base && AllDigits(s, base)
    ensures AllDigits(s + [DigitChar(d, upper)], base)
    ensures Value(s + [DigitChar(d, upper)], base) == Value(s, base) * base + d
  {
    hide DigitChar, CharDigit;
    DigitBack(d, upper);
    assert (s + [DigitChar(d, upper)])[..|s|] == s;
  }

  // ---- parsing ----

  predicate IsSpace(c: char) { c == ' ' || '\t' <= c <= '\r' }

  function SkipSpace(s: string, i: nat): (j: nat)
    requires i <= |s|
    ensures i <= j <= |s|
    decreases |s| - i
  {
    if i < |s| && IsSpace(s[i]) then SkipSpace(s, i + 1) else i
  }

  /** Where the digits from i on end. */
  function DigitEnd(s: string, i: nat, base: nat): (j: nat)
    requires i <= |s|
    ensures i <= j <= |s| && AllDigits(s[i.. j], base)
    ensures j < |s| ==> !(0 <= CharDigit(s[j]) < base)
    decreases |s| - i
  {
    if i < |s| && 0 <= CharDigit(s[i]) < base then
      var j := DigitEnd(s, i + 1, base);
      assert s[i.. j] == [s[i]] + s[i + 1.. j];
      j
    else i
  }

  predicate HexPrefix(s: string, i: nat) {
    i + 1 < |s| && s[i] == '0' && (s[i + 1] == 'x' || s[i + 1] == 'X')
  }

  /** What a conversion returns: its value, whether errno is ERANGE, and the index endp points to. */
  datatype Parse = Number(value: int, erange: bool, endp: nat) | NoConversion | Panic

  function EffectiveBase(s: string, i: nat, base: nat): nat {
    if base == 0 then (if HexPrefix(s, i) then 16 else 10) else base
  }

  /** The digits a conversion reads, if any. */
  function Digits(s: string, i: nat, base: nat): (d: (nat, nat))
    requires i <= |s|
    ensures i <= d.0 <= d.1 <= |s| && AllDigits(s[d.0.. d.1], base)
  {
    var start := if base == 16 && HexPrefix(s, i) then i + 2 else i;
    (start, DigitEnd(s, start, base))
  }

  /** myatoq: the exact value of the digits, or saturation with ERANGE exactly when it does not fit. */
  function Atoq(s: string, base: nat): Parse {
    if s == "" then Panic
    else
      var i := SkipSpace(s, 0);
      if i == |s| then NoConversion
      else
        var b := EffectiveBase(s, i, base);
        if b <= 1 || b > 36 then Panic
        else
          var (start, end) := Digits(s, i, b);
          if start == end then NoConversion
          else
            var v := Value(s[start..end], b);
            if v > ULL_MAX then Number(ULL_MAX, true, end) else Number(v, false, end)
  }

  /** myatosq */
  function Atosq(s: string, base: nat): Parse {
    if s == "" then Panic
    else
      var i := SkipSpace(s, 0);
      if i == |s| then NoConversion
      else
        var b := EffectiveBase(s, i, base);
        if b <= 1 || b > 36 then Panic
        else
          var j := if s[i] == '-' || s[i] == '+' then i + 1 else i;
          var (start, end) := Digits(s, j, b);
          if start == end then NoConversion
          else
            var v := Value(s[start..end], b);
            if v > LL_MAX then Number(if s[i] == '-' then LL_MIN else LL_MAX, true, end)
            else Number(if s[i] == '-' then 0 - v else v, false, end)
  }

  // ---- printing ----

  /** The %lu, %ld and %lx conversions of myvsprintf without width. */
  function PrintUnsigned(n: nat): string { Numeral(n, 10, false) }
  function PrintSigned(n: S64): string { if n < 0 then "-" + Numeral(0 - n, 10, false) else Numeral(n, 10, false) }
  function PrintHex(n: nat, upper: bool): string { Numeral(n, 16, upper) }

  // ---- round trips ----

  lemma {:induction false} NumeralHead(n: nat, base: nat, upper: bool)
    requires 2 <= base <= 36
    ensures Numeral(n, base, upper)[0] == '0' ==> n == 0 && |Numeral(n, base, upper)| == 1
    ensures 0 <= CharDigit(Numeral(n, base, upper)[0]) < base
    decreases n
  {
    hide CharDigit;
    NumeralValue(n, base, upper);
    if n >= base {
      QuotientSmaller(n, base);
      NumeralHead(n / base, base, upper);
      assert n / base >= 1 by { AtLeastOne(n, base); }
    } else {
      NonZeroDigit(n, upper);
    }
  }

  lemma NonZeroDigit(d: Digit, upper: bool)
    ensures DigitChar(d, upper) == '0' ==> d == 0
  {
  }

  lemma AtLeastOne(n: nat, base: nat)
    requires 0 < base <= n
    ensures n / base >= 1
  {
    assert n == n / base * base + n % base;
    PositiveFactor(n / base, base);
  }

  /** Digits run to the end of a numeral that ends the string. */
  lemma {:induction false} DigitsToEnd(s: string, i: nat, base: nat)
    requires i <= |s| && AllDigits(s[i..], base)
    ensures DigitEnd(s, i, base) == |s|
    decreases |s| - i
  {
    hide CharDigit;
    if i < |s| {
      assert s[i..][0] == s[i];
      var rest := s[i + 1..];
      forall k | 0 <= k < |rest| ensures 0 <= CharDigit(rest[k]) < base { assert s[i..][k + 1] == rest[k]; }
      DigitsToEnd(s, i + 1, base);
    }
  }

  lemma DigitNotSpace(c: char)
    requires CharDigit(c) >= 0
    ensures !IsSpace(c) && c != '-' && c != '+'
  {
  }

  /** A numeral has no "0x" in front. */
  lemma NoPrefix(n: nat, base: nat, upper: bool, s: string, i: nat)
    requires 2 <= base <= 36 && i <= |s| && s[i..] == Numeral(n, base, upper)
    ensures !HexPrefix(s, i)
  {
    NumeralHead(n, base, upper);
    assert s[i..][0] == s[i];
  }

  /** What is read of a string that ends in a numeral. */
  lemma ReadsNumeral(n: nat, base: nat, upper: bool, s: string, i: nat)
    requires 2 <= base <= 36 && i <= |s| && s[i..] == Numeral(n, base, upper)
    ensures Digits(s, i, base) == (i, |s|) && i < |s| && Value(s[i..|s|], base) == n && s[i..|s|] == s[i..]
  {
    hide CharDigit, Numeral;
    NoPrefix(n, base, upper, s, i);
    NumeralValue(n, base, upper);
    DigitsToEnd(s, i, base);
    assert s[i..|s|] == s[i..];
  }

  lemma StartsThere(s: string)
    requires s != "" && !IsSpace(s[0])
    ensures SkipSpace(s, 0) == 0
  {
  }

  /** The unsigned decimal printing of any 64-bit number parses back without error. */
  lemma UnsignedRoundTrip(n: nat, base: nat)
    requires n <= ULL_MAX && (base == 0 || base == 10)
    ensures Atoq(PrintUnsigned(n), base) == Number(n, false, |PrintUnsigned(n)|)
  {
    hide CharDigit, Numeral, Digits, SkipSpace, IsSpace, Value, HexPrefix;
    var s := PrintUnsigned(n);
    NumeralHead(n, 10, false);
    DigitNotSpace(s[0]);
    StartsThere(s);
    assert s[0..] == s;
    NoPrefix(n, 10, false, s, 0);
    ReadsNumeral(n, 10, false, s, 0);
  }

  /** So does its hexadecimal printing, in either case. */
  lemma HexRoundTrip(n: nat, upper: bool)
    requires n <= ULL_MAX
    ensures Atoq(PrintHex(n, upper), 16) == Number(n, false, |PrintHex(n, upper)|)
  {
    hide CharDigit, Numeral, Digits, SkipSpace, IsSpace, Value, HexPrefix;
    var s := PrintHex(n, upper);
    NumeralHead(n, 16, upper);
    DigitNotSpace(s[0]);
    StartsThere(s);
    assert s[0..] == s;
    ReadsNumeral(n, 16, upper, s, 0);
  }

  /** The signed decimal printing parses back to the number, and without error exactly above the minimum:
      the magnitude of the minimum is taken for an overflow, whose saturated value happens to be right. */
  lemma SignedRoundTrip(n: S64, base: nat)
    requires base == 0 || base == 10
    ensures Atosq(PrintSigned(n), base) == Number(n, n == LL_MIN, |PrintSigned(n)|)
  {
    hide CharDigit, Numeral, Digits, SkipSpace, IsSpace, Value, HexPrefix;
    var s := PrintSigned(n);
    if n < 0 {
      MinusStarts(s);
      StartsThere(s);
      assert s[1..] == Numeral(0 - n, 10, false);
      ReadsNumeral(0 - n, 10, false, s, 1);
    } else {
      NumeralHead(n, 10, false);
      DigitNotSpace(s[0]);
      StartsThere(s);
      assert s[0..] == s;
      NoPrefix(n, 10, false, s, 0);
      ReadsNumeral(n, 10, false, s, 0);
    }
  }

  lemma MinusStarts(s: string)
    requires s != "" && s[0] == '-'
    ensures !IsSpace(s[0]) && !HexPrefix(s, 0)
  {
  }
}
