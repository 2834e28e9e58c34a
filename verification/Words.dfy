/** 32-bit words as the numbers they stand for. */
module Words {
  import opened Arith

  type Address = a: nat | a < 0x1_0000_0000

  /** The number a byte stands for. */
  function Num(b: bv8): (n: nat)
    ensures n < 256
  {
    b as nat
  }

  /** The number a word stands for, byte by byte. */
  function AddressOf(a: bv32): Address {
    Num((a & 0xff) as bv8) + 0x100 * Num(((a >> 8) & 0xff) as bv8)
      + 0x1_0000 * Num(((a >> 16) & 0xff) as bv8) + 0x100_0000 * Num(((a >> 24) & 0xff) as bv8)
  }

  lemma SameAddress(a: bv32, b: bv32)
    ensures AddressOf(a) == AddressOf(b) <==> a == b
  {
    hide Num;
    if AddressOf(a) == AddressOf(b) {
      BytesSame((a & 0xff) as bv8, ((a >> 8) & 0xff) as bv8, ((a >> 16) & 0xff) as bv8, ((a >> 24) & 0xff) as bv8,
                (b & 0xff) as bv8, ((b >> 8) & 0xff) as bv8, ((b >> 16) & 0xff) as bv8, ((b >> 24) & 0xff) as bv8);
      FromBytes(a, b);
    }
  }

  lemma BytesSame(a0: bv8, a1: bv8, a2: bv8, a3: bv8, b0: bv8, b1: bv8, b2: bv8, b3: bv8)
    requires Num(a0) + 0x100 * Num(a1) + 0x1_0000 * Num(a2) + 0x100_0000 * Num(a3)
             == Num(b0) + 0x100 * Num(b1) + 0x1_0000 * Num(b2) + 0x100_0000 * Num(b3)
    ensures a0 == b0 && a1 == b1 && a2 == b2 && a3 == b3
  {
    hide Num;
    SameDigits(Num(a0), Num(a1), Num(a2), Num(a3), Num(b0), Num(b1), Num(b2), Num(b3));
    SameByte(a0, b0);
    SameByte(a1, b1);
    SameByte(a2, b2);
    SameByte(a3, b3);
  }

  lemma SameByte(x: bv8, y: bv8)
    ensures Num(x) == Num(y) ==> x == y
  {
  }

  lemma SameDigits(a0: nat, a1: nat, a2: nat, a3: nat, b0: nat, b1: nat, b2: nat, b3: nat)
    requires a0 < 256 && a1 < 256 && a2 < 256 && b0 < 256 && b1 < 256 && b2 < 256
    requires a0 + 0x100 * a1 + 0x1_0000 * a2 + 0x100_0000 * a3 == b0 + 0x100 * b1 + 0x1_0000 * b2 + 0x100_0000 * b3
    ensures a0 == b0 && a1 == b1 && a2 == b2 && a3 == b3
  {
  }

  lemma FromBytes(a: bv32, b: bv32)
    requires (a & 0xff) as bv8 == (b & 0xff) as bv8 && ((a >> 8) & 0xff) as bv8 == ((b >> 8) & 0xff) as bv8
    requires ((a >> 16) & 0xff) as bv8 == ((b >> 16) & 0xff) as bv8 && ((a >> 24) & 0xff) as bv8 == ((b >> 24) & 0xff) as bv8
    ensures a == b
  {
  }

  // ---- alignment ----

  predicate WordAligned(a: bv32) { a & 3 == 0 }

  lemma AlignedIs(a: bv32)
    ensures AddressOf(a) % 4 == 0 <==> WordAligned(a)
  {
    hide Num;
    LowBits((a & 0xff) as bv8);
    SameLow(a);
    LowDigit(Num((a & 0xff) as bv8), Num(((a >> 8) & 0xff) as bv8), Num(((a >> 16) & 0xff) as bv8), Num(((a >> 24) & 0xff) as bv8));
  }

  lemma SameLow(a: bv32)
    ensures (a & 0xff) as bv8 & 3 == 0 <==> a & 3 == 0
  {
  }

  lemma LowDigit(a: nat, b: nat, c: nat, d: nat)
    ensures (a + 0x100 * b + 0x1_0000 * c + 0x100_0000 * d) % 4 == a % 4
  {
    var k := 0x40 * b + 0x4000 * c + 0x40_0000 * d + a / 4;
    DivModUnique(a + 0x100 * b + 0x1_0000 * c + 0x100_0000 * d, k, a % 4, 4);
  }

  lemma LowBits(b: bv8)
    ensures Num(b) % 4 == 0 <==> b & 3 == 0
  {
  }

  lemma Together(a: bv32)
    ensures a + 1 != a && a + 2 != a && a + 3 != a && a + 1 != a + 2 && a + 1 != a + 3 && a + 2 != a + 3
  {
  }
}
