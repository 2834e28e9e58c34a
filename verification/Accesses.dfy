/** What the memory access routines have in common: bytes, addresses, commands and the size and alignment checks. */
module Accesses {
  type Byte = bv8
  type Word = bv32
  type Addr = a: nat | a < 0x1_0000_0000

  datatype Command = Read(n: nat) | Write(bytes: seq<Byte>)

  function Size(cmd: Command): nat { if cmd.Read? then cmd.n else |cmd.bytes| }

  /** (n & (n - 1)) == 0 */
  predicate PowerOfTwo(n: nat) { n <= 1 || (n % 2 == 0 && PowerOfTwo(n / 2)) }

  /** The alignment check of cache_access and spec_mem_access; a size of 0 makes the mask all ones. */
  predicate AlignedAccess(addr: nat, n: nat) {
    PowerOfTwo(n) && if n == 0 then addr == 0 else addr % n == 0
  }

  function Zeros(n: nat): (z: seq<Byte>)
    ensures |z| == n
  {
    seq(n, _ => 0)
  }
}
