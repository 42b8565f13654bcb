// Bytes, machine word sizes and error numbers that several models share.
module Basics {
  type Byte = bv8
  type Bytes = seq<Byte>

  // words of a chaining value, as numbers
  type Words = seq<nat>

  const TWO32 := 0x1_0000_0000
  const TWO64 := 0x1_0000_0000_0000_0000
  const TWO128 := 0x1_0000_0000_0000_0000_0000_0000_0000_0000

  const PAGE_SIZE := 4096

  const ENXIO := 6
  const ENOMEM := 12
  const EBUSY := 16
  const EINVAL := 22

  function Zeros(n: nat): (z: Bytes)
    ensures |z| == n
  {
    seq(n, _ => 0)
  }

  // the number a byte stands for, and the byte of a number
  function Nat(b: Byte): (n: nat)
    ensures n < 256
  {
    b as int
  }

  lemma ByteNumber(n: nat)
    requires n < 256
    ensures Nat(n as bv8) == n && (n == 0 <==> n as bv8 == 0)
  {
  }

  function ToByte(n: nat): (b: Byte)
    requires n < 256
    ensures Nat(b) == n
  {
    ByteNumber(n);
    n as bv8
  }

  lemma ByteOfNat(b: Byte)
    ensures ToByte(Nat(b)) == b
  {
  }
}
