/** Machine words as natural numbers. */
module MachineWords {
  const TWO_32: nat := 0x1_0000_0000
  const TWO_64: nat := 0x1_0000_0000_0000_0000

  /** The unsigned 64-bit image of a signed value. */
  function Bits64(n: int): (r: nat)
    ensures r < TWO_64
  {
    n % TWO_64
  }

  /** The signed value of a 64-bit word. */
  function Signed64(w: nat): int {
    if w < TWO_64 / 2 then w else w - TWO_64
  }

  predicate IsInt64(n: int) {
    -(TWO_64 / 2) <= n < TWO_64 / 2
  }

  lemma SignedOfBits(n: int)
    requires IsInt64(n)
    ensures Signed64(Bits64(n)) == n
  {
  }
}
