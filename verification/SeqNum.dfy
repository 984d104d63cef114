/**
 * TCP sequence numbers: 32-bit values compared by signed difference, and their
 * relation to unbounded stream offsets (section 3.4 of RFC 9293).
 */
module SeqNum {
  import opened Base

  const MODULUS: int := 0x1_0000_0000
  const HALF: int := 0x8000_0000

  function WrappingAdd(a: u32, n: nat): u32 {
    (a + n) % MODULUS
  }

  function WrappingSub(a: u32, b: u32): u32 {
    (a - b) % MODULUS
  }

  /** A 32-bit value read back as two's complement. */
  function AsSigned(n: u32): int {
    if n < HALF then n else n - MODULUS
  }

  predicate SeqAfter(a: u32, b: u32) {
    AsSigned(WrappingSub(a, b)) > 0
  }

  /** The sequence number of the stream byte at `offset`, counted from `initial`. */
  function SeqOf(initial: u32, offset: int): u32 {
    (initial + offset) % MODULUS
  }

  /** The one offset at or above `base`, and less than 2^32 past it, that carries `number`. */
  function OffsetOf(initial: u32, base: int, number: u32): int {
    base + WrappingSub(number, SeqOf(initial, base))
  }

  lemma SeqOfAdvances(initial: u32, offset: int, n: nat)
    ensures WrappingAdd(SeqOf(initial, offset), n) == SeqOf(initial, offset + n)
  {
  }

  lemma OffsetOfRange(initial: u32, base: int, number: u32)
    ensures base <= OffsetOf(initial, base, number) < base + MODULUS
    ensures SeqOf(initial, OffsetOf(initial, base, number)) == number
  {
  }

  /** Sequence numbers name offsets uniquely inside one lap of the number space. */
  lemma OffsetOfSeqOf(initial: u32, base: int, offset: int)
    requires base <= offset < base + MODULUS
    ensures OffsetOf(initial, base, SeqOf(initial, offset)) == offset
  {
  }

  lemma OffsetOfRebase(initial: u32, base: int, newBase: int, number: u32)
    requires base <= newBase <= OffsetOf(initial, base, number)
    ensures OffsetOf(initial, newBase, number) == OffsetOf(initial, base, number)
  {
    OffsetOfRange(initial, base, number);
    OffsetOfSeqOf(initial, newBase, OffsetOf(initial, base, number));
  }

  /**
   * The signed comparison orders offsets correctly exactly inside the window in which it is
   * meant to be used: it agrees with `>` for every distance in [-2^31, 2^31).
   */
  lemma SeqAfterIsOrder(initial: u32, a: int, b: int)
    requires -HALF <= a - b < HALF
    ensures SeqAfter(SeqOf(initial, a), SeqOf(initial, b)) <==> a > b
    ensures SeqOf(initial, a) == SeqOf(initial, b) <==> a == b
  {
  }

  lemma WrappingSubIsDistance(initial: u32, a: int, b: int)
    requires 0 <= a - b < MODULUS
    ensures WrappingSub(SeqOf(initial, a), SeqOf(initial, b)) == a - b
  {
  }

  /** One step outside that window the comparison is already wrong. */
  lemma SeqAfterFailsAtHalf(initial: u32, b: int)
    ensures !SeqAfter(SeqOf(initial, b + HALF), SeqOf(initial, b))
    ensures SeqAfter(SeqOf(initial, b - HALF - 1), SeqOf(initial, b))
  {
    assert SeqOf(initial, b - HALF - 1) == SeqOf(initial, b + HALF - 1);
    SeqAfterIsOrder(initial, b + HALF - 1, b);
    WrappingSubIsDistance(initial, b + HALF, b);
    hide SeqOf, WrappingSub;
  }

  /**
   * The arithmetic behind every overlap trim: when a piece of `len` bytes starts at or before
   * `next` and its wrapped end is after `next`, the part to skip is strictly inside the piece.
   * No bound on `len` and no agreement on a window is needed.
   */
  lemma TrimInBounds(start: u32, len: nat, next: u32)
    requires !SeqAfter(start, next)
    requires SeqAfter(WrappingAdd(start, len), next)
    ensures WrappingSub(next, start) < len
  {
    var behind := WrappingSub(next, start);
    assert behind == 0 || WrappingSub(start, next) == MODULUS - behind;
    assert WrappingSub(WrappingAdd(start, len), next) == (len - behind) % MODULUS;
  }
}
