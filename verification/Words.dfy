/**
 Thirty-two bit machine words as the kernel's C code uses them.  Unsigned
 arithmetic wraps modulo 2^32; a signed quantity is the two's complement
 reading of the same bit pattern.
 */
module Words {

  const WORD := 0x1_0000_0000
  const MIN_INT := 0x8000_0000

  type Word = x: int | 0 <= x < 0x1_0000_0000
  type Byte = x: int | 0 <= x < 0x100

  /** The word a C expression leaves behind when its exact value is x. */
  function Wrap(x: int): (w: Word)
  {
    x % 0x1_0000_0000
  }

  /** The value of a bit pattern declared `long` in the C source. */
  function Signed(x: Word): (v: int)
    ensures -MIN_INT <= v < MIN_INT && Wrap(v) == x
  {
    if x < MIN_INT then x else x - WORD
  }
}
