/**
 The shift-and-add reciprocal estimates of kernel/nccsupport.c.  Each method is
 the body of one `case` up to its final correction: it returns the estimated
 quotient a1 and what the code leaves in a2, the dividend less a1 times the
 divisor.  That a2 is non-negative says the estimate is never too big; the
 bound on a2 says by how much it can be too small.

 A right shift by k is written as division by 2^k and a left shift as
 multiplication.  Every variable is a Word, so each assignment is proved to
 stay within 32 bits; the three cases whose partial sums do leave the word
 take the result through Wrap.
 */
module Reciprocals {
  import opened Words

  // ---- Any 32-bit dividend: __udivide and __uremainder ----

  method U3(n: Word) returns (a1: Word, a2: Word)
    ensures n == 3 * a1 + a2 && a2 < 9
  {
    a2 := n;
    a1 := a2 / 2;
    a1 := a1 + a1 / 4;
    a1 := a1 + a1 / 0x10;
    a1 := a1 + a1 / 0x100;
    a1 := a1 + a1 / 0x1_0000;
    a1 := a2 / 4 + a1 / 8;
    a2 := a2 - a1 - a1 * 2;
  }

  method U5(n: Word) returns (a1: Word, a2: Word)
    ensures n == 5 * a1 + a2 && a2 < 10
  {
    a2 := n;
    a1 := a2 - a2 / 4;
    a1 := a1 + a1 / 0x10;
    a1 := a1 + a1 / 0x100;
    a1 := a1 + a1 / 0x1_0000;
    a1 := a1 / 4;
    a2 := a2 - a1 - a1 * 4;
  }

  method U6(n: Word) returns (a1: Word, a2: Word)
    ensures n == 6 * a1 + a2 && a2 < 12
  {
    a2 := n;
    a1 := a2 / 2;
    ghost var half := a1;
    a1 := a1 + a1 / 4;
    a1 := a1 + a1 / 0x10;
    a1 := a1 + a1 / 0x100;
    a1 := a1 + a1 / 0x1_0000;
    a1 := a1 / 4;
    var a3 := a1 + a1 * 2;
    assert 0 <= half - a3 <= 5;
    a2 := a2 - a3 * 2;
  }

  method U7(n: Word) returns (a1: Word, a2: Word)
    ensures n == 7 * a1 + a2 && a2 < 14
  {
    a2 := n;
    a1 := a2 / 2;
    a1 := a1 + a1 / 8;
    a1 := a1 + a1 / 0x40;
    a1 := a1 + a1 / 0x1000;
    a1 := a1 + a1 / 0x100_0000;
    a1 := a1 / 4;
    assert 0 <= a2 + a1 - a1 * 8 < 14;
    a2 := Wrap(a2 + a1 - a1 * 8);
  }

  method U9(n: Word) returns (a1: Word, a2: Word)
    ensures n == 9 * a1 + a2 && a2 < 18
  {
    a2 := n;
    a1 := a2 - a2 / 8;
    a1 := a1 + a1 / 0x40;
    a1 := a1 + a1 / 0x1000;
    a1 := a1 + a1 / 0x100_0000;
    a1 := a1 / 8;
    a2 := a2 - a1 - a1 * 8;
  }

  method U10(n: Word) returns (a1: Word, a2: Word)
    ensures n == 10 * a1 + a2 && a2 < 20
  {
    a2 := n;
    a1 := a2 - a2 / 4;
    a1 := a1 + a1 / 0x10;
    a1 := a1 + a1 / 0x100;
    a1 := a1 + a1 / 0x1_0000;
    a1 := a1 / 8;
    var a3 := a1 + a1 * 4;
    a2 := a2 - a3 * 2;
  }

  method U11(n: Word) returns (a1: Word, a2: Word)
    ensures n == 11 * a1 + a2 && a2 < 22
  {
    a2 := n;
    a1 := TenElevenths(a2);
    a1 := a2 / 2 + a1 / 4;
    a1 := a1 / 8;
    var a3 := a1 + a1 * 2;
    assert 0 <= a2 + a1 - a3 * 4 < 22;
    a2 := Wrap(a2 + a1 - a3 * 4);
  }

  /** The first five assignments of case 11. */
  method TenElevenths(a2: Word) returns (a1: Word)
    ensures 10 * a2 - 56 <= 11 * a1 <= 10 * a2 + 11
  {
    a1 := a2 - a2 / 8;
    a1 := a1 + a2 / 0x20;
    a1 := a1 + a2 / 0x200;
    a1 := a1 + a1 / 0x400;
    a1 := a1 + a1 / 0x10_0000;
  }

  method U12(n: Word) returns (a1: Word, a2: Word)
    ensures n == 12 * a1 + a2 && a2 < 24
  {
    a2 := n;
    a1 := a2 / 2;
    a1 := a1 + a1 / 4;
    a1 := a1 + a1 / 0x10;
    a1 := a1 + a1 / 0x100;
    a1 := a1 + a1 / 0x1_0000;
    a1 := a1 / 8;
    var a3 := a1 + a1 * 2;
    a2 := a2 - a3 * 4;
  }

  method U13(n: Word) returns (a1: Word, a2: Word)
    ensures n == 13 * a1 + a2 && a2 < 26
  {
    a2 := n;
    a1 := a2 - a2 / 0x10;
    a1 := a1 - a2 / 0x40;
    a1 := a1 + a2 / 0x400;
    a1 := a1 + a1 / 0x1000;
    a1 := a1 + a1 / 0x100_0000;
    a1 := a2 / 2 + a1 / 8;
    a1 := a1 / 8;
    var a3 := a1 + a1 * 2;
    a2 := a2 - a1 - a3 * 4;
  }

  method U14(n: Word) returns (a1: Word, a2: Word)
    ensures n == 14 * a1 + a2 && a2 < 28
  {
    a2 := n;
    a1 := a2 / 2;
    a1 := a1 + a1 / 8;
    a1 := a1 + a1 / 0x40;
    a1 := a1 + a1 / 0x1000;
    a1 := a1 + a1 / 0x100_0000;
    a1 := a1 / 8;
    var a3 := a1 * 8 - a1;
    a2 := a2 - a3 * 2;
  }

  method U15(n: Word) returns (a1: Word, a2: Word)
    ensures n == 15 * a1 + a2 && a2 < 30
  {
    a2 := n;
    a1 := a2 / 2;
    a1 := a1 + a1 / 0x10;
    a1 := a1 + a1 / 0x100;
    a1 := a1 + a1 / 0x1_0000;
    a1 := a1 / 8;
    assert 0 <= a2 + a1 - a1 * 16 < 30;
    a2 := Wrap(a2 + a1 - a1 * 16);
  }

  // ---- Magnitudes of signed dividends: __divide and __remainder ----
  // The remaining divisors, 9 and 11 to 15, use the estimates above.

  method S3(n: Word) returns (a1: Word, a2: Word)
    requires n <= MIN_INT
    ensures n == 3 * a1 + a2 && a2 < 6
  {
    a2 := n;
    a1 := a2 + a2 / 4;
    a1 := a1 + a1 / 0x10;
    a1 := a1 + a1 / 0x100;
    a1 := a1 + a1 / 0x1_0000;
    assert 3 * a1 >= 4 * n - 13;
    a1 := a2 / 4 + a1 / 16;
    a2 := a2 - a1 - a1 * 2;
  }

  method S5(n: Word) returns (a1: Word, a2: Word)
    requires n <= MIN_INT
    ensures n == 5 * a1 + a2 && a2 < 10
  {
    a2 := n;
    a1 := a2 + a2 / 2;
    a1 := a1 + a1 / 0x10;
    a1 := a1 + a1 / 0x100;
    a1 := a1 + a1 / 0x1_0000;
    a1 := a1 / 8;
    a2 := a2 - a1 - a1 * 4;
  }

  method S6(n: Word) returns (a1: Word, a2: Word)
    requires n <= MIN_INT
    ensures n == 6 * a1 + a2 && a2 < 12
  {
    a2 := n;
    a1 := a2 + a2 / 4;
    a1 := a1 + a1 / 0x10;
    a1 := a1 + a1 / 0x100;
    a1 := a1 + a1 / 0x1_0000;
    a1 := a1 / 8;
    var a3 := a1 + a1 * 2;
    a2 := a2 - a3 * 2;
  }

  method S7(n: Word) returns (a1: Word, a2: Word)
    requires n <= MIN_INT
    ensures n == 7 * a1 + a2 && a2 < 14
  {
    a2 := n;
    a1 := EightSevenths(a2);
    a1 := a1 / 8;
    assert 0 <= a2 + a1 - a1 * 8 < 14;
    a2 := Wrap(a2 + a1 - a1 * 8);
  }

  /** The first four assignments of signed case 7. */
  method EightSevenths(a2: Word) returns (a1: Word)
    requires a2 <= MIN_INT
    ensures 8 * a2 - 28 <= 7 * a1 <= 8 * a2
  {
    a1 := a2 + a2 / 8;
    a1 := a1 + a1 / 0x40;
    a1 := a1 + a1 / 0x1000;
    a1 := a1 + a1 / 0x100_0000;
  }

  method S10(n: Word) returns (a1: Word, a2: Word)
    requires n <= MIN_INT
    ensures n == 10 * a1 + a2 && a2 < 20
  {
    a2 := n;
    a1 := a2 + a2 / 2;
    a1 := a1 + a1 / 0x10;
    a1 := a1 + a1 / 0x100;
    a1 := a1 + a1 / 0x1_0000;
    a1 := a1 / 16;
    var a3 := a1 + a1 * 4;
    a2 := a2 - a3 * 2;
  }

  /** The estimate of _udiv10 and, on magnitudes, of _sdiv10. */
  method Tenth(n: Word) returns (a1: Word, a2: Word)
    ensures n == 10 * a1 + a2 && a2 < 20
  {
    a2 := n;
    a1 := a2 / 2;
    a1 := a1 + a1 / 2;
    a1 := a1 + a1 / 0x10;
    a1 := a1 + a1 / 0x100;
    a1 := a1 + a1 / 0x1_0000;
    a1 := a1 / 8;
    var a3 := a1 + a1 * 4;
    a2 := a2 - a3 * 2;
  }
}
