/**
 The integer division run-time of kernel/nccsupport.c: __udivide,
 __uremainder, __divide, __remainder, _udiv10 and _sdiv10.  As in the source
 the divisor is the first argument, a1, and the dividend the second, a2.
 */
module Division {
  import opened Words
  import opened Reciprocals

  // ---- What C promises of / and % ----

  function Abs(x: int): nat { if x < 0 then -x else x }

  /** Division truncating toward zero, and the remainder that goes with it. */
  function TDiv(a: int, b: int): int
    requires b != 0
  {
    if (a < 0) == (b < 0) then Abs(a) / Abs(b) else -(Abs(a) / Abs(b))
  }

  function TRem(a: int, b: int): int
    requires b != 0
  {
    if a < 0 then -(Abs(a) % Abs(b)) else Abs(a) % Abs(b)
  }

  /** The three clauses that tie a quotient and a remainder together in C. */
  predicate Truncates(a: int, b: int, q: int, r: int)
  {
    && a == b * q + r
    && Abs(r) < Abs(b)
    && (r != 0 ==> (r < 0) == (a < 0))
  }

  lemma MulSigns(b: int, q: int)
    ensures b * -q == -(b * q) && -b * q == -(b * q)
  {
  }

  lemma DivMod(m: nat, d: nat)
    requires d > 0
    ensures m == d * (m / d) + m % d && 0 <= m % d < d && m / d >= 0
  {
  }

  lemma TDivTruncates(a: int, b: int)
    requires b != 0
    ensures Truncates(a, b, TDiv(a, b), TRem(a, b))
  {
    DivMod(Abs(a), Abs(b));
    MulSigns(b, Abs(a) / Abs(b));
  }

  /** There is only one way to truncate, so Truncates is a full definition. */
  lemma TruncationIsUnique(a: int, b: int, q: int, r: int)
    requires b != 0 && Truncates(a, b, q, r)
    ensures q == TDiv(a, b) && r == TRem(a, b)
  {
    var q', r' := TDiv(a, b), TRem(a, b);
    TDivTruncates(a, b);
    MulMinus(b, q, q');
    if q != q' {
      MultipleIsBig(b, q - q');
    }
  }

  lemma MulMinus(b: int, x: int, y: int)
    ensures b * (x - y) == b * x - b * y
  {
  }

  lemma {:induction false} MultipleIsBig(b: int, k: int)
    requires k != 0
    ensures Abs(b * k) >= Abs(b)
    decreases k < 0, Abs(k)
  {
    if k < 0 {
      MulSigns(b, k);
      MultipleIsBig(b, -k);
    } else if k > 1 {
      MulMinus(b, k, 1);
      MultipleIsBig(b, k - 1);
      SameSign(b, k - 1);
    }
  }

  lemma SameSign(b: int, k: nat)
    ensures b >= 0 ==> b * k >= 0
    ensures b <= 0 ==> b * k <= 0
  {
  }

  /** Over machine words the exact quotient overflows in one case only. */
  lemma QuotientOverflow(a: int, b: int)
    requires b != 0 && -MIN_INT <= a < MIN_INT && -MIN_INT <= b < MIN_INT
    ensures -MIN_INT <= TDiv(a, b) < MIN_INT <==> !(a == -MIN_INT && b == -1)
    ensures Signed(Wrap(TRem(a, b))) == TRem(a, b)
  {
    DivMod(Abs(a), Abs(b));
    QuotientBound(Abs(a), Abs(b));
  }

  lemma QuotientBound(a: nat, b: nat)
    requires b > 0
    ensures 0 <= a / b <= a
    ensures b >= 2 ==> a / b <= a / 2
    ensures b == 1 ==> a / b == a
  {
    var q := a / b;
    DivMod(a, b);
    if b >= 2 {
      Weaken(b, q);
    }
  }

  lemma Weaken(b: int, q: nat)
    requires b >= 2
    ensures 2 * q <= q * b && 2 * q <= b * q
  {
    assert q * b == 2 * q + q * (b - 2);
  }

  // ---- The shift-and-subtract loop for general divisors ----

  function Octave(k: nat): (w: nat)
    requires k < 8
    ensures 1 <= w <= 128
    ensures 0 < k ==> w == 2 * Octave(k - 1)
  {
    if k == 0 then 1 else if k == 1 then 2 else if k == 2 then 4 else if k == 3 then 8
    else if k == 4 then 16 else if k == 5 then 32 else if k == 6 then 64 else 128
  }

  /** n divided so far: a4 multiples of the step D are gone, a2 is left. */
  ghost predicate Partial(n: int, a4: int, D: int, a2: int)
  {
    n == a4 * D + a2 && 0 <= a2 && 0 <= a4
  }

  /**
   One rung, `if (a2 >= (a3 << k)) a2 -= (a3 << k), a4++;`.  On entry the
   remaining dividend is below twice the shifted divisor D; on exit below it.
   */
  method Rung(a2: Word, D: Word, a4: Word, ghost n: Word) returns (b2: Word, b4: Word)
    requires Partial(n, a4, D, a2) && a2 < 2 * D && D >= 2
    ensures Partial(n, b4, D, b2) && b2 < D && b4 < MIN_INT
    ensures b4 == a4 + (if a2 >= D then 1 else 0) && b2 == a2 - (if a2 >= D then D else 0)
  {
    Weaken(D, a4);
    b2, b4 := a2, a4;
    if b2 >= D {
      Weaken(D, a4 + 1);
      b2, b4 := b2 - D, b4 + 1;
    }
  }

  /** Moving down a rung doubles a4 and halves the step. */
  lemma StepDown(n: int, a4: int, D: int, a2: int)
    requires Partial(n, a4, 2 * D, a2)
    ensures Partial(n, 2 * a4, D, a2)
  {
    assert (2 * a4) * D == a4 * (2 * D);
  }

  /**
   The rungs from u_sh<entry>mod8 down to u_sh0mod8, without the last test.
   `entry` is the label jumped to; 7 is u_loop2 itself.
   */
  method Ladder(entry: nat, a2: Word, a3: Word, a4: Word, ghost n: Word) returns (b2: Word, b4: Word)
    requires entry < 8 && a3 >= 2 && a3 * Octave(entry) < WORD
    requires Partial(n, a4, a3 * Octave(entry), a2) && a2 < 2 * (a3 * Octave(entry))
    ensures Partial(n, b4, a3, b2) && b2 < a3 && b4 < MIN_INT
  {
    b2, b4 := a2, a4;
    var k := entry;
    while k > 0
      invariant 0 <= k < 8 && a3 * Octave(k) < WORD
      invariant Partial(n, b4, a3 * Octave(k), b2) && b2 < 2 * (a3 * Octave(k))
    {
      Halve(a3, k);
      b2, b4 := Rung(b2, a3 * Octave(k), b4, n);
      StepDown(n, b4, a3 * Octave(k - 1), b2);
      b4 := b4 * 2;
      k := k - 1;
    }
    assert a3 * Octave(0) == a3;
    b2, b4 := Rung(b2, a3, b4, n);
  }

  lemma Halve(a3: nat, k: nat)
    requires 0 < k < 8
    ensures a3 * Octave(k) == 2 * (a3 * Octave(k - 1))
    ensures a3 * Octave(k) >= a3
  {
    var w := Octave(k - 1);
    assert Octave(k) == 2 * w;
    assert a3 * (2 * w) == 2 * (a3 * w);
    assert a3 * w == a3 + a3 * (w - 1);
  }

  /** a3 is the divisor shifted left by j whole bytes. */
  ghost predicate ByteShift(a1: int, a3: int, j: nat)
    decreases j
  {
    if j == 0 then a3 == a1 else exists x :: IsByteUp(a3, x) && ByteShift(a1, x, j - 1)
  }

  predicate IsByteUp(a3: int, x: int) { a3 == 0x100 * x }

  lemma ByteShiftGrows(a1: int, a3: int, j: nat)
    requires ByteShift(a1, a3, j) && a1 > 0
    ensures a3 >= a1
    decreases j
  {
    if j > 0 {
      var x :| IsByteUp(a3, x) && ByteShift(a1, x, j - 1);
      ByteShiftGrows(a1, x, j - 1);
    }
  }

  /**
   The chain of tests at u_loop: the label to jump to, or 8 for another byte.
   Each tested shift is held in a Word, so none of them loses a bit.
   */
  method Label(a3: Word, ip: Word) returns (entry: nat)
    requires a3 > 0 && ip <= MIN_INT
    ensures entry <= 8
    ensures entry < 8 ==> ip <= a3 * Octave(entry) < WORD
    ensures entry == 0 || ip > a3 * Octave(entry - 1)
  {
    if ip <= a3 { return 0; }
    var sh: Word := a3 * 2;
    if ip <= sh { return 1; }
    sh := a3 * 4;
    if ip <= sh { return 2; }
    sh := a3 * 8;
    if ip <= sh { return 3; }
    sh := a3 * 16;
    if ip <= sh { return 4; }
    sh := a3 * 32;
    if ip <= sh { return 5; }
    sh := a3 * 64;
    if ip <= sh { return 6; }
    sh := a3 * 128;
    if ip > sh { return 8; }
    return 7;
  }

  /**
   The default case of all four routines.  The unsigned pair normalise against
   ip, the dividend capped at 2^31; the signed pair against the dividend
   itself, which is then at most 2^31 already.
   */
  method General(a1: Word, n: Word, ip: Word) returns (quotient: Word, remainder: Word)
    requires a1 >= 17
    requires ip <= MIN_INT && (ip == n || ip == MIN_INT < n)
    ensures n == a1 * quotient + remainder && remainder < a1
  {
    var a3, entry, j := Normalise(a1, ip);
    var a4, a2 := 0, n;
    a2, a4 := Ladder(entry, a2, a3, a4, n);
    quotient, remainder := QuotientBytes(a1, a2, a3, a4, n, j);
  }

  /** u_loop2: a byte of quotient a turn, until a3 is the divisor again. */
  method QuotientBytes(a1: Word, d2: Word, d3: Word, d4: Word, ghost n: Word, ghost shift: nat)
    returns (quotient: Word, remainder: Word)
    requires a1 >= 17 && a1 <= d3 && ByteShift(a1, d3, shift)
    requires Partial(n, d4, d3, d2) && d2 < d3 && d4 < MIN_INT
    ensures n == a1 * quotient + remainder && remainder < a1
  {
    var a2, a3, a4 := d2, d3, d4;
    ghost var j := shift;
    while a1 <= a3 / 2
      invariant a1 <= a3 < WORD && ByteShift(a1, a3, j)
      invariant Partial(n, a4, a3, a2) && a2 < a3 && a4 < MIN_INT
      decreases j
    {
      a2, a3, a4 := NextByte(a1, a2, a3, a4, n, j);
      j := j - 1;
    }
    LastByte(a1, a3, j);
    quotient, remainder := a4, a2;
  }

  lemma LastByte(a1: int, a3: int, j: nat)
    requires ByteShift(a1, a3, j) && a1 > 0 && a1 > a3 / 2
    ensures a3 == a1
  {
    if j > 0 {
      var x :| IsByteUp(a3, x) && ByteShift(a1, x, j - 1);
      ByteShiftGrows(a1, x, j - 1);
    }
  }

  lemma ByteDown(a1: int, a3: int, j: nat) returns (x: int)
    requires ByteShift(a1, a3, j) && a1 > 0 && a1 <= a3 / 2
    ensures j > 0 && a3 == 0x100 * x && ByteShift(a1, x, j - 1) && a1 <= x
    ensures a3 / 0x100 == x
  {
    if j == 0 {
      assert false;
    } else {
      x :| IsByteUp(a3, x) && ByteShift(a1, x, j - 1);
      ByteShiftGrows(a1, x, j - 1);
    }
  }

  /** One turn of u_loop2: `a3 >> 8`, `a4 << 1`, and the whole ladder. */
  method NextByte(a1: Word, a2: Word, a3: Word, a4: Word, ghost n: Word, ghost j: nat)
    returns (b2: Word, b3: Word, b4: Word)
    requires 0 < a1 <= a3 / 2 && a1 >= 17 && ByteShift(a1, a3, j)
    requires Partial(n, a4, a3, a2) && a2 < a3 && a4 < MIN_INT
    ensures j > 0 && a1 <= b3 && ByteShift(a1, b3, j - 1)
    ensures Partial(n, b4, b3, b2) && b2 < b3 && b4 < MIN_INT
  {
    ghost var x := ByteDown(a1, a3, j);
    b3 := a3 / 0x100;
    StepDown(n, a4, 0x80 * x, a2);
    b2, b4 := Ladder(7, a2, b3, a4 * 2, n);
  }

  /** u_loop itself: a3 goes up by bytes until some label fits. */
  method Normalise(a1: Word, ip: Word) returns (a3: Word, entry: nat, ghost j: nat)
    requires a1 >= 17 && ip <= MIN_INT
    ensures a3 >= a1 && ByteShift(a1, a3, j)
    ensures entry < 8 && ip <= a3 * Octave(entry) < WORD
  {
    a3, j := a1, 0;
    entry := Label(a3, ip);
    while entry == 8
      invariant a3 >= a1 && ByteShift(a1, a3, j)
      invariant entry <= 8
      invariant entry == 8 ==> ip > a3 * 128
      invariant entry < 8 ==> ip <= a3 * Octave(entry) < WORD
      decreases MIN_INT - a3, entry
    {
      assert IsByteUp(a3 * 0x100, a3);
      a3, j := a3 * 0x100, j + 1;
      entry := Label(a3, ip);
    }
  }

  // ---- The unsigned routines ----

  /** `if (a2 >= d) a1++`, and in the remainder routines `a2 -= d`. */
  method Correct(d: Word, a1: Word, a2: Word) returns (q: Word, left: Word)
    requires d > 0 && a1 < WORD - 1
    ensures d * q + left == d * a1 + a2
    ensures left == if a2 >= d then a2 - d else a2
  {
    q, left := a1, a2;
    if left >= d { q, left := q + 1, left - d; }
  }

  /**
   Cases 1 to 16 of the unsigned switch.  __udivide and __uremainder are twin
   texts: each estimates the quotient and corrects it when what is left is
   still a multiple too big; one returns the quotient, the other the rest.
   */
  method UnsignedCase(a1: Word, a2: Word) returns (q: Word, left: Word)
    requires 1 <= a1 <= 16
    ensures a2 == a1 * q + left && left < a1
  {
    match a1 {
      case 1 => q, left := a2, 0;
      case 2 => q, left := a2 / 2, a2 % 2;
      case 3 =>
        q, left := U3(a2);
        q, left := Correct(3, q, left);
        q, left := Correct(3, q, left);
      case 4 => q, left := a2 / 4, a2 % 4;
      case 5 => q, left := U5(a2); q, left := Correct(5, q, left);
      case 6 => q, left := U6(a2); q, left := Correct(6, q, left);
      case 7 => q, left := U7(a2); q, left := Correct(7, q, left);
      case 8 => q, left := a2 / 8, a2 % 8;
      case 9 => q, left := U9(a2); q, left := Correct(9, q, left);
      case 10 => q, left := U10(a2); q, left := Correct(10, q, left);
      case 11 => q, left := U11(a2); q, left := Correct(11, q, left);
      case 12 => q, left := U12(a2); q, left := Correct(12, q, left);
      case 13 => q, left := U13(a2); q, left := Correct(13, q, left);
      case 14 => q, left := U14(a2); q, left := Correct(14, q, left);
      case 15 => q, left := U15(a2); q, left := Correct(15, q, left);
      case _ => q, left := a2 / 16, a2 % 16;
    }
  }

  /** `unsigned long __udivide(a1, a2)`: the quotient of a2 by a1. */
  method UDivide(a1: Word, a2: Word) returns (r: Word)
    ensures r == if a1 == 0 then 0 else a2 / a1
  {
    if a1 == 0 { return 0; }
    var q, left;
    if a1 <= 16 {
      q, left := UnsignedCase(a1, a2);
    } else {
      q, left := General(a1, a2, if a2 < MIN_INT then a2 else MIN_INT);
    }
    QuotientIs(a2, a1, q, left);
    return q;
  }

  /** `unsigned long __uremainder(a1, a2)`: what is left of a2. */
  method URemainder(a1: Word, a2: Word) returns (r: Word)
    ensures r == if a1 == 0 then a2 else a2 % a1
  {
    if a1 == 0 { return a2; }
    var q, left;
    if a1 <= 16 {
      q, left := UnsignedCase(a1, a2);
    } else {
      q, left := General(a1, a2, if a2 < MIN_INT then a2 else MIN_INT);
    }
    QuotientIs(a2, a1, q, left);
    return left;
  }

  lemma QuotientIs(n: nat, d: nat, q: int, r: int)
    requires d > 0 && n == d * q + r && 0 <= r < d
    ensures q == n / d && r == n % d
  {
    DivMod(n, d);
    MulMinus(d, q, n / d);
    if q != n / d {
      MultipleIsBig(d, q - n / d);
    }
  }

  // ---- The signed routines ----

  /**
   The two sign bits the signed routines pack into ip: bit 31 is the sign of
   the dividend, bit 30 that of the quotient.  Below they are two booleans.
   */
  lemma PackedSigns(a1: bv32, a2: bv32)
    ensures var ip := (a2 & 0x8000_0000) | ((a1 ^ a2) >> 1);
            && (ip & 0x8000_0000 != 0 <==> a2 & 0x8000_0000 != 0)
            && (ip & 0x4000_0000 != 0 <==> (a1 & 0x8000_0000 != 0) != (a2 & 0x8000_0000 != 0))
  {
  }

  /** `x < 0 ? -x : x` on a bit pattern: INT_MIN stays INT_MIN, read as 2^31. */
  function Magnitude(x: Word): (m: Word)
    ensures m == Abs(Signed(x)) <= MIN_INT
  {
    if x < MIN_INT then x else Wrap(0 - x)
  }

  function Negate(negative: bool, x: Word): Word
  {
    if negative then Wrap(0 - x) else x
  }

  /** Cases 1 to 16 of the signed switch, on magnitudes. */
  method SignedCase(d: Word, n: Word) returns (q: Word, left: Word)
    requires 1 <= d <= 16 && n <= MIN_INT
    ensures n == d * q + left && left < d
  {
    match d {
      case 1 => q, left := n, 0;
      case 2 => q, left := n / 2, n % 2;
      case 3 => q, left := S3(n); q, left := Correct(3, q, left);
      case 4 => q, left := n / 4, n % 4;
      case 5 => q, left := S5(n); q, left := Correct(5, q, left);
      case 6 => q, left := S6(n); q, left := Correct(6, q, left);
      case 7 => q, left := S7(n); q, left := Correct(7, q, left);
      case 8 => q, left := n / 8, n % 8;
      case 9 => q, left := U9(n); q, left := Correct(9, q, left);
      case 10 => q, left := S10(n); q, left := Correct(10, q, left);
      case 11 => q, left := U11(n); q, left := Correct(11, q, left);
      case 12 => q, left := U12(n); q, left := Correct(12, q, left);
      case 13 => q, left := U13(n); q, left := Correct(13, q, left);
      case 14 => q, left := U14(n); q, left := Correct(14, q, left);
      case 15 => q, left := U15(n); q, left := Correct(15, q, left);
      case _ => q, left := n / 16, n % 16;
    }
  }

  /** `long __divide(a1, a2)`, on bit patterns. */
  method SDivide(a1: Word, a2: Word) returns (r: Word)
    ensures r == if a1 == 0 then 0 else Wrap(TDiv(Signed(a2), Signed(a1)))
  {
    var negative := (a1 >= MIN_INT) != (a2 >= MIN_INT);
    var n, d := Magnitude(a2), Magnitude(a1);
    if d == 0 { return 0; }
    var q, left;
    if d <= 16 {
      q, left := SignedCase(d, n);
    } else {
      q, left := General(d, n, n);
    }
    QuotientIs(n, d, q, left);
    return Negate(negative, q);
  }

  /** `long __remainder(a1, a2)`, on bit patterns. */
  method SRemainder(a1: Word, a2: Word) returns (r: Word)
    ensures r == if a1 == 0 then a2 else Wrap(TRem(Signed(a2), Signed(a1)))
  {
    var negative := a2 >= MIN_INT;
    var n, d := Magnitude(a2), Magnitude(a1);
    if d == 0 { return Negate(negative, n); }
    var q, left;
    if d <= 16 {
      q, left := SignedCase(d, n);
    } else {
      q, left := General(d, n, n);
    }
    QuotientIs(n, d, q, left);
    return Negate(negative, left);
  }

  /**
   The identity of section 6.5.5 of ISO/IEC 9899:1999, for whatever the two
   signed routines return: it holds modulo 2^32 for every pair of words with a
   non-zero divisor, and exactly unless the quotient overflows.
   */
  lemma DivisionIdentity(a1: Word, a2: Word, q: Word, r: Word)
    requires a1 != 0
    requires q == Wrap(TDiv(Signed(a2), Signed(a1)))
    requires r == Wrap(TRem(Signed(a2), Signed(a1)))
    ensures a2 == Wrap(Signed(a1) * Signed(q) + Signed(r))
    ensures Abs(Signed(r)) < Abs(Signed(a1))
    ensures r != 0 ==> (Signed(r) < 0) == (Signed(a2) < 0)
    ensures Truncates(Signed(a2), Signed(a1), Signed(q), Signed(r))
            <==> !(Signed(a2) == -MIN_INT && Signed(a1) == -1)
    ensures Signed(a2) == -MIN_INT && Signed(a1) == -1 ==> q == MIN_INT && r == 0
  {
    var a, b := Signed(a2), Signed(a1);
    TDivTruncates(a, b);
    QuotientOverflow(a, b);
  }

  // ---- Division by ten ----

  /** `unsigned _udiv10(a1)`. */
  method UDiv10(a1: Word) returns (r: Word)
    ensures r == a1 / 10
  {
    var q, left := Tenth(a1);
    if left >= 10 { q := q + 1; }
    return q;
  }

  type NonNegative = x: int | 0 <= x < 0x8000_0000

  /**
   The estimate of _sdiv10.  Only its first shift is unsigned; the later ones
   are shifts of a `long`, so its words must be seen to stay non-negative.
   */
  method SignedTenth(n: Word) returns (a1: NonNegative, a2: Word)
    requires n <= MIN_INT
    ensures n == 10 * a1 + a2 && a2 < 20
  {
    a1 := n / 2;
    a1 := a1 + a1 / 2;
    a1 := a1 + a1 / 0x10;
    a1 := a1 + a1 / 0x100;
    a1 := a1 + a1 / 0x1_0000;
    a1 := a1 / 8;
    var a3: NonNegative := a1 + a1 * 4;
    a2 := n - a3 * 2;
  }

  /** `long _sdiv10(a1)`. */
  method SDiv10(a1: Word) returns (r: Word)
    ensures r == Wrap(TDiv(Signed(a1), 10))
  {
    var q, left := SignedTenth(Magnitude(a1));
    q, left := Correct(10, q, left);
    QuotientIs(Magnitude(a1), 10, q, left);
    return Negate(a1 >= MIN_INT, q);
  }
}
