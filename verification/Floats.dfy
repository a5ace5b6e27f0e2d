/**
 floor, ceil and modf of fplib/math.c on the bit fields of a double
 (binary64, section 3.4 of IEEE 754-2008).
 */
module Floats {

  /** fp_number: sign, 11-bit exponent, and the fraction in two words of 20 and 32 bits. */
  datatype Double = Double(s: bool, x: int, mhi: int, mlo: int)

  predicate Valid(d: Double)
  {
    0 <= d.x < 0x800 && 0 <= d.mhi < 0x10_0000 && 0 <= d.mlo < 0x1_0000_0000
  }

  /** Not an infinity or a NaN. */
  predicate Finite(d: Double) { Valid(d) && d.x != 0x7ff }

  function Pow2(n: nat): (p: nat)
    ensures p > 0
  {
    if n == 0 then 1 else 2 * Pow2(n - 1)
  }

  const IMPLICIT := 0x10_0000_0000_0000 // 2^52

  /** The significand, with the implicit bit of a normal number. */
  function Mant(d: Double): int
  {
    (if d.x == 0 then 0 else IMPLICIT) + d.mhi * 0x1_0000_0000 + d.mlo
  }

  function Scale(d: Double): nat
  {
    if d.x <= 1 then 0 else d.x - 1
  }

  function Signed(s: bool, n: int): int { if s then -n else n }

  /** The value of a double in units of 2^-1074, the least there is. */
  function Num(d: Double): int
  {
    Signed(d.s, Mant(d) * Pow2(Scale(d)))
  }

  /** The number one, in those units. */
  function One(): (u: int)
    ensures u > 0
  {
    Pow2(1074)
  }

  lemma {:induction false} PowAdd(a: nat, b: nat)
    ensures Pow2(a + b) == Pow2(a) * Pow2(b)
  {
    if a > 0 {
      PowAdd(a - 1, b);
      Assoc(2, Pow2(a - 1), Pow2(b));
    }
  }

  lemma Assoc(x: int, y: int, z: int)
    ensures (x * y) * z == x * (y * z)
  {
  }

  /** The double of m units of 2^t. */
  function Encode(s: bool, m: nat, t: nat): (d: Double)
    decreases t
  {
    if m < IMPLICIT && t > 0 then Encode(s, 2 * m, t - 1)
    else if m < IMPLICIT then Double(s, 0, m / 0x1_0000_0000, m % 0x1_0000_0000)
    else Double(s, t + 1, (m - IMPLICIT) / 0x1_0000_0000, (m - IMPLICIT) % 0x1_0000_0000)
  }

  lemma Doubling(m: int, t: nat)
    requires t > 0
    ensures (2 * m) * Pow2(t - 1) == m * Pow2(t)
  {
  }

  lemma {:induction false} EncodeIs(s: bool, m: nat, t: nat)
    requires m < 2 * IMPLICIT && t < 0x7fe
    ensures Finite(Encode(s, m, t)) && Num(Encode(s, m, t)) == Signed(s, m * Pow2(t))
    decreases t
  {
    if m < IMPLICIT && t > 0 {
      Doubling(m, t);
      EncodeIs(s, 2 * m, t - 1);
    } else if m < IMPLICIT {
      assert Mant(Encode(s, m, t)) == m;
    } else {
      assert Mant(Encode(s, m, t)) == m;
    }
  }

  /** n is the whole number k. */
  predicate IsWhole(n: int, k: int) { n == k * One() }

  /** How many bits of the significand are worth less than one. */
  function FracBits(d: Double): int { 52 - (d.x - 0x3ff) }

  lemma Units(d: Double)
    requires Valid(d) && 0 <= d.x - 0x3ff < 52
    ensures Pow2(FracBits(d)) * Pow2(Scale(d)) == One()
  {
    PowAdd(FracBits(d), Scale(d));
  }

  lemma Pow32()
    ensures Pow2(32) == 0x1_0000_0000 && Pow2(20) == 0x10_0000
  {
    PowAdd(16, 16);
    PowAdd(10, 10);
    assert Pow2(10) == 1024;
    PowAdd(10, 6);
    assert Pow2(6) == 64;
  }

  lemma Split(v: int, p: nat)
    requires p > 0
    ensures v == (v / p) * p + v % p && 0 <= v % p < p
  {
  }

  lemma Quotient(v: nat, p: nat)
    requires p > 0
    ensures v / p >= 0
  {
  }

  lemma Product(m: nat, p: nat)
    ensures m * p >= 0
  {
  }

  lemma Distribute(a: int, b: int, c: int)
    ensures (a + b) * c == a * c + b * c
  {
  }

  /** Clearing the low k bits of the low word of a significand. */
  lemma LowWord(hi: int, lo: int, k: nat) returns (q: int)
    requires 0 <= hi && 0 <= lo && k <= 32
    ensures hi * 0x1_0000_0000 + (lo - lo % Pow2(k)) == q * Pow2(k)
    ensures 0 <= lo - lo % Pow2(k) <= lo && 0 <= lo % Pow2(k) < Pow2(k) && 0 <= q
  {
    var p := Pow2(k);
    Split(lo, p);
    Pow32();
    PowAdd(32 - k, k);
    Assoc(hi, Pow2(32 - k), p);
    q := hi * Pow2(32 - k) + lo / p;
    Product(hi, Pow2(32 - k));
    Quotient(lo, p);
    Distribute(hi * Pow2(32 - k), lo / p, p);
    NonNegative(lo, p);
  }

  lemma NonNegative(v: int, p: nat)
    requires 0 <= v && p > 0
    ensures v % p <= v
  {
  }

  /** Clearing the low g bits of the high word of a normal significand, and the low word. */
  lemma HighWord(mhi: int, g: nat) returns (q: int)
    requires 0 <= mhi && g <= 20
    ensures IMPLICIT + (mhi - mhi % Pow2(g)) * 0x1_0000_0000 == q * Pow2(g + 32)
    ensures 0 <= mhi - mhi % Pow2(g) <= mhi && 0 <= q
  {
    var p := Pow2(g);
    Split(mhi, p);
    NonNegative(mhi, p);
    Pow32();
    PowAdd(20 - g, g);
    PowAdd(g, 32);
    q := Pow2(20 - g) + mhi / p;
    Quotient(mhi, p);
    Distribute(Pow2(20 - g), mhi / p, p);
    Assoc(q, p, 0x1_0000_0000);
  }

  // ---- arithmetic ----

  function Strip(m: nat, t: nat): (r: (nat, nat))
  {
    if m >= 2 * IMPLICIT then Strip(m / 2, t + 1) else (m, t)
  }

  /**
   The double worth n, if there is one.  Section 4.3 of IEEE 754-2008 has every
   operation return it whenever its exact result is one; the sums and
   differences here always are.
   */
  function FromNum(n: int): Double
  {
    var (m, t) := Strip(if n < 0 then -n else n, 0);
    Encode(n < 0, m, t)
  }

  lemma {:induction false} StripIs(m: nat, t: nat, t0: nat)
    requires m < 2 * IMPLICIT
    ensures var (m', t') := Strip(m * Pow2(t), t0);
            m' < 2 * IMPLICIT && t' <= t0 + t && m' * Pow2(t') == (m * Pow2(t)) * Pow2(t0)
    decreases t
  {
    if m * Pow2(t) >= 2 * IMPLICIT {
      assert t > 0;
      Assoc(m, 2, Pow2(t - 1));
      Halve(m * Pow2(t - 1), m * Pow2(t));
      StripIs(m, t - 1, t0 + 1);
      Assoc(m * Pow2(t - 1), 2, Pow2(t0));
    }
  }

  lemma Halve(a: nat, b: nat)
    requires b == 2 * a
    ensures b / 2 == a
  {
  }

  lemma FromNumOf(n: int, m: nat, t: nat)
    requires m < 2 * IMPLICIT && t < 0x7fe && Strip(if n < 0 then -n else n, 0) == (m, t)
    requires m * Pow2(t) == if n < 0 then -n else n
    ensures Finite(FromNum(n)) && Num(FromNum(n)) == n
  {
    EncodeIs(n < 0, m, t);
  }

  lemma StripZero(m: nat, t: nat, v: nat)
    requires m < 2 * IMPLICIT && v == m * Pow2(t)
    ensures Strip(v, 0).0 < 2 * IMPLICIT && Strip(v, 0).1 <= t
    ensures Strip(v, 0).0 * Pow2(Strip(v, 0).1) == v
  {
    StripIs(m, t, 0);
    assert Pow2(0) == 1;
  }

  lemma FromNumIs(s: bool, m: nat, t: nat, v: nat)
    requires m < 2 * IMPLICIT && t < 0x7fe && v == m * Pow2(t)
    ensures Finite(FromNum(Signed(s, v))) && Num(FromNum(Signed(s, v))) == Signed(s, v)
  {
    StripZero(m, t, v);
    FromNumOf(Signed(s, v), Strip(v, 0).0, Strip(v, 0).1);
  }

  // ---- the functions ----

  const ZERO := Double(false, 0, 0, 0)

  /** `mask = 0xffffffff >> (exponent - 20)`, of k bits, on the low word. */
  method ClearLow(d: Double, k: nat) returns (x: Double, exact: int, ghost q: nat, ghost r: nat)
    requires Valid(d) && d.x > 0 && k <= 32
    ensures x == d.(mlo := x.mlo) && Valid(x)
    ensures Mant(x) == q * Pow2(k) && Mant(d) == Mant(x) + r
    ensures r < Pow2(k) && exact == r
  {
    exact := d.mlo % Pow2(k);
    q := LowWord(0x10_0000 + d.mhi, d.mlo, k);
    x := d.(mlo := d.mlo - exact);
    r := exact;
  }

  /** `mask = 0xfffff >> exponent`, of g bits, on the high word, and the low word goes. */
  method ClearHigh(d: Double, g: nat) returns (x: Double, exact: int, ghost q: nat, ghost r: nat)
    requires Valid(d) && d.x > 0 && g <= 20
    ensures x == d.(mhi := x.mhi, mlo := 0) && Valid(x)
    ensures Mant(x) == q * Pow2(g + 32) && Mant(d) == Mant(x) + r
    ensures r < Pow2(g + 32) && (exact == 0 <==> r == 0)
  {
    var high := d.mhi % Pow2(g);
    Split(d.mhi, Pow2(g));
    exact := if high != 0 then high else d.mlo;
    q := HighWord(d.mhi, g);
    x := d.(mhi := d.mhi - high, mlo := 0);
    r := high * 0x1_0000_0000 + d.mlo;
    Carry(high, d.mlo, g);
  }

  lemma Carry(high: nat, lo: nat, g: nat)
    requires high < Pow2(g) && lo < 0x1_0000_0000
    ensures high * 0x1_0000_0000 + lo < Pow2(g + 32)
  {
    PowAdd(g, 32);
    Pow32();
  }

  /** The bits of the significand below the point are cleared. */
  method ClearFraction(d: Double) returns (x: Double, exact: int, ghost q: nat, ghost r: nat)
    requires Finite(d) && 0 <= d.x - 0x3ff < 52
    ensures Finite(x) && x.s == d.s && x.x == d.x
    ensures Mant(x) == q * Pow2(FracBits(d)) && Mant(d) == Mant(x) + r
    ensures r < Pow2(FracBits(d)) && (exact == 0 <==> r == 0)
  {
    var exponent := d.x - 0x3ff;
    if exponent >= 20 {
      x, exact, q, r := ClearLow(d, 52 - exponent);
    } else {
      x, exact, q, r := ClearHigh(d, 20 - exponent);
    }
  }

  /** The size of a finite double in units: what its bits at or above the point are worth, and the rest. */
  lemma Parts(m: int, q: nat, r: nat, f: nat, t: nat)
    requires m == q * Pow2(f) + r && r < Pow2(f) && f + t == 1074
    ensures m * Pow2(t) == q * One() + r * Pow2(t) && 0 <= r * Pow2(t) < One()
    ensures r == 0 <==> r * Pow2(t) == 0
  {
    PowAdd(f, t);
    Distribute(q * Pow2(f), r, Pow2(t));
    Assoc(q, Pow2(f), Pow2(t));
    Less(r, Pow2(f), Pow2(t));
  }

  lemma Less(a: nat, b: nat, c: nat)
    requires a < b && c > 0
    ensures 0 <= a * c < b * c && (a == 0 <==> a * c == 0)
  {
  }

  /** A double with exponent below that of one is less than one. */
  lemma Small(d: Double)
    requires Finite(d) && d.x < 0x3ff
    ensures 0 <= Mant(d) * Pow2(Scale(d)) < One()
    ensures Mant(d) * Pow2(Scale(d)) == 0 <==> Mant(d) == 0
  {
    var t := Scale(d);
    PowAdd(1074 - t, t);
    PowMono(53, 1074 - t);
    Pow53();
    Less(Mant(d), Pow2(1074 - t), Pow2(t));
  }

  lemma {:induction false} PowMono(a: nat, b: nat)
    requires a <= b
    ensures Pow2(a) <= Pow2(b)
    decreases b
  {
    if a < b { PowMono(a, b - 1); }
  }

  lemma Pow53()
    ensures Pow2(53) == 2 * IMPLICIT
  {
    Pow32();
    PowAdd(32, 20);
  }

  /** A double whose exponent is at least 52 is whole. */
  lemma Large(d: Double)
    requires Finite(d) && d.x - 0x3ff >= 52
    ensures Mant(d) * Pow2(Scale(d)) == (Mant(d) * Pow2(Scale(d) - 1074)) * One()
  {
    PowAdd(Scale(d) - 1074, 1074);
    Assoc(Mant(d), Pow2(Scale(d) - 1074), One());
  }

  ghost predicate Integral(n: int)
  {
    exists k :: IsWhole(n, k)
  }

  /** w is the greatest whole number that is at most v. */
  ghost predicate FloorOf(v: int, w: int)
  {
    Integral(w) && w <= v < w + One()
  }

  /** w is the least whole number that is at least v. */
  ghost predicate CeilOf(v: int, w: int)
  {
    Integral(w) && w - One() < v <= w
  }

  const ONE := Double(false, 0x3ff, 0, 0)
  const MINUS_ONE := Double(true, 0x3ff, 0, 0)

  lemma OneUnits(d: Double, f: nat)
    requires d.x == 0x3ff && d.mhi == 0 == d.mlo && f == 52
    ensures Num(d) == Signed(d.s, One())
  {
    Units(d);
    Pow53();
    assert 2 * Pow2(f) == Pow2(f + 1);
    assert Mant(d) == Pow2(FracBits(d));
  }

  lemma Constants()
    ensures Num(ZERO) == 0 && Num(ONE) == One() && Num(MINUS_ONE) == -One()
  {
    OneUnits(ONE, 52);
    OneUnits(MINUS_ONE, 52);
  }

  lemma Wholes()
    ensures Integral(0) && Integral(One()) && Integral(-One())
  {
    assert IsWhole(0, 0) && IsWhole(One(), 1) && IsWhole(-One(), -1);
  }

  predicate IsZero(d: Double) { d.x == 0 && d.mhi == 0 && d.mlo == 0 }

  lemma SignedTimes(s: bool, k: int, u: int)
    ensures Signed(s, k) * u == Signed(s, k * u)
  {
  }

  /** The parts of a double whose exponent is between 0 and 51, and the next whole number from zero. */
  lemma Between(d: Double, x: Double, q: nat, r: nat)
    requires Finite(d) && 0 <= d.x - 0x3ff < 52 && Finite(x) && x.s == d.s && x.x == d.x
    requires Mant(x) == q * Pow2(FracBits(d)) && Mant(d) == Mant(x) + r && r < Pow2(FracBits(d))
    ensures Num(x) == Signed(d.s, q * One()) && Num(d) == Signed(d.s, q * One() + r * Pow2(Scale(d)))
    ensures 0 <= r * Pow2(Scale(d)) < One() && (r == 0 <==> r * Pow2(Scale(d)) == 0)
    ensures IsWhole(Num(x), Signed(d.s, q)) && q + 1 < 2 * IMPLICIT
  {
    var f, t := FracBits(d), Scale(d);
    Parts(Mant(d), q, r, f, t);
    PowAdd(f, t);
    Assoc(q, Pow2(f), Pow2(t));
    assert Mant(x) * Pow2(t) == q * One();
    SignedTimes(d.s, q, One());
    Half(q, f, Mant(x));
  }

  lemma Half(q: nat, f: nat, m: int)
    requires f > 0 && m == q * Pow2(f) && m < 2 * IMPLICIT
    ensures q < IMPLICIT
  {
  }

  /** One further from zero than the whole number q. */
  lemma Next(s: bool, q: nat, n: int)
    requires q + 1 < 2 * IMPLICIT && n == Signed(s, q * One() + One())
    ensures Finite(FromNum(n)) && Num(FromNum(n)) == n && IsWhole(n, Signed(s, q + 1))
  {
    Distribute(q, 1, One());
    Product(q, One());
    SignedTimes(s, q + 1, One());
    FromNumIs(s, q + 1, 1074, q * One() + One());
  }

  lemma NonZero(d: Double)
    requires Finite(d)
    ensures IsZero(d) <==> Mant(d) == 0
    ensures IsZero(d) ==> Num(d) == 0
  {
  }

  /** What lies between -1 and 1 without being zero. */
  lemma SmallRounds(d: Double)
    requires Finite(d) && d.x < 0x3ff && !IsZero(d)
    ensures FloorOf(Num(d), if d.s then -One() else 0)
    ensures CeilOf(Num(d), if d.s then 0 else One())
  {
    NonZero(d);
    Small(d);
    Wholes();
  }

  lemma LargeWhole(d: Double)
    requires Finite(d) && d.x - 0x3ff >= 52
    ensures FloorOf(Num(d), Num(d)) && CeilOf(Num(d), Num(d))
  {
    Large(d);
    var k := Mant(d) * Pow2(Scale(d) - 1074);
    assert Signed(d.s, k * One()) == Signed(d.s, k) * One();
    assert IsWhole(Num(d), Signed(d.s, k));
  }

  method Floor(d: Double) returns (res: Double)
    requires Valid(d)
    ensures Finite(d) ==> Finite(res) && FloorOf(Num(d), Num(res))
    ensures !Finite(d) ==> res == d
  {
    Constants();
    Wholes();
    if IsZero(d) { return ZERO; }
    var exponent := d.x - 0x3ff;
    if exponent < 0 {
      SmallRounds(d);
      return if d.s then MINUS_ONE else ZERO;
    } else if exponent >= 52 {
      if Finite(d) { LargeWhole(d); }
      return d;
    }
    res := FloorBetween(d);
  }

  /** floor's last part, for an exponent between 0 and 51. */
  method FloorBetween(d: Double) returns (res: Double)
    requires Finite(d) && 0 <= d.x - 0x3ff < 52
    ensures Finite(res) && FloorOf(Num(d), Num(res))
  {
    Constants();
    ghost var q, r;
    var x, exact;
    x, exact, q, r := ClearFraction(d);
    Between(d, x, q, r);
    if exact != 0 && x.s {
      Next(true, q, Num(x) - Num(ONE));
      res := FromNum(Num(x) - Num(ONE));
    } else {
      res := x;
    }
  }

  method Ceil(d: Double) returns (res: Double)
    requires Valid(d)
    ensures Finite(d) ==> Finite(res) && CeilOf(Num(d), Num(res))
    ensures !Finite(d) ==> res == d
  {
    Constants();
    Wholes();
    if IsZero(d) { return ZERO; }
    var exponent := d.x - 0x3ff;
    if exponent < 0 {
      SmallRounds(d);
      return if d.s then ZERO else ONE;
    } else if exponent >= 52 {
      if Finite(d) { LargeWhole(d); }
      return d;
    }
    res := CeilBetween(d);
  }

  method CeilBetween(d: Double) returns (res: Double)
    requires Finite(d) && 0 <= d.x - 0x3ff < 52
    ensures Finite(res) && CeilOf(Num(d), Num(res))
  {
    Constants();
    ghost var q, r;
    var x, exact;
    x, exact, q, r := ClearFraction(d);
    Between(d, x, q, r);
    if exact != 0 && !x.s {
      Next(false, q, Num(x) + Num(ONE));
      res := FromNum(Num(x) + Num(ONE));
    } else {
      res := x;
    }
  }

  /** There is one floor and one ceiling, and the ceiling is the floor of the other sign. */
  lemma CeilIsFloor(d: Double, up: Double, down: Double)
    requires CeilOf(Num(d), Num(up)) && FloorOf(Num(d.(s := !d.s)), Num(down))
    ensures Num(up) == -Num(down)
  {
    var k :| IsWhole(Num(up), k);
    var l :| IsWhole(Num(down), l);
    NumNegated(d);
    Distribute(k, l, One());
    OnlyZero(k + l, One());
  }

  lemma OnlyZero(k: int, u: int)
    requires -u < k * u < u && u > 0
    ensures k == 0
  {
  }

  lemma NumNegated(d: Double)
    ensures Num(d.(s := !d.s)) == -Num(d)
  {
  }

  /** The whole part and the rest, neither with the other sign. */
  ghost predicate PartsOf(v: int, whole: int, frac: int)
  {
    && Integral(whole) && whole + frac == v && -One() < frac < One()
    && (v >= 0 ==> whole >= 0 && frac >= 0)
    && (v <= 0 ==> whole <= 0 && frac <= 0)
  }

  method Modf(value: Double) returns (iptr: Double, frac: Double)
    requires Valid(value)
    ensures Finite(value) ==> Finite(iptr) && Finite(frac) && PartsOf(Num(value), Num(iptr), Num(frac))
    ensures !Finite(value) ==> iptr == value && frac == ZERO
  {
    Constants();
    Wholes();
    if IsZero(value) { return ZERO, ZERO; }
    var exponent := value.x - 0x3ff;
    if exponent < 0 {
      Small(value);
      return ZERO, value;
    } else if exponent >= 52 {
      if Finite(value) { LargeWhole(value); Sign(value); }
      return value, ZERO;
    }
    iptr, frac := ModfBetween(value);
  }

  lemma Sign(d: Double)
    requires Valid(d)
    ensures if d.s then Num(d) <= 0 else Num(d) >= 0
  {
  }

  method ModfBetween(value: Double) returns (iptr: Double, frac: Double)
    requires Finite(value) && 0 <= value.x - 0x3ff < 52
    ensures Finite(iptr) && Finite(frac) && PartsOf(Num(value), Num(iptr), Num(frac))
  {
    ghost var q, r;
    var exact;
    iptr, exact, q, r := ClearFraction(value);
    Between(value, iptr, q, r);
    Sign(iptr);
    frac := FromNum(Num(value) - Num(iptr));
    PowMono(FracBits(value), 53);
    Pow53();
    FromNumIs(value.s, r, Scale(value), r * Pow2(Scale(value)));
  }
}
