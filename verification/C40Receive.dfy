/**
 Delivery of a message from a link into memory on the C40, whose links move
 whole words only (kernel/linkmsg1.c, the __C40 part of LinkMsg, and
 LeftShuffle).  The sender rounds out to word boundaries at both ends; the
 receiver picks the message's own bytes out again, at any alignment, without
 touching a byte outside the destination.  Memory is little endian.
 */
module C40Receives {
  import opened LinkIO
  import opened Words

  // ---- Words and their bytes ----

  function Sum(b0: int, b1: int, b2: int, b3: int): int
  {
    b0 + 0x100 * b1 + 0x1_0000 * b2 + 0x100_0000 * b3
  }

  function LE(b: seq<Byte>): (w: Word)
    requires |b| == 4
  {
    Sum(b[0], b[1], b[2], b[3])
  }

  function ByteOf(w: Word, k: nat): Byte
    requires k < 4
  {
    if k == 0 then w % 0x100 else if k == 1 then w / 0x100 % 0x100
    else if k == 2 then w / 0x1_0000 % 0x100 else w / 0x100_0000
  }

  lemma BytesOfLE(b: seq<Byte>)
    requires |b| == 4
    ensures ByteOf(LE(b), 0) == b[0] && ByteOf(LE(b), 1) == b[1] && ByteOf(LE(b), 2) == b[2] && ByteOf(LE(b), 3) == b[3]
  {
    Shifts(b[0], b[1], b[2], b[3]);
    LowByte(b[0], Sum(b[1], b[2], b[3], 0));
    LowByte(b[1], Sum(b[2], b[3], 0, 0));
    LowByte(b[2], b[3]);
  }

  lemma LowByte(b: int, rest: int)
    requires 0 <= b < 0x100
    ensures (b + 0x100 * rest) % 0x100 == b && (b + 0x100 * rest) / 0x100 == rest
  {
  }

  lemma LowBytes(b: int, rest: int)
    requires 0 <= b < 0x1_0000
    ensures (b + 0x1_0000 * rest) % 0x1_0000 == b && (b + 0x1_0000 * rest) / 0x1_0000 == rest
  {
  }

  lemma LowerBytes(b: int, rest: int)
    requires 0 <= b < 0x100_0000
    ensures (b + 0x100_0000 * rest) % 0x100_0000 == b && (b + 0x100_0000 * rest) / 0x100_0000 == rest
  {
  }

  /** Shifting a word right by whole bytes drops its low bytes, and a mask keeps them. */
  lemma Shifts(b0: Byte, b1: Byte, b2: Byte, b3: Byte)
    ensures Sum(b0, b1, b2, b3) / 0x100 == Sum(b1, b2, b3, 0) && Sum(b0, b1, b2, b3) % 0x100 == b0
    ensures Sum(b0, b1, b2, b3) / 0x1_0000 == Sum(b2, b3, 0, 0) && Sum(b0, b1, b2, b3) % 0x1_0000 == Sum(b0, b1, 0, 0)
    ensures Sum(b0, b1, b2, b3) / 0x100_0000 == b3 && Sum(b0, b1, b2, b3) % 0x100_0000 == Sum(b0, b1, b2, 0)
  {
    LowByte(b0, Sum(b1, b2, b3, 0));
    LowBytes(Sum(b0, b1, 0, 0), Sum(b2, b3, 0, 0));
    LowerBytes(Sum(b0, b1, b2, 0), b3);
  }

  /** A word shifted right by k whole bytes. */
  function ShiftDown(w: Word, k: nat): Word
    requires 1 <= k <= 3
  {
    if k == 1 then w / 0x100 else if k == 2 then w / 0x1_0000 else w / 0x100_0000
  }

  /** The low k bytes of a word. */
  function LowPart(w: Word, k: nat): Word
    requires 1 <= k <= 3
  {
    if k == 1 then w % 0x100 else if k == 2 then w % 0x1_0000 else w % 0x100_0000
  }

  /** The number whose one to three bytes are c. */
  predicate IsCarry(x: Word, c: seq<Byte>)
  {
    match |c|
    case 1 => x == c[0]
    case 2 => x == Sum(c[0], c[1], 0, 0)
    case 3 => x == Sum(c[0], c[1], c[2], 0)
    case _ => false
  }

  /** `src1 | (src2 << lshift)`: src1 has 4 - bytesleft bytes, and the shifted bits lie above them. */
  function Merge(src1: Word, src2: Word, bytesleft: nat): Word
    requires 1 <= bytesleft <= 3
  {
    if bytesleft == 1 then (src1 + src2 * 0x100_0000) % 0x1_0000_0000
    else if bytesleft == 2 then (src1 + src2 * 0x1_0000) % 0x1_0000_0000
    else (src1 + src2 * 0x100) % 0x1_0000_0000
  }

  /** Shifting w up past the bytes below it: what stays in the word, and what leaves it. */
  lemma ShiftedPast(low: int, w0: int, w1: int, w2: int, w3: int)
    ensures low + Sum(w0, w1, w2, w3) * 0x100_0000 == (low + w0 * 0x100_0000) + 0x1_0000_0000 * Sum(w1, w2, w3, 0)
    ensures low + Sum(w0, w1, w2, w3) * 0x1_0000
        == (low + w0 * 0x1_0000 + w1 * 0x100_0000) + 0x1_0000_0000 * Sum(w2, w3, 0, 0)
    ensures low + Sum(w0, w1, w2, w3) * 0x100
         == (low + w0 * 0x100 + w1 * 0x1_0000 + w2 * 0x100_0000) + 0x1_0000_0000 * w3
  {
  }

  lemma WordPart(x: int, low: Word, high: int)
    requires x == low + 0x1_0000_0000 * high
    ensures x % 0x1_0000_0000 == low
  {
  }

  lemma MergeIs(src1: Word, src2: Word, bytesleft: nat, low: Word, high: int)
    requires 1 <= bytesleft <= 3
    requires bytesleft == 1 ==> src1 + src2 * 0x100_0000 == low + 0x1_0000_0000 * high
    requires bytesleft == 2 ==> src1 + src2 * 0x1_0000 == low + 0x1_0000_0000 * high
    requires bytesleft == 3 ==> src1 + src2 * 0x100 == low + 0x1_0000_0000 * high
    ensures Merge(src1, src2, bytesleft) == low
  {
    if bytesleft == 1 {
      WordPart(src1 + src2 * 0x100_0000, low, high);
    } else if bytesleft == 2 {
      WordPart(src1 + src2 * 0x1_0000, low, high);
    } else {
      WordPart(src1 + src2 * 0x100, low, high);
    }
  }

  lemma MergeOne(src1: Word, src2: Word, low: Word, c: int, w0: Byte, w1: Byte, w2: Byte, w3: Byte)
    requires src1 == c && src2 == Sum(w0, w1, w2, w3) && low == c + w0 * 0x100_0000
    ensures Merge(src1, src2, 1) == low
  {
    ShiftedPast(src1, w0, w1, w2, w3);
    MergeIs(src1, src2, 1, low, Sum(w1, w2, w3, 0));
  }

  lemma MergeTwo(src1: Word, src2: Word, low: Word, c: int, w0: Byte, w1: Byte, w2: Byte, w3: Byte)
    requires src1 == c && src2 == Sum(w0, w1, w2, w3) && low == c + w0 * 0x1_0000 + w1 * 0x100_0000
    ensures Merge(src1, src2, 2) == low
  {
    ShiftedPast(src1, w0, w1, w2, w3);
    MergeIs(src1, src2, 2, low, Sum(w2, w3, 0, 0));
  }

  lemma MergeThree(src1: Word, src2: Word, low: Word, c: int, w0: Byte, w1: Byte, w2: Byte, w3: Byte)
    requires src1 == c && src2 == Sum(w0, w1, w2, w3) && low == c + w0 * 0x100 + w1 * 0x1_0000 + w2 * 0x100_0000
    ensures Merge(src1, src2, 3) == low
  {
    ShiftedPast(src1, w0, w1, w2, w3);
    MergeIs(src1, src2, 3, low, w3);
  }

  lemma MixedIs(c: seq<Byte>, w: seq<Byte>)
    requires 1 <= |c| <= 3 && |w| == 4
    ensures |c| == 3 ==> LE(Mixed(c, w)) == Sum(c[0], c[1], c[2], w[0])
    ensures |c| == 2 ==> LE(Mixed(c, w)) == Sum(c[0], c[1], w[0], w[1])
    ensures |c| == 1 ==> LE(Mixed(c, w)) == Sum(c[0], w[0], w[1], w[2])
  {
  }

  lemma MergeBytes(src1: Word, c: seq<Byte>, w: seq<Byte>, src2: Word, bytesleft: nat)
    requires 1 <= bytesleft <= 3 && |c| == 4 - bytesleft && |w| == 4 && IsCarry(src1, c) && src2 == LE(w)
    ensures Merge(src1, src2, bytesleft) == LE(Mixed(c, w))
  {
    MixedIs(c, w);
    if bytesleft == 1 {
      MergeOne(src1, src2, LE(Mixed(c, w)), Sum(c[0], c[1], c[2], 0), w[0], w[1], w[2], w[3]);
    } else if bytesleft == 2 {
      MergeTwo(src1, src2, LE(Mixed(c, w)), Sum(c[0], c[1], 0, 0), w[0], w[1], w[2], w[3]);
    } else {
      MergeThree(src1, src2, LE(Mixed(c, w)), c[0], w[0], w[1], w[2], w[3]);
    }
  }

  /** `src2 >> rshift` is the carry into the next word. */
  lemma CarryOver(w: seq<Byte>, src2: Word, bytesleft: nat)
    requires 1 <= bytesleft <= 3 && |w| == 4 && src2 == LE(w)
    ensures IsCarry(ShiftDown(src2, bytesleft), w[bytesleft..])
  {
    Shifts(w[0], w[1], w[2], w[3]);
  }

  /** `*src & mask` keeps the low 4 - bytesleft bytes. */
  lemma MaskedBytes(w: seq<Byte>, bytesleft: nat)
    requires 1 <= bytesleft <= 3 && |w| == 4
    ensures IsCarry(LowPart(LE(w), 4 - bytesleft), w[..4 - bytesleft])
  {
    Shifts(w[0], w[1], w[2], w[3]);
  }

  /** A carry stored as a whole word is its bytes, then zeros. */
  function Padded(c: seq<Byte>): seq<Byte>
    requires 1 <= |c| <= 3
  {
    c + seq(4 - |c|, _ => 0)
  }

  lemma CarryIsWord(x: Word, c: seq<Byte>)
    requires 1 <= |c| <= 3 && IsCarry(x, c)
    ensures x == LE(Padded(c))
  {
  }

  // ---- Memory ----

  /** Memory m after the bytes b were stored at address a. */
  function Stored(m: seq<Byte>, a: nat, b: seq<Byte>): (m': seq<Byte>)
    requires a + |b| <= |m|
  {
    seq(|m|, x requires 0 <= x < |m| => if a <= x < a + |b| then b[x - a] else m[x])
  }

  /** The four bytes at address a. */
  ghost function Four(m: seq<Byte>, a: nat): (w: seq<Byte>)
    requires a + 4 <= |m|
    ensures |w| == 4
  {
    [m[a], m[a + 1], m[a + 2], m[a + 3]]
  }

  method GetWord(mem: array<Byte>, a: nat) returns (w: Word)
    requires a + 4 <= mem.Length
    ensures w == LE(Four(mem[..], a))
  {
    w := Sum(mem[a], mem[a + 1], mem[a + 2], mem[a + 3]);
  }

  method PutWord(mem: array<Byte>, a: nat, w: Word, ghost b: seq<Byte>)
    requires a + 4 <= mem.Length && |b| == 4 && w == LE(b)
    modifies mem
    ensures mem[..] == Stored(old(mem[..]), a, b)
  {
    BytesOfLE(b);
    mem[a], mem[a + 1], mem[a + 2], mem[a + 3] := ByteOf(w, 0), ByteOf(w, 1), ByteOf(w, 2), ByteOf(w, 3);
  }

  // ---- LeftShuffle ----

  /**
   Memory m with the n bytes at a moved down by `left` places.  The words are
   written whole, so the top bytes of the last one end as zeros.
   */
  function Shuffled(m: seq<Byte>, a: nat, left: nat, n: nat): (m': seq<Byte>)
    requires left <= a && a + n <= |m|
  {
    seq(|m|, x requires 0 <= x < |m| =>
      if a - left <= x < a - left + n then m[x + left] else if a - left + n <= x < a + n then 0 else m[x])
  }

  /** Memory half way through: the words below address p have been written. */
  ghost function HalfWay(m: seq<Byte>, a: nat, left: nat, p: nat): (m': seq<Byte>)
    requires left <= 3 < a && p + 4 <= |m|
  {
    seq(|m|, x requires 0 <= x < |m| => if a - left <= x < p then m[x + left] else m[x])
  }

  /** The bytes held over from the word before p + 4. */
  ghost function Held(m: seq<Byte>, a: nat, left: nat, p: nat): (c: seq<Byte>)
    requires left <= 3 < a && p + 4 <= |m|
  {
    seq(4 - left, x requires 0 <= x < 4 - left => if p < a then m[p + x] else m[p + x + left])
  }

  /** c, then the first `left` bytes of w; and the rest of w. */
  ghost function Mixed(c: seq<Byte>, w: seq<Byte>): (b: seq<Byte>)
    requires |c| <= 4 == |w|
    ensures |b| == 4
  {
    seq(4, x requires 0 <= x < 4 => if x < |c| then c[x] else w[x - |c|])
  }

  lemma NextWord(m: seq<Byte>, a: nat, left: nat, p: nat)
    requires 1 <= left <= 3 < a && p + 8 <= |m| && (p == a - 4 || p >= a)
    ensures Four(HalfWay(m, a, left, p), p + 4) == Four(m, p + 4)
    ensures Stored(HalfWay(m, a, left, p), p, Mixed(Held(m, a, left, p), Four(m, p + 4))) == HalfWay(m, a, left, p + 4)
    ensures Held(m, a, left, p + 4) == Four(m, p + 4)[left..]
  {
    var c, w := Held(m, a, left, p), Four(m, p + 4);
    forall x | 0 <= x < |m|
      ensures Stored(HalfWay(m, a, left, p), p, Mixed(c, w))[x] == HalfWay(m, a, left, p + 4)[x]
    {
      if p <= x < p + 4 {
        assert Mixed(c, w)[x - p] == if x - p < 4 - left then c[x - p] else m[x + left];
      }
    }
  }

  lemma LastWord(m: seq<Byte>, a: nat, left: nat, p: nat)
    requires 1 <= left <= 3 < a <= p && p + 4 <= |m|
    ensures Stored(HalfWay(m, a, left, p), p, Padded(Held(m, a, left, p))) == Shuffled(m, a, left, p + 4 - a)
  {
    var b := Padded(Held(m, a, left, p));
    forall x | 0 <= x < |m| ensures Stored(HalfWay(m, a, left, p), p, b)[x] == Shuffled(m, a, left, p + 4 - a)[x] {
      if p <= x < p + 4 {
        assert b[x - p] == if x - p < 4 - left then m[x + left] else 0;
      }
    }
  }

  /** One turn of the loop: a word of held and new bytes goes down at src. */
  method ShuffleWord(mem: array<Byte>, src: nat, src1: Word, bytesleft: nat, ghost m: seq<Byte>, ghost a: nat)
    returns (next: Word)
    requires 1 <= bytesleft <= 3 < a && src + 8 <= |m| == mem.Length && (src == a - 4 || src >= a)
    requires mem[..] == HalfWay(m, a, bytesleft, src) && IsCarry(src1, Held(m, a, bytesleft, src))
    modifies mem
    ensures mem[..] == HalfWay(m, a, bytesleft, src + 4) && IsCarry(next, Held(m, a, bytesleft, src + 4))
  {
    ghost var c, w := Held(m, a, bytesleft, src), Four(m, src + 4);
    NextWord(m, a, bytesleft, src);
    var src2 := GetWord(mem, src + 4);
    assert Four(mem[..], src + 4) == w;
    MergeBytes(src1, c, w, src2, bytesleft);
    CarryOver(w, src2, bytesleft);
    PutWord(mem, src, Merge(src1, src2, bytesleft), Mixed(c, w));
    next := ShiftDown(src2, bytesleft);
  }

  lemma FirstHeld(m: seq<Byte>, a: nat, left: nat, word0: Word)
    requires 1 <= left <= 3 < a <= |m| && word0 == LE(Four(m, a - 4))
    ensures IsCarry(LowPart(word0, 4 - left), Held(m, a, left, a - 4))
  {
    var w := Four(m, a - 4);
    MaskedBytes(w, left);
    assert w[..4 - left] == Held(m, a, left, a - 4);
  }

  /** `src1 = *src & mask` on the word before the first. */
  method ShuffleStart(mem: array<Byte>, a: nat, bytesleft: nat) returns (src1: Word)
    requires 1 <= bytesleft <= 3 && 4 <= a <= mem.Length
    ensures IsCarry(src1, Held(mem[..], a, bytesleft, a - 4))
  {
    var word0 := GetWord(mem, a - 4);
    FirstHeld(mem[..], a, bytesleft, word0);
    src1 := LowPart(word0, 4 - bytesleft);
  }

  /** Moves numwords words at a down by bytesleft bytes, a word at a time. */
  method LeftShuffle(mem: array<Byte>, a: nat, bytesleft: nat, numwords: nat)
    requires 1 <= bytesleft <= 3 && numwords > 0
    requires 4 <= a && a + 4 * numwords <= mem.Length
    modifies mem
    ensures mem[..] == Shuffled(old(mem[..]), a, bytesleft, 4 * numwords)
  {
    ghost var m := mem[..];
    var src := a - 4;
    var src1 := ShuffleStart(mem, a, bytesleft);
    var left := numwords;
    assert mem[..] == HalfWay(m, a, bytesleft, src);
    while left > 0
      invariant 0 <= left <= numwords && src == a - 4 + 4 * (numwords - left)
      invariant mem[..] == HalfWay(m, a, bytesleft, src)
      invariant IsCarry(src1, Held(m, a, bytesleft, src))
    {
      src1 := ShuffleWord(mem, src, src1, bytesleft, m, a);
      src := src + 4;
      left := left - 1;
    }
    ShuffleEnd(mem, src, src1, bytesleft, m, a);
  }

  /** The last word written is what is held over, zeros above it. */
  method ShuffleEnd(mem: array<Byte>, src: nat, src1: Word, ghost bytesleft: nat, ghost m: seq<Byte>, ghost a: nat)
    requires 1 <= bytesleft <= 3 < a <= src && src + 4 <= |m| == mem.Length
    requires mem[..] == HalfWay(m, a, bytesleft, src) && IsCarry(src1, Held(m, a, bytesleft, src))
    modifies mem
    ensures mem[..] == Shuffled(m, a, bytesleft, src + 4 - a)
  {
    CarryIsWord(src1, Held(m, a, bytesleft, src));
    LastWord(m, a, bytesleft, src);
    PutWord(mem, src, src1, Padded(Held(m, a, bytesleft, src)));
  }

  // ---- Single words from the link ----

  /** v, shifted right a byte at a time, shows the bytes bs. */
  predicate Holds(v: int, bs: seq<Byte>)
    decreases |bs|
  {
    bs == [] || (v % 0x100 == bs[0] && Holds(v / 0x100, bs[1..]))
  }

  /** True of a word read into a `long`, whatever its sign. */
  lemma WordHolds(b: seq<Byte>)
    requires |b| == 4
    ensures Holds(Signed(LE(b)), b)
  {
    var v := Signed(LE(b));
    SignedShifts(b[0], b[1], b[2], b[3], v);
    HoldsMore(v / 0x100 / 0x100 / 0x100, b[3], []);
    HoldsMore(v / 0x100 / 0x100, b[2], [b[3]]);
    HoldsMore(v / 0x100, b[1], [b[2], b[3]]);
    HoldsMore(v, b[0], [b[1], b[2], b[3]]);
    assert [b[2]] + [b[3]] == [b[2], b[3]] && [b[1]] + [b[2], b[3]] == [b[1], b[2], b[3]];
    assert b == [b[0]] + [b[1], b[2], b[3]];
  }

  lemma HoldsMore(v: int, b: Byte, bs: seq<Byte>)
    requires v % 0x100 == b && Holds(v / 0x100, bs)
    ensures Holds(v, [b] + bs)
  {
    assert ([b] + bs)[1..] == bs;
  }

  lemma SignedShifts(b0: Byte, b1: Byte, b2: Byte, b3: Byte, v: int)
    requires v == Sum(b0, b1, b2, b3) || v == Sum(b0, b1, b2, b3 - 0x100)
    ensures v % 0x100 == b0
    ensures v / 0x100 % 0x100 == b1
    ensures v / 0x100 / 0x100 % 0x100 == b2
    ensures v / 0x100 / 0x100 / 0x100 % 0x100 == b3
  {
    var h := if v == Sum(b0, b1, b2, b3) then b3 as int else b3 - 0x100;
    assert v == b0 + 0x100 * Sum(b1, b2, h, 0);
    assert v / 0x100 == Sum(b1, b2, h, 0);
    assert v / 0x100 / 0x100 == Sum(b2, h, 0, 0);
    assert v / 0x100 / 0x100 / 0x100 == h;
  }

  /** `dummy >>= 8 * k` */
  function ShiftRight(v: int, k: nat): int
    decreases k
  {
    if k == 0 then v else ShiftRight(v / 0x100, k - 1)
  }

  lemma {:induction false} ShiftHolds(v: int, bs: seq<Byte>, k: nat)
    requires Holds(v, bs) && k <= |bs|
    ensures Holds(ShiftRight(v, k), bs[k..])
    decreases k
  {
    if k > 0 {
      ShiftHolds(v / 0x100, bs[1..], k - 1);
      assert bs[1..][k - 1..] == bs[k..];
    }
  }

  method LinkRxWord(link: LinkFifo) returns (dummy: int, ghost b: seq<Byte>)
    requires 4 <= |link.incoming|
    modifies link`incoming
    ensures b == old(link.incoming)[..4] && Holds(dummy, b) && link.incoming == old(link.incoming)[4..]
  {
    var buf := link.LinkRx(4);
    dummy := Signed(LE(buf));
    b := buf;
    WordHolds(b);
  }

  /** LinkRx straight into memory. */
  method LinkRxInto(mem: array<Byte>, link: LinkFifo, n: nat, a: nat)
    requires n <= |link.incoming| && a + n <= mem.Length
    modifies mem, link`incoming
    ensures mem[..] == Stored(old(mem[..]), a, old(link.incoming)[..n])
    ensures link.incoming == old(link.incoming)[n..]
  {
    ghost var m := mem[..];
    var buf := link.LinkRx(n);
    forall i | 0 <= i < n {
      mem[a + i] := buf[i];
    }
  }

  // ---- The receiver ----

  lemma StoredTwice(m: seq<Byte>, a: nat, b: seq<Byte>, c: seq<Byte>)
    requires a + |b| + |c| <= |m|
    ensures Stored(Stored(m, a, b), a + |b|, c) == Stored(m, a, b + c)
  {
  }

  method StoreByte(mem: array<Byte>, a: nat, v: Byte)
    requires a < mem.Length
    modifies mem
    ensures mem[..] == Stored(old(mem[..]), a, [v])
  {
    mem[a] := v;
  }

  lemma StoredNext(m: seq<Byte>, d: nat, b: seq<Byte>, i: nat)
    requires i < |b| && d + |b| <= |m|
    ensures Stored(Stored(m, d, b[..i]), d + i, [b[i]]) == Stored(m, d, b[..i + 1])
  {
    StoredTwice(m, d, b[..i], [b[i]]);
    assert b[..i] + [b[i]] == b[..i + 1];
  }

  /** Stores the low n bytes of dummy, `dummy >>= 8` after each. */
  method StoreShifted(mem: array<Byte>, d: nat, dummy: int, n: nat, ghost b: seq<Byte>)
    requires n == |b| && d + n <= mem.Length && Holds(dummy, b)
    modifies mem
    ensures mem[..] == Stored(old(mem[..]), d, b)
  {
    ghost var m := mem[..];
    var v, i := dummy, 0;
    assert Stored(m, d, b[..0]) == m && b[0..] == b && b[..n] == b;
    while i < n
      invariant 0 <= i <= n && Holds(v, b[i..])
      invariant mem[..] == Stored(m, d, b[..i])
    {
      assert b[i..][1..] == b[i + 1..];
      StoredNext(m, d, b, i);
      StoreByte(mem, d + i, v % 0x100);
      v := v / 0x100;
      i := i + 1;
    }
  }

  function RoundUp(n: nat): nat { (n + 3) / 4 * 4 }

  /** What the sender puts on the link: whole words around the data. */
  predicate OnWire(incoming: seq<Byte>, bytealign: nat, data: seq<Byte>, rest: seq<Byte>)
  {
    var n := RoundUp(bytealign + |data|);
    && n <= |incoming|
    && bytealign + |data| <= n
    && incoming[bytealign..bytealign + |data|] == data
    && incoming[n..] == rest
  }

  lemma HoldsPrefix(v: int, bs: seq<Byte>, n: nat)
    requires Holds(v, bs) && n <= |bs|
    ensures Holds(v, bs[..n])
    decreases n
  {
    if n > 0 {
      HoldsPrefix(v / 0x100, bs[1..], n - 1);
      assert bs[..n][1..] == bs[1..][..n - 1];
    }
  }

  /** The padded first word: its last 4 - bytealign bytes, or fewer, are data. */
  method ReceiveFront(mem: array<Byte>, link: LinkFifo, d: nat, bytealign: nat, frontbytes: nat)
    requires 1 <= bytealign < 4 && bytealign + frontbytes <= 4 <= |link.incoming| && d + frontbytes <= mem.Length
    modifies mem, link`incoming
    ensures mem[..] == Stored(old(mem[..]), d, old(link.incoming)[bytealign..bytealign + frontbytes])
    ensures link.incoming == old(link.incoming)[4..]
  {
    ghost var all := link.incoming;
    var dummy, b := LinkRxWord(link);
    ShiftHolds(dummy, b, bytealign);
    HoldsPrefix(ShiftRight(dummy, bytealign), b[bytealign..], frontbytes);
    assert b[bytealign..][..frontbytes] == all[bytealign..bytealign + frontbytes];
    StoreShifted(mem, d, ShiftRight(dummy, bytealign), frontbytes, all[bytealign..bytealign + frontbytes]);
  }

  /** The first n bytes of one more word. */
  method ReceiveBytes(mem: array<Byte>, link: LinkFifo, d: nat, n: nat)
    requires n <= 4 <= |link.incoming| && d + n <= mem.Length
    modifies mem, link`incoming
    ensures mem[..] == Stored(old(mem[..]), d, old(link.incoming)[..n])
    ensures link.incoming == old(link.incoming)[4..]
  {
    ghost var all := link.incoming;
    var dummy, b := LinkRxWord(link);
    HoldsPrefix(dummy, b, n);
    assert b[..n] == all[..n];
    StoreShifted(mem, d, dummy, n, all[..n]);
  }

  /** Received aligned, moved down, and the last word put where zeros were. */
  lemma ShuffledIntoPlace(m: seq<Byte>, d: nat, left: nat, chunk: seq<Byte>, w: seq<Byte>)
    requires 1 <= left <= 3 && |w| == 4 && d + |chunk| + 4 <= |m|
    ensures Stored(Shuffled(Stored(m, d + left, chunk), d + left, left, |chunk|), d + |chunk|, w)
        == Stored(m, d, chunk + w)
  {
    var m1 := Stored(m, d + left, chunk);
    var m2 := Shuffled(m1, d + left, left, |chunk|);
    forall x | 0 <= x < |m| ensures Stored(m2, d + |chunk|, w)[x] == Stored(m, d, chunk + w)[x] {
      if d <= x < d + |chunk| {
        assert m1[x + left] == chunk[x - d];
      }
    }
  }

  /** The whole words of the message, whatever the alignment of d. */
  method ReceiveWords(mem: array<Byte>, link: LinkFifo, d: nat, worddata: nat)
    requires worddata % 4 == 0 && 4 <= worddata <= |link.incoming| && d + worddata <= mem.Length
    modifies mem, link`incoming
    ensures mem[..] == Stored(old(mem[..]), d, old(link.incoming)[..worddata])
    ensures link.incoming == old(link.incoming)[worddata..]
  {
    if d % 4 != 0 {
      ReceiveUnaligned(mem, link, d, worddata - 4);
    } else {
      LinkRxInto(mem, link, worddata, d);
    }
  }

  lemma AlignUp(d: nat)
    requires d % 4 != 0
    ensures (d + 3) / 4 * 4 == d + (4 - d % 4)
  {
  }

  /** `safe` bytes go in at the next word boundary and are moved down. */
  method ReceiveSafe(mem: array<Byte>, link: LinkFifo, aligndst: nat, left: nat, numwords: nat)
    requires 0 < numwords && 4 * numwords <= |link.incoming| && aligndst + 4 * numwords <= mem.Length
    requires 1 <= left <= 3 < aligndst
    modifies mem, link`incoming
    ensures mem[..] == Shuffled(Stored(old(mem[..]), aligndst, old(link.incoming)[..4 * numwords]), aligndst, left,
                                4 * numwords)
    ensures link.incoming == old(link.incoming)[4 * numwords..]
  {
    LinkRxInto(mem, link, 4 * numwords, aligndst);
    LeftShuffle(mem, aligndst, left, numwords);
  }

  method ReceiveUnaligned(mem: array<Byte>, link: LinkFifo, d: nat, safe: nat)
    requires safe % 4 == 0 && safe + 4 <= |link.incoming| && d + safe + 4 <= mem.Length && d % 4 != 0
    modifies mem, link`incoming
    ensures mem[..] == Stored(old(mem[..]), d, old(link.incoming)[..safe + 4])
    ensures link.incoming == old(link.incoming)[safe + 4..]
  {
    ghost var m, all := mem[..], link.incoming;
    var left, aligndst := 4 - d % 4, (d + 3) / 4 * 4;
    AlignUp(d);
    if safe > 0 {
      ReceiveSafe(mem, link, aligndst, left, safe / 4);
    }
    UnalignedRest(mem, link, d, safe, m, all, left);
  }

  /** Memory when a chunk has been received at the next word boundary and shuffled down to d. */
  ghost function MovedDown(m: seq<Byte>, d: nat, left: nat, chunk: seq<Byte>): (m': seq<Byte>)
    requires d + left + |chunk| <= |m|
    ensures |m'| == |m|
  {
    if |chunk| > 0 then Shuffled(Stored(m, d + left, chunk), d + left, left, |chunk|) else m
  }

  /** The last word, put in by hand where the shuffle left zeros. */
  method UnalignedRest(mem: array<Byte>, link: LinkFifo, d: nat, safe: nat, ghost m: seq<Byte>, ghost all: seq<Byte>,
                       ghost left: nat)
    requires safe + 4 <= |all| && d + safe + 4 <= mem.Length == |m| && 1 <= left <= 3
    requires link.incoming == all[safe..]
    requires mem[..] == MovedDown(m, d, left, all[..safe])
    modifies mem, link`incoming
    ensures mem[..] == Stored(m, d, all[..safe + 4])
    ensures link.incoming == all[safe + 4..]
  {
    assert all[safe..][..4] == all[safe..safe + 4] && all[safe..][4..] == all[safe + 4..];
    assert all[..safe] + all[safe..safe + 4] == all[..safe + 4];
    ReceiveBytes(mem, link, d + safe, 4);
    LastWordStored(m, mem[..], d, left, all[..safe], all[safe..safe + 4]);
  }

  lemma LastWordStored(m: seq<Byte>, m2: seq<Byte>, d: nat, left: nat, chunk: seq<Byte>, w: seq<Byte>)
    requires 1 <= left <= 3 && |w| == 4 && d + |chunk| + 4 <= |m|
    requires m2 == Stored(MovedDown(m, d, left, chunk), d + |chunk|, w)
    ensures m2 == Stored(m, d, chunk + w)
  {
    if |chunk| > 0 {
      ShuffledIntoPlace(m, d, left, chunk, w);
    } else {
      assert chunk + w == w;
    }
  }

  /** The data in three pieces, and where they lie among the words on the link. */
  ghost predicate InPieces(all: seq<Byte>, bytealign: nat, front: nat, words: nat, tail: nat, data: seq<Byte>,
                           rest: seq<Byte>)
  {
    && front + words + tail == |data| && bytealign + front <= 4
    && words % 4 == 0 && tail < 4 && (bytealign == 0 ==> front == 0)
    && var base := if bytealign == 0 then 0 else 4;
       && base + words + (if tail == 0 then 0 else 4) <= |all|
       && data[..front] == all[bytealign..bytealign + front]
       && (words > 0 ==> data[front..front + words] == all[base..][..words])
       && (tail > 0 ==> data[front + words..] == all[base..][words..][..tail])
       && all[0..] == all && all[base..][words..][if tail == 0 then 0 else 4..] == rest
  }

  method Sizes(dsize: nat, bytealign: nat, ghost all: seq<Byte>, ghost data: seq<Byte>, ghost rest: seq<Byte>)
    returns (frontbytes: nat, worddata: nat, tailbytes: nat)
    requires bytealign < 4 && dsize == |data| > 0 && OnWire(all, bytealign, data, rest)
    ensures InPieces(all, bytealign, frontbytes, worddata, tailbytes, data, rest)
  {
    frontbytes := if bytealign != 0 then 4 - bytealign else 0;
    if frontbytes > dsize { frontbytes := dsize; }
    worddata := (dsize - frontbytes) / 4 * 4;
    tailbytes := (dsize - frontbytes) % 4;
    ghost var base := if bytealign == 0 then 0 else 4;
    PieceSizes(bytealign, dsize, frontbytes, worddata, tailbytes, base);
    Pieces(all, bytealign, data, rest, frontbytes, worddata, tailbytes, base);
  }

  /**
   The data lands at dst exactly as it was in the sender's memory, no other
   byte of memory changes, and exactly the words the sender rounded out to are
   taken from the link.
   */
  method ReceiveData(mem: array<Byte>, link: LinkFifo, dst: nat, dsize: nat, bytealign: nat,
                     ghost data: seq<Byte>, ghost rest: seq<Byte>)
    requires bytealign < 4 && dsize == |data| > 0 && dst + dsize <= mem.Length
    requires OnWire(link.incoming, bytealign, data, rest)
    modifies mem, link`incoming
    ensures mem[..] == Stored(old(mem[..]), dst, data)
    ensures link.incoming == rest
  {
    var frontbytes, worddata, tailbytes := Sizes(dsize, bytealign, link.incoming, data, rest);
    ReceivePieces(mem, link, dst, bytealign, frontbytes, worddata, tailbytes, data, rest);
  }

  method ReceivePieces(mem: array<Byte>, link: LinkFifo, dst: nat, bytealign: nat,
                       frontbytes: nat, worddata: nat, tailbytes: nat, ghost data: seq<Byte>, ghost rest: seq<Byte>)
    requires bytealign < 4 && dst + |data| <= mem.Length
    requires InPieces(link.incoming, bytealign, frontbytes, worddata, tailbytes, data, rest)
    modifies mem, link`incoming
    ensures mem[..] == Stored(old(mem[..]), dst, data)
    ensures link.incoming == rest
  {
    var d := dst;
    ThreeStores(mem[..], dst, data, frontbytes, worddata);
    if bytealign != 0 {
      ReceiveFront(mem, link, d, bytealign, frontbytes);
      d := d + frontbytes;
    }
    if worddata != 0 {
      ReceiveWords(mem, link, d, worddata);
      d := d + worddata;
    }
    if tailbytes != 0 {
      ReceiveBytes(mem, link, d, tailbytes);
    }
  }

  /** Three stores in a row are one; an empty one is none. */
  lemma ThreeStores(m: seq<Byte>, d: nat, data: seq<Byte>, front: nat, words: nat)
    requires front + words <= |data| && d + |data| <= |m|
    ensures var m1 := Stored(m, d, data[..front]);
            var m2 := Stored(m1, d + front, data[front..front + words]);
            && (front == 0 ==> m1 == m)
            && (words == 0 ==> m2 == m1)
            && (front + words == |data| ==> m2 == Stored(m, d, data))
            && Stored(m2, d + front + words, data[front + words..]) == Stored(m, d, data)
  {
    StoredTwice(m, d, data[..front], data[front..front + words]);
    assert data[..front] + data[front..front + words] == data[..front + words];
    StoredTwice(m, d, data[..front + words], data[front + words..]);
    assert data[..front + words] + data[front + words..] == data;
  }

  /** The words the receiver takes are the words the sender rounds out to. */
  lemma PieceSizes(bytealign: nat, dsize: nat, front: nat, words: nat, tail: nat, base: nat)
    requires bytealign < 4 && dsize > 0
    requires front == (if bytealign == 0 then 0 else if 4 - bytealign < dsize then 4 - bytealign else dsize)
    requires words == (dsize - front) / 4 * 4 && tail == (dsize - front) % 4
    requires base == if bytealign == 0 then 0 else 4
    ensures front + words + tail == dsize
    ensures base + words + (if tail == 0 then 0 else 4) == RoundUp(bytealign + dsize)
    ensures words + tail > 0 ==> base == bytealign + front
    ensures bytealign + front <= 4 && words % 4 == 0 && tail < 4
  {
    var q := (dsize - front) / 4;
    assert dsize - front == 4 * q + tail;
  }

  lemma SubSlice(s: seq<Byte>, a: nat, n: nat, x: nat, y: nat)
    requires x <= y <= n && a + n <= |s|
    ensures s[a..a + n][x..y] == s[a + x..a + y]
  {
    var t := s[a..a + n];
    forall i | 0 <= i < y - x ensures t[x..y][i] == s[a + x..a + y][i] {
      assert t[x + i] == s[a + x + i];
    }
  }

  /** Where the three pieces of the data lie among the words on the link. */
  lemma Pieces(all: seq<Byte>, bytealign: nat, data: seq<Byte>, rest: seq<Byte>, front: nat, words: nat, tail: nat,
               base: nat)
    requires OnWire(all, bytealign, data, rest)
    requires front + words + tail == |data|
    requires base + words + (if tail == 0 then 0 else 4) == RoundUp(bytealign + |data|)
    requires words + tail > 0 ==> base == bytealign + front
    ensures data[..front] == all[bytealign..bytealign + front]
    ensures words > 0 ==> data[front..front + words] == all[base..][..words]
    ensures tail > 0 ==> data[front + words..] == all[base..][words..][..tail]
    ensures all[0..] == all && all[base..][words..][if tail == 0 then 0 else 4..] == rest
  {
    SubSlice(all, bytealign, |data|, 0, front);
    SubSlice(all, bytealign, |data|, front, front + words);
    SubSlice(all, bytealign, |data|, front + words, |data|);
    if tail > 0 {
      assert all[base..][words..][..tail] == all[base + words..base + words + tail];
    }
    assert all[base..][words..] == all[base + words..];
  }

  // ---- The sender ----

  /** _PutMsg sends whole words, from the word boundary at or before the data. */
  function Emitted(m: seq<Byte>, d: nat, dsize: nat): seq<Byte>
    requires d - d % 4 + RoundUp(d % 4 + dsize) <= |m|
  {
    m[d - d % 4..d - d % 4 + RoundUp(d % 4 + dsize)]
  }

  /** Which is what ReceiveData expects, for the alignment the header carries. */
  lemma SenderEmits(m: seq<Byte>, d: nat, dsize: nat, rest: seq<Byte>)
    requires d - d % 4 + RoundUp(d % 4 + dsize) <= |m|
    ensures d + dsize <= |m|
    ensures OnWire(Emitted(m, d, dsize) + rest, d % 4, m[d..d + dsize], rest)
  {
    RoundsUp(d % 4 + dsize);
    OnSuchAWire(m, d - d % 4, d % 4, dsize, RoundUp(d % 4 + dsize), rest);
  }

  lemma OnSuchAWire(m: seq<Byte>, a: nat, b: nat, dsize: nat, n: nat, rest: seq<Byte>)
    requires a + n <= |m| && b + dsize <= n
    ensures var wire := m[a..a + n] + rest; wire[n..] == rest && wire[b..b + dsize] == m[a + b..a + b + dsize]
  {
    SubSlice(m, a, n, b, b + dsize);
    assert (m[a..a + n] + rest)[b..b + dsize] == m[a..a + n][b..b + dsize];
  }

  lemma RoundsUp(n: nat)
    ensures n <= RoundUp(n) < n + 4 && RoundUp(n) % 4 == 0
  {
    var q := (n + 3) / 4;
    assert n + 3 == 4 * q + (n + 3) % 4;
  }
}
