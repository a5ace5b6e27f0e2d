/**
 The tail of _PutMsg on the C40 (kernel/putmsg1.c): messages go out in whole
 words, and the header's alignment bits tell where in its first word the data
 starts.  The bits are set in the sender's own header and stay set; a header
 that comes with bits set is taken for that of a message on its way through.
 */
module C40Sends {
  import opened C40Receives
  import opened LinkIO
  import opened Words

  /** What _PutMsg looks at: the alignment bits, and where control and data lie and how many bytes they are. */
  class MCB {
    var bytealign: nat
    var Control: nat
    var ContSize: nat
    var Data: nat
    var DataSize: nat
  }

  /** The words _PutMsg is to send lie in a memory of n bytes. */
  predicate Addressed(n: nat, bits: nat, control: nat, csize: nat, d: nat, dsize: nat)
  {
    if bits != 0 then control + csize + RoundUp(bits + dsize) <= n
    else control + csize <= n && (dsize > 0 ==> d - d % 4 + RoundUp(d % 4 + dsize) <= n)
  }

  /** The alignment bits in the header that goes out, which are also left in the sender's. */
  function Bits(bits: nat, d: nat, dsize: nat): (b: nat)
    ensures bits < 4 ==> b < 4
  {
    if bits != 0 || dsize == 0 then bits else d % 4
  }

  /** What follows the header on the link. */
  function Body(m: seq<Byte>, bits: nat, control: nat, csize: nat, d: nat, dsize: nat): seq<Byte>
    requires Addressed(|m|, bits, control, csize, d, dsize)
  {
    if bits != 0 then m[control..control + csize + RoundUp(bits + dsize)]
    else m[control..control + csize] + if dsize > 0 then Emitted(m, d, dsize) else []
  }

  /** The source rounds up control and data together. */
  lemma SumRoundsUp(csize: nat, n: nat)
    requires csize % 4 == 0
    ensures RoundUp(csize + n) == csize + RoundUp(n)
  {
    var q := csize / 4;
    assert csize + n + 3 == 4 * q + (n + 3);
  }

  /** The branch for a header whose bits are set. */
  method SendThrough(mem: array<Byte>, mcb: MCB, link: LinkFifo)
    requires 0 < mcb.bytealign < 4 && mcb.ContSize % 4 == 0
    requires Addressed(mem.Length, mcb.bytealign, mcb.Control, mcb.ContSize, mcb.Data, mcb.DataSize)
    modifies link`outgoing
    ensures link.outgoing == old(link.outgoing)
        + Body(mem[..], mcb.bytealign, mcb.Control, mcb.ContSize, mcb.Data, mcb.DataSize)
  {
    var msgsize := RoundUp(mcb.ContSize + (mcb.bytealign + mcb.DataSize));
    SumRoundsUp(mcb.ContSize, mcb.bytealign + mcb.DataSize);
    if msgsize != 0 {
      link.LinkTx(mem[mcb.Control..mcb.Control + msgsize]);
    }
  }

  lemma BodyParts(out: seq<Byte>, m: seq<Byte>, control: nat, csize: nat, d: nat, dsize: nat)
    requires Addressed(|m|, 0, control, csize, d, dsize)
    ensures (out + m[control..control + csize]) + (if dsize > 0 then Emitted(m, d, dsize) else [])
         == out + Body(m, 0, control, csize, d, dsize)
  {
  }

  method SendControl(mem: array<Byte>, control: nat, csize: nat, link: LinkFifo)
    requires control + csize <= mem.Length
    modifies link`outgoing
    ensures link.outgoing == old(link.outgoing) + mem[..][control..control + csize]
  {
    if csize != 0 {
      link.LinkTx(mem[control..control + csize]);
      assert mem[..][control..control + csize] == mem[control..control + csize];
    }
  }

  /** The words around the data. */
  method SendData(mem: array<Byte>, d: nat, dsize: nat, bytealign: nat, link: LinkFifo)
    requires dsize > 0 ==> bytealign == d % 4 && d - d % 4 + RoundUp(d % 4 + dsize) <= mem.Length
    modifies link`outgoing
    ensures link.outgoing == old(link.outgoing) + if dsize > 0 then Emitted(mem[..], d, dsize) else []
  {
    if dsize != 0 {
      var size := RoundUp(bytealign + dsize);
      link.LinkTx(mem[d - bytealign..d - bytealign + size]);
      assert mem[..][d - bytealign..d - bytealign + size] == mem[d - bytealign..d - bytealign + size];
    }
  }

  method SendBody(mem: array<Byte>, mcb: MCB, link: LinkFifo)
    requires mcb.bytealign < 4 && mcb.ContSize % 4 == 0
    requires Addressed(mem.Length, mcb.bytealign, mcb.Control, mcb.ContSize, mcb.Data, mcb.DataSize)
    modifies mcb`bytealign, link`outgoing
    ensures mcb.bytealign == Bits(old(mcb.bytealign), mcb.Data, mcb.DataSize)
    ensures link.outgoing == old(link.outgoing)
        + Body(mem[..], old(mcb.bytealign), mcb.Control, mcb.ContSize, mcb.Data, mcb.DataSize)
  {
    if mcb.bytealign != 0 {
      SendThrough(mem, mcb, link);
      return;
    }
    var bytealign := 0;
    if mcb.DataSize != 0 {
      bytealign := mcb.Data % 4;
      mcb.bytealign := bytealign;
    }
    SendControl(mem, mcb.Control, mcb.ContSize, link);
    SendData(mem, mcb.Data, mcb.DataSize, bytealign, link);
    BodyParts(old(link.outgoing), mem[..], mcb.Control, mcb.ContSize, mcb.Data, mcb.DataSize);
  }

  /** The data that a receiver of dsize bytes is left with. */
  function Delivered(m: seq<Byte>, bits: nat, control: nat, csize: nat, d: nat, dsize: nat): seq<Byte>
    requires Addressed(|m|, bits, control, csize, d, dsize) && dsize > 0
  {
    RoundsUp(bits + dsize);
    RoundsUp(d % 4 + dsize);
    if bits != 0 then m[control + csize + bits..control + csize + bits + dsize] else m[d..d + dsize]
  }

  lemma SameData(incoming: seq<Byte>, bytealign: nat, x: seq<Byte>, y: seq<Byte>, rest: seq<Byte>)
    requires OnWire(incoming, bytealign, y, rest) && |x| == |y|
    ensures OnWire(incoming, bytealign, x, rest) <==> x == y
  {
  }

  /**
   The receiver gets the control vector and, by the bits in the header it
   receives, exactly this data: where the sender's header had no bits set, what
   the sender said; and where it had, what lies as many bytes past the control
   vector, wherever the sender says the data is.
   */
  lemma ReceiverGets(m: seq<Byte>, bits: nat, control: nat, csize: nat, d: nat, dsize: nat, rest: seq<Byte>,
                     x: seq<Byte>)
    requires bits < 4 && dsize > 0 && Addressed(|m|, bits, control, csize, d, dsize) && |x| == dsize
    ensures var body := Body(m, bits, control, csize, d, dsize);
            && csize <= |body| && body[..csize] == m[control..control + csize]
            && (OnWire(body[csize..] + rest, Bits(bits, d, dsize), x, rest) <==>
                  x == Delivered(m, bits, control, csize, d, dsize))
  {
    var body, y := Body(m, bits, control, csize, d, dsize), Delivered(m, bits, control, csize, d, dsize);
    if bits == 0 {
      SenderEmits(m, d, dsize, rest);
      assert body[csize..] == Emitted(m, d, dsize);
    } else {
      var n := RoundUp(bits + dsize);
      RoundsUp(bits + dsize);
      OnSuchAWire(m, control + csize, bits, dsize, n, rest);
      assert body[csize..] == m[control + csize..control + csize + n];
    }
    SameData(body[csize..] + rest, Bits(bits, d, dsize), x, y, rest);
  }

  /**
   A message that was buffered on its way has its data in the words after its
   control vector, from the alignment bits on, and goes out right.
   */
  lemma ThroughRouted(m: seq<Byte>, bits: nat, control: nat, csize: nat, dsize: nat)
    requires 0 < bits < 4 && dsize > 0 && Addressed(|m|, bits, control, csize, control + csize, dsize)
    ensures var d := control + csize;
            d + bits + dsize <= |m| && Delivered(m, bits, control, csize, d, dsize) == m[d + bits..d + bits + dsize]
  {
    RoundsUp(bits + dsize);
  }

  /**
   But a header that has been sent with unaligned data is not fit to be sent
   again: the second time the data is right if and only if it is also to be
   found past the control vector, at the same alignment.
   */
  lemma SentAgain(m: seq<Byte>, control: nat, csize: nat, d: nat, dsize: nat)
    requires dsize > 0 && d % 4 != 0 && Addressed(|m|, 0, control, csize, d, dsize)
    requires Addressed(|m|, Bits(0, d, dsize), control, csize, d, dsize)
    ensures d + dsize <= |m| && control + csize + d % 4 + dsize <= |m|
    ensures Delivered(m, 0, control, csize, d, dsize) == m[d..d + dsize]
    ensures Delivered(m, Bits(0, d, dsize), control, csize, d, dsize) == m[d..d + dsize]
       <==> m[control + csize + d % 4..control + csize + d % 4 + dsize] == m[d..d + dsize]
  {
    RoundsUp(d % 4 + dsize);
  }

  /** One byte, at address 5, and no control vector: the byte at address 1 is sent instead. */
  lemma SentAgainWrong()
    ensures var m := [0, 1, 2, 3, 4, 5, 6, 7];
            && Addressed(|m|, 0, 0, 0, 5, 1) && Delivered(m, 0, 0, 0, 5, 1) == [5]
            && Addressed(|m|, Bits(0, 5, 1), 0, 0, 5, 1) && Delivered(m, Bits(0, 5, 1), 0, 0, 5, 1) == [1]
  {
    var m: seq<Byte> := [0, 1, 2, 3, 4, 5, 6, 7];
    assert m[5..6] == [5] && m[1..2] == [1];
  }
}
