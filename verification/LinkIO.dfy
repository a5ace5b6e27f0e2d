/** LinkRx and LinkTx: a hardware link as two byte streams. */
module LinkIO {
  import opened Words

  /** The data side of a link: bytes on their way in, and all the bytes sent out. */
  class LinkFifo {
    var incoming: seq<Byte>
    var outgoing: seq<Byte>

    method LinkRx(n: nat) returns (buf: seq<Byte>)
      requires n <= |incoming|
      modifies this`incoming
      ensures buf == old(incoming)[..n] && incoming == old(incoming)[n..]
    {
      buf := incoming[..n];
      incoming := incoming[n..];
    }

    method LinkTx(buf: seq<Byte>)
      modifies this`outgoing
      ensures outgoing == old(outgoing) + buf
    {
      outgoing := outgoing + buf;
    }
  }
}
