/**
 How a message crosses the network: LinkMsg in kernel/linkmsg1.c, _PutMsg in
 kernel/putmsg1.c.  A remote port is known on a processor by a surrogate entry
 naming a link and the port's descriptor on the neighbour.  Each hop swaps the
 destination for that descriptor, leaves a surrogate for the reply port behind
 it, and frees the surrogate it used.
 */
module Routing {
  import opened Words
  import opened Ports

  /** The routing part of a message header, the size of the rest, and the message it belongs to. */
  datatype MsgHdr = MsgHdr(Dest: Word, Reply: Word, preserve: bool, exception: bool, sacrifice: bool,
                           size: nat, body: int)

  datatype Fate =
    | Delivered(index: nat)      // handed to a local port
    | Forwarded(link: Byte)      // sent down a link
    | Claimed(link: Byte)        // about to be, the link being ours
    | Buffered                   // kept by a worker that will _PutMsg it
    | Sunk(rc: Error)            // disposed of

  datatype Error = BadPort | BadRoute | BadLink | Congestion

  const NULL_PORT: Word := 0

  // ---- One processor ----

  /** `reply |= (Port_Flags_Tx|Port_Flags_Remote)` on a new descriptor. */
  function WithFlags(p: Word): (q: Word)
    requires p < 0xa000_0000
    ensures Index(q) == Index(p) && PortCycle(q) == PortCycle(p) && q != NULL_PORT
  {
    p + 0x6000_0000
  }

  ghost predicate MayInstall(t: Table, hdr: MsgHdr)
  {
    Valid(t) && HasEntry(t, Index(hdr.Dest)) && (hdr.Reply == NULL_PORT || CanAllocate(t))
  }

  /** The entry LinkMsg fills for the reply port of a message come by link l. */
  function ReplyEntry(r: PTE, pte: PTE, l: Byte, reply: Word): PTE
  {
    PTE(if pte.Type.TLocal? then TSurrogate else TTrail, l, r.Cycle, r.Age, pte.Owner, reply, pte.Link)
  }

  /** If there is a reply port, replace it with a surrogate. */
  ghost function InstallReply(t: Table, l: Byte, hdr: MsgHdr): (Table, MsgHdr)
    requires MayInstall(t, hdr)
  {
    if hdr.Reply == NULL_PORT then (t, hdr)
    else
      NewPortIsNew(t);
      var (t1, reply) := NewPort(t);
      StockedValid(t);
      var i := Index(reply);
      // pte is read after the allocation: it may be the new entry itself
      (Put(t1, i, ReplyEntry(Entry(t1, i), Entry(t1, Index(hdr.Dest)), l, hdr.Reply)),
       hdr.(Reply := WithFlags(reply)))
  }

  /** `if not preserve and not permanent, _FreePort(dest)`. */
  function Consume(t: Table, hdr: MsgHdr, dest: Word): Table
    requires HasEntry(t, Index(dest))
  {
    if !hdr.preserve && !Entry(t, Index(dest)).Type.TPermanent? then FreePort(t, dest).0 else t
  }

  function Aged(t: Table, port: Word): Table
    requires HasEntry(t, Index(port))
  {
    Put(t, Index(port), Entry(t, Index(port)).(Age := 1))
  }

  /**
   LinkMsg on a message come by link l, until it has looked at the destination.
   `up` says the link out is intelligent and running; `direct` that nothing
   makes the message wait: a receiver is at the local port, or the link out is
   free and neither end is an I/O processor.
   */
  ghost function Accept(t: Table, l: Byte, hdr: MsgHdr, up: bool, direct: bool): (Table, MsgHdr, Fate)
    requires MayInstall(t, hdr)
  {
    var (t1, hdr1) := InstallReply(t, l, hdr);
    InstallReplyFacts(t, l, hdr);
    var pte := Entry(t1, Index(hdr.Dest));
    if pte.Type.TFree? || NotSameCycle(hdr.Dest, pte) then (t1, hdr1, Sunk(BadPort))
    else
      var t2 := Aged(t1, hdr.Dest);
      if pte.Type.TLocal? then
        if direct then (t2, hdr1, Delivered(Index(hdr.Dest)))
        else (t2, hdr1, if hdr.sacrifice then Sunk(Congestion) else Buffered)
      else if !up then (t2, hdr1, Sunk(BadRoute))
      else if !direct then (t2, hdr1, Buffered)
      else (t2, hdr1, Claimed(pte.Link))
  }

  /** `hdr.Dest = (Port)pte->TxId`, which for a local port is its queue of transmitters, tx. */
  function Readdress(t: Table, hdr: MsgHdr, tx: Word): MsgHdr
    requires HasEntry(t, Index(hdr.Dest))
  {
    var e := Entry(t, Index(hdr.Dest));
    hdr.(Dest := if e.Type.TLocal? then tx else e.TxId)
  }

  /** All of LinkMsg, with nothing coming between its parts: the message is readdressed and sent, the entry used up. */
  ghost function LinkMsg(t: Table, l: Byte, hdr: MsgHdr, up: bool, direct: bool): (Table, MsgHdr, Fate)
    requires MayInstall(t, hdr)
  {
    var (t1, hdr1, fate) := Accept(t, l, hdr, up, direct);
    AcceptHas(t, l, hdr, up, direct);
    if fate.Claimed? then (Consume(t1, hdr1, hdr.Dest), Readdress(t1, hdr1, NULL_PORT), Forwarded(fate.link))
    else (t1, hdr1, fate)
  }

  lemma AcceptHas(t: Table, l: Byte, hdr: MsgHdr, up: bool, direct: bool)
    requires MayInstall(t, hdr)
    ensures var (t', hdr', fate) := Accept(t, l, hdr, up, direct);
            HasEntry(t', Index(hdr.Dest)) && hdr'.Dest == hdr.Dest
  {
    InstallReplyFacts(t, l, hdr);
  }

  /** _PutMsg: a message handed to the kernel on its own processor. */
  function PutMsg(t: Table, hdr: MsgHdr, up: bool): (Table, MsgHdr, Fate)
    requires HasEntry(t, Index(hdr.Dest))
  {
    var pte := Entry(t, Index(hdr.Dest));
    if hdr.Dest == NULL_PORT || NotSameCycle(hdr.Dest, pte) then (t, hdr, Sunk(BadPort))
    else
      var t2 := Aged(t, hdr.Dest);
      if pte.Type.TLocal? then (t2, hdr, Delivered(Index(hdr.Dest)))
      else if !up then (t2, hdr, Sunk(BadLink))
      else (Consume(t2, hdr, hdr.Dest), hdr.(Dest := pte.TxId), Forwarded(pte.Link))
  }

  // ---- What one processor does to its table ----

  /** t' is t but for entry x, with perhaps some new free entries. */
  ghost predicate OnlyChanges(t: Table, t': Table, xs: set<nat>)
  {
    && (forall i: nat :: HasEntry(t, i) ==> HasEntry(t', i))
    && (forall i: nat :: HasEntry(t, i) && i !in xs ==> Entry(t', i) == Entry(t, i))
    && (forall i: nat :: HasEntry(t', i) && !HasEntry(t, i) && i !in xs ==>
        IsBlank(Entry(t', i)))
  }

  ghost predicate IsSurrogate(t: Table, port: Word, l: Byte, remote: Word)
  {
    && IsLive(t, port)
    && (Entry(t, Index(port)).Type.TSurrogate? || Entry(t, Index(port)).Type.TTrail?)
    && Entry(t, Index(port)).Link == l
    && Entry(t, Index(port)).TxId == remote
  }

  /** Port stands for the descriptor remote across link l. */
  ghost predicate IsRemote(t: Table, port: Word, l: Byte, remote: Word)
  {
    && IsLive(t, port)
    && !Entry(t, Index(port)).Type.TLocal?
    && Entry(t, Index(port)).Link == l
    && Entry(t, Index(port)).TxId == remote
  }

  /** If entry i existed at all it was free, and it keeps its cycle. */
  ghost predicate WasFree(t: Table, t': Table, i: nat)
    requires HasEntry(t', i)
  {
    if HasEntry(t, i) then Entry(t, i).Type.TFree? && Entry(t', i).Cycle == Entry(t, i).Cycle
    else Entry(t', i).Cycle == 1
  }

  lemma InstallReplyFacts(t: Table, l: Byte, hdr: MsgHdr)
    requires MayInstall(t, hdr)
    ensures var (t', hdr') := InstallReply(t, l, hdr);
            && Valid(t')
            && hdr' == hdr.(Reply := hdr'.Reply)
            && HasEntry(t', Index(hdr.Dest))
            && (hdr.Reply == NULL_PORT ==> t' == t && hdr'.Reply == NULL_PORT)
            && (hdr.Reply != NULL_PORT ==>
                  && hdr'.Reply != NULL_PORT
                  && OnlyChanges(t, t', {Index(hdr'.Reply)})
                  && IsSurrogate(t', hdr'.Reply, l, hdr.Reply)
                  && WasFree(t, t', Index(hdr'.Reply)))
  {
    if hdr.Reply != NULL_PORT {
      NewPortIsNew(t);
      NewPortAddsFresh(t);
      StockedValid(t);
      var (t1, reply) := NewPort(t);
      var i := Index(reply);
      var e := ReplyEntry(Entry(t1, i), Entry(t1, Index(hdr.Dest)), l, hdr.Reply);
      assert Apply(t1, Write(i, e)) == Put(t1, i, e);
      ApplyValid(t1, Write(i, e));
    }
  }

  /** What passing a message leaves of the entry e it was addressed through. */
  ghost predicate UsedUp(hdr: MsgHdr, e: PTE, e': PTE)
  {
    if !hdr.preserve && !e.Type.TPermanent? then e'.Type.TFree? && e'.Cycle == Next(e.Cycle)
    else e' == e.(Age := 1)
  }

  lemma AgedFacts(t: Table, port: Word)
    requires Valid(t) && IsLive(t, port)
    ensures Valid(Aged(t, port)) && OnlyChanges(t, Aged(t, port), {Index(port)})
    ensures IsLive(Aged(t, port), port)
    ensures Entry(Aged(t, port), Index(port)) == Entry(t, Index(port)).(Age := 1)
  {
    var i := Index(port);
    var e := Entry(t, i).(Age := 1);
    assert Apply(t, Write(i, e)) == Aged(t, port);
    ApplyValid(t, Write(i, e));
  }

  lemma ConsumeFacts(t: Table, hdr: MsgHdr, dest: Word)
    requires Valid(t) && IsLive(t, dest)
    ensures var t' := Consume(Aged(t, dest), hdr, dest);
            && Valid(t')
            && OnlyChanges(t, t', {Index(dest)})
            && UsedUp(hdr, Entry(t, Index(dest)), Entry(t', Index(dest)))
  {
    AgedFacts(t, dest);
    FreePortFrees(Aged(t, dest), dest);
  }

  /** One hop of a message along a live surrogate, over a running link. */
  lemma ForwardFacts(t: Table, l: Byte, hdr: MsgHdr)
    requires MayInstall(t, hdr)
    requires IsLive(t, hdr.Dest) && !Entry(t, Index(hdr.Dest)).Type.TLocal?
    ensures var (t', hdr', fate) := LinkMsg(t, l, hdr, true, true);
            var d, e := Index(hdr.Dest), Entry(t, Index(hdr.Dest));
            && fate == Forwarded(e.Link)
            && hdr' == hdr.(Dest := e.TxId, Reply := hdr'.Reply)
            && Valid(t')
            && HasEntry(t', d) && UsedUp(hdr, e, Entry(t', d))
            && ReplyMade(t, t', l, hdr.Reply, hdr'.Reply, d)
  {
    InstallReplyFacts(t, l, hdr);
    var (t1, hdr1) := InstallReply(t, l, hdr);
    ConsumeFacts(t1, hdr1, hdr.Dest);
  }

  lemma AcceptsLocal(t: Table, l: Byte, hdr: MsgHdr)
    requires MayInstall(t, hdr) && IsLive(t, hdr.Dest) && Entry(t, Index(hdr.Dest)).Type.TLocal?
    ensures var (t', hdr', fate) := Accept(t, l, hdr, true, true);
            var (t1, hdr1) := InstallReply(t, l, hdr);
            && fate == Delivered(Index(hdr.Dest)) && hdr' == hdr1
            && HasEntry(t1, Index(hdr.Dest)) && t' == Aged(t1, hdr.Dest)
  {
    InstallKeepsPort(t, l, hdr, hdr.Dest);
  }

  /** A port in use is not concerned by the new surrogate. */
  lemma InstallKeepsPort(t: Table, l: Byte, hdr: MsgHdr, port: Word)
    requires MayInstall(t, hdr) && IsLive(t, port)
    ensures var t' := InstallReply(t, l, hdr).0; IsLive(t', port) && Entry(t', Index(port)) == Entry(t, Index(port))
  {
    InstallReplyFacts(t, l, hdr);
  }

  /** The entry and descriptor for the reply port of a message whose Dest has entry e, for its way back. */
  predicate Marked(e: PTE, r: PTE, reply: Word)
  {
    // MinInt, Port_Flags_Tx and Port_Flags_Remote
    && 0xe000_0000 <= reply
    && r.Owner == e.Owner && r.RxId == e.Link && r.Type == if e.Type.TLocal? then TSurrogate else TTrail
  }

  /**
   The descriptor that goes on is marked remote and for transmission; its entry
   is a trail on the way and a surrogate at the end, and belongs to whom Dest's does.
   */
  lemma ReplyMarked(t: Table, l: Byte, hdr: MsgHdr)
    requires MayInstall(t, hdr) && IsLive(t, hdr.Dest) && hdr.Reply != NULL_PORT
    ensures var (t', hdr') := InstallReply(t, l, hdr);
            && HasEntry(t', Index(hdr'.Reply))
            && Marked(Entry(t, Index(hdr.Dest)), Entry(t', Index(hdr'.Reply)), hdr'.Reply)
  {
    InstallReplyFacts(t, l, hdr);
    NewPortIsNew(t);
    StockedValid(t);
  }

  /** ... and its last hop, onto a local port with a receiver. */
  lemma DeliverFacts(t: Table, l: Byte, hdr: MsgHdr)
    requires MayInstall(t, hdr)
    requires IsLive(t, hdr.Dest) && Entry(t, Index(hdr.Dest)).Type.TLocal?
    ensures var (t', hdr', fate) := LinkMsg(t, l, hdr, true, true);
            var d, e := Index(hdr.Dest), Entry(t, Index(hdr.Dest));
            && fate == Delivered(d)
            && hdr' == hdr.(Reply := hdr'.Reply)
            && Valid(t')
            && HasEntry(t', d) && Entry(t', d) == e.(Age := 1)
            && ReplyMade(t, t', l, hdr.Reply, hdr'.Reply, d)
  {
    AcceptsLocal(t, l, hdr);
    InstallReplyFacts(t, l, hdr);
    var (t1, hdr1) := InstallReply(t, l, hdr);
    AgedFacts(t1, hdr.Dest);
  }

  /**
   Besides entry d the hop touched one entry, the new surrogate for the reply
   port, and none at all if there was no reply port.
   */
  ghost predicate ReplyMade(t: Table, t': Table, l: Byte, reply: Word, reply': Word, d: nat)
  {
    if reply == NULL_PORT then reply' == NULL_PORT && OnlyChanges(t, t', {d})
    else
      && reply' != NULL_PORT
      && Index(reply') != d
      && OnlyChanges(t, t', {d, Index(reply')})
      && IsSurrogate(t', reply', l, reply)
      && WasFree(t, t', Index(reply'))
  }

  // ---- The code ----

  method SetEntry(root: RootStruct, i: nat, e: PTE)
    requires HasEntry(root.Tab(), i)
    modifies root
    ensures root.Tab() == Put(old(root.Tab()), i, e)
  {
    root.PortTable := Put(Table(root.PortTable, root.PTFreeq), i, e).base;
  }

  /** The end of LinkMsg's direct path, once the message is through. */
  method KernelFinish(root: RootStruct, hdr: MsgHdr, dest: Word)
    requires HasEntry(root.Tab(), Index(dest))
    modifies root
    ensures root.Tab() == Consume(old(root.Tab()), hdr, dest)
  {
    var pte := Entry(Table(root.PortTable, root.PTFreeq), Index(dest));
    if !hdr.preserve && !pte.Type.TPermanent? {
      var rc := root.KernelFreePort(dest);
    }
  }

  /** The surrogate branch of _PutMsg, which reads the entry and frees it at once. */
  method UseSurrogate(root: RootStruct, hdr: MsgHdr, dest: Word) returns (hdr': MsgHdr, link: Byte)
    requires HasEntry(root.Tab(), Index(dest))
    modifies root
    ensures root.Tab() == Consume(old(root.Tab()), hdr, dest)
    ensures hdr' == hdr.(Dest := Entry(old(root.Tab()), Index(dest)).TxId)
    ensures link == Entry(old(root.Tab()), Index(dest)).Link
  {
    var pte := Entry(Table(root.PortTable, root.PTFreeq), Index(dest));
    link := pte.Link;
    hdr' := hdr.(Dest := pte.TxId);
    KernelFinish(root, hdr, dest);
  }

  method KernelPutMsg(root: RootStruct, hdr: MsgHdr, up: bool) returns (hdr': MsgHdr, fate: Fate)
    requires HasEntry(root.Tab(), Index(hdr.Dest))
    modifies root
    ensures (root.Tab(), hdr', fate) == PutMsg(old(root.Tab()), hdr, up)
  {
    var dest := hdr.Dest;
    hdr' := hdr;
    if dest == NULL_PORT { return hdr, Sunk(BadPort); }
    var pte := Entry(Table(root.PortTable, root.PTFreeq), Index(dest));
    if NotSameCycle(dest, pte) { return hdr, Sunk(BadPort); }
    SetEntry(root, Index(dest), pte.(Age := 1));
    if pte.Type.TLocal? { return hdr, Delivered(Index(dest)); }
    if !up { return hdr, Sunk(BadLink); }
    var link;
    hdr', link := UseSurrogate(root, hdr, dest);
    fate := Forwarded(link);
  }

  method MakeReplySurrogate(root: RootStruct, l: Byte, hdr: MsgHdr) returns (hdr': MsgHdr)
    requires MayInstall(root.Tab(), hdr)
    modifies root
    ensures (root.Tab(), hdr') == InstallReply(old(root.Tab()), l, hdr)
  {
    if hdr.Reply == NULL_PORT { return hdr; }
    ghost var t := root.Tab();
    NewPortIsNew(t);
    StockedValid(t);
    var reply := root.KernelNewPort();
    var rpte := Entry(Table(root.PortTable, root.PTFreeq), Index(reply));
    var pte := Entry(Table(root.PortTable, root.PTFreeq), Index(hdr.Dest));
    SetEntry(root, Index(reply), ReplyEntry(rpte, pte, l, hdr.Reply));
    hdr' := hdr.(Reply := WithFlags(reply));
  }

  /** LinkMsg up to the point where a message that goes on may have to give way. */
  method KernelAccept(root: RootStruct, l: Byte, hdr: MsgHdr, up: bool, direct: bool)
    returns (hdr': MsgHdr, fate: Fate)
    requires MayInstall(root.Tab(), hdr)
    modifies root
    ensures (root.Tab(), hdr', fate) == Accept(old(root.Tab()), l, hdr, up, direct)
  {
    InstallReplyFacts(root.Tab(), l, hdr);
    hdr' := MakeReplySurrogate(root, l, hdr);
    var dest := hdr.Dest;
    var pte := Entry(Table(root.PortTable, root.PTFreeq), Index(dest));
    if pte.Type.TFree? || NotSameCycle(dest, pte) { return hdr', Sunk(BadPort); }
    SetEntry(root, Index(dest), pte.(Age := 1));
    if pte.Type.TLocal? {
      if direct { return hdr', Delivered(Index(dest)); }
      return hdr', if hdr.sacrifice then Sunk(Congestion) else Buffered;
    }
    if !up { return hdr', Sunk(BadRoute); }
    if !direct { return hdr', Buffered; }
    fate := Claimed(pte.Link);
  }

  /** LinkMsg when nothing comes between. */
  method KernelLinkMsg(root: RootStruct, l: Byte, hdr: MsgHdr, up: bool, direct: bool)
    returns (hdr': MsgHdr, fate: Fate)
    requires MayInstall(root.Tab(), hdr)
    modifies root
    ensures (root.Tab(), hdr', fate) == LinkMsg(old(root.Tab()), l, hdr, up, direct)
  {
    AcceptHas(root.Tab(), l, hdr, up, direct);
    hdr', fate := KernelAccept(root, l, hdr, up, direct);
    if fate.Claimed? {
      hdr' := hdr'.(Dest := Entry(Table(root.PortTable, root.PTFreeq), Index(hdr.Dest)).TxId);
      KernelFinish(root, hdr', hdr.Dest);
      fate := Forwarded(fate.link);
    }
  }
}
