/**
 The network as a step system: any number of processors, messages in FIFO
 order on every link, and workers holding buffered messages.  Every kernel
 operation is one step, with two exceptions.  _PutMsg may have to wait for its
 link.  And LinkMsg, when it passes a message straight on, gives way between
 looking at the destination's entry and freeing it, and with a large message
 also between looking and reading the descriptor to send the message on to;
 until it is done the link the message came by stands still.  Messages carry
 the history of their descriptors beside the header; the kernel's steps look
 at the header and the tables only.
 */
module Networks {
  import opened Lists
  import opened Words
  import opened Ports
  import opened Routing
  import opened Journeys
  import opened Ledgers

  /**
   `to` and `from` are the tags of Dest and Reply, `intended` is the local port
   the sender named.  `via` is what Dest called for when it was last read from an
   entry by LinkMsg, or when the message was made: it is bound for what that
   stands for, which is `intended` unless the entry had changed since LinkMsg
   looked.  `gap` is how often an entry the message went through had been freed
   since its descriptor was issued: 0, unless a check was fooled.
   */
  datatype Msg = Msg(hdr: MsgHdr, to: Tag, from: Tag, intended: Tag, via: Tag, gap: nat)

  /** Up to this size LinkMsg takes the SINGLE_BUFFER path, from there on the DOUBLE_BUFFER path. */
  const SINGLE_BUFF_SIZE := 256

  /**
   A message on its way out by a link.  Queued: _PutMsg is through with the
   entry and is to get the link.  The other two are LinkMsg's, for a message
   that came by the given wire.  Claim: it has the link, and `tag` is the use of
   the entry that it looked at; msg has the history it will have on the link, but
   not yet the descriptor.  Sending: it has gone, and the entry of dest is still
   to be freed.
   */
  datatype Transit =
    | Queued(link: Byte, msg: Msg)
    | Claim(link: Byte, wire: End, msg: Msg, tag: Tag)
    | Sending(link: Byte, wire: End, hdr: MsgHdr, dest: Word)

  datatype Arrival = Arrival(msg: Msg, at: Tag)

  datatype Net = Net(L: Ledger, wires: map<End, seq<Msg>>, waiting: map<NodeId, seq<Msg>>,
                     through: map<NodeId, seq<Transit>>, log: seq<Arrival>)

  datatype Event =
    | Open(k: NodeId)                                      // _NewPort by an application
    | Free(k: NodeId, port: Word)                          // _FreePort on any descriptor
    | Attach(wire: End, port: Word)                        // a link comes up, with port at its far end
    | Post(k: NodeId, msg: Msg)                            // a message for _PutMsg: an application's,
                                                           // or an exception raised by the kernel
    | Put(k: NodeId, j: nat, up: bool)                     // _PutMsg on a waiting message
    | Send(k: NodeId, j: nat)                              // the link is free for a message that _PutMsg queued
    | Receive(wire: End, up: bool, direct: bool)           // LinkMsg on the next message of a link
    | Forward(k: NodeId, j: nat, tx: Word)                 // LinkMsg reads the entry it claimed by, and sends;
                                                           // tx is what a local port's entry has for TxId
    | Finish(k: NodeId, j: nat)                            // LinkMsg frees the entry it sent by
    | Abandon(k: NodeId, j: nat)                           // a message is given up on its way out
    | Lose(wire: End, j: nat)                              // a transfer fails
    | GiveUp(k: NodeId, j: nat)                            // a waiting message times out or is aborted

  function At<K, V>(m: map<K, seq<V>>, k: K): seq<V> { if k in m then m[k] else [] }

  // ---- What a message meets at an entry ----

  function GapAt(L: Ledger, k: NodeId, m: Msg): nat
  {
    var g := Gen(L, Hop(k, Index(m.hdr.Dest)));
    if m.gap > 0 || g < m.to.gen then m.gap else g - m.to.gen
  }

  /** The message after the entry it was addressed through at node k. */
  function Onward(L: Ledger, k: NodeId, m: Msg, hdr': MsgHdr): Msg
  {
    var here := Current(L, Hop(k, Index(m.hdr.Dest)));
    m.(hdr := hdr', to := if here in L.next then L.next[here] else m.to, gap := GapAt(L, k, m))
  }

  /** Does passing the message on free the entry it used? */
  predicate Uses(t: Table, hdr: MsgHdr, dest: Word)
    requires HasEntry(t, Index(dest))
  {
    !hdr.preserve && !Entry(t, Index(dest)).Type.TPermanent?
  }

  /** The ledger after LinkMsg or _PutMsg has freed the entry of dest, if it may. */
  ghost function Used(L: Ledger, k: NodeId, hdr: MsgHdr, dest: Word): Ledger
    requires k in L.tabs && HasEntry(L.tabs[k], Index(dest))
  {
    if Uses(L.tabs[k], hdr, dest) then Released(L, k, dest) else L
  }

  /** Entry h stands for a remote port, by a descriptor that node y has issued. */
  ghost predicate Points(L: Ledger, h: Hop, y: NodeId)
  {
    && InUse(L.tabs, h) && !Ent(L.tabs, h).Type.TLocal?
    && Current(L, h) in L.home && Current(L, h) in L.next && L.next[Current(L, h)].node == y
  }

  /** The node at the far end of link l. */
  function Neighbour(topo: Topology, k: NodeId, l: Byte): NodeId
  {
    if End(k, l) in topo then topo[End(k, l)].node else k
  }

  /** What the word read from entry h calls for at node y. */
  ghost function CalledBy(L: Ledger, h: Hop, y: NodeId, word: Word): Tag
  {
    if Points(L, h, y) then L.next[Current(L, h)] else Called(y, word)
  }

  /** The claimed message c, which goes out on link l, with what its entry now holds. */
  ghost function Readdressed(topo: Topology, L: Ledger, k: NodeId, c: Msg, l: Byte, tx: Word): Msg
    requires k in L.tabs && HasEntry(L.tabs[k], Index(c.hdr.Dest))
  {
    var hdr := Readdress(L.tabs[k], c.hdr, tx);
    if c.gap > 0 then c.(hdr := hdr)
    else
      var to := CalledBy(L, Hop(k, Index(c.hdr.Dest)), Neighbour(topo, k, l), hdr.Dest);
      c.(hdr := hdr, to := to, via := to)
  }

  // ---- Steps ----

  /** Message m' goes out on link l. */
  function Sent(net: Net, k: NodeId, l: Byte, m': Msg): Net
  {
    net.(wires := net.wires[End(k, l) := At(net.wires, End(k, l)) + [m']])
  }

  function Entered(net: Net, k: NodeId, tr: Transit): Net
  {
    net.(through := net.through[k := At(net.through, k) + [tr]])
  }

  /**
   LinkMsg has claimed link l for message m, come by wire e, whose onward
   history is in c; a small message goes at once.
   */
  ghost function Claims(topo: Topology, net: Net, k: NodeId, e: End, m: Msg, c: Msg, l: Byte): Net
    requires k in net.L.tabs && HasEntry(net.L.tabs[k], Index(m.hdr.Dest)) && c.hdr == m.hdr
  {
    if m.hdr.size <= SINGLE_BUFF_SIZE then
      Entered(Sent(net, k, l, Readdressed(topo, net.L, k, c, l, NULL_PORT)), k, Sending(l, e, c.hdr, m.hdr.Dest))
    else
      Entered(net, k, Claim(l, e, c, Current(net.L, Hop(k, Index(m.hdr.Dest)))))
  }

  /** The network after a message m at node k, come by wire e if by any, met the fate given. */
  ghost function Dealt(topo: Topology, net: Net, L': Ledger, k: NodeId, e: End, m: Msg, m': Msg, fate: Fate): Net
    requires fate.Claimed? ==> k in L'.tabs && HasEntry(L'.tabs[k], Index(m.hdr.Dest)) && m'.hdr == m.hdr
  {
    match fate
    case Delivered(i) => net.(L := L', log := net.log + [Arrival(m', Current(L', Hop(k, i)))])
    case Forwarded(l) => Entered(net.(L := L'), k, Queued(l, m'))
    case Claimed(l) => Claims(topo, net.(L := L'), k, e, m, m', l)
    case Buffered => net.(L := L', waiting := net.waiting[k := At(net.waiting, k) + [m]])
    case Sunk(_) => net.(L := L')
  }

  /** The ledger after an operation left table t' at node k and the fate given. */
  ghost function After(L: Ledger, k: NodeId, hdr: MsgHdr, t': Table, fate: Fate): Ledger
    requires k in L.tabs && HasEntry(L.tabs[k], Index(hdr.Dest))
  {
    if fate.Forwarded? then Used(WithTab(L, k, Aged(L.tabs[k], hdr.Dest)), k, hdr, hdr.Dest) else WithTab(L, k, t')
  }

  ghost predicate PutEnabled(net: Net, k: NodeId, j: nat)
  {
    && j < |At(net.waiting, k)|
    && k in net.L.tabs
    && HasEntry(net.L.tabs[k], Index(At(net.waiting, k)[j].hdr.Dest))
  }

  /** _PutMsg on the j-th message waiting at node k. */
  ghost function PutStep(topo: Topology, net: Net, k: NodeId, j: nat, up: bool): Net
    requires PutEnabled(net, k, j)
  {
    var m := At(net.waiting, k)[j];
    var (t', hdr', fate) := PutMsg(net.L.tabs[k], m.hdr, up);
    Dealt(topo, net.(waiting := net.waiting[k := Cut(At(net.waiting, k), j)]),
          After(net.L, k, m.hdr, t', fate), k, End(k, 0), m, Onward(net.L, k, m, hdr'), fate)
  }

  /** LinkMsg has no message in hand that came by wire e to node k: a link has one guardian, and that reads no other. */
  ghost predicate Idle(net: Net, k: NodeId, e: End)
  {
    forall tr :: tr in At(net.through, k) ==> tr.Queued? || tr.wire != e
  }

  /** Link l of node k has neither owner nor queue. */
  ghost predicate Clear(net: Net, k: NodeId, l: Byte)
  {
    forall tr :: tr in At(net.through, k) ==> tr.link != l
  }

  ghost predicate ReceiveEnabled(topo: Topology, net: Net, e: End, up: bool, direct: bool)
  {
    && e in topo
    && |At(net.wires, e)| > 0
    && var m, at := At(net.wires, e)[0], topo[e];
       && at.node in net.L.tabs && Idle(net, at.node, e)
       && MayInstall(net.L.tabs[at.node], m.hdr)
       && (m.hdr.Reply != NULL_PORT ==> m.from in net.L.home && m.from in net.L.dist)
       && var fate := Accept(net.L.tabs[at.node], at.link, m.hdr, up, direct).2;
          fate.Claimed? ==> Clear(net, at.node, fate.link)
  }

  /** The message with the surrogate LinkMsg made for its reply port. */
  function Rehomed(L: Ledger, k: NodeId, m: Msg, hdr: MsgHdr): Msg
  {
    m.(hdr := hdr, from := if hdr.Reply == NULL_PORT then m.from else Current(L, Hop(k, Index(hdr.Reply))))
  }

  /** LinkMsg on the next message of the wire that starts at end e, until it gives way. */
  ghost function ReceiveStep(topo: Topology, net: Net, e: End, up: bool, direct: bool): Net
    requires ReceiveEnabled(topo, net, e, up, direct)
  {
    var m, at := At(net.wires, e)[0], topo[e];
    var (t', hdr', fate) := Accept(net.L.tabs[at.node], at.link, m.hdr, up, direct);
    var (L1, hdr1) := Installed(net.L, at, m.hdr, m.from);
    InstallReplyFacts(net.L.tabs[at.node], at.link, m.hdr);
    AcceptRest(net.L.tabs[at.node], at.link, m.hdr, up, direct);
    var m1 := Rehomed(net.L, at.node, m, hdr1);
    Dealt(topo, net.(wires := net.wires[e := At(net.wires, e)[1..]]),
          After(L1, at.node, hdr1, t', fate), at.node, e, m1, Onward(L1, at.node, m1, hdr'), fate)
  }

  lemma InstalledTables(L: Ledger, at: End, hdr: MsgHdr, from: Tag)
    requires at.node in L.tabs && MayInstall(L.tabs[at.node], hdr)
    requires hdr.Reply != NULL_PORT ==> from in L.home && from in L.dist
    ensures var (L1, hdr1) := Installed(L, at, hdr, from);
            && L1.tabs == L.tabs[at.node := InstallReply(L.tabs[at.node], at.link, hdr).0]
            && L1.gens == L.gens
            && hdr1 == InstallReply(L.tabs[at.node], at.link, hdr).1
            && hdr1 == hdr.(Reply := hdr1.Reply) && (hdr1.Reply == NULL_PORT <==> hdr.Reply == NULL_PORT)
            && HasEntry(L1.tabs[at.node], Index(hdr.Dest)) && Valid(L1.tabs[at.node])
  {
    InstallReplyFacts(L.tabs[at.node], at.link, hdr);
    assert L.tabs[at.node := L.tabs[at.node]] == L.tabs;
  }

  /** LinkMsg or _PutMsg once the reply port is dealt with; t is the table it then sees. */
  ghost predicate RestOfLinkMsg(t: Table, hdr: MsgHdr, t': Table, hdr': MsgHdr, fate: Fate)
    requires HasEntry(t, Index(hdr.Dest))
  {
    var e, aged := Entry(t, Index(hdr.Dest)), Aged(t, hdr.Dest);
    match fate
    case Delivered(i) =>
      t' == aged && i == Index(hdr.Dest) && e.Type.TLocal? && !NotSameCycle(hdr.Dest, e) && hdr' == hdr
    case Forwarded(l) =>
      && !e.Type.TLocal? && !NotSameCycle(hdr.Dest, e) && l == e.Link
      && t' == Consume(aged, hdr, hdr.Dest) && hdr' == hdr.(Dest := e.TxId)
    case Claimed(l) =>
      && !e.Type.TLocal? && !e.Type.TFree? && !NotSameCycle(hdr.Dest, e) && l == e.Link
      && t' == aged && hdr' == hdr
    case Buffered => !e.Type.TFree? && !NotSameCycle(hdr.Dest, e) && t' == aged && hdr' == hdr
    case Sunk(_) => (t' == t || t' == aged) && hdr' == hdr
  }

  lemma AcceptRest(t: Table, l: Byte, hdr: MsgHdr, up: bool, direct: bool)
    requires MayInstall(t, hdr)
    ensures var (t1, hdr1) := InstallReply(t, l, hdr);
            && HasEntry(t1, Index(hdr1.Dest))
            && var (t', hdr', fate) := Accept(t, l, hdr, up, direct);
               RestOfLinkMsg(t1, hdr1, t', hdr', fate) && !fate.Forwarded? && HasEntry(t', Index(hdr1.Dest))
  {
    InstallReplyFacts(t, l, hdr);
  }

  lemma PutMsgRest(t: Table, hdr: MsgHdr, up: bool)
    requires HasEntry(t, Index(hdr.Dest))
    ensures var (t', hdr', fate) := PutMsg(t, hdr, up);
            RestOfLinkMsg(t, hdr, t', hdr', fate) && !fate.Buffered? && !fate.Claimed?
  {
  }

  // ---- the rest of LinkMsg ----

  ghost predicate ForwardEnabled(net: Net, k: NodeId, j: nat)
  {
    && j < |At(net.through, k)| && At(net.through, k)[j].Claim?
    && k in net.L.tabs && HasEntry(net.L.tabs[k], Index(At(net.through, k)[j].msg.hdr.Dest))
  }

  /** `hdr.Dest = (Port)pte->TxId`, and off it goes. */
  ghost function ForwardStep(topo: Topology, net: Net, k: NodeId, j: nat, tx: Word): Net
    requires ForwardEnabled(net, k, j)
  {
    var tr := At(net.through, k)[j];
    var sending := Sending(tr.link, tr.wire, tr.msg.hdr, tr.msg.hdr.Dest);
    Sent(net.(through := net.through[k := At(net.through, k)[j := sending]]), k, tr.link,
         Readdressed(topo, net.L, k, tr.msg, tr.link, tx))
  }

  ghost predicate FinishEnabled(net: Net, k: NodeId, j: nat)
  {
    && j < |At(net.through, k)| && At(net.through, k)[j].Sending?
    && k in net.L.tabs && HasEntry(net.L.tabs[k], Index(At(net.through, k)[j].dest))
  }

  function Departed(net: Net, k: NodeId, j: nat): Net
    requires j < |At(net.through, k)|
  {
    net.(through := net.through[k := Cut(At(net.through, k), j)])
  }

  /** LinkMsg has not got the link that a queued message waits for. */
  ghost predicate SendEnabled(net: Net, k: NodeId, j: nat)
  {
    && j < |At(net.through, k)| && At(net.through, k)[j].Queued?
    && forall tr :: tr in At(net.through, k) && tr.link == At(net.through, k)[j].link ==> tr.Queued?
  }

  function SendStep(net: Net, k: NodeId, j: nat): Net
    requires j < |At(net.through, k)| && At(net.through, k)[j].Queued?
  {
    var tr := At(net.through, k)[j];
    Sent(Departed(net, k, j), k, tr.link, tr.msg)
  }

  ghost function FinishStep(net: Net, k: NodeId, j: nat): Net
    requires FinishEnabled(net, k, j)
  {
    var tr := At(net.through, k)[j];
    Departed(net.(L := Used(net.L, k, tr.hdr, tr.dest)), k, j)
  }

  ghost function Step(topo: Topology, net: Net, ev: Event): Net
  {
    match ev
    case Open(k) =>
      if k in net.L.tabs && CanAllocate(net.L.tabs[k]) then net.(L := Opened(net.L, k)) else net
    case Free(k, port) =>
      if k in net.L.tabs && HasEntry(net.L.tabs[k], Index(port)) then net.(L := Released(net.L, k, port)) else net
    case Attach(e, port) => if MayAttach(topo, net.L, e, port) then net.(L := Attached(topo, net.L, e, port)) else net
    case Post(k, m) =>
      if MsgOk(net.L, m, k, k) && Issued(net.L, m) && m.gap == 0 && m.via == m.to && net.L.home[m.to] == m.intended
      then net.(waiting := net.waiting[k := At(net.waiting, k) + [m]])
      else net
    case Put(k, j, up) => if PutEnabled(net, k, j) then PutStep(topo, net, k, j, up) else net
    case Send(k, j) => if SendEnabled(net, k, j) then SendStep(net, k, j) else net
    case Receive(e, up, direct) =>
      if ReceiveEnabled(topo, net, e, up, direct) then ReceiveStep(topo, net, e, up, direct) else net
    case Forward(k, j, tx) => if ForwardEnabled(net, k, j) then ForwardStep(topo, net, k, j, tx) else net
    case Finish(k, j) => if FinishEnabled(net, k, j) then FinishStep(net, k, j) else net
    case Abandon(k, j) => if j < |At(net.through, k)| then Departed(net, k, j) else net
    case Lose(e, j) =>
      if j < |At(net.wires, e)| then net.(wires := net.wires[e := Cut(At(net.wires, e), j)]) else net
    case GiveUp(k, j) =>
      if j < |At(net.waiting, k)| then net.(waiting := net.waiting[k := Cut(At(net.waiting, k), j)]) else net
  }

  ghost function Run(topo: Topology, net: Net, evs: seq<Event>): Net
    decreases |evs|
  {
    if evs == [] then net else Run(topo, Step(topo, net, evs[0]), evs[1..])
  }

  // ---- The invariant ----

  /** A small message is bound for the port its sender named. */
  ghost predicate SmallOk(L: Ledger, m: Msg)
  {
    m.hdr.size <= SINGLE_BUFF_SIZE ==> m.via in L.home && L.home[m.via] == m.intended
  }

  /** Dest, read at node dn, calls for what the message is bound for, if no check was fooled. */
  ghost predicate DestOk(L: Ledger, m: Msg, dn: NodeId)
  {
    && m.gap % 0x100 == 0
    && (m.gap == 0 ==>
          && m.to.node == dn && Names(m.hdr.Dest, m.to) && (m.to in L.home || m.to.gen < 0x100)
          && (m.to == m.via || (m.to in L.home && m.via in L.home && L.home[m.to] == L.home[m.via])))
  }

  /** A message whose Dest is read at node dn and whose Reply at node rn. */
  ghost predicate MsgOk(L: Ledger, m: Msg, dn: NodeId, rn: NodeId)
  {
    DestOk(L, m, dn) && SmallOk(L, m) && ReplyOk(L, m, rn)
  }

  /** Dest is a descriptor that has been issued. */
  ghost predicate Issued(L: Ledger, m: Msg)
  {
    m.gap == 0 ==> m.to in L.home
  }

  ghost predicate ReplyOk(L: Ledger, m: Msg, rn: NodeId)
  {
    m.hdr.Reply != NULL_PORT ==> m.from in L.home && m.from.node == rn && Names(m.hdr.Reply, m.from)
  }

  /** A message about to go out on link l of node k, but for its Dest. */
  ghost predicate OnwardOk(topo: Topology, L: Ledger, k: NodeId, c: Msg, l: Byte)
  {
    && c.gap % 0x100 == 0
    && (c.gap == 0 ==>
          && c.to in L.home && c.via in L.home && L.home[c.to] == L.home[c.via]
          && (End(k, l) in topo ==> c.to.node == topo[End(k, l)].node))
    && SmallOk(L, c) && ReplyOk(L, c, k)
  }

  /** What a claim remembers: its tag is a use of the entry as a surrogate for c.to. */
  ghost predicate ClaimOk(topo: Topology, L: Ledger, k: NodeId, tr: Transit)
    requires tr.Claim?
  {
    var c := tr.msg;
    && tr.tag.hop() == Hop(k, Index(c.hdr.Dest)) && Names(c.hdr.Dest, tr.tag)
    && tr.tag in L.home && tr.tag in L.dist && L.dist[tr.tag] > 0
    && tr.tag in L.next && L.next[tr.tag] == c.to
    && c.hdr.size > SINGLE_BUFF_SIZE
    && End(k, tr.link) in topo && OnwardOk(topo, L, k, c, tr.link)
  }

  ghost predicate WireOk(topo: Topology, net: Net, e: End)
  {
    e in topo ==> forall m :: m in At(net.wires, e) ==> MsgOk(net.L, m, topo[e].node, e.node)
  }

  ghost predicate WaitingOk(net: Net, k: NodeId)
  {
    forall m :: m in At(net.waiting, k) ==> MsgOk(net.L, m, k, k) && Issued(net.L, m)
  }

  ghost predicate TransitOk(topo: Topology, L: Ledger, k: NodeId, tr: Transit)
  {
    match tr
    case Queued(l, m) => End(k, l) in topo ==> MsgOk(L, m, topo[End(k, l)].node, k)
    case Claim(_, _, _, _) => ClaimOk(topo, L, k, tr)
    case Sending(_, _, _, _) => true
  }

  ghost predicate ThroughOk(topo: Topology, net: Net, k: NodeId)
  {
    forall tr :: tr in At(net.through, k) ==> TransitOk(topo, net.L, k, tr)
  }

  ghost predicate ArrivalOk(L: Ledger, a: Arrival)
  {
    && a.msg.gap % 0x100 == 0
    && (a.msg.gap == 0 ==> a.msg.via in L.home && a.at == L.home[a.msg.via])
    && SmallOk(L, a.msg)
  }

  ghost predicate Inv(topo: Topology, net: Net)
  {
    && LedgerOk(topo, net.L)
    && (forall e :: WireOk(topo, net, e))
    && (forall k :: WaitingOk(net, k))
    && (forall k :: ThroughOk(topo, net, k))
    && (forall a :: a in net.log ==> ArrivalOk(net.L, a))
  }

  /** What passing the cycle check says about a message. */
  lemma MeetEntry(topo: Topology, L: Ledger, k: NodeId, m: Msg, rn: NodeId)
    requires LedgerOk(topo, L) && MsgOk(L, m, k, rn) && Has(L.tabs, Hop(k, Index(m.hdr.Dest)))
    requires var e := Ent(L.tabs, Hop(k, Index(m.hdr.Dest)));
             !NotSameCycle(m.hdr.Dest, e) && (!e.Type.TFree? || Issued(L, m))
    ensures GapAt(L, k, m) % 0x100 == 0
    ensures GapAt(L, k, m) == 0 ==>
              m.gap == 0 && InUse(L.tabs, m.to.hop()) && m.to.hop() == Hop(k, Index(m.hdr.Dest))
                  && Current(L, m.to.hop()) == m.to
                  && m.to in L.home && m.via in L.home && L.home[m.to] == L.home[m.via]
  {
    if m.gap == 0 {
      assert CycleOk(L, m.to.hop()) && EntryOk(topo, L, m.to.hop());
      if m.to in L.home {
        CycleCheck(topo, L, m.hdr.Dest, m.to);
      } else {
        EarlyCheck(L, m.to.hop(), m.hdr.Dest, m.to);
      }
    }
  }

  lemma ArrivesRight(topo: Topology, L: Ledger, k: NodeId, m: Msg, rn: NodeId)
    requires LedgerOk(topo, L) && MsgOk(L, m, k, rn) && Has(L.tabs, Hop(k, Index(m.hdr.Dest)))
    requires !NotSameCycle(m.hdr.Dest, Ent(L.tabs, Hop(k, Index(m.hdr.Dest))))
    requires Ent(L.tabs, Hop(k, Index(m.hdr.Dest))).Type.TLocal?
    ensures ArrivalOk(L, Arrival(m.(gap := GapAt(L, k, m)), Current(L, Hop(k, Index(m.hdr.Dest)))))
  {
    MeetEntry(topo, L, k, m, rn);
    assert EntryOk(topo, L, Hop(k, Index(m.hdr.Dest)));
  }

  /** _PutMsg sends a message on. */
  lemma GoesOnRight(topo: Topology, L: Ledger, k: NodeId, m: Msg, hdr': MsgHdr)
    requires LedgerOk(topo, L) && MsgOk(L, m, k, k) && Issued(L, m) && Has(L.tabs, Hop(k, Index(m.hdr.Dest)))
    requires var e := Ent(L.tabs, Hop(k, Index(m.hdr.Dest)));
             && !NotSameCycle(m.hdr.Dest, e) && !e.Type.TLocal?
             && hdr' == m.hdr.(Dest := e.TxId)
    ensures var out := End(k, Ent(L.tabs, Hop(k, Index(m.hdr.Dest))).Link);
            out in topo ==> MsgOk(L, Onward(L, k, m, hdr'), topo[out].node, k)
  {
    MeetEntry(topo, L, k, m, k);
    assert EntryOk(topo, L, Hop(k, Index(m.hdr.Dest)));
  }

  /** LinkMsg buffers a message. */
  lemma StaysRight(topo: Topology, L: Ledger, k: NodeId, m: Msg)
    requires LedgerOk(topo, L) && MsgOk(L, m, k, k) && Has(L.tabs, Hop(k, Index(m.hdr.Dest)))
    requires var e := Ent(L.tabs, Hop(k, Index(m.hdr.Dest))); !NotSameCycle(m.hdr.Dest, e) && !e.Type.TFree?
    ensures Issued(L, m)
  {
    if m.gap == 0 && m.to.gen < 0x100 {
      assert CycleOk(L, m.to.hop()) && TagOk(L, m.to) && EntryOk(topo, L, m.to.hop());
      EarlyCheck(L, m.to.hop(), m.hdr.Dest, m.to);
    }
  }

  /** LinkMsg claims a link for a message. */
  lemma ClaimsRight(topo: Topology, L: Ledger, k: NodeId, m: Msg)
    requires LedgerOk(topo, L) && MsgOk(L, m, k, k) && Has(L.tabs, Hop(k, Index(m.hdr.Dest)))
    requires var e := Ent(L.tabs, Hop(k, Index(m.hdr.Dest)));
             !NotSameCycle(m.hdr.Dest, e) && !e.Type.TLocal? && !e.Type.TFree?
    ensures var c, here := Onward(L, k, m, m.hdr), Current(L, Hop(k, Index(m.hdr.Dest)));
            && OnwardOk(topo, L, k, c, Ent(L.tabs, here.hop()).Link)
            && here in L.home && here in L.dist && L.dist[here] > 0
            && here in L.next && L.next[here] == c.to
            && End(k, Ent(L.tabs, here.hop()).Link) in topo && Names(m.hdr.Dest, here)
            && Points(L, here.hop(), Neighbour(topo, k, Ent(L.tabs, here.hop()).Link))
  {
    MeetEntry(topo, L, k, m, k);
    assert EntryOk(topo, L, Hop(k, Index(m.hdr.Dest))) && CycleOk(L, Hop(k, Index(m.hdr.Dest)));
  }

  /** The message that goes out has a Dest that calls for what it is bound for by then. */
  lemma ReaddressedOk(topo: Topology, L: Ledger, k: NodeId, c: Msg, l: Byte, tx: Word)
    requires LedgerOk(topo, L) && k in L.tabs && HasEntry(L.tabs[k], Index(c.hdr.Dest)) && OnwardOk(topo, L, k, c, l)
    requires var h := Hop(k, Index(c.hdr.Dest));
             c.hdr.size > SINGLE_BUFF_SIZE || (Points(L, h, Neighbour(topo, k, l)) && L.next[Current(L, h)] == c.to)
    ensures End(k, l) in topo ==> MsgOk(L, Readdressed(topo, L, k, c, l, tx), topo[End(k, l)].node, k)
  {
    assert EntryOk(topo, L, Hop(k, Index(c.hdr.Dest)));
    CalledNames(Neighbour(topo, k, l), Readdress(L.tabs[k], c.hdr, tx).Dest);
  }

  // ---- Every step keeps the invariant ----

  lemma UsedOk(topo: Topology, L: Ledger, k: NodeId, hdr: MsgHdr, dest: Word)
    requires LedgerOk(topo, L) && k in L.tabs && HasEntry(L.tabs[k], Index(dest))
    ensures LedgerOk(topo, Used(L, k, hdr, dest)) && Extends(L, Used(L, k, hdr, dest))
  {
    if Uses(L.tabs[k], hdr, dest) { ReleasedOk(topo, L, k, dest); }
  }

  lemma AfterOk(topo: Topology, L: Ledger, k: NodeId, hdr: MsgHdr, t': Table, hdr': MsgHdr, fate: Fate)
    requires LedgerOk(topo, L) && k in L.tabs && HasEntry(L.tabs[k], Index(hdr.Dest))
    requires RestOfLinkMsg(L.tabs[k], hdr, t', hdr', fate)
    ensures LedgerOk(topo, After(L, k, hdr, t', fate)) && Extends(L, After(L, k, hdr, t', fate))
    ensures !fate.Forwarded? ==> After(L, k, hdr, t', fate).gens == L.gens
  {
    AgedOk(topo, L, k, hdr.Dest);
    if fate.Forwarded? {
      UsedOk(topo, WithTab(L, k, Aged(L.tabs[k], hdr.Dest)), k, hdr, hdr.Dest);
    } else if t' == L.tabs[k] {
      assert L.tabs[k := L.tabs[k]] == L.tabs;
    }
  }

  /** What must hold of a message for its fate to keep the invariant. */
  ghost predicate FateOk(topo: Topology, L: Ledger, k: NodeId, m: Msg, m': Msg, fate: Fate)
  {
    match fate
    case Delivered(i) => ArrivalOk(L, Arrival(m', Current(L, Hop(k, i))))
    case Forwarded(l) => End(k, l) in topo ==> MsgOk(L, m', topo[End(k, l)].node, k)
    case Claimed(l) =>
      && m'.hdr == m.hdr && k in L.tabs && HasEntry(L.tabs[k], Index(m.hdr.Dest))
      && OnwardOk(topo, L, k, m', l)
      && var here := Current(L, Hop(k, Index(m.hdr.Dest)));
         if m.hdr.size <= SINGLE_BUFF_SIZE then Points(L, here.hop(), Neighbour(topo, k, l)) && L.next[here] == m'.to
         else forall e: End :: ClaimOk(topo, L, k, Claim(l, e, m', here))
    case Buffered => MsgOk(L, m, k, k) && Issued(L, m)
    case Sunk(_) => true
  }

  ghost predicate AddsTo<K, V(!new)>(m: map<K, seq<V>>, m': map<K, seq<V>>, k: K, v: V, i: K)
  {
    forall x :: x in At(m', i) ==> x in At(m, i) || (i == k && x == v)
  }

  ghost predicate SubsetAt<K, V(!new)>(m: map<K, seq<V>>, m': map<K, seq<V>>, i: K)
  {
    forall x :: x in At(m', i) ==> x in At(m, i)
  }

  lemma CutIsSubset<V>(s: seq<V>, j: nat)
    requires j < |s|
    ensures forall x :: x in Cut(s, j) ==> x in s
  {
  }

  /** Dropping messages is always safe. */
  lemma DropKeeps(topo: Topology, net: Net, net': Net)
    requires Inv(topo, net) && net'.L == net.L && net'.log == net.log
    requires forall e :: SubsetAt(net.wires, net'.wires, e)
    requires forall k :: SubsetAt(net.waiting, net'.waiting, k)
    requires forall k :: SubsetAt(net.through, net'.through, k)
    ensures Inv(topo, net')
  {
    forall e ensures WireOk(topo, net', e) {
      assert WireOk(topo, net, e) && SubsetAt(net.wires, net'.wires, e);
    }
    forall k ensures WaitingOk(net', k) {
      assert WaitingOk(net, k) && SubsetAt(net.waiting, net'.waiting, k);
    }
    forall k ensures ThroughOk(topo, net', k) {
      assert ThroughOk(topo, net, k) && SubsetAt(net.through, net'.through, k);
    }
  }

  lemma WireKept(topo: Topology, net: Net, L': Ledger, e: End)
    requires WireOk(topo, net, e) && Extends(net.L, L')
    ensures WireOk(topo, net.(L := L'), e)
  {
  }

  lemma WaitingKept(net: Net, L': Ledger, k: NodeId)
    requires WaitingOk(net, k) && Extends(net.L, L')
    ensures WaitingOk(net.(L := L'), k)
  {
  }

  lemma ThroughKept(topo: Topology, net: Net, L': Ledger, k: NodeId)
    requires ThroughOk(topo, net, k) && Extends(net.L, L')
    ensures ThroughOk(topo, net.(L := L'), k)
  {
  }

  lemma LogKept(L: Ledger, L': Ledger, a: Arrival)
    requires ArrivalOk(L, a) && Extends(L, L')
    ensures ArrivalOk(L', a)
  {
  }

  lemma NewLedger(topo: Topology, net: Net, L': Ledger)
    requires Inv(topo, net) && LedgerOk(topo, L') && Extends(net.L, L')
    ensures Inv(topo, net.(L := L'))
  {
    forall e ensures WireOk(topo, net.(L := L'), e) {
      assert WireOk(topo, net, e);
      WireKept(topo, net, L', e);
    }
    forall k ensures WaitingOk(net.(L := L'), k) {
      assert WaitingOk(net, k);
      WaitingKept(net, L', k);
    }
    forall k ensures ThroughOk(topo, net.(L := L'), k) {
      assert ThroughOk(topo, net, k);
      ThroughKept(topo, net, L', k);
    }
    forall a | a in net.log ensures ArrivalOk(L', a) {
      LogKept(net.L, L', a);
    }
  }

  lemma SentOk(topo: Topology, net: Net, k: NodeId, l: Byte, m': Msg)
    requires Inv(topo, net) && (End(k, l) in topo ==> MsgOk(net.L, m', topo[End(k, l)].node, k))
    ensures Inv(topo, Sent(net, k, l, m'))
  {
    var net' := Sent(net, k, l, m');
    forall e ensures WireOk(topo, net', e) {
      assert WireOk(topo, net, e) && AddsTo(net.wires, net'.wires, End(k, l), m', e);
    }
    forall i ensures WaitingOk(net', i) { assert WaitingOk(net, i); }
    forall i ensures ThroughOk(topo, net', i) { assert ThroughOk(topo, net, i); }
  }

  lemma EnteredOk(topo: Topology, net: Net, k: NodeId, tr: Transit)
    requires Inv(topo, net) && TransitOk(topo, net.L, k, tr)
    ensures Inv(topo, Entered(net, k, tr))
  {
    var net' := Entered(net, k, tr);
    forall e ensures WireOk(topo, net', e) { assert WireOk(topo, net, e); }
    forall i ensures WaitingOk(net', i) { assert WaitingOk(net, i); }
    forall i ensures ThroughOk(topo, net', i) {
      assert ThroughOk(topo, net, i) && AddsTo(net.through, net'.through, k, tr, i);
    }
  }

  lemma BufferedOk(topo: Topology, net: Net, k: NodeId, m: Msg)
    requires Inv(topo, net) && MsgOk(net.L, m, k, k) && Issued(net.L, m)
    ensures Inv(topo, net.(waiting := net.waiting[k := At(net.waiting, k) + [m]]))
  {
    var net' := net.(waiting := net.waiting[k := At(net.waiting, k) + [m]]);
    forall e ensures WireOk(topo, net', e) { assert WireOk(topo, net, e); }
    forall i ensures WaitingOk(net', i) {
      assert WaitingOk(net, i) && AddsTo(net.waiting, net'.waiting, k, m, i);
    }
    forall i ensures ThroughOk(topo, net', i) { assert ThroughOk(topo, net, i); }
  }

  lemma LoggedOk(topo: Topology, net: Net, a: Arrival)
    requires Inv(topo, net) && ArrivalOk(net.L, a)
    ensures Inv(topo, net.(log := net.log + [a]))
  {
    var net' := net.(log := net.log + [a]);
    forall e ensures WireOk(topo, net', e) { assert WireOk(topo, net, e); }
    forall i ensures WaitingOk(net', i) { assert WaitingOk(net, i); }
    forall i ensures ThroughOk(topo, net', i) { assert ThroughOk(topo, net, i); }
  }

  lemma DealtOk(topo: Topology, net: Net, L': Ledger, k: NodeId, e: End, m: Msg, m': Msg, fate: Fate)
    requires Inv(topo, net) && LedgerOk(topo, L') && Extends(net.L, L')
    requires FateOk(topo, L', k, m, m', fate)
    ensures Inv(topo, Dealt(topo, net, L', k, e, m, m', fate))
  {
    NewLedger(topo, net, L');
    var net1 := net.(L := L');
    match fate
    case Delivered(i) => LoggedOk(topo, net1, Arrival(m', Current(L', Hop(k, i))));
    case Forwarded(l) => EnteredOk(topo, net1, k, Queued(l, m'));
    case Claimed(l) => ClaimedOk(topo, net1, k, e, m, m', l);
    case Buffered => BufferedOk(topo, net1, k, m);
    case Sunk(_) =>
  }

  lemma ClaimedOk(topo: Topology, net: Net, k: NodeId, e: End, m: Msg, c: Msg, l: Byte)
    requires Inv(topo, net) && FateOk(topo, net.L, k, m, c, Claimed(l))
    ensures Inv(topo, Claims(topo, net, k, e, m, c, l))
  {
    if m.hdr.size <= SINGLE_BUFF_SIZE {
      var m' := Readdressed(topo, net.L, k, c, l, NULL_PORT);
      ReaddressedOk(topo, net.L, k, c, l, NULL_PORT);
      SentOk(topo, net, k, l, m');
      EnteredOk(topo, Sent(net, k, l, m'), k, Sending(l, e, c.hdr, m.hdr.Dest));
    } else {
      EnteredOk(topo, net, k, Claim(l, e, c, Current(net.L, Hop(k, Index(m.hdr.Dest)))));
    }
  }

  lemma FateIsOk(topo: Topology, L: Ledger, k: NodeId, m: Msg, t': Table, hdr': MsgHdr, fate: Fate)
    requires LedgerOk(topo, L) && MsgOk(L, m, k, k) && k in L.tabs && HasEntry(L.tabs[k], Index(m.hdr.Dest))
    requires RestOfLinkMsg(L.tabs[k], m.hdr, t', hdr', fate) && (fate.Forwarded? ==> Issued(L, m))
    ensures FateOk(topo, L, k, m, Onward(L, k, m, hdr'), fate)
  {
    if fate.Delivered? {
      ArrivesRight(topo, L, k, m, k);
      assert Has(L.tabs, Hop(k, Index(m.hdr.Dest)));
    } else if fate.Forwarded? {
      GoesOnRight(topo, L, k, m, hdr');
    } else if fate.Claimed? {
      ClaimsRight(topo, L, k, m);
    } else if fate.Buffered? {
      StaysRight(topo, L, k, m);
    }
  }

  lemma FateKept(topo: Topology, L: Ledger, L': Ledger, k: NodeId, m: Msg, m': Msg, t': Table, hdr': MsgHdr, fate: Fate)
    requires k in L.tabs && HasEntry(L.tabs[k], Index(m.hdr.Dest)) && RestOfLinkMsg(L.tabs[k], m.hdr, t', hdr', fate)
    requires L' == After(L, k, m.hdr, t', fate)
    requires FateOk(topo, L, k, m, m', fate) && Extends(L, L') && (!fate.Forwarded? ==> L'.gens == L.gens)
    ensures FateOk(topo, L', k, m, m', fate)
  {
    if fate.Claimed? {
      var h := Hop(k, Index(m.hdr.Dest));
      assert Ent(L'.tabs, h) == Ent(L.tabs, h).(Age := 1) && Current(L', h) == Current(L, h);
    }
  }

  /** A message met at node k, whose ledger is now L, is dealt with. */
  lemma Settle(topo: Topology, net: Net, L: Ledger, k: NodeId, e: End, m: Msg, t': Table, hdr': MsgHdr, fate: Fate)
    requires Inv(topo, net) && LedgerOk(topo, L) && Extends(net.L, L)
    requires MsgOk(L, m, k, k) && k in L.tabs && HasEntry(L.tabs[k], Index(m.hdr.Dest))
    requires RestOfLinkMsg(L.tabs[k], m.hdr, t', hdr', fate) && (fate.Forwarded? ==> Issued(L, m))
    ensures fate.Claimed? ==> HasEntry(t', Index(m.hdr.Dest)) && hdr' == m.hdr
    ensures Inv(topo, Dealt(topo, net, After(L, k, m.hdr, t', fate), k, e, m, Onward(L, k, m, hdr'), fate))
  {
    var L' := After(L, k, m.hdr, t', fate);
    AfterOk(topo, L, k, m.hdr, t', hdr', fate);
    FateIsOk(topo, L, k, m, t', hdr', fate);
    FateKept(topo, L, L', k, m, Onward(L, k, m, hdr'), t', hdr', fate);
    DealtOk(topo, net, L', k, e, m, Onward(L, k, m, hdr'), fate);
  }

  lemma PutKeeps(topo: Topology, net: Net, k: NodeId, j: nat, up: bool)
    requires Inv(topo, net) && PutEnabled(net, k, j)
    ensures Inv(topo, PutStep(topo, net, k, j, up))
  {
    var m := At(net.waiting, k)[j];
    var (t', hdr', fate) := PutMsg(net.L.tabs[k], m.hdr, up);
    assert WaitingOk(net, k);
    PutMsgRest(net.L.tabs[k], m.hdr, up);
    var net0 := net.(waiting := net.waiting[k := Cut(At(net.waiting, k), j)]);
    CutIsSubset(At(net.waiting, k), j);
    DropKeeps(topo, net, net0);
    Settle(topo, net0, net.L, k, End(k, 0), m, t', hdr', fate);
  }

  lemma RehomedOk(topo: Topology, L: Ledger, at: End, m: Msg)
    requires Wired(topo) && LedgerOk(topo, L) && at in topo && at.node in L.tabs && MayInstall(L.tabs[at.node], m.hdr)
    requires MsgOk(L, m, at.node, topo[at].node)
    ensures m.hdr.Reply != NULL_PORT ==> m.from in L.home && m.from in L.dist
    ensures var (L1, hdr1) := Installed(L, at, m.hdr, m.from);
            && LedgerOk(topo, L1) && Extends(L, L1)
            && MsgOk(L1, Rehomed(L, at.node, m, hdr1), at.node, at.node)
            && at.node in L1.tabs && HasEntry(L1.tabs[at.node], Index(hdr1.Dest))
            && L1.tabs[at.node] == InstallReply(L.tabs[at.node], at.link, m.hdr).0
            && hdr1 == InstallReply(L.tabs[at.node], at.link, m.hdr).1
  {
    InstalledTables(L, at, m.hdr, m.from);
    InstalledOk(topo, L, at, m.hdr, m.from);
  }

  lemma ReceiveKeeps(topo: Topology, net: Net, e: End, up: bool, direct: bool)
    requires Wired(topo) && Inv(topo, net) && ReceiveEnabled(topo, net, e, up, direct)
    ensures Inv(topo, ReceiveStep(topo, net, e, up, direct))
  {
    var m, at := At(net.wires, e)[0], topo[e];
    assert WireOk(topo, net, e) && m in At(net.wires, e);
    RehomedOk(topo, net.L, at, m);
    AcceptRest(net.L.tabs[at.node], at.link, m.hdr, up, direct);
    var net0 := net.(wires := net.wires[e := At(net.wires, e)[1..]]);
    DropKeeps(topo, net, net0);
    var (t', hdr', fate) := Accept(net.L.tabs[at.node], at.link, m.hdr, up, direct);
    var (L1, hdr1) := Installed(net.L, at, m.hdr, m.from);
    Settle(topo, net0, L1, at.node, e, Rehomed(net.L, at.node, m, hdr1), t', hdr', fate);
  }

  lemma ForwardKeeps(topo: Topology, net: Net, k: NodeId, j: nat, tx: Word)
    requires Inv(topo, net) && ForwardEnabled(net, k, j)
    ensures Inv(topo, ForwardStep(topo, net, k, j, tx))
  {
    var tr := At(net.through, k)[j];
    var sending := Sending(tr.link, tr.wire, tr.msg.hdr, tr.msg.hdr.Dest);
    var net1 := net.(through := net.through[k := At(net.through, k)[j := sending]]);
    assert ThroughOk(topo, net, k) && tr in At(net.through, k);
    forall i ensures ThroughOk(topo, net1, i) {
      assert ThroughOk(topo, net, i) && AddsTo(net.through, net1.through, k, sending, i);
    }
    forall e ensures WireOk(topo, net1, e) { assert WireOk(topo, net, e); }
    forall i ensures WaitingOk(net1, i) { assert WaitingOk(net, i); }
    ReaddressedOk(topo, net.L, k, tr.msg, tr.link, tx);
    SentOk(topo, net1, k, tr.link, Readdressed(topo, net.L, k, tr.msg, tr.link, tx));
  }

  lemma DepartKeeps(topo: Topology, net: Net, k: NodeId, j: nat)
    requires Inv(topo, net) && j < |At(net.through, k)|
    ensures Inv(topo, Departed(net, k, j))
  {
    CutIsSubset(At(net.through, k), j);
    DropKeeps(topo, net, Departed(net, k, j));
  }

  lemma SendKeeps(topo: Topology, net: Net, k: NodeId, j: nat)
    requires Inv(topo, net) && SendEnabled(net, k, j)
    ensures Inv(topo, SendStep(net, k, j))
  {
    var tr := At(net.through, k)[j];
    assert ThroughOk(topo, net, k) && tr in At(net.through, k);
    DepartKeeps(topo, net, k, j);
    SentOk(topo, Departed(net, k, j), k, tr.link, tr.msg);
  }

  lemma FinishKeeps(topo: Topology, net: Net, k: NodeId, j: nat)
    requires Inv(topo, net) && FinishEnabled(net, k, j)
    ensures Inv(topo, FinishStep(net, k, j))
  {
    var tr := At(net.through, k)[j];
    UsedOk(topo, net.L, k, tr.hdr, tr.dest);
    NewLedger(topo, net, Used(net.L, k, tr.hdr, tr.dest));
    DepartKeeps(topo, net.(L := Used(net.L, k, tr.hdr, tr.dest)), k, j);
  }

  lemma OpenKeeps(topo: Topology, net: Net, k: NodeId)
    requires Inv(topo, net)
    ensures Inv(topo, Step(topo, net, Open(k)))
  {
    if k in net.L.tabs && CanAllocate(net.L.tabs[k]) {
      OpenedOk(topo, net.L, k);
      NewLedger(topo, net, Opened(net.L, k));
    }
  }

  lemma FreeKeeps(topo: Topology, net: Net, k: NodeId, port: Word)
    requires Inv(topo, net)
    ensures Inv(topo, Step(topo, net, Event.Free(k, port)))
  {
    if k in net.L.tabs && HasEntry(net.L.tabs[k], Index(port)) {
      ReleasedOk(topo, net.L, k, port);
      NewLedger(topo, net, Released(net.L, k, port));
    }
  }

  lemma AttachKeeps(topo: Topology, net: Net, e: End, port: Word)
    requires Inv(topo, net)
    ensures Inv(topo, Step(topo, net, Attach(e, port)))
  {
    if MayAttach(topo, net.L, e, port) {
      AttachedOk(topo, net.L, e, port);
      NewLedger(topo, net, Attached(topo, net.L, e, port));
    }
  }

  lemma PostKeeps(topo: Topology, net: Net, k: NodeId, m: Msg)
    requires Inv(topo, net)
    ensures Inv(topo, Step(topo, net, Post(k, m)))
  {
    if MsgOk(net.L, m, k, k) && Issued(net.L, m) { BufferedOk(topo, net, k, m); }
  }

  lemma LoseKeeps(topo: Topology, net: Net, e: End, j: nat)
    requires Inv(topo, net)
    ensures Inv(topo, Step(topo, net, Lose(e, j)))
  {
    if j < |At(net.wires, e)| {
      CutIsSubset(At(net.wires, e), j);
      DropKeeps(topo, net, Step(topo, net, Lose(e, j)));
    }
  }

  lemma GiveUpKeeps(topo: Topology, net: Net, k: NodeId, j: nat)
    requires Inv(topo, net)
    ensures Inv(topo, Step(topo, net, GiveUp(k, j)))
  {
    if j < |At(net.waiting, k)| {
      CutIsSubset(At(net.waiting, k), j);
      DropKeeps(topo, net, Step(topo, net, GiveUp(k, j)));
    }
  }

  lemma PutStepKeeps(topo: Topology, net: Net, k: NodeId, j: nat, up: bool)
    requires Inv(topo, net)
    ensures Inv(topo, Step(topo, net, Event.Put(k, j, up)))
  {
    if PutEnabled(net, k, j) { PutKeeps(topo, net, k, j, up); }
  }

  lemma ReceivedKeeps(topo: Topology, net: Net, e: End, up: bool, direct: bool, net': Net)
    requires Wired(topo) && Inv(topo, net)
    requires net' == if ReceiveEnabled(topo, net, e, up, direct) then ReceiveStep(topo, net, e, up, direct) else net
    ensures Inv(topo, net')
  {
    if ReceiveEnabled(topo, net, e, up, direct) { ReceiveKeeps(topo, net, e, up, direct); }
  }

  lemma ReceiveStepKeeps(topo: Topology, net: Net, e: End, up: bool, direct: bool)
    requires Wired(topo) && Inv(topo, net)
    ensures Inv(topo, Step(topo, net, Receive(e, up, direct)))
  {
    ReceivedKeeps(topo, net, e, up, direct, Step(topo, net, Receive(e, up, direct)));
  }

  lemma SendStepKeeps(topo: Topology, net: Net, k: NodeId, j: nat)
    requires Inv(topo, net)
    ensures Inv(topo, Step(topo, net, Send(k, j)))
  {
    if SendEnabled(net, k, j) { SendKeeps(topo, net, k, j); }
  }

  lemma ForwardStepKeeps(topo: Topology, net: Net, k: NodeId, j: nat, tx: Word)
    requires Inv(topo, net)
    ensures Inv(topo, Step(topo, net, Forward(k, j, tx)))
  {
    if ForwardEnabled(net, k, j) { ForwardKeeps(topo, net, k, j, tx); }
  }

  lemma FinishStepKeeps(topo: Topology, net: Net, k: NodeId, j: nat)
    requires Inv(topo, net)
    ensures Inv(topo, Step(topo, net, Finish(k, j)))
  {
    if FinishEnabled(net, k, j) { FinishKeeps(topo, net, k, j); }
  }

  lemma AbandonKeeps(topo: Topology, net: Net, k: NodeId, j: nat)
    requires Inv(topo, net)
    ensures Inv(topo, Step(topo, net, Abandon(k, j)))
  {
    if j < |At(net.through, k)| { DepartKeeps(topo, net, k, j); }
  }

  lemma StepKeeps(topo: Topology, net: Net, ev: Event)
    requires Wired(topo) && Inv(topo, net)
    ensures Inv(topo, Step(topo, net, ev))
  {
    match ev
    case Open(k) => OpenKeeps(topo, net, k);
    case Free(k, port) => FreeKeeps(topo, net, k, port);
    case Attach(e, port) => AttachKeeps(topo, net, e, port);
    case Post(k, m) => PostKeeps(topo, net, k, m);
    case Put(k, j, up) => PutStepKeeps(topo, net, k, j, up);
    case Receive(e, up, direct) => ReceiveStepKeeps(topo, net, e, up, direct);
    case Send(k, j) => SendStepKeeps(topo, net, k, j);
    case Forward(k, j, tx) => ForwardStepKeeps(topo, net, k, j, tx);
    case Finish(k, j) => FinishStepKeeps(topo, net, k, j);
    case Abandon(k, j) => AbandonKeeps(topo, net, k, j);
    case Lose(e, j) => LoseKeeps(topo, net, e, j);
    case GiveUp(k, j) => GiveUpKeeps(topo, net, k, j);
  }

  lemma {:induction false} RunKeeps(topo: Topology, net: Net, evs: seq<Event>)
    requires Wired(topo) && Inv(topo, net)
    ensures Inv(topo, Run(topo, net, evs))
    decreases |evs|
  {
    if evs != [] {
      StepKeeps(topo, net, evs[0]);
      RunKeeps(topo, Step(topo, net, evs[0]), evs[1..]);
    }
  }

  // ---- Descriptors keep their meaning ----

  lemma DealtLedger(topo: Topology, net: Net, L': Ledger, k: NodeId, e: End, m: Msg, m': Msg, fate: Fate)
    requires fate.Claimed? ==> k in L'.tabs && HasEntry(L'.tabs[k], Index(m.hdr.Dest)) && m'.hdr == m.hdr
    ensures Dealt(topo, net, L', k, e, m, m', fate).L == L'
  {
  }

  lemma PutExtends(topo: Topology, net: Net, k: NodeId, j: nat, up: bool)
    requires Inv(topo, net) && PutEnabled(net, k, j)
    ensures Extends(net.L, PutStep(topo, net, k, j, up).L)
  {
    var m := At(net.waiting, k)[j];
    var (t', hdr', fate) := PutMsg(net.L.tabs[k], m.hdr, up);
    PutMsgRest(net.L.tabs[k], m.hdr, up);
    AfterOk(topo, net.L, k, m.hdr, t', hdr', fate);
    DealtLedger(topo, net.(waiting := net.waiting[k := Cut(At(net.waiting, k), j)]),
                After(net.L, k, m.hdr, t', fate), k, End(k, 0), m, Onward(net.L, k, m, hdr'), fate);
  }

  lemma ReceiveExtends(topo: Topology, net: Net, e: End, up: bool, direct: bool)
    requires Wired(topo) && Inv(topo, net) && ReceiveEnabled(topo, net, e, up, direct)
    ensures Extends(net.L, ReceiveStep(topo, net, e, up, direct).L)
  {
    var m, at := At(net.wires, e)[0], topo[e];
    assert WireOk(topo, net, e) && m in At(net.wires, e);
    RehomedOk(topo, net.L, at, m);
    AcceptRest(net.L.tabs[at.node], at.link, m.hdr, up, direct);
    var (t', hdr', fate) := Accept(net.L.tabs[at.node], at.link, m.hdr, up, direct);
    var (L1, hdr1) := Installed(net.L, at, m.hdr, m.from);
    var m1 := Rehomed(net.L, at.node, m, hdr1);
    AfterOk(topo, L1, at.node, hdr1, t', hdr', fate);
    DealtLedger(topo, net.(wires := net.wires[e := At(net.wires, e)[1..]]),
                After(L1, at.node, hdr1, t', fate), at.node, e, m1, Onward(L1, at.node, m1, hdr'), fate);
  }

  lemma PortExtends(topo: Topology, net: Net, ev: Event)
    requires Inv(topo, net) && (ev.Open? || ev.Free? || ev.Attach?)
    ensures Extends(net.L, Step(topo, net, ev).L)
  {
    match ev
    case Open(k) => if k in net.L.tabs && CanAllocate(net.L.tabs[k]) { OpenedOk(topo, net.L, k); }
    case Free(k, port) =>
      if k in net.L.tabs && HasEntry(net.L.tabs[k], Index(port)) { ReleasedOk(topo, net.L, k, port); }
    case Attach(e, port) => if MayAttach(topo, net.L, e, port) { AttachedOk(topo, net.L, e, port); }
  }

  lemma FinishExtends(topo: Topology, net: Net, k: NodeId, j: nat)
    requires Inv(topo, net) && FinishEnabled(net, k, j)
    ensures Extends(net.L, FinishStep(net, k, j).L)
  {
    UsedOk(topo, net.L, k, At(net.through, k)[j].hdr, At(net.through, k)[j].dest);
  }

  lemma ReceivedExtends(topo: Topology, net: Net, e: End, up: bool, direct: bool, net': Net)
    requires Wired(topo) && Inv(topo, net)
    requires net' == if ReceiveEnabled(topo, net, e, up, direct) then ReceiveStep(topo, net, e, up, direct) else net
    ensures Extends(net.L, net'.L)
  {
    if ReceiveEnabled(topo, net, e, up, direct) { ReceiveExtends(topo, net, e, up, direct); }
  }

  lemma ReceiveStepExtends(topo: Topology, net: Net, e: End, up: bool, direct: bool)
    requires Wired(topo) && Inv(topo, net)
    ensures Extends(net.L, Step(topo, net, Receive(e, up, direct)).L)
  {
    ReceivedExtends(topo, net, e, up, direct, Step(topo, net, Receive(e, up, direct)));
  }

  lemma PutStepExtends(topo: Topology, net: Net, k: NodeId, j: nat, up: bool)
    requires Inv(topo, net)
    ensures Extends(net.L, Step(topo, net, Event.Put(k, j, up)).L)
  {
    if PutEnabled(net, k, j) { PutExtends(topo, net, k, j, up); }
  }

  lemma FinishStepExtends(topo: Topology, net: Net, k: NodeId, j: nat)
    requires Inv(topo, net)
    ensures Extends(net.L, Step(topo, net, Finish(k, j)).L)
  {
    if FinishEnabled(net, k, j) { FinishExtends(topo, net, k, j); }
  }

  lemma OtherExtends(topo: Topology, net: Net, ev: Event)
    requires !(ev.Open? || ev.Free? || ev.Attach? || ev.Put? || ev.Receive? || ev.Finish?)
    ensures Step(topo, net, ev).L == net.L
  {
  }

  lemma StepExtends(topo: Topology, net: Net, ev: Event)
    requires Wired(topo) && Inv(topo, net)
    ensures Extends(net.L, Step(topo, net, ev).L)
  {
    match ev
    case Put(k, j, up) => PutStepExtends(topo, net, k, j, up);
    case Receive(e, up, direct) => ReceiveStepExtends(topo, net, e, up, direct);
    case Finish(k, j) => FinishStepExtends(topo, net, k, j);
    case _ =>
      if ev.Open? || ev.Free? || ev.Attach? {
        PortExtends(topo, net, ev);
      } else {
        OtherExtends(topo, net, ev);
      }
  }

  /** Over every run, whatever was issued stands for what it was issued for. */
  lemma {:induction false} RunExtends(topo: Topology, net: Net, evs: seq<Event>)
    requires Wired(topo) && Inv(topo, net)
    ensures Extends(net.L, Run(topo, net, evs).L)
    decreases |evs|
  {
    if evs != [] {
      var net1 := Step(topo, net, evs[0]);
      StepExtends(topo, net, evs[0]);
      StepKeeps(topo, net, evs[0]);
      RunExtends(topo, net1, evs[1..]);
      assert Run(topo, net, evs) == Run(topo, net1, evs[1..]);
    }
  }

  /** A network that has just been started: free tables, nothing sent yet. */
  ghost predicate Started(net: Net)
  {
    && AllValid(net.L.tabs)
    && (forall h :: Has(net.L.tabs, h) ==> IsBlank(Ent(net.L.tabs, h)))
    && net.L == Ledger(net.L.tabs, map[], map[], map[], map[])
    && net == Net(net.L, map[], map[], map[], [])
  }

  lemma StartedOk(topo: Topology, net: Net)
    requires Started(net)
    ensures Inv(topo, net)
  {
  }

  lemma RunsFromStart(topo: Topology, net: Net, evs: seq<Event>, net': Net)
    requires Wired(topo) && Started(net) && net' == Run(topo, net, evs)
    ensures Inv(topo, net')
  {
    StartedOk(topo, net);
    RunKeeps(topo, net, evs);
  }

  /**
   Over every run, whatever is freed, lost, buffered or reallocated meanwhile:
   short of 256 frees of an entry it went through since the descriptor it used
   was issued, a message that is handed over is in the hands of what Dest called
   for when LinkMsg last read it from an entry, or when it was made.  So it is
   misdelivered if and only if that is not what its sender named; and only a
   message too large for the single buffer can be.
   */
  lemma NeverMisdelivered(topo: Topology, net: Net, evs: seq<Event>, a: Arrival)
    requires Wired(topo) && Inv(topo, net) && a in Run(topo, net, evs).log
    ensures a.msg.gap % 0x100 == 0
    ensures var home := Run(topo, net, evs).L.home;
            a.msg.gap < 0x100 ==> a.msg.via in home && a.at == home[a.msg.via]
    ensures a.msg.gap < 0x100 && a.msg.hdr.size <= SINGLE_BUFF_SIZE ==> a.at == a.msg.intended
  {
    RunKeeps(topo, net, evs);
    assert ArrivalOk(Run(topo, net, evs).L, a);
    SmallMultiple(a.msg.gap);
  }

  lemma SmallMultiple(g: nat)
    ensures g % 0x100 == 0 && g < 0x100 ==> g == 0
  {
  }
}
