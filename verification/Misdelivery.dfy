/** A run in which a large message is handed to a port that its sender did not name. */
module Misdeliveries {
  import opened Words
  import opened Ports
  import opened Routing
  import opened Journeys
  import opened Ledgers
  import opened Networks

  // ---- single events ----

  /** LinkMsg hands the next message of a wire to a local port with a receiver. */
  ghost predicate HandsOver(topo: Topology, net: Net, e: End)
  {
    && ReceiveEnabled(topo, net, e, true, true)
    && var m, t := At(net.wires, e)[0], net.L.tabs[topo[e].node];
       IsLive(t, m.hdr.Dest) && Entry(t, Index(m.hdr.Dest)).Type.TLocal?
  }

  /** The ledger once a message has been handed over: its reply port has a surrogate, its entry was aged. */
  ghost function LedgerAfter(topo: Topology, net: Net, e: End): (L': Ledger)
    requires HandsOver(topo, net, e)
  {
    var m, at := At(net.wires, e)[0], topo[e];
    InstalledTables(net.L, at, m.hdr, m.from);
    var L1 := Installed(net.L, at, m.hdr, m.from).0;
    WithTab(L1, at.node, Aged(L1.tabs[at.node], m.hdr.Dest))
  }

  /** The network then. */
  ghost function HandedOver(topo: Topology, net: Net, e: End): Net
    requires HandsOver(topo, net, e)
  {
    var m, at, L' := At(net.wires, e)[0], topo[e], LedgerAfter(topo, net, e);
    var (L1, hdr1) := Installed(net.L, at, m.hdr, m.from);
    var m' := Onward(L1, at.node, Rehomed(net.L, at.node, m, hdr1), hdr1);
    net.(L := L', wires := net.wires[e := At(net.wires, e)[1..]],
         log := net.log + [Arrival(m', Current(L', Hop(at.node, Index(m.hdr.Dest))))])
  }

  lemma HandsOverIs(topo: Topology, net: Net, e: End)
    requires HandsOver(topo, net, e)
    ensures Step(topo, net, Receive(e, true, true)) == HandedOver(topo, net, e)
  {
    var m, at := At(net.wires, e)[0], topo[e];
    AcceptsLocal(net.L.tabs[at.node], at.link, m.hdr);
    AcceptRest(net.L.tabs[at.node], at.link, m.hdr, true, true);
    InstalledTables(net.L, at, m.hdr, m.from);
  }

  lemma LedgerAfterFacts(topo: Topology, net: Net, e: End)
    requires HandsOver(topo, net, e)
    ensures var m, at, L' := At(net.wires, e)[0], topo[e], LedgerAfter(topo, net, e);
            var (t', hdr') := InstallReply(net.L.tabs[at.node], at.link, m.hdr);
            && L'.gens == net.L.gens && HasEntry(t', Index(m.hdr.Dest))
            && L'.tabs == net.L.tabs[at.node := Aged(t', m.hdr.Dest)]
  {
    var m, at := At(net.wires, e)[0], topo[e];
    InstalledTables(net.L, at, m.hdr, m.from);
  }

  lemma IndexTwice(p: Word)
    ensures Index(Index(p)) == Index(p) && Index(p) != MIN_INT
  {
  }

  lemma NewPortReuses(t: Table)
    requires CanAllocate(t) && t.freeq != MIN_INT
    ensures Index(NewPort(t).1) == Index(t.freeq) && HasEntry(NewPort(t).0, Index(t.freeq))
  {
  }

  /** A reply surrogate is made of the entry that was freed last. */
  lemma ReusesFreed(t: Table, l: Byte, hdr: MsgHdr, i: nat)
    requires MayInstall(t, hdr) && hdr.Reply != NULL_PORT && t.freeq != MIN_INT && Index(t.freeq) == i
    ensures var (t', hdr') := InstallReply(t, l, hdr);
            && HasEntry(t', i) && Entry(t', i).TxId == hdr.Reply && Index(hdr'.Reply) == i
  {
    NewPortReuses(t);
    InstallReplyFacts(t, l, hdr);
  }

  lemma FreesEntry(t: Table, port: Word)
    requires HasEntry(t, Index(port)) && IsLive(t, port) && !Entry(t, Index(port)).Type.TPermanent?
    ensures FreePort(t, port).1.ErrNull? && FreePort(t, port).0.freeq == Index(port)
    ensures HasEntry(FreePort(t, port).0, Index(port))
  {
  }

  // ---- how any message on its way can be caught ----

  /** The j-th message in transit at node k goes out on link l, by an entry that may be freed. */
  ghost predicate Passing(net: Net, k: NodeId, j: nat, l: Byte)
  {
    && ForwardEnabled(net, k, j)
    && var c := At(net.through, k)[j];
       && c.link == l && c.msg.hdr.Reply == NULL_PORT
       && IsLive(net.L.tabs[k], c.msg.hdr.Dest)
       && !Entry(net.L.tabs[k], Index(c.msg.hdr.Dest)).Type.TLocal?
       && !Entry(net.L.tabs[k], Index(c.msg.hdr.Dest)).Type.TPermanent?
  }

  /** The i-th message that waits for _PutMsg there goes by the same entry and will use it up. */
  ghost predicate Sharing(net: Net, k: NodeId, i: nat, j: nat)
    requires j < |At(net.through, k)| && At(net.through, k)[j].Claim?
  {
    && i < |At(net.waiting, k)|
    && At(net.waiting, k)[i].hdr.Dest == At(net.through, k)[j].msg.hdr.Dest
    && At(net.waiting, k)[i].hdr.Dest != NULL_PORT && !At(net.waiting, k)[i].hdr.preserve
  }

  /**
   Node k = topo[e].node is passing a message on to the neighbour at end e while
   another waits to go by the same entry, and the next message to come from that
   neighbour names a local port there as its reply port.
   */
  ghost predicate Trap(topo: Topology, net: Net, e: End, i: nat, j: nat)
  {
    && e in topo && topo[e] in topo && topo[topo[e]] == e && topo[e].node != e.node
    && var k := topo[e].node;
       && Passing(net, k, j, topo[e].link) && Sharing(net, k, i, j)
       && HandsOver(topo, net, e) && e.node in net.L.tabs
       && At(net.wires, topo[e]) == [] && Idle(net, e.node, topo[e])
       && var c, next := At(net.through, k)[j], At(net.wires, e)[0];
          && Index(next.hdr.Dest) != Index(c.msg.hdr.Dest)
          && next.hdr.Reply != NULL_PORT
          && Valid(net.L.tabs[e.node]) && IsLive(net.L.tabs[e.node], next.hdr.Reply)
          && Entry(net.L.tabs[e.node], Index(next.hdr.Reply)).Type.TLocal?
  }

  /** At most entries of node k were freed, and each at most once. */
  ghost predicate FreedOnce(L: Ledger, L': Ledger, k: NodeId)
  {
    forall h: Hop :: Gen(L', h) == Gen(L, h) || (h.node == k && Gen(L', h) == Gen(L, h) + 1)
  }

  /** Another port stays as it was. */
  lemma FreesNoOther(t: Table, dest: Word, port: Word)
    requires Valid(t) && HasEntry(t, Index(dest)) && IsLive(t, port) && Index(port) != Index(dest)
    ensures var t' := FreePort(t, dest).0;
            Valid(t') && IsLive(t', port) && Entry(t', Index(port)) == Entry(t, Index(port))
  {
    FreePortFrees(t, dest);
  }

  /** The table, when the entry of dest is used up: another port and its message are not concerned. */
  lemma UsesOne(t: Table, dest: Word, hdr: MsgHdr)
    requires MayInstall(t, hdr) && IsLive(t, dest) && !Entry(t, Index(dest)).Type.TPermanent?
    requires IsLive(t, hdr.Dest) && Entry(t, Index(hdr.Dest)).Type.TLocal? && Index(hdr.Dest) != Index(dest)
    ensures var (t', rc) := FreePort(Aged(t, dest), dest);
            && rc.ErrNull? && t'.freeq == Index(dest) && HasEntry(t', Index(dest)) && MayInstall(t', hdr)
            && IsLive(t', hdr.Dest) && Entry(t', Index(hdr.Dest)).Type.TLocal?
  {
    AgedFacts(t, dest);
    FreesEntry(Aged(t, dest), dest);
    FreesNoOther(Aged(t, dest), dest, hdr.Dest);
    IndexTwice(dest);
    RoomAgain(FreePort(Aged(t, dest), dest).0, hdr);
  }

  /** There is always room when an entry was freed last. */
  lemma RoomAgain(t: Table, hdr: MsgHdr)
    requires Valid(t) && t.freeq != MIN_INT && HasEntry(t, Index(t.freeq)) && HasEntry(t, Index(hdr.Dest))
    ensures MayInstall(t, hdr)
  {
  }

  /** The table of node k once the waiting message has gone by the entry of dest. */
  ghost function UsedUpBy(t: Table, dest: Word): Table
    requires HasEntry(t, Index(dest))
  {
    FreePort(Aged(t, dest), dest).0
  }

  /** The waiting message has gone by the entry of dest and is queued for the link. */
  ghost predicate WentFirst(net: Net, net': Net, k: NodeId, dest: Word, tr: Transit)
    requires k in net.L.tabs && HasEntry(net.L.tabs[k], Index(dest))
  {
    var h := Hop(k, Index(dest));
    && net'.L.tabs == net.L.tabs[k := UsedUpBy(net.L.tabs[k], dest)]
    && net'.L.gens == net.L.gens[h := Gen(net.L, h) + 1]
    && net'.L.home == net.L.home && net'.L.dist == net.L.dist && net'.wires == net.wires
    && tr.Queued? && net'.through == net.through[k := At(net.through, k) + [tr]]
  }

  lemma PutQueues(topo: Topology, net: Net, k: NodeId, i: nat, j: nat, l: Byte) returns (tr: Transit)
    requires Passing(net, k, j, l) && Sharing(net, k, i, j)
    ensures WentFirst(net, Step(topo, net, Event.Put(k, i, true)), k, At(net.through, k)[j].msg.hdr.Dest, tr)
  {
    var w, t := At(net.waiting, k)[i], net.L.tabs[k];
    FreesEntry(Aged(t, w.hdr.Dest), w.hdr.Dest);
    tr := Queued(Entry(t, Index(w.hdr.Dest)).Link,
                 Onward(net.L, k, w, w.hdr.(Dest := Entry(t, Index(w.hdr.Dest)).TxId)));
    assert Step(topo, net, Event.Put(k, i, true)).through == net.through[k := At(net.through, k) + [tr]];
  }

  /** The transits at other nodes are the same, and the j-th of node k is where it was. */
  ghost predicate StillPassing(net: Net, net': Net, k: NodeId, j: nat)
  {
    && j < |At(net.through, k)| <= |At(net'.through, k)| && At(net'.through, k)[j] == At(net.through, k)[j]
    && forall n: NodeId :: n != k ==> At(net'.through, n) == At(net.through, n)
  }

  /**
   The entry of the message in transit was freed last, the port that hdr is for
   is there as before, and LinkMsg has no new message in hand.
   */
  ghost predicate Loosed(net: Net, net': Net, k: NodeId, hdr: MsgHdr, j: nat)
    requires j < |At(net.through, k)| && At(net.through, k)[j].Claim?
  {
    var i := Index(At(net.through, k)[j].msg.hdr.Dest);
    && k in net'.L.tabs && net'.L.tabs == net.L.tabs[k := net'.L.tabs[k]]
    && net'.L.tabs[k].freeq == i && HasEntry(net'.L.tabs[k], i) && MayInstall(net'.L.tabs[k], hdr)
    && IsLive(net'.L.tabs[k], hdr.Dest) && Entry(net'.L.tabs[k], Index(hdr.Dest)).Type.TLocal?
    && net'.L.home == net.L.home && net'.L.dist == net.L.dist && net'.wires == net.wires
    && StillPassing(net, net', k, j)
    && (forall tr :: tr in At(net'.through, k) ==> tr in At(net.through, k) || tr.Queued?)
    && FreedOnce(net.L, net'.L, k)
  }

  lemma OnceFreed(L: Ledger, L': Ledger, h: Hop)
    requires L'.gens == L.gens[h := Gen(L, h) + 1]
    ensures FreedOnce(L, L', h.node)
  {
  }

  lemma Loosens(net: Net, net': Net, k: NodeId, hdr: MsgHdr, j: nat, l: Byte, tr: Transit)
    requires Passing(net, k, j, l) && MayInstall(net.L.tabs[k], hdr)
    requires IsLive(net.L.tabs[k], hdr.Dest) && Entry(net.L.tabs[k], Index(hdr.Dest)).Type.TLocal?
    requires var dest := At(net.through, k)[j].msg.hdr.Dest;
             Index(hdr.Dest) != Index(dest) && WentFirst(net, net', k, dest, tr)
    ensures Loosed(net, net', k, hdr, j)
  {
    var dest := At(net.through, k)[j].msg.hdr.Dest;
    OnceFreed(net.L, net'.L, Hop(k, Index(dest)));
    UsesOne(net.L.tabs[k], dest, hdr);
  }

  /** The next message is still to be handed over. */
  lemma HandsOverStill(topo: Topology, net: Net, net': Net, e: End, j: nat)
    requires HandsOver(topo, net, e)
    requires j < |At(net.through, topo[e].node)| && At(net.through, topo[e].node)[j].Claim?
    requires Loosed(net, net', topo[e].node, At(net.wires, e)[0].hdr, j)
    ensures HandsOver(topo, net', e)
  {
    AcceptsLocal(net'.L.tabs[topo[e].node], topo[e].link, At(net.wires, e)[0].hdr);
  }

  /** A message is handed over whose reply surrogate is made of the entry freed last. */
  lemma HandsOverFreed(topo: Topology, net: Net, e: End, i: nat)
    requires HandsOver(topo, net, e) && At(net.wires, e)[0].hdr.Reply != NULL_PORT
    requires var t := net.L.tabs[topo[e].node]; t.freeq != MIN_INT && Index(t.freeq) == i
    ensures var k, next, net' := topo[e].node, At(net.wires, e)[0], Step(topo, net, Receive(e, true, true));
            && k in net'.L.tabs && HasEntry(net'.L.tabs[k], i) && Entry(net'.L.tabs[k], i).TxId == next.hdr.Reply
            && net'.through == net.through && net'.wires == net.wires[e := At(net.wires, e)[1..]]
            && net'.L.gens == net.L.gens && net'.L.tabs == net.L.tabs[k := net'.L.tabs[k]]
  {
    var m, at := At(net.wires, e)[0], topo[e];
    HandsOverIs(topo, net, e);
    LedgerAfterFacts(topo, net, e);
    ReusesFreed(net.L.tabs[at.node], at.link, m.hdr, i);
  }

  /** The entry of the message in transit now has the reply port of the other. */
  ghost predicate Caught(topo: Topology, net: Net, net': Net, e: End, j: nat)
    requires e in topo && |At(net.wires, e)| > 0
    requires j < |At(net.through, topo[e].node)| && At(net.through, topo[e].node)[j].Claim?
  {
    var k, next := topo[e].node, At(net.wires, e)[0];
    var i := Index(At(net.through, k)[j].msg.hdr.Dest);
    && k in net'.L.tabs && HasEntry(net'.L.tabs[k], i) && Entry(net'.L.tabs[k], i).TxId == next.hdr.Reply
    && !Entry(net'.L.tabs[k], i).Type.TLocal?
    && StillPassing(net, net', k, j) && At(net'.wires, topo[e]) == At(net.wires, topo[e])
    && e.node in net'.L.tabs && e.node in net.L.tabs && net'.L.tabs[e.node] == net.L.tabs[e.node]
    && FreedOnce(net.L, net'.L, k)
  }

  lemma TrapShuts(topo: Topology, net: Net, net1: Net, net2: Net, e: End, j: nat)
    requires e in topo && topo[e].node != e.node && topo[e] != e && e.node in net.L.tabs && |At(net.wires, e)| > 0
    requires j < |At(net.through, topo[e].node)| && At(net.through, topo[e].node)[j].Claim?
    requires Loosed(net, net1, topo[e].node, At(net.wires, e)[0].hdr, j)
    requires net2.through == net1.through && net2.L.gens == net1.L.gens
    requires var k := topo[e].node;
             var i := Index(At(net.through, k)[j].msg.hdr.Dest);
             && net2.wires == net1.wires[e := At(net1.wires, e)[1..]]
             && k in net2.L.tabs && net2.L.tabs == net1.L.tabs[k := net2.L.tabs[k]]
             && HasEntry(net2.L.tabs[k], i) && Entry(net2.L.tabs[k], i).TxId == At(net.wires, e)[0].hdr.Reply
             && !Entry(net2.L.tabs[k], i).Type.TLocal?
    ensures Caught(topo, net, net2, e, j)
  {
  }

  /** The next message is received: its reply surrogate is made of the entry. */
  lemma TrapSet(topo: Topology, net: Net, net1: Net, net2: Net, e: End, j: nat)
    requires e in topo && topo[e].node != e.node && topo[e] != e && e.node in net.L.tabs && |At(net.wires, e)| > 0
    requires At(net.wires, e)[0].hdr.Reply != NULL_PORT
    requires j < |At(net.through, topo[e].node)| && At(net.through, topo[e].node)[j].Claim?
    requires Loosed(net, net1, topo[e].node, At(net.wires, e)[0].hdr, j) && HandsOver(topo, net1, e)
    requires net2 == Step(topo, net1, Receive(e, true, true))
    ensures Caught(topo, net, net2, e, j)
  {
    var dest := At(net.through, topo[e].node)[j].msg.hdr.Dest;
    IndexTwice(dest);
    HandsOverFreed(topo, net1, e, Index(dest));
    TrapShuts(topo, net, net1, net2, e, j);
  }

  /** The message goes on, to the reply port. */
  lemma TrapSprung(topo: Topology, net: Net, k: NodeId, j: nat, at: End, remote: Word)
    requires ForwardEnabled(net, k, j) && at == End(k, At(net.through, k)[j].link) && At(net.wires, at) == []
    requires var e := Entry(net.L.tabs[k], Index(At(net.through, k)[j].msg.hdr.Dest));
             e.TxId == remote && !e.Type.TLocal?
    ensures var c, net' := At(net.through, k)[j].msg, Step(topo, net, Forward(k, j, NULL_PORT));
            && net'.L == net.L && (forall n: NodeId :: n != k ==> At(net'.through, n) == At(net.through, n))
            && |At(net'.wires, at)| == 1
            && At(net'.wires, at)[0].hdr == c.hdr.(Dest := remote) && At(net'.wires, at)[0].intended == c.intended
  {
  }

  /** And is handed over there. */
  lemma TrapClosed(topo: Topology, net: Net, at: End, m: Msg)
    requires at in topo && topo[at].node in net.L.tabs && At(net.wires, at) == [m] && m.hdr.Reply == NULL_PORT
    requires Idle(net, topo[at].node, at)
    requires var t := net.L.tabs[topo[at].node];
             Valid(t) && IsLive(t, m.hdr.Dest) && Entry(t, Index(m.hdr.Dest)).Type.TLocal?
    ensures var net' := Step(topo, net, Receive(at, true, true));
            && |net'.log| == |net.log| + 1
            && net'.log[|net.log|].msg.intended == m.intended
            && net'.log[|net.log|].at == Current(net.L, Hop(topo[at].node, Index(m.hdr.Dest)))
            && net'.L.gens == net.L.gens
  {
    AcceptsLocal(net.L.tabs[topo[at].node], topo[at].link, m.hdr);
    assert HandsOver(topo, net, at);
    HandsOverIs(topo, net, at);
    LedgerAfterFacts(topo, net, at);
  }

  ghost function TrapEvents(topo: Topology, e: End, i: nat, j: nat): seq<Event>
    requires e in topo
  {
    [Event.Put(topo[e].node, i, true), Receive(e, true, true), Forward(topo[e].node, j, NULL_PORT),
     Receive(topo[e], true, true)]
  }

  /** The last two events. */
  lemma TrapShut(topo: Topology, net: Net, net2: Net, net': Net, e: End, i: nat, j: nat) returns (a: Arrival)
    requires Trap(topo, net, e, i, j) && Caught(topo, net, net2, e, j)
    requires net' == Step(topo, Step(topo, net2, Forward(topo[e].node, j, NULL_PORT)), Receive(topo[e], true, true))
    ensures a in net'.log && FreedOnce(net.L, net'.L, topo[e].node)
    ensures a.at == Current(net.L, Hop(e.node, Index(At(net.wires, e)[0].hdr.Reply)))
    ensures a.msg.intended == At(net.through, topo[e].node)[j].msg.intended
  {
    var k, at := topo[e].node, topo[e];
    TrapSprung(topo, net2, k, j, at, At(net.wires, e)[0].hdr.Reply);
    var net3 := Step(topo, net2, Forward(k, j, NULL_PORT));
    assert At(net3.through, e.node) == At(net.through, e.node);
    TrapClosed(topo, net3, at, At(net3.wires, at)[0]);
    a := net'.log[|net'.log| - 1];
  }

  lemma RunNext(topo: Topology, net: Net, net': Net, evs: seq<Event>)
    requires evs != [] && net' == Step(topo, net, evs[0])
    ensures Networks.Run(topo, net, evs) == Networks.Run(topo, net', evs[1..])
  {
  }

  lemma RunFour(topo: Topology, net: Net, ev1: Event, net1: Net, ev2: Event, net2: Net, ev3: Event, ev4: Event)
    returns (evs: seq<Event>, net4: Net)
    requires net1 == Step(topo, net, ev1) && net2 == Step(topo, net1, ev2)
    ensures evs == [ev1, ev2, ev3, ev4] && net4 == Networks.Run(topo, net, evs)
    ensures net4 == Step(topo, Step(topo, net2, ev3), ev4)
  {
    var net3 := Step(topo, net2, ev3);
    evs, net4 := [ev1, ev2, ev3, ev4], Step(topo, net3, ev4);
    RunNext(topo, net, net1, evs);
    RunNext(topo, net1, net2, [ev2, ev3, ev4]);
    RunNext(topo, net2, net3, [ev3, ev4]);
    RunNext(topo, net3, net4, [ev4]);
    assert evs[1..] == [ev2, ev3, ev4] && [ev2, ev3, ev4][1..] == [ev3, ev4];
    assert [ev3, ev4][1..] == [ev4] && [ev4][1..] == [];
  }

  /**
   Whenever a message is caught like that, there are four events after which it
   is in the hands of the port that the next message gave as its reply port: the
   waiting message uses up the entry and queues for the link, the next message is
   received, the one in transit is sent on, and it arrives.
   */
  lemma Misdelivers(topo: Topology, net: Net, e: End, i: nat, j: nat)
    returns (evs: seq<Event>, net': Net, a: Arrival)
    requires Trap(topo, net, e, i, j)
    ensures evs == TrapEvents(topo, e, i, j) && net' == Networks.Run(topo, net, evs)
    ensures a in net'.log && FreedOnce(net.L, net'.L, topo[e].node)
    ensures a.at == Current(net.L, Hop(e.node, Index(At(net.wires, e)[0].hdr.Reply)))
    ensures a.msg.intended == At(net.through, topo[e].node)[j].msg.intended
  {
    var k := topo[e].node;
    var net1 := Step(topo, net, Event.Put(k, i, true));
    var net2 := Step(topo, net1, Receive(e, true, true));
    var tr := PutQueues(topo, net, k, i, j, topo[e].link);
    Loosens(net, net1, k, At(net.wires, e)[0].hdr, j, topo[e].link, tr);
    HandsOverStill(topo, net, net1, e, j);
    TrapSet(topo, net, net1, net2, e, j);
    evs, net' := RunFour(topo, net, Event.Put(k, i, true), net1, Receive(e, true, true), net2,
                         Forward(k, j, NULL_PORT), Receive(topo[e], true, true));
    a := TrapShut(topo, net, net2, net', e, i, j);
  }
}
