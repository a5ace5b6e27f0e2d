/**
 The events of a network do to the port tables and to the messages what the
 kernel's routines do, one after the other: _PutMsg is Routing.PutMsg, and the
 parts of LinkMsg, when nothing comes between them, are Routing.LinkMsg.
 */
module Refinements {
  import opened Lists
  import opened Words
  import opened Ports
  import opened Routing
  import opened Journeys
  import opened Ledgers
  import opened Networks
  import opened Conservation

  /** _PutMsg: its table, and, on its way out by the entry's link, its header. */
  lemma PutRefines(topo: Topology, net: Net, k: NodeId, j: nat, up: bool)
    requires PutEnabled(net, k, j)
    ensures var (t', hdr', fate) := PutMsg(net.L.tabs[k], At(net.waiting, k)[j].hdr, up);
            var net' := Step(topo, net, Event.Put(k, j, up));
            && net'.L.tabs == net.L.tabs[k := t']
            && (if fate.Forwarded? then Goes(net, net', k, fate.link, hdr') else net'.through == net.through)
  {
    var m := At(net.waiting, k)[j];
    var (t', hdr', fate) := PutMsg(net.L.tabs[k], m.hdr, up);
    PutMsgRest(net.L.tabs[k], m.hdr, up);
    AfterTable(net.L, k, m.hdr, t', hdr', fate);
    DealtPlaces(topo, net.(waiting := net.waiting[k := Cut(At(net.waiting, k), j)]),
                After(net.L, k, m.hdr, t', fate), k, End(k, 0), m, Onward(net.L, k, m, hdr'), fate);
  }

  /** A message with the given header is the last in the queue for link l. */
  predicate Goes(net: Net, net': Net, k: NodeId, l: Byte, hdr: MsgHdr)
  {
    var s, s' := At(net.through, k), At(net'.through, k);
    |s'| == |s| + 1 && s'[..|s|] == s && s'[|s|].Queued? && s'[|s|].link == l && s'[|s|].msg.hdr == hdr
  }

  /** The end of LinkMsg, on whatever the entry is by then. */
  lemma FinishRefines(topo: Topology, net: Net, k: NodeId, j: nat)
    requires FinishEnabled(net, k, j)
    ensures var tr, net' := At(net.through, k)[j], Step(topo, net, Finish(k, j));
            && net'.L.tabs == net.L.tabs[k := Consume(net.L.tabs[k], tr.hdr, tr.dest)]
            && net' == Departed(net.(L := net'.L), k, j)
  {
    UsedTable(net.L, k, At(net.through, k)[j].hdr, At(net.through, k)[j].dest);
  }

  /** LinkMsg up to where it may give way. */
  lemma ReceiveRefines(topo: Topology, net: Net, e: End, up: bool, direct: bool)
    requires ReceiveEnabled(topo, net, e, up, direct)
    ensures Step(topo, net, Receive(e, up, direct)).L.tabs == net.L.tabs[topo[e].node :=
              Accept(net.L.tabs[topo[e].node], topo[e].link, At(net.wires, e)[0].hdr, up, direct).0]
  {
    ReceivedTable(topo, net, e, up, direct, Step(topo, net, Receive(e, up, direct)));
  }

  lemma ReceivedTable(topo: Topology, net: Net, e: End, up: bool, direct: bool, net': Net)
    requires ReceiveEnabled(topo, net, e, up, direct) && net' == ReceiveStep(topo, net, e, up, direct)
    ensures net'.L.tabs == net.L.tabs[topo[e].node :=
              Accept(net.L.tabs[topo[e].node], topo[e].link, At(net.wires, e)[0].hdr, up, direct).0]
  {
    var L', m1, m2, fate := ReceiveIs(topo, net, e, up, direct);
    DealtLedger(topo, net.(wires := net.wires[e := At(net.wires, e)[1..]]), L', topo[e].node, e, m1, m2, fate);
  }

  // ---- LinkMsg as a whole ----

  /** The message with the given header has gone out on link l of node k, and LinkMsg is done with it. */
  predicate Gone(net: Net, net': Net, k: NodeId, l: Byte, hdr: MsgHdr)
  {
    var s, s' := At(net.wires, End(k, l)), At(net'.wires, End(k, l));
    && |s'| == |s| + 1 && s'[..|s|] == s && s'[|s|].hdr == hdr
    && At(net'.through, k) == At(net.through, k)
  }

  /** LinkMsg has claimed link l for message m2, whose header hdr leads to an entry of table t. */
  ghost predicate Holding(L: Ledger, k: NodeId, m: Msg, m2: Msg, t: Table, hdr: MsgHdr)
  {
    k in L.tabs && L.tabs[k] == t && HasEntry(t, Index(hdr.Dest)) && m.hdr == hdr && m2.hdr == hdr
  }

  lemma CutLast<T>(s: seq<T>, x: T)
    ensures Cut(s + [x], |s|) == s
  {
  }

  lemma SmallFinishes(topo: Topology, net: Net, k: NodeId, e: End, m: Msg, m2: Msg, l: Byte, t: Table, hdr: MsgHdr)
    requires Holding(net.L, k, m, m2, t, hdr) && hdr.size <= SINGLE_BUFF_SIZE
    ensures var net1, n := Claims(topo, net, k, e, m, m2, l), |At(net.through, k)|;
            && FinishEnabled(net1, k, n)
            && FinishStep(net1, k, n).L.tabs == net.L.tabs[k := Consume(t, hdr, hdr.Dest)]
            && Gone(net, FinishStep(net1, k, n), k, l, Readdress(t, hdr, NULL_PORT))
  {
    var net1 := Claims(topo, net, k, e, m, m2, l);
    UsedTable(net1.L, k, hdr, hdr.Dest);
    CutLast(At(net.through, k), Sending(l, e, hdr, hdr.Dest));
  }

  lemma LargeFinishes(topo: Topology, net: Net, k: NodeId, e: End, m: Msg, m2: Msg, l: Byte, t: Table, hdr: MsgHdr)
    requires Holding(net.L, k, m, m2, t, hdr) && hdr.size > SINGLE_BUFF_SIZE
    ensures var net1, n := Claims(topo, net, k, e, m, m2, l), |At(net.through, k)|;
            && ForwardEnabled(net1, k, n)
            && var net2 := ForwardStep(topo, net1, k, n, NULL_PORT);
               && FinishEnabled(net2, k, n)
               && FinishStep(net2, k, n).L.tabs == net.L.tabs[k := Consume(t, hdr, hdr.Dest)]
               && Gone(net, FinishStep(net2, k, n), k, l, Readdress(t, hdr, NULL_PORT))
  {
    var net1, n := Claims(topo, net, k, e, m, m2, l), |At(net.through, k)|;
    var net2 := ForwardStep(topo, net1, k, n, NULL_PORT);
    UsedTable(net2.L, k, hdr, hdr.Dest);
    var sending := Sending(l, e, hdr, hdr.Dest);
    assert At(net2.through, k) == At(net.through, k) + [sending];
    CutLast(At(net.through, k), sending);
  }

  /** The events that one call of LinkMsg is made of, when the message goes straight on. */
  function Parts(net: Net, e: End, at: NodeId): (evs: seq<Event>)
    requires At(net.wires, e) != []
  {
    var n := |At(net.through, at)|;
    if At(net.wires, e)[0].hdr.size <= SINGLE_BUFF_SIZE then [Receive(e, true, true), Finish(at, n)]
    else [Receive(e, true, true), Forward(at, n, NULL_PORT), Finish(at, n)]
  }

  lemma RunTwo(topo: Topology, net: Net, a: Event, b: Event)
    ensures Networks.Run(topo, net, [a, b]) == Step(topo, Step(topo, net, a), b)
  {
    assert [a, b][1..] == [b] && [b][1..] == [];
    assert Networks.Run(topo, net, [a, b]) == Networks.Run(topo, Step(topo, net, a), [b]);
  }

  lemma RunThree(topo: Topology, net: Net, a: Event, b: Event, c: Event)
    ensures Networks.Run(topo, net, [a, b, c]) == Step(topo, Step(topo, Step(topo, net, a), b), c)
  {
    assert [a, b, c][1..] == [b, c];
    RunTwo(topo, Step(topo, net, a), b, c);
  }

  lemma ReceivedHolding(topo: Topology, net: Net, e: End, net1: Net) returns (L': Ledger, m1: Msg, m2: Msg)
    requires ReceiveEnabled(topo, net, e, true, true) && net1 == ReceiveStep(topo, net, e, true, true)
    requires var at := topo[e]; Accept(net.L.tabs[at.node], at.link, At(net.wires, e)[0].hdr, true, true).2.Claimed?
    ensures var at := topo[e];
            var (t, hdr, fate) := Accept(net.L.tabs[at.node], at.link, At(net.wires, e)[0].hdr, true, true);
            && L'.tabs == net.L.tabs[at.node := t] && Holding(L', at.node, m1, m2, t, hdr)
            && net1 == Claims(topo, net.(L := L', wires := net.wires[e := At(net.wires, e)[1..]]),
                              at.node, e, m1, m2, fate.link)
  {
    var fate;
    L', m1, m2, fate := ReceiveIs(topo, net, e, true, true);
  }

  /** What the parts come to after the first, which left net1. */
  lemma RestRefines(topo: Topology, net: Net, e: End, k: NodeId, m1: Msg, m2: Msg, l: Byte, t: Table, hdr: MsgHdr,
                    net1: Net, size: nat)
    requires Holding(net.L, k, m1, m2, t, hdr) && net1 == Claims(topo, net, k, e, m1, m2, l) && size == hdr.size
    ensures var n := |At(net.through, k)|;
            var net' := if size <= SINGLE_BUFF_SIZE then Step(topo, net1, Finish(k, n))
                        else Step(topo, Step(topo, net1, Forward(k, n, NULL_PORT)), Finish(k, n));
            && net'.L.tabs == net.L.tabs[k := Consume(t, hdr, hdr.Dest)]
            && Gone(net, net', k, l, Readdress(t, hdr, NULL_PORT))
  {
    if size <= SINGLE_BUFF_SIZE {
      SmallFinishes(topo, net, k, e, m1, m2, l, t, hdr);
    } else {
      LargeFinishes(topo, net, k, e, m1, m2, l, t, hdr);
    }
  }

  /** LinkMsg on a message that goes straight on, with nothing coming between its parts. */
  lemma LinkMsgRefines(topo: Topology, net: Net, e: End)
    requires ReceiveEnabled(topo, net, e, true, true)
    requires LinkMsg(net.L.tabs[topo[e].node], topo[e].link, At(net.wires, e)[0].hdr, true, true).2.Forwarded?
    ensures var at, read := topo[e], net.(wires := net.wires[e := At(net.wires, e)[1..]]);
            var (t', hdr', fate) := LinkMsg(net.L.tabs[at.node], at.link, At(net.wires, e)[0].hdr, true, true);
            var net' := Networks.Run(topo, net, Parts(net, e, at.node));
            net'.L.tabs == net.L.tabs[at.node := t'] && Gone(read, net', at.node, fate.link, hdr')
  {
    LinkMsgParts(topo, net, e, Step(topo, net, Receive(e, true, true)));
    var n := |At(net.through, topo[e].node)|;
    RunTwo(topo, net, Receive(e, true, true), Finish(topo[e].node, n));
    RunThree(topo, net, Receive(e, true, true), Forward(topo[e].node, n, NULL_PORT), Finish(topo[e].node, n));
  }

  lemma LinkMsgParts(topo: Topology, net: Net, e: End, net1: Net)
    requires ReceiveEnabled(topo, net, e, true, true) && net1 == ReceiveStep(topo, net, e, true, true)
    requires LinkMsg(net.L.tabs[topo[e].node], topo[e].link, At(net.wires, e)[0].hdr, true, true).2.Forwarded?
    ensures var at, read := topo[e], net.(wires := net.wires[e := At(net.wires, e)[1..]]);
            var (t', hdr', fate) := LinkMsg(net.L.tabs[at.node], at.link, At(net.wires, e)[0].hdr, true, true);
            var n := |At(net.through, at.node)|;
            var net' := if At(net.wires, e)[0].hdr.size <= SINGLE_BUFF_SIZE then Step(topo, net1, Finish(at.node, n))
                        else Step(topo, Step(topo, net1, Forward(at.node, n, NULL_PORT)), Finish(at.node, n));
            net'.L.tabs == net.L.tabs[at.node := t'] && Gone(read, net', at.node, fate.link, hdr')
  {
    var m, at := At(net.wires, e)[0], topo[e];
    AcceptRest(net.L.tabs[at.node], at.link, m.hdr, true, true);
    var (t, hdr, fate) := Accept(net.L.tabs[at.node], at.link, m.hdr, true, true);
    var L', m1, m2 := ReceivedHolding(topo, net, e, net1);
    var net0 := net.(L := L', wires := net.wires[e := At(net.wires, e)[1..]]);
    RestRefines(topo, net0, e, at.node, m1, m2, fate.link, t, hdr, net1, m.hdr.size);
    assert L'.tabs[at.node := Consume(t, hdr, hdr.Dest)] == net.L.tabs[at.node := Consume(t, hdr, hdr.Dest)];
  }
}
