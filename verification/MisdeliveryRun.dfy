/**
 That it can happen: a run from the start of three processors in a row, at whose
 end a large message from the first to the last is in the hands of a port there
 that its sender did not name, though nothing was freed more than once.
 */
module MisdeliveryRun {
  import opened Lists
  import opened Words
  import opened Ports
  import opened Routing
  import opened Journeys
  import opened Ledgers
  import opened Networks
  import opened Misdeliveries
  import opened Growths

  // node 0 -- A0 B0 -- node 1 -- B1 C0 -- node 2
  const A0 := End(0, 0)
  const B0 := End(1, 0)
  const B1 := End(1, 1)
  const C0 := End(2, 0)
  const TOPO: Topology := map[A0 := B0, B0 := A0, B1 := C0, C0 := B1]

  /** Three nodes in a row. */
  ghost predicate Row(topo: Topology)
  {
    && Wired(topo) && (forall e :: e in topo ==> e.node <= 2)
    && A0 in topo && topo[A0] == B0 && B0 in topo && topo[B0] == A0
    && B1 in topo && topo[B1] == C0 && C0 in topo && topo[C0] == B1
  }

  lemma RowOk()
    ensures Row(TOPO)
  {
  }

  // ---- reaching a network ----

  /** Nothing is freed but by a message that uses it up, and no message is lost or given up. */
  ghost predicate Orderly(ev: Event)
  {
    !(ev.Free? || ev.Lose? || ev.GiveUp? || ev.Abandon?)
  }

  /** A list of networks, the first just started, and the events that lead from each to the next. */
  ghost predicate Follows(topo: Topology, nets: seq<Net>, evs: seq<Event>, i: nat)
    requires i < |nets| == |evs| + 1
  {
    if i == 0 then Started(nets[0]) else Orderly(evs[i - 1]) && nets[i] == Step(topo, nets[i - 1], evs[i - 1])
  }

  ghost predicate History(topo: Topology, nets: seq<Net>, evs: seq<Event>)
  {
    && |nets| == |evs| + 1
    && forall i {:trigger Follows(topo, nets, evs, i)} :: 0 <= i < |nets| ==> Follows(topo, nets, evs, i)
  }

  ghost predicate Reached(topo: Topology, net: Net)
  {
    Row(topo) && exists nets, evs :: History(topo, nets, evs) && nets[|evs|] == net
  }

  lemma ReachedNext(topo: Topology, net: Net, ev: Event, net': Net)
    requires Reached(topo, net) && Orderly(ev) && net' == Step(topo, net, ev)
    ensures Reached(topo, net')
  {
    var nets, evs :| History(topo, nets, evs) && nets[|evs|] == net;
    var nets', evs' := nets + [net'], evs + [ev];
    forall i {:trigger Follows(topo, nets', evs', i)} | 0 <= i < |nets'| ensures Follows(topo, nets', evs', i) {
      if i < |nets| { assert Follows(topo, nets, evs, i); }
    }
    assert History(topo, nets', evs') && nets'[|evs'|] == net';
  }

  lemma {:induction false} RunSnoc(topo: Topology, net: Net, evs: seq<Event>, ev: Event)
    ensures Networks.Run(topo, net, evs + [ev]) == Step(topo, Networks.Run(topo, net, evs), ev)
    decreases |evs|
  {
    if evs == [] {
      assert [] + [ev] == [ev] && [ev][1..] == [];
      RunNext(topo, net, Step(topo, net, ev), [ev]);
    } else {
      var net1 := Step(topo, net, evs[0]);
      assert (evs + [ev])[1..] == evs[1..] + [ev];
      RunNext(topo, net, net1, evs);
      RunNext(topo, net, net1, evs + [ev]);
      RunSnoc(topo, net1, evs[1..], ev);
    }
  }

  lemma {:induction false} HistoryIsRun(topo: Topology, nets: seq<Net>, evs: seq<Event>, i: nat)
    requires History(topo, nets, evs) && i < |nets|
    ensures Networks.Run(topo, nets[0], evs[..i]) == nets[i]
  {
    assert Follows(topo, nets, evs, i);
    if i > 0 {
      HistoryIsRun(topo, nets, evs, i - 1);
      RunSnoc(topo, nets[0], evs[..i - 1], evs[i - 1]);
      assert evs[..i] == evs[..i - 1] + [evs[i - 1]];
    }
  }

  /** What is reached is reached by a run. */
  lemma ReachedIsRun(topo: Topology, net: Net) returns (start: Net, evs: seq<Event>)
    requires Reached(topo, net)
    ensures Started(start) && Networks.Run(topo, start, evs) == net && forall ev :: ev in evs ==> Orderly(ev)
  {
    var nets;
    nets, evs :| History(topo, nets, evs) && nets[|evs|] == net;
    start := nets[0];
    assert Follows(topo, nets, evs, 0);
    HistoryIsRun(topo, nets, evs, |evs|);
    assert evs[..|evs|] == evs;
    forall i | 0 <= i < |evs| ensures Orderly(evs[i]) { assert Follows(topo, nets, evs, i + 1); }
  }

  lemma ReachedInv(topo: Topology, net: Net)
    requires Reached(topo, net)
    ensures Inv(topo, net)
  {
    var start, evs := ReachedIsRun(topo, net);
    RunsFromStart(topo, start, evs, net);
  }

  lemma ReachedLedger(topo: Topology, net: Net)
    requires Reached(topo, net)
    ensures LedgerOk(topo, net.L)
  {
    ReachedInv(topo, net);
  }

  lemma {:induction false} ReachedFurther(topo: Topology, net: Net, evs: seq<Event>)
    requires Reached(topo, net) && forall ev :: ev in evs ==> Orderly(ev)
    ensures Reached(topo, Networks.Run(topo, net, evs))
    decreases |evs|
  {
    if evs != [] {
      var net1 := Step(topo, net, evs[0]);
      ReachedNext(topo, net, evs[0], net1);
      ReachedFurther(topo, net1, evs[1..]);
      RunNext(topo, net, net1, evs);
    }
  }

  /** All three nodes have n free entries. */
  ghost predicate Roomy(L: Ledger, n: nat)
  {
    SpareAt(L, 0, n) && SpareAt(L, 1, n) && SpareAt(L, 2, n)
  }

  lemma RoomyAfter(L: Ledger, L': Ledger, k: NodeId, n: nat, m: nat)
    requires Roomy(L, n) && OthersKept(L, L', k) && SpareAt(L', k, m) && k <= 2 && m <= n
    ensures Roomy(L', m)
  {
    Fewer(L, if k == 0 then 1 else 0, n, m);
    Fewer(L, if k == 2 then 1 else 2, n, m);
  }

  lemma Fewer(L: Ledger, k: NodeId, n: nat, m: nat)
    requires SpareAt(L, k, n) && m <= n
    ensures SpareAt(L, k, m)
  {
  }

  // ---- single events ----

  lemma OpensLedger(topo: Topology, L: Ledger, k: NodeId, n: nat) returns (p: Word)
    requires LedgerOk(topo, L) && Roomy(L, n) && n > 0 && k <= 2
    ensures CanAllocate(L.tabs[k]) && Grows(L, Opened(L, k)) && Roomy(Opened(L, k), n - 1)
    ensures LocalPort(Opened(L, k), k, p) && !InUse(L.tabs, Hop(k, Index(p))) && p != NULL_PORT
  {
    p := OpenedFacts(topo, L, k, n);
    RoomyAfter(L, Opened(L, k), k, n, n - 1);
  }

  lemma OpenStep(topo: Topology, net: Net, k: NodeId) returns (net': Net)
    requires Reached(topo, net) && k in net.L.tabs && CanAllocate(net.L.tabs[k])
    ensures Reached(topo, net') && net' == net.(L := Opened(net.L, k))
  {
    net' := Step(topo, net, Open(k));
    ReachedNext(topo, net, Open(k), net');
  }

  lemma Opens(topo: Topology, net: Net, k: NodeId, n: nat) returns (net': Net, p: Word)
    requires Reached(topo, net) && Roomy(net.L, n) && n > 0 && k <= 2
    ensures Reached(topo, net') && net' == net.(L := net'.L) && Grows(net.L, net'.L) && Roomy(net'.L, n - 1)
    ensures LocalPort(net'.L, k, p) && !InUse(net.L.tabs, Hop(k, Index(p))) && p != NULL_PORT
  {
    ReachedLedger(topo, net);
    p := OpensLedger(topo, net.L, k, n);
    net' := OpenStep(topo, net, k);
  }

  lemma AttachesLedger(topo: Topology, L: Ledger, e: End, port: Word, n: nat) returns (p: Word)
    requires Row(topo) && LedgerOk(topo, L) && Roomy(L, n) && n > 0 && e in topo && LocalPort(L, topo[e].node, port)
    ensures MayAttach(topo, L, e, port)
    ensures Grows(L, Attached(topo, L, e, port)) && Roomy(Attached(topo, L, e, port), n - 1) && p != NULL_PORT
    ensures RemotePort(Attached(topo, L, e, port), e.node, p, e.link, port,
                       Current(L, Hop(topo[e].node, Index(port))))
  {
    p := AttachedFacts(topo, L, e, port, n);
    RoomyAfter(L, Attached(topo, L, e, port), e.node, n, n - 1);
  }

  lemma Attaches(topo: Topology, net: Net, e: End, port: Word, n: nat) returns (net': Net, p: Word)
    requires Reached(topo, net) && Roomy(net.L, n) && n > 0 && e in topo && LocalPort(net.L, topo[e].node, port)
    ensures Reached(topo, net') && net' == net.(L := net'.L) && Grows(net.L, net'.L) && Roomy(net'.L, n - 1)
    ensures RemotePort(net'.L, e.node, p, e.link, port, Current(net.L, Hop(topo[e].node, Index(port))))
    ensures p != NULL_PORT
  {
    ReachedLedger(topo, net);
    p := AttachesLedger(topo, net.L, e, port, n);
    net' := AttachStep(topo, net, e, port);
    ReachedNext(topo, net, Attach(e, port), net');
  }

  lemma AttachStep(topo: Topology, net: Net, e: End, port: Word) returns (net': Net)
    requires MayAttach(topo, net.L, e, port)
    ensures net' == Step(topo, net, Attach(e, port)) == net.(L := Attached(topo, net.L, e, port))
  {
    net' := Step(topo, net, Attach(e, port));
  }

  lemma Posts(topo: Topology, net: Net, k: NodeId, m: Msg)
    requires MsgOk(net.L, m, k, k) && Issued(net.L, m) && m.gap == 0 && m.via == m.to
    requires net.L.home[m.to] == m.intended && At(net.waiting, k) == []
    ensures Step(topo, net, Post(k, m)) == net.(waiting := net.waiting[k := [m]])
  {
    assert [] + [m] == [m];
  }

  /** Message m is posted at node k. */
  lemma Posted(topo: Topology, net: Net, k: NodeId, m: Msg) returns (net': Net)
    requires Reached(topo, net) && MsgOk(net.L, m, k, k) && Issued(net.L, m) && m.gap == 0 && m.via == m.to
    requires net.L.home[m.to] == m.intended && At(net.waiting, k) == []
    ensures Reached(topo, net') && net' == net.(waiting := net.waiting[k := [m]])
  {
    net' := net.(waiting := net.waiting[k := [m]]);
    Posts(topo, net, k, m);
    ReachedNext(topo, net, Post(k, m), net');
  }

  lemma PutsThrough(t: Table, hdr: MsgHdr)
    requires IsLive(t, hdr.Dest) && !Entry(t, Index(hdr.Dest)).Type.TLocal? && hdr.Dest != NULL_PORT && hdr.preserve
    ensures var e := Entry(t, Index(hdr.Dest));
            PutMsg(t, hdr, true) == (Aged(t, hdr.Dest), hdr.(Dest := e.TxId), Forwarded(e.Link))
  {
  }

  /** The network in which the message m of node k is queued for link l as m'. */
  ghost function PutAside(net: Net, k: NodeId, m: Msg, l: Byte, m': Msg): Net
    requires k in net.L.tabs && HasEntry(net.L.tabs[k], Index(m.hdr.Dest))
  {
    net.(L := WithTab(net.L, k, Aged(net.L.tabs[k], m.hdr.Dest)), waiting := net.waiting[k := []],
         through := net.through[k := [Queued(l, m')]])
  }

  lemma PutIs(topo: Topology, net: Net, k: NodeId, m: Msg, l: Byte, remote: Word, next: Tag)
    requires RemotePort(net.L, k, m.hdr.Dest, l, remote, next)
    requires m.hdr.preserve && m.hdr.Dest != NULL_PORT && m.gap == 0
    requires m.to == Current(net.L, Hop(k, Index(m.hdr.Dest)))
    requires At(net.waiting, k) == [m] && At(net.through, k) == []
    ensures Step(topo, net, Event.Put(k, 0, true))
         == PutAside(net, k, m, l, m.(hdr := m.hdr.(Dest := remote), to := next))
  {
    var m' := m.(hdr := m.hdr.(Dest := remote), to := next);
    PutsThrough(net.L.tabs[k], m.hdr);
    assert Cut([m], 0) == [];
    assert [] + [Queued(l, m')] == [Queued(l, m')];
  }

  lemma SendIs(topo: Topology, net: Net, k: NodeId, l: Byte, m': Msg)
    requires At(net.through, k) == [Queued(l, m')] && At(net.wires, End(k, l)) == []
    ensures Step(topo, net, Send(k, 0)) == net.(through := net.through[k := []], wires := net.wires[End(k, l) := [m']])
  {
    assert Cut([Queued(l, m')], 0) == [];
    assert [] + [m'] == [m'];
  }

  /** The message that waits at end e goes out there, where its destination is a remote port. */
  lemma Goes(topo: Topology, net: Net, e: End, m: Msg, remote: Word, next: Tag, n: nat) returns (net': Net)
    requires Reached(topo, net) && Roomy(net.L, n) && e in topo
    requires RemotePort(net.L, e.node, m.hdr.Dest, e.link, remote, next)
    requires m.hdr.preserve && m.hdr.Dest != NULL_PORT && m.gap == 0
    requires m.to == Current(net.L, Hop(e.node, Index(m.hdr.Dest)))
    requires At(net.waiting, e.node) == [m] && At(net.wires, e) == [] && At(net.through, e.node) == []
    ensures Reached(topo, net') && Grows(net.L, net'.L) && Roomy(net'.L, n)
    ensures net' == net.(L := net'.L, waiting := net.waiting[e.node := []], through := net.through[e.node := []],
                         wires := net.wires[e := [m.(hdr := m.hdr.(Dest := remote), to := next)]])
  {
    var m' := m.(hdr := m.hdr.(Dest := remote), to := next);
    var net1 := PutAside(net, e.node, m, e.link, m');
    PutIs(topo, net, e.node, m, e.link, remote, next);
    ReachedNext(topo, net, Event.Put(e.node, 0, true), net1);
    net' := net1.(through := net1.through[e.node := []], wires := net1.wires[e := [m']]);
    SendIs(topo, net1, e.node, e.link, m');
    ReachedNext(topo, net1, Send(e.node, 0), net');
    ReachedLedger(topo, net);
    GoneGrows(topo, net.L, e.node, m.hdr.Dest, n);
    SetTwice(net.through, e.node, [Queued(e.link, m')], []);
  }

  lemma GoneGrows(topo: Topology, L: Ledger, k: NodeId, port: Word, n: nat)
    requires LedgerOk(topo, L) && Roomy(L, n) && k <= 2 && IsLive(L.tabs[k], port)
    ensures var L' := WithTab(L, k, Aged(L.tabs[k], port)); Grows(L, L') && Roomy(L', n)
  {
    SpareAged(L.tabs[k], n, port);
    AgedGrows(topo, L, k, port);
    RoomyAfter(L, WithTab(L, k, Aged(L.tabs[k], port)), k, n, n);
  }

  lemma SetTwice<K, V>(m: map<K, V>, k: K, v: V, w: V)
    ensures m[k := v][k := w] == m[k := w]
  {
  }

  /** Message m, alone on the link from end e, is for a local port and has a reply port. */
  ghost predicate Landing(topo: Topology, net: Net, e: End, m: Msg)
  {
    && e in topo && At(net.wires, e) == [m] && LocalPort(net.L, topo[e].node, m.hdr.Dest)
    && m.hdr.Reply != NULL_PORT && m.from in net.L.home && m.from in net.L.dist && Idle(net, topo[e].node, e)
  }

  lemma LandingIs(topo: Topology, net: Net, e: End, m: Msg, n: nat)
    requires Row(topo) && Inv(topo, net) && Roomy(net.L, n) && n > 0 && Landing(topo, net, e, m)
    ensures HandsOver(topo, net, e) && m.from.node == e.node && Names(m.hdr.Reply, m.from)
  {
    assert WireOk(topo, net, e) && m in At(net.wires, e);
    SpareAllocates(net.L.tabs[topo[e].node], n);
    LandingHandsOver(topo, net, e, m);
  }

  lemma LandingHandsOver(topo: Topology, net: Net, e: End, m: Msg)
    requires Landing(topo, net, e, m) && Valid(net.L.tabs[topo[e].node]) && CanAllocate(net.L.tabs[topo[e].node])
    ensures HandsOver(topo, net, e)
  {
    AcceptsLocal(net.L.tabs[topo[e].node], topo[e].link, m.hdr);
  }

  lemma LandsLedger(topo: Topology, L: Ledger, at: End, hdr: MsgHdr, from: Tag, n: nat) returns (L': Ledger, p: Word)
    requires LedgerOk(topo, L) && Roomy(L, n) && n > 0 && at in topo && at.node <= 2 && at.node in L.tabs
    requires MayInstall(L.tabs[at.node], hdr) && hdr.Reply != NULL_PORT && from in L.home && from in L.dist
    requires from.node == topo[at].node && Names(hdr.Reply, from) && LocalPort(L, at.node, hdr.Dest)
    ensures var L1 := Installed(L, at, hdr, from).0;
            && at.node in L1.tabs && HasEntry(L1.tabs[at.node], Index(hdr.Dest))
            && L' == WithTab(L1, at.node, Aged(L1.tabs[at.node], hdr.Dest))
    ensures Grows(L, L') && Roomy(L', n - 1)
    ensures RemotePort(L', at.node, p, at.link, hdr.Reply, from) && p != NULL_PORT && Freeable(L', at.node, p)
    ensures !InUse(L.tabs, Hop(at.node, Index(p)))
  {
    L', p := LandsFacts(topo, L, at, hdr, from, n);
    RoomyAfter(L, L', at.node, n, n - 1);
  }

  lemma Landed(topo: Topology, net: Net, e: End, m: Msg) returns (net': Net)
    requires Reached(topo, net) && HandsOver(topo, net, e) && At(net.wires, e) == [m]
    ensures Reached(topo, net') && net'.L == LedgerAfter(topo, net, e)
    ensures net' == net.(L := net'.L, wires := net.wires[e := []], log := net'.log)
  {
    net' := HandedOver(topo, net, e);
    HandsOverIs(topo, net, e);
    ReachedNext(topo, net, Receive(e, true, true), net');
    assert [m][1..] == [];
  }

  /** It is handed over. */
  lemma Lands(topo: Topology, net: Net, e: End, m: Msg, n: nat) returns (net': Net, p: Word)
    requires Reached(topo, net) && Roomy(net.L, n) && n > 0 && Landing(topo, net, e, m)
    ensures Reached(topo, net') && Grows(net.L, net'.L) && Roomy(net'.L, n - 1)
    ensures RemotePort(net'.L, topo[e].node, p, topo[e].link, m.hdr.Reply, m.from) && p != NULL_PORT
    ensures Freeable(net'.L, topo[e].node, p) && !InUse(net.L.tabs, Hop(topo[e].node, Index(p)))
    ensures net' == net.(L := net'.L, wires := net.wires[e := []], log := net'.log)
  {
    ReachedInv(topo, net);
    LandingIs(topo, net, e, m, n);
    net' := Landed(topo, net, e, m);
    var L';
    L', p := LandsLedger(topo, net.L, topo[e], m.hdr, m.from, n);
  }

  /** A large message m without a reply port claims the link it is to go on. */
  lemma Stops(topo: Topology, net: Net, e: End, m: Msg, l: Byte, remote: Word, next: Tag, n: nat)
    returns (net': Net, c: Msg)
    requires Reached(topo, net) && Roomy(net.L, n) && e in topo && At(net.wires, e) == [m] && m.hdr.Reply == NULL_PORT
    requires RemotePort(net.L, topo[e].node, m.hdr.Dest, l, remote, next)
    requires m.hdr.size > SINGLE_BUFF_SIZE && At(net.through, topo[e].node) == []
    ensures Reached(topo, net') && Grows(net.L, net'.L) && Roomy(net'.L, n)
    ensures c.hdr == m.hdr && c.intended == m.intended
    ensures var claim := Claim(l, e, c, Current(net.L, Hop(topo[e].node, Index(m.hdr.Dest))));
            net' == net.(L := net'.L, wires := net.wires[e := []], through := net.through[topo[e].node := [claim]])
  {
    ReachedLedger(topo, net);
    StopsLike(topo, net, e, m, l, remote, next);
    GoneGrows(topo, net.L, topo[e].node, m.hdr.Dest, n);
    net' := Step(topo, net, Receive(e, true, true));
    ReachedNext(topo, net, Receive(e, true, true), net');
    c := Onward(net.L, topo[e].node, m, m.hdr);
  }

  lemma ReceivesClaim(topo: Topology, net: Net, e: End, m: Msg, l: Byte, remote: Word, next: Tag)
    requires e in topo && At(net.wires, e) == [m] && m.hdr.Reply == NULL_PORT
    requires RemotePort(net.L, topo[e].node, m.hdr.Dest, l, remote, next) && Valid(net.L.tabs[topo[e].node])
    requires At(net.through, topo[e].node) == []
    ensures ReceiveEnabled(topo, net, e, true, true)
  {
  }

  lemma StopsLike(topo: Topology, net: Net, e: End, m: Msg, l: Byte, remote: Word, next: Tag)
    requires e in topo && At(net.wires, e) == [m] && m.hdr.Reply == NULL_PORT
    requires RemotePort(net.L, topo[e].node, m.hdr.Dest, l, remote, next) && Valid(net.L.tabs[topo[e].node])
    requires m.hdr.size > SINGLE_BUFF_SIZE && At(net.through, topo[e].node) == []
    ensures var k := topo[e].node;
            var claim := Claim(l, e, Onward(net.L, k, m, m.hdr), Current(net.L, Hop(k, Index(m.hdr.Dest))));
            Step(topo, net, Receive(e, true, true))
              == net.(L := WithTab(net.L, k, Aged(net.L.tabs[k], m.hdr.Dest)), wires := net.wires[e := []],
                      through := net.through[k := [claim]])
  {
    var at := topo[e];
    ReceivesClaim(topo, net, e, m, l, remote, next);
    AcceptRest(net.L.tabs[at.node], at.link, m.hdr, true, true);
    assert [m][1..] == [];
    assert m.(hdr := m.hdr, from := m.from) == m;
    assert forall claim: Transit :: [] + [claim] == [claim];
  }

  // ---- letters ----

  /** The tag of port p of node k while nothing has been freed. */
  function First(k: NodeId, p: Word): Tag
  {
    Tag(k, Index(p), 0)
  }

  /** Nothing has been freed, and node k has no message in hand. */
  ghost predicate Quiet(net: Net, k: NodeId)
  {
    net.L.gens == map[] && At(net.waiting, k) == [] && At(net.through, k) == []
  }

  ghost predicate AllQuiet(net: Net)
  {
    Quiet(net, 0) && Quiet(net, 1) && Quiet(net, 2)
  }

  /** The wires that are used have no message on them, but for that from end e. */
  ghost predicate NoneBut(net: Net, e: End)
  {
    && (e != A0 ==> At(net.wires, A0) == []) && (e != B0 ==> At(net.wires, B0) == [])
    && (e != B1 ==> At(net.wires, B1) == []) && (e != C0 ==> At(net.wires, C0) == [])
  }

  ghost predicate NoneAnywhere(net: Net)
  {
    At(net.wires, A0) == At(net.wires, B0) == At(net.wires, B1) == At(net.wires, C0) == []
  }

  lemma MailFrame(net: Net, net': Net, e: End, m: Msg)
    requires AllQuiet(net) && NoneAnywhere(net) && (e == A0 || e == B0 || e == C0)
    requires net' == net.(L := net'.L, waiting := net.waiting[e.node := []], through := net.through[e.node := []],
                          wires := net.wires[e := [m]])
    requires net'.L.gens == map[]
    ensures AllQuiet(net') && NoneBut(net', e) && At(net'.wires, e) == [m]
  {
  }

  lemma LandFrame(net: Net, net': Net, e: End)
    requires AllQuiet(net) && NoneBut(net, e) && net'.L.gens == map[]
    requires net' == net.(L := net'.L, wires := net.wires[e := []], log := net'.log)
    ensures AllQuiet(net') && NoneAnywhere(net')
  {
  }

  /** What a port stands for in the end. */
  lemma Homes(topo: Topology, L: Ledger, k: NodeId, p: Word, l: Byte, remote: Word, next: Tag)
    requires LedgerOk(topo, L) && L.gens == map[] && RemotePort(L, k, p, l, remote, next)
    ensures First(k, p) in L.home && First(k, p) in L.dist && next in L.home && L.home[First(k, p)] == L.home[next]
    ensures Names(p, First(k, p))
  {
    LiveNames(topo, L, Hop(k, Index(p)), p);
    assert EntryOk(topo, L, Hop(k, Index(p)));
  }

  lemma HomesLocal(topo: Topology, L: Ledger, k: NodeId, p: Word)
    requires LedgerOk(topo, L) && L.gens == map[] && LocalPort(L, k, p)
    ensures First(k, p) in L.home && First(k, p) in L.dist
    ensures L.home[First(k, p)] == First(k, p) && Names(p, First(k, p))
  {
    LiveNames(topo, L, Hop(k, Index(p)), p);
    assert EntryOk(topo, L, Hop(k, Index(p)));
  }

  /** A message for port p, with reply port r. */
  ghost function Letter(L: Ledger, k: NodeId, p: Word, r: Word, preserve: bool, size: nat): Msg
    requires First(k, p) in L.home
  {
    Msg(MsgHdr(p, r, preserve, false, false, size, 0), First(k, p), First(k, r), L.home[First(k, p)], First(k, p), 0)
  }

  /** A letter is posted and goes out at end e. */
  lemma Mails(topo: Topology, net: Net, e: End, p: Word, far: Word, next: Tag, r: Word, size: nat, n: nat)
    returns (net': Net)
    requires Reached(topo, net) && Quiet(net, e.node) && Roomy(net.L, n) && e in topo && At(net.wires, e) == []
    requires RemotePort(net.L, e.node, p, e.link, far, next) && p != NULL_PORT && First(e.node, p) in net.L.home
    requires r != NULL_PORT ==> First(e.node, r) in net.L.home && Names(r, First(e.node, r))
    ensures Reached(topo, net') && Grows(net.L, net'.L) && Roomy(net'.L, n)
    ensures var m := Letter(net.L, e.node, p, r, true, size);
            net' == net.(L := net'.L, waiting := net.waiting[e.node := []], through := net.through[e.node := []],
                         wires := net.wires[e := [m.(hdr := m.hdr.(Dest := far), to := next)]])
  {
    ReachedLedger(topo, net);
    Homes(topo, net.L, e.node, p, e.link, far, next);
    var m := Letter(net.L, e.node, p, r, true, size);
    var net1 := Posted(topo, net, e.node, m);
    net' := Goes(topo, net1, e, m, far, next, n);
    SetTwice(net.waiting, e.node, [m], []);
  }

  // ---- the scene ----

  /** A table with one sub-table, all of it free. */
  ghost function StartTable(): Table { Extended(Table([Null], MIN_INT)) }

  lemma StartTableOk()
    ensures Room(Table([Null], MIN_INT)) && Spare(StartTable(), 64)
    ensures forall i: nat :: HasEntry(StartTable(), i) ==> IsBlank(Entry(StartTable(), i))
  {
    var t := Table([Null], MIN_INT);
    assert FreeList(t, []);
    ExtendFreeList(t, []);
    ExtendKeepsEntries(t);
    assert FreeList(StartTable(), FreshList(FirstFree(t.base)) + []);
  }

  ghost function StartNet(): Net
  {
    var t := StartTable();
    Net(Ledger(map[0 := t, 1 := t, 2 := t], map[], map[], map[], map[]), map[], map[], map[], [])
  }

  lemma StartNetOk()
    ensures Started(StartNet()) && Roomy(StartNet().L, 64)
  {
    StartTableOk();
    SpareAllocates(StartTable(), 64);
  }

  lemma StartOk(topo: Topology) returns (net: Net)
    requires Row(topo)
    ensures Reached(topo, net) && AllQuiet(net) && NoneAnywhere(net) && Roomy(net.L, 64)
  {
    StartNetOk();
    net := StartNet();
    assert Follows(topo, [net], [], 0) && History(topo, [net], []) && [net][0] == net;
  }

  /**
   Ports p and p2 of node 2, q of node 1 and r of node 0 are local; node 2 has a
   permanent port h for q, and node 1 a permanent port g for r.
   */
  datatype Cast = Cast(p: Word, p2: Word, q: Word, r: Word, h: Word, g: Word)

  ghost predicate Locals(L: Ledger, x: Cast)
  {
    && LocalPort(L, 2, x.p) && LocalPort(L, 2, x.p2) && LocalPort(L, 1, x.q) && LocalPort(L, 0, x.r)
    && x.p != NULL_PORT && x.p2 != NULL_PORT && Index(x.p) != Index(x.p2)
  }

  ghost predicate Scene(L: Ledger, x: Cast)
  {
    && Locals(L, x) && x.h != NULL_PORT && x.g != NULL_PORT
    && RemotePort(L, 2, x.h, 0, x.q, First(1, x.q)) && RemotePort(L, 1, x.g, 0, x.r, First(0, x.r))
  }

  lemma LocalsStay(L: Ledger, L': Ledger, x: Cast)
    requires Locals(L, x) && Grows(L, L')
    ensures Locals(L', x)
  {
    LocalStays(L, L', 2, x.p);
    LocalStays(L, L', 2, x.p2);
    LocalStays(L, L', 1, x.q);
    LocalStays(L, L', 0, x.r);
  }

  lemma SceneStays(L: Ledger, L': Ledger, x: Cast)
    requires Scene(L, x) && Grows(L, L')
    ensures Scene(L', x)
  {
    LocalsStay(L, L', x);
    RemoteStays(L, L', 2, x.h, 0, x.q, First(1, x.q));
    RemoteStays(L, L', 1, x.g, 0, x.r, First(0, x.r));
  }

  lemma TwoPorts(topo: Topology) returns (net: Net, p: Word, p2: Word)
    requires Row(topo)
    ensures Reached(topo, net) && AllQuiet(net) && NoneAnywhere(net) && Roomy(net.L, 62)
    ensures LocalPort(net.L, 2, p) && LocalPort(net.L, 2, p2) && Index(p) != Index(p2)
    ensures p != NULL_PORT && p2 != NULL_PORT
  {
    var net0 := StartOk(topo);
    var net1;
    net1, p := Opens(topo, net0, 2, 64);
    net, p2 := Opens(topo, net1, 2, 63);
    LocalStays(net1.L, net.L, 2, p);
  }

  lemma FourPorts(topo: Topology) returns (net: Net, x: Cast)
    requires Row(topo)
    ensures Reached(topo, net) && AllQuiet(net) && NoneAnywhere(net) && Roomy(net.L, 60) && Locals(net.L, x)
  {
    var net0, p, p2 := TwoPorts(topo);
    var net1, q := Opens(topo, net0, 1, 62);
    LocalStays(net0.L, net1.L, 2, p);
    LocalStays(net0.L, net1.L, 2, p2);
    var r;
    net, r := Opens(topo, net1, 0, 61);
    LocalStays(net1.L, net.L, 2, p);
    LocalStays(net1.L, net.L, 2, p2);
    LocalStays(net1.L, net.L, 1, q);
    x := Cast(p, p2, q, r, NULL_PORT, NULL_PORT);
  }

  lemma SetUp(topo: Topology) returns (net: Net, x: Cast)
    requires Row(topo)
    ensures Reached(topo, net) && AllQuiet(net) && NoneAnywhere(net) && Roomy(net.L, 58) && Scene(net.L, x)
  {
    var net0, y := FourPorts(topo);
    var net1, h := Attaches(topo, net0, C0, y.q, 60);
    LocalsStay(net0.L, net1.L, y);
    var g;
    net, g := Attaches(topo, net1, B0, y.r, 59);
    LocalsStay(net1.L, net.L, y);
    RemoteStays(net1.L, net.L, 2, h, 0, y.q, First(1, y.q));
    x := y.(h := h, g := g);
  }

  /** Node 1 has a surrogate s for port p of node 2, which is not q. */
  ghost predicate Knows(L: Ledger, x: Cast, s: Word)
  {
    && RemotePort(L, 1, s, 1, x.p, First(2, x.p)) && Freeable(L, 1, s) && Index(s) != Index(x.q) && s != NULL_PORT
  }

  lemma KnowsStays(L: Ledger, L': Ledger, x: Cast, s: Word)
    requires Knows(L, x, s) && Grows(L, L')
    ensures Knows(L', x, s)
  {
    RemoteStays(L, L', 1, s, 1, x.p, First(2, x.p));
    FreeableStays(L, L', 1, s);
  }

  lemma SceneHomes(topo: Topology, net: Net, x: Cast)
    requires Reached(topo, net) && net.L.gens == map[] && Scene(net.L, x)
    ensures First(2, x.p) in net.L.home && First(2, x.p) in net.L.dist && Names(x.p, First(2, x.p))
    ensures net.L.home[First(2, x.p)] == First(2, x.p)
    ensures First(2, x.p2) in net.L.home && First(2, x.p2) in net.L.dist && Names(x.p2, First(2, x.p2))
    ensures First(2, x.h) in net.L.home && First(1, x.g) in net.L.home
  {
    ReachedLedger(topo, net);
    HomesLocal(topo, net.L, 2, x.p);
    HomesLocal(topo, net.L, 2, x.p2);
    Homes(topo, net.L, 2, x.h, 0, x.q, First(1, x.q));
    Homes(topo, net.L, 1, x.g, 0, x.r, First(0, x.r));
  }

  lemma KnowsHomes(topo: Topology, net: Net, x: Cast, s: Word)
    requires Reached(topo, net) && net.L.gens == map[] && Knows(net.L, x, s) && First(2, x.p) in net.L.home
    ensures First(1, s) in net.L.home && First(1, s) in net.L.dist && Names(s, First(1, s))
    ensures net.L.home[First(1, s)] == net.L.home[First(2, x.p)]
  {
    ReachedLedger(topo, net);
    Homes(topo, net.L, 1, s, 1, x.p, First(2, x.p));
  }

  // ---- the run ----

  /** What port p of the node at end e comes with in a letter for far. */
  ghost predicate Enclosed(net: Net, e: End, m: Msg, p: Word, far: Word)
  {
    && At(net.wires, e) == [m] && m.hdr.Dest == far && m.hdr.Reply == p && p != NULL_PORT && m.from == First(e.node, p)
    && First(e.node, p) in net.L.home && First(e.node, p) in net.L.dist
  }

  /** Node 2 tells node 1 of port p... */
  lemma FirstMail(topo: Topology) returns (net': Net, x: Cast, m: Msg)
    requires Row(topo)
    ensures Reached(topo, net') && AllQuiet(net') && NoneBut(net', C0) && Roomy(net'.L, 58) && Scene(net'.L, x)
    ensures Enclosed(net', C0, m, x.p, x.q)
  {
    var net;
    net, x := SetUp(topo);
    SceneHomes(topo, net, x);
    net' := Mails(topo, net, C0, x.h, x.q, First(1, x.q), x.p, 0, 58);
    m := At(net'.wires, C0)[0];
    MailFrame(net, net', C0, m);
    SceneStays(net.L, net'.L, x);
  }

  /** ...which makes a surrogate s for it... */
  lemma FirstLetter(topo: Topology) returns (net': Net, x: Cast, s: Word)
    requires Row(topo)
    ensures Reached(topo, net') && AllQuiet(net') && NoneAnywhere(net') && Roomy(net'.L, 57)
    ensures Scene(net'.L, x) && Knows(net'.L, x, s)
  {
    var net, m;
    net, x, m := FirstMail(topo);
    net', s := Lands(topo, net, C0, m, 58);
    LandFrame(net, net', C0);
    SceneStays(net.L, net'.L, x);
  }

  /** ...and passes that on to node 0... */
  lemma SecondMail(topo: Topology) returns (net': Net, x: Cast, s: Word, m: Msg)
    requires Row(topo)
    ensures Reached(topo, net') && AllQuiet(net') && NoneBut(net', B0) && Roomy(net'.L, 57)
    ensures Scene(net'.L, x) && Knows(net'.L, x, s) && Enclosed(net', B0, m, s, x.r)
  {
    var net;
    net, x, s := FirstLetter(topo);
    SceneHomes(topo, net, x);
    KnowsHomes(topo, net, x, s);
    net' := Mails(topo, net, B0, x.g, x.r, First(0, x.r), s, 0, 57);
    m := At(net'.wires, B0)[0];
    MailFrame(net, net', B0, m);
    SceneStays(net.L, net'.L, x);
    KnowsStays(net.L, net'.L, x, s);
  }

  /** ...so that node 0 has a surrogate t for s. */
  lemma SecondLetter(topo: Topology) returns (net': Net, x: Cast, s: Word, t: Word)
    requires Row(topo)
    ensures Reached(topo, net') && AllQuiet(net') && NoneAnywhere(net') && Roomy(net'.L, 56)
    ensures Scene(net'.L, x) && Knows(net'.L, x, s)
    ensures RemotePort(net'.L, 0, t, 0, s, First(1, s)) && t != NULL_PORT
  {
    var net, m;
    net, x, s, m := SecondMail(topo);
    net', t := Lands(topo, net, B0, m, 57);
    LandFrame(net, net', B0);
    SceneStays(net.L, net'.L, x);
    KnowsStays(net.L, net'.L, x, s);
  }

  lemma SurrogateHomes(topo: Topology, net: Net, x: Cast, s: Word, t: Word)
    requires Reached(topo, net) && net.L.gens == map[] && Scene(net.L, x) && Knows(net.L, x, s)
    requires RemotePort(net.L, 0, t, 0, s, First(1, s))
    ensures First(0, t) in net.L.home && net.L.home[First(0, t)] == First(2, x.p)
  {
    SceneHomes(topo, net, x);
    KnowsHomes(topo, net, x, s);
    ReachedLedger(topo, net);
    Homes(topo, net.L, 0, t, 0, s, First(1, s));
  }

  /** A large message without a reply port goes out from node 0 for p... */
  lemma LargeLetter(topo: Topology) returns (net': Net, x: Cast, s: Word, m: Msg)
    requires Row(topo)
    ensures Reached(topo, net') && AllQuiet(net') && NoneBut(net', A0) && Roomy(net'.L, 56)
    ensures Scene(net'.L, x) && Knows(net'.L, x, s) && At(net'.wires, A0) == [m] && m.intended == First(2, x.p)
    ensures m.hdr.Dest == s && m.hdr.Reply == NULL_PORT && m.hdr.size == 257
  {
    var net, t;
    net, x, s, t := SecondLetter(topo);
    SurrogateHomes(topo, net, x, s, t);
    net' := Mails(topo, net, A0, t, s, First(1, s), NULL_PORT, 257, 56);
    m := At(net'.wires, A0)[0];
    MailFrame(net, net', A0, m);
    SceneStays(net.L, net'.L, x);
    KnowsStays(net.L, net'.L, x, s);
  }

  /** Node 1 has the large message c in hand, which came from node 0 and is to go to node 2 by s. */
  ghost predicate Held(net: Net, x: Cast, s: Word, c: Msg)
  {
    && net.L.gens == map[] && Roomy(net.L, 56) && Scene(net.L, x) && Knows(net.L, x, s)
    && At(net.through, 1) == [Claim(1, A0, c, First(1, s))] && c.hdr.Dest == s && c.hdr.Reply == NULL_PORT
    && c.intended == First(2, x.p)
  }

  lemma ClaimFrame(net: Net, net': Net, x: Cast, s: Word, c: Msg)
    requires AllQuiet(net) && NoneBut(net, A0) && net'.L.gens == map[] && Roomy(net'.L, 56)
    requires Scene(net'.L, x) && Knows(net'.L, x, s) && c.hdr.Dest == s && c.hdr.Reply == NULL_PORT
    requires c.intended == First(2, x.p)
    requires net' == net.(L := net'.L, wires := net.wires[A0 := []],
                          through := net.through[1 := [Claim(1, A0, c, First(1, s))]])
    ensures Held(net', x, s, c) && NoneAnywhere(net') && At(net'.waiting, 1) == [] && Quiet(net', 2)
  {
  }

  /** ...and node 1 claims the link to node 2 for it. */
  lemma Claimant(topo: Topology) returns (net': Net, x: Cast, s: Word, c: Msg)
    requires Row(topo)
    ensures Reached(topo, net') && Held(net', x, s, c)
    ensures NoneAnywhere(net') && At(net'.waiting, 1) == [] && Quiet(net', 2)
  {
    var net, m;
    net, x, s, m := LargeLetter(topo);
    net', c := Stops(topo, net, A0, m, 1, x.p, First(2, x.p), 56);
    SceneStays(net.L, net'.L, x);
    KnowsStays(net.L, net'.L, x, s);
    ClaimFrame(net, net', x, s, c);
  }

  /** A thread of node 1 has a message for p that uses up s... */
  lemma Rival(topo: Topology) returns (net': Net, x: Cast, s: Word, c: Msg, w: Msg)
    requires Row(topo)
    ensures Reached(topo, net') && Held(net', x, s, c) && NoneAnywhere(net') && Quiet(net', 2)
    ensures At(net'.waiting, 1) == [w] && w.hdr.Dest == s && !w.hdr.preserve
  {
    var net;
    net, x, s, c := Claimant(topo);
    SceneHomes(topo, net, x);
    KnowsHomes(topo, net, x, s);
    w := Letter(net.L, 1, s, NULL_PORT, false, 0);
    net' := Posted(topo, net, 1, w);
  }

  lemma LastFrame(net: Net, net': Net, x: Cast, s: Word, c: Msg, m: Msg)
    requires Held(net, x, s, c) && NoneAnywhere(net) && Quiet(net, 2)
    requires net'.L.gens == map[] && Roomy(net'.L, 56) && Scene(net'.L, x) && Knows(net'.L, x, s)
    requires net' == net.(L := net'.L, waiting := net.waiting[2 := []], through := net.through[2 := []],
                          wires := net.wires[C0 := [m]])
    ensures Held(net', x, s, c) && At(net'.wires, B1) == [] && At(net'.wires, C0) == [m] && Quiet(net', 2)
    ensures At(net'.waiting, 1) == At(net.waiting, 1)
  {
  }

  /** ...and a message comes from node 2 that has p2 as its reply port. */
  lemma LastMail(topo: Topology) returns (net': Net, x: Cast, s: Word, c: Msg, w: Msg, m: Msg)
    requires Row(topo)
    ensures Reached(topo, net') && Held(net', x, s, c) && At(net'.wires, B1) == [] && Quiet(net', 2)
    ensures At(net'.waiting, 1) == [w] && w.hdr.Dest == s && !w.hdr.preserve
    ensures Enclosed(net', C0, m, x.p2, x.q)
  {
    var net;
    net, x, s, c, w := Rival(topo);
    SceneHomes(topo, net, x);
    net' := Mails(topo, net, C0, x.h, x.q, First(1, x.q), x.p2, 0, 56);
    m := At(net'.wires, C0)[0];
    SceneStays(net.L, net'.L, x);
    KnowsStays(net.L, net'.L, x, s);
    LastFrame(net, net', x, s, c, m);
  }

  lemma CatchesBoth(net: Net, x: Cast, s: Word, c: Msg, w: Msg)
    requires Held(net, x, s, c) && At(net.waiting, 1) == [w] && w.hdr.Dest == s && !w.hdr.preserve
    ensures Passing(net, 1, 0, 1) && Sharing(net, 1, 0, 0)
  {
  }

  lemma TrapLaid(topo: Topology, net: Net, x: Cast, s: Word, c: Msg, w: Msg, m: Msg)
    requires Row(topo) && HandsOver(topo, net, C0) && Held(net, x, s, c) && At(net.wires, B1) == [] && Quiet(net, 2)
    requires At(net.waiting, 1) == [w] && w.hdr.Dest == s && !w.hdr.preserve && Enclosed(net, C0, m, x.p2, x.q)
    ensures Trap(topo, net, C0, 0, 0)
  {
    CatchesBoth(net, x, s, c, w);
    SpareAllocates(net.L.tabs[2], 56);
  }

  lemma LastLetter(topo: Topology) returns (net': Net, p: Word, p2: Word)
    requires Row(topo)
    ensures Reached(topo, net') && net'.L.gens == map[] && Trap(topo, net', C0, 0, 0) && Index(p) != Index(p2)
    ensures At(net'.wires, C0)[0].hdr.Reply == p2 && At(net'.through, 1)[0].msg.intended == First(2, p)
  {
    var x, s, c, w, m;
    net', x, s, c, w, m := LastMail(topo);
    SceneHomes(topo, net', x);
    ReachedInv(topo, net');
    LandingIs(topo, net', C0, m, 56);
    TrapLaid(topo, net', x, s, c, w, m);
    p, p2 := x.p, x.p2;
  }

  lemma OnceAtMost(L: Ledger, L': Ledger, k: NodeId)
    requires FreedOnce(L, L', k) && L.gens == map[]
    ensures forall h :: Gen(L', h) <= 1
  {
  }

  lemma WrongPort(before: Net, net: Net, p: Word, p2: Word, a: Arrival)
    requires before.L.gens == map[] && Index(p) != Index(p2) && FreedOnce(before.L, net.L, 1)
    requires a.at == Current(before.L, Hop(2, Index(p2))) && a.msg.intended == First(2, p)
    ensures a.at != a.msg.intended && forall h :: Gen(net.L, h) <= 1
  {
    OnceAtMost(before.L, net.L, 1);
  }

  lemma EndsBadly(topo: Topology) returns (net: Net, a: Arrival)
    requires Row(topo)
    ensures Reached(topo, net) && a in net.log && a.at != a.msg.intended && forall h :: Gen(net.L, h) <= 1
  {
    var before, p, p2 := LastLetter(topo);
    net, a := Trapped(topo, before);
    WrongPort(before, net, p, p2, a);
  }

  lemma AtNodeOne(topo: Topology, before: Net)
    requires Row(topo) && Trap(topo, before, C0, 0, 0)
    ensures |At(before.through, 1)| > 0 && At(before.through, 1)[0].Claim?
    ensures At(before.through, topo[C0].node)[0].msg.intended == At(before.through, 1)[0].msg.intended
  {
  }

  lemma Sprung(topo: Topology, before: Net) returns (net: Net, evs: seq<Event>, a: Arrival)
    requires Row(topo) && Trap(topo, before, C0, 0, 0)
    ensures net == Networks.Run(topo, before, evs) && (forall ev :: ev in evs ==> Orderly(ev))
    ensures FreedOnce(before.L, net.L, 1) && a in net.log
    ensures a.at == Current(before.L, Hop(2, Index(At(before.wires, C0)[0].hdr.Reply)))
    ensures |At(before.through, 1)| > 0 && At(before.through, 1)[0].Claim?
    ensures a.msg.intended == At(before.through, 1)[0].msg.intended
  {
    AtNodeOne(topo, before);
    evs, net, a := Misdelivers(topo, before, C0, 0, 0);
  }

  lemma Trapped(topo: Topology, before: Net) returns (net: Net, a: Arrival)
    requires Reached(topo, before) && Trap(topo, before, C0, 0, 0)
    ensures Reached(topo, net) && FreedOnce(before.L, net.L, 1) && a in net.log
    ensures a.at == Current(before.L, Hop(2, Index(At(before.wires, C0)[0].hdr.Reply)))
    ensures |At(before.through, 1)| > 0 && At(before.through, 1)[0].Claim?
    ensures a.msg.intended == At(before.through, 1)[0].msg.intended
  {
    var evs;
    net, evs, a := Sprung(topo, before);
    ReachedFurther(topo, before, evs);
  }

  /**
   There is a run from the start in which nothing has been freed more often
   than once, nor but by a message that used it up, and at whose end a message
   is in the hands of a port that its sender did not name.
   */
  lemma MisdeliveryHappens() returns (start: Net, evs: seq<Event>, a: Arrival)
    ensures Wired(TOPO) && Started(start) && a in Networks.Run(TOPO, start, evs).log && a.at != a.msg.intended
    ensures (forall h :: Gen(Networks.Run(TOPO, start, evs).L, h) <= 1) && forall ev :: ev in evs ==> Orderly(ev)
  {
    RowOk();
    var net;
    net, a := EndsBadly(TOPO);
    start, evs := ReachedIsRun(TOPO, net);
  }
}
