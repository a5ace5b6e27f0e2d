/**
 No message of the network is lost but by the network's own rules, and none is
 there twice: every event moves, adds or takes away one copy of one message.
 */
module Conservation {
  import opened Lists
  import opened Words
  import opened Ports
  import opened Routing
  import opened Journeys
  import opened Ledgers
  import opened Networks

  // ---- sums over sequences and over maps of sequences ----

  ghost function Sum<V>(s: seq<V>, f: V -> nat): nat
  {
    if s == [] then 0 else Sum(s[..|s| - 1], f) + f(s[|s| - 1])
  }

  lemma SumSnoc<V>(s: seq<V>, x: V, f: V -> nat)
    ensures Sum(s + [x], f) == Sum(s, f) + f(x)
  {
    assert (s + [x])[..|s|] == s;
  }

  lemma {:induction false} SumCut<V>(s: seq<V>, k: nat, f: V -> nat)
    requires k < |s|
    ensures Sum(Cut(s, k), f) + f(s[k]) == Sum(s, f)
    decreases |s|
  {
    var n := |s| - 1;
    if k == n {
      assert Cut(s, k) == s[..n];
    } else {
      SumCut(s[..n], k, f);
      assert Cut(s, k) == Cut(s[..n], k) + [s[n]];
      SumSnoc(Cut(s[..n], k), s[n], f);
    }
  }

  lemma SumTail<V>(s: seq<V>, f: V -> nat)
    requires s != []
    ensures Sum(s[1..], f) + f(s[0]) == Sum(s, f)
  {
    SumCut(s, 0, f);
    assert Cut(s, 0) == s[1..];
  }

  lemma SumUpdate<V>(s: seq<V>, k: nat, x: V, f: V -> nat)
    requires k < |s|
    ensures Sum(s[k := x], f) + f(s[k]) == Sum(s, f) + f(x)
  {
    SumCut(s, k, f);
    SumCut(s[k := x], k, f);
    assert Cut(s[k := x], k) == Cut(s, k);
  }

  ghost function Pick<K>(keys: set<K>): (k: K)
    requires keys != {}
    ensures k in keys
  {
    var k :| k in keys; k
  }

  ghost function Tally<K, V>(m: map<K, seq<V>>, keys: set<K>, f: V -> nat): nat
    decreases |keys|
  {
    if keys == {} then 0 else Tally(m, keys - {Pick(keys)}, f) + Sum(At(m, Pick(keys)), f)
  }

  lemma {:induction false} TallyTakes<K, V>(m: map<K, seq<V>>, keys: set<K>, k: K, f: V -> nat)
    requires k in keys
    ensures Tally(m, keys, f) == Tally(m, keys - {k}, f) + Sum(At(m, k), f)
    decreases |keys|
  {
    var p := Pick(keys);
    if p != k {
      TallyTakes(m, keys - {p}, k, f);
      TallyTakes(m, keys - {k}, p, f);
      assert keys - {p} - {k} == keys - {k} - {p};
    }
  }

  lemma {:induction false} TallySame<K, V>(m: map<K, seq<V>>, m': map<K, seq<V>>, keys: set<K>, f: V -> nat)
    requires forall k :: k in keys ==> At(m', k) == At(m, k)
    ensures Tally(m', keys, f) == Tally(m, keys, f)
    decreases |keys|
  {
    if keys != {} { TallySame(m, m', keys - {Pick(keys)}, f); }
  }

  ghost function Total<K, V>(m: map<K, seq<V>>, f: V -> nat): nat
  {
    Tally(m, m.Keys, f)
  }

  lemma TotalPut<K, V>(m: map<K, seq<V>>, k: K, s: seq<V>, f: V -> nat)
    ensures Total(m[k := s], f) + Sum(At(m, k), f) == Total(m, f) + Sum(s, f)
  {
    var m' := m[k := s];
    TallyTakes(m', m'.Keys, k, f);
    TallySame(m, m', m'.Keys - {k}, f);
    if k in m {
      TallyTakes(m, m.Keys, k, f);
      assert m'.Keys == m.Keys;
    } else {
      assert m'.Keys - {k} == m.Keys;
    }
  }

  // ---- the messages of a network ----

  /** Is this the message with body b?  Nothing else in a message stays the same. */
  function OfMsg(b: int): Msg -> nat
  {
    (m: Msg) => if m.hdr.body == b then 1 else 0
  }

  /** A message that LinkMsg has sent is on the wire, not on its way to it. */
  function OfTransit(b: int): Transit -> nat
  {
    (tr: Transit) => if tr.Sending? || tr.msg.hdr.body != b then 0 else 1
  }

  function OfArrival(b: int): Arrival -> nat
  {
    (a: Arrival) => if a.msg.hdr.body == b then 1 else 0
  }

  /** How often message b is on a wire, waits, is on its way out, or has been handed over, in all. */
  ghost function Copies(net: Net, b: int): nat
  {
    Total(net.wires, OfMsg(b)) + Total(net.waiting, OfMsg(b)) + Total(net.through, OfTransit(b))
    + Sum(net.log, OfArrival(b))
  }

  lemma SentCopies(net: Net, k: NodeId, l: Byte, m: Msg, b: int)
    ensures Copies(Sent(net, k, l, m), b) == Copies(net, b) + OfMsg(b)(m)
  {
    SumSnoc(At(net.wires, End(k, l)), m, OfMsg(b));
    TotalPut(net.wires, End(k, l), At(net.wires, End(k, l)) + [m], OfMsg(b));
  }

  lemma EnteredCopies(net: Net, k: NodeId, tr: Transit, b: int)
    ensures Copies(Entered(net, k, tr), b) == Copies(net, b) + OfTransit(b)(tr)
  {
    SumSnoc(At(net.through, k), tr, OfTransit(b));
    TotalPut(net.through, k, At(net.through, k) + [tr], OfTransit(b));
  }

  lemma DepartedCopies(net: Net, k: NodeId, j: nat, b: int)
    requires j < |At(net.through, k)|
    ensures Copies(Departed(net, k, j), b) + OfTransit(b)(At(net.through, k)[j]) == Copies(net, b)
  {
    SumCut(At(net.through, k), j, OfTransit(b));
    TotalPut(net.through, k, Cut(At(net.through, k), j), OfTransit(b));
  }

  lemma TakenCopies(net: Net, k: NodeId, j: nat, b: int)
    requires j < |At(net.waiting, k)|
    ensures Copies(net.(waiting := net.waiting[k := Cut(At(net.waiting, k), j)]), b) + OfMsg(b)(At(net.waiting, k)[j])
         == Copies(net, b)
  {
    SumCut(At(net.waiting, k), j, OfMsg(b));
    TotalPut(net.waiting, k, Cut(At(net.waiting, k), j), OfMsg(b));
  }

  lemma KeptCopies(net: Net, k: NodeId, m: Msg, b: int)
    ensures Copies(net.(waiting := net.waiting[k := At(net.waiting, k) + [m]]), b) == Copies(net, b) + OfMsg(b)(m)
  {
    SumSnoc(At(net.waiting, k), m, OfMsg(b));
    TotalPut(net.waiting, k, At(net.waiting, k) + [m], OfMsg(b));
  }

  lemma LostCopies(net: Net, e: End, j: nat, b: int)
    requires j < |At(net.wires, e)|
    ensures Copies(net.(wires := net.wires[e := Cut(At(net.wires, e), j)]), b) + OfMsg(b)(At(net.wires, e)[j])
         == Copies(net, b)
  {
    SumCut(At(net.wires, e), j, OfMsg(b));
    TotalPut(net.wires, e, Cut(At(net.wires, e), j), OfMsg(b));
  }

  lemma ReadCopies(net: Net, e: End, b: int)
    requires At(net.wires, e) != []
    ensures Copies(net.(wires := net.wires[e := At(net.wires, e)[1..]]), b) + OfMsg(b)(At(net.wires, e)[0])
         == Copies(net, b)
  {
    SumTail(At(net.wires, e), OfMsg(b));
    TotalPut(net.wires, e, At(net.wires, e)[1..], OfMsg(b));
  }

  lemma LoggedCopies(net: Net, a: Arrival, b: int)
    ensures Copies(net.(log := net.log + [a]), b) == Copies(net, b) + OfMsg(b)(a.msg)
  {
    SumSnoc(net.log, a, OfArrival(b));
  }

  lemma ClaimsCopies(topo: Topology, net: Net, k: NodeId, e: End, m: Msg, c: Msg, l: Byte, b: int)
    requires k in net.L.tabs && HasEntry(net.L.tabs[k], Index(m.hdr.Dest)) && c.hdr == m.hdr
    ensures Copies(Claims(topo, net, k, e, m, c, l), b) == Copies(net, b) + OfMsg(b)(m)
  {
    if m.hdr.size <= SINGLE_BUFF_SIZE {
      var out := Readdressed(topo, net.L, k, c, l, NULL_PORT);
      SentCopies(net, k, l, out, b);
      EnteredCopies(Sent(net, k, l, out), k, Sending(l, e, c.hdr, m.hdr.Dest), b);
    } else {
      EnteredCopies(net, k, Claim(l, e, c, Current(net.L, Hop(k, Index(m.hdr.Dest)))), b);
    }
  }

  /** Whatever fate a message meets, short of being disposed of, it is then there once more. */
  lemma DealtCopies(topo: Topology, net: Net, L': Ledger, k: NodeId, e: End, m: Msg, m': Msg, fate: Fate, b: int)
    requires fate.Claimed? ==> k in L'.tabs && HasEntry(L'.tabs[k], Index(m.hdr.Dest)) && m'.hdr == m.hdr
    requires m'.hdr.body == m.hdr.body
    ensures Copies(Dealt(topo, net, L', k, e, m, m', fate), b)
         == Copies(net, b) + if fate.Sunk? then 0 else OfMsg(b)(m)
  {
    var net1 := net.(L := L');
    assert Copies(net1, b) == Copies(net, b);
    match fate
    case Delivered(i) => LoggedCopies(net1, Arrival(m', Current(L', Hop(k, i))), b);
    case Forwarded(l) => EnteredCopies(net1, k, Queued(l, m'), b);
    case Claimed(l) => ClaimsCopies(topo, net1, k, e, m, m', l, b);
    case Buffered => KeptCopies(net1, k, m, b);
    case Sunk(_) =>
  }

  // ---- what is thrown away ----

  /** No use in sending to dest: its entry, as it is now, is another's. */
  predicate Stale(t: Table, dest: Word)
    requires HasEntry(t, Index(dest))
  {
    NotSameCycle(dest, Entry(t, Index(dest)))
  }

  /**
   LinkMsg disposes of a message come by link l if the entry of its Dest, once
   the reply port has been dealt with, is free or stale, if it leads to a link
   that is down, or if it is a local port without a receiver and the message
   asked not to wait.
   */
  ghost predicate ThrownByLinkMsg(t: Table, l: Byte, hdr: MsgHdr, up: bool, direct: bool)
    requires MayInstall(t, hdr)
  {
    InstallReplyFacts(t, l, hdr);
    var t1 := InstallReply(t, l, hdr).0;
    var kind := Entry(t1, Index(hdr.Dest)).Type;
    kind.TFree? || Stale(t1, hdr.Dest) || if kind.TLocal? then !direct && hdr.sacrifice else !up
  }

  /** _PutMsg returns an error for a null or stale Dest and for a link that is down. */
  predicate ThrownByPutMsg(t: Table, hdr: MsgHdr, up: bool)
    requires HasEntry(t, Index(hdr.Dest))
  {
    hdr.Dest == NULL_PORT || Stale(t, hdr.Dest) || (!Entry(t, Index(hdr.Dest)).Type.TLocal? && !up)
  }

  /** Dest, once the reply port has been dealt with, is of a local port. */
  ghost predicate Arrives(t: Table, l: Byte, hdr: MsgHdr)
    requires MayInstall(t, hdr)
  {
    InstallReplyFacts(t, l, hdr);
    Entry(InstallReply(t, l, hdr).0, Index(hdr.Dest)).Type.TLocal?
  }

  lemma AcceptFates(t: Table, l: Byte, hdr: MsgHdr, up: bool, direct: bool)
    requires MayInstall(t, hdr)
    ensures var fate, goes := Accept(t, l, hdr, up, direct).2, !ThrownByLinkMsg(t, l, hdr, up, direct);
            && (fate.Buffered? <==> goes && !direct)
            && (fate.Delivered? <==> goes && direct && Arrives(t, l, hdr))
            && (fate.Delivered? ==> fate.index == Index(hdr.Dest))
            && (fate.Sunk? <==> !goes)
            && !fate.Forwarded?
            && Accept(t, l, hdr, up, direct).1.body == hdr.body
  {
    InstallReplyFacts(t, l, hdr);
  }

  lemma PutMsgFates(t: Table, hdr: MsgHdr, up: bool)
    requires HasEntry(t, Index(hdr.Dest))
    ensures var (fate, goes) := (PutMsg(t, hdr, up).2, !ThrownByPutMsg(t, hdr, up));
            && (fate.Delivered? <==> goes && Entry(t, Index(hdr.Dest)).Type.TLocal?)
            && (fate.Delivered? ==> fate.index == Index(hdr.Dest) && PutMsg(t, hdr, up).1 == hdr)
            && (fate.Sunk? <==> !goes)
            && !fate.Buffered? && !fate.Claimed?
            && PutMsg(t, hdr, up).1.body == hdr.body
  {
  }

  /** How many copies of message b the event takes away. */
  ghost function Drops(topo: Topology, net: Net, ev: Event, b: int): nat
  {
    match ev
    case Put(k, j, up) =>
      if PutEnabled(net, k, j) && ThrownByPutMsg(net.L.tabs[k], At(net.waiting, k)[j].hdr, up)
      then OfMsg(b)(At(net.waiting, k)[j]) else 0
    case Receive(e, up, direct) =>
      if ReceiveEnabled(topo, net, e, up, direct)
         && ThrownByLinkMsg(net.L.tabs[topo[e].node], topo[e].link, At(net.wires, e)[0].hdr, up, direct)
      then OfMsg(b)(At(net.wires, e)[0]) else 0
    case Abandon(k, j) => if j < |At(net.through, k)| then OfTransit(b)(At(net.through, k)[j]) else 0
    case Lose(e, j) => if j < |At(net.wires, e)| then OfMsg(b)(At(net.wires, e)[j]) else 0
    case GiveUp(k, j) => if j < |At(net.waiting, k)| then OfMsg(b)(At(net.waiting, k)[j]) else 0
    case _ => 0
  }

  /** And how many it adds: a message is new if _PutMsg is called with it. */
  ghost function Adds(net: Net, ev: Event, b: int): nat
  {
    match ev
    case Post(k, m) =>
      if MsgOk(net.L, m, k, k) && Issued(net.L, m) && m.gap == 0 && m.via == m.to && net.L.home[m.to] == m.intended
      then OfMsg(b)(m) else 0
    case _ => 0
  }

  lemma PutConserves(topo: Topology, net: Net, k: NodeId, j: nat, up: bool, b: int)
    requires PutEnabled(net, k, j)
    ensures Copies(PutStep(topo, net, k, j, up), b) + Drops(topo, net, Event.Put(k, j, up), b) == Copies(net, b)
  {
    var m := At(net.waiting, k)[j];
    var (t', hdr', fate) := PutMsg(net.L.tabs[k], m.hdr, up);
    PutMsgRest(net.L.tabs[k], m.hdr, up);
    PutMsgFates(net.L.tabs[k], m.hdr, up);
    TakenCopies(net, k, j, b);
    DealtCopies(topo, net.(waiting := net.waiting[k := Cut(At(net.waiting, k), j)]),
                After(net.L, k, m.hdr, t', fate), k, End(k, 0), m, Onward(net.L, k, m, hdr'), fate, b);
  }

  lemma UsedTable(L: Ledger, k: NodeId, hdr: MsgHdr, dest: Word)
    requires k in L.tabs && HasEntry(L.tabs[k], Index(dest))
    ensures Used(L, k, hdr, dest).tabs == L.tabs[k := Consume(L.tabs[k], hdr, dest)]
  {
    assert L.tabs[k := L.tabs[k]] == L.tabs;
  }

  lemma AfterTable(L: Ledger, k: NodeId, hdr: MsgHdr, t': Table, hdr': MsgHdr, fate: Fate)
    requires k in L.tabs && HasEntry(L.tabs[k], Index(hdr.Dest)) && RestOfLinkMsg(L.tabs[k], hdr, t', hdr', fate)
    ensures After(L, k, hdr, t', fate).tabs == L.tabs[k := t']
  {
    if fate.Forwarded? {
      var L1 := WithTab(L, k, Aged(L.tabs[k], hdr.Dest));
      UsedTable(L1, k, hdr, hdr.Dest);
      assert L1.tabs[k := t'] == L.tabs[k := t'];
    }
  }

  lemma AcceptedTable(L: Ledger, at: End, hdr: MsgHdr, from: Tag, up: bool, direct: bool)
    requires at.node in L.tabs && MayInstall(L.tabs[at.node], hdr)
    requires hdr.Reply != NULL_PORT ==> from in L.home && from in L.dist
    ensures var (t', hdr', fate) := Accept(L.tabs[at.node], at.link, hdr, up, direct);
            var (L1, hdr1) := Installed(L, at, hdr, from);
            && at.node in L1.tabs && HasEntry(L1.tabs[at.node], Index(hdr1.Dest))
            && After(L1, at.node, hdr1, t', fate).tabs == L.tabs[at.node := t']
  {
    InstalledTables(L, at, hdr, from);
    AcceptRest(L.tabs[at.node], at.link, hdr, up, direct);
    var (t', hdr', fate) := Accept(L.tabs[at.node], at.link, hdr, up, direct);
    var (L1, hdr1) := Installed(L, at, hdr, from);
    AfterTable(L1, at.node, hdr1, t', hdr', fate);
    assert L1.tabs[at.node := t'] == L.tabs[at.node := t'];
  }

  /** What ReceiveStep comes to: message m1, or m2 once it is past the entry, meets its fate. */
  ghost predicate Dealing(L': Ledger, k: NodeId, m: Msg, m1: Msg, m2: Msg, fate: Fate)
  {
    && m1.hdr == m.hdr.(Reply := m1.hdr.Reply) && m2.hdr.body == m.hdr.body
    && k in L'.tabs && (fate.Claimed? ==> HasEntry(L'.tabs[k], Index(m.hdr.Dest)))
    && (fate.Claimed? || fate.Delivered? ==> m2.hdr == m1.hdr)
  }

  lemma ReceiveIs(topo: Topology, net: Net, e: End, up: bool, direct: bool)
    returns (L': Ledger, m1: Msg, m2: Msg, fate: Fate)
    requires ReceiveEnabled(topo, net, e, up, direct)
    ensures Dealing(L', topo[e].node, At(net.wires, e)[0], m1, m2, fate)
    ensures var at := topo[e];
            var (t', hdr', fate') := Accept(net.L.tabs[at.node], at.link, At(net.wires, e)[0].hdr, up, direct);
            && fate == fate' && m2.hdr == hdr' && L'.tabs == net.L.tabs[at.node := t']
    ensures ReceiveStep(topo, net, e, up, direct)
         == Dealt(topo, net.(wires := net.wires[e := At(net.wires, e)[1..]]), L', topo[e].node, e, m1, m2, fate)
  {
    var m, at := At(net.wires, e)[0], topo[e];
    var t := net.L.tabs[at.node];
    InstallReplyFacts(t, at.link, m.hdr);
    AcceptRest(t, at.link, m.hdr, up, direct);
    InstalledTables(net.L, at, m.hdr, m.from);
    AcceptedTable(net.L, at, m.hdr, m.from, up, direct);
    var (t', hdr', fate') := Accept(t, at.link, m.hdr, up, direct);
    var (L1, hdr1) := Installed(net.L, at, m.hdr, m.from);
    fate := fate';
    m1 := Rehomed(net.L, at.node, m, hdr1);
    L', m2 := After(L1, at.node, hdr1, t', fate), Onward(L1, at.node, m1, hdr');
  }

  lemma ReadCounts(topo: Topology, net: Net, e: End, L': Ledger, k: NodeId, m1: Msg, m2: Msg, fate: Fate, b: int)
    requires At(net.wires, e) != [] && Dealing(L', k, At(net.wires, e)[0], m1, m2, fate)
    ensures Copies(Dealt(topo, net.(wires := net.wires[e := At(net.wires, e)[1..]]), L', k, e, m1, m2, fate), b)
         == Copies(net, b) - if fate.Sunk? then OfMsg(b)(At(net.wires, e)[0]) else 0
  {
    ReadCopies(net, e, b);
    DealtCopies(topo, net.(wires := net.wires[e := At(net.wires, e)[1..]]), L', k, e, m1, m2, fate, b);
  }

  lemma ReceiveConserves(topo: Topology, net: Net, e: End, up: bool, direct: bool, b: int)
    requires ReceiveEnabled(topo, net, e, up, direct)
    ensures Copies(ReceiveStep(topo, net, e, up, direct), b) + Drops(topo, net, Receive(e, up, direct), b)
         == Copies(net, b)
  {
    AcceptFates(net.L.tabs[topo[e].node], topo[e].link, At(net.wires, e)[0].hdr, up, direct);
    var L', m1, m2, fate := ReceiveIs(topo, net, e, up, direct);
    ReadCounts(topo, net, e, L', topo[e].node, m1, m2, fate, b);
  }

  lemma ForwardConserves(topo: Topology, net: Net, k: NodeId, j: nat, tx: Word, b: int)
    requires ForwardEnabled(net, k, j)
    ensures Copies(ForwardStep(topo, net, k, j, tx), b) == Copies(net, b)
  {
    var tr := At(net.through, k)[j];
    var sending := Sending(tr.link, tr.wire, tr.msg.hdr, tr.msg.hdr.Dest);
    var net1 := net.(through := net.through[k := At(net.through, k)[j := sending]]);
    SumUpdate(At(net.through, k), j, sending, OfTransit(b));
    TotalPut(net.through, k, At(net.through, k)[j := sending], OfTransit(b));
    SentCopies(net1, k, tr.link, Readdressed(topo, net.L, k, tr.msg, tr.link, tx), b);
  }

  lemma PutEventConserves(topo: Topology, net: Net, k: NodeId, j: nat, up: bool, b: int)
    ensures Copies(Step(topo, net, Event.Put(k, j, up)), b) + Drops(topo, net, Event.Put(k, j, up), b) == Copies(net, b)
  {
    if PutEnabled(net, k, j) { PutConserves(topo, net, k, j, up, b); }
  }

  lemma ReceivedConserves(topo: Topology, net: Net, e: End, up: bool, direct: bool, b: int, net': Net)
    requires net' == if ReceiveEnabled(topo, net, e, up, direct) then ReceiveStep(topo, net, e, up, direct) else net
    ensures Copies(net', b) + Drops(topo, net, Receive(e, up, direct), b) == Copies(net, b)
  {
    if ReceiveEnabled(topo, net, e, up, direct) { ReceiveConserves(topo, net, e, up, direct, b); }
  }

  lemma ReceiveEventConserves(topo: Topology, net: Net, e: End, up: bool, direct: bool, b: int)
    ensures Copies(Step(topo, net, Receive(e, up, direct)), b) + Drops(topo, net, Receive(e, up, direct), b)
         == Copies(net, b)
  {
    ReceivedConserves(topo, net, e, up, direct, b, Step(topo, net, Receive(e, up, direct)));
  }

  lemma PostConserves(topo: Topology, net: Net, k: NodeId, m: Msg, b: int)
    ensures Copies(Step(topo, net, Post(k, m)), b) == Copies(net, b) + Adds(net, Post(k, m), b)
  {
    KeptCopies(net, k, m, b);
  }

  /** Messages that are given up, abandoned or lost. */
  lemma LossConserves(topo: Topology, net: Net, ev: Event, b: int)
    requires ev.Abandon? || ev.Lose? || ev.GiveUp?
    ensures Copies(Step(topo, net, ev), b) + Drops(topo, net, ev, b) == Copies(net, b)
  {
    match ev
    case Abandon(k, j) => if j < |At(net.through, k)| { DepartedCopies(net, k, j, b); }
    case Lose(e, j) => if j < |At(net.wires, e)| { LostCopies(net, e, j, b); }
    case GiveUp(k, j) => if j < |At(net.waiting, k)| { TakenCopies(net, k, j, b); }
  }

  lemma ForwardEventConserves(topo: Topology, net: Net, k: NodeId, j: nat, tx: Word, b: int)
    ensures Copies(Step(topo, net, Forward(k, j, tx)), b) == Copies(net, b)
  {
    if ForwardEnabled(net, k, j) { ForwardConserves(topo, net, k, j, tx, b); }
  }

  lemma SendConserves(topo: Topology, net: Net, k: NodeId, j: nat, b: int)
    ensures Copies(Step(topo, net, Send(k, j)), b) == Copies(net, b)
  {
    if SendEnabled(net, k, j) {
      var tr := At(net.through, k)[j];
      DepartedCopies(net, k, j, b);
      SentCopies(Departed(net, k, j), k, tr.link, tr.msg, b);
    }
  }

  lemma FinishConserves(topo: Topology, net: Net, k: NodeId, j: nat, b: int)
    ensures Copies(Step(topo, net, Finish(k, j)), b) == Copies(net, b)
  {
    if FinishEnabled(net, k, j) {
      var tr := At(net.through, k)[j];
      DepartedCopies(net.(L := Used(net.L, k, tr.hdr, tr.dest)), k, j, b);
    }
  }

  /** Each event takes away and adds the copies it should, and no others. */
  lemma StepConserves(topo: Topology, net: Net, ev: Event, b: int)
    ensures Copies(Step(topo, net, ev), b) + Drops(topo, net, ev, b) == Copies(net, b) + Adds(net, ev, b)
  {
    match ev
    case Open(_) =>
    case Free(_, _) =>
    case Attach(_, _) =>
    case Post(k, m) => PostConserves(topo, net, k, m, b);
    case Put(k, j, up) => PutEventConserves(topo, net, k, j, up, b);
    case Send(k, j) => SendConserves(topo, net, k, j, b);
    case Receive(e, up, direct) => ReceiveEventConserves(topo, net, e, up, direct, b);
    case Forward(k, j, tx) => ForwardEventConserves(topo, net, k, j, tx, b);
    case Finish(k, j) => FinishConserves(topo, net, k, j, b);
    case _ => LossConserves(topo, net, ev, b);
  }

  ghost function AllDrops(topo: Topology, net: Net, evs: seq<Event>, b: int): nat
    decreases |evs|
  {
    if evs == [] then 0 else Drops(topo, net, evs[0], b) + AllDrops(topo, Step(topo, net, evs[0]), evs[1..], b)
  }

  ghost function AllAdds(topo: Topology, net: Net, evs: seq<Event>, b: int): nat
    decreases |evs|
  {
    if evs == [] then 0 else Adds(net, evs[0], b) + AllAdds(topo, Step(topo, net, evs[0]), evs[1..], b)
  }

  /**
   Over every run, a message is there as often as it has been put, less what
   was thrown away, given up, abandoned or lost on a wire: it is never lost
   otherwise, and never doubled.
   */
  lemma {:induction false} RunConserves(topo: Topology, net: Net, evs: seq<Event>, b: int)
    ensures Copies(Networks.Run(topo, net, evs), b) + AllDrops(topo, net, evs, b)
         == Copies(net, b) + AllAdds(topo, net, evs, b)
    decreases |evs|
  {
    if evs != [] {
      var net1 := Step(topo, net, evs[0]);
      StepConserves(topo, net, evs[0], b);
      RunConserves(topo, net1, evs[1..], b);
      assert Networks.Run(topo, net, evs) == Networks.Run(topo, net1, evs[1..]);
    }
  }

  /** From the start, then, a message that was put once and not dropped is in exactly one place, once. */
  lemma ThereOnce(topo: Topology, net: Net, evs: seq<Event>, b: int)
    requires Started(net) && AllAdds(topo, net, evs, b) == 1 && AllDrops(topo, net, evs, b) == 0
    ensures Copies(Networks.Run(topo, net, evs), b) == 1
  {
    RunConserves(topo, net, evs, b);
  }

  // ---- where a message goes ----

  /** s' is s and the message with the given header; only its reply port may be new. */
  ghost predicate Last(s: seq<Msg>, s': seq<Msg>, hdr: MsgHdr)
  {
    |s'| == |s| + 1 && s'[..|s|] == s && s'[|s|].hdr == hdr.(Reply := s'[|s|].hdr.Reply)
  }

  /** It has been handed to the local port that its Dest now stands for on node k. */
  ghost predicate Handed(net: Net, net': Net, k: NodeId, hdr: MsgHdr)
  {
    && |net'.log| == |net.log| + 1 && net'.log[..|net.log|] == net.log
    && var a := net'.log[|net.log|];
       a.msg.hdr == hdr.(Reply := a.msg.hdr.Reply) && a.at == Current(net'.L, Hop(k, Index(hdr.Dest)))
  }

  /** It is kept to wait, if so told, and handed over, if so told. */
  ghost predicate Placed(net: Net, net': Net, k: NodeId, hdr: MsgHdr, waits: bool, arrives: bool)
  {
    && (if waits then Last(At(net.waiting, k), At(net'.waiting, k), hdr) else net'.waiting == net.waiting)
    && (if arrives then Handed(net, net', k, hdr) else net'.log == net.log)
  }

  lemma DealtPlaces(topo: Topology, net: Net, L': Ledger, k: NodeId, e: End, m: Msg, m': Msg, fate: Fate)
    requires fate.Claimed? ==> k in L'.tabs && HasEntry(L'.tabs[k], Index(m.hdr.Dest)) && m'.hdr == m.hdr
    ensures var net' := Dealt(topo, net, L', k, e, m, m', fate);
            && net'.waiting == (if fate.Buffered? then net.waiting[k := At(net.waiting, k) + [m]] else net.waiting)
            && net'.log == net.log + (if fate.Delivered? then [Arrival(m', Current(L', Hop(k, fate.index)))] else [])
            && net'.L == L'
  {
  }

  lemma ReceivedPlaces(topo: Topology, net: Net, e: End, up: bool, direct: bool, net': Net)
    requires ReceiveEnabled(topo, net, e, up, direct) && net' == ReceiveStep(topo, net, e, up, direct)
    ensures var hdr, at := At(net.wires, e)[0].hdr, topo[e];
            var t := net.L.tabs[at.node];
            var goes := !ThrownByLinkMsg(t, at.link, hdr, up, direct);
            Placed(net, net', at.node, hdr, goes && !direct, goes && direct && Arrives(t, at.link, hdr))
  {
    AcceptFates(net.L.tabs[topo[e].node], topo[e].link, At(net.wires, e)[0].hdr, up, direct);
    var L', m1, m2, fate := ReceiveIs(topo, net, e, up, direct);
    DealtPlaces(topo, net.(wires := net.wires[e := At(net.wires, e)[1..]]), L', topo[e].node, e, m1, m2, fate);
  }

  /**
   LinkMsg hands a message to a local port if and only if a receiver is there,
   sends it on if the link is free, and otherwise keeps it for later; it keeps
   no message for a local port that asked not to wait.
   */
  lemma ReceivePlaces(topo: Topology, net: Net, e: End, up: bool, direct: bool)
    requires ReceiveEnabled(topo, net, e, up, direct)
    ensures var hdr, at := At(net.wires, e)[0].hdr, topo[e];
            var t, net' := net.L.tabs[at.node], Step(topo, net, Receive(e, up, direct));
            var goes := !ThrownByLinkMsg(t, at.link, hdr, up, direct);
            Placed(net, net', at.node, hdr, goes && !direct, goes && direct && Arrives(t, at.link, hdr))
  {
    ReceivedPlaces(topo, net, e, up, direct, Step(topo, net, Receive(e, up, direct)));
  }

  /** _PutMsg hands a message over if and only if its Dest is a local port of the sender's node. */
  lemma PutPlaces(topo: Topology, net: Net, k: NodeId, j: nat, up: bool)
    requires PutEnabled(net, k, j)
    ensures var m := At(net.waiting, k)[j];
            var taken, t := net.(waiting := net.waiting[k := Cut(At(net.waiting, k), j)]), net.L.tabs[k];
            Placed(taken, Step(topo, net, Event.Put(k, j, up)), k, m.hdr, false,
                   !ThrownByPutMsg(t, m.hdr, up) && Entry(t, Index(m.hdr.Dest)).Type.TLocal?)
  {
    var m := At(net.waiting, k)[j];
    var (t', hdr', fate) := PutMsg(net.L.tabs[k], m.hdr, up);
    PutMsgFates(net.L.tabs[k], m.hdr, up);
    PutMsgRest(net.L.tabs[k], m.hdr, up);
    DealtPlaces(topo, net.(waiting := net.waiting[k := Cut(At(net.waiting, k), j)]),
                After(net.L, k, m.hdr, t', fate), k, End(k, 0), m, Onward(net.L, k, m, hdr'), fate);
  }

  // ---- what the caller is told ----

  /** The entry has been freed since tag was issued, and not a multiple of 256 times. */
  predicate FreedSince(L: Ledger, tag: Tag)
  {
    (Gen(L, tag.hop()) - tag.gen) % 0x100 != 0
  }

  /** That is what the kernel can tell of it. */
  lemma FreedIsStale(topo: Topology, L: Ledger, tag: Tag, dest: Word)
    requires LedgerOk(topo, L) && tag in L.home && Names(dest, tag) && Has(L.tabs, tag.hop())
    ensures Stale(L.tabs[tag.node], dest) <==> FreedSince(L, tag)
    ensures Gen(L, tag.hop()) == tag.gen ==> IsLive(L.tabs[tag.node], dest)
  {
    CycleCheck(topo, L, dest, tag);
  }

  /**
   _PutMsg's errors, by the history of its Dest: Err_BadPort if the entry has
   been freed since, but for a multiple of 256 times, and Err_BadLink if it
   leads to a link that is down.
   */
  lemma PutMsgErrors(topo: Topology, L: Ledger, tag: Tag, hdr: MsgHdr, up: bool)
    requires LedgerOk(topo, L) && tag in L.home && Names(hdr.Dest, tag) && Has(L.tabs, tag.hop())
    ensures var t, fate := L.tabs[tag.node], PutMsg(L.tabs[tag.node], hdr, up).2;
            var stale := hdr.Dest == NULL_PORT || FreedSince(L, tag);
            && (fate == Sunk(BadPort) <==> stale)
            && (fate == Sunk(BadLink) <==> !stale && !Entry(t, tag.index).Type.TLocal? && !up)
            && (fate.Sunk? ==> fate.rc == BadPort || fate.rc == BadLink)
  {
    FreedIsStale(topo, L, tag, hdr.Dest);
  }

  /** LinkMsg's reasons to dispose of a message, as far as they do not depend on the new reply port. */
  ghost predicate Reasons(t: Table, dest: Word, stale: bool, live: bool, fate: Fate, up: bool, waits: bool)
    requires HasEntry(t, Index(dest))
  {
    && (stale ==> fate == Sunk(BadPort))
    && (live ==>
          var local := Entry(t, Index(dest)).Type.TLocal?;
          && fate != Sunk(BadPort)
          && (fate == Sunk(BadRoute) <==> !local && !up)
          && (fate == Sunk(Congestion) <==> local && !waits))
  }

  /** The new surrogate does not make a stale descriptor good. */
  lemma StaleStays(t: Table, l: Byte, hdr: MsgHdr)
    requires MayInstall(t, hdr) && Stale(t, hdr.Dest)
    ensures var t1 := InstallReply(t, l, hdr).0; HasEntry(t1, Index(hdr.Dest)) && Stale(t1, hdr.Dest)
  {
    InstallReplyFacts(t, l, hdr);
  }

  lemma AcceptErrors(t: Table, l: Byte, hdr: MsgHdr, up: bool, direct: bool)
    requires MayInstall(t, hdr)
    ensures Reasons(t, hdr.Dest, Stale(t, hdr.Dest), IsLive(t, hdr.Dest), Accept(t, l, hdr, up, direct).2,
                    up, direct || !hdr.sacrifice)
  {
    if IsLive(t, hdr.Dest) {
      InstallReplyFacts(t, l, hdr);
      InstallKeepsPort(t, l, hdr, hdr.Dest);
    } else if Stale(t, hdr.Dest) {
      StaleStays(t, l, hdr);
    }
  }

  /** They go by its history likewise; it buffers nothing for a link that is down. */
  lemma LinkMsgErrors(topo: Topology, L: Ledger, tag: Tag, l: Byte, hdr: MsgHdr, up: bool, direct: bool)
    requires LedgerOk(topo, L) && tag in L.home && Names(hdr.Dest, tag) && Has(L.tabs, tag.hop())
    requires MayInstall(L.tabs[tag.node], hdr)
    ensures Reasons(L.tabs[tag.node], hdr.Dest, FreedSince(L, tag), Gen(L, tag.hop()) == tag.gen,
                    Accept(L.tabs[tag.node], l, hdr, up, direct).2, up, direct || !hdr.sacrifice)
  {
    FreedIsStale(topo, L, tag, hdr.Dest);
    AcceptErrors(L.tabs[tag.node], l, hdr, up, direct);
  }
}
