/**
 What happens to a large message on its way through a processor.  LinkMsg looks
 at the entry of its destination, waits for the double buffer process, and only
 then reads the descriptor to send the message on to (kernel/linkmsg1.c:171,
 :486 and :489).  If the entry is freed and used again in between, the message
 goes to whatever the entry leads to by then.
 */
module Slips {
  import opened Lists
  import opened Words
  import opened Ports
  import opened Routing
  import opened Journeys
  import opened Ledgers
  import opened Networks

  // ---- what a message is bound for when it is sent ----

  /** The message as it leaves, tx being what LinkMsg would find in a local port's entry. */
  ghost function Leaving(topo: Topology, net: Net, k: NodeId, j: nat, tx: Word): Msg
    requires ForwardEnabled(net, k, j)
  {
    Readdressed(topo, net.L, k, At(net.through, k)[j].msg, At(net.through, k)[j].link, tx)
  }

  /** It is not bound for what it was bound for when it was claimed. */
  ghost predicate Slips(topo: Topology, net: Net, k: NodeId, j: nat, tx: Word)
    requires ForwardEnabled(net, k, j)
  {
    var c, m, home := At(net.through, k)[j].msg, Leaving(topo, net, k, j, tx), net.L.home;
    m.via != c.via && !(m.via in home && c.via in home && home[m.via] == home[c.via])
  }

  /** The entry has not been freed since LinkMsg looked at it. */
  ghost predicate Unfreed(net: Net, k: NodeId, j: nat)
    requires ForwardEnabled(net, k, j)
  {
    var tr := At(net.through, k)[j]; Gen(net.L, tr.tag.hop()) == tr.tag.gen
  }

  lemma ClaimIs(topo: Topology, net: Net, k: NodeId, j: nat)
    requires Inv(topo, net) && ForwardEnabled(net, k, j)
    ensures ClaimOk(topo, net.L, k, At(net.through, k)[j])
    ensures var tr := At(net.through, k)[j];
            TagOk(net.L, tr.tag) && EntryOk(topo, net.L, tr.tag.hop()) && CycleOk(net.L, tr.tag.hop())
  {
    assert ThroughOk(topo, net, k) && At(net.through, k)[j] in At(net.through, k);
  }

  /**
   Whatever has become of the entry, this is what the message is bound for when
   it goes out.  If the entry stands for a remote port of the node the message
   goes to, then for what that stands for.  If it is free, for the 255th use of
   the neighbour's entry 0, which is what the null port calls for.  And otherwise
   for whatever the word in it happens to call for there.
   */
  lemma BoundFor(topo: Topology, net: Net, k: NodeId, j: nat, tx: Word)
    requires Inv(topo, net) && ForwardEnabled(net, k, j) && At(net.through, k)[j].msg.gap == 0
    ensures var h := Hop(k, Index(At(net.through, k)[j].msg.hdr.Dest));
            var y := Neighbour(topo, k, At(net.through, k)[j].link);
            var m, home := Leaving(topo, net, k, j, tx), net.L.home;
            && m.via == m.to && m.to.node == y && Names(m.hdr.Dest, m.to)
            && (Points(net.L, h, y) ==> m.via in home && home[m.via] == home[Current(net.L, h)])
            && (Ent(net.L.tabs, h).Type.TFree? ==> m.hdr.Dest == NULL_PORT && m.via == Tag(y, 0, 0xff))
            && (!Points(net.L, h, y) ==> m.via.gen < 0x100)
            && (Ent(net.L.tabs, h).Type.TLocal? ==> m.hdr.Dest == tx)
  {
    ClaimIs(topo, net, k, j);
    var tr := At(net.through, k)[j];
    CalledNames(Neighbour(topo, k, tr.link), Leaving(topo, net, k, j, tx).hdr.Dest);
  }

  /**
   Over every run from there, short of 256 frees, what is so bound is handed to
   the port that the entry stood for when LinkMsg read it, or to none; so the
   message is misdelivered if and only if that is not the one its sender named.
   */
  lemma HandedTo(topo: Topology, net: Net, k: NodeId, j: nat, tx: Word, evs: seq<Event>, a: Arrival)
    requires Wired(topo) && Inv(topo, net) && ForwardEnabled(net, k, j) && At(net.through, k)[j].msg.gap == 0
    requires var h := Hop(k, Index(At(net.through, k)[j].msg.hdr.Dest));
             Points(net.L, h, Neighbour(topo, k, At(net.through, k)[j].link))
    requires a in Networks.Run(topo, Step(topo, net, Forward(k, j, tx)), evs).log
    requires a.msg.gap < 0x100 && a.msg.via == Leaving(topo, net, k, j, tx).via
    ensures a.at == net.L.home[Current(net.L, Hop(k, Index(At(net.through, k)[j].msg.hdr.Dest)))]
  {
    BoundFor(topo, net, k, j, tx);
    StepKeeps(topo, net, Forward(k, j, tx));
    ForwardLedger(topo, net, k, j, tx);
    RunExtends(topo, Step(topo, net, Forward(k, j, tx)), evs);
    NeverMisdelivered(topo, Step(topo, net, Forward(k, j, tx)), evs, a);
  }

  lemma ForwardLedger(topo: Topology, net: Net, k: NodeId, j: nat, tx: Word)
    ensures Step(topo, net, Forward(k, j, tx)).L == net.L
  {
  }

  /**
   So a message slips, if no check has been fooled before, unless its entry
   leads where it led: if and only if the entry now stands for another port, or
   for none of that node and the word in it does not happen to call for the same.
   */
  lemma SlipsWhen(topo: Topology, net: Net, k: NodeId, j: nat, tx: Word)
    requires Inv(topo, net) && ForwardEnabled(net, k, j) && At(net.through, k)[j].msg.gap == 0
    ensures var tr, home := At(net.through, k)[j], net.L.home;
            var h, y := Hop(k, Index(tr.msg.hdr.Dest)), Neighbour(topo, k, tr.link);
            var word := Leaving(topo, net, k, j, tx).hdr.Dest;
            tr.msg.via in home &&
            (Slips(topo, net, k, j, tx) <==>
               if Points(net.L, h, y) then home[Current(net.L, h)] != home[tr.msg.via]
               else Called(y, word) !in home || home[Called(y, word)] != home[tr.msg.via])
  {
    ClaimIs(topo, net, k, j);
    BoundFor(topo, net, k, j, tx);
  }

  /** If the entry has not been freed meanwhile the message goes where it would have gone at once. */
  lemma SlipsOnlyIfFreed(topo: Topology, net: Net, k: NodeId, j: nat, tx: Word)
    requires Inv(topo, net) && ForwardEnabled(net, k, j)
    ensures Unfreed(net, k, j) ==> !Slips(topo, net, k, j, tx)
  {
    ClaimIs(topo, net, k, j);
  }

  /**
   The check that LinkMsg makes before it waits would tell, if it were made
   again: it passes just when the entry has been freed a multiple of 256 times
   meanwhile, and so, short of 256, no message that passes it slips.
   */
  lemma RecheckSuffices(topo: Topology, net: Net, k: NodeId, j: nat, tx: Word)
    requires Inv(topo, net) && ForwardEnabled(net, k, j)
    ensures var tr := At(net.through, k)[j];
            var freed := Gen(net.L, tr.tag.hop()) - tr.tag.gen;
            var fails := NotSameCycle(tr.msg.hdr.Dest, Entry(net.L.tabs[k], Index(tr.msg.hdr.Dest)));
            (!fails <==> freed % 0x100 == 0) && (!fails && freed < 0x100 ==> !Slips(topo, net, k, j, tx))
  {
    ClaimIs(topo, net, k, j);
    var tr := At(net.through, k)[j];
    CycleCheck(topo, net.L, tr.msg.hdr.Dest, tr.tag);
    SmallMultiple(Gen(net.L, tr.tag.hop()) - tr.tag.gen);
    SlipsOnlyIfFreed(topo, net, k, j, tx);
  }

  // ---- a message without a destination ----

  /**
   _PutMsg refuses the null port.  LinkMsg does not look for it, but its check
   fails unless entry 0 has been freed 255 times, or 256 times more often.
   */
  lemma NullRefused(topo: Topology, L: Ledger, y: NodeId)
    requires LedgerOk(topo, L) && Has(L.tabs, Hop(y, 0))
    ensures !NotSameCycle(NULL_PORT, Ent(L.tabs, Hop(y, 0))) <==> (Gen(L, Hop(y, 0)) - 0xff) % 0x100 == 0
    ensures !NotSameCycle(NULL_PORT, Ent(L.tabs, Hop(y, 0))) ==> Gen(L, Hop(y, 0)) >= 0xff
  {
    assert CycleOk(L, Hop(y, 0));
    CalledNames(y, NULL_PORT);
    EarlyCheck(L, Hop(y, 0), NULL_PORT, Called(y, NULL_PORT));
  }

  /** In no run, then, is a message that was sent on by a free entry handed to anyone before that. */
  lemma HandedToNobody(topo: Topology, net: Net, evs: seq<Event>, a: Arrival, y: NodeId)
    requires Wired(topo) && Inv(topo, net) && a in Networks.Run(topo, net, evs).log
    requires a.msg.gap < 0x100 && a.msg.via == Tag(y, 0, 0xff)
    ensures Gen(Networks.Run(topo, net, evs).L, Hop(y, 0)) >= 0xff
  {
    RunKeeps(topo, net, evs);
    NeverMisdelivered(topo, net, evs, a);
    assert TagOk(Networks.Run(topo, net, evs).L, a.msg.via);
  }

  // ---- runs in which no message slips ----

  ghost predicate SteadyStep(topo: Topology, net: Net, ev: Event)
  {
    ev.Forward? && ForwardEnabled(net, ev.k, ev.j) ==> !Slips(topo, net, ev.k, ev.j, ev.tx)
  }

  ghost predicate Steady(topo: Topology, net: Net, evs: seq<Event>)
    decreases |evs|
  {
    evs == [] || (SteadyStep(topo, net, evs[0]) && Steady(topo, Step(topo, net, evs[0]), evs[1..]))
  }

  /** No entry is freed between LinkMsg's look at it and its reading it. */
  ghost predicate Undisturbed(topo: Topology, net: Net, evs: seq<Event>)
    decreases |evs|
  {
    evs != [] ==>
      && (evs[0].Forward? && ForwardEnabled(net, evs[0].k, evs[0].j) ==> Unfreed(net, evs[0].k, evs[0].j))
      && Undisturbed(topo, Step(topo, net, evs[0]), evs[1..])
  }

  lemma {:induction false} UndisturbedIsSteady(topo: Topology, net: Net, evs: seq<Event>)
    requires Wired(topo) && Inv(topo, net) && Undisturbed(topo, net, evs)
    ensures Steady(topo, net, evs)
    decreases |evs|
  {
    if evs != [] {
      if evs[0].Forward? && ForwardEnabled(net, evs[0].k, evs[0].j) {
        SlipsOnlyIfFreed(topo, net, evs[0].k, evs[0].j, evs[0].tx);
      }
      StepKeeps(topo, net, evs[0]);
      UndisturbedIsSteady(topo, Step(topo, net, evs[0]), evs[1..]);
    }
  }

  /** The message is bound for the port its sender named. */
  ghost predicate Straight(L: Ledger, m: Msg)
  {
    m.via in L.home && L.home[m.via] == m.intended
  }

  ghost predicate NoneOn(topo: Topology, net: Net, e: End)
  {
    e in topo ==> forall m :: m in At(net.wires, e) ==> Straight(net.L, m)
  }

  /** The message in transit is, if the link leads anywhere. */
  ghost predicate StraightOut(topo: Topology, L: Ledger, k: NodeId, tr: Transit)
  {
    !tr.Sending? && End(k, tr.link) in topo ==> Straight(L, tr.msg)
  }

  ghost predicate NoneAt(topo: Topology, net: Net, k: NodeId)
  {
    && (forall m :: m in At(net.waiting, k) ==> Straight(net.L, m))
    && (forall tr :: tr in At(net.through, k) ==> StraightOut(topo, net.L, k, tr))
  }

  /** No message in the network has slipped. */
  ghost predicate NoneSlipped(topo: Topology, net: Net)
  {
    && (forall e :: NoneOn(topo, net, e))
    && (forall k :: NoneAt(topo, net, k))
    && (forall a :: a in net.log ==> Straight(net.L, a.msg))
  }

  lemma SentNone(topo: Topology, net: Net, k: NodeId, l: Byte, m': Msg)
    requires NoneSlipped(topo, net) && (End(k, l) in topo ==> Straight(net.L, m'))
    ensures NoneSlipped(topo, Sent(net, k, l, m'))
  {
    var net' := Sent(net, k, l, m');
    forall e ensures NoneOn(topo, net', e) {
      assert NoneOn(topo, net, e) && AddsTo(net.wires, net'.wires, End(k, l), m', e);
    }
    forall i ensures NoneAt(topo, net', i) { assert NoneAt(topo, net, i); }
  }

  lemma EnteredNone(topo: Topology, net: Net, k: NodeId, tr: Transit)
    requires NoneSlipped(topo, net) && StraightOut(topo, net.L, k, tr)
    ensures NoneSlipped(topo, Entered(net, k, tr))
  {
    var net' := Entered(net, k, tr);
    forall e ensures NoneOn(topo, net', e) { assert NoneOn(topo, net, e); }
    forall i ensures NoneAt(topo, net', i) {
      assert NoneAt(topo, net, i) && AddsTo(net.through, net'.through, k, tr, i);
    }
  }

  lemma BufferedNone(topo: Topology, net: Net, k: NodeId, m: Msg)
    requires NoneSlipped(topo, net) && Straight(net.L, m)
    ensures NoneSlipped(topo, net.(waiting := net.waiting[k := At(net.waiting, k) + [m]]))
  {
    var net' := net.(waiting := net.waiting[k := At(net.waiting, k) + [m]]);
    forall e ensures NoneOn(topo, net', e) { assert NoneOn(topo, net, e); }
    forall i ensures NoneAt(topo, net', i) {
      assert NoneAt(topo, net, i) && AddsTo(net.waiting, net'.waiting, k, m, i);
    }
  }

  lemma DropNone(topo: Topology, net: Net, net': Net)
    requires NoneSlipped(topo, net) && net'.L == net.L && net'.log == net.log
    requires forall e :: SubsetAt(net.wires, net'.wires, e)
    requires forall k :: SubsetAt(net.waiting, net'.waiting, k)
    requires forall k :: SubsetAt(net.through, net'.through, k)
    ensures NoneSlipped(topo, net')
  {
    forall e ensures NoneOn(topo, net', e) {
      assert NoneOn(topo, net, e) && SubsetAt(net.wires, net'.wires, e);
    }
    forall k ensures NoneAt(topo, net', k) {
      assert NoneAt(topo, net, k) && SubsetAt(net.waiting, net'.waiting, k) && SubsetAt(net.through, net'.through, k);
    }
  }

  lemma LedgerNone(topo: Topology, net: Net, L': Ledger)
    requires NoneSlipped(topo, net) && Extends(net.L, L')
    ensures NoneSlipped(topo, net.(L := L'))
  {
    forall e ensures NoneOn(topo, net.(L := L'), e) { assert NoneOn(topo, net, e); }
    forall k ensures NoneAt(topo, net.(L := L'), k) { assert NoneAt(topo, net, k); }
  }

  lemma LoggedNone(topo: Topology, net: Net, a: Arrival)
    requires NoneSlipped(topo, net) && Straight(net.L, a.msg)
    ensures NoneSlipped(topo, net.(log := net.log + [a]))
  {
    forall e ensures NoneOn(topo, net.(log := net.log + [a]), e) { assert NoneOn(topo, net, e); }
    forall k ensures NoneAt(topo, net.(log := net.log + [a]), k) { assert NoneAt(topo, net, k); }
  }

  lemma ClaimsNone(topo: Topology, net: Net, k: NodeId, e: End, m: Msg, c: Msg, l: Byte)
    requires NoneSlipped(topo, net) && Straight(net.L, c) && FateOk(topo, net.L, k, m, c, Claimed(l))
    ensures NoneSlipped(topo, Claims(topo, net, k, e, m, c, l))
  {
    if m.hdr.size <= SINGLE_BUFF_SIZE {
      var m' := Readdressed(topo, net.L, k, c, l, NULL_PORT);
      SentNone(topo, net, k, l, m');
      EnteredNone(topo, Sent(net, k, l, m'), k, Sending(l, e, c.hdr, m.hdr.Dest));
    } else {
      EnteredNone(topo, net, k, Claim(l, e, c, Current(net.L, Hop(k, Index(m.hdr.Dest)))));
    }
  }

  lemma DealtNone(topo: Topology, net: Net, L': Ledger, k: NodeId, e: End, m: Msg, m': Msg, fate: Fate)
    requires NoneSlipped(topo, net) && Extends(net.L, L') && Straight(L', m) && Straight(L', m')
    requires FateOk(topo, L', k, m, m', fate)
    ensures NoneSlipped(topo, Dealt(topo, net, L', k, e, m, m', fate))
  {
    LedgerNone(topo, net, L');
    var net1 := net.(L := L');
    match fate
    case Delivered(i) => LoggedNone(topo, net1, Arrival(m', Current(L', Hop(k, i))));
    case Forwarded(l) => EnteredNone(topo, net1, k, Queued(l, m'));
    case Claimed(l) => ClaimsNone(topo, net1, k, e, m, m', l);
    case Buffered => BufferedNone(topo, net1, k, m);
    case Sunk(_) =>
  }

  /** A message met at node k, whose ledger is now L, is dealt with. */
  lemma SettleNone(topo: Topology, net: Net, L: Ledger, k: NodeId, e: End, m: Msg, t': Table, hdr': MsgHdr, fate: Fate)
    requires NoneSlipped(topo, net) && LedgerOk(topo, L) && Extends(net.L, L) && Straight(L, m)
    requires MsgOk(L, m, k, k) && k in L.tabs && HasEntry(L.tabs[k], Index(m.hdr.Dest))
    requires RestOfLinkMsg(L.tabs[k], m.hdr, t', hdr', fate) && (fate.Forwarded? ==> Issued(L, m))
    ensures fate.Claimed? ==> HasEntry(t', Index(m.hdr.Dest)) && hdr' == m.hdr
    ensures NoneSlipped(topo, Dealt(topo, net, After(L, k, m.hdr, t', fate), k, e, m, Onward(L, k, m, hdr'), fate))
  {
    var L' := After(L, k, m.hdr, t', fate);
    AfterOk(topo, L, k, m.hdr, t', hdr', fate);
    FateIsOk(topo, L, k, m, t', hdr', fate);
    FateKept(topo, L, L', k, m, Onward(L, k, m, hdr'), t', hdr', fate);
    DealtNone(topo, net, L', k, e, m, Onward(L, k, m, hdr'), fate);
  }

  lemma PutNone(topo: Topology, net: Net, k: NodeId, j: nat, up: bool)
    requires Inv(topo, net) && NoneSlipped(topo, net) && PutEnabled(net, k, j)
    ensures NoneSlipped(topo, PutStep(topo, net, k, j, up))
  {
    var m := At(net.waiting, k)[j];
    var (t', hdr', fate) := PutMsg(net.L.tabs[k], m.hdr, up);
    assert WaitingOk(net, k) && NoneAt(topo, net, k);
    PutMsgRest(net.L.tabs[k], m.hdr, up);
    var net0 := net.(waiting := net.waiting[k := Cut(At(net.waiting, k), j)]);
    CutIsSubset(At(net.waiting, k), j);
    DropNone(topo, net, net0);
    SettleNone(topo, net0, net.L, k, End(k, 0), m, t', hdr', fate);
  }

  lemma ReceiveNone(topo: Topology, net: Net, e: End, up: bool, direct: bool)
    requires Wired(topo) && Inv(topo, net) && NoneSlipped(topo, net) && ReceiveEnabled(topo, net, e, up, direct)
    ensures NoneSlipped(topo, ReceiveStep(topo, net, e, up, direct))
  {
    var m, at := At(net.wires, e)[0], topo[e];
    assert WireOk(topo, net, e) && NoneOn(topo, net, e) && m in At(net.wires, e);
    RehomedOk(topo, net.L, at, m);
    AcceptRest(net.L.tabs[at.node], at.link, m.hdr, up, direct);
    var net0 := net.(wires := net.wires[e := At(net.wires, e)[1..]]);
    DropNone(topo, net, net0);
    var (t', hdr', fate) := Accept(net.L.tabs[at.node], at.link, m.hdr, up, direct);
    var (L1, hdr1) := Installed(net.L, at, m.hdr, m.from);
    SettleNone(topo, net0, L1, at.node, e, Rehomed(net.L, at.node, m, hdr1), t', hdr', fate);
  }

  lemma ForwardNone(topo: Topology, net: Net, k: NodeId, j: nat, tx: Word)
    requires Inv(topo, net) && NoneSlipped(topo, net) && ForwardEnabled(net, k, j) && !Slips(topo, net, k, j, tx)
    ensures NoneSlipped(topo, ForwardStep(topo, net, k, j, tx))
  {
    var tr := At(net.through, k)[j];
    var sending := Sending(tr.link, tr.wire, tr.msg.hdr, tr.msg.hdr.Dest);
    var net1 := net.(through := net.through[k := At(net.through, k)[j := sending]]);
    assert NoneAt(topo, net, k) && tr in At(net.through, k);
    forall i ensures NoneAt(topo, net1, i) {
      assert NoneAt(topo, net, i) && AddsTo(net.through, net1.through, k, sending, i);
    }
    forall e ensures NoneOn(topo, net1, e) { assert NoneOn(topo, net, e); }
    SentNone(topo, net1, k, tr.link, Leaving(topo, net, k, j, tx));
  }

  lemma DepartNone(topo: Topology, net: Net, k: NodeId, j: nat)
    requires NoneSlipped(topo, net) && j < |At(net.through, k)|
    ensures NoneSlipped(topo, Departed(net, k, j))
  {
    CutIsSubset(At(net.through, k), j);
    DropNone(topo, net, Departed(net, k, j));
  }

  lemma SendNone(topo: Topology, net: Net, k: NodeId, j: nat)
    requires NoneSlipped(topo, net) && SendEnabled(net, k, j)
    ensures NoneSlipped(topo, SendStep(net, k, j))
  {
    var tr := At(net.through, k)[j];
    assert NoneAt(topo, net, k) && tr in At(net.through, k);
    DepartNone(topo, net, k, j);
    SentNone(topo, Departed(net, k, j), k, tr.link, tr.msg);
  }

  lemma OpenNone(topo: Topology, net: Net, k: NodeId)
    requires Inv(topo, net) && NoneSlipped(topo, net)
    ensures NoneSlipped(topo, Step(topo, net, Open(k)))
  {
    if k in net.L.tabs && CanAllocate(net.L.tabs[k]) {
      OpenedOk(topo, net.L, k);
      LedgerNone(topo, net, Opened(net.L, k));
    }
  }

  lemma FreeNone(topo: Topology, net: Net, k: NodeId, port: Word)
    requires Inv(topo, net) && NoneSlipped(topo, net)
    ensures NoneSlipped(topo, Step(topo, net, Event.Free(k, port)))
  {
    if k in net.L.tabs && HasEntry(net.L.tabs[k], Index(port)) {
      ReleasedOk(topo, net.L, k, port);
      LedgerNone(topo, net, Released(net.L, k, port));
    }
  }

  lemma AttachNone(topo: Topology, net: Net, e: End, port: Word)
    requires Inv(topo, net) && NoneSlipped(topo, net)
    ensures NoneSlipped(topo, Step(topo, net, Attach(e, port)))
  {
    if MayAttach(topo, net.L, e, port) {
      AttachedOk(topo, net.L, e, port);
      LedgerNone(topo, net, Attached(topo, net.L, e, port));
    }
  }

  lemma PostNone(topo: Topology, net: Net, k: NodeId, m: Msg)
    requires NoneSlipped(topo, net)
    ensures NoneSlipped(topo, Step(topo, net, Post(k, m)))
  {
    if MsgOk(net.L, m, k, k) && Issued(net.L, m) && m.gap == 0 && Straight(net.L, m) { BufferedNone(topo, net, k, m); }
  }

  lemma FinishNone(topo: Topology, net: Net, k: NodeId, j: nat)
    requires Inv(topo, net) && NoneSlipped(topo, net) && FinishEnabled(net, k, j)
    ensures NoneSlipped(topo, FinishStep(net, k, j))
  {
    var tr := At(net.through, k)[j];
    UsedOk(topo, net.L, k, tr.hdr, tr.dest);
    LedgerNone(topo, net, Used(net.L, k, tr.hdr, tr.dest));
    DepartNone(topo, net.(L := Used(net.L, k, tr.hdr, tr.dest)), k, j);
  }

  lemma LoseNone(topo: Topology, net: Net, e: End, j: nat)
    requires NoneSlipped(topo, net)
    ensures NoneSlipped(topo, Step(topo, net, Lose(e, j)))
  {
    if j < |At(net.wires, e)| {
      CutIsSubset(At(net.wires, e), j);
      DropNone(topo, net, Step(topo, net, Lose(e, j)));
    }
  }

  lemma GiveUpNone(topo: Topology, net: Net, k: NodeId, j: nat)
    requires NoneSlipped(topo, net)
    ensures NoneSlipped(topo, Step(topo, net, GiveUp(k, j)))
  {
    if j < |At(net.waiting, k)| {
      CutIsSubset(At(net.waiting, k), j);
      DropNone(topo, net, Step(topo, net, GiveUp(k, j)));
    }
  }

  lemma PutStepNone(topo: Topology, net: Net, k: NodeId, j: nat, up: bool)
    requires Inv(topo, net) && NoneSlipped(topo, net)
    ensures NoneSlipped(topo, Step(topo, net, Event.Put(k, j, up)))
  {
    if PutEnabled(net, k, j) { PutNone(topo, net, k, j, up); }
  }

  lemma ReceivedNone(topo: Topology, net: Net, e: End, up: bool, direct: bool, net': Net)
    requires Wired(topo) && Inv(topo, net) && NoneSlipped(topo, net)
    requires net' == if ReceiveEnabled(topo, net, e, up, direct) then ReceiveStep(topo, net, e, up, direct) else net
    ensures NoneSlipped(topo, net')
  {
    if ReceiveEnabled(topo, net, e, up, direct) { ReceiveNone(topo, net, e, up, direct); }
  }

  lemma ReceiveStepNone(topo: Topology, net: Net, e: End, up: bool, direct: bool)
    requires Wired(topo) && Inv(topo, net) && NoneSlipped(topo, net)
    ensures NoneSlipped(topo, Step(topo, net, Receive(e, up, direct)))
  {
    ReceivedNone(topo, net, e, up, direct, Step(topo, net, Receive(e, up, direct)));
  }

  lemma SendStepNone(topo: Topology, net: Net, k: NodeId, j: nat)
    requires NoneSlipped(topo, net)
    ensures NoneSlipped(topo, Step(topo, net, Send(k, j)))
  {
    if SendEnabled(net, k, j) { SendNone(topo, net, k, j); }
  }

  lemma ForwardStepNone(topo: Topology, net: Net, k: NodeId, j: nat, tx: Word)
    requires Inv(topo, net) && NoneSlipped(topo, net) && SteadyStep(topo, net, Forward(k, j, tx))
    ensures NoneSlipped(topo, Step(topo, net, Forward(k, j, tx)))
  {
    if ForwardEnabled(net, k, j) { ForwardNone(topo, net, k, j, tx); }
  }

  lemma FinishStepNone(topo: Topology, net: Net, k: NodeId, j: nat)
    requires Inv(topo, net) && NoneSlipped(topo, net)
    ensures NoneSlipped(topo, Step(topo, net, Finish(k, j)))
  {
    if FinishEnabled(net, k, j) { FinishNone(topo, net, k, j); }
  }

  lemma AbandonNone(topo: Topology, net: Net, k: NodeId, j: nat)
    requires NoneSlipped(topo, net)
    ensures NoneSlipped(topo, Step(topo, net, Abandon(k, j)))
  {
    if j < |At(net.through, k)| { DepartNone(topo, net, k, j); }
  }

  lemma StepNone(topo: Topology, net: Net, ev: Event)
    requires Wired(topo) && Inv(topo, net) && NoneSlipped(topo, net) && SteadyStep(topo, net, ev)
    ensures NoneSlipped(topo, Step(topo, net, ev))
  {
    match ev
    case Open(k) => OpenNone(topo, net, k);
    case Free(k, port) => FreeNone(topo, net, k, port);
    case Attach(e, port) => AttachNone(topo, net, e, port);
    case Post(k, m) => PostNone(topo, net, k, m);
    case Put(k, j, up) => PutStepNone(topo, net, k, j, up);
    case Receive(e, up, direct) => ReceiveStepNone(topo, net, e, up, direct);
    case Send(k, j) => SendStepNone(topo, net, k, j);
    case Forward(k, j, tx) => ForwardStepNone(topo, net, k, j, tx);
    case Finish(k, j) => FinishStepNone(topo, net, k, j);
    case Abandon(k, j) => AbandonNone(topo, net, k, j);
    case Lose(e, j) => LoseNone(topo, net, e, j);
    case GiveUp(k, j) => GiveUpNone(topo, net, k, j);
  }

  lemma {:induction false} RunNone(topo: Topology, net: Net, evs: seq<Event>)
    requires Wired(topo) && Inv(topo, net) && NoneSlipped(topo, net) && Steady(topo, net, evs)
    ensures NoneSlipped(topo, Networks.Run(topo, net, evs))
    decreases |evs|
  {
    if evs != [] {
      StepKeeps(topo, net, evs[0]);
      StepNone(topo, net, evs[0]);
      RunNone(topo, Step(topo, net, evs[0]), evs[1..]);
    }
  }

  /**
   In every run in which no message slips, and so in every run in which no entry
   is freed between LinkMsg's look at it and its reading it, no message of any
   size is handed to a port its sender did not name, unless an entry it went
   through had been freed 256 times or more.
   */
  lemma SteadyNeverMisdelivers(topo: Topology, net: Net, evs: seq<Event>, a: Arrival)
    requires Wired(topo) && Started(net) && a in Networks.Run(topo, net, evs).log
    requires Steady(topo, net, evs) || Undisturbed(topo, net, evs)
    ensures a.msg.gap < 0x100 ==> a.at == a.msg.intended
  {
    StartedOk(topo, net);
    if !Steady(topo, net, evs) { UndisturbedIsSteady(topo, net, evs); }
    RunNone(topo, net, evs);
    NeverMisdelivered(topo, net, evs, a);
  }
}
