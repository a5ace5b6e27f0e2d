/**
 Ledgers that only grow: what single kernel operations leave of the ports in
 use when nothing is freed, and of the room for more.
 */
module Growths {
  import opened Words
  import opened Ports
  import opened Routing
  import opened Journeys
  import opened Ledgers

  // ---- tables with room ----

  /** At least n entries are free. */
  ghost predicate Spare(t: Table, n: nat)
  {
    ShapeOk(t) && exists fl :: FreeList(t, fl) && |fl| >= n
  }

  lemma SpareAllocates(t: Table, n: nat)
    requires Spare(t, n) && n > 0
    ensures Valid(t) && CanAllocate(t) && Stocked(t) == t && Spare(NewPort(t).0, n - 1)
  {
    var fl :| FreeList(t, fl) && |fl| >= n;
    PopFreeList(t, fl);
    var e := Entry(t, fl[0]);
    PutShape(t, fl[0], Allocated(e), e.Owner);
  }

  lemma SpareWritten(t: Table, n: nat, i: nat, e: PTE)
    requires Spare(t, n) && HasEntry(t, i) && Entry(t, i).Type.TFree? == e.Type.TFree?
    requires e.Type.TFree? ==> e.Owner == Entry(t, i).Owner
    ensures Spare(Put(t, i, e), n)
  {
    var fl :| FreeList(t, fl) && |fl| >= n;
    PutShape(t, i, e, t.freeq);
    forall k | 0 <= k < |fl| ensures Linked(Put(t, i, e), fl, k) {
      assert Linked(t, fl, k);
    }
    assert FreeList(Put(t, i, e), fl);
  }

  lemma SpareAged(t: Table, n: nat, port: Word)
    requires Spare(t, n) && HasEntry(t, Index(port))
    ensures Spare(Aged(t, port), n)
  {
    SpareWritten(t, n, Index(port), Entry(t, Index(port)).(Age := 1));
  }

  lemma SpareInstalled(t: Table, n: nat, l: Byte, hdr: MsgHdr)
    requires Spare(t, n) && n > 0 && MayInstall(t, hdr) && hdr.Reply != NULL_PORT
    ensures Spare(InstallReply(t, l, hdr).0, n - 1)
  {
    SpareAllocates(t, n);
    NewPortIsNew(t);
    var (t1, reply) := NewPort(t);
    var i := Index(reply);
    SpareWritten(t1, n - 1, i, ReplyEntry(Entry(t1, i), Entry(t1, Index(hdr.Dest)), l, hdr.Reply));
  }

  ghost predicate SpareAt(L: Ledger, k: NodeId, n: nat)
  {
    k in L.tabs && Spare(L.tabs[k], n)
  }

  // ---- ports that stay ----

  /** Nothing was freed, and whatever was in use still is. */
  ghost predicate Grows(L: Ledger, L': Ledger)
  {
    && Extends(L, L') && L'.gens == L.gens
    && forall h :: InUse(L.tabs, h) ==> Has(L'.tabs, h) && Ent(L'.tabs, h).(Age := 0) == Ent(L.tabs, h).(Age := 0)
  }

  ghost predicate LocalPort(L: Ledger, k: NodeId, p: Word)
  {
    k in L.tabs && IsLive(L.tabs[k], p) && Entry(L.tabs[k], Index(p)).Type.TLocal?
  }

  /** Of an entry that may be freed. */
  ghost predicate Freeable(L: Ledger, k: NodeId, p: Word)
  {
    k in L.tabs && HasEntry(L.tabs[k], Index(p)) && !Entry(L.tabs[k], Index(p)).Type.TPermanent?
  }

  /** Port p of node k stands for the descriptor remote, which is next, across link l. */
  ghost predicate RemotePort(L: Ledger, k: NodeId, p: Word, l: Byte, remote: Word, next: Tag)
  {
    && k in L.tabs && IsRemote(L.tabs[k], p, l, remote)
    && Current(L, Hop(k, Index(p))) in L.next && L.next[Current(L, Hop(k, Index(p)))] == next
  }

  lemma LocalStays(L: Ledger, L': Ledger, k: NodeId, p: Word)
    requires Grows(L, L') && LocalPort(L, k, p)
    ensures LocalPort(L', k, p)
  {
    assert InUse(L.tabs, Hop(k, Index(p)));
  }

  lemma RemoteStays(L: Ledger, L': Ledger, k: NodeId, p: Word, l: Byte, remote: Word, next: Tag)
    requires Grows(L, L') && RemotePort(L, k, p, l, remote, next)
    ensures RemotePort(L', k, p, l, remote, next)
  {
    assert InUse(L.tabs, Hop(k, Index(p)));
  }

  lemma FreeableStays(L: Ledger, L': Ledger, k: NodeId, p: Word)
    requires Grows(L, L') && Freeable(L, k, p) && InUse(L.tabs, Hop(k, Index(p)))
    ensures Freeable(L', k, p)
  {
  }

  /** Only entry i of node k was touched, and if it was in use it was only aged. */
  lemma GrowsAt(L: Ledger, L': Ledger, k: NodeId, t': Table, i: nat)
    requires k in L.tabs && L'.tabs == L.tabs[k := t'] && L'.gens == L.gens && Extends(L, L')
    requires OnlyChanges(L.tabs[k], t', {i})
    requires InUse(L.tabs, Hop(k, i)) ==> Entry(t', i).(Age := 0) == Entry(L.tabs[k], i).(Age := 0)
    ensures Grows(L, L')
  {
  }

  lemma GrowsFurther(L: Ledger, L1: Ledger, L2: Ledger)
    requires Grows(L, L1) && Grows(L1, L2)
    ensures Grows(L, L2)
  {
    forall h | InUse(L.tabs, h) ensures Has(L2.tabs, h) && Ent(L2.tabs, h).(Age := 0) == Ent(L.tabs, h).(Age := 0) {
      assert InUse(L1.tabs, h);
    }
  }

  /** The other tables are left alone. */
  ghost predicate OthersKept(L: Ledger, L': Ledger, k: NodeId)
  {
    forall i :: i in L.tabs && i != k ==> i in L'.tabs && L'.tabs[i] == L.tabs[i]
  }

  // ---- what kernel operations do ----

  lemma OpenedFacts(topo: Topology, L: Ledger, k: NodeId, n: nat) returns (p: Word)
    requires LedgerOk(topo, L) && k in L.tabs && SpareAt(L, k, n) && n > 0
    ensures CanAllocate(L.tabs[k])
    ensures var L' := Opened(L, k);
            && Grows(L, L') && OthersKept(L, L', k) && SpareAt(L', k, n - 1)
            && LocalPort(L', k, p) && !InUse(L.tabs, Hop(k, Index(p))) && p != NULL_PORT
  {
    SpareAllocates(L.tabs[k], n);
    NewPortIsNew(L.tabs[k]);
    NewPortAddsFresh(L.tabs[k]);
    OpenedOk(topo, L, k);
    p := NewPort(L.tabs[k]).1;
    GrowsAt(L, Opened(L, k), k, NewPort(L.tabs[k]).0, Index(p));
  }

  lemma AttachSpare(t: Table, l: Byte, remote: Word, n: nat)
    requires Spare(t, n) && n > 0
    ensures Valid(t) && CanAllocate(t) && Spare(AttachPort(t, l, remote).0, n - 1)
  {
    SpareAllocates(t, n);
    NewPortIsNew(t);
    var (t1, p) := NewPort(t);
    SpareWritten(t1, n - 1, Index(p), PermanentEntry(Entry(t1, Index(p)), l, remote));
  }

  /** An entry has been made a surrogate for `remote`, whose tag is from. */
  lemma InstalledAtGrows(L: Ledger, k: NodeId, t': Table, p: Word, l: Byte, remote: Word, from: Tag)
    requires k in L.tabs && from in L.home && from in L.dist && IsRemote(t', p, l, remote)
    requires OnlyChanges(L.tabs[k], t', {Index(p)}) && WasFree(L.tabs[k], t', Index(p))
    requires Extends(L, InstalledAt(L, Hop(k, Index(p)), t', from))
    ensures var L' := InstalledAt(L, Hop(k, Index(p)), t', from);
            && Grows(L, L') && OthersKept(L, L', k) && L'.tabs[k] == t'
            && RemotePort(L', k, p, l, remote, from) && !InUse(L.tabs, Hop(k, Index(p)))
  {
    GrowsAt(L, InstalledAt(L, Hop(k, Index(p)), t', from), k, t', Index(p));
  }

  lemma AttachedGrows(topo: Topology, L: Ledger, e: End, port: Word)
    requires MayAttach(topo, L, e, port) && Extends(L, Attached(topo, L, e, port))
    ensures var (t', p) := AttachPort(L.tabs[e.node], e.link, port); var L' := Attached(topo, L, e, port);
            && Grows(L, L') && OthersKept(L, L', e.node) && L'.tabs[e.node] == t' && p != NULL_PORT
            && RemotePort(L', e.node, p, e.link, port, Current(L, Hop(topo[e].node, Index(port))))
  {
    AttachPortFacts(L.tabs[e.node], e.link, port);
    NewPortIsNew(L.tabs[e.node]);
    var (t', p) := AttachPort(L.tabs[e.node], e.link, port);
    InstalledAtGrows(L, e.node, t', p, e.link, port, Current(L, Hop(topo[e].node, Index(port))));
  }

  lemma AttachedFacts(topo: Topology, L: Ledger, e: End, port: Word, n: nat) returns (p: Word)
    requires LedgerOk(topo, L) && e in topo && e.node in L.tabs && SpareAt(L, e.node, n) && n > 0
    requires LocalPort(L, topo[e].node, port)
    ensures MayAttach(topo, L, e, port)
    ensures var L' := Attached(topo, L, e, port);
            && Grows(L, L') && OthersKept(L, L', e.node) && SpareAt(L', e.node, n - 1)
            && RemotePort(L', e.node, p, e.link, port, Current(L, Hop(topo[e].node, Index(port)))) && p != NULL_PORT
  {
    AttachSpare(L.tabs[e.node], e.link, port, n);
    LiveNames(topo, L, Hop(topo[e].node, Index(port)), port);
    AttachedOk(topo, L, e, port);
    AttachedGrows(topo, L, e, port);
    p := AttachPort(L.tabs[e.node], e.link, port).1;
  }

  lemma AgedGrows(topo: Topology, L: Ledger, k: NodeId, port: Word)
    requires LedgerOk(topo, L) && k in L.tabs && IsLive(L.tabs[k], port)
    ensures var L' := WithTab(L, k, Aged(L.tabs[k], port)); Grows(L, L') && OthersKept(L, L', k)
  {
    AgedFacts(L.tabs[k], port);
    GrowsAt(L, WithTab(L, k, Aged(L.tabs[k], port)), k, Aged(L.tabs[k], port), Index(port));
  }

  lemma InstalledFacts(topo: Topology, L: Ledger, at: End, hdr: MsgHdr, from: Tag, n: nat)
    requires LedgerOk(topo, L) && at in topo && at.node in L.tabs && MayInstall(L.tabs[at.node], hdr)
    requires hdr.Reply != NULL_PORT && from in L.home && from in L.dist
    requires from.node == topo[at].node && Names(hdr.Reply, from)
    requires SpareAt(L, at.node, n) && n > 0
    ensures var (L', hdr') := Installed(L, at, hdr, from);
            && LedgerOk(topo, L') && Grows(L, L') && OthersKept(L, L', at.node) && SpareAt(L', at.node, n - 1)
            && RemotePort(L', at.node, hdr'.Reply, at.link, hdr.Reply, from) && hdr'.Reply != NULL_PORT
            && Freeable(L', at.node, hdr'.Reply)
            && !InUse(L.tabs, Hop(at.node, Index(hdr'.Reply)))
            && L'.tabs[at.node] == InstallReply(L.tabs[at.node], at.link, hdr).0
  {
    SpareInstalled(L.tabs[at.node], n, at.link, hdr);
    InstalledOk(topo, L, at, hdr, from);
    InstalledGrows(L, at, hdr, from);
  }

  lemma InstalledGrows(L: Ledger, at: End, hdr: MsgHdr, from: Tag)
    requires at.node in L.tabs && MayInstall(L.tabs[at.node], hdr)
    requires hdr.Reply != NULL_PORT && from in L.home && from in L.dist
    requires Extends(L, Installed(L, at, hdr, from).0)
    ensures var (L', hdr') := Installed(L, at, hdr, from);
            && Grows(L, L') && OthersKept(L, L', at.node)
            && RemotePort(L', at.node, hdr'.Reply, at.link, hdr.Reply, from) && hdr'.Reply != NULL_PORT
            && Freeable(L', at.node, hdr'.Reply) && !InUse(L.tabs, Hop(at.node, Index(hdr'.Reply)))
  {
    InstallReplyFacts(L.tabs[at.node], at.link, hdr);
    var (t', hdr') := InstallReply(L.tabs[at.node], at.link, hdr);
    InstalledAtGrows(L, at.node, t', hdr'.Reply, at.link, hdr.Reply, from);
  }

  /** A message has been handed over: its reply port has a surrogate, the entry it came for was aged. */
  lemma LandsFacts(topo: Topology, L: Ledger, at: End, hdr: MsgHdr, from: Tag, n: nat) returns (L': Ledger, p: Word)
    requires LedgerOk(topo, L) && at in topo && at.node in L.tabs && MayInstall(L.tabs[at.node], hdr)
    requires hdr.Reply != NULL_PORT && from in L.home && from in L.dist
    requires from.node == topo[at].node && Names(hdr.Reply, from) && LocalPort(L, at.node, hdr.Dest)
    requires SpareAt(L, at.node, n) && n > 0
    ensures var L1 := Installed(L, at, hdr, from).0;
            && at.node in L1.tabs && HasEntry(L1.tabs[at.node], Index(hdr.Dest))
            && L' == WithTab(L1, at.node, Aged(L1.tabs[at.node], hdr.Dest))
    ensures Grows(L, L') && OthersKept(L, L', at.node) && SpareAt(L', at.node, n - 1)
    ensures RemotePort(L', at.node, p, at.link, hdr.Reply, from) && p != NULL_PORT && Freeable(L', at.node, p)
    ensures !InUse(L.tabs, Hop(at.node, Index(p)))
  {
    InstalledFacts(topo, L, at, hdr, from, n);
    var (L1, hdr1) := Installed(L, at, hdr, from);
    p := hdr1.Reply;
    LocalStays(L, L1, at.node, hdr.Dest);
    L' := WithTab(L1, at.node, Aged(L1.tabs[at.node], hdr.Dest));
    AgedKeeps(topo, L1, at.node, hdr.Dest, n - 1, p, at.link, hdr.Reply, from);
    GrowsFurther(L, L1, L');
  }

  lemma AgedKeeps(topo: Topology, L: Ledger, k: NodeId, port: Word, n: nat, p: Word, l: Byte, remote: Word, from: Tag)
    requires LedgerOk(topo, L) && k in L.tabs && IsLive(L.tabs[k], port) && SpareAt(L, k, n)
    requires RemotePort(L, k, p, l, remote, from) && Freeable(L, k, p)
    ensures var L' := WithTab(L, k, Aged(L.tabs[k], port));
            && Grows(L, L') && OthersKept(L, L', k) && SpareAt(L', k, n)
            && RemotePort(L', k, p, l, remote, from) && Freeable(L', k, p)
  {
    var L' := WithTab(L, k, Aged(L.tabs[k], port));
    AgedGrows(topo, L, k, port);
    SpareAged(L.tabs[k], n, port);
    RemoteStays(L, L', k, p, l, remote, from);
    FreeableStays(L, L', k, p);
  }
}
