/**
 The port tables of a network together with their history: how often each
 entry has been freed, which local port every descriptor ever issued was made
 for and how many hops away, and which descriptor on the neighbour a surrogate
 stands for.  Nothing here feeds back into what the kernel does; it says what
 descriptors mean.
 */
module Ledgers {
  import opened Words
  import opened Ports
  import opened Routing
  import opened Journeys

  /** A descriptor with its full history: the gen-th use of an entry. */
  datatype Tag = Tag(node: NodeId, index: nat, gen: nat) {
    function hop(): Hop { Hop(node, index) }
  }

  datatype Ledger = Ledger(tabs: Tabs, gens: map<Hop, nat>, home: map<Tag, Tag>, dist: map<Tag, nat>,
                           next: map<Tag, Tag>)

  function Gen(L: Ledger, h: Hop): nat { if h in L.gens then L.gens[h] else 0 }

  function Current(L: Ledger, h: Hop): Tag { Tag(h.node, h.index, Gen(L, h)) }

  /** The descriptor p is the word that was handed out for tag t. */
  ghost predicate Names(p: Word, t: Tag)
  {
    Index(p) == t.index && PortCycle(p) == Bumped(1, t.gen)
  }

  /** The use of an entry of node k, out of the first 256, that word p is a descriptor of. */
  function Called(k: NodeId, p: Word): Tag
  {
    Tag(k, Index(p), (PortCycle(p) + 0xff) % 0x100)
  }

  // ---- The invariant ----

  /** An entry's cycle counter is its history, reduced to a byte; a free entry leads nowhere. */
  ghost predicate CycleOk(L: Ledger, h: Hop)
  {
    if Has(L.tabs, h) then
      && Ent(L.tabs, h).Cycle == Bumped(1, Gen(L, h))
      && (Ent(L.tabs, h).Type.TFree? ==> Ent(L.tabs, h).TxId == NULL_PORT)
    else Gen(L, h) == 0
  }

  /** A descriptor that was issued stays behind its entry's history, and nothing was freed that was not issued. */
  ghost predicate TagOk(L: Ledger, t: Tag)
  {
    && (t.gen < Gen(L, t.hop()) ==> t in L.home)
    && (t in L.home ==>
          && Has(L.tabs, t.hop())
          && t.gen <= Gen(L, t.hop())
          && (Ent(L.tabs, t.hop()).Type.TFree? ==> t.gen < Gen(L, t.hop()))
          && L.home[t] in L.home
          && L.home[L.home[t]] == L.home[t])
  }

  /** An entry in use is a local port or stands for one, one hop nearer it. */
  ghost predicate EntryOk(topo: Topology, L: Ledger, h: Hop)
  {
    InUse(L.tabs, h) ==>
      var t, e := Current(L, h), Ent(L.tabs, h);
      && t in L.home
      && t in L.dist
      && (e.Type.TLocal? ==> L.home[t] == t && L.dist[t] == 0)
      && (!e.Type.TLocal? ==>
            && t in L.next
            && L.next[t] in L.home
            && L.next[t] in L.dist && L.dist[t] == L.dist[L.next[t]] + 1
            && L.home[L.next[t]] == L.home[t]
            && End(h.node, e.Link) in topo
            && L.next[t].node == topo[End(h.node, e.Link)].node
            && Names(e.TxId, L.next[t]))
  }

  ghost predicate LedgerOk(topo: Topology, L: Ledger)
  {
    && AllValid(L.tabs)
    && L.dist.Keys == L.home.Keys && L.next.Keys <= L.home.Keys
    && (forall h :: CycleOk(L, h))
    && (forall t :: TagOk(L, t))
    && (forall h :: EntryOk(topo, L, h))
  }

  /** What was issued keeps its meaning. */
  ghost predicate Extends(L: Ledger, L': Ledger)
  {
    && (forall t :: t in L.home ==> t in L'.home && L'.home[t] == L.home[t])
    && (forall t :: t in L.dist ==> t in L'.dist && L'.dist[t] == L.dist[t])
    && (forall t :: t in L.next ==> t in L'.next && L'.next[t] == L.next[t])
  }

  // ---- The cycle check, in terms of history ----

  lemma {:induction false} BumpedAdds(c: Byte, m: nat, n: nat)
    ensures Bumped(c, m + n) == Bumped(Bumped(c, m), n)
    decreases m
  {
    if m > 0 {
      BumpedAdds(Next(c), m - 1, n);
    }
  }

  /**
   The check in the kernel passes just when the entry has been freed a
   multiple of 256 times since the descriptor was issued.
   */
  lemma CycleCheck(topo: Topology, L: Ledger, p: Word, t: Tag)
    requires LedgerOk(topo, L) && t in L.home && Names(p, t)
    ensures TagOk(L, t)
    ensures !NotSameCycle(p, Ent(L.tabs, t.hop())) <==> (Gen(L, t.hop()) - t.gen) % 0x100 == 0
    ensures Gen(L, t.hop()) == t.gen ==> InUse(L.tabs, t.hop()) && Current(L, t.hop()) == t
  {
    assert TagOk(L, t) && CycleOk(L, t.hop());
    var n := Gen(L, t.hop()) - t.gen;
    BumpedAdds(1, t.gen, n);
    WrapsBack(Bumped(1, t.gen), n);
  }

  lemma SameByte(m: nat, n: nat)
    ensures Bumped(1, m) == Bumped(1, n) <==> (m - n) % 0x100 == 0
  {
    BumpedWraps(1, m);
    BumpedWraps(1, n);
    SameRemainder(1 + m, 1 + n, (1 + m) / 0x100, (1 + m) % 0x100, (1 + n) / 0x100, (1 + n) % 0x100);
  }

  lemma SameRemainder(a: int, b: int, qa: int, ra: int, qb: int, rb: int)
    requires a == 0x100 * qa + ra && 0 <= ra < 0x100 && b == 0x100 * qb + rb && 0 <= rb < 0x100
    ensures ra == rb <==> (a - b) % 0x100 == 0
  {
    if ra >= rb {
      RemainderIs(a - b, qa - qb, ra - rb);
    } else {
      RemainderIs(a - b, qa - qb - 1, ra - rb + 0x100);
    }
  }

  lemma RemainderIs(x: int, q: int, r: int)
    requires x == 0x100 * q + r && 0 <= r < 0x100
    ensures x % 0x100 == r
  {
  }

  lemma CalledNames(k: NodeId, p: Word)
    ensures Names(p, Called(k, p)) && Called(k, p).gen < 0x100
  {
    var c: int := PortCycle(p);
    BumpedWraps(1, Called(k, p).gen);
    if c == 0 {
      RemainderIs(0xff, 0, 0xff);
      RemainderIs(0x100, 1, 0);
    } else {
      RemainderIs(c + 0xff, 1, c - 1);
      RemainderIs(c, 0, c);
    }
  }

  /** The same for a descriptor that may never have been issued, of one of the first 256 uses of its entry. */
  lemma EarlyCheck(L: Ledger, h: Hop, p: Word, t: Tag)
    requires CycleOk(L, h) && Has(L.tabs, h) && t.hop() == h && Names(p, t) && t.gen < 0x100
    ensures !NotSameCycle(p, Ent(L.tabs, h)) <==> (Gen(L, h) - t.gen) % 0x100 == 0
    ensures !NotSameCycle(p, Ent(L.tabs, h)) ==> Gen(L, h) >= t.gen
  {
    SameByte(Gen(L, h), t.gen);
    if Gen(L, h) < t.gen {
      RemainderIs(Gen(L, h) - t.gen, -1, Gen(L, h) - t.gen + 0x100);
    }
  }

  // ---- Moves that keep the invariant ----

  /** What one kernel operation may do to the entry h. */
  ghost predicate Moved(topo: Topology, L: Ledger, L': Ledger, h: Hop)
  {
    if InUse(L.tabs, h) then
      && Has(L'.tabs, h)
      && if Gen(L', h) == Gen(L, h) then Ent(L'.tabs, h).(Age := 0) == Ent(L.tabs, h).(Age := 0)
         else
           && Gen(L', h) == Gen(L, h) + 1
           && Ent(L'.tabs, h).Type.TFree? && Ent(L'.tabs, h).TxId == NULL_PORT
           && Ent(L'.tabs, h).Cycle == Next(Ent(L.tabs, h).Cycle)
    else
      && Gen(L', h) == Gen(L, h)
      && (Has(L.tabs, h) ==> Has(L'.tabs, h) && Ent(L'.tabs, h).Cycle == Ent(L.tabs, h).Cycle)
      && (Has(L'.tabs, h) && !Has(L.tabs, h) ==> Ent(L'.tabs, h).Cycle == 1)
      && (Has(L'.tabs, h) && Ent(L'.tabs, h).Type.TFree? ==>
            Ent(L'.tabs, h).TxId == if Has(L.tabs, h) then Ent(L.tabs, h).TxId else NULL_PORT)
      && EntryOk(topo, L', h)
  }

  /** The tags L' has and L has not are those of entries just taken into use. */
  ghost predicate NewTag(L: Ledger, L': Ledger, t: Tag)
  {
    t in L'.home && t !in L.home ==>
      && InUse(L'.tabs, t.hop())
      && t == Current(L', t.hop())
      && L'.home[t] in L'.home
      && L'.home[L'.home[t]] == L'.home[t]
  }

  lemma {:induction false} BumpedNext(c: Byte, n: nat)
    ensures Bumped(c, n + 1) == Next(Bumped(c, n))
    decreases n
  {
    if n > 0 {
      BumpedNext(Next(c), n - 1);
    }
  }

  lemma LedgerMoves(topo: Topology, L: Ledger, L': Ledger)
    requires LedgerOk(topo, L) && AllValid(L'.tabs) && Extends(L, L')
    requires L'.dist.Keys == L'.home.Keys && L'.next.Keys <= L'.home.Keys
    requires forall h :: Moved(topo, L, L', h)
    requires forall t :: NewTag(L, L', t)
    ensures LedgerOk(topo, L')
  {
    forall h ensures CycleOk(L', h) {
      assert CycleOk(L, h) && Moved(topo, L, L', h);
      BumpedNext(1, Gen(L, h));
    }
    forall t ensures TagOk(L', t) {
      assert EntryOk(topo, L, t.hop());
      TagMoves(topo, L, L', t);
    }
    forall h ensures EntryOk(topo, L', h) {
      EntryMoves(topo, L, L', h);
    }
  }

  lemma TagMoves(topo: Topology, L: Ledger, L': Ledger, t: Tag)
    requires TagOk(L, t) && EntryOk(topo, L, t.hop()) && Extends(L, L')
    requires Moved(topo, L, L', t.hop()) && NewTag(L, L', t)
    ensures TagOk(L', t)
  {
  }

  lemma EntryMoves(topo: Topology, L: Ledger, L': Ledger, h: Hop)
    requires EntryOk(topo, L, h) && Extends(L, L')
    requires Moved(topo, L, L', h)
    ensures EntryOk(topo, L', h)
  {
  }

  // ---- The moves themselves ----

  ghost function WithTab(L: Ledger, k: NodeId, t': Table): Ledger { L.(tabs := L.tabs[k := t']) }

  /** A table changed only in entry i of node k: the other entries have not moved. */
  lemma OthersStay(topo: Topology, L: Ledger, L': Ledger, k: NodeId, t': Table, i: nat, h: Hop)
    requires CycleOk(L, h) && EntryOk(topo, L, h) && Extends(L, L') && h != Hop(k, i)
    requires k in L.tabs && L'.tabs == L.tabs[k := t'] && OnlyChanges(L.tabs[k], t', {i})
    requires Gen(L', h) == Gen(L, h)
    ensures Moved(topo, L, L', h)
  {
  }

  lemma MoveOne(topo: Topology, L: Ledger, L': Ledger, k: NodeId, t': Table, i: nat)
    requires LedgerOk(topo, L) && Valid(t') && k in L.tabs && L'.tabs == L.tabs[k := t']
    requires OnlyChanges(L.tabs[k], t', {i})
    requires Extends(L, L') && L'.dist.Keys == L'.home.Keys && L'.next.Keys <= L'.home.Keys
    requires forall h :: h != Hop(k, i) ==> Gen(L', h) == Gen(L, h)
    requires Moved(topo, L, L', Hop(k, i))
    requires forall t :: NewTag(L, L', t)
    ensures LedgerOk(topo, L')
  {
    forall h ensures Moved(topo, L, L', h) {
      if h != Hop(k, i) { OthersStay(topo, L, L', k, t', i, h); }
    }
    LedgerMoves(topo, L, L');
  }

  /** _NewPort for an application: a local port, its own home. */
  ghost function Opened(L: Ledger, k: NodeId): Ledger
    requires k in L.tabs && CanAllocate(L.tabs[k])
  {
    var (t', port) := NewPort(L.tabs[k]);
    OpenedAt(L, Hop(k, Index(port)), t')
  }

  ghost function OpenedAt(L: Ledger, h: Hop, t': Table): Ledger
  {
    var tag := Current(L, h);
    WithTab(L, h.node, t').(home := L.home[tag := tag], dist := L.dist[tag := 0])
  }

  /** A tag about to be issued has not been issued before. */
  lemma NotYetIssued(topo: Topology, L: Ledger, h: Hop)
    requires LedgerOk(topo, L) && !InUse(L.tabs, h)
    ensures Current(L, h) !in L.home
  {
    assert TagOk(L, Current(L, h));
  }

  lemma OpenedOk(topo: Topology, L: Ledger, k: NodeId)
    requires LedgerOk(topo, L) && k in L.tabs && CanAllocate(L.tabs[k])
    ensures LedgerOk(topo, Opened(L, k)) && Extends(L, Opened(L, k))
  {
    NewPortIsNew(L.tabs[k]);
    NewPortAddsFresh(L.tabs[k]);
    var (t', port) := NewPort(L.tabs[k]);
    OpenedAtOk(topo, L, Hop(k, Index(port)), t');
  }

  lemma OpenedAtOk(topo: Topology, L: Ledger, h: Hop, t': Table)
    requires LedgerOk(topo, L) && Valid(t') && h.node in L.tabs
    requires HasEntry(t', h.index) && Entry(t', h.index).Type.TLocal?
    requires OnlyChanges(L.tabs[h.node], t', {h.index}) && WasFree(L.tabs[h.node], t', h.index)
    ensures LedgerOk(topo, OpenedAt(L, h, t')) && Extends(L, OpenedAt(L, h, t'))
  {
    OpenedMoves(topo, L, h, t');
    MoveOne(topo, L, OpenedAt(L, h, t'), h.node, t', h.index);
  }

  lemma OpenedMoves(topo: Topology, L: Ledger, h: Hop, t': Table)
    requires LedgerOk(topo, L) && h.node in L.tabs && HasEntry(t', h.index) && Entry(t', h.index).Type.TLocal?
    requires WasFree(L.tabs[h.node], t', h.index)
    ensures Extends(L, OpenedAt(L, h, t')) && Moved(topo, L, OpenedAt(L, h, t'), h)
    ensures forall t :: NewTag(L, OpenedAt(L, h, t'), t)
  {
    assert CycleOk(L, h);
    NotYetIssued(topo, L, h);
  }

  /** LinkMsg's surrogate for the reply port `from` of a message come in at `at`. */
  ghost function Installed(L: Ledger, at: End, hdr: MsgHdr, from: Tag): (Ledger, MsgHdr)
    requires at.node in L.tabs && MayInstall(L.tabs[at.node], hdr)
    requires hdr.Reply != NULL_PORT ==> from in L.home && from in L.dist
  {
    var (t', hdr') := InstallReply(L.tabs[at.node], at.link, hdr);
    if hdr.Reply == NULL_PORT then (L, hdr) else (InstalledAt(L, Hop(at.node, Index(hdr'.Reply)), t', from), hdr')
  }

  ghost function InstalledAt(L: Ledger, h: Hop, t': Table, from: Tag): Ledger
    requires from in L.home && from in L.dist
  {
    var tag := Current(L, h);
    WithTab(L, h.node, t').(home := L.home[tag := L.home[from]], dist := L.dist[tag := L.dist[from] + 1],
                            next := L.next[tag := from])
  }

  lemma InstalledOk(topo: Topology, L: Ledger, at: End, hdr: MsgHdr, from: Tag)
    requires LedgerOk(topo, L) && at in topo && at.node in L.tabs && MayInstall(L.tabs[at.node], hdr)
    requires hdr.Reply != NULL_PORT ==> from in L.home && from.node == topo[at].node && Names(hdr.Reply, from)
    ensures var (L', hdr') := Installed(L, at, hdr, from);
            && LedgerOk(topo, L') && Extends(L, L') && L'.gens == L.gens
            && L'.tabs == L.tabs[at.node := InstallReply(L.tabs[at.node], at.link, hdr).0]
            && hdr' == InstallReply(L.tabs[at.node], at.link, hdr).1
            && (hdr.Reply != NULL_PORT ==>
                  var tag := Current(L, Hop(at.node, Index(hdr'.Reply)));
                  tag in L'.home && L'.home[tag] == L.home[from] && Names(hdr'.Reply, tag))
  {
    InstallReplyFacts(L.tabs[at.node], at.link, hdr);
    if hdr.Reply != NULL_PORT {
      var (t', hdr') := InstallReply(L.tabs[at.node], at.link, hdr);
      InstalledAtOk(topo, L, at, t', hdr'.Reply, hdr.Reply, from);
    } else {
      assert L.tabs[at.node := L.tabs[at.node]] == L.tabs;
    }
  }

  lemma InstalledAtOk(topo: Topology, L: Ledger, at: End, t': Table, reply: Word, remote: Word, from: Tag)
    requires LedgerOk(topo, L) && Valid(t') && at in topo && at.node in L.tabs
    requires from in L.home && from.node == topo[at].node && Names(remote, from)
    requires IsRemote(t', reply, at.link, remote)
    requires OnlyChanges(L.tabs[at.node], t', {Index(reply)}) && WasFree(L.tabs[at.node], t', Index(reply))
    ensures var h := Hop(at.node, Index(reply)); var L' := InstalledAt(L, h, t', from);
            && LedgerOk(topo, L') && Extends(L, L')
            && Names(reply, Current(L, h)) && Current(L, h) in L'.home && L'.home[Current(L, h)] == L.home[from]
  {
    var h := Hop(at.node, Index(reply));
    InstalledMoves(topo, L, at, t', reply, remote, from);
    MoveOne(topo, L, InstalledAt(L, h, t', from), at.node, t', h.index);
    assert CycleOk(InstalledAt(L, h, t', from), h);
  }

  lemma InstalledMoves(topo: Topology, L: Ledger, at: End, t': Table, reply: Word, remote: Word, from: Tag)
    requires LedgerOk(topo, L) && at in topo && at.node in L.tabs
    requires from in L.home && from.node == topo[at].node && Names(remote, from)
    requires IsRemote(t', reply, at.link, remote) && WasFree(L.tabs[at.node], t', Index(reply))
    ensures var h := Hop(at.node, Index(reply)); var L' := InstalledAt(L, h, t', from);
            Extends(L, L') && Moved(topo, L, L', h) && forall t :: NewTag(L, L', t)
  {
    var h := Hop(at.node, Index(reply));
    assert CycleOk(L, h) && TagOk(L, from);
    NotYetIssued(topo, L, h);
  }

  // ---- links come up ----

  /**
   The permanent port LinkInit makes for the far end of a link, once the
   exchange of info messages has told it which local port is there.
   */
  ghost predicate MayAttach(topo: Topology, L: Ledger, e: End, port: Word)
  {
    && e in topo && e.node in L.tabs && Valid(L.tabs[e.node]) && CanAllocate(L.tabs[e.node])
    && topo[e].node in L.tabs && IsLive(L.tabs[topo[e].node], port)
    && Entry(L.tabs[topo[e].node], Index(port)).Type.TLocal?
    && var far := Current(L, Hop(topo[e].node, Index(port))); far in L.home && far in L.dist
  }

  function PermanentEntry(e: PTE, l: Byte, remote: Word): PTE
  {
    e.(Type := TPermanent, Link := l, Owner := 0, TxId := remote)
  }

  ghost function AttachPort(t: Table, l: Byte, remote: Word): (Table, Word)
    requires Valid(t) && CanAllocate(t)
  {
    NewPortIsNew(t);
    var (t1, p) := NewPort(t);
    (Put(t1, Index(p), PermanentEntry(Entry(t1, Index(p)), l, remote)), p)
  }

  ghost function Attached(topo: Topology, L: Ledger, e: End, port: Word): Ledger
    requires MayAttach(topo, L, e, port)
  {
    var (t', p) := AttachPort(L.tabs[e.node], e.link, port);
    InstalledAt(L, Hop(e.node, Index(p)), t', Current(L, Hop(topo[e].node, Index(port))))
  }

  lemma AttachPortFacts(t: Table, l: Byte, remote: Word)
    requires Valid(t) && CanAllocate(t)
    ensures var (t', p) := AttachPort(t, l, remote);
            && Valid(t') && IsRemote(t', p, l, remote) && Entry(t', Index(p)).Type.TPermanent?
            && OnlyChanges(t, t', {Index(p)}) && WasFree(t, t', Index(p))
  {
    NewPortIsNew(t);
    NewPortAddsFresh(t);
    StockedValid(t);
    var (t1, p) := NewPort(t);
    var e := PermanentEntry(Entry(t1, Index(p)), l, remote);
    assert Apply(t1, Write(Index(p), e)) == Put(t1, Index(p), e);
    ApplyValid(t1, Write(Index(p), e));
  }

  /** The descriptor of an entry in use names its present tag. */
  lemma LiveNames(topo: Topology, L: Ledger, h: Hop, port: Word)
    requires LedgerOk(topo, L) && h.node in L.tabs && IsLive(L.tabs[h.node], port) && h.index == Index(port)
    ensures InUse(L.tabs, h) && Current(L, h) in L.home && Current(L, h) in L.dist && Names(port, Current(L, h))
  {
    assert CycleOk(L, h) && EntryOk(topo, L, h);
  }

  lemma AttachedOk(topo: Topology, L: Ledger, e: End, port: Word)
    requires LedgerOk(topo, L) && MayAttach(topo, L, e, port)
    ensures LedgerOk(topo, Attached(topo, L, e, port)) && Extends(L, Attached(topo, L, e, port))
  {
    var (t', p) := AttachPort(L.tabs[e.node], e.link, port);
    var far := Hop(topo[e].node, Index(port));
    AttachPortFacts(L.tabs[e.node], e.link, port);
    LiveNames(topo, L, far, port);
    InstalledAtOk(topo, L, e, t', p, port, Current(L, far));
  }

  /** A table in which one entry was only aged. */
  lemma AgedOk(topo: Topology, L: Ledger, k: NodeId, port: Word)
    requires LedgerOk(topo, L) && k in L.tabs && HasEntry(L.tabs[k], Index(port))
    ensures var L' := WithTab(L, k, Aged(L.tabs[k], port)); LedgerOk(topo, L') && Extends(L, L')
  {
    AgeingKeepsValid(L.tabs[k], Index(port), 1);
    MoveOne(topo, L, WithTab(L, k, Aged(L.tabs[k], port)), k, Aged(L.tabs[k], port), Index(port));
  }

  lemma ReleasedMoves(topo: Topology, L: Ledger, k: NodeId, port: Word)
    requires LedgerOk(topo, L) && k in L.tabs && HasEntry(L.tabs[k], Index(port))
    requires FreePort(L.tabs[k], port).1.ErrNull?
    ensures Moved(topo, L, Released(L, k, port), Hop(k, Index(port)))
    ensures OnlyChanges(L.tabs[k], FreePort(L.tabs[k], port).0, {Index(port)})
  {
    FreePortFrees(L.tabs[k], port);
  }

  /** _FreePort: if it succeeds, the entry's history goes up by one. */
  ghost function Released(L: Ledger, k: NodeId, port: Word): Ledger
    requires k in L.tabs && HasEntry(L.tabs[k], Index(port))
  {
    var (t', rc) := FreePort(L.tabs[k], port);
    var h := Hop(k, Index(port));
    WithTab(L, k, t').(gens := if rc.ErrNull? then L.gens[h := Gen(L, h) + 1] else L.gens)
  }

  lemma ReleasedOk(topo: Topology, L: Ledger, k: NodeId, port: Word)
    requires LedgerOk(topo, L) && k in L.tabs && HasEntry(L.tabs[k], Index(port))
    ensures LedgerOk(topo, Released(L, k, port)) && Extends(L, Released(L, k, port))
  {
    var (t', rc) := FreePort(L.tabs[k], port);
    FreePortFrees(L.tabs[k], port);
    if rc.ErrNull? {
      ReleasedMoves(topo, L, k, port);
      MoveOne(topo, L, Released(L, k, port), k, t', Index(port));
    } else {
      assert L.tabs[k := L.tabs[k]] == L.tabs;
    }
  }

  // ---- Trails, in terms of history ----

  /** No descriptor on the way from t has been outlived by its entry. */
  ghost predicate Unbroken(topo: Topology, L: Ledger, t: Tag)
    requires LedgerOk(topo, L)
    decreases if t in L.dist then L.dist[t] else 0
  {
    && t in L.home
    && t.gen == Gen(L, t.hop())
    && InUse(L.tabs, t.hop())
    && assert EntryOk(topo, L, t.hop()); (Ent(L.tabs, t.hop()).Type.TLocal? || Unbroken(topo, L, L.next[t]))
  }

  /**
   As long as no entry on it has been freed, the trail of a descriptor leads to
   exactly the local port the descriptor was made for.
   */
  lemma {:induction false} TrailsLeadHome(topo: Topology, L: Ledger, p: Word, t: Tag) returns (path: seq<Hop>)
    requires LedgerOk(topo, L) && Names(p, t) && Unbroken(topo, L, t)
    ensures Leads(topo, L.tabs, t.node, p, path)
    ensures path[|path| - 1] == L.home[t].hop() && |path| == L.dist[t] + 1
    decreases L.dist[t]
  {
    assert EntryOk(topo, L, t.hop()) && CycleOk(L, t.hop());
    var e := Ent(L.tabs, t.hop());
    if e.Type.TLocal? {
      path := [t.hop()];
    } else {
      var rest := TrailsLeadHome(topo, L, e.TxId, L.next[t]);
      path := [t.hop()] + rest;
      assert path[1..] == rest;
    }
  }
}
