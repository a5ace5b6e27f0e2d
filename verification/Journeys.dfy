/**
 Journeys: a message carried hop by hop over running links while nothing else
 moves.  A descriptor leads along a trail of surrogate entries to a local
 port.  Sending along the trail ends at that port, uses the trail up, and lays
 a trail back; sending the reply back uses that up too.
 */
module Journeys {
  import opened Words
  import opened Ports
  import opened Routing

  type NodeId = nat

  datatype End = End(node: NodeId, link: Byte)

  /** Which end a message sent from an end arrives at. */
  type Topology = map<End, End>

  type Tabs = map<NodeId, Table>

  datatype Hop = Hop(node: NodeId, index: nat)

  ghost predicate Wired(topo: Topology)
  {
    forall a :: a in topo ==> topo[a] in topo && topo[topo[a]] == a
  }

  ghost predicate AllValid(tabs: Tabs)
  {
    forall k :: k in tabs ==> Valid(tabs[k])
  }

  ghost predicate Has(tabs: Tabs, h: Hop)
  {
    h.node in tabs && HasEntry(tabs[h.node], h.index)
  }

  ghost function Ent(tabs: Tabs, h: Hop): PTE
    requires Has(tabs, h)
  {
    Entry(tabs[h.node], h.index)
  }

  /**
   On processor k, port leads along path: every entry but the last is a live
   surrogate for the descriptor that continues the path on its neighbour, and
   the last is a live local port.
   */
  ghost predicate Leads(topo: Topology, tabs: Tabs, k: NodeId, port: Word, path: seq<Hop>)
    decreases |path|
  {
    && |path| > 0
    && path[0] == Hop(k, Index(port))
    && k in tabs
    && IsLive(tabs[k], port)
    && var e := Entry(tabs[k], Index(port));
       if |path| == 1 then e.Type.TLocal?
       else
         && !e.Type.TLocal?
         && End(k, e.Link) in topo
         && Leads(topo, tabs, topo[End(k, e.Link)].node, e.TxId, path[1..])
  }

  datatype Journey =
    | Arrived(tabs: Tabs, at: Hop, hdr: MsgHdr)
    | Lost
    | NoRoom    // some table had no entry left for a reply surrogate

  /** A message arriving at an end, taken on for at most n hops. */
  ghost function Travel(topo: Topology, tabs: Tabs, at: End, hdr: MsgHdr, n: nat): Journey
    decreases n
  {
    if n == 0 || at.node !in tabs || !Valid(tabs[at.node]) || !HasEntry(tabs[at.node], Index(hdr.Dest)) then Lost
    else if hdr.Reply != NULL_PORT && !CanAllocate(tabs[at.node]) then NoRoom
    else
      var (t', hdr', fate) := LinkMsg(tabs[at.node], at.link, hdr, true, true);
      var tabs' := tabs[at.node := t'];
      match fate
      case Delivered(i) => Arrived(tabs', Hop(at.node, i), hdr')
      case Forwarded(link) =>
        if End(at.node, link) in topo then Travel(topo, tabs', topo[End(at.node, link)], hdr', n - 1) else Lost
      case _ => Lost
  }

  // ---- Trails ----

  /** One entry belongs to one trail: what follows it is determined. */
  lemma {:induction false} TrailIsUnique(topo: Topology, tabs: Tabs, k: NodeId, p: Word, path: seq<Hop>, q: Word,
                                         path': seq<Hop>)
    requires Leads(topo, tabs, k, p, path) && Leads(topo, tabs, k, q, path') && Index(p) == Index(q)
    ensures path == path'
    decreases |path|
  {
    if |path| > 1 && |path'| > 1 {
      var e := Entry(tabs[k], Index(p));
      TrailIsUnique(topo, tabs, topo[End(k, e.Link)].node, e.TxId, path[1..], e.TxId, path'[1..]);
      assert path == [path[0]] + path[1..] && path' == [path'[0]] + path'[1..];
    }
  }

  /** Every suffix of a trail is the trail of its first entry. */
  lemma {:induction false} TrailSuffix(topo: Topology, tabs: Tabs, k: NodeId, p: Word, path: seq<Hop>, j: nat)
    returns (q: Word)
    requires Leads(topo, tabs, k, p, path) && j < |path|
    ensures path[j].index == Index(q) && Leads(topo, tabs, path[j].node, q, path[j..])
    decreases j
  {
    if j == 0 {
      q := p;
      assert path[0..] == path;
    } else {
      var e := Entry(tabs[k], Index(p));
      q := TrailSuffix(topo, tabs, topo[End(k, e.Link)].node, e.TxId, path[1..], j - 1);
      assert path[1..][j - 1..] == path[j..];
    }
  }

  /** A trail never comes back to an entry. */
  lemma TrailIsAcyclic(topo: Topology, tabs: Tabs, k: NodeId, p: Word, path: seq<Hop>)
    requires Leads(topo, tabs, k, p, path)
    ensures path[0] !in path[1..]
  {
    if path[0] in path[1..] {
      var j :| 0 <= j < |path| - 1 && path[1..][j] == path[0];
      var q := TrailSuffix(topo, tabs, k, p, path, j + 1);
      TrailIsUnique(topo, tabs, k, p, path, q, path[j + 1..]);
    }
  }

  /** Entries of a trail are in use. */
  lemma {:induction false} TrailInUse(topo: Topology, tabs: Tabs, k: NodeId, p: Word, path: seq<Hop>)
    requires Leads(topo, tabs, k, p, path)
    ensures forall j :: 0 <= j < |path| ==> Has(tabs, path[j]) && !Ent(tabs, path[j]).Type.TFree?
    ensures forall j :: 0 <= j < |path| ==> (Ent(tabs, path[j]).Type.TLocal? <==> j == |path| - 1)
  {
    forall j | 0 <= j < |path|
      ensures Has(tabs, path[j]) && !Ent(tabs, path[j]).Type.TFree?
      ensures Ent(tabs, path[j]).Type.TLocal? <==> j == |path| - 1
    {
      var q := TrailSuffix(topo, tabs, k, p, path, j);
    }
  }

  /** Ageing apart, h has the same entry in both. */
  ghost predicate SameEntry(tabs: Tabs, tabs': Tabs, h: Hop)
  {
    Has(tabs, h) ==> Has(tabs', h) && Ent(tabs', h).(Age := 0) == Ent(tabs, h).(Age := 0)
  }

  /** A trail outlives every change that spares its entries. */
  lemma {:induction false} TrailFrame(topo: Topology, tabs: Tabs, tabs': Tabs, k: NodeId, p: Word, path: seq<Hop>)
    requires Leads(topo, tabs, k, p, path)
    requires forall j :: 0 <= j < |path| ==> SameEntry(tabs, tabs', path[j])
    ensures Leads(topo, tabs', k, p, path)
    decreases |path|
  {
    assert SameEntry(tabs, tabs', path[0]);
    if |path| > 1 {
      var e := Entry(tabs[k], Index(p));
      forall j | 0 <= j < |path| - 1 ensures SameEntry(tabs, tabs', path[1..][j]) {
        assert path[1..][j] == path[j + 1];
      }
      TrailFrame(topo, tabs, tabs', topo[End(k, e.Link)].node, e.TxId, path[1..]);
    }
  }

  // ---- One hop of a journey ----

  /** Outside `touched` nothing changed, except that free entries were added. */
  ghost predicate Others(tabs: Tabs, tabs': Tabs, touched: set<Hop>)
  {
    && tabs'.Keys == tabs.Keys
    && AllValid(tabs')
    && (forall h :: Has(tabs, h) ==> Has(tabs', h))
    && (forall h :: Has(tabs, h) && h !in touched ==> Ent(tabs', h) == Ent(tabs, h))
    && (forall h :: Has(tabs', h) && !Has(tabs, h) && h !in touched ==> Ent(tabs', h).Type.TFree?)
  }

  lemma OthersCompose(a: Tabs, b: Tabs, c: Tabs, xs: set<Hop>, ys: set<Hop>)
    requires Others(a, b, xs) && Others(b, c, ys)
    ensures Others(a, c, xs + ys)
  {
  }

  ghost function Elems(path: seq<Hop>): set<Hop> { set h | h in path }

  /** The hop's entries: the one it used and, if any, the one it made. */
  ghost function HopSet(k: NodeId, d: nat, reply: Word, reply': Word): set<Hop>
  {
    if reply == NULL_PORT then {Hop(k, d)} else {Hop(k, d), Hop(k, Index(reply'))}
  }

  lemma HopOthers(tabs: Tabs, k: NodeId, t': Table, l: Byte, reply: Word, reply': Word, d: nat)
    requires AllValid(tabs) && k in tabs && Valid(t') && HasEntry(tabs[k], d)
    requires ReplyMade(tabs[k], t', l, reply, reply', d)
    ensures Others(tabs, tabs[k := t'], HopSet(k, d, reply, reply'))
  {
  }

  ghost predicate Consumed(hdr: MsgHdr, e: PTE)
  {
    !hdr.preserve && !e.Type.TPermanent?
  }

  /** The trail ahead does not run over entries the message will free. */
  ghost predicate Apart(tabs: Tabs, hdr: MsgHdr, path: seq<Hop>, rpath: seq<Hop>)
  {
    forall j :: 0 <= j < |path| - 1 && Has(tabs, path[j]) && Consumed(hdr, Ent(tabs, path[j])) ==> path[j] !in rpath
  }

  /** After the hop the rest of the trail still leads on. */
  lemma TrailAhead(topo: Topology, tabs: Tabs, tabs': Tabs, k: NodeId, p: Word, path: seq<Hop>, touched: set<Hop>)
    requires Leads(topo, tabs, k, p, path) && |path| > 1
    requires Others(tabs, tabs', touched)
    requires forall h :: h in touched ==> h == path[0] || !Has(tabs, h) || Ent(tabs, h).Type.TFree?
    ensures var e := Entry(tabs[k], Index(p)); Leads(topo, tabs', topo[End(k, e.Link)].node, e.TxId, path[1..])
  {
    var e := Entry(tabs[k], Index(p));
    TrailIsAcyclic(topo, tabs, k, p, path);
    TrailInUse(topo, tabs, k, p, path);
    forall j | 0 <= j < |path| - 1 ensures SameEntry(tabs, tabs', path[1..][j]) {
      assert path[1..][j] == path[j + 1] && path[j + 1] in path[1..];
    }
    TrailFrame(topo, tabs, tabs', topo[End(k, e.Link)].node, e.TxId, path[1..]);
  }

  /** After the hop the way back starts with the new surrogate. */
  lemma TrailBehind(topo: Topology, tabs: Tabs, tabs': Tabs, at: End, k0: NodeId, r: Word, rpath: seq<Hop>, r': Word)
    requires Leads(topo, tabs, k0, r, rpath)
    requires forall h :: h in rpath ==> SameEntry(tabs, tabs', h)
    requires at in topo && topo[at].node == k0 && at.node in tabs'
    requires IsSurrogate(tabs'[at.node], r', at.link, r)
    ensures Leads(topo, tabs', at.node, r', [Hop(at.node, Index(r'))] + rpath)
  {
    TrailFrame(topo, tabs, tabs', k0, r, rpath);
    var all := [Hop(at.node, Index(r'))] + rpath;
    assert all[1..] == rpath;
  }

  // ---- Whole journeys ----

  /** What becomes of the entry h that the message passed through. */
  ghost predicate PassedThrough(tabs: Tabs, tabs': Tabs, hdr: MsgHdr, h: Hop, back: seq<Hop>)
  {
    && Has(tabs, h) && Has(tabs', h)
    && if Consumed(hdr, Ent(tabs, h))
       then Ent(tabs', h).Cycle == Next(Ent(tabs, h).Cycle) && (h in back || Ent(tabs', h).Type.TFree?)
       else SameEntry(tabs, tabs', h)
  }

  /** The message passes through entry h of tabs and frees it. */
  ghost predicate UsesUp(tabs: Tabs, hdr: MsgHdr, path: seq<Hop>, h: Hop)
  {
    h in path && Has(tabs, h) && Consumed(hdr, Ent(tabs, h))
  }

  /** An entry made for the way back: it was not in use, and is a surrogate. */
  ghost predicate LaidDown(tabs: Tabs, tabs': Tabs, hdr: MsgHdr, path: seq<Hop>, h: Hop)
  {
    && Has(tabs', h)
    && (Ent(tabs', h).Type.TSurrogate? || Ent(tabs', h).Type.TTrail?)
    && (Has(tabs, h) && !UsesUp(tabs, hdr, path, h) ==>
          Ent(tabs, h).Type.TFree? && Ent(tabs', h).Cycle == Ent(tabs, h).Cycle)
  }

  /** What the journey along path, laying back, did to the tables. */
  ghost predicate Changed(tabs: Tabs, tabs2: Tabs, hdr: MsgHdr, path: seq<Hop>, back: seq<Hop>)
    requires |path| > 0
  {
    && Others(tabs, tabs2, Elems(path) + Elems(back))
    && (forall i :: 0 <= i < |path| - 1 ==> PassedThrough(tabs, tabs2, hdr, path[i], back))
    && SameEntry(tabs, tabs2, path[|path| - 1])
    && (forall h :: h in back ==> LaidDown(tabs, tabs2, hdr, path, h))
  }

  /** Where it ended, and with what; `home` is the trail the reply port heads. */
  ghost predicate Landed(topo: Topology, hdr: MsgHdr, path: seq<Hop>, rpath: seq<Hop>,
                         j: Journey, back: seq<Hop>, home: seq<Hop>)
    requires |path| > 0
  {
    && j.Arrived?
    && j.at == path[|path| - 1]
    && j.hdr == hdr.(Dest := j.hdr.Dest, Reply := j.hdr.Reply)
    && if hdr.Reply == NULL_PORT then back == [] && j.hdr.Reply == NULL_PORT
       else
         && |back| == |path|
         && j.hdr.Reply != NULL_PORT
         && home == back + rpath
         && Leads(topo, j.tabs, j.at.node, j.hdr.Reply, home)
  }

  ghost function NewHop(k: NodeId, reply: Word, reply': Word): (back: seq<Hop>)
  {
    if reply == NULL_PORT then [] else [Hop(k, Index(reply'))]
  }

  /**
   A message whose destination leads along a trail arrives at the end of it.
   It frees every entry on the way that may be freed, touches no other, and if
   it carries a reply port that leads home along rpath, the reply port it
   arrives with leads back through one new surrogate per hop and on home.
   */
  lemma {:induction false} TravelArrives(topo: Topology, tabs: Tabs, at: End, hdr: MsgHdr, path: seq<Hop>,
                                         rpath: seq<Hop>, n: nat, j: Journey)
    returns (back: seq<Hop>, home: seq<Hop>)
    requires Wired(topo) && AllValid(tabs) && at in topo
    requires Leads(topo, tabs, at.node, hdr.Dest, path) && n >= |path|
    requires hdr.Reply != NULL_PORT ==>
               Leads(topo, tabs, topo[at].node, hdr.Reply, rpath) && Apart(tabs, hdr, path, rpath)
    requires j == Travel(topo, tabs, at, hdr, n) && !j.NoRoom?
    ensures Landed(topo, hdr, path, rpath, j, back, home)
    ensures Changed(tabs, j.tabs, hdr, path, back)
    decreases |path|
  {
    if |path| == 1 {
      var (t', hdr', _) := LinkMsg(tabs[at.node], at.link, hdr, true, true);
      DeliverFacts(tabs[at.node], at.link, hdr);
      HopOthers(tabs, at.node, t', at.link, hdr.Reply, hdr'.Reply, Index(hdr.Dest));
      ArriveHere(topo, tabs, tabs[at.node := t'], at, hdr, hdr', path, rpath);
      back := NewHop(at.node, hdr.Reply, hdr'.Reply);
      home := back + rpath;
    } else {
      back, home := TravelFurther(topo, tabs, at, hdr, path, rpath, n, j);
    }
  }

  lemma {:induction false} TravelFurther(topo: Topology, tabs: Tabs, at: End, hdr: MsgHdr, path: seq<Hop>,
                                         rpath: seq<Hop>, n: nat, j: Journey)
    returns (back: seq<Hop>, home: seq<Hop>)
    requires Wired(topo) && AllValid(tabs) && at in topo
    requires Leads(topo, tabs, at.node, hdr.Dest, path) && n >= |path| > 1
    requires hdr.Reply != NULL_PORT ==>
               Leads(topo, tabs, topo[at].node, hdr.Reply, rpath) && Apart(tabs, hdr, path, rpath)
    requires j == Travel(topo, tabs, at, hdr, n) && !j.NoRoom?
    ensures Landed(topo, hdr, path, rpath, j, back, home)
    ensures Changed(tabs, j.tabs, hdr, path, back)
    decreases |path|, 1
  {
    var tabs', hdr' := TakeFirstHop(topo, tabs, at, hdr, path, n);
    Depart(topo, tabs, tabs', at, hdr, hdr', path, rpath);
    var back';
    back', home := TravelRest(topo, tabs, tabs', at, hdr, hdr', path, rpath, n, j);
    back := back' + NewHop(at.node, hdr.Reply, hdr'.Reply);
    Assemble(topo, tabs, tabs', at, hdr, hdr', path, rpath, j, back', home);
  }

  lemma {:induction false} TravelRest(topo: Topology, tabs: Tabs, tabs': Tabs, at: End, hdr: MsgHdr, hdr': MsgHdr,
                                      path: seq<Hop>, rpath: seq<Hop>, n: nat, j: Journey)
    returns (back': seq<Hop>, home: seq<Hop>)
    requires Wired(topo) && AllValid(tabs') && n >= |path| > 1 && Has(tabs, path[0])
    requires Continues(topo, tabs, tabs', at, hdr, hdr', path, rpath)
    requires j == Travel(topo, tabs', topo[End(at.node, Ent(tabs, path[0]).Link)], hdr', n - 1) && !j.NoRoom?
    ensures Landed(topo, hdr', path[1..], NewHop(at.node, hdr.Reply, hdr'.Reply) + rpath, j, back', home)
    ensures Changed(tabs', j.tabs, hdr', path[1..], back')
    decreases |path|, 0
  {
    back', home := TravelArrives(topo, tabs', topo[End(at.node, Ent(tabs, path[0]).Link)], hdr', path[1..],
                                 NewHop(at.node, hdr.Reply, hdr'.Reply) + rpath, n - 1, j);
  }

  /** The single-hop journey. */
  lemma ArriveHere(topo: Topology, tabs: Tabs, tabs': Tabs, at: End, hdr: MsgHdr, hdr': MsgHdr, path: seq<Hop>,
                   rpath: seq<Hop>)
    requires at in topo && Leads(topo, tabs, at.node, hdr.Dest, path) && |path| == 1
    requires hdr.Reply != NULL_PORT ==> Leads(topo, tabs, topo[at].node, hdr.Reply, rpath)
    requires at.node in tabs' && ReplyMade(tabs[at.node], tabs'[at.node], at.link, hdr.Reply, hdr'.Reply,
                                           Index(hdr.Dest))
    requires Others(tabs, tabs', HopSet(at.node, Index(hdr.Dest), hdr.Reply, hdr'.Reply))
    requires hdr' == hdr.(Reply := hdr'.Reply)
    requires SameEntry(tabs, tabs', Hop(at.node, Index(hdr.Dest)))
    ensures var back := NewHop(at.node, hdr.Reply, hdr'.Reply);
            && Landed(topo, hdr, path, rpath, Arrived(tabs', path[0], hdr'), back, back + rpath)
            && Changed(tabs, tabs', hdr, path, back)
  {
    var back := NewHop(at.node, hdr.Reply, hdr'.Reply);
    assert HopSet(at.node, Index(hdr.Dest), hdr.Reply, hdr'.Reply) == Elems(path) + Elems(back);
    if hdr.Reply != NULL_PORT {
      SparesTheWayBack(topo, tabs, tabs', at, hdr, hdr', path, rpath);
      TrailBehind(topo, tabs, tabs', at, topo[at].node, hdr.Reply, rpath, hdr'.Reply);
    }
  }

  /** The hop leaves the way home as it was. */
  lemma SparesTheWayBack(topo: Topology, tabs: Tabs, tabs': Tabs, at: End, hdr: MsgHdr, hdr': MsgHdr, path: seq<Hop>,
                         rpath: seq<Hop>)
    requires at in topo && hdr.Reply != NULL_PORT && at.node in tabs && at.node in tabs'
    requires Leads(topo, tabs, topo[at].node, hdr.Reply, rpath)
    requires |path| > 0 && path[0] == Hop(at.node, Index(hdr.Dest))
    requires Others(tabs, tabs', HopSet(at.node, Index(hdr.Dest), hdr.Reply, hdr'.Reply))
    requires HasEntry(tabs'[at.node], Index(hdr'.Reply)) && WasFree(tabs[at.node], tabs'[at.node], Index(hdr'.Reply))
    requires path[0] in rpath ==> SameEntry(tabs, tabs', path[0])
    ensures forall h :: h in rpath ==> SameEntry(tabs, tabs', h)
    ensures Hop(at.node, Index(hdr'.Reply)) !in rpath
  {
    TrailInUse(topo, tabs, topo[at].node, hdr.Reply, rpath);
  }

  lemma StaysApart(topo: Topology, tabs: Tabs, tabs': Tabs, hdr: MsgHdr, hdr': MsgHdr, path: seq<Hop>, rpath: seq<Hop>,
                   h: Hop)
    requires Apart(tabs, hdr, path, rpath) && |path| > 1
    requires hdr'.preserve == hdr.preserve
    requires forall j :: 1 <= j < |path| ==> Has(tabs, path[j]) && SameEntry(tabs, tabs', path[j]) && path[j] != h
    ensures Apart(tabs', hdr', path[1..], [h] + rpath)
  {
  }

  // ---- Putting the first hop before the rest of the journey ----

  /** The facts about the first hop that the rest of the proof needs. */
  ghost predicate FirstHop(topo: Topology, tabs: Tabs, tabs': Tabs, at: End, hdr: MsgHdr, hdr': MsgHdr, path: seq<Hop>)
  {
    && |path| > 1
    && Leads(topo, tabs, at.node, hdr.Dest, path)
    && at.node in tabs'
    && HasEntry(tabs'[at.node], Index(hdr.Dest))
    && UsedUp(hdr, Ent(tabs, path[0]), Ent(tabs', path[0]))
    && ReplyMade(tabs[at.node], tabs'[at.node], at.link, hdr.Reply, hdr'.Reply, Index(hdr.Dest))
    && Others(tabs, tabs', HopSet(at.node, Index(hdr.Dest), hdr.Reply, hdr'.Reply))
    && hdr' == hdr.(Dest := hdr'.Dest, Reply := hdr'.Reply)
  }

  /** What the first hop left: the trail ahead untouched, the new entry off it. */
  ghost predicate FirstHopLeft(tabs: Tabs, tabs': Tabs, hdr: MsgHdr, path: seq<Hop>, made: seq<Hop>)
  {
    && |path| > 1
    && path[0] !in path[1..]
    && Has(tabs, path[0]) && Has(tabs', path[0]) && !Ent(tabs, path[0]).Type.TFree?
    && UsedUp(hdr, Ent(tabs, path[0]), Ent(tabs', path[0]))
    && Others(tabs, tabs', {path[0]} + Elems(made))
    && (forall j :: 1 <= j < |path| ==>
        Has(tabs, path[j]) && Has(tabs', path[j]) && Ent(tabs', path[j]) == Ent(tabs, path[j]))
    && (forall h :: h in made ==>
          h !in path && Has(tabs', h) && WasFreeHop(tabs, tabs', h)
          && (Ent(tabs', h).Type.TSurrogate? || Ent(tabs', h).Type.TTrail?))
  }

  lemma AheadUntouched(topo: Topology, tabs: Tabs, tabs': Tabs, at: End, hdr: MsgHdr, hdr': MsgHdr, path: seq<Hop>)
    requires FirstHop(topo, tabs, tabs', at, hdr, hdr', path)
    ensures FirstHopLeft(tabs, tabs', hdr, path, NewHop(at.node, hdr.Reply, hdr'.Reply))
  {
    TrailIsAcyclic(topo, tabs, at.node, hdr.Dest, path);
    TrailInUse(topo, tabs, at.node, hdr.Dest, path);
    forall j | 1 <= j < |path|
      ensures Has(tabs', path[j]) && Ent(tabs', path[j]) == Ent(tabs, path[j])
    {
      assert path[j] == path[1..][j - 1];
    }
    assert HopSet(at.node, Index(hdr.Dest), hdr.Reply, hdr'.Reply)
        == {path[0]} + Elems(NewHop(at.node, hdr.Reply, hdr'.Reply));
  }

  ghost predicate WasFreeHop(tabs: Tabs, tabs': Tabs, h: Hop)
    requires Has(tabs', h)
  {
    Has(tabs, h) ==> Ent(tabs, h).Type.TFree? && Ent(tabs', h).Cycle == Ent(tabs, h).Cycle
  }

  /** After the first hop the rest of the journey may begin. */
  lemma Depart(topo: Topology, tabs: Tabs, tabs': Tabs, at: End, hdr: MsgHdr, hdr': MsgHdr, path: seq<Hop>,
               rpath: seq<Hop>)
    requires Wired(topo) && at in topo
    requires FirstHop(topo, tabs, tabs', at, hdr, hdr', path) && hdr'.Dest == Ent(tabs, path[0]).TxId
    requires hdr.Reply != NULL_PORT ==>
               Leads(topo, tabs, topo[at].node, hdr.Reply, rpath) && Apart(tabs, hdr, path, rpath)
    ensures Continues(topo, tabs, tabs', at, hdr, hdr', path, rpath)
  {
    AheadUntouched(topo, tabs, tabs', at, hdr, hdr', path);
    TrailAhead(topo, tabs, tabs', at.node, hdr.Dest, path, HopSet(at.node, Index(hdr.Dest), hdr.Reply, hdr'.Reply));
    if hdr.Reply != NULL_PORT {
      SparesTheWayBack(topo, tabs, tabs', at, hdr, hdr', path, rpath);
      TrailBehind(topo, tabs, tabs', at, topo[at].node, hdr.Reply, rpath, hdr'.Reply);
      StaysApart(topo, tabs, tabs', hdr, hdr', path, rpath, Hop(at.node, Index(hdr'.Reply)));
    }
  }

  /** What the rest of the journey needs, as TravelArrives asks for it. */
  ghost predicate Continues(topo: Topology, tabs: Tabs, tabs': Tabs, at: End, hdr: MsgHdr, hdr': MsgHdr,
                            path: seq<Hop>, rpath: seq<Hop>)
    requires |path| > 1 && Has(tabs, path[0])
  {
    && End(at.node, Ent(tabs, path[0]).Link) in topo
    && var at' := topo[End(at.node, Ent(tabs, path[0]).Link)];
       && at' in topo && topo[at'].node == at.node
       && Leads(topo, tabs', at'.node, hdr'.Dest, path[1..])
       && (hdr'.Reply != NULL_PORT ==>
             var rpath' := NewHop(at.node, hdr.Reply, hdr'.Reply) + rpath;
             Leads(topo, tabs', at.node, hdr'.Reply, rpath') && Apart(tabs', hdr', path[1..], rpath'))
  }

  lemma TakeFirstHop(topo: Topology, tabs: Tabs, at: End, hdr: MsgHdr, path: seq<Hop>, n: nat)
    returns (tabs': Tabs, hdr': MsgHdr)
    requires AllValid(tabs) && Leads(topo, tabs, at.node, hdr.Dest, path) && n >= |path| > 1
    requires !Travel(topo, tabs, at, hdr, n).NoRoom?
    ensures FirstHop(topo, tabs, tabs', at, hdr, hdr', path)
    ensures hdr'.Dest == Ent(tabs, path[0]).TxId
    ensures Travel(topo, tabs, at, hdr, n)
        == Travel(topo, tabs', topo[End(at.node, Ent(tabs, path[0]).Link)], hdr', n - 1)
  {
    var (t', h', fate) := LinkMsg(tabs[at.node], at.link, hdr, true, true);
    hdr' := h';
    tabs' := tabs[at.node := t'];
    ForwardFacts(tabs[at.node], at.link, hdr);
    HopOthers(tabs, at.node, t', at.link, hdr.Reply, hdr'.Reply, Index(hdr.Dest));
  }

  /** The first hop and the rest make the whole journey. */
  lemma Assemble(topo: Topology, tabs: Tabs, tabs': Tabs, at: End, hdr: MsgHdr, hdr': MsgHdr, path: seq<Hop>,
                 rpath: seq<Hop>, j: Journey, back': seq<Hop>, home: seq<Hop>)
    requires FirstHop(topo, tabs, tabs', at, hdr, hdr', path)
    requires Landed(topo, hdr', path[1..], NewHop(at.node, hdr.Reply, hdr'.Reply) + rpath, j, back', home)
    requires Changed(tabs', j.tabs, hdr', path[1..], back')
    ensures Landed(topo, hdr, path, rpath, j, back' + NewHop(at.node, hdr.Reply, hdr'.Reply), home)
    ensures Changed(tabs, j.tabs, hdr, path, back' + NewHop(at.node, hdr.Reply, hdr'.Reply))
  {
    var made := NewHop(at.node, hdr.Reply, hdr'.Reply);
    AheadUntouched(topo, tabs, tabs', at, hdr, hdr', path);
    LandsToo(topo, hdr, hdr', path, made, rpath, j, back', home);
    Changes(tabs, tabs', hdr, hdr', path, made, j.tabs, back', back' + made);
  }

  lemma LandsToo(topo: Topology, hdr: MsgHdr, hdr': MsgHdr, path: seq<Hop>, made: seq<Hop>, rpath: seq<Hop>,
                 j: Journey, back': seq<Hop>, home: seq<Hop>)
    requires |path| > 1 && Landed(topo, hdr', path[1..], made + rpath, j, back', home)
    requires hdr' == hdr.(Dest := hdr'.Dest, Reply := hdr'.Reply)
    requires if hdr.Reply == NULL_PORT then made == [] && hdr'.Reply == NULL_PORT
             else |made| == 1 && hdr'.Reply != NULL_PORT
    ensures Landed(topo, hdr, path, rpath, j, back' + made, home)
  {
  }

  /** The changes to the tables, first hop and rest together. */
  lemma Changes(tabs: Tabs, tabs': Tabs, hdr: MsgHdr, hdr': MsgHdr, path: seq<Hop>, made: seq<Hop>, tabs2: Tabs,
                back': seq<Hop>, back: seq<Hop>)
    requires FirstHopLeft(tabs, tabs', hdr, path, made) && back == back' + made
    requires Changed(tabs', tabs2, hdr', path[1..], back') && hdr'.preserve == hdr.preserve
    ensures Changed(tabs, tabs2, hdr, path, back)
  {
    OnOthers(tabs, tabs', tabs2, path, back', made);
    OnPassed(tabs, tabs', tabs2, hdr, hdr', path, back', made);
    OnLaid(tabs, tabs', tabs2, hdr, hdr', path, back', made);
    assert path[|path| - 1] == path[1..][|path| - 2];
  }

  lemma OnOthers(tabs: Tabs, tabs': Tabs, tabs2: Tabs, path: seq<Hop>, back': seq<Hop>, made: seq<Hop>)
    requires |path| > 0
    requires Others(tabs, tabs', {path[0]} + Elems(made))
    requires Others(tabs', tabs2, Elems(path[1..]) + Elems(back'))
    ensures Others(tabs, tabs2, Elems(path) + Elems(back' + made))
  {
    OthersCompose(tabs, tabs', tabs2, {path[0]} + Elems(made), Elems(path[1..]) + Elems(back'));
    assert path == [path[0]] + path[1..];
    assert Elems(path) == {path[0]} + Elems(path[1..]);
    assert Elems(back' + made) == Elems(back') + Elems(made);
    assert ({path[0]} + Elems(made)) + (Elems(path[1..]) + Elems(back')) == Elems(path) + Elems(back' + made);
  }

  lemma OnPassed(tabs: Tabs, tabs': Tabs, tabs2: Tabs, hdr: MsgHdr, hdr': MsgHdr, path: seq<Hop>, back': seq<Hop>,
                 made: seq<Hop>)
    requires |path| > 1 && path[0] !in path[1..] && hdr.preserve == hdr'.preserve
    requires Has(tabs, path[0]) && Has(tabs', path[0]) && UsedUp(hdr, Ent(tabs, path[0]), Ent(tabs', path[0]))
    requires !Ent(tabs, path[0]).Type.TFree?
    requires forall j :: 1 <= j < |path| ==>
        Has(tabs, path[j]) && Has(tabs', path[j]) && Ent(tabs', path[j]) == Ent(tabs, path[j])
    requires Others(tabs', tabs2, Elems(path[1..]) + Elems(back'))
    requires forall i :: 0 <= i < |path| - 2 ==> PassedThrough(tabs', tabs2, hdr', path[1..][i], back')
    requires forall h :: h in back' ==> LaidDown(tabs', tabs2, hdr', path[1..], h)
    ensures forall i :: 0 <= i < |path| - 1 ==> PassedThrough(tabs, tabs2, hdr, path[i], back' + made)
  {
    forall i | 0 <= i < |path| - 1 ensures PassedThrough(tabs, tabs2, hdr, path[i], back' + made) {
      if i > 0 {
        assert path[i] == path[1..][i - 1];
        assert PassedThrough(tabs', tabs2, hdr', path[1..][i - 1], back');
      } else {
        assert LaidDown(tabs', tabs2, hdr', path[1..], path[0]) || path[0] !in back';
      }
    }
  }

  lemma OnLaid(tabs: Tabs, tabs': Tabs, tabs2: Tabs, hdr: MsgHdr, hdr': MsgHdr, path: seq<Hop>, back': seq<Hop>,
               made: seq<Hop>)
    requires FirstHopLeft(tabs, tabs', hdr, path, made) && hdr.preserve == hdr'.preserve
    requires Others(tabs', tabs2, Elems(path[1..]) + Elems(back'))
    requires forall h :: h in back' ==> LaidDown(tabs', tabs2, hdr', path[1..], h)
    ensures forall h :: h in back' + made ==> LaidDown(tabs, tabs2, hdr, path, h)
  {
    forall h | h in back' + made ensures LaidDown(tabs, tabs2, hdr, path, h) {
      if h in back' {
        LaidOnce(tabs, tabs', tabs2, hdr, hdr', path, h, made);
      } else {
        LaidFirst(tabs, tabs', tabs2, hdr, path, h, made, Elems(path[1..]) + Elems(back'));
      }
    }
  }

  lemma LaidFirst(tabs: Tabs, tabs': Tabs, tabs2: Tabs, hdr: MsgHdr, path: seq<Hop>, h: Hop, made: seq<Hop>,
                  touched: set<Hop>)
    requires FirstHopLeft(tabs, tabs', hdr, path, made) && h in made
    requires Others(tabs', tabs2, touched) && h !in touched
    ensures LaidDown(tabs, tabs2, hdr, path, h)
  {
  }

  lemma LaidOnce(tabs: Tabs, tabs': Tabs, tabs2: Tabs, hdr: MsgHdr, hdr': MsgHdr, path: seq<Hop>, h: Hop,
                 made: seq<Hop>)
    requires FirstHopLeft(tabs, tabs', hdr, path, made) && hdr.preserve == hdr'.preserve
    requires LaidDown(tabs', tabs2, hdr', path[1..], h)
    ensures LaidDown(tabs, tabs2, hdr, path, h)
  {
  }

  // ---- Sending: _PutMsg, then the journey ----

  ghost function Transmit(topo: Topology, tabs: Tabs, k: NodeId, hdr: MsgHdr, n: nat): Journey
  {
    if k !in tabs || !HasEntry(tabs[k], Index(hdr.Dest)) then Lost
    else
      var (t', hdr', fate) := PutMsg(tabs[k], hdr, true);
      match fate
      case Delivered(i) => Arrived(tabs[k := t'], Hop(k, i), hdr')
      case Forwarded(link) =>
        if End(k, link) in topo then Travel(topo, tabs[k := t'], topo[End(k, link)], hdr', n) else Lost
      case _ => Lost
  }

  /** Where a transmitted message ended; the sender's own hop lays nothing. */
  ghost predicate Reached(topo: Topology, hdr: MsgHdr, path: seq<Hop>, rpath: seq<Hop>, j: Journey, back: seq<Hop>,
                          home: seq<Hop>)
    requires |path| > 0
  {
    && j.Arrived?
    && j.at == path[|path| - 1]
    && j.hdr == hdr.(Dest := j.hdr.Dest, Reply := j.hdr.Reply)
    && if hdr.Reply == NULL_PORT then back == [] && j.hdr.Reply == NULL_PORT
       else
         && |back| == |path| - 1
         && j.hdr.Reply != NULL_PORT
         && home == back + rpath
         && Leads(topo, j.tabs, j.at.node, j.hdr.Reply, home)
  }

  /** The sender's own hop. */
  lemma PutFirstHop(topo: Topology, tabs: Tabs, k: NodeId, hdr: MsgHdr, path: seq<Hop>, n: nat)
    returns (tabs': Tabs, hdr': MsgHdr)
    requires AllValid(tabs) && hdr.Dest != NULL_PORT && Leads(topo, tabs, k, hdr.Dest, path)
    ensures Others(tabs, tabs', {path[0]})
    ensures Has(tabs, path[0]) && Has(tabs', path[0])
    ensures if |path| == 1 then
              && hdr' == hdr && Transmit(topo, tabs, k, hdr, n) == Arrived(tabs', path[0], hdr)
              && SameEntry(tabs, tabs', path[0])
            else
              && hdr' == hdr.(Dest := Ent(tabs, path[0]).TxId)
              && UsedUp(hdr, Ent(tabs, path[0]), Ent(tabs', path[0]))
              && Transmit(topo, tabs, k, hdr, n) == Travel(topo, tabs', topo[End(k, Ent(tabs, path[0]).Link)], hdr', n)
  {
    var (t', h', fate) := PutMsg(tabs[k], hdr, true);
    AgedFacts(tabs[k], hdr.Dest);
    ConsumeFacts(tabs[k], hdr, hdr.Dest);
    tabs', hdr' := tabs[k := t'], h';
    assert ReplyMade(tabs[k], t', 0, NULL_PORT, NULL_PORT, Index(hdr.Dest));
    HopOthers(tabs, k, t', 0, NULL_PORT, NULL_PORT, Index(hdr.Dest));
  }

  lemma PutLeaves(topo: Topology, tabs: Tabs, tabs': Tabs, k: NodeId, hdr: MsgHdr, path: seq<Hop>, r: Word,
                  rpath: seq<Hop>)
    requires Leads(topo, tabs, k, hdr.Dest, path) && |path| > 1
    requires Others(tabs, tabs', {path[0]}) && Has(tabs', path[0])
    requires UsedUp(hdr, Ent(tabs, path[0]), Ent(tabs', path[0]))
    ensures FirstHopLeft(tabs, tabs', hdr, path, [])
    ensures r != NULL_PORT && Leads(topo, tabs, k, r, rpath) && Apart(tabs, hdr, path, rpath) ==>
              Leads(topo, tabs', k, r, rpath) && Apart(tabs', hdr, path[1..], rpath)
  {
    TrailIsAcyclic(topo, tabs, k, hdr.Dest, path);
    TrailInUse(topo, tabs, k, hdr.Dest, path);
    assert {path[0]} + Elems([]) == {path[0]};
    forall i | 1 <= i < |path| ensures Has(tabs', path[i]) && Ent(tabs', path[i]) == Ent(tabs, path[i]) {
      assert path[i] == path[1..][i - 1];
    }
    if r != NULL_PORT && Leads(topo, tabs, k, r, rpath) && Apart(tabs, hdr, path, rpath) {
      TrailFrame(topo, tabs, tabs', k, r, rpath);
      forall i | 0 <= i < |path| - 2 && Has(tabs', path[1..][i]) && Consumed(hdr, Ent(tabs', path[1..][i]))
        ensures path[1..][i] !in rpath
      {
        assert path[1..][i] == path[i + 1];
      }
    }
  }

  /** TravelArrives, seen from the sender. */
  lemma TransmitArrives(topo: Topology, tabs: Tabs, k: NodeId, hdr: MsgHdr, path: seq<Hop>, rpath: seq<Hop>, n: nat,
                        j: Journey)
    returns (back: seq<Hop>, home: seq<Hop>)
    requires Wired(topo) && AllValid(tabs) && hdr.Dest != NULL_PORT
    requires Leads(topo, tabs, k, hdr.Dest, path) && n >= |path|
    requires hdr.Reply != NULL_PORT ==> Leads(topo, tabs, k, hdr.Reply, rpath) && Apart(tabs, hdr, path, rpath)
    requires j == Transmit(topo, tabs, k, hdr, n) && !j.NoRoom?
    ensures Reached(topo, hdr, path, rpath, j, back, home)
    ensures Changed(tabs, j.tabs, hdr, path, back)
  {
    var tabs', hdr' := PutFirstHop(topo, tabs, k, hdr, path, n);
    if |path| == 1 {
      back, home := [], rpath;
      PutHere(topo, tabs, tabs', k, hdr, path, rpath);
    } else {
      PutLeaves(topo, tabs, tabs', k, hdr, path, hdr.Reply, rpath);
      TrailFromNext(topo, tabs, tabs', k, hdr.Dest, path);
      back, home := TransmitFar(topo, tabs, tabs', topo[End(k, Ent(tabs, path[0]).Link)], hdr, hdr', path, rpath, n, j);
    }
  }

  lemma PutHere(topo: Topology, tabs: Tabs, tabs': Tabs, k: NodeId, hdr: MsgHdr, path: seq<Hop>, rpath: seq<Hop>)
    requires |path| == 1 && path[0].node == k
    requires Others(tabs, tabs', {path[0]}) && SameEntry(tabs, tabs', path[0])
    requires hdr.Reply != NULL_PORT ==> Leads(topo, tabs, k, hdr.Reply, rpath)
    ensures Reached(topo, hdr, path, rpath, Arrived(tabs', path[0], hdr), [], rpath)
    ensures Changed(tabs, tabs', hdr, path, [])
  {
    assert {path[0]} == Elems(path) + Elems([]);
    assert rpath == [] + rpath;
    if hdr.Reply != NULL_PORT {
      TrailFrame(topo, tabs, tabs', k, hdr.Reply, rpath);
    }
  }

  lemma TransmitFar(topo: Topology, tabs: Tabs, tabs': Tabs, at: End, hdr: MsgHdr, hdr': MsgHdr, path: seq<Hop>,
                    rpath: seq<Hop>, n: nat, j: Journey)
    returns (back: seq<Hop>, home: seq<Hop>)
    requires Wired(topo) && at in topo && n >= |path| > 1
    requires FirstHopLeft(tabs, tabs', hdr, path, []) && hdr' == hdr.(Dest := hdr'.Dest)
    requires Leads(topo, tabs', at.node, hdr'.Dest, path[1..])
    requires hdr.Reply != NULL_PORT ==>
               Leads(topo, tabs', topo[at].node, hdr.Reply, rpath) && Apart(tabs', hdr', path[1..], rpath)
    requires j == Travel(topo, tabs', at, hdr', n) && !j.NoRoom?
    ensures Reached(topo, hdr, path, rpath, j, back, home)
    ensures Changed(tabs, j.tabs, hdr, path, back)
  {
    back, home := TravelArrives(topo, tabs', at, hdr', path[1..], rpath, n, j);
    FarChanges(tabs, tabs', hdr, hdr', path, j.tabs, back);
    FarReaches(topo, hdr, hdr', path, rpath, j, back, home);
  }

  lemma FarChanges(tabs: Tabs, tabs': Tabs, hdr: MsgHdr, hdr': MsgHdr, path: seq<Hop>, tabs2: Tabs, back: seq<Hop>)
    requires FirstHopLeft(tabs, tabs', hdr, path, [])
    requires Changed(tabs', tabs2, hdr', path[1..], back) && hdr'.preserve == hdr.preserve
    ensures Changed(tabs, tabs2, hdr, path, back)
  {
    Changes(tabs, tabs', hdr, hdr', path, [], tabs2, back, back);
  }

  lemma FarReaches(topo: Topology, hdr: MsgHdr, hdr': MsgHdr, path: seq<Hop>, rpath: seq<Hop>, j: Journey,
                   back: seq<Hop>, home: seq<Hop>)
    requires |path| > 1 && hdr' == hdr.(Dest := hdr'.Dest) && Landed(topo, hdr', path[1..], rpath, j, back, home)
    ensures Reached(topo, hdr, path, rpath, j, back, home)
  {
  }

  lemma TrailFromNext(topo: Topology, tabs: Tabs, tabs': Tabs, k: NodeId, p: Word, path: seq<Hop>)
    requires Leads(topo, tabs, k, p, path) && |path| > 1
    requires Others(tabs, tabs', {path[0]})
    ensures var e := Ent(tabs, path[0]); Leads(topo, tabs', topo[End(k, e.Link)].node, e.TxId, path[1..])
  {
    TrailAhead(topo, tabs, tabs', k, p, path, {path[0]});
  }

  // ---- There and back ----

  ghost predicate InUse(tabs: Tabs, h: Hop)
  {
    Has(tabs, h) && !Ent(tabs, h).Type.TFree?
  }

  /** After the exchange: what is in use, and what became of the trail out. */
  ghost predicate AsBefore(tabs: Tabs, tabs2: Tabs, hdr: MsgHdr, path: seq<Hop>)
    requires |path| > 0
  {
    var out := path[..|path| - 1];
    && (forall h :: InUse(tabs2, h) ==> InUse(tabs, h))
    && (forall h :: UsesUp(tabs, hdr, out, h) ==> !InUse(tabs2, h))
    && (forall h :: InUse(tabs, h) && !UsesUp(tabs, hdr, out, h) ==> SameEntry(tabs, tabs2, h))
  }

  /**
   A client with a local port sends a request naming it as the reply port; the
   server answers on whatever reply port it was given.  The answer reaches the
   client's port, and afterwards no entry is in use that was not before: the
   whole trail back is gone, every entry of the trail out that may be freed is
   free, and all other entries in use are exactly as they were.
   */
  lemma RoundTrip(topo: Topology, tabs: Tabs, k: NodeId, request: MsgHdr, path: seq<Hop>, n: nat, j1: Journey,
                  answer: MsgHdr, j2: Journey)
    requires Wired(topo) && AllValid(tabs) && request.Dest != NULL_PORT && request.Reply != NULL_PORT && n >= |path|
    requires Leads(topo, tabs, k, request.Dest, path)
    requires IsLive(tabs[k], request.Reply) && Entry(tabs[k], Index(request.Reply)).Type.TLocal?
    requires j1 == Transmit(topo, tabs, k, request, n) && !j1.NoRoom?
    requires j1.Arrived? ==> answer.Dest == j1.hdr.Reply && j2 == Transmit(topo, j1.tabs, j1.at.node, answer, n)
    requires answer.Reply == NULL_PORT && !answer.preserve && !j2.NoRoom?
    ensures j1.Arrived? && j1.at == path[|path| - 1] && j1.hdr.body == request.body
    ensures j2.Arrived? && j2.at == Hop(k, Index(request.Reply)) && j2.hdr.body == answer.body
    ensures AsBefore(tabs, j2.tabs, request, path)
  {
    var client := Hop(k, Index(request.Reply));
    var back, home := RequestArrives(topo, tabs, k, request, path, n, j1, client);
    AnswerReturns(topo, tabs, request, path, n, j1.tabs, j1.at.node, back, client, answer, j2);
  }

  lemma RequestArrives(topo: Topology, tabs: Tabs, k: NodeId, request: MsgHdr, path: seq<Hop>, n: nat, j1: Journey,
                       client: Hop)
    returns (back: seq<Hop>, home: seq<Hop>)
    requires Wired(topo) && AllValid(tabs) && request.Dest != NULL_PORT && request.Reply != NULL_PORT && n >= |path|
    requires Leads(topo, tabs, k, request.Dest, path)
    requires client == Hop(k, Index(request.Reply)) && IsLive(tabs[k], request.Reply) && Ent(tabs, client).Type.TLocal?
    requires j1 == Transmit(topo, tabs, k, request, n) && !j1.NoRoom?
    ensures Reached(topo, request, path, [client], j1, back, home)
    ensures Changed(tabs, j1.tabs, request, path, back)
    ensures client !in back && client !in path[..|path| - 1] && path[|path| - 1] !in back
    ensures forall i :: 0 <= i < |path| ==> InUse(tabs, path[i])
  {
    TrailInUse(topo, tabs, k, request.Dest, path);
    assert Leads(topo, tabs, k, request.Reply, [client]);
    back, home := TransmitArrives(topo, tabs, k, request, path, [client], n, j1);
    ClientOffTrail(tabs, j1.tabs, request, path, back, client);
  }

  lemma AnswerReturns(topo: Topology, tabs: Tabs, request: MsgHdr, path: seq<Hop>, n: nat, tabs1: Tabs, server: NodeId,
                      back: seq<Hop>, client: Hop, answer: MsgHdr, j2: Journey)
    requires Wired(topo) && AllValid(tabs1) && |path| > 0 && n >= |back| + 1
    requires Changed(tabs, tabs1, request, path, back)
    requires Leads(topo, tabs1, server, answer.Dest, back + [client]) && answer.Dest != NULL_PORT
    requires answer.Reply == NULL_PORT && !answer.preserve
    requires j2 == Transmit(topo, tabs1, server, answer, n) && !j2.NoRoom?
    requires InUse(tabs, client) && Ent(tabs, client).Type.TLocal?
    requires client !in back && client !in path[..|path| - 1] && path[|path| - 1] !in back
    requires forall i :: 0 <= i < |path| ==> InUse(tabs, path[i])
    ensures j2.Arrived? && j2.at == client && j2.hdr.body == answer.body
    ensures AsBefore(tabs, j2.tabs, request, path)
  {
    var none, nowhere := TransmitArrives(topo, tabs1, server, answer, back + [client], [], n, j2);
    NothingLeft(tabs, tabs1, j2.tabs, request, path, back, client, answer);
  }

  lemma ClientOffTrail(tabs: Tabs, tabs1: Tabs, hdr: MsgHdr, path: seq<Hop>, back: seq<Hop>, client: Hop)
    requires |path| > 0 && Changed(tabs, tabs1, hdr, path, back)
    requires forall i :: 0 <= i < |path| ==>
        Has(tabs, path[i]) && (Ent(tabs, path[i]).Type.TLocal? <==> i == |path| - 1)
    requires Has(tabs, client) && Ent(tabs, client).Type.TLocal?
    ensures client !in back && client !in path[..|path| - 1] && path[|path| - 1] !in back
  {
  }

  lemma NothingLeft(tabs: Tabs, tabs1: Tabs, tabs2: Tabs, hdr: MsgHdr, path: seq<Hop>, back: seq<Hop>, client: Hop,
                    answer: MsgHdr)
    requires |path| > 0 && Changed(tabs, tabs1, hdr, path, back)
    requires Changed(tabs1, tabs2, answer, back + [client], []) && !answer.preserve
    requires InUse(tabs, client) && Ent(tabs, client).Type.TLocal?
    requires client !in back && client !in path[..|path| - 1] && path[|path| - 1] !in back
    requires forall i :: 0 <= i < |path| ==> InUse(tabs, path[i])
    ensures AsBefore(tabs, tabs2, hdr, path)
  {
    TrailBackGone(tabs, tabs1, tabs2, hdr, path, back, client, answer);
    forall h | InUse(tabs2, h) ensures InUse(tabs, h) {
      NothingNew(tabs, tabs1, tabs2, hdr, path, back, client, h);
    }
    forall h | UsesUp(tabs, hdr, path[..|path| - 1], h) ensures !InUse(tabs2, h) {
      WayOutGone(tabs, tabs1, tabs2, hdr, path, back, client, h);
    }
    forall h | InUse(tabs, h) && !UsesUp(tabs, hdr, path[..|path| - 1], h) ensures SameEntry(tabs, tabs2, h) {
      KeptThroughout(tabs, tabs1, tabs2, hdr, path, back, client, h);
    }
  }

  /** What is in use afterwards was in use before, or is one of the entries touched. */
  lemma InUseBefore(tabs: Tabs, tabs': Tabs, touched: set<Hop>, h: Hop)
    requires Others(tabs, tabs', touched) && InUse(tabs', h) && h !in touched
    ensures InUse(tabs, h)
  {
  }

  lemma NothingNew(tabs: Tabs, tabs1: Tabs, tabs2: Tabs, hdr: MsgHdr, path: seq<Hop>, back: seq<Hop>, client: Hop,
                   h: Hop)
    requires Others(tabs, tabs1, Elems(path) + Elems(back)) && Others(tabs1, tabs2, Elems(back + [client]) + Elems([]))
    requires forall i :: 0 <= i < |path| ==> InUse(tabs, path[i])
    requires forall i :: i in back ==> Has(tabs2, i) && Ent(tabs2, i).Type.TFree?
    requires InUse(tabs, client) && InUse(tabs2, h)
    ensures InUse(tabs, h)
  {
    if h != client && h !in path {
      assert h !in Elems(back + [client]) + Elems([]);
      InUseBefore(tabs1, tabs2, Elems(back + [client]) + Elems([]), h);
      InUseBefore(tabs, tabs1, Elems(path) + Elems(back), h);
    }
  }

  lemma WayOutGone(tabs: Tabs, tabs1: Tabs, tabs2: Tabs, hdr: MsgHdr, path: seq<Hop>, back: seq<Hop>, client: Hop,
                   h: Hop)
    requires |path| > 0 && forall i :: 0 <= i < |path| - 1 ==> PassedThrough(tabs, tabs1, hdr, path[i], back)
    requires Others(tabs1, tabs2, Elems(back + [client]) + Elems([])) && client !in path[..|path| - 1]
    requires forall i :: i in back ==> Has(tabs2, i) && Ent(tabs2, i).Type.TFree?
    requires UsesUp(tabs, hdr, path[..|path| - 1], h)
    ensures !InUse(tabs2, h)
  {
    var i :| 0 <= i < |path| - 1 && path[i] == h;
    assert h in path[..|path| - 1];
    assert PassedThrough(tabs, tabs1, hdr, path[i], back);
    assert h in Elems(back + [client]) + Elems([]) ==> h in back || h == client;
  }

  lemma TrailBackGone(tabs: Tabs, tabs1: Tabs, tabs2: Tabs, hdr: MsgHdr, path: seq<Hop>, back: seq<Hop>, client: Hop,
                      answer: MsgHdr)
    requires |path| > 0 && Changed(tabs, tabs1, hdr, path, back)
    requires Changed(tabs1, tabs2, answer, back + [client], []) && !answer.preserve
    ensures forall h :: h in back ==> Has(tabs2, h) && Ent(tabs2, h).Type.TFree?
  {
    var home := back + [client];
    forall h | h in back ensures Has(tabs2, h) && Ent(tabs2, h).Type.TFree? {
      var i :| 0 <= i < |back| && back[i] == h;
      assert home[i] == h && PassedThrough(tabs1, tabs2, answer, home[i], []);
      assert LaidDown(tabs, tabs1, hdr, path, h);
    }
  }

  /** An entry that the way out does not free is the same after it. */
  lemma KeptOnWayOut(tabs: Tabs, tabs1: Tabs, hdr: MsgHdr, path: seq<Hop>, back: seq<Hop>, h: Hop)
    requires |path| > 0 && Changed(tabs, tabs1, hdr, path, back) && path[|path| - 1] !in back
    requires InUse(tabs, h) && !UsesUp(tabs, hdr, path[..|path| - 1], h)
    ensures SameEntry(tabs, tabs1, h) && h !in back
  {
    if h in path[..|path| - 1] {
      var i :| 0 <= i < |path| - 1 && path[i] == h;
      assert PassedThrough(tabs, tabs1, hdr, path[i], back);
    }
    assert h in back ==> LaidDown(tabs, tabs1, hdr, path, h);
    assert UsesUp(tabs, hdr, path, h) ==> h == path[|path| - 1];
  }

  lemma KeptThroughout(tabs: Tabs, tabs1: Tabs, tabs2: Tabs, hdr: MsgHdr, path: seq<Hop>, back: seq<Hop>, client: Hop,
                       h: Hop)
    requires |path| > 0 && Changed(tabs, tabs1, hdr, path, back)
    requires Others(tabs1, tabs2, Elems(back + [client]) + Elems([])) && SameEntry(tabs1, tabs2, client)
    requires InUse(tabs, h) && !UsesUp(tabs, hdr, path[..|path| - 1], h)
    requires path[|path| - 1] !in back
    ensures SameEntry(tabs, tabs2, h)
  {
    KeptOnWayOut(tabs, tabs1, hdr, path, back, h);
    assert h != client ==> h !in Elems(back + [client]) + Elems([]);
  }
}
