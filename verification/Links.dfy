/**
 Who may send on a link: link->TxUser and link->TxQueue, in _WaitLink,
 _JumpLink and _SignalLink (kernel/link1.c) and in _PutMsg (kernel/putmsg1.c).
 */
module Links {
  import Clock = Times
  import opened Filters
  import opened Lists
  import opened IdQueues

  /** A link's owner and the queue behind it. */
  datatype Link<T> = Link(user: Option<T>, queue: seq<T>)

  /** _WaitLink, and _PutMsg's own queueing. */
  function Waited<T>(l: Link<T>, id: T): Link<T>
  {
    if l.user.Some? then l.(queue := l.queue + [id]) else l.(user := Some(id))
  }

  function Jumped<T>(l: Link<T>, id: T): Link<T>
  {
    if l.user.Some? then l.(queue := [id] + l.queue) else l.(user := Some(id))
  }

  /** _SignalLink, and the end of _PutMsg. */
  function Signalled<T>(l: Link<T>): Link<T>
  {
    if l.queue != [] then Link(Some(l.queue[0]), l.queue[1..]) else l.(user := None)
  }

  class LinkInfo {
    var txUser: Id?
    const txQueue: Head

    constructor ()
      ensures fresh(txQueue) && Holds(Link(None, []))
    {
      txUser := null;
      txQueue := new Head();
    }

    ghost predicate Holds(l: Link<Id>)
      reads this, txQueue, l.queue
    {
      txUser == (if l.user.Some? then l.user.value else null) && Queue(txQueue, l.queue)
    }

    /** Whether the caller has to be suspended. */
    method WaitLink(id: Id, ghost l: Link<Id>) returns (suspend: bool)
      requires Holds(l) && id !in l.queue
      modifies this`txUser, txQueue, id, l.queue
      ensures Holds(Waited(l, id)) && suspend == l.user.Some?
      ensures id.rc == 0 && id.endtime == Clock.FOREVER
      ensures suspend ==> id.state == NULL && id.mcb == NULL
    {
      id.rc, id.endtime := 0, Clock.FOREVER;
      suspend := txUser != null;
      if suspend {
        Append(txQueue, id, l.queue);
        id.state, id.mcb := NULL, NULL;
      } else {
        txUser := id;
      }
    }

    method JumpLink(id: Id, ghost l: Link<Id>) returns (suspend: bool)
      requires Holds(l) && id !in l.queue
      modifies this`txUser, txQueue, id, l.queue
      ensures Holds(Jumped(l, id)) && suspend == l.user.Some?
      ensures id.rc == 0 && id.endtime == Clock.FOREVER
      ensures suspend ==> id.state == NULL && id.mcb == NULL
    {
      id.rc, id.endtime := 0, Clock.FOREVER;
      suspend := txUser != null;
      if suspend {
        IdQueues.Jump(txQueue, id, l.queue);
        id.state, id.mcb := NULL, NULL;
      } else {
        txUser := id;
      }
    }

    /** Whose thread is resumed, if anyone's. */
    method SignalLink(ghost l: Link<Id>) returns (succ: Id?)
      requires Holds(l)
      modifies this`txUser, txQueue, l.queue
      ensures Holds(Signalled(l)) && succ == if l.queue != [] then l.queue[0] else null
      ensures txUser == succ
    {
      succ := null;
      if txQueue.head != null {
        succ := Pop(txQueue, l.queue);
      }
      txUser := succ;
    }
  }

  // ---- runs ----

  datatype Kind = Sender | Waiter | Jumper

  /** One request for the link: _PutMsg, _WaitLink or _JumpLink, in order of the calls. */
  datatype Request = Request(n: nat, kind: Kind)

  /** What the owner's thread does: it has been resumed, it uses the link, or it has left for good. */
  datatype Phase = Handed | Using | Gone

  /** A link in time; granted are its owners so far, the present one last, and released those that let go. */
  datatype State = State(link: Link<Request>, phase: Phase, killed: bool, next: nat,
                         granted: seq<Request>, released: seq<Request>, dropped: seq<Request>)

  const FREE := State(Link(None, []), Using, false, 0, [], [], [])

  datatype Step =
    | Asks(kind: Kind)          // a new request
    | Runs                      // the owner's thread goes on after being resumed
    | Releases                  // the owner is done
    | Kills                     // EvictLinks sets the owner's rc to Err_Kill
    | Drops(out: seq<bool>)     // time-out, abort or kill takes requests off the queue

  predicate Enabled(s: State, step: Step)
  {
    match step
    case Asks(_) => true
    case Runs => s.link.user.Some? && s.phase.Handed?
    case Releases => s.link.user.Some? && s.phase.Using?
    case Kills => s.link.user.Some?
    case Drops(out) => |out| == |s.link.queue|
  }

  function Apply(s: State, step: Step): State
    requires Enabled(s, step)
  {
    match step
    case Asks(kind) =>
      var r := Request(s.next, kind);
      var link := if kind.Jumper? then Jumped(s.link, r) else Waited(s.link, r);
      if s.link.user.Some? then s.(link := link, next := s.next + 1)
      else s.(link := link, next := s.next + 1, phase := Using, killed := false, granted := s.granted + [r])
    case Runs =>
      // _PutMsg looks at its rc here, the others do not
      s.(phase := if s.link.user.value.kind.Sender? && s.killed then Gone else Using)
    case Releases =>
      var s' := s.(link := Signalled(s.link), released := s.released + [s.link.user.value]);
      if s.link.queue == [] then s'
      else s'.(phase := Handed, killed := false, granted := s.granted + [s.link.queue[0]])
    case Kills => s.(killed := true)
    case Drops(out) =>
      s.(link := s.link.(queue := Keep(s.link.queue, out)), dropped := s.dropped + Take(s.link.queue, out))
  }

  /** a before b in the queue: jumpers first and the latest of them foremost, then the others as they came. */
  predicate Ahead(a: Request, b: Request)
  {
    if a.kind.Jumper? then b.kind.Jumper? ==> a.n > b.n
    else !b.kind.Jumper? && a.n < b.n
  }

  ghost predicate Lined(q: seq<Request>, bound: nat)
  {
    && (forall j, k :: 0 <= j < k < |q| ==> Ahead(q[j], q[k]))
    && (forall k :: 0 <= k < |q| ==> q[k].n < bound)
  }

  /** The requests that queue at the tail, out of a sequence. */
  function Tails(q: seq<Request>): (t: seq<nat>)
  {
    if q == [] then [] else
      var n := |q| - 1;
      Tails(q[..n]) + if q[n].kind.Jumper? then [] else [q[n].n]
  }

  ghost predicate Increasing(t: seq<nat>, bound: nat)
  {
    (forall j, k :: 0 <= j < k < |t| ==> t[j] < t[k]) && forall k :: 0 <= k < |t| ==> t[k] < bound
  }

  function Numbers(q: seq<Request>): (t: seq<nat>)
    ensures |t| == |q|
  {
    seq(|q|, k requires 0 <= k < |q| => q[k].n)
  }

  /** How often request n occurs. */
  function Times(q: seq<Request>, n: nat): nat
  {
    Count(Numbers(q), n)
  }

  /** A queue means an owner; everyone the link was granted to has let go of it, but for the owner. */
  predicate Owned(s: State)
  {
    && (s.link.queue != [] ==> s.link.user.Some?)
    && s.granted == s.released + if s.link.user.Some? then [s.link.user.value] else []
  }

  /** The requests that queued at the tail get the link in the order in which they came. */
  ghost predicate InTurn(s: State)
  {
    Increasing(Tails(s.granted) + Tails(s.link.queue), s.next)
  }

  /** Each request has had the link, waits, or was dropped, and only one of these. */
  ghost predicate Accounted(s: State)
  {
    forall n: nat :: Times(s.granted, n) + Times(s.link.queue, n) + Times(s.dropped, n) == if n < s.next then 1 else 0
  }

  ghost predicate Inv(s: State)
  {
    Owned(s) && Lined(s.link.queue, s.next) && InTurn(s) && Accounted(s)
  }

  lemma {:induction false} TailsFirst(q: seq<Request>)
    requires q != []
    ensures Tails(q) == (if q[0].kind.Jumper? then [] else [q[0].n]) + Tails(q[1..])
    decreases |q|
  {
    var n := |q| - 1;
    if n > 0 {
      TailsFirst(q[..n]);
      assert q[..n][1..] == q[1..][..n - 1];
    }
  }

  lemma TailsPush(q: seq<Request>, r: Request)
    ensures Tails(q + [r]) == Tails(q) + if r.kind.Jumper? then [] else [r.n]
    ensures Tails([r] + q) == (if r.kind.Jumper? then [] else [r.n]) + Tails(q)
  {
    assert (q + [r])[..|q|] == q;
    TailsFirst([r] + q);
    assert ([r] + q)[1..] == q;
  }

  lemma {:induction false} TailsKeep(a: seq<nat>, q: seq<Request>, out: seq<bool>, bound: nat)
    requires |out| == |q| && Increasing(a + Tails(q), bound)
    ensures Increasing(a + Tails(Keep(q, out)), bound)
    decreases |q|
  {
    if q == [] {
      assert Keep(q, out) == q;
    } else {
      var n := |q| - 1;
      var rest := Tails(q[..n]);
      var kept := Keep(q[..n], out[..n]);
      assert Keep(q, out) == if out[n] then kept else kept + [q[n]];
      if q[n].kind.Jumper? {
        assert Tails(q) == rest;
        TailsKeep(a, q[..n], out[..n], bound);
        TailsPush(kept, q[n]);
        assert Tails(Keep(q, out)) == Tails(kept);
      } else {
        assert a + Tails(q) == (a + rest) + [q[n].n];
        IncreasingLess(a + rest, q[n].n, bound);
        TailsKeep(a, q[..n], out[..n], q[n].n);
        IncreasingMore(a + Tails(kept), q[n].n, bound);
        TailsPush(kept, q[n]);
        assert a + (Tails(kept) + [q[n].n]) == (a + Tails(kept)) + [q[n].n];
      }
    }
  }

  lemma IncreasingLess(t: seq<nat>, x: nat, bound: nat)
    requires Increasing(t + [x], bound)
    ensures Increasing(t, x) && x < bound
  {
    assert (t + [x])[|t|] == x;
    assert forall k :: 0 <= k < |t| ==> (t + [x])[k] == t[k];
  }

  lemma IncreasingMore(t: seq<nat>, x: nat, bound: nat)
    requires Increasing(t, x) && x < bound
    ensures Increasing(t + [x], bound) && Increasing(t, bound)
  {
  }

  lemma LinedSnoc(q: seq<Request>, r: Request, bound: nat)
    requires Lined(q, bound) && r.n < bound && forall k :: 0 <= k < |q| ==> Ahead(q[k], r)
    ensures Lined(q + [r], bound)
  {
  }

  lemma {:induction false} KeepLined(q: seq<Request>, out: seq<bool>, bound: nat)
    requires |out| == |q| && Lined(q, bound)
    ensures Lined(Keep(q, out), bound)
    decreases |q|
  {
    if q != [] {
      var n := |q| - 1;
      var kept := Keep(q[..n], out[..n]);
      KeepLined(q[..n], out[..n], bound);
      if out[n] {
        assert Keep(q, out) == kept;
      } else {
        forall k | 0 <= k < |kept| ensures Ahead(kept[k], q[n]) {
          KeepMembers(q[..n], out[..n], kept[k]);
        }
        LinedSnoc(kept, q[n], bound);
      }
    }
  }

  lemma TimesConcat(a: seq<Request>, b: seq<Request>, n: nat)
    ensures Times(a + b, n) == Times(a, n) + Times(b, n)
  {
    assert Numbers(a + b) == Numbers(a) + Numbers(b);
    CountConcat(Numbers(a), Numbers(b), n);
  }

  lemma TimesOne(r: Request, n: nat)
    ensures Times([r], n) == if r.n == n then 1 else 0
  {
    assert Numbers([r]) == [] + [r.n];
    CountSnoc([], r.n, n);
  }

  lemma {:induction false} NumbersKeep(q: seq<Request>, out: seq<bool>)
    requires |q| == |out|
    ensures Numbers(Keep(q, out)) == Keep(Numbers(q), out) && Numbers(Take(q, out)) == Take(Numbers(q), out)
    decreases |q|
  {
    if q != [] {
      var m := |q| - 1;
      NumbersKeep(q[..m], out[..m]);
      assert Numbers(q)[..m] == Numbers(q[..m]);
      assert Numbers(Keep(q, out)) == Numbers(Keep(q[..m], out[..m])) + if out[m] then [] else [q[m].n];
      assert Numbers(Take(q, out)) == Numbers(Take(q[..m], out[..m])) + if out[m] then [q[m].n] else [];
    }
  }

  lemma TimesKeep(q: seq<Request>, out: seq<bool>, n: nat)
    requires |q| == |out|
    ensures Times(Keep(q, out), n) + Times(Take(q, out), n) == Times(q, n)
  {
    NumbersKeep(q, out);
    KeepAndTake(Numbers(q), out, n);
  }

  /** A newcomer on the queue, or at once the owner. */
  lemma TailsAsk(a: seq<nat>, q: seq<Request>, r: Request)
    requires Increasing(a + Tails(q), r.n)
    ensures Increasing(a + Tails(if r.kind.Jumper? then [r] + q else q + [r]), r.n + 1)
  {
    TailsPush(q, r);
    IncreasingMore(a + Tails(q), r.n, r.n + 1);
    if r.kind.Jumper? {
      assert [] + Tails(q) == Tails(q);
    } else {
      assert a + (Tails(q) + [r.n]) == (a + Tails(q)) + [r.n];
    }
  }

  lemma TailsOwn(g: seq<Request>, r: Request)
    requires Increasing(Tails(g) + Tails([]), r.n)
    ensures Increasing(Tails(g + [r]) + Tails([]), r.n + 1)
  {
    TailsPush(g, r);
    assert Tails(g) + Tails([]) == Tails(g);
    assert Tails(g + [r]) + Tails([]) == Tails(g + [r]);
    IncreasingMore(Tails(g), r.n, r.n + 1);
    assert Tails(g) + [] == Tails(g);
  }

  lemma AskInTurn(s: State, kind: Kind)
    requires InTurn(s) && (s.link.queue != [] ==> s.link.user.Some?)
    ensures InTurn(Apply(s, Asks(kind)))
  {
    var r := Request(s.next, kind);
    if s.link.user.Some? {
      TailsAsk(Tails(s.granted), s.link.queue, r);
    } else {
      TailsOwn(s.granted, r);
    }
  }

  lemma AskAccounted(s: State, kind: Kind)
    requires Accounted(s)
    ensures Accounted(Apply(s, Asks(kind)))
  {
    var r, s' := Request(s.next, kind), Apply(s, Asks(kind));
    forall n: nat
      ensures Times(s'.granted, n) + Times(s'.link.queue, n) + Times(s'.dropped, n) == if n < s'.next then 1 else 0
    {
      TimesOne(r, n);
      TimesConcat(s.granted, [r], n);
      TimesConcat(s.link.queue, [r], n);
      TimesConcat([r], s.link.queue, n);
    }
  }

  lemma AskLined(s: State, kind: Kind)
    requires Lined(s.link.queue, s.next)
    ensures Lined(Apply(s, Asks(kind)).link.queue, s.next + 1)
  {
  }

  lemma AskInv(s: State, kind: Kind)
    requires Inv(s)
    ensures Inv(Apply(s, Asks(kind)))
  {
    AskInTurn(s, kind);
    AskAccounted(s, kind);
    AskLined(s, kind);
  }

  lemma Regroup(a: seq<nat>, b: seq<nat>, c: seq<nat>)
    ensures (a + b) + c == a + (b + c)
  {
  }

  lemma TailsShift(g: seq<Request>, q: seq<Request>)
    requires q != []
    ensures Tails(g + [q[0]]) + Tails(q[1..]) == Tails(g) + Tails(q)
  {
    TailsFirst(q);
    TailsPush(g, q[0]);
    Regroup(Tails(g), if q[0].kind.Jumper? then [] else [q[0].n], Tails(q[1..]));
  }

  lemma ReleaseInTurn(s: State)
    requires InTurn(s) && Enabled(s, Releases)
    ensures InTurn(Apply(s, Releases))
  {
    if s.link.queue != [] {
      TailsShift(s.granted, s.link.queue);
    }
  }

  lemma TimesShift(g: seq<Request>, q: seq<Request>, n: nat)
    requires q != []
    ensures Times(g + [q[0]], n) + Times(q[1..], n) == Times(g, n) + Times(q, n)
  {
    assert q == [q[0]] + q[1..];
    TimesConcat([q[0]], q[1..], n);
    TimesConcat(g, [q[0]], n);
  }

  lemma ReleaseAccounted(s: State)
    requires Accounted(s) && Enabled(s, Releases)
    ensures Accounted(Apply(s, Releases))
  {
    if s.link.queue != [] {
      var s' := Apply(s, Releases);
      assert s'.granted == s.granted + [s.link.queue[0]] && s'.link.queue == s.link.queue[1..];
      forall n: nat
        ensures Times(s'.granted, n) + Times(s'.link.queue, n) + Times(s'.dropped, n) == if n < s'.next then 1 else 0
      {
        TimesShift(s.granted, s.link.queue, n);
      }
    }
  }

  lemma ReleaseInv(s: State)
    requires Inv(s) && Enabled(s, Releases)
    ensures Inv(Apply(s, Releases))
  {
    ReleaseInTurn(s);
    ReleaseAccounted(s);
  }

  lemma DropAccounted(s: State, out: seq<bool>)
    requires Accounted(s) && Enabled(s, Drops(out))
    ensures Accounted(Apply(s, Drops(out)))
  {
    var s' := Apply(s, Drops(out));
    forall n: nat
      ensures Times(s'.granted, n) + Times(s'.link.queue, n) + Times(s'.dropped, n) == if n < s'.next then 1 else 0
    {
      TimesKeep(s.link.queue, out, n);
      TimesConcat(s.dropped, Take(s.link.queue, out), n);
    }
  }

  lemma DropInv(s: State, out: seq<bool>)
    requires Inv(s) && Enabled(s, Drops(out))
    ensures Inv(Apply(s, Drops(out)))
  {
    KeepLined(s.link.queue, out, s.next);
    TailsKeep(Tails(s.granted), s.link.queue, out, s.next);
    DropAccounted(s, out);
    assert s.link.queue == [] ==> Keep(s.link.queue, out) == [];
  }

  lemma ApplyInv(s: State, step: Step)
    requires Inv(s) && Enabled(s, step)
    ensures Inv(Apply(s, step))
  {
    match step
    case Asks(kind) => AskInv(s, kind);
    case Runs =>
    case Releases => ReleaseInv(s);
    case Kills =>
    case Drops(out) => DropInv(s, out);
  }

  predicate Can(s: State, steps: seq<Step>)
    decreases |steps|, 0
  {
    steps == [] ||
    var n := |steps| - 1;
    Can(s, steps[..n]) && Enabled(Run(s, steps[..n]), steps[n])
  }

  function Run(s: State, steps: seq<Step>): State
    requires Can(s, steps)
    decreases |steps|, 1
  {
    if steps == [] then s else
      var n := |steps| - 1;
      Apply(Run(s, steps[..n]), steps[n])
  }

  /**
   In every state that any run reaches, a queue means an owner, each request
   has owned the link, waits, or was dropped, and only one of these, jumpers
   wait first and latest first, and the others get the link as they came.
   */
  lemma {:induction false} RunInv(steps: seq<Step>)
    requires Can(FREE, steps)
    ensures Inv(Run(FREE, steps))
    decreases |steps|
  {
    if steps != [] {
      var n := |steps| - 1;
      RunInv(steps[..n]);
      ApplyInv(Run(FREE, steps[..n]), steps[n]);
    }
  }

  /**
   So at any time the owner is a request that has been granted the link and has
   not let go since, and if there is none, all that have been granted it have let go.
   */
  lemma OwnerHoldsOn(steps: seq<Step>, r: Request)
    requires Can(FREE, steps)
    ensures var s := Run(FREE, steps); s.link.user == Some(r) <==> r in s.granted && r !in s.released
  {
    RunInv(steps);
    var s := Run(FREE, steps);
    if s.link.user.Some? {
      var o := s.link.user.value;
      assert s.granted == s.released + [o];
      assert o in s.granted;
      TimesConcat(s.released, [o], o.n);
      TimesOne(o, o.n);
      if o in s.released { TimesIn(s.released, o); }
    } else {
      assert s.granted == s.released + [] == s.released;
    }
  }

  lemma {:induction false} TimesIn(q: seq<Request>, r: Request)
    requires r in q
    ensures Times(q, r.n) > 0
  {
    var n := |q| - 1;
    assert q == q[..n] + [q[n]];
    TimesConcat(q[..n], [q[n]], r.n);
    TimesOne(q[n], r.n);
    if q[n] != r { TimesIn(q[..n], r); }
  }

  /**
   Whoever lets go of the link has it no more; the head of the queue has it, or
   nobody if and only if nobody waits.
   */
  lemma ReleasePasses(s: State)
    requires Inv(s) && Enabled(s, Releases)
    ensures var s' := Apply(s, Releases);
            && s'.link.user != s.link.user
            && (s'.link.user == None <==> s.link.queue == [])
            && (s.link.queue != [] ==> s'.link == Link(Some(s.link.queue[0]), s.link.queue[1..]) && s'.phase.Handed?)
            && (s.link.queue == [] ==> s'.link.queue == [])
  {
    var o := s.link.user.value;
    if s.link.queue != [] && s.link.queue[0] == o {
      TimesIn(s.granted, o);
      TimesIn(s.link.queue, o);
    }
  }

  /** The link changes hands only when its owner lets go, and to the head of the queue. */
  lemma OnlyByRelease(s: State, step: Step)
    requires Inv(s) && Enabled(s, step) && s.link.user.Some? && Apply(s, step).link.user != s.link.user
    ensures step.Releases? && s.phase.Using?
    ensures Apply(s, step).link.user == if s.link.queue == [] then None else Some(s.link.queue[0])
  {
  }

  /**
   But there is one way to lose a link: a _PutMsg that EvictLinks marks between
   being given the link and going on does not send and does not let go...
   */
  lemma LostWhen(s: State, step: Step)
    requires Enabled(s, step) && !s.phase.Gone?
    ensures Apply(s, step).phase.Gone? <==>
              step.Runs? && s.link.user.value.kind.Sender? && s.killed
  {
  }

  /** The i-th step marks a sender that has been given the link and has not run since. */
  ghost predicate MarksAt(steps: seq<Step>, i: nat)
  {
    && i < |steps| && steps[i].Kills? && Can(FREE, steps[..i])
    && var s := Run(FREE, steps[..i]); s.phase.Handed? && s.link.user.Some? && s.link.user.value.kind.Sender?
  }

  /** The owner's thread does not run between the steps i and j. */
  predicate Rests(steps: seq<Step>, i: nat, j: nat)
  {
    j <= |steps| && forall k :: i < k < j ==> !steps[k].Runs?
  }

  /** The owner's thread runs at step j for the first time since step i. */
  predicate Strikes(steps: seq<Step>, i: nat, j: nat)
  {
    i < j < |steps| && Rests(steps, i, j) && steps[j].Runs?
  }

  /** A sender was so marked, and then ran. */
  ghost predicate Loses(steps: seq<Step>)
  {
    exists i: nat, j: nat :: MarksAt(steps, i) && Strikes(steps, i, j)
  }

  /** A sender was so marked, and has not run yet. */
  ghost predicate Pending(steps: seq<Step>)
  {
    exists i: nat {:trigger MarksAt(steps, i)} :: MarksAt(steps, i) && Rests(steps, i, |steps|)
  }

  /** Another step does not change what the steps before it did. */
  lemma SameBefore(steps: seq<Step>, all: seq<Step>, i: nat, j: nat)
    requires |all| == |steps| + 1 && all[..|steps|] == steps && i < |steps| && j <= |steps|
    ensures MarksAt(all, i) <==> MarksAt(steps, i)
    ensures Rests(all, i, j) <==> Rests(steps, i, j)
  {
    assert all[..i] == steps[..i];
    assert forall k :: 0 <= k < |steps| ==> all[k] == steps[k];
  }

  lemma RestsOn(steps: seq<Step>, i: nat)
    requires steps != [] && i < |steps| - 1
    ensures Rests(steps, i, |steps|) <==> Rests(steps, i, |steps| - 1) && !steps[|steps| - 1].Runs?
  {
  }

  lemma PendingNext(steps: seq<Step>, all: seq<Step>)
    requires |all| == |steps| + 1 && all[..|steps|] == steps
    ensures Pending(all) <==> MarksAt(all, |steps|) || (Pending(steps) && !all[|steps|].Runs?)
  {
    if Pending(all) {
      var i: nat :| MarksAt(all, i) && Rests(all, i, |all|);
      if i < |steps| {
        SameBefore(steps, all, i, |steps|);
        RestsOn(all, i);
      }
    }
    if Pending(steps) && !all[|steps|].Runs? {
      var i: nat :| MarksAt(steps, i) && Rests(steps, i, |steps|);
      SameBefore(steps, all, i, |steps|);
      RestsOn(all, i);
    }
    if MarksAt(all, |steps|) { assert Rests(all, |steps|, |all|); }
  }

  lemma LosesNext(steps: seq<Step>, all: seq<Step>)
    requires |all| == |steps| + 1 && all[..|steps|] == steps
    ensures Loses(all) <==> Loses(steps) || (Pending(steps) && all[|steps|].Runs?)
  {
    if Loses(all) {
      var i: nat, j: nat :| MarksAt(all, i) && Strikes(all, i, j);
      SameBefore(steps, all, i, j);
      if j < |steps| { assert MarksAt(steps, i) && Strikes(steps, i, j); }
    }
    if Loses(steps) {
      var i: nat, j: nat :| MarksAt(steps, i) && Strikes(steps, i, j);
      SameBefore(steps, all, i, j);
      assert all[j] == all[..|steps|][j];
      assert MarksAt(all, i) && Strikes(all, i, j);
    }
    if Pending(steps) && all[|steps|].Runs? {
      var i: nat :| MarksAt(steps, i) && Rests(steps, i, |steps|);
      SameBefore(steps, all, i, |steps|);
      assert MarksAt(all, i) && Strikes(all, i, |steps|);
    }
  }

  /** The flag tells whether such a mark is pending. */
  ghost predicate Told(s: State, pending: bool, lost: bool)
  {
    && (s.phase.Gone? <==> lost)
    && (s.phase.Handed? && s.killed && s.link.user.Some? && s.link.user.value.kind.Sender? <==> pending)
  }

  lemma ToldNext(s: State, step: Step, pending: bool, lost: bool)
    requires Enabled(s, step) && Told(s, pending, lost) && (s.phase != Using ==> s.link.user.Some?)
    ensures var marks := step.Kills? && s.phase.Handed? && s.link.user.value.kind.Sender?;
            Told(Apply(s, step), !step.Runs? && (pending || marks), lost || (pending && step.Runs?))
    ensures Apply(s, step).phase != Using ==> Apply(s, step).link.user.Some?
  {
  }

  /** ...so that a run loses the link if and only if a sender is so marked and runs next... */
  lemma {:induction false} LostIff(steps: seq<Step>)
    requires Can(FREE, steps)
    ensures Run(FREE, steps).phase.Gone? <==> Loses(steps)
    ensures Told(Run(FREE, steps), Pending(steps), Loses(steps))
    ensures Run(FREE, steps).phase != Using ==> Run(FREE, steps).link.user.Some?
    decreases |steps|
  {
    if steps != [] {
      var n := |steps| - 1;
      LostIff(steps[..n]);
      PendingNext(steps[..n], steps);
      LosesNext(steps[..n], steps);
      ToldNext(Run(FREE, steps[..n]), steps[n], Pending(steps[..n]), Loses(steps[..n]));
    }
  }

  ghost predicate Reached(s: State)
  {
    exists steps :: Can(FREE, steps) && Run(FREE, steps) == s
  }

  lemma ReachedNext(s: State, step: Step, s': State)
    requires Reached(s) && Enabled(s, step) && s' == Apply(s, step)
    ensures Reached(s')
  {
    var steps :| Can(FREE, steps) && Run(FREE, steps) == s;
    assert (steps + [step])[..|steps|] == steps;
    assert Can(FREE, steps + [step]) && Run(FREE, steps + [step]) == s';
  }

  /** (as it does when the first of two senders is done and the second is killed before it runs)... */
  lemma LostReachable()
    ensures Reached(State(Link(Some(Request(1, Sender)), []), Gone, true, 2,
                          [Request(0, Sender), Request(1, Sender)], [Request(0, Sender)], []))
  {
    var r0, r1 := Request(0, Sender), Request(1, Sender);
    var s1 := State(Link(Some(r0), []), Using, false, 1, [r0], [], []);
    var s2 := State(Link(Some(r0), [r1]), Using, false, 2, [r0], [], []);
    var s3 := State(Link(Some(r1), []), Handed, false, 2, [r0, r1], [r0], []);
    assert Can(FREE, []) && Run(FREE, []) == FREE;
    ReachedNext(FREE, Asks(Sender), s1);
    ReachedNext(s1, Asks(Sender), s2);
    ReachedNext(s2, Releases, s3);
    ReachedNext(s3, Kills, s3.(killed := true));
    ReachedNext(s3.(killed := true), Runs, s3.(killed := true, phase := Gone));
  }

  /** ...after which nobody else ever gets it, and every request waits. */
  lemma {:induction false} LostForEver(s: State, steps: seq<Step>)
    requires s.link.user.Some? && s.phase.Gone? && Can(s, steps)
    ensures Run(s, steps).link.user == s.link.user && Run(s, steps).phase.Gone?
    ensures Run(s, steps).granted == s.granted
    decreases |steps|
  {
    if steps != [] {
      LostForEver(s, steps[..|steps| - 1]);
    }
  }

  /** Otherwise the owner can always go on, and the link comes to whoever is first. */
  lemma OwnerGoesOn(s: State)
    requires Inv(s) && s.link.user.Some? && !s.phase.Gone?
    ensures Enabled(s, Runs) || Enabled(s, Releases)
    ensures s.phase.Handed? && !(s.killed && s.link.user.value.kind.Sender?) ==> Enabled(Apply(s, Runs), Releases)
  {
  }

  /** Owners go on and let go, and nothing else happens. */
  predicate GoingOn(steps: seq<Step>)
  {
    forall k :: 0 <= k < |steps| ==> steps[k].Runs? || steps[k].Releases?
  }

  ghost predicate Leads(s: State, s': State)
  {
    exists steps :: GoingOn(steps) && Can(s, steps) && Run(s, steps) == s'
  }

  lemma LeadsNext(s: State, m: State, step: Step, s': State)
    requires Leads(s, m) && (step.Runs? || step.Releases?) && Enabled(m, step) && s' == Apply(m, step)
    ensures Leads(s, s')
  {
    var steps :| GoingOn(steps) && Can(s, steps) && Run(s, steps) == m;
    assert (steps + [step])[..|steps|] == steps;
    assert GoingOn(steps + [step]) && Can(s, steps + [step]) && Run(s, steps + [step]) == s';
  }

  /** The owner has left for good, or will when it runs. */
  predicate Doomed(s: State)
  {
    s.link.user.Some? && (s.phase.Gone? || (s.phase.Handed? && s.killed && s.link.user.value.kind.Sender?))
  }

  /** The link is idle, and all that waited in s have had it, in order. */
  predicate Drained(s: State, s': State)
  {
    s'.link == Link(None, []) && s'.granted == s.granted + s.link.queue && s'.dropped == s.dropped
  }

  lemma {:induction false} Drain(s: State, m: State) returns (s': State)
    requires Leads(s, m) && Inv(m) && !Doomed(m) && m.link.user.Some?
    requires s.granted + s.link.queue == m.granted + m.link.queue && s.dropped == m.dropped
    ensures Leads(s, s') && Drained(s, s')
    decreases |m.link.queue|
  {
    var u := m;
    if m.phase.Handed? {
      u := Apply(m, Runs);
      LeadsNext(s, m, Runs, u);
    }
    s' := Apply(u, Releases);
    LeadsNext(s, u, Releases, s');
    ReleasePasses(u);
    if m.link.queue != [] {
      ReleaseInv(u);
      ShiftHead(m.granted, m.link.queue);
      s' := Drain(s, s');
    }
  }

  lemma ShiftHead(g: seq<Request>, q: seq<Request>)
    requires q != []
    ensures (g + [q[0]]) + q[1..] == g + q
  {
  }

  /** While a doomed owner has the link, it keeps it. */
  lemma {:induction false} DoomedStays(s: State, steps: seq<Step>)
    requires Doomed(s) && GoingOn(steps) && Can(s, steps)
    ensures Doomed(Run(s, steps)) && Run(s, steps).link == s.link
    decreases |steps|
  {
    if steps != [] {
      DoomedStays(s, steps[..|steps| - 1]);
    }
  }

  /**
   From every state of every run, unless the owner is lost or about to be, the
   link comes to everyone in the queue, in order, and is idle at last, by the
   owners' going on alone.
   */
  lemma DrainsIff(steps: seq<Step>)
    requires Can(FREE, steps)
    ensures var s := Run(FREE, steps); (exists s' :: Leads(s, s') && Drained(s, s')) <==> !Doomed(s)
  {
    RunInv(steps);
    var s := Run(FREE, steps);
    assert GoingOn([]) && Can(s, []) && Run(s, []) == s;
    assert Leads(s, s);
    if Doomed(s) {
      forall s' | Leads(s, s') ensures !Drained(s, s') {
        var more :| GoingOn(more) && Can(s, more) && Run(s, more) == s';
        DoomedStays(s, more);
      }
    } else if s.link.user.None? {
      assert s.granted + s.link.queue == s.granted;
      assert Drained(s, s);
    } else {
      var s' := Drain(s, s);
    }
  }
}
