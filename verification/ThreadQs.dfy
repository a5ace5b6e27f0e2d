/**
 The Executive's linked lists of save states: a run queue with the pointer to
 its last thread (kernel/gslice.c), the timer queue, and the two scans that
 take a killed task's threads out of them (EvictRunQs and EvictTimerQ of the
 generic executive, kernel/kill1.c).
 */
module ThreadQs {
  import opened Filters
  import opened Lists
  import opened Words

  const THREAD_KILLED := 4

  class SaveState {
    var next: SaveState?
    var status: int
    var endtime: Word

    constructor (status: int)
      ensures this.status == status
    {
      next, this.status, endtime := null, status, 0;
    }
  }

  /**
   A run queue.  The null tail stands for the address of the queue itself,
   which is where `tail->next` is `head`.
   */
  class ThreadQ {
    var head: SaveState?
    var tail: SaveState?

    constructor ()
      ensures Queue(this, [])
    {
      head, tail := null, null;
    }
  }

  ghost function At(ts: seq<SaveState>, k: int): SaveState?
  {
    if 0 <= k < |ts| then ts[k] else null
  }

  /** The threads ts, each linked to the next, and the last to none. */
  ghost predicate Linked(ts: seq<SaveState>)
    reads ts
  {
    && Distinct(ts)
    && forall k {:trigger ts[k].next} :: 0 <= k < |ts| ==> ts[k].next == At(ts, k + 1)
  }

  ghost predicate Queue(q: ThreadQ, ts: seq<SaveState>)
    reads q, ts
  {
    q.head == At(ts, 0) && q.tail == At(ts, |ts| - 1) && Linked(ts)
  }

  /** `ss->next = NULL; q->tail = q->tail->next = ss` */
  method Append(q: ThreadQ, ss: SaveState, ghost ts: seq<SaveState>)
    requires Queue(q, ts) && ss !in ts
    modifies q, ss`next, ts
    ensures Queue(q, ts + [ss])
    ensures forall x :: x in ts ==> x.status == old(x.status)
  {
    DistinctAppend(ts, ss);
    if ts != [] { DistinctFrom(ts, |ts| - 1); }
    ss.next := null;
    if q.tail == null {
      q.head := ss;
    } else {
      q.tail.next := ss;
    }
    q.tail := ss;
  }

  /** Dispatch takes the head of a queue. */
  method TakeHead(q: ThreadQ, ghost ts: seq<SaveState>) returns (newss: SaveState)
    requires Queue(q, ts) && ts != []
    modifies q
    ensures newss == ts[0] && Queue(q, ts[1..])
  {
    DistinctPairs(ts);
    DistinctPairs(ts[1..]);
    newss := q.head;
    q.head := newss.next;
    if q.head == null {
      q.tail := null;
    }
  }

  // ---- eviction ----

  /** The threads EvictRunQs is to take out: in the pool, and not sending or receiving on a link. */
  function Doomed(ts: seq<SaveState>, pool: set<SaveState>, linkIO: set<SaveState>): (d: seq<bool>)
    ensures |d| == |ts| && forall k :: 0 <= k < |ts| ==> d[k] == (ts[k] in pool && ts[k] !in linkIO)
  {
    seq(|ts|, k requires 0 <= k < |ts| => ts[k] in pool && ts[k] !in linkIO)
  }

  /** A scan has i threads behind it: prev is the last it kept or, before the first, one it has removed. */
  ghost predicate PrevOk(ts: seq<SaveState>, drop: seq<bool>, i: nat, prev: SaveState?)
    requires |drop| == |ts| && i <= |ts|
    reads ts
  {
    var all, k := Partly(ts, drop, i), Place(drop, i);
    && (ts != [] ==> prev in ts)
    && (i == 0 ==> prev == At(ts, 0))
    && (k > 0 ==> prev == all[k - 1])
    && (k == 0 && i > 0 ==> prev == ts[0] && ts[0].next == At(all, 0) && ts[0] !in all)
  }

  /** The tail is right, unless the last thread has gone and none was kept. */
  ghost predicate EndsOk(q: ThreadQ, ts: seq<SaveState>, drop: seq<bool>, i: nat)
    requires |drop| == |ts| && i <= |ts|
    reads q
  {
    var all := Partly(ts, drop, i);
    && q.head == At(all, 0)
    && (if i < |ts| then q.tail == ts[|ts| - 1] else all != [] ==> q.tail == all[|all| - 1])
  }

  /** `prev->next = p->next`, with p at position k of the list. */
  method Bypass(prev: SaveState, p: SaveState, ghost all: seq<SaveState>, ghost k: nat)
    requires Linked(all) && k < |all| && p == all[k]
    requires if k > 0 then prev == all[k - 1] else prev == p || prev !in all
    modifies prev`next
    ensures Linked(Cut(all, k)) && prev.next == At(all, k + 1) && p.next == At(all, k + 1)
  {
    DistinctPairs(all);
    DistinctPairs(Cut(all, k));
    prev.next := p.next;
  }

  lemma CutAt(all: seq<SaveState>, k: nat)
    requires k < |all|
    ensures At(Cut(all, k), 0) == if k == 0 then At(all, 1) else all[0]
    ensures k + 1 == |all| ==> At(Cut(all, k), |all| - 2) == At(all, k - 1)
    ensures k > 0 ==> Cut(all, k)[k - 1] == all[k - 1]
    ensures forall x :: x in Cut(all, k) ==> x in all
  {
  }

  lemma CutGone(all: seq<SaveState>)
    requires all != [] && Distinct(all)
    ensures all[0] !in Cut(all, 0)
  {
  }

  /** Thread p leaves the links. */
  method UnlinkNext(prev: SaveState, p: SaveState, ghost ts: seq<SaveState>, ghost drop: seq<bool>, ghost i: nat)
    requires |drop| == |ts| && i < |ts| && drop[i] && p == ts[i]
    requires Linked(Partly(ts, drop, i)) && PrevOk(ts, drop, i, prev)
    modifies prev`next
    ensures Linked(Partly(ts, drop, i + 1)) && PrevOk(ts, drop, i + 1, prev)
    ensures prev.next == At(ts, i + 1) == p.next
  {
    ghost var all, k := Partly(ts, drop, i), Place(drop, i);
    PartlyNext(ts, drop, i);
    CutAt(all, k);
    if k == 0 { CutGone(all); }
    Bypass(prev, p, all, k);
  }

  /** And head and tail follow. */
  method UnlinkEnds(q: ThreadQ, prev: SaveState, p: SaveState, ghost ts: seq<SaveState>, ghost drop: seq<bool>,
                    ghost i: nat)
    requires |drop| == |ts| && i < |ts| && drop[i] && p == ts[i] && p.next == At(ts, i + 1)
    requires Distinct(ts) && Distinct(Partly(ts, drop, i))
    requires Linked(Partly(ts, drop, i + 1)) && PrevOk(ts, drop, i + 1, prev) && EndsOk(q, ts, drop, i)
    modifies q
    ensures Linked(Partly(ts, drop, i + 1)) && PrevOk(ts, drop, i + 1, prev) && EndsOk(q, ts, drop, i + 1)
  {
    ghost var all, k := Partly(ts, drop, i), Place(drop, i);
    PartlyNext(ts, drop, i);
    CutAt(all, k);
    DistinctFrom(ts, i);
    DistinctFrom(all, k);
    if q.head == p {
      q.head := p.next;
    }
    if q.tail == p {
      q.tail := prev;
    }
  }

  ghost function Statuses(ts: seq<SaveState>): (st: seq<int>)
    reads ts
    ensures |st| == |ts| && forall k {:trigger ts[k].status} :: 0 <= k < |ts| ==> ts[k].status == st[k]
  {
    seq(|ts|, k requires 0 <= k < |ts| reads ts => ts[k].status)
  }

  /** The first i threads that were doomed are killed, the others are as they were. */
  ghost predicate Marked(ts: seq<SaveState>, drop: seq<bool>, st: seq<int>, i: nat)
    reads ts
  {
    && |drop| == |st| == |ts|
    && forall k {:trigger ts[k].status} :: 0 <= k < |ts| ==>
         ts[k].status == if k < i && drop[k] then THREAD_KILLED else st[k]
  }

  /** `p->status = THREAD_KILLED` once p is off the queue. */
  method Kill(p: SaveState, ghost left: seq<SaveState>, prev: SaveState,
              ghost ts: seq<SaveState>, ghost drop: seq<bool>, ghost st: seq<int>, ghost i: nat)
    requires Marked(ts, drop, st, i) && i < |ts| && p == ts[i] && drop[i] && Distinct(ts)
    requires Linked(left) && PrevOk(ts, drop, i + 1, prev)
    modifies p`status
    ensures Linked(left) && PrevOk(ts, drop, i + 1, prev)
    ensures Marked(ts, drop, st, i + 1)
  {
    DistinctFrom(ts, i);
    p.status := THREAD_KILLED;
  }

  /** Thread p is taken off the queue. */
  method Unlink(q: ThreadQ, prev: SaveState, p: SaveState, ghost ts: seq<SaveState>, ghost drop: seq<bool>,
                ghost i: nat)
    requires |drop| == |ts| && i < |ts| && p == ts[i] && drop[i]
    requires Distinct(ts) && Linked(Partly(ts, drop, i)) && PrevOk(ts, drop, i, prev) && EndsOk(q, ts, drop, i)
    modifies q, prev`next
    ensures Linked(Partly(ts, drop, i + 1)) && PrevOk(ts, drop, i + 1, prev) && EndsOk(q, ts, drop, i + 1)
    ensures prev.next == At(ts, i + 1)
  {
    UnlinkNext(prev, p, ts, drop, i);
    UnlinkEnds(q, prev, p, ts, drop, i);
  }

  lemma KeptNext(ts: seq<SaveState>, drop: seq<bool>, i: nat)
    requires |drop| == |ts| && i < |ts| && !drop[i]
    requires Linked(Partly(ts, drop, i))
    ensures ts[i].next == At(ts, i + 1) && Linked(Partly(ts, drop, i + 1)) && PrevOk(ts, drop, i + 1, ts[i])
  {
    PartlyNext(ts, drop, i);
  }

  /** What EvictRunQs' loop keeps, at thread p with i threads behind it. */
  ghost predicate RunScan(q: ThreadQ, ts: seq<SaveState>, drop: seq<bool>, st: seq<int>, i: nat, prev: SaveState?,
                          p: SaveState?)
    reads q, ts, if |drop| == |ts| && i <= |ts| then Partly(ts, drop, i) else []
  {
    && i <= |ts| && p == At(ts, i) && Marked(ts, drop, st, i)
    && Distinct(ts) && Linked(Partly(ts, drop, i)) && PrevOk(ts, drop, i, prev) && EndsOk(q, ts, drop, i)
  }

  method RunTurn(q: ThreadQ, prev: SaveState, p: SaveState, pool: set<SaveState>, linkIO: set<SaveState>,
                 ghost ts: seq<SaveState>, ghost drop: seq<bool>, ghost st: seq<int>, ghost i: nat)
    returns (newPrev: SaveState, succ: SaveState?)
    requires RunScan(q, ts, drop, st, i, prev, p) && i < |ts| && drop[i] == (p in pool && p !in linkIO)
    modifies q, prev`next, p`status
    ensures RunScan(q, ts, drop, st, i + 1, newPrev, succ)
  {
    if p in pool && p !in linkIO {
      Unlink(q, prev, p, ts, drop, i);
      Kill(p, Partly(ts, drop, i + 1), prev, ts, drop, st, i);
      newPrev, succ := prev, prev.next;
    } else {
      KeptNext(ts, drop, i);
      newPrev, succ := p, p.next;
    }
  }

  /**
   EvictRunQs on one run queue, no interrupt coming between: the queue is left
   with the threads that are not in the pool or still move data on a link, in
   order, and the others are killed.
   */
  method EvictRunQ(runq: ThreadQ, pool: set<SaveState>, linkIO: set<SaveState>, ghost ts: seq<SaveState>)
    requires Queue(runq, ts)
    modifies runq, ts
    ensures Queue(runq, Keep(ts, Doomed(ts, pool, linkIO)))
    ensures Marked(ts, Doomed(ts, pool, linkIO), old(Statuses(ts)), |ts|)
  {
    ghost var drop, st, i := Doomed(ts, pool, linkIO), Statuses(ts), 0;
    var p := runq.head;
    var prev := p;
    while p != null
      invariant 0 <= i <= |ts| && RunScan(runq, ts, drop, st, i, prev, p)
      decreases |ts| - i
    {
      prev, p := RunTurn(runq, prev, p, pool, linkIO, ts, drop, st, i);
      i := i + 1;
    }
    assert i == |ts|;
    PartlyAll(ts, drop);
    if runq.head == null {
      runq.tail := null;
    }
  }

  /** No thread of one list is on the other. */
  ghost predicate Apart(a: seq<SaveState>, b: seq<SaveState>)
  {
    forall k {:trigger a[k]} :: 0 <= k < |a| ==> a[k] !in b
  }

  /** The queues are different ones and share no thread. */
  ghost predicate Separate(queues: seq<ThreadQ>, lists: seq<seq<SaveState>>)
  {
    && |queues| == |lists|
    && (forall i, j :: 0 <= i < |queues| && 0 <= j < |queues| && i != j ==> queues[i] != queues[j])
    && (forall i, j :: 0 <= i < |lists| && 0 <= j < |lists| && i != j ==> Apart(lists[i], lists[j]))
  }

  function Left(ts: seq<SaveState>, pool: set<SaveState>, linkIO: set<SaveState>): seq<SaveState>
  {
    Keep(ts, Doomed(ts, pool, linkIO))
  }

  lemma LeftApart(ts: seq<SaveState>, pool: set<SaveState>, linkIO: set<SaveState>, others: seq<SaveState>)
    requires Apart(ts, others)
    ensures Apart(Left(ts, pool, linkIO), others)
    ensures forall k :: 0 <= k < |Left(ts, pool, linkIO)| ==> Left(ts, pool, linkIO)[k] in ts
  {
    var left := Left(ts, pool, linkIO);
    forall k | 0 <= k < |left| ensures left[k] !in others && left[k] in ts {
      KeepMembers(ts, Doomed(ts, pool, linkIO), left[k]);
    }
  }

  /** How the queues look when those below pri have been scanned. */
  ghost function Scanned(lists: seq<seq<SaveState>>, pool: set<SaveState>, linkIO: set<SaveState>, pri: nat,
                         j: nat): seq<SaveState>
    requires j < |lists|
  {
    if j < pri then Left(lists[j], pool, linkIO) else lists[j]
  }

  /** The statuses of a list that was scanned: the doomed threads are killed; or is yet to be. */
  ghost predicate Killed(ts: seq<SaveState>, pool: set<SaveState>, linkIO: set<SaveState>, st: seq<int>, done: bool)
    reads ts
  {
    Marked(ts, Doomed(ts, pool, linkIO), st, if done then |ts| else 0)
  }

  /** One turn of EvictRunQs' loop over the priorities; the other queues are not touched. */
  method EvictNext(queues: seq<ThreadQ>, pri: nat, pool: set<SaveState>, linkIO: set<SaveState>,
                   ghost lists: seq<seq<SaveState>>, ghost sts: seq<seq<int>>)
    requires Separate(queues, lists) && pri < |queues| == |sts|
    requires forall j :: 0 <= j < |queues| ==> Queue(queues[j], Scanned(lists, pool, linkIO, pri, j))
    requires forall j :: 0 <= j < |lists| ==> Killed(lists[j], pool, linkIO, sts[j], j < pri)
    modifies queues[pri], lists[pri]
    ensures forall j :: 0 <= j < |queues| ==> Queue(queues[j], Scanned(lists, pool, linkIO, pri + 1, j))
    ensures forall j :: 0 <= j < |lists| ==> Killed(lists[j], pool, linkIO, sts[j], j < pri + 1)
  {
    forall j | 0 <= j < |queues| && j != pri ensures Apart(Scanned(lists, pool, linkIO, pri, j), lists[pri]) {
      LeftApart(lists[j], pool, linkIO, lists[pri]);
    }
    assert Scanned(lists, pool, linkIO, pri, pri) == lists[pri];
    assert Killed(lists[pri], pool, linkIO, sts[pri], pri < pri) && Statuses(lists[pri]) == sts[pri];
    EvictRunQ(queues[pri], pool, linkIO, lists[pri]);
    forall j | 0 <= j < |queues| ensures Queue(queues[j], Scanned(lists, pool, linkIO, pri + 1, j)) {
      if j != pri {
        var left := Scanned(lists, pool, linkIO, pri, j);
        assert queues[j] != queues[pri] && left == Scanned(lists, pool, linkIO, pri + 1, j);
        assert Apart(left, lists[pri]);
        LeftApart(lists[j], pool, linkIO, lists[pri]);
        assert forall k {:trigger left[k]} :: 0 <= k < |left| ==> left[k] in lists[j];
        assert forall k {:trigger left[k].next} :: 0 <= k < |left| ==> left[k].next == old(left[k].next);
      }
    }
    forall j | 0 <= j < |lists| ensures Killed(lists[j], pool, linkIO, sts[j], j < pri + 1) {
      if j == pri {
        assert Killed(lists[pri], pool, linkIO, sts[pri], pri < pri + 1);
      } else {
        assert old(Killed(lists[j], pool, linkIO, sts[j], j < pri)) && Apart(lists[j], lists[pri]);
        assert forall k {:trigger lists[j][k].status} :: 0 <= k < |lists[j]| ==>
            lists[j][k] !in lists[pri] && lists[j][k].status == old(lists[j][k].status);
      }
    }
  }

  /** EvictRunQs: each run queue keeps the threads that are not to go, in order; the others are killed. */
  method EvictRunQs(queues: seq<ThreadQ>, pool: set<SaveState>, linkIO: set<SaveState>,
                    ghost lists: seq<seq<SaveState>>, ghost sts: seq<seq<int>>)
    requires Separate(queues, lists) && forall j :: 0 <= j < |queues| ==> Queue(queues[j], lists[j])
    requires |sts| == |lists| && forall j {:trigger lists[j]} :: 0 <= j < |lists| ==> sts[j] == Statuses(lists[j])
    modifies queues, set j, k | 0 <= j < |lists| && 0 <= k < |lists[j]| :: lists[j][k]
    ensures forall j :: 0 <= j < |queues| ==> Queue(queues[j], Left(lists[j], pool, linkIO))
    ensures forall j :: 0 <= j < |lists| ==> Killed(lists[j], pool, linkIO, sts[j], true)
  {
    var pri := 0;
    forall j | 0 <= j < |lists| ensures Killed(lists[j], pool, linkIO, sts[j], false) {
      var ts := lists[j];
      assert sts[j] == Statuses(ts);
    }
    while pri < |queues|
      invariant 0 <= pri <= |queues|
      invariant forall j :: 0 <= j < |queues| ==> Queue(queues[j], Scanned(lists, pool, linkIO, pri, j))
      invariant forall j :: 0 <= j < |lists| ==> Killed(lists[j], pool, linkIO, sts[j], j < pri)
    {
      EvictNext(queues, pri, pool, linkIO, lists, sts);
      pri := pri + 1;
    }
  }

  /** What EvictTimerQ's loop keeps. */
  ghost predicate TimerScan(ts: seq<SaveState>, drop: seq<bool>, i: nat, prev: SaveState?, p: SaveState?,
                            tqhead: SaveState?)
    reads if |drop| == |ts| && i <= |ts| then Partly(ts, drop, i) else []
  {
    && |drop| == |ts| && i <= |ts| && p == At(ts, i)
    && Linked(Partly(ts, drop, i)) && tqhead == At(Partly(ts, drop, i), 0)
    && (Place(drop, i) > 0 ==> prev == Partly(ts, drop, i)[Place(drop, i) - 1] && prev in ts)
  }

  method TimerTurn(prev: SaveState?, p: SaveState, tqhead: SaveState?, pool: set<SaveState>,
                   ghost ts: seq<SaveState>, ghost drop: seq<bool>, ghost i: nat)
    returns (newPrev: SaveState?, succ: SaveState?, newHead: SaveState?)
    requires TimerScan(ts, drop, i, prev, p, tqhead) && i < |ts| && drop[i] == (p in pool)
    modifies ts
    ensures TimerScan(ts, drop, i + 1, newPrev, succ, newHead)
  {
    ghost var all, k := Partly(ts, drop, i), Place(drop, i);
    PartlyNext(ts, drop, i);
    DistinctFrom(all, k);
    newPrev, succ, newHead := prev, p.next, tqhead;
    if p in pool {
      CutAt(all, k);
      if p == tqhead {
        CutHead(all);
        newHead := succ;
      } else {
        Bypass(prev, p, all, k);
      }
    } else {
      newPrev := p;
    }
  }

  lemma CutHead(all: seq<SaveState>)
    requires Linked(all) && all != []
    ensures Linked(Cut(all, 0))
  {
    DistinctPairs(all);
    DistinctPairs(Cut(all, 0));
  }

  /** EvictTimerQ, between taking the timer queue's head and putting it back. */
  method EvictTimerQ(head: SaveState?, pool: set<SaveState>, ghost ts: seq<SaveState>) returns (tqhead: SaveState?)
    requires Linked(ts) && head == At(ts, 0)
    modifies ts
    ensures Linked(Keep(ts, Doomed(ts, pool, {}))) && tqhead == At(Keep(ts, Doomed(ts, pool, {})), 0)
  {
    ghost var drop, i := Doomed(ts, pool, {}), 0;
    tqhead := head;
    var p, prev: SaveState? := head, null;
    while p != null
      invariant 0 <= i <= |ts| && TimerScan(ts, drop, i, prev, p, tqhead)
      decreases |ts| - i
    {
      prev, p, tqhead := TimerTurn(prev, p, tqhead, pool, ts, drop, i);
      i := i + 1;
    }
    assert i == |ts|;
    PartlyAll(ts, drop);
  }
}
