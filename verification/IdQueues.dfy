/**
 Queues of waiting transmitters and receivers: Id structures chained through
 `next`, with the pointer to the last of them kept in the `tail` field of the
 first (kernel/kernel.h, kernel/kill1.c, kernel/link1.c, kernel/port1.c).
 */
module IdQueues {
  import opened Words
  import opened Times
  import opened Filters
  import opened Lists

  const ERR_TIMEOUT: int := -1

  const NULL: Word := 0

  /** state and mcb are the addresses of a save state and of a message. */
  class Id {
    var rc: int
    var next: Id?
    var tail: Id?
    var endtime: Word
    var state: Word
    var mcb: Word

    constructor (endtime: Word)
      ensures rc == 0 && next == null && tail == this && this.endtime == endtime
    {
      rc, next, this.endtime, state, mcb := 0, null, endtime, NULL, NULL;
      tail := this;
    }
  }

  /** The word that points at a queue: pte->TxId, pte->RxId, link->TxQueue. */
  class Head {
    var head: Id?

    constructor ()
      ensures head == null
    {
      head := null;
    }
  }

  ghost function At(ids: seq<Id>, k: int): Id?
  {
    if 0 <= k < |ids| then ids[k] else null
  }

  /** ids is the queue that q points at. */
  ghost predicate Queue(q: Head, ids: seq<Id>)
    reads q, ids
  {
    && q.head == At(ids, 0)
    && Distinct(ids)
    && (forall k {:trigger ids[k].next} :: 0 <= k < |ids| ==> ids[k].next == At(ids, k + 1))
    && (ids != [] ==> ids[0].tail == ids[|ids| - 1])
  }

  /** `id.next = NULL; id.tail = &id;` and then to the back of the queue. */
  method Append(q: Head, id: Id, ghost ids: seq<Id>)
    requires Queue(q, ids) && id !in ids
    modifies q, id, ids
    ensures Queue(q, ids + [id])
    ensures id.rc == old(id.rc) && id.endtime == old(id.endtime)
    ensures forall x :: x in ids ==> x.rc == old(x.rc) && x.endtime == old(x.endtime)
  {
    DistinctPairs(ids);
    DistinctPairs(ids + [id]);
    id.next, id.tail := null, id;
    if q.head == null {
      q.head := id;
    } else {
      q.head.tail.next := id;
      q.head.tail := id;
    }
  }

  /** _JumpLink: to the front. */
  method Jump(q: Head, id: Id, ghost ids: seq<Id>)
    requires Queue(q, ids) && id !in ids
    modifies q, id
    ensures Queue(q, [id] + ids)
    ensures id.rc == old(id.rc) && id.endtime == old(id.endtime)
  {
    DistinctPairs(ids);
    DistinctPairs([id] + ids);
    if q.head == null {
      id.next, id.tail := null, id;
    } else {
      id.next, id.tail := q.head, q.head.tail;
    }
    q.head := id;
    assert forall k :: 1 <= k < |ids| + 1 ==> ([id] + ids)[k] == ids[k - 1];
  }

  /** The first waiter is taken off and the next made head. */
  method Pop(q: Head, ghost ids: seq<Id>) returns (id: Id)
    requires Queue(q, ids) && ids != []
    modifies q, ids
    ensures id == ids[0] && Queue(q, ids[1..])
    ensures forall x :: x in ids ==> x.rc == old(x.rc) && x.endtime == old(x.endtime)
  {
    DistinctPairs(ids);
    DistinctPairs(ids[1..]);
    id := q.head;
    q.head := id.next;
    if id.next != null {
      id.next.tail := id.tail;
    }
  }

  /** The queue ids without its element k is left. */
  method Unlink(q: Head, prev: Id?, id: Id, ghost ids: seq<Id>, ghost left: seq<Id>, ghost k: nat)
    requires Queue(q, ids) && k < |ids| && id == ids[k] && prev == At(ids, k - 1)
    requires Distinct(left) && Inserted(ids, left, k, id)
    modifies q, ids
    ensures Queue(q, left)
    ensures id.next == old(id.next)
    ensures forall x :: x in ids ==> x.rc == old(x.rc) && x.endtime == old(x.endtime)
  {
    DistinctPairs(ids);
    if prev == null {
      q.head := id.next;
      if id.next != null {
        id.next.tail := id.tail;
      }
    } else {
      prev.next := id.next;
      if id.next == null {
        q.head.tail := prev;
      }
    }
  }

  /** dq: element k, whose predecessor is prev, leaves the queue. */
  method Dq(q: Head, prev: Id?, id: Id, ghost ids: seq<Id>, ghost k: nat)
    requires Queue(q, ids) && k < |ids| && id == ids[k] && prev == At(ids, k - 1)
    modifies q, ids
    ensures Queue(q, Cut(ids, k))
    ensures id.next == old(id.next)
    ensures forall x :: x in ids ==> x.rc == old(x.rc) && x.endtime == old(x.endtime)
  {
    DistinctCut(ids, k);
    CutIs(ids, k);
    Unlink(q, prev, id, ids, Cut(ids, k), k);
  }

  /** late marks the waiters that a scan at time `now` finds past their endtime. */
  ghost predicate Late(ids: seq<Id>, now: Word, late: seq<bool>)
    reads ids
  {
    && |late| == |ids|
    && forall k {:trigger ids[k].endtime} :: 0 <= k < |ids| ==> late[k] == Expired(ids[k].endtime, now)
  }

  /** `id->rc = Err_Timeout; dq(q, prev, id);` */
  method DropLate(q: Head, prev: Id?, id: Id, ghost all: seq<Id>, ghost k: nat)
    requires Queue(q, all) && k < |all| && id == all[k] && prev == At(all, k - 1)
    modifies q, all
    ensures Queue(q, Cut(all, k))
    ensures id.rc == ERR_TIMEOUT && id.next == old(id.next)
    ensures forall x :: x in all ==> x.endtime == old(x.endtime)
    ensures forall x :: x in all && x != id ==> x.rc == old(x.rc)
  {
    Dq(q, prev, id, all, k);
    id.rc := ERR_TIMEOUT;
  }

  /** The body of the scan's loop: element k stays and becomes prev, or leaves. */
  method ScanStep(q: Head, prev: Id?, id: Id, now: Word, ghost all: seq<Id>, ghost k: nat, ghost late: bool)
    returns (newPrev: Id?)
    requires Queue(q, all) && k < |all| && id == all[k] && prev == At(all, k - 1)
    requires late == Expired(id.endtime, now)
    modifies q, all
    ensures Queue(q, if late then Cut(all, k) else all)
    ensures newPrev == (if late then prev else id) && id.next == old(id.next)
    ensures id.rc == if late then ERR_TIMEOUT else old(id.rc)
    ensures forall x :: x in all ==> x.endtime == old(x.endtime)
    ensures forall x :: x in all && x != id ==> x.rc == old(x.rc)
  {
    if Forever(id.endtime) || !After(now, id.endtime) {
      newPrev := id;
    } else {
      DropLate(q, prev, id, all, k);
      newPrev := prev;
    }
  }

  /** The return codes when a scan has passed i of the waiters; rcs are those it found. */
  ghost predicate Marked(ids: seq<Id>, late: seq<bool>, rcs: seq<int>, i: nat)
    reads ids
  {
    && |late| == |rcs| == |ids|
    && forall k {:trigger ids[k].rc} :: 0 <= k < |ids| ==> ids[k].rc == if k < i && late[k] then ERR_TIMEOUT else rcs[k]
  }

  ghost function Rcs(ids: seq<Id>): (rcs: seq<int>)
    reads ids
    ensures |rcs| == |ids| && forall k {:trigger ids[k].rc} :: 0 <= k < |ids| ==> ids[k].rc == rcs[k]
  {
    seq(|ids|, k requires 0 <= k < |ids| reads ids => ids[k].rc)
  }

  /** What TimeoutHandler's loop keeps, at waiter id with i waiters behind it. */
  ghost predicate Scanning(q: Head, now: Word, ids: seq<Id>, late: seq<bool>, rcs: seq<int>, i: nat, prev: Id?, id: Id?)
    reads q, ids, if |late| == |ids| && i <= |ids| then Partly(ids, late, i) else []
  {
    && Late(ids, now, late) && Marked(ids, late, rcs, i) && Distinct(ids)
    && i <= |ids| && id == At(ids, i)
    && Queue(q, Partly(ids, late, i)) && prev == At(Partly(ids, late, i), Place(late, i) - 1)
  }

  /** One turn of the scan, with the queue written as what is left of ids. */
  method ScanTurn(q: Head, prev: Id?, id: Id, now: Word,
                  ghost ids: seq<Id>, ghost late: seq<bool>, ghost rcs: seq<int>, ghost i: nat)
    returns (newPrev: Id?, succ: Id?)
    requires Scanning(q, now, ids, late, rcs, i, prev, id) && i < |ids|
    modifies q, ids
    ensures Scanning(q, now, ids, late, rcs, i + 1, newPrev, succ)
  {
    PartlyNext(ids, late, i);
    DistinctFrom(ids, i);
    newPrev := ScanStep(q, prev, id, now, Partly(ids, late, i), Place(late, i), late[i]);
    succ := id.next;
  }

  /**
   TimeoutHandler's scan of a queue.  `resumed` lists the threads it resumes:
   every waiter whose time has passed, once and in order; each is taken off and
   its rc set, and the others stay as they were, in order.
   */
  method TimeoutScan(q: Head, now: Word, ghost ids: seq<Id>, ghost late: seq<bool>, ghost rcs: seq<int>)
    returns (ghost resumed: seq<Id>)
    requires Queue(q, ids) && Late(ids, now, late) && Marked(ids, late, rcs, 0)
    modifies q, ids
    ensures Queue(q, Keep(ids, late))
    ensures resumed == Take(ids, late)
    ensures Marked(ids, late, rcs, |ids|)
  {
    resumed := [];
    var id, prev: Id? := q.head, null;
    ghost var i := 0;
    while id != null
      invariant 0 <= i <= |ids| == |late| && Scanning(q, now, ids, late, rcs, i, prev, id)
      invariant resumed == Gone(ids, late, i)
      decreases |ids| - i
    {
      if late[i] { resumed := resumed + [id]; }
      prev, id := ScanTurn(q, prev, id, now, ids, late, rcs, i);
      i := i + 1;
    }
    assert i == |ids|;
    PartlyAll(ids, late);
  }
}
