/**
 The timer queue as the linked list it is: Sleep puts a save state into it
 (kernel/gexec.c) and Resume takes one out again (kernel/gslice.c).
 */
module TimerLists {
  import opened Words
  import opened Times
  import opened Lists
  import opened ThreadQs
  import E = Executive

  ghost function Endtimes(ts: seq<SaveState>): (w: seq<Word>)
    reads ts
    ensures |w| == |ts| && forall k {:trigger ts[k].endtime} :: 0 <= k < |ts| ==> w[k] == ts[k].endtime
  {
    seq(|ts|, k requires 0 <= k < |ts| reads ts => ts[k].endtime)
  }

  /**
   Place k is where a thread that is to wake at endtime goes: first if the queue
   is empty or its head is for later, and otherwise before the first of the
   others that it is not after.
   */
  predicate IsPlace(times: seq<Word>, endtime: Word, k: nat)
  {
    && k <= |times|
    && (k == 0 <==> times == [] || After(times[0], endtime))
    && (forall j :: 1 <= j < k ==> After(endtime, times[j]))
    && (0 < k < |times| ==> !After(endtime, times[k]))
  }

  lemma {:induction false} WalkEnds(s: E.Exec, endtime: Word, i: nat, k: nat)
    requires i <= k <= |s.timerQ| && (k < |s.timerQ| ==> !After(endtime, E.R(s, s.timerQ[k]).endtime))
    requires forall j :: i <= j < k ==> After(endtime, E.R(s, s.timerQ[j]).endtime)
    ensures E.Later(s, endtime, i) == k
    decreases k - i
  {
    if i < k { WalkEnds(s, endtime, i + 1, k); }
  }

  /** That is the place that the step system has for it. */
  lemma PlaceIsSlot(s: E.Exec, times: seq<Word>, endtime: Word, k: nat)
    requires |times| == |s.timerQ| && forall j :: 0 <= j < |times| ==> times[j] == E.R(s, s.timerQ[j]).endtime
    requires IsPlace(times, endtime, k)
    ensures E.Slot(s, endtime) == k
  {
    if k > 0 { WalkEnds(s, endtime, 1, k); }
  }

  /** `s->next = next; prev->next = s` behind place k - 1. */
  method Splice(prev: SaveState, s: SaveState, next: SaveState?, ghost ts: seq<SaveState>, ghost k: nat)
    requires Linked(ts) && s !in ts && 0 < k <= |ts| && prev == ts[k - 1] && next == At(ts, k)
    modifies s`next, prev`next
    ensures Linked(Insert(ts, k, s))
  {
    DistinctFrom(ts, k - 1);
    DistinctInsert(ts, k, s);
    s.next := next;
    prev.next := s;
  }

  method Push(head: SaveState?, s: SaveState, ghost ts: seq<SaveState>)
    requires Linked(ts) && s !in ts && head == At(ts, 0)
    modifies s`next
    ensures Linked(Insert(ts, 0, s))
  {
    DistinctInsert(ts, 0, s);
    s.next := head;
  }

  /** Sleep's two cases: the save state is put in at its place, and nothing else changes. */
  method InsertTimer(head: SaveState?, s: SaveState, ghost ts: seq<SaveState>)
    returns (newHead: SaveState?, ghost k: nat)
    requires Linked(ts) && s !in ts && head == At(ts, 0)
    modifies s`next, ts
    ensures IsPlace(old(Endtimes(ts)), s.endtime, k) && k <= |ts|
    ensures Linked(Insert(ts, k, s)) && newHead == At(Insert(ts, k, s), 0)
    ensures forall x :: x in ts ==> x.status == old(x.status) && x.endtime == old(x.endtime)
  {
    if head == null || After(head.endtime, s.endtime) {
      Push(head, s, ts);
      return s, 0;
    }
    var prev, next := head, head.next;
    k := 1;
    while next != null && After(s.endtime, next.endtime)
      invariant 1 <= k <= |ts| && prev == ts[k - 1] && next == At(ts, k)
      invariant forall j :: 1 <= j < k ==> After(s.endtime, ts[j].endtime)
      decreases |ts| - k
    {
      prev := next;
      next := prev.next;
      k := k + 1;
    }
    Splice(prev, s, next, ts, k);
    newHead := head;
  }

  /** The search in Resume; before the first save state lastss is the root, whose first field is the queue. */
  method RemoveTimer(head: SaveState?, ss: SaveState, ghost ts: seq<SaveState>)
    returns (newHead: SaveState?, found: bool, ghost k: nat)
    requires Linked(ts) && head == At(ts, 0)
    modifies ts
    ensures found == (ss in ts)
    ensures found ==> k < |ts| && ts[k] == ss && Linked(Cut(ts, k)) && newHead == At(Cut(ts, k), 0)
    ensures !found ==> Linked(ts) && newHead == head
    ensures forall x :: x in ts ==> x.status == old(x.status) && x.endtime == old(x.endtime)
  {
    var lastss: SaveState?, nextss := null, head;
    newHead, k := head, 0;
    while nextss != null && nextss != ss
      invariant k <= |ts| && nextss == At(ts, k) && ss !in ts[..k]
      invariant k > 0 ==> lastss == ts[k - 1]
      invariant k == 0 ==> lastss == null
      decreases |ts| - k
    {
      lastss := nextss;
      nextss := nextss.next;
      k := k + 1;
    }
    found := nextss != null;
    if found {
      CutAt(ts, k);
      if lastss == null {
        CutHead(ts);
        newHead := nextss.next;
      } else {
        Bypass(lastss, nextss, ts, k);
      }
    }
  }
}
