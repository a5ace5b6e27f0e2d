/** _PutMsg and _GetMsg on the waiter queues of a local port table entry. */
module LocalPorts {
  import opened Words
  import opened Times
  import opened Filters
  import opened IdQueues
  import M = Rendezvous

  /** No waiter is in both. */
  ghost predicate Apart(tx: seq<Id>, rx: seq<Id>)
  {
    && (forall k {:trigger tx[k]} :: 0 <= k < |tx| ==> tx[k] !in rx)
    && (forall k {:trigger rx[k]} :: 0 <= k < |rx| ==> rx[k] !in tx)
  }

  lemma ApartBack(tx: seq<Id>, rx: seq<Id>)
    requires Apart(tx, rx)
    ensures Apart(rx, tx)
  {
  }

  lemma KeepApart(ids: seq<Id>, late: seq<bool>, others: seq<Id>)
    requires |late| == |ids| && Apart(ids, others)
    ensures Apart(Keep(ids, late), others)
  {
  }

  class LocalPort {
    const txId: Head
    const rxId: Head
    // what the mcb fields of the waiters point at
    var mcbs: map<Id, M.MCB>

    constructor ()
      ensures fresh(txId) && fresh(rxId) && Holds(M.Ends([], [])) && mcbs == map[]
    {
      txId := new Head();
      rxId := new Head();
      mcbs := map[];
    }

    /** The two queues, which share no waiter. */
    ghost predicate Holds(e: M.Ends<Id>)
      reads txId, rxId, e.tx, e.rx
    {
      txId != rxId && Queue(txId, e.tx) && Queue(rxId, e.rx) && Apart(e.tx, e.rx)
    }

    /** Waiter id goes to the back of a queue, to wait until its endtime. */
    method Enqueue(q: Head, id: Id, timeout: Word, now: Word, ghost ids: seq<Id>,
                   other: Head, ghost others: seq<Id>)
      requires Queue(q, ids) && Queue(other, others) && q != other && Apart(ids, others)
      requires id !in ids && id !in others
      modifies q, id, ids
      ensures Queue(q, ids + [id]) && Queue(other, others) && Apart(ids + [id], others)
      ensures id.endtime == M.Endtime(timeout, now)
      ensures forall x :: x in ids || x in others ==> x.endtime == old(x.endtime)
    {
      if Forever(timeout) {
        id.endtime := FOREVER;
      } else {
        id.endtime := AddTimes(timeout, now);
      }
      Append(q, id, ids);
    }

    /** The first waiter of a queue meets its partner. */
    method Dequeue(q: Head, ghost ids: seq<Id>, other: Head, ghost others: seq<Id>) returns (id: Id)
      requires Queue(q, ids) && Queue(other, others) && q != other && Apart(ids, others) && ids != []
      modifies q, ids
      ensures id == ids[0] && Queue(q, ids[1..]) && Queue(other, others) && Apart(ids[1..], others)
      ensures forall x :: x in ids || x in others ==> x.endtime == old(x.endtime)
    {
      id := Pop(q, ids);
      assert forall k :: 0 <= k < |ids[1..]| ==> ids[1..][k] == ids[k + 1];
    }

    /** _PutMsg's part in the queues. */
    method Transmit(id: Id, timeout: Word, now: Word, ghost e: M.Ends<Id>) returns (outcome: M.Outcome<Id>)
      requires Holds(e) && id !in e.tx && id !in e.rx
      modifies txId, rxId, id, e.tx, e.rx
      ensures Holds(M.Put(e, id, timeout == 0).0) && outcome == M.Put(e, id, timeout == 0).1
      ensures M.OneSided(e) ==> (outcome.Meets? <==> e.rx != []) && (outcome.NotReady? <==> e.rx == [] && timeout == 0)
      ensures outcome.Waits? ==> id.endtime == M.Endtime(timeout, now)
      ensures forall x :: x in e.tx || x in e.rx ==> x.endtime == old(x.endtime)
    {
      if txId.head != null {
        if timeout == 0 { return M.NotReady; }
        Enqueue(txId, id, timeout, now, e.tx, rxId, e.rx);
        outcome := M.Waits;
      } else if rxId.head == null {
        if timeout == 0 { return M.NotReady; }
        Enqueue(txId, id, timeout, now, e.tx, rxId, e.rx);
        outcome := M.Waits;
      } else {
        ApartBack(e.tx, e.rx);
        var rxid := Dequeue(rxId, e.rx, txId, e.tx);
        ApartBack(e.rx[1..], e.tx);
        outcome := M.Meets(rxid);
      }
    }

    /** _GetMsg's part in the queues. */
    method Receive(id: Id, timeout: Word, now: Word, ghost e: M.Ends<Id>) returns (outcome: M.Outcome<Id>)
      requires Holds(e) && id !in e.tx && id !in e.rx
      modifies txId, rxId, id, e.tx, e.rx
      ensures Holds(M.Get(e, id, timeout == 0).0) && outcome == M.Get(e, id, timeout == 0).1
      ensures M.OneSided(e) ==> (outcome.Meets? <==> e.tx != []) && (outcome.NotReady? <==> e.tx == [] && timeout == 0)
      ensures outcome.Waits? ==> id.endtime == M.Endtime(timeout, now)
      ensures forall x :: x in e.tx || x in e.rx ==> x.endtime == old(x.endtime)
    {
      if txId.head == null || rxId.head != null {
        if timeout == 0 { return M.NotReady; }
        ApartBack(e.tx, e.rx);
        Enqueue(rxId, id, timeout, now, e.rx, txId, e.tx);
        ApartBack(e.rx + [id], e.tx);
        outcome := M.Waits;
      } else {
        var txid := Dequeue(txId, e.tx, rxId, e.rx);
        outcome := M.Meets(txid);
      }
    }

    method PutMsg(id: Id, mcb: M.MCB, timeout: Word, now: Word, c40: bool, ghost e: M.Ends<Id>)
      returns (outcome: M.Outcome<Id>)
      requires Holds(e) && id !in e.tx && id !in e.rx
      requires e.rx != [] ==> e.rx[0] in mcbs && M.Fits(mcb, mcbs[e.rx[0]], c40)
      modifies txId, rxId, id, e.tx, e.rx, this`mcbs
      ensures Holds(M.Put(e, id, timeout == 0).0) && outcome == M.Put(e, id, timeout == 0).1
      ensures M.OneSided(e) ==> (outcome.Meets? <==> e.rx != []) && (outcome.NotReady? <==> e.rx == [] && timeout == 0)
      ensures outcome.Waits? ==> id.endtime == M.Endtime(timeout, now)
      ensures mcbs == match outcome
                      case NotReady => old(mcbs)
                      case Waits => old(mcbs)[id := mcb]
                      case Meets(rxid) => old(mcbs)[rxid := M.CopyToReceiver(mcb, old(mcbs)[rxid], c40)]
    {
      outcome := Transmit(id, timeout, now, e);
      match outcome
      case NotReady =>
      case Waits =>
        mcbs := mcbs[id := mcb];
      case Meets(rxid) =>
        mcbs := mcbs[rxid := M.CopyToReceiver(mcb, mcbs[rxid], c40)];
    }

    /** When the receiver has to wait, the rest is for when it wakes. */
    method GetMsg(id: Id, mcb: M.MCB, timeout: Word, now: Word, c40: bool, ghost e: M.Ends<Id>)
      returns (outcome: M.Outcome<Id>)
      requires Holds(e) && id !in e.tx && id !in e.rx
      requires e.tx != [] ==> e.tx[0] in mcbs && M.Fits(mcbs[e.tx[0]], mcb, c40)
      modifies txId, rxId, id, e.tx, e.rx, this`mcbs
      ensures Holds(M.Get(e, id, timeout == 0).0) && outcome == M.Get(e, id, timeout == 0).1
      ensures M.OneSided(e) ==> (outcome.Meets? <==> e.tx != []) && (outcome.NotReady? <==> e.tx == [] && timeout == 0)
      ensures outcome.Waits? ==> id.endtime == M.Endtime(timeout, now)
      ensures mcbs == match outcome
                      case NotReady => old(mcbs)
                      case Waits => old(mcbs)[id := mcb]
                      case Meets(txid) =>
                        old(mcbs)[id := M.Finish(M.CopyFromSender(old(mcbs)[txid], mcb, c40), mcb.Dest)]
    {
      outcome := Receive(id, timeout, now, e);
      match outcome
      case NotReady =>
      case Waits =>
        mcbs := mcbs[id := mcb];
      case Meets(txid) =>
        var got := M.CopyFromSender(mcbs[txid], mcb, c40);
        mcbs := mcbs[id := M.Finish(got, mcb.Dest)];
    }

    /** The end of _GetMsg, for a receiver that waited with destination dest and has been resumed. */
    method GetMsgWakes(id: Id, dest: M.Descriptor) returns (rc: int)
      requires id in mcbs
      modifies this`mcbs
      ensures mcbs == old(mcbs)[id := M.Finish(old(mcbs)[id], dest)]
      ensures rc == if id.rc == 0 then old(mcbs)[id].FnRc else id.rc
    {
      var mcb := mcbs[id];
      if mcb.Reply != M.NULL_PORT {
        mcb := mcb.(Reply := mcb.Reply.(tx := true));
      }
      mcb := mcb.(Dest := dest);
      mcbs := mcbs[id := mcb];
      rc := if id.rc == 0 then mcb.FnRc else id.rc;
    }

    /** A receiver that waited for the message mcb ends with what Rendezvous promises. */
    method Meeting(tx: Id, mcb: M.MCB, rx: Id, timeout: Word, now: Word, c40: bool, ghost e: M.Ends<Id>)
      returns (rc: int)
      requires Holds(e) && tx !in e.tx && tx !in e.rx && e.tx == [] && e.rx != [] && e.rx[0] == rx && rx.rc == 0
      requires rx in mcbs && M.Fits(mcb, mcbs[rx], c40)
      modifies txId, rxId, tx, e.rx, this`mcbs
      ensures Holds(M.Ends([], e.rx[1..])) && rx in mcbs && M.Holds(mcbs[rx], mcb, old(mcbs)[rx], c40)
      ensures rx.rc == 0 ==> rc == mcb.FnRc
    {
      ghost var before := mcbs[rx];
      var dest := mcbs[rx].Dest;
      M.EitherOrder(mcb, before, c40);
      var outcome := PutMsg(tx, mcb, timeout, now, c40, e);
      rc := GetMsgWakes(rx, dest);
    }

    /** One of the two scans that TimeoutHandler makes of a port. */
    method Scan(q: Head, now: Word, ghost ids: seq<Id>, ghost late: seq<bool>, other: Head, ghost others: seq<Id>)
      returns (ghost resumed: seq<Id>)
      requires Queue(q, ids) && Queue(other, others) && q != other && Apart(ids, others)
      requires Late(ids, now, late)
      modifies q, ids
      ensures Queue(q, Keep(ids, late)) && Queue(other, others) && Apart(Keep(ids, late), others)
      ensures resumed == Take(ids, late)
      ensures forall k {:trigger others[k].endtime} :: 0 <= k < |others| ==> others[k].endtime == old(others[k].endtime)
    {
      KeepApart(ids, late, others);
      resumed := TimeoutScan(q, now, ids, late, Rcs(ids));
    }

    /** One port's turn in TimeoutHandler: the threads resumed at either end. */
    method Timeout(now: Word, ghost e: M.Ends<Id>, ghost dt: seq<bool>, ghost dr: seq<bool>)
      returns (ghost tx: seq<Id>, ghost rx: seq<Id>)
      requires Holds(e) && Late(e.tx, now, dt) && Late(e.rx, now, dr)
      modifies txId, rxId, e.tx, e.rx
      ensures Holds(M.Ends(Keep(e.tx, dt), Keep(e.rx, dr)))
      ensures tx == Take(e.tx, dt) && rx == Take(e.rx, dr)
    {
      tx := Scan(txId, now, e.tx, dt, rxId, e.rx);
      rx := Scan(rxId, now, e.rx, dr, txId, Keep(e.tx, dt));
    }

    /** One of the two loops of _AbortPort, and the assignment after it. */
    method AbortQueue(q: Head, rc: int, ghost ids: seq<Id>) returns (ghost resumed: seq<Id>)
      requires Queue(q, ids)
      modifies q, ids
      ensures q.head == null && resumed == ids
      ensures forall x :: x in ids ==> x.rc == rc
    {
      resumed := [];
      var id := q.head;
      ghost var i := 0;
      while id != null
        invariant 0 <= i <= |ids| && id == At(ids, i) && resumed == ids[..i]
        invariant Queue(q, ids)
        invariant forall k {:trigger ids[k].rc} :: 0 <= k < i ==> ids[k].rc == rc
        decreases |ids| - i
      {
        id.rc := rc;
        resumed := resumed + [id];
        id := id.next;
        i := i + 1;
      }
      q.head := null;
    }

    method AbortPort(rc: int, ghost e: M.Ends<Id>) returns (ghost resumed: seq<Id>)
      requires Holds(e)
      modifies txId, rxId, e.tx, e.rx
      ensures Holds(M.Ends([], [])) && resumed == e.tx + e.rx
      ensures forall x :: x in e.tx || x in e.rx ==> x.rc == rc
    {
      ghost var tx := AbortQueue(txId, rc, e.tx);
      ghost var rx := AbortQueue(rxId, rc, e.rx);
      resumed := tx + rx;
    }
  }
}
