/**
 A local port: _PutMsg (kernel/putmsg1.c), _GetMsg (kernel/getmsg1.c), the
 timeout scan (kernel/port1.c) and _AbortPort (kernel/kill1.c).  Transmitters
 and receivers queue at the port until they meet.
 */
module Rendezvous {
  import opened Words
  import opened Times
  import opened Filters
  import opened Lists

  // ---- the message ----

  /** A port descriptor; tx is its Port_Flags_Tx bit. */
  datatype Descriptor = Descriptor(tx: bool, others: nat)

  const NULL_PORT := Descriptor(false, 0)

  /** The flag byte; bytealign is MsgHdr_Flags_bytealign, which only the C40 has. */
  datatype FlagByte = FlagByte(bytealign: nat, others: nat)

  /** A message control block, with what its control and data vectors hold. */
  datatype MCB = MCB(DataSize: nat, ContSize: nat, Flags: FlagByte, Dest: Descriptor, Reply: Descriptor, FnRc: Word,
                     Control: seq<Word>, Data: seq<Byte>)

  /** How far into its vector the sender's data starts. */
  function Offset(tx: MCB, c40: bool): nat { if c40 then tx.Flags.bytealign else 0 }

  /** The sender has the message it claims, and the receiver room for it. */
  predicate Fits(tx: MCB, rx: MCB, c40: bool)
  {
    && Offset(tx, c40) + tx.DataSize <= |tx.Data| && tx.DataSize <= |rx.Data|
    && tx.ContSize <= |tx.Control| && tx.ContSize <= |rx.Control|
  }

  function MoveBlock<T>(to: seq<T>, from: seq<T>, at: nat, n: nat): (r: seq<T>)
    requires at + n <= |from| && n <= |to|
  {
    from[at..at + n] + to[n..]
  }

  /** The transfer that both procedures make, but for the flag byte. */
  function Transfer(tx: MCB, rx: MCB, c40: bool, flags: FlagByte): MCB
    requires Fits(tx, rx, c40)
  {
    MCB(tx.DataSize, tx.ContSize, flags, tx.Dest, tx.Reply, tx.FnRc,
        MoveBlock(rx.Control, tx.Control, 0, tx.ContSize),
        MoveBlock(rx.Data, tx.Data, Offset(tx, c40), tx.DataSize))
  }

  /** _PutMsg finds a receiver waiting: it clears the alignment if there is data. */
  function CopyToReceiver(tx: MCB, rx: MCB, c40: bool): MCB
    requires Fits(tx, rx, c40)
  {
    Transfer(tx, rx, c40, if c40 && tx.DataSize != 0 then tx.Flags.(bytealign := 0) else tx.Flags)
  }

  /** _GetMsg finds a transmitter waiting: it clears the alignment in any case. */
  function CopyFromSender(tx: MCB, rx: MCB, c40: bool): MCB
    requires Fits(tx, rx, c40)
  {
    Transfer(tx, rx, c40, if c40 then tx.Flags.(bytealign := 0) else tx.Flags)
  }

  /** `if( Reply != NullPort ) Reply |= Port_Flags_Tx` */
  function MarkTx(reply: Descriptor): Descriptor
  {
    if reply != NULL_PORT then reply.(tx := true) else reply
  }

  /** The end of _GetMsg, whether it had to wait or not. */
  function Finish(mcb: MCB, dest: Descriptor): MCB
  {
    mcb.(Reply := MarkTx(mcb.Reply), Dest := dest)
  }

  /** The same port, for transmission only; no reply port stays none. */
  predicate TxOnly(reply: Descriptor, got: Descriptor)
  {
    got.others == reply.others && (got.tx <==> reply != NULL_PORT)
  }

  /** to holds n elements of from, from position at on, and then what it held. */
  ghost predicate Moved<T(!new)>(r: seq<T>, to: seq<T>, from: seq<T>, at: nat, n: nat)
    requires at + n <= |from| && n <= |to|
  {
    |r| == |to| && forall k :: 0 <= k < |r| ==> r[k] == if k < n then from[at + k] else to[k]
  }

  /** What the receiver is promised: the sender's message, at its own port. */
  ghost predicate Holds(got: MCB, tx: MCB, rx: MCB, c40: bool)
    requires Fits(tx, rx, c40)
  {
    && got.DataSize == tx.DataSize && got.ContSize == tx.ContSize && got.FnRc == tx.FnRc
    && got.Dest == rx.Dest && TxOnly(tx.Reply, got.Reply)
    && Moved(got.Control, rx.Control, tx.Control, 0, tx.ContSize)
    && Moved(got.Data, rx.Data, tx.Data, Offset(tx, c40), tx.DataSize)
  }

  /** The message is the same whichever side came first... */
  lemma EitherOrder(tx: MCB, rx: MCB, c40: bool)
    requires Fits(tx, rx, c40)
    ensures Holds(Finish(CopyToReceiver(tx, rx, c40), rx.Dest), tx, rx, c40)
    ensures Holds(Finish(CopyFromSender(tx, rx, c40), rx.Dest), tx, rx, c40)
    ensures Finish(CopyToReceiver(tx, rx, c40), rx.Dest) == Finish(CopyFromSender(tx, rx, c40), rx.Dest)
       <==> !(c40 && tx.DataSize == 0 && tx.Flags.bytealign != 0)
  {
  }

  /** ...but for a C40 message without data whose flag byte still has alignment bits, such as this one. */
  lemma OrderMatters()
    ensures var tx, rx := MCB(0, 0, FlagByte(1, 0), NULL_PORT, NULL_PORT, 0, [], [7]),
                          MCB(0, 0, FlagByte(0, 0), NULL_PORT, NULL_PORT, 0, [], []);
            && Fits(tx, rx, true)
            && Finish(CopyToReceiver(tx, rx, true), rx.Dest).Flags.bytealign == 1
            && Finish(CopyFromSender(tx, rx, true), rx.Dest).Flags.bytealign == 0
  {
  }

  // ---- the queues ----

  /** The two ends of a port: pte->TxId and pte->RxId. */
  datatype Ends<T> = Ends(tx: seq<T>, rx: seq<T>)

  datatype Outcome<T> = NotReady | Waits | Meets(peer: T)

  /** _PutMsg's tests; poll means a Timeout of zero. */
  function Put<T>(e: Ends<T>, id: T, poll: bool): (Ends<T>, Outcome<T>)
  {
    if e.tx != [] || e.rx == [] then
      if poll then (e, NotReady) else (Ends(e.tx + [id], e.rx), Waits)
    else (Ends(e.tx, e.rx[1..]), Meets(e.rx[0]))
  }

  /** _GetMsg's. */
  function Get<T>(e: Ends<T>, id: T, poll: bool): (Ends<T>, Outcome<T>)
  {
    if e.tx == [] || e.rx != [] then
      if poll then (e, NotReady) else (Ends(e.tx, e.rx + [id]), Waits)
    else (Ends(e.tx[1..], e.rx), Meets(e.tx[0]))
  }

  /** _PutReady and _GetReady on a local port: Err_Null rather than Err_NotReady. */
  predicate PutReady<T>(e: Ends<T>) { e.tx == [] && e.rx != [] }

  predicate GetReady<T>(e: Ends<T>) { e.rx == [] && e.tx != [] }

  /** Nobody waits at both ends of a port. */
  predicate OneSided<T>(e: Ends<T>) { e.tx == [] || e.rx == [] }

  /** They tell whether a call would complete at once, and what it is then told is not Err_NotReady. */
  lemma ReadyMeans<T>(e: Ends<T>, id: T, poll: bool)
    requires OneSided(e)
    ensures PutReady(e) <==> Put(e, id, poll).1.Meets?
    ensures GetReady(e) <==> Get(e, id, poll).1.Meets?
    ensures e.rx != [] <==> PutReady(e)
    ensures e.tx != [] <==> GetReady(e)
  {
  }

  // ---- runs ----

  /** One call of _PutMsg or _GetMsg, numbered in the order of the calls. */
  datatype Waiter = Waiter(ticket: nat, mcb: MCB, endtime: Word)

  datatype Meeting = Meeting(tx: Waiter, rx: Waiter, got: MCB)

  /** The same call as it was made: who, with what, for how long and when.  Times here never wrap. */
  datatype Call = Call(sends: bool, mcb: MCB, timeout: Word, time: int)

  /** A port and the calls made on it, with those that met and those that failed. */
  datatype Port = Port(ends: Ends<Waiter>, calls: seq<Call>, met: seq<Meeting>, failed: seq<nat>)

  const EMPTY := Port(Ends([], []), [], [], [])

  datatype Step =
    | Puts(mcb: MCB, timeout: Word, time: int)
    | Gets(mcb: MCB, timeout: Word, time: int)
    | Scans(time: int)
    | Aborts

  function Endtime(timeout: Word, now: Word): Word
  {
    if Forever(timeout) then FOREVER else AddTimes(timeout, now)
  }

  function Late(s: seq<Waiter>, now: Word): (d: seq<bool>)
    ensures |d| == |s|
  {
    seq(|s|, k requires 0 <= k < |s| => Expired(s[k].endtime, now))
  }

  function Tickets(s: seq<Waiter>): (t: seq<nat>)
    ensures |t| == |s|
  {
    seq(|s|, k requires 0 <= k < |s| => s[k].ticket)
  }

  /** Whoever meets can make the transfer. */
  predicate Enabled(p: Port, step: Step, c40: bool)
  {
    match step
    case Puts(mcb, _, _) => PutReady(p.ends) ==> Fits(mcb, p.ends.rx[0].mcb, c40)
    case Gets(mcb, _, _) => GetReady(p.ends) ==> Fits(p.ends.tx[0].mcb, mcb, c40)
    case _ => true
  }

  function Apply(p: Port, step: Step, c40: bool): Port
    requires Enabled(p, step, c40)
  {
    match step
    case Puts(mcb, timeout, time) =>
      var w := Waiter(|p.calls|, mcb, Endtime(timeout, Wrap(time)));
      var calls := p.calls + [Call(true, mcb, timeout, time)];
      var (ends, outcome) := Put(p.ends, w, timeout == 0);
      (match outcome
       case NotReady => Port(ends, calls, p.met, p.failed + [|p.calls|])
       case Waits => Port(ends, calls, p.met, p.failed)
       case Meets(r) =>
         var got := Finish(CopyToReceiver(mcb, r.mcb, c40), r.mcb.Dest);
         Port(ends, calls, p.met + [Meeting(w, r, got)], p.failed))
    case Gets(mcb, timeout, time) =>
      var w := Waiter(|p.calls|, mcb, Endtime(timeout, Wrap(time)));
      var calls := p.calls + [Call(false, mcb, timeout, time)];
      var (ends, outcome) := Get(p.ends, w, timeout == 0);
      (match outcome
       case NotReady => Port(ends, calls, p.met, p.failed + [|p.calls|])
       case Waits => Port(ends, calls, p.met, p.failed)
       case Meets(t) =>
         var got := Finish(CopyFromSender(t.mcb, mcb, c40), mcb.Dest);
         Port(ends, calls, p.met + [Meeting(t, w, got)], p.failed))
    case Scans(time) =>
      var (dt, dr) := (Late(p.ends.tx, Wrap(time)), Late(p.ends.rx, Wrap(time)));
      Port(Ends(Keep(p.ends.tx, dt), Keep(p.ends.rx, dr)), p.calls, p.met,
           p.failed + Tickets(Take(p.ends.tx, dt)) + Tickets(Take(p.ends.rx, dr)))
    case Aborts =>
      Port(Ends([], []), p.calls, p.met, p.failed + Tickets(p.ends.tx) + Tickets(p.ends.rx))
  }

  function TxMet(met: seq<Meeting>): (t: seq<nat>)
    ensures |t| == |met|
  {
    seq(|met|, k requires 0 <= k < |met| => met[k].tx.ticket)
  }

  function RxMet(met: seq<Meeting>): (t: seq<nat>)
    ensures |t| == |met|
  {
    seq(|met|, k requires 0 <= k < |met| => met[k].rx.ticket)
  }

  /** The transmitters in the order in which they were served, and then as they wait. */
  function TxOrder(p: Port): seq<nat>
  {
    TxMet(p.met) + Tickets(p.ends.tx)
  }

  function RxOrder(p: Port): seq<nat>
  {
    RxMet(p.met) + Tickets(p.ends.rx)
  }

  ghost predicate Increasing(s: seq<nat>)
  {
    forall j, k :: 0 <= j < k < |s| ==> s[j] < s[k]
  }

  ghost predicate Below(s: seq<nat>, n: nat)
  {
    forall k :: 0 <= k < |s| ==> s[k] < n
  }

  /** Each call has met, has failed, or waits, and only one of these, once. */
  ghost predicate Accounted(p: Port)
  {
    forall n: nat :: Once(p, n)
  }

  predicate Once(p: Port, n: nat)
  {
    Count(TxOrder(p), n) + Count(RxOrder(p), n) + Count(p.failed, n) == if n < |p.calls| then 1 else 0
  }

  ghost predicate Honest(p: Port, c40: bool)
  {
    forall m: Meeting :: m in p.met ==> Fits(m.tx.mcb, m.rx.mcb, c40) && Holds(m.got, m.tx.mcb, m.rx.mcb, c40)
  }

  ghost predicate Inv(p: Port, c40: bool)
  {
    && OneSided(p.ends)
    && Increasing(TxOrder(p)) && Below(TxOrder(p), |p.calls|)
    && Increasing(RxOrder(p)) && Below(RxOrder(p), |p.calls|)
    && Accounted(p)
    && Honest(p, c40)
  }

  lemma OrderAppend(s: seq<nat>, n: nat)
    requires Increasing(s) && Below(s, n)
    ensures Increasing(s + [n]) && Below(s + [n], n + 1)
  {
  }

  lemma {:induction false} TicketsKeep(s: seq<Waiter>, d: seq<bool>)
    requires |s| == |d|
    ensures Tickets(Keep(s, d)) == Keep(Tickets(s), d)
    ensures Tickets(Take(s, d)) == Take(Tickets(s), d)
    decreases |s|
  {
    if s != [] {
      var n := |s| - 1;
      TicketsKeep(s[..n], d[..n]);
      assert Tickets(s)[..n] == Tickets(s[..n]);
      assert Tickets(Keep(s, d)) == Tickets(Keep(s[..n], d[..n])) + if d[n] then [] else [s[n].ticket];
      assert Tickets(Take(s, d)) == Tickets(Take(s[..n], d[..n])) + if d[n] then [s[n].ticket] else [];
    }
  }

  /** Leaving some of a queue out keeps the order. */
  lemma {:induction false} KeepIncreasing(a: seq<nat>, s: seq<nat>, d: seq<bool>, n: nat)
    requires |s| == |d| && Increasing(a + s) && Below(a + s, n)
    ensures Increasing(a + Keep(s, d)) && Below(a + Keep(s, d), n)
    decreases |s|
  {
    if s == [] {
      assert Keep(s, d) == s;
    } else {
      var m := |s| - 1;
      assert forall k :: 0 <= k < |a + s[..m]| ==> (a + s[..m])[k] == (a + s)[k];
      assert (a + s)[|a| + m] == s[m];
      assert Below(a + s[..m], s[m]);
      KeepIncreasing(a, s[..m], d[..m], s[m]);
      OrderAppend(a + Keep(s[..m], d[..m]), s[m]);
      assert a + (Keep(s[..m], d[..m]) + []) == a + Keep(s[..m], d[..m]);
      assert a + (Keep(s[..m], d[..m]) + [s[m]]) == (a + Keep(s[..m], d[..m])) + [s[m]];
    }
  }

  lemma MeetTx(p: Port, m: Meeting)
    ensures TxMet(p.met + [m]) == TxMet(p.met) + [m.tx.ticket]
    ensures RxMet(p.met + [m]) == RxMet(p.met) + [m.rx.ticket]
  {
  }

  /** The queue's head is served: the order stays as it was. */
  lemma Served(met: seq<nat>, s: seq<Waiter>)
    requires s != []
    ensures met + Tickets(s) == (met + [s[0].ticket]) + Tickets(s[1..])
  {
  }

  /** A newcomer goes to the end. */
  lemma Joined(met: seq<nat>, s: seq<Waiter>, w: Waiter)
    ensures met + Tickets(s + [w]) == (met + Tickets(s)) + [w.ticket]
  {
  }

  /** Of the queue t, t' stays and out goes. */
  lemma CountsLeave(met: seq<nat>, t: seq<nat>, t': seq<nat>, out: seq<nat>, n: nat)
    requires Count(t', n) + Count(out, n) == Count(t, n)
    ensures Count(met + t', n) + Count(out, n) == Count(met + t, n)
  {
    CountConcat(met, t, n);
    CountConcat(met, t', n);
  }

  /** What goes from the two queues has failed. */
  lemma CountsFail(failed: seq<nat>, tOut: seq<nat>, rOut: seq<nat>, n: nat)
    ensures Count(failed + tOut + rOut, n) == Count(failed, n) + Count(tOut, n) + Count(rOut, n)
  {
    CountConcat(failed, tOut, n);
    CountConcat(failed + tOut, rOut, n);
  }

  /** Some of each queue fails; the rest stays. */
  lemma CountsMove(p: Port, p': Port, n: nat, tOut: seq<nat>, rOut: seq<nat>)
    requires Once(p, n) && |p'.calls| == |p.calls| && p'.failed == p.failed + tOut + rOut
    requires Count(TxOrder(p'), n) + Count(tOut, n) == Count(TxOrder(p), n)
    requires Count(RxOrder(p'), n) + Count(rOut, n) == Count(RxOrder(p), n)
    ensures Once(p', n)
  {
    CountsFail(p.failed, tOut, rOut, n);
  }

  /** One more number in one of the three places. */
  lemma CountsAppend(p: Port, p': Port)
    requires Accounted(p) && |p'.calls| == |p.calls| + 1
    requires || (TxOrder(p') == TxOrder(p) + [|p.calls|] && RxOrder(p') == RxOrder(p) && p'.failed == p.failed)
             || (TxOrder(p') == TxOrder(p) && RxOrder(p') == RxOrder(p) + [|p.calls|] && p'.failed == p.failed)
             || (TxOrder(p') == TxOrder(p) && RxOrder(p') == RxOrder(p) && p'.failed == p.failed + [|p.calls|])
    ensures Accounted(p')
  {
    forall n: nat ensures Once(p', n) {
      assert Once(p, n);
      CountSnoc(TxOrder(p), |p.calls|, n);
      CountSnoc(RxOrder(p), |p.calls|, n);
      CountSnoc(p.failed, |p.calls|, n);
    }
  }

  /** One more call: a transmitter... */
  lemma GrowsTx(p: Port, p': Port, c40: bool)
    requires Inv(p, c40) && OneSided(p'.ends) && |p'.calls| == |p.calls| + 1 && Honest(p', c40)
    requires TxOrder(p') == TxOrder(p) + [|p.calls|] && RxOrder(p') == RxOrder(p) && p'.failed == p.failed
    ensures Inv(p', c40)
  {
    OrderAppend(TxOrder(p), |p.calls|);
    CountsAppend(p, p');
  }

  /** ...or a receiver... */
  lemma GrowsRx(p: Port, p': Port, c40: bool)
    requires Inv(p, c40) && OneSided(p'.ends) && |p'.calls| == |p.calls| + 1 && Honest(p', c40)
    requires TxOrder(p') == TxOrder(p) && RxOrder(p') == RxOrder(p) + [|p.calls|] && p'.failed == p.failed
    ensures Inv(p', c40)
  {
    OrderAppend(RxOrder(p), |p.calls|);
    CountsAppend(p, p');
  }

  /** ...or one that failed. */
  lemma GrowsFailed(p: Port, p': Port, c40: bool)
    requires Inv(p, c40) && p' == Port(p.ends, p'.calls, p.met, p.failed + [|p.calls|]) && |p'.calls| == |p.calls| + 1
    ensures Inv(p', c40)
  {
    CountsAppend(p, p');
  }

  lemma PutInv(p: Port, mcb: MCB, timeout: Word, time: int, c40: bool)
    requires Inv(p, c40) && Enabled(p, Puts(mcb, timeout, time), c40)
    ensures Inv(Apply(p, Puts(mcb, timeout, time), c40), c40)
  {
    var p', w := Apply(p, Puts(mcb, timeout, time), c40), Waiter(|p.calls|, mcb, Endtime(timeout, Wrap(time)));
    if PutReady(p.ends) {
      var r := p.ends.rx[0];
      var m := Meeting(w, r, Finish(CopyToReceiver(mcb, r.mcb, c40), r.mcb.Dest));
      MeetTx(p, m);
      Served(RxMet(p.met), p.ends.rx);
      EitherOrder(mcb, r.mcb, c40);
      assert TxOrder(p') == TxOrder(p) + [|p.calls|];
      GrowsTx(p, p', c40);
    } else if timeout == 0 {
      GrowsFailed(p, p', c40);
    } else {
      Joined(TxMet(p.met), p.ends.tx, w);
      GrowsTx(p, p', c40);
    }
  }

  lemma GetInv(p: Port, mcb: MCB, timeout: Word, time: int, c40: bool)
    requires Inv(p, c40) && Enabled(p, Gets(mcb, timeout, time), c40)
    ensures Inv(Apply(p, Gets(mcb, timeout, time), c40), c40)
  {
    var p', w := Apply(p, Gets(mcb, timeout, time), c40), Waiter(|p.calls|, mcb, Endtime(timeout, Wrap(time)));
    if GetReady(p.ends) {
      var t := p.ends.tx[0];
      var m := Meeting(t, w, Finish(CopyFromSender(t.mcb, mcb, c40), mcb.Dest));
      MeetTx(p, m);
      Served(TxMet(p.met), p.ends.tx);
      EitherOrder(t.mcb, mcb, c40);
      assert RxOrder(p') == RxOrder(p) + [|p.calls|];
      GrowsRx(p, p', c40);
    } else if timeout == 0 {
      GrowsFailed(p, p', c40);
    } else {
      Joined(RxMet(p.met), p.ends.rx, w);
      GrowsRx(p, p', c40);
    }
  }

  /** A scan of one queue. */
  lemma ScanLeaves(met: seq<nat>, s: seq<Waiter>, d: seq<bool>, n: nat)
    requires |s| == |d|
    ensures Count(met + Tickets(Keep(s, d)), n) + Count(Tickets(Take(s, d)), n) == Count(met + Tickets(s), n)
  {
    TicketsKeep(s, d);
    KeepAndTake(Tickets(s), d, n);
    CountsLeave(met, Tickets(s), Tickets(Keep(s, d)), Tickets(Take(s, d)), n);
  }

  lemma ScanInv(p: Port, time: int, c40: bool)
    requires Inv(p, c40)
    ensures Inv(Apply(p, Scans(time), c40), c40)
  {
    var p' := Apply(p, Scans(time), c40);
    var dt, dr := Late(p.ends.tx, Wrap(time)), Late(p.ends.rx, Wrap(time));
    TicketsKeep(p.ends.tx, dt);
    TicketsKeep(p.ends.rx, dr);
    KeepIncreasing(TxMet(p.met), Tickets(p.ends.tx), dt, |p.calls|);
    KeepIncreasing(RxMet(p.met), Tickets(p.ends.rx), dr, |p.calls|);
    forall n: nat ensures Once(p', n) {
      assert Once(p, n);
      ScanLeaves(TxMet(p.met), p.ends.tx, dt, n);
      ScanLeaves(RxMet(p.met), p.ends.rx, dr, n);
      CountsMove(p, p', n, Tickets(Take(p.ends.tx, dt)), Tickets(Take(p.ends.rx, dr)));
    }
    assert p.ends.tx == [] ==> Keep(p.ends.tx, dt) == [];
    assert p.ends.rx == [] ==> Keep(p.ends.rx, dr) == [];
  }

  lemma Prefix(a: seq<nat>, s: seq<nat>, n: nat)
    requires Increasing(a + s) && Below(a + s, n)
    ensures Increasing(a + []) && Below(a + [], n)
  {
    assert forall k :: 0 <= k < |a| ==> (a + s)[k] == a[k];
  }

  lemma AbortInv(p: Port, c40: bool)
    requires Inv(p, c40)
    ensures Inv(Apply(p, Aborts, c40), c40)
  {
    var p' := Apply(p, Aborts, c40);
    Prefix(TxMet(p.met), Tickets(p.ends.tx), |p.calls|);
    Prefix(RxMet(p.met), Tickets(p.ends.rx), |p.calls|);
    assert TxOrder(p') == TxMet(p.met) + [] && RxOrder(p') == RxMet(p.met) + [];
    forall n: nat ensures Once(p', n) {
      assert Once(p, n);
      CountsLeave(TxMet(p.met), Tickets(p.ends.tx), [], Tickets(p.ends.tx), n);
      CountsLeave(RxMet(p.met), Tickets(p.ends.rx), [], Tickets(p.ends.rx), n);
      CountsMove(p, p', n, Tickets(p.ends.tx), Tickets(p.ends.rx));
    }
  }

  predicate Can(p: Port, steps: seq<Step>, c40: bool)
    decreases |steps|, 0
  {
    steps == [] ||
    var n := |steps| - 1;
    Can(p, steps[..n], c40) && Enabled(Run(p, steps[..n], c40), steps[n], c40)
  }

  function Run(p: Port, steps: seq<Step>, c40: bool): Port
    requires Can(p, steps, c40)
    decreases |steps|, 1
  {
    if steps == [] then p else
      var n := |steps| - 1;
      Apply(Run(p, steps[..n], c40), steps[n], c40)
  }

  /**
   Over every run of calls and timeouts: the two queues are never both in use,
   each side is served in the order in which it called, every call meets one
   partner or fails or waits, and whoever meets has the message.
   */
  lemma {:induction false} RunInv(p: Port, steps: seq<Step>, c40: bool)
    requires Inv(p, c40) && Can(p, steps, c40)
    ensures Inv(Run(p, steps, c40), c40)
    decreases |steps|
  {
    if steps != [] {
      var n := |steps| - 1;
      RunInv(p, steps[..n], c40);
      var q := Run(p, steps[..n], c40);
      match steps[n]
      case Puts(mcb, timeout, time) => PutInv(q, mcb, timeout, time, c40);
      case Gets(mcb, timeout, time) => GetInv(q, mcb, timeout, time, c40);
      case Scans(time) => ScanInv(q, time, c40);
      case Aborts => AbortInv(q, c40);
    }
  }

  lemma EmptyInv(c40: bool)
    ensures Inv(EMPTY, c40)
  {
  }
}
