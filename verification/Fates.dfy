/**
 What becomes of each call of _PutMsg and _GetMsg on a local port: over every
 run, which calls fail, which two meet, and which still wait.
 */
module Fates {
  import opened Words
  import opened Times
  import opened Filters
  import opened Lists
  import opened Rendezvous

  /** Waiter number n is in the queue. */
  ghost predicate In(s: seq<Waiter>, n: nat)
  {
    exists k :: 0 <= k < |s| && s[k].ticket == n
  }

  ghost predicate Waiting(p: Port, n: nat)
  {
    In(p.ends.tx, n) || In(p.ends.rx, n)
  }

  /**
   A scan at the given time finds that call c has waited too long.  The clock
   is a word, and so is the call's deadline, which does not count if it happens
   to be the word that stands for no timeout.
   */
  predicate Past(c: Call, time: int)
  {
    var deadline := c.time + c.timeout;
    c.timeout != FOREVER && Wrap(deadline) != FOREVER && 0 < Wrap(time - deadline) <= MIN_INT
  }

  /** Within half a turn of the clock that is true time. */
  lemma PastInWindow(c: Call, time: int)
    requires -MIN_INT < time - (c.time + c.timeout) <= MIN_INT
    ensures Past(c, time) <==>
              c.timeout != FOREVER && Wrap(c.time + c.timeout) != FOREVER && c.time + c.timeout < time
  {
  }

  /** So a time-out of half a turn or more counts as over at once. */
  lemma PastAtOnce(c: Call)
    ensures Past(c, c.time) <==> MIN_INT <= c.timeout < FOREVER && Wrap(c.time + c.timeout) != FOREVER
  {
  }

  /** The step makes call n fail: a poll without a partner, a time-out, or an abort. */
  ghost predicate Fails(p: Port, step: Step, n: nat)
  {
    match step
    case Puts(_, timeout, _) => timeout == 0 && p.ends.rx == [] && n == |p.calls|
    case Gets(_, timeout, _) => timeout == 0 && p.ends.tx == [] && n == |p.calls|
    case Scans(time) => Waiting(p, n) && n < |p.calls| && Past(p.calls[n], time)
    case Aborts => Waiting(p, n)
  }

  /** The step makes transmitter t and receiver r meet: the caller, and whoever waits first at the other end. */
  predicate Join(p: Port, step: Step, t: nat, r: nat)
  {
    match step
    case Puts(_, _, _) => p.ends.rx != [] && t == |p.calls| && r == p.ends.rx[0].ticket
    case Gets(_, _, _) => p.ends.tx != [] && r == |p.calls| && t == p.ends.tx[0].ticket
    case _ => false
  }

  ghost predicate HaveMet(p: Port, t: nat, r: nat)
  {
    exists k :: 0 <= k < |p.met| && p.met[k].tx.ticket == t && p.met[k].rx.ticket == r
  }

  // ---- waiters are what was called ----

  /** Waiter w is call number w.ticket. */
  predicate Called(calls: seq<Call>, w: Waiter, sends: bool)
  {
    w.ticket < |calls| && calls[w.ticket].sends == sends && calls[w.ticket].mcb == w.mcb
  }

  /** And is allowed to wait, until its deadline. */
  ghost predicate Patient(calls: seq<Call>, w: Waiter)
  {
    && w.ticket < |calls| && calls[w.ticket].timeout != 0
    && forall time: int {:trigger Past(calls[w.ticket], time)} ::
         Expired(w.endtime, Wrap(time)) <==> Past(calls[w.ticket], time)
  }

  lemma WrapShift(x: Word, y: int)
    ensures Wrap(x + Wrap(y)) == Wrap(y + x)
  {
  }

  lemma WrapDiff(a: int, b: int)
    ensures Wrap(Wrap(a) - Wrap(b)) == Wrap(a - b)
    ensures Wrap(a - b) >= MIN_INT <==> 0 < Wrap(b - a) <= MIN_INT
  {
  }

  lemma ExpiredIsPast(c: Call, time: int)
    ensures Expired(Endtime(c.timeout, Wrap(c.time)), Wrap(time)) <==> Past(c, time)
  {
    var deadline := c.time + c.timeout;
    TimesWrap(c.timeout, Wrap(c.time));
    WrapShift(c.timeout, c.time);
    TimesWrap(Wrap(deadline), Wrap(time));
    WrapDiff(deadline, time);
  }

  /** Everyone who waits or has met is as called, and who waits was not to be put off at once. */
  ghost predicate Recorded(p: Port)
  {
    && (forall k :: 0 <= k < |p.ends.tx| ==> Called(p.calls, p.ends.tx[k], true) && Patient(p.calls, p.ends.tx[k]))
    && (forall k :: 0 <= k < |p.ends.rx| ==> Called(p.calls, p.ends.rx[k], false) && Patient(p.calls, p.ends.rx[k]))
    && (forall k :: 0 <= k < |p.met| ==> Called(p.calls, p.met[k].tx, true) && Called(p.calls, p.met[k].rx, false))
  }

  lemma NewWaiter(calls: seq<Call>, w: Waiter, c: Call)
    requires w == Waiter(|calls|, c.mcb, Endtime(c.timeout, Wrap(c.time)))
    ensures Called(calls + [c], w, c.sends)
    ensures c.timeout != 0 ==> Patient(calls + [c], w)
  {
    forall time: int ensures Expired(w.endtime, Wrap(time)) <==> Past((calls + [c])[w.ticket], time) {
      ExpiredIsPast(c, time);
    }
  }

  lemma StillCalled(calls: seq<Call>, c: Call, w: Waiter, sends: bool)
    ensures Called(calls, w, sends) ==> Called(calls + [c], w, sends)
    ensures Patient(calls, w) ==> Patient(calls + [c], w)
  {
    if Patient(calls, w) {
      assert (calls + [c])[w.ticket] == calls[w.ticket];
    }
  }

  /** The history grows by one call, the queues and meetings stay. */
  lemma StillRecorded(p: Port, c: Call)
    requires Recorded(p)
    ensures Recorded(p.(calls := p.calls + [c]))
  {
    var p' := p.(calls := p.calls + [c]);
    forall k | 0 <= k < |p.ends.tx| ensures Called(p'.calls, p.ends.tx[k], true) && Patient(p'.calls, p.ends.tx[k]) {
      StillCalled(p.calls, c, p.ends.tx[k], true);
    }
    forall k | 0 <= k < |p.ends.rx| ensures Called(p'.calls, p.ends.rx[k], false) && Patient(p'.calls, p.ends.rx[k]) {
      StillCalled(p.calls, c, p.ends.rx[k], false);
    }
    forall k | 0 <= k < |p.met|
      ensures Called(p'.calls, p.met[k].tx, true) && Called(p'.calls, p.met[k].rx, false)
    {
      StillCalled(p.calls, c, p.met[k].tx, true);
      StillCalled(p.calls, c, p.met[k].rx, false);
    }
  }

  lemma PutRecorded(p: Port, mcb: MCB, timeout: Word, time: int, c40: bool)
    requires Recorded(p) && OneSided(p.ends) && Enabled(p, Puts(mcb, timeout, time), c40)
    ensures Recorded(Apply(p, Puts(mcb, timeout, time), c40))
  {
    var c := Call(true, mcb, timeout, time);
    StillRecorded(p, c);
    NewWaiter(p.calls, Waiter(|p.calls|, mcb, Endtime(timeout, Wrap(time))), c);
  }

  lemma GetRecorded(p: Port, mcb: MCB, timeout: Word, time: int, c40: bool)
    requires Recorded(p) && OneSided(p.ends) && Enabled(p, Gets(mcb, timeout, time), c40)
    ensures Recorded(Apply(p, Gets(mcb, timeout, time), c40))
  {
    var c := Call(false, mcb, timeout, time);
    StillRecorded(p, c);
    NewWaiter(p.calls, Waiter(|p.calls|, mcb, Endtime(timeout, Wrap(time))), c);
  }

  /** Whoever is left of a queue was on it. */
  lemma KeepSome(s: seq<Waiter>, d: seq<bool>, k: nat) returns (i: nat)
    requires |s| == |d| && k < |Keep(s, d)|
    ensures i < |s| && s[i] == Keep(s, d)[k]
  {
    var w := Keep(s, d)[k];
    KeepMembers(s, d, w);
    i :| 0 <= i < |s| && s[i] == w;
  }

  lemma ScanRecorded(p: Port, time: int, c40: bool)
    requires Recorded(p)
    ensures Recorded(Apply(p, Scans(time), c40))
  {
    var p' := Apply(p, Scans(time), c40);
    var dt, dr := Late(p.ends.tx, Wrap(time)), Late(p.ends.rx, Wrap(time));
    forall k | 0 <= k < |p'.ends.tx| ensures Called(p.calls, p'.ends.tx[k], true) && Patient(p.calls, p'.ends.tx[k]) {
      var i := KeepSome(p.ends.tx, dt, k);
    }
    forall k | 0 <= k < |p'.ends.rx| ensures Called(p.calls, p'.ends.rx[k], false) && Patient(p.calls, p'.ends.rx[k]) {
      var i := KeepSome(p.ends.rx, dr, k);
    }
  }

  lemma ApplyRecorded(p: Port, step: Step, c40: bool)
    requires Recorded(p) && OneSided(p.ends) && Enabled(p, step, c40)
    ensures Recorded(Apply(p, step, c40))
  {
    match step
    case Puts(mcb, timeout, time) => PutRecorded(p, mcb, timeout, time, c40);
    case Gets(mcb, timeout, time) => GetRecorded(p, mcb, timeout, time, c40);
    case Scans(time) => ScanRecorded(p, time, c40);
    case Aborts =>
  }

  // ---- one step ----

  ghost predicate FailsNext(p: Port, step: Step, p': Port)
  {
    forall n: nat :: n in p'.failed <==> n in p.failed || Fails(p, step, n)
  }

  ghost predicate JoinsNext(p: Port, step: Step, p': Port)
  {
    forall t: nat, r: nat :: HaveMet(p', t, r) <==> HaveMet(p, t, r) || Join(p, step, t, r)
  }

  lemma TicketsIn(s: seq<Waiter>, n: nat)
    ensures n in Tickets(s) <==> In(s, n)
  {
    if n in Tickets(s) {
      var k :| 0 <= k < |s| && Tickets(s)[k] == n;
      assert s[k].ticket == n;
    }
    if In(s, n) {
      var k :| 0 <= k < |s| && s[k].ticket == n;
      assert Tickets(s)[k] == n;
    }
  }

  /** Whom a scan takes off a queue. */
  lemma {:induction false} TakeTickets(s: seq<Waiter>, d: seq<bool>, n: nat)
    requires |s| == |d|
    ensures n in Tickets(Take(s, d)) <==> exists k :: 0 <= k < |s| && s[k].ticket == n && d[k]
    decreases |s|
  {
    if s != [] {
      var m := |s| - 1;
      var s0, d0 := s[..m], d[..m];
      TakeTickets(s0, d0, n);
      assert Tickets(Take(s, d)) == Tickets(Take(s0, d0)) + if d[m] then [s[m].ticket] else [];
      if k :| 0 <= k < |s0| && s0[k].ticket == n && d0[k] { assert s[k].ticket == n && d[k]; }
      if k :| 0 <= k < |s| && s[k].ticket == n && d[k] { assert k < m ==> s0[k].ticket == n && d0[k]; }
    }
  }

  /** Those on the queue whose deadline is past. */
  lemma ScanTakes(calls: seq<Call>, s: seq<Waiter>, time: int, n: nat)
    requires forall k :: 0 <= k < |s| ==> Patient(calls, s[k])
    ensures n in Tickets(Take(s, Late(s, Wrap(time)))) <==> In(s, n) && n < |calls| && Past(calls[n], time)
  {
    var d := Late(s, Wrap(time));
    TakeTickets(s, d, n);
    forall k | 0 <= k < |s| && s[k].ticket == n ensures n < |calls| && (d[k] <==> Past(calls[n], time)) {
      assert Patient(calls, s[k]);
    }
  }

  lemma InBoth(a: seq<nat>, b: seq<nat>, c: seq<nat>, n: nat)
    ensures n in a + b + c <==> n in a || n in b || n in c
  {
  }

  lemma ScanFails(p: Port, time: int, c40: bool)
    requires Recorded(p)
    ensures FailsNext(p, Scans(time), Apply(p, Scans(time), c40))
  {
    var p' := Apply(p, Scans(time), c40);
    var tOut := Tickets(Take(p.ends.tx, Late(p.ends.tx, Wrap(time))));
    var rOut := Tickets(Take(p.ends.rx, Late(p.ends.rx, Wrap(time))));
    forall n: nat ensures n in p'.failed <==> n in p.failed || Fails(p, Scans(time), n) {
      ScanTakes(p.calls, p.ends.tx, time, n);
      ScanTakes(p.calls, p.ends.rx, time, n);
      InBoth(p.failed, tOut, rOut, n);
    }
  }

  lemma AbortFails(p: Port, c40: bool)
    ensures FailsNext(p, Aborts, Apply(p, Aborts, c40))
  {
    forall n: nat ensures n in Apply(p, Aborts, c40).failed <==> n in p.failed || Fails(p, Aborts, n) {
      TicketsIn(p.ends.tx, n);
      TicketsIn(p.ends.rx, n);
      InBoth(p.failed, Tickets(p.ends.tx), Tickets(p.ends.rx), n);
    }
  }

  lemma ApplyFails(p: Port, step: Step, c40: bool)
    requires Recorded(p) && OneSided(p.ends) && Enabled(p, step, c40)
    ensures FailsNext(p, step, Apply(p, step, c40))
  {
    match step
    case Puts(_, _, _) =>
    case Gets(_, _, _) =>
    case Scans(time) => ScanFails(p, time, c40);
    case Aborts => AbortFails(p, c40);
  }

  lemma OneMeeting(p: Port, p': Port, m: Meeting)
    requires p'.met == p.met + [m]
    ensures forall t: nat, r: nat ::
              HaveMet(p', t, r) <==> HaveMet(p, t, r) || (t == m.tx.ticket && r == m.rx.ticket)
  {
    forall t: nat, r: nat
      ensures HaveMet(p', t, r) <==> HaveMet(p, t, r) || (t == m.tx.ticket && r == m.rx.ticket)
    {
      if HaveMet(p, t, r) {
        var k :| 0 <= k < |p.met| && p.met[k].tx.ticket == t && p.met[k].rx.ticket == r;
        assert p'.met[k] == p.met[k];
      }
      assert p'.met[|p.met|] == m;
    }
  }

  lemma ApplyJoins(p: Port, step: Step, c40: bool)
    requires OneSided(p.ends) && Enabled(p, step, c40)
    ensures JoinsNext(p, step, Apply(p, step, c40))
  {
    var p' := Apply(p, step, c40);
    if p'.met != p.met { OneMeeting(p, p', p'.met[|p.met|]); }
  }

  // ---- whole runs ----

  /** The i-th step makes call n fail. */
  ghost predicate FailsAt(steps: seq<Step>, i: nat, n: nat, c40: bool)
  {
    i < |steps| && Can(EMPTY, steps[..i], c40) && Fails(Run(EMPTY, steps[..i], c40), steps[i], n)
  }

  ghost predicate JoinAt(steps: seq<Step>, i: nat, t: nat, r: nat, c40: bool)
  {
    i < |steps| && Can(EMPTY, steps[..i], c40) && Join(Run(EMPTY, steps[..i], c40), steps[i], t, r)
  }

  /** Some step does. */
  ghost predicate FailsIn(steps: seq<Step>, n: nat, c40: bool)
  {
    exists i: nat :: FailsAt(steps, i, n, c40)
  }

  ghost predicate JoinIn(steps: seq<Step>, t: nat, r: nat, c40: bool)
  {
    exists i: nat :: JoinAt(steps, i, t, r, c40)
  }

  lemma {:induction false} RunRecorded(steps: seq<Step>, c40: bool)
    requires Can(EMPTY, steps, c40)
    ensures Recorded(Run(EMPTY, steps, c40)) && Inv(Run(EMPTY, steps, c40), c40)
    decreases |steps|
  {
    EmptyInv(c40);
    RunInv(EMPTY, steps, c40);
    if steps != [] {
      var before := steps[..|steps| - 1];
      RunRecorded(before, c40);
      ApplyRecorded(Run(EMPTY, before, c40), steps[|steps| - 1], c40);
    }
  }

  /** Another step does not change what the steps before it did. */
  lemma SameBefore(before: seq<Step>, steps: seq<Step>, i: nat)
    requires steps != [] && before == steps[..|steps| - 1] && i < |before|
    ensures before[..i] == steps[..i] && before[i] == steps[i]
  {
  }

  lemma FailsAtNext(before: seq<Step>, steps: seq<Step>, n: nat, c40: bool)
    requires steps != [] && before == steps[..|steps| - 1]
    ensures FailsIn(steps, n, c40) <==> FailsIn(before, n, c40) || FailsAt(steps, |before|, n, c40)
  {
    forall i: nat | i < |before| ensures FailsAt(steps, i, n, c40) <==> FailsAt(before, i, n, c40) {
      SameBefore(before, steps, i);
    }
  }

  lemma JoinAtNext(before: seq<Step>, steps: seq<Step>, t: nat, r: nat, c40: bool)
    requires steps != [] && before == steps[..|steps| - 1]
    ensures JoinIn(steps, t, r, c40) <==> JoinIn(before, t, r, c40) || JoinAt(steps, |before|, t, r, c40)
  {
    forall i: nat | i < |before| ensures JoinAt(steps, i, t, r, c40) <==> JoinAt(before, i, t, r, c40) {
      SameBefore(before, steps, i);
    }
  }

  /**
   Over every run, a call has failed if and only if it was a poll made when
   nobody waited at the other end, or it waited when a scan found its deadline
   past, or when the port was aborted.
   */
  lemma {:induction false} FailedIff(steps: seq<Step>, n: nat, c40: bool)
    requires Can(EMPTY, steps, c40)
    ensures n in Run(EMPTY, steps, c40).failed <==> FailsIn(steps, n, c40)
    decreases |steps|
  {
    if steps != [] {
      var before := steps[..|steps| - 1];
      FailedIff(before, n, c40);
      RunRecorded(before, c40);
      ApplyFails(Run(EMPTY, before, c40), steps[|steps| - 1], c40);
      FailsAtNext(before, steps, n, c40);
    }
  }

  /** And two calls have met if and only if one was made while the other was the first to wait at the other end. */
  lemma {:induction false} MetIff(steps: seq<Step>, t: nat, r: nat, c40: bool)
    requires Can(EMPTY, steps, c40)
    ensures HaveMet(Run(EMPTY, steps, c40), t, r) <==> JoinIn(steps, t, r, c40)
    decreases |steps|
  {
    if steps != [] {
      var before := steps[..|steps| - 1];
      MetIff(before, t, r, c40);
      RunRecorded(before, c40);
      ApplyJoins(Run(EMPTY, before, c40), steps[|steps| - 1], c40);
      JoinAtNext(before, steps, t, r, c40);
    }
  }

  lemma {:induction false} CountIn(s: seq<nat>, n: nat)
    ensures n in s <==> Count(s, n) > 0
  {
    if s != [] {
      CountIn(s[..|s| - 1], n);
      assert s == s[..|s| - 1] + [s[|s| - 1]];
    }
  }

  /** Call n has met somebody, at either end. */
  ghost predicate Met(p: Port, n: nat)
  {
    exists k :: 0 <= k < |p.met| && (p.met[k].tx.ticket == n || p.met[k].rx.ticket == n)
  }

  lemma MetIn(p: Port, n: nat)
    ensures Met(p, n) <==> n in TxMet(p.met) || n in RxMet(p.met)
  {
    if Met(p, n) {
      var k :| 0 <= k < |p.met| && (p.met[k].tx.ticket == n || p.met[k].rx.ticket == n);
      assert TxMet(p.met)[k] == n || RxMet(p.met)[k] == n;
    }
    if n in TxMet(p.met) {
      var k :| 0 <= k < |p.met| && TxMet(p.met)[k] == n;
      assert p.met[k].tx.ticket == n;
    }
    if n in RxMet(p.met) {
      var k :| 0 <= k < |p.met| && RxMet(p.met)[k] == n;
      assert p.met[k].rx.ticket == n;
    }
  }

  /** The rest of the calls wait, at their own end; none of them was a poll. */
  lemma WaitingIff(steps: seq<Step>, n: nat, c40: bool)
    requires Can(EMPTY, steps, c40)
    ensures var p := Run(EMPTY, steps, c40);
            && (Waiting(p, n) <==> n < |p.calls| && n !in p.failed && !Met(p, n))
            && (In(p.ends.tx, n) ==> p.calls[n].sends && p.calls[n].timeout != 0)
            && (In(p.ends.rx, n) ==> !p.calls[n].sends && p.calls[n].timeout != 0)
  {
    RunRecorded(steps, c40);
    var p := Run(EMPTY, steps, c40);
    assert Once(p, n);
    MetIn(p, n);
    TicketsIn(p.ends.tx, n);
    TicketsIn(p.ends.rx, n);
    CountIn(p.failed, n);
    CountIn(TxMet(p.met), n);
    CountIn(RxMet(p.met), n);
    CountIn(Tickets(p.ends.tx), n);
    CountIn(Tickets(p.ends.rx), n);
    CountConcat(TxMet(p.met), Tickets(p.ends.tx), n);
    CountConcat(RxMet(p.met), Tickets(p.ends.rx), n);
  }

  /** Who has met has the message that the transmitter called with. */
  lemma MessagePassed(steps: seq<Step>, k: nat, c40: bool)
    requires Can(EMPTY, steps, c40) && k < |Run(EMPTY, steps, c40).met|
    ensures var p := Run(EMPTY, steps, c40);
            var m := p.met[k];
            && m.tx.ticket < |p.calls| && m.rx.ticket < |p.calls|
            && var t, r := p.calls[m.tx.ticket], p.calls[m.rx.ticket];
               t.sends && !r.sends && Fits(t.mcb, r.mcb, c40) && Holds(m.got, t.mcb, r.mcb, c40)
  {
    RunRecorded(steps, c40);
    assert Run(EMPTY, steps, c40).met[k] in Run(EMPTY, steps, c40).met;
  }

  /** Nobody calls or aborts, but for the first step. */
  predicate OnlyScans(steps: seq<Step>)
  {
    forall k :: 0 < k < |steps| ==> steps[k].Scans?
  }

  lemma ScanSpares(p: Port, w: Waiter, time: int, c40: bool)
    requires p.ends == Ends([w], []) && w.endtime == FOREVER
    ensures Apply(p, Scans(time), c40).ends == p.ends
  {
    assert Keep([w][..0], Late([w], Wrap(time))[..0]) == [];
  }

  lemma FirstCall(mcb: MCB, c40: bool)
    ensures Enabled(EMPTY, Puts(mcb, 1000, 0xffff_fc17), c40)
    ensures Apply(EMPTY, Puts(mcb, 1000, 0xffff_fc17), c40).ends == Ends([Waiter(0, mcb, FOREVER)], [])
  {
    assert Wrap(0xffff_fc17) == 0xffff_fc17;
    assert Endtime(1000, 0xffff_fc17) == FOREVER;
  }

  lemma {:induction false} ScansSpare(mcb: MCB, steps: seq<Step>, c40: bool)
    requires steps != [] && steps[0] == Puts(mcb, 1000, 0xffff_fc17) && OnlyScans(steps)
    ensures Can(EMPTY, steps, c40) && Run(EMPTY, steps, c40).ends == Ends([Waiter(0, mcb, FOREVER)], [])
    decreases |steps|
  {
    var n := |steps| - 1;
    var before := steps[..n];
    if n == 0 {
      assert before == [] && Run(EMPTY, before, c40) == EMPTY;
      FirstCall(mcb, c40);
    } else {
      ScansSpare(mcb, before, c40);
      ScanSpares(Run(EMPTY, before, c40), Waiter(0, mcb, FOREVER), steps[n].time, c40);
    }
  }

  /**
   A time-out that never comes: asked to wait a millisecond at a time when that
   makes the deadline the word for no timeout, a call waits for ever.
   */
  lemma MissedDeadline(mcb: MCB, steps: seq<Step>, c40: bool)
    requires steps != [] && steps[0] == Puts(mcb, 1000, 0xffff_fc17) && OnlyScans(steps)
    ensures Can(EMPTY, steps, c40) && Waiting(Run(EMPTY, steps, c40), 0)
  {
    ScansSpare(mcb, steps, c40);
    assert Run(EMPTY, steps, c40).ends.tx[0].ticket == 0;
  }
}
