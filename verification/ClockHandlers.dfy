/**
 Clock interrupt handlers, of which module Executive only says what steps they
 are made of.  kernel/C40/csliceintr.c is the one written in C; by its own
 account it is a dummy, and the makefiles list it beside the documentation and
 do not build it.  Of the assembler handlers kernel/ARM/armslice.a two details
 are looked at here: how it tests the clock and how it sets the hint.
 */
module ClockHandlers {
  import opened Lists
  import opened Words
  import opened Times
  import opened Executive
  import opened Housing
  import opened Schedules
  import opened TimerQueues
  import opened ExecutiveRuns
  import opened Fairness

  // ---- kernel/C40/csliceintr.c ----

  /** The loop that wakes every thread that is due. */
  function ExpireAll(s: Exec): (r: Exec)
    ensures r.sliceTime == s.sliceTime
    decreases |s.timerQ|
  {
    if Due(s) then ExpireAll(Expire(s)) else s
  }

  /** Does the handler leave the current thread alone? */
  predicate GoesOn(s: Exec)
  {
    s.pri == HIGHPRI || s.cur.None? || (s.pri <= s.hint && s.sliceTime > 0)
  }

  /** One interrupt, a millisecond after the last. */
  function Tick(s: Exec): Exec
  {
    var e := ExpireAll(Advance(s, 1000, DiffTimes(s.sliceTime, 1)));
    if GoesOn(e) then e else Slice(e)
  }

  lemma {:induction false} ExpireAllInv(s: Exec, base: int)
    requires Consistent(s, base)
    ensures Consistent(ExpireAll(s), base) && !Due(ExpireAll(s))
    ensures ExpireAll(s).clock == s.clock && ExpireAll(s).cur == s.cur && ExpireAll(s).pri == s.pri
    decreases |s.timerQ|
  {
    if Due(s) {
      ExpireInv(s, base);
      ExpireAllInv(Expire(s), base);
    }
  }

  /** SliceTime is decremented after the loop, which does not look at it. */
  lemma {:induction false} ExpireAllSliceTime(s: Exec, left: Word)
    ensures ExpireAll(s.(sliceTime := left)) == ExpireAll(s).(sliceTime := left)
    decreases |s.timerQ|
  {
    if Due(s) {
      assert Expire(s.(sliceTime := left)) == Expire(s).(sliceTime := left);
      ExpireAllSliceTime(Expire(s), left);
    }
  }

  // ---- it is one of the handlers of Executive.Run ----

  /** How many threads the loop wakes. */
  function Woken(s: Exec): nat
    decreases |s.timerQ|
  {
    if Due(s) then 1 + Woken(Expire(s)) else 0
  }

  lemma RunSnoc(s: Exec, steps: seq<Step>, step: Step)
    requires Can(s, steps) && Enabled(Run(s, steps), step)
    ensures Can(s, steps + [step]) && Run(s, steps + [step]) == Apply(Run(s, steps), step)
  {
    assert Init(steps + [step]) == steps;
  }

  function Expirations(n: nat): (steps: seq<Step>)
    ensures |steps| == n && forall k :: 0 <= k < n ==> steps[k] == Expires
  {
    seq(n, _ => Expires)
  }

  lemma OneMore(steps: seq<Step>, n: nat)
    ensures (steps + [Expires]) + Expirations(n) == steps + Expirations(n + 1)
  {
  }

  /** States m and r are those after the given steps, and after n wake-ups more. */
  lemma {:induction false} ExpireAllIsRun(s: Exec, steps: seq<Step>, m: Exec, n: nat, r: Exec)
    requires Can(s, steps) && Run(s, steps) == m && n == Woken(m) && r == ExpireAll(m)
    ensures Can(s, steps + Expirations(n)) && Run(s, steps + Expirations(n)) == r
    decreases n
  {
    if n == 0 {
      assert steps + Expirations(0) == steps;
    } else {
      WokenNext(m);
      RunSnoc(s, steps, Expires);
      OneMore(steps, n - 1);
      ExpireAllIsRun(s, steps + [Expires], Expire(m), n - 1, r);
    }
  }

  lemma WokenNext(m: Exec)
    requires Woken(m) > 0
    ensures Due(m) && Woken(m) == Woken(Expire(m)) + 1 && ExpireAll(m) == ExpireAll(Expire(m))
  {
  }

  /** The steps that one call of the handler comes to. */
  function TickSteps(s: Exec): seq<Step>
  {
    var left := DiffTimes(s.sliceTime, 1);
    var a := Advance(s, 1000, left);
    [Advances(1000, left)] + Expirations(Woken(a)) + if GoesOn(ExpireAll(a)) then [] else [Slices]
  }

  /** The C handler is a run of single steps, so whatever holds of all runs holds with it. */
  lemma TickIsRun(s: Exec)
    requires InWindow(s, s.clock + 1000)
    ensures Can(s, TickSteps(s)) && Run(s, TickSteps(s)) == Tick(s)
  {
    var left := DiffTimes(s.sliceTime, 1);
    var a := Advance(s, 1000, left);
    RunOne(s, Advances(1000, left));
    ExpireAllIsRun(s, [Advances(1000, left)], a, Woken(a), ExpireAll(a));
    TickEnds(s, [Advances(1000, left)] + Expirations(Woken(a)), ExpireAll(a));
  }

  lemma RunOne(s: Exec, step: Step)
    requires Enabled(s, step)
    ensures Can(s, [step]) && Run(s, [step]) == Apply(s, step)
  {
    assert Init([step]) == [];
  }

  /** The handler's last part, on state e after the given steps. */
  lemma TickEnds(s: Exec, steps: seq<Step>, e: Exec)
    requires Can(s, steps) && Run(s, steps) == e
    ensures var all := steps + if GoesOn(e) then [] else [Slices];
            Can(s, all) && Run(s, all) == if GoesOn(e) then e else Slice(e)
  {
    if GoesOn(e) {
      assert steps + [] == steps;
    } else {
      RunSnoc(s, steps, Slices);
    }
  }

  /** With it nobody is left overdue, and so the clock can always go on. */
  lemma TickInv(s: Exec)
    requires Inv(s) && Oldest(s) == s.clock
    ensures Inv(Tick(s)) && Oldest(Tick(s)) == Tick(s).clock
  {
    var a := Advance(s, 1000, DiffTimes(s.sliceTime, 1));
    AdvanceInv(s, 1000, DiffTimes(s.sliceTime, 1), s.clock);
    ExpireAllInv(a, s.clock);
    var e := ExpireAll(a);
    DueSpeaksForAll(e, s.clock);
    InvIs(e, s.clock);
    if !GoesOn(e) {
      SliceInv(e, e.clock);
      OldestBase(Tick(s), e.clock);
    }
  }

  lemma {:induction false} ExpireAllWakes(s: Exec, base: int, t: Thread)
    requires Consistent(s, base) && t in s.timerQ
    ensures t in ExpireAll(s).timerQ ==> R(ExpireAll(s), t).wake == R(s, t).wake
    ensures R(s, t).wake >= s.clock ==> t in ExpireAll(s).timerQ
    ensures t !in ExpireAll(s).timerQ ==> H(ExpireAll(s), t) == Ready(R(s, t).priority)
    decreases |s.timerQ|
  {
    assert H(s, t) == Timing;
    if Due(s) {
      var u := s.timerQ[0];
      ExpireInv(s, base);
      DueIs(s, base);
      assert Wakes(s)[0] == R(s, u).wake;
      DistinctTail(s.timerQ);
      if t == u {
        ExpireAllReady(Expire(s), base, t);
        ExpireAllInv(Expire(s), base);
        assert H(ExpireAll(s), t) == Ready(R(s, t).priority);
      } else {
        ExpireAllWakes(Expire(s), base, t);
      }
    }
  }

  lemma {:induction false} ExpireAllReady(s: Exec, base: int, t: Thread)
    requires Consistent(s, base) && H(s, t).Ready?
    ensures H(ExpireAll(s), t) == H(s, t)
    decreases |s.timerQ|
  {
    if Due(s) {
      assert s.timerQ[0] in s.timerQ && H(s, s.timerQ[0]) == Timing;
      ExpireInv(s, base);
      ExpireAllReady(Expire(s), base, t);
    }
  }

  /** Oldest is at most the time of anyone on the queue. */
  lemma HeadWakes(s: Exec, t: Thread)
    requires Inv(s) && t in s.timerQ
    ensures Oldest(s) <= R(s, t).wake
  {
    var j :| 0 <= j < |s.timerQ| && s.timerQ[j] == t;
    assert WakeOk(R(s, s.timerQ[j]), Oldest(s));
  }

  /** The last part of the handler does not take a thread off its run queue but to run it, or touch the timer queue. */
  lemma SliceSpares(s: Exec, t: Thread)
    requires Inv(s) && (t in s.timerQ || H(s, t).Ready?)
    ensures var e := if GoesOn(s) then s else Slice(s);
            (t in e.timerQ <==> t in s.timerQ) && (t !in s.timerQ ==> Waits(e, t, H(s, t).level))
  {
    if !GoesOn(s) && t !in s.timerQ { SliceWaits(s, t, H(s, t).level); }
  }

  /** The C handler wakes exactly the threads whose time has passed, however the clock wraps. */
  lemma Punctual(s: Exec, t: Thread)
    requires Inv(s) && Oldest(s) == s.clock && t in s.timerQ
    ensures t in Tick(s).timerQ <==> R(s, t).wake >= s.clock + 1000
    ensures t !in Tick(s).timerQ ==> Waits(Tick(s), t, R(s, t).priority)
  {
    var a := Advance(s, 1000, DiffTimes(s.sliceTime, 1));
    AdvanceInv(s, 1000, DiffTimes(s.sliceTime, 1), s.clock);
    ExpireAllInv(a, s.clock);
    ExpireAllWakes(a, s.clock, t);
    var e := ExpireAll(a);
    InvIs(e, s.clock);
    if t in e.timerQ {
      DueSpeaksForAll(e, s.clock);
      HeadWakes(e, t);
    }
    SliceSpares(e, t);
  }

  lemma SliceWake(s: Exec, t: Thread)
    requires s.cur.Some?
    ensures Slice(s).timerQ == s.timerQ && R(Slice(s), t).wake == R(s, t).wake
  {
  }

  /** And leaves the others' times alone. */
  lemma TickWake(s: Exec, t: Thread)
    requires Inv(s) && Oldest(s) == s.clock && t in s.timerQ && t in Tick(s).timerQ
    ensures R(Tick(s), t).wake == R(s, t).wake
  {
    var a := Advance(s, 1000, DiffTimes(s.sliceTime, 1));
    AdvanceInv(s, 1000, DiffTimes(s.sliceTime, 1), s.clock);
    ExpireAllWakes(a, s.clock, t);
    if !GoesOn(ExpireAll(a)) { SliceWake(ExpireAll(a), t); }
  }

  // ---- its time slices ----

  function Ticks(s: Exec, n: nat): Exec
  {
    if n == 0 then s else Tick(Ticks(s, n - 1))
  }

  /** How many interrupts the running thread has left; SliceTime is unsigned. */
  function Quantum(s: Exec): (q: int)
    ensures 0 < q
  {
    if s.sliceTime == 0 then WORD else s.sliceTime
  }

  /** Nobody on the timer queue is to wake before the given time. */
  ghost predicate QuietUntil(s: Exec, time: int)
  {
    Timed(s, s.clock) && time <= s.clock + MIN_INT && forall t :: t in s.timerQ ==> time <= R(s, t).wake
  }

  /** Only the clocks have moved. */
  predicate Idled(s: Exec, s': Exec)
  {
    s' == s.(clock := s'.clock, timer := s'.timer, sliceTime := s'.sliceTime)
  }

  lemma QuietTick(s: Exec, time: int)
    requires QuietUntil(s, time) && s.clock + 1000 <= time
    ensures var a := Advance(s, 1000, DiffTimes(s.sliceTime, 1)); QuietUntil(a, time) && ExpireAll(a) == a
  {
    var a := Advance(s, 1000, DiffTimes(s.sliceTime, 1));
    assert forall j :: 0 <= j < |s.timerQ| ==> s.timerQ[j] in s.timerQ;
    if s.timerQ != [] {
      TickTimed(s, time);
      DueIs(a, a.clock);
    } else {
      EndtimeWraps(s.clock, 1000);
    }
  }

  /** The base of the timer queue moves up with the clock. */
  lemma TickTimed(s: Exec, time: int)
    requires QuietUntil(s, time) && s.clock + 1000 <= time && s.timerQ != []
    ensures var a := Advance(s, 1000, DiffTimes(s.sliceTime, 1)); Timed(a, a.clock) && Wakes(a) == Wakes(s)
  {
    var a := Advance(s, 1000, DiffTimes(s.sliceTime, 1));
    EndtimeWraps(s.clock, 1000);
    assert Wakes(a) == Wakes(s);
    forall j | 0 <= j < |a.timerQ| ensures WakeOk(R(a, a.timerQ[j]), a.clock) {
      assert s.timerQ[j] in s.timerQ && WakeOk(R(s, s.timerQ[j]), s.clock);
    }
  }

  /** State m, after n interrupts that did nothing but count. */
  ghost predicate Lasting(s: Exec, m: Exec, n: nat, time: int)
  {
    Idled(s, m) && Quantum(m) == Quantum(s) - n && QuietUntil(m, time) && m.clock == s.clock + 1000 * n
  }

  lemma LastingSelf(s: Exec, time: int)
    requires QuietUntil(s, time)
    ensures Lasting(s, Ticks(s, 0), 0, time)
  {
  }

  lemma LastingNext(s: Exec, n: nat, time: int)
    requires 0 < n < Quantum(s) && s.clock + 1000 * n <= time && Lasting(s, Ticks(s, n - 1), n - 1, time)
    requires s.cur.Some? && s.pri != HIGHPRI && s.pri <= s.hint
    ensures Lasting(s, Ticks(s, n), n, time)
  {
    var m := Ticks(s, n - 1);
    QuietTick(m, time);
    assert Ticks(s, n) == Tick(m);
  }

  /**
   With nobody to wake and nothing more urgent to run, a thread below high
   priority keeps the processor for Quantum - 1 interrupts of the C handler.
   */
  lemma SliceLasts(s: Exec, n: nat, time: int)
    requires s.cur.Some? && s.pri != HIGHPRI && s.pri <= s.hint && n < Quantum(s)
    requires QuietUntil(s, time) && s.clock + 1000 * n <= time
    ensures Lasting(s, Ticks(s, n), n, time)
  {
    LastingSelf(s, time);
    var k := 0;
    while k < n
      invariant 0 <= k <= n && Lasting(s, Ticks(s, k), k, time)
    {
      LastingNext(s, k + 1, time);
      k := k + 1;
    }
  }

  lemma TickSlices(s: Exec, time: int)
    requires s.cur.Some? && s.pri != HIGHPRI && s.sliceTime == 1 && R(s, s.cur.value).priority == s.pri
    requires QuietUntil(s, time) && s.clock + 1000 <= time
    ensures Tick(s).added == Put(s.added, s.pri, s.cur.value)
  {
    QuietTick(s, time);
  }

  /**
   And then goes to the end of its queue.  SliceTime being unsigned, a thread
   that comes down from high priority with it just used up has 2^32 interrupts
   to go, not none.
   */
  lemma SliceEnds(s: Exec, n: nat, time: int)
    requires s.cur.Some? && s.pri != HIGHPRI && s.pri <= s.hint && n + 1 == Quantum(s)
    requires R(s, s.cur.value).priority == s.pri
    requires QuietUntil(s, time) && s.clock + 1000 * (n + 1) <= time
    ensures Ticks(s, n + 1).added == Put(s.added, s.pri, s.cur.value)
  {
    SliceLasts(s, n, time);
    TickSlices(Ticks(s, n), time);
  }

  /** A thread below high priority gives way at once to a more urgent one, if only now woken. */
  lemma Preempts(s: Exec)
    requires Inv(s) && InWindow(s, s.clock + 1000) && s.cur.Some? && s.pri != HIGHPRI
    ensures Tick(s).cur.Some? && forall j: Level :: j < Tick(s).pri ==> Tick(s).queues[j] == []
  {
    var left, base := DiffTimes(s.sliceTime, 1), Oldest(s);
    AdvanceInv(s, 1000, left, base);
    ExpireAllInv(Advance(s, 1000, left), base);
    var e := ExpireAll(Advance(s, 1000, left));
    InvIs(e, base);
    if !GoesOn(e) { SliceServes(e); }
  }

  lemma SliceServes(s: Exec)
    requires Inv(s) && s.cur.Some? && s.pri != HIGHPRI
    ensures Slice(s).cur.Some? && forall j: Level :: j < Slice(s).pri ==> Slice(s).queues[j] == []
  {
    var m := Append(Off(s, Sliced), s.cur.value, s.pri);
    RequeueInv(s, Sliced, Oldest(s));
    InvIs(m, Oldest(s));
    assert m.queues[s.pri] == s.queues[s.pri] + [s.cur.value];
    DispatchServes(m, s.pri);
  }

  lemma DispatchServes(s: Exec, i: Level)
    requires Inv(s) && s.cur.None? && s.queues[i] != []
    ensures Dispatch(s).cur.Some? && forall j: Level :: j < Dispatch(s).pri ==> Dispatch(s).queues[j] == []
  {
    var f := First(s.queues, s.hint);
    assert s.hint <= i;
  }

  // ---- kernel/ARM/armslice.a ----

  /** It compares the two times as signed numbers. */
  predicate SignedDue(s: Exec)
  {
    s.timerQ != [] && Signed(R(s, s.timerQ[0]).endtime) <= Signed(s.timer)
  }

  /** How often the clock has passed from 0x7fffffff to 0x80000000. */
  function Turn(time: int): int
  {
    (time + MIN_INT) / WORD
  }

  lemma WrapIs(x: int, q: int, r: int)
    requires x == WORD * q + r && 0 <= r < WORD
    ensures Wrap(x) == r
  {
  }

  lemma SignedIs(time: int)
    ensures Signed(Wrap(time)) == time - WORD * Turn(time)
  {
    var q := Turn(time);
    var r := time + MIN_INT - WORD * q;
    if r >= MIN_INT {
      WrapIs(time, q, r - MIN_INT);
    } else {
      WrapIs(time, q - 1, r + MIN_INT);
    }
  }

  lemma SameTurn(a: int, b: int)
    requires -MIN_INT < a - b < MIN_INT
    ensures (Signed(Wrap(a)) <= Signed(Wrap(b)) <==> a <= b) <==> Turn(a) == Turn(b)
  {
    SignedIs(a);
    SignedIs(b);
  }

  /**
   That comparison tells true time just when the clock has not turned over
   between the thread's time and the present.  If it has, a thread is woken
   before its time or kept after it.
   */
  lemma SignedTest(s: Exec)
    requires Inv(s) && s.timerQ != []
    ensures (SignedDue(s) <==> Wakes(s)[0] <= s.clock) <==> Turn(Wakes(s)[0]) == Turn(s.clock)
  {
    assert WakeOk(R(s, s.timerQ[0]), Oldest(s));
    SameTurn(Wakes(s)[0], s.clock);
  }

  /** It sets the hint to the priority of the thread it wakes if that is more urgent than the running one. */
  function ArmExpire(s: Exec): Exec
    requires s.timerQ != []
  {
    var p := R(s, s.timerQ[0]).priority;
    Expire(s).(hint := if p < s.pri then p else s.hint)
  }

  /** Which is sound if and only if it does not jump over a queue, or leave the woken thread above the hint. */
  lemma ArmHint(s: Exec)
    requires Inv(s) && s.timerQ != []
    ensures var p := R(s, s.timerQ[0]).priority;
            HintSound(ArmExpire(s)) <==>
              if p < s.pri then (forall i: Level :: i < p ==> s.queues[i] == []) else s.hint <= p
  {
    var p, s' := R(s, s.timerQ[0]).priority, ArmExpire(s);
    assert s'.queues[p] == s.queues[p] + [s.timerQ[0]];
    assert forall i: Level :: i != p ==> s'.queues[i] == s.queues[i];
    if p >= s.pri && s.hint > p {
      assert s'.queues[p] != [];
    }
  }

  /** Thread 1, which is for level 6, runs while thread 0 sleeps, as it should at high priority. */
  ghost predicate Asleep(s: Exec, pri: Level)
  {
    s.cur == Some(1) && s.pri == pri && s.hint == 6 && s.timerQ == [0] && R(s, 0).priority == HIGHPRI
  }

  lemma PairSleeps(s: Exec)
    requires Inv(s) && Pair(s, HIGHPRI, 3, [3]) && s.clock == 25
    ensures Enabled(s, Sleeps(1000)) && Asleep(Sleep(s, 1000), 6) && R(Sleep(s, 1000), 0).wake == 1025
    ensures Sleep(s, 1000).clock == 25
  {
    var d := Doze(s, 1000);
    assert First(d.queues, d.hint) == 6;
  }

  lemma SleeperMissed(s: Exec)
    requires Inv(s) && Asleep(s, HIGHPRI) && s.clock == 25 && R(s, 0).wake == 1025
    ensures Enabled(s, Advances(2000, 0))
    ensures var a := Advance(s, 2000, 0); Due(a) && !HintSound(ArmExpire(a)) && HintSound(Expire(a))
  {
    var a := Advance(s, 2000, 0);
    ApplyInv(s, Advances(2000, 0));
    ArmHint(a);
    ExpireInv(a, Oldest(a));
    DueIs(a, Oldest(a));
    assert Wakes(a)[0] == 1025;
  }

  lemma AsleepReached() returns (s: Exec)
    ensures Reaches(Booted(0, 10), s) && Inv(s) && Asleep(s, 6) && s.clock == 25 && R(s, 0).wake == 1025
  {
    var s2 := PairReached();
    PairEnters(s2, 3, 3, []);
    ApplyInv(s2, Enters);
    var s3 := ReachesNext(Booted(0, 10), s2, Enters);
    PairSleeps(s3);
    ApplyInv(s3, Sleeps(1000));
    s := ReachesNext(Booted(0, 10), s3, Sleeps(1000));
  }

  lemma AsleepEnters(s: Exec)
    requires Inv(s) && Asleep(s, 6)
    ensures Inv(Enter(s)) && Asleep(Enter(s), HIGHPRI)
    ensures Enter(s).clock == s.clock && R(Enter(s), 0).wake == R(s, 0).wake
  {
    ApplyInv(s, Enters);
  }

  /** Which happens: an interrupt inside a call of System leaves a more urgent thread above the hint. */
  lemma ArmHintReachable() returns (s: Exec)
    ensures Reaches(Booted(0, 10), s) && Due(s)
    ensures !HintSound(ArmExpire(s)) && HintSound(Expire(s))
  {
    var s3 := AsleepReached();
    AsleepEnters(s3);
    var s4 := ReachesNext(Booted(0, 10), s3, Enters);
    SleeperMissed(s4);
    s := ReachesNext(Booted(0, 10), s4, Advances(2000, 0));
  }
}
