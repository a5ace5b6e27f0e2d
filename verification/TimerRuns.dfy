/** Threads that wait for the clock, over whole runs of the Executive. */
module TimerRuns {
  import opened Lists
  import opened Words
  import opened Times
  import opened Executive
  import opened Housing
  import opened Schedules
  import opened TimerQueues
  import opened ExecutiveRuns
  import opened Fairness

  // ---- TimedSuspend ----

  function Joined(q: ThreadQs, t: Thread, n: nat): nat
    requires n <= 8
  {
    if n == 0 then 0 else Joined(q, t, n - 1) + Count(q[n - 1], t)
  }

  /** How often thread t has been put on a run queue. */
  function Entries(s: Exec, t: Thread): nat
  {
    Joined(s.added, t, 8)
  }

  /** q' is q with thread u put on queue i. */
  lemma {:induction false} JoinedMore(q: ThreadQs, q': ThreadQs, i: Level, u: Thread, t: Thread, n: nat)
    requires n <= 8 && q'[i] == q[i] + [u] && forall j: Level :: j != i ==> q'[j] == q[j]
    ensures Joined(q', t, n) == Joined(q, t, n) + if u == t && i < n then 1 else 0
  {
    if n > 0 {
      JoinedMore(q, q', i, u, t, n - 1);
      if n - 1 == i {
        CountSnoc(q[i], u, t);
      } else {
        var j: Level := n - 1;
        assert q'[j] == q[j];
      }
    }
  }

  lemma JoinedPut(q: ThreadQs, i: Level, u: Thread, t: Thread)
    ensures Joined(Put(q, i, u), t, 8) == Joined(q, t, 8) + if u == t then 1 else 0
  {
    JoinedMore(q, Put(q, i, u), i, u, t, 8);
  }

  /**
   A call of TimedSuspend by t is under way: t had been on run queues n times
   when it called, and Resume has been called for it since, or not.
   */
  ghost predicate Tracked(s: Exec, t: Thread, n: nat, resumed: bool)
  {
    && t in s.ss && s.cur != Some(t)
    && s.ss[t].status == (if resumed then Runnable else TimedWait)
    && s.ss[t].wait.Wait? && Entries(s, t) == n + s.ss[t].wait.entries
  }

  /** And now t is back. */
  ghost predicate Returned(s: Exec, t: Thread, n: nat, resumed: bool)
  {
    s.cur == Some(t) && Entries(s, t) == n + 1 && R(s, t).timedWaitUtil == resumed
  }

  ghost predicate OnItsWay(s: Exec, t: Thread, n: nat, resumed: bool)
  {
    Tracked(s, t, n, resumed) || Returned(s, t, n, resumed)
  }

  lemma DispatchTracks(s: Exec, t: Thread, n: nat, resumed: bool, base: int)
    requires Consistent(s, base) && s.cur.None? && Tracked(s, t, n, resumed)
    ensures OnItsWay(Dispatch(s), t, n, resumed)
  {
    assert WaitOk(s.ss[t]);
    var i := First(s.queues, s.hint);
    if i < 8 && s.queues[i][0] == t {
      assert t in s.queues[i] && H(s, t) == Ready(i);
    }
  }

  /** Another thread is put on a run queue. */
  lemma AppendTracks(s: Exec, u: Thread, i: Level, t: Thread, n: nat, resumed: bool)
    requires Tracked(s, t, n, resumed) && u != t
    ensures Tracked(Append(s, u, i), t, n, resumed)
  {
    JoinedPut(s.added, i, u, t);
  }

  lemma RequeueTracks(s: Exec, status: Status, i: Level, t: Thread, n: nat, resumed: bool, base: int)
    requires Consistent(s, base) && s.cur.Some? && (status.Runnable? || status.Sliced?) && i == s.pri
    requires s.pri == HIGHPRI ==> s.queues[HIGHPRI] != []
    requires Tracked(s, t, n, resumed)
    ensures OnItsWay(Dispatch(Append(Off(s, status), s.cur.value, i)), t, n, resumed)
  {
    AppendTracks(Off(s, status), s.cur.value, i, t, n, resumed);
    RequeueInv(s, status, base);
    DispatchTracks(Append(Off(s, status), s.cur.value, i), t, n, resumed, base);
  }

  lemma YieldTracks(s: Exec, t: Thread, n: nat, resumed: bool, base: int)
    requires Consistent(s, base) && s.cur.Some? && Tracked(s, t, n, resumed)
    ensures OnItsWay(Yield(s), t, n, resumed)
  {
    if !(s.pri == HIGHPRI && s.queues[HIGHPRI] == []) {
      RequeueTracks(s, Runnable, s.pri, t, n, resumed, base);
    }
  }

  lemma DozeTracks(s: Exec, timed: bool, usecs: Word, t: Thread, n: nat, resumed: bool, base: int)
    requires Consistent(s, base) && s.cur.Some? && s.clock + usecs < base + MIN_INT && Tracked(s, t, n, resumed)
    ensures OnItsWay(Dispatch(Doze(if timed then Waiting(s) else s, usecs)), t, n, resumed)
  {
    SleepInv(s, timed, usecs, base);
    DispatchTracks(Doze(if timed then Waiting(s) else s, usecs), t, n, resumed, base);
  }

  lemma OffTracks(s: Exec, status: Status, t: Thread, n: nat, resumed: bool, base: int)
    requires Consistent(s, base) && s.cur.Some? && (status.Blocked? || status.Killed?) && Tracked(s, t, n, resumed)
    ensures OnItsWay(Dispatch(Off(s, status)), t, n, resumed)
  {
    OffInv(s, status, base);
    DispatchTracks(Off(s, status), t, n, resumed, base);
  }

  lemma ResumeTracks(s: Exec, u: Thread, t: Thread, n: nat, resumed: bool, base: int)
    requires Consistent(s, base) && Tracked(s, t, n, resumed)
    requires u in s.ss && (s.ss[u].status.Blocked? || s.ss[u].status == TimedWait)
    ensures Tracked(Resume(s, u), t, n, resumed || u == t)
  {
    JoinedPut(s.added, R(s, u).priority, u, t);
  }

  lemma ExpireTracks(s: Exec, t: Thread, n: nat, resumed: bool, base: int)
    requires Consistent(s, base) && Tracked(s, t, n, resumed) && s.timerQ != []
    ensures Tracked(Expire(s), t, n, resumed)
  {
    var u := s.timerQ[0];
    assert u in s.timerQ && H(s, u) == Timing;
    assert WaitOk(s.ss[t]);
    JoinedPut(s.added, R(s, u).priority, u, t);
  }

  lemma SetPhysPriTracks(s: Exec, pri: Level, t: Thread, n: nat, resumed: bool, base: int)
    requires Consistent(s, base) && s.cur.Some? && Tracked(s, t, n, resumed)
    ensures OnItsWay(SetPhysPri(s, pri), t, n, resumed)
  {
    var s' := AtPri(s, pri).(hint := Min(pri, s.hint));
    SamePri(s, pri);
    FloorZero(Frames(s));
    LevelInv(s, pri, Min(pri, s.hint), Frames(s), base);
    if s.pri < pri { YieldTracks(s', t, n, resumed, base); }
  }

  lemma LeaveTracks(s: Exec, t: Thread, n: nat, resumed: bool, base: int)
    requires Consistent(s, base) && s.cur.Some? && Frames(s) != [] && s.pri == HIGHPRI && Tracked(s, t, n, resumed)
    ensures OnItsWay(Leave(s), t, n, resumed)
  {
    BackInv(s, base);
    if s.hint < Frames(s)[|Frames(s)| - 1] { YieldTracks(Back(s), t, n, resumed, base); }
  }

  lemma StartTracks(s: Exec, u: Thread, pri: Level, t: Thread, n: nat, resumed: bool)
    requires Tracked(s, t, n, resumed) && u !in s.ss
    ensures Tracked(Start(s, u, pri), t, n, resumed)
  {
    JoinedPut(s.added, pri, u, t);
  }

  lemma ApplyTracks(s: Exec, step: Step, t: Thread, n: nat, resumed: bool)
    requires Inv(s) && Enabled(s, step) && Tracked(s, t, n, resumed)
    ensures OnItsWay(Apply(s, step), t, n, resumed || step == Resumes(t))
  {
    var base := Oldest(s);
    match step
    case Suspends(reason) => OffTracks(s, Blocked(reason), t, n, resumed, base);
    case Sleeps(usecs) => DozeTracks(s, false, usecs, t, n, resumed, base);
    case TimedSuspends(usecs) => DozeTracks(s, true, usecs, t, n, resumed, base);
    case Yields => YieldTracks(s, t, n, resumed, base);
    case Stops => OffTracks(s, Killed, t, n, resumed, base);
    case Resumes(u) => ResumeTracks(s, u, t, n, resumed, base);
    case Starts(u, pri) => StartTracks(s, u, pri, t, n, resumed);
    case SetsPri(pri) => SetPhysPriTracks(s, pri, t, n, resumed, base);
    case Enters =>
    case Leaves => LeaveTracks(s, t, n, resumed, base);
    case Advances(usecs, left) =>
    case Expires => ExpireTracks(s, t, n, resumed, base);
    case Slices => RequeueTracks(s, Sliced, s.pri, t, n, resumed, base);
    case Idles => DispatchTracks(s, t, n, resumed, base);
  }

  lemma InSteps(steps: seq<Step>, step: Step)
    requires steps != []
    ensures step in steps <==> step in Init(steps) || step == Last(steps)
  {
    assert steps == Init(steps) + [Last(steps)];
  }

  lemma {:induction false} RunTracks(s: Exec, steps: seq<Step>, t: Thread, n: nat)
    requires Inv(s) && Can(s, steps) && NotYet(s, steps, t) && Tracked(s, t, n, false)
    ensures OnItsWay(Run(s, steps), t, n, Resumes(t) in steps)
    decreases |steps|
  {
    if steps != [] {
      var before := Init(steps);
      RunTracks(s, before, t, n);
      RunInv(s, before);
      InSteps(steps, Resumes(t));
      ApplyTracks(Run(s, before), Last(steps), t, n, Resumes(t) in before);
    }
  }

  lemma SuspendTracks(s: Exec, t: Thread, usecs: Word)
    requires Inv(s) && s.cur == Some(t) && Enabled(s, TimedSuspends(usecs))
    ensures Inv(TimedSuspend(s, usecs)) && Tracked(TimedSuspend(s, usecs), t, Entries(s, t), false)
  {
    var base, m := Oldest(s), Doze(Waiting(s), usecs);
    assert H(s, t) == OnCpu;
    DozeHoused(s, true, usecs);
    SleepInv(s, true, usecs, base);
    DispatchInv(m, base);
    InvIs(Dispatch(m), base);
    DispatchTracks(m, t, Entries(s, t), false, base);
    DispatchHoused(m);
    assert H(m, t) == Timing && Dispatch(m).cur != Some(t);
  }

  /**
   Thread t calls TimedSuspend and comes to run again after the given steps:
   it has been put on a run queue once, and the call returns TRUE just when
   one of the steps was a Resume of t, even if the clock got there first.
   */
  lemma TimedSuspendReturns(s: Exec, t: Thread, usecs: Word, steps: seq<Step>)
    requires Inv(s) && s.cur == Some(t) && Enabled(s, TimedSuspends(usecs))
    requires Can(TimedSuspend(s, usecs), steps) && NotYet(TimedSuspend(s, usecs), steps, t)
    requires Run(TimedSuspend(s, usecs), steps).cur == Some(t)
    ensures Entries(Run(TimedSuspend(s, usecs), steps), t) == Entries(s, t) + 1
    ensures R(Run(TimedSuspend(s, usecs), steps), t).timedWaitUtil <==> Resumes(t) in steps
  {
    SuspendTracks(s, t, usecs);
    RunTracks(TimedSuspend(s, usecs), steps, t, Entries(s, t));
  }

  // ---- when threads wake ----

  /**
   Why Sleep is only for less than 2^31 microseconds: if asked for more, the
   time to wake counts as past before any time has gone by, and on an empty
   timer queue the thread is due at once.
   */
  lemma SleepTooLong(s: Exec, usecs: Word)
    requires s.cur.Some?
    ensures After(s.timer, R(Doze(s, usecs), s.cur.value).endtime) <==> usecs >= MIN_INT
    ensures s.timerQ == [] ==> (Due(Doze(s, usecs)) <==> usecs >= MIN_INT)
  {
    TimesWrap(s.timer, usecs);
    assert s.timerQ == [] ==> Doze(s, usecs).timerQ == [s.cur.value];
  }

  /** The timer queue and thread t's time on it are left alone. */
  predicate Alone(s: Exec, s': Exec, t: Thread)
  {
    s'.timerQ == s.timerQ && R(s', t).wake == R(s, t).wake
  }

  lemma DispatchAlone(s: Exec, t: Thread)
    ensures Alone(s, Dispatch(s), t)
  {
  }

  lemma RequeueAlone(s: Exec, status: Status, i: Level, t: Thread)
    requires s.cur.Some?
    ensures Alone(s, Dispatch(Append(Off(s, status), s.cur.value, i)), t)
  {
  }

  lemma SetPhysPriAlone(s: Exec, pri: Level, t: Thread)
    requires s.cur.Some?
    ensures Alone(s, SetPhysPri(s, pri), t)
  {
    if s.pri < pri {
      RequeueAlone(AtPri(s, pri).(hint := Min(pri, s.hint)), Runnable, pri, t);
    }
  }

  lemma LeaveAlone(s: Exec, t: Thread)
    requires s.cur.Some? && Frames(s) != []
    ensures Alone(s, Leave(s), t)
  {
    if s.hint < Frames(s)[|Frames(s)| - 1] {
      RequeueAlone(Back(s), Runnable, Back(s).pri, t);
    }
  }

  lemma ResumeQueued(s: Exec, u: Thread, t: Thread)
    requires Distinct(s.timerQ) && t in s.timerQ
    ensures R(Resume(s, u), t).wake == R(s, t).wake
    ensures t != u ==> t in Resume(s, u).timerQ
  {
    DistinctWithout(s.timerQ, u);
  }

  lemma ExpireQueued(s: Exec, t: Thread)
    requires Distinct(s.timerQ) && t in s.timerQ
    ensures R(Expire(s), t).wake == R(s, t).wake
    ensures t != s.timerQ[0] ==> t in Expire(s).timerQ
  {
    DistinctTail(s.timerQ);
  }

  /** A thread leaves the timer queue as its head or because of Resume; the clock does not run backwards. */
  lemma ApplyQueued(s: Exec, step: Step, t: Thread)
    requires Inv(s) && Enabled(s, step) && t in s.timerQ
    ensures t in Apply(s, step).timerQ ==> R(Apply(s, step), t).wake == R(s, t).wake
    ensures t !in Apply(s, step).timerQ ==> step == Resumes(t) || (step.Expires? && s.timerQ[0] == t)
  {
    assert H(s, t) == Timing;
    match step
    case Sleeps(usecs) => DozeQueued(s, usecs, t);
    case TimedSuspends(usecs) => DozeQueued(Waiting(s), usecs, t);
    case Resumes(u) => ResumeQueued(s, u, t);
    case Expires => ExpireQueued(s, t);
    case Yields => RequeueAlone(s, Runnable, s.pri, t);
    case SetsPri(pri) => SetPhysPriAlone(s, pri, t);
    case Leaves => LeaveAlone(s, t);
    case Slices => RequeueAlone(s, Sliced, R(s, s.cur.value).priority, t);
    case Suspends(reason) => DispatchAlone(Off(s, Blocked(reason)), t);
    case Stops => DispatchAlone(Off(s, Killed), t);
    case Starts(_, _) =>
    case Enters =>
    case Advances(_, _) =>
    case Idles => DispatchAlone(s, t);
  }

  lemma DozeHas(s: Exec, usecs: Word, t: Thread)
    requires s.cur.Some? && s.cur.value != t && t in s.timerQ
    ensures t in Doze(s, usecs).timerQ && R(Doze(s, usecs), t) == R(s, t)
  {
    InsertHas(s.timerQ, Slot(s, AddTimes(s.timer, usecs)), s.cur.value, t);
  }

  lemma DozeQueued(s: Exec, usecs: Word, t: Thread)
    requires s.cur.Some? && s.cur.value != t && t in s.timerQ
    ensures t in Sleep(s, usecs).timerQ && R(Sleep(s, usecs), t).wake == R(s, t).wake
  {
    DozeHas(s, usecs, t);
    DispatchAlone(Doze(s, usecs), t);
  }

  /** Thread t is on the timer queue all the time. */
  ghost predicate Stays(s: Exec, steps: seq<Step>, t: Thread)
    requires Can(s, steps)
    decreases |steps|
  {
    t in Run(s, steps).timerQ && (steps == [] || Stays(s, Init(steps), t))
  }

  /** The handler looks before it wakes: every thread it wakes is due. */
  ghost predicate Prompt(s: Exec, steps: seq<Step>)
    requires Can(s, steps)
    decreases |steps|
  {
    steps == [] || (Prompt(s, Init(steps)) && (Last(steps).Expires? ==> Due(Run(s, Init(steps)))))
  }

  lemma {:induction false} WakeStays(s: Exec, steps: seq<Step>, t: Thread)
    requires Inv(s) && Can(s, steps) && Stays(s, steps, t)
    ensures R(Run(s, steps), t).wake == R(s, t).wake
    decreases |steps|
  {
    if steps != [] {
      WakeStays(s, Init(steps), t);
      RunInv(s, Init(steps));
      ApplyQueued(Run(s, Init(steps)), Last(steps), t);
    }
  }

  /** The head of the queue wakes first of all, and is due just when its time has passed. */
  lemma HeadIsFirst(s: Exec, t: Thread)
    requires Inv(s) && t in s.timerQ
    ensures R(s, s.timerQ[0]).wake <= R(s, t).wake
    ensures Due(s) <==> R(s, s.timerQ[0]).wake < s.clock
  {
    var j :| 0 <= j < |s.timerQ| && s.timerQ[j] == t;
    assert Wakes(s)[j] == R(s, t).wake && Wakes(s)[0] == R(s, s.timerQ[0]).wake;
    DueIs(s, Oldest(s));
  }

  /** Never early: however the clock wraps, nobody's sleep is over before its time unless Resume ends it. */
  lemma {:induction false} NeverEarly(s: Exec, steps: seq<Step>, t: Thread)
    requires Inv(s) && Can(s, steps) && Prompt(s, steps)
    requires t in s.timerQ && !Stays(s, steps, t) && Resumes(t) !in steps
    ensures R(s, t).wake < Run(s, steps).clock
    decreases |steps|
  {
    if steps != [] {
      var before := Init(steps);
      var m := Run(s, before);
      RunInv(s, before);
      InSteps(steps, Resumes(t));
      ClockGoesOn(m, Last(steps));
      if Stays(s, before, t) {
        WakeStays(s, before, t);
        ApplyQueued(m, Last(steps), t);
        HeadIsFirst(m, t);
      } else {
        NeverEarly(s, before, t);
      }
    }
  }

  lemma ClockGoesOn(s: Exec, step: Step)
    requires Enabled(s, step)
    ensures Apply(s, step).clock >= s.clock
  {
  }

  /** In order: whatever the handler wakes, and when, nobody sleeps on who was to wake before. */
  lemma {:induction false} InOrder(s: Exec, steps: seq<Step>, t: Thread, u: Thread)
    requires Inv(s) && Can(s, steps) && t in s.timerQ && u in s.timerQ && R(s, t).wake < R(s, u).wake
    requires !Stays(s, steps, u) && Resumes(u) !in steps
    ensures !Stays(s, steps, t)
    decreases |steps|
  {
    if steps != [] && Stays(s, steps, t) {
      var before := Init(steps);
      var m := Run(s, before);
      RunInv(s, before);
      InSteps(steps, Resumes(u));
      if Stays(s, before, u) {
        WakeStays(s, before, t);
        WakeStays(s, before, u);
        ApplyQueued(m, Last(steps), u);
        HeadIsFirst(m, t);
      } else {
        InOrder(s, before, t, u);
      }
    }
  }
}
