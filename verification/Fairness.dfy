/** What a thread of the Executive can count on. */
module Fairness {
  import opened Words
  import opened Executive
  import opened Lists
  import opened Housing
  import opened Schedules
  import opened ExecutiveRuns

  /**
   Dispatch looks from the hint on, and still always runs the head of the most
   urgent queue that has a thread; it idles only if none has.
   */
  lemma DispatchMostUrgent(s: Exec)
    requires Inv(s) && s.cur.None?
    ensures forall i: Level :: s.queues[i] != [] && (forall j: Level :: j < i ==> s.queues[j] == []) ==>
              && Dispatch(s).cur == Some(s.queues[i][0])
              && Dispatch(s).pri == Dispatch(s).hint == i
              && Dispatch(s).queues == s.queues[i := s.queues[i][1..]]
    ensures (forall i: Level :: s.queues[i] == []) <==> Dispatch(s).cur.None?
  {
  }

  /**
   Each thread is in exactly one place, once: running, on the run queue of its
   priority, on the timer queue, or blocked or killed and on none of them.
   */
  lemma ExactlyOnePlace(s: Exec, t: Thread)
    requires Inv(s) && t in s.ss
    ensures forall i: Level, j: nat, k: Level, l: nat | j < |s.queues[i]| && l < |s.queues[k]| ::
              s.queues[i][j] == t == s.queues[k][l] ==> i == k == s.ss[t].priority && j == l
    ensures forall j: nat, l: nat :: j < |s.timerQ| && l < |s.timerQ| && s.timerQ[j] == t == s.timerQ[l] ==> j == l
    ensures t in s.timerQ ==> s.cur != Some(t) && forall i: Level :: t !in s.queues[i]
    ensures s.cur == Some(t) ==> forall i: Level :: t !in s.queues[i]
    ensures (s.cur == Some(t) || t in s.timerQ || exists i: Level :: t in s.queues[i])
       <==> !(s.ss[t].status.Blocked? || s.ss[t].status.Killed?)
  {
    DistinctPairs(s.timerQ);
    forall i: Level, j: nat, k: Level, l: nat
      | j < |s.queues[i]| && l < |s.queues[k]| && s.queues[i][j] == t == s.queues[k][l]
      ensures i == k == s.ss[t].priority && j == l
    {
      assert t in s.queues[i] && t in s.queues[k];
      assert H(s, t) == Ready(i) && H(s, t) == Ready(k);
      DistinctPairs(s.queues[i]);
    }
    assert t in s.queues[s.ss[t].priority] <==> H(s, t) == Ready(s.ss[t].priority);
  }

  /** First in, first out: whatever joined run queue i has run, in that order, or is still queued. */
  lemma FirstInFirstOut(t: Thread, ticks: Word, steps: seq<Step>, i: Level)
    requires Can(Booted(t, ticks), steps)
    ensures var s := Run(Booted(t, ticks), steps); s.added[i] == s.ran[i] + s.queues[i]
  {
    BootedInv(t, ticks);
    RunInv(Booted(t, ticks), steps);
  }

  /** Thread t runs, at level i, and nothing is queued above it. */
  ghost predicate Served(s: Exec, t: Thread, i: Level)
  {
    s.cur == Some(t) && s.pri == i && forall j: Level :: j < i ==> s.queues[j] == []
  }

  ghost predicate Waits(s: Exec, t: Thread, i: Level)
  {
    H(s, t) == Ready(i) || Served(s, t, i)
  }

  lemma DispatchWaits(s: Exec, t: Thread, i: Level, base: int)
    requires Consistent(s, base) && s.cur.None? && H(s, t) == Ready(i)
    ensures Waits(Dispatch(s), t, i)
  {
  }

  lemma YieldWaits(s: Exec, t: Thread, i: Level)
    requires Inv(s) && s.cur.Some? && H(s, t) == Ready(i)
    ensures Waits(Yield(s), t, i)
  {
    if !(s.pri == HIGHPRI && s.queues[HIGHPRI] == []) {
      RequeueHoused(s, Runnable);
      RequeueInv(s, Runnable, Oldest(s));
      DispatchWaits(Append(Off(s, Runnable), s.cur.value, s.pri), t, i, Oldest(s));
    }
  }

  lemma ResumeWaits(s: Exec, t: Thread, i: Level, u: Thread)
    requires Inv(s) && H(s, t) == Ready(i)
    requires u in s.ss && (s.ss[u].status.Blocked? || s.ss[u].status == TimedWait)
    ensures H(Resume(s, u), t) == Ready(i)
  {
  }

  lemma SetPhysPriWaits(s: Exec, t: Thread, i: Level, pri: Level)
    requires Inv(s) && s.cur.Some? && H(s, t) == Ready(i)
    ensures Waits(SetPhysPri(s, pri), t, i)
  {
    SamePri(s, pri);
    LevelHoused(s, pri, Min(pri, s.hint), Frames(s));
    FloorZero(Frames(s));
    LevelInv(s, pri, Min(pri, s.hint), Frames(s), Oldest(s));
    if s.pri < pri { YieldWaits(AtPri(s, pri).(hint := Min(pri, s.hint)), t, i); }
  }

  lemma LeaveWaits(s: Exec, t: Thread, i: Level)
    requires Inv(s) && s.cur.Some? && Frames(s) != [] && s.pri == HIGHPRI && H(s, t) == Ready(i)
    ensures Waits(Leave(s), t, i)
  {
    var n := |Frames(s)| - 1;
    LevelHoused(s, Frames(s)[n], s.hint, Frames(s)[..n]);
    BackInv(s, Oldest(s));
    if s.hint < Frames(s)[n] { YieldWaits(Back(s), t, i); }
  }

  lemma SliceWaits(s: Exec, t: Thread, i: Level)
    requires Inv(s) && H(s, t) == Ready(i) && s.cur.Some? && s.pri != HIGHPRI
    ensures Waits(Slice(s), t, i)
  {
    RequeueHoused(s, Sliced);
    RequeueInv(s, Sliced, Oldest(s));
    DispatchWaits(Append(Off(s, Sliced), s.cur.value, s.pri), t, i, Oldest(s));
  }

  /** A thread on a run queue stays on it until it is served. */
  lemma ApplyWaits(s: Exec, step: Step, t: Thread, i: Level)
    requires Inv(s) && Enabled(s, step) && H(s, t) == Ready(i)
    ensures Waits(Apply(s, step), t, i)
  {
    var base := Oldest(s);
    match step
    case Suspends(reason) => OffHoused(s, Blocked(reason)); OffInv(s, Blocked(reason), base);
      DispatchWaits(Off(s, Blocked(reason)), t, i, base);
    case Sleeps(usecs) => DozeHoused(s, false, usecs); SleepInv(s, false, usecs, base);
      DispatchWaits(Doze(s, usecs), t, i, base);
    case TimedSuspends(usecs) => DozeHoused(s, true, usecs); SleepInv(s, true, usecs, base);
      DispatchWaits(Doze(Waiting(s), usecs), t, i, base);
    case Yields => YieldWaits(s, t, i);
    case Stops => OffHoused(s, Killed); OffInv(s, Killed, base); DispatchWaits(Off(s, Killed), t, i, base);
    case Resumes(u) => ResumeWaits(s, t, i, u);
    case Starts(u, pri) => StartHoused(s, u, pri);
    case SetsPri(pri) => SetPhysPriWaits(s, t, i, pri);
    case Enters => LevelHoused(s, HIGHPRI, s.hint, Frames(s) + [s.pri]);
    case Leaves => LeaveWaits(s, t, i);
    case Advances(usecs, left) => AdvanceInv(s, usecs, left, base);
    case Expires => ExpireInv(s, base);
    case Slices => SliceWaits(s, t, i);
    case Idles => DispatchWaits(s, t, i, base);
  }

  /** Thread t does not run before the last of the steps. */
  ghost predicate NotYet(s: Exec, steps: seq<Step>, t: Thread)
    requires Can(s, steps)
    decreases |steps|
  {
    steps == [] || (NotYet(s, Init(steps), t) && Run(s, Init(steps)).cur != Some(t))
  }

  lemma {:induction false} RunWaits(s: Exec, steps: seq<Step>, t: Thread, i: Level)
    requires Inv(s) && Can(s, steps) && NotYet(s, steps, t) && Waits(s, t, i)
    ensures Waits(Run(s, steps), t, i)
    decreases |steps|
  {
    if steps != [] {
      RunInv(s, Init(steps));
      RunWaits(s, Init(steps), t, i);
      ApplyWaits(Run(s, Init(steps)), Last(steps), t, i);
    }
  }

  /** At its end System leaves its thread running with nothing above it, or on the queue of its old priority. */
  lemma LeaveServes(s: Exec)
    requires Inv(s) && Enabled(s, Leaves)
    ensures Inv(Leave(s)) && Waits(Leave(s), s.cur.value, Frames(s)[|Frames(s)| - 1])
  {
    var oldpri, b, base := Frames(s)[|Frames(s)| - 1], Back(s), Oldest(s);
    BackInv(s, base);
    LeaveInv(s, base);
    InvIs(Leave(s), base);
    if s.hint < oldpri {
      RequeueHoused(b, Runnable);
      RequeueInv(b, Runnable, base);
      DispatchWaits(Append(Off(b, Runnable), s.cur.value, b.pri), s.cur.value, oldpri, base);
    }
  }

  /**
   When a thread comes back from System, whether at once or after the Yield at
   its end, it has its old priority and no thread above that is waiting.
   */
  lemma SystemReturns(s: Exec, steps: seq<Step>)
    requires Inv(s) && Enabled(s, Leaves)
    requires Can(Leave(s), steps) && NotYet(Leave(s), steps, s.cur.value)
    requires Run(Leave(s), steps).cur == s.cur
    ensures Served(Run(Leave(s), steps), s.cur.value, Frames(s)[|Frames(s)| - 1])
  {
    LeaveServes(s);
    RunInv(Leave(s), steps);
    RunWaits(Leave(s), steps, s.cur.value, Frames(s)[|Frames(s)| - 1]);
    assert H(Run(Leave(s), steps), s.cur.value) == OnCpu;
  }

  /**
   Why a function that System calls must come back at high priority: if it
   left the thread at a lower one, Dispatch may since have set the hint below
   what System goes back to, and the thread, once it yields, is passed over
   for one that is less urgent.
   */
  lemma Overlooked(s: Exec, k: Level)
    requires Inv(s) && s.cur.Some? && Frames(s) != []
    requires HIGHPRI < Frames(s)[|Frames(s)| - 1] < s.hint <= k && s.queues[k] != []
    ensures var y := Yield(Leave(s));
            && y.cur != s.cur && y.pri >= s.hint
            && s.cur.value in y.queues[Frames(s)[|Frames(s)| - 1]]
  {
    var t, oldpri := s.cur.value, Frames(s)[|Frames(s)| - 1];
    var b := Append(Off(Back(s), Runnable), t, oldpri);
    assert Leave(s) == Back(s);
    var f := First(b.queues, b.hint);
    assert b.queues[k] != [];
    assert H(s, t) == OnCpu && t !in s.queues[f];
    assert b.queues[oldpri] == s.queues[oldpri] + [t];
    assert b.queues[f][0] in s.queues[f];
  }

  /** Thread 0 runs and thread 1 waits at level 6. */
  ghost predicate Pair(s: Exec, pri: Level, hint: Level, frames: seq<Level>)
  {
    && s.cur == Some(0) && s.pri == pri && s.hint == hint && Frames(s) == frames && s.timerQ == []
    && s.queues[6] == [1] && forall i: Level :: i != 6 ==> s.queues[i] == []
  }

  lemma PairStarts(s: Exec)
    requires s == Booted(0, 10)
    ensures Pair(Start(s, 1, 6), HIGHPRI, HIGHPRI, []) && Start(s, 1, 6).clock == s.clock
  {
  }

  lemma PairLowers(s: Exec, pri: Level, hint: Level, frames: seq<Level>, to: Level)
    requires Pair(s, pri, hint, frames) && pri < to < 6 && hint <= to
    ensures Pair(SetPhysPri(s, to), to, to, frames) && SetPhysPri(s, to).clock == s.clock
  {
    var m := AtPri(s, to).(hint := Min(to, s.hint));
    var b := Append(Off(m, Runnable), 0, to);
    assert b.queues[to] == [0] && First(b.queues, b.hint) == to;
  }

  lemma PairEnters(s: Exec, pri: Level, hint: Level, frames: seq<Level>)
    requires Pair(s, pri, hint, frames)
    ensures Pair(Enter(s), HIGHPRI, hint, frames + [pri])
  {
  }

  lemma PairOverlooked(s: Exec)
    requires Inv(s) && Pair(s, 5, 5, [3])
    ensures var y := Yield(Leave(s)); y.cur == Some(1) && y.pri == 6 && 0 in y.queues[3]
  {
    Overlooked(s, 6);
    var b := Append(Off(Back(s), Runnable), 0, 3);
    assert Leave(s) == Back(s) && First(b.queues, 5) == 6;
  }

  lemma PairReached() returns (s: Exec)
    ensures Reaches(Booted(0, 10), s) && Inv(s) && Pair(s, 3, 3, []) && s.clock == 25
  {
    var s0 := Booted(0, 10);
    BootedInv(0, 10);
    ReachesSelf(s0);
    PairStarts(s0);
    var s1 := ReachesNext(s0, s0, Starts(1, 6));
    PairLowers(s1, HIGHPRI, HIGHPRI, [], 3);
    s := ReachesNext(s0, s1, SetsPri(3));
    ReachesInv(s0, s);
  }

  /** A function that SetPhysPri's its way down inside System brings that about. */
  lemma OverlookedReachable() returns (s: Exec)
    ensures Reaches(Booted(0, 10), s) && Pair(s, 5, 5, [3])
    ensures var y := Yield(Leave(s)); y.cur == Some(1) && y.pri == 6 && 0 in y.queues[3]
  {
    var s2 := PairReached();
    PairEnters(s2, 3, 3, []);
    var s3 := ReachesNext(Booted(0, 10), s2, Enters);
    PairLowers(s3, HIGHPRI, 3, [3], 5);
    s := ReachesNext(Booted(0, 10), s3, SetsPri(5));
    BootedInv(0, 10);
    ReachesInv(Booted(0, 10), s);
    PairOverlooked(s);
  }
}
