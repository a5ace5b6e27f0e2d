/** What each call of the Executive leaves its thread with, whatever happens until it runs again. */
module Promises {
  import opened Lists
  import opened Executive
  import opened Housing
  import opened Schedules
  import opened ExecutiveRuns
  import opened Fairness
  import opened TimerRuns

  // ---- threads that wait for Resume, or for nothing ----

  /** Nothing but Resume touches a thread that is neither running nor queued. */
  lemma AwayStays(s: Exec, step: Step, t: Thread)
    requires Inv(s) && Enabled(s, step) && t in s.ss && H(s, t) == Nowhere && step != Resumes(t)
    ensures t in Apply(s, step).ss && Apply(s, step).ss[t] == s.ss[t]
  {
    NowhereIsAbsent(s, t);
    match step
    case Suspends(reason) => DispatchSpares(Off(s, Blocked(reason)), t);
    case Sleeps(usecs) => DispatchSpares(Doze(s, usecs), t);
    case TimedSuspends(usecs) => DispatchSpares(Doze(Waiting(s), usecs), t);
    case Yields => YieldSpares(s, t);
    case Stops => DispatchSpares(Off(s, Killed), t);
    case Resumes(u) =>
    case Starts(u, pri) =>
    case SetsPri(pri) => if s.pri < pri { YieldSpares(AtPri(s, pri).(hint := Min(pri, s.hint)), t); }
    case Enters =>
    case Leaves => if Leave(s) != Back(s) { YieldSpares(Back(s), t); }
    case Advances(_, _) =>
    case Expires =>
    case Slices => RequeueSpares(s, Sliced, R(s, s.cur.value).priority, t);
    case Idles => DispatchSpares(s, t);
  }

  lemma DispatchSpares(s: Exec, t: Thread)
    requires forall i: Level :: t !in s.queues[i]
    ensures t in s.ss ==> t in Dispatch(s).ss && Dispatch(s).ss[t] == s.ss[t]
  {
  }

  lemma RequeueSpares(s: Exec, status: Status, i: Level, t: Thread)
    requires s.cur.Some? && s.cur.value != t && forall j: Level :: t !in s.queues[j]
    ensures var s' := Dispatch(Append(Off(s, status), s.cur.value, i)); t in s.ss ==> t in s'.ss && s'.ss[t] == s.ss[t]
  {
    var m := Append(Off(s, status), s.cur.value, i);
    forall j: Level ensures t !in m.queues[j] {
      assert j != i ==> m.queues[j] == s.queues[j];
    }
    DispatchSpares(m, t);
  }

  lemma YieldSpares(s: Exec, t: Thread)
    requires s.cur.Some? && s.cur.value != t && forall j: Level :: t !in s.queues[j]
    ensures t in s.ss ==> t in Yield(s).ss && Yield(s).ss[t] == s.ss[t]
  {
    if !(s.pri == HIGHPRI && s.queues[HIGHPRI] == []) { RequeueSpares(s, Runnable, s.pri, t); }
  }

  lemma {:induction false} RunAway(s: Exec, steps: seq<Step>, t: Thread)
    requires Inv(s) && Can(s, steps) && t in s.ss && H(s, t) == Nowhere && Resumes(t) !in steps
    ensures t in Run(s, steps).ss && Run(s, steps).ss[t] == s.ss[t]
    decreases |steps|
  {
    if steps != [] {
      InSteps(steps, Resumes(t));
      RunAway(s, Init(steps), t);
      RunInv(s, Init(steps));
      AwayStays(Run(s, Init(steps)), Last(steps), t);
    }
  }

  /** On no queue, and not running. */
  ghost predicate Absent(s: Exec, t: Thread)
  {
    s.cur != Some(t) && t !in s.timerQ && forall i: Level :: t !in s.queues[i]
  }

  lemma NowhereIsAbsent(s: Exec, t: Thread)
    requires Inv(s) && H(s, t) == Nowhere
    ensures Absent(s, t)
  {
  }

  lemma RunAbsent(s: Exec, steps: seq<Step>, t: Thread)
    requires Inv(s) && Can(s, steps) && t in s.ss && H(s, t) == Nowhere && Resumes(t) !in steps
    ensures R(Run(s, steps), t).status == s.ss[t].status && Absent(Run(s, steps), t)
  {
    RunAway(s, steps, t);
    RunInv(s, steps);
    NowhereIsAbsent(Run(s, steps), t);
  }

  /** The caller has left the processor, and its save state says why. */
  lemma OffIs(s: Exec, step: Step)
    requires Inv(s) && Enabled(s, step) && (step.Suspends? || step.Stops?)
    ensures var s', t := Apply(s, step), s.cur.value;
            && t in s'.ss && H(s', t) == Nowhere && s'.ss[t].priority == s.ss[t].priority
            && s'.ss[t].status == if step.Stops? then Killed else Blocked(step.reason)
  {
    var status := if step.Stops? then Killed else Blocked(step.reason);
    assert H(s, s.cur.value) == OnCpu;
    OffHoused(s, status);
    var m := Off(s, status);
    assert H(m, s.cur.value) == Nowhere;
    DispatchSpares(m, s.cur.value);
  }

  /** A thread that suspends itself stays so, with its reason, until it is resumed. */
  lemma SuspendedUntilResumed(s: Exec, reason: int, steps: seq<Step>)
    requires Inv(s) && Enabled(s, Suspends(reason)) && Can(Apply(s, Suspends(reason)), steps)
    requires Resumes(s.cur.value) !in steps
    ensures var m, t := Run(Apply(s, Suspends(reason)), steps), s.cur.value;
            R(m, t).status == Blocked(reason) && Absent(m, t)
  {
    OffIs(s, Suspends(reason));
    ApplyInv(s, Suspends(reason));
    RunAbsent(Apply(s, Suspends(reason)), steps, s.cur.value);
  }

  lemma {:induction false} KilledStays(s: Exec, steps: seq<Step>, t: Thread)
    requires Inv(s) && Can(s, steps) && t in s.ss && s.ss[t].status == Killed
    ensures Resumes(t) !in steps
    decreases |steps|
  {
    if steps != [] {
      KilledStays(s, Init(steps), t);
      RunAway(s, Init(steps), t);
      InSteps(steps, Resumes(t));
    }
  }

  /** A thread that has stopped is never resumed and never runs again. */
  lemma StoppedForEver(s: Exec, steps: seq<Step>)
    requires Inv(s) && Enabled(s, Stops) && Can(Apply(s, Stops), steps)
    ensures Resumes(s.cur.value) !in steps
    ensures var m, t := Run(Apply(s, Stops), steps), s.cur.value;
            R(m, t).status == Killed && Absent(m, t)
  {
    OffIs(s, Stops);
    ApplyInv(s, Stops);
    KilledStays(Apply(s, Stops), steps, s.cur.value);
    RunAbsent(Apply(s, Stops), steps, s.cur.value);
  }

  // ---- threads that are made ready ----

  /** Resume puts a thread that waits at the end of the run queue of its priority, unless the clock already has. */
  lemma ResumeReadies(s: Exec, t: Thread)
    requires Inv(s) && Enabled(s, Resumes(t))
    ensures var s', i := Apply(s, Resumes(t)), s.ss[t].priority;
            && H(s', t) == Ready(i) && s'.cur == s.cur && t !in s'.timerQ
            && s'.queues == if t in s.queues[i] then s.queues else s.queues[i := s.queues[i] + [t]]
  {
    assert WaitOk(s.ss[t]);
    ApplyInv(s, Resumes(t));
    if s.ss[t].status.Blocked? {
      assert H(s, t) == Nowhere;
      WakeHoused(s, t);
    } else if t in s.timerQ {
      assert H(s, t) == Timing;
      RescueHoused(s, t);
    } else {
      assert H(s, t) != OnCpu && H(s, t) != Timing;
      ClaimHoused(s, t);
    }
  }

  /** And runs it when nothing is queued above that. */
  lemma ResumedRuns(s: Exec, t: Thread, steps: seq<Step>)
    requires Inv(s) && Enabled(s, Resumes(t)) && Can(Apply(s, Resumes(t)), steps)
    requires NotYet(Apply(s, Resumes(t)), steps, t) && Run(Apply(s, Resumes(t)), steps).cur == Some(t)
    ensures Served(Run(Apply(s, Resumes(t)), steps), t, s.ss[t].priority)
  {
    ResumeReadies(s, t);
    ApplyInv(s, Resumes(t));
    ReadyRuns(Apply(s, Resumes(t)), steps, t, s.ss[t].priority);
  }

  lemma ReadyRuns(s: Exec, steps: seq<Step>, t: Thread, i: Level)
    requires Inv(s) && Waits(s, t, i) && Can(s, steps) && NotYet(s, steps, t) && Run(s, steps).cur == Some(t)
    ensures Served(Run(s, steps), t, i)
  {
    RunWaits(s, steps, t, i);
    RunInv(s, steps);
    assert H(Run(s, steps), t) == OnCpu;
  }

  /** A new thread runs, for the first time, at the level it was started for. */
  lemma StartedRuns(s: Exec, t: Thread, pri: Level, steps: seq<Step>)
    requires Inv(s) && Enabled(s, Starts(t, pri)) && Can(Apply(s, Starts(t, pri)), steps)
    requires NotYet(Apply(s, Starts(t, pri)), steps, t) && Run(Apply(s, Starts(t, pri)), steps).cur == Some(t)
    ensures Served(Run(Apply(s, Starts(t, pri)), steps), t, pri)
  {
    StartHoused(s, t, pri);
    ApplyInv(s, Starts(t, pri));
    ReadyRuns(Apply(s, Starts(t, pri)), steps, t, pri);
  }

  // ---- priorities ----

  /**
   A thread that raises itself with SetPhysPri goes on running, at the level it
   asked for; one that lowers itself is at that level when it runs again, at
   once or after others, and then nothing is queued above it.
   */
  lemma SetPhysPriSets(s: Exec, pri: Level, steps: seq<Step>)
    requires Inv(s) && Enabled(s, SetsPri(pri)) && Can(Apply(s, SetsPri(pri)), steps)
    requires NotYet(Apply(s, SetsPri(pri)), steps, s.cur.value)
    requires Run(Apply(s, SetsPri(pri)), steps).cur == s.cur
    ensures var m := Run(Apply(s, SetsPri(pri)), steps);
            && m.pri == pri && R(m, s.cur.value).priority == pri
            && (s.pri < pri ==> Served(m, s.cur.value, pri))
            && (pri <= s.pri ==> steps == [] && m.queues == s.queues)
  {
    var t, s' := s.cur.value, Apply(s, SetsPri(pri));
    ApplyInv(s, SetsPri(pri));
    RunInv(s', steps);
    if s.pri < pri {
      var m := AtPri(s, pri).(hint := Min(pri, s.hint));
      SamePri(s, pri);
      FloorZero(Frames(s));
      LevelInv(s, pri, Min(pri, s.hint), Frames(s), Oldest(s));
      RequeueHoused(m, Runnable);
      RequeueInv(m, Runnable, Oldest(s));
      DispatchWaits(Append(Off(m, Runnable), t, pri), t, pri, Oldest(s));
      ReadyRuns(s', steps, t, pri);
    } else {
      NotYetHere(s', steps, t);
    }
  }

  /** A thread that runs has run. */
  lemma {:induction false} NotYetHere(s: Exec, steps: seq<Step>, t: Thread)
    requires Can(s, steps) && NotYet(s, steps, t) && s.cur == Some(t)
    ensures steps == []
    decreases |steps|
  {
    if steps != [] { NotYetHere(s, Init(steps), t); }
  }

  /** Whoever is given the processor has a whole time slice. */
  lemma WholeSlice(s: Exec, step: Step)
    requires Enabled(s, step) && Apply(s, step).cur.Some? && Apply(s, step).cur != s.cur
    ensures Apply(s, step).sliceTime == Apply(s, step).ticksPerSlice == s.ticksPerSlice
    ensures R(Apply(s, step), Apply(s, step).cur.value).status == Running
  {
  }

  // ---- System ----

  /** How frames change: System adds one at its beginning and takes it off at its end. */
  predicate OneFrame(f: seq<Level>, f': seq<Level>)
  {
    f' == f || (f' != [] && f'[..|f'| - 1] == f) || (f != [] && f' == f[..|f| - 1])
  }

  lemma DispatchFrames(s: Exec, m: Exec, t: Thread)
    requires t in s.ss && t in m.ss && m.ss[t].frames == s.ss[t].frames
    ensures t in Dispatch(m).ss && Dispatch(m).ss[t].frames == s.ss[t].frames
  {
  }

  /** Also when the running thread gives way. */
  lemma YieldFrames(s: Exec, t: Thread)
    requires s.cur.Some? && t in s.ss
    ensures t in Yield(s).ss && Yield(s).ss[t].frames == s.ss[t].frames
  {
    if !(s.pri == HIGHPRI && s.queues[HIGHPRI] == []) {
      DispatchFrames(s, Append(Off(s, Runnable), s.cur.value, s.pri), t);
    }
  }

  lemma LeaveFrames(s: Exec, t: Thread)
    requires s.cur.Some? && Frames(s) != [] && t in s.ss
    ensures t in Leave(s).ss && OneFrame(s.ss[t].frames, Leave(s).ss[t].frames)
    ensures s.cur != Some(t) ==> Leave(s).ss[t].frames == s.ss[t].frames
  {
    if Leave(s) != Back(s) { YieldFrames(Back(s), t); }
  }

  lemma FramesNext(s: Exec, step: Step, t: Thread)
    requires Enabled(s, step) && t in s.ss
    ensures t in Apply(s, step).ss && OneFrame(s.ss[t].frames, Apply(s, step).ss[t].frames)
    ensures s.cur != Some(t) ==> Apply(s, step).ss[t].frames == s.ss[t].frames
  {
    match step
    case Suspends(reason) => DispatchFrames(s, Off(s, Blocked(reason)), t);
    case Sleeps(usecs) => DispatchFrames(s, Doze(s, usecs), t);
    case TimedSuspends(usecs) => DispatchFrames(s, Doze(Waiting(s), usecs), t);
    case Yields => YieldFrames(s, t);
    case Stops => DispatchFrames(s, Off(s, Killed), t);
    case Resumes(u) =>
    case Starts(u, pri) =>
    case SetsPri(pri) => if s.pri < pri { YieldFrames(AtPri(s, pri).(hint := Min(pri, s.hint)), t); }
    case Enters => assert (Frames(s) + [s.pri])[..|Frames(s)|] == Frames(s);
    case Leaves => LeaveFrames(s, t);
    case Advances(_, _) =>
    case Expires =>
    case Slices => DispatchFrames(s, Append(Off(s, Sliced), s.cur.value, R(s, s.cur.value).priority), t);
    case Idles => DispatchFrames(s, s, t);
  }

  /** Thread t is inside at least n calls of System all the time. */
  ghost predicate Inside(s: Exec, steps: seq<Step>, t: Thread, n: nat)
    requires Can(s, steps)
    decreases |steps|
  {
    |R(Run(s, steps), t).frames| >= n && (steps == [] || Inside(s, Init(steps), t, n))
  }

  lemma {:induction false} FramesInside(s: Exec, steps: seq<Step>, t: Thread)
    requires Can(s, steps) && t in s.ss && Inside(s, steps, t, |R(s, t).frames|)
    ensures t in Run(s, steps).ss && R(Run(s, steps), t).frames[..|R(s, t).frames|] == R(s, t).frames
    decreases |steps|
  {
    if steps != [] {
      var m := Run(s, Init(steps));
      FramesInside(s, Init(steps), t);
      FramesNext(m, Last(steps), t);
      ShorterStill(R(s, t).frames, R(m, t).frames, R(Run(s, steps), t).frames);
    }
  }

  lemma ShorterStill(f0: seq<Level>, f: seq<Level>, f': seq<Level>)
    requires |f0| <= |f| && |f0| <= |f'| && f[..|f0|] == f0 && OneFrame(f, f')
    ensures f'[..|f0|] == f0
  {
    forall k | 0 <= k < |f0| ensures f'[k] == f0[k] {
      assert f[..|f0|][k] == f[k];
    }
  }

  /**
   System gives its caller back the priority it had, whatever the function does
   in between, further calls of System included, as long as it is back at high
   priority; and then nothing is queued above that.
   */
  lemma SystemRestores(s: Exec, func: seq<Step>, steps: seq<Step>)
    requires Inv(s) && Enabled(s, Enters) && Can(Apply(s, Enters), func)
    requires Inside(Apply(s, Enters), func, s.cur.value, |Frames(s)| + 1)
    requires var m := Run(Apply(s, Enters), func);
             && m.cur == s.cur && m.pri == HIGHPRI && |Frames(m)| == |Frames(s)| + 1 && Can(Apply(m, Leaves), steps)
             && NotYet(Apply(m, Leaves), steps, s.cur.value) && Run(Apply(m, Leaves), steps).cur == s.cur
    ensures Served(Run(Apply(Run(Apply(s, Enters), func), Leaves), steps), s.cur.value, s.pri)
  {
    var e := Apply(s, Enters);
    EnterFrames(s);
    RunInv(e, func);
    FramesInside(e, func, s.cur.value);
    ReturnsTo(s, Run(e, func), steps);
  }

  lemma EnterFrames(s: Exec)
    requires Inv(s) && Enabled(s, Enters)
    ensures var e := Apply(s, Enters);
            Inv(e) && s.cur.value in e.ss && R(e, s.cur.value).frames == Frames(s) + [s.pri]
  {
    assert H(s, s.cur.value) == OnCpu;
    ApplyInv(s, Enters);
  }

  lemma ReturnsTo(s: Exec, m: Exec, steps: seq<Step>)
    requires s.cur.Some? && Inv(m) && m.cur == s.cur && m.pri == HIGHPRI && |Frames(m)| == |Frames(s)| + 1
    requires Frames(m)[..|Frames(s)| + 1] == Frames(s) + [s.pri] && Can(Apply(m, Leaves), steps)
    requires NotYet(Apply(m, Leaves), steps, s.cur.value) && Run(Apply(m, Leaves), steps).cur == s.cur
    ensures Served(Run(Apply(m, Leaves), steps), s.cur.value, s.pri)
  {
    assert Frames(m)[..|Frames(m)|] == Frames(m);
    SystemReturns(m, steps);
  }
}
