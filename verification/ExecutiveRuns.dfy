/** What every reachable state of the Executive satisfies. */
module ExecutiveRuns {
  import opened Words
  import opened Executive
  import opened Lists
  import opened Housing
  import opened Schedules
  import opened TimerQueues

  ghost predicate Consistent(s: Exec, base: int)
  {
    Housed(s) && Unique(s) && Kept(s) && Timed(s, base)
  }

  /** All of it, with the timer queue in order from some base. */
  ghost predicate Inv(s: Exec)
  {
    Consistent(s, Oldest(s))
  }

  lemma InvIs(s: Exec, base: int)
    requires Consistent(s, base)
    ensures Inv(s)
  {
    OldestBase(s, base);
  }

  lemma BootedInv(t: Thread, ticks: Word)
    ensures Inv(Booted(t, ticks))
  {
  }

  /** Lists other than the timer queue do not disturb it. */
  lemma CurTimed(s: Exec, s': Exec, base: int)
    requires Timed(s, base) && s'.timerQ == s.timerQ && s'.clock == s.clock && s'.timer == s.timer
    requires forall t :: t in s.timerQ ==> R(s', t) == R(s, t)
    ensures Timed(s', base)
  {
    TimedFrame(s, s', base);
  }

  lemma OffInv(s: Exec, status: Status, base: int)
    requires Consistent(s, base) && s.cur.Some? && (status.Blocked? || status.Killed?)
    ensures Consistent(Off(s, status), base)
  {
    assert H(s, s.cur.value) == OnCpu;
    OffHoused(s, status);
    OffKept(s, status);
    CurTimed(s, Off(s, status), base);
  }

  lemma RequeueInv(s: Exec, status: Status, base: int)
    requires Consistent(s, base) && s.cur.Some? && (status.Runnable? || status.Sliced?)
    requires s.pri == HIGHPRI ==> s.queues[HIGHPRI] != []
    ensures Consistent(Append(Off(s, status), s.cur.value, s.pri), base)
  {
    assert H(s, s.cur.value) == OnCpu;
    RequeueHoused(s, status);
    RequeueKept(s, status);
    CurTimed(s, Append(Off(s, status), s.cur.value, s.pri), base);
  }

  lemma DispatchInv(s: Exec, base: int)
    requires Consistent(s, base) && s.cur.None?
    ensures Consistent(Dispatch(s), base)
  {
    var i := First(s.queues, s.hint);
    DispatchHoused(s);
    if i < 8 {
      assert s.queues[i][0] in s.queues[i];
      assert H(s, s.queues[i][0]) == Ready(i);
    }
    DispatchKept(s);
    CurTimed(s, Dispatch(s), base);
  }

  lemma SleepTimed(s: Exec, timed: bool, usecs: Word, base: int)
    requires Timed(s, base) && s.cur.Some? && s.cur.value !in s.timerQ && s.clock + usecs < base + MIN_INT
    ensures Timed(Doze(if timed then Waiting(s) else s, usecs), base)
  {
    var s0 := if timed then Waiting(s) else s;
    CurTimed(s, s0, base);
    DozeTimed(s0, usecs, base);
  }

  lemma SleepInv(s: Exec, timed: bool, usecs: Word, base: int)
    requires Consistent(s, base) && s.cur.Some? && s.clock + usecs < base + MIN_INT
    ensures Consistent(Doze(if timed then Waiting(s) else s, usecs), base)
  {
    assert H(s, s.cur.value) == OnCpu;
    DozeHoused(s, timed, usecs);
    DozeKept(s, timed, usecs);
    SleepTimed(s, timed, usecs, base);
  }

  lemma YieldInv(s: Exec, base: int)
    requires Consistent(s, base) && s.cur.Some?
    ensures Consistent(Yield(s), base)
  {
    if !(s.pri == HIGHPRI && s.queues[HIGHPRI] == []) {
      RequeueInv(s, Runnable, base);
      DispatchInv(Append(Off(s, Runnable), s.cur.value, s.pri), base);
    }
  }

  lemma WakeInv(s: Exec, t: Thread, base: int)
    requires Consistent(s, base) && t in s.ss && s.ss[t].status.Blocked?
    ensures Consistent(MakeReady(s, t), base)
  {
    assert H(s, t) == Nowhere;
    WakeHoused(s, t);
    WakeKept(s, t);
    CurTimed(s, MakeReady(s, t), base);
  }

  lemma ClaimInv(s: Exec, t: Thread, base: int)
    requires Consistent(s, base) && t in s.ss && s.ss[t].status == TimedWait && t !in s.timerQ
    ensures Consistent(Claim(s, t), base)
  {
    assert H(s, t) != OnCpu && H(s, t) != Timing;
    ClaimHoused(s, t);
    ClaimKept(s, t);
    ClaimTimed(s, t, base);
  }

  lemma ClaimTimed(s: Exec, t: Thread, base: int)
    requires Timed(s, base) && t !in s.timerQ
    ensures Timed(Claim(s, t), base)
  {
    CurTimed(s, Claim(s, t), base);
  }

  lemma RescueTimed(s: Exec, t: Thread, base: int)
    requires Timed(s, base) && t in s.timerQ && Distinct(s.timerQ)
    ensures Timed(MakeReady(Claim(s, t), t), base)
  {
    DistinctWithout(s.timerQ, t);
    WithoutTimed(s, MakeReady(Claim(s, t), t), Index(s.timerQ, t), base);
  }

  lemma RescueInv(s: Exec, t: Thread, base: int)
    requires Consistent(s, base) && t in s.ss && s.ss[t].status == TimedWait && t in s.timerQ
    ensures Consistent(MakeReady(Claim(s, t), t), base)
  {
    assert H(s, t) == Timing;
    RescueHoused(s, t);
    RescueKept(s, t);
    RescueTimed(s, t, base);
  }

  lemma ResumeInv(s: Exec, t: Thread, base: int)
    requires Consistent(s, base) && t in s.ss && (s.ss[t].status.Blocked? || s.ss[t].status == TimedWait)
    ensures Consistent(Resume(s, t), base)
  {
    if s.ss[t].status.Blocked? {
      WakeInv(s, t, base);
    } else if t !in s.timerQ {
      ClaimInv(s, t, base);
    } else {
      RescueInv(s, t, base);
    }
  }

  lemma StartInv(s: Exec, t: Thread, pri: Level, base: int)
    requires Consistent(s, base) && t !in s.ss
    ensures Consistent(Start(s, t, pri), base)
  {
    assert H(s, t) == Nowhere;
    StartHoused(s, t, pri);
    StartKept(s, t, pri);
    CurTimed(s, Start(s, t, pri), base);
  }

  /** A change of the running thread's priority, its frames and the hint. */
  lemma LevelInv(s: Exec, pri: Level, hint: Level, frames: seq<Level>, base: int)
    requires Consistent(s, base) && s.cur.Some?
    requires hint <= s.hint
    requires if pri == HIGHPRI then FloorOk(hint, frames) else hint <= pri
    ensures Consistent(AtPri(WithFrames(s, frames), pri).(hint := hint), base)
  {
    var s' := AtPri(WithFrames(s, frames), pri).(hint := hint);
    assert H(s, s.cur.value) == OnCpu;
    LevelHoused(s, pri, hint, frames);
    CurTimed(s, s', base);
  }

  lemma SamePri(s: Exec, pri: Level)
    requires s.cur.Some? && s.cur.value in s.ss
    ensures AtPri(WithFrames(s, Frames(s)), pri) == AtPri(s, pri)
  {
  }

  lemma SetPhysPriInv(s: Exec, pri: Level, base: int)
    requires Consistent(s, base) && s.cur.Some?
    ensures Consistent(SetPhysPri(s, pri), base)
  {
    var s' := AtPri(s, pri).(hint := Min(pri, s.hint));
    assert H(s, s.cur.value) == OnCpu;
    SamePri(s, pri);
    FloorZero(Frames(s));
    LevelInv(s, pri, Min(pri, s.hint), Frames(s), base);
    if s.pri < pri { YieldInv(s', base); }
  }

  lemma EnterInv(s: Exec, base: int)
    requires Consistent(s, base) && s.cur.Some?
    ensures Consistent(Enter(s), base)
  {
    var frames := Frames(s) + [s.pri];
    assert frames[..|frames| - 1] == Frames(s);
    LevelInv(s, HIGHPRI, s.hint, frames, base);
  }

  /** System just before the test that ends in Yield. */
  function Back(s: Exec): Exec
    requires s.cur.Some? && Frames(s) != []
  {
    var n := |Frames(s)| - 1;
    AtPri(WithFrames(s, Frames(s)[..n]), Frames(s)[n])
  }

  /**
   System's return is sound exactly when the hint is no lower than what System
   goes back to, which is so if func is back at high priority.
   */
  lemma BackInv(s: Exec, base: int)
    requires Consistent(s, base) && s.cur.Some? && Frames(s) != []
    ensures Consistent(Back(s), base) <==> FloorOk(s.hint, Frames(s))
    ensures s.pri == HIGHPRI ==> FloorOk(s.hint, Frames(s))
  {
    var n := |Frames(s)| - 1;
    if FloorOk(s.hint, Frames(s)) {
      LevelInv(s, Frames(s)[n], s.hint, Frames(s)[..n], base);
    }
  }

  lemma LeaveInv(s: Exec, base: int)
    requires Consistent(s, base) && s.cur.Some? && Frames(s) != [] && s.pri == HIGHPRI
    ensures Consistent(Leave(s), base)
  {
    BackInv(s, base);
    if s.hint < Frames(s)[|Frames(s)| - 1] { YieldInv(Back(s), base); }
  }

  lemma ExpireInv(s: Exec, base: int)
    requires Consistent(s, base) && s.timerQ != []
    ensures Consistent(Expire(s), base)
    ensures forall u: Thread :: H(Expire(s), u) == if u == s.timerQ[0] then Ready(R(s, u).priority) else H(s, u)
  {
    var t := s.timerQ[0];
    assert t in s.timerQ;
    assert H(s, t) == Timing;
    assert WaitOk(s.ss[t]);
    ExpireHoused(s);
    ExpireKept(s);
    ExpireTimed(s, base);
  }

  lemma AdvanceInv(s: Exec, usecs: Word, left: Word, base: int)
    requires Consistent(s, base) && s.clock + usecs < base + MIN_INT
    ensures Consistent(Advance(s, usecs, left), base)
    ensures forall u: Thread :: H(Advance(s, usecs, left), u) == H(s, u)
  {
    AdvanceTimed(s, usecs, left, base);
    forall u: Thread ensures H(Advance(s, usecs, left), u) == H(s, u) {}
  }

  lemma SliceInv(s: Exec, base: int)
    requires Consistent(s, base) && s.cur.Some? && s.pri != HIGHPRI
    ensures Consistent(Slice(s), base)
  {
    RequeueInv(s, Sliced, base);
    DispatchInv(Append(Off(s, Sliced), s.cur.value, s.pri), base);
  }

  lemma ApplyConsistent(s: Exec, step: Step, base: int)
    requires Consistent(s, base) && Enabled(s, step) && base == Oldest(s)
    ensures Consistent(Apply(s, step), base)
  {
    match step
    case Suspends(reason) => OffInv(s, Blocked(reason), base); DispatchInv(Off(s, Blocked(reason)), base);
    case Sleeps(usecs) => SleepInv(s, false, usecs, base); DispatchInv(Doze(s, usecs), base);
    case TimedSuspends(usecs) => SleepInv(s, true, usecs, base); DispatchInv(Doze(Waiting(s), usecs), base);
    case Yields => YieldInv(s, base);
    case Stops => OffInv(s, Killed, base); DispatchInv(Off(s, Killed), base);
    case Resumes(t) => ResumeInv(s, t, base);
    case Starts(t, pri) => StartInv(s, t, pri, base);
    case SetsPri(pri) => SetPhysPriInv(s, pri, base);
    case Enters => EnterInv(s, base);
    case Leaves => LeaveInv(s, base);
    case Advances(usecs, left) => AdvanceInv(s, usecs, left, base);
    case Expires => ExpireInv(s, base);
    case Slices => SliceInv(s, base);
    case Idles => DispatchInv(s, base);
  }

  lemma ApplyInv(s: Exec, step: Step)
    requires Inv(s) && Enabled(s, step)
    ensures Inv(Apply(s, step))
  {
    ApplyConsistent(s, step, Oldest(s));
    InvIs(Apply(s, step), Oldest(s));
  }

  /**
   Every state that any run of the Executive reaches, whatever the clock
   interrupt wakes and slices, and when.
   */
  lemma {:induction false} RunInv(s: Exec, steps: seq<Step>)
    requires Inv(s) && Can(s, steps)
    ensures Inv(Run(s, steps))
    decreases |steps|
  {
    if steps != [] {
      RunInv(s, Init(steps));
      ApplyInv(Run(s, Init(steps)), Last(steps));
    }
  }

  // ---- reaching a state ----

  ghost predicate Reaches(s: Exec, s': Exec)
  {
    exists steps :: Can(s, steps) && Run(s, steps) == s'
  }

  lemma ReachesSelf(s: Exec)
    ensures Reaches(s, s)
  {
    assert Can(s, []) && Run(s, []) == s;
  }

  lemma ReachesNext(s: Exec, s': Exec, step: Step) returns (next: Exec)
    requires Reaches(s, s') && Enabled(s', step)
    ensures next == Apply(s', step) && Reaches(s, next)
  {
    var steps :| Can(s, steps) && Run(s, steps) == s';
    assert Init(steps + [step]) == steps;
    next := Apply(s', step);
    assert Can(s, steps + [step]) && Run(s, steps + [step]) == next;
  }

  lemma ReachesInv(s: Exec, s': Exec)
    requires Inv(s) && Reaches(s, s')
    ensures Inv(s')
  {
    var steps :| Can(s, steps) && Run(s, steps) == s';
    RunInv(s, steps);
  }
}
