/** What the Executive keeps besides the whereabouts of its threads. */
module Schedules {
  import opened Words
  import opened Executive
  import opened Lists
  import opened Housing

  /** The hint is at most the index of every run queue that is not empty. */
  ghost predicate HintSound(s: Exec)
  {
    forall i: Level :: i < s.hint ==> s.queues[i] == []
  }

  /** The oldpri that System calls will go back to, HIGHPRI aside, is no more urgent than the hint. */
  predicate FloorOk(hint: Level, frames: seq<Level>)
    decreases |frames|
  {
    frames == [] ||
    var n := |frames| - 1;
    if frames[n] == HIGHPRI then FloorOk(hint, frames[..n]) else hint <= frames[n]
  }

  /** The running thread has the current priority, which is HIGHPRI or at least the hint. */
  predicate CurOk(s: Exec)
  {
    s.cur.Some? ==>
      && R(s, s.cur.value).priority == s.pri
      && (if s.pri == HIGHPRI then FloorOk(s.hint, Frames(s)) else s.hint <= s.pri)
  }

  /** Threads ran in the order in which they joined their queue. */
  ghost predicate Logged(s: Exec)
  {
    forall i: Level :: s.added[i] == s.ran[i] + s.queues[i]
  }

  /** A call of TimedSuspend that has not returned. */
  predicate WaitOk(r: SaveState)
  {
    match r.status
    case TimedWait => r.wait.Wait? && r.wait.entries <= 1 && !r.timedWaitUtil
    case Runnable => r.wait.Wait? ==> r.wait == Wait(1) && r.timedWaitUtil
    case _ => r.wait.NoWait?
  }

  ghost predicate WaitsOk(s: Exec)
  {
    forall t: Thread :: t in s.ss ==> WaitOk(s.ss[t])
  }

  ghost predicate Kept(s: Exec)
  {
    HintSound(s) && CurOk(s) && Logged(s) && WaitsOk(s)
  }

  lemma {:induction false} FloorLower(hint: Level, hint': Level, frames: seq<Level>)
    requires FloorOk(hint, frames) && hint' <= hint
    ensures FloorOk(hint', frames)
    decreases |frames|
  {
    if frames != [] && frames[|frames| - 1] == HIGHPRI {
      FloorLower(hint, hint', frames[..|frames| - 1]);
    }
  }

  lemma {:induction false} FloorZero(frames: seq<Level>)
    ensures FloorOk(HIGHPRI, frames)
    decreases |frames|
  {
    if frames != [] && frames[|frames| - 1] == HIGHPRI {
      FloorZero(frames[..|frames| - 1]);
    }
  }

  lemma OffKept(s: Exec, status: Status)
    requires Kept(s) && s.cur.Some? && H(s, s.cur.value) == OnCpu && (status.Blocked? || status.Killed?)
    ensures Kept(Off(s, status))
  {
  }

  lemma RequeueKept(s: Exec, status: Status)
    requires Kept(s) && s.cur.Some? && H(s, s.cur.value) == OnCpu && (status.Runnable? || status.Sliced?)
    requires s.pri == HIGHPRI ==> s.queues[HIGHPRI] != []
    ensures Kept(Append(Off(s, status), s.cur.value, s.pri))
  {
  }

  lemma DozeKept(s: Exec, timed: bool, usecs: Word)
    requires Kept(s) && s.cur.Some? && H(s, s.cur.value) == OnCpu
    ensures Kept(Doze(if timed then Waiting(s) else s, usecs))
  {
  }

  lemma DispatchKept(s: Exec)
    requires Kept(s) && s.cur.None?
    requires var i := First(s.queues, s.hint); i < 8 ==> R(s, s.queues[i][0]).priority == i
    ensures Kept(Dispatch(s))
  {
    var i, s' := First(s.queues, s.hint), Dispatch(s);
    if i < 8 {
      var t := s.queues[i][0];
      assert s.queues[i] == [t] + s.queues[i][1..];
      forall j: Level ensures s'.added[j] == s'.ran[j] + s'.queues[j] {
        assert j != i ==> s'.queues[j] == s.queues[j] && s'.ran[j] == s.ran[j];
        assert s.added[j] == s.ran[j] + s.queues[j];
      }
      if i == HIGHPRI { FloorZero(Frames(s')); }
    }
  }

  /** A thread joins the queue of its priority, and the hint follows. */
  lemma JoinKept(s: Exec, t: Thread, r: SaveState, timerQ: seq<Thread>)
    requires Kept(s) && s.cur != Some(t)
    requires WaitOk(r.(wait := Entered(r.wait)))
    ensures Kept(Append(s.(timerQ := timerQ, ss := s.ss[t := r], hint := Min(r.priority, s.hint)), t, r.priority))
  {
    if s.cur.Some? && s.pri == HIGHPRI {
      FloorLower(s.hint, Min(r.priority, s.hint), Frames(s));
    }
  }

  lemma WakeKept(s: Exec, t: Thread)
    requires Kept(s) && s.cur != Some(t)
    requires t in s.ss && s.ss[t].status.Blocked?
    ensures Kept(MakeReady(s, t))
  {
    JoinKept(s, t, R(s, t).(status := Runnable), s.timerQ);
  }

  lemma StartKept(s: Exec, t: Thread, pri: Level)
    requires Kept(s) && s.cur != Some(t)
    ensures Kept(Start(s, t, pri))
  {
    JoinKept(s, t, Fresh(pri), s.timerQ);
    var s0 := s.(ss := s.ss[t := Fresh(pri)]);
    assert s0.ss[t := Fresh(pri)] == s.ss[t := Fresh(pri)];
  }

  lemma ClaimKept(s: Exec, t: Thread)
    requires Kept(s) && s.cur != Some(t) && t in s.ss && s.ss[t].status == TimedWait
    requires H(s, t) != Timing
    ensures Kept(Claim(s, t))
  {
  }

  lemma RescueKept(s: Exec, t: Thread)
    requires Kept(s) && s.cur != Some(t) && t in s.ss && s.ss[t].status == TimedWait
    requires H(s, t) == Timing
    ensures Kept(MakeReady(Claim(s, t), t))
  {
    var r := R(s, t).(status := Runnable, timedWaitUtil := true);
    JoinKept(s, t, r, Without(s.timerQ, t));
    assert s.ss[t := r][t := r] == s.ss[t := r];
  }

  lemma ExpireKept(s: Exec)
    requires Kept(s) && s.timerQ != [] && s.cur != Some(s.timerQ[0]) && s.timerQ[0] in s.ss
    requires H(s, s.timerQ[0]) == Timing
    ensures Kept(Expire(s))
  {
    var t := s.timerQ[0];
    var r := R(s, t);
    JoinKept(s, t, r.(status := if r.status == TimedWait then TimedWait else Runnable), s.timerQ[1..]);
  }
}
