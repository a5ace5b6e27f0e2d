/** What the calls of the Executive promise the thread that makes them, over whole runs. */
module Scheduling {
  import opened Lists
  import opened Executive
  import opened Housing
  import opened ExecutiveRuns
  import opened Fairness
  import opened TimerRuns

  /** Thread u runs at the end of the steps, or has run before. */
  ghost predicate Ran(s: Exec, steps: seq<Step>, u: Thread)
    requires Can(s, steps)
    decreases |steps|
  {
    Run(s, steps).cur == Some(u) || (steps != [] && Ran(s, Init(steps), u))
  }

  // ---- giving way ----

  /** Queue i is the most urgent that has a thread. */
  ghost predicate MostUrgent(s: Exec, i: Level)
  {
    s.queues[i] != [] && forall j: Level :: j < i ==> s.queues[j] == []
  }

  /** The running thread has gone to the end of its queue, and the next thread is run. */
  predicate Passed(s: Exec, s': Exec, i: Level)
    requires s.cur.Some? && s.queues[i] != []
  {
    var q := s.queues[s.pri] + [s.cur.value];
    && s'.cur == Some(s.queues[i][0]) && s'.pri == i
    && s'.queues == if i == s.pri then s.queues[i := q[1..]] else s.queues[s.pri := q][i := s.queues[i][1..]]
  }

  ghost predicate GaveWay(s: Exec, s': Exec)
    requires s.cur.Some?
  {
    && ((forall j: Level :: j <= s.pri ==> s.queues[j] == []) ==>
          s'.cur == s.cur && s'.pri == s.pri && s'.queues == s.queues)
    && (forall i: Level :: i <= s.pri && MostUrgent(s, i) ==> Passed(s, s', i))
  }

  lemma RequeueAlone(s: Exec, status: Status)
    requires Inv(s) && s.cur.Some? && s.pri != HIGHPRI
    requires forall j: Level :: j <= s.pri ==> s.queues[j] == []
    ensures var s' := Dispatch(Append(Off(s, status), s.cur.value, s.pri));
            s'.cur == s.cur && s'.pri == s.pri && s'.queues == s.queues
  {
    var m := Append(Off(s, status), s.cur.value, s.pri);
    assert m.queues[s.pri] == [s.cur.value];
    assert forall j: Level :: j != s.pri ==> m.queues[j] == s.queues[j];
    assert First(m.queues, m.hint) == s.pri;
    assert m.queues[s.pri][1..] == s.queues[s.pri];
    assert Dispatch(m).queues == s.queues;
  }

  lemma RequeueBehind(s: Exec, status: Status, i: Level)
    requires Inv(s) && s.cur.Some? && (s.pri == HIGHPRI ==> s.queues[HIGHPRI] != [])
    requires i <= s.pri && MostUrgent(s, i)
    ensures Passed(s, Dispatch(Append(Off(s, status), s.cur.value, s.pri)), i)
  {
    var m := Append(Off(s, status), s.cur.value, s.pri);
    assert m.queues[s.pri] == s.queues[s.pri] + [s.cur.value];
    assert forall j: Level :: j != s.pri ==> m.queues[j] == s.queues[j];
    assert m.queues[i] != [] && m.queues[i][0] == s.queues[i][0];
    assert First(m.queues, m.hint) == i;
  }

  lemma RequeueGivesWay(s: Exec, status: Status)
    requires Inv(s) && s.cur.Some? && (s.pri == HIGHPRI ==> s.queues[HIGHPRI] != [])
    ensures GaveWay(s, Dispatch(Append(Off(s, status), s.cur.value, s.pri)))
  {
    if forall j: Level :: j <= s.pri ==> s.queues[j] == [] {
      RequeueAlone(s, status);
    }
    forall i: Level | i <= s.pri && MostUrgent(s, i)
      ensures Passed(s, Dispatch(Append(Off(s, status), s.cur.value, s.pri)), i)
    {
      RequeueBehind(s, status, i);
    }
  }

  /**
   Yield: if no queue up to the thread's level has a thread, it runs on;
   otherwise the head of the most urgent queue runs, and the thread is last on
   the queue of its level.
   */
  lemma YieldGivesWay(s: Exec)
    requires Inv(s) && Enabled(s, Yields)
    ensures GaveWay(s, Apply(s, Yields))
  {
    if !(s.pri == HIGHPRI && s.queues[HIGHPRI] == []) { RequeueGivesWay(s, Runnable); }
  }

  /** So does a thread that is sliced. */
  lemma SliceGivesWay(s: Exec)
    requires Inv(s) && Enabled(s, Slices)
    ensures GaveWay(s, Apply(s, Slices))
  {
    assert H(s, s.cur.value) == OnCpu;
    RequeueGivesWay(s, Sliced);
  }

  /** And a thread that comes back from System, but only if the hint tells of something more urgent. */
  lemma LeaveGivesWay(s: Exec)
    requires Inv(s) && Enabled(s, Leaves)
    ensures var s', oldpri := Apply(s, Leaves), Frames(s)[|Frames(s)| - 1];
            if s.hint < oldpri then GaveWay(Back(s), s')
            else s'.cur == s.cur && s'.pri == oldpri && s'.queues == s.queues && s'.sliceTime == s.sliceTime
  {
    BackInv(s, Oldest(s));
    InvIs(Back(s), Oldest(s));
    if s.hint < Frames(s)[|Frames(s)| - 1] { YieldGivesWay(Back(s)); }
  }

  /** Thread u is before t on a queue. */
  ghost predicate InFront(q: seq<Thread>, u: Thread, t: Thread)
  {
    exists a, b :: 0 <= a < b < |q| && q[a] == u && q[b] == t
  }

  /** One more thread has perhaps joined the queue, and the first has perhaps been run. */
  ghost predicate Moves(s: Exec, s': Exec, i: Level)
  {
    exists g: seq<Thread> {:trigger Joins(s.queues[i], g)} :: Joins(s.queues[i], g) && TakesFirst(g, s', i)
  }

  predicate Joins(q: seq<Thread>, g: seq<Thread>)
  {
    g == q || (g != [] && g == q + [g[|g| - 1]])
  }

  predicate TakesFirst(g: seq<Thread>, s': Exec, i: Level)
  {
    s'.queues[i] == g || (g != [] && s'.queues[i] == g[1..] && s'.cur == Some(g[0]))
  }

  /** Nobody overtakes. */
  lemma FrontStays(s: Exec, s': Exec, i: Level, u: Thread, t: Thread)
    requires Moves(s, s', i) && InFront(s.queues[i], u, t)
    ensures InFront(s'.queues[i], u, t) || s'.cur == Some(u)
  {
    var g :| Joins(s.queues[i], g) && TakesFirst(g, s', i);
    var a, b :| 0 <= a < b < |s.queues[i]| && s.queues[i][a] == u && s.queues[i][b] == t;
    assert g[a] == u && g[b] == t;
    if s'.queues[i] != g && a > 0 {
      assert g[1..][a - 1] == u && g[1..][b - 1] == t;
    }
  }

  lemma DispatchMoves(s: Exec, m: Exec, i: Level)
    requires Joins(s.queues[i], m.queues[i])
    ensures Moves(s, Dispatch(m), i)
  {
    var f := First(m.queues, m.hint);
    assert f < 8 && f != i ==> Dispatch(m).queues[i] == m.queues[i];
    assert TakesFirst(m.queues[i], Dispatch(m), i);
  }

  lemma AppendJoins(s: Exec, u: Thread, j: Level, i: Level)
    ensures Joins(s.queues[i], Append(s, u, j).queues[i])
  {
  }

  lemma SameMoves(s: Exec, s': Exec, i: Level)
    requires Joins(s.queues[i], s'.queues[i])
    ensures Moves(s, s', i)
  {
    assert TakesFirst(s'.queues[i], s', i);
  }

  lemma YieldMoves(s: Exec, m: Exec, i: Level)
    requires m.cur.Some? && m.queues == s.queues
    ensures Moves(s, Yield(m), i)
  {
    if m.pri == HIGHPRI && m.queues[HIGHPRI] == [] {
      SameMoves(s, m, i);
    } else {
      AppendJoins(Off(m, Runnable), m.cur.value, m.pri, i);
      DispatchMoves(s, Append(Off(m, Runnable), m.cur.value, m.pri), i);
    }
  }

  lemma ResumeMoves(s: Exec, t: Thread, i: Level)
    ensures Moves(s, Resume(s, t), i)
  {
    SameMoves(s, Resume(s, t), i);
  }

  /** Queues grow at the end and shrink at the front, for the thread that is run. */
  lemma ApplyMoves(s: Exec, step: Step, i: Level)
    requires Enabled(s, step)
    ensures Moves(s, Apply(s, step), i)
  {
    match step
    case Suspends(reason) => DispatchMoves(s, Off(s, Blocked(reason)), i);
    case Sleeps(usecs) => DispatchMoves(s, Doze(s, usecs), i);
    case TimedSuspends(usecs) => DispatchMoves(s, Doze(Waiting(s), usecs), i);
    case Yields => YieldMoves(s, s, i);
    case Stops => DispatchMoves(s, Off(s, Killed), i);
    case Resumes(t) => ResumeMoves(s, t, i);
    case Starts(t, pri) => SameMoves(s, Start(s, t, pri), i);
    case SetsPri(pri) =>
      var m := AtPri(s, pri).(hint := Min(pri, s.hint));
      if s.pri < pri { YieldMoves(s, m, i); } else { SameMoves(s, m, i); }
    case Enters => SameMoves(s, Enter(s), i);
    case Leaves => if Leave(s) == Back(s) { SameMoves(s, Back(s), i); } else { YieldMoves(s, Back(s), i); }
    case Advances(usecs, left) => SameMoves(s, Advance(s, usecs, left), i);
    case Expires => SameMoves(s, Expire(s), i);
    case Slices =>
      AppendJoins(Off(s, Sliced), s.cur.value, R(s, s.cur.value).priority, i);
      DispatchMoves(s, Append(Off(s, Sliced), s.cur.value, R(s, s.cur.value).priority), i);
    case Idles => DispatchMoves(s, s, i);
  }

  lemma {:induction false} RunFront(s: Exec, steps: seq<Step>, i: Level, u: Thread, t: Thread)
    requires Can(s, steps) && (InFront(s.queues[i], u, t) || s.cur == Some(u))
    ensures InFront(Run(s, steps).queues[i], u, t) || Ran(s, steps, u)
    decreases |steps|
  {
    if steps != [] {
      RunFront(s, Init(steps), i, u, t);
      if !Ran(s, Init(steps), u) {
        ApplyMoves(Run(s, Init(steps)), Last(steps), i);
        FrontStays(Run(s, Init(steps)), Run(s, steps), i, u, t);
      }
    }
  }

  lemma {:induction false} NotYetOrRan(s: Exec, steps: seq<Step>, u: Thread)
    requires Can(s, steps)
    ensures Ran(s, steps, u) || (NotYet(s, steps, u) && Run(s, steps).cur != Some(u))
    decreases |steps|
  {
    if steps != [] { NotYetOrRan(s, Init(steps), u); }
  }

  /** Thread t joins queue i of m, behind u, before Dispatch looks for a thread to run. */
  lemma BehindRan(m: Exec, steps: seq<Step>, i: Level, u: Thread, t: Thread)
    requires Inv(m) && m.cur.None? && H(m, t) == Ready(i) && InFront(m.queues[i], u, t)
    requires Can(Dispatch(m), steps) && Run(Dispatch(m), steps).cur == Some(t)
    ensures Ran(Dispatch(m), steps, u)
  {
    ApplyInv(m, Idles);
    ApplyMoves(m, Idles, i);
    FrontStays(m, Dispatch(m), i, u, t);
    RunFront(Dispatch(m), steps, i, u, t);
    RunInv(Dispatch(m), steps);
    assert H(Run(Dispatch(m), steps), t) == OnCpu;
  }

  /** Thread u waits at a more urgent level than t. */
  lemma AboveRan(m: Exec, steps: seq<Step>, j: Level, i: Level, u: Thread, t: Thread)
    requires Inv(m) && m.cur.None? && H(m, t) == Ready(i) && H(m, u) == Ready(j) && j < i
    requires Can(Dispatch(m), steps) && NotYet(Dispatch(m), steps, t) && Run(Dispatch(m), steps).cur == Some(t)
    ensures Ran(Dispatch(m), steps, u)
  {
    var d := Dispatch(m);
    ApplyInv(m, Idles);
    DispatchWaits(m, t, i, Oldest(m));
    DispatchWaits(m, u, j, Oldest(m));
    RunInv(d, steps);
    RunWaits(d, steps, t, i);
    assert H(Run(d, steps), t) == OnCpu;
    NotYetOrRan(d, steps, u);
    if !Ran(d, steps, u) { RunWaits(d, steps, u, j); }
  }

  /**
   Over every run, each thread that was queued at the level of a thread that
   yields, or above it, has run before that thread runs again.
   */
  lemma YieldLetsOthers(s: Exec, steps: seq<Step>, j: Level, u: Thread)
    requires Inv(s) && Enabled(s, Yields) && j <= s.pri && u in s.queues[j]
    requires Can(Apply(s, Yields), steps) && NotYet(Apply(s, Yields), steps, s.cur.value)
    requires Run(Apply(s, Yields), steps).cur == s.cur
    ensures Ran(Apply(s, Yields), steps, u)
  {
    var t, base := s.cur.value, Oldest(s);
    var m := Append(Off(s, Runnable), t, s.pri);
    assert s.hint <= j;
    RequeueHoused(s, Runnable);
    RequeueInv(s, Runnable, base);
    InvIs(m, base);
    assert H(s, u) == Ready(j) && u != t;
    if j < s.pri {
      AboveRan(m, steps, j, s.pri, u, t);
    } else {
      var a :| 0 <= a < |s.queues[j]| && s.queues[j][a] == u;
      assert m.queues[j] == s.queues[j] + [t];
      assert m.queues[j][a] == u && m.queues[j][|s.queues[j]|] == t;
      BehindRan(m, steps, j, u, t);
    }
  }
}
