/**
 The Executive of kernel/gslice.c and kernel/gexec.c: run queues by priority,
 a hint at the most urgent of them, and a timer queue.  Each call from a
 kernel procedure is one step on the value Exec.  A clock interrupt is any
 number of steps: the clock moves on, heads of the timer queue are woken, and
 the running thread may be sliced.

 Four parts of an Exec are history that the kernel does not keep: `clock` and
 `wake` are times that never wrap, `added` and `ran` list every thread ever put
 on a run queue or taken off it to run, and `wait` counts how often a thread in
 TimedSuspend was put on a run queue.  `frames` are the `oldpri` variables of
 the System calls a thread is inside.
 */
module Executive {
  import opened Lists
  import opened Words
  import opened Times

  type Thread = nat

  const PRIORITYLEVELS := 8
  const HIGHPRI: Level := 0

  type Level = i: int | 0 <= i < 8

  type ThreadQs = q: seq<seq<Thread>> | |q| == 8 witness [[], [], [], [], [], [], [], []]

  /** SaveState.status; Blocked stands for the codes from THREAD_SEMAPHORE on. */
  datatype Status = Startup | Sliced | Runnable | Running | Killed | Asleep | TimedWait | Blocked(reason: int)

  /** How often a thread in TimedSuspend was put on a run queue. */
  datatype Wait = NoWait | Wait(entries: nat)

  datatype SaveState = SaveState(priority: Level, status: Status, timedWaitUtil: bool, endtime: Word,
                                 frames: seq<Level>, wake: int, wait: Wait)

  datatype Exec = Exec(queues: ThreadQs, hint: Level, pri: Level, cur: Option<Thread>,
                       timerQ: seq<Thread>, timer: Word, sliceTime: Word, ticksPerSlice: Word,
                       ss: map<Thread, SaveState>,
                       clock: int, added: ThreadQs, ran: ThreadQs)

  function Fresh(pri: Level): SaveState
  {
    SaveState(pri, Startup, false, 0, [], 0, NoWait)
  }

  /** The save state of t. */
  function R(s: Exec, t: Thread): SaveState
  {
    if t in s.ss then s.ss[t] else Fresh(HIGHPRI)
  }

  /** ExecInit, and the save area kernel/kstart.c gives the first thread. */
  function Booted(t: Thread, ticks: Word): Exec
  {
    var none: ThreadQs := [[], [], [], [], [], [], [], []];
    Exec(none, HIGHPRI, HIGHPRI, Some(t), [], 25, ticks, ticks,
         map[t := Fresh(HIGHPRI).(status := Running)], 25, none, none)
  }

  function Put(q: ThreadQs, i: Level, t: Thread): ThreadQs
  {
    q[i := q[i] + [t]]
  }

  /** The first queue from i on that is not empty. */
  function First(q: ThreadQs, i: nat): (f: nat)
    requires i <= 8
    ensures i <= f <= 8
    ensures forall k :: i <= k < f ==> q[k] == []
    ensures f < 8 ==> q[f] != []
    decreases 8 - i
  {
    if i == 8 || q[i] != [] then i else First(q, i + 1)
  }

  // ---- the parts of a step ----

  /** The current thread leaves the processor. */
  function Off(s: Exec, status: Status): Exec
    requires s.cur.Some?
  {
    var t := s.cur.value;
    s.(cur := None, ss := s.ss[t := R(s, t).(status := status)])
  }

  function Entered(w: Wait): Wait
  {
    match w
    case NoWait => NoWait
    case Wait(n) => Wait(n + 1)
  }

  /** `q->tail = q->tail->next = ss` on queue i. */
  function Append(s: Exec, t: Thread, i: Level): Exec
  {
    s.(queues := Put(s.queues, i, t), added := Put(s.added, i, t),
       ss := s.ss[t := R(s, t).(wait := Entered(R(s, t).wait))])
  }

  function Min(a: Level, b: Level): Level { if a < b then a else b }

  /**
   The processor is free: run the head of the first queue that is not empty,
   looking from the hint on, or else idle with every queue to look at.
   */
  function Dispatch(s: Exec): Exec
  {
    var i := First(s.queues, s.hint);
    if i < 8 then
      var t := s.queues[i][0];
      s.(queues := s.queues[i := s.queues[i][1..]], ran := Put(s.ran, i, t),
         pri := i, hint := i, cur := Some(t), sliceTime := s.ticksPerSlice,
         ss := s.ss[t := R(s, t).(status := Running, wait := NoWait)])
    else
      s.(pri := HIGHPRI, hint := HIGHPRI, cur := None)
  }

  // ---- the calls ----

  function Suspend(s: Exec, reason: int): Exec
    requires s.cur.Some?
  {
    Dispatch(Off(s, Blocked(reason)))
  }

  function Stop(s: Exec): Exec
    requires s.cur.Some?
  {
    Dispatch(Off(s, Killed))
  }

  function Yield(s: Exec): Exec
    requires s.cur.Some?
  {
    if s.pri == HIGHPRI && s.queues[HIGHPRI] == [] then s
    else Dispatch(Append(Off(s, Runnable), s.cur.value, s.pri))
  }

  /** Sleep's walk down the timer queue from position i. */
  function Later(s: Exec, endtime: Word, i: nat): (k: nat)
    requires i <= |s.timerQ|
    ensures i <= k <= |s.timerQ|
    decreases |s.timerQ| - i
  {
    if i < |s.timerQ| && After(endtime, R(s, s.timerQ[i]).endtime) then Later(s, endtime, i + 1) else i
  }

  /** Where Sleep puts a thread that is to wake at endtime. */
  function Slot(s: Exec, endtime: Word): (k: nat)
    ensures k <= |s.timerQ|
  {
    if s.timerQ == [] || After(R(s, s.timerQ[0]).endtime, endtime) then 0 else Later(s, endtime, 1)
  }

  /** The current thread goes to the timer queue for usecs. */
  function Doze(s: Exec, usecs: Word): Exec
    requires s.cur.Some?
  {
    var t := s.cur.value;
    var endtime := AddTimes(s.timer, usecs);
    var status := if R(s, t).status == TimedWait then TimedWait else Asleep;
    s.(cur := None, timerQ := Insert(s.timerQ, Slot(s, endtime), t),
       ss := s.ss[t := R(s, t).(status := status, endtime := endtime, wake := s.clock + usecs)])
  }

  function Sleep(s: Exec, usecs: Word): Exec
    requires s.cur.Some?
  {
    Dispatch(Doze(s, usecs))
  }

  /** TimedSuspend up to its call of Sleep. */
  function Waiting(s: Exec): Exec
    requires s.cur.Some?
  {
    var t := s.cur.value;
    s.(ss := s.ss[t := R(s, t).(status := TimedWait, timedWaitUtil := false, wait := Wait(0))])
  }

  function TimedSuspend(s: Exec, usecs: Word): Exec
    requires s.cur.Some?
  {
    Sleep(Waiting(s), usecs)
  }

  function Index(q: seq<Thread>, t: Thread): (k: nat)
    ensures k <= |q|
    ensures k < |q| ==> q[k] == t
    ensures k == |q| ==> t !in q
  {
    if q == [] || q[0] == t then 0 else 1 + Index(q[1..], t)
  }

  function Without(q: seq<Thread>, t: Thread): seq<Thread>
  {
    var k := Index(q, t);
    if k < |q| then Cut(q, k) else q
  }

  /** The TimedSuspend part of Resume: off the timer queue, to return TRUE. */
  function Claim(s: Exec, t: Thread): Exec
  {
    s.(timerQ := Without(s.timerQ, t),
       ss := s.ss[t := R(s, t).(status := Runnable, timedWaitUtil := true)])
  }

  /** The rest of Resume: to the end of the run queue. */
  function MakeReady(s: Exec, t: Thread): Exec
  {
    var r := R(s, t);
    var status := if r.status == Startup then Startup else Runnable;
    Append(s.(ss := s.ss[t := r.(status := status)], hint := Min(r.priority, s.hint)), t, r.priority)
  }

  /** Resume, and IntrResume, which does the same. */
  function Resume(s: Exec, t: Thread): Exec
  {
    if R(s, t).status != TimedWait then MakeReady(s, t)
    else if t !in s.timerQ then Claim(s, t)
    else MakeReady(Claim(s, t), t)
  }

  /** EnterProcess. */
  function Start(s: Exec, t: Thread, pri: Level): Exec
  {
    Resume(s.(ss := s.ss[t := Fresh(pri)]), t)
  }

  function AtPri(s: Exec, pri: Level): Exec
    requires s.cur.Some?
  {
    var t := s.cur.value;
    s.(pri := pri, ss := s.ss[t := R(s, t).(priority := pri)])
  }

  function SetPhysPri(s: Exec, pri: Level): Exec
    requires s.cur.Some?
  {
    var s' := AtPri(s, pri).(hint := Min(pri, s.hint));
    if s.pri < pri then Yield(s') else s'
  }

  function Frames(s: Exec): seq<Level>
    requires s.cur.Some?
  {
    R(s, s.cur.value).frames
  }

  function WithFrames(s: Exec, frames: seq<Level>): Exec
    requires s.cur.Some?
  {
    var t := s.cur.value;
    s.(ss := s.ss[t := R(s, t).(frames := frames)])
  }

  /** System up to the call of func. */
  function Enter(s: Exec): Exec
    requires s.cur.Some?
  {
    AtPri(WithFrames(s, Frames(s) + [s.pri]), HIGHPRI)
  }

  /** System when func has returned. */
  function Leave(s: Exec): Exec
    requires s.cur.Some? && Frames(s) != []
  {
    var n := |Frames(s)| - 1;
    var oldpri := Frames(s)[n];
    var s' := AtPri(WithFrames(s, Frames(s)[..n]), oldpri);
    if s'.hint < oldpri then Yield(s') else s'
  }

  // ---- the clock interrupt ----

  /** The clock moves on by usecs, and the handler leaves SliceTime at left. */
  function Advance(s: Exec, usecs: Word, left: Word): Exec
  {
    s.(timer := AddTimes(s.timer, usecs), clock := s.clock + usecs, sliceTime := left)
  }

  /** The head of the timer queue goes to its run queue. */
  function Expire(s: Exec): Exec
    requires s.timerQ != []
  {
    var t := s.timerQ[0];
    var r := R(s, t);
    var status := if r.status == TimedWait then TimedWait else Runnable;
    Append(s.(timerQ := s.timerQ[1..], ss := s.ss[t := r.(status := status)], hint := Min(r.priority, s.hint)),
           t, r.priority)
  }

  /** The current thread goes to the end of its run queue. */
  function Slice(s: Exec): Exec
    requires s.cur.Some?
  {
    Dispatch(Append(Off(s, Sliced), s.cur.value, R(s, s.cur.value).priority))
  }

  /** Is the head of the timer queue past its time? */
  predicate Due(s: Exec)
  {
    s.timerQ != [] && After(s.timer, R(s, s.timerQ[0]).endtime)
  }

  /** The earliest of the present and all wake-up times. */
  function Oldest(s: Exec): (base: int)
    ensures base <= s.clock
  {
    if s.timerQ != [] && R(s, s.timerQ[0]).wake < s.clock then R(s, s.timerQ[0]).wake else s.clock
  }

  /** Time `at` is within half a turn of the clock of all the times in use. */
  predicate InWindow(s: Exec, at: int)
  {
    at < Oldest(s) + MIN_INT
  }

  // ---- runs ----

  datatype Step =
    | Suspends(reason: int)
    | Sleeps(usecs: Word)
    | TimedSuspends(usecs: Word)
    | Yields
    | Stops
    | Resumes(t: Thread)
    | Starts(t: Thread, pri: Level)
    | SetsPri(pri: Level)
    | Enters
    | Leaves
    | Advances(usecs: Word, left: Word)
    | Expires
    | Slices
    | Idles

  /**
   What the kernel's own code keeps to: Resume is for a thread that waits, a
   System function comes back at high priority, and a thread at high priority
   is not sliced.  All times in use stay within 2^31 microseconds of each other:
   nobody sleeps for longer, and no thread is left overdue for as long.
   When a clock interrupt expires the head of the timer queue, and when it
   slices, is left to the handler.
   */
  predicate Enabled(s: Exec, step: Step)
  {
    match step
    case Sleeps(usecs) => s.cur.Some? && InWindow(s, s.clock + usecs)
    case TimedSuspends(usecs) => s.cur.Some? && InWindow(s, s.clock + usecs)
    case Resumes(t) => t in s.ss && (s.ss[t].status.Blocked? || s.ss[t].status == TimedWait)
    case Starts(t, _) => t !in s.ss
    case Leaves => s.cur.Some? && Frames(s) != [] && s.pri == HIGHPRI
    case Advances(usecs, _) => InWindow(s, s.clock + usecs)
    case Expires => s.timerQ != []
    case Slices => s.cur.Some? && s.pri != HIGHPRI
    case Idles => s.cur.None?
    case _ => s.cur.Some?
  }

  function Apply(s: Exec, step: Step): Exec
    requires Enabled(s, step)
  {
    match step
    case Suspends(reason) => Suspend(s, reason)
    case Sleeps(usecs) => Sleep(s, usecs)
    case TimedSuspends(usecs) => TimedSuspend(s, usecs)
    case Yields => Yield(s)
    case Stops => Stop(s)
    case Resumes(t) => Resume(s, t)
    case Starts(t, pri) => Start(s, t, pri)
    case SetsPri(pri) => SetPhysPri(s, pri)
    case Enters => Enter(s)
    case Leaves => Leave(s)
    case Advances(usecs, left) => Advance(s, usecs, left)
    case Expires => Expire(s)
    case Slices => Slice(s)
    case Idles => Dispatch(s)
  }

  predicate Can(s: Exec, steps: seq<Step>)
    decreases |steps|, 0
  {
    steps == [] || (Can(s, Init(steps)) && Enabled(Run(s, Init(steps)), Last(steps)))
  }

  function Init(steps: seq<Step>): seq<Step>
    requires steps != []
  {
    steps[..|steps| - 1]
  }

  function Last(steps: seq<Step>): Step
    requires steps != []
  {
    steps[|steps| - 1]
  }

  function Run(s: Exec, steps: seq<Step>): Exec
    requires Can(s, steps)
    decreases |steps|, 1
  {
    if steps == [] then s else Apply(Run(s, Init(steps)), Last(steps))
  }
}
