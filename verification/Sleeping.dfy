/** How long Sleep and TimedSuspend last, in true time, from the call on. */
module Sleeping {
  import opened Lists
  import opened Times
  import opened Executive
  import opened Housing
  import opened TimerQueues
  import opened ExecutiveRuns
  import opened TimerRuns
  import opened ClockHandlers

  /** The call puts its thread on the timer queue, for the time asked. */
  lemma CallQueues(s: Exec, step: Step)
    requires Inv(s) && Enabled(s, step) && (step.Sleeps? || step.TimedSuspends?)
    ensures var s', t := Apply(s, step), s.cur.value;
            t in s'.timerQ && R(s', t).wake == s.clock + step.usecs && s'.clock == s.clock
  {
    var t, timed := s.cur.value, step.TimedSuspends?;
    var m := Doze(if timed then Waiting(s) else s, step.usecs);
    assert t in m.timerQ by {
      DozeHoused(s, timed, step.usecs);
      assert H(m, t) == Timing;
    }
    DispatchAlone(m, t);
  }

  /**
   Never early: over any run whose handler wakes only threads that are due, a
   thread that sleeps, or waits with a time-out, and is not resumed, runs again
   only after the time it asked for.
   */
  lemma SleepLasts(s: Exec, step: Step, steps: seq<Step>)
    requires Inv(s) && Enabled(s, step) && (step.Sleeps? || step.TimedSuspends?)
    requires Can(Apply(s, step), steps) && Prompt(Apply(s, step), steps) && Resumes(s.cur.value) !in steps
    requires Run(Apply(s, step), steps).cur == s.cur
    ensures Run(Apply(s, step), steps).clock > s.clock + step.usecs
  {
    var s', t := Apply(s, step), s.cur.value;
    CallQueues(s, step);
    ApplyInv(s, step);
    RunInv(s', steps);
    assert H(Run(s', steps), t) == OnCpu;
    NeverEarly(s', steps, t);
  }

  // ---- with the C handler ----

  /** One call, or one interrupt of the C handler. */
  datatype Move = Calls(step: Step) | Interrupt

  predicate MayMove(s: Exec, move: Move)
  {
    match move
    case Calls(step) => Enabled(s, step) && !step.Advances? && !step.Expires? && !step.Slices?
    case Interrupt => true
  }

  function Moved(s: Exec, move: Move): Exec
    requires MayMove(s, move)
  {
    match move
    case Calls(step) => Apply(s, step)
    case Interrupt => Tick(s)
  }

  predicate CanPlay(s: Exec, moves: seq<Move>)
    decreases |moves|, 0
  {
    moves == [] ||
    var n := |moves| - 1;
    CanPlay(s, moves[..n]) && MayMove(Play(s, moves[..n]), moves[n])
  }

  function Play(s: Exec, moves: seq<Move>): Exec
    requires CanPlay(s, moves)
    decreases |moves|, 1
  {
    if moves == [] then s else
      var n := |moves| - 1;
      Moved(Play(s, moves[..n]), moves[n])
  }

  /** Nobody is overdue. */
  ghost predicate Current(s: Exec)
  {
    Inv(s) && Oldest(s) == s.clock
  }

  lemma CallClock(s: Exec, step: Step)
    requires MayMove(s, Calls(step))
    ensures Apply(s, step).clock == s.clock
  {
  }

  lemma TickClock(s: Exec)
    requires Inv(s) && InWindow(s, s.clock + 1000)
    ensures Tick(s).clock == s.clock + 1000
  {
    var left := DiffTimes(s.sliceTime, 1);
    AdvanceInv(s, 1000, left, Oldest(s));
    ExpireAllInv(Advance(s, 1000, left), Oldest(s));
  }

  lemma MoveCurrent(s: Exec, move: Move)
    requires Current(s) && MayMove(s, move)
    ensures Current(Moved(s, move))
    ensures Moved(s, move).clock == s.clock + if move.Interrupt? then 1000 else 0
  {
    match move
    case Calls(step) =>
      ApplyConsistent(s, step, s.clock);
      InvIs(Apply(s, step), s.clock);
      OldestBase(Apply(s, step), s.clock);
      CallClock(s, step);
    case Interrupt =>
      TickInv(s);
      TickClock(s);
  }

  lemma {:induction false} PlayCurrent(s: Exec, moves: seq<Move>)
    requires Current(s) && CanPlay(s, moves)
    ensures Current(Play(s, moves))
    decreases |moves|
  {
    if moves != [] {
      var n := |moves| - 1;
      PlayCurrent(s, moves[..n]);
      MoveCurrent(Play(s, moves[..n]), moves[n]);
    }
  }

  /** A move leaves a sleeper where it is, or the clock has passed its time. */
  lemma MoveSleeps(s: Exec, move: Move, t: Thread)
    requires Current(s) && MayMove(s, move) && t in s.timerQ && move != Calls(Resumes(t)) && s.clock <= R(s, t).wake
    ensures t in Moved(s, move).timerQ <==> Moved(s, move).clock <= R(s, t).wake
    ensures t in Moved(s, move).timerQ ==> R(Moved(s, move), t).wake == R(s, t).wake
  {
    MoveCurrent(s, move);
    match move
    case Calls(step) => ApplyQueued(s, step, t);
    case Interrupt =>
      Punctual(s, t);
      if t in Tick(s).timerQ { TickWake(s, t); }
  }

  /** Thread t is on the timer queue all the time. */
  ghost predicate SleepsOn(s: Exec, moves: seq<Move>, t: Thread)
    requires CanPlay(s, moves)
    decreases |moves|
  {
    t in Play(s, moves).timerQ && (moves == [] || SleepsOn(s, moves[..|moves| - 1], t))
  }

  lemma {:induction false} PlaySleeps(s: Exec, moves: seq<Move>, t: Thread)
    requires Current(s) && CanPlay(s, moves) && t in s.timerQ && Calls(Resumes(t)) !in moves && s.clock <= R(s, t).wake
    ensures SleepsOn(s, moves, t) <==> Play(s, moves).clock <= R(s, t).wake
    ensures SleepsOn(s, moves, t) ==> R(Play(s, moves), t).wake == R(s, t).wake
    decreases |moves|
  {
    if moves != [] {
      var before, move := moves[..|moves| - 1], moves[|moves| - 1];
      assert move in moves && forall x :: x in before ==> x in moves;
      PlaySleeps(s, before, t);
      PlayCurrent(s, before);
      MoveCurrent(Play(s, before), move);
      if SleepsOn(s, before, t) { MoveSleeps(Play(s, before), move, t); }
    }
  }

  /**
   Nor late: with the C handler a thread that is not resumed is on the timer
   queue from its call of Sleep or TimedSuspend on for just as long as the clock
   has not passed the time it asked for; it leaves at the first interrupt after.
   */
  lemma SleepEnds(s: Exec, step: Step, moves: seq<Move>)
    requires Current(s) && Enabled(s, step) && (step.Sleeps? || step.TimedSuspends?)
    requires CanPlay(Apply(s, step), moves) && Calls(Resumes(s.cur.value)) !in moves
    ensures SleepsOn(Apply(s, step), moves, s.cur.value)
       <==> Play(Apply(s, step), moves).clock <= s.clock + step.usecs
  {
    CallQueues(s, step);
    MoveCurrent(s, Calls(step));
    PlaySleeps(Apply(s, step), moves, s.cur.value);
  }
}
