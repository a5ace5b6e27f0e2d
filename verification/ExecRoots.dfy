/** The Executive's C functions on the ExecRoot they share, proved against module Executive. */
module ExecRoots {
  import opened Words
  import opened Times
  import opened Lists
  import E = Executive
  import C = ClockHandlers

  type Thread = E.Thread
  type Level = E.Level

  class ExecRoot {
    var currentSaveArea: Option<Thread>
    var currentPri: Level
    var highestAvailPri: Level
    var timer: Word
    var sliceTime: Word
    var ticksPerSlice: Word
    var timerQ: seq<Thread>
    var queues: E.ThreadQs
    var ss: map<Thread, E.SaveState>
    // history, as in Executive.Exec
    var clock: int
    var added: E.ThreadQs
    var ran: E.ThreadQs

    ghost function State(): E.Exec
      reads this
    {
      E.Exec(queues, highestAvailPri, currentPri, currentSaveArea, timerQ, timer, sliceTime, ticksPerSlice,
             ss, clock, added, ran)
    }

    function Save(t: Thread): E.SaveState
      reads this
    {
      if t in ss then ss[t] else E.Fresh(E.HIGHPRI)
    }

    /** ExecInit. */
    constructor (t: Thread, ticks: Word)
      ensures State() == E.Booted(t, ticks)
    {
      currentPri, highestAvailPri, currentSaveArea := E.HIGHPRI, E.HIGHPRI, Some(t);
      timerQ, timer, sliceTime, ticksPerSlice := [], 25, ticks, ticks;
      ss := map[t := E.Fresh(E.HIGHPRI).(status := E.Running)];
      queues := [[], [], [], [], [], [], [], []];
      clock := 25;
      added, ran := [[], [], [], [], [], [], [], []], [[], [], [], [], [], [], [], []];
    }

    /** The current thread has just been queued, blocked or stopped. */
    method Dispatch()
      modifies this
      ensures State() == E.Dispatch(old(State()))
    {
      var i: int := highestAvailPri;
      while i < E.PRIORITYLEVELS
        invariant highestAvailPri <= i <= 8
        invariant State() == old(State())
        invariant E.First(queues, highestAvailPri) == E.First(queues, i)
      {
        if queues[i] != [] {
          var newss := queues[i][0];
          queues := queues[i := queues[i][1..]];
          currentPri := i;
          highestAvailPri := i;
          currentSaveArea := Some(newss);
          sliceTime := ticksPerSlice;
          ss := ss[newss := Save(newss).(status := E.Running, wait := E.NoWait)];
          ran := E.Put(ran, i, newss);
          return;
        }
        i := i + 1;
      }
      highestAvailPri, currentPri := E.HIGHPRI, E.HIGHPRI;
      currentSaveArea := None;
    }

    /** `q->tail = q->tail->next = ss` */
    method Append(t: Thread, i: Level)
      modifies this
      ensures State() == E.Append(old(State()), t, i)
    {
      queues := queues[i := queues[i] + [t]];
      ss := ss[t := Save(t).(wait := E.Entered(Save(t).wait))];
      added := E.Put(added, i, t);
    }

    method SetStatus(t: Thread, status: E.Status)
      modifies this`ss
      ensures ss == old(ss[t := Save(t).(status := status)])
    {
      ss := ss[t := Save(t).(status := status)];
    }

    method Suspend(reason: int)
      requires currentSaveArea.Some?
      modifies this
      ensures State() == E.Suspend(old(State()), reason)
    {
      SetStatus(currentSaveArea.value, E.Blocked(reason));
      currentSaveArea := None;
      Dispatch();
    }

    method Stop()
      requires currentSaveArea.Some?
      modifies this
      ensures State() == E.Stop(old(State()))
    {
      SetStatus(currentSaveArea.value, E.Killed);
      currentSaveArea := None;
      Dispatch();
    }

    method Yield()
      requires currentSaveArea.Some?
      modifies this
      ensures State() == E.Yield(old(State()))
    {
      if currentPri == E.HIGHPRI && queues[E.HIGHPRI] == [] {
        return;
      }
      var t := currentSaveArea.value;
      SetStatus(t, E.Runnable);
      currentSaveArea := None;
      Append(t, currentPri);
      Dispatch();
    }

    /** The walk down the timer queue: where a thread with this endtime goes. */
    method FindSlot(endtime: Word) returns (k: nat)
      ensures k == E.Slot(State(), endtime)
    {
      if timerQ == [] || After(Save(timerQ[0]).endtime, endtime) {
        k := 0;
      } else {
        k := 1;
        while k < |timerQ| && After(endtime, Save(timerQ[k]).endtime)
          invariant 1 <= k <= |timerQ|
          invariant E.Later(State(), endtime, 1) == E.Later(State(), endtime, k)
        {
          k := k + 1;
        }
      }
    }

    /** Onto the timer queue. */
    method Doze(usecs: Word)
      requires currentSaveArea.Some?
      modifies this
      ensures State() == E.Doze(old(State()), usecs)
    {
      var t := currentSaveArea.value;
      var endtime := AddTimes(timer, usecs);
      var k := FindSlot(endtime);
      var status := if Save(t).status == E.TimedWait then E.TimedWait else E.Asleep;
      timerQ := Insert(timerQ, k, t);
      ss := ss[t := Save(t).(status := status, endtime := endtime, wake := clock + usecs)];
      currentSaveArea := None;
    }

    method Sleep(usecs: Word)
      requires currentSaveArea.Some?
      modifies this
      ensures State() == E.Sleep(old(State()), usecs)
    {
      Doze(usecs);
      Dispatch();
    }

    method TimedSuspend(usecs: Word)
      requires currentSaveArea.Some?
      modifies this
      ensures State() == E.TimedSuspend(old(State()), usecs)
    {
      var t := currentSaveArea.value;
      ss := ss[t := Save(t).(status := E.TimedWait, timedWaitUtil := false, wait := E.Wait(0))];
      Sleep(usecs);
    }

    /** Unlink t from the timer queue if it is there. */
    method Unlink(t: Thread) returns (found: bool)
      modifies this`timerQ
      ensures found == (t in old(timerQ)) && timerQ == E.Without(old(timerQ), t)
    {
      var k := 0;
      while k < |timerQ| && timerQ[k] != t
        invariant 0 <= k <= |timerQ|
        invariant t !in timerQ[..k]
      {
        k := k + 1;
      }
      IndexIs(timerQ, t, k);
      found := k < |timerQ|;
      if found {
        timerQ := Cut(timerQ, k);
      }
    }

    /** The second half of Resume. */
    method MakeReady(t: Thread)
      modifies this
      ensures State() == E.MakeReady(old(State()), t)
    {
      if Save(t).status != E.Startup {
        SetStatus(t, E.Runnable);
      } else {
        SetStatus(t, E.Startup);
      }
      if Save(t).priority < highestAvailPri {
        highestAvailPri := Save(t).priority;
      }
      Append(t, Save(t).priority);
    }

    method Resume(t: Thread)
      modifies this
      ensures State() == E.Resume(old(State()), t)
    {
      if Save(t).status == E.TimedWait {
        var found := Unlink(t);
        ss := ss[t := Save(t).(status := E.Runnable, timedWaitUtil := true)];
        if !found {
          WithoutNothing(timerQ, t);
          return;
        }
      }
      MakeReady(t);
    }

    method EnterProcess(t: Thread, pri: Level)
      modifies this
      ensures State() == E.Start(old(State()), t, pri)
    {
      ss := ss[t := E.Fresh(pri)];
      Resume(t);
    }

    method SetPriority(pri: Level)
      requires currentSaveArea.Some?
      modifies this`currentPri, this`ss
      ensures State() == E.AtPri(old(State()), pri)
    {
      currentPri := pri;
      ss := ss[currentSaveArea.value := Save(currentSaveArea.value).(priority := pri)];
    }

    method SetPhysPri(pri: Level) returns (oldpri: Level)
      requires currentSaveArea.Some?
      modifies this
      ensures State() == E.SetPhysPri(old(State()), pri) && oldpri == old(currentPri)
    {
      oldpri := currentPri;
      SetPriority(pri);
      if pri < highestAvailPri {
        highestAvailPri := pri;
      }
      if oldpri < pri {
        Yield();
      }
    }

    /** System up to its call of func; oldpri is kept in the thread's frames. */
    method SystemEnter()
      requires currentSaveArea.Some?
      modifies this
      ensures State() == E.Enter(old(State()))
    {
      var t := currentSaveArea.value;
      ss := ss[t := Save(t).(frames := Save(t).frames + [currentPri])];
      SetPriority(E.HIGHPRI);
    }

    /** System after func. */
    method SystemLeave()
      requires currentSaveArea.Some? && Save(currentSaveArea.value).frames != []
      modifies this
      ensures State() == E.Leave(old(State()))
    {
      var t := currentSaveArea.value;
      var n := |Save(t).frames| - 1;
      var oldpri := Save(t).frames[n];
      ss := ss[t := Save(t).(frames := Save(t).frames[..n])];
      SetPriority(oldpri);
      if highestAvailPri < oldpri {
        Yield();
      }
    }

    /** What every handler does to wake the head of the timer queue. */
    method WakeHead()
      requires timerQ != []
      modifies this
      ensures State() == E.Expire(old(State()))
    {
      var t := timerQ[0];
      timerQ := timerQ[1..];
      if Save(t).status != E.TimedWait {
        SetStatus(t, E.Runnable);
      } else {
        SetStatus(t, E.TimedWait);
      }
      if Save(t).priority < highestAvailPri {
        highestAvailPri := Save(t).priority;
      }
      Append(t, Save(t).priority);
    }

    /** And to slice the current thread. */
    method SliceCurrent()
      requires currentSaveArea.Some?
      modifies this
      ensures State() == E.Slice(old(State()))
    {
      var t := currentSaveArea.value;
      SetStatus(t, E.Sliced);
      currentSaveArea := None;
      Append(t, Save(t).priority);
      Dispatch();
    }

    /** The loop of SliceIntrHandler in csliceintr.c. */
    method WakeDue()
      modifies this
      ensures State() == C.ExpireAll(old(State()))
    {
      while timerQ != [] && After(timer, Save(timerQ[0]).endtime)
        invariant C.ExpireAll(State()) == C.ExpireAll(old(State()))
        decreases |timerQ|
      {
        WakeHead();
      }
    }

    method SliceIntrHandler()
      modifies this
      ensures State() == C.Tick(old(State()))
    {
      ghost var s := State();
      timer := AddTimes(timer, 1000);
      clock := clock + 1000;
      assert State() == E.Advance(s, 1000, s.sliceTime);
      WakeDue();
      C.ExpireAllSliceTime(E.Advance(s, 1000, s.sliceTime), DiffTimes(s.sliceTime, 1));
      assert sliceTime == s.sliceTime;
      sliceTime := DiffTimes(sliceTime, 1);
      assert State() == C.ExpireAll(E.Advance(s, 1000, DiffTimes(s.sliceTime, 1)));
      if currentPri == E.HIGHPRI || currentSaveArea.None? {
        return;
      }
      if currentPri <= highestAvailPri && sliceTime > 0 {
        return;
      }
      SliceCurrent();
    }
  }

  lemma {:induction false} IndexIs(q: seq<Thread>, t: Thread, k: nat)
    requires k <= |q| && t !in q[..k] && (k < |q| ==> q[k] == t)
    ensures E.Index(q, t) == k
    decreases |q|
  {
    if k > 0 {
      assert q[0] == q[..k][0];
      assert q[1..][..k - 1] == q[..k][1..];
      IndexIs(q[1..], t, k - 1);
    }
  }

  lemma WithoutNothing(q: seq<Thread>, t: Thread)
    requires t !in q
    ensures E.Without(q, t) == q
  {
  }
}
