/** Where threads are: no thread of the Executive is lost or in two places. */
module Housing {
  import opened Words
  import opened Times
  import opened Executive
  import opened Lists

  datatype Place = OnCpu | Ready(level: Level) | Timing | Nowhere

  /**
   The place a save state tells: a timed waiter that is already on a run queue
   has expired, and keeps its status.
   */
  function Home(r: SaveState): Place
  {
    match r.status
    case Running => OnCpu
    case Asleep => Timing
    case TimedWait => if r.wait.Wait? && r.wait.entries > 0 then Ready(r.priority) else Timing
    case Killed => Nowhere
    case Blocked(_) => Nowhere
    case _ => Ready(r.priority)
  }

  function H(s: Exec, t: Thread): Place
  {
    if t in s.ss then Home(s.ss[t]) else Nowhere
  }

  lemma DistinctWithout(q: seq<Thread>, t: Thread)
    requires Distinct(q)
    ensures Distinct(Without(q, t)) && forall u :: u in Without(q, t) <==> u in q && u != t
  {
    if Index(q, t) < |q| {
      DistinctCut(q, Index(q, t));
    }
  }

  /** Every thread is where its save state says, and nowhere else. */
  ghost predicate Housed(s: Exec)
  {
    && (forall t: Thread, i: Level :: t in s.queues[i] <==> H(s, t) == Ready(i))
    && (forall t: Thread :: t in s.timerQ <==> H(s, t) == Timing)
    && (forall t: Thread :: s.cur == Some(t) <==> H(s, t) == OnCpu)
  }

  /** And only once. */
  ghost predicate Unique(s: Exec)
  {
    Distinct(s.timerQ) && forall i: Level :: Distinct(s.queues[i])
  }

  lemma OffHoused(s: Exec, status: Status)
    requires Housed(s) && Unique(s) && s.cur.Some? && (status.Blocked? || status.Killed?)
    ensures Housed(Off(s, status)) && Unique(Off(s, status))
    ensures forall u: Thread :: H(Off(s, status), u) == if s.cur == Some(u) then Nowhere else H(s, u)
  {
    var t, s' := s.cur.value, Off(s, status);
    assert H(s, t) == OnCpu;
    forall u: Thread ensures H(s', u) == if u == t then Nowhere else H(s, u) {}
  }

  lemma RequeueHoused(s: Exec, status: Status)
    requires Housed(s) && Unique(s) && s.cur.Some? && (status.Runnable? || status.Sliced?)
    requires R(s, s.cur.value).priority == s.pri
    ensures Housed(Append(Off(s, status), s.cur.value, s.pri))
    ensures Unique(Append(Off(s, status), s.cur.value, s.pri))
    ensures forall u: Thread :: H(Append(Off(s, status), s.cur.value, s.pri), u)
                     == if s.cur == Some(u) then Ready(s.pri) else H(s, u)
  {
    var t, s' := s.cur.value, Append(Off(s, status), s.cur.value, s.pri);
    assert H(s, t) == OnCpu;
    assert t !in s.queues[s.pri];
    DistinctAppend(s.queues[s.pri], t);
    forall u: Thread ensures H(s', u) == if u == t then Ready(s.pri) else H(s, u) {}
  }

  lemma DozeHoused(s: Exec, timed: bool, usecs: Word)
    requires Housed(s) && Unique(s) && s.cur.Some?
    ensures var s' := Doze(if timed then Waiting(s) else s, usecs); Housed(s') && Unique(s')
    ensures forall u: Thread :: H(Doze(if timed then Waiting(s) else s, usecs), u)
                             == if s.cur == Some(u) then Timing else H(s, u)
  {
    var t, s0 := s.cur.value, if timed then Waiting(s) else s;
    var s' := Doze(s0, usecs);
    assert H(s, t) == OnCpu;
    DistinctInsert(s.timerQ, Slot(s0, AddTimes(s.timer, usecs)), t);
    forall u: Thread ensures H(s', u) == if u == t then Timing else H(s, u) {}
  }

  lemma DispatchHoused(s: Exec)
    requires Housed(s) && Unique(s) && s.cur.None?
    ensures Housed(Dispatch(s)) && Unique(Dispatch(s))
    ensures forall u: Thread :: H(Dispatch(s), u) == if Dispatch(s).cur == Some(u) then OnCpu else H(s, u)
  {
    var i, s' := First(s.queues, s.hint), Dispatch(s);
    if i < 8 {
      var t := s.queues[i][0];
      assert t in s.queues[i];
      DistinctTail(s.queues[i]);
      forall u: Thread ensures H(s', u) == if u == t then OnCpu else H(s, u) {}
      assert H(s, t) == Ready(i);
      forall u: Thread, j: Level ensures u in s'.queues[j] <==> H(s', u) == Ready(j) {
        assert j != i ==> s'.queues[j] == s.queues[j];
      }
      forall u: Thread ensures s'.cur == Some(u) <==> H(s', u) == OnCpu {
        assert s.cur != Some(u);
      }
      forall j: Level ensures Distinct(s'.queues[j]) {
        assert j != i ==> s'.queues[j] == s.queues[j];
      }
      assert s'.timerQ == s.timerQ;
    } else {
      forall u: Thread ensures H(s', u) == H(s, u) {}
    }
  }

  lemma WakeHoused(s: Exec, t: Thread)
    requires Housed(s) && Unique(s) && H(s, t) == Nowhere
    requires R(s, t).status.Blocked?
    ensures Housed(MakeReady(s, t)) && Unique(MakeReady(s, t))
    ensures forall u: Thread :: H(MakeReady(s, t), u) == if u == t then Ready(R(s, t).priority) else H(s, u)
  {
    var s', i := MakeReady(s, t), R(s, t).priority;
    assert t !in s.queues[i];
    DistinctAppend(s.queues[i], t);
    forall u: Thread ensures H(s', u) == if u == t then Ready(i) else H(s, u) {}
  }

  lemma StartHoused(s: Exec, t: Thread, pri: Level)
    requires Housed(s) && Unique(s) && t !in s.ss
    ensures Housed(Start(s, t, pri)) && Unique(Start(s, t, pri))
    ensures forall u: Thread :: H(Start(s, t, pri), u) == if u == t then Ready(pri) else H(s, u)
  {
    var s' := Start(s, t, pri);
    assert H(s, t) == Nowhere && t !in s.queues[pri];
    DistinctAppend(s.queues[pri], t);
    forall u: Thread ensures H(s', u) == if u == t then Ready(pri) else H(s, u) {}
  }

  lemma ClaimHoused(s: Exec, t: Thread)
    requires Housed(s) && Unique(s) && R(s, t).status == TimedWait && t !in s.timerQ && t in s.ss
    ensures Housed(Claim(s, t)) && Unique(Claim(s, t))
    ensures forall u: Thread :: H(Claim(s, t), u) == H(s, u)
  {
    var s' := Claim(s, t);
    DistinctWithout(s.timerQ, t);
    forall u: Thread ensures H(s', u) == H(s, u) {}
  }

  lemma RescueHoused(s: Exec, t: Thread)
    requires Housed(s) && Unique(s) && R(s, t).status == TimedWait && t in s.timerQ
    ensures Housed(MakeReady(Claim(s, t), t)) && Unique(MakeReady(Claim(s, t), t))
    ensures forall u: Thread :: H(MakeReady(Claim(s, t), t), u) == if u == t then Ready(R(s, t).priority) else H(s, u)
  {
    DistinctWithout(s.timerQ, t);
    RescueFrom(s, t, MakeReady(Claim(s, t), t), Without(s.timerQ, t));
  }

  lemma RescueFrom(s: Exec, t: Thread, s': Exec, left: seq<Thread>)
    requires Housed(s) && Unique(s) && R(s, t).status == TimedWait && t in s.timerQ
    requires Distinct(left) && forall u :: u in left <==> u in s.timerQ && u != t
    requires s'.timerQ == left && s'.cur == s.cur && s'.queues == Put(s.queues, R(s, t).priority, t)
    requires s'.ss == s.ss[t := R(s', t)] && R(s', t).status == Runnable && R(s', t).priority == R(s, t).priority
    ensures Housed(s') && Unique(s')
    ensures forall u: Thread :: H(s', u) == if u == t then Ready(R(s, t).priority) else H(s, u)
  {
    var i := R(s, t).priority;
    assert H(s, t) == Timing && t !in s.queues[i];
    DistinctAppend(s.queues[i], t);
    forall u: Thread ensures H(s', u) == if u == t then Ready(i) else H(s, u) {}
  }

  lemma ExpireHoused(s: Exec)
    requires Housed(s) && Unique(s) && s.timerQ != []
    requires R(s, s.timerQ[0]).status == TimedWait ==> R(s, s.timerQ[0]).wait == Wait(0)
    ensures Housed(Expire(s)) && Unique(Expire(s))
    ensures forall u: Thread :: H(Expire(s), u) == if u == s.timerQ[0] then Ready(R(s, u).priority) else H(s, u)
  {
    var t, s' := s.timerQ[0], Expire(s);
    var i := R(s, t).priority;
    DistinctTail(s.timerQ);
    assert t in s.timerQ;
    assert H(s, t) == Timing && t !in s.queues[i];
    DistinctAppend(s.queues[i], t);
    forall u: Thread ensures H(s', u) == if u == t then Ready(i) else H(s, u) {}
  }

  lemma LevelHoused(s: Exec, pri: Level, hint: Level, frames: seq<Level>)
    requires Housed(s) && Unique(s) && s.cur.Some?
    ensures var s' := AtPri(WithFrames(s, frames), pri).(hint := hint); Housed(s') && Unique(s')
    ensures forall u: Thread :: H(AtPri(WithFrames(s, frames), pri).(hint := hint), u) == H(s, u)
  {
    var t, s' := s.cur.value, AtPri(WithFrames(s, frames), pri).(hint := hint);
    assert H(s, t) == OnCpu;
    forall u: Thread ensures H(s', u) == H(s, u) {}
  }
}
