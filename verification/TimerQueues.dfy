/**
 The Executive's timer queue (Sleep in kernel/gexec.c and the clock interrupt)
 is in the order of true time although the clock it compares wraps.
 */
module TimerQueues {
  import opened Words
  import opened Times
  import opened Executive
  import opened Lists

  /** A wake time within half a turn of the clock from base. */
  predicate WakeOk(r: SaveState, base: int)
  {
    base <= r.wake < base + MIN_INT && r.endtime == Wrap(r.wake)
  }

  function Wakes(s: Exec): (w: seq<int>)
    ensures |w| == |s.timerQ|
  {
    seq(|s.timerQ|, j requires 0 <= j < |s.timerQ| => R(s, s.timerQ[j]).wake)
  }

  ghost predicate Ordered(w: seq<int>)
  {
    forall j, k :: 0 <= j < k < |w| ==> w[j] <= w[k]
  }

  /** The timer queue is in order of true time, all of it within half a turn from base. */
  ghost predicate Timed(s: Exec, base: int)
  {
    && base <= s.clock < base + MIN_INT
    && s.timer == Wrap(s.clock)
    && (forall j :: 0 <= j < |s.timerQ| ==> WakeOk(R(s, s.timerQ[j]), base))
    && Ordered(Wakes(s))
  }

  lemma AfterIs(x: SaveState, y: SaveState, base: int)
    requires WakeOk(x, base) && WakeOk(y, base)
    ensures After(x.endtime, y.endtime) <==> x.wake > y.wake
  {
    AfterIsOrder(base, x.wake - base, y.wake - base);
  }

  /** What does not touch the queue or the clock keeps it in order. */
  lemma TimedFrame(s: Exec, s': Exec, base: int)
    requires Timed(s, base) && s'.timerQ == s.timerQ && s'.clock == s.clock && s'.timer == s.timer
    requires forall t :: t in s.timerQ ==> R(s', t).wake == R(s, t).wake && R(s', t).endtime == R(s, t).endtime
    ensures Timed(s', base)
  {
    assert Wakes(s') == Wakes(s);
  }

  /** A save state with the given wake-up time. */
  lemma LaterIs(s: Exec, r: SaveState, base: int, i: nat)
    requires Timed(s, base) && WakeOk(r, base) && i <= |s.timerQ|
    ensures var k := Later(s, r.endtime, i);
            && i <= k && (forall j :: i <= j < k ==> Wakes(s)[j] < r.wake)
            && (k < |s.timerQ| ==> r.wake <= Wakes(s)[k])
    decreases |s.timerQ| - i
  {
    if i < |s.timerQ| {
      AfterIs(r, R(s, s.timerQ[i]), base);
      if r.wake > Wakes(s)[i] { LaterIs(s, r, base, i + 1); }
    }
  }

  /**
   Sleep finds the one place that keeps the queue in order; among threads that
   are to wake at the same time it comes before all but the head of the queue.
   */
  lemma SlotIs(s: Exec, r: SaveState, base: int)
    requires Timed(s, base) && WakeOk(r, base)
    ensures var k := Slot(s, r.endtime);
            && (forall j :: 0 <= j < k ==> Wakes(s)[j] <= r.wake)
            && (forall j :: k <= j < |s.timerQ| ==> r.wake <= Wakes(s)[j])
            && (forall j :: 0 < j < k ==> Wakes(s)[j] < r.wake)
            && (k == 0 && s.timerQ != [] ==> r.wake < Wakes(s)[0])
  {
    if s.timerQ != [] {
      AfterIs(R(s, s.timerQ[0]), r, base);
      assert Wakes(s)[0] == R(s, s.timerQ[0]).wake;
      if !After(R(s, s.timerQ[0]).endtime, r.endtime) {
        LaterIs(s, r, base, 1);
      }
    }
  }

  lemma EndtimeWraps(clock: int, usecs: Word)
    ensures AddTimes(Wrap(clock), usecs) == Wrap(clock + usecs)
  {
    TimesWrap(Wrap(clock), usecs);
  }

  lemma OrderedInsert(w: seq<int>, k: nat, x: int)
    requires Ordered(w) && k <= |w|
    requires (forall j :: 0 <= j < k ==> w[j] <= x) && (forall j :: k <= j < |w| ==> x <= w[j])
    ensures Ordered(w[..k] + [x] + w[k..])
  {
  }

  lemma InsertTimed(s: Exec, s': Exec, k: nat, t: Thread, base: int)
    requires Timed(s, base) && k <= |s.timerQ| && s'.timerQ == Insert(s.timerQ, k, t)
    requires s'.clock == s.clock && s'.timer == s.timer
    requires forall u :: u in s.timerQ ==> R(s', u) == R(s, u)
    requires WakeOk(R(s', t), base)
    requires forall j :: 0 <= j < k ==> Wakes(s)[j] <= R(s', t).wake
    requires forall j :: k <= j < |s.timerQ| ==> R(s', t).wake <= Wakes(s)[j]
    ensures Timed(s', base)
  {
    var x := R(s', t).wake;
    OrderedInsert(Wakes(s), k, x);
    assert forall j :: 0 <= j < |s.timerQ| ==> s.timerQ[j] in s.timerQ;
    assert Wakes(s') == Wakes(s)[..k] + [x] + Wakes(s)[k..];
  }

  /** Sleep keeps the queue in order, if the new end time is within the same half turn as the others. */
  lemma DozeTimed(s: Exec, usecs: Word, base: int)
    requires Timed(s, base) && s.cur.Some? && s.cur.value !in s.timerQ && s.clock + usecs < base + MIN_INT
    ensures Timed(Doze(s, usecs), base)
  {
    var t, s' := s.cur.value, Doze(s, usecs);
    EndtimeWraps(s.clock, usecs);
    SlotIs(s, R(s', t), base);
    InsertTimed(s, s', Slot(s, R(s', t).endtime), t, base);
  }

  lemma WithoutTimed(s: Exec, s': Exec, k: nat, base: int)
    requires Timed(s, base) && k < |s.timerQ| && s'.timerQ == Cut(s.timerQ, k)
    requires s'.clock == s.clock && s'.timer == s.timer
    requires forall u :: u in s'.timerQ ==> R(s', u).wake == R(s, u).wake && R(s', u).endtime == R(s, u).endtime
    ensures Timed(s', base)
  {
    assert forall j :: 0 <= j < |s'.timerQ| ==> s'.timerQ[j] in s'.timerQ;
    assert Wakes(s') == Cut(Wakes(s), k);
  }

  /** The head is due if its time has truly passed. */
  lemma DueIs(s: Exec, base: int)
    requires Timed(s, base)
    ensures Due(s) <==> s.timerQ != [] && Wakes(s)[0] < s.clock
  {
    if s.timerQ != [] {
      AfterIsOrder(base, s.clock - base, Wakes(s)[0] - base);
    }
  }

  lemma ExpireTimed(s: Exec, base: int)
    requires Timed(s, base) && s.timerQ != [] && Distinct(s.timerQ)
    ensures Timed(Expire(s), base)
  {
    DistinctTail(s.timerQ);
    assert Cut(s.timerQ, 0) == s.timerQ[1..];
    WithoutTimed(s, Expire(s), 0, base);
  }

  lemma AdvanceTimed(s: Exec, usecs: Word, left: Word, base: int)
    requires Timed(s, base) && s.clock + usecs < base + MIN_INT
    ensures Timed(Advance(s, usecs, left), base)
  {
    EndtimeWraps(s.clock, usecs);
    assert Wakes(Advance(s, usecs, left)) == Wakes(s);
  }

  /** If the queue is in order from any base at all, it is from the earliest time in use. */
  lemma OldestBase(s: Exec, base: int)
    requires Timed(s, base)
    ensures base <= Oldest(s) && Timed(s, Oldest(s))
  {
    assert s.timerQ != [] ==> WakeOk(R(s, s.timerQ[0]), base) && Wakes(s)[0] == R(s, s.timerQ[0]).wake;
    forall j | 0 <= j < |s.timerQ| ensures WakeOk(R(s, s.timerQ[j]), Oldest(s)) {
      assert WakeOk(R(s, s.timerQ[j]), base) && Wakes(s)[j] == R(s, s.timerQ[j]).wake;
      assert j > 0 ==> Wakes(s)[0] <= Wakes(s)[j];
    }
  }

  /** The head of the queue tells whether the time of any thread on it has passed. */
  lemma DueSpeaksForAll(s: Exec, base: int)
    requires Timed(s, base)
    ensures Due(s) <==> exists j :: 0 <= j < |s.timerQ| && R(s, s.timerQ[j]).wake < s.clock
    ensures Due(s) <==> Oldest(s) < s.clock
  {
    DueIs(s, base);
    forall j | 0 <= j < |s.timerQ| ensures Wakes(s)[0] <= R(s, s.timerQ[j]).wake {
      assert Wakes(s)[j] == R(s, s.timerQ[j]).wake;
    }
  }
}
