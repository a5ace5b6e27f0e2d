/** The wrapping microsecond clock of kernel/gexec.h. */
module Times {
  import opened Words

  /** `x + y` and `x - y` on 32-bit words. */
  function AddTimes(x: Word, y: Word): Word { if x + y < WORD then x + y else x + y - WORD }

  function DiffTimes(x: Word, y: Word): Word { if y <= x then x - y else x - y + WORD }

  lemma TimesWrap(x: Word, y: Word)
    ensures AddTimes(x, y) == Wrap(x + y) && DiffTimes(x, y) == Wrap(x - y)
  {
  }

  /** `((word)(y - x)) & MinInt`: is time x after time y? */
  predicate After(x: Word, y: Word) { DiffTimes(y, x) >= MIN_INT }

  /** -1, the timeout that never comes. */
  const FOREVER: Word := 0xffff_ffff

  predicate Forever(x: Word) { x == FOREVER }

  /** The test of every timeout scan. */
  predicate Expired(endtime: Word, now: Word) { !Forever(endtime) && After(now, endtime) }

  /**
   After is true time order as long as the times compared lie within 2^31
   microseconds of each other, wherever the clock wraps.
   */
  lemma AfterIsOrder(base: int, s: nat, t: nat)
    requires s < MIN_INT && t < MIN_INT
    ensures After(Wrap(base + s), Wrap(base + t)) <==> s > t
  {
  }

  /** Outside that window it is not: half the clock apart, each is after the other. */
  lemma AfterFailsHalfWay(x: Word)
    ensures var y := Wrap(x + MIN_INT); After(x, y) && After(y, x)
  {
  }
}
