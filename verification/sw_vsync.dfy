/** The software vsync: when ticks are due, and how long to sleep (hwc/sw_vsync.c).  Times are
    mathematical integers, in nanoseconds. */
module SwVsync {
  const SECOND := 1000000000

  datatype TimeSpec = TimeSpec(sec: int, nsec: int)

  function Nanoseconds(t: TimeSpec): int { t.sec * SECOND + t.nsec }

  predicate Normal(t: TimeSpec) { 0 <= t.nsec < SECOND }

  /** C truncates towards zero, but only non-negative times are converted. */
  function FromNanoseconds(n: nat): TimeSpec { TimeSpec(n / SECOND, n % SECOND) }

  function Diff(start: TimeSpec, end: TimeSpec): TimeSpec {
    if end.nsec - start.nsec < 0
    then TimeSpec(end.sec - start.sec - 1, SECOND + end.nsec - start.nsec)
    else TimeSpec(end.sec - start.sec, end.nsec - start.nsec)
  }

  /** The difference is exact, and normal again. */
  lemma DiffExact(start: TimeSpec, end: TimeSpec)
    requires Normal(start) && Normal(end)
    ensures Nanoseconds(Diff(start, end)) == Nanoseconds(end) - Nanoseconds(start) && Normal(Diff(start, end))
  {
  }

  /** The period in force: the rate as set, or 60 Hz. */
  function PeriodOf(rate: int): (p: int)
    ensures p > 0
  {
    if rate <= 0 then SECOND / 60 else rate
  }

  /** The tick that follows, if it was planned for `planned` and the clock shows `now`. */
  function NextTick(planned: int, now: int, period: int): int
    requires period > 0
  {
    if planned < now then now + (period - (now - planned) % period) else planned
  }

  predicate OnGrid(t: int, origin: int, period: int)
    requires period > 0
  {
    (t - origin) % period == 0
  }

  lemma Multiple(q: int, r: int, period: int)
    requires period > 0 && 0 <= r < period
    ensures (q * period + r) % period == r
  {
    var n := q * period + r;
    var q', r' := n / period, n % period;
    assert n == q' * period + r';
    if q' > q {
      assert (q' - q) * period == q' * period - q * period;
      AtLeastOnce(q' - q, period);
    } else if q' < q {
      assert (q - q') * period == q * period - q' * period;
      AtLeastOnce(q - q', period);
    }
  }

  lemma AtLeastOnce(k: int, period: int)
    requires k >= 1 && period > 0
    ensures k * period >= period
  {
  }

  /** A whole number of periods apart. */
  lemma GridStep(t: int, u: int, k: int, origin: int, period: int)
    requires period > 0 && OnGrid(t, origin, period) && u == t + k * period
    ensures OnGrid(u, origin, period)
  {
    var q := (t - origin) / period;
    assert t - origin == q * period;
    assert u - origin == q * period + k * period == (q + k) * period;
    Multiple(q + k, 0, period);
  }

  /** A missed tick moves to the first grid point after now; a planned one is kept. */
  lemma NextTickOnGrid(planned: int, now: int, period: int, origin: int)
    requires period > 0 && OnGrid(planned, origin, period)
    ensures var t := NextTick(planned, now, period);
            && OnGrid(t, origin, period) && t >= planned && t >= now
            && (planned >= now ==> t == planned)
            && (planned < now ==> now < t <= now + period)
            && forall u :: planned <= u < t && OnGrid(u, origin, period) ==> u <= now
  {
    if planned < now {
      var late := now - planned;
      var k := late / period;
      assert late == k * period + late % period;
      var t := NextTick(planned, now, period);
      assert (k + 1) * period == k * period + period;
      GridStep(planned, t, k + 1, origin, period);
      forall u | planned <= u < t && OnGrid(u, origin, period) ensures u <= now {
        if u > now {
          BetweenGridPoints(t - period, u, origin, period, k, planned);
        }
      }
    }
  }

  /** No grid point lies strictly between two neighbours. */
  lemma BetweenGridPoints(below: int, u: int, origin: int, period: int, k: int, planned: int)
    requires period > 0 && OnGrid(planned, origin, period)
    requires below == planned + k * period && below < u < below + period
    ensures !OnGrid(u, origin, period)
  {
    GridStep(planned, below, k, origin, period);
    var q := (below - origin) / period;
    assert below - origin == q * period;
    Multiple(q, u - below, period);
  }

  // ---------------------------------------------------------------- runs of the loop

  /** One turn of the loop: what the clock shows, and the rate then in force. */
  datatype Turn = Turn(now: nat, rate: int)

  /** The tick planned before turn `k`; it starts at 0. */
  function Planned(turns: seq<Turn>, k: nat): (p: int)
    requires k <= |turns|
    ensures p >= 0
    decreases k, 0
  {
    if k == 0 then 0 else Tick(turns, k - 1) + PeriodOf(turns[k - 1].rate)
  }

  /** The tick of turn `k`. */
  function Tick(turns: seq<Turn>, k: nat): (t: int)
    requires k < |turns|
    ensures t >= 0
    decreases k, 1
  {
    NextTickLater(Planned(turns, k), turns[k].now, PeriodOf(turns[k].rate));
    NextTick(Planned(turns, k), turns[k].now, PeriodOf(turns[k].rate))
  }

  lemma NextTickLater(planned: int, now: int, period: int)
    requires period > 0
    ensures NextTick(planned, now, period) >= planned && NextTick(planned, now, period) >= now
  {
  }

  /** Whatever the clock shows and however the rate changes, ticks are strictly increasing. */
  lemma {:induction false} TicksIncrease(turns: seq<Turn>, i: nat, k: nat)
    requires i < k < |turns|
    ensures Tick(turns, i) < Tick(turns, k)
  {
    NextTickLater(Planned(turns, k), turns[k].now, PeriodOf(turns[k].rate));
    if i < k - 1 {
      TicksIncrease(turns, i, k - 1);
    }
  }

  /** At a constant rate all ticks lie on one grid, one at least a period after the other. */
  lemma {:induction false} TicksOnGrid(turns: seq<Turn>, rate: int, k: nat)
    requires k < |turns| && forall i :: 0 <= i < |turns| ==> turns[i].rate == rate
    ensures OnGrid(Tick(turns, k), 0, PeriodOf(rate)) && OnGrid(Planned(turns, k), 0, PeriodOf(rate))
    ensures k > 0 ==> Tick(turns, k) >= Tick(turns, k - 1) + PeriodOf(rate)
  {
    if k > 0 {
      TicksOnGrid(turns, rate, k - 1);
      GridStep(Tick(turns, k - 1), Planned(turns, k), 1, 0, PeriodOf(rate));
    }
    NextTickOnGrid(Planned(turns, k), turns[k].now, PeriodOf(rate), 0);
  }

  /** As long as no tick is missed, a positive rate is the time from one tick to the next; with none set,
      sixty ticks make a second, up to a remainder of nanoseconds. */
  lemma {:induction false} TicksAtRate(turns: seq<Turn>, k: nat)
    requires 0 < k < |turns| && turns[k].now <= Planned(turns, k)
    ensures var step := Tick(turns, k) - Tick(turns, k - 1);
            if turns[k - 1].rate > 0 then step == turns[k - 1].rate else 60 * step <= SECOND < 60 * (step + 1)
  {
  }

  /** After a miss the tick is the first grid point after now. */
  lemma MissedTickIsNext(turns: seq<Turn>, rate: int, k: nat, u: int)
    requires k < |turns| && forall i :: 0 <= i < |turns| ==> turns[i].rate == rate
    requires Planned(turns, k) < turns[k].now < u && OnGrid(u, 0, PeriodOf(rate))
    ensures turns[k].now < Tick(turns, k) <= u
  {
    TicksOnGrid(turns, rate, k);
    NextTickOnGrid(Planned(turns, k), turns[k].now, PeriodOf(rate), 0);
  }

  // ---------------------------------------------------------------- the loop body

  class VsyncLoop {
    var nextFakeVsync: int

    constructor ()
      ensures nextFakeVsync == 0
    {
      nextFakeVsync := 0;
    }

    /** One turn: returns the tick to report and the time to sleep until then. */
    method Turn(tp: TimeSpec, rate: int) returns (nextVsync: int, sleep: TimeSpec)
      requires Normal(tp) && tp.sec >= 0 && nextFakeVsync >= 0
      modifies this
      ensures nextVsync == NextTick(old(nextFakeVsync), Nanoseconds(tp), PeriodOf(rate))
      ensures nextFakeVsync == nextVsync + PeriodOf(rate) && nextFakeVsync >= 0
      ensures Normal(sleep) && Nanoseconds(sleep) == nextVsync - Nanoseconds(tp) && sleep.sec >= 0
    {
      var period := rate;
      if period <= 0 {
        period := SECOND / 60;
      }
      var now := tp.sec * SECOND + tp.nsec;
      nextVsync := nextFakeVsync;
      var remaining := nextVsync - now;
      if remaining < 0 {
        remaining := period - (now - nextVsync) % period;
        nextVsync := now + remaining;
      }
      nextFakeVsync := nextVsync + period;
      NextTickLater(old(nextFakeVsync), now, period);
      var tpNext := FromNanoseconds(nextVsync);
      sleep := Diff(tp, tpNext);
      DiffExact(tp, tpNext);
    }
  }
}
