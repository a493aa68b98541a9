/** What both countdown variants share: the timer's two instants, the
    status thresholds, and the two ways an indicator index is derived from
    the elapsed time (saturating while the timer is good, wrapping during
    grace and overtime). Each variant supplies its own constants. */
module Countdown {
  import opened Wrappers
  import opened SwiftNumerics

  /** The three phases of a countdown. */
  datatype TimerStatus = Good | Grace | Overtime

  /** A running countdown: the instant it started and the instant it is due,
      in seconds. Neither changes once the timer exists. */
  datatype Timer = Timer(startTime: real, endTime: real)

  /** A timer started at `now` (the clock read at creation) that runs for
      `durationSeconds`. */
  function StartTimer(now: real, durationSeconds: real): (t: Timer)
    ensures t.startTime == now
    ensures t.endTime - t.startTime == durationSeconds
  {
    Timer(now, now + durationSeconds)
  }

  /** Seconds left until the end instant; negative once it has passed. */
  function Remaining(t: Timer, now: real): (r: real)
    ensures now + r == t.endTime
    ensures r > 0.0 <==> now < t.endTime
  {
    t.endTime - now
  }

  /** The status for a remaining time. Both thresholds are strict: exactly
      zero seconds left is already grace, and exactly `graceSeconds` past the
      end is already overtime. */
  function Classify(remaining: real, graceSeconds: real): (s: TimerStatus)
    ensures s == Good <==> remaining > 0.0
    ensures s == Grace <==> 0.0 >= remaining > -graceSeconds
    ensures s == Overtime <==> remaining <= 0.0 && remaining <= -graceSeconds
  {
    if remaining > 0.0 then Good
    else if remaining > -graceSeconds then Grace
    else Overtime
  }

  /** The order in which the statuses follow each other. */
  function Rank(s: TimerStatus): nat
  {
    match s
    case Good => 0
    case Grace => 1
    case Overtime => 2
  }

  /** As the clock advances, the status never returns to an earlier phase. */
  lemma StatusNeverRegresses(t: Timer, now1: real, now2: real, graceSeconds: real)
    requires 0.0 <= graceSeconds
    requires now1 <= now2
    ensures Rank(Classify(Remaining(t, now1), graceSeconds))
         <= Rank(Classify(Remaining(t, now2), graceSeconds))
  {
  }

  /** The elapsed time an indicator is computed from: the full duration less
      the remaining time rounded to whole seconds. It differs from the exact
      elapsed time `totalSeconds - remaining` by at most half a second, and
      `totalSeconds` less it is a whole number of seconds. */
  function Elapsed(totalSeconds: real, remaining: real): (r: real)
    ensures -0.5 <= (totalSeconds - remaining) - r <= 0.5
    ensures (totalSeconds - r).Floor as real == totalSeconds - r
  {
    totalSeconds - Round(remaining) as real
  }

  /** Elapsed time derived from the rounded remaining time never leaves the
      window [0, totalSeconds] while the remaining time is in
      [0, totalSeconds], and is a whole number when the duration is. */
  lemma ElapsedBounds(totalSeconds: real, remaining: real)
    requires 0.0 <= remaining <= totalSeconds
    requires totalSeconds == totalSeconds.Floor as real
    ensures 0.0 <= Elapsed(totalSeconds, remaining) <= totalSeconds
  {
    RoundMonotone(remaining, totalSeconds);
    assert Round(totalSeconds) == totalSeconds.Floor;
  }

  /** Later instants give a larger (or equal) elapsed time. */
  lemma ElapsedMonotone(totalSeconds: real, remaining1: real, remaining2: real)
    requires remaining2 <= remaining1
    ensures Elapsed(totalSeconds, remaining1) <= Elapsed(totalSeconds, remaining2)
  {
    RoundMonotone(remaining2, remaining1);
  }

  /** Index through a palette once over the whole duration: the number of
      whole periods elapsed, held at `last` once it is reached. */
  function SaturatingIndex(elapsed: real, period: real, last: int): (r: int)
    requires period > 0.0
    ensures r <= last
    ensures 0.0 <= elapsed && 0 <= last ==> 0 <= r
  {
    var phase := elapsed / period;
    var whole := Trunc(phase);
    if whole < last then whole else last
  }

  /** The saturating index never moves backwards as elapsed time grows. */
  lemma SaturatingIndexMonotone(elapsed1: real, elapsed2: real, period: real, last: int)
    requires period > 0.0
    requires elapsed1 <= elapsed2
    ensures SaturatingIndex(elapsed1, period, last) <= SaturatingIndex(elapsed2, period, last)
  {
    assert elapsed2 / period - elapsed1 / period == (elapsed2 - elapsed1) / period;
    TruncMonotone(elapsed1 / period, elapsed2 / period);
  }

  /** Index that wraps around a palette of `count` symbols: the elapsed time
      in periods, rounded, modulo `count` (Swift's remainder). */
  function CyclicIndex(elapsed: real, period: real, count: int): (r: int)
    requires period > 0.0 && count > 0
    ensures 0.0 <= elapsed ==> 0 <= r < count
  {
    var phase := elapsed / period;
    Rem(Round(phase), count)
  }

  /** The symbol at `index` of `palette`; `None` when the subscript is out of
      range, where Swift traps. */
  function Pick(palette: seq<string>, index: int): (r: Option<string>)
    ensures r.Some? <==> 0 <= index < |palette|
    ensures r.Some? ==> r.value == palette[index]
  {
    if 0 <= index < |palette| then Some(palette[index]) else None
  }
}
