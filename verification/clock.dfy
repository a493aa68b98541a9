/** The countdown of `Clock`, the variant the application's entry point does
    not instantiate: a 6-second
    countdown with one minute of grace, shown as a formatted time followed by
    a status symbol. It shares the status thresholds and the good and grace
    index rules with `PomoTimer`, but its good index has no `abs`, and its
    overtime index counts the remaining time down with Swift's remainder. */
module Clock {
  import opened Wrappers
  import opened SwiftNumerics
  import opened Countdown

  const TimerMins: real := 0.1
  const GraceMins: real := 1.0
  const TickSecondsGracePeriod: real := 2.0
  const TickSecondsOvertimePeriod: real := 1.0

  /** The countdown's length in seconds (6). */
  const TotalSeconds: real := TimerMins * 60.0

  /** How long grace lasts, in seconds (60). */
  const GraceSeconds: real := 60.0 * GraceMins

  const TickIndicatorsGood: seq<string> := ["🟢", "🔵", "🟣", "🟡", "🟠"]
  const TickIndicatorsGrace: seq<string> := ["⚠️", "⛔️", "🙉"]
  const TickIndicatorsBad: seq<string> := ["🔴", "⭕️", "❌", "🛑", "✋"]

  /** The timer created at launch, `now` being the clock read at that
      moment. */
  function Start(now: real): (t: Timer)
    ensures t.startTime == now && t.endTime == now + 6.0
  {
    StartTimer(now, TotalSeconds)
  }

  /** Good while time remains, grace for the first 60 seconds after the end
      instant, overtime from then on. */
  function Status(t: Timer, now: real): (s: TimerStatus)
    ensures s == Good <==> Remaining(t, now) > 0.0
    ensures s == Grace <==> 0.0 >= Remaining(t, now) > -60.0
    ensures s == Overtime <==> Remaining(t, now) <= -60.0
  {
    Classify(Remaining(t, now), GraceSeconds)
  }

  /** Index into the good palette: one step per `TotalSeconds / count`
      seconds elapsed (1.2 s for five symbols), held on the last symbol. */
  function GoodIndex(elapsed: real, count: int): (r: int)
    requires count > 0
    ensures r <= count - 1
    ensures 0.0 <= elapsed ==> 0 <= r
  {
    SaturatingIndex(elapsed, TotalSeconds / count as real, count - 1)
  }

  /** Index into the grace palette: one step per 2 seconds, wrapping. */
  function GraceIndex(elapsed: real, count: int): (r: int)
    requires count > 0
    ensures 0.0 <= elapsed ==> 0 <= r < count
  {
    CyclicIndex(elapsed, TickSecondsGracePeriod, count)
  }

  /** The overtime index as the source computes it from the rounded
      remaining time `remainS`: `count - (round(remainS / 1) % count) - 1`
      with Swift's remainder. In overtime `remainS` is negative, so the
      remainder is zero or negative and the index is `count - 1` or more,
      up to `2 * count - 2`. */
  function OvertimeIndexAsWritten(remainS: int, count: int): (r: int)
    requires count > 0
    ensures remainS <= 0 ==> count - 1 <= r <= 2 * count - 2
    ensures remainS >= 0 ==> 0 <= r < count
  {
    var tickPeriod := remainS as real / TickSecondsOvertimePeriod;
    assert Round(tickPeriod) == remainS;
    count - Rem(Round(tickPeriod), count) - 1
  }

  /** The same count-down index with a remainder that is never negative,
      so every overtime second selects a symbol of the palette. */
  function OvertimeIndex(remainS: int, count: int): (r: int)
    requires count > 0
    ensures 0 <= r < count
  {
    var tickPeriod := remainS as real / TickSecondsOvertimePeriod;
    count - Round(tickPeriod) % count - 1
  }

  /** The status symbol at `now` as the source computes it; `None` where its
      subscript is out of range and traps. */
  function TickerIndicatorAsWritten(t: Timer, now: real): (r: Option<string>)
    ensures r.Some? && Status(t, now) == Good ==> r.value in TickIndicatorsGood
    ensures r.Some? && Status(t, now) == Grace ==> r.value in TickIndicatorsGrace
    ensures r.Some? && Status(t, now) == Overtime ==> r.value in TickIndicatorsBad
  {
    var remainS := Round(Remaining(t, now));
    var elapsed := TotalSeconds - remainS as real;
    match Status(t, now)
    case Good => Pick(TickIndicatorsGood, GoodIndex(elapsed, |TickIndicatorsGood|))
    case Grace => Pick(TickIndicatorsGrace, GraceIndex(elapsed, |TickIndicatorsGrace|))
    case Overtime => Pick(TickIndicatorsBad, OvertimeIndexAsWritten(remainS, |TickIndicatorsBad|))
  }

  /** The status symbol at `now`, with the overtime index corrected. */
  function TickerIndicator(t: Timer, now: real): (r: Option<string>)
    ensures r.Some? && Status(t, now) == Good ==> r.value in TickIndicatorsGood
    ensures r.Some? && Status(t, now) == Grace ==> r.value in TickIndicatorsGrace
    ensures r.Some? && Status(t, now) == Overtime ==> r.value in TickIndicatorsBad
  {
    var remainS := Round(Remaining(t, now));
    var elapsed := TotalSeconds - remainS as real;
    match Status(t, now)
    case Good => Pick(TickIndicatorsGood, GoodIndex(elapsed, |TickIndicatorsGood|))
    case Grace => Pick(TickIndicatorsGrace, GraceIndex(elapsed, |TickIndicatorsGrace|))
    case Overtime => Pick(TickIndicatorsBad, OvertimeIndex(remainS, |TickIndicatorsBad|))
  }

  /** The label text as the source builds it: `formatted`, the remaining
      time as the date formatter renders it, followed by the indicator as
      written; `None` where that indicator traps. */
  function RemainingTimeAsString(formatted: string, t: Timer, now: real): (r: Option<string>)
    ensures r.Some? <==> TickerIndicatorAsWritten(t, now).Some?
    ensures r.Some? ==>
              |formatted| <= |r.value|
              && r.value[..|formatted|] == formatted
              && r.value[|formatted|..] == TickerIndicatorAsWritten(t, now).value
  {
    match TickerIndicatorAsWritten(t, now)
    case None => None
    case Some(symbol) => Some(formatted + symbol)
  }

  /** The label text with the corrected indicator: `formatted` followed by
      the symbol, defined from the start instant on. */
  function RemainingTimeAsStringCorrected(formatted: string, t: Timer, now: real): (r: Option<string>)
    ensures r.Some? <==> TickerIndicator(t, now).Some?
    ensures r.Some? ==>
              |formatted| <= |r.value|
              && r.value[..|formatted|] == formatted
              && r.value[|formatted|..] == TickerIndicator(t, now).value
  {
    match TickerIndicator(t, now)
    case None => None
    case Some(symbol) => Some(formatted + symbol)
  }

  // ---------------------------------------------------------------------
  // Good and grace indices

  /** The good index is a valid subscript exactly when the elapsed time is
      above -1.2 seconds; there is no `abs`, so a clock read more than a
      second before the start instant would trap. */
  lemma GoodIndexInRangeIff(elapsed: real)
    ensures 0 <= GoodIndex(elapsed, 5) <= 4 <==> elapsed > -1.2
  {
  }

  /** From the start instant on, while the status is good, the elapsed time
      is between 0 and 6 seconds and the good index lies on the palette. */
  lemma GoodIndexInRange(t: Timer, now: real)
    requires t.endTime == t.startTime + TotalSeconds
    requires t.startTime <= now
    requires Status(t, now) == Good
    ensures 0.0 <= Elapsed(TotalSeconds, Remaining(t, now)) <= 6.0
    ensures 0 <= GoodIndex(Elapsed(TotalSeconds, Remaining(t, now)), 5) <= 4
  {
    ElapsedBounds(TotalSeconds, Remaining(t, now));
  }

  /** The good index reaches the last symbol at 4.8 seconds elapsed and
      stays there. */
  lemma GoodIndexSaturates(elapsed: real)
    requires elapsed >= 4.8
    ensures GoodIndex(elapsed, 5) == 4
  {
  }

  /** The good index never decreases as the clock advances. */
  lemma GoodIndexNonDecreasing(now1: real, now2: real, t: Timer)
    requires now1 <= now2
    ensures GoodIndex(Elapsed(TotalSeconds, Remaining(t, now1)), 5)
         <= GoodIndex(Elapsed(TotalSeconds, Remaining(t, now2)), 5)
  {
    var e1 := Elapsed(TotalSeconds, Remaining(t, now1));
    var e2 := Elapsed(TotalSeconds, Remaining(t, now2));
    ElapsedMonotone(TotalSeconds, Remaining(t, now1), Remaining(t, now2));
    SaturatingIndexMonotone(e1, e2, TotalSeconds / 5.0, 4);
  }

  /** During grace the elapsed time is between 6 and 66 seconds, so the
      grace index lies on the three-symbol palette. */
  lemma GraceIndexInRange(t: Timer, now: real)
    requires Status(t, now) == Grace
    ensures 6.0 <= Elapsed(TotalSeconds, Remaining(t, now)) <= 66.0
    ensures 0 <= GraceIndex(Elapsed(TotalSeconds, Remaining(t, now)), 3) < 3
  {
  }

  /** The grace index repeats every 6 seconds of elapsed time. */
  lemma GraceIndexPeriodic(elapsed: real)
    requires 0.0 <= elapsed
    ensures GraceIndex(elapsed + 6.0, 3) == GraceIndex(elapsed, 3)
  {
    assert (elapsed + 6.0) / 2.0 == elapsed / 2.0 + 3 as real;
    RoundShift(elapsed / 2.0, 3);
  }

  // ---------------------------------------------------------------------
  // The overtime index: as written, and corrected

  /** In overtime (rounded remaining time at most -60) the index as written
      is between 4 and 8, and it is a valid subscript of the five-symbol
      palette only when the rounded remaining time is a multiple of 5
      (tested on its magnitude, so the remainder is taken of a non-negative
      number). */
  lemma OvertimeIndexAsWrittenRange(remainS: int)
    requires remainS <= -60
    ensures 4 <= OvertimeIndexAsWritten(remainS, 5) <= 8
    ensures OvertimeIndexAsWritten(remainS, 5) < 5 <==> (-remainS) % 5 == 0
  {
    var m := (-remainS) % 5;
    assert Round(remainS as real / 1.0) == remainS;
    assert Rem(remainS, 5) == -m;
    assert OvertimeIndexAsWritten(remainS, 5) == 4 + m;
  }

  /** 61 seconds after the end instant the source's overtime subscript is 5,
      one past the end of the palette: the indicator, and with it the label,
      traps. */
  lemma OvertimeTrapsAsWritten(t: Timer, formatted: string)
    ensures Status(t, t.endTime + 61.0) == Overtime
    ensures OvertimeIndexAsWritten(Round(Remaining(t, t.endTime + 61.0)), 5) == 5
    ensures TickerIndicatorAsWritten(t, t.endTime + 61.0) == None
    ensures RemainingTimeAsString(formatted, t, t.endTime + 61.0) == None
  {
    assert Round(Remaining(t, t.endTime + 61.0)) == -61;
    assert Round(-61 as real / 1.0) == -61;
  }

  /** Four of every five overtime seconds trap as written: 1 to 4 seconds
      after each 5-second step of overtime, that is 61 to 64 seconds, plus
      any multiple of 5 seconds, after the end instant. */
  lemma OvertimeTrapsAsWrittenEveryCycle(t: Timer, n: nat, k: nat)
    requires 1 <= k <= 4
    ensures TickerIndicatorAsWritten(t, t.endTime + 60.0 + (5 * n + k) as real) == None
  {
    var now := t.endTime + 60.0 + (5 * n + k) as real;
    var remainS := -60 - (5 * n + k);
    assert Round(Remaining(t, now)) == remainS;
    OvertimeIndexAsWrittenRange(remainS);
  }

  /** The corrected overtime index repeats every 5 seconds. */
  lemma OvertimeIndexPeriodic(remainS: int)
    ensures OvertimeIndex(remainS - 5, 5) == OvertimeIndex(remainS, 5)
  {
    assert Round((remainS - 5) as real / 1.0) == remainS - 5;
    assert Round(remainS as real / 1.0) == remainS;
  }

  /** With the correction each overtime symbol is shown: symbol `k` at
      `61 + k` seconds past the end instant. That the corrected indicator
      never traps from the start instant on is `IndicatorDefined`. */
  lemma OvertimeShowsEverySymbol(t: Timer, k: nat)
    requires k < 5
    ensures Status(t, t.endTime + 61.0 + k as real) == Overtime
    ensures TickerIndicator(t, t.endTime + 61.0 + k as real) == Some(TickIndicatorsBad[k])
  {
    var now := t.endTime + 61.0 + k as real;
    assert Round(Remaining(t, now)) == -61 - k;
    assert Round((-61 - k) as real / 1.0) == -61 - k;
  }

  /** From the start instant on, the corrected indicator and the corrected
      label never trap. */
  lemma IndicatorDefined(t: Timer, now: real, formatted: string)
    requires t.endTime == t.startTime + TotalSeconds
    requires t.startTime <= now
    ensures TickerIndicator(t, now).Some?
    ensures RemainingTimeAsStringCorrected(formatted, t, now).Some?
  {
    match Status(t, now)
    case Good => GoodIndexInRange(t, now);
    case Grace => GraceIndexInRange(t, now);
    case Overtime =>
  }
}
