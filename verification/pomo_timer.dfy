/** The countdown of `InsolentPomoTimer`, the variant the application runs:
    a 40-minute pomodoro with 5 minutes of grace, shown as whole minutes
    followed by a status symbol. Every operation is a function of `now`, the
    instant the clock was read. */
module PomoTimer {
  import opened Wrappers
  import opened SwiftNumerics
  import opened Countdown
  import Decimal

  const TimerMins: real := 40.0
  const GraceMins: real := 5.0
  const TickSecondsGracePeriod: real := 4.0
  const TickSecondsOvertimePeriod: real := 1.0
  const AdjustMinsDisplayBySeconds: int := 15

  /** The countdown's length in seconds (2400). */
  const TotalSeconds: real := TimerMins * 60.0

  /** How long grace lasts, in seconds (300). */
  const GraceSeconds: real := 60.0 * GraceMins

  /** The symbol sequences for each status. */
  datatype Palettes = Palettes(good: seq<string>, grace: seq<string>, bad: seq<string>)

  const PrefixPalettes: Palettes :=
    Palettes(["🟢", "🔵", "🟣", "🟡", "🟠"], ["⚠️", "✋", "🙉"], ["🔴", "⭕️", "❌", "🛑"])

  /** The suffix sequences are all empty. */
  const SuffixPalettes: Palettes := Palettes([], [], [])

  /** The timer the application creates at launch, `now` being the clock
      read at that moment. */
  function Start(now: real): (t: Timer)
    ensures t.startTime == now && t.endTime == now + 2400.0
  {
    StartTimer(now, TotalSeconds)
  }

  /** Good while time remains, grace for the first 300 seconds after the end
      instant, overtime from then on. */
  function Status(t: Timer, now: real): (s: TimerStatus)
    ensures s == Good <==> Remaining(t, now) > 0.0
    ensures s == Grace <==> 0.0 >= Remaining(t, now) > -300.0
    ensures s == Overtime <==> Remaining(t, now) <= -300.0
  {
    Classify(Remaining(t, now), GraceSeconds)
  }

  /** Index into a good palette of `count` symbols: one step per
      `TotalSeconds / count` seconds elapsed, held on the last symbol, and
      made non-negative by `abs`. */
  function GoodIndex(elapsed: real, count: int): (r: nat)
    requires count > 0
    ensures 0.0 <= elapsed ==> r <= count - 1
  {
    Abs(SaturatingIndex(elapsed, TotalSeconds / count as real, count - 1))
  }

  /** Index into a grace palette: one step per 4 seconds, wrapping. */
  function GraceIndex(elapsed: real, count: int): (r: int)
    requires count > 0
    ensures 0.0 <= elapsed ==> 0 <= r < count
  {
    CyclicIndex(elapsed, TickSecondsGracePeriod, count)
  }

  /** Index into an overtime palette: one step per second, wrapping. */
  function OvertimeIndex(elapsed: real, count: int): (r: int)
    requires count > 0
    ensures 0.0 <= elapsed ==> 0 <= r < count
  {
    CyclicIndex(elapsed, TickSecondsOvertimePeriod, count)
  }

  /** The status symbol drawn from `p` at `now`; `None` where the source
      traps (an empty palette, which it divides by or indexes, or an index
      out of range). The status is read from the raw remaining time, the
      index from the remaining time rounded to whole seconds. */
  function TickerIndicator(p: Palettes, t: Timer, now: real): (r: Option<string>)
    ensures r.Some? && Status(t, now) == Good ==> r.value in p.good
    ensures r.Some? && Status(t, now) == Grace ==> r.value in p.grace
    ensures r.Some? && Status(t, now) == Overtime ==> r.value in p.bad
  {
    var elapsed := Elapsed(TotalSeconds, Remaining(t, now));
    match Status(t, now)
    case Good =>
      if |p.good| == 0 then None else Pick(p.good, GoodIndex(elapsed, |p.good|))
    case Grace =>
      if |p.grace| == 0 then None else Pick(p.grace, GraceIndex(elapsed, |p.grace|))
    case Overtime =>
      if |p.bad| == 0 then None else Pick(p.bad, OvertimeIndex(elapsed, |p.bad|))
  }

  /** The symbol shown in the label, drawn from the prefix palettes. */
  function TickerPrefixIndicator(t: Timer, now: real): (r: Option<string>)
    ensures r.Some? && Status(t, now) == Good ==> r.value in ["🟢", "🔵", "🟣", "🟡", "🟠"]
    ensures r.Some? && Status(t, now) == Grace ==> r.value in ["⚠️", "✋", "🙉"]
    ensures r.Some? && Status(t, now) == Overtime ==> r.value in ["🔴", "⭕️", "❌", "🛑"]
  {
    TickerIndicator(PrefixPalettes, t, now)
  }

  /** The symbol drawn from the suffix palettes. They are empty, so it traps
      at every instant; the label only ever uses the prefix indicator. */
  function TickerSuffixIndicator(t: Timer, now: real): (r: Option<string>)
    ensures r == None
  {
    TickerIndicator(SuffixPalettes, t, now)
  }

  /** The remaining time in minutes, as it was 15 seconds before `now`:
      the shown minute drops from m to m - 1 once the remaining time
      is 15 seconds below 60m, not when it reaches 60m. */
  function AdjustedRemainingMins(t: Timer, now: real): (r: real)
    ensures r * 60.0 == Remaining(t, now) + 15.0
  {
    (Remaining(t, now) + AdjustMinsDisplayBySeconds as real) / 60.0
  }

  /** The whole minutes shown: the adjusted minutes without sign or
      fraction. */
  function DisplayMinutes(t: Timer, now: real): (m: nat)
    ensures m as real * 60.0 <= AbsReal(Remaining(t, now) + 15.0) < (m + 1) as real * 60.0
  {
    AbsReal(AdjustedRemainingMins(t, now)).Floor
  }

  /** The label text: the minutes in decimal followed by the prefix
      indicator; `None` where computing the indicator traps. */
  function RemainingTimeAsString(t: Timer, now: real): (r: Option<string>)
    ensures r.Some? <==> TickerPrefixIndicator(t, now).Some?
  {
    match TickerPrefixIndicator(t, now)
    case None => None
    case Some(symbol) => Some(Decimal.FromNat(DisplayMinutes(t, now)) + symbol)
  }

  // ---------------------------------------------------------------------
  // Properties of the good-status index

  /** The good index lies on the five-symbol palette exactly when the
      elapsed time is above -2400 seconds, which holds from the start
      instant on; `abs` folds the first 2400 seconds before it back onto the
      palette. */
  lemma GoodIndexInRangeIff(elapsed: real)
    ensures 0 <= GoodIndex(elapsed, 5) <= 4 <==> elapsed > -2400.0
  {
  }

  /** The good index starts on the first symbol, advances once per 480
      seconds, and stays on the last from 1920 seconds on. */
  lemma GoodIndexSteps(elapsed: real, k: nat)
    requires k < 4 && k as real * 480.0 <= elapsed < (k + 1) as real * 480.0
    ensures GoodIndex(elapsed, 5) == k
  {
  }

  lemma GoodIndexSaturates(elapsed: real)
    requires elapsed >= 1920.0
    ensures GoodIndex(elapsed, 5) == 4
  {
  }

  /** From the start instant on, the good index never decreases as the
      clock advances. */
  lemma GoodIndexNonDecreasing(now1: real, now2: real, t: Timer)
    requires t.endTime == t.startTime + TotalSeconds
    requires t.startTime <= now1 <= now2
    ensures GoodIndex(Elapsed(TotalSeconds, Remaining(t, now1)), 5)
         <= GoodIndex(Elapsed(TotalSeconds, Remaining(t, now2)), 5)
  {
    var e1 := Elapsed(TotalSeconds, Remaining(t, now1));
    var e2 := Elapsed(TotalSeconds, Remaining(t, now2));
    ElapsedMonotone(TotalSeconds, Remaining(t, now1), Remaining(t, now2));
    RoundMonotone(Remaining(t, now1), TotalSeconds);
    assert 0.0 <= e1;
    SaturatingIndexMonotone(e1, e2, TotalSeconds / 5.0, 4);
  }

  /** In the last half second of the countdown the status is still good, but
      the rounded remaining time is already 0, so the indicator shows the
      last good symbol. */
  lemma LastHalfSecondShowsLastGoodSymbol(t: Timer, now: real)
    requires 0.0 < Remaining(t, now) < 0.5
    ensures Status(t, now) == Good
    ensures Elapsed(TotalSeconds, Remaining(t, now)) == 2400.0
    ensures TickerPrefixIndicator(t, now) == Some("🟠")
  {
  }

  // ---------------------------------------------------------------------
  // Properties of the grace and overtime indices

  /** During grace the elapsed time is between 2400 and 2700 seconds, so the
      grace index lies on the three-symbol palette. */
  lemma GraceIndexInRange(t: Timer, now: real)
    requires Status(t, now) == Grace
    ensures 2400.0 <= Elapsed(TotalSeconds, Remaining(t, now)) <= 2700.0
    ensures 0 <= GraceIndex(Elapsed(TotalSeconds, Remaining(t, now)), 3) < 3
  {
  }

  /** The grace index repeats every 12 seconds of elapsed time. */
  lemma GraceIndexPeriodic(elapsed: real)
    requires 0.0 <= elapsed
    ensures GraceIndex(elapsed + 12.0, 3) == GraceIndex(elapsed, 3)
  {
    assert (elapsed + 12.0) / 4.0 == elapsed / 4.0 + 3 as real;
    RoundShift(elapsed / 4.0, 3);
  }

  /** Each grace symbol is shown during grace: symbol `k` at `4k` seconds
      past the end instant. */
  lemma GraceShowsEverySymbol(t: Timer, k: nat)
    requires k < 3
    ensures Status(t, t.endTime + 4.0 * k as real) == Grace
    ensures TickerPrefixIndicator(t, t.endTime + 4.0 * k as real) == Some(PrefixPalettes.grace[k])
  {
    var now := t.endTime + 4.0 * k as real;
    assert Remaining(t, now) == -4.0 * k as real;
    assert Round(Remaining(t, now)) == -4 * k;
    assert Elapsed(TotalSeconds, Remaining(t, now)) == 2400.0 + 4.0 * k as real;
    assert Round((2400.0 + 4.0 * k as real) / 4.0) == 600 + k;
  }

  /** In overtime the elapsed time is at least 2700 seconds, so the overtime
      index lies on the four-symbol palette. */
  lemma OvertimeIndexInRange(t: Timer, now: real)
    requires Status(t, now) == Overtime
    ensures 2700.0 <= Elapsed(TotalSeconds, Remaining(t, now))
    ensures 0 <= OvertimeIndex(Elapsed(TotalSeconds, Remaining(t, now)), 4) < 4
  {
  }

  /** The overtime index repeats every 4 seconds of elapsed time. */
  lemma OvertimeIndexPeriodic(elapsed: real)
    requires 0.0 <= elapsed
    ensures OvertimeIndex(elapsed + 4.0, 4) == OvertimeIndex(elapsed, 4)
  {
    RoundShift(elapsed, 4);
  }

  /** Each overtime symbol is shown: symbol `k` at `300 + k` seconds past the
      end instant. */
  lemma OvertimeShowsEverySymbol(t: Timer, k: nat)
    requires k < 4
    ensures Status(t, t.endTime + 300.0 + k as real) == Overtime
    ensures TickerPrefixIndicator(t, t.endTime + 300.0 + k as real) == Some(PrefixPalettes.bad[k])
  {
    var now := t.endTime + 300.0 + k as real;
    assert Round(Remaining(t, now)) == -300 - k;
    assert Elapsed(TotalSeconds, Remaining(t, now)) == 2700.0 + k as real;
  }

  // ---------------------------------------------------------------------
  // Whole-indicator and display properties

  /** From the start instant on, the prefix indicator never traps. */
  lemma PrefixIndicatorDefined(t: Timer, now: real)
    requires t.endTime == t.startTime + TotalSeconds
    requires t.startTime <= now
    ensures TickerPrefixIndicator(t, now).Some?
  {
    var e := Elapsed(TotalSeconds, Remaining(t, now));
    RoundMonotone(Remaining(t, now), TotalSeconds);
    match Status(t, now)
    case Good => GoodIndexInRangeIff(e);
    case Grace => GraceIndexInRange(t, now);
    case Overtime => OvertimeIndexInRange(t, now);
  }

  /** The label text is a run of decimal digits (never a minus sign, even in
      overtime) that reads back as the shown minutes, followed by the
      indicator symbol. */
  lemma DisplayReadsBack(t: Timer, now: real)
    requires RemainingTimeAsString(t, now).Some?
    ensures var s := RemainingTimeAsString(t, now).value;
            var symbol := TickerPrefixIndicator(t, now).value;
            var k := |s| - |symbol|;
            0 < k
            && (forall i :: 0 <= i < k ==> Decimal.IsDigit(s[i]))
            && Decimal.ToNat(s[..k]) == DisplayMinutes(t, now)
            && s[k..] == symbol
  {
    var digits := Decimal.FromNat(DisplayMinutes(t, now));
    var s := RemainingTimeAsString(t, now).value;
    var symbol := TickerPrefixIndicator(t, now).value;
    assert s == digits + symbol;
    assert s[..|digits|] == digits;
    Decimal.FromNatRoundTrip(DisplayMinutes(t, now));
  }

  /** At launch the label reads "40" and the first good symbol. */
  lemma DisplayAtStart(start: real)
    ensures RemainingTimeAsString(Start(start), start) == Some("40🟢")
  {
    var t := Start(start);
    assert Remaining(t, start) == 2400.0;
    assert DisplayMinutes(t, start) == 40;
    assert Decimal.FromNat(40) == "40";
    assert Status(t, start) == Good;
    assert Elapsed(TotalSeconds, 2400.0) == 0.0;
    assert GoodIndex(0.0, 5) == 0;
    assert TickerPrefixIndicator(t, start) == Some("🟢");
    assert "40" + "🟢" == "40🟢";
  }
}
