/**
 * `CountdownTimer`: the time left until a promotion ends, split into days,
 * hours, minutes and seconds, refreshed once a second. The end date and the
 * clock are integer milliseconds passed in; an end date that does not parse
 * (`getTime()` is NaN) is None. The remaining time is positive whenever the
 * quantities are divided, so JavaScript's truncating `%` and `Math.floor`
 * agree with Dafny's Euclidean `%` and `/` here.
 */
module Countdown {
  import opened Text
  import opened Arith

  const MsPerSecond: nat := 1000
  const MsPerMinute: nat := 60 * 1000
  const MsPerHour: nat := 60 * 60 * 1000
  const MsPerDay: nat := 24 * 60 * 60 * 1000

  datatype TimeLeft = TimeLeft(days: nat, hours: nat, minutes: nat, seconds: nat)

  const Zero := TimeLeft(0, 0, 0, 0)

  /** The clock fields are within their ranges. */
  predicate InRange(t: TimeLeft) {
    t.hours < 24 && t.minutes < 60 && t.seconds < 60
  }

  /** The milliseconds a decomposition stands for. */
  function Millis(t: TimeLeft): nat {
    MsPerDay * t.days + MsPerHour * t.hours + MsPerMinute * t.minutes + MsPerSecond * t.seconds
  }

  /** The branch of `calculateTimeLeft` for a positive difference. */
  function Decompose(d: nat): (t: TimeLeft)
    requires d > 0
    ensures InRange(t)
    ensures Millis(t) <= d < Millis(t) + 1000
  {
    var t := TimeLeft(d / MsPerDay, (d % MsPerDay) / MsPerHour, (d % MsPerHour) / MsPerMinute, (d % MsPerMinute) / MsPerSecond);
    DecomposeBounds(d);
    t
  }

  lemma DecomposeBounds(d: nat)
    ensures (d % MsPerDay) / MsPerHour < 24
    ensures (d % MsPerHour) / MsPerMinute < 60
    ensures (d % MsPerMinute) / MsPerSecond < 60
    ensures var t := TimeLeft(d / MsPerDay, (d % MsPerDay) / MsPerHour, (d % MsPerHour) / MsPerMinute, (d % MsPerMinute) / MsPerSecond);
      Millis(t) <= d < Millis(t) + 1000
  {
    var days, r1 := d / MsPerDay, d % MsPerDay;
    var hours, r2 := r1 / MsPerHour, r1 % MsPerHour;
    assert d == (days * 24 + hours) * MsPerHour + r2;
    DivModUnique(d, MsPerHour, days * 24 + hours, r2);
    var minutes, r3 := r2 / MsPerMinute, r2 % MsPerMinute;
    assert d == ((days * 24 + hours) * 60 + minutes) * MsPerMinute + r3;
    DivModUnique(d, MsPerMinute, (days * 24 + hours) * 60 + minutes, r3);
    var seconds := r3 / MsPerSecond;
    assert hours < 24 && minutes < 60 && seconds < 60;
  }

  /** A decomposition in range that recomposes to within a second of `d` is
      the one `Decompose` computes: the fields are determined by `d`. */
  lemma DecomposeUnique(d: nat, t: TimeLeft)
    requires d > 0 && InRange(t)
    requires Millis(t) <= d < Millis(t) + 1000
    ensures Decompose(d) == t
  {
    var s := d - Millis(t);
    var belowDay := MsPerHour * t.hours + MsPerMinute * t.minutes + MsPerSecond * t.seconds + s;
    DivModUnique(d, MsPerDay, t.days, belowDay);
    DivModUnique(belowDay, MsPerHour, t.hours, belowDay - MsPerHour * t.hours);
    var belowHour := MsPerMinute * t.minutes + MsPerSecond * t.seconds + s;
    DivModUnique(d, MsPerHour, t.days * 24 + t.hours, belowHour);
    DivModUnique(belowHour, MsPerMinute, t.minutes, belowHour - MsPerMinute * t.minutes);
    var belowMinute := MsPerSecond * t.seconds + s;
    DivModUnique(d, MsPerMinute, (t.days * 24 + t.hours) * 60 + t.minutes, belowMinute);
    DivModUnique(belowMinute, MsPerSecond, t.seconds, s);
  }

  /** The decomposition is `d` rounded down to whole seconds. */
  lemma DecomposeWholeSeconds(d: nat)
    requires d > 0
    ensures Millis(Decompose(d)) == (d / 1000) * 1000
  {
    var t := Decompose(d);
    var q := t.days * 86400 + t.hours * 3600 + t.minutes * 60 + t.seconds;
    assert Millis(t) == q * 1000;
    DivModUnique(d, 1000, q, d - Millis(t));
  }

  /** Less time left never shows more: the displayed time does not go up
      as the clock advances. */
  lemma DecomposeMonotone(d1: nat, d2: nat)
    requires 0 < d2 <= d1
    ensures Millis(Decompose(d2)) <= Millis(Decompose(d1))
  {
    DecomposeWholeSeconds(d1);
    DecomposeWholeSeconds(d2);
    assert d2 / 1000 <= d1 / 1000;
    MulMonotone(d1 / 1000, d2 / 1000, 1000);
  }

  /** What `calculateTimeLeft` writes: the decomposition and whether the
      promotion has expired. */
  datatype Reading = Reading(timeLeft: TimeLeft, expired: bool)

  function Calculate(endTime: Option<int>, now: int): (r: Reading)
    ensures r.expired <==> endTime.None? || endTime.value - now <= 0
    ensures r.expired ==> r.timeLeft == Zero
    ensures !r.expired ==>
      InRange(r.timeLeft) && Millis(r.timeLeft) <= endTime.value - now < Millis(r.timeLeft) + 1000
  {
    if endTime.Some? && endTime.value - now > 0 then Reading(Decompose(endTime.value - now), false)
    else Reading(Zero, true)
  }

  /** Time never brings an expired promotion back. */
  lemma ExpiredStaysExpired(endTime: Option<int>, now1: int, now2: int)
    requires now1 <= now2 && Calculate(endTime, now1).expired
    ensures Calculate(endTime, now2).expired
  {
  }

  // ---------------------------------------------------------------------------
  // Rendering

  /** What the component renders: the fixed placeholder before mounting,
      nothing once expired, otherwise the counter's text. */
  datatype Display = Placeholder(text: string) | Nothing | Counter(text: string)

  const PlaceholderText: string := "00:00:00"

  /** `String(n).padStart(2, "0")`. */
  function Pad2(n: nat): string {
    PadStart(NatToString(n), 2, '0')
  }

  /** `hh:mm:ss`. */
  function ClockText(t: TimeLeft): string {
    Pad2(t.hours) + ":" + Pad2(t.minutes) + ":" + Pad2(t.seconds)
  }

  /** The counter: `{days}d ` only when there are days left, then the clock. */
  function CounterText(t: TimeLeft): string {
    (if t.days > 0 then NatToString(t.days) + "d " else "") + ClockText(t)
  }

  function Render(isMounted: bool, isExpired: bool, t: TimeLeft): Display {
    if !isMounted then Placeholder(PlaceholderText)
    else if isExpired then Nothing
    else Counter(CounterText(t))
  }

  /** Below 100 the padded field is two digits that read back as the number. */
  lemma Pad2RoundTrip(n: nat)
    requires n < 100
    ensures |Pad2(n)| == 2 && AllDigits(Pad2(n))
    ensures ParseInt(Pad2(n)) == Some(n)
  {
    if n < 10 {
      PadOneDigit(n);
    } else {
      PadTwoDigits(n);
    }
    ParseIntOfDigits(Pad2(n));
  }

  lemma PadOneDigit(n: nat)
    requires n < 10
    ensures |Pad2(n)| == 2 && AllDigits(Pad2(n)) && DigitsValue(Pad2(n)) == n
  {
    var p := Pad2(n);
    assert NatToString(n) == [DigitChar(n)];
    assert p[..1] == ['0'] && p[1] == DigitChar(n);
    assert DigitsValue(p[..1]) == 0 by { assert p[..1][..0] == []; }
  }

  lemma PadTwoDigits(n: nat)
    requires 10 <= n < 100
    ensures |Pad2(n)| == 2 && AllDigits(Pad2(n)) && DigitsValue(Pad2(n)) == n
  {
    assert NatToString(n / 10) == [DigitChar(n / 10)];
    assert |NatToString(n)| == 2;
    DigitsValueOfNatToString(n);
  }

  /** The clock splits at its two colons into three two-digit fields that
      read back as the hours, minutes and seconds. */
  lemma ClockRoundTrip(t: TimeLeft)
    requires InRange(t)
    ensures |ClockText(t)| == 8
    ensures Split(ClockText(t), ':') == [Pad2(t.hours), Pad2(t.minutes), Pad2(t.seconds)]
    ensures ParseInt(Pad2(t.hours)) == Some(t.hours)
    ensures ParseInt(Pad2(t.minutes)) == Some(t.minutes)
    ensures ParseInt(Pad2(t.seconds)) == Some(t.seconds)
  {
    Pad2RoundTrip(t.hours);
    Pad2RoundTrip(t.minutes);
    Pad2RoundTrip(t.seconds);
    SplitThreeFields(Pad2(t.hours), Pad2(t.minutes), Pad2(t.seconds));
  }

  lemma SplitThreeFields(h: string, m: string, s: string)
    requires AllDigits(h) && AllDigits(m) && AllDigits(s)
    ensures Split(h + ":" + m + ":" + s, ':') == [h, m, s]
  {
    assert ':' !in h && ':' !in m && ':' !in s;
    assert h + ":" + m + ":" + s == h + [':'] + (m + [':'] + s);
    SplitAtFirstSeparator(h, m + [':'] + s, ':');
    SplitAtFirstSeparator(m, s, ':');
    SplitWithoutSeparator(s, ':');
  }

  /** The counter mentions days (its only 'd') exactly when days are left. */
  lemma DaysShownIff(t: TimeLeft)
    requires InRange(t)
    ensures 'd' in CounterText(t) <==> t.days > 0
  {
    Pad2RoundTrip(t.hours);
    Pad2RoundTrip(t.minutes);
    Pad2RoundTrip(t.seconds);
    NoLetterInClock(Pad2(t.hours), Pad2(t.minutes), Pad2(t.seconds));
    if t.days > 0 {
      var days := NatToString(t.days);
      assert CounterText(t) == days + "d " + ClockText(t);
      assert CounterText(t)[|days|] == 'd';
    }
  }

  lemma NoLetterInClock(h: string, m: string, s: string)
    requires AllDigits(h) && AllDigits(m) && AllDigits(s)
    ensures 'd' !in h + ":" + m + ":" + s
  {
    assert 'd' !in h && 'd' !in m && 'd' !in s;
  }

  // ---------------------------------------------------------------------------
  // Component state

  class CountdownTimer {
    var endTime: Option<int>
    var timeLeft: TimeLeft
    var isExpired: bool
    var isMounted: bool

    ghost predicate Valid()
      reads this
    {
      InRange(timeLeft) && (isExpired ==> timeLeft == Zero)
    }

    function View(): Display
      reads this
    {
      Render(isMounted, isExpired, timeLeft)
    }

    /** The first render: all zero, not expired, not mounted. */
    constructor(endTime: Option<int>)
      ensures Valid()
      ensures this.endTime == endTime && timeLeft == Zero && !isExpired && !isMounted
      ensures View() == Placeholder(PlaceholderText)
    {
      this.endTime := endTime;
      timeLeft := Zero;
      isExpired := false;
      isMounted := false;
    }

    /** `calculateTimeLeft` at clock `now`. */
    method Refresh(now: int)
      modifies this
      ensures Valid() && endTime == old(endTime) && isMounted == old(isMounted)
      ensures Reading(timeLeft, isExpired) == Calculate(endTime, now)
    {
      var r := Calculate(endTime, now);
      timeLeft := r.timeLeft;
      isExpired := r.expired;
    }

    /** The effect, run on mount and whenever the end date changes: mark the
        component mounted and compute at once; the interval then calls
        `Refresh` every second. */
    method Start(newEnd: Option<int>, now: int)
      modifies this
      ensures Valid() && isMounted && endTime == newEnd
      ensures Reading(timeLeft, isExpired) == Calculate(newEnd, now)
      ensures View() == Nothing <==> isExpired
      ensures View().Counter? ==> View().text == CounterText(timeLeft)
    {
      isMounted := true;
      endTime := newEnd;
      Refresh(now);
    }
  }
}
