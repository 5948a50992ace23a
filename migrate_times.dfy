/**
 * migrate-times: convertToEST, which rewrites a local air time such as
 * "7:00 PM" as the Eastern time it stands for, given the market's time zone.
 */
module MigrateTimes {
  import opened Common

  /** The offset of a time zone from Eastern time, in hours; an unknown zone counts as Eastern. */
  function Offset(timezone: string): (r: int)
    ensures -5 <= r <= 0
    ensures timezone !in {"CST", "MST", "PST", "AKST", "HST"} ==> r == 0
  {
    if timezone == "CST" then -1
    else if timezone == "MST" then -2
    else if timezone == "PST" then -3
    else if timezone == "AKST" then -4
    else if timezone == "HST" then -5
    else 0
  }

  /**
   * `(\d+):(\d+)\s*(AM|PM)` tried at q, ignoring case: the end of the match.
   * Each run is taken whole: a shorter one would leave a digit or a space
   * where the next part needs something else.
   */
  function ClockAt(s: string, q: nat): (r: Option<nat>)
    ensures r.Some? ==> q < r.value <= |s|
  {
    if q > |s| then None
    else
      var c := q + RunLength(s, q, IsDigit);
      if c == q || c >= |s| || s[c] != ':' then None else MinutesAt(s, c + 1)
  }

  /** `(\d+)\s*(AM|PM)` from just after the colon. */
  function MinutesAt(s: string, b: nat): (r: Option<nat>)
    requires b <= |s|
    ensures r.Some? ==> b < r.value <= |s|
  {
    var m := b + RunLength(s, b, IsDigit);
    if m == b then None else PeriodAt(s, m + RunLength(s, m, IsWs))
  }

  /** `AM|PM` at p, ignoring case. */
  predicate IsPeriod(s: string, p: nat)
  {
    p + 2 <= |s| && (LowerChar(s[p]) == 'a' || LowerChar(s[p]) == 'p') && LowerChar(s[p + 1]) == 'm'
  }

  function PeriodAt(s: string, p: nat): (r: Option<nat>)
    ensures r.Some? ==> r.value == p + 2 <= |s|
  {
    if IsPeriod(s, p) then Some(p + 2) else None
  }

  /** The parts of the clock found at q: the hour digits, the minute digits and the period in capitals. */
  datatype Clock = Clock(hourDigits: string, minutes: string, period: string)

  function ClockParts(s: string, q: nat, e: nat): (r: Clock)
    requires ClockAt(s, q) == Some(e)
    ensures |r.hourDigits| > 0 && AllDigits(r.hourDigits) && |r.minutes| > 0 && AllDigits(r.minutes)
    ensures r.period == "AM" || r.period == "PM"
  {
    var c := q + RunLength(s, q, IsDigit);
    var m := c + 1 + RunLength(s, c + 1, IsDigit);
    Clock(s[q..c], s[c + 1..m], if LowerChar(s[e - 2]) == 'p' then "PM" else "AM")
  }

  // ----- The clock arithmetic -----

  /** To the 24-hour clock: PM adds 12 except to 12, and 12 AM is 0. */
  function To24(hours: nat, period: string): nat
  {
    if period == "PM" && hours != 12 then hours + 12
    else if period == "AM" && hours == 12 then 0
    else hours
  }

  /** The day overflow and underflow: one day added or taken away. */
  function Wrap(h: int): int
  {
    var a := if h >= 24 then h - 24 else h;
    if a < 0 then a + 24 else a
  }

  /** The hour shown on the 12-hour clock. */
  function DisplayHour(h: int): int
  {
    if h == 0 then 12 else if h > 12 then h - 12 else h
  }

  function NewPeriod(h: int): string
  {
    if h >= 12 then "PM" else "AM"
  }

  /** The Eastern hour on the 24-hour clock. */
  function EstHour(hours: nat, period: string, offset: int): int
  {
    Wrap(To24(hours, period) - offset)
  }

  /** The time written back. */
  function ConvertClock(hours: nat, minutes: string, period: string, offset: int): string
  {
    var h := EstHour(hours, period, offset);
    IntToString(DisplayHour(h)) + ":" + minutes + " " + NewPeriod(h)
  }

  /** convertToEST: the first clock found, converted; a text without one is returned as it is. */
  function ConvertToEst(localTime: string, timezone: string): string
  {
    match FirstMatch(localTime, 0, ClockAt)
    case None => localTime
    case Some((q, e)) =>
      var clock := ClockParts(localTime, q, e);
      ConvertClock(DigitsValue(clock.hourDigits), clock.minutes, clock.period, Offset(timezone))
  }

  // ----- Properties -----

  /** A text with no colon holds no clock, and is written back as it was. */
  lemma NoColonUnchanged(localTime: string, timezone: string)
    requires ':' !in localTime
    ensures ConvertToEst(localTime, timezone) == localTime
  {
    forall q | 0 <= q <= |localTime|
      ensures ClockAt(localTime, q).None?
    {
    }
    FirstMatchNone(localTime, 0, ClockAt);
  }

  /** Within two days either way, the wrap is the hour of the day. */
  lemma WrapIsHourOfDay(h: int)
    requires -24 <= h < 48
    ensures 0 <= Wrap(h) < 24 && Wrap(h) == h % 24
  {
  }

  /** An hour of the day is shown as 1 to 12 with its period, and reads back as itself. */
  lemma DisplayReadsBack(h: int)
    requires 0 <= h < 24
    ensures 1 <= DisplayHour(h) <= 12
    ensures NewPeriod(h) == "PM" <==> h >= 12
    ensures To24(DisplayHour(h) as nat, NewPeriod(h)) == h
  {
  }

  /** 12 AM is midnight, 12 PM is noon, and the other PM hours add 12. */
  lemma To24Clock(hours: nat)
    requires 1 <= hours <= 12
    ensures To24(hours, "AM") == hours % 12
    ensures To24(hours, "PM") == hours % 12 + 12
  {
  }

  /**
   * For a clock hour and any of the known offsets, the time written back is
   * the local time moved by the offset, modulo one day, with the minutes as
   * they were.
   */
  lemma ConvertClockShifts(hours: nat, minutes: string, period: string, offset: int)
    requires 1 <= hours <= 12 && (period == "AM" || period == "PM") && -5 <= offset <= 0
    ensures var h := EstHour(hours, period, offset);
      h == (To24(hours, period) - offset) % 24 &&
      1 <= DisplayHour(h) <= 12 &&
      To24(DisplayHour(h) as nat, NewPeriod(h)) == (To24(hours, period) - offset) % 24
  {
    WrapIsHourOfDay(To24(hours, period) - offset);
    DisplayReadsBack(EstHour(hours, period, offset));
  }

  /** An Eastern time comes back with the same hour and period. */
  lemma EasternUnchanged(hours: nat, minutes: string, period: string)
    requires 1 <= hours <= 12 && (period == "AM" || period == "PM")
    ensures DisplayHour(EstHour(hours, period, 0)) == hours && NewPeriod(EstHour(hours, period, 0)) == period
  {
  }

  /**
   * A text that opens with a clock: digits up to c, a colon, digits up to m,
   * blanks up to p and a period. That clock is the one converted, its hour
   * read as a decimal number and its minutes copied as they are.
   */
  lemma ConvertToEstOfClock(s: string, c: nat, m: nat, p: nat, timezone: string)
    requires 0 < c && c + 1 < m <= p && IsPeriod(s, p)
    requires AllDigits(s[..c]) && s[c] == ':' && AllDigits(s[c + 1..m]) && AllWs(s[m..p])
    ensures ConvertToEst(s, timezone) ==
      ConvertClock(DigitsValue(s[..c]), s[c + 1..m], if LowerChar(s[p]) == 'p' then "PM" else "AM", Offset(timezone))
  {
    ClockOfRuns(s, c, m, p);
    ConvertAtStart(s, p + 2, s[..c], s[c + 1..m], if LowerChar(s[p]) == 'p' then "PM" else "AM", timezone);
  }

  /** Such a text opens with a clock ending after the period, made of the three runs. */
  lemma ClockOfRuns(s: string, c: nat, m: nat, p: nat)
    requires 0 < c && c + 1 < m <= p && IsPeriod(s, p)
    requires AllDigits(s[..c]) && s[c] == ':' && AllDigits(s[c + 1..m]) && AllWs(s[m..p])
    ensures ClockAt(s, 0) == Some(p + 2)
    ensures ClockParts(s, 0, p + 2) == Clock(s[..c], s[c + 1..m], if LowerChar(s[p]) == 'p' then "PM" else "AM")
  {
    ClockRuns(s, c, m, p);
    ClockAtOfRuns(s, c, m, p);
    ClockPartsOfRuns(s, c, m, p);
  }

  /** A clock at the very start is the one converted. */
  lemma ConvertAtStart(s: string, e: nat, hourDigits: string, minutes: string, period: string, timezone: string)
    requires ClockAt(s, 0) == Some(e) && ClockParts(s, 0, e) == Clock(hourDigits, minutes, period)
    ensures ConvertToEst(s, timezone) == ConvertClock(DigitsValue(hourDigits), minutes, period, Offset(timezone))
  {
    FirstMatchAt(s, 0, 0, ClockAt);
  }

  /** The three runs of such a text. */
  lemma ClockRuns(s: string, c: nat, m: nat, p: nat)
    requires 0 < c && c + 1 < m <= p && IsPeriod(s, p)
    requires AllDigits(s[..c]) && s[c] == ':' && AllDigits(s[c + 1..m]) && AllWs(s[m..p])
    ensures RunLength(s, 0, IsDigit) == c
    ensures c + 1 + RunLength(s, c + 1, IsDigit) == m
    ensures m + RunLength(s, m, IsWs) == p
  {
    assert RunLength(s, 0, IsDigit) == c by {
      assert s[..c] == s[0..c];
      SliceRun(s, 0, c, IsDigit);
    }
    assert c + 1 + RunLength(s, c + 1, IsDigit) == m by {
      assert !IsDigit(s[m]) by {
        if m < p { assert s[m] == s[m..p][0]; }
      }
      SliceRun(s, c + 1, m, IsDigit);
    }
    assert m + RunLength(s, m, IsWs) == p by {
      SliceRun(s, m, p, IsWs);
    }
  }

  /** The run from i is the slice up to j when the slice satisfies p and the character at j does not. */
  lemma SliceRun(s: string, i: nat, j: nat, p: char -> bool)
    requires i <= j < |s| && !p(s[j])
    requires forall k :: 0 <= k < j - i ==> p(s[i..j][k])
    ensures i + RunLength(s, i, p) == j
  {
    assert forall k :: i <= k < j ==> s[k] == s[i..j][k - i];
    RunLengthExact(s, i, j - i, p);
  }

  lemma ClockAtOfRuns(s: string, c: nat, m: nat, p: nat)
    requires 0 < c && c + 1 < m <= p && p + 2 <= |s| && s[c] == ':'
    requires RunLength(s, 0, IsDigit) == c
    requires c + 1 + RunLength(s, c + 1, IsDigit) == m
    requires m + RunLength(s, m, IsWs) == p
    requires IsPeriod(s, p)
    ensures ClockAt(s, 0) == Some(p + 2)
  {
    MinutesOfRuns(s, c + 1, m, p);
  }

  lemma ClockPartsOfRuns(s: string, c: nat, m: nat, p: nat)
    requires ClockAt(s, 0) == Some(p + 2)
    requires RunLength(s, 0, IsDigit) == c
    requires c + 1 + RunLength(s, c + 1, IsDigit) == m
    ensures ClockParts(s, 0, p + 2) == Clock(s[..c], s[c + 1..m], if LowerChar(s[p]) == 'p' then "PM" else "AM")
  {
  }

  /** Minute digits up to m and blanks up to p, then the period. */
  lemma MinutesOfRuns(s: string, b: nat, m: nat, p: nat)
    requires b < m <= p <= |s|
    requires b + RunLength(s, b, IsDigit) == m
    requires m + RunLength(s, m, IsWs) == p
    ensures MinutesAt(s, b) == PeriodAt(s, p)
  {
  }
}
